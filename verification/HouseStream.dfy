/** The nested byte stream in which the items of house tiles are kept. */
module HouseStream {
  import opened Wrappers
  import opened Bytes
  import Customs = CustomAttributes

  /** What the stream needs to know of a kind of item. `charges` and `duration` are the values a
      new item of the kind starts with, and `decayTo` is the kind it decays to, if not negative. */
  datatype Type = Type(container: bool, stackable: bool, fluid: bool, moveable: bool, charges: nat, duration: nat,
                       decayTo: int)

  datatype Field = Number(n: int) | Text(s: seq<Byte>)

  /** An item: its own count or fluid, its other attributes under their stream tags, those that scripts
      gave it, and what it contains, front first. */
  datatype Item = Item(id: nat, count: nat, fluid: nat, attrs: map<Byte, Field>, custom: Option<seq<Customs.Entry>>,
                       items: seq<Item>)

  datatype Layout = Whole(width: nat) | Integer(width: nat) | Str | Other

  const ACTION_ID: Byte := 4
  const UNIQUE_ID: Byte := 5
  const LEAST_ACTION_ID := 100
  const TEXT: Byte := 6
  const DESC: Byte := 7
  const RUNE_CHARGES: Byte := 12
  const COUNT: Byte := 15
  const DURATION: Byte := 16
  const DECAYING_STATE: Byte := 17
  const WRITTENDATE: Byte := 18
  const WRITTENBY: Byte := 19
  const CHARGES: Byte := 22
  const CONTAINER_ITEMS: Byte := 23
  const CUSTOM: Byte := 34
  const DECAYTO: Byte := 35
  const ATTACK_SPEED: Byte := 38
  const LEAST_ATTACK_SPEED := 100
  const DECAYING_FALSE := 0
  const DECAYING_TRUE := 1
  const DECAYING_PENDING := 2

  /** The tags written after the count and the charges, in the order they are written. */
  const ORDER: seq<Byte> :=
    [ACTION_ID, TEXT, WRITTENDATE, WRITTENBY, DESC, DURATION, DECAYING_STATE,
     24, 25, 26, 27, 28, 38, 29, 30, 31, 32, 33, 35, 36, 37]

  function LayoutOf(tag: Byte): Layout {
    match tag as nat
    case 33 => Whole(1) case 37 => Whole(1) case 17 => Whole(1)
    case 4 => Whole(2) case 5 => Whole(2) case 36 => Whole(2)
    case 27 => Whole(4) case 38 => Whole(4)
    case 32 => Integer(1)
    case 16 => Integer(4) case 28 => Integer(4) case 29 => Integer(4) case 30 => Integer(4)
    case 31 => Integer(4) case 35 => Integer(4) case 18 => Integer(4)
    case 6 => Str case 7 => Str case 19 => Str case 24 => Str case 25 => Str case 26 => Str
    case _ => Other
  }

  /** The bytes that a tag of a class the item no longer has takes up. */
  function Leftover(tag: Byte): nat {
    match tag as nat
    case 10 => 2 case 14 => 1 case 20 => 4 case 21 => 4 case 8 => 5
    case _ => 0
  }

  // ------------------------------------------------------------------ writing

  function SubType(ty: Type, t: Item): nat {
    if ty.fluid then t.fluid else if ty.stackable then t.count
    else if ty.charges != 0 then Charges(t) else t.count
  }

  function Charges(t: Item): nat {
    if CHARGES in t.attrs && t.attrs[CHARGES].Number? then t.attrs[CHARGES].n % 65536 else 0
  }

  /** Is the attribute written at all? */
  predicate Written(ty: Type, t: Item, tag: Byte) {
    tag in t.attrs && WellTyped(tag, t.attrs[tag]) &&
    (if tag == ACTION_ID then ty.moveable && t.attrs[tag].n % 65536 != 0
     else if tag == TEXT || tag == WRITTENBY || tag == DESC then t.attrs[tag].s != []
     else if tag == WRITTENDATE then t.attrs[tag].n != 0
     else if tag == DECAYING_STATE then t.attrs[tag].n == DECAYING_TRUE || t.attrs[tag].n == DECAYING_PENDING
     else tag != UNIQUE_ID)
  }

  predicate WellTyped(tag: Byte, f: Field) {
    match LayoutOf(tag)
    case Str => f.Text?
    case Other => false
    case _ => f.Number?
  }

  function Payload(tag: Byte, f: Field): seq<Byte>
    requires WellTyped(tag, f)
  {
    match LayoutOf(tag)
    case Str => Quoted(f.s)
    case Whole(width) => Le(width, f.n)
    case Integer(width) => Le(width, f.n)
    case Other => []
  }

  function Tagged(ty: Type, t: Item, tag: Byte): seq<Byte> {
    if Written(ty, t, tag) then [tag] + Payload(tag, t.attrs[tag]) else []
  }

  function AllTagged(ty: Type, t: Item, tags: seq<Byte>): seq<Byte> {
    if tags == [] then [] else Tagged(ty, t, tags[0]) + AllTagged(ty, t, tags[1..])
  }

  function CountPart(ty: Type, t: Item): seq<Byte> {
    if ty.stackable || ty.fluid then [COUNT] + Le(1, SubType(ty, t)) else []
  }

  function ChargesPart(t: Item): seq<Byte> {
    if Charges(t) != 0 then [CHARGES] + Le(2, Charges(t)) else []
  }

  function CustomPart(t: Item): seq<Byte> {
    match t.custom
    case Some(es) => [CUSTOM] + (Le(8, |es|) + Customs.ListBytes(es))
    case None => []
  }

  function Attributes(ty: Type, t: Item): seq<Byte> {
    InOrder(ty, t, ORDER)
  }

  /** The attributes, those with tags in the given order. */
  function InOrder(ty: Type, t: Item, tags: seq<Byte>): seq<Byte> {
    CountPart(ty, t) + (ChargesPart(t) + (AllTagged(ty, t, tags) + CustomPart(t)))
  }

  /** A tag of an attribute kept as it is read. */
  predicate Ordinary(tag: Byte) {
    LayoutOf(tag) != Other
  }

  /** The attributes are of the types their tags have. */
  ghost predicate WellFormed(ty: Type, t: Item) {
    && ty.charges < 65536 && (t.custom.Some? ==> Customs.IsMap(t.custom.value))
    && forall tag :: tag in t.attrs ==>
         if tag == CHARGES then t.attrs[tag].Number? else Ordinary(tag) && WellTyped(tag, t.attrs[tag])
  }

  /** Every item is of a known kind, and only containers contain anything. */
  ghost predicate Known(types: map<nat, Type>, t: Item)
    decreases t
  {
    && t.id in types && t.id < 65536 && |t.items| < Power(4)
    && (t.items != [] ==> types[t.id].container) && WellFormed(types[t.id], t)
    && AllKnown(types, t.items)
  }

  ghost predicate AllKnown(types: map<nat, Type>, ts: seq<Item>)
    decreases ts
  {
    forall i :: 0 <= i < |ts| ==> Known(types, ts[i])
  }

  function Encode(types: map<nat, Type>, t: Item): seq<Byte>
    requires Known(types, t)
    decreases t, 2
  {
    var ty := types[t.id];
    Le(2, t.id) + (Attributes(ty, t) + Tail(types, t))
  }

  /** What follows the attributes: for a container its contents, then the end byte. */
  function Tail(types: map<nat, Type>, t: Item): seq<Byte>
    requires Known(types, t)
    decreases t, 1
  {
    if types[t.id].container then [CONTAINER_ITEMS] + (Le(4, |t.items|) + (EncodeAll(types, t.items) + [0])) else [0]
  }

  /** Last item first. */
  function EncodeAll(types: map<nat, Type>, ts: seq<Item>): seq<Byte>
    requires AllKnown(types, ts)
    decreases ts, 0
  {
    if ts == [] then [] else Encode(types, ts[|ts| - 1]) + EncodeAll(types, ts[..|ts| - 1])
  }

  // ------------------------------------------------------------------ reading

  function SetSubType(ty: Type, t: Item, n: nat): Item {
    if ty.fluid then t.(fluid := n)
    else if ty.stackable then t.(count := n)
    else if ty.charges != 0 then t.(attrs := t.attrs[CHARGES := Number(n)])
    else t.(count := n)
  }

  /** A new item of the kind. */
  function Fresh(id: nat, ty: Type): Item {
    var charges := if !ty.fluid && !ty.stackable && ty.charges != 0 then map[CHARGES := Number(ty.charges)] else map[];
    Item(id, 1, 0, if ty.duration != 0 then charges[DURATION := Number(ty.duration)] else charges, None, [])
  }

  /** How a value read under a tag is kept. */
  function Kept(tag: Byte, f: Field): Field {
    if f.Text? then f
    else if tag == DURATION then Number(if f.n < 0 then 0 else f.n)
    else if tag == ACTION_ID then Number(if f.n < LEAST_ACTION_ID then LEAST_ACTION_ID else f.n)
    else if tag == ATTACK_SPEED then Number(if f.n < LEAST_ATTACK_SPEED then LEAST_ATTACK_SPEED else f.n)
    else if tag == DECAYING_STATE && f.n != DECAYING_FALSE then Number(DECAYING_PENDING)
    else f
  }

  function FieldAt(b: seq<Byte>, p: nat, layout: Layout): (r: Got<Field>)
    ensures r.Got? ==> p <= r.next <= |b|
  {
    match layout
    case Other => Short
    case Str => (match StringAt(b, p) case Got(s, next) => Got(Text(s), next) case Short => Short)
    case Whole(width) => (match NumberAt(b, p, width) case Got(n, next) => Got(Number(n), next) case Short => Short)
    case Integer(width) =>
      (match NumberAt(b, p, width) case Got(n, next) => Got(Number(Signed(width, n)), next) case Short => Short)
  }

  /** No decay, and no text, are not set. */
  function Keep(t: Item, tag: Byte, f: Field): Item {
    if f == Text([]) || (tag == DECAYING_STATE && f == Number(DECAYING_FALSE)) then t
    else t.(attrs := t.attrs[tag := Kept(tag, f)])
  }

  /** What scripts gave the item, after more of it was read. */
  function CustomAt(t: Item, b: seq<Byte>, p: nat): (r: Got<Item>)
    ensures r.Got? ==> p <= r.next <= |b|
  {
    match NumberAt(b, p, 8)
    case Short => Short
    case Got(size, next) =>
      match Customs.ListAt(t.custom, size, b, next) {
        case Short => Short
        case Got(es, end) => Got(t.(custom := es), end)
      }
  }

  /** One attribute after its tag. */
  function AttributeAt(ty: Type, t: Item, b: seq<Byte>, p: nat, tag: Byte): (r: Got<Item>)
    ensures r.Got? ==> p <= r.next <= |b|
  {
    if tag == COUNT || tag == RUNE_CHARGES || tag == CHARGES then
      match NumberAt(b, p, if tag == CHARGES then 2 else 1) {
        case Got(n, next) => Got(SetSubType(ty, t, n), next)
        case Short => Short
      }
    else if Leftover(tag) > 0 then
      if p + Leftover(tag) <= |b| then Got(t, p + Leftover(tag)) else Short
    else if tag == CUSTOM then CustomAt(t, b, p)
    else
      match FieldAt(b, p, LayoutOf(tag)) {
        case Got(f, next) => Got(Keep(t, tag, f), next)
        case Short => Short
      }
  }

  /** The end of the attributes: a zero byte or the end of the data, or a count of contents. */
  datatype Attributed = Ended(item: Item, next: nat) | Contents(item: Item, count: nat, next: nat) | Failed

  function AttributesAt(ty: Type, t: Item, b: seq<Byte>, p: nat): (r: Attributed)
    ensures !r.Failed? && p <= |b| ==> p <= r.next <= |b|
    ensures r.Contents? ==> ty.container
    decreases |b| - p, 2
  {
    if p >= |b| then Ended(t, p) else if b[p] == 0 then Ended(t, p + 1) else MoreAt(ty, t, b, p)
  }

  /** The contents of a container come after its own attributes. */
  function MoreAt(ty: Type, t: Item, b: seq<Byte>, p: nat): (r: Attributed)
    requires p < |b|
    ensures !r.Failed? ==> p <= r.next <= |b|
    ensures r.Contents? ==> ty.container
    decreases |b| - p, 1
  {
    if b[p] == CONTAINER_ITEMS && ty.container then
      match NumberAt(b, p + 1, 4) {
        case Got(n, next) => Contents(t, n, next)
        case Short => Failed
      }
    else NextAt(ty, t, b, p)
  }

  function NextAt(ty: Type, t: Item, b: seq<Byte>, p: nat): (r: Attributed)
    requires p < |b|
    ensures !r.Failed? ==> p <= r.next <= |b|
    ensures r.Contents? ==> ty.container
    decreases |b| - p, 0
  {
    match AttributeAt(ty, t, b, p + 1, b[p])
    case Short => Failed
    case Got(t', next) => AttributesAt(ty, t', b, next)
  }

  /** The next item of the stream; nothing when its kind is unknown. */
  function ItemAt(types: map<nat, Type>, b: seq<Byte>, p: nat): (r: Got<Option<Item>>)
    ensures r.Got? ==> p < r.next <= |b|
    decreases |b| - p, 1
  {
    match NumberAt(b, p, 2)
    case Short => Short
    case Got(id, next) =>
      if id !in types then Got(None, next)
      else Finish(types, id, AttributesAt(types[id], Fresh(id, types[id]), b, next), b, next)
  }

  /** An item after its attributes. */
  function Finish(types: map<nat, Type>, id: nat, r: Attributed, b: seq<Byte>, p: nat): (g: Got<Option<Item>>)
    requires id in types && (r.Failed? || p <= r.next <= |b|)
    ensures g.Got? ==> p <= g.next <= |b|
    decreases |b| - p, 3
  {
    match r
    case Failed => Short
    case Ended(t, next) => if types[id].container then ContentsAt(types, t, 0, b, next) else Got(Some(t), next)
    case Contents(t, count, next) => ContentsAt(types, t, count, b, next)
  }

  /** The contents of `t`, each put in front of the ones before, and the byte that ends them. */
  function ContentsAt(types: map<nat, Type>, t: Item, count: nat, b: seq<Byte>, p: nat): (r: Got<Option<Item>>)
    requires p <= |b|
    ensures r.Got? ==> p < r.next <= |b|
    decreases |b| - p, 2, count
  {
    if count == 0 then if p < |b| && b[p] == 0 then Got(Some(t), p + 1) else Short
    else
      match ItemAt(types, b, p) {
        case Short => Short
        case Got(inner, next) =>
          var items := if inner.Some? then [inner.value] + t.items else t.items;
          ContentsAt(types, t.(items := items), count - 1, b, next)
      }
  }

  // ------------------------------------------------------ what comes back

  /** The value that the bytes written for `f` are read as. */
  function Cut(tag: Byte, f: Field): Field
    requires WellTyped(tag, f)
  {
    match LayoutOf(tag)
    case Str => if |f.s| > MAX_STRING then Text([]) else f
    case Whole(width) => Number(f.n % Power(width))
    case Integer(width) => Number(Signed(width, f.n % Power(width)))
    case Other => f
  }

  function Absorb(ty: Type, t: Item, tags: seq<Byte>, into: Item): Item {
    if tags == [] then into
    else Absorb(ty, t, tags[1..], Absorbed(ty, t, tags[0], into))
  }

  function WithCount(ty: Type, t: Item): Item {
    if ty.stackable || ty.fluid then SetSubType(ty, Fresh(t.id, ty), SubType(ty, t) % 256) else Fresh(t.id, ty)
  }

  function WithCharges(ty: Type, t: Item): Item {
    if Charges(t) != 0 then SetSubType(ty, WithCount(ty, t), Charges(t)) else WithCount(ty, t)
  }

  function CustomBack(t: Item): Option<seq<Customs.Entry>> {
    match t.custom
    case Some(es) => Customs.SetAll(None, es)
    case None => None
  }

  /** What is read back of an item itself. */
  function Own(ty: Type, t: Item): Item {
    OwnInOrder(ty, t, ORDER)
  }

  function OwnInOrder(ty: Type, t: Item, tags: seq<Byte>): Item {
    Absorb(ty, t, tags, WithCharges(ty, t)).(custom := CustomBack(t))
  }

  /** What is read back of an item with its contents. */
  ghost function Reloaded(types: map<nat, Type>, t: Item): Item
    requires Known(types, t)
    decreases t, 1
  {
    Own(types[t.id], t).(items := ReloadedAll(types, t.items))
  }

  ghost function ReloadedAll(types: map<nat, Type>, ts: seq<Item>): (r: seq<Item>)
    requires AllKnown(types, ts)
    ensures |r| == |ts|
    decreases ts, 0
  {
    if ts == [] then [] else ReloadedAll(types, ts[..|ts| - 1]) + [Reloaded(types, ts[|ts| - 1])]
  }

  lemma {:induction false} ReadsField(b: seq<Byte>, p: nat, tag: Byte, f: Field)
    requires WellTyped(tag, f) && At(b, p, Payload(tag, f))
    ensures FieldAt(b, p, LayoutOf(tag)) == Got(Cut(tag, f), p + |Payload(tag, f)|)
  {
    match LayoutOf(tag)
    case Str => ReadsString(b, p, f.s);
    case Whole(width) => ReadsNumber(b, p, width, f.n);
    case Integer(width) => ReadsNumber(b, p, width, f.n);
    case Other =>
  }

  predicate Plain(tag: Byte) {
    && tag != 0 && tag != COUNT && tag != RUNE_CHARGES && tag != CHARGES && tag != CONTAINER_ITEMS && tag != CUSTOM
    && Leftover(tag) == 0
  }

  predicate AllPlain(tags: seq<Byte>) {
    forall i :: 0 <= i < |tags| ==> Plain(tags[i])
  }

  lemma {:induction false} OneAttribute(ty: Type, t: Item, b: seq<Byte>, p: nat, t': Item, next: nat)
    requires p < |b| && b[p] != 0 && b[p] != CONTAINER_ITEMS && AttributeAt(ty, t, b, p + 1, b[p]) == Got(t', next)
    ensures AttributesAt(ty, t, b, p) == AttributesAt(ty, t', b, next)
  {
    assert MoreAt(ty, t, b, p) == NextAt(ty, t, b, p);
  }

  lemma {:induction false} ReadsTagged(ty: Type, t: Item, acc: Item, b: seq<Byte>, p: nat, tag: Byte)
    requires Plain(tag) && Written(ty, t, tag) && At(b, p, Tagged(ty, t, tag))
    ensures AttributesAt(ty, acc, b, p)
            == AttributesAt(ty, Keep(acc, tag, Cut(tag, t.attrs[tag])), b, p + |Tagged(ty, t, tag)|)
  {
    AtSplit(b, p, [tag], Payload(tag, t.attrs[tag]));
    AtFirst(b, p, [tag]);
    ReadsField(b, p + 1, tag, t.attrs[tag]);
    OneAttribute(ty, acc, b, p, Keep(acc, tag, Cut(tag, t.attrs[tag])), p + |Tagged(ty, t, tag)|);
  }

  /** The item after one attribute. */
  function Absorbed(ty: Type, t: Item, tag: Byte, into: Item): Item {
    if Written(ty, t, tag) then Keep(into, tag, Cut(tag, t.attrs[tag])) else into
  }

  lemma {:induction false} ReadsMaybeTagged(ty: Type, t: Item, acc: Item, b: seq<Byte>, p: nat, tag: Byte)
    requires Plain(tag) && At(b, p, Tagged(ty, t, tag))
    ensures AttributesAt(ty, acc, b, p) == AttributesAt(ty, Absorbed(ty, t, tag, acc), b, p + |Tagged(ty, t, tag)|)
  {
    if Written(ty, t, tag) { ReadsTagged(ty, t, acc, b, p, tag); }
  }

  /** The first of the attributes is read, then the rest. */
  lemma {:induction false} FirstTagged(ty: Type, t: Item, acc: Item, b: seq<Byte>, p: nat, tags: seq<Byte>, mid: Item,
                                       next: nat)
    requires tags != [] && AllPlain(tags) && At(b, p, AllTagged(ty, t, tags))
    requires mid == Absorbed(ty, t, tags[0], acc) && next == p + |Tagged(ty, t, tags[0])|
    ensures AttributesAt(ty, acc, b, p) == AttributesAt(ty, mid, b, next)
    ensures AllPlain(tags[1..]) && At(b, next, AllTagged(ty, t, tags[1..]))
    ensures p + |AllTagged(ty, t, tags)| == next + |AllTagged(ty, t, tags[1..])|
    ensures Absorb(ty, t, tags, acc) == Absorb(ty, t, tags[1..], mid)
  {
    AtSplit(b, p, Tagged(ty, t, tags[0]), AllTagged(ty, t, tags[1..]));
    ReadsMaybeTagged(ty, t, acc, b, p, tags[0]);
  }

  lemma {:induction false} ReadsAllTagged(ty: Type, t: Item, acc: Item, b: seq<Byte>, p: nat, tags: seq<Byte>,
                                          full: Item, q: nat)
    requires AllPlain(tags) && At(b, p, AllTagged(ty, t, tags)) && q == p + |AllTagged(ty, t, tags)|
    requires full == Absorb(ty, t, tags, acc)
    ensures AttributesAt(ty, acc, b, p) == AttributesAt(ty, full, b, q)
    decreases |tags|
  {
    if tags != [] {
      var mid, next := Absorbed(ty, t, tags[0], acc), p + |Tagged(ty, t, tags[0])|;
      FirstTagged(ty, t, acc, b, p, tags, mid, next);
      ReadsAllTagged(ty, t, mid, b, next, tags[1..], full, q);
    }
  }

  lemma {:induction false} ReadsSubType(ty: Type, acc: Item, b: seq<Byte>, p: nat, tag: Byte, n: nat)
    requires tag == COUNT || tag == CHARGES
    requires At(b, p, [tag] + Le(if tag == CHARGES then 2 else 1, n))
    ensures var width := if tag == CHARGES then 2 else 1;
            AttributesAt(ty, acc, b, p) == AttributesAt(ty, SetSubType(ty, acc, n % Power(width)), b, p + 1 + width)
  {
    var width := if tag == CHARGES then 2 else 1;
    AtSplit(b, p, [tag], Le(width, n));
    AtFirst(b, p, [tag]);
    ReadsNumber(b, p + 1, width, n);
    OneAttribute(ty, acc, b, p, SetSubType(ty, acc, n % Power(width)), p + 1 + width);
  }

  lemma {:induction false} OrderIsPlain()
    ensures AllPlain(ORDER)
  {
  }

  lemma {:induction false} Powers()
    ensures Power(1) == 256 && Power(2) == 65536
  {
    assert Power(1) == 256 * Power(0);
  }

  lemma {:induction false} ReadsCount(ty: Type, t: Item, b: seq<Byte>, p: nat)
    requires At(b, p, CountPart(ty, t))
    ensures AttributesAt(ty, Fresh(t.id, ty), b, p) == AttributesAt(ty, WithCount(ty, t), b, p + |CountPart(ty, t)|)
  {
    if ty.stackable || ty.fluid {
      Powers();
      ReadsSubType(ty, Fresh(t.id, ty), b, p, COUNT, SubType(ty, t));
    }
  }

  lemma {:induction false} ReadsCharges(ty: Type, t: Item, b: seq<Byte>, p: nat)
    requires At(b, p, ChargesPart(t))
    ensures AttributesAt(ty, WithCount(ty, t), b, p) == AttributesAt(ty, WithCharges(ty, t), b, p + |ChargesPart(t)|)
  {
    if Charges(t) != 0 {
      Powers();
      ReadsSubType(ty, WithCount(ty, t), b, p, CHARGES, Charges(t));
      ModUnique(Charges(t), 65536, 0, Charges(t));
    }
  }

  lemma {:induction false} CustomParts(b: seq<Byte>, p: nat, count: seq<Byte>, list: seq<Byte>)
    requires |count| == 8 && At(b, p, [CUSTOM] + (count + list))
    ensures p < |b| && b[p] == CUSTOM && At(b, p + 1, count) && At(b, p + 9, list)
  {
    AtThree(b, p, [CUSTOM], count, list);
    AtFirst(b, p, [CUSTOM]);
  }

  lemma {:induction false} CustomOf(acc: Item, b: seq<Byte>, p: nat, size: nat, middle: nat,
                                    es: Option<seq<Customs.Entry>>, end: nat)
    requires NumberAt(b, p, 8) == Got(size, middle) && middle <= |b|
    requires Customs.ListAt(acc.custom, size, b, middle) == Got(es, end)
    ensures CustomAt(acc, b, p) == Got(acc.(custom := es), end)
  {
  }

  lemma {:induction false} ReadsCustomList(t: Item, b: seq<Byte>, p: nat, acc: Item, es: seq<Customs.Entry>, end: nat)
    requires t.custom == Some(es) && Customs.IsMap(es) && acc.custom == None
    requires At(b, p, Le(8, |es|)) && At(b, p + 8, Customs.ListBytes(es)) && end == p + 8 + |Customs.ListBytes(es)|
    ensures CustomAt(acc, b, p) == Got(acc.(custom := CustomBack(t)), end)
  {
    ReadsNumber(b, p, 8, |es|);
    UnsignedSurvives(8, |es|);
    Customs.ReadsList(b, p + 8, es, None, end);
    CustomOf(acc, b, p, |es|, p + 8, CustomBack(t), end);
  }

  lemma {:induction false} CustomTag(ty: Type, acc: Item, b: seq<Byte>, p: nat)
    ensures AttributeAt(ty, acc, b, p, CUSTOM) == CustomAt(acc, b, p)
  {
  }

  /** One attribute that scripts gave the item. */
  lemma {:induction false} OneCustom(ty: Type, acc: Item, b: seq<Byte>, p: nat, with: Item, end: nat)
    requires p < |b| && b[p] == CUSTOM && CustomAt(acc, b, p + 1) == Got(with, end)
    ensures AttributesAt(ty, acc, b, p) == AttributesAt(ty, with, b, end)
  {
    CustomTag(ty, acc, b, p + 1);
    OneAttribute(ty, acc, b, p, with, end);
  }

  lemma {:induction false} ReadsSomeCustom(ty: Type, t: Item, b: seq<Byte>, p: nat, acc: Item, es: seq<Customs.Entry>,
                                           with: Item, end: nat)
    requires t.custom == Some(es) && Customs.IsMap(es) && acc.custom == None && p < |b| && b[p] == CUSTOM
    requires At(b, p + 1, Le(8, |es|)) && At(b, p + 9, Customs.ListBytes(es))
    requires with == acc.(custom := CustomBack(t)) && end == p + 9 + |Customs.ListBytes(es)|
    ensures AttributesAt(ty, acc, b, p) == AttributesAt(ty, with, b, end)
  {
    ReadsCustomList(t, b, p + 1, acc, es, end);
    OneCustom(ty, acc, b, p, with, end);
  }

  lemma {:induction false} CustomBytes(t: Item, es: seq<Customs.Entry>, b: seq<Byte>, p: nat, end: nat)
    requires t.custom == Some(es) && At(b, p, CustomPart(t)) && end == p + |CustomPart(t)|
    ensures p < |b| && b[p] == CUSTOM && At(b, p + 1, Le(8, |es|)) && At(b, p + 9, Customs.ListBytes(es))
    ensures end == p + 9 + |Customs.ListBytes(es)|
  {
    CustomParts(b, p, Le(8, |es|), Customs.ListBytes(es));
  }

  lemma {:induction false} ReadsCustom(ty: Type, t: Item, b: seq<Byte>, p: nat, acc: Item, with: Item, end: nat)
    requires (t.custom.Some? ==> Customs.IsMap(t.custom.value)) && At(b, p, CustomPart(t)) && acc.custom == None
    requires with == acc.(custom := CustomBack(t)) && end == p + |CustomPart(t)|
    ensures AttributesAt(ty, acc, b, p) == AttributesAt(ty, with, b, end)
  {
    match t.custom
    case None => assert with == acc;
    case Some(es) =>
      CustomBytes(t, es, b, p, end);
      ReadsSomeCustom(ty, t, b, p, acc, es, with, end);
  }

  lemma {:induction false} ReadsCounts(ty: Type, t: Item, b: seq<Byte>, p: nat, q: nat, r: nat)
    requires At(b, p, CountPart(ty, t)) && At(b, q, ChargesPart(t))
    requires q == p + |CountPart(ty, t)| && r == q + |ChargesPart(t)|
    ensures AttributesAt(ty, Fresh(t.id, ty), b, p) == AttributesAt(ty, WithCharges(ty, t), b, r)
  {
    ReadsCount(ty, t, b, p);
    ReadsCharges(ty, t, b, q);
  }

  /** The tagged attributes, then those that scripts gave the item. */
  lemma {:induction false} ReadsRest(ty: Type, t: Item, tags: seq<Byte>, start: Item, acc: Item, with: Item,
                                     b: seq<Byte>,
                                     r: nat, s: nat, end: nat)
    requires (t.custom.Some? ==> Customs.IsMap(t.custom.value)) && AllPlain(tags)
    requires acc == Absorb(ty, t, tags, start) && acc.custom == None && with == acc.(custom := CustomBack(t))
    requires At(b, r, AllTagged(ty, t, tags)) && At(b, s, CustomPart(t)) && s == r + |AllTagged(ty, t, tags)|
    requires end == s + |CustomPart(t)|
    ensures AttributesAt(ty, start, b, r) == AttributesAt(ty, with, b, end)
  {
    ReadsAllTagged(ty, t, start, b, r, tags, acc, s);
    ReadsCustom(ty, t, b, s, acc, with, end);
  }

  lemma {:induction false} ReadsParts(ty: Type, t: Item, tags: seq<Byte>, acc: Item, with: Item, b: seq<Byte>, p: nat,
                                      q: nat, r: nat, s: nat, end: nat)
    requires (t.custom.Some? ==> Customs.IsMap(t.custom.value)) && AllPlain(tags)
    requires acc == Absorb(ty, t, tags, WithCharges(ty, t)) && with == acc.(custom := CustomBack(t))
    requires At(b, p, CountPart(ty, t)) && At(b, q, ChargesPart(t)) && At(b, r, AllTagged(ty, t, tags))
              && At(b, s, CustomPart(t))
    requires q == p + |CountPart(ty, t)| && r == q + |ChargesPart(t)| && s == r + |AllTagged(ty, t, tags)|
    requires end == s + |CustomPart(t)|
    ensures AttributesAt(ty, Fresh(t.id, ty), b, p) == AttributesAt(ty, with, b, end)
  {
    ReadsCounts(ty, t, b, p, q, r);
    AbsorbKeeps(ty, t, tags, WithCharges(ty, t));
    ReadsRest(ty, t, tags, WithCharges(ty, t), acc, with, b, r, s, end);
  }

  lemma {:induction false} ReadsInOrder(ty: Type, t: Item, tags: seq<Byte>, b: seq<Byte>, p: nat, end: nat)
    requires (t.custom.Some? ==> Customs.IsMap(t.custom.value)) && AllPlain(tags)
    requires At(b, p, InOrder(ty, t, tags)) && end == p + |InOrder(ty, t, tags)|
    ensures AttributesAt(ty, Fresh(t.id, ty), b, p) == AttributesAt(ty, OwnInOrder(ty, t, tags), b, end)
  {
    var q := p + |CountPart(ty, t)|;
    var r := q + |ChargesPart(t)|;
    var s := r + |AllTagged(ty, t, tags)|;
    AtFour(b, p, CountPart(ty, t), ChargesPart(t), AllTagged(ty, t, tags), CustomPart(t));
    ReadsParts(ty, t, tags, Absorb(ty, t, tags, WithCharges(ty, t)), OwnInOrder(ty, t, tags), b, p, q, r, s, end);
  }

  /** The attributes of an item are read back as what `Own` says, up to where they end. */
  lemma {:induction false} ReadsAttributes(ty: Type, t: Item, b: seq<Byte>, p: nat)
    requires WellFormed(ty, t) && At(b, p, Attributes(ty, t))
    ensures AttributesAt(ty, Fresh(t.id, ty), b, p) == AttributesAt(ty, Own(ty, t), b, p + |Attributes(ty, t)|)
  {
    OrderIsPlain();
    ReadsInOrder(ty, t, ORDER, b, p, p + |Attributes(ty, t)|);
  }

  lemma {:induction false} HeadParts(types: map<nat, Type>, t: Item, b: seq<Byte>, p: nat, q: nat)
    requires Known(types, t) && At(b, p, Encode(types, t)) && q == p + 2 + |Attributes(types[t.id], t)|
    ensures At(b, p, Le(2, t.id)) && At(b, p + 2, Attributes(types[t.id], t)) && At(b, q, Tail(types, t)) && q <= |b|
    ensures q + |Tail(types, t)| == p + |Encode(types, t)|
  {
    AtThree(b, p, Le(2, t.id), Attributes(types[t.id], t), Tail(types, t));
  }

  /** The identifier and the attributes are read. */
  lemma {:induction false} ReadsHead(types: map<nat, Type>, ty: Type, t: Item, own: Item, b: seq<Byte>, p: nat, q: nat)
    requires t.id in types && t.id < 65536 && ty == types[t.id] && WellFormed(ty, t) && own == Own(ty, t)
    requires At(b, p, Le(2, t.id)) && At(b, p + 2, Attributes(ty, t)) && q == p + 2 + |Attributes(ty, t)|
    ensures ItemAt(types, b, p) == Finish(types, t.id, AttributesAt(ty, own, b, q), b, p + 2)
  {
    ReadsId(types, b, p, t.id);
    ReadsAttributes(ty, t, b, p + 2);
  }

  lemma {:induction false} ReadsId(types: map<nat, Type>, b: seq<Byte>, p: nat, id: nat)
    requires id in types && id < 65536 && At(b, p, Le(2, id))
    ensures ItemAt(types, b, p) == Finish(types, id, AttributesAt(types[id], Fresh(id, types[id]), b, p + 2), b, p + 2)
  {
    Powers();
    ReadsNumber(b, p, 2, id);
    UnsignedSurvives(2, id);
  }

  /** The end of an item that is not a container. */
  lemma {:induction false} ReadsEnd(types: map<nat, Type>, t: Item, own: Item, b: seq<Byte>, q: nat)
    requires Known(types, t) && !types[t.id].container && At(b, q, Tail(types, t))
    ensures AttributesAt(types[t.id], own, b, q) == Ended(own, q + 1) && |Tail(types, t)| == 1
  {
    AtFirst(b, q, [0]);
  }

  lemma {:induction false} ReadsItem(types: map<nat, Type>, t: Item, b: seq<Byte>, p: nat)
    requires Known(types, t) && At(b, p, Encode(types, t))
    ensures ItemAt(types, b, p) == Got(Some(Reloaded(types, t)), p + |Encode(types, t)|)
    decreases t, 2
  {
    var own, q := Own(types[t.id], t), p + 2 + |Attributes(types[t.id], t)|;
    HeadParts(types, t, b, p, q);
    ReadsHead(types, types[t.id], t, own, b, p, q);
    OwnKeeps(types[t.id], t);
    if types[t.id].container {
      ReadsFull(types, t, own, b, q, p + 2);
    } else {
      ReadsLeaf(types, t, own, b, q, p + 2);
    }
  }

  lemma {:induction false} ReadsFull(types: map<nat, Type>, t: Item, own: Item, b: seq<Byte>, q: nat, p: nat)
    requires Known(types, t) && types[t.id].container && At(b, q, Tail(types, t)) && p <= q
    requires own == Own(types[t.id], t) && own.items == []
    ensures Finish(types, t.id, AttributesAt(types[t.id], own, b, q), b, p)
            == Got(Some(Reloaded(types, t)), q + |Tail(types, t)|)
    decreases t, 1
  {
    ReadsTail(types, t, own, b, q);
    FinishContents(types, t.id, AttributesAt(types[t.id], own, b, q), b, p);
  }

  lemma {:induction false} ReadsLeaf(types: map<nat, Type>, t: Item, own: Item, b: seq<Byte>, q: nat, p: nat)
    requires Known(types, t) && !types[t.id].container && At(b, q, Tail(types, t)) && p <= q
    requires own == Own(types[t.id], t) && own.items == []
    ensures Finish(types, t.id, AttributesAt(types[t.id], own, b, q), b, p)
            == Got(Some(Reloaded(types, t)), q + |Tail(types, t)|)
  {
    ReadsEnd(types, t, own, b, q);
    FinishEnd(types, t.id, AttributesAt(types[t.id], own, b, q), b, p);
    assert own.(items := ReloadedAll(types, t.items)) == own;
  }

  lemma {:induction false} FinishContents(types: map<nat, Type>, id: nat, r: Attributed, b: seq<Byte>, p: nat)
    requires id in types && r.Contents? && p <= r.next <= |b|
    ensures Finish(types, id, r, b, p) == ContentsAt(types, r.item, r.count, b, r.next)
  {
  }

  lemma {:induction false} FinishEnd(types: map<nat, Type>, id: nat, r: Attributed, b: seq<Byte>, p: nat)
    requires id in types && r.Ended? && p <= r.next <= |b| && !types[id].container
    ensures Finish(types, id, r, b, p) == Got(Some(r.item), r.next)
  {
  }

  lemma {:induction false} ReadsCountAhead(ty: Type, own: Item, b: seq<Byte>, q: nat, count: nat)
    requires ty.container && q < |b| && b[q] == CONTAINER_ITEMS && At(b, q + 1, Le(4, count)) && count < Power(4)
    ensures AttributesAt(ty, own, b, q) == Contents(own, count, q + 5)
  {
    ReadsNumber(b, q + 1, 4, count);
    UnsignedSurvives(4, count);
    assert MoreAt(ty, own, b, q) == Contents(own, count, q + 5);
  }

  lemma {:induction false} TailSplit(b: seq<Byte>, q: nat, count: seq<Byte>, inner: seq<Byte>)
    requires |count| == 4 && At(b, q, [CONTAINER_ITEMS] + (count + (inner + [0])))
    ensures q < |b| && b[q] == CONTAINER_ITEMS && At(b, q + 1, count) && At(b, q + 5, inner)
    ensures q + 5 + |inner| < |b| && b[q + 5 + |inner|] == 0
  {
    AtThree(b, q, [CONTAINER_ITEMS], count, inner + [0]);
    AtSplit(b, q + 5, inner, [0]);
    AtFirst(b, q, [CONTAINER_ITEMS]);
    AtFirst(b, q + 5 + |inner|, [0]);
  }

  /** A container's contents, and where they and the item end. */
  lemma {:induction false} TailBytes(types: map<nat, Type>, t: Item, b: seq<Byte>, q: nat, inner: seq<Byte>, end: nat)
    requires Known(types, t) && types[t.id].container && At(b, q, Tail(types, t))
    requires inner == EncodeAll(types, t.items) && end == q + 5 + |inner|
    ensures q < |b| && b[q] == CONTAINER_ITEMS && At(b, q + 1, Le(4, |t.items|)) && At(b, q + 5, inner)
    ensures end < |b| && b[end] == 0 && end + 1 == q + |Tail(types, t)|
  {
    TailSplit(b, q, Le(4, |t.items|), inner);
  }

  lemma {:induction false} ReadsTail(types: map<nat, Type>, t: Item, own: Item, b: seq<Byte>, q: nat)
    requires Known(types, t) && types[t.id].container && At(b, q, Tail(types, t)) && own.items == []
    ensures AttributesAt(types[t.id], own, b, q) == Contents(own, |t.items|, q + 5) && q + 5 <= |b|
    ensures ContentsAt(types, own, |t.items|, b, q + 5)
            == Got(Some(own.(items := ReloadedAll(types, t.items))), q + |Tail(types, t)|)
    decreases t, 0
  {
    var inner := EncodeAll(types, t.items);
    var end := q + 5 + |inner|;
    TailBytes(types, t, b, q, inner, end);
    ReadsCountAhead(types[t.id], own, b, q, |t.items|);
    ReadsInside(types, own, t.items, b, q + 5, end);
  }

  lemma {:induction false} ReadsInside(types: map<nat, Type>, own: Item, ts: seq<Item>, b: seq<Byte>, p: nat, end: nat)
    requires AllKnown(types, ts) && own.items == [] && At(b, p, EncodeAll(types, ts))
    requires end == p + |EncodeAll(types, ts)| && end < |b| && b[end] == 0
    ensures ContentsAt(types, own, |ts|, b, p) == Got(Some(own.(items := ReloadedAll(types, ts))), end + 1)
    decreases ts, 4
  {
    var full := own.(items := ReloadedAll(types, ts));
    assert ReloadedAll(types, ts) + own.items == full.items;
    ReadsContents(types, own, ts, b, p, full, end);
  }

  /** One more item goes in front of those read before. */
  lemma {:induction false} OneMore(types: map<nat, Type>, acc: Item, inner: Item, with: Item, count: nat, b: seq<Byte>,
                                   p: nat, next: nat)
    requires count > 0 && p < next <= |b| && ItemAt(types, b, p) == Got(Some(inner), next)
    requires with == acc.(items := [inner] + acc.items)
    ensures ContentsAt(types, acc, count, b, p) == ContentsAt(types, with, count - 1, b, next)
  {
  }

  lemma {:induction false} LastKnown(types: map<nat, Type>, ts: seq<Item>, init: seq<Item>, last: Item)
    requires AllKnown(types, ts) && ts != [] && init == ts[..|ts| - 1] && last == ts[|ts| - 1]
    ensures Known(types, last) && AllKnown(types, init)
    ensures EncodeAll(types, ts) == Encode(types, last) + EncodeAll(types, init)
    ensures ReloadedAll(types, ts) == ReloadedAll(types, init) + [Reloaded(types, last)]
  {
  }

  /** The last of the items is written first, and read back to stand last. */
  lemma {:induction false} LastFirst(types: map<nat, Type>, ts: seq<Item>, init: seq<Item>, last: Item, b: seq<Byte>,
                                     p: nat, acc: seq<Item>)
    requires AllKnown(types, ts) && ts != [] && init == ts[..|ts| - 1] && last == ts[|ts| - 1]
    requires At(b, p, EncodeAll(types, ts))
    ensures Known(types, last) && AllKnown(types, init) && At(b, p, Encode(types, last))
    ensures At(b, p + |Encode(types, last)|, EncodeAll(types, init))
    ensures |EncodeAll(types, ts)| == |Encode(types, last)| + |EncodeAll(types, init)|
    ensures ReloadedAll(types, init) + ([Reloaded(types, last)] + acc) == ReloadedAll(types, ts) + acc
  {
    LastKnown(types, ts, init, last);
    AtSplit(b, p, Encode(types, last), EncodeAll(types, init));
    JoinItems(ReloadedAll(types, init), [Reloaded(types, last)], acc);
  }

  lemma {:induction false} JoinItems(a: seq<Item>, b: seq<Item>, c: seq<Item>)
    ensures a + (b + c) == (a + b) + c
  {
  }

  /** The item read first is the last, and goes in front. */
  lemma {:induction false} FrontRead(types: map<nat, Type>, acc: Item, with: Item, ts: seq<Item>, init: seq<Item>,
                                     last: Item,
                                     b: seq<Byte>, p: nat, next: nat)
    requires AllKnown(types, ts) && ts != [] && init == ts[..|ts| - 1] && last == ts[|ts| - 1] && Known(types, last)
    requires At(b, p, Encode(types, last)) && next == p + |Encode(types, last)|
    requires with == acc.(items := [Reloaded(types, last)] + acc.items)
    ensures ContentsAt(types, acc, |ts|, b, p) == ContentsAt(types, with, |init|, b, next)
    decreases ts, 1
  {
    ReadsItem(types, last, b, p);
    OneMore(types, acc, Reloaded(types, last), with, |ts|, b, p, next);
  }

  /** Then the rest are read in front of it. */
  lemma {:induction false} LastRead(types: map<nat, Type>, acc: Item, ts: seq<Item>, init: seq<Item>, last: Item,
                                    with: Item, b: seq<Byte>, p: nat, next: nat, full: Item, q: nat)
    requires AllKnown(types, ts) && ts != [] && init == ts[..|ts| - 1] && last == ts[|ts| - 1] && Known(types, last)
    requires At(b, p, EncodeAll(types, ts)) && next == p + |Encode(types, last)|
    requires with == acc.(items := [Reloaded(types, last)] + acc.items)
    requires full == acc.(items := ReloadedAll(types, ts) + acc.items) && q == p + |EncodeAll(types, ts)|
    ensures ContentsAt(types, acc, |ts|, b, p) == ContentsAt(types, with, |init|, b, next)
    ensures AllKnown(types, init) && At(b, next, EncodeAll(types, init)) && q == next + |EncodeAll(types, init)|
    ensures full == with.(items := ReloadedAll(types, init) + with.items)
    decreases ts, 2
  {
    LastFirst(types, ts, init, last, b, p, acc.items);
    FrontRead(types, acc, with, ts, init, last, b, p, next);
  }

  /** The reversed contents are put back in their order. */
  lemma {:induction false} ReadsContents(types: map<nat, Type>, acc: Item, ts: seq<Item>, b: seq<Byte>, p: nat,
                                         full: Item, q: nat)
    requires AllKnown(types, ts) && At(b, p, EncodeAll(types, ts))
    requires full == acc.(items := ReloadedAll(types, ts) + acc.items) && q == p + |EncodeAll(types, ts)|
    ensures ContentsAt(types, acc, |ts|, b, p) == ContentsAt(types, full, 0, b, q)
    decreases ts, 3
  {
    if ts == [] {
      assert ReloadedAll(types, ts) + acc.items == acc.items;
    } else {
      var init, last := ts[..|ts| - 1], ts[|ts| - 1];
      var next, with := p + |Encode(types, last)|, acc.(items := [Reloaded(types, last)] + acc.items);
      LastRead(types, acc, ts, init, last, with, b, p, next, full, q);
      ReadsContents(types, with, init, b, next, full, q);
    }
  }

  // ---------------------------------------------- what survives, exactly

  lemma {:induction false} AbsorbKeeps(ty: Type, t: Item, tags: seq<Byte>, into: Item)
    ensures var r := Absorb(ty, t, tags, into);
            && r.id == into.id && r.count == into.count && r.fluid == into.fluid && r.items == into.items
            && r.custom == into.custom
    decreases |tags|
  {
    if tags != [] {
      AbsorbKeeps(ty, t, tags[1..], Absorbed(ty, t, tags[0], into));
    }
  }

  lemma {:induction false} OwnKeeps(ty: Type, t: Item)
    ensures var r, c := Own(ty, t), WithCharges(ty, t);
            && r.id == t.id && r.count == c.count && r.fluid == c.fluid && r.items == [] && r.custom == CustomBack(t)
  {
    AbsorbKeeps(ty, t, ORDER, WithCharges(ty, t));
  }

  /** Something is written of the attribute, and not the empty text that a long one is written as. */
  predicate Returns(ty: Type, t: Item, tag: Byte) {
    Written(ty, t, tag) && Cut(tag, t.attrs[tag]) != Text([])
  }

  /** The attributes read back: those written, as they are read, over those of a new item. */
  lemma {:induction false} AbsorbAt(ty: Type, t: Item, tags: seq<Byte>, into: Item, tag: Byte)
    ensures var r := Absorb(ty, t, tags, into).attrs;
            if tag in tags && Returns(ty, t, tag)
            then tag in r && r[tag] == Kept(tag, Cut(tag, t.attrs[tag]))
            else (tag in r <==> tag in into.attrs) && (tag in r ==> r[tag] == into.attrs[tag])
    decreases |tags|
  {
    if tags != [] {
      if Written(ty, t, DECAYING_STATE) { DecayingIsWritten(ty, t); }
      AbsorbAt(ty, t, tags[1..], Absorbed(ty, t, tags[0], into), tag);
    }
  }

  /** A decay state that is written is not read as none. */
  lemma {:induction false} DecayingIsWritten(ty: Type, t: Item)
    requires Written(ty, t, DECAYING_STATE)
    ensures Cut(DECAYING_STATE, t.attrs[DECAYING_STATE]) != Number(DECAYING_FALSE)
  {
    Powers();
    var n := t.attrs[DECAYING_STATE].n;
    ModUnique(n, 256, 0, n);
  }

  /** The value comes back from its bytes: it fits its place, a text is not empty, an action id and an
      attack speed are not below the least, a duration is not negative, and a decay waits. */
  predicate Fits(tag: Byte, f: Field)
    requires WellTyped(tag, f)
  {
    (match LayoutOf(tag)
     case Str => 0 < |f.s| <= MAX_STRING
     case Whole(width) => 0 <= f.n < Power(width)
     case Integer(width) => InSigned(width, f.n)
     case Other => true)
    && (tag == DURATION ==> f.n >= 0) && (tag == ACTION_ID ==> f.n >= LEAST_ACTION_ID)
    && (tag == ATTACK_SPEED ==> f.n >= LEAST_ATTACK_SPEED)
    && (tag == DECAYING_STATE ==> f.n == DECAYING_PENDING)
  }

  /** Count, fluid and charges are those an item of the kind can have after reading. */
  predicate CountsFit(ty: Type, t: Item) {
    if ty.fluid then t.count == 1 && t.fluid < 256 && CHARGES !in t.attrs
    else if ty.stackable then t.count < 256 && t.fluid == 0 && CHARGES !in t.attrs
    else
      && t.count == 1 && t.fluid == 0 && (CHARGES in t.attrs <==> ty.charges != 0)
      && (CHARGES in t.attrs ==> t.attrs[CHARGES].Number? && 0 < t.attrs[CHARGES].n < 65536)
  }

  /** All of the item itself is read back: its counts, and every attribute is written and fits;
      a kind that starts with a duration has one. */
  ghost predicate Storable(ty: Type, t: Item) {
    && CountsFit(ty, t) && (ty.duration != 0 ==> DURATION in t.attrs) && Customs.Survives(t.custom)
    && forall tag :: tag in t.attrs && tag != CHARGES ==> Written(ty, t, tag) && Fits(tag, t.attrs[tag])
  }

  lemma {:induction false} CutFits(tag: Byte, f: Field)
    requires WellTyped(tag, f) && (tag == DECAYING_STATE ==> f.n == DECAYING_TRUE || f.n == DECAYING_PENDING)
    ensures Cut(tag, f) != Text([]) && Kept(tag, Cut(tag, f)) == f <==> Fits(tag, f)
  {
    Powers();
    match LayoutOf(tag)
    case Str =>
    case Whole(width) =>
      UnsignedSurvives(width, f.n);
    case Integer(width) =>
      SignedSurvives(width, f.n);
    case Other =>
  }

  lemma {:induction false} CountsExactly(ty: Type, t: Item)
    requires WellFormed(ty, t)
    ensures var r := WithCharges(ty, t);
            CountsFit(ty, t) <==> r.count == t.count && r.fluid == t.fluid && SameAt(r.attrs, t.attrs, CHARGES)
  {
    var r, c := WithCharges(ty, t), Charges(t);
    if CHARGES in t.attrs { ModUnique(t.attrs[CHARGES].n, 65536, t.attrs[CHARGES].n / 65536, c); }
    if ty.fluid {
      assert CHARGES !in r.attrs && r.count == 1;
    } else if ty.stackable {
      assert CHARGES !in r.attrs && r.fluid == 0;
    } else if ty.charges != 0 {
      assert r.count == 1 && r.fluid == 0 && r.attrs[CHARGES] == Number(if c != 0 then c else ty.charges);
    } else {
      assert CHARGES !in r.attrs && r.fluid == 0;
    }
  }

  predicate SameAt(r: map<Byte, Field>, s: map<Byte, Field>, tag: Byte) {
    (tag in r <==> tag in s) && (tag in r ==> r[tag] == s[tag])
  }

  lemma {:induction false} OrdinaryInOrder(tag: Byte)
    ensures tag in ORDER <==> Ordinary(tag) && tag != UNIQUE_ID
  {
    assert ORDER[0] == 4 && ORDER[1] == 6 && ORDER[2] == 18 && ORDER[3] == 19 && ORDER[4] == 7 && ORDER[5] == 16
        && ORDER[6] == 17 && ORDER[7] == 24 && ORDER[8] == 25 && ORDER[9] == 26 && ORDER[10] == 27 && ORDER[11] == 28
        && ORDER[12] == 38 && ORDER[13] == 29 && ORDER[14] == 30 && ORDER[15] == 31 && ORDER[16] == 32
        && ORDER[17] == 33 && ORDER[18] == 35 && ORDER[19] == 36 && ORDER[20] == 37;
  }

  /** One attribute read back: as it was written, or as a new item has it. */
  lemma {:induction false} OwnAt(ty: Type, t: Item, tag: Byte)
    ensures var r := Own(ty, t).attrs;
            if Ordinary(tag) && Returns(ty, t, tag)
            then tag in r && r[tag] == Kept(tag, Cut(tag, t.attrs[tag]))
            else SameAt(r, WithCharges(ty, t).attrs, tag)
  {
    OrdinaryInOrder(tag);
    AbsorbAt(ty, t, ORDER, WithCharges(ty, t), tag);
  }

  lemma {:induction false} OneTagExactly(ty: Type, t: Item, own: Item, tag: Byte)
    requires WellFormed(ty, t) && Ordinary(tag) && own == Own(ty, t)
    ensures SameAt(own.attrs, t.attrs, tag) <==> TagFits(ty, t, tag)
  {
    OwnAt(ty, t, tag);
    if Written(ty, t, tag) { CutFits(tag, t.attrs[tag]); }
    assert tag in WithCharges(ty, t).attrs <==> tag == DURATION && ty.duration != 0;
  }

  lemma {:induction false} TagsExactly(ty: Type, t: Item, own: Item)
    requires own == Own(ty, t)
    ensures SameAt(own.attrs, WithCharges(ty, t).attrs, CHARGES)
    ensures forall tag :: tag in own.attrs ==> Ordinary(tag) || tag == CHARGES
  {
    OwnAt(ty, t, CHARGES);
    forall tag | tag in own.attrs ensures Ordinary(tag) || tag == CHARGES {
      OwnAt(ty, t, tag);
    }
  }

  predicate TagFits(ty: Type, t: Item, tag: Byte) {
    if tag in t.attrs then Written(ty, t, tag) && Fits(tag, t.attrs[tag]) else tag != DURATION || ty.duration == 0
  }

  lemma {:induction false} AttrsByTag(r: map<Byte, Field>, s: map<Byte, Field>)
    requires forall tag :: tag in r || tag in s ==> Ordinary(tag) || tag == CHARGES
    ensures r == s <==> SameAt(r, s, CHARGES) && forall tag :: Ordinary(tag) ==> SameAt(r, s, tag)
  {
    if SameAt(r, s, CHARGES) && forall tag :: Ordinary(tag) ==> SameAt(r, s, tag) {
      forall tag ensures SameAt(r, s, tag) { }
      SameEverywhere(r, s);
    }
  }

  lemma {:induction false} SameEverywhere(r: map<Byte, Field>, s: map<Byte, Field>)
    requires forall tag :: SameAt(r, s, tag)
    ensures r == s
  {
    forall tag ensures tag in r <==> tag in s { assert SameAt(r, s, tag); }
    forall tag | tag in r ensures r[tag] == s[tag] { assert SameAt(r, s, tag); }
  }

  lemma {:induction false} StorableByTag(ty: Type, t: Item)
    requires WellFormed(ty, t)
    ensures Storable(ty, t) <==>
              CountsFit(ty, t) && Customs.Survives(t.custom) && forall tag :: Ordinary(tag) ==> TagFits(ty, t, tag)
  {
    assert Ordinary(DURATION);
  }

  /** An item comes back as it was exactly when it is storable. */
  lemma {:induction false} OwnExactly(ty: Type, t: Item)
    requires WellFormed(ty, t)
    ensures Own(ty, t) == t.(items := []) <==> Storable(ty, t)
  {
    var r := Own(ty, t);
    OwnKeeps(ty, t);
    CountsExactly(ty, t);
    if t.custom.Some? { Customs.ListExactly(t.custom.value); }
    TagsExactly(ty, t, r);
    forall tag: Byte | Ordinary(tag) ensures SameAt(r.attrs, t.attrs, tag) <==> TagFits(ty, t, tag) {
      OneTagExactly(ty, t, r, tag);
    }
    AttrsByTag(r.attrs, t.attrs);
    StorableByTag(ty, t);
  }

  /** An action id below the least, of a key say, comes back as the least. */
  lemma {:induction false} LowActionIdRaised(ty: Type, t: Item)
    requires WellFormed(ty, t) && ty.moveable && ACTION_ID in t.attrs && 0 < t.attrs[ACTION_ID].n < LEAST_ACTION_ID
    ensures ACTION_ID in Own(ty, t).attrs && Own(ty, t).attrs[ACTION_ID] == Number(LEAST_ACTION_ID) && !Storable(ty, t)
  {
    Powers();
    OwnAt(ty, t, ACTION_ID);
    ModUnique(t.attrs[ACTION_ID].n, 65536, 0, t.attrs[ACTION_ID].n);
  }

  /** An item with all its contents is storable. */
  ghost predicate AllStorable(types: map<nat, Type>, t: Item)
    requires Known(types, t)
    decreases t
  {
    Storable(types[t.id], t) && EachStorable(types, t.items)
  }

  ghost predicate EachStorable(types: map<nat, Type>, ts: seq<Item>)
    requires AllKnown(types, ts)
    decreases ts
  {
    forall i :: 0 <= i < |ts| ==> AllStorable(types, ts[i])
  }

  lemma {:induction false} SameSnoc<T>(s: seq<T>, t: seq<T>, x: T, y: T)
    requires |s| == |t|
    ensures s + [x] == t + [y] <==> s == t && x == y
  {
    assert (s + [x])[..|s|] == s && (t + [y])[..|t|] == t;
    assert (s + [x])[|s|] == x && (t + [y])[|t|] == y;
  }

  lemma {:induction false} EachSnoc(types: map<nat, Type>, ts: seq<Item>, init: seq<Item>, last: Item)
    requires AllKnown(types, ts) && ts == init + [last] && AllKnown(types, init) && Known(types, last)
    ensures EachStorable(types, ts) <==> EachStorable(types, init) && AllStorable(types, last)
  {
    assert ts[|init|] == last;
    assert forall i :: 0 <= i < |init| ==> init[i] == ts[i];
  }

  lemma {:induction false} ReloadedExactly(types: map<nat, Type>, t: Item)
    requires Known(types, t)
    ensures Reloaded(types, t) == t <==> AllStorable(types, t)
    decreases t, 1
  {
    var own := Own(types[t.id], t);
    OwnExactly(types[t.id], t);
    OwnKeeps(types[t.id], t);
    ReloadedAllExactly(types, t.items);
    assert own == t.(items := []) <==> own.(items := t.items) == t;
  }

  lemma {:induction false} ReloadedAllExactly(types: map<nat, Type>, ts: seq<Item>)
    requires AllKnown(types, ts)
    ensures ReloadedAll(types, ts) == ts <==> EachStorable(types, ts)
    decreases ts, 0
  {
    if ts != [] {
      var init, last := ts[..|ts| - 1], ts[|ts| - 1];
      ReloadedAllExactly(types, init);
      ReloadedExactly(types, last);
      SameSnoc(ReloadedAll(types, init), init, Reloaded(types, last), last);
      assert ts == init + [last];
      EachSnoc(types, ts, init, last);
    }
  }

  /** Reading what was written of a known item consumes exactly its bytes, and gives the same item
      with the same contents in the same order at every depth if and only if all of it is storable. */
  lemma {:induction false} ReadBack(types: map<nat, Type>, t: Item, before: seq<Byte>, rest: seq<Byte>)
    requires Known(types, t)
    ensures var b := before + Encode(types, t) + rest;
            var r := ItemAt(types, b, |before|);
            && r == Got(Some(Reloaded(types, t)), |b| - |rest|) && b[r.next..] == rest
            && (Reloaded(types, t) == t <==> AllStorable(types, t))
  {
    var b := before + Encode(types, t) + rest;
    assert b[|before|..|before| + |Encode(types, t)|] == Encode(types, t);
    AtSlice(b, |before|, Encode(types, t));
    ReadsItem(types, t, b, |before|);
    ReloadedExactly(types, t);
    assert b[|before| + |Encode(types, t)|..] == rest;
  }

  // ---------------------------------------------------- the writing methods

  lemma {:induction false} ThreeParts(start: seq<Byte>, a: seq<Byte>, b: seq<Byte>, c: seq<Byte>)
    ensures ((start + a) + b) + c == start + (a + (b + c))
  {
  }

  method SerializeAttr(stream: PropWriteStream, ty: Type, t: Item)
    modifies stream
    ensures stream.buffer == old(stream.buffer) + Attributes(ty, t)
  {
    ghost var start := stream.buffer;
    WriteCounts(stream, ty, t);
    ghost var counted := stream.buffer;
    WriteTags(stream, ty, t, ORDER);
    WriteCustom(stream, t);
    Regroup(counted, AllTagged(ty, t, ORDER), CustomPart(t));
    ThreeParts(start, CountPart(ty, t), ChargesPart(t), AllTagged(ty, t, ORDER) + CustomPart(t));
  }

  method WriteCustom(stream: PropWriteStream, t: Item)
    modifies stream
    ensures stream.buffer == old(stream.buffer) + CustomPart(t)
  {
    if t.custom.Some? {
      stream.WriteByte(CUSTOM);
      stream.Write(8, |t.custom.value|);
      Customs.WriteList(stream, t.custom.value);
      ThreeParts(old(stream.buffer), [CUSTOM], Le(8, |t.custom.value|), Customs.ListBytes(t.custom.value));
    } else {
      assert old(stream.buffer) + CustomPart(t) == old(stream.buffer);
    }
  }

  method WriteCounts(stream: PropWriteStream, ty: Type, t: Item)
    modifies stream
    ensures stream.buffer == old(stream.buffer) + CountPart(ty, t) + ChargesPart(t)
  {
    ghost var start := stream.buffer;
    if ty.stackable || ty.fluid {
      stream.WriteByte(COUNT);
      stream.Write(1, SubType(ty, t));
    }
    assert stream.buffer == start + CountPart(ty, t);
    var charges := Charges(t);
    if charges != 0 {
      stream.WriteByte(CHARGES);
      stream.Write(2, charges);
    }
    assert stream.buffer == start + CountPart(ty, t) + ChargesPart(t);
  }

  method WriteTags(stream: PropWriteStream, ty: Type, t: Item, tags: seq<Byte>)
    modifies stream
    ensures stream.buffer == old(stream.buffer) + AllTagged(ty, t, tags)
  {
    ghost var start := stream.buffer;
    var i := 0;
    while i < |tags|
      invariant 0 <= i <= |tags|
      invariant stream.buffer + AllTagged(ty, t, tags[i..]) == start + AllTagged(ty, t, tags)
    {
      ghost var before := stream.buffer;
      assert tags[i..][1..] == tags[i + 1..];
      WriteTagged(stream, ty, t, tags[i]);
      Regroup(before, Tagged(ty, t, tags[i]), AllTagged(ty, t, tags[i + 1..]));
      i := i + 1;
    }
  }

  method WriteTagged(stream: PropWriteStream, ty: Type, t: Item, tag: Byte)
    modifies stream
    ensures stream.buffer == old(stream.buffer) + Tagged(ty, t, tag)
  {
    if Written(ty, t, tag) {
      stream.WriteByte(tag);
      match LayoutOf(tag)
      case Str => stream.WriteString(t.attrs[tag].s);
      case Whole(width) => stream.Write(width, t.attrs[tag].n);
      case Integer(width) => stream.Write(width, t.attrs[tag].n);
      case Other =>
    }
  }

  lemma {:induction false} TailWritten(types: map<nat, Type>, t: Item, head: seq<Byte>)
    requires Known(types, t)
    ensures head + Tail(types, t) == if types[t.id].container
              then (((head + [CONTAINER_ITEMS]) + Le(4, |t.items|)) + EncodeAll(types, t.items)) + [0] else head + [0]
  {
  }

  lemma {:induction false} HeadWritten(types: map<nat, Type>, t: Item, start: seq<Byte>)
    requires Known(types, t)
    ensures ((start + Le(2, t.id)) + Attributes(types[t.id], t)) + Tail(types, t) == start + Encode(types, t)
  {
  }

  /** Writes an item and, last first, all its contents. */
  method SaveItem(stream: PropWriteStream, types: map<nat, Type>, t: Item)
    requires Known(types, t)
    modifies stream
    ensures stream.buffer == old(stream.buffer) + Encode(types, t)
    decreases t, 2
  {
    ghost var start := stream.buffer;
    var ty := types[t.id];
    stream.Write(2, t.id);
    SerializeAttr(stream, ty, t);
    ghost var head := stream.buffer;
    if ty.container {
      stream.WriteByte(CONTAINER_ITEMS);
      stream.Write(4, |t.items|);
      SaveContents(stream, types, t.items);
    }
    stream.WriteByte(0);
    TailWritten(types, t, head);
    HeadWritten(types, t, start);
  }

  lemma {:induction false} LastWritten(types: map<nat, Type>, ts: seq<Item>, i: nat)
    requires AllKnown(types, ts) && i < |ts|
    ensures AllKnown(types, ts[..i]) && AllKnown(types, ts[..i + 1])
    ensures EncodeAll(types, ts[..i + 1]) == Encode(types, ts[i]) + EncodeAll(types, ts[..i])
  {
    assert ts[..i + 1][..i] == ts[..i];
  }

  method SaveContents(stream: PropWriteStream, types: map<nat, Type>, ts: seq<Item>)
    requires AllKnown(types, ts)
    modifies stream
    ensures stream.buffer == old(stream.buffer) + EncodeAll(types, ts)
    decreases ts, 1
  {
    ghost var all := stream.buffer + EncodeAll(types, ts);
    var i := |ts|;
    assert ts[..i] == ts;
    while i > 0
      invariant 0 <= i <= |ts|
      invariant stream.buffer + EncodeAll(types, ts[..i]) == all
    {
      i := i - 1;
      SaveOne(stream, types, ts, i);
    }
  }

  method SaveOne(stream: PropWriteStream, types: map<nat, Type>, ts: seq<Item>, i: nat)
    requires AllKnown(types, ts) && i < |ts|
    modifies stream
    ensures stream.buffer + EncodeAll(types, ts[..i]) == old(stream.buffer) + EncodeAll(types, ts[..i + 1])
    decreases ts, 0
  {
    SaveItem(stream, types, ts[i]);
    LastWritten(types, ts, i);
    Regroup(old(stream.buffer), Encode(types, ts[i]), EncodeAll(types, ts[..i]));
  }

  // ---------------------------------------------------- the reading methods

  method ReadAttr(stream: PropStream, ty: Type, t: Item, tag: Byte) returns (ok: bool, t': Item)
    requires stream.Valid() && !(tag == CONTAINER_ITEMS && ty.container)
    modifies stream`p
    ensures stream.Valid() && old(stream.p) <= stream.p
    ensures ok <==> AttributeAt(ty, t, stream.data, old(stream.p), tag).Got?
    ensures ok ==> Got(t', stream.p) == AttributeAt(ty, t, stream.data, old(stream.p), tag)
  {
    t' := t;
    if tag == COUNT || tag == RUNE_CHARGES || tag == CHARGES {
      var n;
      ok, n := stream.Read(if tag == CHARGES then 2 else 1);
      t' := SetSubType(ty, t, n);
    } else if Leftover(tag) > 0 {
      ok := stream.Skip(Leftover(tag));
    } else if tag == CUSTOM {
      ok, t' := ReadCustom(stream, t);
    } else {
      match LayoutOf(tag)
      case Other => ok := false;
      case Str =>
        var s;
        ok, s := stream.ReadString();
        t' := Keep(t, tag, Text(s));
      case Whole(width) =>
        var n;
        ok, n := stream.Read(width);
        t' := Keep(t, tag, Number(n));
      case Integer(width) =>
        var n;
        ok, n := stream.Read(width);
        t' := Keep(t, tag, Number(Signed(width, n)));
    }
  }

  method ReadCustom(stream: PropStream, t: Item) returns (ok: bool, t': Item)
    requires stream.Valid()
    modifies stream`p
    ensures stream.Valid() && old(stream.p) <= stream.p
    ensures ok <==> CustomAt(t, stream.data, old(stream.p)).Got?
    ensures ok ==> Got(t', stream.p) == CustomAt(t, stream.data, old(stream.p))
  {
    var size, es;
    t' := t;
    ok, size := stream.Read(8);
    if !ok { return; }
    ok, es := Customs.ReadList(stream, size, t.custom);
    t' := t.(custom := es);
  }

  /** One attribute after its tag, which stands at `at`. */
  method ReadNext(stream: PropStream, ty: Type, before: Item, tag: Byte, ghost at: nat) returns (ok: bool, t: Item)
    requires stream.Valid() && at < |stream.data| && stream.p == at + 1 && tag == stream.data[at]
    requires tag != 0 && !(tag == CONTAINER_ITEMS && ty.container)
    modifies stream`p
    ensures stream.Valid() && old(stream.p) <= stream.p
    ensures AttributesAt(ty, before, stream.data, at) == if ok then AttributesAt(ty, t, stream.data, stream.p)
              else Failed
  {
    assert MoreAt(ty, before, stream.data, at) == NextAt(ty, before, stream.data, at);
    ok, t := ReadAttr(stream, ty, before, tag);
  }

  /** Reads attributes up to their end; `count` is how many things a container says it holds. */
  method UnserializeAttr(stream: PropStream, ty: Type, blank: Item) returns (ok: bool, t: Item, count: nat)
    requires stream.Valid()
    modifies stream`p
    ensures stream.Valid() && old(stream.p) <= stream.p
    ensures if ok then Reads(AttributesAt(ty, blank, stream.data, old(stream.p)), t, count, stream.p)
            else AttributesAt(ty, blank, stream.data, old(stream.p)) == Failed
  {
    t, count, ok := blank, 0, true;
    ghost var start := stream.p;
    ghost var at := stream.p;
    var read, tag := stream.ReadByte();
    while read && tag != 0
      invariant stream.Valid() && start <= stream.p && count == 0 && ok
      invariant start <= at && (if read then at < |stream.data| && stream.p == at + 1 && tag == stream.data[at]
                                else at == |stream.data| == stream.p)
      invariant AttributesAt(ty, blank, stream.data, start) == AttributesAt(ty, t, stream.data, at)
      decreases |stream.data| - stream.p, read
    {
      assert AttributesAt(ty, t, stream.data, at) == MoreAt(ty, t, stream.data, at);
      if tag == CONTAINER_ITEMS && ty.container {
        ok, count := stream.Read(4);
        return;
      }
      ok, t := ReadNext(stream, ty, t, tag, at);
      if !ok { return; }
      at := stream.p;
      read, tag := stream.ReadByte();
    }
  }

  ghost predicate Reads(r: Attributed, t: Item, count: nat, p: nat) {
    r == Contents(t, count, p) || (r == Ended(t, p) && count == 0)
  }
}
