/** The tagged stream in which a player's conditions are kept. */
module ConditionStream {
  import opened Wrappers
  import opened Bytes

  datatype Interval = Interval(timeLeft: int, value: int, interval: int)

  /** What a kind of condition stores beyond the common fields. */
  datatype Kind = Plain | Damage | Speed | Light | Regeneration | Soul | Attributes | Outfit

  /** A condition: the common fields, the stored fields of its kind in the order in which they are
      written (floats as their bits, an outfit as its bytes), and its list of damages. */
  datatype Condition = Condition(conditionType: nat, id: int, ticks: int, isBuff: bool, subId: nat, aggressive: bool,
                                 values: seq<int>, damageList: seq<Interval>)

  const TYPE: Byte := 1
  const ID: Byte := 2
  const TICKS: Byte := 3
  const HEALTHTICKS: Byte := 4
  const MANAGAIN: Byte := 7
  const DELAYED: Byte := 8
  const OWNER: Byte := 9
  const INTERVALDATA: Byte := 10
  const SPEEDDELTA: Byte := 11
  const FORMULA_MAXB: Byte := 15
  const LIGHTCOLOR: Byte := 16
  const LIGHTINTERVAL: Byte := 19
  const SOULTICKS: Byte := 20
  const SOULGAIN: Byte := 21
  const SKILLS: Byte := 22
  const STATS: Byte := 23
  const OUTFIT: Byte := 24
  const PERIODDAMAGE: Byte := 25
  const ISBUFF: Byte := 26
  const SUBID: Byte := 27
  const ISAGGRESSIVE: Byte := 28
  const DISABLEDEFENSE: Byte := 29
  const SPECIALSKILLS: Byte := 30
  const END: Byte := 254

  const OUTFIT_BYTES := 18
  const MUTED := 0x10000

  function KindOf(conditionType: nat): Option<Kind> {
    match conditionType
    case 0x1 => Some(Damage) case 0x2 => Some(Damage) case 0x4 => Some(Damage) case 0x8 => Some(Damage)
    case 0x8000 => Some(Damage) case 0x10_0000 => Some(Damage) case 0x20_0000 => Some(Damage)
    case 0x40_0000 => Some(Damage)
    case 0x10 => Some(Speed) case 0x20 => Some(Speed)
    case 0x40 => Some(Outfit) case 0x100 => Some(Light) case 0x2000 => Some(Regeneration) case 0x4000 => Some(Soul)
    case 0x8_0000 => Some(Attributes)
    case 0x80 => Some(Plain) case 0x200 => Some(Plain) case 0x400 => Some(Plain) case 0x800 => Some(Plain)
    case 0x1000 => Some(Plain) case 0x1_0000 => Some(Plain) case 0x2_0000 => Some(Plain) case 0x4_0000 => Some(Plain)
    case 0x80_0000 => Some(Plain) case 0x100_0000 => Some(Plain) case 0x200_0000 => Some(Plain)
    case 0x400_0000 => Some(Plain) case 0x800_0000 => Some(Plain)
    case _ => None
  }

  /** Where the field under a tag is kept: the first of its places, how many there are, and its bytes. */
  datatype Slot = Slot(base: nat, size: nat, width: nat, signed: bool)

  function SlotOf(kind: Kind, tag: Byte): Option<Slot> {
    match kind
    case Damage => if tag == DELAYED then Some(Slot(0, 1, 1, false))
        else if tag == PERIODDAMAGE then Some(Slot(1, 1, 4, true)) else None
    case Speed => if SPEEDDELTA <= tag <= FORMULA_MAXB
        then Some(Slot((tag - SPEEDDELTA) as nat, 1, 4, tag == SPEEDDELTA)) else None
    case Light => if LIGHTCOLOR <= tag <= LIGHTINTERVAL then Some(Slot((tag - LIGHTCOLOR) as nat, 1, 4, false))
                  else None
    case Regeneration => if HEALTHTICKS <= tag <= MANAGAIN then Some(Slot((tag - HEALTHTICKS) as nat, 1, 4, false))
                         else None
    case Soul => if tag == SOULGAIN then Some(Slot(0, 1, 4, false))
        else if tag == SOULTICKS then Some(Slot(1, 1, 4, false)) else None
    case Attributes =>
      if tag == SKILLS then Some(Slot(0, 7, 4, true))
      else if tag == STATS then Some(Slot(7, 4, 4, true))
      else if tag == DISABLEDEFENSE then Some(Slot(11, 1, 1, false))
      else if tag == SPECIALSKILLS then Some(Slot(12, 6, 4, true))
      else None
    case Outfit => if tag == OUTFIT then Some(Slot(0, 1, OUTFIT_BYTES, false)) else None
    case Plain => None
  }

  function Fields(kind: Kind): nat {
    match kind
    case Plain => 0 case Damage => 2 case Speed => 5 case Light => 4
    case Regeneration => 4 case Soul => 2 case Attributes => 18 case Outfit => 1
  }

  /** The tag under which field `i` is written. */
  function TagAt(kind: Kind, i: nat): Byte
    requires i < Fields(kind)
  {
    match kind
    case Damage => if i == 0 then DELAYED else PERIODDAMAGE
    case Speed => SPEEDDELTA + i as Byte
    case Light => LIGHTCOLOR + i as Byte
    case Regeneration => HEALTHTICKS + i as Byte
    case Soul => if i == 0 then SOULGAIN else SOULTICKS
    case Attributes => if i < 7 then SKILLS else if i < 11 then STATS else if i == 11 then DISABLEDEFENSE
                       else SPECIALSKILLS
    case Outfit => OUTFIT
    case Plain => 0
  }

  lemma {:induction false} SlotsFit(kind: Kind, i: nat)
    requires i < Fields(kind)
    ensures SlotOf(kind, TagAt(kind, i)).Some?
    ensures var s := SlotOf(kind, TagAt(kind, i)).value; s.base <= i < s.base + s.size <= Fields(kind)
    ensures TagAt(kind, i) != END && TagAt(kind, i) != INTERVALDATA && TagAt(kind, i) != OWNER
  {
  }

  // ------------------------------------------------------------------ writing

  function Flag(v: bool): Byte { if v then 1 else 0 }

  function Header(c: Condition): seq<Byte> {
    ([TYPE] + Le(4, c.conditionType)) + (([ID] + Le(4, c.id)) + (([TICKS] + Le(4, c.ticks))
      + ([ISBUFF, Flag(c.isBuff)] + (([SUBID] + Le(4, c.subId)) + [ISAGGRESSIVE, Flag(c.aggressive)]))))
  }

  function Field(kind: Kind, i: nat, v: int): seq<Byte>
    requires i < Fields(kind)
  {
    SlotsFit(kind, i);
    [TagAt(kind, i)] + Le(SlotOf(kind, TagAt(kind, i)).value.width, v)
  }

  /** The fields from `i` on. */
  function FieldsFrom(kind: Kind, values: seq<int>, i: nat): seq<Byte>
    requires i <= |values| == Fields(kind)
    decreases |values| - i
  {
    if i == |values| then [] else Field(kind, i, values[i]) + FieldsFrom(kind, values, i + 1)
  }

  function DamageBytes(d: Interval): seq<Byte> {
    [INTERVALDATA] + (Le(4, d.timeLeft) + (Le(4, d.value) + Le(4, d.interval)))
  }

  function Damages(list: seq<Interval>): seq<Byte> {
    if list == [] then [] else DamageBytes(list[0]) + Damages(list[1..])
  }

  /** A condition whose fields are of the sizes they are stored with. */
  ghost predicate Proper(c: Condition) {
    && Complete(c)
    && (c.damageList != [] ==> KindOf(c.conditionType).value == Damage)
    && InSigned(1, c.id) && InSigned(4, c.ticks) && c.subId < Power(4)
    && AllFit(KindOf(c.conditionType).value, c.values)
    && forall i :: 0 <= i < |c.damageList| ==> IntervalFits(c.damageList[i])
  }

  ghost predicate AllFit(kind: Kind, values: seq<int>)
    requires |values| == Fields(kind)
  {
    forall i :: 0 <= i < |values| ==> ValueFits(kind, i, values[i])
  }

  ghost predicate ValueFits(kind: Kind, i: nat, v: int)
    requires i < Fields(kind)
  {
    SlotsFit(kind, i);
    var s := SlotOf(kind, TagAt(kind, i)).value;
    if s.signed then InSigned(s.width, v)
    else 0 <= v < (if IsByte(kind, i) then 256 else Power(s.width)) && (IsFlag(kind, i) ==> v < 2)
  }

  /** Light is kept in bytes, though it is stored in four. */
  predicate IsByte(kind: Kind, i: nat) {
    kind == Light && i < 2
  }

  predicate IsFlag(kind: Kind, i: nat) {
    (kind == Damage && i == 0) || (kind == Attributes && i == 11)
  }

  ghost predicate IntervalFits(d: Interval) {
    InSigned(4, d.timeLeft) && InSigned(4, d.value) && InSigned(4, d.interval)
  }

  /** The kind is known and has all its fields. */
  predicate Complete(c: Condition) {
    KindOf(c.conditionType).Some? && |c.values| == Fields(KindOf(c.conditionType).value)
  }

  function Body(c: Condition): seq<Byte>
    requires Complete(c)
  {
    FieldsFrom(KindOf(c.conditionType).value, c.values, 0) + (Damages(c.damageList) + [END])
  }

  function Encode(c: Condition): seq<Byte>
    requires Complete(c)
  {
    Header(c) + Body(c)
  }

  // ------------------------------------------------------------------ reading

  /** A condition that is being read, and how many of its skills, stats and special skills are. */
  datatype Reading = Reading(c: Condition, skills: nat, stats: nat, specials: nat)

  datatype Outcome = Outcome(ok: bool, r: Reading, next: nat)

  function Counter(kind: Kind, r: Reading, tag: Byte): nat {
    if kind != Attributes then 0
    else if tag == SKILLS then r.skills
    else if tag == STATS then r.stats
    else if tag == SPECIALSKILLS then r.specials
    else 0
  }

  function Counted(kind: Kind, r: Reading, tag: Byte): Reading {
    if kind != Attributes then r
    else if tag == SKILLS then r.(skills := r.skills + 1)
    else if tag == STATS then r.(stats := r.stats + 1)
    else if tag == SPECIALSKILLS then r.(specials := r.specials + 1)
    else r
  }

  /** The value of the bytes of a field. */
  function Decoded(kind: Kind, i: nat, s: Slot, n: nat): int {
    if s.signed then Signed(s.width, n)
    else if IsFlag(kind, i) then (if n != 0 then 1 else 0)
    else if IsByte(kind, i) then n % 256
    else n
  }

  function SetValue(r: Reading, i: nat, v: int): Reading
    requires i < |r.c.values|
  {
    r.(c := r.c.(values := r.c.values[i := v]))
  }

  /** One more damage: the condition lasts longer by its interval, unless it lasts for ever. */
  function WithDamage(c: Condition, d: Interval): Condition {
    c.(damageList := c.damageList + [d], ticks := if c.ticks != -1 then c.ticks + d.interval else c.ticks)
  }

  function IntervalAt(b: seq<Byte>, p: nat): Interval
    requires p + 12 <= |b|
  {
    Interval(Signed(4, NumberFrom(b, p, 4)), Signed(4, NumberFrom(b, p + 4, 4)), Signed(4, NumberFrom(b, p + 8, 4)))
  }

  /** A field of the kind. */
  function SlotAt(kind: Kind, r: Reading, b: seq<Byte>, p: nat, tag: Byte, s: Slot): (o: Outcome)
    requires p <= |b| && |r.c.values| == Fields(kind) && SlotOf(kind, tag) == Some(s)
    ensures p <= o.next <= |b| && |o.r.c.values| == Fields(kind)
  {
    match NumberAt(b, p, s.width)
    case Short => Outcome(false, r, p)
    case Got(n, next) =>
      var i := s.base + Counter(kind, r, tag);
      if Counter(kind, r, tag) >= s.size || i >= |r.c.values| then Outcome(false, r, next)
      else Outcome(true, Counted(kind, SetValue(r, i, Decoded(kind, i, s, n)), tag), next)
  }

  /** A field common to all kinds. */
  function CommonAt(r: Reading, b: seq<Byte>, p: nat, tag: Byte): (o: Outcome)
    requires p <= |b|
    ensures p <= o.next <= |b| && o.r.c.values == r.c.values
  {
    var width := if tag == ISBUFF || tag == ISAGGRESSIVE then 1 else 4;
    if tag != TYPE && tag != ID && tag != TICKS && tag != ISBUFF && tag != SUBID
        && tag != ISAGGRESSIVE then Outcome(false, r, p)
    else
      match NumberAt(b, p, width)
      case Short => Outcome(false, r, p)
      case Got(n, next) =>
        var c := if tag == TYPE then r.c.(conditionType := n)
                 else if tag == ID then r.c.(id := Signed(1, n % 256))
                 else if tag == TICKS then r.c.(ticks := Signed(4, n))
                 else if tag == ISBUFF then r.c.(isBuff := n != 0)
                 else if tag == SUBID then r.c.(subId := n)
                 else r.c.(aggressive := n != 0);
        Outcome(true, r.(c := c), next)
  }

  function PropAt(kind: Kind, r: Reading, b: seq<Byte>, p: nat, tag: Byte): (o: Outcome)
    requires p <= |b| && |r.c.values| == Fields(kind)
    ensures p <= o.next <= |b| && |o.r.c.values| == Fields(kind)
  {
    if kind == Damage && tag == OWNER then
      if p + 4 <= |b| then Outcome(true, r, p + 4) else Outcome(false, r, p)
    else if kind == Damage && tag == INTERVALDATA then
      if p + 12 <= |b| then Outcome(true, r.(c := WithDamage(r.c, IntervalAt(b, p))), p + 12) else Outcome(false, r, p)
    else
      match SlotOf(kind, tag)
      case Some(s) => SlotAt(kind, r, b, p, tag, s)
      case None => CommonAt(r, b, p, tag)
  }

  /** Fields up to the end mark. */
  function UnserializeAt(kind: Kind, r: Reading, b: seq<Byte>, p: nat): (o: Outcome)
    requires p <= |b| && |r.c.values| == Fields(kind)
    ensures p <= o.next <= |b|
    decreases |b| - p, 1
  {
    if p == |b| then Outcome(true, r, p)
    else if b[p] == END then Outcome(true, r, p + 1)
    else NextAt(kind, r, b, p)
  }

  /** One field and what follows it. */
  function NextAt(kind: Kind, r: Reading, b: seq<Byte>, p: nat): (o: Outcome)
    requires p < |b| && |r.c.values| == Fields(kind)
    ensures p <= o.next <= |b|
    decreases |b| - p, 0
  {
    var o := PropAt(kind, r, b, p + 1, b[p]);
    if o.ok then UnserializeAt(kind, o.r, b, o.next) else o
  }

  function Defaults(kind: Kind): (v: seq<int>)
    ensures |v| == Fields(kind)
  {
    if kind == Regeneration then [1000, 0, 1000, 0] else seq(Fields(kind), i => 0)
  }

  /** A number under the tag that must come next. */
  function TaggedAt(b: seq<Byte>, p: nat, tag: Byte, width: nat): (r: Got<nat>)
    ensures r.Got? ==> p < r.next <= |b|
  {
    if p >= |b| || b[p] != tag then Short else NumberAt(b, p + 1, width)
  }

  /** The common fields, in their order; nothing when one is missing or the type is unknown. */
  function HeaderAt(b: seq<Byte>, p: nat): (r: Got<Condition>)
    ensures r.Got? ==> p < r.next <= |b| && KindOf(r.value.conditionType).Some?
                       && |r.value.values| == Fields(KindOf(r.value.conditionType).value)
  {
    var conditionType := TaggedAt(b, p, TYPE, 4);
    if conditionType.Short? then Short else
    var id := TaggedAt(b, conditionType.next, ID, 4);
    if id.Short? then Short else
    var ticks := TaggedAt(b, id.next, TICKS, 4);
    if ticks.Short? then Short else
    var buff := TaggedAt(b, ticks.next, ISBUFF, 1);
    if buff.Short? then Short else
    var subId := TaggedAt(b, buff.next, SUBID, 4);
    if subId.Short? then Short else
    var aggressive := TaggedAt(b, subId.next, ISAGGRESSIVE, 1);
    if aggressive.Short? || KindOf(conditionType.value).None? then Short
    else
      var kind := KindOf(conditionType.value).value;
      Got(Condition(conditionType.value, Signed(1, id.value % 256), if kind == Damage then 0
          else Signed(4, ticks.value),
                    buff.value != 0, subId.value, aggressive.value != 0, Defaults(kind), []), aggressive.next)
  }

  /** All conditions of the stream, each put in front of those before. */
  function LoadAt(b: seq<Byte>, p: nat, list: seq<Condition>): seq<Condition>
    decreases |b| - p
  {
    match HeaderAt(b, p)
    case Short => list
    case Got(c, next) =>
      var o := UnserializeAt(KindOf(c.conditionType).value, Reading(c, 0, 0, 0), b, next);
      LoadAt(b, o.next, if o.ok then [o.r.c] + list else list)
  }

  // ------------------------------------------------------- the round trip

  lemma {:induction false} ReadsTagged(b: seq<Byte>, p: nat, tag: Byte, width: nat, v: int, rest: seq<Byte>)
    requires At(b, p, ([tag] + Le(width, v)) + rest)
    ensures TaggedAt(b, p, tag, width) == Got(v % Power(width), p + 1 + width) && At(b, p + 1 + width, rest)
  {
    AtSplit(b, p, [tag] + Le(width, v), rest);
    AtSplit(b, p, [tag], Le(width, v));
    AtFirst(b, p, [tag]);
    ReadsNumber(b, p + 1, width, v);
  }

  lemma {:induction false} FlagIsByte(v: bool)
    ensures Le(1, if v then 1 else 0) == [Flag(v)] && Power(1) == 256
  {
    assert Le(0, 0) == [];
  }

  /** What is created from the common fields. */
  function Created(c: Condition, kind: Kind): Condition {
    c.(ticks := if kind == Damage then 0 else c.ticks, values := Defaults(kind), damageList := [])
  }

  lemma {:induction false} ReadsFlag(b: seq<Byte>, p: nat, tag: Byte, v: bool, rest: seq<Byte>)
    requires At(b, p, [tag, Flag(v)] + rest)
    ensures TaggedAt(b, p, tag, 1) == Got(if v then 1 else 0, p + 2) && At(b, p + 2, rest)
  {
    FlagIsByte(v);
    assert [tag, Flag(v)] == [tag] + Le(1, if v then 1 else 0);
    ReadsTagged(b, p, tag, 1, if v then 1 else 0, rest);
  }

  /** What follows the identifiers and the duration. */
  lemma {:induction false} ReadsRest(b: seq<Byte>, p: nat, c: Condition)
    requires At(b, p, [ISBUFF, Flag(c.isBuff)] + (([SUBID] + Le(4, c.subId)) + [ISAGGRESSIVE, Flag(c.aggressive)]))
    ensures TaggedAt(b, p, ISBUFF, 1) == Got(if c.isBuff then 1 else 0, p + 2)
    ensures TaggedAt(b, p + 2, SUBID, 4) == Got(c.subId % Power(4), p + 7)
    ensures TaggedAt(b, p + 7, ISAGGRESSIVE, 1) == Got(if c.aggressive then 1 else 0, p + 9)
  {
    var aggressive: seq<Byte> := [ISAGGRESSIVE, Flag(c.aggressive)];
    ReadsFlag(b, p, ISBUFF, c.isBuff, ([SUBID] + Le(4, c.subId)) + aggressive);
    ReadsTagged(b, p + 2, SUBID, 4, c.subId, aggressive);
    assert aggressive == aggressive + [];
    ReadsFlag(b, p + 7, ISAGGRESSIVE, c.aggressive, []);
  }

  lemma {:induction false} ReadsHeader(b: seq<Byte>, p: nat, c: Condition)
    requires Proper(c) && At(b, p, Header(c))
    ensures HeaderAt(b, p) == Got(Created(c, KindOf(c.conditionType).value), p + 24)
  {
    var rest := [ISBUFF, Flag(c.isBuff)] + (([SUBID] + Le(4, c.subId)) + [ISAGGRESSIVE, Flag(c.aggressive)]);
    ReadsTagged(b, p, TYPE, 4, c.conditionType, ([ID] + Le(4, c.id)) + (([TICKS] + Le(4, c.ticks)) + rest));
    ReadsTagged(b, p + 5, ID, 4, c.id, ([TICKS] + Le(4, c.ticks)) + rest);
    ReadsTagged(b, p + 10, TICKS, 4, c.ticks, rest);
    ReadsRest(b, p + 15, c);
    HeaderNumbers(c);
  }

  /** The numbers of the header survive. */
  lemma {:induction false} HeaderNumbers(c: Condition)
    requires Proper(c)
    ensures c.conditionType % Power(4) == c.conditionType && c.subId % Power(4) == c.subId
    ensures Signed(1, (c.id % Power(4)) % 256) == c.id && Signed(4, c.ticks % Power(4)) == c.ticks
  {
    assert Power(4) == 0x1_0000_0000 && Power(1) == 256 by {
      assert Power(4) == 256 * Power(3) && Power(3) == 256 * Power(2) && Power(2) == 256 * Power(1)
          && Power(1) == 256 * Power(0);
    }
    SignedSurvives(4, c.ticks);
    UnsignedSurvives(4, c.subId);
    UnsignedSurvives(4, c.conditionType);
    SignedSurvives(1, c.id);
    assert (c.id % 0x1_0000_0000) % 256 == c.id % 256;
  }

  // ---- the fields

  /** The first `i` fields are read. */
  ghost predicate ReadTo(kind: Kind, c: Condition, i: nat, r: Reading)
    requires |c.values| == Fields(kind)
  {
    && i <= |c.values| == |r.c.values| && r.c.values[..i] == c.values[..i]
    && r.c == Created(c, kind).(values := r.c.values)
    && (if kind == Attributes then
          && r.skills == (if i < 7 then i else 7)
          && r.stats == (if i < 7 then 0 else if i < 11 then i - 7 else 4)
          && r.specials == (if i < 12 then 0 else i - 12)
        else r.skills == 0 && r.stats == 0 && r.specials == 0)
  }

  lemma {:induction false} CounterIs(kind: Kind, c: Condition, i: nat, r: Reading)
    requires |c.values| == Fields(kind) && i < |c.values| && ReadTo(kind, c, i, r)
    ensures SlotOf(kind, TagAt(kind, i)).Some?
    ensures var s := SlotOf(kind, TagAt(kind, i)).value;
            s.base + Counter(kind, r, TagAt(kind, i)) == i && Counter(kind, r, TagAt(kind, i)) < s.size
  {
  }

  lemma {:induction false} NumberSurvives(width: nat, v: int, signed: bool, most: nat)
    requires width > 0 && (signed ==> InSigned(width, v))
    requires !signed ==> 0 <= v < most && (most == 256 || most == Power(width))
    ensures if signed then Signed(width, v % Power(width)) == v else v % Power(width) == v
  {
    if signed {
      SignedSurvives(width, v);
    } else {
      assert Power(width) == 256 * Power(width - 1);
      UnsignedSurvives(width, v);
    }
  }

  lemma {:induction false} ValueSurvives(kind: Kind, i: nat, s: Slot, v: int)
    requires i < Fields(kind) && SlotOf(kind, TagAt(kind, i)) == Some(s) && ValueFits(kind, i, v)
    ensures Decoded(kind, i, s, v % Power(s.width)) == v
  {
    NumberSurvives(s.width, v, s.signed, if IsByte(kind, i) then 256 else Power(s.width));
  }

  lemma {:induction false} OneProp(kind: Kind, r: Reading, b: seq<Byte>, p: nat, r': Reading, next: nat)
    requires |r.c.values| == Fields(kind) && p < |b| && b[p] != END
    requires PropAt(kind, r, b, p + 1, b[p]) == Outcome(true, r', next)
    ensures UnserializeAt(kind, r, b, p) == UnserializeAt(kind, r', b, next)
  {
    assert NextAt(kind, r, b, p) == UnserializeAt(kind, r', b, next);
  }

  lemma {:induction false} PropOfSlot(kind: Kind, r: Reading, b: seq<Byte>, p: nat, tag: Byte, s: Slot)
    requires p <= |b| && |r.c.values| == Fields(kind) && SlotOf(kind, tag) == Some(s)
    ensures PropAt(kind, r, b, p, tag) == SlotAt(kind, r, b, p, tag, s) && tag != END
  {
  }

  /** One number is read into its place. */
  lemma {:induction false} ReadsSlot(kind: Kind, c: Condition, i: nat, r: Reading, b: seq<Byte>, p: nat, s: Slot,
                                     r': Reading)
    requires |c.values| == Fields(kind) && i < |c.values| && ReadTo(kind, c, i, r) && ValueFits(kind, i, c.values[i])
    requires SlotOf(kind, TagAt(kind, i)) == Some(s) && At(b, p, Le(s.width, c.values[i]))
    requires r' == Counted(kind, SetValue(r, i, c.values[i]), TagAt(kind, i))
    ensures SlotAt(kind, r, b, p, TagAt(kind, i), s) == Outcome(true, r', p + s.width)
  {
    CounterIs(kind, c, i, r);
    ReadsNumber(b, p, s.width, c.values[i]);
    ValueSurvives(kind, i, s, c.values[i]);
  }

  /** One field is read into its place. */
  lemma {:induction false} ReadsField(kind: Kind, c: Condition, i: nat, r: Reading, b: seq<Byte>, p: nat, r': Reading)
    requires |c.values| == Fields(kind) && i < |c.values| && ReadTo(kind, c, i, r) && ValueFits(kind, i, c.values[i])
    requires At(b, p, Field(kind, i, c.values[i])) && r' == Counted(kind, SetValue(r, i, c.values[i]), TagAt(kind, i))
    ensures UnserializeAt(kind, r, b, p) == UnserializeAt(kind, r', b, p + |Field(kind, i, c.values[i])|)
  {
    SlotsFit(kind, i);
    var tag, s := TagAt(kind, i), SlotOf(kind, TagAt(kind, i)).value;
    AtSplit(b, p, [tag], Le(s.width, c.values[i]));
    AtFirst(b, p, [tag]);
    ReadsSlot(kind, c, i, r, b, p + 1, s, r');
    PropOfSlot(kind, r, b, p + 1, tag, s);
    OneProp(kind, r, b, p, r', p + 1 + s.width);
  }

  lemma {:induction false} NextReadTo(kind: Kind, c: Condition, i: nat, r: Reading, r': Reading)
    requires |c.values| == Fields(kind) && i < |c.values| && ReadTo(kind, c, i, r)
    requires r' == Counted(kind, SetValue(r, i, c.values[i]), TagAt(kind, i))
    ensures ReadTo(kind, c, i + 1, r')
  {
    assert r'.c.values[..i + 1] == r.c.values[..i] + [c.values[i]];
    assert c.values[..i + 1] == c.values[..i] + [c.values[i]];
  }

  /** A condition with all its fields but no damages yet. */
  function WithFields(c: Condition, kind: Kind): Condition {
    Created(c, kind).(values := c.values)
  }

  function AllRead(c: Condition, kind: Kind): Reading {
    if kind == Attributes then Reading(WithFields(c, kind), 7, 4, 6) else Reading(WithFields(c, kind), 0, 0, 0)
  }

  lemma {:induction false} ReadToEnd(kind: Kind, c: Condition, r: Reading)
    requires |c.values| == Fields(kind) && ReadTo(kind, c, |c.values|, r)
    ensures r == AllRead(c, kind)
  {
    assert r.c.values == r.c.values[..|c.values|] && c.values == c.values[..|c.values|];
  }

  lemma {:induction false} FieldsSplit(kind: Kind, values: seq<int>, i: nat, b: seq<Byte>, p: nat)
    requires i < |values| == Fields(kind) && At(b, p, FieldsFrom(kind, values, i))
    ensures At(b, p, Field(kind, i, values[i]))
    ensures At(b, p + |Field(kind, i, values[i])|, FieldsFrom(kind, values, i + 1))
  {
    AtSplit(b, p, Field(kind, i, values[i]), FieldsFrom(kind, values, i + 1));
  }

  lemma {:induction false} NextField(kind: Kind, c: Condition, i: nat, r: Reading, b: seq<Byte>, p: nat, r': Reading,
                                     q: nat)
    requires |c.values| == Fields(kind) && i < |c.values| && ReadTo(kind, c, i, r) && AllFit(kind, c.values)
    requires At(b, p, FieldsFrom(kind, c.values, i)) && q == p + |Field(kind, i, c.values[i])|
    requires r' == Counted(kind, SetValue(r, i, c.values[i]), TagAt(kind, i))
    ensures ReadTo(kind, c, i + 1, r') && At(b, q, FieldsFrom(kind, c.values, i + 1))
    ensures UnserializeAt(kind, r, b, p) == UnserializeAt(kind, r', b, q)
  {
    FieldsSplit(kind, c.values, i, b, p);
    assert ValueFits(kind, i, c.values[i]);
    ReadsField(kind, c, i, r, b, p, r');
    NextReadTo(kind, c, i, r, r');
  }

  lemma {:induction false} ReadsFields(kind: Kind, c: Condition, i: nat, r: Reading, b: seq<Byte>, p: nat, q: nat)
    requires |c.values| == Fields(kind) && ReadTo(kind, c, i, r)
    requires AllFit(kind, c.values) && At(b, p, FieldsFrom(kind, c.values, i))
    requires q == p + |FieldsFrom(kind, c.values, i)|
    ensures UnserializeAt(kind, r, b, p) == UnserializeAt(kind, AllRead(c, kind), b, q)
    decreases |c.values| - i
  {
    if i == |c.values| {
      ReadToEnd(kind, c, r);
    } else {
      var r' := Counted(kind, SetValue(r, i, c.values[i]), TagAt(kind, i));
      var next := p + |Field(kind, i, c.values[i])|;
      NextField(kind, c, i, r, b, p, r', next);
      ReadsFields(kind, c, i + 1, r', b, next, q);
    }
  }

  // ---- the damages

  function WithDamages(c: Condition, list: seq<Interval>): Condition
    decreases |list|
  {
    if list == [] then c else WithDamages(WithDamage(c, list[0]), list[1..])
  }

  lemma {:induction false} ReadsInterval(d: Interval, b: seq<Byte>, p: nat)
    requires IntervalFits(d) && At(b, p, Le(4, d.timeLeft) + (Le(4, d.value) + Le(4, d.interval)))
    ensures p + 12 <= |b| && IntervalAt(b, p) == d
  {
    AtThree(b, p, Le(4, d.timeLeft), Le(4, d.value), Le(4, d.interval));
    SignedNumber(b, p, d.timeLeft);
    SignedNumber(b, p + 4, d.value);
    SignedNumber(b, p + 8, d.interval);
  }

  lemma {:induction false} ReadsDamage(r: Reading, d: Interval, b: seq<Byte>, p: nat, rest: seq<Byte>)
    requires |r.c.values| == Fields(Damage) && IntervalFits(d)
    requires At(b, p, DamageBytes(d) + rest)
    ensures At(b, p + 13, rest)
    ensures UnserializeAt(Damage, r, b, p) == UnserializeAt(Damage, r.(c := WithDamage(r.c, d)), b, p + 13)
  {
    var numbers := Le(4, d.timeLeft) + (Le(4, d.value) + Le(4, d.interval));
    AtSplit(b, p, DamageBytes(d), rest);
    AtSplit(b, p, [INTERVALDATA], numbers);
    AtFirst(b, p, [INTERVALDATA]);
    ReadsInterval(d, b, p + 1);
    OneProp(Damage, r, b, p, r.(c := WithDamage(r.c, d)), p + 13);
  }

  lemma {:induction false} SignedNumber(b: seq<Byte>, p: nat, v: int)
    requires At(b, p, Le(4, v)) && InSigned(4, v)
    ensures p + 4 <= |b| && Signed(4, NumberFrom(b, p, 4)) == v
  {
    ReadsNumber(b, p, 4, v);
    SignedSurvives(4, v);
  }

  lemma {:induction false} ReadsDamages(r: Reading, list: seq<Interval>, b: seq<Byte>, p: nat)
    requires |r.c.values| == Fields(Damage) && At(b, p, Damages(list) + [END])
    requires forall i :: 0 <= i < |list| ==> IntervalFits(list[i])
    ensures UnserializeAt(Damage, r, b, p) == Outcome(true, r.(c := WithDamages(r.c, list)), p + |Damages(list)| + 1)
    decreases |list|
  {
    if list == [] {
      assert Damages(list) + [END] == [END];
      AtFirst(b, p, [END]);
    } else {
      Regroup(DamageBytes(list[0]), Damages(list[1..]), [END]);
      ReadsDamage(r, list[0], b, p, Damages(list[1..]) + [END]);
      ReadsDamages(r.(c := WithDamage(r.c, list[0])), list[1..], b, p + 13);
    }
  }

  /** How long a condition lasts after its damages are read. */
  function TicksAfter(ticks: int, list: seq<Interval>): int
    decreases |list|
  {
    if list == [] then ticks else TicksAfter(if ticks != -1 then ticks + list[0].interval else ticks, list[1..])
  }

  lemma {:induction false} DamagesAre(c: Condition, list: seq<Interval>)
    ensures WithDamages(c, list) == c.(damageList := c.damageList + list, ticks := TicksAfter(c.ticks, list))
    decreases |list|
  {
    if list == [] {
      assert c.damageList + list == c.damageList;
    } else {
      DamagesAre(WithDamage(c, list[0]), list[1..]);
      assert (c.damageList + [list[0]]) + list[1..] == c.damageList + list;
    }
  }

  function Total(list: seq<Interval>): int {
    if list == [] then 0 else list[0].interval + Total(list[1..])
  }

  /** The duration becomes the sum of the intervals, which is never negative. */
  lemma {:induction false} TicksAreTotal(ticks: nat, list: seq<Interval>)
    requires forall i :: 0 <= i < |list| ==> list[i].interval >= 0
    ensures TicksAfter(ticks, list) == ticks + Total(list)
    decreases |list|
  {
    if list != [] { TicksAreTotal(ticks + list[0].interval, list[1..]); }
  }

  // ---- whole conditions and lists

  /** A condition as it comes back: a damage condition lasts as long as its damages. */
  function Restored(c: Condition): Condition {
    if KindOf(c.conditionType) == Some(Damage) then c.(ticks := TicksAfter(0, c.damageList)) else c
  }

  lemma {:induction false} ReadsEnd(kind: Kind, r: Reading, b: seq<Byte>, q: nat)
    requires |r.c.values| == Fields(kind) && At(b, q, [END])
    ensures UnserializeAt(kind, r, b, q) == Outcome(true, r, q + 1)
  {
    AtFirst(b, q, [END]);
  }

  lemma {:induction false} BodySplit(c: Condition, kind: Kind, b: seq<Byte>, p: nat, q: nat)
    requires Proper(c) && kind == KindOf(c.conditionType).value && At(b, p, Body(c))
    requires q == p + |FieldsFrom(kind, c.values, 0)|
    ensures At(b, p, FieldsFrom(kind, c.values, 0)) && At(b, q, Damages(c.damageList) + [END])
    ensures q + |Damages(c.damageList)| + 1 == p + |Body(c)|
    ensures kind != Damage ==> Damages(c.damageList) + [END] == [END]
  {
    AtSplit(b, p, FieldsFrom(kind, c.values, 0), Damages(c.damageList) + [END]);
  }

  lemma {:induction false} AllReadIs(c: Condition, kind: Kind)
    requires Proper(c) && kind == KindOf(c.conditionType).value
    ensures |AllRead(c, kind).c.values| == Fields(kind)
    ensures if kind == Damage then WithDamages(AllRead(c, kind).c, c.damageList) == Restored(c)
            else AllRead(c, kind).c == Restored(c)
  {
    if kind == Damage {
      DamagesAre(AllRead(c, kind).c, c.damageList);
      assert [] + c.damageList == c.damageList;
    }
  }

  lemma {:induction false} StartsReading(c: Condition, kind: Kind)
    requires Proper(c) && kind == KindOf(c.conditionType).value
    ensures ReadTo(kind, c, 0, Reading(Created(c, kind), 0, 0, 0))
  {
  }

  lemma {:induction false} ReadsBody(c: Condition, kind: Kind, b: seq<Byte>, p: nat, next: nat)
    requires Proper(c) && kind == KindOf(c.conditionType).value && At(b, p, Body(c)) && next == p + |Body(c)|
    ensures var o := UnserializeAt(kind, Reading(Created(c, kind), 0, 0, 0), b, p);
            o.ok && o.r.c == Restored(c) && o.next == next
  {
    var start, done, q := Reading(Created(c, kind), 0, 0, 0), AllRead(c, kind), p + |FieldsFrom(kind, c.values, 0)|;
    BodySplit(c, kind, b, p, q);
    StartsReading(c, kind);
    ReadsFields(kind, c, 0, start, b, p, q);
    AllReadIs(c, kind);
    if kind == Damage {
      ReadsDamages(done, c.damageList, b, q);
    } else {
      ReadsEnd(kind, done, b, q);
    }
  }

  predicate AllComplete(list: seq<Condition>) {
    forall i :: 0 <= i < |list| ==> Complete(list[i])
  }

  function EncodeAll(list: seq<Condition>): seq<Byte>
    requires AllComplete(list)
  {
    if list == [] then [] else Encode(list[0]) + EncodeAll(list[1..])
  }

  function Reversed(list: seq<Condition>): (r: seq<Condition>)
    ensures |r| == |list|
  {
    if list == [] then [] else Reversed(list[1..]) + [Restored(list[0])]
  }

  /** What the reversed list holds, place by place. */
  lemma {:induction false} ReversedAt(list: seq<Condition>, i: nat)
    requires i < |list|
    ensures Reversed(list)[i] == Restored(list[|list| - 1 - i])
  {
    if i < |list| - 1 { ReversedAt(list[1..], i); }
  }

  ghost predicate AllProper(list: seq<Condition>) {
    forall i :: 0 <= i < |list| ==> Proper(list[i])
  }

  /** One condition is read and put in front; the next is read right behind it. */
  lemma {:induction false} ReadsOne(c: Condition, b: seq<Byte>, p: nat, acc: seq<Condition>, next: nat,
                                    more: seq<Condition>)
    requires Proper(c) && At(b, p, Encode(c)) && next == p + |Encode(c)| && more == [Restored(c)] + acc
    ensures LoadAt(b, p, acc) == LoadAt(b, next, more)
  {
    AtSplit(b, p, Header(c), Body(c));
    ReadsHeader(b, p, c);
    ReadsBody(c, KindOf(c.conditionType).value, b, p + 24, next);
  }

  lemma {:induction false} ListSplit(list: seq<Condition>, b: seq<Byte>, p: nat, next: nat)
    requires list != [] && AllProper(list) && AllComplete(list) && p + |EncodeAll(list)| == |b|
    requires At(b, p, EncodeAll(list))
    requires next == p + |Encode(list[0])|
    ensures Proper(list[0]) && At(b, p, Encode(list[0])) && AllProper(list[1..]) && AllComplete(list[1..])
    ensures next + |EncodeAll(list[1..])| == |b| && At(b, next, EncodeAll(list[1..]))
  {
    AtSplit(b, p, Encode(list[0]), EncodeAll(list[1..]));
  }

  lemma {:induction false} ReversedStep(list: seq<Condition>, acc: seq<Condition>)
    requires list != []
    ensures Reversed(list[1..]) + ([Restored(list[0])] + acc) == Reversed(list) + acc
  {
  }

  lemma {:induction false} NothingLeft(b: seq<Byte>, p: nat, acc: seq<Condition>)
    requires p == |b|
    ensures LoadAt(b, p, acc) == acc
  {
    assert HeaderAt(b, p).Short?;
  }

  lemma {:induction false} LoadsRest(list: seq<Condition>, b: seq<Byte>, p: nat, acc: seq<Condition>,
                                     all: seq<Condition>)
    requires AllProper(list) && AllComplete(list) && p + |EncodeAll(list)| == |b| && At(b, p, EncodeAll(list))
    requires all == Reversed(list) + acc
    ensures LoadAt(b, p, acc) == all
    decreases |list|
  {
    if list == [] {
      NothingLeft(b, p, acc);
    } else {
      var next, more := p + |Encode(list[0])|, [Restored(list[0])] + acc;
      ListSplit(list, b, p, next);
      ReadsOne(list[0], b, p, acc, next, more);
      ReversedStep(list, acc);
      LoadsRest(list[1..], b, next, more, all);
    }
  }

  /** Reading what was written of any list of conditions gives it back reversed, every condition with
      all that is stored of it; no condition takes bytes of the next. */
  lemma {:induction false} RoundTrip(list: seq<Condition>)
    requires AllProper(list) && AllComplete(list)
    ensures LoadAt(EncodeAll(list), 0, []) == Reversed(list)
  {
    assert Reversed(list) == Reversed(list) + [];
    LoadsRest(list, EncodeAll(list), 0, [], Reversed(list));
  }

  // ------------------------------------------------------------ the methods

  /** Conditions that outlast a logout. */
  predicate IsPersistent(c: Condition) {
    c.ticks != -1 && (c.id == -1 || c.id == 0 || c.conditionType == MUTED)
  }

  function Persistent(list: seq<Condition>): (r: seq<Condition>)
    ensures AllComplete(list) ==> AllComplete(r)
  {
    if list == [] then [] else (if IsPersistent(list[0]) then [list[0]] else []) + Persistent(list[1..])
  }

  method WriteTagged(stream: PropWriteStream, tag: Byte, width: nat, v: int)
    modifies stream
    ensures stream.buffer == old(stream.buffer) + ([tag] + Le(width, v))
  {
    stream.WriteByte(tag);
    stream.Write(width, v);
    Regroup(old(stream.buffer), [tag], Le(width, v));
  }

  method WriteFlag(stream: PropWriteStream, tag: Byte, v: bool)
    modifies stream
    ensures stream.buffer == old(stream.buffer) + [tag, Flag(v)]
  {
    stream.WriteByte(tag);
    stream.WriteByte(Flag(v));
  }

  lemma {:induction false} HeaderJoins(start: seq<Byte>, a: seq<Byte>, b: seq<Byte>, c: seq<Byte>, d: seq<Byte>,
                                       e: seq<Byte>, f: seq<Byte>)
    ensures start + a + b + c + d + e + f == start + (a + (b + (c + (d + (e + f)))))
  {
  }

  method WriteHeader(stream: PropWriteStream, c: Condition)
    modifies stream
    ensures stream.buffer == old(stream.buffer) + Header(c)
  {
    WriteTagged(stream, TYPE, 4, c.conditionType);
    WriteTagged(stream, ID, 4, c.id);
    WriteTagged(stream, TICKS, 4, c.ticks);
    WriteFlag(stream, ISBUFF, c.isBuff);
    WriteTagged(stream, SUBID, 4, c.subId);
    WriteFlag(stream, ISAGGRESSIVE, c.aggressive);
    HeaderJoins(old(stream.buffer), [TYPE] + Le(4, c.conditionType), [ID] + Le(4, c.id), [TICKS] + Le(4, c.ticks),
        [ISBUFF, Flag(c.isBuff)], [SUBID] + Le(4, c.subId), [ISAGGRESSIVE, Flag(c.aggressive)]);
  }

  method WriteFields(stream: PropWriteStream, kind: Kind, values: seq<int>)
    requires |values| == Fields(kind)
    modifies stream
    ensures stream.buffer == old(stream.buffer) + FieldsFrom(kind, values, 0)
  {
    ghost var start := stream.buffer;
    var i := 0;
    while i < |values|
      invariant 0 <= i <= |values|
      invariant stream.buffer + FieldsFrom(kind, values, i) == start + FieldsFrom(kind, values, 0)
    {
      ghost var before := stream.buffer;
      SlotsFit(kind, i);
      stream.WriteByte(TagAt(kind, i));
      stream.Write(SlotOf(kind, TagAt(kind, i)).value.width, values[i]);
      assert stream.buffer == before + Field(kind, i, values[i]);
      Regroup(before, Field(kind, i, values[i]), FieldsFrom(kind, values, i + 1));
      i := i + 1;
    }
  }

  method WriteDamage(stream: PropWriteStream, d: Interval)
    modifies stream
    ensures stream.buffer == old(stream.buffer) + DamageBytes(d)
  {
    stream.WriteByte(INTERVALDATA);
    stream.Write(4, d.timeLeft);
    stream.Write(4, d.value);
    stream.Write(4, d.interval);
    DamageJoins(old(stream.buffer), [INTERVALDATA], Le(4, d.timeLeft), Le(4, d.value), Le(4, d.interval));
  }

  lemma {:induction false} DamageJoins(start: seq<Byte>, a: seq<Byte>, b: seq<Byte>, c: seq<Byte>, d: seq<Byte>)
    ensures start + a + b + c + d == start + (a + (b + (c + d)))
  {
  }

  method WriteDamages(stream: PropWriteStream, list: seq<Interval>)
    modifies stream
    ensures stream.buffer == old(stream.buffer) + Damages(list)
  {
    ghost var start := stream.buffer;
    var i := 0;
    while i < |list|
      invariant 0 <= i <= |list|
      invariant stream.buffer + Damages(list[i..]) == start + Damages(list)
    {
      ghost var before := stream.buffer;
      WriteDamage(stream, list[i]);
      assert list[i..][1..] == list[i + 1..];
      Regroup(before, DamageBytes(list[i]), Damages(list[i + 1..]));
      i := i + 1;
    }
  }

  method Serialize(stream: PropWriteStream, c: Condition)
    requires Complete(c)
    modifies stream
    ensures stream.buffer == old(stream.buffer) + Encode(c)
  {
    ghost var start := stream.buffer;
    WriteHeader(stream, c);
    WriteFields(stream, KindOf(c.conditionType).value, c.values);
    WriteDamages(stream, c.damageList);
    stream.WriteByte(END);
    PartsJoin(start, Header(c), FieldsFrom(KindOf(c.conditionType).value, c.values, 0), Damages(c.damageList));
  }

  lemma {:induction false} PartsJoin(start: seq<Byte>, header: seq<Byte>, fields: seq<Byte>, damages: seq<Byte>)
    ensures start + header + fields + damages + [END] == start + (header + (fields + (damages + [END])))
  {
  }

  /** What one condition adds to the stream. */
  function Piece(c: Condition): seq<Byte>
    requires Complete(c)
  {
    if IsPersistent(c) then Encode(c) else []
  }

  /** What the conditions from `i` on add to the stream. */
  ghost function StillToWrite(list: seq<Condition>, i: nat): seq<Byte>
    requires AllComplete(list) && i <= |list|
    decreases |list| - i
  {
    if i == |list| then [] else Piece(list[i]) + StillToWrite(list, i + 1)
  }

  lemma {:induction false} WritesPersistent(list: seq<Condition>, i: nat)
    requires AllComplete(list) && i <= |list|
    ensures AllComplete(list[i..]) && StillToWrite(list, i) == EncodeAll(Persistent(list[i..]))
    decreases |list| - i
  {
    if i < |list| {
      WritesPersistent(list, i + 1);
      assert list[i..][1..] == list[i + 1..];
      var rest := Persistent(list[i + 1..]);
      assert ([list[i]] + rest)[1..] == rest;
      assert [] + rest == rest;
    }
  }

  lemma {:induction false} PieceWritten(list: seq<Condition>, i: nat, before: seq<Byte>, now: seq<Byte>)
    requires AllComplete(list) && i < |list| && now == before + Piece(list[i])
    ensures now + StillToWrite(list, i + 1) == before + StillToWrite(list, i)
  {
    Regroup(before, Piece(list[i]), StillToWrite(list, i + 1));
  }

  method SaveOne(stream: PropWriteStream, c: Condition)
    requires Complete(c)
    modifies stream
    ensures stream.buffer == old(stream.buffer) + Piece(c)
  {
    ghost var before := stream.buffer;
    if IsPersistent(c) {
      Serialize(stream, c);
    } else {
      assert before == before + [];
    }
  }

  /** Writes the conditions that outlast a logout. */
  method SaveConditions(stream: PropWriteStream, list: seq<Condition>)
    requires AllComplete(list)
    modifies stream
    ensures stream.buffer == old(stream.buffer) + EncodeAll(Persistent(list))
  {
    ghost var start := stream.buffer;
    WritesPersistent(list, 0);
    assert list[0..] == list;
    var i := 0;
    while i < |list|
      invariant 0 <= i <= |list| && stream.buffer + StillToWrite(list, i) == start + StillToWrite(list, 0)
    {
      ghost var before := stream.buffer;
      SaveOne(stream, list[i]);
      PieceWritten(list, i, before, stream.buffer);
      i := i + 1;
    }
  }

  /** A number under the tag that must come next. */
  method ReadTagged(stream: PropStream, tag: Byte, width: nat) returns (ok: bool, n: nat)
    requires stream.Valid()
    modifies stream`p
    ensures stream.Valid() && old(stream.p) <= stream.p
    ensures ok <==> TaggedAt(stream.data, old(stream.p), tag, width).Got?
    ensures ok ==> Got(n, stream.p) == TaggedAt(stream.data, old(stream.p), tag, width)
  {
    var attr;
    n := 0;
    ok, attr := stream.ReadByte();
    if ok && attr == tag {
      ok, n := stream.Read(width);
    } else {
      ok := false;
    }
  }

  /** A new condition from the common fields. */
  method CreateCondition(stream: PropStream) returns (c: Option<Condition>)
    requires stream.Valid()
    modifies stream`p
    ensures stream.Valid() && old(stream.p) <= stream.p
    ensures c.Some? <==> HeaderAt(stream.data, old(stream.p)).Got?
    ensures c.Some? ==> Got(c.value, stream.p) == HeaderAt(stream.data, old(stream.p))
  {
    c := None;
    var conditionType, id, ticks, buff, subId, aggressive, ok;
    ok, conditionType := ReadTagged(stream, TYPE, 4);
    if !ok { return; }
    ok, id := ReadTagged(stream, ID, 4);
    if !ok { return; }
    ok, ticks := ReadTagged(stream, TICKS, 4);
    if !ok { return; }
    ok, buff := ReadTagged(stream, ISBUFF, 1);
    if !ok { return; }
    ok, subId := ReadTagged(stream, SUBID, 4);
    if !ok { return; }
    ok, aggressive := ReadTagged(stream, ISAGGRESSIVE, 1);
    if !ok || KindOf(conditionType).None? { return; }
    var kind := KindOf(conditionType).value;
    c := Some(Condition(conditionType, Signed(1, id % 256), if kind == Damage then 0 else Signed(4, ticks),
                        buff != 0, subId, aggressive != 0, Defaults(kind), []));
  }

  method UnserializeProp(stream: PropStream, kind: Kind, r: Reading, tag: Byte) returns (ok: bool, r': Reading)
    requires stream.Valid() && |r.c.values| == Fields(kind)
    modifies stream`p
    ensures stream.Valid() && Outcome(ok, r', stream.p) == PropAt(kind, r, stream.data, old(stream.p), tag)
  {
    r' := r;
    if kind == Damage && tag == OWNER {
      ok := stream.Skip(4);
    } else if kind == Damage && tag == INTERVALDATA {
      ok, r' := ReadInterval(stream, r);
    } else {
      match SlotOf(kind, tag)
      case Some(s) =>
        var n;
        ok, n := stream.Read(s.width);
        if ok {
          var i := s.base + Counter(kind, r, tag);
          if Counter(kind, r, tag) >= s.size || i >= |r.c.values| { return false, r; }
          r' := Counted(kind, SetValue(r, i, Decoded(kind, i, s, n)), tag);
        }
      case None =>
        ok, r' := ReadCommon(stream, r, tag);
    }
  }

  /** Reads the three numbers of a damage, or nothing. */
  method ReadInterval(stream: PropStream, r: Reading) returns (ok: bool, r': Reading)
    requires stream.Valid()
    modifies stream`p
    ensures stream.Valid() && ok == (old(stream.p) + 12 <= |stream.data|)
    ensures stream.p == if ok then old(stream.p) + 12 else old(stream.p)
    ensures r' == if ok then r.(c := WithDamage(r.c, IntervalAt(stream.data, old(stream.p)))) else r
  {
    r' := r;
    if |stream.data| - stream.p < 12 { return false, r; }
    var a, b, c;
    ok, a := stream.Read(4);
    ok, b := stream.Read(4);
    ok, c := stream.Read(4);
    r' := r.(c := WithDamage(r.c, Interval(Signed(4, a), Signed(4, b), Signed(4, c))));
  }

  method ReadCommon(stream: PropStream, r: Reading, tag: Byte) returns (ok: bool, r': Reading)
    requires stream.Valid()
    modifies stream`p
    ensures stream.Valid() && Outcome(ok, r', stream.p) == CommonAt(r, stream.data, old(stream.p), tag)
  {
    r' := r;
    if tag != TYPE && tag != ID && tag != TICKS && tag != ISBUFF && tag != SUBID
        && tag != ISAGGRESSIVE { return false, r; }
    var n;
    ok, n := stream.Read(if tag == ISBUFF || tag == ISAGGRESSIVE then 1 else 4);
    if !ok { return; }
    if tag == TYPE {
      r' := r.(c := r.c.(conditionType := n));
    } else if tag == ID {
      r' := r.(c := r.c.(id := Signed(1, n % 256)));
    } else if tag == TICKS {
      r' := r.(c := r.c.(ticks := Signed(4, n)));
    } else if tag == ISBUFF {
      r' := r.(c := r.c.(isBuff := n != 0));
    } else if tag == SUBID {
      r' := r.(c := r.c.(subId := n));
    } else {
      r' := r.(c := r.c.(aggressive := n != 0));
    }
  }

  /** One field after its tag, which stands at `at`. */
  method UnserializeNext(stream: PropStream, kind: Kind, had: Reading, tag: Byte, ghost at: nat)
    returns (ok: bool, r: Reading)
    requires stream.Valid() && |had.c.values| == Fields(kind)
    requires at < |stream.data| && stream.p == at + 1 && tag == stream.data[at] != END
    modifies stream`p
    ensures stream.Valid() && old(stream.p) <= stream.p && |r.c.values| == Fields(kind)
    ensures UnserializeAt(kind, had, stream.data, at)
            == if ok then UnserializeAt(kind, r, stream.data, stream.p) else Outcome(false, r, stream.p)
  {
    assert UnserializeAt(kind, had, stream.data, at) == NextAt(kind, had, stream.data, at);
    ok, r := UnserializeProp(stream, kind, had, tag);
    if ok { OneProp(kind, had, stream.data, at, r, stream.p); }
  }

  method Unserialize(stream: PropStream, kind: Kind, c: Condition) returns (ok: bool, r: Reading)
    requires stream.Valid() && |c.values| == Fields(kind)
    modifies stream`p
    ensures stream.Valid()
    ensures Outcome(ok, r, stream.p) == UnserializeAt(kind, Reading(c, 0, 0, 0), stream.data, old(stream.p))
  {
    r, ok := Reading(c, 0, 0, 0), true;
    ghost var start, at := stream.p, stream.p;
    var read, tag := stream.ReadByte();
    while read && tag != END
      invariant stream.Valid() && ok && start <= at && |r.c.values| == Fields(kind)
      invariant if read then at < |stream.data| && stream.p == at + 1 && tag == stream.data[at]
                else at == |stream.data| == stream.p
      invariant UnserializeAt(kind, Reading(c, 0, 0, 0), stream.data, start) == UnserializeAt(kind, r, stream.data, at)
      decreases |stream.data| - stream.p, read
    {
      ok, r := UnserializeNext(stream, kind, r, tag, at);
      if !ok { return; }
      at := stream.p;
      read, tag := stream.ReadByte();
    }
  }

  /** Reads conditions until none is left, each put in front. */
  method LoadConditions(stream: PropStream) returns (list: seq<Condition>)
    requires stream.Valid()
    modifies stream`p
    ensures list == LoadAt(stream.data, old(stream.p), [])
  {
    list := [];
    ghost var start, at := stream.p, stream.p;
    var condition := CreateCondition(stream);
    while condition.Some?
      invariant stream.Valid() && start <= at <= |stream.data|
      invariant LoadAt(stream.data, start, []) == LoadAt(stream.data, at, list)
      invariant condition.Some? <==> HeaderAt(stream.data, at).Got?
      invariant condition.Some? ==> Got(condition.value, stream.p) == HeaderAt(stream.data, at)
      decreases |stream.data| - at
    {
      var ok, r := Unserialize(stream, KindOf(condition.value.conditionType).value, condition.value);
      if ok { list := [r.c] + list; }
      at := stream.p;
      condition := CreateCondition(stream);
    }
  }

  lemma {:induction false} PersistentProper(list: seq<Condition>)
    requires AllProper(list)
    ensures AllProper(Persistent(list)) && AllComplete(Persistent(list)) && AllComplete(list)
    ensures forall c :: c in Persistent(list) <==> c in list && IsPersistent(c)
  {
    if list != [] {
      PersistentProper(list[1..]);
      assert list == [list[0]] + list[1..];
    }
  }

  /** The conditions that outlast a logout come back in reverse order. */
  lemma {:induction false} SavedComesBack(list: seq<Condition>)
    requires AllProper(list)
    ensures AllComplete(list) && AllComplete(Persistent(list))
    ensures LoadAt(EncodeAll(Persistent(list)), 0, []) == Reversed(Persistent(list))
  {
    PersistentProper(list);
    RoundTrip(Persistent(list));
  }
}
