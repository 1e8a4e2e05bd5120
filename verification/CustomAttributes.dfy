/** The attributes that scripts give to items: named values, written as a counted list. */
module CustomAttributes {
  import opened Wrappers
  import opened Bytes

  /** A double is kept as its eight bytes. */
  datatype Value = Chars(s: seq<Byte>) | Whole(n: int) | Double(bits: nat) | Truth(b: bool)

  datatype Entry = Entry(key: seq<Byte>, value: Value)

  function LowerByte(c: Byte): Byte {
    if 65 <= c <= 90 then c + 32 else c
  }

  function Lower(s: seq<Byte>): (t: seq<Byte>)
    ensures |t| == |s|
  {
    seq(|s|, i requires 0 <= i < |s| => LowerByte(s[i]))
  }

  /** Numbers are of their types. */
  predicate Typed(v: Value) {
    match v
    case Whole(n) => InSigned(8, n)
    case Double(bits) => bits < Power(8)
    case _ => true
  }

  /** The entries of a map: names in lower case, none twice. */
  ghost predicate IsMap(es: seq<Entry>) {
    && |es| < Power(8)
    && AllTyped(es) && (forall i :: 0 <= i < |es| ==> Lower(es[i].key) == es[i].key)
    && forall i, j :: 0 <= i < j < |es| ==> es[i].key != es[j].key
  }

  // ------------------------------------------------------------------ writing

  /** The number of the type, then the value. */
  function ValueBytes(v: Value): seq<Byte> {
    match v
    case Chars(s) => [1 as Byte] + Quoted(s)
    case Whole(n) => [2 as Byte] + Le(8, n)
    case Double(bits) => [3 as Byte] + Le(8, bits)
    case Truth(b) => [4 as Byte] + Le(1, if b then 1 else 0)
  }

  function EntryBytes(e: Entry): seq<Byte> {
    Quoted(e.key) + ValueBytes(e.value)
  }

  function ListBytes(es: seq<Entry>): seq<Byte> {
    Concat(EntryBytes, es)
  }

  // ------------------------------------------------------------------ reading

  function ValueAt(b: seq<Byte>, p: nat): (r: Got<Value>)
    ensures r.Got? ==> p < r.next <= |b|
  {
    if p >= |b| then Short
    else
      match b[p] as nat
      case 1 => (match StringAt(b, p + 1) case Got(s, next) => Got(Chars(s), next) case Short => Short)
      case 2 => (match NumberAt(b, p + 1, 8) case Got(n, next) => Got(Whole(Signed(8, n)), next) case Short => Short)
      case 3 => (match NumberAt(b, p + 1, 8) case Got(n, next) => Got(Double(n), next) case Short => Short)
      case 4 => (match NumberAt(b, p + 1, 1) case Got(n, next) => Got(Truth(n != 0), next) case Short => Short)
      case _ => Short
  }

  function EntryAt(b: seq<Byte>, p: nat): (r: Got<Entry>)
    ensures r.Got? ==> p < r.next <= |b|
  {
    match StringAt(b, p)
    case Short => Short
    case Got(key, next) =>
      match ValueAt(b, next) {
        case Got(value, end) => Got(Entry(key, value), end)
        case Short => Short
      }
  }

  function Without(es: seq<Entry>, key: seq<Byte>): seq<Entry> {
    if es == [] then []
    else
      var rest := Without(es[..|es| - 1], key);
      if es[|es| - 1].key == key then rest else rest + [es[|es| - 1]]
  }

  /** A name is put into lower case; what it stood for before is gone. */
  function Set(es: seq<Entry>, e: Entry): seq<Entry> {
    Without(es, Lower(e.key)) + [Entry(Lower(e.key), e.value)]
  }

  function AfterSet(es: Option<seq<Entry>>, e: Entry): Option<seq<Entry>> {
    Some(Set(es.GetOr([]), e))
  }

  function SetEach(into: Option<seq<Entry>>, es: seq<Entry>): Option<seq<Entry>> {
    if es == [] then into else AfterSet(SetEach(into, es[..|es| - 1]), es[|es| - 1])
  }

  /** What an item has after `n` more entries were read. */
  function ListAt(es: Option<seq<Entry>>, n: nat, b: seq<Byte>, p: nat): (r: Got<Option<seq<Entry>>>)
    requires p <= |b|
    ensures r.Got? ==> p <= r.next <= |b|
  {
    RepeatedBounds(EntryAt, n, b, p);
    match Repeated(EntryAt, n, b, p)
    case Got(more, next) => Got(SetEach(es, more), next)
    case Short => Short
  }

  // ------------------------------------------------------ what comes back

  function CutValue(v: Value): Value {
    if v.Chars? && |v.s| > MAX_STRING then Chars([]) else v
  }

  function CutEntry(e: Entry): Entry {
    Entry(if |e.key| > MAX_STRING then [] else e.key, CutValue(e.value))
  }

  function SetAll(into: Option<seq<Entry>>, es: seq<Entry>): Option<seq<Entry>> {
    SetEach(into, Mapped(CutEntry, es))
  }

  predicate Fits(e: Entry) {
    |e.key| <= MAX_STRING && (e.value.Chars? ==> |e.value.s| <= MAX_STRING)
  }

  /** An item that has such attributes has some, and no name and no text is too long. */
  ghost predicate Survives(es: Option<seq<Entry>>) {
    es.Some? ==> es.value != [] && forall e :: e in es.value ==> Fits(e)
  }

  ghost predicate AllTyped(es: seq<Entry>) {
    forall i :: 0 <= i < |es| ==> Typed(es[i].value)
  }

  lemma {:induction false} ReadsMark(b: seq<Byte>, p: nat, mark: Byte, payload: seq<Byte>)
    requires At(b, p, [mark] + payload)
    ensures p < |b| && b[p] == mark && At(b, p + 1, payload)
  {
    AtSplit(b, p, [mark], payload);
    AtFirst(b, p, [mark]);
  }

  lemma {:induction false} ReadsChars(b: seq<Byte>, p: nat, s: seq<Byte>)
    requires At(b, p, [1 as Byte] + Quoted(s))
    ensures ValueAt(b, p) == Got(CutValue(Chars(s)), p + 1 + |Quoted(s)|)
  {
    ReadsMark(b, p, 1, Quoted(s));
    ReadsString(b, p + 1, s);
  }

  lemma {:induction false} ReadsWhole(b: seq<Byte>, p: nat, n: int)
    requires InSigned(8, n) && At(b, p, [2 as Byte] + Le(8, n))
    ensures ValueAt(b, p) == Got(Whole(n), p + 9)
  {
    ReadsMark(b, p, 2, Le(8, n));
    ReadsNumber(b, p + 1, 8, n);
    SignedSurvives(8, n);
  }

  lemma {:induction false} ReadsDouble(b: seq<Byte>, p: nat, bits: nat)
    requires bits < Power(8) && At(b, p, [3 as Byte] + Le(8, bits))
    ensures ValueAt(b, p) == Got(Double(bits), p + 9)
  {
    ReadsMark(b, p, 3, Le(8, bits));
    ReadsNumber(b, p + 1, 8, bits);
    UnsignedSurvives(8, bits);
  }

  lemma {:induction false} ReadsTruth(b: seq<Byte>, p: nat, t: bool)
    requires At(b, p, [4 as Byte] + Le(1, if t then 1 else 0))
    ensures ValueAt(b, p) == Got(Truth(t), p + 2)
  {
    ReadsMark(b, p, 4, Le(1, if t then 1 else 0));
    ReadsNumber(b, p + 1, 1, if t then 1 else 0);
    assert Power(1) == 256 * Power(0);
  }

  lemma {:induction false} ReadsValue(b: seq<Byte>, p: nat, v: Value)
    requires Typed(v) && At(b, p, ValueBytes(v))
    ensures ValueAt(b, p) == Got(CutValue(v), p + |ValueBytes(v)|)
  {
    match v
    case Chars(s) => ReadsChars(b, p, s);
    case Whole(n) => ReadsWhole(b, p, n);
    case Double(bits) => ReadsDouble(b, p, bits);
    case Truth(t) => ReadsTruth(b, p, t);
  }

  lemma {:induction false} EntryOf(b: seq<Byte>, p: nat, key: seq<Byte>, middle: nat, value: Value, end: nat)
    requires StringAt(b, p) == Got(key, middle) && ValueAt(b, middle) == Got(value, end)
    ensures EntryAt(b, p) == Got(Entry(key, value), end)
  {
  }

  lemma {:induction false} ReadsKey(b: seq<Byte>, p: nat, e: Entry, middle: nat)
    requires At(b, p, EntryBytes(e)) && middle == p + |Quoted(e.key)|
    ensures StringAt(b, p) == Got(CutEntry(e).key, middle) && At(b, middle, ValueBytes(e.value))
  {
    AtSplit(b, p, Quoted(e.key), ValueBytes(e.value));
    ReadsString(b, p, e.key);
  }

  lemma {:induction false} ReadsEntry(b: seq<Byte>, p: nat, e: Entry, end: nat)
    requires Typed(e.value) && At(b, p, EntryBytes(e)) && end == p + |EntryBytes(e)|
    ensures EntryAt(b, p) == Got(CutEntry(e), end)
  {
    var middle := p + |Quoted(e.key)|;
    ReadsKey(b, p, e, middle);
    ReadsValue(b, middle, e.value);
    EntryOf(b, p, CutEntry(e).key, middle, CutEntry(e).value, end);
  }

  /** What is written of entries is read back as they are cut, and set one after the other. */
  lemma {:induction false} ReadsList(b: seq<Byte>, p: nat, es: seq<Entry>, into: Option<seq<Entry>>, end: nat)
    requires AllTyped(es) && At(b, p, ListBytes(es)) && end == p + |ListBytes(es)|
    ensures ListAt(into, |es|, b, p) == Got(SetAll(into, es), end)
  {
    forall i | 0 <= i < |es| ensures IsRead(EntryAt, EntryBytes, CutEntry, es[i], b) {
      forall q: nat | At(b, q, EntryBytes(es[i]))
          ensures EntryAt(b, q) == Got(CutEntry(es[i]), q + |EntryBytes(es[i])|) {
        ReadsEntry(b, q, es[i], q + |EntryBytes(es[i])|);
      }
    }
    ReadsRepeated(EntryAt, EntryBytes, CutEntry, es, b, p);
  }

  // ---------------------------------------------- what survives, exactly

  lemma {:induction false} WithoutNone(es: seq<Entry>, key: seq<Byte>)
    requires forall i :: 0 <= i < |es| ==> es[i].key != key
    ensures Without(es, key) == es
  {
    if es != [] { WithoutNone(es[..|es| - 1], key); }
  }

  lemma {:induction false} SetsOne(es: seq<Entry>, i: nat, into: Option<seq<Entry>>)
    requires IsMap(es) && i < |es| && into.GetOr([]) == es[..i]
    ensures AfterSet(into, es[i]) == Some(es[..i + 1])
  {
    var e := es[i];
    assert Lower(e.key) == e.key;
    assert forall j :: 0 <= j < i ==> es[..i][j].key != e.key;
    WithoutNone(es[..i], e.key);
    assert es[..i + 1] == es[..i] + [e];
  }

  lemma {:induction false} SetsAll(es: seq<Entry>, i: nat)
    requires IsMap(es) && i <= |es|
    ensures SetEach(None, es[..i]) == if i == 0 then None else Some(es[..i])
  {
    if i > 0 {
      assert es[..i][..i - 1] == es[..i - 1];
      SetsAll(es, i - 1);
      SetsOne(es, i - 1, SetEach(None, es[..i - 1]));
    }
  }

  lemma {:induction false} WithoutFits(es: seq<Entry>, key: seq<Byte>)
    requires forall e :: e in es ==> Fits(e)
    ensures forall e :: e in Without(es, key) ==> Fits(e)
  {
    if es != [] {
      WithoutFits(es[..|es| - 1], key);
      assert es[|es| - 1] in es;
    }
  }

  lemma {:induction false} AllSetFit(es: seq<Entry>)
    requires forall e :: e in es ==> Fits(e)
    ensures forall e :: e in SetEach(None, es).GetOr([]) ==> Fits(e)
  {
    if es != [] {
      var before := SetEach(None, es[..|es| - 1]);
      AllSetFit(es[..|es| - 1]);
      WithoutFits(before.GetOr([]), Lower(es[|es| - 1].key));
      assert es[|es| - 1] in es;
    }
  }

  lemma {:induction false} CutsFit(es: seq<Entry>)
    ensures forall e :: e in Mapped(CutEntry, es) ==> Fits(e)
  {
    var cut := Mapped(CutEntry, es);
    forall e | e in cut ensures Fits(e) {
      var i :| 0 <= i < |cut| && cut[i] == e;
      assert e == CutEntry(es[i]);
    }
  }

  lemma {:induction false} CutSame(es: seq<Entry>)
    requires forall e :: e in es ==> Fits(e)
    ensures Mapped(CutEntry, es) == es
  {
    forall i | 0 <= i < |es| ensures CutEntry(es[i]) == es[i] { assert es[i] in es; }
  }

  /** The attributes come back as they were exactly when there are some and none is too long. */
  lemma {:induction false} ListExactly(es: seq<Entry>)
    requires IsMap(es)
    ensures SetAll(None, es) == Some(es) <==> Survives(Some(es))
  {
    if Survives(Some(es)) {
      CutSame(es);
      assert es[..|es|] == es;
      SetsAll(es, |es|);
    } else if SetAll(None, es) == Some(es) {
      CutsFit(es);
      AllSetFit(Mapped(CutEntry, es));
    }
  }

  // ---------------------------------------------------------- the methods

  method WriteValue(stream: PropWriteStream, v: Value)
    modifies stream
    ensures stream.buffer == old(stream.buffer) + ValueBytes(v)
  {
    match v
    case Chars(s) =>
      stream.WriteByte(1);
      stream.WriteString(s);
      Regroup(old(stream.buffer), [1], Quoted(s));
    case Whole(n) =>
      stream.WriteByte(2);
      stream.Write(8, n);
      Regroup(old(stream.buffer), [2], Le(8, n));
    case Double(bits) =>
      stream.WriteByte(3);
      stream.Write(8, bits);
      Regroup(old(stream.buffer), [3], Le(8, bits));
    case Truth(b) =>
      stream.WriteByte(4);
      stream.Write(1, if b then 1 else 0);
      Regroup(old(stream.buffer), [4], Le(1, if b then 1 else 0));
  }

  method WriteEntry(stream: PropWriteStream, e: Entry)
    modifies stream
    ensures stream.buffer == old(stream.buffer) + EntryBytes(e)
  {
    stream.WriteString(e.key);
    WriteValue(stream, e.value);
    Regroup(old(stream.buffer), Quoted(e.key), ValueBytes(e.value));
  }

  /** Writes the entries one after the other. */
  method WriteList(stream: PropWriteStream, es: seq<Entry>)
    modifies stream
    ensures stream.buffer == old(stream.buffer) + ListBytes(es)
  {
    ghost var start := stream.buffer;
    for i := 0 to |es|
      invariant stream.buffer + Concat(EntryBytes, es[i..]) == start + ListBytes(es)
    {
      assert es[i..][1..] == es[i + 1..];
      Regroup(stream.buffer, EntryBytes(es[i]), Concat(EntryBytes, es[i + 1..]));
      WriteEntry(stream, es[i]);
    }
  }

  method ReadValue(stream: PropStream) returns (ok: bool, v: Value)
    requires stream.Valid()
    modifies stream`p
    ensures stream.Valid() && old(stream.p) <= stream.p
    ensures ok <==> ValueAt(stream.data, old(stream.p)).Got?
    ensures ok ==> Got(v, stream.p) == ValueAt(stream.data, old(stream.p))
  {
    var pos, n, s;
    v := Truth(false);
    ok, pos := stream.ReadByte();
    if !ok { return; }
    match pos as nat
    case 1 =>
      ok, s := stream.ReadString();
      v := Chars(s);
    case 2 =>
      ok, n := stream.Read(8);
      v := Whole(Signed(8, n));
    case 3 =>
      ok, n := stream.Read(8);
      v := Double(n);
    case 4 =>
      ok, n := stream.Read(1);
      v := Truth(n != 0);
    case _ => ok := false;
  }

  method ReadEntry(stream: PropStream) returns (ok: bool, e: Entry)
    requires stream.Valid()
    modifies stream`p
    ensures stream.Valid() && old(stream.p) <= stream.p
    ensures ok <==> EntryAt(stream.data, old(stream.p)).Got?
    ensures ok ==> Got(e, stream.p) == EntryAt(stream.data, old(stream.p))
  {
    var key, value;
    e := Entry([], Truth(false));
    ok, key := stream.ReadString();
    if !ok { return; }
    ok, value := ReadValue(stream);
    e := Entry(key, value);
  }

  /** Reads and sets one of the entries that are left. */
  method ReadOne(stream: PropStream, ghost left: nat, ghost before: Option<seq<Entry>>, ghost read: seq<Entry>,
                 had: Option<seq<Entry>>)
    returns (ok: bool, es: Option<seq<Entry>>, ghost e: Entry)
    requires stream.Valid() && left > 0 && had == SetEach(before, read)
    modifies stream`p
    ensures stream.Valid() && old(stream.p) <= stream.p
    ensures ok ==> es == SetEach(before, read + [e])
    ensures After(read, Repeated(EntryAt, left, stream.data, old(stream.p)))
            == if ok then After(read + [e], Repeated(EntryAt, left - 1, stream.data, stream.p)) else Short
  {
    var entry;
    ok, entry := ReadEntry(stream);
    e, es := entry, AfterSet(had, entry);
    if ok {
      RepeatedNext(EntryAt, left, stream.data, old(stream.p), e, stream.p, read);
      assert (read + [e])[..|read|] == read;
    } else {
      RepeatedShort(EntryAt, left, stream.data, old(stream.p));
    }
  }

  /** Reads as many entries as there are said to be, and sets each. */
  method ReadList(stream: PropStream, size: nat, before: Option<seq<Entry>>) returns (ok: bool, es: Option<seq<Entry>>)
    requires stream.Valid()
    modifies stream`p
    ensures stream.Valid() && old(stream.p) <= stream.p
    ensures ok <==> ListAt(before, size, stream.data, old(stream.p)).Got?
    ensures ok ==> Got(es, stream.p) == ListAt(before, size, stream.data, old(stream.p))
  {
    es, ok := before, true;
    ghost var start, data, read, all := stream.p, stream.data, [], Repeated(EntryAt, size, stream.data, stream.p);
    var left := size;
    AfterNothing(all);
    while left > 0
      invariant ok && stream.Valid() && start <= stream.p && stream.data == data && es == SetEach(before, read)
      invariant all == After(read, Repeated(EntryAt, left, data, stream.p))
    {
      ghost var e;
      ok, es, e := ReadOne(stream, left, before, read, es);
      if !ok { return; }
      read, left := read + [e], left - 1;
    }
    AllRead(read, data, stream.p);
  }

  lemma {:induction false} AllRead(read: seq<Entry>, b: seq<Byte>, p: nat)
    ensures After(read, Repeated(EntryAt, 0, b, p)) == Got(read, p)
  {
    assert read + [] == read;
  }
}
