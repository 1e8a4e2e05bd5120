/** The byte streams every printer and parser of the server writes to and reads from. */
module Bytes {
  import opened Arithmetic

  newtype Byte = n: int | 0 <= n < 256

  const MAX_STRING := 65535

  /** How many numbers `width` bytes can hold. */
  function Power(width: nat): (r: nat)
    ensures r > 0
  {
    if width == 0 then 1 else 256 * Power(width - 1)
  }

  /** The `width` low bytes of `v`, lowest first; a negative number in two's complement. */
  function Le(width: nat, v: int): (s: seq<Byte>)
    ensures |s| == width
  {
    if width == 0 then [] else [(v % 256) as Byte] + Le(width - 1, v / 256)
  }

  function Value(s: seq<Byte>): (n: nat) {
    if s == [] then 0 else s[0] as nat + 256 * Value(s[1..])
  }

  /** The same bytes read as a signed number. */
  function Signed(width: nat, n: int): int {
    if 2 * n >= Power(width) then n - Power(width) else n
  }

  lemma {:induction false} ModUnique(v: int, m: int, k: int, r: int)
    requires 0 <= r < m && v == m * k + r
    ensures v % m == r
  {
    var q := v / m - k;
    assert v == m * (v / m) + v % m;
    assert m * q == r - v % m by { assert m * q == m * (v / m) - m * k; }
    Scaled(1, q, m);
    Scaled(q, -1, m);
  }

  lemma {:induction false} ModSplit(v: int, m: int)
    requires m > 0
    ensures v % (256 * m) == v % 256 + 256 * ((v / 256) % m)
  {
    var q := v / 256;
    var k, r := q / m, q % m;
    assert q == m * k + r;
    assert v == (256 * m) * k + (256 * r + v % 256) by {
      assert 256 * (m * k) == (256 * m) * k;
    }
    ModUnique(v, 256 * m, k, 256 * r + v % 256);
  }

  /** What is read from `width` bytes is what was written, cut to the width. */
  lemma {:induction false} ValueOfLe(width: nat, v: int)
    ensures Value(Le(width, v)) == v % Power(width)
  {
    if width > 0 {
      ValueOfLe(width - 1, v / 256);
      assert Le(width, v)[1..] == Le(width - 1, v / 256);
      ModSplit(v, Power(width - 1));
    }
  }

  predicate InSigned(width: nat, v: int) {
    var m: int := Power(width);
    -m <= 2 * v < m
  }

  /** A signed number survives exactly when it fits into the width. */
  lemma {:induction false} SignedSurvives(width: nat, v: int)
    ensures Signed(width, v % Power(width)) == v <==> InSigned(width, v)
  {
    var m := Power(width);
    if InSigned(width, v) {
      if v >= 0 { ModUnique(v, m, 0, v); } else { ModUnique(v, m, -1, v + m); }
    }
  }

  /** An unsigned number survives exactly when it fits into the width. */
  lemma {:induction false} UnsignedSurvives(width: nat, v: int)
    ensures v % Power(width) == v <==> 0 <= v < Power(width)
  {
    if 0 <= v < Power(width) { ModUnique(v, Power(width), 0, v); }
  }

  /** A string with its length; one that is too long for the length is written as empty. */
  function Quoted(s: seq<Byte>): seq<Byte> {
    if |s| > MAX_STRING then Le(2, 0) else Le(2, |s|) + s
  }

  /** `s` is what the bytes hold at position `p`. */
  ghost predicate At(b: seq<Byte>, p: nat, s: seq<Byte>) {
    p + |s| <= |b| && BeginsAfter(b, p, s)
  }

  /** After `p` bytes the others begin with `s`. */
  ghost predicate BeginsAfter(b: seq<Byte>, p: nat, s: seq<Byte>)
    requires p <= |b|
  {
    if p == 0 then s <= b else BeginsAfter(b[1..], p - 1, s)
  }

  lemma {:induction false} AtSlice(b: seq<Byte>, p: nat, s: seq<Byte>)
    requires p + |s| <= |b|
    ensures At(b, p, s) <==> b[p..p + |s|] == s
  {
    if p > 0 {
      AtSlice(b[1..], p - 1, s);
      assert b[1..][p - 1..p - 1 + |s|] == b[p..p + |s|];
    }
  }

  lemma {:induction false} AtFirst(b: seq<Byte>, p: nat, s: seq<Byte>)
    requires At(b, p, s) && s != []
    ensures b[p] == s[0]
  {
    AtSlice(b, p, s);
    assert b[p..p + |s|][0] == b[p];
  }

  lemma {:induction false} AtSplit(b: seq<Byte>, p: nat, s: seq<Byte>, t: seq<Byte>)
    requires At(b, p, s + t)
    ensures At(b, p, s) && At(b, p + |s|, t)
  {
    AtSlice(b, p, s + t);
    assert b[p..p + |s|] == (s + t)[..|s|];
    assert b[p + |s|..p + |s| + |t|] == (s + t)[|s|..];
    AtSlice(b, p, s);
    AtSlice(b, p + |s|, t);
  }

  lemma {:induction false} AtThree(b: seq<Byte>, p: nat, s: seq<Byte>, t: seq<Byte>, u: seq<Byte>)
    requires At(b, p, s + (t + u))
    ensures At(b, p, s) && At(b, p + |s|, t) && At(b, p + |s| + |t|, u)
  {
    AtSplit(b, p, s, t + u);
    AtSplit(b, p + |s|, t, u);
  }

  lemma {:induction false} AtFour(b: seq<Byte>, p: nat, s: seq<Byte>, t: seq<Byte>, u: seq<Byte>, v: seq<Byte>)
    requires At(b, p, s + (t + (u + v)))
    ensures At(b, p, s) && At(b, p + |s|, t) && At(b, p + |s| + |t|, u) && At(b, p + |s| + |t| + |u|, v)
  {
    AtThree(b, p, s, t, u + v);
    AtSplit(b, p + |s| + |t|, u, v);
  }

  lemma {:induction false} Regroup(a: seq<Byte>, b: seq<Byte>, c: seq<Byte>)
    ensures (a + b) + c == a + (b + c)
  {
  }

  // ------------------------------------------------------------------ reading

  datatype Got<T> = Got(value: T, next: nat) | Short

  /** The number in `width` bytes from `p` on, lowest first. */
  function NumberFrom(b: seq<Byte>, p: nat, width: nat): nat
    requires p + width <= |b|
    decreases width
  {
    if width == 0 then 0 else b[p] as nat + 256 * NumberFrom(b, p + 1, width - 1)
  }

  function NumberAt(b: seq<Byte>, p: nat, width: nat): (r: Got<nat>)
    ensures r.Got? ==> r.next == p + width <= |b|
  {
    if p + width > |b| then Short else Got(NumberFrom(b, p, width), p + width)
  }

  function StringAt(b: seq<Byte>, p: nat): (r: Got<seq<Byte>>)
    ensures r.Got? ==> p < r.next <= |b|
  {
    var length := NumberAt(b, p, 2);
    if length.Short? || length.next + length.value > |b| then Short
    else Got(b[length.next..length.next + length.value], length.next + length.value)
  }

  lemma {:induction false} ReadsNumber(b: seq<Byte>, p: nat, width: nat, v: int)
    requires At(b, p, Le(width, v))
    ensures NumberAt(b, p, width) == Got(v % Power(width), p + width)
  {
    AtSlice(b, p, Le(width, v));
    ValueOfLe(width, v);
    NumberOfSlice(b, p, width);
  }

  lemma {:induction false} NumberOfSlice(b: seq<Byte>, p: nat, width: nat)
    requires p + width <= |b|
    ensures NumberFrom(b, p, width) == Value(b[p..p + width])
    decreases width
  {
    if width > 0 {
      NumberOfSlice(b, p + 1, width - 1);
      assert b[p..p + width][1..] == b[p + 1..p + width];
    }
  }

  lemma {:induction false} ReadsString(b: seq<Byte>, p: nat, s: seq<Byte>)
    requires At(b, p, Quoted(s))
    ensures StringAt(b, p) == Got(if |s| > MAX_STRING then [] else s, p + |Quoted(s)|)
  {
    assert Power(2) == 65536 by { assert Power(1) == 256 * Power(0); }
    if |s| > MAX_STRING {
      ReadsNumber(b, p, 2, 0);
      assert b[p + 2..p + 2] == [];
    } else {
      AtSplit(b, p, Le(2, |s|), s);
      ReadsNumber(b, p, 2, |s|);
      AtSlice(b, p + 2, s);
    }
  }

  // -------------------------------------------------------------- repetition

  function Concat<E>(bytes: E -> seq<Byte>, es: seq<E>): seq<Byte> {
    if es == [] then [] else bytes(es[0]) + Concat(bytes, es[1..])
  }

  function Mapped<E>(f: E -> E, es: seq<E>): seq<E> {
    seq(|es|, i requires 0 <= i < |es| => f(es[i]))
  }

  /** What is read `n` times, one after the other. */
  function Repeated<E>(read: (seq<Byte>, nat) -> Got<E>, n: nat, b: seq<Byte>, p: nat): Got<seq<E>> {
    if n == 0 then Got([], p)
    else
      match read(b, p) {
        case Short => Short
        case Got(e, next) => After([e], Repeated(read, n - 1, b, next))
      }
  }

  function After<E>(before: seq<E>, r: Got<seq<E>>): Got<seq<E>> {
    match r
    case Got(es, next) => Got(before + es, next)
    case Short => Short
  }

  lemma {:induction false} RepeatedNext<E>(read: (seq<Byte>, nat) -> Got<E>, n: nat, b: seq<Byte>, p: nat, e: E,
                                           next: nat,
                                           before: seq<E>)
    requires n > 0 && read(b, p) == Got(e, next)
    ensures After(before, Repeated(read, n, b, p)) == After(before + [e], Repeated(read, n - 1, b, next))
  {
    var rest := Repeated(read, n - 1, b, next);
    if rest.Got? { assert before + ([e] + rest.value) == (before + [e]) + rest.value; }
  }

  lemma {:induction false} RepeatedShort<E>(read: (seq<Byte>, nat) -> Got<E>, n: nat, b: seq<Byte>, p: nat)
    requires n > 0 && read(b, p) == Short
    ensures Repeated(read, n, b, p) == Short
  {
  }

  lemma {:induction false} RepeatedBounds<E>(read: (seq<Byte>, nat) -> Got<E>, n: nat, b: seq<Byte>, p: nat)
    requires p <= |b| && forall q: nat :: read(b, q).Got? ==> q <= read(b, q).next <= |b|
    ensures var r := Repeated(read, n, b, p); r.Got? ==> p <= r.next <= |b|
  {
    if n > 0 && read(b, p).Got? { RepeatedBounds(read, n - 1, b, read(b, p).next); }
  }

  lemma {:induction false} AfterNothing<E>(r: Got<seq<E>>)
    ensures After([], r) == r
  {
    if r.Got? { assert [] + r.value == r.value; }
  }

  /** Wherever the bytes written for `e` are, `e` is read, as it is cut. */
  ghost predicate IsRead<E(!new)>(read: (seq<Byte>, nat) -> Got<E>, bytes: E -> seq<Byte>, cut: E -> E, e: E,
                                  b: seq<Byte>) {
    forall p: nat :: At(b, p, bytes(e)) ==> read(b, p) == Got(cut(e), p + |bytes(e)|)
  }

  lemma {:induction false} ReadsRepeated<E(!new)>(read: (seq<Byte>, nat) -> Got<E>, bytes: E -> seq<Byte>, cut: E -> E,
                                                  es: seq<E>,
                                                  b: seq<Byte>, p: nat)
    requires At(b, p, Concat(bytes, es)) && forall i :: 0 <= i < |es| ==> IsRead(read, bytes, cut, es[i], b)
    ensures Repeated(read, |es|, b, p) == Got(Mapped(cut, es), p + |Concat(bytes, es)|)
    decreases |es|
  {
    if es != [] {
      var rest := es[1..];
      AtSplit(b, p, bytes(es[0]), Concat(bytes, rest));
      forall i | 0 <= i < |rest| ensures IsRead(read, bytes, cut, rest[i], b) { assert rest[i] == es[i + 1]; }
      assert IsRead(read, bytes, cut, es[0], b);
      ReadsRepeated(read, bytes, cut, rest, b, p + |bytes(es[0])|);
      assert Mapped(cut, es) == [cut(es[0])] + Mapped(cut, rest);
    }
  }

  class PropStream {
    var data: seq<Byte>
    var p: nat

    ghost predicate Valid() reads this { p <= |data| }

    constructor (bytes: seq<Byte>)
      ensures Valid() && data == bytes && p == 0
    {
      data, p := bytes, 0;
    }

    method Read(width: nat) returns (ok: bool, v: nat)
      requires Valid()
      modifies this`p
      ensures Valid()
      ensures ok <==> NumberAt(data, old(p), width).Got?
      ensures ok ==> Got(v, p) == NumberAt(data, old(p), width)
      ensures !ok ==> p == old(p)
    {
      if |data| - p < width { return false, 0; }
      v := 0;
      var i := width;
      while i > 0
        invariant 0 <= i <= width && v == NumberFrom(data, p + i, width - i)
      {
        i := i - 1;
        v := data[p + i] as nat + 256 * v;
      }
      p := p + width;
      ok := true;
    }

    method ReadByte() returns (ok: bool, v: Byte)
      requires Valid()
      modifies this`p
      ensures Valid()
      ensures ok <==> old(p) < |data|
      ensures if ok then v == data[old(p)] && p == old(p) + 1 else p == old(p)
    {
      if p == |data| { return false, 0; }
      v := data[p];
      p := p + 1;
      ok := true;
    }

    method ReadString() returns (ok: bool, s: seq<Byte>)
      requires Valid()
      modifies this`p
      ensures Valid() && old(p) <= p
      ensures ok <==> StringAt(data, old(p)).Got?
      ensures ok ==> Got(s, p) == StringAt(data, old(p))
    {
      var length;
      ok, length := Read(2);
      if !ok || |data| - p < length { return false, []; }
      s := data[p..p + length];
      p := p + length;
    }

    method Skip(n: nat) returns (ok: bool)
      requires Valid()
      modifies this`p
      ensures Valid()
      ensures ok <==> old(p) + n <= |data|
      ensures p == if ok then old(p) + n else old(p)
    {
      if |data| - p < n { return false; }
      p := p + n;
      ok := true;
    }
  }

  class PropWriteStream {
    var buffer: seq<Byte>

    constructor ()
      ensures buffer == []
    {
      buffer := [];
    }

    method Write(width: nat, v: int)
      modifies this
      ensures buffer == old(buffer) + Le(width, v)
    {
      var rest, i := v, 0;
      while i < width
        invariant 0 <= i <= width && buffer + Le(width - i, rest) == old(buffer) + Le(width, v)
      {
        assert buffer + Le(width - i, rest) == (buffer + [(rest % 256) as Byte]) + Le(width - i - 1, rest / 256);
        buffer := buffer + [(rest % 256) as Byte];
        rest, i := rest / 256, i + 1;
      }
      assert Le(0, rest) == [];
    }

    method WriteByte(v: Byte)
      modifies this
      ensures buffer == old(buffer) + [v]
    {
      buffer := buffer + [v];
    }

    method WriteString(s: seq<Byte>)
      modifies this
      ensures buffer == old(buffer) + Quoted(s)
    {
      if |s| > MAX_STRING {
        Write(2, 0);
        return;
      }
      Write(2, |s|);
      buffer := buffer + s;
      assert buffer == old(buffer) + (Le(2, |s|) + s);
    }
  }
}
