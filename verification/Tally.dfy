/** Counting what containers hold, with a value per unit of each kind. */
module Tally {
  import opened Wrappers
  import opened Forest

  ghost function Amount<T>(n: Node<T>, value: Kind -> int): int {
    value(n.kind) * n.count
  }

  ghost function ListTotal<T>(w: World<T>, s: seq<T>, value: Kind -> int): int
    requires forall i :: 0 <= i < |s| ==> s[i] in w
  {
    if s == [] then 0 else Amount(w[s[0]], value) + ListTotal(w, s[1..], value)
  }

  /** What `c` directly holds. */
  ghost function Held<T>(w: World<T>, c: T, value: Kind -> int): int
    requires Linked(w) && c in w
  {
    assert LinkedAt(w, c);
    ListTotal(w, w[c].items, value)
  }

  lemma {:induction false} TotalSplit<T>(w: World<T>, s: seq<T>, t: seq<T>, value: Kind -> int)
    requires forall i :: 0 <= i < |s| ==> s[i] in w
    requires forall i :: 0 <= i < |t| ==> t[i] in w
    ensures ListTotal(w, s + t, value) == ListTotal(w, s, value) + ListTotal(w, t, value)
  {
    if s == [] {
      assert s + t == t;
    } else {
      TotalSplit(w, s[1..], t, value);
      assert (s + t)[1..] == s[1..] + t;
    }
  }

  lemma {:induction false} TotalChange<T>(w: World<T>, v: World<T>, s: seq<T>, x: T, diff: int, value: Kind -> int)
    requires NoDup(s)
    requires forall i :: 0 <= i < |s| ==> s[i] in w && s[i] in v
    requires forall i :: 0 <= i < |s| ==>
               Amount(v[s[i]], value) == Amount(w[s[i]], value) + if s[i] == x then diff else 0
    ensures ListTotal(v, s, value) == ListTotal(w, s, value) + if x in s then diff else 0
  {
    if s != [] {
      TotalChange(w, v, s[1..], x, diff, value);
      assert s == [s[0]] + s[1..];
      assert x in s <==> x == s[0] || x in s[1..];
    }
  }

  lemma {:induction false} TotalInserted<T>(w: World<T>, s: seq<T>, j: nat, x: T, value: Kind -> int)
    requires j <= |s| && x in w && forall i :: 0 <= i < |s| ==> s[i] in w
    ensures forall i :: 0 <= i < |s| + 1 ==> Inserted(s, j, x)[i] in w
    ensures ListTotal(w, Inserted(s, j, x), value) == ListTotal(w, s, value) + Amount(w[x], value)
  {
    assert Inserted(s, j, x) == s[..j] + ([x] + s[j..]) && s == s[..j] + s[j..];
    TotalSplit(w, s[..j], [x] + s[j..], value);
    TotalSplit(w, [x], s[j..], value);
    TotalSplit(w, s[..j], s[j..], value);
  }

  lemma {:induction false} TotalWithout<T>(w: World<T>, s: seq<T>, j: nat, value: Kind -> int)
    requires j < |s| && forall i :: 0 <= i < |s| ==> s[i] in w
    ensures forall i :: 0 <= i < |s| - 1 ==> Without(s, j)[i] in w
    ensures ListTotal(w, Without(s, j), value) == ListTotal(w, s, value) - Amount(w[s[j]], value)
  {
    assert s == s[..j] + ([s[j]] + s[j + 1..]);
    TotalSplit(w, s[..j], [s[j]] + s[j + 1..], value);
    TotalSplit(w, [s[j]], s[j + 1..], value);
    TotalSplit(w, s[..j], s[j + 1..], value);
  }

  /** Every container holds what it held, and `c` holds `diff` more. */
  ghost predicate HeldChange<T>(w: World<T>, v: World<T>, c: T, diff: int, value: Kind -> int)
    requires Linked(w) && Linked(v)
  {
    && w.Keys <= v.Keys
    && forall y {:trigger Held(v, y, value)} :: y in v ==>
         Held(v, y, value) == if y in w then Held(w, y, value) + if y == c then diff else 0 else 0
  }

  lemma {:induction false} HeldInsert<T>(w: World<T>, c: T, j: nat, x: T, value: Kind -> int)
    requires Sound(w) && c in w && x in w && w[c].isContainer && w[x].parent == None
    requires j <= |w[c].items| && !Above(w, x, c)
    ensures Linked(InsertAt(w, c, j, x)) && HeldChange(w, InsertAt(w, c, j, x), c, Amount(w[x], value), value)
  {
    InsertSound(w, c, j, x);
    assert Climb(w, c, 0) == Some(c);
    var v := InsertAt(w, c, j, x);
    forall y | y in w ensures Held(v, y, value) == Held(w, y, value) + if y == c then Amount(w[x], value) else 0 {
      assert LinkedAt(w, y) && LinkedAt(v, y);
      TotalChange(w, v, w[y].items, x, 0, value);
      if y == c { TotalInserted(v, w[c].items, j, x, value); }
    }
  }

  lemma {:induction false} HeldRemove<T>(w: World<T>, c: T, j: nat, value: Kind -> int)
    requires Sound(w) && c in w && j < |w[c].items| && w[c].items[j] in w
    ensures Linked(RemoveAt(w, c, j))
    ensures HeldChange(w, RemoveAt(w, c, j), c, -Amount(w[w[c].items[j]], value), value)
  {
    RemoveSound(w, c, j);
    TakenLinks(w, c, j);
    var x, v := w[c].items[j], RemoveAt(w, c, j);
    forall y | y in w ensures Held(v, y, value) == Held(w, y, value) + if y == c then -Amount(w[x], value) else 0 {
      assert LinkedAt(w, y) && LinkedAt(v, y);
      TotalChange(w, v, w[y].items, x, 0, value);
      if y == c { TotalWithout(v, w[c].items, j, value); }
    }
  }

  lemma {:induction false} HeldSet<T>(w: World<T>, c: T, j: nat, count: nat, diff: int, value: Kind -> int)
    requires Sound(w) && c in w && j < |w[c].items| && w[c].items[j] in w
    requires value(w[w[c].items[j]].kind) * count == Amount(w[w[c].items[j]], value) + diff
    ensures var v := SetAt(w, c, j, w[w[c].items[j]].kind, count);
            Linked(v) && HeldChange(w, v, c, diff, value)
  {
    var x := w[c].items[j];
    var v := SetAt(w, c, j, w[x].kind, count);
    SetSound(w, c, j, w[x].kind, count);
    assert LinkedAt(w, c);
    forall y | y in w ensures Held(v, y, value) == Held(w, y, value) + if y == c then diff else 0 {
      assert LinkedAt(w, y) && LinkedAt(v, y);
      TotalChange(w, v, w[y].items, x, diff, value);
    }
  }

  /** A world with one more loose item that holds nothing. */
  ghost predicate Extended<T>(w: World<T>, v: World<T>, x: T) {
    && x !in w && v.Keys == w.Keys + {x}
    && v[x].parent == None && v[x].items == [] && v[x].totalWeight == 0
    && forall y {:trigger v[y]} :: y in w ==> v[y] == w[y]
  }

  lemma {:induction false} ClimbExtended<T>(w: World<T>, v: World<T>, x: T, y: T, k: nat)
    requires Linked(w) && Extended(w, v, x) && y in w
    ensures Climb(v, y, k) == Climb(w, y, k)
  {
    assert LinkedAt(w, y);
    if k > 0 && w[y].parent.Some? { ClimbExtended(w, v, x, w[y].parent.value, k - 1); }
  }

  lemma {:induction false} ExtendedSound<T>(w: World<T>, v: World<T>, x: T, value: Kind -> int)
    requires Sound(w) && Extended(w, v, x)
    ensures Sound(v) && HeldChange(w, v, x, 0, value)
    ensures forall y :: y in w ==> !Above(v, x, y)
  {
    forall y | y in v ensures LinkedAt(v, y) {
      if y in w { assert LinkedAt(w, y); }
    }
    var n: nat :| GroundedBy(w, n);
    forall y | y in v ensures Climb(v, y, n + 1) == None {
      if y in w { ClimbExtended(w, v, x, y, n); ClimbStops(v, y, n, n + 1); }
    }
    assert GroundedBy(v, n + 1);
    forall y | y in v ensures CachedAt(v, y, 0) && Held(v, y, value) == if y in w then Held(w, y, value) else 0 {
      assert LinkedAt(v, y);
      if y in w {
        assert LinkedAt(w, y) && CachedAt(w, y, 0);
        WeightFrame(w, v, w[y].items);
        TotalChange(w, v, w[y].items, x, 0, value);
      }
    }
    forall y | y in w ensures !Above(v, x, y) {
      forall k: nat ensures Climb(v, y, k) != Some(x) { ClimbExtended(w, v, x, y, k); ClimbIn(w, y, k); }
    }
  }

  // --------------------------------------------------------- over all containers

  ghost function Pick<T>(s: set<T>): (c: T)
    requires s != {}
    ensures c in s
  {
    var c :| c in s; c
  }

  ghost function TotalOver<T>(w: World<T>, s: set<T>, value: Kind -> int): int
    requires Linked(w) && s <= w.Keys
  {
    if s == {} then 0 else var c := Pick(s); Held(w, c, value) + TotalOver(w, s - {c}, value)
  }

  lemma {:induction false} TotalOverPick<T>(w: World<T>, s: set<T>, c: T, value: Kind -> int)
    requires Linked(w) && s <= w.Keys && c in s
    ensures TotalOver(w, s, value) == Held(w, c, value) + TotalOver(w, s - {c}, value)
    decreases s
  {
    var d := Pick(s);
    if d != c {
      TotalOverPick(w, s - {d}, c, value);
      TotalOverPick(w, s - {c}, d, value);
      assert s - {d} - {c} == s - {c} - {d};
    }
  }

  lemma {:induction false} TotalOverNew<T>(w: World<T>, s: set<T>, t: set<T>, value: Kind -> int)
    requires Linked(w) && s <= t <= w.Keys && forall y :: y in t - s ==> Held(w, y, value) == 0
    ensures TotalOver(w, t, value) == TotalOver(w, s, value)
    decreases t - s
  {
    if t - s != {} {
      var y :| y in t - s;
      TotalOverPick(w, t, y, value);
      TotalOverNew(w, s, t - {y}, value);
    } else {
      forall y | y in t ensures y in s { assert y !in t - s; }
      assert t == s;
    }
  }

  /** Everything held by any container. */
  ghost function AllHeld<T>(w: World<T>, value: Kind -> int): int
    requires Linked(w)
  {
    TotalOver(w, w.Keys, value)
  }

  /** `c` holds `d` more, `g` holds `e` more, every other container what it held. */
  ghost predicate HeldShift<T>(w: World<T>, v: World<T>, c: T, d: int, g: T, e: int, value: Kind -> int)
    requires Linked(w) && Linked(v)
  {
    && w.Keys <= v.Keys
    && forall y {:trigger Held(v, y, value)} :: y in v ==>
         Held(v, y, value)
         == if y in w then Held(w, y, value) + (if y == c then d else 0) + (if y == g then e else 0) else 0
  }

  lemma {:induction false} ShiftTotal<T>(w: World<T>, v: World<T>, c: T, d: int, g: T, e: int, value: Kind -> int)
    requires Linked(w) && Linked(v) && c in w && g in w && HeldShift(w, v, c, d, g, e, value)
    ensures AllHeld(v, value) == AllHeld(w, value) + d + e
  {
    ShiftOver(w, v, w.Keys, c, d, g, e, value);
    TotalOverNew(v, w.Keys, v.Keys, value);
  }

  lemma {:induction false} ShiftOver<T>(w: World<T>, v: World<T>, s: set<T>, c: T, d: int, g: T, e: int,
                                        value: Kind -> int)
    requires Linked(w) && Linked(v) && s <= w.Keys && HeldShift(w, v, c, d, g, e, value)
    ensures s <= v.Keys
    ensures TotalOver(v, s, value) == TotalOver(w, s, value) + (if c in s then d else 0) + (if g in s then e else 0)
    decreases s
  {
    if s != {} {
      var y :| y in s;
      ShiftOver(w, v, s - {y}, c, d, g, e, value);
      TotalOverPick(w, s, y, value);
      TotalOverPick(v, s, y, value);
    }
  }

  lemma {:induction false} ShiftAfter<T>(w: World<T>, v: World<T>, u: World<T>, c: T, d: int, g: T, e: int,
                                         value: Kind -> int)
    requires Linked(w) && Linked(v) && Linked(u) && g in w
    requires HeldChange(w, v, c, d, value) && HeldChange(v, u, g, e, value)
    ensures HeldShift(w, u, c, d, g, e, value)
  {
  }
}
