/** The list of single damages into which damage over time is split. */
module DamageList {
  import opened Arithmetic

  function Sum(list: seq<int>): int {
    if list == [] then 0 else Sum(list[..|list| - 1]) + list[|list| - 1]
  }

  function Abs(a: int): nat { if a < 0 then -a else a }

  function Fabs(x: real): real { if x < 0.0 then -x else x }

  /** The sum of all entries above one. */
  function Larger(list: seq<int>): int {
    if list == [] then 0 else Larger(list[..|list| - 1]) + (if list[|list| - 1] > 1 then list[|list| - 1] else 0)
  }

  lemma {:induction false} SumSnoc(list: seq<int>, v: int)
    ensures Sum(list + [v]) == Sum(list) + v && Larger(list + [v]) == Larger(list) + (if v > 1 then v else 0)
  {
    assert (list + [v])[..|list|] == list;
  }

  /** Ratios to a goal compare like distances to it. */
  lemma {:induction false} Closer(sum: int, i: int, med: int)
    requires med > 0
    ensures (Fabs(1.0 - (sum + i) as real / med as real) < Fabs(1.0 - sum as real / med as real))
            <==> (Abs(med - sum - i) < Abs(med - sum))
  {
    Ratio(sum + i, med);
    Ratio(sum, med);
    Divided(Abs(med - sum - i) as real, Abs(med - sum) as real, med as real);
  }

  lemma {:induction false} Ratio(v: int, med: int)
    requires med > 0
    ensures Fabs(1.0 - v as real / med as real) == Abs(med - v) as real / med as real
  {
    var m, r := med as real, 1.0 - v as real / med as real;
    assert r * m == m - v as real;
    assert r * m == (med - v) as real;
    if med >= v {
      assert r == (med - v) as real / m;
      assert r >= 0.0;
    } else {
      assert -r == (v - med) as real / m;
      assert r < 0.0;
    }
  }

  lemma {:induction false} Divided(a: real, b: real, m: real)
    requires m > 0.0
    ensures a / m < b / m <==> a < b
  {
    assert (a / m) * m == a && (b / m) * m == b;
  }

  /** How much the first `n` sizes of entries should come to. */
  function Target(n: nat, amount: nat, start: nat): nat
    requires start > 0
  {
    (n * amount) / start
  }

  lemma {:induction false} WholeAmount(amount: nat, start: nat)
    requires start > 0
    ensures Target(start, amount, start) == amount
  {
    var q := (start * amount) / start;
    assert start * amount == start * q + (start * amount) % start;
    assert start * (amount - q) == (start * amount) % start;
    Between(amount - q, start);
  }

  lemma {:induction false} Between(d: int, m: nat)
    requires 0 <= m * d < m
    ensures d == 0
  {
    Scaled(1, d, m);
    Scaled(d, -1, m);
  }

  /** The entries so far, down to above `i`. */
  ghost predicate DownTo(list: seq<int>, i: int, start: int) {
    && (forall k :: 0 <= k < |list| ==> i < list[k] <= start) && (forall k :: 0 <= k < |list| - 1 ==> Down(list, k))
    && if list == [] then i == start else list[0] == start && list[|list| - 1] == i + 1
  }

  lemma {:induction false} DownSnoc(list: seq<int>, i: int, start: int)
    requires 0 < i <= start && (DownTo(list, i, start) || DownTo(list, i - 1, start))
    ensures DownTo(list + [i], i - 1, start)
  {
    var more := list + [i];
    forall k | 0 <= k < |more| - 1 ensures Down(more, k) {
      if k < |list| - 1 { assert Down(list, k); }
    }
  }

  /** The sum of all entries of at least `size`. */
  function AtLeast(list: seq<int>, size: int): int {
    if list == [] then 0
    else AtLeast(list[..|list| - 1], size) + (if list[|list| - 1] >= size then list[|list| - 1] else 0)
  }

  function Times(list: seq<int>, size: int): nat {
    if list == [] then 0 else Times(list[..|list| - 1], size) + (if list[|list| - 1] == size then 1 else 0)
  }

  lemma {:induction false} CountSnoc(list: seq<int>, v: int)
    ensures forall size :: AtLeast(list + [v], size) == AtLeast(list, size) + (if v >= size then v else 0)
    ensures forall size :: Times(list + [v], size) == Times(list, size) + (if v == size then 1 else 0)
  {
    assert (list + [v])[..|list|] == list;
  }

  lemma {:induction false} AllAtLeast(list: seq<int>, size: int)
    requires forall k :: 0 <= k < |list| ==> list[k] >= size
    ensures AtLeast(list, size) == Sum(list) && (forall low :: low < size ==> Times(list, low) == 0)
  {
    if list != [] { AllAtLeast(list[..|list| - 1], size); }
  }

  /** There are as many entries of a size as bring the sum of all so far nearest to its part of the
      amount, and at least one. */
  ghost predicate SizeRight(list: seq<int>, size: int, amount: nat, start: nat)
    requires start > 0 && 0 < size <= start
  {
    var med := (start + 1 - size) * amount / start;
    Nearest(AtLeast(list, size), size, med, Times(list, size))
  }

  /** One more would not bring the sum closer to `med`, and neither would one less, of which one must stay. */
  ghost predicate Nearest(sum: int, size: int, med: int, times: nat) {
    times >= 1 && 2 * (med - sum) <= size && (times > 1 ==> 2 * (sum - med) < size)
  }

  /** Sizes above `i` are as they were. */
  ghost predicate SameAbove(list: seq<int>, list': seq<int>, i: int) {
    forall size :: size > i ==> AtLeast(list', size) == AtLeast(list, size) && Times(list', size) == Times(list, size)
  }

  /** Pushes `i` once, and again as long as that brings the sum closer to `med`. */
  method PushAll(list0: seq<int>, sum0: int, i: nat, med: nat, start: nat) returns (list: seq<int>, sum: int)
    requires 0 < i <= start && DownTo(list0, i, start) && sum0 == Sum(list0) >= 0
    ensures DownTo(list, i - 1, start) && sum == Sum(list) >= 0
    ensures Larger(list) == if i > 1 then Larger(list0) + sum - sum0 else Larger(list0)
    ensures Nearest(sum, i, med, Times(list, i)) && Pushed(list0, list, sum0, sum, i)
  {
    list, sum := list0 + [i], sum0 + i;
    SumSnoc(list0, i);
    PushedOnce(list0, sum0, i);
    DownSnoc(list0, i, start);
    while med != 0 && Fabs(1.0 - (sum + i) as real / med as real) < Fabs(1.0 - sum as real / med as real)
      invariant DownTo(list, i - 1, start) && sum == Sum(list) && sum >= sum0 + i
      invariant Larger(list) == if i > 1 then Larger(list0) + sum - sum0 else Larger(list0)
      invariant Pushed(list0, list, sum0, sum, i) && (Times(list, i) > 1 ==> 2 * (sum - med) < i)
      decreases Abs(med - sum)
    {
      Closer(sum, i, med);
      SumSnoc(list, i);
      PushedAgain(list0, list, sum0, sum, i);
      DownSnoc(list, i, start);
      list, sum := list + [i], sum + i;
    }
    if med != 0 { Closer(sum, i, med); }
  }

  /** So many entries of `i`, at least one, were added to the list. */
  ghost predicate Pushed(list0: seq<int>, list: seq<int>, sum0: int, sum: int, i: int) {
    Times(list, i) >= 1 && sum == sum0 + Times(list, i) * i && SameAbove(list0, list, i)
  }

  lemma {:induction false} PushedOnce(list0: seq<int>, sum0: int, i: int)
    requires forall k :: 0 <= k < |list0| ==> i < list0[k]
    ensures Pushed(list0, list0 + [i], sum0, sum0 + i, i) && Times(list0 + [i], i) == 1
  {
    CountSnoc(list0, i);
    AllAtLeast(list0, i + 1);
  }

  lemma {:induction false} PushedAgain(list0: seq<int>, list: seq<int>, sum0: int, sum: int, i: int)
    requires Pushed(list0, list, sum0, sum, i)
    ensures Pushed(list0, list + [i], sum0, sum + i, i)
  {
    CountSnoc(list, i);
    assert (Times(list, i) + 1) * i == Times(list, i) * i + i;
  }

  /** At the last size the sum is the amount, or one more than the larger entries. */
  lemma {:induction false} LastSize(larger: int, sum: int, med: nat, times: nat)
    requires Nearest(sum, 1, med, times) && sum == larger + times
    ensures sum == if larger + 1 > med then larger + 1 else med
  {
  }

  /** The entries go down from `start` to one without a gap; of each size there are as many as bring the
      sum nearest to its part of the amount.  Together they come to the amount, or to one more than the
      entries above one when those alone reach it. */
  method GenerateDamageList(amount0: int, start: nat) returns (list: seq<int>)
    requires start > 0
    ensures forall k :: 0 <= k < |list| ==> 1 <= list[k] <= start
    ensures forall k :: 0 <= k < |list| - 1 ==> Down(list, k)
    ensures list != [] && list[0] == start && list[|list| - 1] == 1
    ensures forall size :: 1 <= size <= start ==> SizeRight(list, size, Abs(amount0), start)
    ensures Sum(list) == if Larger(list) + 1 > Abs(amount0) then Larger(list) + 1 else Abs(amount0)
  {
    var amount, sum := Abs(amount0), 0;
    list := [];
    var i := start;
    while i > 0
      invariant 0 <= i <= start && sum == Sum(list) >= 0
      invariant DownTo(list, i, start)
      invariant forall size :: i < size <= start ==> SizeRight(list, size, amount, start)
      invariant i > 0 ==> Larger(list) == sum
      invariant i == 0 ==> sum == if Larger(list) + 1 > amount then Larger(list) + 1 else amount
    {
      var n := start + 1 - i;
      var med := Target(n, amount, start);
      ghost var before, had := list, sum;
      if i == 1 { WholeAmount(amount, start); }
      list, sum := PushAll(list, sum, i, med, start);
      AllAtLeast(list, i);
      NextSize(before, list, i, amount, start);
      if i == 1 { LastSize(had, sum, med, Times(list, 1)); }
      i := i - 1;
    }
  }

  lemma {:induction false} NextSize(before: seq<int>, list: seq<int>, i: nat, amount: nat, start: nat)
    requires 0 < i <= start && SameAbove(before, list, i) && AtLeast(list, i) == Sum(list)
    requires Nearest(Sum(list), i, Target(start + 1 - i, amount, start), Times(list, i))
    requires forall size :: i < size <= start ==> SizeRight(before, size, amount, start)
    ensures forall size :: i <= size <= start ==> SizeRight(list, size, amount, start)
  {
    forall size | i <= size <= start ensures SizeRight(list, size, amount, start) {
      if size > i { assert SizeRight(before, size, amount, start); }
    }
  }

  /** An entry is followed by the same or by one less. */
  ghost predicate Down(list: seq<int>, k: nat)
    requires k < |list| - 1
  {
    list[k + 1] == list[k] || list[k + 1] == list[k] - 1
  }
}
