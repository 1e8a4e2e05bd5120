/** The shape of the item world: which container each item sits in, what every
    container holds and the weight it has cached.  `T` names the items. */
module Forest {
  import opened Wrappers

  /** What the item type table and the attributes say about one item. */
  datatype Kind = Kind(id: nat, attributes: nat, weight: nat, worth: nat,
                       stackable: bool, pickupable: bool, moveable: bool, storeItem: bool)

  datatype Node<T> = Node(kind: Kind, count: nat, parent: Option<T>,
                          isContainer: bool, items: seq<T>, totalWeight: int)

  type World<T> = map<T, Node<T>>

  /** The weight of an item on its own: stacks weigh their count, and at least one. */
  function OwnWeight(kind: Kind, count: nat): nat {
    if kind.stackable then kind.weight * (if count < 1 then 1 else count) else kind.weight
  }

  function NodeWeight<T>(n: Node<T>): int {
    OwnWeight(n.kind, n.count) + if n.isContainer then n.totalWeight else 0
  }

  ghost predicate NoDup<T>(s: seq<T>) {
    forall i, j :: 0 <= i < j < |s| ==> s[i] != s[j]
  }

  /** The container `k` steps above `x`; `x` itself for `k == 0`. */
  ghost function Climb<T>(w: World<T>, x: T, k: nat): Option<T> {
    if x !in w then None
    else if k == 0 then Some(x)
    else match w[x].parent
      case None => None
      case Some(p) => Climb(w, p, k - 1)
  }

  /** `a` is `x` or one of the containers around it. */
  ghost predicate Above<T>(w: World<T>, a: T, x: T) {
    exists k: nat :: Climb(w, x, k) == Some(a)
  }

  ghost predicate GroundedBy<T>(w: World<T>, n: nat) {
    forall x {:trigger Climb(w, x, n)} :: x in w ==> Climb(w, x, n) == None
  }

  /** No container is inside itself: every walk up the parents ends. */
  ghost predicate Grounded<T>(w: World<T>) {
    exists n: nat :: GroundedBy(w, n)
  }

  ghost predicate LinkedAt<T>(w: World<T>, c: T)
    requires c in w
  {
    && (w[c].parent.Some? ==>
          var p := w[c].parent.value; p in w && w[p].isContainer && c in w[p].items)
    && (forall i :: 0 <= i < |w[c].items| ==> w[c].items[i] in w && w[w[c].items[i]].parent == Some(c))
    && NoDup(w[c].items)
    && (!w[c].isContainer ==> w[c].items == [])
  }

  /** Parents and item lists agree. */
  ghost predicate Linked<T>(w: World<T>) {
    forall c {:trigger LinkedAt(w, c)} :: c in w ==> LinkedAt(w, c)
  }

  ghost function WeightOf<T>(w: World<T>, s: seq<T>): int
    requires forall i :: 0 <= i < |s| ==> s[i] in w
  {
    if s == [] then 0 else NodeWeight(w[s[0]]) + WeightOf(w, s[1..])
  }

  ghost predicate CachedAt<T>(w: World<T>, c: T, diff: int)
    requires Linked(w) && c in w
  {
    assert LinkedAt(w, c);
    w[c].totalWeight + diff == WeightOf(w, w[c].items)
  }

  /** Every cached weight is the sum of what the container directly holds. */
  ghost predicate Cached<T>(w: World<T>)
    requires Linked(w)
  {
    forall c {:trigger CachedAt(w, c, 0)} :: c in w ==> CachedAt(w, c, 0)
  }

  ghost predicate Sound<T>(w: World<T>) {
    Linked(w) && Grounded(w) && Cached(w)
  }

  // ---------------------------------------------------------------- walking up

  lemma {:induction false} ClimbAdd<T>(w: World<T>, x: T, a: T, j: nat, k: nat)
    requires Climb(w, x, j) == Some(a)
    ensures Climb(w, x, j + k) == Climb(w, a, k)
  {
    if j > 0 {
      ClimbAdd(w, w[x].parent.value, a, j - 1, k);
    }
  }

  lemma {:induction false} ClimbIn<T>(w: World<T>, x: T, k: nat)
    ensures Climb(w, x, k).Some? ==> Climb(w, x, k).value in w
  {
    if x in w && k > 0 && w[x].parent.Some? {
      ClimbIn(w, w[x].parent.value, k - 1);
    }
  }

  lemma {:induction false} ClimbStops<T>(w: World<T>, x: T, j: nat, k: nat)
    requires j <= k && Climb(w, x, j) == None
    ensures Climb(w, x, k) == None
  {
    if x in w && j > 0 && w[x].parent.Some? {
      ClimbStops(w, w[x].parent.value, j - 1, k - 1);
    }
  }

  /** In a grounded world no item is found again on the way up. */
  lemma {:induction false} NoCycle<T>(w: World<T>, x: T, k: nat)
    requires Grounded(w) && k > 0
    ensures Climb(w, x, k) != Some(x)
  {
    if Climb(w, x, k) == Some(x) {
      var n: nat :| GroundedBy(w, n);
      ClimbRound(w, x, k, n);
      ClimbStops(w, x, n, n * k);
    }
  }

  lemma {:induction false} ClimbRound<T>(w: World<T>, x: T, k: nat, m: nat)
    requires Climb(w, x, k) == Some(x)
    ensures m * k >= 0 && Climb(w, x, m * k) == Some(x)
  {
    if m > 0 {
      ClimbRound(w, x, k, m - 1);
      assert (m - 1) * k + k == m * k;
      ClimbAdd(w, x, x, (m - 1) * k, k);
    }
  }

  // ------------------------------------------------ changing one parent pointer

  /** `v` has the items and parents of `w`, but `x` now sits in `p`. */
  ghost predicate Reparented<T>(w: World<T>, v: World<T>, x: T, p: Option<T>) {
    && v.Keys == w.Keys && x in w
    && v[x].parent == p
    && (forall y :: y in w && y != x ==> v[y].parent == w[y].parent)
  }

  ghost predicate SameParents<T>(w: World<T>, v: World<T>) {
    v.Keys == w.Keys && forall y :: y in w ==> v[y].parent == w[y].parent
  }

  lemma {:induction false} ClimbFrame<T>(w: World<T>, v: World<T>, x: T, k: nat)
    requires SameParents(w, v)
    ensures Climb(v, x, k) == Climb(w, x, k)
  {
    if x in w && k > 0 && w[x].parent.Some? {
      ClimbFrame(w, v, w[x].parent.value, k - 1);
    }
  }

  lemma {:induction false} SameParentsGrounded<T>(w: World<T>, v: World<T>)
    requires SameParents(w, v) && Grounded(w)
    ensures Grounded(v)
  {
    var n: nat :| GroundedBy(w, n);
    forall x | x in v ensures Climb(v, x, n) == None { ClimbFrame(w, v, x, n); }
    assert GroundedBy(v, n);
  }

  lemma {:induction false} SameParentsAbove<T>(w: World<T>, v: World<T>, a: T, x: T)
    requires SameParents(w, v)
    ensures Above(v, a, x) <==> Above(w, a, x)
  {
    forall k: nat ensures Climb(v, x, k) == Climb(w, x, k) { ClimbFrame(w, v, x, k); }
  }

  /** Walks that reach a container still reach it after a root is put somewhere. */
  lemma {:induction false} ClimbAfterAttach<T>(w: World<T>, v: World<T>, x: T, c: T, y: T, k: nat)
    requires Reparented(w, v, x, Some(c)) && w[x].parent == None
    ensures Climb(w, y, k).Some? || !Above(w, x, y) ==> Climb(v, y, k) == Climb(w, y, k)
  {
    if y in w && k > 0 && y != x && w[y].parent.Some? {
      var p := w[y].parent.value;
      ClimbAfterAttach(w, v, x, c, p, k - 1);
      if Above(w, x, p) {
        var j: nat :| Climb(w, p, j) == Some(x);
        assert Climb(w, y, j + 1) == Some(x);
      }
    } else if y == x {
      assert Climb(w, x, 0) == Some(x);
    }
  }

  /** Putting a loose item into a container keeps the world free of cycles exactly when
      the container is not the item and not inside it. */
  lemma {:induction false} AttachGrounded<T>(w: World<T>, v: World<T>, x: T, c: T)
    requires Grounded(w) && Reparented(w, v, x, Some(c)) && w[x].parent == None && c in w
    ensures Grounded(v) <==> !Above(w, x, c)
  {
    if Above(w, x, c) {
      var k: nat :| Climb(w, c, k) == Some(x);
      ClimbAfterAttach(w, v, x, c, c, k);
      assert Climb(v, x, k + 1) == Some(x);
      if Grounded(v) { NoCycle(v, x, k + 1); }
    } else {
      var n: nat :| GroundedBy(w, n);
      forall y | y in v ensures Climb(v, y, 2 * n) == None {
        if Above(w, x, y) {
          var j: nat :| Climb(w, y, j) == Some(x);
          if j >= n { ClimbStops(w, y, n, j); }
          ClimbAfterAttach(w, v, x, c, y, j);
          ClimbAdd(v, y, x, j, 1);
          ClimbAfterAttach(w, v, x, c, c, 0);
          assert Climb(v, x, 1) == Some(c);
          ClimbAdd(v, y, c, j + 1, 2 * n - j - 1);
          ClimbAfterAttach(w, v, x, c, c, 2 * n - j - 1);
          ClimbStops(w, c, n, 2 * n - j - 1);
        } else {
          ClimbAfterAttach(w, v, x, c, y, 2 * n);
          ClimbStops(w, y, n, 2 * n);
        }
      }
      assert GroundedBy(v, 2 * n);
    }
  }

  lemma {:induction false} ClimbAfterDetach<T>(w: World<T>, v: World<T>, x: T, y: T, k: nat)
    requires Reparented(w, v, x, None)
    ensures Climb(v, y, k).Some? ==> Climb(v, y, k) == Climb(w, y, k)
  {
    if y in w && k > 0 && y != x && w[y].parent.Some? {
      ClimbAfterDetach(w, v, x, w[y].parent.value, k - 1);
    }
  }

  lemma {:induction false} DetachGrounded<T>(w: World<T>, v: World<T>, x: T)
    requires Grounded(w) && Reparented(w, v, x, None)
    ensures Grounded(v)
  {
    var n: nat :| GroundedBy(w, n);
    forall y | y in v ensures Climb(v, y, n) == None { ClimbAfterDetach(w, v, x, y, n); }
    assert GroundedBy(v, n);
  }

  // --------------------------------------------------- pushing a weight upwards

  /** `diff` added to the cached weight of `c` and of every container around it. */
  ghost function Bump<T>(w: World<T>, c: T, diff: int): World<T> {
    map x | x in w :: if Above(w, x, c) then w[x].(totalWeight := w[x].totalWeight + diff) else w[x]
  }

  ghost function BumpOne<T>(w: World<T>, c: T, diff: int): World<T>
    requires c in w
  {
    w[c := w[c].(totalWeight := w[c].totalWeight + diff)]
  }

  lemma {:induction false} AboveStep<T>(w: World<T>, a: T, c: T)
    requires c in w
    ensures Above(w, a, c) <==> a == c || (w[c].parent.Some? && Above(w, a, w[c].parent.value))
  {
    assert Climb(w, c, 0) == Some(c);
    if w[c].parent.Some? && Above(w, a, w[c].parent.value) {
      var k: nat :| Climb(w, w[c].parent.value, k) == Some(a);
      assert Climb(w, c, k + 1) == Some(a);
    }
    if Above(w, a, c) && a != c {
      var k: nat :| Climb(w, c, k) == Some(a);
      assert k > 0;
      assert Climb(w, w[c].parent.value, k - 1) == Some(a);
    }
  }

  /** The recursion of the source: change this container, then ask its parent. */
  lemma {:induction false} BumpStep<T>(w: World<T>, c: T, diff: int)
    requires c in w && Grounded(w)
    ensures SameParents(w, BumpOne(w, c, diff))
    ensures Bump(w, c, diff) ==
            if w[c].parent.None? then BumpOne(w, c, diff)
            else Bump(BumpOne(w, c, diff), w[c].parent.value, diff)
  {
    var v := BumpOne(w, c, diff);
    forall x | x in w ensures Above(w, x, c) <==> x == c || (w[c].parent.Some? && Above(v, x, w[c].parent.value)) {
      AboveStep(w, x, c);
      if w[c].parent.Some? { SameParentsAbove(w, v, x, w[c].parent.value); }
    }
    if w[c].parent.Some? && Above(v, c, w[c].parent.value) {
      SameParentsAbove(w, v, c, w[c].parent.value);
      var k: nat :| Climb(w, w[c].parent.value, k) == Some(c);
      assert Climb(w, c, k + 1) == Some(c);
      NoCycle(w, c, k + 1);
    }
  }

  /** Only kinds, counts and cached weights may differ. */
  ghost predicate SameLinks<T>(w: World<T>, v: World<T>) {
    && v.Keys == w.Keys
    && forall y :: y in w ==> v[y].parent == w[y].parent && v[y].items == w[y].items
                              && v[y].isContainer == w[y].isContainer
  }

  lemma {:induction false} SameLinksLinked<T>(w: World<T>, v: World<T>)
    requires SameLinks(w, v) && Linked(w)
    ensures Linked(v) && SameParents(w, v)
  {
    forall c | c in v ensures LinkedAt(v, c) { assert LinkedAt(w, c); }
  }

  lemma {:induction false} WeightFrame<T>(w: World<T>, v: World<T>, s: seq<T>)
    requires forall i :: 0 <= i < |s| ==> s[i] in w && s[i] in v && NodeWeight(v[s[i]]) == NodeWeight(w[s[i]])
    ensures WeightOf(v, s) == WeightOf(w, s)
  {
    if s != [] { WeightFrame(w, v, s[1..]); }
  }

  lemma {:induction false} WeightChange<T>(w: World<T>, v: World<T>, s: seq<T>, j: nat, diff: int)
    requires j < |s| && NoDup(s)
    requires forall i :: 0 <= i < |s| ==> s[i] in w && s[i] in v
                                          && NodeWeight(v[s[i]]) == NodeWeight(w[s[i]]) + if i == j then diff else 0
    ensures WeightOf(v, s) == WeightOf(w, s) + diff
  {
    if j == 0 {
      WeightFrame(w, v, s[1..]);
    } else {
      WeightChange(w, v, s[1..], j - 1, diff);
    }
  }

  lemma {:induction false} WeightSplit<T>(w: World<T>, s: seq<T>, t: seq<T>)
    requires forall i :: 0 <= i < |s| ==> s[i] in w
    requires forall i :: 0 <= i < |t| ==> t[i] in w
    ensures WeightOf(w, s + t) == WeightOf(w, s) + WeightOf(w, t)
  {
    if s == [] {
      assert s + t == t;
    } else {
      WeightSplit(w, s[1..], t);
      assert (s + t)[1..] == s[1..] + t;
    }
  }

  /** What one level of pushing leaves: the mistake moves from `c` to its parent. */
  lemma {:induction false} BumpOneCache<T>(w: World<T>, c: T, diff: int)
    requires Linked(w) && Grounded(w) && c in w && w[c].isContainer && CachedAt(w, c, diff)
    requires forall y :: y in w && y != c ==> CachedAt(w, y, 0)
    ensures SameLinks(w, BumpOne(w, c, diff)) && Linked(BumpOne(w, c, diff))
    ensures forall y :: y in w ==>
              CachedAt(BumpOne(w, c, diff), y, if w[c].parent == Some(y) then diff else 0)
  {
    var v := BumpOne(w, c, diff);
    SameLinksLinked(w, v);
    forall y | y in w ensures CachedAt(v, y, if w[c].parent == Some(y) then diff else 0) {
      assert LinkedAt(w, y) && LinkedAt(w, c);
      assert Climb(w, c, 0) == Some(c);
      if w[c].parent == Some(y) {
        assert Climb(w, c, 1) == Climb(w, y, 0) == Some(y);
        NoCycle(w, c, 1);
        var j :| 0 <= j < |w[y].items| && w[y].items[j] == c;
        WeightChange(w, v, w[y].items, j, diff);
      } else {
        WeightFrame(w, v, w[y].items);
      }
    }
  }

  /** Pushing the weight difference of one container all the way up repairs every cache. */
  lemma {:induction false} BumpRestoresCache<T>(w: World<T>, c: T, diff: int, n: nat)
    requires Linked(w) && Grounded(w) && c in w && w[c].isContainer && Climb(w, c, n) == None
    requires CachedAt(w, c, diff)
    requires forall y :: y in w && y != c ==> CachedAt(w, y, 0)
    ensures SameLinks(w, Bump(w, c, diff)) && Sound(Bump(w, c, diff))
    decreases n
  {
    var v := BumpOne(w, c, diff);
    BumpOneCache(w, c, diff);
    SameParentsGrounded(w, v);
    BumpStep(w, c, diff);
    if w[c].parent.Some? {
      var p := w[c].parent.value;
      assert LinkedAt(w, c);
      ClimbFrame(w, v, p, n - 1);
      BumpRestoresCache(v, p, diff, n - 1);
    }
  }

  // ------------------------------------------------------- container operations

  /** `x` now sits in `c`, whose item list becomes `items`. */
  ghost function Placed<T>(w: World<T>, c: T, x: T, items: seq<T>): World<T>
    requires c in w && x in w
  {
    var v := w[x := w[x].(parent := Some(c))];
    v[c := v[c].(items := items)]
  }

  /** `x` enters `c` at position `j`; the weight goes up with it. */
  ghost function InsertAt<T>(w: World<T>, c: T, j: nat, x: T): World<T>
    requires c in w && x in w && j <= |w[c].items|
  {
    Bump(Placed(w, c, x, Inserted(w[c].items, j, x)), c, NodeWeight(w[x]))
  }

  /** The item at position `j` of `c` leaves. */
  ghost function Taken<T>(w: World<T>, c: T, j: nat): World<T>
    requires c in w && j < |w[c].items| && w[c].items[j] in w
  {
    Loosened(w[c := w[c].(items := Without(w[c].items, j))], w[c].items[j])
  }

  ghost function Loosened<T>(w: World<T>, x: T): World<T>
    requires x in w
  {
    w[x := w[x].(parent := None)]
  }

  ghost function RemoveAt<T>(w: World<T>, c: T, j: nat): World<T>
    requires c in w && j < |w[c].items| && w[c].items[j] in w
  {
    Bump(Taken(w, c, j), c, -NodeWeight(w[w[c].items[j]]))
  }

  ghost function Restacked<T>(w: World<T>, x: T, kind: Kind, count: nat): World<T>
    requires x in w
  {
    w[x := w[x].(kind := kind, count := count)]
  }

  /** The item at position `j` of `c` gets another kind and count. */
  ghost function SetAt<T>(w: World<T>, c: T, j: nat, kind: Kind, count: nat): World<T>
    requires c in w && j < |w[c].items| && w[c].items[j] in w
  {
    var x := w[c].items[j];
    Bump(Restacked(w, x, kind, count), c,
         OwnWeight(kind, count) - OwnWeight(w[x].kind, w[x].count))
  }

  /** `amount` units of the stack at position `j` of `c` leave, or the whole item. */
  ghost function RemovedFrom<T>(w: World<T>, c: T, j: nat, amount: nat): World<T>
    requires c in w && j < |w[c].items| && w[c].items[j] in w
  {
    var n := w[w[c].items[j]];
    if n.kind.stackable && amount != n.count
    then SetAt(w, c, j, n.kind, if amount < n.count then n.count - amount else 0)
    else RemoveAt(w, c, j)
  }

  /** `x` takes position `j` of `c`; the item that was there is loose. */
  ghost function ReplaceAt<T>(w: World<T>, c: T, j: nat, x: T): World<T>
    requires c in w && x in w && j < |w[c].items| && w[c].items[j] in w && w[c].items[j] != c
  {
    InsertAt(RemoveAt(w, c, j), c, j, x)
  }

  lemma {:induction false} ClimbAvoids<T>(w: World<T>, v: World<T>, x: T, p: Option<T>, c: T, k: nat)
    requires Reparented(w, v, x, p) && !Above(w, x, c)
    ensures Climb(v, c, k) == Climb(w, c, k)
  {
    if c in w && k > 0 && w[c].parent.Some? {
      AboveStep(w, x, c);
      ClimbAvoids(w, v, x, p, w[c].parent.value, k - 1);
    }
    assert Climb(w, c, 0) == Some(c) || c !in w;
  }

  lemma {:induction false} AboveAvoids<T>(w: World<T>, v: World<T>, x: T, p: Option<T>, c: T)
    requires Reparented(w, v, x, p) && !Above(w, x, c)
    ensures forall a :: a in w ==> (Above(v, a, c) <==> Above(w, a, c))
  {
    forall k: nat ensures Climb(v, c, k) == Climb(w, c, k) { ClimbAvoids(w, v, x, p, c, k); }
  }

  ghost function Inserted<T>(s: seq<T>, j: nat, x: T): (t: seq<T>)
    requires j <= |s|
    ensures |t| == |s| + 1 && t[j] == x
    ensures forall i :: 0 <= i < j ==> t[i] == s[i]
    ensures forall i :: j <= i < |s| ==> t[i + 1] == s[i]
  {
    s[..j] + [x] + s[j..]
  }

  ghost function Without<T>(s: seq<T>, j: nat): (t: seq<T>)
    requires j < |s|
    ensures |t| == |s| - 1
    ensures forall i :: 0 <= i < j ==> t[i] == s[i]
    ensures forall i :: j < i < |s| ==> t[i - 1] == s[i]
  {
    s[..j] + s[j + 1..]
  }

  lemma {:induction false} InsertedFacts<T>(s: seq<T>, j: nat, x: T)
    requires j <= |s| && NoDup(s) && x !in s
    ensures NoDup(Inserted(s, j, x))
    ensures forall y :: y in Inserted(s, j, x) <==> y == x || y in s
  {
    var t := Inserted(s, j, x);
    forall a, b | 0 <= a < b < |t| ensures t[a] != t[b] {
      assert a < j ==> t[a] == s[a];
      assert b > j ==> t[b] == s[b - 1];
    }
  }

  lemma {:induction false} PlacedLinkedAt<T>(w: World<T>, c: T, x: T, j: nat, y: T)
    requires Linked(w) && c in w && x in w && x != c && w[c].isContainer && w[x].parent == None
    requires j <= |w[c].items| && y in w
    ensures LinkedAt(Placed(w, c, x, Inserted(w[c].items, j, x)), y)
  {
    var held := w[c].items;
    assert LinkedAt(w, y) && LinkedAt(w, c);
    InsertedFacts(held, j, x);
    var v := Placed(w, c, x, Inserted(held, j, x));
    if y == c {
      forall i | 0 <= i < |v[c].items| ensures v[c].items[i] in v && v[v[c].items[i]].parent == Some(c) {
        assert v[c].items[i] == x || v[c].items[i] in held;
      }
    }
  }

  lemma {:induction false} PlacedLinks<T>(w: World<T>, c: T, x: T, j: nat)
    requires Linked(w) && c in w && x in w && x != c && w[c].isContainer && w[x].parent == None
    requires j <= |w[c].items|
    ensures Linked(Placed(w, c, x, Inserted(w[c].items, j, x)))
  {
    var v := Placed(w, c, x, Inserted(w[c].items, j, x));
    forall y | y in v ensures LinkedAt(v, y) { PlacedLinkedAt(w, c, x, j, y); }
  }

  lemma {:induction false} PlacedWeight<T>(w: World<T>, v: World<T>, s: seq<T>, j: nat, x: T)
    requires j <= |s| && x in v
    requires forall i :: 0 <= i < |s| ==> s[i] in w && s[i] in v && NodeWeight(v[s[i]]) == NodeWeight(w[s[i]])
    ensures forall i :: 0 <= i < |s| + 1 ==> Inserted(s, j, x)[i] in v
    ensures WeightOf(v, Inserted(s, j, x)) == WeightOf(w, s) + NodeWeight(v[x])
  {
    assert s == s[..j] + s[j..];
    WeightSplit(v, s[..j] + [x], s[j..]);
    WeightSplit(v, s[..j], [x]);
    WeightSplit(w, s[..j], s[j..]);
    WeightFrame(w, v, s[..j]);
    WeightFrame(w, v, s[j..]);
  }

  lemma {:induction false} WithoutWeight<T>(w: World<T>, v: World<T>, s: seq<T>, j: nat)
    requires j < |s|
    requires forall i :: 0 <= i < |s| ==> s[i] in w && s[i] in v && NodeWeight(v[s[i]]) == NodeWeight(w[s[i]])
    ensures forall i :: 0 <= i < |s| - 1 ==> Without(s, j)[i] in v
    ensures WeightOf(v, Without(s, j)) == WeightOf(w, s) - NodeWeight(w[s[j]])
  {
    assert s == s[..j] + ([s[j]] + s[j + 1..]);
    WeightSplit(w, s[..j], [s[j]] + s[j + 1..]);
    WeightSplit(w, [s[j]], s[j + 1..]);
    WeightSplit(v, s[..j], s[j + 1..]);
    WeightFrame(w, v, s[..j]);
    WeightFrame(w, v, s[j + 1..]);
  }

  lemma {:induction false} PlacedCache<T>(w: World<T>, c: T, x: T, j: nat)
    requires Sound(w) && c in w && x in w && x != c && w[c].isContainer && w[x].parent == None
    requires j <= |w[c].items|
    ensures var v := Placed(w, c, x, Inserted(w[c].items, j, x));
            Linked(v) && forall y :: y in v ==> CachedAt(v, y, if y == c then NodeWeight(w[x]) else 0)
  {
    var held := w[c].items;
    var v := Placed(w, c, x, Inserted(held, j, x));
    PlacedLinks(w, c, x, j);
    assert LinkedAt(w, c);
    PlacedWeight(w, v, held, j, x);
    forall y | y in v ensures CachedAt(v, y, if y == c then NodeWeight(w[x]) else 0) {
      assert LinkedAt(w, y) && LinkedAt(v, y) && CachedAt(w, y, 0);
      if y != c {
        WeightFrame(w, v, w[y].items);
      }
    }
  }

  lemma {:induction false} BumpSound<T>(v: World<T>, c: T, diff: int)
    requires Linked(v) && Grounded(v) && c in v && v[c].isContainer && CachedAt(v, c, diff)
    requires forall y :: y in v && y != c ==> CachedAt(v, y, 0)
    ensures Sound(Bump(v, c, diff))
  {
    var n: nat :| GroundedBy(v, n);
    BumpRestoresCache(v, c, diff, n);
  }

  /** Inserting a loose item keeps the world sound exactly when the container is not the
      item itself and not inside it. */
  lemma {:induction false} InsertSound<T>(w: World<T>, c: T, j: nat, x: T)
    requires Sound(w) && c in w && x in w && w[c].isContainer && w[x].parent == None
    requires j <= |w[c].items|
    ensures Sound(InsertAt(w, c, j, x)) <==> !Above(w, x, c)
  {
    var v := Placed(w, c, x, Inserted(w[c].items, j, x));
    AttachGrounded(w, v, x, c);
    if !Above(w, x, c) {
      assert Climb(w, c, 0) == Some(c);
      PlacedCache(w, c, x, j);
      BumpSound(v, c, NodeWeight(w[x]));
    } else if Sound(InsertAt(w, c, j, x)) {
      SameParentsGrounded(InsertAt(w, c, j, x), v);
    }
  }

  lemma {:induction false} ParentNotBelow<T>(w: World<T>, c: T, x: T)
    requires Sound(w) && x in w && w[x].parent == Some(c)
    ensures !Above(w, x, c)
  {
    if Above(w, x, c) {
      var k: nat :| Climb(w, c, k) == Some(x);
      assert Climb(w, x, k + 1) == Some(x);
      NoCycle(w, x, k + 1);
    }
  }

  lemma {:induction false} TakenLinks<T>(w: World<T>, c: T, j: nat)
    requires Sound(w) && c in w && j < |w[c].items|
    ensures w[c].isContainer && w[c].items[j] in w && w[c].items[j] != c
    ensures Linked(Taken(w, c, j)) && Grounded(Taken(w, c, j))
    ensures Reparented(w, Taken(w, c, j), w[c].items[j], None)
  {
    assert LinkedAt(w, c);
    var x := w[c].items[j];
    ParentNotBelow(w, c, x);
    assert Climb(w, c, 0) == Some(c);
    var v := Taken(w, c, j);
    DetachGrounded(w, v, x);
    forall y | y in v ensures LinkedAt(v, y) {
      assert LinkedAt(w, y);
    }
  }

  lemma {:induction false} TakenCache<T>(w: World<T>, c: T, j: nat)
    requires Sound(w) && c in w && j < |w[c].items| && w[c].items[j] in w
    requires Linked(Taken(w, c, j)) && w[c].items[j] != c
    ensures forall y :: y in w ==>
              CachedAt(Taken(w, c, j), y, if y == c then -NodeWeight(w[w[c].items[j]]) else 0)
  {
    var held, x, v := w[c].items, w[c].items[j], Taken(w, c, j);
    forall y | y in v ensures CachedAt(v, y, if y == c then -NodeWeight(w[x]) else 0) {
      assert LinkedAt(w, y) && LinkedAt(v, y) && CachedAt(w, y, 0);
      if y == c {
        WithoutWeight(w, v, held, j);
      } else {
        WeightFrame(w, v, w[y].items);
      }
    }
  }

  lemma {:induction false} RemoveSound<T>(w: World<T>, c: T, j: nat)
    requires Sound(w) && c in w && j < |w[c].items|
    ensures w[c].items[j] in w && Sound(RemoveAt(w, c, j))
  {
    TakenLinks(w, c, j);
    TakenCache(w, c, j);
    BumpSound(Taken(w, c, j), c, -NodeWeight(w[w[c].items[j]]));
  }

  lemma {:induction false} RestackedCache<T>(w: World<T>, c: T, j: nat, v: World<T>, diff: int)
    requires Sound(w) && c in w && j < |w[c].items| && SameLinks(w, v) && Linked(v)
    requires forall y :: y in w ==> v[y].totalWeight == w[y].totalWeight
    requires forall y :: y in w ==> NodeWeight(v[y]) == NodeWeight(w[y]) + if y == w[c].items[j] then diff else 0
    ensures forall y :: y in v ==> CachedAt(v, y, if y == c then diff else 0)
  {
    assert LinkedAt(w, c);
    forall y | y in v ensures CachedAt(v, y, if y == c then diff else 0) {
      assert LinkedAt(w, y) && LinkedAt(v, y) && CachedAt(w, y, 0);
      if y == c {
        WeightChange(w, v, w[y].items, j, diff);
      } else {
        WeightFrame(w, v, w[y].items);
      }
    }
  }

  lemma {:induction false} SetSound<T>(w: World<T>, c: T, j: nat, kind: Kind, count: nat)
    requires Sound(w) && c in w && j < |w[c].items|
    ensures w[c].items[j] in w && Sound(SetAt(w, c, j, kind, count))
  {
    assert LinkedAt(w, c);
    var x := w[c].items[j];
    var v := Restacked(w, x, kind, count);
    var diff := OwnWeight(kind, count) - OwnWeight(w[x].kind, w[x].count);
    SameLinksLinked(w, v);
    SameParentsGrounded(w, v);
    RestackedCache(w, c, j, v, diff);
    BumpSound(v, c, diff);
  }

  lemma {:induction false} ReplaceSound<T>(w: World<T>, c: T, j: nat, x: T)
    requires Sound(w) && c in w && x in w && w[x].parent == None && j < |w[c].items|
    ensures w[c].items[j] in w && w[c].items[j] != c
    ensures Sound(ReplaceAt(w, c, j, x)) <==> !Above(w, x, c)
  {
    TakenLinks(w, c, j);
    RemoveSound(w, c, j);
    assert LinkedAt(w, c);
    var y, t := w[c].items[j], RemoveAt(w, c, j);
    ParentNotBelow(w, c, y);
    assert Climb(w, c, 0) == Some(c);
    AboveAvoids(w, t, y, None, c);
    InsertSound(t, c, j, x);
  }

  // ------------------------------------------------------------ the whole depth

  /** The weight of everything inside `c`, counted item by item down `n` levels. */
  ghost function DeepWeight<T>(w: World<T>, c: T, n: nat): int
    requires Linked(w) && c in w
    decreases n, 0
  {
    assert LinkedAt(w, c);
    if n == 0 then 0 else DeepSum(w, w[c].items, n - 1)
  }

  ghost function DeepSum<T>(w: World<T>, s: seq<T>, n: nat): int
    requires Linked(w) && forall i :: 0 <= i < |s| ==> s[i] in w
    decreases n, 1, |s|
  {
    if s == [] then 0
    else OwnWeight(w[s[0]].kind, w[s[0]].count) + DeepWeight(w, s[0], n) + DeepSum(w, s[1..], n)
  }

  /** Nothing is `n` levels below `c`. */
  ghost predicate NothingBelow<T>(w: World<T>, c: T, n: nat) {
    forall x :: x in w ==> Climb(w, x, n) != Some(c)
  }

  /** In a sound world the cached weight of every container is the sum of the weights of
      all items in it, at every depth. */
  lemma {:induction false} CachedIsDeep<T>(w: World<T>, c: T, n: nat)
    requires Sound(w) && c in w && GroundedBy(w, n)
    ensures w[c].totalWeight == DeepWeight(w, c, n)
  {
    CachedIsDeepBelow(w, c, n);
  }

  lemma {:induction false} CachedIsDeepBelow<T>(w: World<T>, c: T, n: nat)
    requires Sound(w) && c in w && NothingBelow(w, c, n)
    ensures w[c].totalWeight == DeepWeight(w, c, n)
    decreases n, 0
  {
    assert LinkedAt(w, c) && CachedAt(w, c, 0);
    assert Climb(w, c, 0) == Some(c);
    forall i | 0 <= i < |w[c].items| ensures n > 0 && NothingBelow(w, w[c].items[i], n - 1) {
      var k := w[c].items[i];
      assert Climb(w, k, 1) == Climb(w, c, 0);
      forall x | x in w ensures Climb(w, x, n - 1) != Some(k) {
        if Climb(w, x, n - 1) == Some(k) { ClimbAdd(w, x, k, n - 1, 1); }
      }
    }
    DeepSumIsWeight(w, w[c].items, n - 1);
  }

  lemma {:induction false} DeepSumIsWeight<T>(w: World<T>, s: seq<T>, n: nat)
    requires Sound(w)
    requires forall i :: 0 <= i < |s| ==> s[i] in w && NothingBelow(w, s[i], n)
    ensures DeepSum(w, s, n) == WeightOf(w, s)
    decreases n, 1, |s|
  {
    if s != [] {
      CachedIsDeepBelow(w, s[0], n);
      assert LinkedAt(w, s[0]) && CachedAt(w, s[0], 0);
      DeepSumIsWeight(w, s[1..], n);
    }
  }
}
