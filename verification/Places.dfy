/** Who lies where and how many there are: what operations on the item world change, and what stays. */
module Places {
  import opened Wrappers
  import opened Forest

  /** Items keep kind, count and place, but for some. */
  ghost predicate SameStacks<T>(w: World<T>, v: World<T>, except: set<T>) {
    forall y {:trigger v[y]} {:trigger y in v} :: y in w && y !in except ==>
      y in v && v[y].kind == w[y].kind && v[y].count == w[y].count && v[y].parent == w[y].parent
  }

  /** Containers hold the same items in the same order, but for some. */
  ghost predicate SameLists<T>(w: World<T>, v: World<T>, except: set<T>) {
    forall y {:trigger v[y]} {:trigger y in v} :: y in w && y !in except ==> y in v && v[y].items == w[y].items
  }

  /** The list without the first occurrence of `x`. */
  ghost function Less<T>(s: seq<T>, x: T): seq<T> {
    if s == [] then [] else if s[0] == x then s[1..] else [s[0]] + Less(s[1..], x)
  }

  lemma {:induction false} LessWithout<T>(s: seq<T>, j: nat, x: T)
    requires NoDup(s) && j < |s| && s[j] == x
    ensures Less(s, x) == Without(s, j)
  {
    if j > 0 {
      LessWithout(s[1..], j - 1, x);
      assert Without(s, j) == [s[0]] + Without(s[1..], j - 1);
    }
  }

  lemma {:induction false} LessIn<T>(s: seq<T>, x: T)
    ensures forall y :: y in Less(s, x) ==> y in s
  {
    if s != [] { LessIn(s[1..], x); }
  }

  lemma {:induction false} LessNone<T>(s: seq<T>, x: T)
    requires x !in s
    ensures Less(s, x) == s
  {
    if s != [] { LessNone(s[1..], x); }
  }

  /** `x` itself, as it is, comes to be the first item of `c`, and nothing else moves or changes. */
  ghost predicate PutFirst<T>(w: World<T>, v: World<T>, c: T, x: T) {
    && c in w && x in w && c in v && x in v
    && v[x].kind == w[x].kind && v[x].count == w[x].count && v[x].parent == Some(c)
    && v[c].items == [x] + w[c].items
    && SameStacks(w, v, {x}) && SameLists(w, v, {c})
  }

  /** The stack `y` comes to `count` units where it lies, and nothing else moves or changes. */
  ghost predicate Counted<T>(w: World<T>, v: World<T>, y: T, count: nat) {
    && y in w && y in v && v[y].kind == w[y].kind && v[y].count == count && v[y].parent == w[y].parent
    && SameStacks(w, v, {y}) && SameLists(w, v, {})
  }

  /** `x` leaves `c`, as it is, and nothing else moves or changes. */
  ghost predicate TakenOut<T>(w: World<T>, v: World<T>, c: T, x: T) {
    && c in w && x in w && c in v && x in v
    && v[x].kind == w[x].kind && v[x].count == w[x].count && v[x].parent == None
    && v[c].items == Less(w[c].items, x)
    && SameStacks(w, v, {x}) && SameLists(w, v, {c})
  }

  lemma {:induction false} PutAfterNothing<T>(w: World<T>, v: World<T>, u: World<T>, y: T, c: T, x: T)
    requires y in w && Counted(w, v, y, w[y].count) && PutFirst(v, u, c, x) && c in w && x in w && x != y
    ensures PutFirst(w, u, c, x)
  {
  }

  lemma {:induction false} InsertPuts<T>(w: World<T>, c: T, x: T)
    requires c in w && x in w
    ensures PutFirst(w, InsertAt(w, c, 0, x), c, x)
  {
    assert Inserted(w[c].items, 0, x) == [x] + w[c].items;
  }

  lemma {:induction false} SetCounts<T>(w: World<T>, c: T, j: nat, y: T, count: nat)
    requires c in w && j < |w[c].items| && w[c].items[j] == y && y in w
    ensures Counted(w, SetAt(w, c, j, w[y].kind, count), y, count)
  {
  }

  lemma {:induction false} RemoveTakes<T>(w: World<T>, c: T, j: nat, x: T)
    requires Linked(w) && c in w && j < |w[c].items| && w[c].items[j] == x && x in w
    ensures TakenOut(w, RemoveAt(w, c, j), c, x)
  {
    assert LinkedAt(w, c);
    LessWithout(w[c].items, j, x);
  }
}
