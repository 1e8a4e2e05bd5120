/** The breadth-first walk of `ContainerIterator`, on the shape of the item world. */
module Traversal {
  import opened Wrappers
  import opened Forest

  /** The queue of containers still to read and the position in the first of them. */
  datatype Cursor<T> = Cursor(over: seq<T>, cur: nat)

  ghost predicate Opens<T>(w: World<T>, x: T)
    requires x in w
  {
    w[x].isContainer && w[x].items != []
  }

  ghost function Begin<T>(w: World<T>, root: T): Cursor<T>
    requires root in w
  {
    Cursor(if w[root].items == [] then [] else [root], 0)
  }

  ghost predicate Readable<T>(w: World<T>, it: Cursor<T>) {
    it.over != [] && it.over[0] in w && it.cur < |w[it.over[0]].items| && w[it.over[0]].items[it.cur] in w
  }

  ghost function Current<T>(w: World<T>, it: Cursor<T>): T
    requires Readable(w, it)
  {
    w[it.over[0]].items[it.cur]
  }

  ghost function Next<T>(w: World<T>, it: Cursor<T>): Cursor<T>
    requires Readable(w, it)
  {
    var x := Current(w, it);
    var over := if Opens(w, x) then it.over + [x] else it.over;
    if it.cur + 1 == |w[it.over[0]].items| then Cursor(over[1..], 0) else Cursor(over, it.cur + 1)
  }

  /** `x` is somewhere inside `c`, not `c` itself. */
  ghost predicate Below<T>(w: World<T>, x: T, c: T) {
    exists k: nat :: k > 0 && Climb(w, x, k) == Some(c)
  }

  ghost function Flat<T>(w: World<T>, s: seq<T>): seq<T>
    requires forall i :: 0 <= i < |s| ==> s[i] in w
  {
    if s == [] then [] else Flat(w, s[..|s| - 1]) + w[s[|s| - 1]].items
  }

  ghost function Containers<T>(w: World<T>, s: seq<T>): seq<T>
    requires forall i :: 0 <= i < |s| ==> s[i] in w
  {
    if s == [] then []
    else Containers(w, s[..|s| - 1]) + if Opens(w, s[|s| - 1]) then [s[|s| - 1]] else []
  }

  ghost predicate Known<T>(w: World<T>, s: seq<T>) {
    forall i :: 0 <= i < |s| ==> s[i] in w
  }

  /** What was read: all items of the closed containers and those before the cursor. */
  ghost predicate SeenOk<T>(w: World<T>, it: Cursor<T>, closed: seq<T>, seen: seq<T>)
    requires Known(w, closed) && Known(w, it.over)
  {
    && (it.over != [] ==> it.cur < |w[it.over[0]].items|)
    && seen == Flat(w, closed) + (if it.over == [] then [] else w[it.over[0]].items[..it.cur])
  }

  /** The containers met so far, in order: the closed ones, then the queue. */
  ghost predicate QueueOk<T>(w: World<T>, root: T, it: Cursor<T>, closed: seq<T>, seen: seq<T>)
    requires root in w && Known(w, seen)
  {
    closed + it.over == Begin(w, root).over + Containers(w, seen)
  }

  ghost predicate OnceBelow<T>(w: World<T>, root: T, seen: seq<T>) {
    NoDup(seen) && forall i :: 0 <= i < |seen| ==> Below(w, seen[i], root)
  }

  /** After the items of `seen` were read: `closed` are the containers read to their end. */
  ghost predicate Walking<T>(w: World<T>, root: T, it: Cursor<T>, closed: seq<T>, seen: seq<T>) {
    && root in w && Known(w, closed) && Known(w, it.over) && Known(w, seen)
    && SeenOk(w, it, closed, seen)
    && QueueOk(w, root, it, closed, seen)
    && OnceBelow(w, root, seen)
  }

  ghost function Closed<T>(it: Cursor<T>, closed: seq<T>, last: bool): seq<T>
    requires it.over != []
  {
    if last then closed + [it.over[0]] else closed
  }

  lemma {:induction false} FlatParent<T>(w: World<T>, s: seq<T>, x: T)
    requires Known(w, s) && Linked(w) && x in Flat(w, s)
    ensures x in w && w[x].parent.Some? && w[x].parent.value in s
  {
    var n := |s| - 1;
    assert LinkedAt(w, s[n]);
    if x !in w[s[n]].items { FlatParent(w, s[..n], x); }
  }

  lemma {:induction false} FlatHas<T>(w: World<T>, s: seq<T>, i: nat, x: T)
    requires Known(w, s) && i < |s| && x in w[s[i]].items
    ensures x in Flat(w, s)
  {
    if i < |s| - 1 { FlatHas(w, s[..|s| - 1], i, x); }
  }

  lemma {:induction false} ContainersHas<T>(w: World<T>, s: seq<T>, x: T)
    requires Known(w, s)
    ensures x in Containers(w, s) <==> x in s && Opens(w, x)
  {
    if s != [] {
      ContainersHas(w, s[..|s| - 1], x);
      assert s == s[..|s| - 1] + [s[|s| - 1]];
    }
  }

  lemma {:induction false} ContainersNoDup<T>(w: World<T>, s: seq<T>)
    requires Known(w, s) && NoDup(s)
    ensures NoDup(Containers(w, s))
  {
    if s != [] {
      ContainersNoDup(w, s[..|s| - 1]);
      ContainersHas(w, s[..|s| - 1], s[|s| - 1]);
    }
  }

  lemma {:induction false} BelowNotSelf<T>(w: World<T>, x: T, c: T)
    requires Grounded(w) && Below(w, x, c)
    ensures x != c
  {
    var k: nat :| k > 0 && Climb(w, x, k) == Some(c);
    if x == c { NoCycle(w, x, k); }
  }

  lemma {:induction false} OpenedNoDup<T>(w: World<T>, root: T, seen: seq<T>)
    requires Grounded(w) && root in w && Known(w, seen) && NoDup(seen)
    requires forall i :: 0 <= i < |seen| ==> Below(w, seen[i], root)
    ensures NoDup(Begin(w, root).over + Containers(w, seen))
  {
    ContainersNoDup(w, seen);
    ContainersHas(w, seen, root);
    if root in seen {
      var i :| 0 <= i < |seen| && seen[i] == root;
      BelowNotSelf(w, seen[i], root);
    }
  }

  lemma {:induction false} WalkBegins<T>(w: World<T>, root: T)
    requires Sound(w) && root in w
    ensures Walking(w, root, Begin(w, root), [], [])
  {
  }

  lemma {:induction false} NoDupSplit<T>(a: seq<T>, b: seq<T>)
    requires NoDup(a + b)
    ensures forall i :: 0 <= i < |b| ==> b[i] !in a
  {
    forall i, j | 0 <= i < |b| && 0 <= j < |a| ensures a[j] != b[i] {
      assert (a + b)[j] != (a + b)[|a| + i];
    }
  }

  /** The item under the cursor is inside the root and was not read before. */
  lemma {:induction false} CurrentIsNew<T>(w: World<T>, root: T, it: Cursor<T>, closed: seq<T>, seen: seq<T>)
    requires Sound(w) && Walking(w, root, it, closed, seen) && it.over != []
    ensures Readable(w, it) && Current(w, it) !in seen && Below(w, Current(w, it), root)
  {
    var c := it.over[0];
    assert LinkedAt(w, c);
    var x := w[c].items[it.cur];
    OpenedNoDup(w, root, seen);
    assert (closed + it.over)[|closed|] == c;
    NoDupSplit(closed, it.over);
    if x in Flat(w, closed) {
      FlatParent(w, closed, x);
    }
    assert c in Begin(w, root).over + Containers(w, seen);
    assert Climb(w, x, 1) == Climb(w, c, 0) == Some(c);
    if c != root {
      ContainersHas(w, seen, c);
      var i :| 0 <= i < |seen| && seen[i] == c;
      var k: nat :| k > 0 && Climb(w, c, k) == Some(root);
      ClimbAdd(w, x, c, 1, k);
    }
  }

  lemma {:induction false} ContainersSnoc<T>(w: World<T>, s: seq<T>, x: T)
    requires Known(w, s) && x in w
    ensures Containers(w, s + [x]) == Containers(w, s) + if Opens(w, x) then [x] else []
  {
    assert (s + [x])[..|s|] == s;
  }

  lemma {:induction false} FlatSnoc<T>(w: World<T>, s: seq<T>, c: T)
    requires Known(w, s) && c in w
    ensures Flat(w, s + [c]) == Flat(w, s) + w[c].items
  {
    assert (s + [c])[..|s|] == s;
  }

  lemma {:induction false} SliceGrows<T>(a: seq<T>, items: seq<T>, k: nat)
    requires k < |items|
    ensures a + items[..k] + [items[k]] == if k + 1 == |items| then a + items else a + items[..k + 1]
  {
    assert items[..k] + [items[k]] == items[..k + 1];
    if k + 1 == |items| { assert items[..k + 1] == items; }
    assert a + items[..k] + [items[k]] == a + (items[..k] + [items[k]]);
  }

  lemma {:induction false} QueueShifts<T>(closed: seq<T>, over: seq<T>, x: T, b: seq<T>, s: seq<T>)
    requires over != [] && closed + over == b + s
    ensures closed + (over + [x]) == b + (s + [x])
    ensures (closed + [over[0]]) + over[1..] == closed + over
    ensures (closed + [over[0]]) + (over + [x])[1..] == closed + (over + [x])
  {
    assert closed + (over + [x]) == (closed + over) + [x];
    assert b + (s + [x]) == (b + s) + [x];
    assert over == [over[0]] + over[1..];
    assert (over + [x])[1..] == over[1..] + [x];
  }

  lemma {:induction false} SeenAtEnd<T>(w: World<T>, it: Cursor<T>, closed: seq<T>, seen: seq<T>, over: seq<T>)
    requires Known(w, closed) && Known(w, it.over) && Readable(w, it) && SeenOk(w, it, closed, seen)
    requires it.cur + 1 == |w[it.over[0]].items| && Known(w, over)
    requires over != [] ==> w[over[0]].items != []
    ensures Known(w, closed + [it.over[0]])
    ensures SeenOk(w, Cursor(over, 0), closed + [it.over[0]], seen + [Current(w, it)])
  {
    SliceGrows(Flat(w, closed), w[it.over[0]].items, it.cur);
    FlatSnoc(w, closed, it.over[0]);
    assert Flat(w, closed + [it.over[0]]) + [] == seen + [Current(w, it)];
  }

  lemma {:induction false} SeenGrows<T>(w: World<T>, it: Cursor<T>, closed: seq<T>, seen: seq<T>)
    requires Known(w, closed) && Known(w, it.over) && Readable(w, it) && SeenOk(w, it, closed, seen)
    requires Next(w, it).over != [] ==> Next(w, it).over[0] in w && w[Next(w, it).over[0]].items != []
    ensures var closed' := Closed(it, closed, it.cur + 1 == |w[it.over[0]].items|);
            Known(w, closed') && Known(w, Next(w, it).over)
            && SeenOk(w, Next(w, it), closed', seen + [Current(w, it)])
  {
    if it.cur + 1 == |w[it.over[0]].items| {
      SeenAtEnd(w, it, closed, seen, Next(w, it).over);
    } else {
      SliceGrows(Flat(w, closed), w[it.over[0]].items, it.cur);
    }
  }

  lemma {:induction false} QueueGrows<T>(w: World<T>, root: T, it: Cursor<T>, closed: seq<T>, seen: seq<T>)
    requires root in w && Known(w, seen) && Readable(w, it) && QueueOk(w, root, it, closed, seen)
    ensures Known(w, seen + [Current(w, it)])
    ensures QueueOk(w, root, Next(w, it), Closed(it, closed, it.cur + 1 == |w[it.over[0]].items|),
                    seen + [Current(w, it)])
  {
    ContainersSnoc(w, seen, Current(w, it));
    QueueShifts(closed, it.over, Current(w, it), Begin(w, root).over, Containers(w, seen));
  }

  lemma {:induction false} OnceGrows<T>(w: World<T>, root: T, seen: seq<T>, x: T)
    requires OnceBelow(w, root, seen) && x !in seen && Below(w, x, root)
    ensures OnceBelow(w, root, seen + [x])
  {
  }

  lemma {:induction false} WalkAdvances<T>(w: World<T>, root: T, it: Cursor<T>, closed: seq<T>, seen: seq<T>)
    requires Walking(w, root, it, closed, seen) && Readable(w, it)
    requires Current(w, it) !in seen && Below(w, Current(w, it), root)
    ensures Walking(w, root, Next(w, it), Closed(it, closed, it.cur + 1 == |w[it.over[0]].items|),
                    seen + [Current(w, it)])
  {
    NextOpens(w, root, it, closed, seen);
    SeenGrows(w, it, closed, seen);
    QueueGrows(w, root, it, closed, seen);
    OnceGrows(w, root, seen, Current(w, it));
  }

  lemma {:induction false} QueuedOpens<T>(w: World<T>, root: T, it: Cursor<T>, closed: seq<T>, seen: seq<T>, d: T)
    requires root in w && Known(w, seen) && QueueOk(w, root, it, closed, seen) && |it.over| > 1 && d == it.over[1]
    ensures d in w && w[d].items != []
  {
    assert (closed + it.over)[|closed| + 1] == d;
    ContainersHas(w, seen, d);
    assert d in Begin(w, root).over + Containers(w, seen);
  }

  lemma {:induction false} NextOpens<T>(w: World<T>, root: T, it: Cursor<T>, closed: seq<T>, seen: seq<T>)
    requires Walking(w, root, it, closed, seen) && Readable(w, it)
    ensures Next(w, it).over != [] ==> Next(w, it).over[0] in w && w[Next(w, it).over[0]].items != []
  {
    if |it.over| > 1 { QueuedOpens(w, root, it, closed, seen, it.over[1]); }
  }

  /** When the queue is empty every item inside the root has been read, once. */
  lemma {:induction false} WalkEnds<T>(w: World<T>, root: T, it: Cursor<T>, closed: seq<T>, seen: seq<T>)
    requires Sound(w) && Walking(w, root, it, closed, seen) && it.over == []
    ensures forall x :: x in w ==> (x in seen <==> Below(w, x, root))
  {
    forall x | x in w && Below(w, x, root) ensures x in seen {
      var k: nat :| k > 0 && Climb(w, x, k) == Some(root);
      WalkReaches(w, root, closed, seen, x, k);
    }
    forall x | x in seen ensures Below(w, x, root) {
      var i :| 0 <= i < |seen| && seen[i] == x;
    }
  }

  lemma {:induction false} WalkReaches<T>(w: World<T>, root: T, closed: seq<T>, seen: seq<T>, x: T, k: nat)
    requires Sound(w) && root in w && Known(w, closed) && Known(w, seen)
    requires seen == Flat(w, closed) && closed == Begin(w, root).over + Containers(w, seen)
    requires x in w && k > 0 && Climb(w, x, k) == Some(root)
    ensures x in seen
  {
    var p := w[x].parent.value;
    assert LinkedAt(w, x);
    if k > 1 { WalkReaches(w, root, closed, seen, p, k - 1); }
    ContainersHas(w, seen, p);
    assert p in closed;
    var i :| 0 <= i < |closed| && closed[i] == p;
    FlatHas(w, closed, i, x);
  }

  lemma {:induction false} NoDupBound<T>(s: seq<T>, all: set<T>)
    requires NoDup(s) && forall i :: 0 <= i < |s| ==> s[i] in all
    ensures |s| <= |all|
    ensures (forall x :: x in all ==> x in s) ==> |s| == |all|
  {
    if s == [] {
      if all != {} { var x :| x in all; assert x !in s; }
    } else {
      var n := |s| - 1;
      NoDupBound(s[..n], all - {s[n]});
      if forall x :: x in all ==> x in s {
        forall x | x in all - {s[n]} ensures x in s[..n] { assert x in s; }
      }
    }
  }
}
