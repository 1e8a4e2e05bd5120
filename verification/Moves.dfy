/** Adding and moving items between containers. */
module Moves {
  import opened Wrappers
  import opened Forest
  import opened Traversal
  import opened Tally
  import opened Places
  import opened Items

  /** No stack is over 100 units; containers do not stack. */
  ghost predicate Stacked(w: World<Item>) {
    forall x {:trigger w[x]} :: x in w ==> w[x].count <= 100 && (w[x].isContainer ==> !w[x].kind.stackable)
  }

  /** No container holds more items than it has slots. */
  ghost predicate Roomy(w: World<Item>) {
    forall c {:trigger w[c]} :: c in w && w[c].isContainer ==> |w[c].items| <= c.maxSize
  }

  /** What a world is known to keep to: nothing, the size of stacks, or that and the number of slots. */
  datatype Bounds = Any | Stacks | Slots

  ghost predicate Tidy(w: World<Item>, b: Bounds) {
    (!b.Any? ==> Stacked(w)) && (b.Slots? ==> Roomy(w))
  }

  /** Without a position units aim at the first stack of their kind that is not full; a position
      without one, and an item that does not stack, aims at nothing. */
  lemma {:induction false} AimsAtFirst(w: World<Item>, c: Item, x: Item, flags: Flags, j: nat)
    requires Linked(w) && c in w && c.unlocked && x in w && w[x].parent == None && !flags.ignoreAutoStack
    requires j <= |w[c].items| && forall i :: 0 <= i < |w[c].items| ==> w[c].items[i] in w
    requires w[x].kind.stackable ==>
               forall i :: 0 <= i < j ==> w[w[c].items[i]].kind != w[x].kind || w[w[c].items[i]].count >= 100
    requires j < |w[c].items| ==>
               w[x].kind.stackable && w[w[c].items[j]].kind == w[x].kind && w[w[c].items[j]].count < 100
    ensures Destination(w, c, -1, x, flags)
            == if j < |w[c].items| then Target(c, j, Some(w[c].items[j])) else Target(c, -1, None)
  {
    assert LinkedAt(w, c);
    if j < |w[c].items| { assert StacksWith(w, w[c].items[j], x); }
  }

  /** At a position with a stack of their kind that is not full units aim at it, at one with a container
      any item aims into that. */
  lemma {:induction false} AimsAtPosition(w: World<Item>, c: Item, x: Item, flags: Flags, j: nat, y: Item)
    requires Linked(w) && c in w && c.unlocked && x in w && y in w && j < |w[c].items| && w[c].items[j] == y
    requires j < c.maxSize && j != 254 && j != 255
    ensures w[y].isContainer ==> Destination(w, c, j, x, flags) == Target(y, -1, None)
    ensures !w[y].isContainer && w[y].kind == w[x].kind && w[y].count < 100 ==>
              Destination(w, c, j, x, flags) == Target(c, j, Some(y))
  {
  }

  /** The answer of `internalAddItem`, which depends on the world before the call only. */
  ghost function AddVerdict(w: World<Item>, to: Item, index: int, x: Item, flags: Flags): ReturnValue
    requires Linked(w) && to in w && w[to].isContainer && x in w && index >= -1
  {
    DestinationFacts(w, to, index, x, flags);
    var d := Destination(w, to, index, x, flags);
    var add := MayAdd(w, d.container, d.index, x, flags);
    var most := MaxCount(w, to, -1, x, w[x].count, flags);
    if add != NoError then add
    else if flags.noLimit || (if w[x].kind.stackable then most >= w[x].count else most > 0) then NoError
    else ContainerNotEnoughRoom
  }

  lemma {:induction false} DestinationFacts(w: World<Item>, c: Item, index: int, x: Item, flags: Flags)
    requires Linked(w) && c in w && w[c].isContainer && x in w && index >= -1
    ensures var d := Destination(w, c, index, x, flags);
            && d.container in w && w[d.container].isContainer && d.index >= -1
            && (d.index >= 0 || d.item.Some? ==> d.container == c)
            && (flags.ignoreAutoStack && index == -1 ==> d.item == None)
            && (d.item.Some? ==>
                  0 <= d.index < |w[c].items| && w[c].items[d.index] == d.item.value && d.item.value in w)
            && (d.index < d.container.maxSize || !d.container.unlocked
                || (d.item.Some? && StacksWith(w, d.item.value, x)))
  {
    assert LinkedAt(w, c);
  }

  lemma {:induction false} NotAboveFromVerdict(w: World<Item>, c: Item, index: int, x: Item, flags: Flags)
    requires c in w && x in w && !flags.childIsOwner && MayAdd(w, c, index, x, flags) == NoError
    ensures !Above(w, x, c) && x != c
  {
    assert Climb(w, c, 0) == Some(c);
    assert !Below(w, c, x);
  }

  /** Items other than `x` keep kind and place and lose no unit, and those of other kinds than `kind` and
      full stacks keep their count. */
  ghost predicate Undisturbed(w: World<Item>, v: World<Item>, kind: Kind, x: Item) {
    forall y {:trigger v[y]} {:trigger y in v} :: y in w && y != x ==>
      y in v && v[y].kind == w[y].kind && v[y].parent == w[y].parent && w[y].count <= v[y].count
      && (w[y].kind != kind || w[y].count >= 100 ==> v[y].count == w[y].count)
  }

  lemma {:induction false} UndisturbedChain(w: World<Item>, v: World<Item>, u: World<Item>, kind: Kind, x: Item,
                                            y: Item)
    requires Undisturbed(w, v, kind, x) && Undisturbed(v, u, kind, y) && (y !in w || y == x)
    ensures Undisturbed(w, u, kind, x)
  {
  }

  /** No container holds more items than before, but `c` may hold `n` more. */
  ghost predicate GrownBy(w: World<Item>, v: World<Item>, c: Item, n: nat) {
    forall y {:trigger v[y]} {:trigger y in v} :: y in w ==> y in v && |v[y].items| <= |w[y].items| + if y == c then n
        else 0
  }

  lemma {:induction false} GrownChain(w: World<Item>, v: World<Item>, u: World<Item>, c: Item, n: nat, m: nat)
    requires GrownBy(w, v, c, n) && GrownBy(v, u, c, m)
    ensures GrownBy(w, u, c, n + m)
  {
  }

  /** The whole item goes into `to`.  `unit` is what one unit of it counts for. */
  method AddWhole(to: Item, index: int, item: Item, ghost world: set<Item>, ghost value: Kind -> int, ghost unit: int,
                  ghost b: Bounds)
    requires to in world && item in world && Sound(View(world)) && Tidy(View(world), b)
    requires to.isContainer && item.parent == null && !Above(View(world), item, to) && index < to.maxSize
    requires unit == value(item.kind) && (b.Slots? ==> |to.itemlist| < to.maxSize)
    modifies world
    ensures Sound(View(world)) && Tidy(View(world), b)
    ensures View(world) == InsertAt(old(View(world)), to, 0, item)
    ensures PutFirst(old(View(world)), View(world), to, item)
    ensures HeldChange(old(View(world)), View(world), to, unit * old(item.count), value)
    ensures Undisturbed(old(View(world)), View(world), old(item.kind), item)
    ensures GrownBy(old(View(world)), View(world), to, 1)
  {
    ghost var w := View(world);
    to.AddThing(index, item, world);
    HeldInsert(w, to, 0, item, value);
    AddedTidy(w, to, item, b);
    AddedUndisturbed(w, to, item);
    InsertPuts(w, to, item);
  }

  lemma {:induction false} AddedUndisturbed(w: World<Item>, c: Item, x: Item)
    requires c in w && x in w
    ensures Undisturbed(w, InsertAt(w, c, 0, x), w[x].kind, x) && GrownBy(w, InsertAt(w, c, 0, x), c, 1)
  {
  }

  /** A stack that grows to no more than a hundred. */
  lemma {:induction false} CountedGrown(w: World<Item>, v: World<Item>, y: Item, count: nat, kind: Kind, x: Item,
                                        c: Item)
    requires Counted(w, v, y, count) && w[y].kind == kind && w[y].count <= count <= 100
    ensures Undisturbed(w, v, kind, x) && GrownBy(w, v, c, 0)
  {
  }

  /** `n` more units on a stack that `to` holds. */
  method Merge(to: Item, toItem: Item, ghost j: nat, n: nat, ghost world: set<Item>, ghost value: Kind -> int,
               ghost unit: int, ghost b: Bounds)
    requires to in world && toItem in world && Sound(View(world)) && Tidy(View(world), b)
    requires j < |to.itemlist| && to.itemlist[j] == toItem && toItem.count + n <= 100
    requires unit == value(toItem.kind)
    modifies world
    ensures Sound(View(world)) && Tidy(View(world), b)
    ensures View(world) == SetAt(old(View(world)), to, j, old(View(world))[toItem].kind,
              old(View(world))[toItem].count + n)
    ensures HeldChange(old(View(world)), View(world), to, unit * n, value)
  {
    ghost var w := View(world);
    assert w[toItem] == toItem.AsNode() && w[to] == to.AsNode();
    PutOnStack(to, toItem, j, n, world);
    MergeFacts(w, View(world), to, j, toItem, n, value, unit, b);
  }

  lemma {:induction false} MergeFacts(w: World<Item>, v: World<Item>, c: Item, j: nat, x: Item, n: nat,
                                      value: Kind -> int, unit: int, b: Bounds)
    requires Sound(w) && Sound(v) && Tidy(w, b) && c in w && j < |w[c].items| && w[c].items[j] == x && x in w
    requires unit == value(w[x].kind) && w[x].count + n <= 100 && v == SetAt(w, c, j, w[x].kind, w[x].count + n)
    ensures Tidy(v, b) && HeldChange(w, v, c, unit * n, value)
  {
    SetTidy(w, c, j, x, w[x].count + n, b);
    MergeHeld(w, c, j, x, n, value, unit);
  }

  method PutOnStack(to: Item, toItem: Item, ghost j: nat, n: nat, ghost world: set<Item>)
    requires to in world && toItem in world && Sound(View(world))
    requires j < |to.itemlist| && to.itemlist[j] == toItem && toItem.count + n <= 100
    modifies world
    ensures Sound(View(world))
    ensures View(world) == SetAt(old(View(world)), to, j, old(View(world))[toItem].kind,
              old(View(world))[toItem].count + n)
  {
    assert (toItem.count + n) % 256 == toItem.count + n;
    to.UpdateThing(toItem, toItem.kind, toItem.count + n, world);
  }

  lemma {:induction false} AddedTidy(w: World<Item>, c: Item, x: Item, b: Bounds)
    requires c in w && x in w && Tidy(w, b) && (b.Slots? ==> |w[c].items| < c.maxSize)
    ensures Tidy(InsertAt(w, c, 0, x), b)
  {
  }

  lemma {:induction false} MergeHeld(w: World<Item>, c: Item, j: nat, x: Item, n: nat, value: Kind -> int, unit: int)
    requires Sound(w) && c in w && j < |w[c].items| && w[c].items[j] == x && x in w && unit == value(w[x].kind)
    ensures var v := SetAt(w, c, j, w[x].kind, w[x].count + n);
            Linked(v) && HeldChange(w, v, c, unit * n, value)
  {
    Distribute(unit, w[x].count, n);
    HeldSet(w, c, j, w[x].count + n, unit * n, value);
  }

  lemma {:induction false} Distribute(a: int, b: int, c: int)
    ensures a * (b + c) == a * b + a * c
  {
  }

  lemma {:induction false} SetTidy(w: World<Item>, c: Item, j: nat, x: Item, count: nat, b: Bounds)
    requires c in w && j < |w[c].items| && w[c].items[j] == x && x in w && Tidy(w, b) && count <= 100
    ensures Tidy(SetAt(w, c, j, w[x].kind, count), b)
  {
  }

  lemma {:induction false} ChainHeld(w: World<Item>, v: World<Item>, u: World<Item>, c: Item, d: int, e: int,
                                     value: Kind -> int)
    requires Linked(w) && Linked(v) && Linked(u) && HeldChange(w, v, c, d, value) && HeldChange(v, u, c, e, value)
    requires c in w
    ensures HeldChange(w, u, c, d + e, value)
  {
  }

  lemma {:induction false} ChainUnits(w: World<Item>, v: World<Item>, u: World<Item>, c: Item, unit: int, n: nat,
                                      m: nat, sum: nat, value: Kind -> int)
    requires Linked(w) && Linked(v) && Linked(u) && c in w && sum == n + m
    requires HeldChange(w, v, c, unit * n, value) && HeldChange(v, u, c, unit * m, value)
    ensures HeldChange(w, u, c, unit * sum, value)
  {
    Distribute(unit, n, m);
    ChainHeld(w, v, u, c, unit * n, unit * m, value);
  }

  /** What a fresh item changes for the questions asked about it: nothing holds it or is in it. */
  lemma {:induction false} FreshMayAdd(w: World<Item>, c: Item, x: Item)
    requires Linked(w) && c in w && x in w && c != x && w[x].parent == None && w[x].items == []
    ensures !Below(w, c, x)
  {
    if Below(w, c, x) {
      var k: nat :| k > 0 && Climb(w, c, k) == Some(x);
      ClimbPrior(w, c, x, k);
    }
  }

  lemma {:induction false} ClimbPrior(w: World<Item>, c: Item, x: Item, k: nat)
    requires Linked(w) && x in w && k > 0 && Climb(w, c, k) == Some(x)
    ensures w[x].items != []
    decreases k
  {
    assert LinkedAt(w, c);
    if k > 1 { ClimbPrior(w, w[c].parent.value, x, k - 1); }
    else { assert Climb(w, w[c].parent.value, 0) == Some(x); }
  }

  lemma {:induction false} AboveOrBelow(w: World<Item>, a: Item, c: Item)
    requires c in w
    ensures Above(w, a, c) <==> a == c || Below(w, c, a)
  {
    assert Climb(w, c, 0) == Some(c);
    if Above(w, a, c) && a != c {
      var k: nat :| Climb(w, c, k) == Some(a);
      assert k > 0;
    }
  }

  /** The room on the stacks of one kind. */
  ghost function KindSlack(w: World<Item>, s: seq<Item>, kind: Kind): nat
    requires forall i :: 0 <= i < |s| ==> s[i] in w
  {
    if s == [] then 0
    else (if w[s[0]].kind == kind && w[s[0]].count < 100 then 100 - w[s[0]].count else 0) + KindSlack(w, s[1..], kind)
  }

  lemma {:induction false} SlackIsKindSlack(w: World<Item>, c: Item, s: seq<Item>, x: Item, flags: Flags)
    requires c in w && x in w && x !in s && forall i :: 0 <= i < |s| ==> s[i] in w
    requires MayAdd(w, c, 0, x, flags) == NoError
    ensures Slack(w, c, s, x, flags) == KindSlack(w, s, w[x].kind)
  {
    if s != [] { SlackIsKindSlack(w, c, s[1..], x, flags); }
  }

  /** Merging `n` units takes exactly `n` off the room on the stacks. */
  lemma {:induction false} KindSlackMerge(w: World<Item>, v: World<Item>, s: seq<Item>, y: Item, n: nat)
    requires NoDup(s) && y in w && w[y].count < 100 && n <= 100 - w[y].count
    requires forall i :: 0 <= i < |s| ==> s[i] in w && s[i] in v && v[s[i]].kind == w[s[i]].kind
                                          && v[s[i]].count == w[s[i]].count + if s[i] == y then n else 0
    ensures KindSlack(v, s, w[y].kind) == KindSlack(w, s, w[y].kind) - if y in s then n else 0
  {
    if s != [] {
      KindSlackMerge(w, v, s[1..], y, n);
      assert s == [s[0]] + s[1..];
      assert y in s <==> y == s[0] || y in s[1..];
    }
  }

  lemma {:induction false} KindSlackSame(w: World<Item>, v: World<Item>, s: seq<Item>, kind: Kind)
    requires forall i :: 0 <= i < |s| ==>
               s[i] in w && s[i] in v && v[s[i]].kind == w[s[i]].kind && v[s[i]].count == w[s[i]].count
    ensures KindSlack(v, s, kind) == KindSlack(w, s, kind)
  {
    if s != [] { KindSlackSame(w, v, s[1..], kind); }
  }

  lemma {:induction false} KindSlackNone(w: World<Item>, s: seq<Item>, x: Item)
    requires x in w && x !in s && forall i :: 0 <= i < |s| ==> s[i] in w && !StacksWith(w, s[i], x)
    ensures KindSlack(w, s, w[x].kind) == 0
  {
    if s != [] { KindSlackNone(w, s[1..], x); }
  }

  lemma {:induction false} KindSlackSome(w: World<Item>, s: seq<Item>, x: Item, j: nat)
    requires x in w && j < |s| && (forall i :: 0 <= i < |s| ==> s[i] in w) && StacksWith(w, s[j], x)
    ensures KindSlack(w, s, w[x].kind) > 0
  {
    if j > 0 { KindSlackSome(w, s[1..], x, j - 1); }
  }

  /** The room on the stacks is that on the other stacks of the kind. */
  lemma {:induction false} SlackIsOthers(w: World<Item>, c: Item, s: seq<Item>, x: Item, flags: Flags)
    requires c in w && x in w && NoDup(s) && forall i :: 0 <= i < |s| ==> s[i] in w
    requires MayAdd(w, c, 0, x, flags) == NoError
    ensures forall i :: 0 <= i < |Less(s, x)| ==> Less(s, x)[i] in w
    ensures Slack(w, c, s, x, flags) == KindSlack(w, Less(s, x), w[x].kind)
  {
    if s != [] {
      if s[0] == x { SlackIsKindSlack(w, c, s[1..], x, flags); }
      else { SlackIsOthers(w, c, s[1..], x, flags); }
    }
  }

  /** What a container takes of `x`: a hundred units for each free slot and what the other stacks of the
      kind have room for, or with a position the stack there; of what does not stack as many as slots. */
  lemma {:induction false} RoomIs(w: World<Item>, c: Item, index: int, x: Item, amount: nat, flags: Flags)
    requires Linked(w) && c in w && x in w && index >= -1 && !flags.noLimit && MayAdd(w, c, index, x, flags) == NoError
    ensures forall y :: y in w[c].items ==> y in w
    ensures forall y :: y in Less(w[c].items, x) ==> y in w
    ensures var items := w[c].items;
            var slots := if |items| < c.maxSize then c.maxSize - |items| else 0;
            var slack := if index == -1 then KindSlack(w, Less(items, x), w[x].kind)
                         else if index < |items| && w[items[index]].kind == w[x].kind && w[items[index]].count <= 100
                         then 100 - w[items[index]].count else 0;
            MaxCount(w, c, index, x, amount, flags) == if w[x].kind.stackable then 100 * slots + slack else slots
  {
    assert LinkedAt(w, c);
    if index == -1 { SlackIsOthers(w, c, w[c].items, x, flags); }
    else { LessIn(w[c].items, x); }
  }

  /** When a loose item is accepted without a position. */
  lemma {:induction false} AcceptedExactly(w: World<Item>, c: Item, x: Item, flags: Flags)
    requires Sound(w) && c in w && w[c].isContainer && x in w && w[x].parent == None && !flags.childIsOwner
    ensures forall y :: y in w[c].items ==> y in w
    ensures AddVerdict(w, c, -1, x, flags) == NoError <==>
            var n, items := w[x], w[c].items;
            var slots := if |items| < c.maxSize then c.maxSize - |items| else 0;
            var slack := KindSlack(w, items, n.kind);
            && c.unlocked && n.kind.pickupable && !n.kind.storeItem && !Above(w, x, c)
            && (flags.noLimit
                || ((slots > 0 || (n.kind.stackable && !flags.ignoreAutoStack && slack > 0))
                    && (n.kind.stackable ==> n.count <= 100 * slots + slack)))
  {
    assert LinkedAt(w, c);
    var items := w[c].items;
    assert x !in items;
    AboveOrBelow(w, x, c);
    NoIndexNoDescent(w, c, x, flags);
    var j := FirstStack(w, items, x, 0);
    if j < |items| { KindSlackSome(w, items, x, j); } else { KindSlackNone(w, items, x); }
    if MayAdd(w, c, 0, x, flags) == NoError { SlackIsKindSlack(w, c, items, x, flags); }
  }

  /** `c` has room for `count` units of a new item. */
  ghost predicate HasRoomFor(w: World<Item>, c: Item, kind: Kind, count: nat, flags: Flags)
    requires Linked(w) && c in w
  {
    assert LinkedAt(w, c);
    && c.unlocked && kind.pickupable && !kind.storeItem
    && (flags.noLimit || FreeSlots(w, c) * 100 + KindSlack(w, w[c].items, kind) >= count)
  }

  lemma {:induction false} RoomAfterMerge(w: World<Item>, c: Item, x: Item, j: nat, y: Item, n: nat, flags: Flags)
    requires Sound(w) && c in w && x in w && w[x].parent == None && j < |w[c].items| && w[c].items[j] == y && y in w
    requires w[y].kind == w[x].kind && w[y].count < 100 && n <= 100 - w[y].count
    requires n <= w[x].count && w[x].kind.stackable && !flags.childIsOwner && MayAdd(w, c, j, x, flags) == NoError
    requires flags.noLimit || MaxCount(w, c, -1, x, w[x].count, flags) >= w[x].count
    ensures var v := SetAt(w, c, j, w[y].kind, w[y].count + n);
            Linked(v) && HasRoomFor(v, c, w[x].kind, w[x].count - n, flags)
  {
    var items := w[c].items;
    var v := SetAt(w, c, j, w[y].kind, w[y].count + n);
    SetSound(w, c, j, w[y].kind, w[y].count + n);
    assert LinkedAt(w, c);
    if !flags.noLimit {
      SlackIsKindSlack(w, c, items, x, flags);
      KindSlackMerge(w, v, items, y, n);
    }
  }

  /** A new item that the container has room for is accepted. */
  lemma {:induction false} FreshFits(v: World<Item>, u: World<Item>, c: Item, x: Item, flags: Flags)
    requires Linked(v) && Linked(u) && c in v && v[c].isContainer && Extended(v, u, x)
    requires u[x].kind.stackable && u[x].count > 0 && !flags.ignoreAutoStack && !flags.childIsOwner
    requires HasRoomFor(v, c, u[x].kind, u[x].count, flags)
    ensures AddVerdict(u, c, -1, x, flags) == NoError
  {
    assert LinkedAt(v, c) && LinkedAt(u, c);
    FreshMayAdd(u, c, x);
    KindSlackSame(v, u, v[c].items, u[x].kind);
    if !flags.noLimit { SlackIsKindSlack(u, c, u[c].items, x, flags); }
    if FirstStack(u, u[c].items, x, 0) == |u[c].items| {
      KindSlackNone(u, u[c].items, x);
    }
  }

  /** A new item that is accepted is one that the container has room for. */
  lemma {:induction false} FreshFitsOnly(v: World<Item>, u: World<Item>, c: Item, x: Item, flags: Flags)
    requires Linked(v) && Linked(u) && c in v && v[c].isContainer && Extended(v, u, x)
    requires u[x].kind.stackable && !flags.childIsOwner && AddVerdict(u, c, -1, x, flags) == NoError
    ensures HasRoomFor(v, c, u[x].kind, u[x].count, flags)
  {
    assert LinkedAt(v, c) && LinkedAt(u, c);
    NoIndexNoDescent(u, c, x, flags);
    FreshMayAdd(u, c, x);
    KindSlackSame(v, u, v[c].items, u[x].kind);
    if !flags.noLimit { SlackIsKindSlack(u, c, u[c].items, x, flags); }
  }

  lemma {:induction false} ExtendedTidy(w: World<Item>, v: World<Item>, x: Item, b: Bounds)
    requires Tidy(w, b) && Extended(w, v, x) && (!b.Any? ==> v[x].count <= 100) && !v[x].isContainer
    ensures Tidy(v, b)
  {
  }

  /** A copy of `kind` with `count` units, loose and new. */
  method Clone(kind: Kind, count: nat, ghost world: set<Item>, ghost value: Kind -> int, ghost b: Bounds)
    returns (copy: Item, ghost world': set<Item>)
    requires Sound(View(world)) && Tidy(View(world), b) && (!b.Any? ==> count <= 100)
    ensures fresh(copy) && world' == world + {copy} && View(world) == old(View(world))
    ensures Extended(View(world), View(world'), copy) && !copy.isContainer
    ensures forall y :: y in world ==> !Above(View(world'), copy, y)
    ensures copy.kind == kind && copy.count == count && copy.parent == null
    ensures Sound(View(world')) && Tidy(View(world'), b) && HeldChange(View(world), View(world'), copy, 0, value)
  {
    copy := new Item(kind, count, false, 0, false);
    world' := world + {copy};
    assert View(world')[copy] == copy.AsNode();
    ExtendedSound(View(world), View(world'), copy, value);
    ExtendedTidy(View(world), View(world'), copy, b);
  }

  method CloneFor(ghost to: Item, kind: Kind, count: nat, ghost flags: Flags, ghost world: set<Item>,
                  ghost value: Kind -> int,
                  ghost b: Bounds)
    returns (copy: Item, ghost world': set<Item>)
    requires to in world && to.isContainer && Sound(View(world)) && Tidy(View(world), b) && 0 < count <= 100
    requires kind.stackable && !flags.childIsOwner && HasRoomFor(View(world), to, kind, count, flags)
    ensures fresh(copy) && world' == world + {copy} && View(world) == old(View(world))
    ensures copy.kind == kind && copy.count == count && copy.parent == null && copy !in world
    ensures Sound(View(world')) && Tidy(View(world'), b) && HeldChange(View(world), View(world'), copy, 0, value)
    ensures !flags.ignoreAutoStack ==> AddVerdict(View(world'), to, -1, copy, flags) == NoError
    ensures forall y :: y in world ==> View(world')[y] == View(world)[y]
  {
    copy, world' := Clone(kind, count, world, value, b);
    assert View(world')[copy] == copy.AsNode();
    if !flags.ignoreAutoStack {
      FreshFits(View(world), View(world'), to, copy, flags);
    }
  }

  /** An accepted item that finds no stack has a slot of its own. */
  lemma {:induction false} WholeHasSlot(w: World<Item>, to: Item, index: int, x: Item, flags: Flags)
    requires Sound(w) && to in w && w[to].isContainer && x in w && w[x].parent == None && index >= -1
    requires AddVerdict(w, to, index, x, flags) == NoError && !flags.noLimit && !flags.childIsOwner && w[x].count > 0
    requires index == -1 || !flags.ignoreAutoStack
    requires var y := Destination(w, to, index, x, flags).item;
             w[x].kind.stackable && y.Some? && y.value in w ==> w[y.value].kind != w[x].kind || w[y.value].count >= 100
    ensures var d := Destination(w, to, index, x, flags);
            d.container in w && |w[d.container].items| < d.container.maxSize
  {
    DestinationFacts(w, to, index, x, flags);
    var d := Destination(w, to, index, x, flags);
    assert LinkedAt(w, to);
    if d.container == to && d.index >= 0 && w[x].kind.stackable {
      assert x !in w[to].items;
      SlackIsKindSlack(w, to, w[to].items, x, flags);
      KindSlackNone(w, w[to].items, x);
    }
  }

  /** Adds a loose item to a container, on stacks that are there or on its own.  `added`
      units arrive; `remainder` are reported as lost. */
  method InternalAddItem(to: Item, item: Item, index: int, flags: Flags, test: bool,
                         ghost world: set<Item>, ghost value: Kind -> int, ghost b: Bounds)
    returns (r: ReturnValue, remainder: nat, ghost added: nat, ghost world': set<Item>)
    requires to in world && item in world && Sound(View(world)) && Tidy(View(world), b)
    requires to.isContainer && item.parent == null && index >= -1 && !flags.childIsOwner
    requires !b.Any? && (b.Slots? ==> !flags.noLimit && item.count > 0 && (index == -1 || !flags.ignoreAutoStack))
    modifies world
    ensures world <= world' && fresh(world' - world) && Sound(View(world')) && Tidy(View(world'), b)
    ensures r == AddVerdict(old(View(world)), to, index, item, flags)
    ensures r != NoError || test ==> added == remainder == 0 && world' == world && View(world) == old(View(world))
    ensures r == NoError && !test ==> added + remainder == old(View(world))[item].count
    ensures !flags.ignoreAutoStack ==> remainder == 0
    ensures r == NoError && !test ==>
              HeldChange(old(View(world)), View(world'),
                  Destination(old(View(world)), to, index, item, flags).container,
                         value(old(View(world))[item].kind) * added, value)
    ensures Undisturbed(old(View(world)), View(world'), old(item.kind), item)
    ensures GrownBy(old(View(world)), View(world'), Destination(old(View(world)), to, index, item, flags).container, 1)
    ensures r == NoError && !test ==>
              Arrived(old(View(world)), View(world'), Destination(old(View(world)), to, index, item, flags), item)
    decreases item.count, 4
  {
    remainder, added, world' := 0, 0, world;
    ghost var w := View(world);
    DestinationFacts(w, to, index, item, flags);
    var dest, at, toItem := to.QueryDestination(index, item, flags, world);
    r := dest.QueryAdd(at, item, flags, world);
    if r != NoError {
      return;
    }
    var maxCount;
    r, maxCount := to.QueryMaxCount(-1, item, item.count, flags, world);
    if r != NoError || test {
      return;
    }
    remainder, added, world' := AddAccepted(to, item, index, dest, at, toItem, maxCount, flags, world, value, b);
  }

  /** An accepted item goes on the stack that was found, or on its own. */
  method AddAccepted(to: Item, item: Item, ghost index: int, dest: Item, at: int, toItem: Item?, maxCount: nat,
                     flags: Flags,
                     ghost world: set<Item>, ghost value: Kind -> int, ghost b: Bounds)
    returns (remainder: nat, ghost added: nat, ghost world': set<Item>)
    requires to in world && item in world && Sound(View(world)) && Tidy(View(world), b)
    requires to.isContainer && item.parent == null && index >= -1 && !flags.childIsOwner
    requires !b.Any? && (b.Slots? ==> !flags.noLimit && item.count > 0 && (index == -1 || !flags.ignoreAutoStack))
    requires Destination(View(world), to, index, item, flags)
              == Target(dest, at, if toItem == null then None else Some(toItem as Item))
    requires AddVerdict(View(world), to, index, item, flags) == NoError
    requires maxCount == MaxCount(View(world), to, -1, item, item.count, flags)
    modifies world
    ensures world <= world' && fresh(world' - world) && Sound(View(world')) && Tidy(View(world'), b)
    ensures added + remainder == old(item.count) && (!flags.ignoreAutoStack ==> remainder == 0)
    ensures HeldChange(old(View(world)), View(world'), dest, value(old(item.kind)) * added, value)
    ensures Undisturbed(old(View(world)), View(world'), old(item.kind), item)
    ensures GrownBy(old(View(world)), View(world'), dest, 1)
    ensures Arrived(old(View(world)), View(world'), Destination(old(View(world)), to, index, item, flags), item)
    decreases item.count, 3
  {
    ghost var w := View(world);
    assert w[item] == item.AsNode() && w[to] == to.AsNode();
    DestinationFacts(w, to, index, item, flags);
    assert toItem != null ==> w[toItem] == toItem.AsNode();
    NotAboveFromVerdict(w, dest, at, item, flags);
    if b.Slots? && (item.kind.stackable && toItem != null && item.kind == toItem.kind ==> toItem.count >= 100) {
      WholeHasSlot(w, to, index, item, flags);
    }
    ghost var unit := value(item.kind);
    if item.kind.stackable && toItem != null && item.kind == toItem.kind {
      var m := if item.count < maxCount then item.count else maxCount;
      var n := if 100 - toItem.count < m then 100 - toItem.count else m;
      remainder, added, world' := AddByMerging(to, item, at, toItem, m, n, flags, world, value, unit, b);
    } else {
      remainder, added, world' := 0, item.count, world;
      AddWhole(dest, at, item, world, value, unit, b);
    }
  }

  /** `x` joins the stack `y`: all of it when there is room for it, else the stack is full then. */
  ghost predicate Joined(w: World<Item>, v: World<Item>, y: Item, x: Item) {
    && x in w && y in w && y in v
    && (if w[y].count + w[x].count <= 100 then Counted(w, v, y, w[y].count + w[x].count)
        else v[y].kind == w[y].kind && v[y].parent == w[y].parent && v[y].count == 100)
  }

  /** Where an added item goes: onto the aimed stack if that is of its kind and not full, else in front
      of all others. */
  ghost predicate Arrived(w: World<Item>, v: World<Item>, t: Target, x: Item) {
    && x in w && (t.item.Some? ==> t.item.value in w)
    && (if w[x].kind.stackable && t.item.Some? && w[t.item.value].kind == w[x].kind && w[t.item.value].count < 100
        then Joined(w, v, t.item.value, x) else w[x].count > 0 ==> PutFirst(w, v, t.container, x))
  }

  /** `n` units go to a stack that is already there, the rest is added on its own. */
  method AddByMerging(to: Item, item: Item, at: nat, toItem: Item, m: nat, n: nat, flags: Flags,
                      ghost world: set<Item>, ghost value: Kind -> int, ghost unit: int, ghost b: Bounds)
    returns (remainder: nat, ghost added: nat, ghost world': set<Item>)
    requires to in world && item in world && toItem in world && Sound(View(world)) && Tidy(View(world), b)
    requires to.isContainer && item.parent == null && !Above(View(world), item, to)
    requires !flags.childIsOwner && MayAdd(View(world), to, at, item, flags) == NoError
    requires flags.noLimit || MaxCount(View(world), to, -1, item, item.count, flags) >= item.count
    requires at < |to.itemlist| && to.itemlist[at] == toItem && item.kind == toItem.kind && item.kind.stackable
    requires m == item.count && n == (if 100 - toItem.count < m then 100 - toItem.count else m)
    requires (at < to.maxSize || toItem.count < 100) && unit == value(item.kind)
    requires !b.Any?
    requires b.Slots? ==>
               !flags.noLimit && !flags.ignoreAutoStack && (toItem.count >= 100 ==> |to.itemlist| < to.maxSize)
    modifies world
    ensures world <= world' && fresh(world' - world) && Sound(View(world')) && Tidy(View(world'), b)
    ensures added + remainder == m && (!flags.ignoreAutoStack ==> remainder == 0)
    ensures Merged(old(View(world)), View(world'), to, toItem, item, old(item.kind), unit * added, value)
    decreases item.count, 2
  {
    remainder, added, world' := 0, n, world;
    ghost var w := View(world);
    MergeSome(to, item, toItem, at, n, flags, world, value, unit, b);
    assert w[item] == old(item.AsNode()) && w[toItem] == old(toItem.AsNode());
    var count := m - n;
    if count > 0 {
      remainder, added, world' := AddBehind(to, item, at, toItem, n, count, flags, world, value, unit, b, w);
    } else {
      MergeDone(w, View(world), View(world), to, toItem, item, item.kind, unit, n, 0, value);
    }
  }

  /** The units that the stack `toItem` did not take. */
  method AddBehind(to: Item, item: Item, at: nat, ghost toItem: Item, ghost n: nat, count: nat, flags: Flags,
                   ghost world: set<Item>, ghost value: Kind -> int, ghost unit: int, ghost b: Bounds,
                   ghost w: World<Item>)
    returns (remainder: nat, ghost added: nat, ghost world': set<Item>)
    requires to in world && item in world && Sound(View(world)) && Tidy(View(world), b)
    requires to.isContainer && !flags.childIsOwner && item.kind.stackable && 0 < count <= item.count
    requires item.parent == null && !Above(View(world), item, to) && unit == value(item.kind)
    requires item.count != count ==> HasRoomFor(View(world), to, item.kind, count, flags)
    requires item.count == count ==> at < to.maxSize && (b.Slots? ==> |to.itemlist| < to.maxSize)
    requires !b.Any? && (b.Slots? ==> !flags.noLimit && !flags.ignoreAutoStack)
    requires Linked(w) && to in w && item in w && toItem in w && item != toItem && w[toItem].kind == item.kind
    requires Counted(w, View(world), toItem, w[toItem].count + n) && w[toItem].count + n <= 100
    requires HeldChange(w, View(world), to, unit * n, value) && w[item].count == item.count == n + count
    requires n == (if 100 - w[toItem].count < item.count then 100 - w[toItem].count else item.count)
    modifies world
    ensures world <= world' && fresh(world' - world) && Sound(View(world')) && Tidy(View(world'), b)
    ensures added + remainder == n + count && (!flags.ignoreAutoStack ==> remainder == 0)
    ensures Merged(w, View(world'), to, toItem, item, old(item.kind), unit * added, value)
    decreases item.count, 1
  {
    ghost var v, rest, kind := View(world), 0, item.kind;
    remainder, rest, world' := AddRemaining(to, item, at, count, flags, world, value, unit, b);
    added := n + rest;
    MergeDone(w, v, View(world'), to, toItem, item, kind, unit, n, rest, value);
  }

  /** `c` holds `diff` more, and what joined the stack `y`, or came first, is there. */
  ghost predicate Merged(w: World<Item>, u: World<Item>, c: Item, y: Item, x: Item, kind: Kind, diff: int,
                         value: Kind -> int)
    requires Linked(w) && Linked(u) && x in w && y in w
  {
    && HeldChange(w, u, c, diff, value) && Undisturbed(w, u, kind, x) && GrownBy(w, u, c, 1)
    && (if w[y].count < 100 then Joined(w, u, y, x) else w[x].count > 0 ==> PutFirst(w, u, c, x))
  }

  /** A loose item is not the stack in the container. */
  lemma {:induction false} MergedApart(w: World<Item>, c: Item, j: nat, x: Item, y: Item)
    requires Linked(w) && c in w && x in w
    ensures w[x].parent == None && j < |w[c].items| && w[c].items[j] == y ==> x != y
  {
    assert LinkedAt(w, c);
  }

  /** What the merge and the adding of the rest come to. */
  lemma {:induction false} MergeDone(w: World<Item>, v: World<Item>, u: World<Item>, c: Item, y: Item, x: Item,
                                     kind: Kind, unit: int, n: nat, rest: nat, value: Kind -> int)
    requires Linked(w) && Linked(v) && Linked(u) && c in w && x in w && y in w && x != y && w[y].kind == kind
    requires Counted(w, v, y, w[y].count + n) && w[y].count + n <= 100 && HeldChange(w, v, c, unit * n, value)
    requires n == (if 100 - w[y].count < w[x].count then 100 - w[y].count else w[x].count)
    requires if n == w[x].count then u == v && rest == 0 else
               && HeldChange(v, u, c, unit * rest, value) && Undisturbed(v, u, kind, x) && GrownBy(v, u, c, 1)
               && (n == 0 ==> PutFirst(v, u, c, x))
    ensures Merged(w, u, c, y, x, kind, unit * (n + rest), value)
  {
    CountedGrown(w, v, y, w[y].count + n, kind, x, c);
    if n < w[x].count {
      ChainUnits(w, v, u, c, unit, n, rest, n + rest, value);
      UndisturbedChain(w, v, u, kind, x, x);
      GrownChain(w, v, u, c, 0, 1);
      if n == 0 { PutAfterNothing(w, v, u, y, c, x); }
    }
  }

  /** A copy takes the remaining units, or the item itself when nothing was merged. */
  method AddRemaining(to: Item, item: Item, at: nat, count: nat, flags: Flags, ghost world: set<Item>,
                      ghost value: Kind -> int, ghost unit: int, ghost b: Bounds)
    returns (remainder: nat, ghost added: nat, ghost world': set<Item>)
    requires to in world && item in world && Sound(View(world)) && Tidy(View(world), b)
    requires to.isContainer && !flags.childIsOwner && item.kind.stackable && 0 < count <= item.count
    requires item.parent == null && !Above(View(world), item, to) && unit == value(item.kind)
    requires item.count != count ==> HasRoomFor(View(world), to, item.kind, count, flags)
    requires item.count == count ==> at < to.maxSize && (b.Slots? ==> |to.itemlist| < to.maxSize)
    requires !b.Any? && (b.Slots? ==> !flags.noLimit && !flags.ignoreAutoStack)
    modifies world
    ensures world <= world' && fresh(world' - world) && Sound(View(world')) && Tidy(View(world'), b)
    ensures added + remainder == count && (!flags.ignoreAutoStack ==> remainder == 0)
    ensures HeldChange(old(View(world)), View(world'), to, unit * added, value)
    ensures Undisturbed(old(View(world)), View(world'), old(item.kind), item)
    ensures GrownBy(old(View(world)), View(world'), to, 1)
    ensures old(item.count) == count ==> PutFirst(old(View(world)), View(world'), to, item)
    decreases item.count, 0
  {
    if item.count != count {
      remainder, added, world' := AddRest(to, item.kind, count, flags, world, value, unit, b, item);
    } else {
      remainder, added, world' := 0, count, world;
      AddWhole(to, at, item, world, value, unit, b);
    }
  }

  method MergeSome(to: Item, item: Item, toItem: Item, ghost j: nat, n: nat, flags: Flags, ghost world: set<Item>,
                   ghost value: Kind -> int, ghost unit: int, ghost b: Bounds)
    requires to in world && item in world && toItem in world && Sound(View(world)) && Tidy(View(world), b)
    requires j < |to.itemlist| && to.itemlist[j] == toItem && toItem.count + n <= 100 && n <= item.count
    requires item.kind == toItem.kind && item.kind.stackable && item.parent == null && !Above(View(world), item, to)
    requires !flags.childIsOwner && MayAdd(View(world), to, j, item, flags) == NoError && unit == value(item.kind)
    requires flags.noLimit || MaxCount(View(world), to, -1, item, item.count, flags) >= item.count
    modifies world
    ensures Sound(View(world)) && Tidy(View(world), b) && !Above(View(world), item, to)
    ensures HeldChange(old(View(world)), View(world), to, unit * n, value)
    ensures old(toItem.count) < 100 ==>
              HasRoomFor(View(world), to, old(View(world))[item].kind, old(View(world))[item].count - n, flags)
    ensures item.AsNode() == old(item.AsNode()) && to.itemlist == old(to.itemlist)
    ensures Counted(old(View(world)), View(world), toItem, old(toItem.count) + n) && item != toItem
  {
    ghost var w := View(world);
    assert w[item] == item.AsNode() && w[to] == to.AsNode() && w[toItem] == toItem.AsNode();
    MergedApart(w, to, j, item, toItem);
    Merge(to, toItem, j, n, world, value, unit, b);
    MergeSomeFacts(w, View(world), to, item, toItem, j, n, flags);
    assert View(world)[item] == item.AsNode();
    assert View(world)[to] == to.AsNode();
  }

  lemma {:induction false} MergeSomeFacts(w: World<Item>, v: World<Item>, c: Item, x: Item, y: Item, j: nat, n: nat,
                                          flags: Flags)
    requires Sound(w) && c in w && x in w && w[x].parent == None && j < |w[c].items| && w[c].items[j] == y && y in w
    requires w[y].kind == w[x].kind && w[y].count + n <= 100 && n <= w[x].count && w[x].kind.stackable
    requires !Above(w, x, c)
    requires !flags.childIsOwner && MayAdd(w, c, j, x, flags) == NoError
    requires flags.noLimit || MaxCount(w, c, -1, x, w[x].count, flags) >= w[x].count
    requires v == SetAt(w, c, j, w[y].kind, w[y].count + n)
    ensures v[x] == w[x] && v[c].items == w[c].items && !Above(v, x, c) && Linked(v)
    ensures Counted(w, v, y, w[y].count + n)
    ensures w[y].count < 100 ==> HasRoomFor(v, c, w[x].kind, w[x].count - n, flags)
  {
    SetSound(w, c, j, w[y].kind, w[y].count + n);
    if w[y].count < 100 { RoomAfterMerge(w, c, x, j, y, n, flags); }
    LooseUntouched(w, c, x, j, y, n);
    SetCounts(w, c, j, y, w[y].count + n);
  }

  lemma {:induction false} LooseUntouched(w: World<Item>, c: Item, x: Item, j: nat, y: Item, n: nat)
    requires Sound(w) && c in w && x in w && w[x].parent == None && j < |w[c].items| && w[c].items[j] == y && y in w
    requires !Above(w, x, c)
    ensures var v := SetAt(w, c, j, w[y].kind, w[y].count + n);
            v[x] == w[x] && v[c].items == w[c].items && !Above(v, x, c)
  {
    assert LinkedAt(w, c);
    SameParentsAbove(w, Restacked(w, y, w[y].kind, w[y].count + n), x, c);
    SameParentsAbove(w, SetAt(w, c, j, w[y].kind, w[y].count + n), x, c);
  }

  lemma {:induction false} NoIndexNoDescent(w: World<Item>, to: Item, x: Item, flags: Flags)
    requires Linked(w) && to in w && x in w
    ensures Destination(w, to, -1, x, flags).container == to
  {
  }

  /** The units that did not fit on the stack, as an item of their own. */
  method AddRest(to: Item, kind: Kind, count: nat, flags: Flags, ghost world: set<Item>, ghost value: Kind -> int,
                 ghost unit: int, ghost b: Bounds, ghost item: Item)
    returns (remainder: nat, ghost added: nat, ghost world': set<Item>)
    requires to in world && Sound(View(world)) && Tidy(View(world), b)
    requires to.isContainer && !flags.childIsOwner && kind.stackable && 0 < count <= 100
    requires HasRoomFor(View(world), to, kind, count, flags) && unit == value(kind)
    requires !b.Any? && (b.Slots? ==> !flags.noLimit && !flags.ignoreAutoStack)
    modifies world
    ensures world <= world' && fresh(world' - world) && Sound(View(world')) && Tidy(View(world'), b)
    ensures added + remainder == count && (!flags.ignoreAutoStack ==> remainder == 0)
    ensures HeldChange(old(View(world)), View(world'), to, unit * added, value)
    ensures Undisturbed(old(View(world)), View(world'), kind, item) && GrownBy(old(View(world)), View(world'), to, 1)
    decreases count, 6
  {
    ghost var v := View(world);
    var copy;
    copy, world' := CloneFor(to, kind, count, flags, world, value, b);
    remainder, added, world' := AddCopy(to, copy, flags, world', value, unit, b, item, v);
    assert world' - world == (world' - (world + {copy})) + {copy};
  }

  /** A copy is added to the world `v` that it is new to. */
  method AddCopy(to: Item, copy: Item, flags: Flags, ghost world: set<Item>, ghost value: Kind -> int,
                 ghost unit: int, ghost b: Bounds, ghost item: Item, ghost v: World<Item>)
    returns (remainder: nat, ghost added: nat, ghost world': set<Item>)
    requires to in world && copy in world && Sound(View(world)) && Tidy(View(world), b) && to.isContainer
    requires !flags.childIsOwner && copy.kind.stackable && 0 < copy.count <= 100 && copy.parent == null
    requires !b.Any? && (b.Slots? ==> !flags.noLimit && !flags.ignoreAutoStack) && unit == value(copy.kind)
    requires !flags.ignoreAutoStack ==> AddVerdict(View(world), to, -1, copy, flags) == NoError
    requires Linked(v) && to in v && copy !in v && HeldChange(v, View(world), copy, 0, value)
    requires forall y :: y in v ==> y in View(world) && View(world)[y] == v[y]
    modifies world
    ensures world <= world' && fresh(world' - world) && Sound(View(world')) && Tidy(View(world'), b)
    ensures added + remainder == old(copy.count) && (!flags.ignoreAutoStack ==> remainder == 0)
    ensures HeldChange(v, View(world'), to, unit * added, value)
    ensures Undisturbed(v, View(world'), old(copy.kind), item) && GrownBy(v, View(world'), to, 1)
    decreases copy.count, 5
  {
    ghost var u, kind := View(world), copy.kind;
    var count := copy.count;
    NoIndexNoDescent(u, to, copy, flags);
    assert u[copy] == copy.AsNode();
    var ret;
    ret, remainder, added, world' := InternalAddItem(to, copy, -1, flags, false, world, value, b);
    if ret != NoError {
      remainder := count;
    }
    RestDone(v, u, View(world'), to, copy, kind, item, unit, added, ret, value);
  }

  lemma {:induction false} RestDone(v: World<Item>, u: World<Item>, z: World<Item>, c: Item, x: Item, kind: Kind,
                                    item: Item, unit: int, added: nat, ret: ReturnValue, value: Kind -> int)
    requires Linked(v) && Linked(u) && Linked(z) && c in v && x !in v && HeldChange(v, u, x, 0, value)
    requires forall y :: y in v ==> y in u && u[y] == v[y]
    requires if ret == NoError
             then HeldChange(u, z, c, unit * added, value) && Undisturbed(u, z, kind, x) && GrownBy(u, z, c, 1)
             else z == u && added == 0
    ensures HeldChange(v, z, c, unit * added, value) && Undisturbed(v, z, kind, item) && GrownBy(v, z, c, 1)
  {
    RestHeld(v, u, z, c, x, unit, added, ret, value);
    RestUndisturbed(v, u, z, kind, item, x, ret, c);
  }

  lemma {:induction false} RestUndisturbed(v: World<Item>, u: World<Item>, z: World<Item>, kind: Kind, item: Item,
                                           copy: Item, ret: ReturnValue, c: Item)
    requires copy !in v && (forall y :: y in v ==> y in u && u[y] == v[y])
    requires if ret == NoError then Undisturbed(u, z, kind, copy) && GrownBy(u, z, c, 1) else z == u
    ensures Undisturbed(v, z, kind, item) && GrownBy(v, z, c, 1)
  {
  }

  lemma {:induction false} RestHeld(v: World<Item>, u: World<Item>, z: World<Item>, c: Item, x: Item, unit: int,
                                    added: nat,
                                    ret: ReturnValue, value: Kind -> int)
    requires Linked(v) && Linked(u) && Linked(z) && c in v && x !in v && HeldChange(v, u, x, 0, value)
    requires if ret == NoError then HeldChange(u, z, c, unit * added, value) else z == u && added == 0
    ensures HeldChange(v, z, c, unit * added, value)
  {
  }
}
