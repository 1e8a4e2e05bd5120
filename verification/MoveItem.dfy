/** Moving an item, or part of a stack, from one container to another. */
module MoveItem {
  import opened Wrappers
  import opened Forest
  import opened Traversal
  import opened Tally
  import opened Places
  import opened Items
  import opened Moves

  const MAP_MAX_LAYERS := 16

  /** `taken` left one container and `got` arrived in another; the rest keep what they hold. */
  ghost predicate Transferred(w: World<Item>, v: World<Item>, from: Item, dest: Item, taken: int, got: int,
                              value: Kind -> int)
    requires Linked(w) && Linked(v)
  {
    HeldShift(w, v, from, -taken, dest, got, value)
  }

  /** Moving changes the total over all containers by what did not arrive. */
  lemma {:induction false} TransferTotal(w: World<Item>, u: World<Item>, from: Item, dest: Item, taken: int, got: int,
                                         value: Kind -> int)
    requires Linked(w) && Linked(u) && from in w && dest in w && Transferred(w, u, from, dest, taken, got, value)
    ensures AllHeld(u, value) == AllHeld(w, value) - (taken - got)
  {
    ShiftTotal(w, u, from, -taken, dest, got, value);
  }

  /** Where an item finally goes, and with which flags: those of the caller do not survive a redirection. */
  datatype Route = Route(target: Target, flags: Flags)

  ghost function Routed(w: World<Item>, c: Item, index: int, x: Item, flags: Flags, layers: nat): (t: Route)
    requires Linked(w) && c in w && w[c].isContainer && x in w && index >= -1
    ensures t.target.container in w && w[t.target.container].isContainer && t.target.index >= -1
    decreases layers
  {
    DestinationFacts(w, c, index, x, flags);
    var d := Destination(w, c, index, x, flags);
    if d.container == c then Route(d, flags)
    else if layers <= 1 then Route(d, NO_FLAGS)
    else Routed(w, d.container, d.index, x, NO_FLAGS, layers - 1)
  }

  /** An item goes to the container around at 254, into the container that lies at the position, else to
      where it is put.  It is redirected once at most, so the bound on redirections is never reached. */
  lemma {:induction false} GoesTo(w: World<Item>, c: Item, index: int, x: Item, flags: Flags, layers: nat)
    requires Linked(w) && c in w && w[c].isContainer && x in w && index >= -1 && layers >= 2
    ensures forall y :: y in w[c].items ==> y in w
    ensures var t, items := Routed(w, c, index, x, flags, layers), w[c].items;
            && t.target.container
               == (if c.unlocked && index == 254 then w[c].parent.GetOr(c)
                   else if c.unlocked && index != 255 && 0 <= index < c.maxSize && index < |items|
                           && w[items[index]].isContainer
                   then items[index] else c)
            && t.flags == (if t.target.container == c then flags else NO_FLAGS)
  {
    assert LinkedAt(w, c);
    DestinationFacts(w, c, index, x, flags);
    var d := Destination(w, c, index, x, flags).container;
    if d != c {
      assert LinkedAt(w, d);
    }
  }

  /** Where the item finally goes: at most sixteen redirections. */
  method FindDestination(to: Item, index: int, item: Item, flags: Flags, ghost world: set<Item>)
    returns (dest: Item, at: int, toItem: Item?, flags': Flags)
    requires to in world && item in world && to.isContainer && Sound(View(world)) && index >= -1
    ensures dest in world && dest.isContainer && Aimed(View(world), dest, at, toItem, item)
    ensures toItem != null ==> toItem in world && toItem in dest.itemlist
    ensures Routed(View(world), to, index, item, flags, MAP_MAX_LAYERS)
            == Route(Target(dest, at, Given(toItem)), flags')
    ensures flags' == flags || flags' == NO_FLAGS
  {
    ghost var w := View(world);
    dest, at, toItem, flags' := to, index, null, flags;
    var floor := 0;
    while true
      invariant dest in world && dest.isContainer && at >= -1 && 0 <= floor < MAP_MAX_LAYERS
      invariant flags' == flags || flags' == NO_FLAGS
      invariant Routed(w, dest, at, item, flags', MAP_MAX_LAYERS - floor)
                == Routed(w, to, index, item, flags, MAP_MAX_LAYERS)
      decreases MAP_MAX_LAYERS - floor
    {
      DestinationFacts(w, dest, at, item, flags');
      var sub;
      sub, at, toItem := dest.QueryDestination(at, item, flags', world);
      if sub == dest {
        return;
      }
      dest, flags', floor := sub, NO_FLAGS, floor + 1;
      if floor >= MAP_MAX_LAYERS {
        return;
      }
    }
  }

  function Given(item: Item?): Option<Item> {
    if item == null then None else Some(item as Item)
  }

  /** How much of an item fits where it goes. */
  ghost function Quantity(w: World<Item>, x: Item, count: nat, t: Route): nat
    requires Linked(w) && x in w && t.target.container in w && t.target.index >= -1
  {
    var most := MaxCount(w, t.target.container, t.target.index, x, count, t.flags);
    if w[x].kind.stackable && count < most then count else most
  }

  /** The answer of the container that `x` is to go to. */
  ghost function Entry(w: World<Item>, x: Item, count: nat, t: Route): ReturnValue
    requires Linked(w) && x in w && t.target.container in w && t.target.index >= -1
  {
    var c := t.target.container;
    var add := MayAdd(w, c, t.target.index, x, t.flags);
    if add != NoError then add
    else if MaxCount(w, c, t.target.index, x, count, t.flags) == 0 && !(w[x].kind.stackable && count == 0)
    then ContainerNotEnoughRoom
    else NoError
  }

  /** The answer of the container that `m` units of `x` are to leave, and of the trade they are part of. */
  ghost function Exit(w: World<Item>, from: Item, x: Item, m: nat, tradeItem: Option<Item>, c: Item,
                       flags: Flags): ReturnValue
    requires c in w
    reads from, x
  {
    var remove := MayRemove(from, x, m, flags);
    if remove != NoError then remove
    else if tradeItem.Some? && Above(w, tradeItem.value, c) then NotEnoughRoom
    else NoError
  }

  /** The answer to a move that is refused, in the order of the checks; none for one that is not. */
  ghost function Refusal(w: World<Item>, from: Item, x: Item, count: nat, tradeItem: Option<Item>,
                         t: Route): Option<ReturnValue>
    requires Linked(w) && x in w && t.target.container in w && t.target.index >= -1
    reads from, x
  {
    var entry := Entry(w, x, count, t);
    var leave := Exit(w, from, x, Quantity(w, x, count, t), tradeItem, t.target.container, t.flags);
    if t.target.item == Some(x) then Some(NoError)
    else if entry != NoError then Some(entry)
    else if leave != NoError then Some(leave)
    else None
  }

  /** When a move takes place, and how many units of a stack it takes. */
  lemma {:induction false} MovesExactly(w: World<Item>, from: Item, x: Item, count: nat, tradeItem: Option<Item>,
                                        t: Route)
    requires Sound(w) && x in w && w[x] == x.AsNode() && t.target.container in w && t.target.index >= -1
    requires !t.flags.childIsOwner
    ensures var c, at := t.target.container, t.target.index;
            var items := w[c].items;
            && (forall y :: y in items ==> y in w) && (forall y :: y in Less(items, x) ==> y in w)
            && var slots := if |items| < c.maxSize then c.maxSize - |items| else 0;
               var slack := if at == -1 then KindSlack(w, Less(items, x), x.kind)
                            else if at < |items| && w[items[at]].kind == x.kind && w[items[at]].count <= 100
                            then 100 - w[items[at]].count else 0;
               var m := if t.flags.noLimit || count <= 100 * slots + slack then count else 100 * slots + slack;
               && (Refusal(w, from, x, count, tradeItem, t).None? <==>
                     && t.target.item != Some(x) && c.unlocked && x.kind.pickupable && !x.kind.storeItem
                     && !Above(w, x, c) && (t.flags.noLimit || at != -1 || slots > 0)
                     && x in from.itemlist && (x.kind.moveable || t.flags.ignoreNotMoveable)
                     && (tradeItem.Some? ==> !Above(w, tradeItem.value, c))
                     && (if x.kind.stackable then 0 < m <= x.count else t.flags.noLimit || slots > 0))
               && (Refusal(w, from, x, count, tradeItem, t).None? && x.kind.stackable ==> Quantity(w, x, count, t) == m)
  {
    var c := t.target.container;
    assert LinkedAt(w, c);
    LessIn(w[c].items, x);
    AboveOrBelow(w, x, c);
    if !t.flags.noLimit && MayAdd(w, c, t.target.index, x, t.flags) == NoError {
      RoomIs(w, c, t.target.index, x, count, t.flags);
    }
  }

  /** The aimed item, when there is one, is what the container holds at that position. */
  ghost predicate Aimed(w: World<Item>, dest: Item, at: int, toItem: Item?, x: Item)
    requires Linked(w) && dest in w && x in w
  {
    assert LinkedAt(w, dest);
    && at >= -1
    && (toItem != null ==> 0 <= at < |w[dest].items| && w[dest].items[at] == toItem)
    && (at < dest.maxSize || !dest.unlocked || (toItem != null && w[x].kind.stackable && StacksWith(w, toItem, x)))
    && (toItem == null ==> at == -1 || at >= |w[dest].items| || !dest.unlocked)
  }

  /** The units a move of `m` takes: `m` off a stack, all of any other item. */
  ghost function UnitsTaken(n: Node<Item>, m: nat): nat {
    if n.kind.stackable && m <= n.count then m else n.count
  }

  /** What stays the same when (part of) an item leaves a container. */
  ghost predicate LeftBehind(w: World<Item>, v: World<Item>, from: Item, x: Item) {
    && v.Keys == w.Keys
    && (forall y {:trigger v[y]} :: y in w && y != x ==>
          v[y].kind == w[y].kind && v[y].count == w[y].count && v[y].parent == w[y].parent)
    && (forall y {:trigger v[y]} :: y in w ==> v[y].isContainer == w[y].isContainer && |v[y].items| <= |w[y].items|)
    && x in w && v[x].kind == w[x].kind && v[x].count <= w[x].count
    && (v[x].parent == w[x].parent || v[x].parent == None)
  }

  /** `m` units leave the stack, or the whole item leaves `from`. */
  ghost predicate Departed(w: World<Item>, v: World<Item>, from: Item, x: Item, m: nat) {
    && x in w
    && (if w[x].kind.stackable && m != w[x].count then m <= w[x].count && Counted(w, v, x, w[x].count - m)
        else TakenOut(w, v, from, x))
  }

  /** `m` units of a kind arrive: what the aimed stack takes on it, the rest as a new first item if the
      position is a slot. */
  ghost predicate Landed(v: World<Item>, u: World<Item>, dest: Item, at: int, kind: Kind, y: Option<Item>, m: nat)
    requires y.Some? ==> y.value in v
  {
    var n := Merging(v, kind, y, m);
    && dest in v && dest in u && SameLists(v, u, {dest})
    && (if n > 0 then SameStacks(v, u, {y.value}) && Grown(v, u, y.value, n) else SameStacks(v, u, {}))
    && (if n < m && at < dest.maxSize then NewFirst(v, u, dest, kind, m - n) else u[dest].items == v[dest].items)
  }

  /** The stack has `n` units more; its count is kept in a byte. */
  ghost predicate Grown(v: World<Item>, u: World<Item>, y: Item, n: nat) {
    && y in v && y in u && u[y].kind == v[y].kind && u[y].parent == v[y].parent
    && u[y].count == (v[y].count + n) % 256
  }

  /** A new item comes first. */
  ghost predicate NewFirst(v: World<Item>, u: World<Item>, dest: Item, kind: Kind, count: nat) {
    && dest in v && dest in u && |u[dest].items| == |v[dest].items| + 1 && u[dest].items[1..] == v[dest].items
    && var z := u[dest].items[0];
       z !in v && z in u && u[z].kind == kind && u[z].count == count && u[z].parent == Some(dest) && u[z].items == []
  }

  lemma {:induction false} RemovedFacts(w: World<Item>, from: Item, j: nat, x: Item, m: nat, unit: int,
                                        value: Kind -> int)
    requires Sound(w) && from in w && j < |w[from].items| && w[from].items[j] == x && x in w
    requires unit == value(w[x].kind) && (w[x].kind.stackable ==> m <= w[x].count)
    ensures var v := RemovedFrom(w, from, j, m);
            && Sound(v) && LeftBehind(w, v, from, x)
            && HeldChange(w, v, from, -(unit * UnitsTaken(w[x], m)), value)
            && (if w[x].kind.stackable && m != w[x].count then v[x].parent == w[x].parent
               && v[x].count == w[x].count - m
                else v[x].parent == None && v[x].count == w[x].count)
  {
    if w[x].kind.stackable && m != w[x].count {
      assert RemovedFrom(w, from, j, m) == SetAt(w, from, j, w[x].kind, w[x].count - m);
      SplitFacts(w, from, j, x, m, unit, value);
    } else {
      assert RemovedFrom(w, from, j, m) == RemoveAt(w, from, j);
      assert UnitsTaken(w[x], m) == w[x].count;
      LeaveFacts(w, from, j, x, unit, value);
    }
  }

  lemma {:induction false} SplitFacts(w: World<Item>, from: Item, j: nat, x: Item, m: nat, unit: int,
                                      value: Kind -> int)
    requires Sound(w) && from in w && j < |w[from].items| && w[from].items[j] == x && x in w
    requires unit == value(w[x].kind) && w[x].kind.stackable && m <= w[x].count
    ensures var v := SetAt(w, from, j, w[x].kind, w[x].count - m);
            && Sound(v) && LeftBehind(w, v, from, x) && HeldChange(w, v, from, -(unit * m), value)
            && v[x].parent == w[x].parent && v[x].count == w[x].count - m
  {
    SetSound(w, from, j, w[x].kind, w[x].count - m);
    Distribute(unit, w[x].count - m, m);
    HeldSet(w, from, j, w[x].count - m, -(unit * m), value);
  }

  lemma {:induction false} LeaveFacts(w: World<Item>, from: Item, j: nat, x: Item, unit: int, value: Kind -> int)
    requires Sound(w) && from in w && j < |w[from].items| && w[from].items[j] == x && x in w && unit == value(w[x].kind)
    ensures var v := RemoveAt(w, from, j);
            && Sound(v) && LeftBehind(w, v, from, x) && HeldChange(w, v, from, -(unit * w[x].count), value)
            && v[x].parent == None && v[x].count == w[x].count
  {
    TakenLinks(w, from, j);
    RemoveSound(w, from, j);
    HeldRemove(w, from, j, value);
  }

  lemma {:induction false} LeftTidy(w: World<Item>, v: World<Item>, from: Item, x: Item, b: Bounds)
    requires Tidy(w, b) && LeftBehind(w, v, from, x)
    ensures Tidy(v, b)
  {
  }

  lemma {:induction false} LeftClimb(w: World<Item>, v: World<Item>, from: Item, x: Item, y: Item, k: nat)
    requires LeftBehind(w, v, from, x)
    ensures Climb(v, y, k).Some? ==> Climb(v, y, k) == Climb(w, y, k)
  {
    if y in w && k > 0 && v[y].parent.Some? { LeftClimb(w, v, from, x, v[y].parent.value, k - 1); }
  }

  /** An item that was not around a container is not around it afterwards. */
  lemma {:induction false} LeftNotAbove(w: World<Item>, v: World<Item>, from: Item, x: Item, a: Item, c: Item)
    requires LeftBehind(w, v, from, x) && !Above(w, a, c)
    ensures !Above(v, a, c)
  {
    forall k: nat ensures Climb(v, c, k) != Some(a) { LeftClimb(w, v, from, x, c, k); }
  }

  /** An item that stayed put is still held, at some position. */
  lemma {:induction false} StillHeld(w: World<Item>, v: World<Item>, from: Item, x: Item, dest: Item,
                                     y: Item) returns (j: nat)
    requires Linked(w) && Linked(v) && LeftBehind(w, v, from, x) && dest in w && y in w && y != x
    requires w[y].parent == Some(dest)
    ensures j < |v[dest].items| && v[dest].items[j] == y
  {
    assert LinkedAt(v, y);
    j :| 0 <= j < |v[dest].items| && v[dest].items[j] == y;
  }

  method TakeFrom(from: Item, item: Item, m: nat, ghost world: set<Item>, ghost value: Kind -> int, ghost unit: int,
                  ghost b: Bounds)
    requires from in world && item in world && Sound(View(world)) && Tidy(View(world), b)
    requires item in from.itemlist && unit == value(item.kind) && (item.kind.stackable ==> m <= item.count)
    modifies world
    ensures Sound(View(world)) && Tidy(View(world), b) && LeftBehind(old(View(world)), View(world), from, item)
    ensures HeldChange(old(View(world)), View(world), from, -(unit * UnitsTaken(old(View(world))[item], m)), value)
    ensures if old(item.kind).stackable && m != old(item.count)
            then item.parent == old(item.parent) && item.count == old(item.count) - m
            else item.parent == null && item.count == old(item.count)
  {
    ghost var w := View(world);
    assert w[item] == item.AsNode();
    ghost var j :| 0 <= j < |from.itemlist| && from.itemlist[j] == item;
    from.RemoveThing(item, m, world);
    TakenFacts(w, View(world), from, j, item, m, unit, value, b);
    assert View(world)[item] == item.AsNode();
  }

  lemma {:induction false} TakenFacts(w: World<Item>, v: World<Item>, from: Item, j: nat, x: Item, m: nat, unit: int,
                                      value: Kind -> int, b: Bounds)
    requires Sound(w) && from in w && j < |w[from].items| && w[from].items[j] == x && x in w && Tidy(w, b)
    requires unit == value(w[x].kind) && (w[x].kind.stackable ==> m <= w[x].count) && v == RemovedFrom(w, from, j, m)
    ensures Sound(v) && Tidy(v, b) && LeftBehind(w, v, from, x)
    ensures HeldChange(w, v, from, -(unit * UnitsTaken(w[x], m)), value)
    ensures if w[x].kind.stackable && m != w[x].count then v[x].parent == w[x].parent && v[x].count == w[x].count - m
            else v[x].parent == None && v[x].count == w[x].count
  {
    RemovedFacts(w, from, j, x, m, unit, value);
    LeftTidy(w, v, from, x, b);
  }

  lemma {:induction false} RemovalDeparts(w: World<Item>, v: World<Item>, from: Item, j: nat, x: Item, m: nat)
    requires Linked(w) && from in w && j < |w[from].items| && w[from].items[j] == x && x in w
    requires (w[x].kind.stackable ==> m <= w[x].count) && v == RemovedFrom(w, from, j, m)
    ensures Departed(w, v, from, x, m)
  {
    if w[x].kind.stackable && m != w[x].count {
      SetCounts(w, from, j, x, w[x].count - m);
    } else {
      RemoveTakes(w, from, j, x);
    }
  }

  /** A new item for the units that are left; a position that is no slot takes none. */
  ghost function WithNew(v: World<Item>, dest: Item, at: int, z: Item, kind: Kind, count: nat): World<Item>
    requires dest in v
  {
    var u := v[z := Node(kind, count, None, false, [], 0)];
    if at < dest.maxSize then InsertAt(u, dest, 0, z) else u
  }

  /** The aim is the stack at position `j`. */
  ghost predicate AimsAt(v: World<Item>, dest: Item, j: nat, y: Option<Item>) {
    dest in v && (y.Some? ==> y.value in v && j < |v[dest].items| && v[dest].items[j] == y.value)
  }

  /** What is left of the aimed stack, which is the one at position `j`. */
  ghost function WithMerged(v: World<Item>, dest: Item, j: nat, kind: Kind, y: Option<Item>, n: nat): World<Item>
    requires AimsAt(v, dest, j, y)
  {
    if y.Some? && v[y.value].kind == kind then SetAt(v, dest, j, kind, (v[y.value].count + n) % 256) else v
  }

  /** After `m` units were put: as many as it takes onto the aimed stack when it is of the same kind,
      the rest as the new item `z`. */
  ghost function WithUnits(v: World<Item>, dest: Item, j: nat, at: int, kind: Kind, y: Option<Item>, m: nat,
                           z: Item): World<Item>
    requires AimsAt(v, dest, j, y)
  {
    var n := Merging(v, kind, y, m);
    var merged := WithMerged(v, dest, j, kind, y, n);
    if n < m then WithNew(merged, dest, at, z, kind, m - n) else merged
  }

  /** `n` of `m` units go to the aimed stack when it is of the same kind, the rest becomes a
      new item, which stays outside when the position is no slot. */
  method PutStack(dest: Item, at: int, kind: Kind, toItem: Item?, m: nat, ghost world: set<Item>)
    returns (ghost j: nat, ghost z: Item, ghost world': set<Item>)
    requires dest in world && dest.isContainer && Sound(View(world))
    requires toItem != null ==> toItem in world && toItem in dest.itemlist
    modifies world
    ensures world <= world' && fresh(world' - world) && Sound(View(world'))
    ensures AimsAt(old(View(world)), dest, j, Given(toItem))
    ensures View(world') == WithUnits(old(View(world)), dest, j, at, kind, Given(toItem), m, z)
    ensures Merging(old(View(world)), kind, Given(toItem), m) < m ==> z !in world
  {
    var n;
    n, j := MergeAimed(dest, kind, toItem, m, world);
    z, world' := dest, world;
    var newCount := m - n;
    if newCount > 0 {
      z, world' := PutNew(dest, at, kind, newCount, world);
    }
  }

  /** What the aimed stack takes, when there is one of the kind. */
  method MergeAimed(dest: Item, kind: Kind, toItem: Item?, m: nat, ghost world: set<Item>)
    returns (n: nat, ghost j: nat)
    requires dest in world && Sound(View(world)) && (toItem != null ==> toItem in world && toItem in dest.itemlist)
    modifies world
    ensures Sound(View(world)) && AimsAt(old(View(world)), dest, j, Given(toItem))
    ensures n == Merging(old(View(world)), kind, Given(toItem), m)
    ensures View(world) == WithMerged(old(View(world)), dest, j, kind, Given(toItem), n)
  {
    n, j := 0, 0;
    ghost var w := View(world);
    assert w[dest] == dest.AsNode();
    if toItem != null {
      j :| 0 <= j < |dest.itemlist| && dest.itemlist[j] == toItem;
      assert w[toItem] == toItem.AsNode();
      if toItem.kind == kind {
        n := MergeOnto(dest, toItem, j, m, world);
      }
    }
  }

  /** Units that go onto the stack, then the rest. */
  lemma {:induction false} BothLand(w: World<Item>, v: World<Item>, u: World<Item>, dest: Item, at: int, kind: Kind,
                                    y: Option<Item>, m: nat, n: nat)
    requires dest in w && dest in v && dest in u && (y.Some? ==> y.value in w) && n == Merging(w, kind, y, m)
    requires if y.Some? && w[y.value].kind == kind then Counted(w, v, y.value, (w[y.value].count + n) % 256) else v == w
    requires n == 0 && y.Some? && w[y.value].kind == kind ==> w[y.value].count < 256
    requires if n < m then Arrival(v, u, dest, at, kind, m - n) else u == v
    ensures Landed(w, u, dest, at, kind, y, m)
  {
  }

  /** How many of `m` units the aimed stack takes.  One of more than 100 takes all of them, as the
      subtraction wraps around. */
  ghost function Merging(w: World<Item>, kind: Kind, toItem: Option<Item>, m: nat): (n: nat)
    requires toItem.Some? ==> toItem.value in w
    ensures n <= m
  {
    if toItem.None? || w[toItem.value].kind != kind then 0
    else if w[toItem.value].count > 100 || m <= 100 - w[toItem.value].count then m
    else 100 - w[toItem.value].count
  }

  /** Units on a stack, whose count is kept in a byte. */
  lemma {:induction false} MergedOnto(w: World<Item>, v: World<Item>, dest: Item, j: nat, x: Item, n: nat,
                                      value: Kind -> int, unit: int, b: Bounds)
    requires Sound(w) && Sound(v) && Tidy(w, b) && dest in w && j < |w[dest].items| && w[dest].items[j] == x && x in w
    requires unit == value(w[x].kind) && v == SetAt(w, dest, j, w[x].kind, (w[x].count + n) % 256)
    requires b.Any? || w[x].count + n <= 100
    ensures Tidy(v, b) && (!b.Any? ==> HeldChange(w, v, dest, unit * n, value))
  {
    if !b.Any? { MergeFacts(w, v, dest, j, x, n, value, unit, b); }
  }

  method MergeOnto(dest: Item, toItem: Item, ghost j: nat, m: nat, ghost world: set<Item>) returns (n: nat)
    requires dest in world && toItem in world && j < |dest.itemlist| && dest.itemlist[j] == toItem && Sound(View(world))
    modifies world
    ensures Sound(View(world)) && n == Merging(old(View(world)), old(toItem.kind), Some(toItem), m)
    ensures View(world) == SetAt(old(View(world)), dest, j, old(toItem.kind), (old(toItem.count) + n) % 256)
  {
    assert View(world)[toItem] == toItem.AsNode();
    n := if toItem.count > 100 || m <= 100 - toItem.count then m else 100 - toItem.count;
    dest.UpdateThing(toItem, toItem.kind, toItem.count + n, world);
  }

  method PutNew(dest: Item, at: int, kind: Kind, count: nat, ghost world: set<Item>)
    returns (ghost copy: Item, ghost world': set<Item>)
    requires dest in world && dest.isContainer && Sound(View(world))
    modifies world
    ensures fresh(copy) && copy !in world && world' == world + {copy} && Sound(View(world'))
    ensures View(world') == WithNew(old(View(world)), dest, at, copy, kind, count)
  {
    ghost var v := View(world);
    var new_;
    new_, world' := Clone(kind, count, world, k => 0, Any);
    copy := new_;
    assert View(world')[copy] == copy.AsNode();
    assert View(world') == v[copy := Node(kind, count, None, false, [], 0)];
    dest.AddThing(at, new_, world');
  }

  /** A new item comes first if the position is a slot, else nothing changes in the containers. */
  ghost predicate Arrival(v: World<Item>, u: World<Item>, dest: Item, at: int, kind: Kind, count: nat) {
    && dest in v && dest in u && SameStacks(v, u, {}) && SameLists(v, u, {dest})
    && (if at < dest.maxSize then NewFirst(v, u, dest, kind, count) else u[dest].items == v[dest].items)
  }

  lemma {:induction false} NewArrives(v: World<Item>, u: World<Item>, z: World<Item>, dest: Item, at: int, kind: Kind,
                                      count: nat, copy: Item)
    requires dest in v && Extended(v, u, copy) && u[copy].kind == kind && u[copy].count == count
    requires if at < dest.maxSize then PutFirst(u, z, dest, copy) else z == u
    ensures Arrival(v, z, dest, at, kind, count)
  {
  }

  /** What the new item changes in amounts. */
  lemma {:induction false} NewTally(v: World<Item>, z: World<Item>, dest: Item, at: int, kind: Kind, count: nat,
                                    copy: Item, value: Kind -> int, unit: int, b: Bounds)
    requires Sound(v) && Sound(z) && Tidy(v, b) && dest in v && v[dest].isContainer && copy !in v && unit == value(kind)
    requires z == WithNew(v, dest, at, copy, kind, count) && 0 < count && (!b.Any? ==> count <= 100)
    requires b.Slots? ==> |v[dest].items| < dest.maxSize
    ensures Tidy(z, b) && HeldChange(v, z, dest, unit * (if at < dest.maxSize then count else 0), value)
  {
    var u := v[copy := Node(kind, count, None, false, [], 0)];
    ExtendedSound(v, u, copy, value);
    ExtendedTidy(v, u, copy, b);
    if at < dest.maxSize {
      HeldInsert(u, dest, 0, copy, value);
      AddedTidy(u, dest, copy, b);
    }
    var got := if at < dest.maxSize then count else 0;
    RestHeld(v, u, z, dest, copy, unit, got, if got == 0 then NotPossible else NoError, value);
  }

  /** And in places. */
  lemma {:induction false} NewPlaces(v: World<Item>, z: World<Item>, dest: Item, at: int, kind: Kind, count: nat,
                                     copy: Item)
    requires dest in v && copy !in v && z == WithNew(v, dest, at, copy, kind, count)
    ensures Arrival(v, z, dest, at, kind, count)
  {
    var u := v[copy := Node(kind, count, None, false, [], 0)];
    if at < dest.maxSize { InsertPuts(u, dest, copy); }
    NewArrives(v, u, z, dest, at, kind, count, copy);
  }

  /** What the queries promise: the item is not around the container; the position is a slot, or that
      of a stack of the kind; and unless the limits are off, what such a stack cannot take, or a whole
      item, has a free slot. */
  lemma {:induction false} MoveAllowed(w: World<Item>, dest: Item, at: int, x: Item, toItem: Item?, count: nat,
                                       flags: Flags, m: nat)
    requires Sound(w) && dest in w && w[dest].isContainer && x in w && Aimed(w, dest, at, toItem, x)
    requires toItem != null ==> toItem in w
    requires MayAdd(w, dest, at, x, flags) == NoError && !flags.childIsOwner
    requires w[x].kind.stackable ==> m <= MaxCount(w, dest, at, x, count, flags)
    requires !w[x].kind.stackable ==> MaxCount(w, dest, at, x, count, flags) > 0
    ensures !Above(w, x, dest) && (w[x].kind.stackable || at < dest.maxSize)
    ensures !flags.noLimit ==>
              (w[x].kind.stackable && Merging(w, w[x].kind, Given(toItem), m) == m) || |w[dest].items| < dest.maxSize
    ensures !flags.noLimit ==> at < dest.maxSize || Merging(w, w[x].kind, Given(toItem), m) == m
  {
    assert LinkedAt(w, dest);
    NotAboveFromVerdict(w, dest, at, x, flags);
  }

  /** The units that arrive of those that are taken. */
  ghost function Arriving(w: World<Item>, x: Item, t: Target, m: nat): (n: nat)
    requires x in w && (t.item.Some? ==> t.item.value in w)
    ensures n <= m
  {
    if t.index < t.container.maxSize then m else Merging(w, w[x].kind, t.item, m)
  }

  /** The move itself: the item leaves `from`, stacks split, `dest` takes it. */
  method Transfer(from: Item, dest: Item, at: int, item: Item, toItem: Item?, m: nat, ghost world: set<Item>)
    returns (ghost i: nat, ghost j: nat, ghost z: Item, ghost world': set<Item>)
    requires from in world && dest in world && item in world && dest.isContainer && toItem != item
    requires Sound(View(world)) && item in from.itemlist
    requires if item.kind.stackable then 0 < m <= item.count else at < dest.maxSize
    requires !Above(View(world), item, dest)
    requires toItem != null ==> toItem in world && toItem in dest.itemlist
    modifies world
    ensures world <= world' && fresh(world' - world) && Sound(View(world'))
    ensures CarriedBy(old(View(world)), View(world'), from, i, dest, j, at, item, Given(toItem), m, z)
  {
    ghost var w := View(world);
    var kind := item.kind;
    assert w[item] == item.AsNode() && w[dest] == dest.AsNode();
    i :| 0 <= i < |from.itemlist| && from.itemlist[i] == item;
    from.RemoveThing(item, m, world);
    ReadyToLand(w, View(world), from, i, dest, item, toItem, m);
    assert View(world)[item] == item.AsNode() && View(world)[dest] == dest.AsNode();
    j, z, world' := Land(dest, at, item, kind, toItem, m, world);
  }

  /** What was taken arrives. */
  method Land(dest: Item, at: int, item: Item, kind: Kind, toItem: Item?, m: nat, ghost world: set<Item>)
    returns (ghost j: nat, ghost z: Item, ghost world': set<Item>)
    requires dest in world && item in world && dest.isContainer && Sound(View(world)) && item.kind == kind
    requires !kind.stackable ==> at < dest.maxSize && item.parent == null && !Above(View(world), item, dest)
    requires toItem != null ==> toItem in world && toItem in dest.itemlist
    modifies world
    ensures world <= world' && fresh(world' - world) && Sound(View(world'))
    ensures LandedBy(old(View(world)), View(world'), dest, j, at, item, kind, Given(toItem), m, z)
  {
    if kind.stackable {
      j, z, world' := PutStack(dest, at, kind, toItem, m, world);
    } else {
      dest.AddThing(at, item, world);
      j, z, world' := 0, dest, world;
    }
  }

  /** The exact state after what was taken has arrived; a new item, if there is one, is `z`. */
  ghost predicate LandedBy(v: World<Item>, u: World<Item>, dest: Item, j: nat, at: int, x: Item, kind: Kind,
                           y: Option<Item>, m: nat, z: Item) {
    && dest in v && x in v
    && if kind.stackable then AimsAt(v, dest, j, y) && u == WithUnits(v, dest, j, at, kind, y, m, z)
                              && (Merging(v, kind, y, m) < m ==> z !in v)
       else u == InsertAt(v, dest, 0, x)
  }

  /** The exact state after a move. */
  ghost predicate CarriedBy(w: World<Item>, u: World<Item>, from: Item, i: nat, dest: Item, j: nat, at: int, x: Item,
                            y: Option<Item>, m: nat, z: Item) {
    && from in w && x in w && i < |w[from].items| && w[from].items[i] == x
    && LandedBy(RemovedFrom(w, from, i, m), u, dest, j, at, x, w[x].kind, y, m, z)
  }

  /** What leaves can land, where the aim stands as it stood. */
  lemma {:induction false} ReadyToLand(w: World<Item>, v: World<Item>, from: Item, i: nat, dest: Item, x: Item,
                                       y: Item?, m: nat)
    requires Sound(w) && Sound(v) && from in w && x in w && dest in w && i < |w[from].items| && w[from].items[i] == x
    requires v == RemovedFrom(w, from, i, m) && !Above(w, x, dest) && (w[x].kind.stackable ==> m <= w[x].count)
    requires y != null ==> y in w && y != x && y in w[dest].items
    ensures v.Keys == w.Keys && v[x].kind == w[x].kind && (y != null ==> y in v[dest].items)
    ensures !w[x].kind.stackable ==> v[x].parent == None && !Above(v, x, dest)
  {
    RemovedFacts(w, from, i, x, m, 0, k => 0);
    AfterLeaving(w, v, from, x, dest, y, w[x].kind, m);
  }

  /** The move, and what it changes. */
  method Perform(from: Item, dest: Item, at: int, item: Item, toItem: Item?, m: nat, ghost world: set<Item>,
                 ghost value: Kind -> int, ghost b: Bounds, ghost b': Bounds)
    returns (ghost world': set<Item>)
    requires from in world && dest in world && item in world && dest.isContainer && toItem != item
    requires Sound(View(world)) && Tidy(View(world), b) && item in from.itemlist && (b'.Any? <==> b.Any?)
    requires (b'.Slots? ==> b.Slots?) && !Above(View(world), item, dest)
    requires if item.kind.stackable then 0 < m <= item.count else at < dest.maxSize
    requires toItem != null ==> toItem in world && toItem in dest.itemlist
    requires b'.Slots? ==>
               (item.kind.stackable && Merging(View(world), item.kind, Given(toItem), m) == m)
               || |dest.itemlist| < dest.maxSize
    modifies world
    ensures world <= world' && fresh(world' - world) && Sound(View(world')) && Tidy(View(world'), b')
    ensures Carried(old(View(world)), View(world'), from, dest, at, item, Given(toItem), m)
    ensures !old(item.kind).stackable ==>
              && item.parent == dest && item.kind == old(item.kind) && item.count == old(item.count)
              && item.itemlist == old(item.itemlist)
    ensures !b.Any? ==>
              var w := old(View(world));
              var units := UnitsTaken(w[item], m);
              var got := Arriving(w, item, Target(dest, at, Given(toItem)), units);
              Transferred(w, View(world'), from, dest, value(w[item].kind) * units, value(w[item].kind) * got, value)
  {
    ghost var w := View(world);
    assert w[item] == item.AsNode() && w[dest] == dest.AsNode();
    ghost var i, j, z;
    i, j, z, world' := Transfer(from, dest, at, item, toItem, m, world);
    ghost var units := UnitsTaken(w[item], m);
    CarryTally(w, RemovedFrom(w, from, i, m), View(world'), from, i, dest, j, at, item, toItem, m, z, value,
        value(w[item].kind), units, Arriving(w, item, Target(dest, at, Given(toItem)), units), b, b');
    CarryPlaces(w, View(world'), from, i, dest, j, at, item, toItem, m, z);
    assert View(world')[item] == item.AsNode();
  }

  /** What a move changes in amounts. */
  lemma {:induction false} CarryTally(w: World<Item>, v: World<Item>, u: World<Item>, from: Item, i: nat, dest: Item,
                                      j: nat, at: int, x: Item, y: Item?, m: nat, z: Item, value: Kind -> int,
                                      unit: int, units: nat, got: nat, b: Bounds, b': Bounds)
    requires Sound(w) && Sound(u) && Tidy(w, b) && (b'.Any? <==> b.Any?) && (b'.Slots? ==> b.Slots?)
    requires dest in w && w[dest].isContainer && y != x && !Above(w, x, dest)
    requires y != null ==> y in w && y in w[dest].items
    requires from in w && x in w && i < |w[from].items| && w[from].items[i] == x
    requires v == RemovedFrom(w, from, i, m) && LandedBy(v, u, dest, j, at, x, w[x].kind, Given(y), m, z)
    requires if w[x].kind.stackable then 0 < m <= w[x].count else at < dest.maxSize
    requires b'.Slots? ==>
               (w[x].kind.stackable && Merging(w, w[x].kind, Given(y), m) == m) || |w[dest].items| < dest.maxSize
    requires unit == value(w[x].kind) && units == UnitsTaken(w[x], m)
    requires got == Arriving(w, x, Target(dest, at, Given(y)), units)
    ensures Tidy(u, b') && (!b.Any? ==> Transferred(w, u, from, dest, unit * units, unit * got, value))
  {
    LeaveTally(w, v, from, i, dest, x, y, m, value, unit, b, units);
    if w[x].kind.stackable {
      UnitsTally(v, u, dest, j, at, w[x].kind, Given(y), m, Merging(v, w[x].kind, Given(y), m), z, value, unit, b');
    } else {
      WholeTally(v, dest, x, value, unit, b');
    }
    if !b.Any? { ShiftAfter(w, v, u, from, -(unit * units), dest, unit * got, value); }
  }

  /** What leaves, and how things stand then. */
  lemma {:induction false} LeaveTally(w: World<Item>, v: World<Item>, from: Item, i: nat, dest: Item, x: Item, y: Item?,
                                      m: nat, value: Kind -> int, unit: int, b: Bounds, units: nat)
    requires Sound(w) && Tidy(w, b) && from in w && x in w && i < |w[from].items| && w[from].items[i] == x
    requires dest in w && w[dest].isContainer && y != x && !Above(w, x, dest) && unit == value(w[x].kind)
    requires y != null ==> y in w && y in w[dest].items
    requires v == RemovedFrom(w, from, i, m) && (w[x].kind.stackable ==> m <= w[x].count)
    requires units == UnitsTaken(w[x], m)
    ensures Sound(v) && Tidy(v, b) && HeldChange(w, v, from, -(unit * units), value)
    ensures v[dest].isContainer && v[x].kind == w[x].kind && (y != null ==> y in v)
    ensures |v[dest].items| <= |w[dest].items| && !Above(v, x, dest)
    ensures !w[x].kind.stackable ==> v[x].parent == None && v[x].count == w[x].count
    ensures Merging(v, w[x].kind, Given(y), units) == Merging(w, w[x].kind, Given(y), units)
  {
    TakenFacts(w, v, from, i, x, m, unit, value, b);
    AfterLeaving(w, v, from, x, dest, y, w[x].kind, m);
  }

  /** What a move changes in places. */
  lemma {:induction false} CarryPlaces(w: World<Item>, u: World<Item>, from: Item, i: nat, dest: Item, j: nat, at: int,
                                       x: Item, y: Item?, m: nat, z: Item)
    requires Sound(w) && dest in w && w[dest].isContainer && y != x && !Above(w, x, dest)
    requires y != null ==> y in w && y in w[dest].items
    requires CarriedBy(w, u, from, i, dest, j, at, x, Given(y), m, z)
    requires if w[x].kind.stackable then 0 < m <= w[x].count else at < dest.maxSize
    ensures Carried(w, u, from, dest, at, x, Given(y), m)
  {
    var v := RemovedFrom(w, from, i, m);
    RemovedFacts(w, from, i, x, m, 0, k => 0);
    RemovalDeparts(w, v, from, i, x, m);
    LandPlaces(v, u, dest, j, at, x, w[x].kind, Given(y), m, z);
    HeldApart(w, from, dest, x);
    Carries(w, v, u, from, dest, at, x, Given(y), m);
  }

  /** What the arrival of an item changes in amounts. */
  lemma {:induction false} WholeTally(v: World<Item>, dest: Item, x: Item, value: Kind -> int, unit: int, b: Bounds)
    requires Sound(v) && Tidy(v, b) && dest in v && x in v && v[dest].isContainer && unit == value(v[x].kind)
    requires v[x].parent == None && !Above(v, x, dest) && (b.Slots? ==> |v[dest].items| < dest.maxSize)
    ensures var u := InsertAt(v, dest, 0, x);
            Linked(u) && Tidy(u, b) && HeldChange(v, u, dest, unit * v[x].count, value)
  {
    HeldInsert(v, dest, 0, x, value);
    AddedTidy(v, dest, x, b);
  }

  /** What the arrival changes in places. */
  lemma {:induction false} LandPlaces(v: World<Item>, u: World<Item>, dest: Item, j: nat, at: int, x: Item, kind: Kind,
                                      y: Option<Item>, m: nat, z: Item)
    requires LandedBy(v, u, dest, j, at, x, kind, y, m, z) && (y.Some? ==> y.value in v) && (kind.stackable ==> 0 < m)
    ensures if kind.stackable then Landed(v, u, dest, at, kind, y, m) else PutFirst(v, u, dest, x)
  {
    if kind.stackable {
      UnitsPlaces(v, u, dest, j, at, kind, y, m, z);
    } else {
      InsertPuts(v, dest, x);
    }
  }

  /** What the arrival of units changes in amounts. */
  lemma {:induction false} UnitsTally(v: World<Item>, u: World<Item>, dest: Item, j: nat, at: int, kind: Kind,
                                      y: Option<Item>, m: nat, n: nat, z: Item, value: Kind -> int, unit: int,
                                      b: Bounds)
    requires Sound(v) && Sound(u) && Tidy(v, b) && dest in v && v[dest].isContainer && unit == value(kind)
    requires AimsAt(v, dest, j, y) && u == WithUnits(v, dest, j, at, kind, y, m, z) && n == Merging(v, kind, y, m)
    requires 0 < m && (!b.Any? ==> m <= 100) && (n < m ==> z !in v)
    requires b.Slots? ==> n == m || |v[dest].items| < dest.maxSize
    ensures Tidy(u, b) && (!b.Any? ==> HeldChange(v, u, dest, unit * (if at < dest.maxSize then m else n), value))
  {
    var merged := WithMerged(v, dest, j, kind, y, n);
    MergedTally(v, merged, dest, j, kind, y, m, n, value, unit, b);
    if n < m {
      RestTally(v, merged, u, dest, at, kind, m, n, z, value, unit, b);
    }
  }

  lemma {:induction false} RestTally(v: World<Item>, merged: World<Item>, u: World<Item>, dest: Item, at: int,
                                     kind: Kind, m: nat, n: nat, z: Item, value: Kind -> int, unit: int, b: Bounds)
    requires Sound(v) && Sound(merged) && Sound(u) && Tidy(merged, b) && dest in merged && merged[dest].isContainer
    requires unit == value(kind) && n < m && (!b.Any? ==> m <= 100) && z !in merged && dest in v
    requires u == WithNew(merged, dest, at, z, kind, m - n) && (b.Slots? ==> |merged[dest].items| < dest.maxSize)
    requires !b.Any? ==> HeldChange(v, merged, dest, unit * n, value)
    ensures Tidy(u, b) && (!b.Any? ==> HeldChange(v, u, dest, unit * (if at < dest.maxSize then m else n), value))
  {
    var rest := if at < dest.maxSize then m - n else 0;
    NewTally(merged, u, dest, at, kind, m - n, z, value, unit, b);
    if !b.Any? { ChainUnits(v, merged, u, dest, unit, n, rest, n + rest, value); }
  }

  lemma {:induction false} UnitsPlaces(v: World<Item>, u: World<Item>, dest: Item, j: nat, at: int, kind: Kind,
                                       y: Option<Item>, m: nat, z: Item)
    requires dest in v && AimsAt(v, dest, j, y) && u == WithUnits(v, dest, j, at, kind, y, m, z)
    requires 0 < m && (Merging(v, kind, y, m) < m ==> z !in v)
    ensures Landed(v, u, dest, at, kind, y, m)
  {
    var n := Merging(v, kind, y, m);
    var merged := WithMerged(v, dest, j, kind, y, n);
    if y.Some? && v[y.value].kind == kind { SetCounts(v, dest, j, y.value, (v[y.value].count + n) % 256); }
    if n < m { NewPlaces(merged, u, dest, at, kind, m - n, z); }
    BothLand(v, merged, u, dest, at, kind, y, m, n);
  }

  lemma {:induction false} MergedTally(v: World<Item>, merged: World<Item>, dest: Item, j: nat, kind: Kind,
                                       y: Option<Item>, m: nat, n: nat, value: Kind -> int, unit: int, b: Bounds)
    requires Sound(v) && Tidy(v, b) && AimsAt(v, dest, j, y) && unit == value(kind) && n == Merging(v, kind, y, m)
    requires merged == WithMerged(v, dest, j, kind, y, n)
    ensures Sound(merged) && Tidy(merged, b) && (!b.Any? ==> HeldChange(v, merged, dest, unit * n, value))
    ensures merged.Keys == v.Keys && merged[dest].items == v[dest].items
    ensures merged[dest].isContainer == v[dest].isContainer
  {
    if y.Some? && v[y.value].kind == kind {
      SetSound(v, dest, j, kind, (v[y.value].count + n) % 256);
      MergedOnto(v, merged, dest, j, y.value, n, value, unit, b);
    }
  }

  /** What a move of `m` units, or of an item that does not stack, comes to. */
  ghost predicate Carried(w: World<Item>, u: World<Item>, from: Item, dest: Item, at: int, x: Item, y: Option<Item>,
                          m: nat) {
    x in w && if w[x].kind.stackable then UnitsMoved(w, u, from, dest, at, x, y, m) else WholeMoved(w, u, from, dest, x)
  }

  lemma {:induction false} Carries(w: World<Item>, v: World<Item>, u: World<Item>, from: Item, dest: Item, at: int,
                                   x: Item, y: Option<Item>, m: nat)
    requires Linked(w) && from in w && dest in w && x in w && x != from && x != dest && w[x].parent == Some(from)
    requires Departed(w, v, from, x, m) && v.Keys == w.Keys && (y.Some? ==> y.value in w && y.value != x)
    requires w[x].kind.stackable ==> 0 < m <= w[x].count && Landed(v, u, dest, at, w[x].kind, y, m)
    requires !w[x].kind.stackable ==> PutFirst(v, u, dest, x)
    ensures Carried(w, u, from, dest, at, x, y, m)
  {
    if w[x].kind.stackable { UnitsMove(w, v, u, from, dest, at, x, y, m); }
    else { WholeMoves(w, v, u, from, dest, x); }
  }

  /** A held item is neither its container nor one that it is not around. */
  lemma {:induction false} HeldApart(w: World<Item>, from: Item, dest: Item, x: Item)
    requires Sound(w) && from in w && dest in w && x in w && x in w[from].items && !Above(w, x, dest)
    ensures x != from && x != dest && w[x].parent == Some(from)
  {
    assert LinkedAt(w, from);
    assert Climb(w, dest, 0) == Some(dest);
    if x == from {
      assert Climb(w, x, 1) == Climb(w, from, 0) == Some(x);
      NoCycle(w, x, 1);
    }
  }

  /** The item itself, with all it holds, is now the first of `dest`, and nothing else moved or changed. */
  ghost predicate WholeMoved(w: World<Item>, u: World<Item>, from: Item, dest: Item, x: Item) {
    && from in w && dest in w && x in w && from in u && dest in u && x in u && from != x && dest != x
    && u[x].kind == w[x].kind && u[x].count == w[x].count && u[x].items == w[x].items && u[x].parent == Some(dest)
    && u[dest].items == [x] + Less(w[dest].items, x) && (from != dest ==> u[from].items == Less(w[from].items, x))
    && SameStacks(w, u, {x}) && SameLists(w, u, {from, dest})
  }

  lemma {:induction false} WholeMoves(w: World<Item>, v: World<Item>, u: World<Item>, from: Item, dest: Item, x: Item)
    requires Linked(w) && dest in w && x != from && x != dest && x in w && w[x].parent == Some(from)
    requires TakenOut(w, v, from, x) && PutFirst(v, u, dest, x)
    ensures WholeMoved(w, u, from, dest, x)
  {
    assert LinkedAt(w, dest);
    if from != dest { LessNone(w[dest].items, x); }
  }

  /** The units of `units` that a stack of so many takes; one of more than 100 takes all of them, as the
      subtraction wraps around. */
  function Taking(count: nat, units: nat): nat {
    if count > 100 || count + units <= 100 then units else 100 - count
  }

  /** `units` units left the stack `x`; the aimed stack `y` of their kind took what it had room for, the
      rest is a new first item of `dest` if the position is a slot, and nothing else moved or changed. */
  ghost predicate UnitsMoved(w: World<Item>, u: World<Item>, from: Item, dest: Item, at: int, x: Item, y: Option<Item>,
                             units: nat) {
    && from in w && dest in w && x in w && from in u && dest in u && x in u && (y.Some? ==> y.value in w)
    && (if units == w[x].count then u[x].parent == None && u[x].count == w[x].count
        else u[x].parent == w[x].parent && u[x].count == w[x].count - units)
    && u[x].kind == w[x].kind
    && var onto := y.Some? && w[y.value].kind == w[x].kind;
       var n := if onto then Taking(w[y.value].count, units) else 0;
       var left := if from == dest && units == w[x].count then Less(w[dest].items, x) else w[dest].items;
    && (onto ==> Grown(w, u, y.value, n))
    && SameStacks(w, u, if onto then {x, y.value} else {x}) && SameLists(w, u, {from, dest})
    && (from != dest ==> u[from].items == if units == w[x].count then Less(w[from].items, x) else w[from].items)
    && (if n < units && at < dest.maxSize
        then |u[dest].items| == |left| + 1 && u[dest].items[1..] == left
             && NewItem(w, u, dest, u[dest].items[0], w[x].kind, units - n)
        else u[dest].items == left)
  }

  ghost predicate NewItem(w: World<Item>, u: World<Item>, dest: Item, z: Item, kind: Kind, count: nat) {
    z !in w && z in u && u[z].kind == kind && u[z].count == count && u[z].parent == Some(dest) && u[z].items == []
  }

  lemma {:induction false} UnitsMove(w: World<Item>, v: World<Item>, u: World<Item>, from: Item, dest: Item, at: int,
                                     x: Item, y: Option<Item>, units: nat)
    requires Linked(w) && from in w && dest in w && x in w && x != from && x != dest && w[x].parent == Some(from)
    requires w[x].kind.stackable && 0 < units <= w[x].count && Departed(w, v, from, x, units) && v.Keys == w.Keys
    requires y.Some? ==> y.value in w && y.value != x
    requires Landed(v, u, dest, at, w[x].kind, y, units)
    ensures UnitsMoved(w, u, from, dest, at, x, y, units)
  {
  }

  lemma {:induction false} AfterLeaving(w: World<Item>, v: World<Item>, from: Item, x: Item, dest: Item, y: Item?,
                                        kind: Kind, m: nat)
    requires Linked(w) && Linked(v) && LeftBehind(w, v, from, x) && dest in w && !Above(w, x, dest)
    requires y != null ==> y in w && y != x && y in w[dest].items
    ensures !Above(v, x, dest) && (y != null ==> y in v && y in v[dest].items) && |v[dest].items| <= |w[dest].items|
    ensures forall k :: Merging(v, kind, Given(y), k) == Merging(w, kind, Given(y), k)
  {
    LeftNotAbove(w, v, from, x, x, dest);
    AimStillHeld(w, v, from, x, dest, y);
  }

  lemma {:induction false} AimStillHeld(w: World<Item>, v: World<Item>, from: Item, x: Item, dest: Item, y: Item?)
    requires Linked(w) && Linked(v) && LeftBehind(w, v, from, x) && dest in w
    requires y != null ==> y in w && y != x && y in w[dest].items
    ensures y != null ==> y in v[dest].items && v[y].kind == w[y].kind && v[y].count == w[y].count
  {
    if y != null {
      assert LinkedAt(w, dest);
      var j := StillHeld(w, v, from, x, dest, y);
    }
  }

  /** What a move keeps to: with the limits off, slots may be exceeded. */
  ghost function After(b: Bounds, t: Route): Bounds {
    if b.Slots? && t.flags.noLimit then Stacks else b
  }

  /** Moves `count` units of an item, or the item, between containers.  `moved` tells whether anything
      happened, `units` how much was taken and `got` how much arrived.  `b` is what the world is known
      to keep to: a move makes no cycle and leaves every weight right in any world. */
  method InternalMoveItem(from: Item, to: Item, index: int, item: Item, count: nat, flags: Flags, tradeItem: Item?,
                          ghost world: set<Item>, ghost value: Kind -> int, ghost b: Bounds)
    returns (r: ReturnValue, ghost moved: bool, ghost t: Route, ghost units: nat, ghost got: nat,
        ghost world': set<Item>)
    requires from in world && to in world && item in world && (tradeItem != null ==> tradeItem in world)
    requires to.isContainer && Sound(View(world)) && Tidy(View(world), b) && index >= -1 && !flags.childIsOwner
    modifies world
    ensures t == Routed(old(View(world)), to, index, item, flags, MAP_MAX_LAYERS)
    ensures world <= world' && fresh(world' - world) && Sound(View(world')) && Tidy(View(world'), After(b, t))
    ensures var refusal := old(Refusal(View(world), from, item, count, Given(tradeItem), t));
            (moved <==> refusal.None?) && (!moved ==> r == refusal.value)
    ensures !moved ==> world' == world && View(world) == old(View(world))
    ensures moved ==>
              && t.target.container in world && item in old(from.itemlist)
              && !Above(old(View(world)), item, t.target.container)
    ensures moved && tradeItem != null ==> !Above(old(View(world)), tradeItem, t.target.container)
    ensures moved && !b.Any? ==>
              var unit := value(old(View(world))[item].kind);
              Transferred(old(View(world)), View(world'), from, t.target.container, unit * units, unit * got, value)
    ensures moved ==>
              (t.target.item.Some? ==> t.target.item.value in world)
              && got == Arriving(old(View(world)), item, t.target, units)
    ensures moved ==> units == UnitsTaken(old(View(world))[item], Quantity(old(View(world)), item, count, t))
    ensures moved && old(item.kind).stackable ==>
              UnitsMoved(old(View(world)), View(world'), from, t.target.container, t.target.index, item, t.target.item,
                         units)
    ensures moved && !old(item.kind).stackable ==>
              && WholeMoved(old(View(world)), View(world'), from, t.target.container, item)
              && item.parent == t.target.container && item.kind == old(item.kind) && item.count == old(item.count)
              && item.itemlist == old(item.itemlist)
    ensures moved && !t.flags.noLimit ==> got == units
    ensures moved && r == NoError ==> units == if old(item.kind).stackable then count else old(item.count)
    ensures moved && r != NoError ==> r == ContainerNotEnoughRoom && old(item.kind).stackable && 0 < units < count
  {
    var ok, target, at, toItem, m, retMax;
    t := Routed(View(world), to, index, item, flags, MAP_MAX_LAYERS);
    ghost var refusal := Refusal(View(world), from, item, count, Given(tradeItem), t);
    r, ok, target, at, toItem, m, retMax := CheckMove(from, to, index, item, count, flags, tradeItem, world);
    assert refusal == Refusal(View(world), from, item, count, Given(tradeItem), t);
    moved, units, got, world' := ok, 0, 0, world;
    if !ok {
      return;
    }
    var stackable := item.kind.stackable;
    assert View(world)[item] == item.AsNode();
    units := UnitsTaken(View(world)[item], m);
    got := Arriving(View(world), item, t.target, units);
    world' := Perform(from, target, at, item, toItem, m, world, value, b, After(b, t));
    if stackable && m < count {
      r := retMax;
    }
  }

  /** The queries before a move to where it goes, in order.  `ok` means that `m` units, or the item, may move. */
  method AskMove(from: Item, target: Item, at: int, toItem: Item?, item: Item, count: nat, fl: Flags, tradeItem: Item?,
                 ghost world: set<Item>)
    returns (r: ReturnValue, ok: bool, m: nat, retMax: ReturnValue)
    requires from in world && target in world && item in world && (tradeItem != null ==> tradeItem in world)
    requires Sound(View(world)) && at >= -1
    ensures var refusal :=
              Refusal(View(world), from, item, count, Given(tradeItem), Route(Target(target, at, Given(toItem)), fl));
            (ok <==> refusal.None?) && (if ok then r == NoError else r == refusal.value)
    ensures ok ==> m == Quantity(View(world), item, count, Route(Target(target, at, Given(toItem)), fl))
    ensures ok && item.kind.stackable && m < count ==> retMax == ContainerNotEnoughRoom
  {
    ok, m, retMax := false, 0, NoError;
    if item == toItem {
      r := NoError;
      return;
    }
    r, m, retMax := AskEntry(target, at, toItem, item, count, fl, world);
    if r != NoError {
      return;
    }
    r := AskLeave(from, target, item, m, fl, tradeItem, world);
    ok := r == NoError;
  }

  method AskEntry(target: Item, at: int, ghost toItem: Item?, item: Item, count: nat, fl: Flags, ghost world: set<Item>)
    returns (r: ReturnValue, m: nat, retMax: ReturnValue)
    requires target in world && item in world && Sound(View(world)) && at >= -1
    ensures var t := Route(Target(target, at, Given(toItem)), fl);
            r == Entry(View(world), item, count, t) && (r == NoError ==> m == Quantity(View(world), item, count, t))
    ensures r == NoError && item.kind.stackable && m < count ==> retMax == ContainerNotEnoughRoom
  {
    r := target.QueryAdd(at, item, fl, world);
    m, retMax := 0, NoError;
    if r != NoError {
      return;
    }
    var maxCount;
    retMax, maxCount := target.QueryMaxCount(at, item, count, fl, world);
    if retMax != NoError && maxCount == 0 {
      r := retMax;
      return;
    }
    m := if item.kind.stackable && count < maxCount then count else maxCount;
  }

  method AskLeave(from: Item, target: Item, item: Item, m: nat, fl: Flags, tradeItem: Item?, ghost world: set<Item>)
    returns (r: ReturnValue)
    requires from in world && target in world && item in world && (tradeItem != null ==> tradeItem in world)
    requires Sound(View(world))
    ensures r == Exit(View(world), from, item, m, Given(tradeItem), target, fl)
  {
    r := from.QueryRemove(item, m, fl);
    if r != NoError {
      return;
    }
    var blocked := IntoTrade(target, tradeItem, world);
    if blocked {
      r := NotEnoughRoom;
    }
  }

  /** Would the move end in what is traded? */
  method IntoTrade(target: Item, tradeItem: Item?, ghost world: set<Item>) returns (blocked: bool)
    requires target in world && (tradeItem != null ==> tradeItem in world) && Sound(View(world))
    ensures blocked <==> tradeItem != null && Above(View(world), tradeItem, target)
  {
    if tradeItem == null {
      return false;
    }
    var inside := target.HasAbove(tradeItem, world);
    AboveOrBelow(View(world), tradeItem, target);
    blocked := target == tradeItem || inside;
  }

  /** Where the move goes, and whether it may.  `ok` means that `m` units, or the item, may move. */
  method CheckMove(from: Item, to: Item, index: int, item: Item, count: nat, flags: Flags, tradeItem: Item?,
                   ghost world: set<Item>)
    returns (r: ReturnValue, ok: bool, target: Item, at: int, toItem: Item?, m: nat, retMax: ReturnValue)
    requires from in world && to in world && item in world && (tradeItem != null ==> tradeItem in world)
    requires to.isContainer && Sound(View(world)) && index >= -1 && !flags.childIsOwner
    ensures target in world && target.isContainer && (toItem != null ==> toItem in world && toItem in target.itemlist)
    ensures var t := Routed(View(world), to, index, item, flags, MAP_MAX_LAYERS);
            var refusal := Refusal(View(world), from, item, count, Given(tradeItem), t);
            && t.target == Target(target, at, Given(toItem)) && (ok <==> refusal.None?) && (!ok ==> r == refusal.value)
            && (ok ==> m == Quantity(View(world), item, count, t))
            && (ok && !t.flags.noLimit ==>
                  && ((item.kind.stackable && Merging(View(world), item.kind, Given(toItem), m) == m)
                     || |target.itemlist| < target.maxSize)
                  && (at < target.maxSize || Merging(View(world), item.kind, Given(toItem), m) == m))
    ensures ok ==> item in from.itemlist && toItem != item && !Above(View(world), item, target)
    ensures ok ==>
              r == NoError && (if item.kind.stackable then 0 < m <= item.count && m <= count else at < target.maxSize)
    ensures ok && item.kind.stackable && m < count ==> retMax == ContainerNotEnoughRoom
    ensures ok && tradeItem != null ==> !Above(View(world), tradeItem, target)
  {
    var fl;
    target, at, toItem, fl := FindDestination(to, index, item, flags, world);
    r, ok, m, retMax := AskMove(from, target, at, toItem, item, count, fl, tradeItem, world);
    if ok {
      MoveAllowed(View(world), target, at, item, toItem, count, fl, m);
    }
  }

  /** A move that somebody asks for. */
  datatype Request = Request(from: Item, to: Item, index: int, item: Item, count: nat, flags: Flags, tradeItem: Item?)

  ghost predicate Askable(q: Request, world: set<Item>) {
    && q.from in world && q.to in world && q.item in world && q.to.isContainer
    && (q.tradeItem != null ==> q.tradeItem in world) && q.index >= -1 && !q.flags.childIsOwner
  }

  /** Whatever is moved wherever, with the limits on or off, no container ends up inside itself and
      every cached weight stays right. */
  method MoveAll(requests: seq<Request>, ghost world: set<Item>) returns (ghost world': set<Item>)
    requires Sound(View(world))
    requires forall q :: q in requests ==> Askable(q, world)
    modifies world
    ensures world <= world' && fresh(world' - world) && Sound(View(world'))
  {
    world' := world;
    for k := 0 to |requests|
      invariant world <= world' && fresh(world' - world) && Sound(View(world'))
    {
      var q := requests[k];
      assert q in requests && Askable(q, world);
      var r;
      ghost var moved, t, units, got;
      r, moved, t, units, got, world' :=
        InternalMoveItem(q.from, q.to, q.index, q.item, q.count, q.flags, q.tradeItem, world', kind => 0, Any);
    }
  }

  /** With the limits off, a stack of 60 behind the last slot takes 40 of 90 units: the rest is lost. */
  lemma {:induction false} BehindTheSlots(w: World<Item>, dest: Item, other: Item, stack: Item, x: Item, flags: Flags)
    requires Sound(w) && dest in w && w[dest].isContainer && dest.unlocked && dest.maxSize == 1
    requires w[dest].items == [other, stack]
    requires other in w && !w[other].isContainer && stack in w && x in w && x != stack && w[x].parent != Some(dest)
    requires w[x].kind.stackable && w[stack].kind == w[x].kind != w[other].kind && w[stack].count == 60
    requires w[x].count == 90
    requires flags.noLimit && !flags.ignoreAutoStack
    ensures Routed(w, dest, -1, x, flags, MAP_MAX_LAYERS) == Route(Target(dest, 1, Some(stack)), flags)
    ensures Arriving(w, x, Target(dest, 1, Some(stack)), 90) == 40
  {
    assert FirstStack(w, w[dest].items, x, 1) == 1;
    assert FirstStack(w, w[dest].items, x, 0) == 1;
  }

  lemma {:induction false} EmptySound(w: World<Item>)
    requires w == map[]
    ensures Sound(w)
  {
    assert GroundedBy(w, 0);
  }

  /** A new container of one slot around a new item. */
  method Box(kind: Kind, count: nat, ghost world: set<Item>) returns (c: Item, x: Item, ghost world': set<Item>)
    requires Sound(View(world)) && Stacked(View(world)) && count <= 100
    modifies world`totalWeight
    ensures fresh(c) && fresh(x) && c != x && world' == world + {c, x} && Sound(View(world')) && Stacked(View(world'))
    ensures c.isContainer && c.unlocked && c.maxSize == 1 && c.itemlist == [x] && c.parent == null
    ensures !x.isContainer && x.kind == kind && x.count == count && x.parent == c && x.itemlist == []
  {
    c, world' := Create(Kind(0, 0, 1, 0, false, true, true, false), 1, true, world);
    x, world' := Create(kind, count, false, world');
    PutLast(c, x, world');
  }

  method Create(kind: Kind, count: nat, isContainer: bool, ghost world: set<Item>) returns (x: Item,
                ghost world': set<Item>)
    requires Sound(View(world)) && Stacked(View(world)) && count <= 100 && (isContainer ==> !kind.stackable)
    ensures fresh(x) && world' == world + {x} && Sound(View(world')) && Stacked(View(world'))
    ensures x.isContainer == isContainer && x.maxSize == 1 && x.unlocked
    ensures x.kind == kind && x.count == count && x.parent == null && x.itemlist == []
  {
    x := new Item(kind, count, isContainer, 1, true);
    world' := world + {x};
    assert View(world')[x] == x.AsNode();
    ExtendedSound(View(world), View(world'), x, k => 0);
  }

  /** Puts an item that holds nothing behind what a container holds. */
  method PutLast(c: Item, x: Item, ghost world: set<Item>)
    requires c in world && x in world && c != x && Sound(View(world))
    requires c.isContainer && x.parent == null && x.itemlist == []
    modifies c`itemlist, x`parent, world`totalWeight
    ensures Sound(View(world)) && c.itemlist == old(c.itemlist) + [x] && x.parent == c
    ensures old(Stacked(View(world))) ==> Stacked(View(world))
  {
    FreshMayAdd(View(world), c, x);
    AboveOrBelow(View(world), x, c);
    ghost var w := View(world);
    c.AddItemBack(x, world);
    assert View(world)[c] == c.AsNode() && View(world)[x] == x.AsNode();
    assert Inserted(w[c].items, |w[c].items|, x) == w[c].items + [x];
  }

  lemma {:induction false} NotRefused(w: World<Item>, from: Item, dest: Item, stack: Item, x: Item, flags: Flags)
    requires Sound(w) && dest in w && x in w && stack in w && dest.unlocked && dest != x && x != stack
    requires w[dest].parent == None
    requires w[x] == x.AsNode() && x in from.itemlist && x.count == 90 && flags == NO_FLAGS.(noLimit := true)
    requires x.kind.stackable && x.kind.pickupable && x.kind.moveable && !x.kind.storeItem
    ensures Refusal(w, from, x, 90, None, Route(Target(dest, 1, Some(stack)), flags)) == None
  {
    forall k: nat | k > 0 ensures Climb(w, dest, k) == None { }
  }

  method MoveBehind(from: Item, dest: Item, other: Item, stack: Item, x: Item, ghost world: set<Item>)
    returns (r: ReturnValue, ghost units: nat, ghost got: nat)
    requires {from, dest, other, stack, x} <= world && Sound(View(world)) && Stacked(View(world))
    requires from.isContainer && from.itemlist == [x] && x.parent == from && x != stack && x != dest && dest != from
    requires dest.isContainer && dest.unlocked && dest.maxSize == 1 && dest.itemlist == [other, stack]
    requires dest.parent == null
    requires x.kind == stack.kind != other.kind && !other.isContainer && stack.count == 60 && x.count == 90
    requires x.kind.stackable && x.kind.pickupable && x.kind.moveable && !x.kind.storeItem
    modifies world
    ensures r == NoError && units == 90 && got == 40
  {
    ghost var w := View(world);
    assert w[dest] == dest.AsNode() && w[other] == other.AsNode() && w[stack] == stack.AsNode() && w[x] == x.AsNode();
    var flags := NO_FLAGS.(noLimit := true);
    BehindTheSlots(w, dest, other, stack, x, flags);
    NotRefused(w, from, dest, stack, x, flags);
    ghost var moved, t, world';
    r, moved, t, units, got, world' := InternalMoveItem(from, dest, -1, x, 90, flags, null, world, k => 1, Stacks);
  }

  /** The same with objects: the move reports no error. */
  method LosesUnits() returns (r: ReturnValue, ghost units: nat, ghost got: nat)
    ensures r == NoError && units == 90 && got == 40
  {
    var coin := Kind(2, 0, 1, 1, true, true, true, false);
    ghost var world := {};
    EmptySound(View(world));
    var from, dest, other, stack, x;
    from, x, world := Box(coin, 90, world);
    dest, other, world := Box(coin.(stackable := false), 1, world);
    stack, world := Create(coin, 60, false, world);
    PutLast(dest, stack, world);
    r, units, got := MoveBehind(from, dest, other, stack, x, world);
  }
}
