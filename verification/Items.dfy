/** Items and containers as objects whose fields change in place.  `world` is the ghost
    set of all items; `View(world)` is its shape. */
module Items {
  import opened Wrappers
  import opened Forest
  import opened Traversal

  class Item {
    var kind: Kind
    var count: nat
    var parent: Item?
    const isContainer: bool
    const maxSize: nat
    const unlocked: bool
    var itemlist: seq<Item>
    var totalWeight: int

    constructor (kind: Kind, count: nat, isContainer: bool, maxSize: nat, unlocked: bool)
      ensures this.isContainer == isContainer && this.maxSize == maxSize && this.unlocked == unlocked
      ensures AsNode() == Node(kind, count, None, isContainer, [], 0)
    {
      this.kind, this.count, this.parent := kind, count, null;
      this.isContainer, this.maxSize, this.unlocked := isContainer, maxSize, unlocked;
      this.itemlist, this.totalWeight := [], 0;
    }

    ghost function AsNode(): Node<Item>
      reads this
    {
      Node(kind, count, if parent == null then None else Some(parent as Item), isContainer, itemlist, totalWeight)
    }

    function GetWeight(): (r: int)
      reads this
      ensures r == NodeWeight(AsNode())
    {
      OwnWeight(kind, count) + if isContainer then totalWeight else 0
    }

    /** Changes this container's weight and then asks the container around it. */
    method UpdateItemWeight(diff: int, ghost world: set<Item>, ghost n: nat)
      requires this in world && ParentsKnown(View(world)) && Grounded(View(world))
      requires Climb(View(world), this, n) == None
      modifies world`totalWeight
      ensures View(world) == Bump(old(View(world)), this, diff)
      decreases n
    {
      ghost var before := View(world);
      BumpStep(before, this, diff);
      AddWeight(diff, world);
      ghost var here := View(world);
      if parent != null {
        SameParentsGrounded(before, here);
        ClimbFrame(before, here, parent, n - 1);
        parent.UpdateItemWeight(diff, world, n - 1);
      }
    }

    method GetThingIndex(thing: Item) returns (r: int)
      ensures r == -1 <==> thing !in itemlist
      ensures r != -1 ==> 0 <= r < |itemlist| && itemlist[r] == thing && thing !in itemlist[..r]
    {
      var index := 0;
      while index < |itemlist|
        invariant 0 <= index <= |itemlist| && thing !in itemlist[..index]
      {
        if itemlist[index] == thing {
          return index;
        }
        index := index + 1;
      }
      return -1;
    }

    /** One write to this container's list and one to the item's parent. */
    method Link(item: Item, items: seq<Item>, ghost world: set<Item>)
      requires this in world && item in world
      modifies this`itemlist, item`parent
      ensures View(world) == Placed(old(View(world)), this, item, items)
    {
      item.parent := this;
      itemlist := items;
    }

    method Unlink(item: Item, index: nat, ghost world: set<Item>)
      requires this in world && item in world && index < |itemlist| && itemlist[index] == item
      modifies this`itemlist, item`parent
      ensures View(world) == Taken(old(View(world)), this, index)
    {
      item.parent := null;
      itemlist := itemlist[..index] + itemlist[index + 1..];
    }

    method AddWeight(diff: int, ghost world: set<Item>)
      requires this in world
      modifies this`totalWeight
      ensures View(world) == BumpOne(old(View(world)), this, diff)
    {
      totalWeight := totalWeight + diff;
    }

    method SetLoose(ghost world: set<Item>)
      requires this in world
      modifies this`parent
      ensures View(world) == Loosened(old(View(world)), this)
    {
      parent := null;
    }

    method SetStack(newKind: Kind, newCount: nat, ghost world: set<Item>)
      requires this in world
      modifies this`kind, this`count
      ensures View(world) == Restacked(old(View(world)), this, newKind, newCount)
    {
      kind := newKind;
      count := newCount;
    }

    /** Tells this container and those around it about a new weight. */
    method PushWeight(diff: int, ghost world: set<Item>)
      requires this in world && ParentsKnown(View(world)) && Grounded(View(world))
      modifies world`totalWeight
      ensures View(world) == Bump(old(View(world)), this, diff)
    {
      ghost var n: nat :| GroundedBy(View(world), n);
      UpdateItemWeight(diff, world, n);
    }

    method AddThing(index: int, item: Item, ghost world: set<Item>)
      requires this in world && item in world && Sound(View(world))
      requires isContainer && item.parent == null && !Above(View(world), item, this)
      modifies this`itemlist, item`parent, world`totalWeight
      ensures Sound(View(world))
      ensures View(world) ==
              if index >= maxSize then old(View(world)) else InsertAt(old(View(world)), this, 0, item)
    {
      if index >= maxSize {
        return;
      }
      InternalAddThing(item, world);
    }

    method InternalAddThing(item: Item, ghost world: set<Item>)
      requires this in world && item in world && Sound(View(world))
      requires isContainer && item.parent == null && !Above(View(world), item, this)
      modifies this`itemlist, item`parent, world`totalWeight
      ensures Sound(View(world))
      ensures View(world) == InsertAt(old(View(world)), this, 0, item)
    {
      ghost var before := View(world);
      InsertSound(before, this, 0, item);
      var weight := item.GetWeight();
      assert [item] + itemlist == Inserted(itemlist, 0, item);
      Link(item, [item] + itemlist, world);
      PlacedReady(before, this, 0, item);
      PushWeight(weight, world);
    }

    method AddItemBack(item: Item, ghost world: set<Item>)
      requires this in world && item in world && Sound(View(world))
      requires isContainer && item.parent == null && !Above(View(world), item, this)
      modifies this`itemlist, item`parent, world`totalWeight
      ensures Sound(View(world))
      ensures View(world) == InsertAt(old(View(world)), this, |old(itemlist)|, item)
    {
      ghost var before := View(world);
      InsertSound(before, this, |itemlist|, item);
      var weight := item.GetWeight();
      assert itemlist + [item] == Inserted(itemlist, |itemlist|, item);
      Link(item, itemlist + [item], world);
      PlacedReady(before, this, |before[this].items|, item);
      PushWeight(weight, world);
    }

    method UpdateThing(item: Item, itemKind: Kind, newCount: nat, ghost world: set<Item>)
      requires this in world && item in world && Sound(View(world))
      modifies item`kind, item`count, world`totalWeight
      ensures Sound(View(world))
      ensures item !in old(itemlist) ==> View(world) == old(View(world))
      ensures forall j :: 0 <= j < |old(itemlist)| && old(itemlist)[j] == item ==>
                View(world) == SetAt(old(View(world)), this, j, itemKind, newCount % 256)
    {
      var index := GetThingIndex(item);
      if index == -1 {
        return;
      }
      HeldOnce(View(world), this, index);
      ChangeStack(item, index, itemKind, newCount % 256, world);
    }

    /** The part `UpdateThing` and `RemoveThing` share. */
    method ChangeStack(item: Item, ghost index: nat, itemKind: Kind, newCount: nat, ghost world: set<Item>)
      requires this in world && item in world && Sound(View(world))
      requires index < |itemlist| && itemlist[index] == item
      modifies item`kind, item`count, world`totalWeight
      ensures Sound(View(world))
      ensures View(world) == SetAt(old(View(world)), this, index, itemKind, newCount)
    {
      ghost var before := View(world);
      SetSound(before, this, index, itemKind, newCount);
      SetReady(before, this, index, itemKind, newCount);
      var weight := item.GetWeight();
      item.SetStack(itemKind, newCount, world);
      var diff := item.GetWeight() - weight;
      assert diff == OwnWeight(itemKind, newCount) - OwnWeight(before[item].kind, before[item].count);
      PushWeight(diff, world);
      assert View(world) == Bump(Restacked(before, item, itemKind, newCount), this, diff);
      SetAtIs(before, this, index, item, itemKind, newCount, diff);
    }

    method TakeOut(item: Item, index: nat, ghost world: set<Item>)
      requires this in world && item in world && Sound(View(world))
      requires index < |itemlist| && itemlist[index] == item
      modifies this`itemlist, item`parent, world`totalWeight
      ensures Sound(View(world))
      ensures View(world) == RemoveAt(old(View(world)), this, index)
    {
      ghost var before := View(world);
      RemoveSound(before, this, index);
      RemoveReady(before, this, index);
      var diff := -item.GetWeight();
      PushWeight(diff, world);
      assert View(world) == Bump(before, this, diff);
      RemoveAtIs(before, this, index, item, diff);
      Unlink(item, index, world);
    }

    method RemoveThing(item: Item, amount: nat, ghost world: set<Item>)
      requires this in world && item in world && Sound(View(world))
      modifies this`itemlist, item`parent, item`kind, item`count, world`totalWeight
      ensures Sound(View(world))
      ensures item !in old(itemlist) ==> View(world) == old(View(world))
      ensures forall j :: 0 <= j < |old(itemlist)| && old(itemlist)[j] == item ==>
                View(world) == RemovedFrom(old(View(world)), this, j, amount)
    {
      var index := GetThingIndex(item);
      if index == -1 {
        return;
      }
      HeldOnce(View(world), this, index);
      if item.kind.stackable && amount != item.count {
        ChangeStack(item, index, item.kind, if amount < item.count then item.count - amount else 0, world);
      } else {
        TakeOut(item, index, world);
      }
    }

    method ReplaceThing(index: nat, item: Item, ghost world: set<Item>)
      requires this in world && item in world && Sound(View(world))
      requires item.parent == null && !Above(View(world), item, this)
      modifies this`itemlist, item`parent, world`parent, world`totalWeight
      ensures Sound(View(world))
      ensures index >= |old(itemlist)| ==> View(world) == old(View(world))
      ensures index < |old(itemlist)| ==> old(itemlist)[index] in world && old(itemlist)[index] != this
      ensures index < |old(itemlist)| ==> View(world) == ReplaceAt(old(View(world)), this, index, item)
    {
      if index >= |itemlist| {
        return;
      }
      ghost var before := View(world);
      ReplaceReady(before, this, index, item);
      ReplaceInPlace(before, this, index, item);
      SwapIn(index, item, itemlist[index], world);
    }

    method SwapIn(index: nat, item: Item, replaced: Item, ghost world: set<Item>)
      requires this in world && item in world && replaced in world && index < |itemlist|
      requires ParentsKnown(Placed(View(world), this, item, itemlist[index := item]))
      requires Grounded(Placed(View(world), this, item, itemlist[index := item]))
      modifies this`itemlist, item`parent, replaced`parent, world`totalWeight
      ensures View(world) == SwappedIn(old(View(world)), this, item, old(itemlist)[index := item], replaced)
    {
      ghost var w := View(world);
      ghost var items := itemlist[index := item];
      var diff := item.GetWeight() - replaced.GetWeight();
      Link(item, itemlist[index := item], world);
      PushWeight(diff, world);
      assert View(world) == Bump(Placed(w, this, item, items), this, diff);
      SwappedInIs(w, this, item, items, replaced, diff);
      replaced.SetLoose(world);
    }

    /** How many items are inside, at any depth. */
    method GetItemHoldingCount(ghost world: set<Item>) returns (counter: nat)
      requires this in world && Sound(View(world))
      ensures counter == |set x | x in world && Below(View(world), x, this)|
    {
      ghost var w := View(world);
      counter := 0;
      var it := new ContainerIterator(this);
      ghost var closed, seen := [], [];
      WalkBegins(w, this);
      while it.HasNext()
        invariant fresh(it) && View(world) == w
        invariant Walking(w, this, it.At(), closed, seen) && counter == |seen|
        decreases |world| - |seen|
      {
        closed, seen := WalkOneStep(w, world, this, it.At(), closed, seen);
        counter := counter + 1;
        it.Advance(world);
      }
      WalkEnds(w, this, it.At(), closed, seen);
      NoDupBound(seen, set x | x in world && Below(w, x, this));
    }

    method IsHoldingItem(item: Item, ghost world: set<Item>) returns (r: bool)
      requires this in world && item in world && Sound(View(world))
      ensures r <==> Below(View(world), item, this)
    {
      ghost var w := View(world);
      var it := new ContainerIterator(this);
      ghost var closed, seen := [], [];
      WalkBegins(w, this);
      while it.HasNext()
        invariant fresh(it) && View(world) == w
        invariant Walking(w, this, it.At(), closed, seen) && item !in seen
        decreases |world| - |seen|
      {
        CurrentIsNew(w, this, it.At(), closed, seen);
        var current := it.Get(world);
        if current == item {
          return true;
        }
        closed, seen := WalkOneStep(w, world, this, it.At(), closed, seen);
        it.Advance(world);
      }
      WalkEnds(w, this, it.At(), closed, seen);
      return false;
    }

    /** Everything inside, each item once. */
    method GetItems(ghost world: set<Item>) returns (all: seq<Item>)
      requires this in world && Sound(View(world))
      ensures NoDup(all) && forall x :: x in world ==> (x in all <==> Below(View(world), x, this))
    {
      ghost var w := View(world);
      all := [];
      var it := new ContainerIterator(this);
      ghost var closed := [];
      WalkBegins(w, this);
      while it.HasNext()
        invariant fresh(it) && View(world) == w
        invariant Walking(w, this, it.At(), closed, all)
        decreases |world| - |all|
      {
        ghost var seen;
        closed, seen := WalkOneStep(w, world, this, it.At(), closed, all);
        var item := it.Get(world);
        all := all + [item];
        it.Advance(world);
      }
      WalkEnds(w, this, it.At(), closed, all);
    }

    // ------------------------------------------------------------ queries

    /** The walk up the cylinders: is `item` a container around this one? */
    method HasAbove(item: Item, ghost world: set<Item>) returns (r: bool)
      requires this in world && item in world && Sound(View(world))
      ensures r <==> Below(View(world), this, item)
    {
      ghost var w := View(world);
      ghost var n: nat :| GroundedBy(w, n);
      ghost var k := 1;
      var cylinder := parent;
      assert LinkedAt(w, this);
      ClimbParent(w, this, 0);
      while cylinder != null
        invariant Climb(w, this, k) == (if cylinder == null then None else Some(cylinder as Item))
        invariant forall i :: 0 < i < k ==> Climb(w, this, i) != Some(item)
        invariant k > 0
        decreases n - k
      {
        if k >= n { ClimbStops(w, this, n, k); }
        ClimbIn(w, this, k);
        if cylinder == item {
          return true;
        }
        ClimbParent(w, this, k);
        k := k + 1;
        cylinder := cylinder.parent;
      }
      forall i: nat | i > 0 ensures Climb(w, this, i) != Some(item) {
        if i >= k { ClimbStops(w, this, k, i); }
      }
      return false;
    }

    method QueryAdd(index: int, item: Item, flags: Flags, ghost world: set<Item>) returns (r: ReturnValue)
      requires this in world && item in world && Sound(View(world))
      ensures r == MayAdd(View(world), this, index, item, flags)
    {
      if flags.childIsOwner {
        return NoError;
      }
      if !unlocked {
        return NotPossible;
      }
      if !item.kind.pickupable {
        return CannotPickup;
      }
      if item == this {
        return ThisIsImpossible;
      }
      if item.kind.storeItem {
        return ItemCannotBeMovedThere;
      }
      var inside := HasAbove(item, world);
      if inside {
        return ThisIsImpossible;
      }
      if !flags.noLimit && index == -1 && |itemlist| >= maxSize {
        return ContainerNotEnoughRoom;
      }
      return NoError;
    }

    method QueryMaxCount(index: int, item: Item, amount: nat, flags: Flags, ghost world: set<Item>)
      returns (r: ReturnValue, maxCount: nat)
      requires this in world && item in world && Sound(View(world)) && index >= -1
      ensures r == NoError <==> (flags.noLimit || (if item.kind.stackable then maxCount >= amount else maxCount > 0))
      ensures r == NoError || r == ContainerNotEnoughRoom
      ensures maxCount == MaxCount(View(world), this, index, item, amount, flags)
    {
      if flags.noLimit {
        return NoError, if amount < 1 then 1 else amount;
      }
      var freeSlots := if |itemlist| < maxSize then maxSize - |itemlist| else 0;
      if item.kind.stackable {
        var n := StackableRoom(index, item, flags, world);
        maxCount := freeSlots * 100 + n;
        return if maxCount < amount then ContainerNotEnoughRoom else NoError, maxCount;
      }
      maxCount := freeSlots;
      return if maxCount == 0 then ContainerNotEnoughRoom else NoError, maxCount;
    }

    /** How many units the stacks that are already here can still take. */
    method StackableRoom(index: int, item: Item, flags: Flags, ghost world: set<Item>) returns (n: nat)
      requires this in world && item in world && Sound(View(world)) && index >= -1
      ensures n == StackRoom(View(world), this, index, item, flags)
    {
      ghost var w := View(world);
      assert LinkedAt(w, this);
      n := 0;
      if index == -1 {
        var i := 0;
        while i < |itemlist|
          invariant 0 <= i <= |itemlist|
          invariant n == Slack(w, this, itemlist[..i], item, flags)
        {
          var held := itemlist[i];
          SlackSnoc(w, this, itemlist[..i], held, item, flags);
          assert itemlist[..i + 1] == itemlist[..i] + [held];
          if held != item && held.kind == item.kind && held.count < 100 {
            var add := QueryAdd(i, item, flags, world);
            if add == NoError {
              n := n + (100 - held.count);
            }
          }
          i := i + 1;
        }
        assert itemlist[..i] == itemlist;
      } else if index < |itemlist| && item.kind == itemlist[index].kind && itemlist[index].count < 100 {
        var add := QueryAdd(index, item, flags, world);
        if add == NoError {
          n := 100 - itemlist[index].count;
        }
      }
    }

    method QueryRemove(item: Item, amount: nat, flags: Flags) returns (r: ReturnValue)
      ensures r == MayRemove(this, item, amount, flags)
    {
      var index := GetThingIndex(item);
      if index == -1 {
        return NotPossible;
      }
      if amount == 0 || (item.kind.stackable && amount > item.count) {
        return NotPossible;
      }
      if !item.kind.moveable && !flags.ignoreNotMoveable {
        return NotMoveable;
      }
      return NoError;
    }

    /** Where an add at `index` really goes: this container, the one above, or one held here. */
    method QueryDestination(index: int, item: Item, flags: Flags, ghost world: set<Item>)
      returns (dest: Item, index': int, destItem: Item?)
      requires this in world && item in world && Sound(View(world)) && index >= -1
      ensures Destination(View(world), this, index, item, flags)
              == Target(dest, index', if destItem == null then None else Some(destItem as Item))
    {
      ghost var w := View(world);
      assert LinkedAt(w, this);
      dest, index', destItem := this, index, null;
      if !unlocked {
        return;
      }
      if index == 254 {
        return if parent != null then parent else this, -1, null;
      }
      if index == 255 || index >= maxSize {
        index' := -1;
      }
      if index' != -1 {
        if index' < |itemlist| {
          destItem := itemlist[index'];
        }
        if destItem != null && destItem.isContainer {
          return destItem, -1, null;
        }
      }
      if !flags.ignoreAutoStack && item.kind.stackable && item.parent != this {
        if destItem != null && destItem.kind == item.kind && destItem.count < 100 {
          return;
        }
        var n := 0;
        while n < |itemlist|
          invariant 0 <= n <= |itemlist|
          invariant FirstStack(w, itemlist, item, 0) == FirstStack(w, itemlist, item, n)
        {
          if itemlist[n] != item && itemlist[n].kind == item.kind && itemlist[n].count < 100 {
            return this, n, itemlist[n];
          }
          n := n + 1;
        }
      }
    }
  }

  class ContainerIterator {
    var over: seq<Item>
    var cur: nat

    constructor (container: Item)
      ensures over == (if container.itemlist == [] then [] else [container]) && cur == 0
    {
      over := if container.itemlist == [] then [] else [container];
      cur := 0;
    }

    ghost function At(): Cursor<Item>
      reads this
    {
      Cursor(over, cur)
    }

    predicate HasNext()
      reads this
    {
      over != []
    }

    method Get(ghost world: set<Item>) returns (item: Item)
      requires Readable(View(world), At())
      ensures item == Current(View(world), At())
    {
      item := over[0].itemlist[cur];
    }

    method Advance(ghost world: set<Item>)
      requires Readable(View(world), At())
      modifies this
      ensures At() == Next(old(View(world)), old(At())) && View(world) == old(View(world))
    {
      var item := over[0].itemlist[cur];
      if item.isContainer && item.itemlist != [] {
        over := over + [item];
      }
      cur := cur + 1;
      if cur == |over[0].itemlist| {
        over, cur := over[1..], 0;
      }
    }
  }

  lemma {:induction false} WalkOneStep(w: World<Item>, world: set<Item>, root: Item, it: Cursor<Item>,
                                       closed: seq<Item>, seen: seq<Item>)
    returns (closed': seq<Item>, seen': seq<Item>)
    requires Sound(w) && w.Keys == world && Walking(w, root, it, closed, seen) && it.over != []
    ensures Readable(w, it) && seen' == seen + [Current(w, it)]
    ensures Walking(w, root, Next(w, it), closed', seen') && |seen'| <= |world|
  {
    CurrentIsNew(w, root, it, closed, seen);
    WalkAdvances(w, root, it, closed, seen);
    closed' := Closed(it, closed, it.cur + 1 == |w[it.over[0]].items|);
    seen' := seen + [Current(w, it)];
    NoDupBound(seen', world);
  }

  datatype ReturnValue =
    | NoError | NotPossible | CannotPickup | ThisIsImpossible | ItemCannotBeMovedThere
    | ContainerNotEnoughRoom | NotMoveable | NotEnoughRoom

  datatype Flags = Flags(noLimit: bool, childIsOwner: bool, ignoreNotMoveable: bool, ignoreAutoStack: bool)

  const NO_FLAGS := Flags(false, false, false, false)

  /** When `c` accepts `x`: the refusals in the order in which they are made. */
  ghost function MayAdd(w: World<Item>, c: Item, index: int, x: Item, flags: Flags): ReturnValue
    requires c in w && x in w
  {
    if flags.childIsOwner then NoError
    else if !c.unlocked then NotPossible
    else if !w[x].kind.pickupable then CannotPickup
    else if x == c then ThisIsImpossible
    else if w[x].kind.storeItem then ItemCannotBeMovedThere
    else if Below(w, c, x) then ThisIsImpossible
    else if !flags.noLimit && index == -1 && |w[c].items| >= c.maxSize then ContainerNotEnoughRoom
    else NoError
  }

  /** The room left on the stacks of `s` that can take `x`. */
  ghost function Slack(w: World<Item>, c: Item, s: seq<Item>, x: Item, flags: Flags): nat
    requires c in w && x in w && forall i :: 0 <= i < |s| ==> s[i] in w
  {
    if s == [] then 0
    else (if s[0] != x && w[s[0]].kind == w[x].kind && w[s[0]].count < 100 && MayAdd(w, c, 0, x, flags) == NoError
          then 100 - w[s[0]].count else 0) + Slack(w, c, s[1..], x, flags)
  }

  lemma {:induction false} SlackSnoc(w: World<Item>, c: Item, s: seq<Item>, y: Item, x: Item, flags: Flags)
    requires c in w && x in w && y in w && forall i :: 0 <= i < |s| ==> s[i] in w
    ensures Slack(w, c, s + [y], x, flags)
            == Slack(w, c, s, x, flags) + Slack(w, c, [y], x, flags)
  {
    if s == [] {
      assert s + [y] == [y];
    } else {
      SlackSnoc(w, c, s[1..], y, x, flags);
      assert (s + [y])[1..] == s[1..] + [y];
    }
  }

  ghost function FreeSlots(w: World<Item>, c: Item): nat
    requires c in w
  {
    if |w[c].items| < c.maxSize then c.maxSize - |w[c].items| else 0
  }

  ghost function StackRoom(w: World<Item>, c: Item, index: int, x: Item, flags: Flags): nat
    requires Linked(w) && c in w && x in w && index >= -1
  {
    assert LinkedAt(w, c);
    if index == -1 then Slack(w, c, w[c].items, x, flags)
    else if index < |w[c].items| && w[w[c].items[index]].kind == w[x].kind && w[w[c].items[index]].count < 100
            && MayAdd(w, c, index, x, flags) == NoError
    then 100 - w[w[c].items[index]].count
    else 0
  }

  /** How many units of `x` the container can take. */
  ghost function MaxCount(w: World<Item>, c: Item, index: int, x: Item, amount: nat, flags: Flags): nat
    requires Linked(w) && c in w && x in w && index >= -1
  {
    if flags.noLimit then (if amount < 1 then 1 else amount)
    else if !w[x].kind.stackable then FreeSlots(w, c)
    else FreeSlots(w, c) * 100 + StackRoom(w, c, index, x, flags)
  }

  ghost function MayRemove(c: Item, x: Item, amount: nat, flags: Flags): ReturnValue
    reads c, x
  {
    if x !in c.itemlist || amount == 0 || (x.kind.stackable && amount > x.count) then NotPossible
    else if !x.kind.moveable && !flags.ignoreNotMoveable then NotMoveable
    else NoError
  }

  /** `y` is a stack that can take units of `x`. */
  ghost predicate StacksWith(w: World<Item>, y: Item, x: Item)
    requires x in w && y in w
  {
    y != x && w[y].kind == w[x].kind && w[y].count < 100
  }

  /** The first position from `n` on whose stack can take `x`; the length when there is none. */
  ghost function FirstStack(w: World<Item>, s: seq<Item>, x: Item, n: nat): (r: nat)
    requires x in w && n <= |s| && forall i :: 0 <= i < |s| ==> s[i] in w
    ensures n <= r <= |s|
    ensures forall i :: n <= i < r ==> !StacksWith(w, s[i], x)
    ensures r < |s| ==> StacksWith(w, s[r], x)
    decreases |s| - n
  {
    if n == |s| || StacksWith(w, s[n], x) then n else FirstStack(w, s, x, n + 1)
  }

  datatype Target = Target(container: Item, index: int, item: Option<Item>)

  /** The container, position and item an add really aims at. */
  ghost function Destination(w: World<Item>, c: Item, index: int, x: Item, flags: Flags): Target
    requires Linked(w) && c in w && x in w && index >= -1
  {
    assert LinkedAt(w, c);
    var items := w[c].items;
    if !c.unlocked then Target(c, index, None)
    else if index == 254 then Target(w[c].parent.GetOr(c), -1, None)
    else
      var i := if index == 255 || index >= c.maxSize then -1 else index;
      var at := if 0 <= i < |items| then Some(items[i]) else None;
      if at.Some? && w[at.value].isContainer then Target(at.value, -1, None)
      else if !flags.ignoreAutoStack && w[x].kind.stackable && w[x].parent != Some(c)
              && !(at.Some? && w[at.value].kind == w[x].kind && w[at.value].count < 100)
              && FirstStack(w, items, x, 0) < |items|
      then Target(c, FirstStack(w, items, x, 0), Some(items[FirstStack(w, items, x, 0)]))
      else Target(c, i, at)
  }

  ghost function View(world: set<Item>): World<Item>
    reads world
  {
    map i | i in world :: i.AsNode()
  }

  ghost predicate ParentsKnown(w: World<Item>) {
    forall x {:trigger w[x].parent} :: x in w && w[x].parent.Some? ==> w[x].parent.value in w
  }

  // ------------------------------------------ what the pushes start from

  lemma {:induction false} LinkedKnown(w: World<Item>)
    requires Linked(w)
    ensures ParentsKnown(w)
  {
    forall x | x in w && w[x].parent.Some? ensures w[x].parent.value in w { assert LinkedAt(w, x); }
  }

  lemma {:induction false} PlacedReady(w: World<Item>, c: Item, j: nat, x: Item)
    requires Sound(w) && c in w && x in w && w[c].isContainer && w[x].parent == None
    requires j <= |w[c].items| && !Above(w, x, c)
    ensures var v := Placed(w, c, x, Inserted(w[c].items, j, x)); ParentsKnown(v) && Grounded(v)
  {
    assert Climb(w, c, 0) == Some(c);
    PlacedLinks(w, c, x, j);
    AttachGrounded(w, Placed(w, c, x, Inserted(w[c].items, j, x)), x, c);
    LinkedKnown(Placed(w, c, x, Inserted(w[c].items, j, x)));
  }

  lemma {:induction false} SetReady(w: World<Item>, c: Item, j: nat, kind: Kind, count: nat)
    requires Sound(w) && c in w && j < |w[c].items|
    ensures var x := w[c].items[j];
            x in w && w[x].parent == Some(c)
            && var v := Restacked(w, x, kind, count); ParentsKnown(v) && Grounded(v)
  {
    assert LinkedAt(w, c);
    LinkedKnown(w);
    var x := w[c].items[j];
    SameParentsGrounded(w, Restacked(w, x, kind, count));
  }

  lemma {:induction false} SetAtIs(w: World<Item>, c: Item, j: nat, x: Item, kind: Kind, count: nat, diff: int)
    requires c in w && j < |w[c].items| && w[c].items[j] == x && x in w
    requires diff == OwnWeight(kind, count) - OwnWeight(w[x].kind, w[x].count)
    ensures SetAt(w, c, j, kind, count) == Bump(Restacked(w, x, kind, count), c, diff)
  {
  }

  lemma {:induction false} RemoveReady(w: World<Item>, c: Item, j: nat)
    requires Sound(w) && c in w && j < |w[c].items|
    ensures w[c].items[j] in w && w[c].items[j] != c && ParentsKnown(w) && Grounded(w)
  {
    TakenLinks(w, c, j);
    LinkedKnown(w);
  }

  /** The source pushes the weight before it unlinks the item; the order makes no difference. */
  lemma {:induction false} RemoveAtIs(w: World<Item>, c: Item, j: nat, x: Item, diff: int)
    requires Sound(w) && c in w && j < |w[c].items| && w[c].items[j] == x && x in w && x != c
    requires diff == -NodeWeight(w[x])
    ensures RemoveAt(w, c, j) == Taken(Bump(w, c, diff), c, j)
  {
    assert LinkedAt(w, c);
    TakenLinks(w, c, j);
    ParentNotBelow(w, c, x);
    AboveAvoids(w, Taken(w, c, j), x, None, c);
  }

  lemma {:induction false} HeldOnce(w: World<Item>, c: Item, j: nat)
    requires Sound(w) && c in w && j < |w[c].items|
    ensures forall i :: 0 <= i < |w[c].items| && w[c].items[i] == w[c].items[j] ==> i == j
  {
    assert LinkedAt(w, c);
  }

  lemma {:induction false} ReplaceReady(w: World<Item>, c: Item, j: nat, x: Item)
    requires Sound(w) && c in w && x in w && w[x].parent == None && j < |w[c].items| && !Above(w, x, c)
    ensures var y := w[c].items[j];
            y in w && y != c && y != x && x != c
            && Sound(ReplaceAt(w, c, j, x))
            && ParentsKnown(Placed(w, c, x, w[c].items[j := x])) && Grounded(Placed(w, c, x, w[c].items[j := x]))
  {
    assert LinkedAt(w, c);
    assert Climb(w, c, 0) == Some(c);
    ReplaceSound(w, c, j, x);
    TakenLinks(w, c, j);
    LinkedKnown(w);
    AttachGrounded(w, Placed(w, c, x, w[c].items[j := x]), x, c);
  }

  /** The state after the three writes of a replacement: link, push the difference, unlink. */
  ghost function SwappedIn(w: World<Item>, c: Item, x: Item, items: seq<Item>, y: Item): World<Item>
    requires c in w && x in w && y in w
  {
    Loosened(Bump(Placed(w, c, x, items), c, NodeWeight(w[x]) - NodeWeight(w[y])), y)
  }

  lemma {:induction false} SwappedInIs(w: World<Item>, c: Item, x: Item, items: seq<Item>, y: Item, diff: int)
    requires c in w && x in w && y in w && diff == NodeWeight(w[x]) - NodeWeight(w[y])
    ensures SwappedIn(w, c, x, items, y) == Loosened(Bump(Placed(w, c, x, items), c, diff), y)
  {
  }

  ghost predicate SameAbove(w: World<Item>, c: Item, j: nat, x: Item, a: Item)
    requires c in w && x in w && a in w && j < |w[c].items| && w[c].items[j] in w && w[c].items[j] != c
  {
    var t := RemoveAt(w, c, j);
    && (Above(Placed(w, c, x, w[c].items[j := x]), a, c) <==> Above(w, a, c))
    && (Above(Taken(w, c, j), a, c) <==> Above(w, a, c))
    && (Above(Placed(t, c, x, Inserted(t[c].items, j, x)), a, c) <==> Above(w, a, c))
  }

  lemma {:induction false} ReplaceKeepsAbove(w: World<Item>, c: Item, j: nat, x: Item, a: Item)
    requires Sound(w) && c in w && x in w && w[x].parent == None && j < |w[c].items| && !Above(w, x, c)
    requires w[c].items[j] in w && w[c].items[j] != c && w[c].items[j] != x && x != c && a in w
    ensures SameAbove(w, c, j, x, a)
  {
    assert LinkedAt(w, c);
    var y := w[c].items[j];
    ParentNotBelow(w, c, y);
    var t := RemoveAt(w, c, j);
    AboveAvoids(w, Placed(w, c, x, w[c].items[j := x]), x, Some(c), c);
    AboveAvoids(w, Taken(w, c, j), y, None, c);
    AboveAvoids(w, t, y, None, c);
    AboveAvoids(t, Placed(t, c, x, Inserted(t[c].items, j, x)), x, Some(c), c);
  }

  lemma {:induction false} ReplacedNode(w: World<Item>, c: Item, j: nat, x: Item, a: Item)
    requires c in w && x in w && a in w && j < |w[c].items|
    requires w[c].items[j] in w && w[c].items[j] != c && w[c].items[j] != x && x != c && !Above(w, x, c)
    requires SameAbove(w, c, j, x, a) && SameAbove(w, c, j, x, x)
    ensures ReplaceAt(w, c, j, x)[a] == SwappedIn(w, c, x, w[c].items[j := x], w[c].items[j])[a]
  {
    var t := RemoveAt(w, c, j);
    assert Inserted(t[c].items, j, x) == w[c].items[j := x];
  }

  /** Replacing in place ends in the state of removing one item and inserting the other. */
  lemma {:induction false} ReplaceInPlace(w: World<Item>, c: Item, j: nat, x: Item)
    requires Sound(w) && c in w && x in w && w[x].parent == None && j < |w[c].items| && !Above(w, x, c)
    requires w[c].items[j] in w && w[c].items[j] != c && w[c].items[j] != x && x != c
    ensures ReplaceAt(w, c, j, x) == SwappedIn(w, c, x, w[c].items[j := x], w[c].items[j])
  {
    ReplaceKeepsAbove(w, c, j, x, x);
    forall a | a in w ensures ReplaceAt(w, c, j, x)[a] == SwappedIn(w, c, x, w[c].items[j := x], w[c].items[j])[a] {
      ReplaceKeepsAbove(w, c, j, x, a);
      ReplacedNode(w, c, j, x, a);
    }
  }

  lemma {:induction false} ClimbParent(w: World<Item>, x: Item, k: nat)
    requires Linked(w) && Climb(w, x, k).Some?
    ensures Climb(w, x, k).value in w
    ensures Climb(w, x, k + 1) == w[Climb(w, x, k).value].parent
  {
    ClimbIn(w, x, k);
    var a := Climb(w, x, k).value;
    ClimbAdd(w, x, a, k, 1);
    assert LinkedAt(w, a);
  }

  /** What a container weighs is its own weight and that of everything inside it, at every depth. */
  lemma {:induction false} WeightIsDeep(world: set<Item>, c: Item, n: nat)
    requires c in world && c.isContainer && Sound(View(world)) && GroundedBy(View(world), n)
    ensures c.GetWeight() == OwnWeight(c.kind, c.count) + DeepWeight(View(world), c, n)
  {
    assert View(world)[c] == c.AsNode();
    CachedIsDeep(View(world), c, n);
  }
}
