/** Paying with coins that lie anywhere inside a container. */
module Money {
  import opened Arithmetic
  import opened Wrappers
  import opened Forest
  import opened Traversal
  import opened Tally
  import opened Places
  import opened Items
  import opened Moves
  import opened MoveItem

  /** What one unit of a kind is worth. */
  function Worth(kind: Kind): int {
    kind.worth
  }

  // ------------------------------------------------------ collecting the coins

  ghost function Boxes(w: World<Item>, s: seq<Item>): seq<Item>
    requires Known(w, s)
  {
    if s == [] then []
    else Boxes(w, s[..|s| - 1]) + if w[s[|s| - 1]].isContainer then [s[|s| - 1]] else []
  }

  lemma {:induction false} BoxesHas(w: World<Item>, s: seq<Item>, x: Item)
    requires Known(w, s)
    ensures x in Boxes(w, s) <==> x in s && w[x].isContainer
  {
    if s != [] {
      BoxesHas(w, s[..|s| - 1], x);
      assert s == s[..|s| - 1] + [s[|s| - 1]];
    }
  }

  lemma {:induction false} BoxesNoDup(w: World<Item>, s: seq<Item>)
    requires Known(w, s) && NoDup(s)
    ensures NoDup(Boxes(w, s))
  {
    if s != [] {
      BoxesNoDup(w, s[..|s| - 1]);
      BoxesHas(w, s[..|s| - 1], s[|s| - 1]);
    }
  }

  /** Boxes `[..i]` and the first `k` items of box `i` were read; `seen` is what was read. */
  ghost predicate Gathering(w: World<Item>, root: Item, boxes: seq<Item>, i: nat, k: nat, seen: seq<Item>) {
    && root in w && Known(w, boxes) && Known(w, seen) && i <= |boxes|
    && boxes == [root] + Boxes(w, seen)
    && (i < |boxes| ==> k <= |w[boxes[i]].items|)
    && seen == Flat(w, boxes[..i]) + (if i < |boxes| then w[boxes[i]].items[..k] else [])
    && OnceBelow(w, root, seen)
  }

  lemma {:induction false} GatheredNoDup(w: World<Item>, root: Item, boxes: seq<Item>, seen: seq<Item>)
    requires Grounded(w) && root in w && Known(w, seen) && OnceBelow(w, root, seen) && boxes == [root] + Boxes(w, seen)
    ensures NoDup(boxes)
  {
    BoxesNoDup(w, seen);
    BoxesHas(w, seen, root);
    if root in seen {
      var i :| 0 <= i < |seen| && seen[i] == root;
      BelowNotSelf(w, seen[i], root);
    }
  }

  /** The next item is inside the root and was not read before. */
  lemma {:induction false} GatherNew(w: World<Item>, root: Item, boxes: seq<Item>, i: nat, k: nat, seen: seq<Item>)
    requires Sound(w) && Gathering(w, root, boxes, i, k, seen) && i < |boxes| && k < |w[boxes[i]].items|
    ensures var x := w[boxes[i]].items[k]; x in w && x !in seen && Below(w, x, root)
  {
    var c := boxes[i];
    assert LinkedAt(w, c);
    var x := w[c].items[k];
    GatheredNoDup(w, root, boxes, seen);
    if x in Flat(w, boxes[..i]) {
      FlatParent(w, boxes[..i], x);
    }
    assert Climb(w, x, 1) == Climb(w, c, 0) == Some(c);
    if c != root {
      BoxesHas(w, seen, c);
      var j :| 0 <= j < |seen| && seen[j] == c;
      var d: nat :| d > 0 && Climb(w, c, d) == Some(root);
      ClimbAdd(w, x, c, 1, d);
    }
  }

  lemma {:induction false} BoxesSnoc(w: World<Item>, root: Item, boxes: seq<Item>, seen: seq<Item>, x: Item)
    requires Known(w, seen) && x in w && boxes == [root] + Boxes(w, seen)
    ensures (if w[x].isContainer then boxes + [x] else boxes) == [root] + Boxes(w, seen + [x])
  {
    assert (seen + [x])[..|seen|] == seen;
  }

  lemma {:induction false} GatherSeen(w: World<Item>, boxes: seq<Item>, i: nat, k: nat, seen: seq<Item>, x: Item,
                                      boxes': seq<Item>)
    requires Known(w, boxes) && Known(w, boxes') && i < |boxes| && k < |w[boxes[i]].items| && x == w[boxes[i]].items[k]
    requires boxes' == boxes || boxes' == boxes + [x]
    requires seen == Flat(w, boxes[..i]) + w[boxes[i]].items[..k]
    ensures i < |boxes'| && boxes'[i] == boxes[i] && seen + [x] == Flat(w, boxes'[..i]) + w[boxes'[i]].items[..k + 1]
  {
    assert boxes'[..i] == boxes[..i];
    assert w[boxes[i]].items[..k + 1] == w[boxes[i]].items[..k] + [x];
  }

  lemma {:induction false} GatherStep(w: World<Item>, root: Item, boxes: seq<Item>, i: nat, k: nat, seen: seq<Item>,
                                      x: Item, boxes': seq<Item>)
    requires Sound(w) && Gathering(w, root, boxes, i, k, seen) && i < |boxes| && k < |w[boxes[i]].items|
    requires x == w[boxes[i]].items[k] && x in w && boxes' == if w[x].isContainer then boxes + [x] else boxes
    ensures Gathering(w, root, boxes', i, k + 1, seen + [x])
  {
    GatherNew(w, root, boxes, i, k, seen);
    OnceGrows(w, root, seen, x);
    BoxesSnoc(w, root, boxes, seen, x);
    GatherSeen(w, boxes, i, k, seen, x, boxes');
  }

  lemma {:induction false} GatherBoxDone(w: World<Item>, root: Item, boxes: seq<Item>, i: nat, k: nat, seen: seq<Item>)
    requires Gathering(w, root, boxes, i, k, seen) && i < |boxes| && k == |w[boxes[i]].items|
    ensures Gathering(w, root, boxes, i + 1, 0, seen)
  {
    assert boxes[..i + 1] == boxes[..i] + [boxes[i]];
    FlatSnoc(w, boxes[..i], boxes[i]);
    assert w[boxes[i]].items[..k] == w[boxes[i]].items;
    if i + 1 < |boxes| { assert w[boxes[i + 1]].items[..0] == []; }
  }

  lemma {:induction false} GatherReaches(w: World<Item>, root: Item, boxes: seq<Item>, seen: seq<Item>, x: Item, d: nat)
    requires Sound(w) && Gathering(w, root, boxes, |boxes|, 0, seen)
    requires x in w && d > 0 && Climb(w, x, d) == Some(root)
    ensures x in seen
  {
    var p := w[x].parent.value;
    assert LinkedAt(w, x);
    if d > 1 { GatherReaches(w, root, boxes, seen, p, d - 1); }
    BoxesHas(w, seen, p);
    assert boxes[..|boxes|] == boxes;
    assert p in boxes;
    var i :| 0 <= i < |boxes| && boxes[i] == p;
    FlatHas(w, boxes, i, x);
  }

  /** The items inside the container at any depth are those listed. */
  ghost predicate AllInside(w: World<Item>, root: Item, inside: seq<Item>) {
    forall x {:trigger Below(w, x, root)} {:trigger x in inside} :: x in w ==> (x in inside <==> Below(w, x, root))
  }

  /** When every box was read, everything inside the root was read. */
  lemma {:induction false} GatherEnds(w: World<Item>, root: Item, boxes: seq<Item>, seen: seq<Item>)
    requires Sound(w) && Gathering(w, root, boxes, |boxes|, 0, seen)
    ensures AllInside(w, root, seen)
  {
    forall x | x in w && Below(w, x, root) ensures x in seen {
      var d: nat :| d > 0 && Climb(w, x, d) == Some(root);
      GatherReaches(w, root, boxes, seen, x, d);
    }
    forall x | x in seen ensures Below(w, x, root) {
      var i :| 0 <= i < |seen| && seen[i] == x;
    }
  }

  /** A stack of coins and what it is worth. */
  datatype Entry = Entry(worth: nat, item: Item)

  ghost function CoinWorth(n: Node<Item>): nat {
    if n.isContainer then 0 else n.kind.worth * n.count
  }

  ghost function CoinTotal(w: World<Item>, s: seq<Item>): nat
    requires Known(w, s)
  {
    if s == [] then 0 else CoinTotal(w, s[..|s| - 1]) + CoinWorth(w[s[|s| - 1]])
  }

  ghost function EntriesTotal(s: seq<Entry>): nat {
    if s == [] then 0 else s[0].worth + EntriesTotal(s[1..])
  }

  ghost predicate Sorted(s: seq<Entry>) {
    forall i, j :: 0 <= i < j < |s| ==> s[i].worth <= s[j].worth
  }

  ghost predicate Distinct(s: seq<Entry>) {
    forall i, j :: 0 <= i < j < |s| ==> s[i].item != s[j].item
  }

  /** Each entry is a stack of `w` with its worth. */
  ghost predicate Priced(w: World<Item>, s: seq<Entry>) {
    forall e :: e in s ==> e.item in w && e.worth > 0 && e.worth == CoinWorth(w[e.item])
  }

  ghost predicate FromSeen(s: seq<Entry>, seen: seq<Item>) {
    forall e :: e in s ==> e.item in seen
  }

  lemma {:induction false} EntriesInsert(s: seq<Entry>, k: nat, e: Entry)
    requires k <= |s|
    ensures EntriesTotal(Inserted(s, k, e)) == EntriesTotal(s) + e.worth
  {
    if k == 0 {
      assert Inserted(s, 0, e) == [e] + s;
    } else {
      EntriesInsert(s[1..], k - 1, e);
      assert Inserted(s, k, e)[1..] == Inserted(s[1..], k - 1, e);
    }
  }

  lemma {:induction false} InsertedSorted(s: seq<Entry>, k: nat, e: Entry)
    requires k <= |s| && Sorted(s)
    requires (k > 0 ==> s[k - 1].worth <= e.worth) && (k < |s| ==> s[k].worth >= e.worth)
    ensures Sorted(Inserted(s, k, e))
  {
    var t := Inserted(s, k, e);
    forall i, j | 0 <= i < j < |t| ensures t[i].worth <= t[j].worth {
      assert i < k ==> t[i] == s[i];
      assert j > k ==> t[j] == s[j - 1];
      assert i > k ==> t[i] == s[i - 1];
      assert j < k ==> t[j] == s[j];
    }
  }

  lemma {:induction false} InsertedDistinct(s: seq<Entry>, k: nat, e: Entry)
    requires k <= |s| && Distinct(s) && forall f :: f in s ==> f.item != e.item
    ensures Distinct(Inserted(s, k, e))
    ensures forall f :: f in Inserted(s, k, e) <==> f in s || f == e
  {
    assert NoDup(s) && e !in s;
    InsertedFacts(s, k, e);
    var t := Inserted(s, k, e);
    forall i, j | 0 <= i < j < |t| ensures t[i].item != t[j].item {
      assert i < k ==> t[i] == s[i];
      assert j > k ==> t[j] == s[j - 1];
      assert i > k ==> t[i] == s[i - 1];
      assert j < k ==> t[j] == s[j];
    }
  }

  /** Into the ordered collection, behind the entries of the same worth. */
  method Emplace(s: seq<Entry>, e: Entry) returns (t: seq<Entry>)
    requires Sorted(s) && Distinct(s) && forall f :: f in s ==> f.item != e.item
    ensures Sorted(t) && Distinct(t) && EntriesTotal(t) == EntriesTotal(s) + e.worth
    ensures forall f :: f in t <==> f in s || f == e
  {
    var k := |s|;
    while k > 0 && s[k - 1].worth > e.worth
      invariant 0 <= k <= |s|
      invariant k < |s| ==> s[k].worth > e.worth
    {
      k := k - 1;
    }
    t := s[..k] + [e] + s[k..];
    assert t == Inserted(s, k, e);
    EntriesInsert(s, k, e);
    InsertedSorted(s, k, e);
    InsertedDistinct(s, k, e);
  }

  ghost predicate Tallied(w: World<Item>, seen: seq<Item>, entries: seq<Entry>, total: nat) {
    && Known(w, seen) && Sorted(entries) && Distinct(entries) && Priced(w, entries) && FromSeen(entries, seen)
    && total == CoinTotal(w, seen) == EntriesTotal(entries) && AllListed(w, seen, entries)
  }

  /** Every stack of coins has its entry. */
  ghost predicate AllListed(w: World<Item>, seen: seq<Item>, entries: seq<Entry>)
    requires Known(w, seen)
  {
    forall x {:trigger x in seen} :: x in seen && CoinWorth(w[x]) > 0 ==> Entry(CoinWorth(w[x]), x) in entries
  }

  /** One item of the two collecting loops: a container to open later, coins, or neither. */
  method Collect(item: Item, containers: seq<Item>, entries: seq<Entry>, total: nat, ghost world: set<Item>,
                 ghost seen: seq<Item>)
    returns (containers': seq<Item>, entries': seq<Entry>, total': nat)
    requires item in world && Tallied(View(world), seen, entries, total) && item !in seen
    ensures containers' == if item.isContainer then containers + [item] else containers
    ensures Tallied(View(world), seen + [item], entries', total')
  {
    containers', entries', total' := containers, entries, total;
    ghost var w := View(world);
    assert (seen + [item])[..|seen|] == seen;
    assert w[item] == item.AsNode();
    if item.isContainer {
      containers' := containers + [item];
    } else {
      var worth := item.kind.worth * item.count;
      if worth != 0 {
        total' := total + worth;
        entries' := Emplace(entries, Entry(worth, item));
      }
    }
  }

  /** Reads the next container found; no more are found than there are items. */
  method CollectNext(next: nat, ghost root: Item, containers: seq<Item>, entries: seq<Entry>, total: nat,
                     ghost world: set<Item>,
                     ghost inside: seq<Item>)
    returns (containers': seq<Item>, entries': seq<Entry>, total': nat, ghost inside': seq<Item>)
    requires Sound(View(world)) && next < |containers|
    requires Gathering(View(world), root, [root] + containers, next + 1, 0, inside)
    requires Tallied(View(world), inside, entries, total)
    ensures next < |containers'| < |world|
    ensures Gathering(View(world), root, [root] + containers', next + 2, 0, inside')
    ensures Tallied(View(world), inside', entries', total')
  {
    var container := containers[next];
    assert ([root] + containers)[next + 1] == container;
    containers', entries', total', inside' :=
        CollectFrom(container, root, containers, next + 1, entries, total, world, inside);
    GatheredBound(View(world), world, root, [root] + containers', inside');
  }

  /** All coins inside a container, cheapest stack first, and what they are worth together. */
  method CollectMoney(cylinder: Item, ghost world: set<Item>)
    returns (entries: seq<Entry>, total: nat, ghost inside: seq<Item>)
    requires cylinder in world && Sound(View(world))
    ensures NoDup(inside) && AllInside(View(world), cylinder, inside)
    ensures Tallied(View(world), inside, entries, total)
    ensures Sorted(entries) && Distinct(entries) && total == EntriesTotal(entries)
    ensures forall e :: e in entries ==>
              e.item in world && Below(View(world), e.item, cylinder) && e.worth == CoinWorth(View(world)[e.item])
  {
    ghost var w := View(world);
    var containers;
    GatherBegins(w, cylinder);
    containers, entries, total, inside := CollectFrom(cylinder, cylinder, [], 0, [], 0, world, []);
    var next := 0;
    while next < |containers|
      invariant 0 <= next <= |containers|
      invariant Gathering(w, cylinder, [cylinder] + containers, next + 1, 0, inside)
      invariant Tallied(w, inside, entries, total)
      decreases |world| - next
    {
      containers, entries, total, inside := CollectNext(next, cylinder, containers, entries, total, world, inside);
      next := next + 1;
    }
    GatherEnds(w, cylinder, [cylinder] + containers, inside);
  }

  lemma {:induction false} GatherBegins(w: World<Item>, root: Item)
    requires Sound(w) && root in w
    ensures Gathering(w, root, [root] + [], 0, 0, [])
  {
    assert LinkedAt(w, root);
  }

  lemma {:induction false} GatherItem(w: World<Item>, root: Item, containers: seq<Item>, b: nat, i: nat,
                                      seen: seq<Item>, x: Item)
    requires Sound(w) && Gathering(w, root, [root] + containers, b, i, seen) && b <= |containers|
    requires i < |w[([root] + containers)[b]].items| && w[([root] + containers)[b]].items[i] == x
    ensures x in w && x !in seen
    ensures var containers' := if w[x].isContainer then containers + [x] else containers;
            && Gathering(w, root, [root] + containers', b, i + 1, seen + [x])
            && ([root] + containers')[b] == ([root] + containers)[b]
  {
    GatherNew(w, root, [root] + containers, b, i, seen);
    assert ([root] + containers) + [x] == [root] + (containers + [x]);
    GatherStep(w, root, [root] + containers, b, i, seen, x,
        [root] + (if w[x].isContainer then containers + [x] else containers));
  }

  /** Reads box `b`, which is the root or one of the containers found so far. */
  method CollectFrom(container: Item, ghost root: Item, containers: seq<Item>, ghost b: nat, entries: seq<Entry>,
                     total: nat,
                     ghost world: set<Item>, ghost inside: seq<Item>)
    returns (containers': seq<Item>, entries': seq<Entry>, total': nat, ghost inside': seq<Item>)
    requires Sound(View(world)) && container in world && b <= |containers| && ([root] + containers)[b] == container
    requires Gathering(View(world), root, [root] + containers, b, 0, inside)
    requires Tallied(View(world), inside, entries, total)
    ensures b <= |containers'|
    ensures Gathering(View(world), root, [root] + containers', b + 1, 0, inside')
    ensures Tallied(View(world), inside', entries', total')
  {
    ghost var w := View(world);
    containers', entries', total', inside' := containers, entries, total, inside;
    assert LinkedAt(w, container);
    for i := 0 to |container.itemlist|
      invariant b <= |containers'| && ([root] + containers')[b] == container
      invariant Gathering(w, root, [root] + containers', b, i, inside') && Tallied(w, inside', entries', total')
    {
      var item := container.itemlist[i];
      GatherItem(w, root, containers', b, i, inside', item);
      containers', entries', total' := Collect(item, containers', entries', total', world, inside');
      inside' := inside' + [item];
    }
    GatherBoxDone(w, root, [root] + containers', b, |container.itemlist|, inside');
  }

  lemma {:induction false} GatheredBound(w: World<Item>, world: set<Item>, root: Item, boxes: seq<Item>,
                                         seen: seq<Item>)
    requires Sound(w) && w.Keys == world && root in w && Known(w, seen) && Known(w, boxes) && OnceBelow(w, root, seen)
    requires boxes == [root] + Boxes(w, seen)
    ensures |boxes| <= |world|
  {
    GatheredNoDup(w, root, boxes, seen);
    NoDupBound(boxes, world);
  }

  // -------------------------------------------------------------- paying

  /** Removes `count` units of an item, or all of it for -1, from where it lies; a test removes nothing.
      Beds, depots and inboxes can not be removed. */
  method InternalRemoveItem(item: Item, count: int, test: bool, canRemove: bool, ghost world: set<Item>,
                            ghost value: Kind -> int, ghost b: Bounds)
    returns (r: ReturnValue)
    requires item in world && Sound(View(world)) && Tidy(View(world), b) && count >= -1
    modifies world
    ensures Sound(View(world)) && Tidy(View(world), b)
    ensures var amount := if count == -1 then old(item.count) else count;
            r == NoError <==>
              && old(item.parent) != null && amount > 0 && canRemove
              && (old(item.kind).stackable ==> amount <= old(item.count))
    ensures r != NoError || test ==> View(world) == old(View(world))
    ensures r == NoError && !test ==>
              var w := old(View(world));
              var amount := if count == -1 then w[item].count else count;
              && w[item].parent.Some? && w[item].parent.value in w
              && LeftBehind(w, View(world), w[item].parent.value, item)
              && HeldChange(w, View(world), w[item].parent.value, -(value(w[item].kind) * UnitsTaken(w[item], amount)),
                  value)
              && (if w[item].kind.stackable && amount != w[item].count
                  then item.parent == old(item.parent) && item.count == w[item].count - amount
                  else item.parent == null && item.count == w[item].count)
  {
    ghost var w := View(world);
    assert w[item] == item.AsNode();
    if item.parent == null {
      return NotPossible;
    }
    assert LinkedAt(w, item);
    var cylinder: Item := item.parent;
    assert w[cylinder] == cylinder.AsNode();
    var amount: nat := if count == -1 then item.count else count;
    r := cylinder.QueryRemove(item, amount, NO_FLAGS.(ignoreNotMoveable := true));
    if r != NoError {
      return;
    }
    if !canRemove {
      return NotPossible;
    }
    if !test {
      TakeFrom(cylinder, item, amount, world, value, value(item.kind), b);
    }
  }

  /** Items keep kind and place and lose no unit, and those worth more than `limit` a unit keep their count. */
  ghost predicate DearUntouched(w: World<Item>, v: World<Item>, limit: nat) {
    forall y {:trigger v[y]} {:trigger y in v} :: y in w ==>
      y in v && v[y].kind == w[y].kind && v[y].parent == w[y].parent && w[y].count <= v[y].count
          && (w[y].kind.worth > limit ==> v[y].count == w[y].count)
  }

  lemma {:induction false} DearChain(w: World<Item>, v: World<Item>, u: World<Item>, limit: nat)
    requires DearUntouched(w, v, limit) && DearUntouched(v, u, limit)
    ensures DearUntouched(w, u, limit)
  {
  }

  /** The kinds of coins stack, can be carried, and may be put anywhere. */
  predicate IsCoin(kind: Kind) {
    kind.worth > 0 && kind.stackable && kind.pickupable && !kind.storeItem
  }

  const ON_GROUND := NO_FLAGS.(noLimit := true)

  /** The container, which holds `size` items, has so many free slots, or needs none. */
  predicate SlotsFor(c: Item, size: nat, flags: Flags, slots: nat) {
    c.unlocked && (flags.noLimit || size + slots <= c.maxSize)
  }

  /** One coin item of at most 100 units: into the container, or else onto the ground, which takes it. */
  method AddCoinItem(cylinder: Item, ground: Item, kind: Kind, count: nat, flags: Flags, ghost world: set<Item>,
                     ghost limit: nat, ghost amount: nat)
    returns (ghost spilled: nat, ghost world': set<Item>)
    requires cylinder in world && cylinder.isContainer && Sound(View(world)) && Tidy(View(world), Stacks)
    requires ground in world && ground.isContainer && ground.unlocked && ground != cylinder
    requires 0 < count <= 100 && IsCoin(kind) && kind.worth <= limit && !flags.childIsOwner && !flags.ignoreAutoStack
    requires amount == Paid(kind, count)
    modifies world
    ensures world <= world' && fresh(world' - world) && Sound(View(world')) && Tidy(View(world'), Stacks)
    ensures DearUntouched(old(View(world)), View(world'), limit)
    ensures spilled == if HasRoomFor(old(View(world)), cylinder, kind, count, flags) then 0 else amount
    ensures HeldShift(old(View(world)), View(world'), cylinder, amount - spilled, ground, spilled, Worth)
    ensures |cylinder.itemlist| <= |old(cylinder.itemlist)| + 1
  {
    ghost var w := View(world);
    assert w[cylinder] == cylinder.AsNode();
    var coin;
    coin, world' := Clone(kind, count, world, Worth, Stacks);
    var ok;
    ok, world' := PlaceCoin(cylinder, coin, flags, world', w, limit, amount);
    spilled := 0;
    if !ok {
      ok, world' := PlaceCoin(ground, coin, ON_GROUND, world', w, limit, amount);
      spilled := amount;
    }
    assert View(world')[cylinder] == cylinder.AsNode();
  }

  /** A new coin item is offered to a container. */
  method PlaceCoin(c: Item, coin: Item, flags: Flags, ghost world: set<Item>, ghost w: World<Item>, ghost limit: nat,
                   ghost amount: nat)
    returns (ok: bool, ghost world': set<Item>)
    requires c in world && c.isContainer && Sound(View(world)) && Tidy(View(world), Stacks)
    requires Linked(w) && c in w && coin in world && Extended(w, View(world), coin)
    requires HeldChange(w, View(world), coin, 0, Worth)
    requires coin.parent == null && coin.count > 0 && coin.kind.stackable && coin.kind.worth <= limit
    requires amount == Paid(coin.kind, coin.count)
    requires !flags.childIsOwner && !flags.ignoreAutoStack
    modifies world
    ensures ok <==> HasRoomFor(w, c, old(coin.kind), old(coin.count), flags)
    ensures !ok ==> world' == world && View(world) == old(View(world)) && coin.AsNode() == old(coin.AsNode())
    ensures world <= world' && fresh(world' - world) && Sound(View(world')) && Tidy(View(world'), Stacks)
    ensures ok ==> HeldChange(w, View(world'), c, amount, Worth)
    ensures ok ==> DearUntouched(w, View(world'), limit) && GrownBy(w, View(world'), c, 1)
  {
    ghost var v := View(world);
    assert v[coin] == coin.AsNode() && w[c] == c.AsNode();
    CoinFits(w, v, c, coin, flags);
    ghost var kind, count := coin.kind, coin.count;
    var ret, remainder;
    ghost var added;
    ret, remainder, added, world' := InternalAddItem(c, coin, -1, flags, false, world, Worth, Stacks);
    ok := ret == NoError;
    if ok {
      PaidIs(kind, count);
      CoinHeld(w, v, View(world'), c, coin, kind, count, amount, limit, flags);
    } else {
      assert View(world)[coin] == coin.AsNode();
    }
  }

  lemma {:induction false} CoinFits(w: World<Item>, v: World<Item>, c: Item, coin: Item, flags: Flags)
    requires Linked(w) && Linked(v) && c in w && w[c].isContainer && Extended(w, v, coin) && v[coin].count > 0
    requires !flags.ignoreAutoStack && !flags.childIsOwner && v[coin].kind.stackable
    ensures AddVerdict(v, c, -1, coin, flags) == NoError <==> HasRoomFor(w, c, v[coin].kind, v[coin].count, flags)
  {
    if HasRoomFor(w, c, v[coin].kind, v[coin].count, flags) { FreshFits(w, v, c, coin, flags); }
    else if AddVerdict(v, c, -1, coin, flags) == NoError { FreshFitsOnly(w, v, c, coin, flags); }
  }

  lemma {:induction false} CoinHeld(w: World<Item>, v: World<Item>, u: World<Item>, c: Item, coin: Item, kind: Kind,
                                    count: nat,
                                    amount: nat, limit: nat, flags: Flags)
    requires Linked(w) && Linked(v) && Linked(u) && c in w && Extended(w, v, coin) && HeldChange(w, v, coin, 0, Worth)
    requires v[coin].kind == kind && kind.worth <= limit && amount == Worth(kind) * count
    requires Undisturbed(v, u, kind, coin) && GrownBy(v, u, Destination(v, c, -1, coin, flags).container, 1)
    requires HeldChange(v, u, Destination(v, c, -1, coin, flags).container, Worth(v[coin].kind) * count, Worth)
    ensures HeldChange(w, u, c, amount, Worth) && DearUntouched(w, u, limit) && GrownBy(w, u, c, 1)
  {
    NoIndexNoDescent(v, c, coin, flags);
  }

  /** In how many items so many coins come. */
  function Batches(coins: nat): nat {
    if coins == 0 then 0 else 1 + Batches(if coins < 100 then 0 else coins - 100)
  }

  /** `coins` coins of one kind, in items of at most 100. */
  method AddCoins(cylinder: Item, ground: Item, kind: Kind, coins: nat, flags: Flags, ghost world: set<Item>,
                  ghost limit: nat)
    returns (ghost spilled: nat, ghost world': set<Item>)
    requires cylinder in world && cylinder.isContainer && Sound(View(world)) && Tidy(View(world), Stacks)
    requires ground in world && ground.isContainer && ground.unlocked && ground != cylinder
    requires IsCoin(kind) && kind.worth <= limit && !flags.childIsOwner && !flags.ignoreAutoStack
    modifies world
    ensures world <= world' && fresh(world' - world) && Sound(View(world')) && Tidy(View(world'), Stacks)
    ensures PaidInto(old(View(world)), View(world'), cylinder, ground, Paid(kind, coins), spilled, limit)
    ensures |cylinder.itemlist| <= |old(cylinder.itemlist)| + Batches(coins)
    ensures SlotsFor(cylinder, |old(cylinder.itemlist)|, flags, Batches(coins)) ==> spilled == 0
  {
    ghost var w, size := View(world), |cylinder.itemlist|;
    spilled, world' := 0, world;
    var left := coins;
    ghost var given, items := 0, Batches(coins);
    while left > 0
      invariant given + left == coins && world <= world' && fresh(world' - world)
      invariant Sound(View(world')) && Tidy(View(world'), Stacks)
      invariant PaidInto(w, View(world'), cylinder, ground, Paid(kind, given), spilled, limit)
      invariant |cylinder.itemlist| + Batches(left) <= size + items
      invariant SlotsFor(cylinder, size, flags, items) ==> spilled == 0
    {
      var count := if left < 100 then left else 100;
      ghost var lost;
      lost, world' := AddBatch(cylinder, ground, kind, given, count, flags, world', limit, w, spilled);
      given, spilled, left := given + count, spilled + lost, left - count;
    }
  }

  /** The worth of so many coins. */
  ghost function Paid(kind: Kind, coins: nat): (r: nat) {
    if coins == 0 then 0 else Worth(kind) + Paid(kind, coins - 1)
  }

  lemma {:induction false} PaidIs(kind: Kind, n: nat)
    ensures Paid(kind, n) == Worth(kind) * n
  {
    if n > 0 { PaidIs(kind, n - 1); }
  }

  lemma {:induction false} PaidMore(kind: Kind, n: nat, m: nat)
    ensures Paid(kind, n + m) == Paid(kind, n) + Paid(kind, m)
  {
    if m > 0 { PaidMore(kind, n, m - 1); }
  }

  /** The next item of coins. */
  method AddBatch(cylinder: Item, ground: Item, kind: Kind, ghost before: nat, count: nat, flags: Flags,
                  ghost world: set<Item>,
                  ghost limit: nat, ghost w: World<Item>, ghost spilled: nat)
    returns (ghost lost: nat, ghost world': set<Item>)
    requires cylinder in world && cylinder.isContainer && Sound(View(world)) && Tidy(View(world), Stacks)
    requires ground in world && ground.isContainer && ground.unlocked && ground != cylinder
    requires 0 < count <= 100 && IsCoin(kind) && kind.worth <= limit && !flags.childIsOwner && !flags.ignoreAutoStack
    requires Linked(w) && cylinder in w && ground in w
    requires PaidInto(w, View(world), cylinder, ground, Paid(kind, before), spilled, limit)
    modifies world
    ensures world <= world' && fresh(world' - world) && Sound(View(world')) && Tidy(View(world'), Stacks)
    ensures PaidInto(w, View(world'), cylinder, ground, Paid(kind, before + count), spilled + lost, limit)
    ensures |cylinder.itemlist| <= |old(cylinder.itemlist)| + 1
    ensures SlotsFor(cylinder, |old(cylinder.itemlist)|, flags, 1) ==> lost == 0
  {
    ghost var v := View(world);
    assert v[cylinder] == cylinder.AsNode();
    lost, world' := AddCoinItem(cylinder, ground, kind, count, flags, world, limit, Paid(kind, count));
    PaidMore(kind, before, count);
    GivenMore(w, v, View(world'), cylinder, ground, Paid(kind, before), spilled, Paid(kind, count), lost, limit);
  }

  /** Of `paid`, all but `spilled` went into the container and that onto the ground; dear items were
      left alone. */
  ghost predicate PaidInto(w: World<Item>, v: World<Item>, c: Item, ground: Item, paid: int, spilled: int, limit: nat)
    requires Linked(w) && Linked(v)
  {
    0 <= spilled <= paid && HeldShift(w, v, c, paid - spilled, ground, spilled, Worth) && DearUntouched(w, v, limit)
  }

  lemma {:induction false} GivenMore(w: World<Item>, v: World<Item>, u: World<Item>, c: Item, ground: Item,
                                     paid: int, spilled: int, more: int, lost: int, limit: nat)
    requires Linked(w) && Linked(v) && Linked(u) && c in w && ground in w
    requires PaidInto(w, v, c, ground, paid, spilled, limit) && PaidInto(v, u, c, ground, more, lost, limit)
    ensures PaidInto(w, u, c, ground, paid + more, spilled + lost, limit)
  {
    DearChain(w, v, u, limit);
  }

  /** The coin kinds, dearest first. */
  ghost predicate Currency(kinds: seq<Kind>) {
    && (forall i :: 0 <= i < |kinds| ==> IsCoin(kinds[i]))
    && (forall i, j :: 0 <= i < j < |kinds| ==> kinds[i].worth > kinds[j].worth)
  }

  /** In how many items an amount of money comes, in the kinds from `i` on. */
  ghost function CoinItems(money: nat, currency: seq<Kind>, i: nat): nat
    requires Currency(currency) && i <= |currency|
    decreases |currency| - i
  {
    if i == |currency| then 0
    else
      DivideOut(money, currency[i].worth);
      Batches(money / currency[i].worth) + CoinItems(money - currency[i].worth * (money / currency[i].worth), currency,
          i + 1)
  }

  lemma {:induction false} CoinItemsStep(money: nat, currency: seq<Kind>, i: nat)
    requires Currency(currency) && i < |currency|
    ensures var worth := currency[i].worth;
            worth > 0 && worth * (money / worth) <= money
            && CoinItems(money, currency, i)
               == Batches(money / worth) + CoinItems(money - worth * (money / worth), currency, i + 1)
  {
    DivideOut(money, currency[i].worth);
  }

  /** As many coins of one kind as the money makes. */
  method AddKind(cylinder: Item, ground: Item, kind: Kind, left: nat, flags: Flags, ghost world: set<Item>,
                 ghost money: nat,
                 ghost w: World<Item>, ghost spilled: nat)
    returns (ghost lost: nat, left': nat, ghost world': set<Item>)
    requires cylinder in world && cylinder.isContainer && Sound(View(world)) && Tidy(View(world), Stacks)
    requires ground in world && ground.isContainer && ground.unlocked && ground != cylinder
    requires IsCoin(kind) && !flags.childIsOwner && !flags.ignoreAutoStack && left <= money
    requires Linked(w) && cylinder in w && ground in w
    requires PaidInto(w, View(world), cylinder, ground, money - left, spilled, money)
    modifies world
    ensures world <= world' && fresh(world' - world) && Sound(View(world')) && Tidy(View(world'), Stacks)
    ensures PaidInto(w, View(world'), cylinder, ground, money - left', spilled + lost, money)
    ensures left' == left - kind.worth * (left / kind.worth) && left' < kind.worth && left' <= left
    ensures |cylinder.itemlist| <= |old(cylinder.itemlist)| + Batches(left / kind.worth)
    ensures SlotsFor(cylinder, |old(cylinder.itemlist)|, flags, Batches(left / kind.worth)) ==> lost == 0
  {
    var coins := left / kind.worth;
    DivideOut(left, kind.worth);
    lost, left', world' := 0, left - coins * kind.worth, world;
    if coins > 0 {
      ghost var v, paid := View(world), Paid(kind, coins);
      lost, world' := AddCoins(cylinder, ground, kind, coins, flags, world, money);
      GivenMore(w, v, View(world'), cylinder, ground, money - left, spilled, paid, lost, money);
      PaidIs(kind, coins);
      assert paid == left - left';
    }
  }

  /** Pays `money` into the container in as few coins as there are kinds for.  `spilled` went
      onto the ground and `left` is less than any coin. */
  method AddMoney(cylinder: Item, ground: Item, money: nat, flags: Flags, currency: seq<Kind>, ghost world: set<Item>)
    returns (ghost spilled: nat, left: nat, ghost world': set<Item>)
    requires cylinder in world && cylinder.isContainer && Sound(View(world)) && Tidy(View(world), Stacks)
    requires ground in world && ground.isContainer && ground.unlocked && ground != cylinder
    requires Currency(currency) && !flags.childIsOwner && !flags.ignoreAutoStack
    modifies world
    ensures world <= world' && fresh(world' - world) && Sound(View(world')) && Tidy(View(world'), Stacks)
    ensures PaidInto(old(View(world)), View(world'), cylinder, ground, money - left, spilled, money)
    ensures left + spilled <= money && forall k :: k in currency ==> left < k.worth
    ensures SlotsFor(cylinder, |old(cylinder.itemlist)|, flags, CoinItems(money, currency, 0)) ==> spilled == 0
  {
    ghost var w, size, items := View(world), |cylinder.itemlist|, CoinItems(money, currency, 0);
    spilled, left, world' := 0, money, world;
    var i := 0;
    while i < |currency|
      invariant 0 <= i <= |currency| && left <= money && world <= world' && fresh(world' - world)
      invariant Sound(View(world')) && Tidy(View(world'), Stacks)
      invariant PaidInto(w, View(world'), cylinder, ground, money - left, spilled, money)
      invariant |cylinder.itemlist| + CoinItems(left, currency, i) <= size + items
      invariant SlotsFor(cylinder, size, flags, items) ==> spilled == 0
      invariant forall j :: 0 <= j < i ==> left < currency[j].worth
    {
      spilled, left, world' :=
          AddNext(cylinder, ground, currency, i, left, flags, world', money, w, spilled, size + items);
      i := i + 1;
    }
  }

  /** The next kind of coins; the container will hold at most `most` items. */
  method AddNext(cylinder: Item, ground: Item, currency: seq<Kind>, i: nat, left: nat, flags: Flags,
                 ghost world: set<Item>,
                 ghost money: nat, ghost w: World<Item>, ghost spilled: nat, ghost most: nat)
    returns (ghost spilled': nat, left': nat, ghost world': set<Item>)
    requires cylinder in world && cylinder.isContainer && Sound(View(world)) && Tidy(View(world), Stacks)
    requires ground in world && ground.isContainer && ground.unlocked && ground != cylinder
    requires Currency(currency) && i < |currency| && !flags.childIsOwner && !flags.ignoreAutoStack && left <= money
    requires Linked(w) && cylinder in w && ground in w
    requires PaidInto(w, View(world), cylinder, ground, money - left, spilled, money)
    requires |cylinder.itemlist| + CoinItems(left, currency, i) <= most
    modifies world
    ensures world <= world' && fresh(world' - world) && Sound(View(world')) && Tidy(View(world'), Stacks)
    ensures PaidInto(w, View(world'), cylinder, ground, money - left', spilled', money)
    ensures left' < currency[i].worth && left' <= left
    ensures |cylinder.itemlist| + CoinItems(left', currency, i + 1) <= most
    ensures cylinder.unlocked && (flags.noLimit || most <= cylinder.maxSize) ==> spilled' == spilled
  {
    ghost var lost;
    CoinItemsStep(left, currency, i);
    lost, left', world' := AddKind(cylinder, ground, currency[i], left, flags, world, money, w, spilled);
    spilled' := spilled + lost;
  }

  lemma {:induction false} DivideOut(a: nat, b: nat)
    requires b > 0
    ensures a / b * b == b * (a / b) <= a && a - b * (a / b) < b
    ensures a / b > 0 ==> b <= a
    ensures a / b >= 0
  {
  }

  /** Inside the container, or the container itself. */
  ghost predicate Within(w: World<Item>, c: Item, root: Item) {
    c == root || Below(w, c, root)
  }

  /** All containers together hold `paid` less, the ground holds `spilled` more, and what is neither
      within `root` nor the ground holds what it held. */
  ghost predicate PaidFrom(w: World<Item>, v: World<Item>, root: Item, ground: Item, paid: int, spilled: int)
    requires Linked(w) && Linked(v) && ground in w
  {
    && AllHeld(v, Worth) == AllHeld(w, Worth) - paid
    && w.Keys <= v.Keys
    && Held(v, ground, Worth) == Held(w, ground, Worth) + spilled
    && (forall y {:trigger Held(v, y, Worth)} :: y in w && !Within(w, y, root) && y != ground ==>
          Held(v, y, Worth) == Held(w, y, Worth))
  }

  /** The stack of an entry is where it was and what it was. */
  ghost predicate Intact(w: World<Item>, v: World<Item>, x: Item) {
    x in w && x in v && v[x].parent == w[x].parent && v[x].kind == w[x].kind && v[x].count == w[x].count
  }

  lemma {:induction false} PaidStep(w: World<Item>, v: World<Item>, u: World<Item>, root: Item, ground: Item, paid: int,
                                    spilled: int,
                                    c: Item, d: int, e: int)
    requires Linked(w) && Linked(v) && Linked(u) && ground in w && PaidFrom(w, v, root, ground, paid, spilled)
    requires c in w && Within(w, c, root) && c != ground && HeldShift(v, u, c, d, ground, e, Worth)
    ensures PaidFrom(w, u, root, ground, paid - d - e, spilled + e)
  {
    ShiftTotal(v, u, c, d, ground, e, Worth);
  }

  /** The container of an item that is inside the root is the root or inside it too. */
  lemma {:induction false} ParentWithin(w: World<Item>, x: Item, root: Item)
    requires Linked(w) && x in w && Below(w, x, root)
    ensures w[x].parent.Some? && w[x].parent.value in w && Within(w, w[x].parent.value, root)
  {
    assert LinkedAt(w, x);
    var k: nat :| k > 0 && Climb(w, x, k) == Some(root);
    var p := w[x].parent.value;
    if k > 1 { assert Climb(w, p, k - 1) == Some(root); }
    else { assert Climb(w, p, 0) == Some(root); }
  }

  /** Takes `count` units, or for -1 all, of a stack inside the root. */
  method TakeCoins(item: Item, count: int, ghost amount: nat, ghost world: set<Item>, ghost w: World<Item>,
                   ghost root: Item,
                   ghost ground: Item, ghost paid: int, ghost spilled: int)
    requires item in world && Sound(View(world)) && Tidy(View(world), Stacks)
    requires Linked(w) && Below(w, item, root) && Intact(w, View(world), item)
    requires ground in w && !Within(w, ground, root) && PaidFrom(w, View(world), root, ground, paid, spilled)
    requires count == -1 || 0 < count <= item.count
    requires item.count > 0 && amount == item.kind.worth * (if count == -1 then item.count else count)
    requires !item.kind.stackable ==> count == -1 || count == item.count
    modifies world
    ensures Sound(View(world)) && Tidy(View(world), Stacks)
    ensures PaidFrom(w, View(world), root, ground, paid + amount, spilled)
    ensures SameStacks(old(View(world)), View(world), {item})
    ensures if count == -1 || count == old(item.count) then item.parent == null
            else item.parent == old(item.parent) && item.count == old(item.count) - count
  {
    ghost var v := View(world);
    ParentWithin(w, item, root);
    assert v[item] == item.AsNode();
    ghost var unit, units := Worth(item.kind), if count == -1 then item.count else count;
    var ret := InternalRemoveItem(item, count, false, true, world, Worth, Stacks);
    assert UnitsTaken(v[item], units) == units;
    PaidStep(w, v, View(world), root, ground, paid, spilled, v[item].parent.value, -(unit * units), 0);
  }

  lemma {:induction false} CeilFacts(money: nat, unit: nat, count: nat)
    requires 0 < money < unit * count
    ensures unit > 0 && 0 < (money + unit - 1) / unit <= count
    ensures 0 <= unit * ((money + unit - 1) / unit) - money < unit
  {
    assert unit > 0;
    var n := (money + unit - 1) / unit;
    assert unit * n <= money + unit - 1 < unit * n + unit by { DivideOut(money + unit - 1, unit); }
    Scaled(count + 1, n, unit);
    assert unit * (count + 1) == unit * count + unit;
    Scaled(n, 0, unit);
  }

  /** Gives change, which leaves every dearer stack as it is. */
  method GiveChange(cylinder: Item, ground: Item, change: nat, flags: Flags, currency: seq<Kind>,
                    ghost world: set<Item>,
                    ghost w: World<Item>, ghost paid: int, ghost kept: Item)
    returns (ghost spilled: nat, left: nat, ghost world': set<Item>)
    requires cylinder in world && cylinder.isContainer && Sound(View(world)) && Tidy(View(world), Stacks)
    requires ground in world && ground.isContainer && ground.unlocked
    requires Currency(currency) && !flags.childIsOwner && !flags.ignoreAutoStack
    requires Linked(w) && cylinder in w && ground in w && !Within(w, ground, cylinder)
    requires PaidFrom(w, View(world), cylinder, ground, paid, 0)
    requires Intact(w, View(world), kept) && w[kept].kind.worth > change
    modifies world
    ensures world <= world' && fresh(world' - world) && Sound(View(world')) && Tidy(View(world'), Stacks)
    ensures PaidFrom(w, View(world'), cylinder, ground, paid - (change - left), spilled)
    ensures Intact(w, View(world'), kept) && DearUntouched(old(View(world)), View(world'), change)
    ensures left + spilled <= change && forall k :: k in currency ==> left < k.worth
  {
    ghost var v := View(world);
    spilled, left, world' := AddMoney(cylinder, ground, change, flags, currency, world);
    PaidStep(w, v, View(world'), cylinder, ground, paid, 0, cylinder, change - left - spilled, spilled);
  }

  /** Breaks a stack that is worth more than what is still to pay: change first, then the coins.  No
      more coins are taken than the stack has, the change is less than one of them, and the stack keeps
      the rest, to which no change is added. */
  method PayPart(e: Entry, money: nat, cylinder: Item, ground: Item, flags: Flags, currency: seq<Kind>,
                 ghost world: set<Item>,
                 ghost w: World<Item>, ghost paid: int)
    returns (removeCount: nat, change: nat, ghost spilled: nat, left: nat, ghost world': set<Item>)
    requires e.item in world && cylinder in world && cylinder.isContainer && Sound(View(world))
    requires Tidy(View(world), Stacks)
    requires ground in world && ground.isContainer && ground.unlocked && ground in w && !Within(w, ground, cylinder)
    requires Linked(w) && Below(w, e.item, cylinder) && Intact(w, View(world), e.item)
    requires PaidFrom(w, View(world), cylinder, ground, paid, 0)
    requires cylinder in w && 0 < money < e.worth == CoinWorth(w[e.item])
    requires (!e.item.kind.stackable ==> e.item.count == 1)
    requires Currency(currency) && !flags.childIsOwner && !flags.ignoreAutoStack
    modifies world
    ensures world <= world' && fresh(world' - world) && Sound(View(world')) && Tidy(View(world'), Stacks)
    ensures PaidFrom(w, View(world'), cylinder, ground, paid + money + left, spilled)
    ensures 0 < removeCount <= old(e.item.count)
    ensures change == old(e.item.kind).worth * removeCount - money < old(e.item.kind).worth
    ensures if removeCount == old(e.item.count) then e.item.parent == null
            else e.item.parent == old(e.item.parent) && e.item.count == old(e.item.count) - removeCount
    ensures left + spilled <= change && forall k :: k in currency ==> left < k.worth
    ensures NoneLost(old(View(world)), View(world'), {e.item})
  {
    assert View(world)[e.item] == e.item.AsNode();
    UnitWorth(e.item.kind.worth, e.item.count);
    var worth := e.worth / e.item.count;
    CeilFacts(money, worth, e.item.count);
    removeCount := (money + worth - 1) / worth;
    change := worth * removeCount - money;
    ghost var taken: nat := worth * removeCount;
    spilled, left, world' := GiveChange(cylinder, ground, change, flags, currency, world, w, paid, e.item);
    assert View(world')[e.item] == e.item.AsNode();
    TakeCoins(e.item, removeCount, taken, world', w, cylinder, ground, paid - (change - left), spilled);
  }

  /** Items keep kind and place and lose no unit, but for some. */
  ghost predicate NoneLost(w: World<Item>, v: World<Item>, except: set<Item>) {
    forall y {:trigger v[y]} {:trigger y in v} :: y in w && y !in except ==>
      y in v && v[y].kind == w[y].kind && v[y].parent == w[y].parent && w[y].count <= v[y].count
  }

  /** The items of the first `i` entries. */
  ghost function Taken(entries: seq<Entry>, i: nat): set<Item>
    requires i <= |entries|
  {
    if i == 0 then {} else Taken(entries, i - 1) + {entries[i - 1].item}
  }

  lemma {:induction false} TakenIs(entries: seq<Entry>, i: nat)
    requires i <= |entries|
    ensures forall x :: x in Taken(entries, i) <==> exists j :: 0 <= j < i && entries[j].item == x
  {
    if i > 0 { TakenIs(entries, i - 1); }
  }

  /** The items are in no container any more. */
  ghost predicate Gone(v: World<Item>, items: set<Item>) {
    forall y {:trigger y in items} :: y in items ==> y in v && v[y].parent == None
  }

  /** The stacks of the first `i` entries are gone, and nothing else has changed or moved. */
  ghost predicate SpentTo(w: World<Item>, v: World<Item>, entries: seq<Entry>, i: nat)
    requires i <= |entries|
  {
    Gone(v, Taken(entries, i)) && SameStacks(w, v, Taken(entries, i))
  }

  /** The stacks before entry `i` are gone, and everything but the stack of that entry is where it was,
      with no unit less. */
  ghost predicate Spent(w: World<Item>, v: World<Item>, entries: seq<Entry>, i: nat) {
    && i < |entries| && Gone(v, Taken(entries, i)) && NoneLost(w, v, Taken(entries, i) + {entries[i].item})
  }

  /** One more stack is gone. */
  lemma {:induction false} SpentOne(w: World<Item>, v: World<Item>, u: World<Item>, entries: seq<Entry>, i: nat)
    requires i < |entries| && SpentTo(w, v, entries, i) && SameStacks(v, u, {entries[i].item})
    requires Taken(entries, i) <= w.Keys && entries[i].item !in Taken(entries, i)
    requires entries[i].item in u && u[entries[i].item].parent == None
    ensures SpentTo(w, u, entries, i + 1) && Spent(w, u, entries, i)
  {
  }

  /** Part of the next stack is gone. */
  lemma {:induction false} SpentPart(w: World<Item>, v: World<Item>, u: World<Item>, entries: seq<Entry>, i: nat)
    requires i < |entries| && SpentTo(w, v, entries, i) && NoneLost(v, u, {entries[i].item})
    requires entries[i].item !in Taken(entries, i)
    ensures Spent(w, u, entries, i)
  {
  }

  lemma {:induction false} UnitWorth(unit: nat, count: nat)
    requires unit * count > 0
    ensures count > 0 && unit > 0 && unit * count / count == unit
  {
    assert count > 0 && unit > 0;
    assert unit * count == count * unit;
    DivideUnique(unit * count, count, unit);
  }

  lemma {:induction false} DivideUnique(p: nat, c: nat, q: nat)
    requires c > 0 && p == c * q
    ensures p / c == q
  {
    var r := p / c;
    DivideOut(p, c);
    assert c * q == c * r + c * (q - r) by { Distribute(c, r, q - r); }
    SmallMultiple(c, q - r);
  }

  lemma {:induction false} SmallMultiple(c: nat, d: int)
    requires 0 <= c * d < c
    ensures d == 0
  {
    Scaled(1, d, c);
    Scaled(d, -1, c);
  }

  /** Coins that do not stack count one. */
  ghost predicate SingleCoins(w: World<Item>) {
    forall x {:trigger w[x]} :: x in w && w[x].kind.worth > 0 && !w[x].kind.stackable ==> w[x].count == 1
  }

  /** What is still due after the entries before `i` were taken is in the entries from `i` on, and nothing
      else has changed. */
  ghost predicate StillDue(w: World<Item>, v: World<Item>, root: Item, ground: Item, entries: seq<Entry>, i: nat,
                           money: nat, due: nat)
    requires Linked(w) && ground in w && i <= |entries|
  {
    && Sound(v) && Tidy(v, Stacks) && 0 < due <= money && due <= EntriesTotal(entries[i..])
    && PaidFrom(w, v, root, ground, money - due, 0)
    && SpentTo(w, v, entries, i)
  }

  /** The change is nothing, or less than one of the coins inside, and covers what was spilled and what
      is less than any coin. */
  ghost predicate ChangeOk(w: World<Item>, inside: seq<Item>, currency: seq<Kind>, change: nat, spilled: nat, left: nat)
    requires Known(w, inside)
  {
    && (change == 0 || exists x :: x in inside && change < w[x].kind.worth)
    && left + spilled <= change && (left == 0 || forall k :: k in currency ==> left < k.worth)
  }

  /** Nothing is due any more: what was paid and given back, with the stack of entry `i` the last one taken. */
  ghost predicate Settled(w: World<Item>, v: World<Item>, root: Item, ground: Item, entries: seq<Entry>, i: nat,
                          inside: seq<Item>, currency: seq<Kind>, money: nat, due: nat, change: nat, spilled: nat,
                          left: nat)
    requires Linked(w) && ground in w && Known(w, inside)
  {
    && Sound(v) && Tidy(v, Stacks) && due == 0 && PaidFrom(w, v, root, ground, money + left, spilled)
    && ChangeOk(w, inside, currency, change, spilled, left) && Spent(w, v, entries, i)
  }

  /** One entry of the paying loop: all of the stack when more is due or as much, else a part of it. */
  method PayEntry(entries: seq<Entry>, i: nat, money: nat, due: nat, cylinder: Item, ground: Item, flags: Flags,
                  currency: seq<Kind>,
                  ghost world: set<Item>, ghost w: World<Item>, ghost inside: seq<Item>, ghost total: nat)
    returns (due': nat, ghost change: nat, ghost spilled: nat, left: nat, ghost world': set<Item>)
    requires cylinder in world && cylinder.isContainer
    requires ground in world && ground.isContainer && ground.unlocked && ground in w && Linked(w)
    requires !Within(w, ground, cylinder)
    requires SingleCoins(w) && w.Keys == world && Currency(currency) && !flags.childIsOwner && !flags.ignoreAutoStack
    requires Tallied(w, inside, entries, total) && AllInside(w, cylinder, inside)
    requires i < |entries| && due > 0
    requires due > 0 <==> StillDue(w, View(world), cylinder, ground, entries, i, money, due)
    modifies world
    ensures world <= world' && fresh(world' - world)
    ensures due' > 0 ==> world' == world
    ensures due' > 0 <==> StillDue(w, View(world'), cylinder, ground, entries, i + 1, money, due')
    ensures due' == 0 <==> Settled(w, View(world'), cylinder, ground, entries, i, inside, currency, money, due', change,
                              spilled, left)
  {
    ghost var v := View(world);
    due', change, spilled, left, world' := 0, 0, 0, 0, world;
    var entry := entries[i];
    EntryFacts(w, cylinder, inside, entries, total, i);
    if entry.worth < due {
      due' := PayWhole(entries, i, money, due, cylinder, ground, world, w, inside, currency);
    } else if entry.worth > due {
      assert View(world)[entry.item] == entry.item.AsNode();
      var removeCount, given;
      removeCount, given, spilled, left, world' :=
        PayPart(entry, due, cylinder, ground, flags, currency, world, w, money - due);
      change := given;
      PartPaid(w, v, View(world'), cylinder, ground, entries, i, inside, currency, money, change, spilled, left);
    } else {
      due' := PayWhole(entries, i, money, due, cylinder, ground, world, w, inside, currency);
    }
  }

  /** What is known of an entry: it is a stack of coins inside, and no other entry is. */
  ghost predicate EntryKnown(w: World<Item>, root: Item, entries: seq<Entry>, i: nat)
    requires i < |entries|
  {
    var e := entries[i];
    && e.item in w && Below(w, e.item, root) && e.worth > 0 && e.worth == CoinWorth(w[e.item])
    && e.worth == w[e.item].kind.worth * w[e.item].count && w[e.item].count > 0
    && (!w[e.item].kind.stackable ==> w[e.item].count == 1)
    && EntriesTotal(entries[i..]) == e.worth + EntriesTotal(entries[i + 1..])
    && e.item !in Taken(entries, i) && Taken(entries, i) <= w.Keys
  }

  /** All of a stack. */
  method PayWhole(entries: seq<Entry>, i: nat, ghost money: nat, due: nat, ghost cylinder: Item, ghost ground: Item,
                  ghost world: set<Item>, ghost w: World<Item>, ghost inside: seq<Item>, ghost currency: seq<Kind>)
    returns (due': nat)
    requires Linked(w) && w.Keys == world
    requires ground in w && !Within(w, ground, cylinder) && i < |entries| && EntryKnown(w, cylinder, entries, i)
    requires entries[i].worth <= due && StillDue(w, View(world), cylinder, ground, entries, i, money, due)
    requires Known(w, inside)
    modifies world
    ensures due' == due - entries[i].worth
    ensures due' > 0 <==> StillDue(w, View(world), cylinder, ground, entries, i + 1, money, due')
    ensures due' == 0 <==> Settled(w, View(world), cylinder, ground, entries, i, inside, currency, money, due', 0, 0, 0)
  {
    ghost var v := View(world);
    var entry := entries[i];
    assert View(world)[entry.item] == entry.item.AsNode();
    TakeCoins(entry.item, -1, entry.worth, world, w, cylinder, ground, money - due, 0);
    due' := due - entry.worth;
    assert View(world)[entry.item] == entry.item.AsNode();
    SpentOne(w, v, View(world), entries, i);
    WholePaid(w, View(world), cylinder, ground, entries, i, inside, currency, money, due, due');
  }

  /** All of a stack was paid. */
  lemma {:induction false} WholePaid(w: World<Item>, u: World<Item>, root: Item, ground: Item, entries: seq<Entry>,
                                     i: nat, inside: seq<Item>, currency: seq<Kind>, money: nat, due: nat, due': nat)
    requires Linked(w) && Sound(u) && Tidy(u, Stacks) && ground in w && Known(w, inside) && i < |entries|
    requires due' == due - entries[i].worth
    requires EntryKnown(w, root, entries, i) && 0 < due <= money && due <= EntriesTotal(entries[i..])
    requires PaidFrom(w, u, root, ground, money - due', 0) && SpentTo(w, u, entries, i + 1) && Spent(w, u, entries, i)
    ensures due' > 0 <==> StillDue(w, u, root, ground, entries, i + 1, money, due')
    ensures due' == 0 <==> Settled(w, u, root, ground, entries, i, inside, currency, money, due', 0, 0, 0)
  {
  }

  /** A part of a stack was paid, and change given. */
  lemma {:induction false} PartPaid(w: World<Item>, v: World<Item>, u: World<Item>, root: Item, ground: Item,
                                    entries: seq<Entry>, i: nat, inside: seq<Item>, currency: seq<Kind>, money: nat,
                                    change: nat, spilled: nat, left: nat)
    requires Linked(w) && Sound(u) && Tidy(u, Stacks) && ground in w && Known(w, inside)
    requires i < |entries| && entries[i].item in inside
    requires SpentTo(w, v, entries, i) && NoneLost(v, u, {entries[i].item}) && entries[i].item !in Taken(entries, i)
    requires change < w[entries[i].item].kind.worth
    requires left + spilled <= change && forall k :: k in currency ==> left < k.worth
    requires PaidFrom(w, u, root, ground, money + left, spilled)
    ensures Settled(w, u, root, ground, entries, i, inside, currency, money, 0, change, spilled, left)
  {
    SpentPart(w, v, u, entries, i);
  }

  /** Pays `money` out of a container.  It fails, and changes nothing, exactly when the coins inside are
      worth less.  Otherwise what the containers and the ground hold falls by exactly `money` and by
      change too small for any coin, which is none if there is a coin of one; only change, which is less
      than one of the coins inside, may lie on the ground. */
  method RemoveMoney(cylinder: Item, ground: Item, money: nat, flags: Flags, currency: seq<Kind>,
                     ghost world: set<Item>)
    returns (r: bool, ghost change: nat, ghost spilled: nat, left: nat, ghost inside: seq<Item>, ghost d: nat,
        ghost world': set<Item>)
    requires cylinder in world && cylinder.isContainer && Sound(View(world)) && Tidy(View(world), Stacks)
    requires ground in world && ground.isContainer && ground.unlocked && !Within(View(world), ground, cylinder)
    requires SingleCoins(View(world)) && Currency(currency) && !flags.childIsOwner && !flags.ignoreAutoStack
    modifies world
    ensures world <= world' && fresh(world' - world) && Sound(View(world')) && Tidy(View(world'), Stacks)
    ensures money > 0 ==> NoDup(inside) && Known(old(View(world)), inside)
                           && AllInside(old(View(world)), cylinder, inside)
    ensures money > 0 ==> (r <==> CoinTotal(old(View(world)), inside) >= money)
    ensures !r || money == 0 ==> world' == world && View(world) == old(View(world)) && (money == 0 ==> r)
    ensures r && money > 0 ==> PaidFrom(old(View(world)), View(world'), cylinder, ground, money + left, spilled)
                               && ChangeOk(old(View(world)), inside, currency, change, spilled, left)
    ensures r && money > 0 ==> CheapestFirst(old(View(world)), View(world'), inside, d)
    ensures r && money > 0 && (exists k :: k in currency && k.worth == 1) ==> left == 0
  {
    r, change, spilled, left, inside, d, world' := true, 0, 0, 0, [], 0, world;
    if money == 0 {
      return;
    }
    var entries, total;
    entries, total, inside := CollectMoney(cylinder, world);
    if total < money {
      r := false;
      return;
    }
    ghost var w, last := View(world), 0;
    change, spilled, left, last, world' :=
        PayEntries(entries, money, cylinder, ground, flags, currency, world, w, inside, total);
    d := entries[last].worth;
    SpentCheapest(w, View(world'), inside, entries, total, last, d);
  }

  /** Some stack inside was worth `d`: the stacks of coins that were worth less are in no container any
      more; those worth more, and all else there is, are where they were, with no unit less. */
  ghost predicate CheapestFirst(w: World<Item>, v: World<Item>, inside: seq<Item>, d: nat)
    requires Known(w, inside)
  {
    && d > 0 && (exists x :: x in inside && CoinWorth(w[x]) == d)
    && (forall x :: x in inside && 0 < CoinWorth(w[x]) < d ==> x in v && v[x].parent == None)
    && forall x {:trigger Stays(w, v, x)} :: x in w && (x !in inside || CoinWorth(w[x]) == 0 || CoinWorth(w[x]) > d) ==>
         Stays(w, v, x)
  }

  /** A cheaper stack comes before entry `i`. */
  lemma {:induction false} CheaperBefore(w: World<Item>, inside: seq<Item>, entries: seq<Entry>, total: nat, i: nat,
                                         x: Item)
    requires Tallied(w, inside, entries, total) && i < |entries| && x in inside
    requires 0 < CoinWorth(w[x]) < entries[i].worth
    ensures x in Taken(entries, i)
  {
    assert Entry(CoinWorth(w[x]), x) in entries;
    var j :| 0 <= j < |entries| && entries[j] == Entry(CoinWorth(w[x]), x);
    TakenIs(entries, i);
  }

  /** The items of the first entries are coins inside that are worth no more. */
  lemma {:induction false} TakenCheap(w: World<Item>, inside: seq<Item>, entries: seq<Entry>, total: nat, i: nat,
                                      n: nat, x: Item)
    requires Tallied(w, inside, entries, total) && n <= i + 1 <= |entries| && x in Taken(entries, n)
    ensures x in inside && x in w && 0 < CoinWorth(w[x]) <= entries[i].worth
  {
    if x == entries[n - 1].item { assert entries[n - 1] in entries; }
    else { TakenCheap(w, inside, entries, total, i, n - 1, x); }
  }

  lemma {:induction false} SpentCheapest(w: World<Item>, v: World<Item>, inside: seq<Item>, entries: seq<Entry>,
                                         total: nat, i: nat, d: nat)
    requires Tallied(w, inside, entries, total) && Spent(w, v, entries, i) && d == entries[i].worth
    ensures CheapestFirst(w, v, inside, d)
  {
    TakenCheap(w, inside, entries, total, i, i + 1, entries[i].item);
    assert entries[i] in entries;
    forall x | x in inside && 0 < CoinWorth(w[x]) < d ensures x in v && v[x].parent == None {
      CheaperBefore(w, inside, entries, total, i, x);
    }
    forall x | x in w && (x !in inside || CoinWorth(w[x]) == 0 || CoinWorth(w[x]) > d) ensures Stays(w, v, x) {
      if x in Taken(entries, i + 1) { TakenCheap(w, inside, entries, total, i, i + 1, x); }
    }
  }

  /** The item is where it was, with no unit less. */
  ghost predicate Stays(w: World<Item>, v: World<Item>, x: Item) {
    x in w && x in v && v[x].kind == w[x].kind && v[x].parent == w[x].parent && w[x].count <= v[x].count
  }

  lemma {:induction false} NothingPaid(w: World<Item>, root: Item, ground: Item, entries: seq<Entry>, money: nat)
    requires Sound(w) && Tidy(w, Stacks) && ground in w && 0 < money <= EntriesTotal(entries)
    ensures StillDue(w, w, root, ground, entries, 0, money, money)
  {
    assert entries[0..] == entries;
  }

  /** The paying loop, which reaches a break before the entries run out. */
  method PayEntries(entries: seq<Entry>, money: nat, cylinder: Item, ground: Item, flags: Flags, currency: seq<Kind>,
                    ghost world: set<Item>, ghost w: World<Item>, ghost inside: seq<Item>, ghost total: nat)
    returns (ghost change: nat, ghost spilled: nat, left: nat, ghost last: nat, ghost world': set<Item>)
    requires cylinder in world && cylinder.isContainer && w == View(world) && Sound(w) && Tidy(w, Stacks)
    requires ground in world && ground.isContainer && ground.unlocked && !Within(w, ground, cylinder)
    requires SingleCoins(w) && Currency(currency) && !flags.childIsOwner && !flags.ignoreAutoStack
    requires Tallied(w, inside, entries, total) && 0 < money <= total
    requires AllInside(w, cylinder, inside)
    modifies world
    ensures world <= world' && fresh(world' - world)
    ensures money > 0 <==> Settled(w, View(world'), cylinder, ground, entries, last, inside, currency, money, 0, change,
                              spilled, left)
  {
    change, spilled, left, last, world' := 0, 0, 0, 0, world;
    var due, i := money, 0;
    NothingPaid(w, cylinder, ground, entries, money);
    while i < |entries|
      invariant 0 <= i <= |entries|
      invariant due > 0 && (due > 0 <==> StillDue(w, View(world), cylinder, ground, entries, i, money, due))
    {
      due, change, spilled, left, world' :=
          PayEntry(entries, i, money, due, cylinder, ground, flags, currency, world, w, inside, total);
      if due == 0 {
        last := i;
        return;
      }
      i := i + 1;
    }
    assert false;
  }

  lemma {:induction false} EntryFacts(w: World<Item>, root: Item, inside: seq<Item>, entries: seq<Entry>, total: nat,
                                      i: nat)
    requires Tallied(w, inside, entries, total) && i < |entries| && SingleCoins(w)
    requires AllInside(w, root, inside)
    ensures EntryKnown(w, root, entries, i)
  {
    var e := entries[i];
    assert e in entries;
    assert entries[i..][1..] == entries[i + 1..];
    UnitWorth(w[e.item].kind.worth, w[e.item].count);
    TakenApart(w, entries, i);
  }

  lemma {:induction false} TakenApart(w: World<Item>, entries: seq<Entry>, i: nat)
    requires Distinct(entries) && Priced(w, entries) && i < |entries|
    ensures entries[i].item !in Taken(entries, i) && Taken(entries, i) <= w.Keys
  {
    TakenIs(entries, i);
    TakenKnown(w, entries, i);
  }

  lemma {:induction false} TakenKnown(w: World<Item>, entries: seq<Entry>, i: nat)
    requires Priced(w, entries) && i <= |entries|
    ensures Taken(entries, i) <= w.Keys
  {
    if i > 0 {
      TakenKnown(w, entries, i - 1);
      assert entries[i - 1] in entries;
    }
  }
}
