/** Loading the items of house tiles: what is read is attached, and what decays starts to. */
module HouseLoading {
  import opened Wrappers
  import opened Bytes
  import opened HouseStream

  /** The kind an item decays to; none if it is negative. */
  function DecayTo(ty: Type, t: Item): int {
    if DECAYTO in t.attrs && t.attrs[DECAYTO].Number? then t.attrs[DECAYTO].n else ty.decayTo
  }

  /** The item decays once it is on the map.  Kinds that decay are those that start with a duration. */
  predicate CanDecay(ty: Type, t: Item) {
    ty.duration != 0 && DecayTo(ty, t) >= 0 && UNIQUE_ID !in t.attrs
  }

  function TimeLeft(t: Item): int {
    if DURATION in t.attrs && t.attrs[DURATION].Number? then t.attrs[DURATION].n else 0
  }

  predicate IsDecaying(t: Item) {
    DECAYING_STATE in t.attrs && t.attrs[DECAYING_STATE] == Number(DECAYING_TRUE)
  }

  function WithState(t: Item, state: int): Item {
    t.(attrs := t.attrs[DECAYING_STATE := Number(state)])
  }

  /** What is there when the decay of an item on the map has been started: a container passes it on to
      its contents; an item with time left runs; one without turns into something else, or is gone. */
  function Started(types: map<nat, Type>, expire: Item -> Option<Item>, t: Item): (r: seq<Item>)
    ensures |r| <= 1
    decreases t
  {
    if t.id !in types then [t]
    else if types[t.id].container then [t.(items := StartedAll(types, expire, t.items))]
    else if !CanDecay(types[t.id], t) || IsDecaying(t) then [t]
    else if TimeLeft(t) > 0 then [WithState(t, DECAYING_TRUE)]
    else match expire(t) case Some(heir) => [heir] case None => []
  }

  function StartedAll(types: map<nat, Type>, expire: Item -> Option<Item>, ts: seq<Item>): (r: seq<Item>)
    ensures |r| <= |ts|
    decreases ts
  {
    if ts == [] then []
    else StartedAll(types, expire, ts[..|ts| - 1]) + Started(types, expire, ts[|ts| - 1])
  }

  /** What an item without time left turns into at once is of another kind. */
  ghost predicate Changes(expire: Item -> Option<Item>) {
    forall t :: expire(t).Some? ==> expire(t).value.id != t.id
  }

  /** The item itself comes back onto the map as it was: one that decays must be running with time left,
      and be storable but for that; any other must be storable. */
  ghost predicate Lasts(ty: Type, t: Item) {
    if CanDecay(ty, t) then IsDecaying(t) && TimeLeft(t) > 0 && Storable(ty, WithState(t, DECAYING_PENDING))
    else Storable(ty, t)
  }

  ghost predicate AllLast(types: map<nat, Type>, t: Item)
    requires Known(types, t)
    decreases t
  {
    if types[t.id].container then Storable(types[t.id], t) && EachLasts(types, t.items) else Lasts(types[t.id], t)
  }

  ghost predicate EachLasts(types: map<nat, Type>, ts: seq<Item>)
    requires AllKnown(types, ts)
    decreases ts
  {
    forall i :: 0 <= i < |ts| ==> AllLast(types, ts[i])
  }

  // ------------------------------------------------------- one item

  lemma {:induction false} PendingFormed(ty: Type, t: Item)
    requires WellFormed(ty, t)
    ensures WellFormed(ty, WithState(t, DECAYING_PENDING))
  {
  }

  lemma {:induction false} SameCharges(ty: Type, t: Item, state: int)
    ensures WithCharges(ty, WithState(t, state)) == WithCharges(ty, t)
  {
  }

  lemma {:induction false} OthersReadAlike(ty: Type, t: Item, p: Item, tag: Byte)
    requires p == WithState(t, DECAYING_PENDING) && tag != DECAYING_STATE
    ensures SameAt(Own(ty, p).attrs, Own(ty, t).attrs, tag)
  {
    SameCharges(ty, t, DECAYING_PENDING);
    OwnAt(ty, t, tag);
    OwnAt(ty, p, tag);
    assert Returns(ty, p, tag) <==> Returns(ty, t, tag);
  }

  /** A running item and a waiting one are read back alike. */
  lemma {:induction false} StateReadsAlike(ty: Type, t: Item)
    requires WellFormed(ty, t) && IsDecaying(t)
    ensures Own(ty, WithState(t, DECAYING_PENDING)) == Own(ty, t)
  {
    var p := WithState(t, DECAYING_PENDING);
    OwnKeeps(ty, t);
    OwnKeeps(ty, p);
    SameCharges(ty, t, DECAYING_PENDING);
    StateIsKept(ty, t);
    StateIsKept(ty, p);
    forall tag: Byte ensures SameAt(Own(ty, p).attrs, Own(ty, t).attrs, tag) {
      if tag != DECAYING_STATE { OthersReadAlike(ty, t, p, tag); }
    }
    SameEverywhere(Own(ty, p).attrs, Own(ty, t).attrs);
  }

  /** A state that is written is read as waiting. */
  lemma {:induction false} StateIsKept(ty: Type, t: Item)
    requires WellFormed(ty, t)
    ensures var r := Own(ty, t).attrs;
            if Written(ty, t, DECAYING_STATE)
            then DECAYING_STATE in r && r[DECAYING_STATE] == Number(DECAYING_PENDING) else DECAYING_STATE !in r
  {
    OwnAt(ty, t, DECAYING_STATE);
    if Written(ty, t, DECAYING_STATE) { DecayingIsWritten(ty, t); }
  }

  /** An item that decays is on the map as it was exactly when it was running with time left. */
  lemma {:induction false} DecayingExactly(ty: Type, t: Item, own: Item)
    requires WellFormed(ty, t) && t.items == [] && own == Own(ty, t) && CanDecay(ty, own)
    ensures TimeLeft(own) > 0 && WithState(own, DECAYING_TRUE) == t <==> CanDecay(ty, t) && Lasts(ty, t)
  {
    var p := WithState(t, DECAYING_PENDING);
    PendingFormed(ty, t);
    OwnExactly(ty, p);
    StateIsKept(ty, t);
    if IsDecaying(t) { StateReadsAlike(ty, t); }
    if WithState(own, DECAYING_TRUE) == t {
      assert own.attrs == p.attrs;
    }
  }

  lemma {:induction false} StayingExactly(ty: Type, t: Item, own: Item)
    requires WellFormed(ty, t) && t.items == [] && own == Own(ty, t) && !CanDecay(ty, own)
    ensures own == t <==> Lasts(ty, t)
  {
    OwnExactly(ty, t);
    if Lasts(ty, t) && CanDecay(ty, t) {
      PendingFormed(ty, t);
      OwnExactly(ty, WithState(t, DECAYING_PENDING));
      StateReadsAlike(ty, t);
    }
  }

  /** What is loaded of an item that is no container is that item exactly when it lasts. */
  lemma {:induction false} LeafExactly(types: map<nat, Type>, expire: Item -> Option<Item>, t: Item)
    requires Known(types, t) && !types[t.id].container && Changes(expire)
    ensures Started(types, expire, Reloaded(types, t)) == [t] <==> Lasts(types[t.id], t)
  {
    var ty, own := types[t.id], Own(types[t.id], t);
    OwnKeeps(ty, t);
    StateIsKept(ty, t);
    assert Reloaded(types, t) == own;
    if CanDecay(ty, own) {
      DecayingExactly(ty, t, own);
      if Lasts(ty, t) && !CanDecay(ty, t) { OwnExactly(ty, t); }
    } else {
      StayingExactly(ty, t, own);
    }
  }

  // ------------------------------------------------------- whole trees

  lemma {:induction false} SplitOff(s: seq<Item>, r: seq<Item>, init: seq<Item>, last: Item)
    requires |s| <= |init| && |r| <= 1
    ensures s + r == init + [last] <==> s == init && r == [last]
  {
    if s + r == init + [last] {
      assert (s + r)[..|init|] == init && (s + r)[|init|] == last;
    }
  }

  lemma {:induction false} StartedLast(types: map<nat, Type>, expire: Item -> Option<Item>, ts: seq<Item>,
                                       init: seq<Item>,
                                       last: Item)
    requires AllKnown(types, ts) && ts == init + [last] && AllKnown(types, init) && Known(types, last)
    ensures StartedAll(types, expire, ReloadedAll(types, ts))
            == StartedAll(types, expire, ReloadedAll(types, init)) + Started(types, expire, Reloaded(types, last))
    ensures EachLasts(types, ts) <==> EachLasts(types, init) && AllLast(types, last)
  {
    LastKnown(types, ts, init, last);
    var all := ReloadedAll(types, ts);
    assert all[..|all| - 1] == ReloadedAll(types, init) && all[|all| - 1] == Reloaded(types, last);
    assert ts[|init|] == last;
    assert forall i :: 0 <= i < |init| ==> init[i] == ts[i];
  }

  lemma {:induction false} StartedSnoc(types: map<nat, Type>, expire: Item -> Option<Item>, ts: seq<Item>,
                                       init: seq<Item>,
                                       last: Item)
    requires AllKnown(types, ts) && ts != [] && init == ts[..|ts| - 1] && last == ts[|ts| - 1]
    requires AllKnown(types, init) && Known(types, last)
    ensures StartedAll(types, expire, ReloadedAll(types, ts)) == ts
            <==> (StartedAll(types, expire, ReloadedAll(types, init)) == init
                  && Started(types, expire, Reloaded(types, last)) == [last])
    ensures EachLasts(types, ts) <==> EachLasts(types, init) && AllLast(types, last)
  {
    assert ts == init + [last];
    StartedLast(types, expire, ts, init, last);
    SplitOff(StartedAll(types, expire, ReloadedAll(types, init)), Started(types, expire, Reloaded(types, last)), init,
        last);
  }

  lemma {:induction false} StartedExactly(types: map<nat, Type>, expire: Item -> Option<Item>, t: Item)
    requires Known(types, t) && Changes(expire)
    ensures Started(types, expire, Reloaded(types, t)) == [t] <==> AllLast(types, t)
    decreases t, 1
  {
    if types[t.id].container {
      var own, items := Own(types[t.id], t), StartedAll(types, expire, ReloadedAll(types, t.items));
      OwnKeeps(types[t.id], t);
      OwnExactly(types[t.id], t);
      StartedAllExactly(types, expire, t.items);
      assert Started(types, expire, Reloaded(types, t)) == [own.(items := items)];
      assert own.(items := items) == t <==> own == t.(items := []) && items == t.items;
    } else {
      LeafExactly(types, expire, t);
    }
  }

  lemma {:induction false} StartedAllExactly(types: map<nat, Type>, expire: Item -> Option<Item>, ts: seq<Item>)
    requires AllKnown(types, ts) && Changes(expire)
    ensures StartedAll(types, expire, ReloadedAll(types, ts)) == ts <==> EachLasts(types, ts)
    decreases ts, 0
  {
    if ts != [] {
      var init, last := ts[..|ts| - 1], ts[|ts| - 1];
      LastKnown(types, ts, init, last);
      StartedAllExactly(types, expire, init);
      StartedExactly(types, expire, last);
      StartedSnoc(types, expire, ts, init, last);
    }
  }

  /** Loading what was saved of a known item onto the map consumes exactly its bytes, and leaves the same
      item there, with the same contents in the same order at every depth, if and only if all of it lasts. */
  lemma {:induction false} RoundTrip(types: map<nat, Type>, expire: Item -> Option<Item>, t: Item, before: seq<Byte>,
                                     rest: seq<Byte>)
    requires Known(types, t) && Changes(expire)
    ensures var b := before + Encode(types, t) + rest;
            var r := ItemAt(types, b, |before|);
            && r.Got? && b[r.next..] == rest
            && (Attached(types, expire, true, r.value) == [t] <==> AllLast(types, t))
            && (Attached(types, expire, false, r.value) == [t] <==> AllStorable(types, t))
  {
    ReadBack(types, t, before, rest);
    StartedExactly(types, expire, t);
  }

  /** The number the item has under a tag; -1 without one. */
  function Given(t: Item, tag: Byte): int {
    if tag in t.attrs && t.attrs[tag].Number? then t.attrs[tag].n else -1
  }

  /** An item that has no duration to start with, decays to nothing, or has a unique id is on the map as
      it was exactly when it is storable. */
  lemma {:induction false} OthersStay(types: map<nat, Type>, expire: Item -> Option<Item>, t: Item)
    requires Known(types, t) && !types[t.id].container && Changes(expire)
    requires types[t.id].duration == 0 || (DECAYTO in t.attrs && Given(t, DECAYTO) < 0)
             || (DECAYTO !in t.attrs && types[t.id].decayTo < 0) || UNIQUE_ID in t.attrs
    ensures Started(types, expire, Reloaded(types, t)) == [t] <==> Storable(types[t.id], t)
  {
    LeafExactly(types, expire, t);
  }

  /** A kind that decays, be it to nothing at all, comes back running: what waited does not come back waiting. */
  lemma {:induction false} WaitingComesBackRunning(types: map<nat, Type>, expire: Item -> Option<Item>, t: Item)
    requires Known(types, t) && !types[t.id].container && Storable(types[t.id], t)
    requires types[t.id].duration != 0 && UNIQUE_ID !in t.attrs
    requires (types[t.id].decayTo >= 0 && DECAYTO !in t.attrs) || 0 <= Given(t, DECAYTO)
    requires DECAYING_STATE in t.attrs && Given(t, DURATION) > 0
    ensures Started(types, expire, Reloaded(types, t)) == [WithState(t, DECAYING_TRUE)]
              && WithState(t, DECAYING_TRUE) != t
  {
    OwnExactly(types[t.id], t);
    OwnKeeps(types[t.id], t);
    assert Reloaded(types, t) == t;
    assert Fits(DECAYING_STATE, t.attrs[DECAYING_STATE]);
  }

  /** A torch of a minute with 45 seconds left. */
  function Torch(state: int): Item {
    Item(1, 1, 0, map[DURATION := Number(45000), DECAYING_STATE := Number(state)], None, [])
  }

  function TorchType(): Type {
    Type(false, false, false, true, 0, 60000, 2)
  }

  lemma {:induction false} TorchLasts(state: int)
    requires state == DECAYING_TRUE || state == DECAYING_PENDING
    ensures Known(map[1 := TorchType()], Torch(state)) && CanDecay(TorchType(), Torch(state))
    ensures Storable(TorchType(), Torch(DECAYING_PENDING))
    ensures Lasts(TorchType(), Torch(state)) <==> state == DECAYING_TRUE
  {
    TorchStorable();
    assert Power(4) > 0;
    assert WithState(Torch(state), DECAYING_PENDING) == Torch(DECAYING_PENDING);
  }

  lemma {:induction false} TorchStorable()
    ensures Storable(TorchType(), Torch(DECAYING_PENDING))
  {
    Powers();
    assert Power(3) == 256 * Power(2) && Power(4) == 256 * Power(3);
  }

  /** The running torch comes back the same; the waiting one, which is read back the same, does not. */
  lemma {:induction false} TorchComesBackRunning(expire: Item -> Option<Item>)
    requires Changes(expire)
    ensures var types := map[1 := TorchType()];
            var waiting, running := Torch(DECAYING_PENDING), Torch(DECAYING_TRUE);
            && Known(types, running) && Started(types, expire, Reloaded(types, running)) == [running]
            && Known(types, waiting) && Reloaded(types, waiting) == waiting
            && Started(types, expire, Reloaded(types, waiting)) == [running] != [waiting]
  {
    var types := map[1 := TorchType()];
    var waiting := Torch(DECAYING_PENDING);
    TorchLasts(DECAYING_TRUE);
    TorchLasts(DECAYING_PENDING);
    LeafExactly(types, expire, Torch(DECAYING_TRUE));
    WaitingComesBackRunning(types, expire, waiting);
    OwnExactly(TorchType(), waiting);
    OwnKeeps(TorchType(), waiting);
    assert WithState(waiting, DECAYING_TRUE) == Torch(DECAYING_TRUE);
  }

  /** An item whose time is over turns at once into what it decays to. */
  lemma {:induction false} OverdueTurns(types: map<nat, Type>, expire: Item -> Option<Item>, t: Item)
    requires Known(types, t) && !types[t.id].container && Storable(types[t.id], t)
    requires types[t.id].duration != 0 && UNIQUE_ID !in t.attrs
    requires (types[t.id].decayTo >= 0 && DECAYTO !in t.attrs) || 0 <= Given(t, DECAYTO)
    requires Given(t, DURATION) == 0
    ensures Started(types, expire, Reloaded(types, t)) == (match expire(t) case Some(heir) => [heir] case None => [])
  {
    OwnExactly(types[t.id], t);
    OwnKeeps(types[t.id], t);
    assert Reloaded(types, t) == t;
    if DECAYING_STATE in t.attrs { assert Fits(DECAYING_STATE, t.attrs[DECAYING_STATE]); }
  }

  // ---------------------------------------------------------- the methods

  /** What is where an item was attached: on the map its decay is started. */
  function Attached(types: map<nat, Type>, expire: Item -> Option<Item>, onMap: bool, found: Option<Item>): seq<Item> {
    match found
    case None => []
    case Some(t) => if onMap then Started(types, expire, t) else [t]
  }

  method StartDecaying(types: map<nat, Type>, expire: Item -> Option<Item>, t: Item) returns (there: seq<Item>)
    ensures there == Started(types, expire, t)
    decreases t
  {
    there := [t];
    if t.id !in types { return; }
    if types[t.id].container {
      var items := [];
      for i := 0 to |t.items|
        invariant items == StartedAll(types, expire, t.items[..i])
      {
        assert t.items[..i + 1][..i] == t.items[..i];
        var inner := StartDecaying(types, expire, t.items[i]);
        items := items + inner;
      }
      assert t.items[..|t.items|] == t.items;
      return [t.(items := items)];
    }
    if !CanDecay(types[t.id], t) { return; }
    if IsDecaying(t) { return; }
    if TimeLeft(t) > 0 { return [WithState(t, DECAYING_TRUE)]; }
    match expire(t)
    case Some(heir) => there := [heir];
    case None => there := [];
  }

  lemma {:induction false} NextContents(types: map<nat, Type>, t: Item, t': Item, count: nat, b: seq<Byte>, p: nat,
                                        found: seq<Item>)
    requires count > 0 && p <= |b| && ItemAt(types, b, p).Got? && t' == t.(items := found + t.items)
    requires found == match ItemAt(types, b, p).value case None => [] case Some(x) => [x]
    ensures ContentsAt(types, t, count, b, p) == ContentsAt(types, t', count - 1, b, ItemAt(types, b, p).next)
  {
    assert [] + t.items == t.items;
  }

  /** Reads one item with everything in it and attaches it to a parent, which is on the map or not. */
  method LoadItem(stream: PropStream, types: map<nat, Type>, expire: Item -> Option<Item>, onMap: bool)
    returns (ok: bool, there: seq<Item>)
    requires stream.Valid()
    modifies stream`p
    ensures stream.Valid() && old(stream.p) <= stream.p
    ensures ok <==> ItemAt(types, stream.data, old(stream.p)).Got?
    ensures ok ==> var r := ItemAt(types, stream.data, old(stream.p));
                   stream.p == r.next && there == Attached(types, expire, onMap, r.value)
    decreases |stream.data| - stream.p, 0
  {
    var id, t, count;
    there := [];
    ok, id := stream.Read(2);
    if !ok || id !in types { return; }
    ok, t, count := UnserializeAttr(stream, types[id], Fresh(id, types[id]));
    if !ok { return; }
    if types[id].container {
      ok, t := LoadContainer(stream, types, expire, t, count);
      if !ok { return; }
    }
    there := [t];
    if onMap { there := StartDecaying(types, expire, t); }
  }

  method LoadContainer(stream: PropStream, types: map<nat, Type>, expire: Item -> Option<Item>, empty: Item, n: nat)
    returns (ok: bool, t: Item)
    requires stream.Valid()
    modifies stream`p
    ensures stream.Valid() && old(stream.p) <= stream.p
    ensures ok <==> ContentsAt(types, empty, n, stream.data, old(stream.p)).Got?
    ensures ok ==> Got(Some(t), stream.p) == ContentsAt(types, empty, n, stream.data, old(stream.p))
    decreases |stream.data| - stream.p, 1
  {
    t := empty;
    var serializationCount := n;
    ghost var start := stream.p;
    while serializationCount > 0
      invariant stream.Valid() && start <= stream.p
      invariant ContentsAt(types, empty, n, stream.data, start)
                == ContentsAt(types, t, serializationCount, stream.data, stream.p)
      decreases serializationCount
    {
      var found;
      ghost var at, had := stream.p, t;
      ok, found := LoadItem(stream, types, expire, false);
      if !ok { return; }
      t := t.(items := found + t.items);
      NextContents(types, had, t, serializationCount, stream.data, at, found);
      serializationCount := serializationCount - 1;
    }
    var endAttr;
    ok, endAttr := stream.ReadByte();
    if ok && endAttr != 0 { ok := false; }
  }
}
