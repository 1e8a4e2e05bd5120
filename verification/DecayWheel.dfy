/** The wheel of four lists in which decaying items wait, one list looked at every 250 ms. */
module DecayWheel {
  const INTERVAL := 250
  const BUCKETS := 4
  const ROUND := INTERVAL * BUCKETS

  /** What a visit makes of an item. */
  datatype Fate = Released | Decays | Moves | Stays

  /** What is left of a duration after a visit. */
  function Left(d: int): int {
    d - (if d < ROUND then d else ROUND)
  }

  function FateOf(d: int, canDecay: bool): Fate {
    if !canDecay then Released
    else if Left(d) <= 0 then Decays
    else if Left(d) >= ROUND then Stays
    else if ((Left(d) + INTERVAL / 2) / 1000) % BUCKETS == 0 then Decays
    else Moves
  }

  /** The items of a list with a given fate, in order. */
  function Fated(items: seq<nat>, duration: map<nat, int>, decayable: set<nat>, fate: Fate): seq<nat>
    requires forall x :: x in items ==> x in duration
  {
    if items == [] then []
    else
      var n := |items| - 1;
      Fated(items[..n], duration, decayable, fate)
      + (if FateOf(duration[items[n]], items[n] in decayable) == fate then [items[n]] else [])
  }

  /** What becomes of items that decay waits to be placed, latest first. */
  function Heirs(items: seq<nat>, heirs: map<nat, nat>): seq<nat> {
    if items == [] then []
    else
      var n := |items| - 1;
      (if items[n] in heirs then [heirs[items[n]]] else []) + Heirs(items[..n], heirs)
  }

  lemma {:induction false} HeirsSnoc(items: seq<nat>, item: nat, heirs: map<nat, nat>, rest: seq<nat>)
    ensures Heirs(items + [item], heirs) + rest
            == (if item in heirs then [heirs[item]] else []) + (Heirs(items, heirs) + rest)
  {
    assert (items + [item])[..|items|] == items;
  }

  // ------------------------------------------------------- one item's way

  /** In how many ticks a list is looked at next, when `last` was looked at last. */
  function Wait(last: nat, bucket: nat): (n: int)
    requires last < BUCKETS && bucket < BUCKETS
    ensures 1 <= n <= BUCKETS && (last + n) % BUCKETS == bucket
  {
    if bucket <= last then bucket + BUCKETS - last else bucket - last
  }

  /** How many ticks an item outlives the next visit. */
  function After(d: int): (n: nat)
    decreases d
  {
    var rest := d - ROUND;
    if rest < ROUND - INTERVAL / 2 then 0 else if rest < ROUND then 1 else BUCKETS + After(rest)
  }

  function DueIn(last: nat, bucket: nat, d: int): int
    requires last < BUCKETS && bucket < BUCKETS
  {
    Wait(last, bucket) + After(d)
  }

  /** Where an item is put by its duration. */
  function Placed(last: nat, d: int): nat
    requires last < BUCKETS
  {
    if d >= ROUND || d < 0 then last else (last + 1 + d / 1000) % BUCKETS
  }

  /** An item put on the wheel waits one tick if its duration is short, a whole round otherwise. */
  lemma {:induction false} PlacedWait(last: nat, d: int)
    requires last < BUCKETS && d >= 1
    ensures Wait(last, Placed(last, d)) == if d >= ROUND then BUCKETS else 1
  {
    if d < ROUND { assert d / 1000 == 0; }
  }

  /** An item put on the wheel is due at the tick that its duration says, to within 875 ms, and no
      later than its duration unless that is less than one tick. */
  lemma {:induction false} Deadline(last: nat, d: int)
    requires last < BUCKETS && d >= 1
    ensures var due := INTERVAL * DueIn(last, Placed(last, d), d);
            d - 875 < due <= (if d < INTERVAL then INTERVAL else d)
  {
    PlacedWait(last, d);
    if d >= ROUND { AfterBounds(d); }
  }

  lemma {:induction false} AfterBounds(d: int)
    requires d >= ROUND
    ensures d - ROUND - 875 < INTERVAL * After(d) <= d - ROUND
    decreases d
  {
    if d - ROUND >= ROUND { AfterBounds(d - ROUND); }
  }

  /** The due tick in closed form. */
  lemma {:induction false} DueClosedForm(last: nat, d: int)
    requires last < BUCKETS && d >= 1
    ensures DueIn(last, Placed(last, d), d)
            == if d < ROUND then 1 else BUCKETS * (d / ROUND) + (if d % ROUND >= ROUND - INTERVAL / 2 then 1 else 0)
    decreases d
  {
    PlacedWait(last, d);
    if d >= 2 * ROUND {
      DueClosedForm(last, d - ROUND);
      PlacedWait(last, d - ROUND);
    }
  }

  /** The list an item moves to. */
  function NextBucket(bucket: nat, left: int): int {
    (bucket + (left + INTERVAL / 2) / 1000) % BUCKETS
  }

  lemma {:induction false} MovesOneOn(bucket: nat, d: int)
    requires bucket < BUCKETS && FateOf(d, true) == Moves
    ensures NextBucket(bucket, Left(d)) == (bucket + 1) % BUCKETS && ROUND - INTERVAL / 2 <= Left(d) < ROUND
  {
    var q := (Left(d) + INTERVAL / 2) / 1000;
    assert 0 <= q <= 1;
  }

  lemma {:induction false} DecaysWhenDue(d: int)
    requires d >= 1
    ensures FateOf(d, true) == Decays <==> After(d) == 0
    ensures FateOf(d, true) != Decays ==> Left(d) >= 1
    ensures FateOf(d, true) == Moves <==> After(d) == 1
  {
    if 0 < Left(d) < ROUND {
      var q := (Left(d) + INTERVAL / 2) / 1000;
      assert if Left(d) < ROUND - INTERVAL / 2 then q == 0 else q == 1;
    }
  }

  lemma {:induction false} AfterMoves(d: int)
    requires FateOf(d, true) == Moves
    ensures After(d) == 1 && After(Left(d)) == 0
  {
    MovesOneOn(0, d);
  }

  lemma {:induction false} AfterStays(d: int)
    requires FateOf(d, true) == Stays
    ensures After(d) == BUCKETS + After(Left(d))
  {
  }

  /** A visit keeps the due tick: it decays the item exactly when that is now. */
  lemma {:induction false} VisitKeepsDue(bucket: nat, d: int)
    requires bucket < BUCKETS && d >= 1
    ensures FateOf(d, true) == Decays <==> After(d) == 0
    ensures FateOf(d, true) == Moves ==> DueIn(bucket, (bucket + 1) % BUCKETS, Left(d)) == After(d)
    ensures FateOf(d, true) == Stays ==> DueIn(bucket, bucket, Left(d)) == After(d)
    ensures FateOf(d, true) != Decays ==> Left(d) >= 1
  {
    DecaysWhenDue(d);
    WaitNext(bucket);
    if FateOf(d, true) == Moves { AfterMoves(d); }
    if FateOf(d, true) == Stays { AfterStays(d); }
  }

  lemma {:induction false} WaitNext(bucket: nat)
    requires bucket < BUCKETS
    ensures Wait(bucket, (bucket + 1) % BUCKETS) == 1 && Wait(bucket, bucket) == BUCKETS
  {
  }

  /** In how many ticks after the next visit an item decays that is in a list twice: both its places are
      visited in one turn, the second with what the first has left. */
  function TwiceAfter(d: int): (n: nat)
    decreases d
  {
    if FateOf(d, true) != Stays || FateOf(Left(d), true) == Decays then 0
    else if FateOf(Left(d), true) == Moves then 1
    else BUCKETS + TwiceAfter(Left(Left(d)))
  }

  lemma {:induction false} TwiceBounds(d: int)
    requires d >= ROUND
    ensures d - ROUND - 1875 < 2 * INTERVAL * TwiceAfter(d) <= d - ROUND
    decreases d
  {
    if d >= 3 * ROUND { TwiceBounds(d - 2 * ROUND); }
  }

  /** An item that waits twice decays in half its time, to within a second. */
  lemma {:induction false} TwiceAsFast(last: nat, d: int)
    requires last < BUCKETS && d >= ROUND
    ensures var due := INTERVAL * (Wait(last, Placed(last, d)) + TwiceAfter(d));
            d - 875 < 2 * due <= d + 1000
  {
    PlacedWait(last, d);
    TwiceBounds(d);
  }

  // ------------------------------------------------------------ the wheel

  /** The durations after all items of a list were visited. */
  ghost predicate Aged(items: seq<nat>, before: map<nat, int>, decayable: set<nat>, after: map<nat, int>) {
    && after.Keys == before.Keys
    && forall x :: x in before ==> after[x] == if x in items && x in decayable then Left(before[x]) else before[x]
  }

  /** Distinct items of the list. */
  ghost predicate NoDup(items: seq<nat>) {
    forall i, j :: 0 <= i < j < |items| ==> items[i] != items[j]
  }

  lemma {:induction false} FatedSnoc(items: seq<nat>, i: nat, duration: map<nat, int>, decayable: set<nat>, fate: Fate)
    requires i < |items| && forall x :: x in items ==> x in duration
    ensures Fated(items[..i + 1], duration, decayable, fate)
            == Fated(items[..i], duration, decayable, fate)
               + (if FateOf(duration[items[i]], items[i] in decayable) == fate then [items[i]] else [])
  {
    assert items[..i + 1][..i] == items[..i];
  }

  class Game {
    const decayItems: array<seq<nat>>
    var lastBucket: nat
    var toDecayItems: seq<nat>
    var duration: map<nat, int>
    var decayable: set<nat>
    var decaying: set<nat>

    ghost predicate Shaped()
      reads this, decayItems
    {
      && decayItems.Length == BUCKETS && lastBucket < BUCKETS
      && (forall c, x :: 0 <= c < BUCKETS && x in decayItems[c] ==> x in duration)
      && forall x :: x in toDecayItems ==> x in duration
    }

    /** An item whose time has come; the decay of what it turns into starts. */
    method InternalDecayItem(item: nat, heirs: map<nat, nat>)
      modifies this`toDecayItems, this`decaying
      ensures toDecayItems == (if item in heirs then [heirs[item]] else []) + old(toDecayItems)
      ensures decaying == old(decaying) + (if item in heirs then {heirs[item]} else {})
    {
      if item in heirs {
        decaying := decaying + {heirs[item]};
        toDecayItems := [heirs[item]] + toDecayItems;
      }
    }

    /** Looks at item `it` of the list. */
    method Visit(bucket: nat, it: nat, heirs: map<nat, nat>) returns (fate: Fate)
      requires Shaped() && bucket < BUCKETS && it < |decayItems[bucket]|
      requires forall x :: x in heirs ==> heirs[x] in duration
      modifies this`toDecayItems, this`duration, this`decaying, decayItems
      ensures Shaped()
      ensures var list := old(decayItems[bucket]);
              var item := list[it];
              var next := (bucket + 1) % BUCKETS;
              && fate == FateOf(old(duration)[item], item in decayable)
              && decayItems[bucket] == (if fate == Stays then list else list[..it] + list[it + 1..])
              && decayItems[next] == old(decayItems[next]) + (if fate == Moves then [item] else [])
              && (forall c :: 0 <= c < BUCKETS && c != bucket && c != next ==> decayItems[c] == old(decayItems[c]))
              && duration == (if item in decayable then old(duration)[item :=
                  Left(old(duration)[item])] else old(duration))
              && toDecayItems == (if fate == Decays && item in heirs then [heirs[item]] else []) + old(toDecayItems)
              && decaying == old(decaying) - (if fate == Released then {item} else {})
                             + (if fate == Decays && item in heirs then {heirs[item]} else {})
    {
      var list, item := decayItems[bucket], decayItems[bucket][it];
      if item !in decayable {
        decaying := decaying - {item};
        decayItems[bucket] := list[..it] + list[it + 1..];
        return Released;
      }
      var d := duration[item];
      var decreaseTime := if INTERVAL * BUCKETS < d then INTERVAL * BUCKETS else d;
      var left := d - decreaseTime;
      duration := duration[item := left];
      if left <= 0 {
        decayItems[bucket] := list[..it] + list[it + 1..];
        InternalDecayItem(item, heirs);
        fate := Decays;
      } else if left < INTERVAL * BUCKETS {
        decayItems[bucket] := list[..it] + list[it + 1..];
        var newBucket := (bucket + ((left + INTERVAL / 2) / 1000)) % BUCKETS;
        SameBucket(bucket, d);
        if newBucket == bucket {
          InternalDecayItem(item, heirs);
          fate := Decays;
        } else {
          decayItems[newBucket] := decayItems[newBucket] + [item];
          fate := Moves;
        }
      } else {
        fate := Stays;
      }
    }

    /** The first `i` items of a pass over `items` are done, and `it` is the place of the next. */
    ghost predicate Sweeping(bucket: nat, it: nat, heirs: map<nat, nat>, decayed: seq<nat>,
                             items: seq<nat>, i: nat, lists: seq<seq<nat>>, d: map<nat, int>, rest: seq<nat>,
                             marked: set<nat>)
      reads this, decayItems
    {
      && Shaped() && duration.Keys == d.Keys && NoDup(items) && (forall x :: x in heirs ==> heirs[x] in d)
      && Swept(items, i, lists, bucket, d, decayable, decayItems[..], duration, decayed)
      && it == |Fated(items[..i], d, decayable, Stays)| && toDecayItems == Heirs(decayed, heirs) + rest
      && MarksKept(marked, Fated(items[..i], d, decayable, Released), decayed, heirs, decaying)
    }

    /** The next item of a pass. */
    method SweepItem(bucket: nat, it: nat, heirs: map<nat, nat>, decayed: seq<nat>,
                     ghost items: seq<nat>, ghost i: nat, ghost lists: seq<seq<nat>>, ghost d: map<nat, int>,
                     ghost rest: seq<nat>,
                     ghost marked: set<nat>)
      returns (it': nat, decayed': seq<nat>)
      requires Sweeping(bucket, it, heirs, decayed, items, i, lists, d, rest, marked) && it < |decayItems[bucket]|
      modifies this`toDecayItems, this`duration, this`decaying, decayItems
      ensures i < |items| && Sweeping(bucket, it', heirs, decayed', items, i + 1, lists, d, rest, marked)
    {
      ghost var now, nowDuration, nowMarked := decayItems[..], duration, decaying;
      var item := decayItems[bucket][it];
      SweptItem(items, i, lists, bucket, d, decayable, now, nowDuration, decayed, it);
      var fate := Visit(bucket, it, heirs);
      it' := if fate == Stays then it + 1 else it;
      decayed' := if fate == Decays then decayed + [item] else decayed;
      SweptOneMore(items, i, lists, bucket, d, decayable, now, nowDuration, decayed, decayItems[..], duration, decayed',
          item);
      MarksOneMore(items, i, d, decayable, marked, decayed, heirs, nowMarked, decaying, item);
      if fate == Decays { HeirsSnoc(decayed, item, heirs, rest); }
    }

    /** One pass over a list. */
    method Sweep(bucket: nat, heirs: map<nat, nat>) returns (decayed: seq<nat>)
      requires Shaped() && bucket < BUCKETS && NoDup(decayItems[bucket])
      requires forall x :: x in heirs ==> heirs[x] in duration
      modifies this`toDecayItems, this`duration, this`decaying, decayItems
      ensures var items := old(decayItems[bucket]);
              Swept(items, |items|, old(decayItems[..]), bucket, old(duration), decayable, decayItems[..], duration,
                  decayed)
      ensures toDecayItems == Heirs(decayed, heirs) + old(toDecayItems)
      ensures MarksKept(old(decaying), Fated(old(decayItems[bucket]), old(duration), decayable, Released), decayed,
                heirs, decaying)
    {
      ghost var lists, items, d, i, rest, marked := decayItems[..], decayItems[bucket], duration, 0, toDecayItems,
          decaying;
      var it: nat := 0;
      decayed := [];
      SweepStarts(items, lists, bucket, d, decayable);
      while it < |decayItems[bucket]|
        invariant Sweeping(bucket, it, heirs, decayed, items, i, lists, d, rest, marked)
        decreases |items| - i
      {
        it, decayed := SweepItem(bucket, it, heirs, decayed, items, i, lists, d, rest, marked);
        i := i + 1;
      }
      SweepEnds(items, i, lists, bucket, d, decayable, decayItems[..], duration, decayed, it);
      assert items[..i] == items;
    }

    ghost function View(): Wheel
      reads this, decayItems
    {
      Wheel(decayItems[..], lastBucket, toDecayItems, duration)
    }

    /** What is on the wheel is marked as decaying. */
    ghost predicate Marked()
      reads this, decayItems
    {
      AllMarked(View(), decaying)
    }

    /** Puts every waiting item into a list, by its duration. */
    method Cleanup()
      requires Sound(View())
      modifies this`toDecayItems, decayItems
      ensures CleanedTo(old(View()), View())
    {
      ghost var w := View();
      var i := 0;
      while i < |toDecayItems|
        invariant i <= |toDecayItems| && toDecayItems == w.waiting && lastBucket == w.last && duration == w.duration
        invariant PartlyClean(w, View().(waiting := toDecayItems[i..]), i)
      {
        ghost var now := View().(waiting := toDecayItems[i..]);
        var item := toDecayItems[i];
        WaitingKnown(w, i);
        var dur := duration[item];
        var bucket := if dur >= INTERVAL * BUCKETS || dur < 0 then lastBucket
                      else (lastBucket + 1 + dur / 1000) % BUCKETS;
        decayItems[bucket] := decayItems[bucket] + [item];
        PlacedOne(w, now, View().(waiting := toDecayItems[i + 1..]), i, bucket, item);
        i := i + 1;
      }
      toDecayItems := [];
      Cleaned(w, View(), i);
    }

    /** Starts the decay of an item, unless it is under way. */
    method StartDecay(item: nat, heirs: map<nat, nat>)
      requires Sound(View()) && Marked() && NewHeirs(View(), heirs) && item in duration
      modifies this`toDecayItems, this`decaying
      ensures Sound(View()) && Marked()
      ensures if item !in decayable || item in old(decaying) then View() == old(View()) && decaying == old(decaying)
              else if duration[item] > 0
              then View() == old(View()).(waiting := [item] + old(toDecayItems)) && decaying == old(decaying) + {item}
              else View() == old(View()).(waiting := (if item in heirs then [heirs[item]] else []) + old(toDecayItems))
                   && decaying == old(decaying) + (if item in heirs then {heirs[item]} else {})
      ensures View() == old(View()) || StartTo(old(View()), item, View())
              || (item in heirs && StartTo(old(View()), heirs[item], View()))
    {
      if item !in decayable { return; }
      if item in decaying { return; }
      ghost var w, marked := View(), decaying;
      if duration[item] > 0 {
        decaying := decaying + {item};
        toDecayItems := [item] + toDecayItems;
        StartedSound(w, View(), item);
        StartedMarked(w, View(), item, marked);
      } else {
        InternalDecayItem(item, heirs);
        if item in heirs {
          StartedSound(w, View(), heirs[item]);
          StartedMarked(w, View(), heirs[item], marked);
        } else {
          assert toDecayItems == w.waiting;
        }
      }
    }

    /** What a turn leaves unmarked was let go. */
    ghost predicate TurnMarks(w: Wheel, heirs: map<nat, nat>, decayed: seq<nat>, bucket: nat, marked: set<nat>)
      reads this
    {
      && Whole(w) && bucket < BUCKETS && (forall y :: y in w.lists[bucket] ==> y in w.duration)
      && MarksKept(marked, Fated(w.lists[bucket], w.duration, decayable, Released), decayed, heirs, decaying)
    }

    /** The next list is swept. */
    method SweepNext(heirs: map<nat, nat>) returns (decayed: seq<nat>)
      requires Sound(View()) && NewHeirs(View(), heirs)
      modifies this`lastBucket, this`toDecayItems, this`duration, this`decaying, decayItems
      ensures SweptTo(old(View()), decayable, heirs, decayed, View())
      ensures TurnMarks(old(View()), heirs, decayed, lastBucket, old(decaying))
    {
      ghost var w := View();
      var bucket := (lastBucket + 1) % BUCKETS;
      TurnReady(w, heirs, bucket);
      decayed := Sweep(bucket, heirs);
      lastBucket := bucket;
    }

    /** The turn of the next list. */
    method Turn(heirs: map<nat, nat>) returns (decayed: seq<nat>)
      requires Sound(View()) && Marked() && NewHeirs(View(), heirs)
      modifies this`lastBucket, this`toDecayItems, this`duration, this`decaying, decayItems
      ensures SweptTo(old(View()), decayable, heirs, decayed, View()) && Marked()
    {
      ghost var w, marked := View(), decaying;
      decayed := SweepNext(heirs);
      SweptMarked(w, decayable, heirs, decayed, View(), marked, decaying);
    }

    /** One tick. */
    method CheckDecay(heirs: map<nat, nat>) returns (decayed: seq<nat>)
      requires Sound(View()) && Marked() && NewHeirs(View(), heirs)
      modifies this`lastBucket, this`toDecayItems, this`duration, this`decaying, decayItems
      ensures Sound(View()) && Marked() && RightTick(old(View()), decayable, decayed, View())
      ensures TickTo(old(View()), decayable, heirs, decayed, View())
    {
      ghost var w := View();
      decayed := Turn(heirs);
      ghost var swept := View();
      SweptSound(w, decayable, heirs, decayed, swept);
      Cleanup();
      TickIsRight(w, decayable, heirs, decayed, swept, View());
    }
  }

  lemma {:induction false} MarksOneMore(items: seq<nat>, i: nat, d: map<nat, int>, decayable: set<nat>,
                                        marked: set<nat>,
                                        decayed: seq<nat>, heirs: map<nat, nat>, now: set<nat>, now': set<nat>,
                                        item: nat)
    requires i < |items| && (forall x :: x in items ==> x in d) && item == items[i]
    requires MarksKept(marked, Fated(items[..i], d, decayable, Released), decayed, heirs, now)
    requires var fate := FateOf(d[item], item in decayable);
             now' == now - (if fate == Released then {item} else {})
                     + (if fate == Decays && item in heirs then {heirs[item]} else {})
    ensures var fate := FateOf(d[item], item in decayable);
            MarksKept(marked, Fated(items[..i + 1], d, decayable, Released),
                      if fate == Decays then decayed + [item] else decayed, heirs, now')
  {
    FatedSnoc(items, i, d, decayable, Released);
  }

  lemma {:induction false} TurnReady(w: Wheel, heirs: map<nat, nat>, bucket: nat)
    requires Sound(w) && NewHeirs(w, heirs) && bucket < BUCKETS
    ensures NoDup(w.lists[bucket]) && (forall x :: x in heirs ==> heirs[x] in w.duration)
    ensures (forall c, x :: 0 <= c < BUCKETS && x in w.lists[c] ==> x in w.duration) && forall x :: x in w.waiting ==>
              x in w.duration
  {
    ListOnce(w, bucket);
    forall c, x | 0 <= c < BUCKETS && x in w.lists[c] ensures x in w.duration { InListOnce(w, c, x); }
    forall x | x in w.waiting ensures x in w.duration { WaitingOnce(w, x); }
  }

  lemma {:induction false} SweepEnds(items: seq<nat>, i: nat, lists: seq<seq<nat>>, bucket: nat, d: map<nat, int>,
                                     decayable: set<nat>,
                                     now: seq<seq<nat>>, nowD: map<nat, int>, decayed: seq<nat>, it: nat)
    requires Swept(items, i, lists, bucket, d, decayable, now, nowD, decayed)
    requires it == |Fated(items[..i], d, decayable, Stays)| && it >= |now[bucket]|
    ensures i == |items|
  {
  }

  lemma {:induction false} SweepStarts(items: seq<nat>, lists: seq<seq<nat>>, bucket: nat, d: map<nat, int>,
                                       decayable: set<nat>)
    requires |lists| == BUCKETS && bucket < BUCKETS && items == lists[bucket] && forall x :: x in items ==> x in d
    ensures Swept(items, 0, lists, bucket, d, decayable, lists, d, [])
  {
  }

  /** The item looked at is the first one not yet seen, with its duration as it was. */
  lemma {:induction false} SweptItem(items: seq<nat>, i: nat, lists: seq<seq<nat>>, bucket: nat, d: map<nat, int>,
                                     decayable: set<nat>,
                                     now: seq<seq<nat>>, nowD: map<nat, int>, decayed: seq<nat>, it: nat)
    requires NoDup(items) && Swept(items, i, lists, bucket, d, decayable, now, nowD, decayed)
    requires it == |Fated(items[..i], d, decayable, Stays)| && it < |now[bucket]|
    ensures i < |items| && now[bucket][it] == items[i] && items[i] in d && nowD[items[i]] == d[items[i]]
    ensures |Fated(items[..i + 1], d, decayable, Stays)|
            == it + (if FateOf(d[items[i]], items[i] in decayable) == Stays then 1 else 0)
  {
    FatedSnoc(items, i, d, decayable, Stays);
  }

  lemma {:induction false} SameBucket(bucket: nat, d: int)
    requires bucket < BUCKETS && 0 < Left(d) < ROUND
    ensures NextBucket(bucket, Left(d)) == if FateOf(d, true) == Decays then bucket else (bucket + 1) % BUCKETS
    ensures FateOf(d, true) in {Decays, Moves}
  {
    var q := (Left(d) + INTERVAL / 2) / 1000;
    assert 0 <= q <= 1;
  }

  /** The first `i` items of the list have been looked at. */
  ghost predicate Swept(items: seq<nat>, i: nat, lists: seq<seq<nat>>, bucket: nat, d: map<nat, int>,
                        decayable: set<nat>,
                        lists': seq<seq<nat>>, d': map<nat, int>, decayed: seq<nat>)
  {
    && i <= |items| && |lists| == BUCKETS && bucket < BUCKETS && (forall x :: x in items ==> x in d)
    && Aged(items[..i], d, decayable, d') && decayed == Fated(items[..i], d, decayable, Decays)
    && |lists'| == BUCKETS && lists'[bucket] == Fated(items[..i], d, decayable, Stays) + items[i..]
    && lists'[(bucket + 1) % BUCKETS] == lists[(bucket + 1) % BUCKETS] + Fated(items[..i], d, decayable, Moves)
    && forall c :: 0 <= c < BUCKETS && c != bucket && c != (bucket + 1) % BUCKETS ==> lists'[c] == lists[c]
  }

  /** Item `i` is taken from the list, or passed over. */
  lemma {:induction false} Passed(stays: seq<nat>, items: seq<nat>, i: nat, list: seq<nat>)
    requires i < |items| && list == stays + items[i..]
    ensures list[..|stays|] + list[|stays| + 1..] == stays + items[i + 1..]
    ensures list == (stays + [items[i]]) + items[i + 1..]
  {
    assert items[i..] == [items[i]] + items[i + 1..];
    assert list[..|stays|] == stays && list[|stays| + 1..] == items[i + 1..];
  }

  lemma {:induction false} SweptOneMore(items: seq<nat>, i: nat, lists: seq<seq<nat>>, bucket: nat, d: map<nat, int>,
                                        decayable: set<nat>,
                                        now: seq<seq<nat>>, nowD: map<nat, int>, nowDecayed: seq<nat>,
                                        lists': seq<seq<nat>>, d': map<nat, int>, decayed: seq<nat>, item: nat)
    requires NoDup(items) && i < |items| && Swept(items, i, lists, bucket, d, decayable, now, nowD, nowDecayed)
    requires item == items[i]
    requires var it, next := |Fated(items[..i], d, decayable, Stays)|, (bucket + 1) % BUCKETS;
             var fate := FateOf(d[item], item in decayable);
             && |lists'| == BUCKETS
             && lists'[bucket] == (if fate == Stays then now[bucket] else now[bucket][..it] + now[bucket][it + 1..])
             && lists'[next] == now[next] + (if fate == Moves then [item] else [])
             && (forall c :: 0 <= c < BUCKETS && c != bucket && c != next ==> lists'[c] == now[c])
             && d' == (if item in decayable then nowD[item := Left(d[item])] else nowD)
             && decayed == nowDecayed + (if fate == Decays then [item] else [])
    ensures Swept(items, i + 1, lists, bucket, d, decayable, lists', d', decayed)
  {
    var next, fate := (bucket + 1) % BUCKETS, FateOf(d[item], item in decayable);
    FatedSnoc(items, i, d, decayable, Decays);
    FatedSnoc(items, i, d, decayable, Moves);
    FatedSnoc(items, i, d, decayable, Stays);
    Passed(Fated(items[..i], d, decayable, Stays), items, i, now[bucket]);
    Joined(lists[next], Fated(items[..i], d, decayable, Moves), if fate == Moves then [item] else []);
    AgedOne(items, i, d, decayable, nowD, d');
  }

  lemma {:induction false} Joined(a: seq<nat>, b: seq<nat>, c: seq<nat>)
    ensures (a + b) + c == a + (b + c)
  {
  }

  lemma {:induction false} AgedOne(items: seq<nat>, i: nat, d: map<nat, int>, decayable: set<nat>, now: map<nat, int>,
                                   d': map<nat, int>)
    requires NoDup(items) && i < |items| && items[i] in d && Aged(items[..i], d, decayable, now)
    requires d' == (if items[i] in decayable then now[items[i] := Left(d[items[i]])] else now)
    ensures Aged(items[..i + 1], d, decayable, d')
  {
    assert items[..i + 1] == items[..i] + [items[i]];
    assert items[i] !in items[..i];
  }

  // --------------------------------------------------------- whole ticks

  /** The wheel as a value: its lists, the list looked at last, the items still to be placed. */
  datatype Wheel = Wheel(lists: seq<seq<nat>>, last: nat, waiting: seq<nat>, duration: map<nat, int>)

  ghost predicate Whole(w: Wheel) {
    |w.lists| == BUCKETS && w.last < BUCKETS
  }

  /** Marks stay but for those of released items, and what decayed items turned into is marked. */
  ghost predicate MarksKept(before: set<nat>, released: seq<nat>, decayed: seq<nat>, heirs: map<nat, nat>,
                            now: set<nat>) {
    && (forall x :: x in before && x !in released ==> x in now)
    && forall x :: x in decayed && x in heirs && heirs[x] !in released ==> heirs[x] in now
  }

  ghost predicate AllMarked(w: Wheel, marked: set<nat>) {
    Whole(w) && forall x :: Count(w, x) > 0 ==> x in marked
  }

  /** How often an item is in a list. */
  ghost function Times(s: seq<nat>, x: nat): nat {
    if s == [] then 0 else Times(s[..|s| - 1], x) + (if s[|s| - 1] == x then 1 else 0)
  }

  lemma {:induction false} TimesIn(s: seq<nat>, x: nat)
    ensures x in s <==> Times(s, x) > 0
  {
    if s != [] {
      TimesIn(s[..|s| - 1], x);
      assert s == s[..|s| - 1] + [s[|s| - 1]];
    }
  }

  lemma {:induction false} TimesAppend(s: seq<nat>, t: seq<nat>, x: nat)
    ensures Times(s + t, x) == Times(s, x) + Times(t, x)
    decreases |t|
  {
    if t == [] {
      assert s + t == s;
    } else {
      var n := |t| - 1;
      assert (s + t)[..|s| + n] == s + t[..n];
      TimesAppend(s, t[..n], x);
    }
  }

  /** What is in a list is on the wheel. */
  lemma {:induction false} TimesOnWheel(w: Wheel, c: nat, x: nat)
    requires Whole(w) && c < BUCKETS
    ensures Times(w.lists[c], x) + Times(w.waiting, x) <= Count(w, x)
  {
    assert c == 0 || c == 1 || c == 2 || c == 3;
  }

  lemma {:induction false} TwoOnWheel(w: Wheel, b: nat, c: nat, x: nat)
    requires Whole(w) && b < BUCKETS && c < BUCKETS && b != c
    ensures Times(w.lists[b], x) + Times(w.lists[c], x) <= Count(w, x)
  {
    assert b == 0 || b == 1 || b == 2 || b == 3;
    assert c == 0 || c == 1 || c == 2 || c == 3;
  }

  lemma {:induction false} InListOnce(w: Wheel, c: nat, x: nat)
    requires Sound(w) && c < BUCKETS && x in w.lists[c]
    ensures Count(w, x) == 1 && x in w.duration && w.duration[x] >= 1
  {
    TimesIn(w.lists[c], x);
    TimesOnWheel(w, c, x);
    assert Count(w, x) <= 1;
  }

  lemma {:induction false} WaitingOnce(w: Wheel, x: nat)
    requires Sound(w) && x in w.waiting
    ensures Count(w, x) == 1 && x in w.duration && w.duration[x] >= 1
  {
    TimesIn(w.waiting, x);
    TimesOnWheel(w, 0, x);
    assert Count(w, x) <= 1;
  }

  lemma {:induction false} OffWheel(w: Wheel, x: nat, c: nat)
    requires Whole(w) && Count(w, x) == 0 && c < BUCKETS
    ensures x !in w.lists[c]
  {
    TimesIn(w.lists[c], x);
    TimesOnWheel(w, c, x);
  }

  /** How often an item is on the wheel. */
  ghost function Count(w: Wheel, x: nat): nat
    requires Whole(w)
  {
    Times(w.lists[0], x) + Times(w.lists[1], x) + Times(w.lists[2], x) + Times(w.lists[3], x) + Times(w.waiting, x)
  }

  /** Every item is on the wheel at most once, with time left. */
  ghost predicate Sound(w: Wheel) {
    Whole(w) && forall x :: Count(w, x) <= 1 && (Count(w, x) == 1 ==> x in w.duration && w.duration[x] >= 1)
  }

  /** The item is in one of the lists and due in so many ticks. */
  ghost predicate Due(w: Wheel, x: nat, due: int) {
    Whole(w) && exists c :: 0 <= c < BUCKETS && DueAt(w, x, c, due)
  }

  ghost predicate DueAt(w: Wheel, x: nat, c: nat, due: int)
    requires Whole(w) && c < BUCKETS
  {
    x in w.lists[c] && x in w.duration && w.duration[x] >= 1 && DueIn(w.last, c, w.duration[x]) == due
  }

  /** What items turn into is new, and each turns into something of its own.  A number stands for an item
      from the start of a decay to its end: an item that is changed in place goes on under a new one. */
  ghost predicate NewHeirs(w: Wheel, heirs: map<nat, nat>)
    requires Whole(w)
  {
    && (forall x :: x in heirs ==> Count(w, heirs[x]) == 0 && heirs[x] in w.duration && w.duration[heirs[x]] >= 1)
    && Distinct(heirs)
  }

  /** Nothing else turns into what `x` turns into. */
  ghost predicate Sole(heirs: map<nat, nat>, x: nat) {
    forall y :: y in heirs && x in heirs && heirs[y] == heirs[x] ==> y == x
  }

  ghost predicate Distinct(heirs: map<nat, nat>) {
    forall x {:trigger Sole(heirs, x)} :: x in heirs ==> Sole(heirs, x)
  }

  lemma {:induction false} CountedOnce(s: seq<nat>)
    requires forall x :: Times(s, x) <= 1
    ensures NoDup(s)
  {
    if s != [] {
      var n := |s| - 1;
      forall x ensures Times(s[..n], x) <= 1 { assert Times(s, x) <= 1; }
      CountedOnce(s[..n]);
      assert Times(s, s[n]) <= 1;
      TimesIn(s[..n], s[n]);
      forall i | 0 <= i < n ensures s[i] != s[n] { assert s[i] in s[..n]; }
    }
  }

  lemma {:induction false} FatedIn(items: seq<nat>, d: map<nat, int>, can: set<nat>, fate: Fate, x: nat)
    requires forall y :: y in items ==> y in d
    ensures x in Fated(items, d, can, fate) <==> x in items && FateOf(d[x], x in can) == fate
  {
    if items != [] {
      var n := |items| - 1;
      FatedIn(items[..n], d, can, fate, x);
      assert items == items[..n] + [items[n]];
    }
  }

  lemma {:induction false} FateSnoc(items: seq<nat>, d: map<nat, int>, can: set<nat>, x: nat, fate: Fate)
    requires items != [] && forall y :: y in items ==> y in d
    ensures var n := |items| - 1;
            Times(Fated(items, d, can, fate), x) == Times(Fated(items[..n], d, can, fate), x)
              + (if items[n] == x && FateOf(d[x], x in can) == fate then 1 else 0)
  {
    var n := |items| - 1;
    var last := if FateOf(d[items[n]], items[n] in can) == fate then [items[n]] else [];
    TimesAppend(Fated(items[..n], d, can, fate), last, x);
    assert last == [items[n]] ==> last[..0] == [];
  }

  /** Every item of a list has one fate. */
  lemma {:induction false} FatesPart(items: seq<nat>, d: map<nat, int>, can: set<nat>, x: nat)
    requires forall y :: y in items ==> y in d
    ensures Times(items, x) == Times(Fated(items, d, can, Released), x) + Times(Fated(items, d, can, Decays), x)
                                  + Times(Fated(items, d, can, Moves), x) + Times(Fated(items, d, can, Stays), x)
  {
    if items != [] {
      var n := |items| - 1;
      assert items == items[..n] + [items[n]];
      FatesPart(items[..n], d, can, x);
      FateSnoc(items, d, can, x, Released);
      FateSnoc(items, d, can, x, Decays);
      FateSnoc(items, d, can, x, Moves);
      FateSnoc(items, d, can, x, Stays);
    }
  }

  /** Distinct items turn into distinct items. */
  lemma {:induction false} HeirsOnce(items: seq<nat>, heirs: map<nat, nat>, y: nat)
    requires NoDup(items) && Distinct(heirs)
    ensures Times(Heirs(items, heirs), y) <= 1
    ensures y in Heirs(items, heirs) ==> exists x :: x in items && x in heirs && heirs[x] == y
  {
    if items != [] {
      var n := |items| - 1;
      HeirsOnce(items[..n], heirs, y);
      assert items[n] in heirs ==> Sole(heirs, items[n]);
      var first := if items[n] in heirs then [heirs[items[n]]] else [];
      TimesAppend(first, Heirs(items[..n], heirs), y);
      assert first != [] ==> first[..0] == [];
      TimesIn(Heirs(items[..n], heirs), y);
    }
  }

  /** One list has been swept. */
  ghost predicate SweptTo(w: Wheel, can: set<nat>, heirs: map<nat, nat>, decayed: seq<nat>, w': Wheel) {
    && Whole(w) && Whole(w') && w'.last == (w.last + 1) % BUCKETS
    && var items := w.lists[w'.last];
    && Swept(items, |items|, w.lists, w'.last, w.duration, can, w'.lists, w'.duration, decayed)
    && w'.waiting == Heirs(decayed, heirs) + w.waiting
  }

  /** What became of one list, one item at a time. */
  lemma {:induction false} SweptParts(w: Wheel, can: set<nat>, heirs: map<nat, nat>, decayed: seq<nat>, w': Wheel)
    requires SweptTo(w, can, heirs, decayed, w')
    ensures var items := w.lists[w'.last];
            && decayed == Fated(items, w.duration, can, Decays) && Aged(items, w.duration, can, w'.duration)
            && w'.lists[w'.last] == Fated(items, w.duration, can, Stays)
            && w'.lists[(w'.last + 1) % BUCKETS]
               == w.lists[(w'.last + 1) % BUCKETS] + Fated(items, w.duration, can, Moves)
  {
    var items := w.lists[w'.last];
    assert items[..|items|] == items && items[|items|..] == [];
  }

  lemma {:induction false} WaitOneLess(last: nat, bucket: nat)
    requires last < BUCKETS && bucket < BUCKETS && bucket != (last + 1) % BUCKETS
    ensures Wait((last + 1) % BUCKETS, bucket) == Wait(last, bucket) - 1
  {
  }

  lemma {:induction false} SweptCount(w: Wheel, can: set<nat>, heirs: map<nat, nat>, decayed: seq<nat>, w': Wheel,
                                      x: nat)
    requires SweptTo(w, can, heirs, decayed, w')
    ensures var items := w.lists[w'.last];
            Count(w', x) == Count(w, x) - Times(Fated(items, w.duration, can, Released), x) - Times(decayed, x)
                            + Times(Heirs(decayed, heirs), x)
  {
    SweptParts(w, can, heirs, decayed, w');
    FatesPart(w.lists[w'.last], w.duration, can, x);
    var c, next := w'.last, (w'.last + 1) % BUCKETS;
    TimesAppend(w.lists[next], Fated(w.lists[c], w.duration, can, Moves), x);
    TimesAppend(Heirs(decayed, heirs), w.waiting, x);
    assert c == 0 || c == 1 || c == 2 || c == 3;
  }

  lemma {:induction false} ListOnce(w: Wheel, c: nat)
    requires Sound(w) && c < BUCKETS
    ensures NoDup(w.lists[c])
  {
    forall x ensures Times(w.lists[c], x) <= 1 {
      TimesOnWheel(w, c, x);
      assert Count(w, x) <= 1;
    }
    CountedOnce(w.lists[c]);
  }

  lemma {:induction false} FatedOnce(items: seq<nat>, d: map<nat, int>, can: set<nat>, fate: Fate)
    requires NoDup(items) && forall y :: y in items ==> y in d
    ensures NoDup(Fated(items, d, can, fate)) && forall x :: x in Fated(items, d, can, fate) ==> x in items
  {
    if items != [] {
      var n := |items| - 1;
      FatedOnce(items[..n], d, can, fate);
      assert items[n] !in items[..n];
    }
  }

  /** An item that is not on the wheel may come as what another turns into. */
  lemma {:induction false} NewcomerSound(w: Wheel, can: set<nat>, heirs: map<nat, nat>, decayed: seq<nat>, w': Wheel,
                                         x: nat)
    requires Sound(w) && NewHeirs(w, heirs) && SweptTo(w, can, heirs, decayed, w') && Count(w, x) == 0
    ensures Count(w', x) <= 1 && (Count(w', x) == 1 ==> x in w'.duration && w'.duration[x] >= 1)
  {
    SweptCount(w, can, heirs, decayed, w', x);
    SweptParts(w, can, heirs, decayed, w');
    ListOnce(w, w'.last);
    FatedOnce(w.lists[w'.last], w.duration, can, Decays);
    HeirsOnce(decayed, heirs, x);
    OffWheel(w, x, w'.last);
    TimesIn(Heirs(decayed, heirs), x);
  }

  /** An item that is on the wheel is what nothing turns into. */
  lemma {:induction false} MemberIsNoHeir(w: Wheel, heirs: map<nat, nat>, decayed: seq<nat>, x: nat)
    requires Whole(w) && NewHeirs(w, heirs) && NoDup(decayed) && Count(w, x) == 1
    ensures Times(Heirs(decayed, heirs), x) == 0
  {
    HeirsOnce(decayed, heirs, x);
    TimesIn(Heirs(decayed, heirs), x);
  }

  /** Times and durations of an item of the list whose turn it is. */
  lemma {:induction false} TurnTimes(w: Wheel, can: set<nat>, heirs: map<nat, nat>, decayed: seq<nat>, w': Wheel,
                                     x: nat)
    requires Sound(w) && SweptTo(w, can, heirs, decayed, w')
    ensures NoDup(decayed)
    ensures var items := w.lists[w'.last];
            && (forall y :: y in items ==> y in w.duration)
            && (x in decayed ==> Times(decayed, x) >= 1)
            && (x in items && x !in can ==> Times(Fated(items, w.duration, can, Released), x) >= 1)
            && (x in items && x in can && FateOf(w.duration[x], true) == Decays ==> Times(decayed, x) >= 1)
  {
    var items := w.lists[w'.last];
    SweptParts(w, can, heirs, decayed, w');
    ListOnce(w, w'.last);
    FatedOnce(items, w.duration, can, Decays);
    TimesIn(decayed, x);
    TimesIn(Fated(items, w.duration, can, Released), x);
    FatedIn(items, w.duration, can, Decays, x);
    FatedIn(items, w.duration, can, Released, x);
  }

  /** An item that is on the wheel stays there once, decays, or is let go. */
  lemma {:induction false} MemberSound(w: Wheel, can: set<nat>, heirs: map<nat, nat>, decayed: seq<nat>, w': Wheel,
                                       x: nat)
    requires Sound(w) && NewHeirs(w, heirs) && SweptTo(w, can, heirs, decayed, w') && Count(w, x) == 1
    ensures Count(w', x) <= 1 && (Count(w', x) == 1 ==> x in w'.duration && w'.duration[x] >= 1)
    ensures x in decayed ==> Count(w', x) == 0
  {
    SweptCount(w, can, heirs, decayed, w', x);
    TurnTimes(w, can, heirs, decayed, w', x);
    MemberIsNoHeir(w, heirs, decayed, x);
    SweptParts(w, can, heirs, decayed, w');
    if x in w.lists[w'.last] && x in can { DecaysWhenDue(w.duration[x]); }
  }

  /** What is on the wheel after a sweep was there before and was not let go, or came of what decayed. */
  lemma {:induction false} SweptFrom(w: Wheel, can: set<nat>, heirs: map<nat, nat>, decayed: seq<nat>, w': Wheel,
                                     x: nat)
    requires Sound(w) && NewHeirs(w, heirs) && SweptTo(w, can, heirs, decayed, w') && Count(w', x) > 0
    ensures (forall y :: y in w.lists[w'.last] ==> y in w.duration)
    ensures x !in Fated(w.lists[w'.last], w.duration, can, Released)
    ensures Count(w, x) == 0 ==> exists y :: y in decayed && y in heirs && heirs[y] == x
  {
    assert Count(w, x) <= 1;
    SweptCount(w, can, heirs, decayed, w', x);
    TurnTimes(w, can, heirs, decayed, w', x);
    FatedIn(w.lists[w'.last], w.duration, can, Released, x);
    HeirsOnce(decayed, heirs, x);
    TimesIn(Heirs(decayed, heirs), x);
    if Count(w, x) == 0 { OffWheel(w, x, w'.last); } else { MemberIsNoHeir(w, heirs, decayed, x); }
  }

  lemma {:induction false} SweptMarked(w: Wheel, can: set<nat>, heirs: map<nat, nat>, decayed: seq<nat>, w': Wheel,
                                       marked: set<nat>, now: set<nat>)
    requires Sound(w) && NewHeirs(w, heirs) && SweptTo(w, can, heirs, decayed, w') && AllMarked(w, marked)
    requires (forall y :: y in w.lists[w'.last] ==> y in w.duration)
    requires MarksKept(marked, Fated(w.lists[w'.last], w.duration, can, Released), decayed, heirs, now)
    ensures AllMarked(w', now)
  {
    forall x | Count(w', x) > 0 ensures x in now { SweptFrom(w, can, heirs, decayed, w', x); }
  }

  lemma {:induction false} StartedMarked(w: Wheel, w': Wheel, item: nat, marked: set<nat>)
    requires AllMarked(w, marked) && w' == w.(waiting := [item] + w.waiting)
    ensures AllMarked(w', marked + {item})
  {
    forall x | Count(w', x) > 0 ensures x in marked + {item} {
      TimesAppend([item], w.waiting, x);
      assert [item][..0] == [];
    }
  }

  lemma {:induction false} SweptSound(w: Wheel, can: set<nat>, heirs: map<nat, nat>, decayed: seq<nat>, w': Wheel)
    requires Sound(w) && NewHeirs(w, heirs) && SweptTo(w, can, heirs, decayed, w')
    ensures Sound(w')
  {
    forall x ensures Count(w', x) <= 1 && (Count(w', x) == 1 ==> x in w'.duration && w'.duration[x] >= 1) {
      assert Count(w, x) <= 1;
      if Count(w, x) == 0 { NewcomerSound(w, can, heirs, decayed, w', x); }
      else { MemberSound(w, can, heirs, decayed, w', x); }
    }
  }

  /** Where an item of the list whose turn it is goes. */
  lemma {:induction false} TurnMembers(w: Wheel, can: set<nat>, heirs: map<nat, nat>, decayed: seq<nat>, w': Wheel,
                                       x: nat, next: nat)
    requires SweptTo(w, can, heirs, decayed, w') && x in w.lists[w'.last] && x in can && next == (w'.last + 1) % BUCKETS
    ensures x in w.duration && x in w'.duration && w'.duration[x] == Left(w.duration[x])
    ensures var fate := FateOf(w.duration[x], true);
            && (x in decayed <==> fate == Decays)
            && (fate == Moves ==> x in w'.lists[next]) && (fate == Stays ==> x in w'.lists[w'.last])
  {
    SweptParts(w, can, heirs, decayed, w');
    FatedIn(w.lists[w'.last], w.duration, can, Decays, x);
    FatedIn(w.lists[w'.last], w.duration, can, Moves, x);
    FatedIn(w.lists[w'.last], w.duration, can, Stays, x);
  }

  /** Nothing happens to an item of another list. */
  lemma {:induction false} OtherMembers(w: Wheel, can: set<nat>, heirs: map<nat, nat>, decayed: seq<nat>, w': Wheel,
                                        x: nat, c: nat)
    requires SweptTo(w, can, heirs, decayed, w') && c < BUCKETS && c != w'.last && x in w.lists[c]
    requires x !in w.lists[w'.last]
    ensures x !in decayed && x in w'.lists[c]
    ensures (x in w.duration ==> x in w'.duration && w'.duration[x] == w.duration[x])
  {
    SweptParts(w, can, heirs, decayed, w');
    FatedIn(w.lists[w'.last], w.duration, can, Decays, x);
  }

  lemma {:induction false} DueFrom(w: Wheel, x: nat, c: nat, due: int)
    requires Whole(w) && c < BUCKETS && DueAt(w, x, c, due)
    ensures Due(w, x, due)
  {
  }

  /** The list whose turn it is. */
  lemma {:induction false} TurnDue(w: Wheel, can: set<nat>, heirs: map<nat, nat>, decayed: seq<nat>, w': Wheel, x: nat,
                                   due: int)
    requires SweptTo(w, can, heirs, decayed, w') && DueAt(w, x, w'.last, due) && x in can
    ensures if due == 1 then x in decayed else x !in decayed && Due(w', x, due - 1)
  {
    var d, next := w.duration[x], (w'.last + 1) % BUCKETS;
    TurnMembers(w, can, heirs, decayed, w', x, next);
    VisitKeepsDue(w'.last, d);
    if FateOf(d, true) == Moves { DueFrom(w', x, next, due - 1); }
    if FateOf(d, true) == Stays { DueFrom(w', x, w'.last, due - 1); }
  }

  lemma {:induction false} InOneList(w: Wheel, x: nat, b: nat, c: nat)
    requires Sound(w) && b < BUCKETS && c < BUCKETS && b != c && x in w.lists[c]
    ensures x !in w.lists[b]
  {
    TimesIn(w.lists[b], x);
    TimesIn(w.lists[c], x);
    TwoOnWheel(w, b, c, x);
    assert Count(w, x) <= 1;
  }

  /** The lists whose turn it is not. */
  lemma {:induction false} OthersDue(w: Wheel, can: set<nat>, heirs: map<nat, nat>, decayed: seq<nat>, w': Wheel,
                                     x: nat, c: nat, due: int)
    requires Sound(w) && SweptTo(w, can, heirs, decayed, w') && c < BUCKETS && c != w'.last && DueAt(w, x, c, due)
    ensures due != 1 && x !in decayed && Due(w', x, due - 1)
  {
    InOneList(w, x, w'.last, c);
    OtherMembers(w, can, heirs, decayed, w', x, c);
    WaitOneLess(w.last, c);
    DueFrom(w', x, c, due - 1);
  }

  lemma {:induction false} DecayedGone(w: Wheel, can: set<nat>, heirs: map<nat, nat>, decayed: seq<nat>, w': Wheel,
                                       x: nat, c: nat)
    requires Sound(w) && NewHeirs(w, heirs) && SweptTo(w, can, heirs, decayed, w') && c < BUCKETS && x in w.lists[c]
    ensures x in decayed ==> Count(w', x) == 0
  {
    InListOnce(w, c, x);
    MemberSound(w, can, heirs, decayed, w', x);
  }

  /** A tick decays a decayable item exactly when it is due, and brings every other one a tick nearer. */
  lemma {:induction false} SweptDue(w: Wheel, can: set<nat>, heirs: map<nat, nat>, decayed: seq<nat>, w': Wheel, x: nat,
                                    due: int)
    requires Sound(w) && NewHeirs(w, heirs) && SweptTo(w, can, heirs, decayed, w') && Due(w, x, due) && x in can
    ensures if due == 1 then x in decayed && Count(w', x) == 0 else x !in decayed && Due(w', x, due - 1)
  {
    var c :| 0 <= c < BUCKETS && DueAt(w, x, c, due);
    DecayedGone(w, can, heirs, decayed, w', x, c);
    if c == w'.last {
      TurnDue(w, can, heirs, decayed, w', x, due);
    } else {
      OthersDue(w, can, heirs, decayed, w', x, c, due);
    }
  }

  /** Items still to be placed have been put into the lists their durations say. */
  ghost predicate CleanedTo(w: Wheel, w': Wheel) {
    && Whole(w) && Whole(w') && w'.last == w.last && w'.duration == w.duration && w'.waiting == []
    && (forall x :: Count(w', x) == Count(w, x))
    && (forall c, x :: 0 <= c < BUCKETS && x in w.lists[c] ==> x in w'.lists[c])
    && forall x :: x in w.waiting ==> x in w.duration && x in w'.lists[Placed(w.last, w.duration[x])]
  }

  lemma {:induction false} CleanedDue(w: Wheel, w': Wheel, x: nat, due: int)
    requires CleanedTo(w, w') && Due(w, x, due)
    ensures Due(w', x, due)
  {
    var c :| 0 <= c < BUCKETS && DueAt(w, x, c, due);
    assert DueAt(w', x, c, due);
  }

  lemma {:induction false} CleanedSound(w: Wheel, w': Wheel)
    requires Sound(w) && CleanedTo(w, w')
    ensures Sound(w')
  {
    forall x ensures Count(w', x) <= 1 && (Count(w', x) == 1 ==> x in w'.duration && w'.duration[x] >= 1) {
      assert Count(w, x) <= 1 && Count(w', x) == Count(w, x);
    }
  }

  /** A placed item is due when its duration says. */
  lemma {:induction false} PlacedDue(w: Wheel, w': Wheel, x: nat)
    requires Sound(w) && CleanedTo(w, w') && x in w.waiting
    ensures Due(w', x, DueIn(w.last, Placed(w.last, w.duration[x]), w.duration[x]))
  {
    WaitingOnce(w, x);
    var c := Placed(w.last, w.duration[x]);
    assert DueAt(w', x, c, DueIn(w.last, c, w.duration[x]));
  }

  /** What a tick does to an item that was due in so many ticks. */
  ghost predicate Ticked(decayed: seq<nat>, w: Wheel, x: nat, due: int) {
    Whole(w) && if due == 1 then x in decayed && Count(w, x) == 0 else x !in decayed && Due(w, x, due - 1)
  }

  /** A tick decays once each decayable item that is due, decays nothing else, and brings every other
      decayable item one tick nearer. */
  ghost predicate RightTick(w: Wheel, can: set<nat>, decayed: seq<nat>, w': Wheel) {
    && (forall x, due :: Due(w, x, due) && x in can ==> Ticked(decayed, w', x, due))
    && NoDup(decayed) && forall x :: x in decayed ==> Due(w, x, 1) && x in can
  }

  lemma {:induction false} TickIsRight(w: Wheel, can: set<nat>, heirs: map<nat, nat>, decayed: seq<nat>, swept: Wheel,
                                       w': Wheel)
    requires Sound(w) && NewHeirs(w, heirs) && SweptTo(w, can, heirs, decayed, swept) && CleanedTo(swept, w')
    ensures Sound(w') && RightTick(w, can, decayed, w')
  {
    SweptSound(w, can, heirs, decayed, swept);
    CleanedSound(swept, w');
    forall x, due | Due(w, x, due) && x in can ensures Ticked(decayed, w', x, due) {
      SweptDue(w, can, heirs, decayed, swept, x, due);
      if due != 1 { CleanedDue(swept, w', x, due - 1); }
    }
    ListOnce(w, swept.last);
    SweptParts(w, can, heirs, decayed, swept);
    FatedOnce(w.lists[swept.last], w.duration, can, Decays);
    forall x | x in decayed ensures Due(w, x, 1) && x in can {
      DecayedWasDue(w, can, heirs, decayed, swept, x);
    }
  }

  lemma {:induction false} DecayedMember(w: Wheel, can: set<nat>, heirs: map<nat, nat>, decayed: seq<nat>, w': Wheel,
                                         x: nat)
    requires SweptTo(w, can, heirs, decayed, w') && x in decayed
    ensures x in w.lists[w'.last] && x in w.duration && FateOf(w.duration[x], x in can) == Decays
  {
    SweptParts(w, can, heirs, decayed, w');
    FatedIn(w.lists[w'.last], w.duration, can, Decays, x);
  }

  lemma {:induction false} DecayedWasDue(w: Wheel, can: set<nat>, heirs: map<nat, nat>, decayed: seq<nat>, w': Wheel,
                                         x: nat)
    requires Sound(w) && SweptTo(w, can, heirs, decayed, w') && x in decayed
    ensures Due(w, x, 1) && x in can
  {
    DecayedMember(w, can, heirs, decayed, w', x);
    InListOnce(w, w'.last, x);
    DecaysWhenDue(w.duration[x]);
    DueFrom(w, x, w'.last, 1);
  }

  /** The first `i` waiting items are in lists. */
  ghost predicate PartlyClean(w: Wheel, now: Wheel, i: nat) {
    && Whole(w) && Whole(now) && i <= |w.waiting| && now.last == w.last && now.duration == w.duration
        && now.waiting == w.waiting[i..]
    && (forall x :: Count(now, x) == Count(w, x))
    && (forall c, x :: 0 <= c < BUCKETS && x in w.lists[c] ==> x in now.lists[c])
    && forall j :: 0 <= j < i ==>
          w.waiting[j] in w.duration && w.waiting[j] in now.lists[Placed(w.last, w.duration[w.waiting[j]])]
  }

  lemma {:induction false} WaitingKnown(w: Wheel, i: nat)
    requires Sound(w) && i < |w.waiting|
    ensures w.waiting[i] in w.duration && w.duration[w.waiting[i]] >= 1
  {
    WaitingOnce(w, w.waiting[i]);
  }

  lemma {:induction false} PlacedOne(w: Wheel, now: Wheel, now': Wheel, i: nat, bucket: nat, item: nat)
    requires PartlyClean(w, now, i) && i < |w.waiting| && item == w.waiting[i] && item in w.duration
    requires bucket == Placed(w.last, w.duration[item]) && bucket < BUCKETS
    requires now' == now.(lists := now.lists[bucket := now.lists[bucket] + [item]], waiting := w.waiting[i + 1..])
    ensures PartlyClean(w, now', i + 1)
  {
    assert now.waiting == [item] + now'.waiting;
    assert bucket == 0 || bucket == 1 || bucket == 2 || bucket == 3;
    forall x ensures Count(now', x) == Count(w, x) {
      assert Count(now, x) == Count(w, x);
      TimesAppend([item], now'.waiting, x);
      TimesAppend(now.lists[bucket], [item], x);
    }
  }

  lemma {:induction false} Cleaned(w: Wheel, w': Wheel, i: nat)
    requires i == |w.waiting| && PartlyClean(w, w'.(waiting := w.waiting[i..]), i) && w'.waiting == []
    ensures CleanedTo(w, w')
  {
    var now := w'.(waiting := w.waiting[i..]);
    assert now == w';
  }

  lemma {:induction false} StartedSound(w: Wheel, w': Wheel, item: nat)
    requires Sound(w) && Count(w, item) == 0 && item in w.duration && w.duration[item] > 0
    requires w' == w.(waiting := [item] + w.waiting)
    ensures Sound(w')
  {
    forall x ensures Count(w', x) <= 1 && (Count(w', x) == 1 ==> x in w'.duration && w'.duration[x] >= 1) {
      assert Count(w, x) <= 1;
      TimesAppend([item], w.waiting, x);
      assert [item][..0] == [];
    }
  }

  // ------------------------------------------------------------ whole runs

  /** Something that happens: a tick, the placing of what waits, an item that comes to wait, or a change
      to items that are not on the wheel. */
  datatype Happening = Tick(can: set<nat>, heirs: map<nat, nat>, decayed: seq<nat>) | Place | Start(item: nat) | Outside

  /** A list has its turn, then what waits is placed. */
  ghost predicate TickTo(w: Wheel, can: set<nat>, heirs: map<nat, nat>, decayed: seq<nat>, w': Wheel) {
    exists swept :: SweptTo(w, can, heirs, decayed, swept) && CleanedTo(swept, w')
  }

  /** An item that is not on the wheel and has time left comes to wait. */
  ghost predicate StartTo(w: Wheel, item: nat, w': Wheel) {
    && Whole(w) && Count(w, item) == 0 && item in w.duration && w.duration[item] > 0
    && w' == w.(waiting := [item] + w.waiting)
  }

  /** Durations may change, but not of what is on the wheel. */
  ghost predicate OutsideTo(w: Wheel, w': Wheel) {
    && Whole(w) && w' == w.(duration := w'.duration)
    && forall x :: x in w.duration && Count(w, x) > 0 ==> x in w'.duration && w'.duration[x] == w.duration[x]
  }

  ghost predicate Happened(w: Wheel, h: Happening, w': Wheel) {
    match h
    case Tick(can, heirs, decayed) => Whole(w) && NewHeirs(w, heirs) && TickTo(w, can, heirs, decayed, w')
    case Place => CleanedTo(w, w')
    case Start(item) => StartTo(w, item, w')
    case Outside => OutsideTo(w, w')
  }

  ghost predicate IsRun(ws: seq<Wheel>, hs: seq<Happening>) {
    |ws| == |hs| + 1 && Sound(ws[0]) && forall i :: 0 <= i < |hs| ==> HappenedAt(ws, hs, i)
  }

  ghost predicate HappenedAt(ws: seq<Wheel>, hs: seq<Happening>, i: nat)
    requires i < |hs| && |ws| == |hs| + 1
  {
    Happened(ws[i], hs[i], ws[i + 1])
  }

  function Ticks(hs: seq<Happening>): nat {
    if hs == [] then 0 else Ticks(hs[..|hs| - 1]) + (if hs[|hs| - 1].Tick? then 1 else 0)
  }

  ghost predicate StaysDecayable(hs: seq<Happening>, x: nat) {
    forall i :: 0 <= i < |hs| && hs[i].Tick? ==> x in hs[i].can
  }

  lemma {:induction false} HappenedSound(w: Wheel, h: Happening, w': Wheel)
    requires Sound(w) && Happened(w, h, w')
    ensures Sound(w')
    ensures h.Tick? ==> RightTick(w, h.can, h.decayed, w')
  {
    match h {
      case Tick(can, heirs, decayed) =>
        var swept :| SweptTo(w, can, heirs, decayed, swept) && CleanedTo(swept, w');
        TickIsRight(w, can, heirs, decayed, swept, w');
      case Place => CleanedSound(w, w');
      case Start(item) => StartedSound(w, w', item);
      case Outside =>
        forall x ensures Count(w', x) <= 1 && (Count(w', x) == 1 ==> x in w'.duration && w'.duration[x] >= 1) {
          assert Count(w', x) == Count(w, x) <= 1;
        }
    }
  }

  /** Over any run every item is on the wheel at most once. */
  lemma {:induction false} RunSound(ws: seq<Wheel>, hs: seq<Happening>, i: nat)
    requires IsRun(ws, hs) && i <= |hs|
    ensures Sound(ws[i])
  {
    if i > 0 {
      RunSound(ws, hs, i - 1);
      assert HappenedAt(ws, hs, i - 1);
      HappenedSound(ws[i - 1], hs[i - 1], ws[i]);
    }
  }

  /** The item is in exactly one list, once, and does not wait. */
  ghost predicate InJustOneList(w: Wheel, x: nat) {
    Whole(w) && Count(w, x) == 1 && exists c :: 0 <= c < BUCKETS && JustIn(w, x, c)
  }

  ghost predicate JustIn(w: Wheel, x: nat, c: nat)
    requires Whole(w) && c < BUCKETS
  {
    x in w.lists[c] && x !in w.waiting && forall b :: 0 <= b < BUCKETS && b != c ==> x !in w.lists[b]
  }

  lemma {:induction false} DueInOneList(w: Wheel, x: nat, due: int)
    requires Sound(w) && Due(w, x, due)
    ensures InJustOneList(w, x)
  {
    var c :| 0 <= c < BUCKETS && DueAt(w, x, c, due);
    InListOnce(w, c, x);
    TimesIn(w.lists[c], x);
    TimesIn(w.waiting, x);
    TimesOnWheel(w, c, x);
    forall b | 0 <= b < BUCKETS && b != c ensures x !in w.lists[b] { InOneList(w, x, b, c); }
    assert JustIn(w, x, c);
  }

  lemma {:induction false} StillDue(w: Wheel, h: Happening, w': Wheel, x: nat, due: int)
    requires Sound(w) && Happened(w, h, w') && !h.Tick? && Due(w, x, due)
    ensures Due(w', x, due)
  {
    var c :| 0 <= c < BUCKETS && DueAt(w, x, c, due);
    match h {
      case Tick(can, heirs, decayed) =>
      case Place => CleanedDue(w, w', x, due);
      case Start(item) => DueFrom(w', x, c, due);
      case Outside =>
        InListOnce(w, c, x);
        DueFrom(w', x, c, due);
    }
  }

  lemma {:induction false} TickAt(w: Wheel, can: set<nat>, decayed: seq<nat>, w': Wheel, x: nat, due: int)
    requires RightTick(w, can, decayed, w') && Due(w, x, due) && x in can
    ensures Ticked(decayed, w', x, due)
  {
  }

  /** A happening that does not make the item decay leaves it due, a tick nearer after a tick. */
  lemma {:induction false} DueStep(w: Wheel, h: Happening, w': Wheel, x: nat, due: int, left: int)
    requires Sound(w) && Happened(w, h, w') && Due(w, x, due) && (h.Tick? ==> x in h.can)
    requires left == due - (if h.Tick? then 1 else 0) && left > 0
    ensures Due(w', x, left) && (h.Tick? ==> x !in h.decayed)
  {
    if h.Tick? {
      TickStep(w, h, w', x, due);
    } else {
      StillDue(w, h, w', x, due);
    }
  }

  lemma {:induction false} TickStep(w: Wheel, h: Happening, w': Wheel, x: nat, due: int)
    requires Sound(w) && Happened(w, h, w') && h.Tick? && Due(w, x, due) && x in h.can && due != 1
    ensures Due(w', x, due - 1) && x !in h.decayed
  {
    HappenedSound(w, h, w');
    TickAt(w, h.can, h.decayed, w', x, due);
  }

  lemma {:induction false} TicksSnoc(hs: seq<Happening>, i: nat)
    requires i < |hs|
    ensures Ticks(hs[..i + 1]) == Ticks(hs[..i]) + (if hs[i].Tick? then 1 else 0)
  {
    assert hs[..i + 1][..i] == hs[..i];
  }

  /** Until it is due, an item stays due and decays at no tick. */
  lemma {:induction false} NotBeforeDue(ws: seq<Wheel>, hs: seq<Happening>, x: nat, due: int, i: nat)
    requires IsRun(ws, hs) && StaysDecayable(hs, x) && Due(ws[0], x, due) && i <= |hs| && Ticks(hs[..i]) < due
    ensures Due(ws[i], x, due - Ticks(hs[..i]))
    ensures forall j :: 0 <= j < i && hs[j].Tick? ==> x !in hs[j].decayed
  {
    if i > 0 {
      var h := hs[i - 1];
      TicksSnoc(hs, i - 1);
      NotBeforeDue(ws, hs, x, due, i - 1);
      RunSound(ws, hs, i - 1);
      assert HappenedAt(ws, hs, i - 1);
      DueStep(ws[i - 1], h, ws[i], x, due - Ticks(hs[..i - 1]), due - Ticks(hs[..i]));
    }
  }

  /** It decays at the tick at which it is due, and is then on the wheel no more. */
  lemma {:induction false} DecaysWhenDueInRun(ws: seq<Wheel>, hs: seq<Happening>, x: nat, due: int, i: nat)
    requires IsRun(ws, hs) && StaysDecayable(hs, x) && Due(ws[0], x, due) && i < |hs| && hs[i].Tick?
    requires Ticks(hs[..i]) < due
    ensures x in hs[i].decayed <==> Ticks(hs[..i + 1]) == due
    ensures x in hs[i].decayed ==> Whole(ws[i + 1]) && Count(ws[i + 1], x) == 0
  {
    NotBeforeDue(ws, hs, x, due, i);
    RunSound(ws, hs, i);
    assert HappenedAt(ws, hs, i);
    HappenedSound(ws[i], hs[i], ws[i + 1]);
    assert hs[..i + 1][..i] == hs[..i];
    assert Ticked(hs[i].decayed, ws[i + 1], x, due - Ticks(hs[..i]));
  }

  /** Every number of ticks up to that of the run was reached with some tick. */
  lemma {:induction false} TickReached(hs: seq<Happening>, n: nat) returns (i: nat)
    requires 0 < n <= Ticks(hs)
    ensures i < |hs| && hs[i].Tick? && Ticks(hs[..i + 1]) == n && Ticks(hs[..i]) == n - 1
  {
    var m := |hs| - 1;
    if hs[m].Tick? && Ticks(hs) == n {
      i := m;
      assert hs[..m + 1] == hs;
    } else {
      i := TickReached(hs[..m], n);
      assert hs[..m][..i + 1] == hs[..i + 1] && hs[..m][..i] == hs[..i];
    }
  }

  /** The item comes onto the wheel: its own decay is started, or another item turns into it. */
  ghost predicate Enters(h: Happening, x: nat) {
    h == Start(x) || (h.Tick? && exists y :: y in h.decayed && y in h.heirs && h.heirs[y] == x)
  }

  lemma {:induction false} StaysOff(w: Wheel, h: Happening, w': Wheel, x: nat)
    requires Sound(w) && Happened(w, h, w') && Count(w, x) == 0 && !Enters(h, x)
    ensures Whole(w') && Count(w', x) == 0 && (h.Tick? ==> x !in h.decayed)
  {
    match h {
      case Tick(can, heirs, decayed) =>
        var swept :| SweptTo(w, can, heirs, decayed, swept) && CleanedTo(swept, w');
        SweptCount(w, can, heirs, decayed, swept, x);
        TimesIn(Heirs(decayed, heirs), x);
        ListOnce(w, swept.last);
        SweptParts(w, can, heirs, decayed, swept);
        FatedOnce(w.lists[swept.last], w.duration, can, Decays);
        HeirsOnce(decayed, heirs, x);
        if x in decayed { DecayedMember(w, can, heirs, decayed, swept, x); OffWheel(w, x, swept.last); }
      case Place =>
      case Start(item) =>
        TimesAppend([item], w.waiting, x);
        assert [item][..0] == [];
      case Outside =>
    }
  }

  /** An item that is off the wheel decays at no tick before it comes onto the wheel again. */
  lemma {:induction false} NoDecayUnlessEntered(ws: seq<Wheel>, hs: seq<Happening>, x: nat, i: nat, j: nat)
    requires IsRun(ws, hs) && i <= j <= |hs| && Whole(ws[i]) && Count(ws[i], x) == 0
    requires forall k :: i <= k < j ==> !Enters(hs[k], x)
    ensures Whole(ws[j]) && Count(ws[j], x) == 0
    ensures forall k :: i <= k < j && hs[k].Tick? ==> x !in hs[k].decayed
    decreases j
  {
    if i < j {
      NoDecayUnlessEntered(ws, hs, x, i, j - 1);
      RunSound(ws, hs, j - 1);
      assert HappenedAt(ws, hs, j - 1);
      StaysOff(ws[j - 1], hs[j - 1], ws[j], x);
    }
  }

  /** An item that is placed with `d` milliseconds left, and that stays decayable, decays in every run
      with so many ticks, whatever else starts, decays or is placed.  It does so at one tick `i`, after
      more than `d - 875` and at most `d` milliseconds (or one tick, if `d` is less than that).  Until
      then it is in exactly one list; afterwards it decays at no tick before it is started anew. */
  lemma {:induction false} DecaysOnTime(w: Wheel, ws: seq<Wheel>, hs: seq<Happening>, x: nat) returns (i: nat)
    requires Sound(w) && x in w.waiting && x in w.duration && IsRun(ws, hs) && StaysDecayable(hs, x)
    requires CleanedTo(w, ws[0])
    requires Ticks(hs) >= DueIn(w.last, Placed(w.last, w.duration[x]), w.duration[x])
    ensures i < |hs| && hs[i].Tick? && x in hs[i].decayed
    ensures var elapsed, d := INTERVAL * Ticks(hs[..i + 1]), w.duration[x];
            d - 875 < elapsed <= (if d < INTERVAL then INTERVAL else d)
    ensures forall j :: 0 <= j < i && hs[j].Tick? ==> x !in hs[j].decayed
    ensures forall k :: 0 <= k <= i ==> InJustOneList(ws[k], x)
    ensures forall j :: i < j < |hs| && hs[j].Tick? && x in hs[j].decayed ==> exists k :: i < k < j && Enters(hs[k], x)
  {
    WaitingOnce(w, x);
    var due := DueIn(w.last, Placed(w.last, w.duration[x]), w.duration[x]);
    PlacedDue(w, ws[0], x);
    Deadline(w.last, w.duration[x]);
    i := TickReached(hs, due);
    NotBeforeDue(ws, hs, x, due, i);
    DecaysWhenDueInRun(ws, hs, x, due, i);
    forall k | 0 <= k <= i ensures InJustOneList(ws[k], x) {
      TicksGrow(hs, k, i);
      NotBeforeDue(ws, hs, x, due, k);
      RunSound(ws, hs, k);
      DueInOneList(ws[k], x, due - Ticks(hs[..k]));
    }
    forall j | i < j < |hs| && hs[j].Tick? && x in hs[j].decayed ensures exists k :: i < k < j && Enters(hs[k], x) {
      DecaysAfterEntering(ws, hs, x, i, j);
    }
  }

  lemma {:induction false} TicksGrow(hs: seq<Happening>, k: nat, i: nat)
    requires k <= i <= |hs|
    ensures Ticks(hs[..k]) <= Ticks(hs[..i])
    decreases i
  {
    if k < i {
      assert hs[..i][..i - 1] == hs[..i - 1];
      TicksGrow(hs, k, i - 1);
    }
  }

  lemma {:induction false} DecaysAfterEntering(ws: seq<Wheel>, hs: seq<Happening>, x: nat, i: nat, j: nat)
    requires IsRun(ws, hs) && i < j < |hs| && Whole(ws[i + 1]) && Count(ws[i + 1], x) == 0 && hs[j].Tick?
    requires x in hs[j].decayed
    ensures exists k :: i < k < j && Enters(hs[k], x)
  {
    if forall k :: i < k < j ==> !Enters(hs[k], x) {
      NoDecayUnlessEntered(ws, hs, x, i + 1, j);
      RunSound(ws, hs, j);
      assert HappenedAt(ws, hs, j);
      HappenedSound(ws[j], hs[j], ws[j + 1]);
      assert Due(ws[j], x, 1);
      DueInOneList(ws[j], x, 1);
    }
  }
}
