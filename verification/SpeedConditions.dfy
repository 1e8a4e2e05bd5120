/** The conditions of a creature and what those of speed add to its speed. */
module SpeedConditions {
  import opened Wrappers

  datatype Condition = Condition(kind: nat, id: int, subId: nat, ticks: int, endTime: int, speedDelta: int)

  const HASTE := 0x10
  const PARALYZE := 0x20

  predicate IsSpeed(kind: nat) {
    kind == HASTE || kind == PARALYZE
  }

  function Contribution(c: Condition): int {
    if IsSpeed(c.kind) then c.speedDelta else 0
  }

  function Total(cs: seq<Condition>): int {
    if cs == [] then 0 else Total(cs[..|cs| - 1]) + Contribution(cs[|cs| - 1])
  }

  predicate SameKey(c: Condition, d: Condition) {
    c.kind == d.kind && c.id == d.id && c.subId == d.subId
  }

  /** No two conditions have the same type, id and sub id. */
  ghost predicate Distinct(cs: seq<Condition>) {
    forall i, j :: 0 <= i < j < |cs| ==> Apart(cs, i, j)
  }

  predicate Apart(cs: seq<Condition>, i: nat, j: nat)
    requires i < j < |cs|
  {
    !SameKey(cs[i], cs[j])
  }

  function Removed(cs: seq<Condition>, i: nat): seq<Condition>
    requires i < |cs|
  {
    cs[..i] + cs[i + 1..]
  }

  /** Of the type, and of the id if one is given. */
  predicate Matches(c: Condition, kind: nat, id: Option<int>) {
    c.kind == kind && (id.Some? ==> c.id == id.value)
  }

  /** The conditions that a removal by type, or by type and id, leaves. */
  function Kept(cs: seq<Condition>, kind: nat, id: Option<int>): seq<Condition> {
    if cs == [] then []
    else
      var n := |cs| - 1;
      Kept(cs[..n], kind, id) + (if Matches(cs[n], kind, id) then [] else [cs[n]])
  }

  lemma {:induction false} TotalAppend(cs: seq<Condition>, ds: seq<Condition>)
    ensures Total(cs + ds) == Total(cs) + Total(ds)
    decreases |ds|
  {
    if ds == [] {
      assert cs + ds == cs;
    } else {
      var n := |ds| - 1;
      assert (cs + ds)[..|cs| + n] == cs + ds[..n];
      TotalAppend(cs, ds[..n]);
    }
  }

  lemma {:induction false} TotalOne(c: Condition)
    ensures Total([c]) == Contribution(c)
  {
    assert [c][..0] == [];
  }

  lemma {:induction false} TotalRemoved(cs: seq<Condition>, i: nat)
    requires i < |cs|
    ensures Total(cs) == Total(Removed(cs, i)) + Contribution(cs[i])
  {
    assert cs == cs[..i] + ([cs[i]] + cs[i + 1..]);
    TotalAppend(cs[..i], [cs[i]] + cs[i + 1..]);
    TotalAppend([cs[i]], cs[i + 1..]);
    TotalAppend(cs[..i], cs[i + 1..]);
    TotalOne(cs[i]);
  }

  lemma {:induction false} TotalReplaced(cs: seq<Condition>, i: nat, c: Condition)
    requires i < |cs|
    ensures Total(cs[i := c]) == Total(cs) - Contribution(cs[i]) + Contribution(c)
  {
    TotalRemoved(cs, i);
    TotalRemoved(cs[i := c], i);
    assert Removed(cs[i := c], i) == Removed(cs, i);
  }

  /** Without conditions of speed nothing is added. */
  lemma {:induction false} NoneLeft(cs: seq<Condition>)
    requires forall i :: 0 <= i < |cs| ==> !IsSpeed(cs[i].kind)
    ensures Total(cs) == 0
  {
    if cs != [] { NoneLeft(cs[..|cs| - 1]); }
  }

  lemma {:induction false} RemovedDistinct(cs: seq<Condition>, i: nat)
    requires Distinct(cs) && i < |cs|
    ensures Distinct(Removed(cs, i))
  {
    var r := Removed(cs, i);
    forall j, k | 0 <= j < k < |r| ensures Apart(r, j, k) {
      var j', k' := if j < i then j else j + 1, if k < i then k else k + 1;
      assert r[j] == cs[j'] && r[k] == cs[k'] && Apart(cs, j', k');
    }
  }

  lemma {:induction false} PrefixDistinct(cs: seq<Condition>, n: nat)
    requires Distinct(cs) && n <= |cs|
    ensures Distinct(cs[..n])
  {
    var r := cs[..n];
    forall i, j | 0 <= i < j < n ensures Apart(r, i, j) { assert Apart(cs, i, j); }
  }

  /** One condition has the key, no other. */
  lemma {:induction false} OnlyOne(cs: seq<Condition>, i: nat, c: Condition)
    requires Distinct(cs) && i < |cs| && SameKey(cs[i], c)
    ensures forall j :: 0 <= j < |cs| && SameKey(cs[j], c) ==> j == i
  {
    forall j | 0 <= j < |cs| && SameKey(cs[j], c) ensures j == i {
      assert j < i ==> Apart(cs, j, i);
      assert i < j ==> Apart(cs, i, j);
    }
  }

  lemma {:induction false} KeptFacts(cs: seq<Condition>, kind: nat, id: Option<int>)
    requires Distinct(cs)
    ensures Distinct(Kept(cs, kind, id))
    ensures forall c :: c in Kept(cs, kind, id) <==> c in cs && !Matches(c, kind, id)
  {
    if cs != [] {
      var n := |cs| - 1;
      PrefixDistinct(cs, n);
      KeptFacts(cs[..n], kind, id);
      var k := Kept(cs[..n], kind, id);
      forall i | 0 <= i < |k| ensures !SameKey(k[i], cs[n]) {
        assert k[i] in k && k[i] in cs[..n];
        var j :| 0 <= j < n && cs[..n][j] == k[i];
        assert Apart(cs, j, n);
      }
      if Matches(cs[n], kind, id) { assert k + [] == k; } else { AppendedDistinct(k, cs[n]); }
      assert cs == cs[..n] + [cs[n]];
    }
  }

  predicate Active(c: Condition, kind: nat, now: int) {
    c.kind == kind && c.subId == 0 && (c.endTime >= now || c.ticks == -1)
  }

  /** A condition of the kind is active. */
  predicate Under(cs: seq<Condition>, kind: nat, now: int) {
    exists i :: 0 <= i < |cs| && Active(cs[i], kind, now)
  }

  /** The conditions without those that a new one of the kind drives away. */
  function Undriven(cs: seq<Condition>, kind: nat, suppressed: set<nat>, walkDelay: int, now: int): seq<Condition> {
    if kind == PARALYZE && HASTE !in suppressed && Under(cs, HASTE, now) then Kept(cs, HASTE, None)
    else if kind == HASTE && PARALYZE !in suppressed && Under(cs, PARALYZE, now)
            && walkDelay <= 0 then Kept(cs, PARALYZE, None)
    else cs
  }

  /** A new paralysis leaves no haste active, and a new haste no paralysis, if the creature feels it and
      may walk; nothing else is driven away. */
  lemma {:induction false} NeverBoth(cs: seq<Condition>, kind: nat, suppressed: set<nat>, walkDelay: int, now: int)
    requires Distinct(cs)
    ensures var cs' := Undriven(cs, kind, suppressed, walkDelay, now);
            && (kind == PARALYZE && HASTE !in suppressed ==> !Under(cs', HASTE, now))
            && (kind == HASTE && PARALYZE !in suppressed && walkDelay <= 0 ==> !Under(cs', PARALYZE, now))
            && (forall c :: c in cs' ==> c in cs)
            && (forall c :: c in cs && c.kind == kind ==> c in cs')
            && forall c :: c in cs && c.kind != HASTE && c.kind != PARALYZE ==> c in cs'
  {
    KeptFacts(cs, HASTE, None);
    KeptFacts(cs, PARALYZE, None);
    NotUnder(cs, HASTE, now);
    NotUnder(cs, PARALYZE, now);
  }

  lemma {:induction false} NotUnder(cs: seq<Condition>, kind: nat, now: int)
    requires Distinct(cs)
    ensures !Under(Kept(cs, kind, None), kind, now)
  {
    KeptFacts(cs, kind, None);
    var kept := Kept(cs, kind, None);
    forall i | 0 <= i < |kept| ensures !Active(kept[i], kind, now) { assert kept[i] in kept; }
  }

  // ------------------------------------------------- single conditions

  /** A condition of speed that is added again: the new one's time and speed replace the old, unless
      the old one lasts for ever and the new one does not. */
  function RefreshedSpeed(p: Condition, c: Condition, roll: int, now: int): Condition {
    if p.kind != c.kind || (p.ticks == -1 && c.ticks > 0) then p
    else p.(ticks := c.ticks, endTime := c.ticks + now, speedDelta := if c.speedDelta == 0 then roll else c.speedDelta)
  }

  /** Any other condition that is added again lasts as long as the new one, unless it lasts longer. */
  function RefreshedOther(p: Condition, c: Condition, now: int): Condition {
    if p.kind != c.kind || (p.ticks == -1 && c.ticks > 0) || (c.ticks >= 0 && p.endTime > now + c.ticks) then p
    else p.(ticks := c.ticks, endTime := c.ticks + now)
  }

  function Refreshed(p: Condition, c: Condition, roll: int, now: int): Condition {
    if IsSpeed(p.kind) then RefreshedSpeed(p, c, roll, now) else RefreshedOther(p, c, now)
  }

  /** A condition that starts. */
  function Started(c: Condition, roll: int, now: int): Condition {
    var timed := if c.ticks > 0 then c.(endTime := c.ticks + now) else c;
    if IsSpeed(c.kind) && c.speedDelta == 0 then timed.(speedDelta := roll) else timed
  }

  /** A condition after some time; nothing when it is over. */
  function Executed(c: Condition, interval: int, now: int): seq<Condition> {
    if c.ticks == -1 then [c]
    else if c.endTime < now then []
    else [c.(ticks := if c.ticks - interval < 0 then 0 else c.ticks - interval)]
  }

  /** A condition that starts with so much time is there until the time is over, and no longer; one
      without end stays for ever. */
  lemma {:induction false} EndsOnTime(c: Condition, roll: int, start: int, interval: int, now: int)
    ensures c.ticks > 0 ==> (Executed(Started(c, roll, start), interval, now) == [] <==> start + c.ticks < now)
    ensures c.ticks == -1 ==> Executed(Started(c, roll, start), interval, now) == [Started(c, roll, start)]
    ensures forall d :: d in Executed(c, interval, now) ==>
              d.endTime == c.endTime && d.kind == c.kind && d.speedDelta == c.speedDelta
  {
  }

  function ExecutedAll(cs: seq<Condition>, interval: int, now: int): seq<Condition> {
    if cs == [] then [] else ExecutedAll(cs[..|cs| - 1], interval, now) + Executed(cs[|cs| - 1], interval, now)
  }

  lemma {:induction false} ReplacedDistinct(cs: seq<Condition>, i: nat, c: Condition)
    requires Distinct(cs) && i < |cs| && SameKey(cs[i], c)
    ensures Distinct(cs[i := c])
  {
    var r := cs[i := c];
    forall j, k | 0 <= j < k < |cs| ensures Apart(r, j, k) { assert Apart(cs, j, k); }
  }

  lemma {:induction false} AppendedDistinct(cs: seq<Condition>, c: Condition)
    requires Distinct(cs) && forall i :: 0 <= i < |cs| ==> !SameKey(cs[i], c)
    ensures Distinct(cs + [c])
  {
    var r := cs + [c];
    forall j, k | 0 <= j < k < |r| ensures Apart(r, j, k) { assert k < |cs| ==> Apart(cs, j, k); }
  }

  /** Time passing leaves every key where it is, or nowhere. */
  lemma {:induction false} ExecutedKeys(cs: seq<Condition>, interval: int, now: int, d: Condition)
    requires forall c :: c in cs ==> !SameKey(c, d)
    ensures forall c :: c in ExecutedAll(cs, interval, now) ==> !SameKey(c, d)
  {
    if cs != [] {
      var n := |cs| - 1;
      ExecutedKeys(cs[..n], interval, now, d);
      assert forall c :: c in Executed(cs[n], interval, now) ==> SameKey(c, cs[n]);
      assert cs[n] in cs;
    }
  }

  /** The next condition to be executed is found behind those that were. */
  lemma {:induction false} ExecutedNext(cs: seq<Condition>, k: nat, interval: int, now: int, list: seq<Condition>)
    requires Distinct(cs) && Distinct(list) && k < |cs| && list == ExecutedAll(cs[..k], interval, now) + cs[k..]
    ensures var done := |ExecutedAll(cs[..k], interval, now)|;
            && done < |list| && list[done] == cs[k]
            && (forall i :: 0 <= i < |list| && SameKey(list[i], cs[k]) ==> i == done)
            && list[..done] + Executed(list[done], interval, now) + list[done + 1..]
               == ExecutedAll(cs[..k + 1], interval, now) + cs[k + 1..]
  {
    var done := ExecutedAll(cs[..k], interval, now);
    assert cs[k..] == [cs[k]] + cs[k + 1..];
    assert list[|done|] == cs[k] && list[..|done|] == done && list[|done| + 1..] == cs[k + 1..];
    assert cs[..k + 1][..k] == cs[..k];
    OnlyOne(list, |done|, cs[k]);
  }

  class Creature {
    var conditions: seq<Condition>
    var baseSpeed: int
    var varSpeed: int

    ghost predicate Valid() reads this { Distinct(conditions) }

    /** The part of the speed that is not due to conditions. */
    ghost function External(): int reads this { varSpeed - Total(conditions) }

    function GetSpeed(): int reads this { baseSpeed + varSpeed }

    constructor (base: int)
      ensures Valid() && External() == 0 && conditions == [] && baseSpeed == base
    {
      conditions, baseSpeed, varSpeed := [], base, 0;
    }

    method ChangeSpeed(varSpeedDelta: int)
      modifies this`varSpeed
      ensures varSpeed == old(varSpeed) + varSpeedDelta && GetSpeed() == old(GetSpeed()) + varSpeedDelta
    {
      var changed := GetSpeed() - baseSpeed;
      changed := changed + varSpeedDelta;
      varSpeed := changed;
    }

    /** The place of the condition with the type, id and sub id, or none. */
    method GetCondition(kind: nat, id: int, subId: nat) returns (found: bool, i: nat)
      ensures found ==>
                i < |conditions| && conditions[i].kind == kind && conditions[i].id == id && conditions[i].subId == subId
      ensures !found ==> forall j :: 0 <= j < |conditions| ==>
                !(conditions[j].kind == kind && conditions[j].id == id && conditions[j].subId == subId)
    {
      i := 0;
      while i < |conditions|
        invariant 0 <= i <= |conditions|
        invariant forall j :: 0 <= j < i ==>
                    !(conditions[j].kind == kind && conditions[j].id == id && conditions[j].subId == subId)
      {
        if conditions[i].kind == kind && conditions[i].id == id && conditions[i].subId == subId { return true, i; }
        i := i + 1;
      }
      found := false;
    }

    method HasCondition(kind: nat, suppressed: bool, now: int) returns (has: bool)
      ensures has <==> !suppressed && Under(conditions, kind, now)
    {
      if suppressed { return false; }
      var i := 0;
      while i < |conditions|
        invariant 0 <= i <= |conditions|
        invariant forall j :: 0 <= j < i ==> !Active(conditions[j], kind, now)
      {
        if Active(conditions[i], kind, now) { return true; }
        i := i + 1;
      }
      has := false;
    }

    /** A condition ends: what it added to the speed is taken back. */
    method EndCondition(i: nat)
      requires Valid() && i < |conditions|
      modifies this`conditions, this`varSpeed
      ensures Valid() && External() == old(External()) && conditions == Removed(old(conditions), i)
    {
      var condition := conditions[i];
      RemovedDistinct(conditions, i);
      TotalRemoved(conditions, i);
      conditions := conditions[..i] + conditions[i + 1..];
      if IsSpeed(condition.kind) { ChangeSpeed(-condition.speedDelta); }
    }

    /** The condition in the list is refreshed by another with the same key. */
    method Refresh(i: nat, c: Condition, roll: int, now: int)
      requires Valid() && i < |conditions| && SameKey(conditions[i], c)
      modifies this`conditions, this`varSpeed
      ensures Valid() && External() == old(External())
      ensures conditions == old(conditions)[i := Refreshed(old(conditions)[i], c, roll, now)]
      ensures varSpeed - old(varSpeed) ==
              if IsSpeed(c.kind) && (old(conditions)[i].ticks != -1 || c.ticks <= 0)
              then (if c.speedDelta == 0 then roll else c.speedDelta) - old(conditions)[i].speedDelta else 0
    {
      var p, r := conditions[i], Refreshed(conditions[i], c, roll, now);
      ReplacedDistinct(conditions, i, r);
      TotalReplaced(conditions, i, r);
      conditions := conditions[i := r];
      var newSpeedChange := r.speedDelta - p.speedDelta;
      if IsSpeed(p.kind) && newSpeedChange != 0 { ChangeSpeed(newSpeedChange); }
    }

    /** A new condition starts and joins the list. */
    method StartCondition(c: Condition, roll: int, now: int)
      requires Valid() && forall i :: 0 <= i < |conditions| ==> !SameKey(conditions[i], c)
      modifies this`conditions, this`varSpeed
      ensures Valid() && External() == old(External()) && conditions == old(conditions) + [Started(c, roll, now)]
      ensures varSpeed - old(varSpeed) ==
              if !IsSpeed(c.kind) then 0 else if c.speedDelta == 0 then roll else c.speedDelta
    {
      var started := Started(c, roll, now);
      if IsSpeed(started.kind) { ChangeSpeed(started.speedDelta); }
      AppendedDistinct(conditions, started);
      TotalAppend(conditions, [started]);
      TotalOne(started);
      conditions := conditions + [started];
    }

    /** Ends all conditions of a type, and of one of the ids given; a paralysis only when the creature
        could walk, or by force. */
    method RemoveConditions(kind: nat, id: Option<int>, force: bool, walkDelay: int)
      requires Valid()
      modifies this`conditions, this`varSpeed
      ensures Valid() && External() == old(External())
      ensures conditions == if !force && kind == PARALYZE && walkDelay > 0 then old(conditions)
                            else Kept(old(conditions), kind, id)
    {
      ghost var seen, kept, rest := [], [], conditions;
      var it := 0;
      while it < |conditions|
        invariant Valid() && External() == old(External()) && it == |kept| && kept == Kept(seen, kind, id)
        invariant seen + rest == old(conditions) && conditions == kept + rest
        invariant !force && kind == PARALYZE && walkDelay > 0 ==> conditions == old(conditions)
        decreases |rest|
      {
        var condition := conditions[it];
        ghost var seen', kept', rest' := KeptNext(seen, kept, rest, kind, id);
        if !Matches(condition, kind, id) {
          it := it + 1;
        } else if !force && kind == PARALYZE && walkDelay > 0 {
          return;
        } else {
          EndCondition(it);
        }
        seen, kept, rest := seen', kept', rest';
      }
      assert seen + [] == seen && kept + [] == kept;
    }

    /** A paralysis that is added drives away haste, and the other way round. */
    method OnAddCondition(kind: nat, suppressed: set<nat>, walkDelay: int, now: int)
      requires Valid()
      modifies this`conditions, this`varSpeed
      ensures Valid() && External() == old(External())
      ensures conditions == Undriven(old(conditions), kind, suppressed, walkDelay, now)
    {
      var other;
      if kind == PARALYZE {
        other := HasCondition(HASTE, HASTE in suppressed, now);
        if other { RemoveConditions(HASTE, None, false, walkDelay); }
      } else if kind == HASTE {
        other := HasCondition(PARALYZE, PARALYZE in suppressed, now);
        if other { RemoveConditions(PARALYZE, None, false, walkDelay); }
      }
    }

    /** Adds a condition, or refreshes the one with its key; a haste waits while the creature is
        paralysed and may not walk yet.  A new condition may refuse to start, but not one of speed. */
    method AddCondition(c: Condition, force: bool, walkDelay: int, roll: int, starts: bool, suppressed: set<nat>,
                        now: int)
      returns (added: bool)
      requires Valid() && (IsSpeed(c.kind) ==> starts)
      modifies this`conditions, this`varSpeed
      ensures Valid() && External() == old(External())
      ensures added <==>
                !(!force && c.kind == HASTE && walkDelay > 0 && PARALYZE !in suppressed
                    && Under(old(conditions), PARALYZE, now))
                && (starts || exists i :: 0 <= i < |old(conditions)| && SameKey(old(conditions)[i], c))
      ensures !added ==> conditions == old(conditions)
      ensures added ==> forall i :: 0 <= i < |old(conditions)| && SameKey(old(conditions)[i], c) ==>
                conditions == old(conditions)[i := Refreshed(old(conditions)[i], c, roll, now)]
      ensures added && (forall i :: 0 <= i < |old(conditions)| ==> !SameKey(old(conditions)[i], c)) ==>
                conditions == Undriven(old(conditions) + [Started(c, roll, now)], c.kind, suppressed, walkDelay, now)
    {
      if !force && c.kind == HASTE {
        var paralysed := HasCondition(PARALYZE, PARALYZE in suppressed, now);
        if paralysed && walkDelay > 0 { return false; }
      }
      var found, i := GetCondition(c.kind, c.id, c.subId);
      if found {
        OnlyOne(conditions, i, c);
        Refresh(i, c, roll, now);
        return true;
      }
      if !starts { return false; }
      StartCondition(c, roll, now);
      OnAddCondition(c.kind, suppressed, walkDelay, now);
      added := true;
    }

    /** Ends one condition. */
    method RemoveCondition(c: Condition, force: bool, walkDelay: int)
      requires Valid()
      modifies this`conditions, this`varSpeed
      ensures Valid() && External() == old(External())
      ensures if (!force && c.kind == PARALYZE && walkDelay > 0) || forall i :: 0 <= i < |old(conditions)| ==>
                !SameKey(old(conditions)[i], c)
              then conditions == old(conditions)
              else exists i ::
                     && 0 <= i < |old(conditions)| && SameKey(old(conditions)[i], c)
                     && conditions == Removed(old(conditions), i)
    {
      var found, i := GetCondition(c.kind, c.id, c.subId);
      if !found { return; }
      if !force && c.kind == PARALYZE && walkDelay > 0 { return; }
      assert SameKey(conditions[i], c);
      EndCondition(i);
    }

    /** Lets time pass for every condition and ends those that are over. */
    method ExecuteConditions(interval: int, now: int)
      requires Valid()
      modifies this`conditions, this`varSpeed
      ensures Valid() && External() == old(External()) && conditions == ExecutedAll(old(conditions), interval, now)
    {
      var temp, k := conditions, 0;
      assert temp[0..] == temp;
      while k < |temp|
        invariant 0 <= k <= |temp| && Valid() && External() == old(External())
        invariant conditions == ExecutedAll(temp[..k], interval, now) + temp[k..]
      {
        ghost var list, at := conditions, |ExecutedAll(temp[..k], interval, now)|;
        ExecutedNext(temp, k, interval, now, list);
        var i := Find(temp[k], at);
        ExecuteOne(i, interval, now);
        assert conditions == list[..at] + Executed(list[at], interval, now) + list[at + 1..];
        k := k + 1;
      }
      assert temp[..k] == temp && temp[k..] == [];
    }

    /** The condition with the key, which is in one place only. */
    method Find(c: Condition, ghost at: nat) returns (i: nat)
      requires at < |conditions| && SameKey(conditions[at], c)
      requires forall j :: 0 <= j < |conditions| && SameKey(conditions[j], c) ==> j == at
      ensures i == at
    {
      var found;
      found, i := GetCondition(c.kind, c.id, c.subId);
    }

    method ExecuteOne(i: nat, interval: int, now: int)
      requires Valid() && i < |conditions|
      modifies this`conditions, this`varSpeed
      ensures Valid() && External() == old(External())
      ensures conditions == old(conditions)[..i]
                + Executed(old(conditions)[i], interval, now) + old(conditions)[i + 1..]
    {
      var c, cs := conditions[i], conditions;
      if c.ticks != -1 {
        var aged := c.(ticks := if c.ticks - interval < 0 then 0 else c.ticks - interval);
        ReplacedDistinct(conditions, i, aged);
        TotalReplaced(conditions, i, aged);
        conditions := conditions[i := aged];
        if aged.endTime < now {
          EndCondition(i);
        }
      }
    }

    /** Whatever happens to the conditions and to the speed from outside, in whatever order: the speed
        is what came from outside and what the conditions that are left add. */
    method Run(events: seq<Event>)
      requires Valid()
      modifies this`conditions, this`varSpeed
      ensures Valid() && varSpeed == old(External()) + FromOutside(events) + Total(conditions)
      ensures (forall i :: 0 <= i < |conditions| ==> !IsSpeed(conditions[i].kind)) ==>
                varSpeed == old(External()) + FromOutside(events)
    {
      var i := 0;
      while i < |events|
        invariant 0 <= i <= |events| && Valid() && External() == old(External()) + FromOutside(events[..i])
      {
        assert events[..i + 1][..i] == events[..i];
        match events[i] {
          case Add(c, force, walkDelay, roll, starts, suppressed, now) =>
            var added := AddCondition(c, force, walkDelay, roll, starts || IsSpeed(c.kind), suppressed, now);
          case RemoveAll(kind, id, force, walkDelay) => RemoveConditions(kind, id, force, walkDelay);
          case RemoveOne(c, force, walkDelay) => RemoveCondition(c, force, walkDelay);
          case Pass(interval, now) => ExecuteConditions(interval, now);
          case Outside(delta) => ChangeSpeed(delta);
        }
        i := i + 1;
      }
      assert events[..i] == events;
      if forall i :: 0 <= i < |conditions| ==> !IsSpeed(conditions[i].kind) { NoneLeft(conditions); }
    }
  }

  datatype Event = Add(c: Condition, force: bool, walkDelay: int, roll: int, starts: bool, suppressed: set<nat>,
      now: int)
                 | RemoveAll(kind: nat, id: Option<int>, force: bool, walkDelay: int)
                 | RemoveOne(c: Condition, force: bool, walkDelay: int)
                 | Pass(interval: int, now: int)
                 | Outside(delta: int)

  function FromOutside(events: seq<Event>): int {
    if events == [] then 0
    else FromOutside(events[..|events| - 1]) + (match events[|events| - 1] case Outside(delta) => delta case _ => 0)
  }

  /** The next condition is kept or removed. */
  lemma {:induction false} KeptNext(seen: seq<Condition>, kept: seq<Condition>, rest: seq<Condition>, kind: nat,
                                    id: Option<int>)
    returns (seen': seq<Condition>, kept': seq<Condition>, rest': seq<Condition>)
    requires kept == Kept(seen, kind, id) && rest != []
    ensures seen' + rest' == seen + rest && kept' == Kept(seen', kind, id) && |rest'| < |rest|
    ensures var list := kept + rest;
            if Matches(list[|kept|], kind, id) then |kept'| == |kept| && Removed(list, |kept|) == kept' + rest'
            else |kept'| == |kept| + 1 && list == kept' + rest'
  {
    seen', rest' := seen + [rest[0]], rest[1..];
    kept' := Kept(seen', kind, id);
    assert seen'[..|seen|] == seen;
    assert rest == [rest[0]] + rest';
  }
}
