/** Damage to a creature: what its shield of mana and its health take, who dealt it, and how the
    experience it loses is shared. */
module DamageShare {
  import opened Arithmetic
  import opened Wrappers

  function Min(a: int, b: int): int { if a < b then a else b }

  function Max(a: int, b: int): int { if a < b then b else a }

  function Abs(a: int): nat { if a < 0 then -a else a }

  // ------------------------------------------------------------ sums of maps

  ghost function SumOf(m: map<nat, nat>): nat
    decreases |m|
  {
    if m == map[] then 0
    else
      var k :| k in m;
      Smaller(m, k);
      m[k] + SumOf(m - {k})
  }

  /** The order in which a map is added up does not matter. */
  lemma {:induction false} SumPick(m: map<nat, nat>, k: nat)
    requires k in m
    ensures SumOf(m) == m[k] + SumOf(m - {k})
    decreases |m|
  {
    var j :| j in m && SumOf(m) == m[j] + SumOf(m - {j});
    if j != k {
      Smaller(m, j);
      Smaller(m, k);
      SumPick(m - {j}, k);
      SumPick(m - {k}, j);
      assert (m - {j}) - {k} == (m - {k}) - {j};
    }
  }

  lemma {:induction false} SumSet(m: map<nat, nat>, k: nat, v: nat)
    ensures SumOf(m[k := v]) == SumOf(m) - (if k in m then m[k] else 0) + v
  {
    SumPick(m[k := v], k);
    if k in m {
      SumPick(m, k);
      assert m[k := v] - {k} == m - {k};
    } else {
      assert m[k := v] - {k} == m;
    }
  }

  /** A share of what is lost, rounded down. */
  function Part(dealt: nat, lost: nat, total: nat): nat
    requires total > 0
  {
    dealt * lost / total
  }

  lemma {:induction false} PartBounded(dealt: nat, lost: nat, total: nat)
    requires total > 0
    ensures Part(dealt, lost, total) * total <= dealt * lost < (Part(dealt, lost, total) + 1) * total
  {
    var a := dealt * lost;
    assert a == total * (a / total) + a % total;
  }

  /** `x` is what is due for all of `m` out of `total`, short of less than one for each entry. */
  ghost predicate Fair(x: nat, m: map<nat, nat>, lost: nat, total: nat) {
    x * total <= SumOf(m) * lost && if m == map[] then x == 0 else SumOf(m) * lost < (x + |m|) * total
  }

  lemma {:induction false} Distributes(a: int, b: int, c: int)
    ensures (a + b) * c == a * c + b * c
  {
  }

  ghost function Parts(m: map<nat, nat>, lost: nat, total: nat): map<nat, nat>
    requires total > 0
  {
    map a | a in m :: Part(m[a], lost, total)
  }

  lemma {:induction false} Smaller(m: map<nat, nat>, k: nat)
    requires k in m
    ensures |m - {k}| < |m|
  {
    assert m.Keys == (m - {k}).Keys + {k};
  }

  /** Shares rounded down add up to no more than the whole. */
  lemma {:induction false} PartsBounded(m: map<nat, nat>, lost: nat, total: nat)
    requires total > 0
    ensures SumOf(Parts(m, lost, total)) * total <= SumOf(m) * lost
    decreases |m|
  {
    var parts := Parts(m, lost, total);
    if m == map[] {
      assert parts == map[];
    } else {
      var k :| k in m;
      Smaller(m, k);
      PartsBounded(m - {k}, lost, total);
      SumPick(m, k);
      SumPick(parts, k);
      assert parts - {k} == Parts(m - {k}, lost, total);
      PartBounded(m[k], lost, total);
      Distributes(parts[k], SumOf(parts - {k}), total);
      Distributes(m[k], SumOf(m - {k}), lost);
    }
  }

  lemma {:induction false} OneMorePart(x: nat, part: nat, dealt: nat, sum: nat, n: nat, lost: nat, total: nat)
    requires x * total <= sum * lost <= (x + n) * total && part * total <= dealt * lost < (part + 1) * total
    ensures (part + x) * total <= (dealt + sum) * lost < (part + x + (n + 1)) * total
  {
    Distributes(part, x, total);
    Distributes(dealt, sum, lost);
    Distributes(part + 1, x + n, total);
  }

  /** Nor do they fall short of it by more than less than one each. */
  lemma {:induction false} PartsFair(m: map<nat, nat>, lost: nat, total: nat)
    requires total > 0
    ensures Fair(SumOf(Parts(m, lost, total)), m, lost, total)
    decreases |m|
  {
    var parts := Parts(m, lost, total);
    if m == map[] {
      assert parts == map[];
    } else {
      var k :| k in m;
      Smaller(m, k);
      PartsFair(m - {k}, lost, total);
      SumPick(m, k);
      SumPick(parts, k);
      assert parts - {k} == Parts(m - {k}, lost, total);
      PartBounded(m[k], lost, total);
      OneFairer(m, m - {k}, k, SumOf(parts - {k}), parts[k], lost, total);
    }
  }

  lemma {:induction false} OneFairer(m: map<nat, nat>, rest: map<nat, nat>, k: nat, x: nat, part: nat, lost: nat,
                                     total: nat)
    requires k in m && rest == m - {k} && SumOf(m) == m[k] + SumOf(rest)
    requires Fair(x, rest, lost, total) && part * total <= m[k] * lost < (part + 1) * total
    ensures Fair(part + x, m, lost, total)
  {
    assert m.Keys == rest.Keys + {k};
    NoneDue(rest, lost);
    OneMorePart(x, part, m[k], SumOf(rest), |rest|, lost, total);
  }

  lemma {:induction false} NoneDue(m: map<nat, nat>, lost: nat)
    ensures m == map[] ==> SumOf(m) * lost == 0
  {
  }

  class Creature {
    const id: nat
    const infiniteMana: bool
    var health: int
    var healthMax: int
    var mana: int
    var manaMax: int
    var damageMap: map<nat, nat>

    ghost predicate Valid() reads this {
      0 <= health <= healthMax && 0 <= mana <= manaMax
    }

    constructor (id: nat, infiniteMana: bool, health: nat, mana: nat)
      ensures Valid() && this.id == id && this.health == health && this.mana == mana && damageMap == map[]
    {
      this.id, this.infiniteMana := id, infiniteMana;
      this.health, healthMax, this.mana, manaMax, damageMap := health, health, mana, mana, map[];
    }

    method ChangeHealth(healthChange: int)
      requires Valid()
      modifies this`health
      ensures Valid() && health == (if healthChange > 0 then Min(old(health) + healthChange, healthMax)
                                    else if old(health) + healthChange < 0 then 0 else old(health) + healthChange)
    {
      if healthChange > 0 {
        health := health + Min(healthChange, healthMax - health);
      } else {
        health := if health + healthChange < 0 then 0 else health + healthChange;
      }
    }

    method ChangeMana(manaChange: int)
      requires Valid()
      modifies this`mana
      ensures Valid() && mana == (if infiniteMana then old(mana)
                                  else if manaChange > 0 then Min(old(mana) + manaChange, manaMax)
                                  else if old(mana) + manaChange < 0 then 0 else old(mana) + manaChange)
    {
      if !infiniteMana {
        if manaChange > 0 {
          mana := mana + Min(manaChange, manaMax - mana);
        } else {
          mana := if mana + manaChange < 0 then 0 else mana + manaChange;
        }
      }
    }

    /** What an attacker dealt is added to what he dealt before. */
    method AddDamagePoints(attacker: nat, damagePoints: int)
      modifies this`damageMap
      ensures damageMap == Credit(old(damageMap), Some(attacker), damagePoints)
    {
      if damagePoints <= 0 { return; }
      if attacker !in damageMap {
        damageMap := damageMap[attacker := damagePoints];
      } else {
        damageMap := damageMap[attacker := damageMap[attacker] + damagePoints];
      }
    }

    method DrainHealth(attacker: Option<nat>, damage: nat)
      requires Valid() && damage <= health
      modifies this`health, this`damageMap
      ensures Valid() && health == old(health) - damage && damageMap == Credit(old(damageMap), attacker, damage)
    {
      ChangeHealth(0 - damage);
      if attacker.Some? { AddDamagePoints(attacker.value, damage); }
    }

    method DrainMana(attacker: Option<nat>, manaLoss: nat)
      requires Valid() && manaLoss <= mana
      modifies this`mana, this`damageMap
      ensures Valid() && mana == old(mana) - (if infiniteMana then 0 else manaLoss)
      ensures damageMap == Credit(old(damageMap), attacker, manaLoss)
    {
      ChangeMana(0 - manaLoss);
      if attacker.Some? { AddDamagePoints(attacker.value, manaLoss); }
    }

    /** Damage of two kinds: the mana under a shield takes what it can, the health what is left, up to
        all of it, and the attacker is credited with exactly what both took. */
    method CombatChangeHealth(attacker: Option<nat>, shield: bool, primaryValue: int, secondaryValue: int)
      returns (ghost absorbed: nat, ghost lost: nat)
      requires Valid()
      modifies this`health, this`mana, this`damageMap
      ensures Valid()
      ensures absorbed + lost
              == Min(Abs(primaryValue) + Abs(secondaryValue), (if shield then old(mana) else 0) + old(health))
      ensures absorbed == (if shield then Min(old(mana), Abs(primaryValue) + Abs(secondaryValue)) else 0)
      ensures health == old(health) - lost && mana == old(mana) - (if infiniteMana then 0 else absorbed)
      ensures damageMap == Credit(old(damageMap), attacker, absorbed + lost)
    {
      absorbed, lost := 0, 0;
      var primary, secondary := Abs(primaryValue), Abs(secondaryValue);
      var healthChange := primary + secondary;
      if healthChange == 0 { return; }
      if shield {
        var manaDamage := Min(mana, healthChange);
        if manaDamage != 0 {
          DrainMana(attacker, manaDamage);
          absorbed := manaDamage;
          primary, secondary := Shielded(primary, secondary, manaDamage);
        }
      }
      var realDamage := primary + secondary;
      if realDamage == 0 { return; }
      primary, secondary := Clipped(primary, secondary);
      realDamage := primary + secondary;
      if realDamage == 0 { return; }
      DrainHealth(attacker, realDamage);
      lost := realDamage;
    }

    /** What a shield leaves: it takes from the first kind of damage before the second. */
    method Shielded(primary: nat, secondary: nat, manaDamage: nat) returns (p: nat, s: nat)
      requires manaDamage <= primary + secondary
      ensures p + s == primary + secondary - manaDamage
      ensures p == if manaDamage <= primary then primary - manaDamage else 0
    {
      var left: int := primary - manaDamage;
      s := secondary;
      if left < 0 {
        s := Max(0, secondary + left);
        left := 0;
      }
      p := left;
    }

    /** No more than the health there is. */
    method Clipped(primary: nat, secondary: nat) returns (p: nat, s: nat)
      requires Valid()
      ensures p + s == Min(primary + secondary, health) && p == Min(primary, health)
    {
      p, s := primary, secondary;
      if primary >= health {
        p, s := health, 0;
      } else if secondary != 0 {
        s := Min(secondary, health - primary);
      }
    }

    /** An attacker's share of the experience lost, rounded down. */
    method GetGainedExperience(attacker: nat, lost: nat) returns (gained: nat)
      ensures gained == Share(damageMap, attacker, lost)
      ensures attacker !in damageMap || SumOf(damageMap) == 0 ==> gained == 0
      ensures attacker in damageMap && SumOf(damageMap) > 0 ==>
                gained * SumOf(damageMap) <= damageMap[attacker] * lost < (gained + 1) * SumOf(damageMap)
    {
      var totalDamage, attackerDamage := 0, 0;
      var left := damageMap.Keys;
      assert damageMap - left == map[];
      while left != {}
        invariant left <= damageMap.Keys && totalDamage == SumOf(damageMap - left)
        invariant attackerDamage == if attacker in damageMap && attacker !in left then damageMap[attacker] else 0
        decreases left
      {
        var a :| a in left;
        ghost var before := damageMap - left;
        left := left - {a};
        assert damageMap - left == before[a := damageMap[a]];
        SumSet(before, a, damageMap[a]);
        totalDamage := totalDamage + damageMap[a];
        if a == attacker { attackerDamage := attackerDamage + damageMap[a]; }
      }
      assert damageMap - {} == damageMap;
      if totalDamage == 0 { return 0; }
      gained := attackerDamage * lost / totalDamage;
      PartBounded(attackerDamage, lost, totalDamage);
      assert attacker !in damageMap ==> attackerDamage * lost == 0;
    }

    /** Shares the experience among those attackers who are still there, each share going to the leader
        of an attacker's party if it shares experience.  Everyone gets what is due for the damage of all
        who pass theirs to him, but less than one for each of them; all shares together are no more than
        what is lost, and fall short of it by less than the number of attackers if all are there. */
    method OnDeath(lost: nat, present: set<nat>, leader: map<nat, nat>) returns (experience: map<nat, nat>)
      ensures SumOf(experience) <= lost
      ensures forall l :: CreditedTo(experience, l, damageMap, lost, present - {id}, leader)
      ensures var total := SumOf(damageMap);
              total > 0 ==>
                forall l :: Fair(Of(experience, l), PassedTo(damageMap, present - {id}, leader, l), lost, total)
      ensures SumOf(damageMap) > 0 && damageMap.Keys <= present - {id} ==> lost < SumOf(experience) + |damageMap|
    {
      experience := map[];
      var others := present - {id};
      var left := damageMap.Keys;
      NoShares(damageMap, lost, others, leader, {});
      assert damageMap.Keys - left == {};
      while left != {}
        invariant left <= damageMap.Keys && Credited(experience, damageMap, lost, others, leader, damageMap.Keys - left)
        decreases left
      {
        var a :| a in left;
        ghost var done, before := damageMap.Keys - left, experience;
        left := left - {a};
        assert damageMap.Keys - left == done + {a};
        if a in others {
          var gainExp := GetGainedExperience(a, lost);
          var to := Receiver(leader, a);
          experience := experience[to := (if to in experience then experience[to] else 0) + gainExp];
        }
        OneMoreShare(damageMap, lost, others, leader, done, a, before, experience);
      }
      assert damageMap.Keys - left == damageMap.Keys;
      AllSharesBounded(damageMap, lost, others);
      if SumOf(damageMap) > 0 {
        forall l ensures Fair(Of(experience, l), PassedTo(damageMap, others, leader, l), lost, SumOf(damageMap)) {
          SharesFair(damageMap, lost, others, leader, l);
        }
        if damageMap.Keys <= others { AllSharesReach(damageMap, lost, others); }
      }
    }
  }

  ghost function Share(damage: map<nat, nat>, attacker: nat, lost: nat): nat {
    var total := SumOf(damage);
    if total == 0 || attacker !in damage then 0 else Part(damage[attacker], lost, total)
  }

  /** `points` more for the attacker, if there is one and there are any. */
  function Credit(damage: map<nat, nat>, attacker: Option<nat>, points: int): map<nat, nat> {
    if attacker.None? || points <= 0 then damage else damage[attacker.value := Of(damage, attacker.value) + points]
  }

  /** Crediting damage bit by bit or at once is the same, and loses nothing. */
  lemma {:induction false} CreditAddsUp(damage: map<nat, nat>, attacker: nat, first: nat, second: nat)
    ensures Credit(Credit(damage, Some(attacker), first), Some(attacker), second)
            == Credit(damage, Some(attacker), first + second)
    ensures SumOf(Credit(damage, Some(attacker), first)) == SumOf(damage) + first
  {
    SumSet(damage, attacker, Of(damage, attacker) + first);
  }

  /** Who gets an attacker's share. */
  function Receiver(leader: map<nat, nat>, attacker: nat): nat {
    if attacker in leader then leader[attacker] else attacker
  }

  /** The shares of some attackers that go to `l`. */
  ghost function SharesTo(damage: map<nat, nat>, lost: nat, others: set<nat>, leader: map<nat, nat>, done: set<nat>,
                          l: nat): map<nat, nat> {
    map a | a in done && a in others && Receiver(leader, a) == l :: Share(damage, a, lost)
  }

  /** The damage of those who pass their share to `l`. */
  ghost function PassedTo(damage: map<nat, nat>, others: set<nat>, leader: map<nat, nat>, l: nat): map<nat, nat> {
    map a | a in damage && a in others && (if a in leader then leader[a] else a) == l :: damage[a]
  }

  lemma {:induction false} SharesFair(damage: map<nat, nat>, lost: nat, others: set<nat>, leader: map<nat, nat>, l: nat)
    requires SumOf(damage) > 0
    ensures Fair(SumOf(SharesTo(damage, lost, others, leader, damage.Keys, l)), PassedTo(damage, others, leader, l),
                lost, SumOf(damage))
  {
    var passed := PassedTo(damage, others, leader, l);
    PartsFair(passed, lost, SumOf(damage));
    assert SharesTo(damage, lost, others, leader, damage.Keys, l) == Parts(passed, lost, SumOf(damage));
  }

  /** When all attackers are there, what is lost is all but shared out. */
  lemma {:induction false} AllSharesReach(damage: map<nat, nat>, lost: nat, others: set<nat>)
    requires SumOf(damage) > 0 && damage.Keys <= others
    ensures lost < SumOf(AllShares(damage, lost, others, damage.Keys)) + |damage|
  {
    var all, total := AllShares(damage, lost, others, damage.Keys), SumOf(damage);
    PartsFair(damage, lost, total);
    assert all == Parts(damage, lost, total);
    ReachesWhole(SumOf(all) + |damage|, lost, total);
  }

  lemma {:induction false} ReachesWhole(x: nat, lost: nat, total: nat)
    requires total * lost < x * total
    ensures lost < x
  {
    Scaled(x, lost, total);
  }

  ghost function AllShares(damage: map<nat, nat>, lost: nat, others: set<nat>, done: set<nat>): map<nat, nat> {
    map a | a in done && a in others :: Share(damage, a, lost)
  }

  function Of(m: map<nat, nat>, k: nat): nat { if k in m then m[k] else 0 }

  /** `l` got exactly the shares of those attackers who pass theirs to him. */
  ghost predicate CreditedTo(experience: map<nat, nat>, l: nat, damage: map<nat, nat>, lost: nat, others: set<nat>,
                             leader: map<nat, nat>) {
    Of(experience, l) == SumOf(SharesTo(damage, lost, others, leader, damage.Keys, l))
  }

  /** The shares of the attackers done so far are given out. */
  ghost predicate Credited(experience: map<nat, nat>, damage: map<nat, nat>, lost: nat, others: set<nat>,
                           leader: map<nat, nat>, done: set<nat>) {
    && SumOf(experience) == SumOf(AllShares(damage, lost, others, done))
    && forall l :: Of(experience, l) == SumOf(SharesTo(damage, lost, others, leader, done, l))
  }

  lemma {:induction false} NoShares(damage: map<nat, nat>, lost: nat, others: set<nat>, leader: map<nat, nat>,
                                    done: set<nat>)
    requires done == {}
    ensures Credited(map[], damage, lost, others, leader, done)
  {
    assert AllShares(damage, lost, others, done) == map[];
    forall l ensures SumOf(SharesTo(damage, lost, others, leader, done, l)) == 0 {
      assert SharesTo(damage, lost, others, leader, done, l) == map[];
    }
  }

  lemma {:induction false} OneMoreTo(damage: map<nat, nat>, lost: nat, others: set<nat>, leader: map<nat, nat>,
                                     done: set<nat>, a: nat, l: nat)
    requires a !in done
    ensures SumOf(SharesTo(damage, lost, others, leader, done + {a}, l))
            == SumOf(SharesTo(damage, lost, others, leader, done, l)) + (if a in others
                && Receiver(leader, a) == l then Share(damage, a, lost) else 0)
  {
    var shares := SharesTo(damage, lost, others, leader, done, l);
    if a in others && Receiver(leader, a) == l {
      assert SharesTo(damage, lost, others, leader, done + {a}, l) == shares[a := Share(damage, a, lost)];
      SumSet(shares, a, Share(damage, a, lost));
    } else {
      assert SharesTo(damage, lost, others, leader, done + {a}, l) == shares;
    }
  }

  lemma {:induction false} OneMoreOfAll(damage: map<nat, nat>, lost: nat, others: set<nat>, done: set<nat>, a: nat)
    requires a !in done
    ensures SumOf(AllShares(damage, lost, others, done + {a}))
            == SumOf(AllShares(damage, lost, others, done)) + (if a in others then Share(damage, a, lost) else 0)
  {
    var all := AllShares(damage, lost, others, done);
    if a in others {
      assert AllShares(damage, lost, others, done + {a}) == all[a := Share(damage, a, lost)];
      SumSet(all, a, Share(damage, a, lost));
    } else {
      assert AllShares(damage, lost, others, done + {a}) == all;
    }
  }

  lemma {:induction false} OneMoreShare(damage: map<nat, nat>, lost: nat, others: set<nat>, leader: map<nat, nat>,
                                        done: set<nat>, a: nat, before: map<nat, nat>, now: map<nat, nat>)
    requires a !in done && Credited(before, damage, lost, others, leader, done)
    requires var to := Receiver(leader, a);
             now == if a in others then before[to := Of(before, to) + Share(damage, a, lost)] else before
    ensures Credited(now, damage, lost, others, leader, done + {a})
  {
    var to := Receiver(leader, a);
    OneMoreOfAll(damage, lost, others, done, a);
    SumSet(before, to, Of(before, to) + Share(damage, a, lost));
    forall l ensures Of(now, l) == SumOf(SharesTo(damage, lost, others, leader, done + {a}, l)) {
      OneMoreTo(damage, lost, others, leader, done, a, l);
      assert Of(before, l) == SumOf(SharesTo(damage, lost, others, leader, done, l));
    }
  }

  lemma {:induction false} SumMonotone(m: map<nat, nat>, n: map<nat, nat>)
    requires forall k :: k in m ==> k in n && m[k] == n[k]
    ensures SumOf(m) <= SumOf(n)
    decreases |m|
  {
    if m != map[] {
      var k :| k in m;
      Smaller(m, k);
      SumMonotone(m - {k}, n - {k});
      SumPick(m, k);
      SumPick(n, k);
    }
  }

  /** All shares together are no more than what is lost. */
  lemma {:induction false} AllSharesBounded(damage: map<nat, nat>, lost: nat, others: set<nat>)
    ensures SumOf(AllShares(damage, lost, others, damage.Keys)) <= lost
  {
    var all, total := AllShares(damage, lost, others, damage.Keys), SumOf(damage);
    if total > 0 {
      var parts := Parts(damage, lost, total);
      SumMonotone(all, parts);
      PartsBounded(damage, lost, total);
      FitsWhole(SumOf(parts), lost, total);
    } else {
      AllZero(all);
    }
  }

  lemma {:induction false} FitsWhole(sum: nat, lost: nat, total: nat)
    requires total > 0 && sum * total <= total * lost
    ensures sum <= lost
  {
    Scaled(lost + 1, sum, total);
    assert total * (lost + 1) == total * lost + total;
  }

  lemma {:induction false} AllZero(m: map<nat, nat>)
    requires forall k :: k in m ==> m[k] == 0
    ensures SumOf(m) == 0
    decreases |m|
  {
    if m != map[] {
      var k :| k in m;
      Smaller(m, k);
      AllZero(m - {k});
      SumPick(m, k);
    }
  }
}
