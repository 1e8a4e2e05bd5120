/** The two-player trade: offers, acceptance and the exchange. */
module Trade {
  import opened Wrappers

  datatype TradeState = NoTrade | Initiated | Accepted | Acknowledged | Transferring

  /** One player's side of a trade. */
  datatype Side<P> = Side(state: TradeState, partner: Option<P>, item: Option<nat>)

  /** All players' sides, and who offers each item on offer. */
  datatype Trades<P> = Trades(sides: map<P, Side<P>>, offers: map<nat, P>)

  function Idle<P>(): Side<P> {
    Side(NoTrade, None, None)
  }

  /** Between two events every trade is between two different players who name each other. A side
      without a trade offers nothing; one that started offers something; one that was asked offers
      nothing yet, and may accept even so; never do both wait in acceptance. The items on offer are
      exactly those of the sides. */
  ghost predicate SideOk<P>(t: Trades<P>, p: P)
    requires p in t.sides
  {
    var s := t.sides[p];
    && (s.partner.None? <==> s.state == NoTrade)
    && (s.partner.Some? ==> PartnerOk(t, p, s.partner.value))
    && (match s.state
        case NoTrade => s.item.None?
        case Initiated => s.item.Some?
        case Acknowledged => s.item.None?
        case Accepted => true
        case Transferring => false)
    && (s.item.Some? ==> s.item.value in t.offers && t.offers[s.item.value] == p)
  }

  ghost predicate PartnerOk<P>(t: Trades<P>, p: P, q: P)
    requires p in t.sides
  {
    && q in t.sides && q != p && t.sides[q].partner == Some(p)
    && !(t.sides[p].state == Accepted && t.sides[q].state == Accepted)
    && (t.sides[p].item.None? ==> t.sides[q].item.Some?)
  }

  ghost predicate OfferOk<P>(t: Trades<P>, i: nat)
    requires i in t.offers
  {
    t.offers[i] in t.sides && t.sides[t.offers[i]].item == Some(i)
  }

  ghost predicate Sound<P>(t: Trades<P>) {
    (forall p :: p in t.sides ==> SideOk(t, p)) && forall i :: i in t.offers ==> OfferOk(t, i)
  }

  // ------------------------------------------------------------- the events

  predicate MayStart<P(==)>(t: Trades<P>, p: P, q: P)
    requires p in t.sides && q in t.sides
  {
    && (t.sides[p].state == NoTrade || (t.sides[p].state == Acknowledged && t.sides[p].partner == Some(q)))
    && (t.sides[q].state == NoTrade || t.sides[q].partner == Some(p))
  }

  /** `p` offers `item` to `q`. */
  function Started<P(==)>(t: Trades<P>, p: P, q: P, item: nat): Trades<P>
    requires p in t.sides && q in t.sides
  {
    if !MayStart(t, p, q) then t
    else
      var asked := if t.sides[q].state == NoTrade then t.sides[q].(state := Acknowledged, partner := Some(p))
                   else t.sides[q];
      Trades(t.sides[q := asked][p := Side(Initiated, Some(q), Some(item))], t.offers[item := p])
  }

  function Minus<P>(offers: map<nat, P>, item: Option<nat>): map<nat, P> {
    if item.Some? then offers - {item.value} else offers
  }

  /** The trade of `p` is over, for both. */
  function Ended<P(==)>(t: Trades<P>, p: P): Trades<P>
    requires p in t.sides && (t.sides[p].partner.Some? ==> t.sides[p].partner.value in t.sides)
  {
    var s := t.sides[p];
    if s.state == Transferring || (s.partner.Some? && t.sides[s.partner.value].state == Transferring) then t
    else if s.partner.None? then Trades(t.sides[p := Idle()], Minus(t.offers, s.item))
    else
      var q := s.partner.value;
      Trades(t.sides[p := Idle()][q := Idle()], Minus(Minus(t.offers, s.item), t.sides[q].item))
  }

  /** `p` accepts: the second acceptance ends the trade, exchanged or not. */
  function AcceptedBy<P(==)>(t: Trades<P>, p: P): Trades<P>
    requires p in t.sides && (t.sides[p].partner.Some? ==> t.sides[p].partner.value in t.sides)
  {
    var s := t.sides[p];
    if (s.state != Acknowledged && s.state != Initiated) || s.partner.None? then t
    else if t.sides[s.partner.value].state == Accepted then Ended(t, p)
    else Marked(t, p)
  }

  lemma {:induction false} StartedSound<P>(t: Trades<P>, p: P, q: P, item: nat)
    requires Sound(t) && p in t.sides && q in t.sides && p != q && item !in t.offers
    ensures Sound(Started(t, p, q, item))
  {
    var t' := Started(t, p, q, item);
    assert SideOk(t, p) && SideOk(t, q);
    if MayStart(t, p, q) {
      forall r | r in t'.sides ensures SideOk(t', r) {
        assert SideOk(t, r);
      }
      forall i | i in t'.offers ensures OfferOk(t', i) {
        if i != item { assert OfferOk(t, i); }
      }
    }
  }

  lemma {:induction false} EndedSound<P>(t: Trades<P>, p: P)
    requires Sound(t) && p in t.sides
    ensures SideOk(t, p) && Sound(Ended(t, p)) && Ended(t, p).sides[p] == Idle()
    ensures t.sides[p].partner.Some? ==> Ended(t, p).sides[t.sides[p].partner.value] == Idle()
    ensures forall r :: r in t.sides && r != p && t.sides[p].partner != Some(r) ==> Ended(t, p).sides[r] == t.sides[r]
  {
    var t' := Ended(t, p);
    assert SideOk(t, p);
    if t.sides[p].partner.Some? { assert SideOk(t, t.sides[p].partner.value); }
    forall r | r in t'.sides ensures SideOk(t', r) {
      assert SideOk(t, r);
    }
    forall i | i in t'.offers ensures OfferOk(t', i) {
      assert OfferOk(t, i);
    }
  }

  lemma {:induction false} AcceptedSound<P>(t: Trades<P>, p: P)
    requires Sound(t) && p in t.sides
    ensures SideOk(t, p) && Sound(AcceptedBy(t, p))
  {
    var t', s := AcceptedBy(t, p), t.sides[p];
    assert SideOk(t, p);
    if (s.state == Acknowledged || s.state == Initiated) && t.sides[s.partner.value].state == Accepted {
      EndedSound(t, p);
    } else if s.state == Acknowledged || s.state == Initiated {
      forall r | r in t'.sides ensures SideOk(t', r) {
        assert SideOk(t, r);
      }
      forall i | i in t'.offers ensures OfferOk(t', i) {
        assert OfferOk(t, i);
      }
    }
  }

  // ------------------------------------------------------------- whole runs

  datatype Event<P> = Start(player: P, partner: P, item: nat) | Accept(player: P) | Close(player: P)

  /** Players exist, nobody trades with himself, and nothing already on offer is offered again. */
  ghost predicate Guarded<P>(t: Trades<P>, e: Event<P>) {
    match e
    case Start(p, q, item) => p in t.sides && q in t.sides && p != q && item !in t.offers
    case Accept(p) => p in t.sides
    case Close(p) => p in t.sides
  }

  ghost function After<P>(t: Trades<P>, e: Event<P>): (t': Trades<P>)
    requires Sound(t) && Guarded(t, e)
    ensures Sound(t')
  {
    match e
    case Start(p, q, item) => StartedSound(t, p, q, item); Started(t, p, q, item)
    case Accept(p) => AcceptedSound(t, p); AcceptedBy(t, p)
    case Close(p) => EndedSound(t, p); Ended(t, p)
  }

  /** In a sound table a start is possible between two idle players, and for one who was asked by the
      other: then he makes his offer, and an idle partner is asked.  Any other start is refused. */
  lemma {:induction false} StartsExactly<P>(t: Trades<P>, p: P, q: P, item: nat)
    requires Sound(t) && p in t.sides && q in t.sides && p != q && item !in t.offers
    ensures After(t, Start(p, q, item)) ==
            if t.sides[p].state == NoTrade && t.sides[q].state == NoTrade then
              Trades(t.sides[p := Side(Initiated, Some(q), Some(item))][q := Side(Acknowledged, Some(p), None)],
                     t.offers[item := p])
            else if t.sides[p].state == Acknowledged && t.sides[p].partner == Some(q) then
              Trades(t.sides[p := Side(Initiated, Some(q), Some(item))], t.offers[item := p])
            else t
  {
    assert SideOk(t, p) && SideOk(t, q);
    var asked := t.sides[q].(state := Acknowledged, partner := Some(p));
    var starts := Side(Initiated, Some(q), Some(item));
    assert t.sides[q := asked][p := starts] == t.sides[p := starts][q := asked];
    assert t.sides[q := t.sides[q]] == t.sides;
  }

  /** Who trades with a third player can neither start nor be asked. */
  lemma {:induction false} ThirdRefused<P>(t: Trades<P>, p: P, q: P, item: nat)
    requires Sound(t) && p in t.sides && q in t.sides && p != q && item !in t.offers
    requires (t.sides[p].partner.Some? && t.sides[p].partner != Some(q))
             || (t.sides[q].partner.Some? && t.sides[q].partner != Some(p))
    ensures After(t, Start(p, q, item)) == t
  {
    assert SideOk(t, p) && SideOk(t, q);
    StartsExactly(t, p, q, item);
  }

  /** The trade of `p` and `q` is over: both are idle, and exactly what they offered is on offer no more. */
  ghost predicate BothOver<P>(t: Trades<P>, p: P, q: P, t': Trades<P>) {
    && t'.sides == t.sides[p := Side(NoTrade, None, None)][q := Side(NoTrade, None, None)]
    && t'.offers == map i | i in t.offers && t.offers[i] != p && t.offers[i] != q :: t.offers[i]
  }

  lemma {:induction false} OffersLeft<P>(t: Trades<P>, p: P, q: P, offers: map<nat, P>)
    requires Sound(t) && p in t.sides && q in t.sides
    requires offers == Minus(Minus(t.offers, t.sides[p].item), t.sides[q].item)
    ensures offers == map i | i in t.offers && t.offers[i] != p && t.offers[i] != q :: t.offers[i]
  {
    assert SideOk(t, p) && SideOk(t, q);
    forall i | i in t.offers ensures i in offers <==> t.offers[i] != p && t.offers[i] != q { assert OfferOk(t, i); }
  }

  /** In a sound table an end is the end for both partners. */
  lemma {:induction false} EndsBoth<P>(t: Trades<P>, p: P)
    requires Sound(t) && p in t.sides && t.sides[p].state != NoTrade
    ensures SideOk(t, p) && BothOver(t, p, t.sides[p].partner.value, Ended(t, p))
  {
    assert SideOk(t, p) && SideOk(t, t.sides[p].partner.value);
    OffersLeft(t, p, t.sides[p].partner.value, Ended(t, p).offers);
  }

  /** In a sound table the first of two partners who accepts is marked, and the second ends the trade. */
  lemma {:induction false} AcceptsExactly<P>(t: Trades<P>, p: P)
    requires Sound(t) && p in t.sides
    ensures var s, t' := t.sides[p], After(t, Accept(p));
            if s.state != Initiated && s.state != Acknowledged then t' == t
            else
              && s.partner.Some? && s.partner.value in t.sides
              && (if t.sides[s.partner.value].state != Accepted
                  then t' == t.(sides := t.sides[p := Side(Accepted, s.partner, s.item)])
                  else BothOver(t, p, s.partner.value, t'))
  {
    assert SideOk(t, p);
    if t.sides[p].state != NoTrade { EndsBoth(t, p); }
  }

  /** In a sound table closing ends the trade for both partners, and does nothing without one. */
  lemma {:induction false} ClosesExactly<P>(t: Trades<P>, p: P)
    requires Sound(t) && p in t.sides
    ensures var s, t' := t.sides[p], After(t, Close(p));
            if s.state == NoTrade then t' == t
            else s.partner.Some? && s.partner.value in t.sides && BothOver(t, p, s.partner.value, t')
  {
    assert SideOk(t, p);
    if t.sides[p].state != NoTrade {
      EndsBoth(t, p);
    } else {
      assert t.sides[p := Idle()] == t.sides;
    }
  }

  /** Two idle players who both offer and both accept: the transfer finds both items, and afterwards
      both are idle again and neither item is on offer. */
  lemma {:induction false} FairTrade<P>(t: Trades<P>, p: P, q: P, i: nat, j: nat)
      returns (ts: seq<Trades<P>>, es: seq<Event<P>>)
    requires Sound(t) && p in t.sides && q in t.sides && p != q && t.sides[p] == Idle() && t.sides[q] == Idle()
    requires i !in t.offers && j !in t.offers && i != j
    ensures es == [Start(p, q, i), Start(q, p, j), Accept(p), Accept(q)] && IsRun(ts, es) && ts[0] == ts[4] == t
    ensures ts[3].sides == t.sides[p := Side(Accepted, Some(q), Some(i))][q := Side(Initiated, Some(p), Some(j))]
    ensures ts[3].offers == t.offers[i := p][j := q] && SideOk(ts[3], q) && Completes(ts[3], q)
  {
    es := [Start(p, q, i), Start(q, p, j), Accept(p), Accept(q)];
    var t1, t2 := FairStarts(t, p, q, i, j);
    var t3 := FairAcceptances(t, p, q, i, j, t2);
    ts := [t, t1, t2, t3, t];
    assert Follows(ts, es, 0) && Follows(ts, es, 1) && Follows(ts, es, 2) && Follows(ts, es, 3);
  }

  /** Both have made their offers. */
  ghost predicate BothOffer<P>(t: Trades<P>, p: P, q: P, i: nat, j: nat, state: TradeState, t': Trades<P>) {
    && t'.sides == t.sides[p := Side(state, Some(q), Some(i))][q := Side(Initiated, Some(p), Some(j))]
    && t'.offers == t.offers[i := p][j := q]
  }

  lemma {:induction false} FairStarts<P>(t: Trades<P>, p: P, q: P, i: nat, j: nat)
      returns (t1: Trades<P>, t2: Trades<P>)
    requires Sound(t) && p in t.sides && q in t.sides && p != q && t.sides[p] == Idle() && t.sides[q] == Idle()
    requires i !in t.offers && j !in t.offers && i != j
    ensures t1 == After(t, Start(p, q, i)) && Guarded(t1, Start(q, p, j)) && t2 == After(t1, Start(q, p, j))
    ensures BothOffer(t, p, q, i, j, Initiated, t2)
  {
    StartsExactly(t, p, q, i);
    t1 := After(t, Start(p, q, i));
    StartsExactly(t1, q, p, j);
    t2 := After(t1, Start(q, p, j));
  }

  lemma {:induction false} FairAcceptances<P>(t: Trades<P>, p: P, q: P, i: nat, j: nat, t2: Trades<P>)
      returns (t3: Trades<P>)
    requires Sound(t) && p in t.sides && q in t.sides && p != q && t.sides[p] == Idle() && t.sides[q] == Idle()
    requires i !in t.offers && j !in t.offers && Sound(t2) && BothOffer(t, p, q, i, j, Initiated, t2)
    ensures t3 == After(t2, Accept(p)) && BothOffer(t, p, q, i, j, Accepted, t3) && SideOk(t3, q) && Completes(t3, q)
    ensures Guarded(t3, Accept(q)) && After(t3, Accept(q)) == t
  {
    AcceptsExactly(t2, p);
    t3 := After(t2, Accept(p));
    assert SideOk(t3, q);
    AcceptsExactly(t3, q);
    BothGone(t, p, q, i, j, t3, After(t3, Accept(q)));
  }

  lemma {:induction false} BothGone<P>(t: Trades<P>, p: P, q: P, i: nat, j: nat, t3: Trades<P>, t4: Trades<P>)
    requires Sound(t) && p in t.sides && q in t.sides && p != q && t.sides[p] == Idle() && t.sides[q] == Idle()
    requires i !in t.offers && j !in t.offers && BothOffer(t, p, q, i, j, Accepted, t3) && BothOver(t3, q, p, t4)
    ensures t4 == t
  {
    NothingOffered(t, p, q);
    assert t4.sides == t.sides;
    assert t4.offers == t.offers;
  }

  lemma {:induction false} NothingOffered<P>(t: Trades<P>, p: P, q: P)
    requires Sound(t) && p in t.sides && q in t.sides && t.sides[p] == Idle() && t.sides[q] == Idle()
    ensures forall k :: k in t.offers ==> t.offers[k] != p && t.offers[k] != q
  {
    forall k | k in t.offers ensures t.offers[k] != p && t.offers[k] != q { assert OfferOk(t, k); }
  }

  /** A sequence of trade tables, one event apart. */
  ghost predicate IsRun<P>(ts: seq<Trades<P>>, es: seq<Event<P>>) {
    |ts| == |es| + 1 && Sound(ts[0]) && forall i :: 0 <= i < |es| ==> Follows(ts, es, i)
  }

  ghost predicate Follows<P>(ts: seq<Trades<P>>, es: seq<Event<P>>, i: nat)
    requires i < |es| && |ts| == |es| + 1
  {
    Sound(ts[i]) ==> Guarded(ts[i], es[i]) && ts[i + 1] == After(ts[i], es[i])
  }

  /** After any events by any players in any order the trades are sound. */
  lemma {:induction false} RunSound<P>(ts: seq<Trades<P>>, es: seq<Event<P>>, n: nat)
    requires IsRun(ts, es) && n <= |es|
    ensures Sound(ts[n])
  {
    if n > 0 {
      RunSound(ts, es, n - 1);
      assert Follows(ts, es, n - 1);
    }
  }

  /** An offer stands, to the same partner, until the trade ends. */
  lemma {:induction false} OfferStands<P>(t: Trades<P>, e: Event<P>, p: P)
    requires Sound(t) && Guarded(t, e) && p in t.sides && t.sides[p].item.Some?
    ensures var s, s' := t.sides[p], After(t, e).sides[p];
            s' == Idle() || (s'.item == s.item && s'.partner == s.partner)
  {
    assert SideOk(t, p) && SideOk(t, e.player);
    match e
    case Start(r, q, item) => assert SideOk(t, q);
    case Accept(r) => if AcceptedBy(t, r) == Ended(t, r) { EndedSound(t, r); }
    case Close(r) => EndedSound(t, r);
  }

  lemma {:induction false} OfferKept<P>(ts: seq<Trades<P>>, es: seq<Event<P>>, p: P, m: nat, n: nat)
    requires IsRun(ts, es) && m <= n <= |es| && p in ts[m].sides && ts[m].sides[p].item.Some?
    requires forall i :: m <= i <= n && p in ts[i].sides ==> ts[i].sides[p].state != NoTrade
    ensures p in ts[n].sides && ts[n].sides[p].item == ts[m].sides[p].item
    ensures ts[n].sides[p].partner == ts[m].sides[p].partner
    decreases n
  {
    if n > m {
      OfferKept(ts, es, p, m, n - 1);
      RunSound(ts, es, n - 1);
      assert Follows(ts, es, n - 1);
      OfferStands(ts[n - 1], es[n - 1], p);
    }
  }

  /** Nobody but the player, his partner and the one he asks is touched. */
  lemma {:induction false} OthersUntouched<P>(t: Trades<P>, e: Event<P>, r: P)
    requires Sound(t) && Guarded(t, e) && r in t.sides && r != e.player && t.sides[e.player].partner != Some(r)
    requires e.Start? ==> r != e.partner
    ensures After(t, e).sides[r] == t.sides[r]
  {
    assert SideOk(t, e.player);
    EndedSound(t, e.player);
  }

  /** The transfer that an acceptance sets off: the item on offer on either side, if any. */
  datatype Exchange = Exchange(given: Option<nat>, taken: Option<nat>)

  /** Both sides have accepted with this one. */
  predicate Completes<P(==)>(t: Trades<P>, p: P)
    requires p in t.sides && (t.sides[p].partner.Some? ==> t.sides[p].partner.value in t.sides)
  {
    var s := t.sides[p];
    (s.state == Acknowledged || s.state == Initiated) && s.partner.Some? && t.sides[s.partner.value].state == Accepted
  }

  /** An acceptance that sets off the transfer finds an item on its own side exactly when that side
      has made an offer, and on one of the two sides at least: the side that was only asked may
      accept without an offer. */
  lemma {:induction false} OwnSideGives<P>(t: Trades<P>, p: P)
    requires Sound(t) && p in t.sides && SideOk(t, p) && Completes(t, p)
    ensures var q := t.sides[p].partner.value;
            && (t.sides[p].item.Some? <==> t.sides[p].state == Initiated)
            && (t.sides[p].item.Some? || t.sides[q].item.Some?)
            && t.sides[q].state == Accepted
  {
    assert SideOk(t, t.sides[p].partner.value);
  }

  lemma {:induction false} SamePlayers<P>(ts: seq<Trades<P>>, es: seq<Event<P>>, n: nat)
    requires IsRun(ts, es) && n <= |es|
    ensures ts[n].sides.Keys == ts[0].sides.Keys
  {
    if n > 0 {
      SamePlayers(ts, es, n - 1);
      RunSound(ts, es, n - 1);
      assert Follows(ts, es, n - 1);
      assert SideOk(ts[n - 1], es[n - 1].player);
    }
  }

  /** Its item and its partner stay, and it had accepted before, or accepts now as one that has started or was asked. */
  ghost predicate StillAccepted<P>(s: Side<P>, s': Side<P>, accepts: bool) {
    && s'.item == s.item && s'.partner == s.partner
    && (s.state == Accepted || (accepts && (s.state == Initiated || s.state == Acknowledged)))
  }

  lemma {:induction false} AcceptedAtStart<P>(t: Trades<P>, p: P, r: P, item: nat, q: P)
    requires p in t.sides && r in t.sides && q in t.sides
    requires Started(t, p, r, item).sides[q].state == Accepted
    ensures StillAccepted(t.sides[q], Started(t, p, r, item).sides[q], false)
  {
  }

  lemma {:induction false} AcceptedAtEnd<P>(t: Trades<P>, p: P, q: P)
    requires Sound(t) && p in t.sides && q in t.sides && SideOk(t, p) && Ended(t, p).sides[q].state == Accepted
    ensures StillAccepted(t.sides[q], Ended(t, p).sides[q], false)
  {
    EndedSound(t, p);
  }

  lemma {:induction false} AcceptedAtAccept<P>(t: Trades<P>, p: P, q: P)
    requires Sound(t) && p in t.sides && q in t.sides && SideOk(t, p) && AcceptedBy(t, p).sides[q].state == Accepted
    ensures StillAccepted(t.sides[q], AcceptedBy(t, p).sides[q], p == q)
  {
    EndedSound(t, p);
  }

  /** A side comes to have accepted by accepting, as one that has started or was asked; then its item
      and its partner stay for as long as it has. */
  lemma {:induction false} AcceptedStep<P>(t: Trades<P>, e: Event<P>, q: P)
    requires Sound(t) && Guarded(t, e) && q in t.sides && q in After(t, e).sides
    requires After(t, e).sides[q].state == Accepted
    ensures StillAccepted(t.sides[q], After(t, e).sides[q], e == Accept(q))
  {
    assert SideOk(t, e.player);
    match e {
      case Start(p, r, item) => AcceptedAtStart(t, p, r, item, q);
      case Accept(p) => AcceptedAtAccept(t, p, q);
      case Close(p) => AcceptedAtEnd(t, p, q);
    }
  }

  lemma {:induction false} AcceptedBefore<P>(ts: seq<Trades<P>>, es: seq<Event<P>>, q: P, n: nat)
    requires IsRun(ts, es) && n < |es| && q in ts[0].sides
    requires q in ts[n + 1].sides && ts[n + 1].sides[q].state == Accepted
    ensures q in ts[n].sides && StillAccepted(ts[n].sides[q], ts[n + 1].sides[q], es[n] == Accept(q))
  {
    SamePlayers(ts, es, n);
    RunSound(ts, es, n);
    assert Follows(ts, es, n);
    AcceptedStep(ts[n], es[n], q);
  }

  /** When a side that has accepted did so: at event `m`, since when its item is the same. */
  lemma {:induction false} AcceptedAt<P>(ts: seq<Trades<P>>, es: seq<Event<P>>, q: P, n: nat) returns (m: nat)
    requires IsRun(ts, es) && n <= |es| && q in ts[0].sides && ts[0].sides[q].state != Accepted
    requires q in ts[n].sides && ts[n].sides[q].state == Accepted
    ensures m < n && es[m] == Accept(q) && q in ts[m].sides && ts[m].sides[q].item == ts[n].sides[q].item
    ensures ts[m].sides[q].state == Initiated || ts[m].sides[q].state == Acknowledged
    ensures forall k :: m < k <= n ==> q in ts[k].sides && ts[k].sides[q].state == Accepted
  {
    AcceptedBefore(ts, es, q, n - 1);
    if ts[n - 1].sides[q].state == Accepted {
      m := AcceptedAt(ts, es, q, n - 1);
    } else {
      m := n - 1;
    }
  }

  /** The transfer finds both items exactly when both sides accepted an offer after making one of
      their own: the side that accepts now has started, and so had its partner when it accepted. */
  lemma {:induction false} BothGive<P>(ts: seq<Trades<P>>, es: seq<Event<P>>, p: P, n: nat) returns (m: nat)
    requires IsRun(ts, es) && n < |es| && es[n] == Accept(p) && p in ts[n].sides
    requires forall q :: q in ts[0].sides ==> ts[0].sides[q].state != Accepted
    requires SideOk(ts[n], p) && Completes(ts[n], p)
    ensures var q := ts[n].sides[p].partner.value;
            && m < n && es[m] == Accept(q) && q in ts[m].sides
            && (forall k :: m < k <= n ==> q in ts[k].sides && ts[k].sides[q].state == Accepted)
            && (ts[n].sides[p].item.Some? && ts[n].sides[q].item.Some?
                <==> ts[n].sides[p].state == Initiated && ts[m].sides[q].state == Initiated)
  {
    var q := ts[n].sides[p].partner.value;
    RunSound(ts, es, n);
    OwnSideGives(ts[n], p);
    SamePlayers(ts, es, n);
    m := AcceptedAt(ts, es, q, n);
    RunSound(ts, es, m);
    assert SideOk(ts[m], q);
  }

  /** The side that was asked may accept at once; the transfer is then reached with one item only. */
  lemma {:induction false} AskedMayAcceptBare<P>(t: Trades<P>, p: P, q: P, item: nat)
    requires Sound(t) && p in t.sides && q in t.sides && p != q && item !in t.offers
    requires t.sides[p] == Idle() && t.sides[q] == Idle()
    ensures var t1 := After(t, Start(p, q, item));
            var t2 := After(t1, Accept(q));
            SideOk(t2, p) && Completes(t2, p) && t2.sides[p].item == Some(item) && t2.sides[q].item == None
  {
    var t1 := After(t, Start(p, q, item));
    AcceptedSound(t1, q);
    assert SideOk(After(t1, Accept(q)), p);
  }

  // ------------------------------------------------------------ the players

  class Player {
    const id: nat
    var tradeState: TradeState
    var tradePartner: Player?
    var tradeItem: Option<nat>

    constructor (id: nat)
      ensures this.id == id && AsSide() == Idle()
    {
      this.id := id;
      tradeState, tradePartner, tradeItem := NoTrade, null, None;
    }

    ghost function AsSide(): Side<Player>
      reads this
    {
      Side(tradeState, if tradePartner == null then None else var p: Player := tradePartner; Some(p), tradeItem)
    }
  }

  class Game {
    ghost const players: set<Player>
    var tradeItems: map<nat, Player>

    ghost function View(): Trades<Player>
      reads this, players
    {
      Trades(map p | p in players :: p.AsSide(), tradeItems)
    }

    /** Offers an item, unless it is on offer, or in something that is, or holds something that is, or
        there are more than 100 objects in it.  `allowed` says that the partner and the item can be
        reached, that the item can be carried, and that nobody else's house is in the way. */
    method PlayerRequestTrade(player: Player, tradePartner: Player, tradeItem: nat, isContainer: bool, allowed: bool,
                              holding: nat,
                              isHolding: (nat, nat) -> bool)
      returns (started: bool)
      requires player in players && tradePartner in players && Sound(View())
      modifies this`tradeItems, players
      ensures Sound(View())
      ensures started <==>
                && allowed && player != tradePartner && (isContainer ==> holding < 100)
                && ((old(player.tradeState) == NoTrade && old(tradePartner.tradeState) == NoTrade)
                    || (old(player.tradeState) == Acknowledged && old(player.tradePartner) == tradePartner))
                && forall i :: i in old(tradeItems) ==>
                     i != tradeItem && !isHolding(i, tradeItem) && !(isContainer && isHolding(tradeItem, i))
      ensures started ==>
                && player.AsSide() == Side(Initiated, Some(tradePartner), Some(tradeItem))
                && tradePartner.AsSide() == (if old(player.tradeState) == Acknowledged then old(tradePartner.AsSide())
                                             else Side(Acknowledged, Some(player), None))
                && tradeItems == old(tradeItems)[tradeItem := player]
      ensures View() == if started then Started(old(View()), player, tradePartner, tradeItem) else old(View())
      ensures (!isContainer ==> forall i :: !isHolding(tradeItem, i)) ==>
                OffersApart(old(tradeItems).Keys, isHolding) ==> OffersApart(tradeItems.Keys, isHolding)
    {
      if tradePartner == player || !allowed { return false; }
      var clashes := IsTraded(tradeItem, isContainer, isHolding);
      if clashes { return false; }
      if isContainer && holding + 1 > 100 { return false; }
      StartedSound(View(), player, tradePartner, tradeItem);
      SidesOk(View(), player, tradePartner);
      started := InternalStartTrade(player, tradePartner, tradeItem);
    }

    /** Is the item on offer, or in something that is, or something that is in it? */
    method IsTraded(tradeItem: nat, isContainer: bool, isHolding: (nat, nat) -> bool) returns (clashes: bool)
      ensures clashes <==>
                exists i :: i in tradeItems && Clashes(isHolding, isContainer, tradeItem, i)
    {
      var left := tradeItems.Keys;
      while left != {}
        invariant left <= tradeItems.Keys
        invariant forall i :: i in tradeItems && i !in left ==> !Clashes(isHolding, isContainer, tradeItem, i)
        decreases left
      {
        var item :| item in left;
        if item == tradeItem { return true; }
        if isContainer && isHolding(tradeItem, item) { return true; }
        if isHolding(item, tradeItem) { return true; }
        left := left - {item};
      }
      return false;
    }

    method InternalStartTrade(player: Player, tradePartner: Player, tradeItem: nat) returns (started: bool)
      requires player in players && tradePartner in players && player != tradePartner
      modifies this`tradeItems, player, tradePartner
      ensures View() == Started(old(View()), player, tradePartner, tradeItem)
      ensures started <==>
                && old(player.tradeState == NoTrade
                       || (player.tradeState == Acknowledged && player.tradePartner == tradePartner))
                && old(tradePartner.tradeState == NoTrade || tradePartner.tradePartner == player)
      ensures started == old(MayStart(View(), player, tradePartner))
    {
      if player.tradeState != NoTrade && !(player.tradeState == Acknowledged && player.tradePartner == tradePartner) {
        return false;
      } else if tradePartner.tradeState != NoTrade && tradePartner.tradePartner != player {
        return false;
      }
      Offer(player, tradePartner, tradeItem);
      Ask(player, tradePartner);
      started := true;
    }

    method Offer(player: Player, tradePartner: Player, tradeItem: nat)
      requires player in players && tradePartner in players
      modifies this`tradeItems, player
      ensures var t := old(View());
              View() == Trades(t.sides[player := Side(Initiated, Some(tradePartner), Some(tradeItem))],
                  t.offers[tradeItem := player])
    {
      player.tradePartner := tradePartner;
      player.tradeItem := Some(tradeItem);
      player.tradeState := Initiated;
      tradeItems := tradeItems[tradeItem := player];
    }

    method Ask(player: Player, tradePartner: Player)
      requires player in players && tradePartner in players && player != tradePartner
      modifies tradePartner
      ensures var t := old(View());
              View() == if t.sides[tradePartner].state == NoTrade
                        then t.(sides := t.sides[tradePartner :=
                            t.sides[tradePartner].(state := Acknowledged, partner := Some(player))])
                        else t
    {
      if tradePartner.tradeState == NoTrade {
        tradePartner.tradeState := Acknowledged;
        tradePartner.tradePartner := player;
      }
    }

    /** Takes an item off the list of offers. */
    method Withdraw(item: Option<nat>)
      modifies this`tradeItems
      ensures tradeItems == Minus(old(tradeItems), item)
    {
      if item.Some? {
        tradeItems := tradeItems - {item.value};
      }
    }

    method InternalCloseTrade(player: Player)
      requires player in players
      requires (player.tradePartner != null ==> player.tradePartner in players && player.tradePartner != player)
      modifies this`tradeItems, player, player.tradePartner
      ensures View() == Ended(old(View()), player)
    {
      var tradePartner := player.tradePartner;
      if (tradePartner != null && tradePartner.tradeState == Transferring) || player.tradeState == Transferring {
        return;
      }
      Withdraw(player.tradeItem);
      player.tradeItem := None;
      player.tradeState := NoTrade;
      player.tradePartner := null;
      if tradePartner != null {
        Withdraw(tradePartner.tradeItem);
        tradePartner.tradeItem := None;
        tradePartner.tradeState := NoTrade;
        tradePartner.tradePartner := null;
      }
    }

    /** The transfer: both sides' items are no longer on offer, and the trade is over. Whether the items
        can change hands is the business of the moves that follow, not of the protocol. */
    method Transfer(player: Player, tradePartner: Player) returns (exchange: Exchange)
      requires player in players && tradePartner in players && player != tradePartner
      requires player.tradePartner == tradePartner
      requires player.tradeState == Accepted && tradePartner.tradeState == Accepted
      modifies this`tradeItems, player, tradePartner
      ensures View() == Ended(old(View()), player)
      ensures exchange == old(Exchange(player.tradeItem, tradePartner.tradeItem))
    {
      var playerTradeItem, partnerTradeItem := player.tradeItem, tradePartner.tradeItem;
      player.tradeState := Transferring;
      tradePartner.tradeState := Transferring;
      Withdraw(playerTradeItem);
      Withdraw(partnerTradeItem);
      exchange := Exchange(playerTradeItem, partnerTradeItem);
      player.tradeState, player.tradeItem, player.tradePartner := NoTrade, None, null;
      tradePartner.tradeState, tradePartner.tradeItem, tradePartner.tradePartner := NoTrade, None, null;
    }

    method SetAccepted(player: Player)
      requires player in players
      modifies player`tradeState
      ensures View() == Marked(old(View()), player) && player.tradeState == Accepted
    {
      player.tradeState := Accepted;
    }

    /** Accepts; the second acceptance sets off the transfer if the players can reach each other, and
        ends the trade either way. */
    method PlayerAcceptTrade(player: Player, canThrow: bool) returns (exchange: Option<Exchange>)
      requires player in players && Sound(View())
      modifies this`tradeItems, players
      ensures Sound(View()) && View() == AcceptedBy(old(View()), player)
      ensures exchange.Some? <==>
                && canThrow && old(player.tradeState == Initiated || player.tradeState == Acknowledged)
                && old(player.tradePartner != null && player.tradePartner.tradeState == Accepted)
      ensures exchange.Some? ==> exchange.value == old(Exchange(player.tradeItem, player.tradePartner.tradeItem))
    {
      exchange := None;
      ghost var t := View();
      AcceptedSound(t, player);
      if !(player.tradeState == Acknowledged || player.tradeState == Initiated) { return; }
      var tradePartner := player.tradePartner;
      if tradePartner == null { return; }
      SetAccepted(player);
      if tradePartner.tradeState == Accepted {
        MarkedThenEnded(t, player);
        if !canThrow {
          InternalCloseTrade(player);
          return;
        }
        var given := Transfer(player, tradePartner);
        exchange := Some(given);
      }
    }
  }

  function Marked<P(==)>(t: Trades<P>, p: P): Trades<P>
    requires p in t.sides
  {
    t.(sides := t.sides[p := t.sides[p].(state := Accepted)])
  }

  lemma {:induction false} MarkedThenEnded<P>(t: Trades<P>, p: P)
    requires p in t.sides && t.sides[p].state != Transferring && t.sides[p].partner.Some?
    requires t.sides[p].partner.value in t.sides
    requires t.sides[p].partner.value != p && t.sides[t.sides[p].partner.value].state != Transferring
    ensures Ended(Marked(t, p), p) == Ended(t, p)
  {
    var q, m := t.sides[p].partner.value, Marked(t, p);
    assert m.sides[q] == t.sides[q] && m.sides[p] == t.sides[p].(state := Accepted) && m.offers == t.offers;
    assert m.sides[p := Idle()][q := Idle()] == t.sides[p := Idle()][q := Idle()];
  }

  lemma {:induction false} SidesOk<P>(t: Trades<P>, p: P, q: P)
    requires Sound(t) && p in t.sides && q in t.sides
    ensures SideOk(t, p) && SideOk(t, q)
  {
  }

  /** No item on offer is inside another. */
  ghost predicate OffersApart(offers: set<nat>, isHolding: (nat, nat) -> bool) {
    forall i, j :: i in offers && j in offers && i != j ==> !isHolding(i, j)
  }

  /** The items are the same, or one is in the other. */
  predicate Clashes(isHolding: (nat, nat) -> bool, isContainer: bool, tradeItem: nat, item: nat) {
    item == tradeItem || (isContainer && isHolding(tradeItem, item)) || isHolding(item, tradeItem)
  }
}
