// What expiry pays, leg by leg (src/catalyst/brokers/simulated.py:151-225).
module Settlement {
  import opened Common
  import opened Instruments
  import opened Market
  import opened LedgerModel

  /** An option leg whose expiry day has passed. */
  predicate Due(leg: Leg, today: Date) {
    match leg.key
    case OptionKey(_, expiry, _, _) => expiry < today
    case EquityKey(_) => false
  }

  /** What an option leg pays at a spot: a bought call the rise above the strike, a bought put
      the fall below it, a sold one the same amount the other way. */
  function Payoff(leg: Leg, spot: real): real
    requires leg.key.OptionKey?
  {
    var strike := leg.key.strike;
    var perContract :=
      if leg.key.right == Call then (if spot > strike then spot - strike else 0.0)
      else (if spot < strike then strike - spot else 0.0);
    var contracts := leg.qty as real;
    if leg.side == Buy then perContract * contracts else -(perContract * contracts)
  }

  /** The spot a leg settles at: the one remembered from its expiry day when there is one,
      otherwise the current one; zero and NaN are no spots. */
  function SettlingSpot(m: Snapshot, spots: SpotBook, leg: Leg): Option<real>
    requires leg.key.OptionKey?
  {
    var u, expiry := leg.key.underlying, leg.key.expiry;
    if u in spots && expiry in spots[u] && spots[u][expiry] > 0.0 then Some(spots[u][expiry])
    else if u in m.chains && m.chains[u].spot.Fin? && m.chains[u].spot.v > 0.0 then Some(m.chains[u].spot.v)
    else None
  }

  /** What each leg of a structure pays today: nothing unless it is due. */
  function PaidBy(m: Snapshot, spots: SpotBook, today: Date): Leg -> real {
    (leg: Leg) =>
      if Due(leg, today) && SettlingSpot(m, spots, leg).Some? then Payoff(leg, SettlingSpot(m, spots, leg).value) else 0.0
  }

  ghost predicate AllPayable(m: Snapshot, spots: SpotBook, legs: seq<Leg>, today: Date) {
    forall i :: 0 <= i < |legs| && Due(legs[i], today) ==> SettlingSpot(m, spots, legs[i]).Some?
  }

  lemma LegPays(m: Snapshot, spots: SpotBook, leg: Leg, today: Date)
    requires Due(leg, today)
    ensures leg.Expired(today)
    ensures LegIntrinsic(m, spots, leg) ==
            if SettlingSpot(m, spots, leg).Some? then Some(Payoff(leg, SettlingSpot(m, spots, leg).value)) else None
  {
    hide Payout, Payoff;
    if SettlingSpot(m, spots, leg).Some? {
      SignedPayoff(leg, SettlingSpot(m, spots, leg).value);
    }
  }

  lemma SignedPayoff(leg: Leg, spot: real)
    requires leg.key.OptionKey?
    ensures Payout(leg, spot) == Payoff(leg, spot)
  {
    var x, q := Intrinsic(leg.key, spot), leg.qty as real;
    match leg.side
    case Buy => assert x * (1.0 * q) == x * q;
    case Sell => assert x * (-1.0 * q) == -(x * q);
  }

  /** Nothing but the due legs pays. */
  lemma {:induction false} ExpiredPay(m: Snapshot, spots: SpotBook, legs: seq<Leg>, today: Date)
    ensures AllSettlable(m, spots, ExpiredLegs(legs, today)) <==> AllPayable(m, spots, legs, today)
    ensures AllPayable(m, spots, legs, today) ==>
              Sum(IntrinsicTerm(m, spots), ExpiredLegs(legs, today)) == Sum(PaidBy(m, spots, today), legs)
  {
    if legs != [] {
      hide LegIntrinsic, SettlingSpot, Payoff;
      var n := |legs| - 1;
      var last, rest := legs[n], ExpiredLegs(legs[..n], today);
      assert legs == legs[..n] + [last];
      ExpiredPay(m, spots, legs[..n], today);
      PayableOnTop(m, spots, legs, today);
      if Due(last, today) {
        LegPays(m, spots, last, today);
        assert (rest + [last])[..|rest|] == rest;
        SettlableOnTop(m, spots, rest, last);
      }
    }
  }

  lemma PayableOnTop(m: Snapshot, spots: SpotBook, legs: seq<Leg>, today: Date)
    requires legs != []
    ensures var n := |legs| - 1;
            AllPayable(m, spots, legs, today) <==>
            AllPayable(m, spots, legs[..n], today) && (Due(legs[n], today) ==> SettlingSpot(m, spots, legs[n]).Some?)
  {
    hide SettlingSpot, Due;
    var n := |legs| - 1;
    assert forall i :: 0 <= i < n ==> legs[..n][i] == legs[i];
  }

  lemma SettlableOnTop(m: Snapshot, spots: SpotBook, rest: seq<Leg>, last: Leg)
    ensures AllSettlable(m, spots, rest + [last]) <==> AllSettlable(m, spots, rest) && LegIntrinsic(m, spots, last).Some?
  {
    hide LegIntrinsic;
    var all := rest + [last];
    assert all[|rest|] == last && forall i :: 0 <= i < |rest| ==> all[i] == rest[i];
  }

  /** How many legs are due decides what happens. */
  lemma DueIsExpired(legs: seq<Leg>, today: Date)
    ensures ExpiredLegs(legs, today) == [] <==> forall i :: 0 <= i < |legs| ==> !Due(legs[i], today)
    ensures |ExpiredLegs(legs, today)| == |legs| <==> forall i :: 0 <= i < |legs| ==> Due(legs[i], today)
  {
    var expired := ExpiredLegs(legs, today);
    assert forall leg: Leg :: leg.Expired(today) <==> Due(leg, today);
    if expired != [] {
      assert expired[0] in legs;
    } else {
      forall i | 0 <= i < |legs|
        ensures !Due(legs[i], today)
      {
        assert legs[i] in legs;
      }
    }
  }

  /** What stays of a part-expired structure: its legs that are not due. */
  lemma {:induction false} LiveAreNotDue(f: Leg -> real, legs: seq<Leg>, today: Date)
    ensures Sum(f, LiveLegs(legs, today)) == Sum(f, legs) - Sum(f, ExpiredLegs(legs, today))
    ensures |LiveLegs(legs, today)| + |ExpiredLegs(legs, today)| == |legs|
    ensures forall leg :: leg in LiveLegs(legs, today) <==> leg in legs && !Due(leg, today)
  {
    assert forall leg: Leg :: leg.Expired(today) <==> Due(leg, today);
    if legs != [] {
      hide Due, Leg.Expired;
      var n := |legs| - 1;
      LiveAreNotDue(f, legs[..n], today);
      LegSorted(legs, today);
      SumLast(f, LiveLegs(legs[..n], today), legs[n]);
      SumLast(f, ExpiredLegs(legs[..n], today), legs[n]);
      hide LiveLegs, ExpiredLegs;
    }
  }

  lemma LegSorted(legs: seq<Leg>, today: Date)
    requires legs != []
    ensures var n := |legs| - 1;
            && LiveLegs(legs, today) == LiveLegs(legs[..n], today) + (if legs[n].Expired(today) then [] else [legs[n]])
            && ExpiredLegs(legs, today) == ExpiredLegs(legs[..n], today) + (if legs[n].Expired(today) then [legs[n]] else [])
  {
  }

  lemma SumLast(f: Leg -> real, legs: seq<Leg>, last: Leg)
    ensures Sum(f, legs + [last]) == Sum(f, legs) + f(last) && Sum(f, legs + []) == Sum(f, legs)
  {
    assert (legs + [last])[..|legs|] == legs && legs + [] == legs;
  }

  /** Expiry of one position, from its legs and the spots alone. Without a due leg nothing
      moves. When every leg is due the position leaves, and is paid the signed sum of its
      payoffs for every unit, or its last mark when some leg has no spot. When only some are
      due, those are paid the same way and the others stay, and nothing moves while one of
      the due legs has no spot. */
  lemma ExpiryPays(l: Ledger, p: Pos, today: Date)
    requires p.legs != []
    ensures var r := SettleOne(l, p, today);
            var some := exists i :: 0 <= i < |p.legs| && Due(p.legs[i], today);
            var every := forall i :: 0 <= i < |p.legs| ==> Due(p.legs[i], today);
            var payable := AllPayable(l.market, l.spots, p.legs, today);
            var paid := Sum(PaidBy(l.market, l.spots, today), p.legs);
            if every then
              var v := if payable then paid else p.value;
              && r.cash == l.cash + Dollars(v, p.qty, Multiplier(p.legs))
              && r.book == l.book && r.reserved == l.reserved - {p.id}
              && r.settlements == l.settlements + [(p.id, v, Dollars(v - p.entry, p.qty, Multiplier(p.legs)))]
              && r.partials == l.partials
            else if some && payable then
              && r.cash == l.cash + Dollars(paid, p.qty, Multiplier(p.legs))
              && |r.book| == |l.book| + 1 && r.book[..|l.book|] == l.book
              && StaysAs(r.book[|l.book|], p, Dollars(paid, p.qty, Multiplier(p.legs)), today)
              && r.reserved == l.reserved && r.settlements == l.settlements && r.partials == l.partials + [(p.id, paid)]
            else r == l.(book := l.book + [p])
  {
    hide Dollars, Due, PaidBy, IntrinsicTerm, AllSettlable, AllPayable, ExpiredLegs, LiveLegs, Mark, Multiplier;
    ExpiredPay(l.market, l.spots, p.legs, today);
    DueIsExpired(p.legs, today);
    SurvivorStays(l.market, p, today, Dollars(Sum(PaidBy(l.market, l.spots, today), p.legs), p.qty, Multiplier(p.legs)));
    hide Survivor, StaysAs;
  }

  /** q is p with its due legs gone and paid for. */
  ghost predicate StaysAs(q: Pos, p: Pos, paid: real, today: Date) {
    && q.id == p.id && q.qty == p.qty && q.entry == p.entry && q.realized == p.realized + paid
    && q.maxLoss == p.maxLoss && q.engine == p.engine && q.tp1Done == p.tp1Done
    && q.legs == LiveLegs(p.legs, today)
  }

  lemma SurvivorStays(m: Snapshot, p: Pos, today: Date, paid: real)
    ensures StaysAs(Survivor(m, p, today, paid), p, paid, today)
  {
    hide LiveLegs, MarkValue;
  }

  /** Nothing due is left behind: some leg of p is not due, and a due leg can only wait for a
      spot. */
  ghost predicate Settled(m: Snapshot, spots: SpotBook, p: Pos, today: Date) {
    && (exists i :: 0 <= i < |p.legs| && !Due(p.legs[i], today))
    && ((exists i :: 0 <= i < |p.legs| && Due(p.legs[i], today)) ==> !AllPayable(m, spots, p.legs, today))
  }

  ghost predicate SomeDue(legs: seq<Leg>, today: Date) {
    exists i :: 0 <= i < |legs| && Due(legs[i], today)
  }

  ghost predicate AllDue(legs: seq<Leg>, today: Date) {
    forall i :: 0 <= i < |legs| ==> Due(legs[i], today)
  }

  /** What settling a position does to the book. */
  lemma BookAfterExpiry(l: Ledger, p: Pos, today: Date)
    requires p.legs != []
    ensures var r := SettleOne(l, p, today);
            if AllDue(p.legs, today) then r.book == l.book
            else
              && |r.book| == |l.book| + 1 && r.book[..|l.book|] == l.book
              && if SomeDue(p.legs, today) && AllPayable(l.market, l.spots, p.legs, today)
                 then r.book[|l.book|].legs == LiveLegs(p.legs, today)
                 else r.book[|l.book|] == p
  {
    ExpiryPays(l, p, today);
    hide SettleOne, Due, AllPayable, PaidBy, Dollars, Multiplier, LiveLegs, Sum;
  }

  lemma SettledOrGone(l: Ledger, p: Pos, today: Date)
    requires p.legs != []
    ensures var r := SettleOne(l, p, today);
            && r.market == l.market && r.spots == l.spots
            && (forall i :: |l.book| <= i < |r.book| ==> Settled(l.market, l.spots, r.book[i], today))
            && |l.book| <= |r.book| && r.book[..|l.book|] == l.book
  {
    BookAfterExpiry(l, p, today);
    KeptMarket(l, p, today);
    hide SettleOne, Due, AllPayable, LiveLegs;
    if !AllDue(p.legs, today) && SomeDue(p.legs, today) && AllPayable(l.market, l.spots, p.legs, today) {
      LiveSettled(l.market, l.spots, p, SettleOne(l, p, today).book[|l.book|], today);
    }
  }

  lemma KeptMarket(l: Ledger, p: Pos, today: Date)
    ensures var r := SettleOne(l, p, today); r.market == l.market && r.spots == l.spots && r.today == l.today
  {
    hide SettlementOf, Survivor, Dollars;
  }

  lemma LiveSettled(m: Snapshot, spots: SpotBook, p: Pos, q: Pos, today: Date)
    requires q.legs == LiveLegs(p.legs, today) && exists i :: 0 <= i < |p.legs| && !Due(p.legs[i], today)
    ensures Settled(m, spots, q, today)
  {
    LiveAreNotDue(PaidBy(m, spots, today), p.legs, today);
    hide Due, LiveLegs, PaidBy, AllPayable;
    var i :| 0 <= i < |p.legs| && !Due(p.legs[i], today);
    assert p.legs[i] in LiveLegs(p.legs, today);
    var j :| 0 <= j < |q.legs| && q.legs[j] == p.legs[i];
    assert forall k :: 0 <= k < |q.legs| ==> q.legs[k] in LiveLegs(p.legs, today);
  }

  lemma {:induction false} AllSettledOrGone(l: Ledger, pending: seq<Pos>, today: Date)
    requires l.book == [] && forall i :: 0 <= i < |pending| ==> pending[i].legs != []
    ensures var r := SettleAll(l, pending, today);
            && r.market == l.market && r.spots == l.spots && r.today == l.today
            && forall i :: 0 <= i < |r.book| ==> Settled(l.market, l.spots, r.book[i], today)
    decreases |pending|
  {
    if pending != [] {
      hide SettleOne, Settled;
      var n := |pending| - 1;
      var before := SettleAll(l, pending[..n], today);
      AllSettledOrGone(l, pending[..n], today);
      SettledOrGone(before, pending[n], today);
      KeptMarket(before, pending[n], today);
      var r := SettleAll(l, pending, today);
      forall i | 0 <= i < |r.book|
        ensures Settled(l.market, l.spots, r.book[i], today)
      {
        if i < |before.book| {
          assert r.book[i] == r.book[..|before.book|][i];
        }
      }
    }
  }

  /** After a market update no position is left with nothing but due legs, nor with a due leg
      while all its due legs have a spot. */
  lemma NothingDueStays(l: Ledger, chains: map<string, Chain>, today: Date,
                        equityQuotes: Option<map<string, Quote>>, fillQuotes: Option<map<string, Quote>>)
    requires forall i :: 0 <= i < |l.book| ==> l.book[i].legs != []
    ensures var r := UpdateMarket(l, chains, today, equityQuotes, fillQuotes);
            && r.today == Some(today)
            && forall i :: 0 <= i < |r.book| ==> Settled(r.market, r.spots, r.book[i], today)
  {
    hide Settled, SettleAll, RememberSpots, CountStale, MarkValue;
    var refreshed := Refresh(l, chains, today, equityQuotes, fillQuotes);
    AllSettledOrGone(refreshed.(book := []), refreshed.book, today);
  }

  /** The books a market update leaves: the new chains; the mark and fill books that came with
      it, or else the ones before; and today's spots. */
  lemma BooksAfterUpdate(l: Ledger, chains: map<string, Chain>, today: Date,
                         equityQuotes: Option<map<string, Quote>>, fillQuotes: Option<map<string, Quote>>)
    requires forall i :: 0 <= i < |l.book| ==> l.book[i].legs != []
    ensures var r := UpdateMarket(l, chains, today, equityQuotes, fillQuotes);
            && r.market.chains == chains
            && (equityQuotes.Some? ==> r.market.marks == equityQuotes.value)
            && (equityQuotes.None? ==> r.market.marks == l.market.marks)
            && (fillQuotes.Some? ==> r.market.fills == fillQuotes)
            && (fillQuotes.None? ==> r.market.fills == l.market.fills)
            && r.spots == RememberSpots(l.spots, chains, today)
  {
    hide Settled, SettleAll, RememberSpots, CountStale, MarkValue;
    var refreshed := Refresh(l, chains, today, equityQuotes, fillQuotes);
    AllSettledOrGone(refreshed.(book := []), refreshed.book, today);
  }
}
