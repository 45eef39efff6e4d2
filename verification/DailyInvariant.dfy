// The daily record layer agrees with the broker's cash over every run
// (src/catalyst/backtest/backtester.py).
module DailyInvariant {
  import opened Common
  import opened Instruments
  import opened Market
  import opened LedgerModel
  import opened LedgerInvariant
  import opened DailyModel
  import opened DailySweep

  /** Constant over every run: the starting cash. */
  function DeskStake(d: Desk): real {
    d.ledger.cash - Sum(Pnl(), d.trades) - Sum(Flow(), d.open)
  }

  ghost predicate DeskInv(d: Desk) {
    && Inv(d.ledger)
    && InStep(d.ledger.book, d.open)
    && d.ledger.partials == []
    && d.unexplained == 0
  }

  // ---- folding partial settlements -----------------------------------------

  /** The open trade after its position's partial settlement was folded in. */
  function FoldedTrade(l: Ledger, today: Date, p: Pos, t: Trade): Trade {
    match Fate(l, today, p)
    case Partial(v) => FoldPartial(t, v)
    case _ => t
  }

  /** r is open with the first k positions' partial settlements folded in. */
  ghost predicate FoldedTo(l: Ledger, today: Date, pending: seq<Pos>, open: seq<Trade>, r: seq<Trade>, k: nat)
    requires |pending| == |open|
  {
    && |r| == |open|
    && (forall i :: 0 <= i < |open| && i < k ==> r[i] == FoldedTrade(l, today, pending[i], open[i]))
    && (forall i :: k <= i < |open| ==> r[i] == open[i])
  }

  lemma FoldedTradeId(l: Ledger, today: Date, p: Pos, t: Trade)
    ensures FoldedTrade(l, today, p, t).id == t.id
  {
    hide Fate;
  }

  lemma FoldStep(l: Ledger, today: Date, pending: seq<Pos>, open: seq<Trade>, r: seq<Trade>, k: nat)
    requires Increasing(pending) && InStep(pending, open) && k < |pending|
    requires FoldedTo(l, today, pending, open, r, k)
    ensures TradeIndex(r, pending[k].id) == k
    ensures FoldedTo(l, today, pending, open, r[k := FoldedTrade(l, today, pending[k], r[k])], k + 1)
  {
    hide FoldedTrade;
    forall i | 0 <= i <= k
      ensures r[i].id == pending[i].id
    {
      assert Paired(pending[i], open[i]);
      FoldedTradeId(l, today, pending[i], open[i]);
    }
  }

  lemma FoldOnTop(open: seq<Trade>, before: seq<(nat, real)>, id: nat, v: real)
    ensures var folded := FoldPartials(open, before);
            var i := TradeIndex(folded, id);
            FoldPartials(open, before + [(id, v)]) ==
            if i == |folded| then folded else folded[i := FoldPartial(folded[i], v)]
  {
    hide FoldPartial, TradeIndex;
    assert (before + [(id, v)])[..|before|] == before;
  }

  lemma PartialEntriesStep(l: Ledger, today: Date, pending: seq<Pos>, n: nat)
    requires n < |pending|
    ensures PartialEntries(l, today, pending[..n + 1]) ==
            PartialEntries(l, today, pending[..n]) + PartialEntry(l, today, pending[n])
  {
    assert pending[..n + 1][..n] == pending[..n];
  }

  lemma {:induction false} FoldPrefix(l: Ledger, today: Date, pending: seq<Pos>, open: seq<Trade>, k: nat)
    requires Increasing(pending) && InStep(pending, open) && k <= |pending| == |open|
    ensures FoldedTo(l, today, pending, open, FoldPartials(open, PartialEntries(l, today, pending[..k])), k)
  {
    if k > 0 {
      FoldPrefix(l, today, pending, open, k - 1);
      FoldPrefixStep(l, today, pending, open, k - 1);
    }
  }

  lemma FoldPrefixStep(l: Ledger, today: Date, pending: seq<Pos>, open: seq<Trade>, n: nat)
    requires Increasing(pending) && InStep(pending, open) && n < |pending| == |open|
    requires FoldedTo(l, today, pending, open, FoldPartials(open, PartialEntries(l, today, pending[..n])), n)
    ensures FoldedTo(l, today, pending, open, FoldPartials(open, PartialEntries(l, today, pending[..n + 1])), n + 1)
  {
    hide Fate, FoldPartial, FoldedTo, InStep, Increasing, PartialEntries, FoldPartials, TradeIndex;
    var before := PartialEntries(l, today, pending[..n]);
    var p := pending[n];
    var folded := FoldPartials(open, before);
    PartialEntriesStep(l, today, pending, n);
    FoldStep(l, today, pending, open, folded, n);
    match Fate(l, today, p)
    case Partial(v) =>
      FoldOnTop(open, before, p.id, v);
    case _ =>
      assert before + [] == before;
      assert folded[n := folded[n]] == folded;
  }

  // ---- the sweep -----------------------------------------------------------

  /** What the sweep does to one trade, seen from the fate of its position. */
  lemma SweepOneByFate(l: Ledger, today: Date, d: Desk, p: Pos, t: Trade)
    requires Paired(p, t) && Shaped(p)
    requires IndexOf(d.ledger.book, t.id) < |d.ledger.book| <==> !Fate(l, today, p).Full?
    requires Fate(l, today, p).Full? ==> Telemetry(d.ledger.settlements, t.id) == Some(Fate(l, today, p).value)
    ensures var r := SweepOne(d, FoldedTrade(l, today, p, t));
            && r.ledger == d.ledger && r.unexplained == d.unexplained
            && (Fate(l, today, p).Full? ==> r.open == d.open)
            && (!Fate(l, today, p).Full? ==>
                  r.open == d.open + [FoldedTrade(l, today, p, t)] && Paired(After(l, today, p), FoldedTrade(l, today, p, t)))
            && Sum(Pnl(), r.trades) + Sum(Flow(), r.open) ==
               Sum(Pnl(), d.trades) + Sum(Flow(), d.open) + Flow()(t) + Paid(l, today)(p)
  {
    var u := FoldedTrade(l, today, p, t);
    match Fate(l, today, p)
    case Full(v) =>
      hide SettlementOf, IndexOf, Telemetry, ToRecord, SettleTrade, Pnl, Flow, Dollars, Multiplier;
      SettledFlow(p, t, v);
      SumAppend(Pnl(), d.trades, [ToRecord(SettleTrade(t, v))]);
      SumOne(Pnl(), ToRecord(SettleTrade(t, v)));
    case Partial(v) =>
      hide SettlementOf, IndexOf, Telemetry, FoldPartial, Flow, Dollars, Multiplier, LiveLegs, MarkValue;
      FoldedFlow(p, t, v);
      FoldedPair(l, today, p, t, v);
      SumAppend(Flow(), d.open, [u]);
      SumOne(Flow(), u);
    case Untouched =>
      hide SettlementOf, IndexOf, Telemetry, Flow;
      SumAppend(Flow(), d.open, [u]);
      SumOne(Flow(), u);
    case Stuck =>
      hide SettlementOf, IndexOf, Telemetry, Flow;
      SumAppend(Flow(), d.open, [u]);
      SumOne(Flow(), u);
  }

  lemma FoldedPair(l: Ledger, today: Date, p: Pos, t: Trade, v: real)
    requires Paired(p, t) && Shaped(p) && Fate(l, today, p) == Partial(v)
    ensures Paired(After(l, today, p), FoldPartial(t, v)) && FoldPartial(t, v).id == t.id
  {
    hide ExpiredLegs, LiveLegs, MarkValue, IntrinsicValue, Weighted, Dollars;
    SettlementShape(l.market, l.spots, today, p);
    LiveLegsWellFormed(p.legs, today);
  }

  /** The situation the sweep loop runs in: a whole book settled into now, its
      partial settlements already folded. */
  ghost predicate Sweeping(l: Ledger, now: Ledger, today: Date, pending: seq<Pos>, open: seq<Trade>, folded: seq<Trade>)
  {
    && Increasing(pending) && InStep(pending, open)
    && (forall i :: 0 <= i < |pending| ==> Shaped(pending[i]))
    && FoldedTo(l, today, pending, open, folded, |pending|)
    && now.book == Survivors(l, today, pending)
    && now.settlements == l.settlements + FullEntries(l, today, pending)
  }

  /** Turn n of the sweep meets what SweepOneByFate needs. */
  lemma SweepTurn(l: Ledger, now: Ledger, today: Date, pending: seq<Pos>, open: seq<Trade>, folded: seq<Trade>, n: nat)
    requires Sweeping(l, now, today, pending, open, folded) && n < |pending|
    ensures |folded| == |open| == |pending|
    ensures var p, t := pending[n], open[n];
            && Paired(p, t) && Shaped(p)
            && folded[n] == FoldedTrade(l, today, p, t)
            && (IndexOf(now.book, t.id) < |now.book| <==> !Fate(l, today, p).Full?)
            && (Fate(l, today, p).Full? ==> Telemetry(now.settlements, t.id) == Some(Fate(l, today, p).value))
  {
    hide Fate, FoldedTrade, Survivors, FullEntries, IndexOf, Telemetry, Shaped;
    var p := pending[n];
    assert Paired(p, open[n]);
    HeldIffNotFull(l, today, pending, n);
    FoundIffHeld(now.book, p.id);
    if Fate(l, today, p).Full? {
      TelemetryOf(l, today, pending, l.settlements, n);
    }
  }

  lemma SweepAllStep(d: Desk, folded: seq<Trade>, n: nat)
    requires n < |folded|
    ensures SweepAll(d, folded[..n + 1]) == SweepOne(SweepAll(d, folded[..n]), folded[n])
  {
    hide SweepOne;
    assert folded[..n + 1][..n] == folded[..n];
  }

  lemma InStepAppend(book: seq<Pos>, open: seq<Trade>, p: Pos, t: Trade)
    requires InStep(book, open) && Paired(p, t)
    ensures InStep(book + [p], open + [t])
  {
    hide Paired;
  }

  /** The sweep loop over the first k trades: everything still open mirrors a
      survivor, and records plus open flows moved by exactly what expiry paid. */
  ghost predicate Swept(l: Ledger, today: Date, pending: seq<Pos>, open: seq<Trade>, d: Desk, r: Desk, k: nat)
    requires k <= |pending| == |open|
  {
    && r.ledger == d.ledger && r.unexplained == d.unexplained
    && InStep(Survivors(l, today, pending[..k]), r.open)
    && Sum(Pnl(), r.trades) + Sum(Flow(), r.open) ==
       Sum(Pnl(), d.trades) + Sum(Flow(), open[..k]) + Sum(Paid(l, today), pending[..k])
  }

  lemma SweptStep(l: Ledger, now: Ledger, today: Date, pending: seq<Pos>, open: seq<Trade>,
                  folded: seq<Trade>, d: Desk, r: Desk, n: nat)
    requires Sweeping(l, now, today, pending, open, folded)
    requires n < |pending| == |folded| == |open|
    requires d.ledger == now.(partials := [])
    requires Swept(l, today, pending, open, d, r, n)
    ensures Swept(l, today, pending, open, d, SweepOne(r, folded[n]), n + 1)
  {
    hide Sweeping, Fate, FoldedTrade, SweepOne, Paired, Shaped, Paid, Flow, Pnl, After, Survivors, Telemetry, InStep, Sum, IndexOf;
    SweepTurn(l, now, today, pending, open, folded, n);
    SweepOneByFate(l, today, r, pending[n], open[n]);
    SurvivorsStep(l, today, pending, n + 1);
    SumPrefix(Flow(), open, n);
    SumPrefix(Paid(l, today), pending, n);
    if !Fate(l, today, pending[n]).Full? {
      InStepAppend(Survivors(l, today, pending[..n]), r.open, After(l, today, pending[n]), FoldedTrade(l, today, pending[n], open[n]));
    } else {
      assert Survivors(l, today, pending[..n]) + [] == Survivors(l, today, pending[..n]);
    }
  }

  lemma {:induction false} SweepPrefix(l: Ledger, now: Ledger, today: Date, pending: seq<Pos>, open: seq<Trade>,
                                       folded: seq<Trade>, d: Desk, k: nat)
    requires Sweeping(l, now, today, pending, open, folded)
    requires k <= |pending| == |folded| == |open|
    requires d.ledger == now.(partials := []) && d.open == []
    ensures Swept(l, today, pending, open, d, SweepAll(d, folded[..k]), k)
  {
    if k > 0 {
      hide Sweeping, Swept;
      SweepPrefix(l, now, today, pending, open, folded, d, k - 1);
      SweptStep(l, now, today, pending, open, folded, d, SweepAll(d, folded[..k - 1]), k - 1);
      SweepAllStep(d, folded, k - 1);
    }
  }

  lemma SurvivorsStep(l: Ledger, today: Date, pending: seq<Pos>, k: nat)
    requires 0 < k <= |pending|
    ensures var p := pending[k - 1];
            Survivors(l, today, pending[..k]) ==
            Survivors(l, today, pending[..k - 1]) + (if Fate(l, today, p).Full? then [] else [After(l, today, p)])
  {
    hide Fate, After;
    assert pending[..k][..k - 1] == pending[..k - 1];
  }

  lemma FoundIffHeld(book: seq<Pos>, id: nat)
    ensures IndexOf(book, id) < |book| <==> Held(book, id)
  {
    if Held(book, id) {
      var i :| 0 <= i < |book| && book[i].id == id;
    }
    if IndexOf(book, id) < |book| {
      assert book[IndexOf(book, id)].id == id;
    }
  }

  /** One market step: the broker settles, the sweep books exactly that cash, every
      open trade still mirrors its position, and no record lacks telemetry. */
  lemma AdvanceKeepsDesk(d: Desk, chains: map<string, Chain>, today: Date)
    requires DeskInv(d)
    ensures var r := NextMarket(d, chains, today);
            DeskInv(r) && DeskStake(r) == DeskStake(d)
  {
    hide Inv, Paid, SettleAll, Refresh, Flow, Pnl, Survivors, FullEntries, PartialEntries, InStep, Shaped, FoldedTo;
    var l := Refresh(d.ledger, chains, today, None, None);
    RefreshPaired(d, chains, today);
    var empty := l.(book := []);
    var now := UpdateMarket(d.ledger, chains, today, None, None);
    AdvanceKeeps(d.ledger, chains, today, None, None);
    SettleAllShape(empty, l.book, today);
    assert l.partials == [] && l.cash == d.ledger.cash;
    InStepSize(l.book, d.open);
    FoldPrefix(empty, today, l.book, d.open, |l.book|);
    assert l.book[..|l.book|] == l.book && [] + Survivors(empty, today, l.book) == Survivors(empty, today, l.book);
    assert [] + PartialEntries(empty, today, l.book) == PartialEntries(empty, today, l.book);
    var folded := FoldPartials(d.open, now.partials);
    FoldedSize(empty, today, l.book, d.open, folded);
    var e := d.(ledger := now.(partials := []), open := []);
    SweepPrefix(empty, now, today, l.book, d.open, folded, e, |l.book|);
    assert folded[..|l.book|] == folded && d.open[..|l.book|] == d.open;
    assert Sum(Flow(), e.open) == 0.0;
    InvIgnoresPartials(now);
  }

  lemma FoldedSize(l: Ledger, today: Date, pending: seq<Pos>, open: seq<Trade>, r: seq<Trade>)
    requires |pending| == |open| && FoldedTo(l, today, pending, open, r, |pending|)
    ensures |r| == |open|
  {
  }

  lemma InStepSize(book: seq<Pos>, open: seq<Trade>)
    requires InStep(book, open)
    ensures |book| == |open|
  {
  }

  lemma InvIgnoresPartials(l: Ledger)
    requires Inv(l)
    ensures Inv(l.(partials := []))
  {
    hide Sound;
  }

  lemma RefreshPaired(d: Desk, chains: map<string, Chain>, today: Date)
    requires DeskInv(d)
    ensures var l := Refresh(d.ledger, chains, today, None, None);
            && Increasing(l.book) && InStep(l.book, d.open)
            && l.partials == d.ledger.partials && l.cash == d.ledger.cash
            && forall i :: 0 <= i < |l.book| ==> Shaped(l.book[i])
  {
    hide MarkValue, RememberSpots, CountStale;
    var l := Refresh(d.ledger, chains, today, None, None);
    forall i | 0 <= i < |l.book|
      ensures Paired(l.book[i], d.open[i]) && Shaped(l.book[i]) && l.book[i].id == d.ledger.book[i].id
    {
      assert Sound(d.ledger.market, d.ledger.reserved, d.ledger.book[i]);
    }
  }
}
