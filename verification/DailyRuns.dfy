// Whole daily runs: entries, scale-outs, partial expiries, settlements and open
// positions at the end, in any mix (src/catalyst/backtest/backtester.py:150-184).
module DailyRuns {
  import opened Common
  import opened Instruments
  import opened Ratios
  import opened Market
  import opened LedgerModel
  import opened LedgerInvariant
  import opened DailyModel
  import opened DailySweep
  import opened DailyInvariant

  // ---- what a filled order did to the ledger --------------------------------

  /** A filled close took units of the named position at a price worth its premium. */
  lemma FilledClose(c: Setup, l: Ledger, o: Order)
    requires Inv(l) && WellFormed(o.legs) && o.intent.Close?
    requires Place(c, l, o).1.Filled?
    ensures o.positionId.Some?
    ensures var (r, out) := Place(c, l, o);
            var i := IndexOf(l.book, o.positionId.value);
            && i < |l.book|
            && 1 <= out.units <= l.book[i].qty
            && r.book == (if out.units == l.book[i].qty then Remove(l.book, i)
                          else l.book[i := AfterClose(l.book[i], out.price, out.units)])
            && r.cash == l.cash + Dollars(out.price, out.units, l.book[i].Mult()) - out.commission
            && r.partials == l.partials
  {
    hide Sound, UnitsOf, Mirrors, Dollars, UnitPrice, AllQuotable, Premium, Commission, Release;
    var i := IndexOf(l.book, o.positionId.value);
    var p := l.book[i];
    var units := UnitsOf(o.legs);
    SoundParts(l.market, l.reserved, p);
    UnitsPositive(o.legs);
    MirrorsShareMultiplier(o.legs, p.legs, units);
    UnitPriceTimes(Premium(l.market, c.model, o.legs), units, p.Mult());
  }

  /** A filled open appended one position bought at the reported price. */
  lemma FilledOpen(c: Setup, l: Ledger, o: Order)
    requires Inv(l) && WellFormed(o.legs) && o.intent.Open?
    requires Place(c, l, o).1.Filled?
    ensures var (r, out) := Place(c, l, o);
            && out.units >= 1
            && |r.book| == |l.book| + 1
            && r.book[..|l.book|] == l.book
            && var q := r.book[|l.book|];
            && q.id == out.id && q.qty == out.units && q.entry == out.price && q.Mult() == Multiplier(o.legs)
            && r.cash == l.cash - Dollars(out.price, out.units, Multiplier(o.legs)) - out.commission
            && r.partials == l.partials
  {
    hide Sound, UnitsOf, Dollars, UnitPrice, AllQuotable, Premium, Commission, Total, NeedsReserve, MarkValue, WellFormed, Reduced;
    UnitsPositive(o.legs);
    ReducedIsExact(o.legs);
    var premium := Premium(l.market, c.model, o.legs);
    UnitPriceTimes(-premium, UnitsOf(o.legs), Multiplier(o.legs));
  }

  // ---- exits ---------------------------------------------------------------

  lemma BookedExit(p: Pos, t: Trade, units: nat, price: real, commission: real)
    requires Paired(p, t) && 1 <= units <= p.qty
    ensures var u := BookExit(t, units, price, commission);
            && Flow()(u) == Flow()(t) + Dollars(price, units, p.Mult()) - commission
            && u.id == t.id
            && (u.qtyClosed >= u.maxQty <==> units == p.qty)
            && (units == p.qty ==> Pnl()(ToRecord(u)) == Flow()(u))
            && (units < p.qty ==> Paired(AfterClose(p, price, units), u))
  {
    hide Points, Dollars, Weighted, Multiplier;
    PointsAdd(t.exitCash, price, units, t.mult);
    var u := BookExit(t, units, price, commission);
    if units == p.qty {
      RecordedFlow(u);
    }
  }

  lemma IndicesAgree(book: seq<Pos>, open: seq<Trade>, id: nat)
    requires InStep(book, open)
    ensures IndexOf(book, id) == TradeIndex(open, id)
  {
    var i, j := IndexOf(book, id), TradeIndex(open, id);
    assert forall k :: 0 <= k < |book| ==> book[k].id == open[k].id by {
      forall k | 0 <= k < |book|
        ensures book[k].id == open[k].id
      {
        assert Paired(book[k], open[k]);
      }
    }
  }

  lemma InStepRemove(book: seq<Pos>, open: seq<Trade>, i: nat)
    requires InStep(book, open) && i < |book|
    ensures InStep(Remove(book, i), Remove(open, i))
  {
    hide Paired;
  }

  lemma InStepUpdate(book: seq<Pos>, open: seq<Trade>, i: nat, p: Pos, t: Trade)
    requires InStep(book, open) && i < |book| && Paired(p, t)
    ensures InStep(book[i := p], open[i := t])
  {
    hide Paired;
  }

  /** Booking a filled close keeps both books in step and the stake unchanged. */
  lemma RecordedClose(d: Desk, l: Ledger, i: nat, units: nat, price: real, commission: real)
    requires InStep(d.ledger.book, d.open) && i < |d.ledger.book| && 1 <= units <= d.ledger.book[i].qty
    requires i == IndexOf(d.ledger.book, d.ledger.book[i].id)
    requires l.book == (if units == d.ledger.book[i].qty then Remove(d.ledger.book, i)
                        else d.ledger.book[i := AfterClose(d.ledger.book[i], price, units)])
    requires l.cash == d.ledger.cash + Dollars(price, units, d.ledger.book[i].Mult()) - commission
    ensures var r := RecordExit(d.(ledger := l), units, price, commission, d.ledger.book[i].id);
            && r.ledger == l && r.unexplained == d.unexplained
            && InStep(l.book, r.open)
            && DeskStake(r) == DeskStake(d)
  {
    hide Paired, BookExit, Flow, Pnl, ToRecord, AfterClose, Dollars, Multiplier, InStep;
    var p := d.ledger.book[i];
    IndicesAgree(d.ledger.book, d.open, p.id);
    InStepSize(d.ledger.book, d.open);
    PairAt(d.ledger.book, d.open, i);
    var t := d.open[i];
    var u := BookExit(t, units, price, commission);
    BookedExit(p, t, units, price, commission);
    if units == p.qty {
      SumRemove(Flow(), d.open, i);
      SumAppend(Pnl(), d.trades, [ToRecord(u)]);
      SumOne(Pnl(), ToRecord(u));
      InStepRemove(d.ledger.book, d.open, i);
    } else {
      SumUpdate(Flow(), d.open, i, u);
      InStepUpdate(d.ledger.book, d.open, i, AfterClose(p, price, units), u);
    }
  }

  lemma PairAt(book: seq<Pos>, open: seq<Trade>, i: nat)
    requires InStep(book, open) && i < |book|
    ensures i < |open| && Paired(book[i], open[i])
  {
  }

  lemma FlagKeepsDesk(d: Desk, id: nat)
    requires DeskInv(d)
    ensures var r := d.(ledger := FlagDone(d.ledger, id));
            DeskInv(r) && DeskStake(r) == DeskStake(d)
  {
    hide Inv, Flow, Pnl, Multiplier;
    FlagKeeps(d.ledger, id);
    var i := IndexOf(d.ledger.book, id);
    if i < |d.ledger.book| {
      assert Paired(d.ledger.book[i], d.open[i]);
      InStepUpdate(d.ledger.book, d.open, i, d.ledger.book[i].(tp1Done := true), d.open[i]);
      assert d.open[i := d.open[i]] == d.open;
    }
  }

  lemma ExitKeepsDesk(c: Setup, d: Desk, id: nat, action: Action)
    requires DeskInv(d) && action.fraction >= 0.0
    ensures var r := ExitOne(c, d, id, action);
            DeskInv(r) && DeskStake(r) == DeskStake(d)
  {
    hide Inv, Place, ClosingUnits, RecordExit, Flow, Pnl, InStep, FlagDone, Mirror, AfterClose, Dollars, Multiplier;
    var i := IndexOf(d.ledger.book, id);
    if i < |d.ledger.book| {
      var p := d.ledger.book[i];
      var units := ClosingUnits(p.qty, action.fraction);
      if units > 0 {
        InvAt(d.ledger, i);
        MirrorWellFormed(p.legs, units);
        var o := CloseOrder(p, units);
        PlaceKeeps(c, d.ledger, o);
        var (l, out) := Place(c, d.ledger, o);
        if out.Filled? {
          FilledClose(c, d.ledger, o);
          RecordedClose(d, l, i, out.units, out.price, out.commission);
          var recorded := RecordExit(d.(ledger := l), out.units, out.price, out.commission, id);
          FlagKeepsDesk(recorded, id);
        } else {
          RejectedKeepsDesk(c, d, o);
        }
      }
    }
  }

  lemma InvAt(l: Ledger, i: nat)
    requires Inv(l) && i < |l.book|
    ensures l.book[i].qty >= 1 && WellFormed(l.book[i].legs)
  {
    assert Sound(l.market, l.reserved, l.book[i]);
  }

  lemma RejectedKeepsDesk(c: Setup, d: Desk, o: Order)
    requires DeskInv(d) && WellFormed(o.legs) && Place(c, d.ledger, o).1.Rejected?
    ensures var r := d.(ledger := Place(c, d.ledger, o).0);
            DeskInv(r) && DeskStake(r) == DeskStake(d)
  {
    hide Inv, InStep, UnitsOf, Mirrors, WellFormed, AllQuotable, Premium, Commission, UnitPrice, CloseUnits, Opened, NeedsReserve, Total;
    PlaceKeeps(c, d.ledger, o);
  }

  // ---- entries -------------------------------------------------------------

  lemma StartedFlow(id: nat, price: real, units: nat, mult: real, commission: real)
    ensures Flow()(Trade(id, price, units, mult, commission, 0.0, 0)) == -Dollars(price, units, mult) - commission
  {
    hide Dollars;
  }

  lemma EnterKeepsDesk(c: Setup, d: Desk, p: Proposal, units: int)
    requires DeskInv(d) && WellFormed(p.legs)
    ensures var r := Enter(c, d, p, units);
            DeskInv(r) && DeskStake(r) == DeskStake(d)
  {
    hide Inv, Place, Flow, Pnl, Scaled, Dollars, WellFormed;
    if units > 0 {
      MirrorWellFormed(p.legs, units);
      var o := OpenOrder(p, units);
      PlaceKeeps(c, d.ledger, o);
      var (l, out) := Place(c, d.ledger, o);
      if out.Filled? {
        FilledOpen(c, d.ledger, o);
        var q := l.book[|d.ledger.book|];
        var t := Trade(out.id, out.price, out.units, Multiplier(p.legs), out.commission, 0.0, 0);
        StartedFlow(out.id, out.price, out.units, Multiplier(p.legs), out.commission);
        SumAppend(Flow(), d.open, [t]);
        SumOne(Flow(), t);
        assert l.book == d.ledger.book + [q];
        InStepAppend(d.ledger.book, d.open, q, t);
      } else {
        RejectedKeepsDesk(c, d, o);
      }
    }
  }

  // ---- runs ----------------------------------------------------------------

  lemma {:induction false} ExitAllKeeps(c: Setup, d: Desk, exits: seq<(nat, Action)>)
    requires DeskInv(d) && forall i :: 0 <= i < |exits| ==> exits[i].1.fraction >= 0.0
    ensures DeskInv(ExitAll(c, d, exits)) && DeskStake(ExitAll(c, d, exits)) == DeskStake(d)
  {
    if exits != [] {
      hide DeskStake, ExitOne, InStep, Inv;
      var n := |exits| - 1;
      ExitAllKeeps(c, d, exits[..n]);
      ExitKeepsDesk(c, ExitAll(c, d, exits[..n]), exits[n].0, exits[n].1);
    }
  }

  lemma {:induction false} EnterAllKeeps(c: Setup, d: Desk, entries: seq<(Proposal, int)>)
    requires DeskInv(d) && forall i :: 0 <= i < |entries| ==> WellFormed(entries[i].0.legs)
    ensures DeskInv(EnterAll(c, d, entries)) && DeskStake(EnterAll(c, d, entries)) == DeskStake(d)
  {
    if entries != [] {
      hide DeskStake, Enter, InStep, Inv, WellFormed;
      var n := |entries| - 1;
      EnterAllKeeps(c, d, entries[..n]);
      EnterKeepsDesk(c, EnterAll(c, d, entries[..n]), entries[n].0, entries[n].1);
    }
  }

  /** One session: market and sweep, then exits, then entries. */
  ghost function RunSession(c: Setup, d: Desk, s: Session): (r: Desk)
    requires DeskInv(d) && ValidSession(s)
  {
    AdvanceKeepsDesk(d, s.chains, s.today);
    var e := NextMarket(d, s.chains, s.today);
    EnterAll(c, ExitAll(c, e, ExitList(s.rule, e.ledger.book)), s.entries)
  }

  lemma SessionKeeps(c: Setup, d: Desk, s: Session)
    requires DeskInv(d) && ValidSession(s)
    ensures DeskInv(RunSession(c, d, s)) && DeskStake(RunSession(c, d, s)) == DeskStake(d)
  {
    hide DeskStake, NextMarket, ExitAll, EnterAll, InStep, Inv, WellFormed, ExitList;
    AdvanceKeepsDesk(d, s.chains, s.today);
    var e := NextMarket(d, s.chains, s.today);
    var exits := ExitList(s.rule, e.ledger.book);
    ExitAllKeeps(c, e, exits);
    EnterAllKeeps(c, ExitAll(c, e, exits), s.entries);
  }

  function OpeningDesk(start: real): Desk {
    Desk(Opening(start), [], [], 0)
  }

  ghost predicate ValidSessions(ss: seq<Session>) {
    forall i :: 0 <= i < |ss| ==> ValidSession(ss[i])
  }

  ghost function RunDaily(c: Setup, start: real, ss: seq<Session>): (r: Desk)
    requires ValidSessions(ss)
    ensures DeskInv(r)
    ensures DeskStake(r) == start
  {
    if ss == [] then OpeningDesk(start)
    else
      var d := RunDaily(c, start, ss[..|ss| - 1]);
      SessionKeeps(c, d, ss[|ss| - 1]);
      RunSession(c, d, ss[|ss| - 1])
  }

  // ---- finalisation --------------------------------------------------------

  function Charge(c: Setup): Pos -> real {
    (p: Pos) => ClosingCharge(c, p)
  }

  lemma FinalFlow(c: Setup, p: Pos, t: Trade)
    requires Paired(p, t) && p.qty >= 1
    ensures Pnl()(ToRecord(FinalTrade(c, p, t))) == Flow()(t) + MarketValue()(p) - Charge(c)(p)
  {
    hide Points, Dollars, Weighted, Multiplier, ClosingCharge;
    PointsAdd(t.exitCash, p.value, p.qty, t.mult);
    RecordedFlow(FinalTrade(c, p, t));
  }

  ghost predicate Finalized(c: Setup, d: Desk, r: Desk, k: nat)
    requires k <= |d.ledger.book| == |d.open|
  {
    && r.ledger == d.ledger && r.unexplained == d.unexplained
    && r.open == d.open[k..]
    && Sum(Pnl(), r.trades) ==
       Sum(Pnl(), d.trades) + Sum(Flow(), d.open[..k]) + Sum(MarketValue(), d.ledger.book[..k]) - Sum(Charge(c), d.ledger.book[..k])
  }

  lemma FinalizeStep(c: Setup, d: Desk, r: Desk, k: nat)
    requires DeskInv(d) && k < |d.ledger.book| == |d.open| && Finalized(c, d, r, k)
    ensures Finalized(c, d, FinalizeOne(c, r, d.ledger.book[k]), k + 1)
  {
    hide Inv, Flow, Pnl, Charge, MarketValue, FinalTrade, ToRecord, Multiplier, Sum;
    var p, t := d.ledger.book[k], d.open[k];
    assert Paired(p, t);
    InvAt(d.ledger, k);
    assert r.open[0] == t;
    FinalFlow(c, p, t);
    var u := ToRecord(FinalTrade(c, p, t));
    SumAppend(Pnl(), r.trades, [u]);
    SumOne(Pnl(), u);
    SumPrefix(Flow(), d.open, k);
    SumPrefix(MarketValue(), d.ledger.book, k);
    SumPrefix(Charge(c), d.ledger.book, k);
    assert Remove(r.open, 0) == d.open[k + 1..];
  }

  lemma {:induction false} FinalizePrefix(c: Setup, d: Desk, k: nat)
    requires DeskInv(d) && k <= |d.ledger.book| == |d.open|
    ensures Finalized(c, d, FinalizeAll(c, d, d.ledger.book[..k]), k)
  {
    if k == 0 {
      NoneFinalized(c, d);
    } else {
      hide Inv, InStep, Finalized, FinalizeOne, FinalizeAll;
      FinalizePrefix(c, d, k - 1);
      FinalizeStep(c, d, FinalizeAll(c, d, d.ledger.book[..k - 1]), k - 1);
      FinalizeNext(c, d, d.ledger.book, k - 1);
    }
  }

  lemma NoneFinalized(c: Setup, d: Desk)
    requires DeskInv(d) && |d.ledger.book| == |d.open|
    ensures Finalized(c, d, FinalizeAll(c, d, d.ledger.book[..0]), 0)
  {
    hide Inv, InStep;
  }

  lemma FinalizeNext(c: Setup, d: Desk, book: seq<Pos>, k: nat)
    ensures FinalizeAll(c, d, book[..0]) == d
    ensures k < |book| ==> FinalizeAll(c, d, book[..k + 1]) == FinalizeOne(c, FinalizeAll(c, d, book[..k]), book[k])
  {
    if k < |book| {
      assert book[..k + 1][..k] == book[..k];
    }
    hide FinalizeOne;
  }

  /** Records reconcile with cash: over any daily run, the broker's final equity is
      the starting cash, plus the P&L of every trade record, plus exactly the closing
      commissions that finalisation charged to records and not to the account; no
      trade is left open and no record was approximated for want of telemetry. */
  lemma RecordsReconcile(c: Setup, start: real, ss: seq<Session>)
    requires ValidSessions(ss)
    ensures var d := RunDaily(c, start, ss);
            var f := Finalize(c, d);
            && Equity(f.ledger) == start + Sum(Pnl(), f.trades) + Sum(Charge(c), d.ledger.book)
            && f.ledger == d.ledger
            && f.open == []
            && f.unexplained == 0
  {
    hide Inv, Flow, Pnl, Charge, MarketValue, FinalizeAll;
    var d := RunDaily(c, start, ss);
    var n := |d.ledger.book|;
    FinalizePrefix(c, d, n);
    assert d.ledger.book[..n] == d.ledger.book && d.open[..n] == d.open;
  }

  /** At every session end each open trade mirrors its position: same id, entry and
      multiplier, and the units not yet closed are the units the broker holds. */
  lemma TradesMirrorPositions(c: Setup, start: real, ss: seq<Session>, i: nat)
    requires ValidSessions(ss)
    requires i < |RunDaily(c, start, ss).open|
    ensures var d := RunDaily(c, start, ss);
            && |d.open| == |d.ledger.book|
            && d.open[i].id == d.ledger.book[i].id
            && d.open[i].maxQty - d.open[i].qtyClosed == d.ledger.book[i].qty >= 1
            && d.open[i].entry == d.ledger.book[i].entry
            && d.unexplained == 0
  {
    var d := RunDaily(c, start, ss);
    assert Paired(d.ledger.book[i], d.open[i]);
    InvAt(d.ledger, i);
  }
}
