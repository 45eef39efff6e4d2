// Backtester (src/catalyst/backtest/backtester.py): the session loop and its
// incremental record book, over a SimulatedBroker that it owns. Each method is
// proved to take the step of DailyModel.dfy that it stands for.
module Backtest {
  import opened Common
  import opened Instruments
  import opened LedgerModel
  import opened LedgerInvariant
  import opened DailyModel
  import opened DailySweep
  import opened DailyInvariant
  import opened DailyRuns
  import opened Broker

  class Backtester {
    const setup: Setup
    const broker: SimulatedBroker
    var openState: seq<Trade>
    var trades: seq<Record>
    var unexplained: nat

    constructor (setup: Setup, startingCash: real)
      ensures Valid() && fresh(broker) && broker.positions == []
      ensures View() == OpeningDesk(startingCash) && this.setup == setup
    {
      this.setup := setup;
      broker := new SimulatedBroker(setup, startingCash);
      openState, trades, unexplained := [], [], 0;
    }

    ghost predicate Valid()
      reads this, broker, broker.positions
    {
      broker.Valid() && broker.setup == setup
    }

    ghost function View(): Desk
      reads this, broker
    {
      Desk(broker.View(), openState, trades, unexplained)
    }

    /** Index of the open trade with this id, or the number of open trades. */
    method FindTrade(id: nat) returns (i: nat)
      ensures i == TradeIndex(openState, id) <= |openState|
    {
      i := 0;
      while i < |openState| && openState[i].id != id
        invariant i <= |openState|
        invariant forall j :: 0 <= j < i ==> openState[j].id != id
      {
        i := i + 1;
      }
    }

    // ---- settlement sweep ----------------------------------------------------

    method FoldPartialSettlements()
      modifies this`openState
      ensures openState == FoldPartials(old(openState), broker.partials)
    {
      hide FoldPartial;
      var partials := broker.partials;
      for k := 0 to |partials|
        invariant openState == FoldPartials(old(openState), partials[..k])
      {
        assert partials[..k + 1][..k] == partials[..k];
        var i := FindTrade(partials[k].0);
        if i < |openState| {
          openState := openState[i := FoldPartial(openState[i], partials[k].1)];
        }
      }
      assert partials[..|partials|] == partials;
    }

    method SweepSettled()
      requires Valid()
      modifies this, broker`partials
      ensures Valid()
      ensures View() == Sweep(old(View()))
      ensures broker.positions == old(broker.positions)
    {
      hide FoldPartials, SweepOne, Telemetry, Holds;
      FoldPartialSettlements();
      broker.DrainPartials();
      var pending := openState;
      openState := [];
      ghost var d := View();
      for k := 0 to |pending|
        invariant Valid()
        invariant View() == SweepAll(d, pending[..k])
        invariant broker.View() == d.ledger
      {
        assert pending[..k + 1][..k] == pending[..k];
        SweepTrade(pending[k]);
      }
      assert pending[..|pending|] == pending;
    }

    method SweepTrade(t: Trade)
      requires Valid()
      modifies this
      ensures Valid() && View() == SweepOne(old(View()), t)
    {
      hide Telemetry, ToRecord, SettleTrade, IndexOf, Holds;
      var i := broker.Locate(t.id);
      broker.BookSize();
      if i < |broker.positions| {
        openState := openState + [t];
        return;
      }
      match Telemetry(broker.settlements, t.id) {
        case Some(v) =>
          trades := trades + [ToRecord(SettleTrade(t, v))];
        case None =>
          trades := trades + [ToRecord(t)];
          unexplained := unexplained + 1;
      }
    }

    // ---- exits ---------------------------------------------------------------

    method RecordClose(units: nat, price: real, commission: real, id: nat)
      modifies this`openState, this`trades
      ensures View() == RecordExit(old(View()), units, price, commission, id)
    {
      hide ToRecord, BookExit;
      var i := FindTrade(id);
      if i == |openState| {
        return;
      }
      var t := BookExit(openState[i], units, price, commission);
      if t.qtyClosed >= t.maxQty {
        openState := Remove(openState, i);
        trades := trades + [ToRecord(t)];
      } else {
        openState := openState[i := t];
      }
    }

    method ExitPosition(id: nat, action: Action)
      requires Valid() && Inv(broker.View()) && action.fraction >= 0.0
      modifies this, broker, broker.positions
      ensures Valid()
      ensures View() == ExitOne(setup, old(View()), id, action)
      ensures forall j :: 0 <= j < |broker.positions| ==>
                            broker.positions[j] in old(broker.positions) || fresh(broker.positions[j])
    {
      hide Inv, Place, RecordExit, Mirror, ClosingUnits, FlagDone, FoldPartials;
      var i := broker.Locate(id);
      broker.BookSize();
      if i == |broker.positions| {
        return;
      }
      var p := broker.positions[i];
      SameEntry(broker.positions, broker.book, i);
      hide Holds, Position.View;
      InvAt(broker.View(), i);
      var units := ClosingUnits(p.qty, action.fraction);
      if units == 0 {
        return;
      }
      MirrorWellFormed(p.legs, units);
      var order := Order(Mirror(p.legs, units), Close, Some(p.id), None, p.engine);
      assert order == CloseOrder(broker.book[i], units);
      var out := broker.PlaceOrder(order);
      match out {
        case Rejected(_) =>
        case Filled(filled, price, commission, _) =>
          RecordClose(filled, price, commission, id);
          if action.isTp1 {
            FlagTp1(id);
          }
      }
    }

    method FlagTp1(id: nat)
      requires Valid()
      modifies broker`book, broker.positions
      ensures Valid()
      ensures broker.View() == FlagDone(old(broker.View()), id)
      ensures broker.positions == old(broker.positions)
    {
      var i := broker.Locate(id);
      broker.BookSize();
      if i < |broker.positions| {
        broker.FlagTp1(i);
      }
    }

    method ProcessExits(rule: nat -> Option<Action>)
      requires Valid() && Inv(broker.View())
      requires forall id :: rule(id).Some? ==> rule(id).value.fraction >= 0.0
      modifies this, broker, broker.positions
      ensures Valid()
      ensures View() == ExitAll(setup, old(View()), ExitList(rule, old(broker.book)))
      ensures forall j :: 0 <= j < |broker.positions| ==>
                            broker.positions[j] in old(broker.positions) || fresh(broker.positions[j])
    {
      hide Inv, ExitOne, ExitAll, ExitList, Holds, Position.View;
      ghost var d := View();
      ghost var book := broker.book;
      var ids := broker.Ids();
      ExitNext(setup, d, rule, book, 0);
      for k := 0 to |ids|
        invariant Valid()
        invariant View() == ExitAll(setup, d, ExitList(rule, book[..k]))
        invariant forall j :: 0 <= j < |broker.positions| ==>
                                broker.positions[j] in old(broker.positions) || fresh(broker.positions[j])
      {
        ExitNext(setup, d, rule, book, k);
        match rule(ids[k]) {
          case None =>
          case Some(action) =>
            ExitPosition(ids[k], action);
        }
      }
      assert book[..|ids|] == book;
    }

    static lemma ExitNext(c: Setup, d: Desk, rule: nat -> Option<Action>, book: seq<Pos>, k: nat)
      requires Inv(d.ledger) && forall id :: rule(id).Some? ==> rule(id).value.fraction >= 0.0
      ensures ExitAll(c, d, ExitList(rule, book[..0])) == d
      ensures k < |book| ==>
                var before := ExitAll(c, d, ExitList(rule, book[..k]));
                ExitAll(c, d, ExitList(rule, book[..k + 1])) ==
                match rule(book[k].id)
                case None => before
                case Some(action) => ExitOne(c, before, book[k].id, action)
    {
      if k < |book| {
        assert book[..k + 1][..k] == book[..k];
        var earlier := ExitList(rule, book[..k]);
        if rule(book[k].id).Some? {
          assert (earlier + [(book[k].id, rule(book[k].id).value)])[..|earlier|] == earlier;
        }
      }
      hide ExitOne, Inv;
    }

    // ---- entries -------------------------------------------------------------

    method EnterProposal(p: Proposal, units: int)
      requires Valid() && Inv(broker.View()) && WellFormed(p.legs)
      modifies this, broker, broker.positions
      ensures Valid()
      ensures View() == Enter(setup, old(View()), p, units)
      ensures forall j :: 0 <= j < |broker.positions| ==>
                            broker.positions[j] in old(broker.positions) || fresh(broker.positions[j])
    {
      hide Inv, Place, Scaled, WellFormed;
      if units <= 0 {
        return;
      }
      MirrorWellFormed(p.legs, units);
      var out := broker.PlaceOrder(OpenOrder(p, units));
      match out {
        case Rejected(_) =>
        case Filled(filled, price, commission, id) =>
          openState := openState + [Trade(id, price, filled, Multiplier(p.legs), commission, 0.0, 0)];
      }
    }

    method ProcessEntries(entries: seq<(Proposal, int)>)
      requires Valid() && Inv(broker.View())
      requires forall i :: 0 <= i < |entries| ==> WellFormed(entries[i].0.legs)
      modifies this, broker, broker.positions
      ensures Valid()
      ensures View() == EnterAll(setup, old(View()), entries)
      ensures forall j :: 0 <= j < |broker.positions| ==>
                            broker.positions[j] in old(broker.positions) || fresh(broker.positions[j])
    {
      hide Inv, Enter, WellFormed;
      ghost var d := View();
      for k := 0 to |entries|
        invariant Valid()
        invariant View() == EnterAll(setup, d, entries[..k])
        invariant forall j :: 0 <= j < |broker.positions| ==>
                                broker.positions[j] in old(broker.positions) || fresh(broker.positions[j])
      {
        assert entries[..k + 1][..k] == entries[..k];
        EnterProposal(entries[k].0, entries[k].1);
      }
      assert entries[..|entries|] == entries;
    }

    // ---- finalisation --------------------------------------------------------

    method FinalizeOpen()
      requires Valid()
      modifies this`openState, this`trades
      ensures View() == Finalize(setup, old(View()))
    {
      hide FinalTrade, ToRecord, FinalizeAll, FinalizeOne;
      ghost var d := View();
      broker.BookSize();
      FinalizeNext(setup, d, broker.book, 0);
      for k := 0 to |broker.positions|
        invariant View() == FinalizeAll(setup, d, broker.book[..k])
      {
        FinalizeNext(setup, d, broker.book, k);
        FinalizePosition(broker.positions[k], k);
      }
      assert broker.book[..|broker.positions|] == broker.book;
    }

    method FinalizePosition(p: Position, ghost k: nat)
      requires Valid() && k < |broker.positions| && broker.positions[k] == p
      modifies this`openState, this`trades
      ensures |broker.book| == |broker.positions|
      ensures View() == FinalizeOne(setup, old(View()), broker.book[k])
    {
      hide FinalTrade, ToRecord;
      SameEntry(broker.positions, broker.book, k);
      hide Holds, Position.View;
      var i := FindTrade(p.id);
      if i < |openState| {
        var final := CloseOut(p, openState[i]);
        openState := Remove(openState, i);
        trades := trades + [ToRecord(final)];
      }
    }

    method CloseOut(p: Position, t: Trade) returns (final: Trade)
      ensures final == FinalTrade(setup, p.View(), t)
    {
      var charge := setup.commissionRate * ((AllContracts(p.legs) * p.qty) as real);
      final := t.(commissions := t.commissions + charge,
                  exitCash := t.exitCash + Weighted(p.value, p.qty),
                  qtyClosed := t.qtyClosed + p.qty);
    }

    // ---- the run -------------------------------------------------------------

    method RunOneSession(s: Session)
      requires Valid() && DeskInv(View()) && ValidSession(s)
      modifies this, broker, broker.positions
      ensures Valid()
      ensures View() == RunSession(setup, old(View()), s)
      ensures forall j :: 0 <= j < |broker.positions| ==>
                            broker.positions[j] in old(broker.positions) || fresh(broker.positions[j])
    {
      hide Inv, InStep, UpdateMarket, Sweep, ExitAll, EnterAll, ExitList, Holds, WellFormed;
      AdvanceKeepsDesk(View(), s.chains, s.today);
      broker.UpdateMarket(s.chains, s.today, None, None);
      SweepSettled();
      ProcessExits(s.rule);
      ProcessEntries(s.entries);
    }

    /** The whole backtest, ending with every trade recorded. */
    method Run(ghost start: real, sessions: seq<Session>)
      requires Valid() && View() == OpeningDesk(start) && broker.positions == []
      requires ValidSessions(sessions)
      modifies this, broker
      ensures Valid()
      ensures View() == Finalize(setup, RunDaily(setup, start, sessions))
    {
      hide DeskInv, DeskStake, RunSession, ValidSession, Finalize, Holds;
      for k := 0 to |sessions|
        invariant Valid()
        invariant View() == RunDaily(setup, start, sessions[..k])
        invariant forall j :: 0 <= j < |broker.positions| ==> fresh(broker.positions[j])
      {
        assert sessions[..k + 1][..k] == sessions[..k];
        RunOneSession(sessions[k]);
      }
      assert sessions[..|sessions|] == sessions;
      FinalizeOpen();
    }
  }
}
