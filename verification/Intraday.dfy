// IntradayBacktester (src/catalyst/backtest/intraday.py): the minute loop over a
// SimulatedBroker that it owns. Each method is proved to take the step of
// IntradayModel.dfy that it stands for.
module Intraday {
  import opened Common
  import opened Instruments
  import opened LedgerModel
  import opened LedgerInvariant
  import Daily = DailyModel
  import opened IntradayModel
  import opened Broker

  class IntradayBacktester {
    const params: Params
    const broker: SimulatedBroker
    var openState: map<nat, Tag>
    var trades: seq<Daily.Record>
    var breakerHit: bool
    var entries: nat
    var riskBlocked: nat
    var breakerBlocked: nat
    var unquotable: nat
    var synthetic: nat
    var retries: nat
    var flattens: nat

    constructor (params: Params, startingCash: real)
      ensures Valid() && fresh(broker) && broker.positions == []
      ensures View() == OpeningPit(startingCash) && this.params == params
    {
      this.params := params;
      broker := new SimulatedBroker(params.setup, startingCash);
      openState, trades, breakerHit := map[], [], false;
      entries, riskBlocked, breakerBlocked, unquotable := 0, 0, 0, 0;
      synthetic, retries, flattens := 0, 0, 0;
    }

    ghost predicate Valid()
      reads this, broker, broker.positions
    {
      broker.Valid() && broker.setup == params.setup
    }

    ghost function View(): Pit
      reads this, broker
    {
      Pit(broker.View(), openState, trades, breakerHit, entries, riskBlocked,
          breakerBlocked, unquotable, synthetic, retries, flattens)
    }

    // ---- closing -------------------------------------------------------------

    /** _close: everything the record needs is read before the order is sent. */
    method ClosePosition(id: nat, force: bool) returns (left: bool)
      requires Valid() && Inv(broker.View())
      modifies this, broker, broker.positions
      ensures Valid()
      ensures (View(), left) == CloseWhole(params, old(View()), id, force)
      ensures forall j :: 0 <= j < |broker.positions| ==>
                            broker.positions[j] in old(broker.positions) || fresh(broker.positions[j])
    {
      hide Inv, Place, BookClose, Holds, Position.View, Mirror;
      var i := broker.Locate(id);
      broker.BookSize();
      if i == |broker.positions| {
        return false;
      }
      ghost var held := broker.book[i];
      var p := broker.positions[i];
      var entry, qty, legs, mark := Captured(i);
      InvHolds(broker.View(), i);
      MirrorWellFormed(legs, qty);
      hide WellFormed;
      var out := broker.PlaceOrder(Order(Mirror(legs, qty), Close, Some(id), None, p.engine));
      BookCloseReplaces(old(View()), held, force, broker.View(), out);
      left := Book(held, id, entry, qty, legs, mark, force, out);
    }

    lemma BookCloseReplaces(d: Pit, p: Pos, force: bool, l: Ledger, out: Outcome)
      ensures BookClose(params, d.(ledger := l), p, force, l, out) == BookClose(params, d, p, force, l, out)
    {
      hide LedgerModel.ForceClose, WholeRecord, Synthetic;
    }

    /** What is read off the position before the order goes out. */
    method Captured(i: nat) returns (entry: real, qty: nat, legs: seq<Leg>, mark: real)
      requires Valid() && i < |broker.positions|
      ensures |broker.book| == |broker.positions|
      ensures var held := broker.book[i];
              && held.entry == entry && held.qty == qty && held.legs == legs && held.value == mark
              && held.id == broker.positions[i].id && held.engine == broker.positions[i].engine
    {
      var p := broker.positions[i];
      SameEntry(broker.positions, broker.book, i);
      entry, qty, legs, mark := p.entry, p.qty, p.legs, p.value;
    }

    method Book(ghost held: Pos, id: nat, entry: real, qty: nat, legs: seq<Leg>, mark: real, force: bool, out: Outcome)
      returns (left: bool)
      requires Valid()
      requires held.id == id && held.entry == entry && held.qty == qty && held.legs == legs && held.value == mark
      modifies this, broker
      ensures Valid()
      ensures (View(), left) == BookClose(params, old(View()), held, force, old(broker.View()), out)
      ensures forall j :: 0 <= j < |broker.positions| ==> broker.positions[j] in old(broker.positions)
    {
      hide LedgerModel.ForceClose, WholeRecord, CloseCommission, Synthetic, Holds, Position.View;
      match out {
        case Filled(_, price, commission, _) =>
          Append(held, id, entry, qty, legs, price, commission);
          return true;
        case Rejected(_) =>
          if !force {
            retries := retries + 1;
            return false;
          }
          CloseSynthetic(held, id, entry, qty, legs, mark);
          return true;
      }
    }

    /** The missing-quote fallback of a forced close. */
    method CloseSynthetic(ghost held: Pos, id: nat, entry: real, qty: nat, legs: seq<Leg>, mark: real)
      requires Valid()
      requires held.id == id && held.entry == entry && held.qty == qty && held.legs == legs
      modifies this, broker
      ensures Valid()
      ensures var v := Synthetic(params.haircut, mark);
              View() == old(View()).(
                ledger := LedgerModel.ForceClose(params.setup, old(View()).ledger, id, v),
                trades := old(trades) + [WholeRecord(params.setup, held, v, CloseCommission(params.setup.commissionRate, legs, qty))],
                synthetic := old(synthetic) + 1)
      ensures forall j :: 0 <= j < |broker.positions| ==> broker.positions[j] in old(broker.positions)
    {
      hide LedgerModel.ForceClose, WholeRecord, CloseCommission, Synthetic, Holds, Position.View;
      var value := Synthetic(params.haircut, mark);
      synthetic := synthetic + 1;
      broker.ForceClose(id, value);
      Append(held, id, entry, qty, legs, value, CloseCommission(params.setup.commissionRate, legs, qty));
    }

    lemma InvHolds(l: Ledger, i: nat)
      requires Inv(l) && i < |l.book|
      ensures l.book[i].qty >= 1 && WellFormed(l.book[i].legs)
    {
      assert Sound(l.market, l.reserved, l.book[i]);
    }

    /** Append the record of a position closed whole. */
    method Append(ghost held: Pos, id: nat, entry: real, qty: nat, legs: seq<Leg>, price: real, closing: real)
      requires held.id == id && held.entry == entry && held.qty == qty && held.legs == legs
      modifies this`trades
      ensures trades == old(trades) + [WholeRecord(params.setup, held, price, closing)]
    {
      var paid := CloseCommission(params.setup.commissionRate, legs, qty);
      var pnl := Dollars(price - entry, qty, Multiplier(legs)) - closing - paid;
      trades := trades + [Daily.Record(id, entry, price, qty, pnl, qty)];
    }

    method ProcessExits(hit: nat -> bool)
      requires Valid() && Inv(broker.View())
      modifies this, broker, broker.positions
      ensures Valid()
      ensures View() == Exits(params, old(View()), hit)
      ensures forall j :: 0 <= j < |broker.positions| ==>
                            broker.positions[j] in old(broker.positions) || fresh(broker.positions[j])
    {
      hide Inv, CloseWhole, Holds, Position.View;
      ghost var d := View();
      var ids := broker.Ids();
      assert ids == Ids(d.ledger.book);
      for k := 0 to |ids|
        invariant Valid()
        invariant View() == ExitAll(params, d, ids[..k], hit)
        invariant forall j :: 0 <= j < |broker.positions| ==>
                                broker.positions[j] in old(broker.positions) || fresh(broker.positions[j])
      {
        assert ids[..k + 1][..k] == ids[..k];
        if ids[k] in openState && hit(ids[k]) {
          var left := ClosePosition(ids[k], false);
          if left {
            openState := openState - {ids[k]};
          }
        }
      }
      assert ids[..|ids|] == ids;
    }

    method FlattenAll()
      requires Valid() && Inv(broker.View())
      modifies this, broker, broker.positions
      ensures Valid()
      ensures View() == Flat(params, old(View()))
      ensures forall j :: 0 <= j < |broker.positions| ==>
                            broker.positions[j] in old(broker.positions) || fresh(broker.positions[j])
    {
      hide Inv, IntradayModel.FlattenAll, IntradayModel.FlattenOne, Holds, Position.View;
      ghost var d := View();
      var ids := broker.Ids();
      assert ids == Ids(d.ledger.book);
      FlattenNext(params, d, ids, 0);
      for k := 0 to |ids|
        invariant Valid()
        invariant View() == IntradayModel.FlattenAll(params, d, ids[..k])
        invariant forall j :: 0 <= j < |broker.positions| ==>
                                broker.positions[j] in old(broker.positions) || fresh(broker.positions[j])
      {
        FlattenNext(params, d, ids, k);
        FlattenOne(ids[k]);
      }
      assert ids[..|ids|] == ids;
    }

    static lemma FlattenNext(g: Params, d: Pit, ids: seq<nat>, k: nat)
      requires Inv(d.ledger)
      ensures IntradayModel.FlattenAll(g, d, ids[..0]) == d
      ensures k < |ids| ==>
                IntradayModel.FlattenAll(g, d, ids[..k + 1]) ==
                IntradayModel.FlattenOne(g, IntradayModel.FlattenAll(g, d, ids[..k]), ids[k])
    {
      if k < |ids| {
        assert ids[..k + 1][..k] == ids[..k];
      }
      hide IntradayModel.FlattenOne, Inv;
    }

    method FlattenOne(id: nat)
      requires Valid() && Inv(broker.View())
      modifies this, broker, broker.positions
      ensures Valid()
      ensures View() == IntradayModel.FlattenOne(params, old(View()), id)
      ensures forall j :: 0 <= j < |broker.positions| ==>
                            broker.positions[j] in old(broker.positions) || fresh(broker.positions[j])
    {
      hide Inv, CloseWhole, Holds, Position.View;
      var _ := ClosePosition(id, true);
      openState := openState - {id};
      flattens := flattens + 1;
    }

    // ---- entries -------------------------------------------------------------

    method Enter(day: Date, a: Attempt)
      requires Valid() && Inv(broker.View()) && WellFormed(a.proposal.legs)
      modifies this, broker, broker.positions
      ensures Valid()
      ensures View() == IntradayModel.Enter(params, old(View()), day, a)
      ensures forall j :: 0 <= j < |broker.positions| ==>
                            broker.positions[j] in old(broker.positions) || fresh(broker.positions[j])
    {
      assert a.proposal.legs != [];
      hide Inv, LedgerModel.UpdateMarket, IntradayModel.Send, WellFormed, Holds, Position.View;
      if a.Tagged() in openState.Values {
        return;
      }
      if breakerHit {
        breakerBlocked := breakerBlocked + 1;
        return;
      }
      ReadChains(day, a);
      Send(a);
    }

    /** The market as an entry re-reads it. */
    method ReadChains(day: Date, a: Attempt)
      requires Valid() && Inv(broker.View())
      modifies broker, broker.positions
      ensures Valid() && Inv(broker.View())
      ensures View() == old(View()).(ledger := LedgerModel.UpdateMarket(old(broker.View()), a.chains, day, None, None))
      ensures forall j :: 0 <= j < |broker.positions| ==>
                            broker.positions[j] in old(broker.positions) || fresh(broker.positions[j])
    {
      AdvanceKeeps(broker.View(), a.chains, day, None, None);
      hide Inv, LedgerModel.UpdateMarket, Holds, Position.View;
      broker.UpdateMarket(a.chains, day, None, None);
    }

    method Send(a: Attempt)
      requires Valid() && Inv(broker.View()) && WellFormed(a.proposal.legs)
      modifies this, broker, broker.positions
      ensures Valid()
      ensures View() == IntradayModel.Send(params, old(View()), a)
      ensures forall j :: 0 <= j < |broker.positions| ==>
                            broker.positions[j] in old(broker.positions) || fresh(broker.positions[j])
    {
      hide Inv, Place, Scaled, Holds, Position.View;
      if a.units <= 0 {
        riskBlocked := riskBlocked + 1;
        return;
      }
      MirrorWellFormed(a.proposal.legs, a.units);
      hide WellFormed;
      var out := broker.PlaceOrder(Daily.OpenOrder(a.proposal, a.units));
      match out {
        case Rejected(_) =>
          unquotable := unquotable + 1;
        case Filled(_, _, _, id) =>
          openState := openState[id := a.Tagged()];
          entries := entries + 1;
      }
    }

    method ProcessEntries(day: Date, attempts: seq<Attempt>)
      requires Valid() && Inv(broker.View())
      requires forall i :: 0 <= i < |attempts| ==> ValidAttempt(attempts[i], day)
      modifies this, broker, broker.positions
      ensures Valid()
      ensures View() == EnterAll(params, old(View()), day, attempts)
      ensures forall j :: 0 <= j < |broker.positions| ==>
                            broker.positions[j] in old(broker.positions) || fresh(broker.positions[j])
    {
      hide Inv, IntradayModel.Enter, WellFormed, Unexpired, Holds, Position.View;
      ghost var d := View();
      for k := 0 to |attempts|
        invariant Valid()
        invariant View() == EnterAll(params, d, day, attempts[..k])
        invariant forall j :: 0 <= j < |broker.positions| ==>
                                broker.positions[j] in old(broker.positions) || fresh(broker.positions[j])
      {
        assert attempts[..k + 1][..k] == attempts[..k];
        assert ValidAttempt(attempts[k], day);
        Enter(day, attempts[k]);
      }
      assert attempts[..|attempts|] == attempts;
    }

    // ---- the session -----------------------------------------------------------

    method CheckBreaker(openEquity: real, halt: real)
      requires Valid()
      modifies this`breakerHit
      ensures View() == Watch(old(View()), openEquity, halt)
    {
      hide Equity, Holds, Position.View;
      var now := broker.GetEquity();
      if !breakerHit && openEquity > 0.0 && now / openEquity - 1.0 <= halt {
        breakerHit := true;
      }
    }

    method RunMinute(s: Session, openEquity: real, ts: int)
      requires Valid() && Inv(broker.View()) && ValidSession(s)
      modifies this, broker, broker.positions
      ensures Valid()
      ensures View() == Minute(params, s, openEquity, old(View()), ts)
      ensures forall j :: 0 <= j < |broker.positions| ==>
                            broker.positions[j] in old(broker.positions) || fresh(broker.positions[j])
    {
      hide Inv, LedgerModel.UpdateMarket, Flat, Exits, EnterAll, Watch, Holds, Position.View, ValidAttempt;
      var t := s.feed(ts);
      assert ValidTick(t, s.day);
      AdvanceKeeps(broker.View(), t.chains, s.day, Some(t.marks), Some(t.fills));
      broker.UpdateMarket(t.chains, s.day, Some(t.marks), Some(t.fills));
      WatchKeeps(View(), openEquity, s.halt);
      CheckBreaker(openEquity, s.halt);
      if ts >= s.flattenAt {
        FlattenAll();
      }
      ProcessExits(t.hit);
      if ts < s.flattenAt {
        ProcessEntries(s.day, t.attempts);
      }
    }

    lemma WatchKeeps(d: Pit, openEquity: real, halt: real)
      ensures Watch(d, openEquity, halt).ledger == d.ledger
    {
    }

    method RunOneSession(s: Session)
      requires Valid() && Inv(broker.View()) && ValidSession(s)
      modifies this, broker, broker.positions
      ensures Valid()
      ensures View() == RunSession(params, old(View()), s)
      ensures forall j :: 0 <= j < |broker.positions| ==>
                            broker.positions[j] in old(broker.positions) || fresh(broker.positions[j])
    {
      hide Inv, LedgerModel.UpdateMarket, Flat, Minute, Equity, Holds, Position.View, ValidTick;
      if !s.hasBars {
        return;
      }
      var openEquity := broker.GetEquity();
      openState, breakerHit := map[], false;
      ghost var d := View();
      var ts := s.start;
      while ts <= s.end
        invariant Valid() && Inv(broker.View())
        invariant Minutes(params, s, openEquity, View(), ts) == Minutes(params, s, openEquity, d, s.start)
        invariant forall j :: 0 <= j < |broker.positions| ==>
                                broker.positions[j] in old(broker.positions) || fresh(broker.positions[j])
        decreases s.end - ts
      {
        RunMinute(s, openEquity, ts);
        ts := ts + s.every;
      }
      AdvanceKeeps(broker.View(), s.closing.chains, s.day, Some(s.closing.marks), Some(s.closing.fills));
      broker.UpdateMarket(s.closing.chains, s.day, Some(s.closing.marks), Some(s.closing.fills));
      FlattenAll();
    }

    /** The whole backtest. */
    method Run(ghost start: real, sessions: seq<Session>)
      requires Valid() && View() == OpeningPit(start) && broker.positions == []
      requires ValidSessions(sessions)
      modifies this, broker
      ensures Valid()
      ensures View() == RunIntraday(params, start, sessions)
    {
      hide Inv, RunSession, ValidSession, Holds;
      for k := 0 to |sessions|
        invariant Valid()
        invariant View() == RunIntraday(params, start, sessions[..k])
        invariant forall j :: 0 <= j < |broker.positions| ==> fresh(broker.positions[j])
      {
        assert sessions[..k + 1][..k] == sessions[..k];
        RunOneSession(sessions[k]);
      }
      assert sessions[..|sessions|] == sessions;
    }
  }
}
