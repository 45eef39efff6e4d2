// The settlement sweep of the daily backtester folds exactly the cash that expiry
// moved (src/catalyst/backtest/backtester.py:390-434 against
// src/catalyst/brokers/simulated.py:151-225).
module DailySweep {
  import opened Common
  import opened Instruments
  import opened Market
  import opened LedgerModel
  import opened LedgerInvariant
  import opened DailyModel

  /** A broker position and the open trade that mirrors it. */
  ghost predicate Paired(p: Pos, t: Trade) {
    && p.id == t.id
    && p.qty + t.qtyClosed == t.maxQty
    && p.entry == t.entry
    && p.Mult() == t.mult
  }

  ghost predicate InStep(book: seq<Pos>, open: seq<Trade>) {
    |book| == |open| && forall i :: 0 <= i < |book| ==> Paired(book[i], open[i])
  }

  /** Cash a trade has moved so far, entry included. */
  function Flow(): Trade -> real {
    (t: Trade) => Points(t.exitCash, t.mult) - Dollars(t.entry, t.maxQty, t.mult) - t.commissions
  }

  function Pnl(): Record -> real {
    (r: Record) => r.pnl
  }

  lemma PointsAdd(x: real, v: real, units: nat, mult: real)
    ensures Points(x + Weighted(v, units), mult) == Points(x, mult) + Dollars(v, units, mult)
  {
    var w := v * (units as real);
    assert (x + w) * mult == x * mult + w * mult;
  }

  /** A record agrees with itself: its exit price times its units is the credit that was
      booked, and its P&L is the move from entry to exit over those units, less all
      commissions. */
  lemma RecordIsConsistent(t: Trade)
    requires t.qtyClosed >= 1
    ensures var r := ToRecord(t);
            && r.qty == t.qtyClosed
            && Weighted(r.exit, r.qty) == t.exitCash
            && r.pnl == Dollars(r.exit - r.entry, r.qty, t.mult) - t.commissions
  {
    var r := ToRecord(t);
    DollarsMinus(r.exit, r.entry, r.qty, t.mult);
    WeightedPoints(t.exitCash, r.exit, r.qty, t.mult);
  }

  lemma WeightedPoints(cash: real, price: real, units: nat, mult: real)
    requires units >= 1 && price == cash / (units as real)
    ensures Weighted(price, units) == cash
    ensures Points(cash, mult) == Dollars(price, units, mult)
  {
    assert price * (units as real) == cash;
  }

  /** A fully closed trade is recorded with exactly its flow. */
  lemma RecordedFlow(t: Trade)
    requires t.qtyClosed == t.maxQty >= 1
    ensures Pnl()(ToRecord(t)) == Flow()(t)
  {
    hide Points, Dollars;
  }

  lemma SettledFlow(p: Pos, t: Trade, v: real)
    requires Paired(p, t) && p.qty >= 1
    ensures Pnl()(ToRecord(SettleTrade(t, v))) == Flow()(t) + p.Worth(v)
  {
    hide Points, Dollars, Weighted, Multiplier;
    PointsAdd(t.exitCash, v, p.qty, t.mult);
    RecordedFlow(SettleTrade(t, v));
  }

  lemma FoldedFlow(p: Pos, t: Trade, v: real)
    requires Paired(p, t)
    ensures Flow()(FoldPartial(t, v)) == Flow()(t) + p.Worth(v)
  {
    hide Points, Dollars, Weighted, Multiplier;
    PointsAdd(t.exitCash, v, p.qty, t.mult);
  }

  // ---- what settling a whole book does --------------------------------------

  function Fate(l: Ledger, today: Date, p: Pos): Settlement {
    SettlementOf(l.market, l.spots, today, p)
  }

  /** Dollars one position is paid by expiry. */
  function Paid(l: Ledger, today: Date): Pos -> real {
    (p: Pos) => match Fate(l, today, p)
      case Full(v) => p.Worth(v)
      case Partial(v) => p.Worth(v)
      case _ => 0.0
  }

  /** The position after expiry; only used when it is not fully settled. */
  function After(l: Ledger, today: Date, p: Pos): (q: Pos)
    ensures q.id == p.id
  {
    match Fate(l, today, p)
    case Partial(v) => Survivor(l.market, p, today, p.Worth(v))
    case _ => p
  }

  /** What one position leaves in the book, the settlement list and the partial list. */
  function Left(l: Ledger, today: Date, p: Pos): seq<Pos> {
    if Fate(l, today, p).Full? then [] else [After(l, today, p)]
  }

  function FullEntry(l: Ledger, today: Date, p: Pos): seq<(nat, real, real)> {
    match Fate(l, today, p)
    case Full(v) => [(p.id, v, p.Worth(v - p.entry))]
    case _ => []
  }

  function PartialEntry(l: Ledger, today: Date, p: Pos): seq<(nat, real)> {
    match Fate(l, today, p)
    case Partial(v) => [(p.id, v)]
    case _ => []
  }

  function Survivors(l: Ledger, today: Date, pending: seq<Pos>): seq<Pos> {
    if pending == [] then []
    else Survivors(l, today, pending[..|pending| - 1]) + Left(l, today, pending[|pending| - 1])
  }

  function FullEntries(l: Ledger, today: Date, pending: seq<Pos>): seq<(nat, real, real)> {
    if pending == [] then []
    else FullEntries(l, today, pending[..|pending| - 1]) + FullEntry(l, today, pending[|pending| - 1])
  }

  function PartialEntries(l: Ledger, today: Date, pending: seq<Pos>): seq<(nat, real)> {
    if pending == [] then []
    else PartialEntries(l, today, pending[..|pending| - 1]) + PartialEntry(l, today, pending[|pending| - 1])
  }

  lemma SettleOneShape(l: Ledger, p: Pos, today: Date)
    ensures var r := SettleOne(l, p, today);
            && r.market == l.market && r.spots == l.spots && r.today == l.today
            && r.cash == l.cash + Paid(l, today)(p)
            && r.book == l.book + Left(l, today, p)
            && r.settlements == l.settlements + FullEntry(l, today, p)
            && r.partials == l.partials + PartialEntry(l, today, p)
  {
    hide SettlementOf, Survivor, Dollars, Multiplier, LiveLegs;
  }

  lemma {:induction false} SettleAllShape(l: Ledger, pending: seq<Pos>, today: Date)
    ensures var r := SettleAll(l, pending, today);
            && r.market == l.market && r.spots == l.spots && r.today == l.today
            && r.cash == l.cash + Sum(Paid(l, today), pending)
            && r.book == l.book + Survivors(l, today, pending)
            && r.settlements == l.settlements + FullEntries(l, today, pending)
            && r.partials == l.partials + PartialEntries(l, today, pending)
    decreases |pending|
  {
    if pending != [] {
      hide SettleOne, Left, FullEntry, PartialEntry, Paid;
      var n := |pending| - 1;
      var p := pending[n];
      SettleAllShape(l, pending[..n], today);
      var r := SettleAll(l, pending[..n], today);
      SettleOneShape(r, p, today);
      FateFrame(l, r, today, p);
      Associate(l.book, Survivors(l, today, pending[..n]), Left(l, today, p));
      Associate(l.settlements, FullEntries(l, today, pending[..n]), FullEntry(l, today, p));
      Associate(l.partials, PartialEntries(l, today, pending[..n]), PartialEntry(l, today, p));
    }
  }

  lemma Associate<T>(a: seq<T>, b: seq<T>, c: seq<T>)
    ensures (a + b) + c == a + (b + c)
  {
  }

  /** Fates only depend on the market and the remembered spots. */
  lemma FateFrame(l: Ledger, r: Ledger, today: Date, p: Pos)
    requires r.market == l.market && r.spots == l.spots
    ensures Left(r, today, p) == Left(l, today, p)
    ensures FullEntry(r, today, p) == FullEntry(l, today, p)
    ensures PartialEntry(r, today, p) == PartialEntry(l, today, p)
    ensures Paid(r, today)(p) == Paid(l, today)(p)
  {
    hide SettlementOf, Survivor, Dollars, Multiplier;
  }

  ghost predicate Increasing(book: seq<Pos>) {
    forall i, j :: 0 <= i < j < |book| ==> book[i].id < book[j].id
  }

  lemma {:induction false} SurvivorsComeFrom(l: Ledger, today: Date, pending: seq<Pos>, k: nat) returns (i: nat)
    requires k < |Survivors(l, today, pending)|
    ensures i < |pending| && pending[i].id == Survivors(l, today, pending)[k].id && !Fate(l, today, pending[i]).Full?
  {
    hide Fate, After;
    var n := |pending| - 1;
    if k < |Survivors(l, today, pending[..n])| {
      i := SurvivorsComeFrom(l, today, pending[..n], k);
    } else {
      i := n;
    }
  }

  lemma {:induction false} SurvivorStays(l: Ledger, today: Date, pending: seq<Pos>, i: nat)
    requires i < |pending| && !Fate(l, today, pending[i]).Full?
    ensures Held(Survivors(l, today, pending), pending[i].id)
  {
    hide Fate, After;
    var n := |pending| - 1;
    var rest := Survivors(l, today, pending[..n]);
    var all := Survivors(l, today, pending);
    if i < n {
      SurvivorStays(l, today, pending[..n], i);
      var k :| 0 <= k < |rest| && rest[k].id == pending[i].id;
      assert all[k].id == pending[i].id;
    } else {
      assert all[|rest|].id == pending[i].id;
    }
  }

  /** A position is still held after settlement unless it settled in full. */
  lemma HeldIffNotFull(l: Ledger, today: Date, pending: seq<Pos>, i: nat)
    requires Increasing(pending) && i < |pending|
    ensures Held(Survivors(l, today, pending), pending[i].id) <==> !Fate(l, today, pending[i]).Full?
  {
    hide Fate, Survivors;
    if Held(Survivors(l, today, pending), pending[i].id) {
      var k :| 0 <= k < |Survivors(l, today, pending)| && Survivors(l, today, pending)[k].id == pending[i].id;
      var j := SurvivorsComeFrom(l, today, pending, k);
      assert i == j;
    }
    if !Fate(l, today, pending[i]).Full? {
      SurvivorStays(l, today, pending, i);
    }
  }

  lemma {:induction false} TelemetryOf(l: Ledger, today: Date, pending: seq<Pos>, earlier: seq<(nat, real, real)>, i: nat)
    requires Increasing(pending) && i < |pending| && Fate(l, today, pending[i]).Full?
    ensures Telemetry(earlier + FullEntries(l, today, pending), pending[i].id) == Some(Fate(l, today, pending[i]).value)
    decreases |pending|
  {
    hide Fate, Dollars, Multiplier;
    var n := |pending| - 1;
    var rest := earlier + FullEntries(l, today, pending[..n]);
    var all := earlier + FullEntries(l, today, pending);
    if Fate(l, today, pending[n]).Full? {
      assert all[..|all| - 1] == rest;
    } else {
      assert all == rest;
    }
    if i < n {
      TelemetryOf(l, today, pending[..n], earlier, i);
    }
  }
}
