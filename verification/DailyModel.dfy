// The record layer of the daily backtester
// (src/catalyst/backtest/backtester.py:331-490, 641-694) as steps over values: a
// second, incremental book of open trades kept beside the broker's ledger.
// Backtest.dfy holds the class that performs these steps in place.
module DailyModel {
  import opened Common
  import opened Instruments
  import opened Market
  import opened LedgerModel
  import opened LedgerInvariant

  /** _OpenTradeState. exitCash is the sum of credit per unit times units closed. */
  datatype Trade = Trade(
    id: nat,
    entry: real,
    maxQty: nat,
    mult: real,
    commissions: real,
    exitCash: real,
    qtyClosed: nat)
  {
    function Remaining(): int {
      maxQty - qtyClosed
    }
  }

  /** TradeRecord, as far as money goes. */
  datatype Record = Record(id: nat, entry: real, exit: real, qty: nat, pnl: real, maxQty: nat)

  /** Broker ledger plus record layer. unexplained counts records written without
      settlement telemetry. */
  datatype Desk = Desk(ledger: Ledger, open: seq<Trade>, trades: seq<Record>, unexplained: nat)

  /** An exit action on one position, as the exit rules may ask for it. */
  datatype Action = Action(fraction: real, isTp1: bool)

  datatype Proposal = Proposal(legs: seq<Leg>, maxLoss: Option<Num>, engine: string)

  /** Credit per unit times units. */
  function Weighted(v: real, units: int): real {
    v * (units as real)
  }

  /** Points times the dollars-per-point multiplier. */
  function Points(x: real, mult: real): real {
    x * mult
  }

  function ToRecord(t: Trade): Record {
    var closed := if t.qtyClosed > 0 then t.qtyClosed else t.maxQty;
    Record(
      t.id,
      t.entry,
      if t.qtyClosed > 0 then t.exitCash / (t.qtyClosed as real) else t.entry,
      closed,
      if t.qtyClosed > 0 then Points(t.exitCash, t.mult) - Dollars(t.entry, closed, t.mult) - t.commissions
      else -t.commissions,
      t.maxQty)
  }

  function TradeIndex(open: seq<Trade>, id: nat): (i: nat)
    ensures i <= |open|
    ensures i < |open| ==> open[i].id == id
    ensures forall j :: 0 <= j < i ==> open[j].id != id
  {
    if open == [] then 0
    else if open[0].id == id then 0
    else 1 + TradeIndex(open[1..], id)
  }

  // ---- settlement sweep ----------------------------------------------------

  function FoldPartial(t: Trade, v: real): Trade {
    t.(exitCash := t.exitCash + Weighted(v, t.Remaining()))
  }

  /** Fold the drained partial settlements into the open trades they name. */
  function FoldPartials(open: seq<Trade>, partials: seq<(nat, real)>): (r: seq<Trade>)
    ensures |r| == |open|
  {
    if partials == [] then open
    else
      var n := |partials| - 1;
      var folded := FoldPartials(open, partials[..n]);
      var i := TradeIndex(folded, partials[n].0);
      if i == |folded| then folded else folded[i := FoldPartial(folded[i], partials[n].1)]
  }

  /** The settlement dictionary: the last entry of a position wins. */
  function Telemetry(settlements: seq<(nat, real, real)>, id: nat): Option<real> {
    if settlements == [] then None
    else
      var n := |settlements| - 1;
      if settlements[n].0 == id then Some(settlements[n].1) else Telemetry(settlements[..n], id)
  }

  function SettleTrade(t: Trade, v: real): Trade
  {
    t.(exitCash := t.exitCash + Weighted(v, t.Remaining()),
    qtyClosed := if t.Remaining() >= 0 then t.maxQty else t.qtyClosed)
  }

  /** Sweep one open trade: keep it while the broker still holds the position. */
  function SweepOne(d: Desk, t: Trade): Desk {
    if IndexOf(d.ledger.book, t.id) < |d.ledger.book| then d.(open := d.open + [t])
    else
      match Telemetry(d.ledger.settlements, t.id)
      case Some(v) => d.(trades := d.trades + [ToRecord(SettleTrade(t, v))])
      case None => d.(trades := d.trades + [ToRecord(t)], unexplained := d.unexplained + 1)
  }

  function SweepAll(d: Desk, pending: seq<Trade>): Desk {
    if pending == [] then d
    else
      var n := |pending| - 1;
      SweepOne(SweepAll(d, pending[..n]), pending[n])
  }

  function Sweep(d: Desk): Desk {
    var folded := FoldPartials(d.open, d.ledger.partials);
    SweepAll(d.(ledger := d.ledger.(partials := []), open := []), folded)
  }

  function NextMarket(d: Desk, chains: map<string, Chain>, today: Date): Desk
  {
    Sweep(d.(ledger := UpdateMarket(d.ledger, chains, today, None, None)))
  }

  // ---- exits ---------------------------------------------------------------

  /** Units an action closes: everything at a fraction of one or more, else the
      fraction rounded half up, and possibly nothing. */
  function ClosingUnits(qty: nat, fraction: real): (u: nat)
    requires fraction >= 0.0
    ensures u <= qty
  {
    if fraction >= 1.0 then qty
    else
      var rounded := (qty as real * fraction + 0.5).Floor;
      if rounded <= 0 then 0 else if rounded <= qty then rounded else qty
  }

  function CloseOrder(p: Pos, units: nat): Order {
    Order(Mirror(p.legs, units), Close, Some(p.id), None, p.engine)
  }

  function BookExit(t: Trade, units: nat, price: real, commission: real): Trade {
    t.(commissions := t.commissions + commission,
    exitCash := t.exitCash + Weighted(price, units),
    qtyClosed := t.qtyClosed + units)
  }

  /** Book a filled close into the record layer; a fully closed trade is recorded. */
  function RecordExit(d: Desk, units: nat, price: real, commission: real, id: nat): Desk {
    var i := TradeIndex(d.open, id);
    if i == |d.open| then d
    else
      var t := BookExit(d.open[i], units, price, commission);
      if t.qtyClosed >= t.maxQty then
        d.(open := Remove(d.open, i), trades := d.trades + [ToRecord(t)])
      else
        d.(open := d.open[i := t])
  }

  /** Apply an action to the position with this id. */
  ghost function ExitOne(c: Setup, d: Desk, id: nat, action: Action): (r: Desk)
    requires Inv(d.ledger) && action.fraction >= 0.0
    ensures Inv(r.ledger)
  {
    var i := IndexOf(d.ledger.book, id);
    if i == |d.ledger.book| then d
    else
      var p := d.ledger.book[i];
      var units := ClosingUnits(p.qty, action.fraction);
      if units == 0 then d
      else
        SoundParts(d.ledger.market, d.ledger.reserved, p);
        MirrorWellFormed(p.legs, units);
        PlaceKeeps(c, d.ledger, CloseOrder(p, units));
        var (l, out) := Place(c, d.ledger, CloseOrder(p, units));
        FlagKeeps(l, id);
        match out
        case Rejected(_) => d.(ledger := l)
        case Filled(filled, price, commission, _) =>
          var recorded := RecordExit(d.(ledger := l), filled, price, commission, id);
          if action.isTp1 then recorded.(ledger := FlagDone(recorded.ledger, id)) else recorded
  }

  // ---- entries -------------------------------------------------------------

  function OpenOrder(p: Proposal, units: nat): Order {
    Order(Scaled(p.legs, units), Open, None, p.maxLoss, p.engine)
  }

  /** Send a sized proposal; a fill starts a trade at the fill price. */
  ghost function Enter(c: Setup, d: Desk, p: Proposal, units: int): (r: Desk)
    requires Inv(d.ledger) && WellFormed(p.legs)
    ensures Inv(r.ledger)
  {
    if units <= 0 then d
    else
      MirrorWellFormed(p.legs, units);
      PlaceKeeps(c, d.ledger, OpenOrder(p, units));
      var (l, out) := Place(c, d.ledger, OpenOrder(p, units));
      match out
      case Rejected(_) => d.(ledger := l)
      case Filled(filled, price, commission, id) =>
        d.(ledger := l, open := d.open + [Trade(id, price, filled, Multiplier(p.legs), commission, 0.0, 0)])
  }

  // ---- finalisation --------------------------------------------------------

  function AllContracts(legs: seq<Leg>): nat {
    if legs == [] then 0 else AllContracts(legs[..|legs| - 1]) + legs[|legs| - 1].qty
  }

  /** The commission added to the record of a position still open at the end. */
  function ClosingCharge(c: Setup, p: Pos): real {
    c.commissionRate * ((AllContracts(p.legs) * p.qty) as real)
  }

  function FinalTrade(c: Setup, p: Pos, t: Trade): Trade {
    t.(commissions := t.commissions + ClosingCharge(c, p),
    exitCash := t.exitCash + Weighted(p.value, p.qty),
    qtyClosed := t.qtyClosed + p.qty)
  }

  function FinalizeOne(c: Setup, d: Desk, p: Pos): Desk {
    var i := TradeIndex(d.open, p.id);
    if i == |d.open| then d
    else d.(open := Remove(d.open, i), trades := d.trades + [ToRecord(FinalTrade(c, p, d.open[i]))])
  }

  function FinalizeAll(c: Setup, d: Desk, pending: seq<Pos>): Desk {
    if pending == [] then d
    else
      var n := |pending| - 1;
      FinalizeOne(c, FinalizeAll(c, d, pending[..n]), pending[n])
  }

  function Finalize(c: Setup, d: Desk): Desk {
    FinalizeAll(c, d, d.ledger.book)
  }

  // ---- runs ----------------------------------------------------------------

  /** What one session brings: a market, the exit rules' verdict on each position
      (they ask for at most one action), and sized proposals in the order they are
      tried (hedge, catalyst, scheduled). */
  datatype Session = Session(
    chains: map<string, Chain>,
    today: Date,
    rule: nat -> Option<Action>,
    entries: seq<(Proposal, int)>)

  ghost predicate ValidSession(s: Session) {
    && (forall id :: s.rule(id).Some? ==> s.rule(id).value.fraction >= 0.0)
    && (forall i :: 0 <= i < |s.entries| ==> WellFormed(s.entries[i].0.legs))
  }

  /** The actions the rules ask for, in book order. */
  function ExitList(rule: nat -> Option<Action>, book: seq<Pos>): (exits: seq<(nat, Action)>)
    ensures (forall id :: rule(id).Some? ==> rule(id).value.fraction >= 0.0) ==>
              forall i :: 0 <= i < |exits| ==> exits[i].1.fraction >= 0.0
  {
    if book == [] then []
    else
      var n := |book| - 1;
      var earlier := ExitList(rule, book[..n]);
      match rule(book[n].id)
      case None => earlier
      case Some(action) => earlier + [(book[n].id, action)]
  }

  /** Scale-outs round half up: the units are the whole number nearest to the asked
      share, and never more than the position holds. */
  lemma ClosingUnitsRoundHalfUp(qty: nat, fraction: real)
    requires 0.0 <= fraction < 1.0
    ensures var u := ClosingUnits(qty, fraction);
            && u <= qty
            && (u as real) - 0.5 <= (qty as real) * fraction < (u as real) + 0.5
  {
    ProductNonNegative(qty as real, fraction);
    ProductNonNegative(qty as real, 1.0 - fraction);
  }

  ghost function ExitAll(c: Setup, d: Desk, exits: seq<(nat, Action)>): (r: Desk)
    requires Inv(d.ledger)
    requires forall i :: 0 <= i < |exits| ==> exits[i].1.fraction >= 0.0
    ensures Inv(r.ledger)
  {
    if exits == [] then d
    else
      var n := |exits| - 1;
      ExitOne(c, ExitAll(c, d, exits[..n]), exits[n].0, exits[n].1)
  }

  ghost function EnterAll(c: Setup, d: Desk, entries: seq<(Proposal, int)>): (r: Desk)
    requires Inv(d.ledger)
    requires forall i :: 0 <= i < |entries| ==> WellFormed(entries[i].0.legs)
    ensures Inv(r.ledger)
  {
    if entries == [] then d
    else
      var n := |entries| - 1;
      Enter(c, EnterAll(c, d, entries[..n]), entries[n].0, entries[n].1)
  }
}
