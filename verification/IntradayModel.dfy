// The minute loop of the intraday backtester
// (src/catalyst/backtest/intraday.py:153-476) as steps over values. Intraday.dfy
// holds the class that performs these steps in place.
module IntradayModel {
  import opened Common
  import opened Instruments
  import opened Market
  import opened LedgerModel
  import opened LedgerInvariant
  import opened DailyModel

  /** What open_state knows about a position. */
  datatype Tag = Tag(strategy: string, symbol: string)

  /** Broker ledger, open_state, records and counters of one session. */
  datatype Pit = Pit(
    ledger: Ledger,
    open: map<nat, Tag>,
    trades: seq<Record>,
    breakerHit: bool,
    entries: nat,
    riskBlocked: nat,
    breakerBlocked: nat,
    unquotable: nat,
    synthetic: nat,
    retries: nat,
    flattens: nat)

  /** A proposal of one strategy, the chains as re-read for its contracts, and the
      units the risk gate grants it. */
  datatype Attempt = Attempt(strategy: string, proposal: Proposal, chains: map<string, Chain>, units: int) {
    function Tagged(): Tag
      requires proposal.legs != []
    {
      Tag(strategy, proposal.legs[0].key.underlying)
    }
  }

  /** The market at one minute, the exit rules' verdicts, and the proposals made. */
  datatype Tick = Tick(
    chains: map<string, Chain>,
    marks: map<string, Quote>,
    fills: map<string, Quote>,
    hit: nat -> bool,
    attempts: seq<Attempt>)

  /** Times are minutes. closing is the market re-read at the flatten time. */
  datatype Session = Session(
    day: Date,
    hasBars: bool,
    start: int,
    end: int,
    flattenAt: int,
    every: nat,
    halt: real,
    feed: int -> Tick,
    closing: Tick)

  datatype Params = Params(setup: Setup, haircut: real)

  ghost predicate ValidAttempt(a: Attempt, day: Date) {
    WellFormed(a.proposal.legs) && Unexpired(a.proposal.legs, day)
  }

  ghost predicate Unexpired(legs: seq<Leg>, day: Date) {
    forall i :: 0 <= i < |legs| ==> !legs[i].Expired(day)
  }

  ghost predicate ValidTick(t: Tick, day: Date) {
    forall i :: 0 <= i < |t.attempts| ==> ValidAttempt(t.attempts[i], day)
  }

  ghost predicate ValidSession(s: Session) {
    s.every >= 1 && forall ts :: ValidTick(s.feed(ts), s.day)
  }

  // ---- closing -------------------------------------------------------------

  /** The price of a synthetic close: the last mark moved against the holder. */
  function Synthetic(haircut: real, mark: real): real {
    mark * (if mark >= 0.0 then haircut else 2.0 - haircut)
  }

  /** The record of a position closed whole: both commissions are charged. */
  function WholeRecord(c: Setup, p: Pos, price: real, closing: real): Record {
    Record(p.id, p.entry, price, p.qty,
           p.Worth(price - p.entry) - closing - CloseCommission(c.commissionRate, p.legs, p.qty),
           p.qty)
  }

  /** What follows from the broker's answer l, out to a whole close of p. */
  function BookClose(g: Params, d: Pit, p: Pos, force: bool, l: Ledger, out: Outcome): (Pit, bool) {
    match out
    case Filled(_, price, commission, _) =>
      (d.(ledger := l, trades := d.trades + [WholeRecord(g.setup, p, price, commission)]), true)
    case Rejected(_) =>
      if force then
        var v := Synthetic(g.haircut, p.value);
        (d.(ledger := LedgerModel.ForceClose(g.setup, l, p.id, v),
         trades := d.trades + [WholeRecord(g.setup, p, v, CloseCommission(g.setup.commissionRate, p.legs, p.qty))],
         synthetic := d.synthetic + 1),
         true)
      else
        (d.(ledger := l, retries := d.retries + 1), false)
  }

  /** Close the position with this id whole; only a forced close always succeeds. */
  ghost function CloseWhole(g: Params, d: Pit, id: nat, force: bool): (r: (Pit, bool))
    requires Inv(d.ledger)
    ensures Inv(r.0.ledger)
  {
    var i := IndexOf(d.ledger.book, id);
    if i == |d.ledger.book| then (d, false)
    else
      var p := d.ledger.book[i];
      SoundParts(d.ledger.market, d.ledger.reserved, p);
      MirrorWellFormed(p.legs, p.qty);
      PlaceKeeps(g.setup, d.ledger, CloseOrder(p, p.qty));
      var (l, out) := Place(g.setup, d.ledger, CloseOrder(p, p.qty));
      ForceKeeps(g.setup, l, p.id, Synthetic(g.haircut, p.value));
      BookClose(g, d, p, force, l, out)
  }

  /** One exit decision: the tag goes only when the position really left. */
  ghost function ExitOne(g: Params, d: Pit, id: nat, hit: bool): (r: Pit)
    requires Inv(d.ledger)
    ensures Inv(r.ledger)
  {
    if id in d.open && hit then
      var (e, left) := CloseWhole(g, d, id, false);
      if left then e.(open := e.open - {id}) else e
    else d
  }

  ghost function ExitAll(g: Params, d: Pit, ids: seq<nat>, hit: nat -> bool): (r: Pit)
    requires Inv(d.ledger)
    ensures Inv(r.ledger)
  {
    if ids == [] then d
    else ExitOne(g, ExitAll(g, d, ids[..|ids| - 1], hit), ids[|ids| - 1], hit(ids[|ids| - 1]))
  }

  ghost function FlattenOne(g: Params, d: Pit, id: nat): (r: Pit)
    requires Inv(d.ledger)
    ensures Inv(r.ledger)
  {
    var e := CloseWhole(g, d, id, true).0;
    e.(open := e.open - {id}, flattens := e.flattens + 1)
  }

  ghost function FlattenAll(g: Params, d: Pit, ids: seq<nat>): (r: Pit)
    requires Inv(d.ledger)
    ensures Inv(r.ledger)
  {
    if ids == [] then d
    else FlattenOne(g, FlattenAll(g, d, ids[..|ids| - 1]), ids[|ids| - 1])
  }

  function Ids(book: seq<Pos>): (ids: seq<nat>)
    ensures |ids| == |book| && forall i :: 0 <= i < |book| ==> ids[i] == book[i].id
  {
    seq(|book|, i requires 0 <= i < |book| => book[i].id)
  }

  // ---- entering ------------------------------------------------------------

  /** One proposal: at most one position per tag, none after the breaker. */
  ghost function Enter(g: Params, d: Pit, day: Date, a: Attempt): (r: Pit)
    requires Inv(d.ledger) && WellFormed(a.proposal.legs)
    ensures Inv(r.ledger)
  {
    if a.Tagged() in d.open.Values then d
    else if d.breakerHit then d.(breakerBlocked := d.breakerBlocked + 1)
    else
      AdvanceKeeps(d.ledger, a.chains, day, None, None);
      Send(g, d.(ledger := UpdateMarket(d.ledger, a.chains, day, None, None)), a)
  }

  /** Size and send an admitted proposal; a fill is tagged under its position. */
  ghost function Send(g: Params, d: Pit, a: Attempt): (r: Pit)
    requires Inv(d.ledger) && WellFormed(a.proposal.legs)
    ensures Inv(r.ledger)
  {
    if a.units <= 0 then d.(riskBlocked := d.riskBlocked + 1)
    else
      MirrorWellFormed(a.proposal.legs, a.units);
      PlaceKeeps(g.setup, d.ledger, OpenOrder(a.proposal, a.units));
      var (l, out) := Place(g.setup, d.ledger, OpenOrder(a.proposal, a.units));
      match out
      case Rejected(_) => d.(ledger := l, unquotable := d.unquotable + 1)
      case Filled(_, _, _, id) => d.(ledger := l, open := d.open[id := a.Tagged()], entries := d.entries + 1)
  }

  ghost function EnterAll(g: Params, d: Pit, day: Date, attempts: seq<Attempt>): (r: Pit)
    requires Inv(d.ledger) && forall i :: 0 <= i < |attempts| ==> ValidAttempt(attempts[i], day)
    ensures Inv(r.ledger)
  {
    if attempts == [] then d
    else
      var n := |attempts| - 1;
      assert ValidAttempt(attempts[n], day);
      Enter(g, EnterAll(g, d, day, attempts[..n]), day, attempts[n])
  }

  // ---- the minute loop -----------------------------------------------------

  function Breached(openEquity: real, halt: real, now: real): bool {
    openEquity > 0.0 && now / openEquity - 1.0 <= halt
  }

  function See(d: Pit, t: Tick, day: Date): Pit {
    d.(ledger := UpdateMarket(d.ledger, t.chains, day, Some(t.marks), Some(t.fills)))
  }

  function Watch(d: Pit, openEquity: real, halt: real): Pit {
    d.(breakerHit := d.breakerHit || Breached(openEquity, halt, Equity(d.ledger)))
  }

  ghost function Flat(g: Params, d: Pit): (r: Pit)
    requires Inv(d.ledger)
    ensures Inv(r.ledger)
  {
    FlattenAll(g, d, Ids(d.ledger.book))
  }

  ghost function Exits(g: Params, d: Pit, hit: nat -> bool): (r: Pit)
    requires Inv(d.ledger)
    ensures Inv(r.ledger)
  {
    ExitAll(g, d, Ids(d.ledger.book), hit)
  }

  /** One decision minute: market, breaker, flatten when due, exits, then entries
      while it is still early. */
  ghost function Minute(g: Params, s: Session, openEquity: real, d: Pit, ts: int): (r: Pit)
    requires Inv(d.ledger) && ValidSession(s)
    ensures Inv(r.ledger)
  {
    var t := s.feed(ts);
    assert ValidTick(t, s.day);
    AdvanceKeeps(d.ledger, t.chains, s.day, Some(t.marks), Some(t.fills));
    var seen := Watch(See(d, t, s.day), openEquity, s.halt);
    if ts >= s.flattenAt then Exits(g, Flat(g, seen), t.hit)
    else EnterAll(g, Exits(g, seen, t.hit), s.day, t.attempts)
  }

  ghost function Minutes(g: Params, s: Session, openEquity: real, d: Pit, ts: int): (r: Pit)
    requires Inv(d.ledger) && ValidSession(s)
    ensures Inv(r.ledger)
    decreases s.end - ts
  {
    if ts > s.end then d
    else Minutes(g, s, openEquity, Minute(g, s, openEquity, d, ts), ts + s.every)
  }

  /** A whole session: the loop, then the market re-read at the flatten time and the
      mandatory flatten. A session without bars is skipped. */
  ghost function RunSession(g: Params, d: Pit, s: Session): (r: Pit)
    requires Inv(d.ledger) && ValidSession(s)
    ensures Inv(r.ledger)
  {
    if !s.hasBars then d
    else
      var e := Minutes(g, s, Equity(d.ledger), d.(open := map[], breakerHit := false), s.start);
      AdvanceKeeps(e.ledger, s.closing.chains, s.day, Some(s.closing.marks), Some(s.closing.fills));
      Flat(g, See(e, s.closing, s.day))
  }

  function OpeningPit(start: real): Pit {
    Pit(Opening(start), map[], [], false, 0, 0, 0, 0, 0, 0, 0)
  }

  ghost predicate ValidSessions(ss: seq<Session>) {
    forall i :: 0 <= i < |ss| ==> ValidSession(ss[i])
  }

  ghost function RunIntraday(g: Params, start: real, ss: seq<Session>): (r: Pit)
    requires ValidSessions(ss)
    ensures Inv(r.ledger)
  {
    if ss == [] then
      Reachable(g.setup, start, []);
      OpeningPit(start)
    else
      RunSession(g, RunIntraday(g, start, ss[..|ss| - 1]), ss[|ss| - 1])
  }
}
