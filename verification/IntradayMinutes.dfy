// One decision minute, and a whole session as the succession of its minutes
// (src/catalyst/backtest/intraday.py:153-250, 332-384).
module IntradayMinutes {
  import opened Common
  import opened Instruments
  import opened Ratios
  import opened Market
  import opened LedgerModel
  import opened LedgerInvariant
  import opened OrderProperties
  import Daily = DailyModel
  import Exit = DailyExits
  import opened IntradayModel
  import opened IntradayRuns
  import opened IntradayExits

  // ---- the market of a minute ----------------------------------------------

  /** The same positions in the same order, at most their marks and high waters changed. */
  ghost predicate Remarked(before: seq<Pos>, now: seq<Pos>) {
    |now| == |before| && forall i :: 0 <= i < |before| ==> now[i] == before[i].(value := now[i].value, high := now[i].high)
  }

  /** A market update of a session: the books are replaced, the marks follow. */
  ghost predicate MarketSeen(l: Ledger, r: Ledger, m: Snapshot, day: Date) {
    && r.market == m && r.today == Some(day) && r.cash == l.cash && r.orders == l.orders
    && Remarked(l.book, r.book)
  }

  lemma UpdateSees(d: Pit, chains: map<string, Chain>, day: Date,
                   marks: Option<map<string, Quote>>, fills: Option<map<string, Quote>>)
    requires PitInv(d, day)
    ensures var m := d.ledger.market;
            MarketSeen(d.ledger, UpdateMarket(d.ledger, chains, day, marks, fills),
                       Snapshot(chains, if marks.Some? then marks.value else m.marks, if fills.Some? then fills else m.fills), day)
  {
    hide Inv, Whole, UpdateMarket, RememberSpots, CountStale, MarkValue;
    UpdateOnlyMarks(d.ledger, chains, day, marks, fills);
  }

  /** What the breaker has lost since the open reaches the halt, which is negative. */
  predicate Drawn(openEquity: real, halt: real, now: real) {
    openEquity > 0.0 && now <= (1.0 + halt) * openEquity
  }

  lemma DrawnIff(openEquity: real, halt: real, now: real)
    ensures Breached(openEquity, halt, now) <==> Drawn(openEquity, halt, now)
  {
    if openEquity > 0.0 {
      var q := now / openEquity;
      assert q * openEquity == now;
      QuotientAtMost(q, 1.0 + halt, openEquity);
    }
  }

  /** The start of a minute: the market as it is now, and the breaker, which stays on. */
  ghost predicate Begun(d: Pit, e: Pit, t: Tick, day: Date, openEquity: real, halt: real) {
    && MarketSeen(d.ledger, e.ledger, Snapshot(t.chains, t.marks, Some(t.fills)), day)
    && e == d.(ledger := e.ledger, breakerHit := e.breakerHit)
    && (e.breakerHit <==> d.breakerHit || Drawn(openEquity, halt, e.ledger.cash + Sum(MarketValue(), e.ledger.book)))
  }

  lemma MinuteBegins(d: Pit, t: Tick, day: Date, openEquity: real, halt: real)
    requires PitInv(d, day)
    ensures Begun(d, Watch(See(d, t, day), openEquity, halt), t, day, openEquity, halt)
  {
    hide PitInv, Inv, UpdateMarket, Breached, Drawn;
    UpdateSees(d, t.chains, day, Some(t.marks), Some(t.fills));
    DrawnIff(openEquity, halt, Equity(See(d, t, day).ledger));
  }

  // ---- entries -------------------------------------------------------------

  /** What an order of the proposal times its units does to the pit. */
  ghost predicate Sent(g: Params, d: Pit, r: Pit, a: Attempt)
    requires WellFormed(a.proposal.legs)
  {
    var p := a.proposal;
    if a.units <= 0 then r == d.(riskBlocked := d.riskBlocked + 1)
    else
      var o := Order(Scaled(p.legs, a.units), Open, None, p.maxLoss, p.engine);
      && WellFormed(o.legs)
      && var (l, out) := Place(g.setup, d.ledger, o);
         if out.Rejected? then l.book == d.ledger.book && r == d.(ledger := l, unquotable := d.unquotable + 1)
         else
           && |l.book| == |d.ledger.book| + 1 && l.book[..|d.ledger.book|] == d.ledger.book
           && Exit.HoldsUnits(l.book[|d.ledger.book|], p, a.units)
           && r == d.(ledger := l, open := d.open[out.id := Tag(a.strategy, p.legs[0].key.underlying)], entries := d.entries + 1)
  }

  lemma SendIs(g: Params, d: Pit, a: Attempt)
    requires Inv(d.ledger) && WellFormed(a.proposal.legs)
    ensures Sent(g, d, Send(g, d, a), a)
  {
    hide Inv, Place, Scaled, UnitsOf, Exit.HoldsUnits, WellFormed;
    if a.units > 0 {
      MirrorWellFormed(a.proposal.legs, a.units);
      var o := Daily.OpenOrder(a.proposal, a.units);
      if Place(g.setup, d.ledger, o).1.Filled? {
        Exit.OpensUnits(g.setup, d.ledger, a.proposal, a.units);
      } else {
        RejectionChangesNothing(g.setup, d.ledger, o);
      }
    }
  }

  /** One proposal: passed over when the strategy already holds that symbol, counted when the
      breaker is on, otherwise sent against its own chains. */
  ghost predicate Attempted(g: Params, d: Pit, r: Pit, a: Attempt, day: Date)
    requires WellFormed(a.proposal.legs)
  {
    if exists id :: id in d.open && d.open[id].strategy == a.strategy && d.open[id].symbol == a.proposal.legs[0].key.underlying then r == d
    else if d.breakerHit then r == d.(breakerBlocked := d.breakerBlocked + 1)
    else
      var e := d.(ledger := UpdateMarket(d.ledger, a.chains, day, None, None));
      && MarketSeen(d.ledger, e.ledger, Snapshot(a.chains, d.ledger.market.marks, d.ledger.market.fills), day)
      && Sent(g, e, r, a)
  }

  lemma HeldTag(d: Pit, a: Attempt)
    requires a.proposal.legs != []
    ensures a.Tagged() in d.open.Values <==>
            exists id :: id in d.open && d.open[id].strategy == a.strategy && d.open[id].symbol == a.proposal.legs[0].key.underlying
  {
  }

  lemma AttemptIs(g: Params, d: Pit, a: Attempt, day: Date)
    requires PitInv(d, day) && Inv(d.ledger) && WellFormed(a.proposal.legs)
    ensures Attempted(g, d, Enter(g, d, day, a), a, day)
  {
    hide PitInv, Inv, UpdateMarket, Send, Sent;
    HeldTag(d, a);
    hide WellFormed;
    UpdateSees(d, a.chains, day, None, None);
    AdvanceKeeps(d.ledger, a.chains, day, None, None);
    SendIs(g, d.(ledger := UpdateMarket(d.ledger, a.chains, day, None, None)), a);
  }

  /** Every proposal of a minute takes its turn, in order. */
  lemma AttemptsInOrder(g: Params, d: Pit, attempts: seq<Attempt>, day: Date, k: nat)
    requires PitInv(d, day) && Inv(d.ledger) && Matching(g.setup)
    requires forall i :: 0 <= i < |attempts| ==> ValidAttempt(attempts[i], day)
    ensures EnterAll(g, d, day, attempts[..0]) == d
    ensures k < |attempts| ==>
              && WellFormed(attempts[k].proposal.legs)
              && Attempted(g, EnterAll(g, d, day, attempts[..k]), EnterAll(g, d, day, attempts[..k + 1]), attempts[k], day)
  {
    hide PitInv, Inv, Matching, Enter, Attempted, WellFormed, Unexpired, PitStake;
    if k < |attempts| {
      EnterAllKeeps(g, d, attempts[..k], day);
      assert attempts[..k + 1][..k] == attempts[..k];
      assert ValidAttempt(attempts[k], day);
      AttemptIs(g, EnterAll(g, d, day, attempts[..k]), attempts[k], day);
    }
  }

  /** Entries close nothing: what was held stays in its place under its tag, new tags carry
      new ids, and the records and the counts of exits do not move. */
  ghost predicate OnlyEntered(d: Pit, r: Pit) {
    && |d.ledger.book| <= |r.ledger.book| && Remarked(d.ledger.book, r.ledger.book[..|d.ledger.book|])
    && (forall id :: id in d.open ==> id in r.open && r.open[id] == d.open[id])
    && (forall id :: id in r.open && id !in d.open ==> id > d.ledger.orders)
    && r.ledger.orders >= d.ledger.orders
    && r.trades == d.trades && r.synthetic == d.synthetic && r.retries == d.retries && r.flattens == d.flattens
    && r.breakerHit == d.breakerHit
  }

  lemma EnteredTwice(d: Pit, e: Pit, r: Pit)
    requires OnlyEntered(d, e) && OnlyEntered(e, r)
    ensures OnlyEntered(d, r)
  {
    var n := |d.ledger.book|;
    assert r.ledger.book[..n] == r.ledger.book[..|e.ledger.book|][..n];
  }

  lemma NewId(c: Setup, l: Ledger, o: Order)
    requires WellFormed(o.legs) && o.intent.Open?
    ensures var (r, out) := Place(c, l, o);
            r.orders >= l.orders && (out.Filled? ==> out.id == l.orders + 1)
  {
    hide WellFormed, AllQuotable, Premium, Commission, Opened, NeedsReserve, Total;
  }

  lemma SentAdds(g: Params, d: Pit, r: Pit, a: Attempt, day: Date)
    requires PitInv(d, day) && WellFormed(a.proposal.legs) && Sent(g, d, r, a)
    ensures OnlyEntered(d, r)
  {
    hide PitInv, Inv, Place, Scaled, Exit.HoldsUnits, WellFormed;
    var n := |d.ledger.book|;
    assert d.ledger.book[..n] == d.ledger.book;
    if a.units > 0 {
      var o := Order(Scaled(a.proposal.legs, a.units), Open, None, a.proposal.maxLoss, a.proposal.engine);
      NewId(g.setup, d.ledger, o);
      var (l, out) := Place(g.setup, d.ledger, o);
      if out.Filled? {
        NewIdIsFree(d, day, out.id);
      }
    }
  }

  lemma AttemptAdds(g: Params, d: Pit, a: Attempt, day: Date)
    requires PitInv(d, day) && Inv(d.ledger) && WellFormed(a.proposal.legs)
    ensures OnlyEntered(d, Enter(g, d, day, a))
  {
    hide PitInv, Inv, UpdateMarket, Sent, Enter, WellFormed;
    AttemptIs(g, d, a, day);
    var n := |d.ledger.book|;
    var e := d.(ledger := UpdateMarket(d.ledger, a.chains, day, None, None));
    UpdateKeepsPit(g.setup, d, a.chains, day, None, None);
    assert d.ledger.book[..n] == d.ledger.book;
    if Sent(g, e, Enter(g, d, day, a), a) {
      SentAdds(g, e, Enter(g, d, day, a), a, day);
      assert |e.ledger.book| == n ==> e.ledger.book[..n] == e.ledger.book;
      if MarketSeen(d.ledger, e.ledger, Snapshot(a.chains, d.ledger.market.marks, d.ledger.market.fills), day) {
        EnteredTwice(d, e, Enter(g, d, day, a));
      }
    }
  }

  lemma {:induction false} AttemptsAdd(g: Params, d: Pit, attempts: seq<Attempt>, day: Date)
    requires PitInv(d, day) && Inv(d.ledger) && Matching(g.setup)
    requires forall i :: 0 <= i < |attempts| ==> ValidAttempt(attempts[i], day)
    ensures OnlyEntered(d, EnterAll(g, d, day, attempts))
  {
    hide PitInv, Inv, Matching, Enter, OnlyEntered, WellFormed, Unexpired, PitStake;
    if attempts == [] {
      NothingEntered(d);
    } else {
      var n := |attempts| - 1;
      var before := EnterAll(g, d, day, attempts[..n]);
      AttemptsAdd(g, d, attempts[..n], day);
      EnterAllKeeps(g, d, attempts[..n], day);
      assert ValidAttempt(attempts[n], day);
      AttemptAdds(g, before, attempts[n], day);
      EnteredTwice(d, before, EnterAll(g, d, day, attempts));
    }
  }

  lemma NothingEntered(d: Pit)
    ensures OnlyEntered(d, d)
  {
    assert d.ledger.book[..|d.ledger.book|] == d.ledger.book;
  }

  // ---- one minute ----------------------------------------------------------

  /** The state of a minute when its market is known. */
  ghost function Start(s: Session, openEquity: real, d: Pit, ts: int): Pit {
    Watch(See(d, s.feed(ts), s.day), openEquity, s.halt)
  }

  /** What a decision minute does. The market and the breaker come first. Before the flatten
      time every position whose rule fired is sold or refused, the others stay, and then
      proposals only add. From the flatten time on everything held is closed by force. */
  ghost predicate MinuteDone(g: Params, s: Session, openEquity: real, d: Pit, ts: int, r: Pit) {
    var e, t := Start(s, openEquity, d, ts), s.feed(ts);
    && Begun(d, e, t, s.day, openEquity, s.halt)
    && Stocked(e.ledger.book)
    && var n := |e.ledger.book|;
       if ts >= s.flattenAt then FlatTo(g, e, r, n) && r.open == map[]
       else exists x: Pit :: PassedTo(g, e, t.hit, x, n) && OnlyEntered(x, r)
  }

  lemma MinuteIs(g: Params, s: Session, openEquity: real, d: Pit, ts: int)
    requires PitInv(d, s.day) && Inv(d.ledger) && ValidSession(s) && Matching(g.setup)
    ensures MinuteDone(g, s, openEquity, d, ts, Minute(g, s, openEquity, d, ts))
  {
    hide PitInv, PitStake, Inv, Matching, FlattenAll, EnterAll, ExitAll, Watch, See, Begun, FlatTo, PassedTo, OnlyEntered, Stocked, Ids;
    var t, e := s.feed(ts), Start(s, openEquity, d, ts);
    assert ValidTick(t, s.day);
    MinuteBegins(d, t, s.day, openEquity, s.halt);
    SeenKeeps(g.setup, d, t, s.day, openEquity, s.halt);
    InvOf(e, s.day);
    StockedBook(e, s.day);
    Today(d, e, t, s.day, openEquity, s.halt);
    WholeIds(e.ledger.book);
    if ts >= s.flattenAt {
      FlatPass(g, e, |e.ledger.book|, s.day);
      FlatKeeps(g, e, s.day);
      NoIds(Flat(g, e).ledger.book);
      NothingToExit(g, Flat(g, e), t.hit);
    } else {
      ExitsPass(g, e, t.hit, |e.ledger.book|, s.day);
      ExitAllKeeps(g, e, Ids(e.ledger.book), t.hit, s.day);
      AttemptsAdd(g, Exits(g, e, t.hit), t.attempts, s.day);
    }
  }

  lemma Today(d: Pit, e: Pit, t: Tick, day: Date, openEquity: real, halt: real)
    requires Begun(d, e, t, day, openEquity, halt)
    ensures e.ledger.today == Some(day)
  {
  }

  lemma WholeIds(book: seq<Pos>)
    ensures Ids(book)[..|book|] == Ids(book)
  {
  }

  lemma NoIds(book: seq<Pos>)
    requires book == []
    ensures Ids(book) == []
  {
  }

  // ---- a session -----------------------------------------------------------

  /** The time k steps after ts. */
  function TimeAt(s: Session, ts: int, k: nat): int {
    ts + k * s.every
  }

  /** The state that minute k of a trace from d starts in. */
  function Before(d: Pit, tr: seq<(int, Pit)>, k: nat): Pit
    requires k <= |tr|
  {
    if k == 0 then d else tr[k - 1].1
  }

  /** Every minute of a session falls a whole number of steps after the first, not after the
      end, and does what a minute does to the state the one before left. */
  lemma {:induction false} MinuteAt(g: Params, s: Session, openEquity: real, d: Pit, ts: int, k: nat)
    requires PitInv(d, s.day) && Inv(d.ledger) && ValidSession(s) && Matching(g.setup)
    requires k < |Trace(g, s, openEquity, d, ts)|
    ensures var tr := Trace(g, s, openEquity, d, ts);
            && tr[k].0 == TimeAt(s, ts, k) <= s.end
            && PitInv(Before(d, tr, k), s.day)
            && MinuteDone(g, s, openEquity, Before(d, tr, k), tr[k].0, tr[k].1)
    decreases k
  {
    hide PitInv, PitStake, Inv, Matching, Minute, MinuteDone;
    var e := Minute(g, s, openEquity, d, ts);
    MinuteIs(g, s, openEquity, d, ts);
    MinuteKeeps(g, s, openEquity, d, ts);
    if k > 0 {
      MinuteAt(g, s, openEquity, e, ts + s.every, k - 1);
      OneStepOn(s, ts, k - 1);
    }
  }

  lemma OneStepOn(s: Session, ts: int, k: nat)
    ensures TimeAt(s, ts + s.every, k) == TimeAt(s, ts, k + 1)
  {
  }

  /** The loop runs until the next step is after the end, and ends in its last minute's state. */
  lemma {:induction false} LoopEnds(g: Params, s: Session, openEquity: real, d: Pit, ts: int)
    requires Inv(d.ledger) && ValidSession(s)
    ensures var tr := Trace(g, s, openEquity, d, ts);
            TimeAt(s, ts, |tr|) > s.end && Minutes(g, s, openEquity, d, ts) == Before(d, tr, |tr|)
    decreases s.end - ts
  {
    hide Inv, Minute, ValidTick;
    if ts <= s.end {
      var e := Minute(g, s, openEquity, d, ts);
      LoopEnds(g, s, openEquity, e, ts + s.every);
      OneStepOn(s, ts, |Trace(g, s, openEquity, e, ts + s.every)|);
    }
  }

  /** A session that has bars runs its minutes from an empty book with the breaker off,
      measured against the equity it opens with, sees the market once more and closes by force
      whatever is left. One without bars does nothing. */
  lemma SessionIs(g: Params, d: Pit, s: Session)
    requires AtRest(d) && Inv(d.ledger) && ValidSession(s) && Matching(g.setup)
    ensures var first, equity := d.(open := map[], breakerHit := false), d.ledger.cash;
            var tr := Trace(g, s, equity, first, s.start);
            var last := Before(first, tr, |tr|);
            var seen := See(last, s.closing, s.day);
            var r := RunSession(g, d, s);
            if !s.hasBars then r == d
            else
              && PitInv(first, s.day)
              && MarketSeen(last.ledger, seen.ledger, Snapshot(s.closing.chains, s.closing.marks, Some(s.closing.fills)), s.day)
              && Stocked(seen.ledger.book)
              && FlatTo(g, seen, r, |seen.ledger.book|) && r.open == map[]
  {
    hide PitInv, PitStake, Inv, Matching, Minutes, Trace, FlattenAll, UpdateMarket, ValidSession, FlatTo, Stocked, Ids, AtRest;
    FlatEquity(d);
    if s.hasBars {
      var first := d.(open := map[], breakerHit := false);
      RestIsPit(g.setup, d, s.day);
      MinutesKeep(g, s, d.ledger.cash, first, s.start);
      LoopEnds(g, s, d.ledger.cash, first, s.start);
      var last := Minutes(g, s, d.ledger.cash, first, s.start);
      var seen := See(last, s.closing, s.day);
      UpdateSees(last, s.closing.chains, s.day, Some(s.closing.marks), Some(s.closing.fills));
      SeenKeeps(g.setup, last, s.closing, s.day, 0.0, 0.0);
      InvOf(seen, s.day);
      StockedBook(seen, s.day);
      WholeIds(seen.ledger.book);
      FlatPass(g, seen, |seen.ledger.book|, s.day);
      FlatKeeps(g, seen, s.day);
    }
  }

  lemma FlatEquity(d: Pit)
    requires AtRest(d)
    ensures Equity(d.ledger) == d.ledger.cash
  {
    hide Inv;
  }

  /** So it goes for every session of a run. */
  lemma EverySession(g: Params, start: real, ss: seq<Session>, k: nat)
    requires ValidSessions(ss) && Matching(g.setup) && k < |ss|
    ensures var d := RunIntraday(g, start, ss[..k]);
            AtRest(d) && ValidSession(ss[k]) && RunIntraday(g, start, ss[..k + 1]) == RunSession(g, d, ss[k])
  {
    hide AtRest, Inv, Matching, RunSession, PitStake, ValidSession;
    assert ss[..k + 1][..k] == ss[..k];
    RestOverRun(g, start, ss[..k]);
  }
}
