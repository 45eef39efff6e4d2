// TradingSession (src/catalyst/execution/session.py): the cycle loop, its tracked
// positions and its counters, over an ExecutionEngine.
module Session {
  import opened Common
  import opened Execution
  import Promotion

  datatype Stats = Stats(
    cycles: nat,
    proposals: nat,
    entriesFilled: nat,
    exitsFilled: nat,
    rejected: nat,
    roundTrips: nat,
    errors: nat)

  /** open lists the tracked position ids, oldest first. */
  datatype Desk = Desk(open: seq<string>, stats: Stats, flight: Flight)

  const OPENING := Desk([], Stats(0, 0, 0, 0, 0, 0, 0), GROUNDED)

  /** What happens to one tracked position in a cycle: no exit is due, the rules or the
      broker raise, or a close is attempted and answered (nothing when refused). */
  datatype ExitInput = NoAction | ExitRaises | Closed(answer: Option<OrderStatus>)

  /** What happens to one due catalyst; trackRaises says that building the tracked
      position of a fill fails. */
  datatype EntryInput = NoProposal | EvaluateRaises | SubmitRaises | Proposed(submission: Submission, trackRaises: bool)

  /** One cycle: the positions the broker reports (None when reconciling raises), the
      verdict on each tracked position, the due catalysts, and the kill switch at the
      end. */
  datatype Cycle = Cycle(live: Option<set<string>>, exits: string -> ExitInput, entries: seq<EntryInput>, killed: bool)

  function Without(open: seq<string>, id: string): (r: seq<string>)
    ensures |r| <= |open|
    ensures forall x :: x in r <==> x in open && x != id
  {
    if open == [] then []
    else
      var rest := Without(open[..|open| - 1], id);
      var last := open[|open| - 1];
      assert open == open[..|open| - 1] + [last];
      if last == id then rest else rest + [last]
  }

  function Track(open: seq<string>, id: string): seq<string> {
    if id in open then open else open + [id]
  }

  // ---- exits ---------------------------------------------------------------

  /** One tracked position; true when the cycle was cut short by an exception. */
  function ExitOne(d: Desk, live: set<string>, id: string, input: ExitInput): (Desk, bool) {
    if id !in live then (d.(open := Without(d.open, id)), false)
    else
      match input
      case NoAction => (d, false)
      case ExitRaises => (d, true)
      case Closed(None) => (d, false)
      case Closed(Some(status)) =>
        if status == Filled then
          (d.(open := Without(d.open, id),
           stats := d.stats.(exitsFilled := d.stats.exitsFilled + 1, roundTrips := d.stats.roundTrips + 1)),
           false)
        else
          (d.(stats := d.stats.(rejected := d.stats.rejected + 1)), false)
  }

  function ExitAll(d: Desk, live: set<string>, ids: seq<string>, exits: string -> ExitInput): (Desk, bool) {
    if ids == [] then (d, false)
    else
      var n := |ids| - 1;
      var (e, raised) := ExitAll(d, live, ids[..n], exits);
      if raised then (e, true) else ExitOne(e, live, ids[n], exits(ids[n]))
  }

  // ---- entries -------------------------------------------------------------

  function Enter(g: Engine, d: Desk, input: EntryInput): (Desk, bool) {
    match input
    case NoProposal => (d, false)
    case EvaluateRaises => (d, true)
    case SubmitRaises => (d.(stats := d.stats.(proposals := d.stats.proposals + 1)), true)
    case Proposed(s, trackRaises) =>
      var (flight, answer) := AfterSubmit(g, d.flight, s);
      var e := d.(flight := flight, stats := d.stats.(proposals := d.stats.proposals + 1));
      match answer
      case None => (e, false)
      case Some(a) =>
        if a.status == Filled then
          (e.(open := if trackRaises then e.open else Track(e.open, "pos-" + a.orderId),
           stats := e.stats.(entriesFilled := e.stats.entriesFilled + 1)),
           trackRaises)
        else if a.status == Rejected then
          (e.(stats := e.stats.(rejected := e.stats.rejected + 1)), false)
        else (e, false)
  }

  function EnterAll(g: Engine, d: Desk, inputs: seq<EntryInput>): (Desk, bool) {
    if inputs == [] then (d, false)
    else
      var n := |inputs| - 1;
      var (e, raised) := EnterAll(g, d, inputs[..n]);
      if raised then (e, true) else Enter(g, e, inputs[n])
  }

  // ---- cycles --------------------------------------------------------------

  function OneCycle(g: Engine, d: Desk, c: Cycle): (Desk, bool) {
    match c.live
    case None => (d, true)
    case Some(live) =>
      var (e, raised) := ExitAll(d, live, d.open, c.exits);
      if raised then (e, true) else EnterAll(g, e, c.entries)
  }

  /** A cycle and the error it may leave behind. */
  function Turn(g: Engine, d: Desk, c: Cycle): Desk {
    var (e, raised) := OneCycle(g, d.(stats := d.stats.(cycles := d.stats.cycles + 1)), c);
    if raised then e.(stats := e.stats.(errors := e.stats.errors + 1)) else e
  }

  /** The bounded loop; it ends early when the kill switch is engaged and nothing is
      tracked. */
  function RunCycles(g: Engine, d: Desk, cycles: seq<Cycle>): Desk
    decreases |cycles|
  {
    if cycles == [] then d
    else
      var e := Turn(g, d, cycles[0]);
      if cycles[0].killed && e.open == [] then e else RunCycles(g, e, cycles[1..])
  }

  class TradingSession {
    const execution: ExecutionEngine
    var open: seq<string>
    var stats: Stats

    constructor (execution: ExecutionEngine)
      ensures this.execution == execution && open == [] && stats == OPENING.stats
    {
      this.execution := execution;
      open, stats := [], Stats(0, 0, 0, 0, 0, 0, 0);
    }

    ghost function View(): Desk
      reads this, execution
    {
      Desk(open, stats, execution.View())
    }

    method ProcessExits(live: set<string>, exits: string -> ExitInput) returns (raised: bool)
      modifies this
      ensures (View(), raised) == ExitAll(old(View()), live, old(open), exits)
    {
      var ids := open;
      for i := 0 to |ids|
        invariant (View(), false) == ExitAll(old(View()), live, ids[..i], exits)
      {
        hide Without;
        assert ids[..i + 1][..i] == ids[..i];
        TakenStep(old(View()), live, ids, exits, i);
        var id := ids[i];
        if id !in live {
          open := Without(open, id);
          continue;
        }
        match exits(id) {
          case NoAction =>
          case ExitRaises =>
            RaisedEarly(old(View()), live, ids, exits, i + 1);
            return true;
          case Closed(answer) =>
            if answer == Some(Filled) {
              stats := stats.(exitsFilled := stats.exitsFilled + 1, roundTrips := stats.roundTrips + 1);
              open := Without(open, id);
            } else if answer.Some? {
              stats := stats.(rejected := stats.rejected + 1);
            }
        }
      }
      assert ids[..|ids|] == ids;
      return false;
    }

    method ProcessEntries(inputs: seq<EntryInput>) returns (raised: bool)
      modifies this, execution
      ensures (View(), raised) == EnterAll(execution.engine, old(View()), inputs)
    {
      for i := 0 to |inputs|
        invariant (View(), false) == EnterAll(execution.engine, old(View()), inputs[..i])
      {
        hide AfterSubmit;
        assert inputs[..i + 1][..i] == inputs[..i];
        match inputs[i] {
          case NoProposal =>
          case EvaluateRaises =>
            EntryRaisedEarly(execution.engine, old(View()), inputs, i + 1);
            return true;
          case SubmitRaises =>
            stats := stats.(proposals := stats.proposals + 1);
            EntryRaisedEarly(execution.engine, old(View()), inputs, i + 1);
            return true;
          case Proposed(s, trackRaises) =>
            stats := stats.(proposals := stats.proposals + 1);
            var answer := execution.Submit(s);
            if answer.Some? && answer.value.status == Filled {
              stats := stats.(entriesFilled := stats.entriesFilled + 1);
              if trackRaises {
                EntryRaisedEarly(execution.engine, old(View()), inputs, i + 1);
                return true;
              }
              open := Track(open, "pos-" + answer.value.orderId);
            } else if answer.Some? && answer.value.status == Rejected {
              stats := stats.(rejected := stats.rejected + 1);
            }
        }
      }
      assert inputs[..|inputs|] == inputs;
      return false;
    }

    method RunCycle(c: Cycle)
      modifies this, execution
      ensures View() == Turn(execution.engine, old(View()), c)
    {
      hide ExitAll, EnterAll;
      stats := stats.(cycles := stats.cycles + 1);
      var raised := true;
      if c.live.Some? {
        raised := ProcessExits(c.live.value, c.exits);
        if !raised {
          raised := ProcessEntries(c.entries);
        }
      }
      if raised {
        stats := stats.(errors := stats.errors + 1);
      }
    }

    method Run(cycles: seq<Cycle>)
      modifies this, execution
      ensures View() == RunCycles(execution.engine, old(View()), cycles)
    {
      hide Turn;
      assert cycles[0..] == cycles;
      var i := 0;
      while i < |cycles|
        invariant i <= |cycles|
        invariant RunCycles(execution.engine, View(), cycles[i..]) == RunCycles(execution.engine, old(View()), cycles)
      {
        assert cycles[i..][1..] == cycles[i + 1..];
        RunCycle(cycles[i]);
        if cycles[i].killed && open == [] {
          return;
        }
        i := i + 1;
      }
    }
  }

  lemma TakenStep(d: Desk, live: set<string>, ids: seq<string>, exits: string -> ExitInput, i: nat)
    requires i < |ids|
    ensures ExitAll(d, live, ids[..i + 1], exits) ==
            var (e, raised) := ExitAll(d, live, ids[..i], exits);
            if raised then (e, true) else ExitOne(e, live, ids[i], exits(ids[i]))
  {
    hide ExitOne;
    assert ids[..i + 1][..i] == ids[..i];
  }

  lemma {:induction false} RaisedEarly(d: Desk, live: set<string>, ids: seq<string>, exits: string -> ExitInput, i: nat)
    requires i <= |ids| && ExitAll(d, live, ids[..i], exits).1
    ensures ExitAll(d, live, ids, exits) == ExitAll(d, live, ids[..i], exits)
    decreases |ids|
  {
    if i == |ids| {
      assert ids[..i] == ids;
    } else {
      hide ExitOne;
      assert ids[..|ids| - 1][..i] == ids[..i];
      RaisedEarly(d, live, ids[..|ids| - 1], exits, i);
    }
  }

  lemma {:induction false} EntryRaisedEarly(g: Engine, d: Desk, inputs: seq<EntryInput>, i: nat)
    requires i <= |inputs| && EnterAll(g, d, inputs[..i]).1
    ensures EnterAll(g, d, inputs) == EnterAll(g, d, inputs[..i])
    decreases |inputs|
  {
    if i == |inputs| {
      assert inputs[..i] == inputs;
    } else {
      hide Enter;
      assert inputs[..|inputs| - 1][..i] == inputs[..i];
      EntryRaisedEarly(g, d, inputs[..|inputs| - 1], i);
    }
  }

  // ---- what the counters mean ----------------------------------------------

  predicate DistinctIds(open: seq<string>) {
    forall i, j :: 0 <= i < j < |open| ==> open[i] != open[j]
  }

  /** Positions tracked plus round trips never exceed filled entries. */
  ghost predicate Accounted(d: Desk) {
    && DistinctIds(d.open)
    && |d.open| + d.stats.roundTrips <= d.stats.entriesFilled
    && d.stats.roundTrips == d.stats.exitsFilled
  }

  lemma {:induction false} WithoutShrinks(open: seq<string>, id: string)
    requires DistinctIds(open)
    ensures DistinctIds(Without(open, id))
    ensures id in open ==> |Without(open, id)| == |open| - 1
    ensures id !in open ==> Without(open, id) == open
  {
    if open != [] {
      var n := |open| - 1;
      assert open == open[..n] + [open[n]];
      WithoutShrinks(open[..n], id);
      var rest := Without(open[..n], id);
      forall i | 0 <= i < |rest|
        ensures rest[i] != open[n]
      {
        assert rest[i] in open[..n];
      }
    }
  }

  lemma ExitKeeps(d: Desk, live: set<string>, id: string, input: ExitInput)
    requires Accounted(d) && id in d.open
    ensures var (e, raised) := ExitOne(d, live, id, input);
            && Accounted(e)
            && (forall x :: x in d.open && x != id ==> x in e.open)
            && e.flight == d.flight
  {
    WithoutShrinks(d.open, id);
  }

  lemma {:induction false} ExitAllKeeps(d: Desk, live: set<string>, exits: string -> ExitInput, k: nat)
    requires Accounted(d) && k <= |d.open|
    ensures var (e, raised) := ExitAll(d, live, d.open[..k], exits);
            && Accounted(e)
            && (forall i :: k <= i < |d.open| ==> d.open[i] in e.open)
  {
    if k > 0 {
      hide ExitOne;
      ExitAllKeeps(d, live, exits, k - 1);
      TakenStep(d, live, d.open, exits, k - 1);
      var (e, raised) := ExitAll(d, live, d.open[..k - 1], exits);
      if !raised {
        ExitKeeps(e, live, d.open[k - 1], exits(d.open[k - 1]));
      }
    }
  }

  lemma EnterKeeps(g: Engine, d: Desk, input: EntryInput)
    requires Accounted(d)
    ensures Accounted(Enter(g, d, input).0)
  {
    hide AfterSubmit;
  }

  lemma {:induction false} EnterAllKeeps(g: Engine, d: Desk, inputs: seq<EntryInput>)
    requires Accounted(d)
    ensures Accounted(EnterAll(g, d, inputs).0)
  {
    if inputs != [] {
      hide Enter, Accounted;
      var n := |inputs| - 1;
      EnterAllKeeps(g, d, inputs[..n]);
      EnterKeeps(g, EnterAll(g, d, inputs[..n]).0, inputs[n]);
    }
  }

  lemma TurnKeeps(g: Engine, d: Desk, c: Cycle)
    requires Accounted(d)
    ensures Accounted(Turn(g, d, c))
  {
    hide EnterAll, ExitAll;
    var e := d.(stats := d.stats.(cycles := d.stats.cycles + 1));
    if c.live.Some? {
      ExitAllKeeps(e, c.live.value, c.exits, |e.open|);
      assert e.open[..|e.open|] == e.open;
      EnterAllKeeps(g, ExitAll(e, c.live.value, e.open, c.exits).0, c.entries);
    }
  }

  /** In every session, whatever the broker, the strategy and the exceptions do: open
      tracked positions plus round trips never exceed filled entries. */
  lemma {:induction false} SessionIsAccounted(g: Engine, d: Desk, cycles: seq<Cycle>)
    requires Accounted(d)
    ensures Accounted(RunCycles(g, d, cycles))
    decreases |cycles|
  {
    if cycles != [] {
      hide Turn, Accounted;
      TurnKeeps(g, d, cycles[0]);
      SessionIsAccounted(g, Turn(g, d, cycles[0]), cycles[1..]);
    }
  }

  /** A session that earns the paper flag has seen both a filled entry and a filled
      exit, on a strategy that was validated. */
  lemma GrantedSessionTraded(g: Engine, cycles: seq<Cycle>, record: Promotion.Record)
    requires Promotion.Grants(record, RunCycles(g, OPENING, cycles).stats.roundTrips)
    ensures var stats := RunCycles(g, OPENING, cycles).stats;
            record.validated && stats.entriesFilled >= 1 && stats.exitsFilled >= 1
  {
    SessionIsAccounted(g, OPENING, cycles);
  }
}
