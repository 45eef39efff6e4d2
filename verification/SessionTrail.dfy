// What a trading session's counters and tracked positions say about the broker's answers
// (src/catalyst/execution/session.py:66-139).
module SessionTrail {
  import opened Common
  import opened Execution
  import opened Session

  // ---- exits ---------------------------------------------------------------

  /** The exit of this position raises. */
  predicate Raises(live: set<string>, exits: string -> ExitInput, id: string) {
    id in live && exits(id) == ExitRaises
  }

  predicate Exited(live: set<string>, exits: string -> ExitInput, id: string) {
    id in live && exits(id) == Closed(Some(Filled))
  }

  /** A close that was sent and not filled. */
  predicate Unfilled(live: set<string>, exits: string -> ExitInput, id: string) {
    id in live && exists status :: status != Filled && exits(id) == Closed(Some(status))
  }

  /** What the exits leave of some tracked positions: those the broker still reports and that
      were not closed; and how many closes were filled and how many were not. */
  datatype Trail = Trail(kept: seq<string>, filled: nat, unfilled: nat)

  ghost function ExitTrail(live: set<string>, exits: string -> ExitInput, ids: seq<string>): Trail {
    if ids == [] then Trail([], 0, 0)
    else
      var rest, id := ExitTrail(live, exits, ids[..|ids| - 1]), ids[|ids| - 1];
      if id !in live then rest
      else if Exited(live, exits, id) then rest.(filled := rest.filled + 1)
      else if Unfilled(live, exits, id) then Trail(rest.kept + [id], rest.filled, rest.unfilled + 1)
      else rest.(kept := rest.kept + [id])
  }

  /** e is d with the first k of its tracked positions gone through. */
  ghost predicate GoneThrough(d: Desk, live: set<string>, exits: string -> ExitInput, e: Desk, k: nat)
    requires k <= |d.open|
  {
    var trail, s := ExitTrail(live, exits, d.open[..k]), d.stats;
    && e.open == trail.kept + d.open[k..]
    && e.flight == d.flight
    && e.stats == s.(exitsFilled := s.exitsFilled + trail.filled, roundTrips := s.roundTrips + trail.filled,
                     rejected := s.rejected + trail.unfilled)
  }

  lemma TrailNext(live: set<string>, exits: string -> ExitInput, ids: seq<string>, k: nat)
    requires k < |ids|
    ensures var rest, id := ExitTrail(live, exits, ids[..k]), ids[k];
            ExitTrail(live, exits, ids[..k + 1]) ==
            if id !in live then rest
            else if Exited(live, exits, id) then rest.(filled := rest.filled + 1)
            else if Unfilled(live, exits, id) then Trail(rest.kept + [id], rest.filled, rest.unfilled + 1)
            else rest.(kept := rest.kept + [id])
  {
    hide Exited, Unfilled;
    assert ids[..k + 1][..k] == ids[..k];
  }

  lemma {:induction false} WithoutAppend(a: seq<string>, b: seq<string>, id: string)
    ensures Without(a + b, id) == Without(a, id) + Without(b, id)
  {
    var s := a + b;
    if b == [] {
      assert s == a && Without(a, id) + [] == Without(a, id);
    } else {
      WithoutAppend(a, b[..|b| - 1], id);
      assert s[..|s| - 1] == a + b[..|b| - 1];
    }
  }

  /** Removing the next tracked position. */
  lemma WithoutNext(kept: seq<string>, ids: seq<string>, k: nat)
    requires k < |ids| && DistinctIds(ids) && forall x :: x in kept ==> x in ids[..k]
    ensures Without(kept + ids[k..], ids[k]) == kept + ids[k + 1..]
  {
    var id := ids[k];
    WithoutAppend(kept, ids[k..], id);
    WithoutAppend([id], ids[k + 1..], id);
    assert ids[k..] == [id] + ids[k + 1..];
    assert id !in kept && id !in ids[k + 1..];
    AbsentStays(kept, id);
    AbsentStays(ids[k + 1..], id);
    OneGoes(id);
  }

  lemma OneGoes(id: string)
    ensures Without([id], id) == []
  {
    assert [id][..0] == [];
  }

  lemma {:induction false} AbsentStays(open: seq<string>, id: string)
    requires id !in open
    ensures Without(open, id) == open
  {
    if open != [] {
      AbsentStays(open[..|open| - 1], id);
    }
  }

  lemma {:induction false} KeptFrom(live: set<string>, exits: string -> ExitInput, ids: seq<string>)
    ensures forall x :: x in ExitTrail(live, exits, ids).kept ==> x in ids
  {
    if ids != [] {
      hide Exited, Unfilled;
      KeptFrom(live, exits, ids[..|ids| - 1]);
    }
  }

  lemma ExitTurn(d: Desk, live: set<string>, exits: string -> ExitInput, e: Desk, k: nat)
    requires DistinctIds(d.open) && k < |d.open| && GoneThrough(d, live, exits, e, k)
    ensures var (r, raised) := ExitOne(e, live, d.open[k], exits(d.open[k]));
            && (raised <==> Raises(live, exits, d.open[k]))
            && (if raised then r == e else GoneThrough(d, live, exits, r, k + 1))
  {
    hide ExitTrail, Without;
    TrailNext(live, exits, d.open, k);
    KeptFrom(live, exits, d.open[..k]);
    WithoutNext(ExitTrail(live, exits, d.open[..k]).kept, d.open, k);
    hide DistinctIds;
    assert d.open[k..] == [d.open[k]] + d.open[k + 1..];
  }

  /** Of its first k tracked positions the exits went through n: all of them, or those before the
      first that raises. */
  ghost predicate WentThrough(d: Desk, live: set<string>, exits: string -> ExitInput, k: nat, e: Desk, raised: bool, n: nat)
    requires k <= |d.open|
  {
    && n <= k && GoneThrough(d, live, exits, e, n)
    && (forall i :: 0 <= i < n ==> !Raises(live, exits, d.open[i]))
    && (if raised then n < k && Raises(live, exits, d.open[n]) else n == k)
  }

  lemma ThroughOne(d: Desk, live: set<string>, exits: string -> ExitInput, k: nat, e: Desk, raised: bool, n: nat)
    requires DistinctIds(d.open) && k < |d.open| && WentThrough(d, live, exits, k, e, raised, n)
    ensures raised ==> WentThrough(d, live, exits, k + 1, e, true, n)
    ensures !raised ==>
              var (r, now) := ExitOne(e, live, d.open[k], exits(d.open[k]));
              WentThrough(d, live, exits, k + 1, r, now, if now then k else k + 1)
  {
    hide ExitOne, DistinctIds, GoneThrough, Raises;
    if !raised {
      ExitTurn(d, live, exits, e, k);
    }
  }

  lemma ThroughNone(d: Desk, live: set<string>, exits: string -> ExitInput)
    ensures var (e, raised) := ExitAll(d, live, d.open[..0], exits); WentThrough(d, live, exits, 0, e, raised, 0)
  {
  }

  /** The exits of a cycle, position by position and oldest first, up to the first that raises. */
  lemma {:induction false} ExitsAre(d: Desk, live: set<string>, exits: string -> ExitInput, k: nat) returns (n: nat)
    requires DistinctIds(d.open) && k <= |d.open|
    ensures var (e, raised) := ExitAll(d, live, d.open[..k], exits); WentThrough(d, live, exits, k, e, raised, n)
  {
    hide ExitOne, DistinctIds, WentThrough, ExitAll;
    if k == 0 {
      ThroughNone(d, live, exits);
      n := 0;
    } else {
      n := ExitsAre(d, live, exits, k - 1);
      TakenStep(d, live, d.open, exits, k - 1);
      var (e, raised) := ExitAll(d, live, d.open[..k - 1], exits);
      ThroughOne(d, live, exits, k - 1, e, raised, n);
      if !raised {
        n := if ExitOne(e, live, d.open[k - 1], exits(d.open[k - 1])).1 then k - 1 else k;
      }
    }
  }

  // ---- entries -------------------------------------------------------------

  /** What one due catalyst does, and whether it raises. Whatever is submitted counts as a proposal. A
      fill counts and is tracked once, unless tracking it raises; a rejection counts; every other
      answer, and none, changes only what is in flight. */
  ghost predicate EntryDone(g: Engine, d: Desk, input: EntryInput, e: Desk, raised: bool) {
    match input
    case NoProposal => e == d && !raised
    case EvaluateRaises => e == d && raised
    case SubmitRaises => e == d.(stats := d.stats.(proposals := d.stats.proposals + 1)) && raised
    case Proposed(s, trackRaises) =>
      var (flight, answer) := AfterSubmit(g, d.flight, s);
      var proposed := d.stats.(proposals := d.stats.proposals + 1);
      if answer.Some? && answer.value.status == Filled then
        var id := "pos-" + answer.value.orderId;
        && e == Desk(if trackRaises || id in d.open then d.open else d.open + [id],
                     proposed.(entriesFilled := d.stats.entriesFilled + 1), flight)
        && raised == trackRaises
      else
        && e == Desk(d.open,
                     if answer == None || answer.value.status != Rejected then proposed
                     else proposed.(rejected := d.stats.rejected + 1),
                     flight)
        && !raised
  }

  lemma EntryIs(g: Engine, d: Desk, input: EntryInput)
    ensures var (e, raised) := Enter(g, d, input); EntryDone(g, d, input, e, raised)
  {
    hide AfterSubmit;
    match input
    case NoProposal =>
    case EvaluateRaises =>
    case SubmitRaises =>
    case Proposed(s, trackRaises) =>
      var (flight, answer) := AfterSubmit(g, d.flight, s);
      match answer
      case None =>
      case Some(a) =>
  }

  /** The due catalysts of a cycle take their turns in order, up to the first that raises. */
  lemma EntriesInOrder(g: Engine, d: Desk, inputs: seq<EntryInput>, k: nat)
    ensures EnterAll(g, d, inputs[..0]) == (d, false)
    ensures k < |inputs| ==>
              var (e, raised) := EnterAll(g, d, inputs[..k]);
              var (after, raises) := EnterAll(g, d, inputs[..k + 1]);
              if raised then after == e && raises else EntryDone(g, e, inputs[k], after, raises)
  {
    hide Enter, EntryDone;
    if k < |inputs| {
      assert inputs[..k + 1][..k] == inputs[..k];
      EntryIs(g, EnterAll(g, d, inputs[..k]).0, inputs[k]);
    }
  }

  /** A cycle: nothing when the book cannot be reconciled, otherwise all exits and then, unless one of
      them raised, all entries; whatever raised counts as one error. */
  lemma CycleIs(g: Engine, d: Desk, c: Cycle)
    ensures var counted := d.(stats := d.stats.(cycles := d.stats.cycles + 1));
            match c.live
            case None => Turn(g, d, c) == d.(stats := counted.stats.(errors := d.stats.errors + 1))
            case Some(live) =>
              var (e, raised) := ExitAll(counted, live, d.open, c.exits);
              var (f, raises) := if raised then (e, true) else EnterAll(g, e, c.entries);
              Turn(g, d, c) == if raises then f.(stats := f.stats.(errors := d.stats.errors + 1)) else f
  {
    if c.live.Some? {
      CountsKept(g, d.(stats := d.stats.(cycles := d.stats.cycles + 1)), c);
    }
    hide ExitAll, EnterAll;
  }

  /** Orders the broker answered with this status. */
  function Answered(sent: seq<Submission>, status: OrderStatus): nat {
    if sent == [] then 0
    else Answered(sent[..|sent| - 1], status) + if sent[|sent| - 1].answer.status == status then 1 else 0
  }

  lemma AnsweredNext(sent: seq<Submission>, s: Submission, status: OrderStatus)
    ensures Answered(sent + [s], status) == Answered(sent, status) + if s.answer.status == status then 1 else 0
  {
    assert (sent + [s])[..|sent|] == sent;
  }

  /** Position id stands for an order that was sent and filled. */
  ghost predicate Opened(sent: seq<Submission>, id: string) {
    exists i :: 0 <= i < |sent| && sent[i].answer.status == Filled && id == "pos-" + sent[i].answer.orderId
  }

  /** What every state of a session satisfies: entries filled are the orders the broker filled,
      every tracked position is one of them, at least the orders the broker rejected count as
      rejected, every sent order was a proposal, and no cycle fails twice. */
  ghost predicate Booked(d: Desk) {
    && d.stats.entriesFilled == Answered(d.flight.sent, Filled)
    && (forall id :: id in d.open ==> Opened(d.flight.sent, id))
    && Answered(d.flight.sent, Rejected) <= d.stats.rejected
    && |d.flight.sent| <= d.stats.proposals
    && d.stats.errors <= d.stats.cycles
  }

  lemma OpenedGrows(sent: seq<Submission>, s: Submission, id: string)
    ensures Opened(sent, id) ==> Opened(sent + [s], id)
    ensures s.answer.status == Filled ==> Opened(sent + [s], "pos-" + s.answer.orderId)
  {
    var all := sent + [s];
    assert all[|sent|] == s;
    if Opened(sent, id) {
      var i :| 0 <= i < |sent| && sent[i].answer.status == Filled && id == "pos-" + sent[i].answer.orderId;
      assert all[i] == sent[i];
    }
  }

  lemma EntryBooks(g: Engine, d: Desk, input: EntryInput)
    requires Booked(d)
    ensures Booked(Enter(g, d, input).0)
  {
    hide Answered, Opened, Sendable;
    if input.Proposed? && Sendable(g, d.flight, input.submission) && !g.dryRun {
      var s := input.submission;
      AnsweredNext(d.flight.sent, s, Filled);
      AnsweredNext(d.flight.sent, s, Rejected);
      forall id
        ensures Opened(d.flight.sent, id) ==> Opened(d.flight.sent + [s], id)
      {
        OpenedGrows(d.flight.sent, s, id);
      }
      OpenedGrows(d.flight.sent, s, "");
    }
  }

  lemma {:induction false} EntriesBook(g: Engine, d: Desk, inputs: seq<EntryInput>)
    requires Booked(d)
    ensures Booked(EnterAll(g, d, inputs).0)
  {
    if inputs != [] {
      hide Enter, Booked;
      var n := |inputs| - 1;
      EntriesBook(g, d, inputs[..n]);
      EntryBooks(g, EnterAll(g, d, inputs[..n]).0, inputs[n]);
    }
  }

  lemma ExitsBook(d: Desk, live: set<string>, exits: string -> ExitInput)
    requires Booked(d) && DistinctIds(d.open)
    ensures Booked(ExitAll(d, live, d.open, exits).0)
  {
    hide Opened, Answered, ExitAll, DistinctIds;
    assert d.open[..|d.open|] == d.open;
    var n := ExitsAre(d, live, exits, |d.open|);
    var e := ExitAll(d, live, d.open, exits).0;
    KeptFrom(live, exits, d.open[..n]);
    hide ExitTrail;
    forall id | id in e.open
      ensures Opened(d.flight.sent, id)
    {
      assert id in d.open;
    }
  }

  lemma TurnBooks(g: Engine, d: Desk, c: Cycle)
    requires Booked(d) && DistinctIds(d.open)
    ensures Booked(Turn(g, d, c)) && Turn(g, d, c).stats.cycles == d.stats.cycles + 1
  {
    hide Opened, Answered, ExitAll, EnterAll, DistinctIds;
    var e := d.(stats := d.stats.(cycles := d.stats.cycles + 1));
    if c.live.Some? {
      ExitsBook(e, c.live.value, c.exits);
      CountsKept(g, e, c);
      EntriesBook(g, ExitAll(e, c.live.value, e.open, c.exits).0, c.entries);
    }
  }

  /** A cycle counts itself and its own error, if it has one, and nothing else does. */
  lemma CountsKept(g: Engine, d: Desk, c: Cycle)
    requires c.live.Some?
    ensures var e := ExitAll(d, c.live.value, d.open, c.exits).0;
            var f := EnterAll(g, e, c.entries).0;
            e.stats.cycles == d.stats.cycles == f.stats.cycles && e.stats.errors == d.stats.errors == f.stats.errors
  {
    ExitsKeepCounts(d, c.live.value, d.open, c.exits);
    EntriesKeepCounts(g, ExitAll(d, c.live.value, d.open, c.exits).0, c.entries);
    hide ExitAll, EnterAll;
  }

  lemma {:induction false} ExitsKeepCounts(d: Desk, live: set<string>, ids: seq<string>, exits: string -> ExitInput)
    ensures var e := ExitAll(d, live, ids, exits).0; e.stats.cycles == d.stats.cycles && e.stats.errors == d.stats.errors
  {
    if ids != [] {
      hide Without;
      ExitsKeepCounts(d, live, ids[..|ids| - 1], exits);
    }
  }

  lemma {:induction false} EntriesKeepCounts(g: Engine, d: Desk, inputs: seq<EntryInput>)
    ensures var e := EnterAll(g, d, inputs).0; e.stats.cycles == d.stats.cycles && e.stats.errors == d.stats.errors
  {
    if inputs != [] {
      hide AfterSubmit;
      EntriesKeepCounts(g, d, inputs[..|inputs| - 1]);
    }
  }

  // ---- the loop ------------------------------------------------------------

  ghost function AfterTurns(g: Engine, d: Desk, cycles: seq<Cycle>): Desk {
    if cycles == [] then d else Turn(g, AfterTurns(g, d, cycles[..|cycles| - 1]), cycles[|cycles| - 1])
  }

  lemma {:induction false} TurnFirst(g: Engine, d: Desk, cycles: seq<Cycle>)
    requires cycles != []
    ensures AfterTurns(g, d, cycles) == AfterTurns(g, Turn(g, d, cycles[0]), cycles[1..])
  {
    hide Turn;
    var n := |cycles| - 1;
    if n == 0 {
      assert cycles[..0] == [] && cycles[1..] == [];
    } else {
      TurnFirst(g, d, cycles[..n]);
      assert cycles[..n][1..] == cycles[1..][..n - 1];
    }
  }

  /** Flat with the kill switch on after these cycles. */
  ghost predicate Over(g: Engine, d: Desk, cycles: seq<Cycle>) {
    cycles != [] && cycles[|cycles| - 1].killed && AfterTurns(g, d, cycles).open == []
  }

  /** The loop takes n turns: up to the first after which nothing is tracked with the kill switch on,
      or all of them. */
  ghost predicate StopsAt(g: Engine, d: Desk, cycles: seq<Cycle>, n: nat) {
    && n <= |cycles| && RunCycles(g, d, cycles) == AfterTurns(g, d, cycles[..n])
    && (forall k :: 0 <= k < n ==> !Over(g, d, cycles[..k]))
    && (n == |cycles| || Over(g, d, cycles[..n]))
  }

  /** The loop takes its turns one after the other and stops where it should. */
  lemma {:induction false} RunsUntil(g: Engine, d: Desk, cycles: seq<Cycle>) returns (n: nat)
    ensures StopsAt(g, d, cycles, n)
    decreases |cycles|
  {
    hide Turn, StopsAt;
    if cycles == [] {
      n := 0;
      StopsNow(g, d, cycles, 0);
    } else if cycles[0].killed && Turn(g, d, cycles[0]).open == [] {
      n := 1;
      StopsNow(g, d, cycles, 1);
    } else {
      n := RunsUntil(g, Turn(g, d, cycles[0]), cycles[1..]);
      StopsLater(g, d, cycles, n);
      n := n + 1;
    }
  }

  lemma StopsNow(g: Engine, d: Desk, cycles: seq<Cycle>, n: nat)
    requires if n == 0 then cycles == [] else n == 1 && cycles != [] && cycles[0].killed && Turn(g, d, cycles[0]).open == []
    ensures StopsAt(g, d, cycles, n)
  {
    hide Turn;
    if n == 1 {
      var one := cycles[..1];
      assert one[0] == cycles[0] && one[..0] == [];
      assert AfterTurns(g, d, []) == d && AfterTurns(g, d, one) == Turn(g, d, cycles[0]);
    }
  }

  lemma StopsLater(g: Engine, d: Desk, cycles: seq<Cycle>, n: nat)
    requires cycles != [] && !(cycles[0].killed && Turn(g, d, cycles[0]).open == [])
    requires StopsAt(g, Turn(g, d, cycles[0]), cycles[1..], n)
    ensures StopsAt(g, d, cycles, n + 1)
  {
    hide Turn, Over, AfterTurns;
    RunsOn(g, d, cycles);
    hide RunCycles;
    forall k | 0 <= k < n + 1
      ensures !Over(g, d, cycles[..k])
    {
      if k > 0 {
        OverShift(g, d, cycles, k - 1);
      } else {
        NotOverYet(g, d, cycles);
      }
    }
    OverShift(g, d, cycles, n);
    TurnsShift(g, d, cycles, n);
  }

  lemma RunsOn(g: Engine, d: Desk, cycles: seq<Cycle>)
    requires cycles != [] && !(cycles[0].killed && Turn(g, d, cycles[0]).open == [])
    ensures RunCycles(g, d, cycles) == RunCycles(g, Turn(g, d, cycles[0]), cycles[1..])
  {
    hide Turn;
  }

  lemma NotOverYet(g: Engine, d: Desk, cycles: seq<Cycle>)
    ensures !Over(g, d, cycles[..0])
  {
  }

  lemma TurnsShift(g: Engine, d: Desk, cycles: seq<Cycle>, k: nat)
    requires k < |cycles|
    ensures AfterTurns(g, d, cycles[..k + 1]) == AfterTurns(g, Turn(g, d, cycles[0]), cycles[1..][..k])
  {
    hide Turn, AfterTurns;
    TurnFirst(g, d, cycles[..k + 1]);
    assert cycles[..k + 1][1..] == cycles[1..][..k];
  }

  lemma OverShift(g: Engine, d: Desk, cycles: seq<Cycle>, k: nat)
    requires k < |cycles| && !(cycles[0].killed && Turn(g, d, cycles[0]).open == [])
    ensures Over(g, d, cycles[..k + 1]) <==> Over(g, Turn(g, d, cycles[0]), cycles[1..][..k])
  {
    hide Turn;
    TurnsShift(g, d, cycles, k);
    if k == 0 {
      assert cycles[..1][0] == cycles[0] && cycles[1..][..0] == [];
      assert AfterTurns(g, Turn(g, d, cycles[0]), []) == Turn(g, d, cycles[0]);
    } else {
      assert cycles[..k + 1][k] == cycles[1..][..k][k - 1];
    }
  }

  /** Over any turns of a session the counters say what the broker answered. */
  lemma {:induction false} TurnsBook(g: Engine, cycles: seq<Cycle>)
    ensures var d := AfterTurns(g, OPENING, cycles);
            Booked(d) && DistinctIds(d.open) && d.stats.cycles == |cycles|
  {
    if cycles != [] {
      hide Turn, Booked, DistinctIds;
      var n := |cycles| - 1;
      TurnsBook(g, cycles[..n]);
      TurnsAccount(g, cycles[..n]);
      TurnsAccount(g, cycles);
      TurnBooks(g, AfterTurns(g, OPENING, cycles[..n]), cycles[n]);
    } else {
      assert AfterTurns(g, OPENING, cycles) == OPENING;
      assert Booked(OPENING) by {
        assert OPENING.open == [];
      }
    }
  }

  lemma {:induction false} TurnsAccount(g: Engine, cycles: seq<Cycle>)
    ensures Accounted(AfterTurns(g, OPENING, cycles)) && DistinctIds(AfterTurns(g, OPENING, cycles).open)
  {
    if cycles != [] {
      hide Turn;
      var n := |cycles| - 1;
      TurnsAccount(g, cycles[..n]);
      TurnKeeps(g, AfterTurns(g, OPENING, cycles[..n]), cycles[n]);
    }
  }

  /** So every session counts each of its cycles once, its entries filled are the orders the broker
      filled, and whatever it still tracks is one of those. */
  lemma SessionBooks(g: Engine, cycles: seq<Cycle>)
    ensures Booked(RunCycles(g, OPENING, cycles)) && RunCycles(g, OPENING, cycles).stats.cycles <= |cycles|
  {
    hide Booked, RunCycles, AfterTurns, Over;
    var n := RunsUntil(g, OPENING, cycles);
    TurnsBook(g, cycles[..n]);
  }
}
