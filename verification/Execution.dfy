// ExecutionEngine (src/catalyst/execution/engine.py): the gated submit and its record
// of orders in flight.
module Execution {
  import opened Common

  /** An entry is identified by its engine and catalyst. */
  type EntryKey = (string, string)

  datatype OrderStatus = Filled | PartiallyFilled | Accepted | Rejected | Canceled

  datatype Answer = Answer(status: OrderStatus, orderId: string)

  /** One call of submit and everything it asks of the outside world: the kill switch,
      the age of the quotes when known, the units the risk gate grants, and what the
      broker would answer. */
  datatype Submission = Submission(
    key: EntryKey,
    killed: bool,
    quoteAge: Option<int>,
    units: int,
    hasLegs: bool,
    answer: Answer)

  datatype Engine = Engine(maxQuoteAge: int, dryRun: bool)

  /** pending as the object keeps it; sent is a history value: every entry order that
      reached the broker, oldest first. */
  datatype Flight = Flight(pending: map<EntryKey, string>, sent: seq<Submission>)

  const GROUNDED := Flight(map[], [])

  /** The gates before the broker, in their order. */
  predicate Sendable(g: Engine, f: Flight, s: Submission) {
    && !s.killed
    && (s.quoteAge.Some? ==> s.quoteAge.value <= g.maxQuoteAge)
    && s.key !in f.pending
    && s.units > 0
    && s.hasLegs
  }

  /** submit: None means nothing was sent. */
  function AfterSubmit(g: Engine, f: Flight, s: Submission): (Flight, Option<Answer>) {
    if !Sendable(g, f, s) then (f, None)
    else if g.dryRun then (f, Some(Answer(Accepted, "dry-run")))
    else
      (Flight(match s.answer.status
              case Accepted => f.pending[s.key := s.answer.orderId]
              case Filled => f.pending - {s.key}
              case _ => f.pending,
              f.sent + [s]),
       Some(s.answer))
  }

  function SubmitAll(g: Engine, f: Flight, ss: seq<Submission>): Flight {
    if ss == [] then f else AfterSubmit(g, SubmitAll(g, f, ss[..|ss| - 1]), ss[|ss| - 1]).0
  }

  /** Orders in flight are exactly the keys that were answered ACCEPTED, and nothing of
      such a key was sent afterwards. */
  ghost predicate Tracked(f: Flight) {
    && (forall k :: k in f.pending <==> exists i :: 0 <= i < |f.sent| && f.sent[i].key == k && f.sent[i].answer.status == Accepted)
    && (forall i, j :: 0 <= i < j < |f.sent| && f.sent[i].key == f.sent[j].key ==> f.sent[i].answer.status != Accepted)
  }

  lemma SubmitKeepsTracked(g: Engine, f: Flight, s: Submission)
    requires Tracked(f)
    ensures Tracked(AfterSubmit(g, f, s).0)
  {
    var r := AfterSubmit(g, f, s).0;
    if Sendable(g, f, s) && !g.dryRun {
      forall k
        ensures k in r.pending <==> exists i :: 0 <= i < |r.sent| && r.sent[i].key == k && r.sent[i].answer.status == Accepted
      {
        if k in f.pending {
          var i :| 0 <= i < |f.sent| && f.sent[i].key == k && f.sent[i].answer.status == Accepted;
          assert r.sent[i] == f.sent[i];
        }
        if s.key == k && s.answer.status == Accepted {
          assert r.sent[|f.sent|] == s;
        }
        if i :| 0 <= i < |r.sent| && r.sent[i].key == k && r.sent[i].answer.status == Accepted {
          if i < |f.sent| {
            assert f.sent[i] == r.sent[i];
          }
        }
      }
    }
  }

  /** An accepted entry is refused forever after: over any sequence of submissions, no
      order of a key is sent once an earlier one of that key was answered ACCEPTED, and
      every order sent had passed the kill switch, the quote age and the risk gate. */
  lemma {:induction false} AcceptedOnlyOnce(g: Engine, ss: seq<Submission>)
    ensures Tracked(SubmitAll(g, GROUNDED, ss))
    ensures forall s :: s in SubmitAll(g, GROUNDED, ss).sent ==>
                          s in ss && !s.killed && s.units > 0 && s.hasLegs && (s.quoteAge.Some? ==> s.quoteAge.value <= g.maxQuoteAge)
    ensures g.dryRun ==> SubmitAll(g, GROUNDED, ss) == GROUNDED
  {
    if ss != [] {
      hide Tracked;
      var n := |ss| - 1;
      AcceptedOnlyOnce(g, ss[..n]);
      SubmitKeepsTracked(g, SubmitAll(g, GROUNDED, ss[..n]), ss[n]);
      assert ss == ss[..n] + [ss[n]];
    } else {
      assert SubmitAll(g, GROUNDED, ss) == GROUNDED;
    }
  }

  /** While a key is in flight, every further submission of it is refused unsent. */
  lemma {:induction false} InFlightIsRefused(g: Engine, f: Flight, ss: seq<Submission>, s: Submission)
    requires s.key in f.pending
    ensures s.key in SubmitAll(g, f, ss).pending
    ensures AfterSubmit(g, SubmitAll(g, f, ss), s) == (SubmitAll(g, f, ss), None)
  {
    if ss != [] {
      InFlightIsRefused(g, f, ss[..|ss| - 1], s);
    }
  }

  /** When an entry is sent: exactly when the kill switch is off, the quotes are young enough, the
      gate grants units, there are legs, and no earlier order of its key was answered ACCEPTED. A dry
      run answers for the broker and sends nothing. */
  lemma SentIff(g: Engine, ss: seq<Submission>, s: Submission)
    ensures var f := SubmitAll(g, GROUNDED, ss);
            var (after, answer) := AfterSubmit(g, f, s);
            && (answer.Some? <==>
                  && !s.killed && (s.quoteAge.Some? ==> s.quoteAge.value <= g.maxQuoteAge) && s.units > 0 && s.hasLegs
                  && forall i :: 0 <= i < |f.sent| ==> f.sent[i].key != s.key || f.sent[i].answer.status != Accepted)
            && after.sent == (if answer.Some? && !g.dryRun then f.sent + [s] else f.sent)
            && (answer.Some? ==> answer.value == if g.dryRun then Answer(Accepted, "dry-run") else s.answer)
  {
    hide SubmitAll;
    AcceptedOnlyOnce(g, ss);
  }

  class ExecutionEngine {
    const engine: Engine
    var pending: map<EntryKey, string>
    ghost var sent: seq<Submission>

    constructor (engine: Engine)
      ensures View() == GROUNDED && this.engine == engine
    {
      this.engine := engine;
      pending, sent := map[], [];
    }

    ghost function View(): Flight
      reads this
    {
      Flight(pending, sent)
    }

    method Submit(s: Submission) returns (answer: Option<Answer>)
      modifies this
      ensures (View(), answer) == AfterSubmit(engine, old(View()), s)
    {
      if s.killed {
        return None;
      }
      if s.quoteAge.Some? && s.quoteAge.value > engine.maxQuoteAge {
        return None;
      }
      if s.key in pending {
        return None;
      }
      if s.units <= 0 || !s.hasLegs {
        return None;
      }
      if engine.dryRun {
        return Some(Answer(Accepted, "dry-run"));
      }
      sent := sent + [s];
      if s.answer.status == Accepted {
        pending := pending[s.key := s.answer.orderId];
      } else if s.answer.status == Filled {
        pending := pending - {s.key};
      }
      return Some(s.answer);
    }
  }
}
