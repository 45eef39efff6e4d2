// The promotion ledger (src/catalyst/strategies/promotion.py): which histories of
// backtests and paper sessions make a strategy eligible for live trading.
module Promotion {
  import opened Common

  predicate StartsWith(s: string, prefix: string) {
    |prefix| <= |s| && s[..|prefix|] == prefix
  }

  predicate Contains(s: string, part: string) {
    if StartsWith(s, part) then true
    else if s == "" then false
    else Contains(s[1..], part)
  }

  predicate Passing(verdict: string) {
    StartsWith(verdict, "CANDIDATE") && !Contains(verdict, "test segment missing")
  }

  /** What is written to the evidence trail, newest last. */
  datatype Note = BacktestNote(passed: bool, verdict: string) | DemoteNote | PaperNote(granted: bool, account: string)

  datatype Record = Record(
    validated: bool,
    paperTested: bool,
    verdict: Option<string>,
    codeHash: Option<string>,
    account: Option<string>,
    ordersSeen: nat,
    notes: seq<Note>)

  const FRESH := Record(false, false, None, None, None, 0, [])

  /** Everything that can happen to a strategy's record. */
  datatype Event =
    | Backtest(verdict: string, codeHash: Option<string>, research: bool)
    | Paper(account: string, orders: nat, roundTrips: nat)

  function AfterBacktest(r: Record, verdict: string, codeHash: Option<string>, research: bool): Record {
    if research then r
    else
      var passed := Passing(verdict);
      var noted := r.notes + [BacktestNote(passed, verdict)];
      r.(validated := passed,
      verdict := Some(verdict),
      codeHash := codeHash,
      paperTested := passed && r.paperTested,
      notes := if passed then noted else noted + [DemoteNote])
  }

  predicate Grants(r: Record, roundTrips: nat) {
    r.validated && roundTrips >= 1
  }

  function AfterPaper(r: Record, account: string, orders: nat, roundTrips: nat): Record {
    if Grants(r, roundTrips) then
      r.(paperTested := true, account := Some(account), ordersSeen := orders, notes := r.notes + [PaperNote(true, account)])
    else
      r.(notes := r.notes + [PaperNote(false, account)])
  }

  function After(r: Record, e: Event): Record {
    match e
    case Backtest(verdict, codeHash, research) => AfterBacktest(r, verdict, codeHash, research)
    case Paper(account, orders, roundTrips) => AfterPaper(r, account, orders, roundTrips)
  }

  function History(es: seq<Event>): Record {
    if es == [] then FRESH else After(History(es[..|es| - 1]), es[|es| - 1])
  }

  /** A part of a text starts at place i. */
  predicate At(s: string, part: string, i: nat) {
    i + |part| <= |s| && s[i..i + |part|] == part
  }

  lemma {:induction false} ContainsIff(s: string, part: string)
    ensures Contains(s, part) <==> exists i: nat :: At(s, part, i)
  {
    if StartsWith(s, part) {
      assert At(s, part, 0);
    } else {
      forall i: nat | At(s, part, i)
        ensures s != "" && i > 0 && At(s[1..], part, i - 1)
      {
        assert i > 0 ==> s[1..][i - 1..i - 1 + |part|] == s[i..i + |part|];
      }
      if s != "" {
        ContainsIff(s[1..], part);
        forall i: nat | At(s[1..], part, i)
          ensures At(s, part, i + 1)
        {
          assert s[1..][i..i + |part|] == s[i + 1..i + 1 + |part|];
        }
      }
    }
  }

  /** A verdict passes exactly when it begins with CANDIDATE and nowhere says that the test segment
      is missing. */
  lemma PassingIff(verdict: string)
    ensures Passing(verdict) <==> At(verdict, "CANDIDATE", 0) && forall i: nat :: !At(verdict, "test segment missing", i)
  {
    ContainsIff(verdict, "test segment missing");
  }

  datatype Eligibility = Eligible | NotValidated | NotPaperTested | CodeChanged

  /** check_live_eligibility; current is the hash of the code now, when it is checked. */
  function CheckLive(r: Record, current: Option<string>): Eligibility {
    if !r.validated then NotValidated
    else if !r.paperTested then NotPaperTested
    else if current.Some? && r.codeHash.Some? && r.codeHash.value != "" && current.value != r.codeHash.value then CodeChanged
    else Eligible
  }

  // ---- the class -----------------------------------------------------------

  /** One strategy's evidence trail; every call leaves it saved. */
  class PromotionRecord {
    var validated: bool
    var paperTested: bool
    var verdict: Option<string>
    var codeHash: Option<string>
    var account: Option<string>
    var ordersSeen: nat
    var notes: seq<Note>

    constructor ()
      ensures View() == FRESH
    {
      validated, paperTested, verdict, codeHash, account, ordersSeen, notes := false, false, None, None, None, 0, [];
    }

    ghost function View(): Record
      reads this
    {
      Record(validated, paperTested, verdict, codeHash, account, ordersSeen, notes)
    }

    method RecordBacktest(verdict: string, codeHash: Option<string>, research: bool)
      modifies this
      ensures View() == AfterBacktest(old(View()), verdict, codeHash, research)
    {
      if research {
        return;
      }
      var passed := Passing(verdict);
      validated := passed;
      this.verdict := Some(verdict);
      this.codeHash := codeHash;
      notes := notes + [BacktestNote(passed, verdict)];
      if !passed {
        paperTested := false;
        notes := notes + [DemoteNote];
      }
    }

    /** False stands for the PermissionError; the note is saved either way. */
    method RecordPaperSession(account: string, orders: nat, roundTrips: nat) returns (granted: bool)
      modifies this
      ensures View() == AfterPaper(old(View()), account, orders, roundTrips)
      ensures granted <==> Grants(old(View()), roundTrips)
    {
      if !validated {
        notes := notes + [PaperNote(false, account)];
        return false;
      }
      if roundTrips < 1 {
        notes := notes + [PaperNote(false, account)];
        return false;
      }
      paperTested := true;
      this.account := Some(account);
      ordersSeen := orders;
      notes := notes + [PaperNote(true, account)];
      return true;
    }
  }

  // ---- what the flags mean -------------------------------------------------

  /** Event i is a backtest that counts and nothing that counts follows it. */
  ghost predicate LatestBacktest(es: seq<Event>, i: int) {
    && 0 <= i < |es| && es[i].Backtest? && !es[i].research
    && forall j :: i < j < |es| && es[j].Backtest? ==> es[j].research
  }

  /** The latest backtest that counts passed. */
  ghost predicate PassedLast(es: seq<Event>) {
    exists i :: LatestBacktest(es, i) && Passing(es[i].verdict)
  }

  /** Event j granted the paper flag: a round trip, on a strategy whose latest backtest
      at the time had passed. */
  ghost predicate GrantAt(es: seq<Event>, j: int) {
    && 0 <= j < |es| && es[j].Paper? && es[j].roundTrips >= 1
    && PassedLast(es[..j])
  }

  /** No counted backtest fails from event j on. */
  ghost predicate NoFailureSince(es: seq<Event>, j: int) {
    forall k :: j < k < |es| && 0 <= k && es[k].Backtest? && !es[k].research ==> Passing(es[k].verdict)
  }

  lemma LatestGrows(es: seq<Event>, e: Event, i: nat)
    requires i < |es|
    ensures LatestBacktest(es + [e], i) <==> LatestBacktest(es, i) && (e.Backtest? ==> e.research)
  {
    var all := es + [e];
    assert all[|es|] == e;
    if LatestBacktest(es, i) && (e.Backtest? ==> e.research) {
      forall j | i < j < |all| && all[j].Backtest?
        ensures all[j].research
      {
        assert j < |es| ==> all[j] == es[j];
      }
    }
    if LatestBacktest(all, i) {
      assert all[i] == es[i];
      forall j | i < j < |es| && es[j].Backtest?
        ensures es[j].research
      {
        assert all[j] == es[j];
      }
    }
  }

  /** validated means: the latest backtest that counts passed. */
  lemma {:induction false} ValidatedIff(es: seq<Event>)
    ensures History(es).validated <==> PassedLast(es)
    ensures forall i :: LatestBacktest(es, i) ==> History(es).codeHash == es[i].codeHash && History(es).validated == Passing(es[i].verdict)
  {
    hide Passing;
    if es != [] {
      var n := |es| - 1;
      var e := es[n];
      ValidatedIff(es[..n]);
      assert es == es[..n] + [e];
      forall i | 0 <= i < n
        ensures LatestBacktest(es, i) <==> LatestBacktest(es[..n], i) && (e.Backtest? ==> e.research)
      {
        LatestGrows(es[..n], e, i);
      }
      if e.Backtest? && !e.research {
        assert LatestBacktest(es, n);
      } else {
        assert !LatestBacktest(es, n);
        if i :| LatestBacktest(es[..n], i) && Passing(es[..n][i].verdict) {
          assert LatestBacktest(es, i) && es[i] == es[..n][i];
        }
        if i :| LatestBacktest(es, i) && Passing(es[i].verdict) {
          assert LatestBacktest(es[..n], i) && es[i] == es[..n][i];
        }
      }
    }
  }

  /** The evidence trail, event by event: a backtest that counts leaves its verdict, and a demotion when
      it fails; a paper session leaves whether it was granted; runs with overrides leave nothing.
      A grant alone sets the account and the number of orders, a counted backtest alone the verdict
      and the hash of the code. */
  lemma TrailGrows(es: seq<Event>, e: Event)
    ensures e.Backtest? && e.research ==> History(es + [e]) == History(es)
    ensures e.Backtest? && !e.research ==>
              var r, after, passed := History(es), History(es + [e]), Passing(e.verdict);
              && after.notes == r.notes + [BacktestNote(passed, e.verdict)] + (if passed then [] else [DemoteNote])
              && after.verdict == Some(e.verdict) && after.codeHash == e.codeHash
              && after.account == r.account && after.ordersSeen == r.ordersSeen
    ensures e.Paper? ==>
              var r, after, granted := History(es), History(es + [e]), PassedLast(es) && e.roundTrips >= 1;
              && after.notes == r.notes + [PaperNote(granted, e.account)]
              && after.verdict == r.verdict && after.codeHash == r.codeHash
              && after.account == (if granted then Some(e.account) else r.account)
              && after.ordersSeen == (if granted then e.orders else r.ordersSeen)
  {
    hide Passing, PassedLast;
    ValidatedIff(es);
    assert (es + [e])[..|es|] == es;
  }

  lemma GrantGrows(es: seq<Event>, e: Event, j: nat)
    requires j < |es|
    ensures GrantAt(es + [e], j) <==> GrantAt(es, j)
    ensures NoFailureSince(es + [e], j) <==> NoFailureSince(es, j) && (e.Backtest? && !e.research ==> Passing(e.verdict))
  {
    hide Passing, PassedLast;
    var all := es + [e];
    assert all[..j] == es[..j] && all[|es|] == e && all[j] == es[j];
    assert forall k :: 0 <= k < |es| ==> all[k] == es[k];
  }

  lemma GrantNow(es: seq<Event>, e: Event)
    requires e.Paper?
    ensures GrantAt(es + [e], |es|) <==> Grants(History(es), e.roundTrips)
    ensures NoFailureSince(es + [e], |es|)
  {
    hide Passing, History, PassedLast;
    ValidatedIff(es);
    var all := es + [e];
    assert all[..|es|] == es && all[|es|] == e;
  }

  ghost predicate PaperStands(es: seq<Event>) {
    exists j :: GrantAt(es, j) && NoFailureSince(es, j)
  }

  /** The paper flag means: some session was granted it and no backtest failed since. */
  lemma {:induction false} PaperTestedIff(es: seq<Event>)
    ensures History(es).paperTested <==> PaperStands(es)
  {
    hide Passing, PassedLast, GrantAt, NoFailureSince, PaperStands;
    if es == [] {
      NoGrantYet();
    } else {
      var n := |es| - 1;
      PaperTestedIff(es[..n]);
      assert es == es[..n] + [es[n]];
      StandsStep(es[..n], es[n]);
    }
  }

  lemma NoGrantYet()
    ensures !PaperStands([])
  {
    hide PassedLast;
  }

  /** A paper session keeps a standing grant or makes one; a backtest can only end it. */
  lemma StandsStep(rest: seq<Event>, e: Event)
    ensures PaperStands(rest + [e]) <==>
            match e
            case Paper(_, _, roundTrips) => PaperStands(rest) || Grants(History(rest), roundTrips)
            case Backtest(verdict, _, research) => PaperStands(rest) && (research || Passing(verdict))
  {
    hide Passing, PassedLast, GrantAt, NoFailureSince, History, Grants;
    var es := rest + [e];
    GrantInside(rest);
    GrantInside(es);
    if e.Paper? {
      GrantNow(rest, e);
    } else {
      NoGrantByBacktest(rest, e);
    }
    if PaperStands(rest) && (e.Backtest? && !e.research ==> Passing(e.verdict)) {
      var j :| GrantAt(rest, j) && NoFailureSince(rest, j);
      GrantGrows(rest, e, j);
      assert GrantAt(es, j) && NoFailureSince(es, j);
    }
    if PaperStands(es) {
      var j :| GrantAt(es, j) && NoFailureSince(es, j);
      if j < |rest| {
        GrantGrows(rest, e, j);
        assert GrantAt(rest, j) && NoFailureSince(rest, j);
      }
    }
  }

  lemma GrantInside(es: seq<Event>)
    ensures forall j :: GrantAt(es, j) ==> 0 <= j < |es|
  {
    hide PassedLast;
  }

  lemma NoGrantByBacktest(rest: seq<Event>, e: Event)
    requires e.Backtest?
    ensures !GrantAt(rest + [e], |rest|)
  {
    hide PassedLast;
  }

  /** Live eligibility, over every history: the latest backtest that counts passed, and
      some paper session with a round trip was granted while the strategy was
      validated, with no failing backtest since; and nothing else stands in the way
      but a change of the code. */
  lemma EligibleIff(es: seq<Event>, current: Option<string>)
    ensures CheckLive(History(es), current) == Eligible <==>
            && (exists i :: LatestBacktest(es, i) && Passing(es[i].verdict)
                            && (current.Some? && es[i].codeHash.Some? && es[i].codeHash.value != "" ==>
                                  current.value == es[i].codeHash.value))
            && (exists j :: GrantAt(es, j) && NoFailureSince(es, j))
  {
    hide Passing, LatestBacktest, GrantAt, NoFailureSince, History;
    ValidatedIff(es);
    PaperTestedIff(es);
  }

  /** Runs with overrides leave no trace. */
  lemma {:induction false} ResearchIsInvisible(es: seq<Event>, more: seq<Event>)
    requires forall i :: 0 <= i < |more| ==> more[i].Backtest? && more[i].research
    ensures History(es + more) == History(es)
  {
    if more == [] {
      assert es + more == es;
    } else {
      var n := |more| - 1;
      assert (es + more)[..|es + more| - 1] == es + more[..n];
      ResearchIsInvisible(es, more[..n]);
    }
  }
}
