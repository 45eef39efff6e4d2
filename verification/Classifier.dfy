// Point-in-time regime classification (src/edge/regime/classifier.py): tidy inputs,
// fixed definitions, and which inputs a session's row can depend on.
//
// A date is a day number and an instant is a minute of ET wall-clock time.
module Classifier {
  import opened Common

  type Date = int
  type Instant = int

  const DAY := 1440
  const OPEN_MINUTE := 570
  const EVENING_MINUTE := 1080

  function OpenOf(day: Date): Instant {
    day * DAY + OPEN_MINUTE
  }

  function EveningOf(day: Date): Instant {
    day * DAY + EVENING_MINUTE
  }

  // ---- inputs --------------------------------------------------------------

  datatype VolRow = VolRow(asof: Date, vix: Num, vix9d: Num, available: Instant)

  /** One bar as loaded; available is the frame's own stamp, when it has one. */
  datatype Bar = Bar(ts: Instant, high: Num, low: Num, close: Num, available: Option<Instant>) {
    function Day(): Date {
      ts / DAY
    }
  }

  /** One session's bar. source is the latest stamp among its rows. */
  datatype Daily = Daily(day: Date, high: real, low: real, close: real, source: Option<Instant>) {
    /** The later of the evening convention and the source's own stamp. */
    function Available(): (at: Instant)
      ensures at >= EveningOf(day)
    {
      if source.Some? && source.value > EveningOf(day) then source.value else EveningOf(day)
    }
  }

  function Keep<T(!new)>(p: T -> bool, s: seq<T>): (r: seq<T>)
    ensures forall x :: x in r <==> x in s && p(x)
  {
    if s == [] then []
    else
      var rest := Keep(p, s[..|s| - 1]);
      var last := s[|s| - 1];
      assert s == s[..|s| - 1] + [last];
      if p(last) then rest + [last] else rest
  }

  lemma KeepAppend<T(!new)>(p: T -> bool, s: seq<T>, x: T)
    ensures Keep(p, s + [x]) == if p(x) then Keep(p, s) + [x] else Keep(p, s)
  {
    assert (s + [x])[..|s|] == s;
  }

  /** Strictly ascending in a key. */
  ghost predicate Ascending<T(!new)>(key: T -> int, s: seq<T>) {
    forall i, j :: 0 <= i < j < |s| ==> key(s[i]) < key(s[j])
  }

  lemma {:induction false} KeepAscending<T(!new)>(key: T -> int, p: T -> bool, s: seq<T>)
    requires Ascending(key, s)
    ensures Ascending(key, Keep(p, s))
  {
    if s != [] {
      var n := |s| - 1;
      KeepAscending(key, p, s[..n]);
      var kept := Keep(p, s[..n]);
      forall i | 0 <= i < |kept|
        ensures key(kept[i]) < key(s[n])
      {
        assert kept[i] in s[..n];
      }
    }
  }

  /** Ascending sequences are determined by their members. */
  lemma {:induction false} SameMembers<T(!new)>(key: T -> int, a: seq<T>, b: seq<T>)
    requires Ascending(key, a) && Ascending(key, b) && forall x :: x in a <==> x in b
    ensures a == b
  {
    assert a != [] ==> a[0] in b;
    assert b != [] ==> b[0] in a;
    if a != [] {
      var n, m := |a| - 1, |b| - 1;
      assert a[n] in b && b[m] in a;
      LatestIsLast(key, a, b);
      forall x
        ensures x in a[..n] <==> x in b[..m]
      {
        InitMembers(key, a, x);
        InitMembers(key, b, x);
      }
      SameMembers(key, a[..n], b[..m]);
      assert a == a[..n] + [a[n]] && b == b[..m] + [b[m]];
    }
  }

  lemma LatestIsLast<T(!new)>(key: T -> int, a: seq<T>, b: seq<T>)
    requires Ascending(key, a) && Ascending(key, b) && a != [] && b != []
    requires a[|a| - 1] in b && b[|b| - 1] in a
    ensures a[|a| - 1] == b[|b| - 1]
  {
    var i :| 0 <= i < |b| && b[i] == a[|a| - 1];
    var j :| 0 <= j < |a| && a[j] == b[|b| - 1];
  }

  lemma InitMembers<T(!new)>(key: T -> int, a: seq<T>, x: T)
    requires Ascending(key, a) && a != []
    ensures x in a[..|a| - 1] <==> x in a && x != a[|a| - 1]
  {
    assert a == a[..|a| - 1] + [a[|a| - 1]];
  }

  // ---- vol history ---------------------------------------------------------

  /** One row more: rows without a VIX carry nothing, a repeated date replaces. */
  function Upsert(history: seq<VolRow>, row: VolRow): seq<VolRow> {
    if row.vix.NaN? then history
    else if history == [] then [row]
    else
      var n := |history| - 1;
      if history[n].asof < row.asof then history + [row]
      else if history[n].asof == row.asof then history[..n] + [row]
      else Upsert(history[..n], row) + [history[n]]
  }

  /** One row per asof_date, ascending; the last row of a date wins. */
  function VolHistory(rows: seq<VolRow>): seq<VolRow> {
    if rows == [] then [] else Upsert(VolHistory(rows[..|rows| - 1]), rows[|rows| - 1])
  }

  /** The last row with a VIX for a date. */
  function LastFor(rows: seq<VolRow>, asof: Date): Option<VolRow> {
    if rows == [] then None
    else
      var last := rows[|rows| - 1];
      if last.asof == asof && last.vix.Fin? then Some(last) else LastFor(rows[..|rows| - 1], asof)
  }

  function DateOf(): VolRow -> int {
    (r: VolRow) => r.asof
  }

  ghost predicate ByDate(history: seq<VolRow>) {
    Ascending(DateOf(), history)
  }

  lemma {:induction false} UpsertKeeps(history: seq<VolRow>, row: VolRow)
    requires ByDate(history)
    ensures ByDate(Upsert(history, row))
    ensures row.vix.Fin? ==>
              forall r :: r in Upsert(history, row) <==> r == row || (r in history && r.asof != row.asof)
  {
    if row.vix.Fin? && history != [] {
      var n := |history| - 1;
      var last := history[n];
      assert history == history[..n] + [last];
      if last.asof > row.asof {
        UpsertKeeps(history[..n], row);
        var rest := Upsert(history[..n], row);
        forall i | 0 <= i < |rest|
          ensures rest[i].asof < last.asof
        {
          assert rest[i] in rest;
        }
      }
    }
  }

  /** The history is exactly the last row of every date, by date. */
  lemma {:induction false} HistoryIsLast(rows: seq<VolRow>)
    ensures ByDate(VolHistory(rows))
    ensures forall r :: r in VolHistory(rows) <==> LastFor(rows, r.asof) == Some(r)
  {
    if rows != [] {
      HistoryIsLast(rows[..|rows| - 1]);
      UpsertKeeps(VolHistory(rows[..|rows| - 1]), rows[|rows| - 1]);
    }
  }

  // ---- availability against revisions --------------------------------------

  function EarlyRow(cutoff: Instant): VolRow -> bool {
    (r: VolRow) => r.available < cutoff
  }

  /** A late revision: a date with a usable row whose last row is not usable yet. */
  ghost predicate LateRevision(rows: seq<VolRow>, cutoff: Instant, asof: Date) {
    && LastFor(rows, asof).Some?
    && LastFor(rows, asof).value.available >= cutoff
    && LastFor(Keep(EarlyRow(cutoff), rows), asof).Some?
  }

  lemma {:induction false} LastAmongEarly(rows: seq<VolRow>, cutoff: Instant, asof: Date)
    ensures LastFor(rows, asof).Some? && LastFor(rows, asof).value.available < cutoff ==>
              LastFor(Keep(EarlyRow(cutoff), rows), asof) == LastFor(rows, asof)
    ensures LastFor(rows, asof).None? ==> LastFor(Keep(EarlyRow(cutoff), rows), asof).None?
    ensures LastFor(rows, asof).Some? ==> LastFor(rows, asof).value.asof == asof
  {
    if rows != [] {
      var n := |rows| - 1;
      LastAmongEarly(rows[..n], cutoff, asof);
      assert rows == rows[..n] + [rows[n]];
      KeepAppend(EarlyRow(cutoff), rows[..n], rows[n]);
      var kept := Keep(EarlyRow(cutoff), rows[..n]);
      assert (kept + [rows[n]])[..|kept|] == kept;
    }
  }

  lemma UsableMember(rows: seq<VolRow>, cutoff: Instant, r: VolRow)
    ensures r in Keep(EarlyRow(cutoff), VolHistory(rows)) <==> LastFor(rows, r.asof) == Some(r) && r.available < cutoff
    ensures r in VolHistory(Keep(EarlyRow(cutoff), rows)) <==> LastFor(Keep(EarlyRow(cutoff), rows), r.asof) == Some(r)
  {
    HistoryIsLast(rows);
    HistoryIsLast(Keep(EarlyRow(cutoff), rows));
  }

  /** When the classifier's order of work is harmless. The code removes repeated dates
      before it filters by availability; that gives the same rows as filtering first
      exactly when no date has a late revision. */
  lemma DedupThenFilterIff(rows: seq<VolRow>, cutoff: Instant)
    ensures Keep(EarlyRow(cutoff), VolHistory(rows)) == VolHistory(Keep(EarlyRow(cutoff), rows))
            <==> forall asof :: !LateRevision(rows, cutoff, asof)
  {
    var early := Keep(EarlyRow(cutoff), rows);
    if forall asof :: !LateRevision(rows, cutoff, asof) {
      forall r
        ensures r in Keep(EarlyRow(cutoff), VolHistory(rows)) <==> r in VolHistory(early)
      {
        UsableMember(rows, cutoff, r);
        LastAmongEarly(rows, cutoff, r.asof);
        assert !LateRevision(rows, cutoff, r.asof);
      }
      HistoryIsLast(rows);
      HistoryIsLast(early);
      KeepAscending(DateOf(), EarlyRow(cutoff), VolHistory(rows));
      SameMembers(DateOf(), Keep(EarlyRow(cutoff), VolHistory(rows)), VolHistory(early));
    }
    if asof :| LateRevision(rows, cutoff, asof) {
      var r := LastFor(early, asof).value;
      LastMember(early, asof);
      UsableMember(rows, cutoff, r);
      assert r in VolHistory(early) && r !in Keep(EarlyRow(cutoff), VolHistory(rows));
    }
  }

  lemma {:induction false} LastMember(rows: seq<VolRow>, asof: Date)
    requires LastFor(rows, asof).Some?
    ensures LastFor(rows, asof).value in rows && LastFor(rows, asof).value.asof == asof
  {
    var n := |rows| - 1;
    if !(rows[n].asof == asof && rows[n].vix.Fin?) {
      LastMember(rows[..n], asof);
    }
  }

  /** One row with a VIX per date. */
  ghost predicate OneRowPerDate(rows: seq<VolRow>) {
    forall i, j :: 0 <= i < j < |rows| && rows[i].vix.Fin? && rows[j].vix.Fin? ==> rows[i].asof != rows[j].asof
  }

  lemma {:induction false} OneRowIsLast(rows: seq<VolRow>, r: VolRow)
    requires OneRowPerDate(rows) && r in rows && r.vix.Fin?
    ensures LastFor(rows, r.asof) == Some(r)
  {
    var n := |rows| - 1;
    assert rows == rows[..n] + [rows[n]];
    if rows[n] != r {
      OneRowIsLast(rows[..n], r);
    }
  }

  lemma {:induction false} LastIsFinite(rows: seq<VolRow>, asof: Date)
    requires LastFor(rows, asof).Some?
    ensures LastFor(rows, asof).value.vix.Fin?
  {
    var n := |rows| - 1;
    if !(rows[n].asof == asof && rows[n].vix.Fin?) {
      LastIsFinite(rows[..n], asof);
    }
  }

  lemma OneRowNoRevision(rows: seq<VolRow>, cutoff: Instant, asof: Date)
    requires OneRowPerDate(rows)
    ensures !LateRevision(rows, cutoff, asof)
  {
    var early := Keep(EarlyRow(cutoff), rows);
    if LastFor(early, asof).Some? {
      LastMember(early, asof);
      LastIsFinite(early, asof);
      OneRowIsLast(rows, LastFor(early, asof).value);
    }
  }

  // ---- daily bars ----------------------------------------------------------

  /** Stable insertion by timestamp. */
  function InsertBar(sorted: seq<Bar>, b: Bar): seq<Bar> {
    if sorted == [] || sorted[|sorted| - 1].ts <= b.ts then sorted + [b]
    else InsertBar(sorted[..|sorted| - 1], b) + [sorted[|sorted| - 1]]
  }

  /** Bars with a close, in time order. */
  function Tidy(bars: seq<Bar>): seq<Bar> {
    if bars == [] then []
    else
      var rest := Tidy(bars[..|bars| - 1]);
      var b := bars[|bars| - 1];
      if b.close.NaN? then rest else InsertBar(rest, b)
  }

  function OrElse(x: Num, y: real): real {
    if x.Fin? then x.v else y
  }

  function Later(a: Option<Instant>, b: Option<Instant>): Option<Instant> {
    match (a, b)
    case (None, _) => b
    case (_, None) => a
    case (Some(x), Some(y)) => Some(if x >= y then x else y)
  }

  /** Fold one more bar into the sessions: high and low widen, the close moves on. */
  function AddBar(days: seq<Daily>, b: Bar): seq<Daily>
    requires b.close.Fin?
  {
    var close := b.close.v;
    var high, low := OrElse(b.high, close), OrElse(b.low, close);
    var n := |days| - 1;
    if days != [] && days[n].day == b.Day() then
      var d := days[n];
      days[..n] + [Daily(d.day, Max(d.high, high), Min(d.low, low), close, Later(d.source, b.available))]
    else days + [Daily(b.Day(), high, low, close, b.available)]
  }

  function Group(sorted: seq<Bar>): seq<Daily> {
    if sorted == [] then []
    else
      var rest := Group(sorted[..|sorted| - 1]);
      var b := sorted[|sorted| - 1];
      if b.close.Fin? then AddBar(rest, b) else rest
  }

  function DailyBars(bars: seq<Bar>): seq<Daily> {
    Group(Tidy(bars))
  }

  ghost predicate InTime(bars: seq<Bar>) {
    && (forall i :: 0 <= i < |bars| ==> bars[i].close.Fin?)
    && forall i, j :: 0 <= i < j < |bars| ==> bars[i].ts <= bars[j].ts
  }

  function SessionOf(): Daily -> int {
    (d: Daily) => d.day
  }

  ghost predicate InOrder(days: seq<Daily>) {
    Ascending(SessionOf(), days)
  }

  lemma {:induction false} InsertInTime(sorted: seq<Bar>, b: Bar)
    requires InTime(sorted) && b.close.Fin?
    ensures InTime(InsertBar(sorted, b))
    ensures forall x :: x in InsertBar(sorted, b) <==> x == b || x in sorted
  {
    if sorted == [] || sorted[|sorted| - 1].ts <= b.ts {
    } else {
      var n := |sorted| - 1;
      assert sorted == sorted[..n] + [sorted[n]];
      InsertInTime(sorted[..n], b);
      var rest := InsertBar(sorted[..n], b);
      forall i | 0 <= i < |rest|
        ensures rest[i].ts <= sorted[n].ts && rest[i].close.Fin?
      {
        assert rest[i] in rest;
      }
    }
  }

  lemma {:induction false} TidyInTime(bars: seq<Bar>)
    ensures InTime(Tidy(bars))
  {
    if bars != [] {
      TidyInTime(bars[..|bars| - 1]);
      if bars[|bars| - 1].close.Fin? {
        InsertInTime(Tidy(bars[..|bars| - 1]), bars[|bars| - 1]);
      }
    }
  }

  lemma {:induction false} GroupInOrder(sorted: seq<Bar>)
    requires InTime(sorted)
    ensures InOrder(Group(sorted))
    ensures sorted != [] ==> Group(sorted) != [] && Group(sorted)[|Group(sorted)| - 1].day == sorted[|sorted| - 1].Day()
  {
    if sorted != [] {
      hide AddBar, InOrder;
      var n := |sorted| - 1;
      GroupInOrder(sorted[..n]);
      AddBarInOrder(Group(sorted[..n]), sorted[n]);
    } else {
      assert Group(sorted) == [];
    }
  }

  lemma AddBarInOrder(days: seq<Daily>, b: Bar)
    requires InOrder(days) && b.close.Fin? && (days == [] || days[|days| - 1].day <= b.Day())
    ensures InOrder(AddBar(days, b)) && AddBar(days, b) != [] && AddBar(days, b)[|AddBar(days, b)| - 1].day == b.Day()
  {
  }

  function BarBefore(day: Date): Bar -> bool {
    (b: Bar) => b.Day() < day
  }

  /** Sorting in one more bar and picking bars commute. */
  lemma {:induction false} KeepInsert(p: Bar -> bool, sorted: seq<Bar>, b: Bar)
    requires InTime(sorted) && b.close.Fin?
    ensures Keep(p, InsertBar(sorted, b)) == if p(b) then InsertBar(Keep(p, sorted), b) else Keep(p, sorted)
  {
    if sorted == [] || sorted[|sorted| - 1].ts <= b.ts {
      hide InsertBar;
      InsertOver(sorted, b);
      KeepAppend(p, sorted, b);
      NoneLater(p, sorted, b);
      InsertOver(Keep(p, sorted), b);
    } else {
      hide InsertBar, Keep;
      var n := |sorted| - 1;
      var last := sorted[n];
      assert sorted == sorted[..n] + [last];
      KeepInsert(p, sorted[..n], b);
      InsertUnder(sorted[..n], last, b);
      KeepAppend(p, InsertBar(sorted[..n], b), last);
      KeepAppend(p, sorted[..n], last);
      InsertUnder(Keep(p, sorted[..n]), last, b);
    }
  }

  lemma InsertUnder(sorted: seq<Bar>, last: Bar, b: Bar)
    requires last.ts > b.ts
    ensures InsertBar(sorted + [last], b) == InsertBar(sorted, b) + [last]
  {
    assert (sorted + [last])[..|sorted|] == sorted;
  }

  lemma InsertOver(sorted: seq<Bar>, b: Bar)
    requires sorted == [] || sorted[|sorted| - 1].ts <= b.ts
    ensures InsertBar(sorted, b) == sorted + [b]
  {
  }

  lemma NoneLater(p: Bar -> bool, sorted: seq<Bar>, b: Bar)
    requires InTime(sorted) && (sorted == [] || sorted[|sorted| - 1].ts <= b.ts)
    ensures var kept := Keep(p, sorted); kept == [] || kept[|kept| - 1].ts <= b.ts
  {
    var kept := Keep(p, sorted);
    if kept != [] {
      assert kept[|kept| - 1] in kept;
    }
  }

  /** Tidying and picking bars commute. */
  lemma {:induction false} TidyCommutes(p: Bar -> bool, bars: seq<Bar>)
    ensures Keep(p, Tidy(bars)) == Tidy(Keep(p, bars))
  {
    if bars != [] {
      var n := |bars| - 1;
      TidyCommutes(p, bars[..n]);
      TidyInTime(bars[..n]);
      assert bars == bars[..n] + [bars[n]];
      KeepAppend(p, bars[..n], bars[n]);
      var kept := Keep(p, bars[..n]);
      assert (kept + [bars[n]])[..|kept|] == kept;
      if bars[n].close.Fin? {
        KeepInsert(p, Tidy(bars[..n]), bars[n]);
      }
    }
  }

  /** A tidied frame holds exactly the bars with a close. */
  lemma {:induction false} TidyMembers(bars: seq<Bar>)
    ensures forall b :: b in Tidy(bars) <==> b in bars && b.close.Fin?
  {
    if bars != [] {
      var n := |bars| - 1;
      assert bars == bars[..n] + [bars[n]];
      TidyMembers(bars[..n]);
      TidyInTime(bars[..n]);
      if bars[n].close.Fin? {
        InsertInTime(Tidy(bars[..n]), bars[n]);
      }
    }
  }

  // ---- one day's bar -------------------------------------------------------

  /** What the bars of one day fold to, wherever they stand in the frame. */
  function DayBar(sorted: seq<Bar>, day: Date): Option<Daily> {
    if sorted == [] then None
    else
      var rest := DayBar(sorted[..|sorted| - 1], day);
      var b := sorted[|sorted| - 1];
      if b.Day() != day || b.close.NaN? then rest else Some(Merged(rest, b))
  }

  /** One more bar of a day folded into that day's bar so far. */
  function Merged(rest: Option<Daily>, b: Bar): Daily
    requires b.close.Fin?
  {
    if rest.None? then AddBar([], b)[0] else AddBar([rest.value], b)[|AddBar([rest.value], b)| - 1]
  }

  lemma DayBarAppend(sorted: seq<Bar>, b: Bar, day: Date)
    ensures DayBar(sorted + [b], day) ==
            if b.Day() != day || b.close.NaN? then DayBar(sorted, day) else Some(Merged(DayBar(sorted, day), b))
  {
    assert (sorted + [b])[..|sorted|] == sorted;
    hide Merged;
  }

  lemma {:induction false} DayBarDay(sorted: seq<Bar>, day: Date)
    ensures DayBar(sorted, day).Some? ==> DayBar(sorted, day).value.day == day
  {
    if sorted != [] {
      DayBarDay(sorted[..|sorted| - 1], day);
    }
  }

  /** Adding a bar replaces the bar of its own day, rest, and nothing else. */
  lemma AddBarMembers(days: seq<Daily>, rest: Option<Daily>, b: Bar, d: Daily)
    requires InOrder(days) && b.close.Fin? && (days == [] || days[|days| - 1].day <= b.Day())
    requires rest.Some? ==> rest.value in days && rest.value.day == b.Day()
    requires rest.None? ==> forall x :: x in days ==> x.day != b.Day()
    ensures d in AddBar(days, b) <==> if d.day != b.Day() then d in days else d == Merged(rest, b)
  {
    var n := |days| - 1;
    if days != [] && days[n].day == b.Day() {
      assert days == days[..n] + [days[n]];
      assert forall i :: 0 <= i < n ==> days[i].day < b.Day();
      assert days[n] in days;
    } else {
      assert forall i :: 0 <= i <= n ==> days[i].day < b.Day();
    }
  }

  lemma GroupAppend(sorted: seq<Bar>, b: Bar)
    requires b.close.Fin?
    ensures Group([]) == [] && Group(sorted + [b]) == AddBar(Group(sorted), b)
  {
    assert (sorted + [b])[..|sorted|] == sorted;
    hide AddBar;
  }

  lemma LastGrouped(sorted: seq<Bar>, b: Bar)
    requires InTime(sorted + [b])
    ensures InTime(sorted) && InOrder(Group(sorted))
    ensures Group(sorted) == [] || Group(sorted)[|Group(sorted)| - 1].day <= b.Day()
  {
    assert forall i :: 0 <= i < |sorted| ==> sorted[i] == (sorted + [b])[i];
    assert (sorted + [b])[|sorted|] == b;
    hide Group, InOrder, DayBar;
    GroupInOrder(sorted);
    if sorted == [] {
      NoGroups();
    }
  }

  lemma NoGroups()
    ensures Group([]) == []
  {
  }

  /** Grouping gives exactly the folded bar of every day that has one. */
  lemma {:induction false} GroupMembers(sorted: seq<Bar>)
    requires InTime(sorted)
    ensures forall d :: d in Group(sorted) <==> DayBar(sorted, d.day) == Some(d)
  {
    if sorted == [] {
      NoGroups();
    } else {
      hide AddBar, InOrder, Group, DayBar, Merged;
      var n := |sorted| - 1;
      var b := sorted[n];
      assert sorted == sorted[..n] + [b];
      var days := Group(sorted[..n]);
      LastGrouped(sorted[..n], b);
      GroupMembers(sorted[..n]);
      GroupAppend(sorted[..n], b);
      var rest := DayBar(sorted[..n], b.Day());
      DayBarDay(sorted[..n], b.Day());
      MergedDay(rest, b);
      forall d
        ensures d in Group(sorted) <==> DayBar(sorted, d.day) == Some(d)
      {
        DayBarAppend(sorted[..n], b, d.day);
        AddBarMembers(days, rest, b, d);
      }
    }
  }

  lemma MergedDay(rest: Option<Daily>, b: Bar)
    requires b.close.Fin? && (rest.Some? ==> rest.value.day == b.Day())
    ensures Merged(rest, b).day == b.Day()
  {
  }

  lemma {:induction false} KeepInTime(p: Bar -> bool, sorted: seq<Bar>)
    requires InTime(sorted)
    ensures InTime(Keep(p, sorted))
  {
    if sorted != [] {
      var n := |sorted| - 1;
      KeepInTime(p, sorted[..n]);
      var kept := Keep(p, sorted[..n]);
      forall i | 0 <= i < |kept|
        ensures kept[i].ts <= sorted[n].ts
      {
        assert kept[i] in sorted[..n];
      }
    }
  }

  /** Picking bars leaves the bar of a day alone when it picks all of that day's. */
  lemma {:induction false} DayBarOfAll(p: Bar -> bool, sorted: seq<Bar>, day: Date)
    requires forall b :: b in sorted && b.Day() == day ==> p(b)
    ensures DayBar(Keep(p, sorted), day) == DayBar(sorted, day)
  {
    if sorted != [] {
      hide DayBar, Merged;
      var n := |sorted| - 1;
      assert sorted == sorted[..n] + [sorted[n]];
      assert sorted[n] in sorted;
      DayBarOfAll(p, sorted[..n], day);
      KeepAppend(p, sorted[..n], sorted[n]);
      hide Keep;
      DayBarAppend(sorted[..n], sorted[n], day);
      DayBarAppend(Keep(p, sorted[..n]), sorted[n], day);
    }
  }

  /** A day has a bar exactly when some bar of the frame falls on it. */
  lemma {:induction false} DayBarExists(sorted: seq<Bar>, day: Date)
    ensures DayBar(sorted, day).Some? <==> exists b :: b in sorted && b.Day() == day && b.close.Fin?
  {
    if sorted != [] {
      var n := |sorted| - 1;
      assert sorted == sorted[..n] + [sorted[n]];
      DayBarExists(sorted[..n], day);
      assert sorted[n] in sorted;
      assert forall b :: b in sorted[..n] ==> b in sorted;
    }
  }

  function EarlyDaily(cutoff: Instant): Daily -> bool {
    (d: Daily) => d.Available() < cutoff
  }

  /** A bar usable before the open of a session belongs to an earlier session. */
  lemma UsableIsEarlier(d: Daily, day: Date)
    requires d.Available() < OpenOf(day)
    ensures d.day < day
  {
  }

  /** The usable daily bars of a session only depend on raw bars of earlier sessions. */
  lemma UsableBars(bars: seq<Bar>, day: Date)
    ensures Keep(EarlyDaily(OpenOf(day)), DailyBars(bars)) ==
            Keep(EarlyDaily(OpenOf(day)), DailyBars(Keep(BarBefore(day), bars)))
  {
    hide DayBar, Group, Tidy, InTime, Ascending;
    var sorted := Tidy(bars);
    var before := Keep(BarBefore(day), sorted);
    TidyInTime(bars);
    TidyCommutes(BarBefore(day), bars);
    KeepInTime(BarBefore(day), sorted);
    GroupMembers(sorted);
    GroupMembers(before);
    GroupInOrder(sorted);
    GroupInOrder(before);
    var early := EarlyDaily(OpenOf(day));
    KeepAscending(SessionOf(), early, Group(sorted));
    KeepAscending(SessionOf(), early, Group(before));
    forall d
      ensures d in Keep(early, Group(sorted)) <==> d in Keep(early, Group(before))
    {
      if early(d) {
        UsableIsEarlier(d, day);
        DayBarOfAll(BarBefore(day), sorted, d.day);
      }
    }
    SameMembers(SessionOf(), Keep(early, Group(sorted)), Keep(early, Group(before)));
  }

  // ---- late bars -----------------------------------------------------------

  /** When a bar could be used by itself: the evening of its session or its own stamp,
      whichever is later. */
  function BarAvailable(b: Bar): Instant {
    if b.available.Some? && b.available.value > EveningOf(b.Day()) then b.available.value else EveningOf(b.Day())
  }

  function EarlyBar(cutoff: Instant): Bar -> bool {
    (b: Bar) => BarAvailable(b) < cutoff
  }

  /** A day's bar is usable exactly when all bars of the day are. */
  lemma {:induction false} DayIsEarlyIff(sorted: seq<Bar>, cutoff: Instant, day: Date)
    requires DayBar(sorted, day).Some?
    ensures DayBar(sorted, day).value.day == day
    ensures DayBar(sorted, day).value.Available() < cutoff
            <==> forall b :: b in sorted && b.Day() == day && b.close.Fin? ==> EarlyBar(cutoff)(b)
  {
    var n := |sorted| - 1;
    assert sorted == sorted[..n] + [sorted[n]];
    assert sorted[n] in sorted;
    assert forall b :: b in sorted[..n] ==> b in sorted;
    DayBarExists(sorted[..n], day);
    if DayBar(sorted[..n], day).Some? {
      DayIsEarlyIff(sorted[..n], cutoff, day);
    }
  }

  /** A split day: some of its bars are usable before the cutoff and some are not. */
  ghost predicate SplitDay(bars: seq<Bar>, cutoff: Instant, day: Date) {
    && (exists b :: b in bars && b.close.Fin? && b.Day() == day && EarlyBar(cutoff)(b))
    && (exists b :: b in bars && b.close.Fin? && b.Day() == day && !EarlyBar(cutoff)(b))
  }

  lemma UsableDay(bars: seq<Bar>, cutoff: Instant, d: Daily)
    ensures d in Keep(EarlyDaily(cutoff), DailyBars(bars))
            <==> && DayBar(Tidy(bars), d.day) == Some(d)
                 && forall b :: b in bars && b.Day() == d.day && b.close.Fin? ==> EarlyBar(cutoff)(b)
    ensures d in DailyBars(Keep(EarlyBar(cutoff), bars)) <==> DayBar(Keep(EarlyBar(cutoff), Tidy(bars)), d.day) == Some(d)
  {
    hide DayBar, Group, Tidy, InTime, Keep;
    TidyInTime(bars);
    TidyMembers(bars);
    TidyCommutes(EarlyBar(cutoff), bars);
    KeepInTime(EarlyBar(cutoff), Tidy(bars));
    GroupMembers(Tidy(bars));
    GroupMembers(Keep(EarlyBar(cutoff), Tidy(bars)));
    if DayBar(Tidy(bars), d.day) == Some(d) {
      DayIsEarlyIff(Tidy(bars), cutoff, d.day);
    }
  }

  /** When the order of work on bars is harmless. The code folds minute bars into days
      before it filters by availability; that gives the same days as filtering first
      exactly when no day has both a usable bar and one that is not usable yet. */
  lemma GroupThenFilterIff(bars: seq<Bar>, cutoff: Instant)
    ensures Keep(EarlyDaily(cutoff), DailyBars(bars)) == DailyBars(Keep(EarlyBar(cutoff), bars))
            <==> forall day :: !SplitDay(bars, cutoff, day)
  {
    hide DayBar, Group, Tidy, InTime, Ascending, SplitDay, Keep;
    var days, early := Keep(EarlyDaily(cutoff), DailyBars(bars)), DailyBars(Keep(EarlyBar(cutoff), bars));
    if forall day :: !SplitDay(bars, cutoff, day) {
      forall d
        ensures d in days <==> d in early
      {
        UsableDay(bars, cutoff, d);
        UnsplitDay(bars, cutoff, d.day);
      }
      TidyInTime(bars);
      TidyInTime(Keep(EarlyBar(cutoff), bars));
      GroupInOrder(Tidy(bars));
      GroupInOrder(Tidy(Keep(EarlyBar(cutoff), bars)));
      KeepAscending(SessionOf(), EarlyDaily(cutoff), DailyBars(bars));
      SameMembers(SessionOf(), days, early);
    }
    if day :| SplitDay(bars, cutoff, day) {
      SplitDayDiffers(bars, cutoff, day);
    }
  }

  /** A day that is not split is picked whole or not at all. */
  lemma UnsplitDay(bars: seq<Bar>, cutoff: Instant, day: Date)
    requires !SplitDay(bars, cutoff, day)
    ensures if forall b :: b in bars && b.Day() == day && b.close.Fin? ==> EarlyBar(cutoff)(b)
            then DayBar(Keep(EarlyBar(cutoff), Tidy(bars)), day) == DayBar(Tidy(bars), day)
            else DayBar(Keep(EarlyBar(cutoff), Tidy(bars)), day) == None
  {
    hide DayBar, Tidy;
    TidyMembers(bars);
    if forall b :: b in bars && b.Day() == day && b.close.Fin? ==> EarlyBar(cutoff)(b) {
      DayBarOfAll(EarlyBar(cutoff), Tidy(bars), day);
    } else {
      DayBarExists(Keep(EarlyBar(cutoff), Tidy(bars)), day);
    }
  }

  lemma SplitDayDiffers(bars: seq<Bar>, cutoff: Instant, day: Date)
    requires SplitDay(bars, cutoff, day)
    ensures Keep(EarlyDaily(cutoff), DailyBars(bars)) != DailyBars(Keep(EarlyBar(cutoff), bars))
    ensures forall d :: d in Keep(EarlyDaily(cutoff), DailyBars(bars)) ==> d.day != day
  {
    hide DayBar, Group, Tidy;
    TidyMembers(bars);
    var picked := Keep(EarlyBar(cutoff), Tidy(bars));
    DayBarExists(picked, day);
    DayBarDay(picked, day);
    var d := DayBar(picked, day).value;
    UsableDay(bars, cutoff, d);
    forall x | x in Keep(EarlyDaily(cutoff), DailyBars(bars))
      ensures x.day != day
    {
      UsableDay(bars, cutoff, x);
    }
  }

  // ---- fixed definitions ---------------------------------------------------

  const TREND_WINDOW := 21

  datatype VolState = Stressed | Low | Mid | High

  datatype TrendState = Up | Down | Chop

  datatype Bucket = Bucket(highVol: bool, trending: bool)

  datatype Regime = Regime(session: Date, vol: VolState, trend: TrendState, bucket: Bucket, pctile: real, available: Instant)

  function CountBelow(rows: seq<VolRow>, x: real): nat {
    if rows == [] then 0
    else CountBelow(rows[..|rows| - 1], x) + var v := rows[|rows| - 1].vix; if v.Fin? && v.v < x then 1 else 0
  }

  function CountAtMost(rows: seq<VolRow>, x: real): nat {
    if rows == [] then 0
    else CountAtMost(rows[..|rows| - 1], x) + var v := rows[|rows| - 1].vix; if v.Fin? && v.v <= x then 1 else 0
  }

  /** Midrank percentile of the last value within the whole history. */
  function Percentile(history: seq<VolRow>): real
    requires history != [] && history[|history| - 1].vix.Fin?
  {
    var x := history[|history| - 1].vix.v;
    100.0 * ((CountBelow(history, x) + CountAtMost(history, x)) as real) / (2.0 * (|history| as real))
  }

  function VolStateOf(pctile: real, vix: real, vix9d: Num): VolState {
    if vix9d.Fin? && vix > 0.0 && vix9d.v / vix > 1.0 then Stressed
    else if pctile < 33.0 then Low
    else if pctile < 67.0 then Mid
    else High
  }

  function Distance(a: real, b: real): real {
    if a >= b then a - b else b - a
  }

  function TrueRange(day: Daily, previous: Daily): real {
    Max(day.high - day.low, Max(Distance(day.high, previous.close), Distance(day.low, previous.close)))
  }

  function RangeSum(days: seq<Daily>, n: nat): real
    requires n < |days|
  {
    if n == 0 then 0.0 else RangeSum(days, n - 1) + TrueRange(days[n], days[n - 1])
  }

  /** The change over the window against one average true range; a short history chops. */
  function TrendOf(days: seq<Daily>): TrendState {
    if |days| < TREND_WINDOW + 1 then Chop
    else
      var w := days[|days| - TREND_WINDOW - 1..];
      var atr := RangeSum(w, TREND_WINDOW) / (TREND_WINDOW as real);
      var change := w[TREND_WINDOW].close - w[0].close;
      if change > atr then Up else if change < -atr then Down else Chop
  }

  function LatestVol(rows: seq<VolRow>): Instant
    requires rows != []
  {
    if |rows| == 1 then rows[0].available
    else MaxInstant(LatestVol(rows[..|rows| - 1]), rows[|rows| - 1].available)
  }

  function LatestBar(days: seq<Daily>): Instant
    requires days != []
  {
    if |days| == 1 then days[0].Available()
    else MaxInstant(LatestBar(days[..|days| - 1]), days[|days| - 1].Available())
  }

  function MaxInstant(a: Instant, b: Instant): Instant {
    if a >= b then a else b
  }

  /** The row of one session, or nothing when no VIX or no bar is usable yet. */
  function RowFor(history: seq<VolRow>, daily: seq<Daily>, day: Date): Option<Regime>
    requires forall r :: r in history ==> r.vix.Fin?
  {
    var vol := Keep(EarlyRow(OpenOf(day)), history);
    var bars := Keep(EarlyDaily(OpenOf(day)), daily);
    if vol == [] || bars == [] then None
    else
      var latest := vol[|vol| - 1];
      assert latest in vol;
      var pctile := Percentile(vol);
      var trend := TrendOf(bars);
      Some(Regime(day, VolStateOf(pctile, latest.vix.v, latest.vix9d), trend, Bucket(pctile >= 50.0, trend != Chop), pctile,
                  MaxInstant(EveningOf(bars[|bars| - 1].day), MaxInstant(LatestVol(vol), LatestBar(bars)))))
  }

  lemma {:induction false} HistoryIsFinite(rows: seq<VolRow>)
    ensures forall r :: r in VolHistory(rows) ==> r.vix.Fin?
  {
    HistoryIsLast(rows);
    forall r | r in VolHistory(rows)
      ensures r.vix.Fin?
    {
      LastIsFinite(rows, r.asof);
    }
  }

  /** A session's row from the frames as loaded. */
  function Classified(rows: seq<VolRow>, bars: seq<Bar>, day: Date): Option<Regime> {
    HistoryIsFinite(rows);
    RowFor(VolHistory(rows), DailyBars(bars), day)
  }

  // ---- point-in-time -------------------------------------------------------

  /** Non-interference: with one vol row per date, two inputs that agree on the vol
      rows and on the daily bars available before the open of a session give the same
      row for it, whatever else they contain. */
  lemma NonInterference(rows: seq<VolRow>, rows': seq<VolRow>, bars: seq<Bar>, bars': seq<Bar>, day: Date)
    requires OneRowPerDate(rows) && OneRowPerDate(rows')
    requires Keep(EarlyRow(OpenOf(day)), rows) == Keep(EarlyRow(OpenOf(day)), rows')
    requires Keep(EarlyDaily(OpenOf(day)), DailyBars(bars)) == Keep(EarlyDaily(OpenOf(day)), DailyBars(bars'))
    ensures Classified(rows, bars, day) == Classified(rows', bars', day)
  {
    hide OneRowPerDate, LateRevision, VolHistory, DailyBars, LatestVol, LatestBar, TrendOf, Percentile, VolStateOf, Keep;
    var cutoff := OpenOf(day);
    forall asof
      ensures !LateRevision(rows, cutoff, asof) && !LateRevision(rows', cutoff, asof)
    {
      OneRowNoRevision(rows, cutoff, asof);
      OneRowNoRevision(rows', cutoff, asof);
    }
    DedupThenFilterIff(rows, cutoff);
    DedupThenFilterIff(rows', cutoff);
    HistoryIsFinite(rows);
    HistoryIsFinite(rows');
  }

  /** The same from the raw bars: it is enough that they agree on the bars stamped before
      the open, when neither has a split day. */
  lemma RawNonInterference(rows: seq<VolRow>, rows': seq<VolRow>, bars: seq<Bar>, bars': seq<Bar>, day: Date)
    requires OneRowPerDate(rows) && OneRowPerDate(rows')
    requires Keep(EarlyRow(OpenOf(day)), rows) == Keep(EarlyRow(OpenOf(day)), rows')
    requires forall d :: !SplitDay(bars, OpenOf(day), d) && !SplitDay(bars', OpenOf(day), d)
    requires Keep(EarlyBar(OpenOf(day)), bars) == Keep(EarlyBar(OpenOf(day)), bars')
    ensures Classified(rows, bars, day) == Classified(rows', bars', day)
  {
    hide OneRowPerDate, SplitDay, DailyBars, Keep;
    GroupThenFilterIff(bars, OpenOf(day));
    GroupThenFilterIff(bars', OpenOf(day));
    NonInterference(rows, rows', bars, bars', day);
  }

  /** With a split day that claim fails: one more bar of session 0, stamped after the
      next open, takes the whole session away from the next row. */
  lemma LateBarInterferes(bar: Bar, late: Bar)
    requires bar.Day() == 0 && bar.close.Fin? && bar.available.None?
    requires late.Day() == 0 && late.close.Fin? && late.available == Some(OpenOf(1))
    ensures var row := VolRow(0, Fin(20.0), NaN, EveningOf(0));
            && Keep(EarlyBar(OpenOf(1)), [bar]) == Keep(EarlyBar(OpenOf(1)), [bar, late])
            && Classified([row], [bar], 1).Some?
            && Classified([row], [bar, late], 1).None?
  {
    hide Keep, DailyBars, VolHistory, Percentile, TrendOf, DayBar;
    var row := VolRow(0, Fin(20.0), NaN, EveningOf(0));
    var bars := [bar, late];
    RevisedHistory(row, row);
    KeepOne(EarlyRow(OpenOf(1)), row);
    KeepOne(EarlyBar(OpenOf(1)), bar);
    KeepAppend(EarlyBar(OpenOf(1)), [bar], late);
    assert [bar] + [late] == bars;
    OneBar(bar);
    KeepOne(EarlyDaily(OpenOf(1)), DailyBars([bar])[0]);
    assert bar in bars && late in bars;
    assert SplitDay(bars, OpenOf(1), 0);
    SplitDayDiffers(bars, OpenOf(1), 0);
    var days := Keep(EarlyDaily(OpenOf(1)), DailyBars(bars));
    if days != [] {
      UsableDay(bars, OpenOf(1), days[0]);
      TidyMembers(bars);
      DayBarExists(Tidy(bars), days[0].day);
    }
  }

  /** Without that hypothesis the claim fails: a revision published after the open
      removes the row that was known before it. */
  lemma RevisionInterferes(bar: Bar)
    requires bar.Day() == 0 && bar.close.Fin? && bar.available.None?
    ensures var first := VolRow(0, Fin(20.0), NaN, EveningOf(0));
            var revised := VolRow(0, Fin(30.0), NaN, EveningOf(1));
            && Keep(EarlyRow(OpenOf(1)), [first]) == Keep(EarlyRow(OpenOf(1)), [first, revised])
            && Classified([first], [bar], 1).Some?
            && Classified([first, revised], [bar], 1).None?
  {
    hide Keep, Tidy, Group, VolHistory, Percentile, TrendOf;
    var first := VolRow(0, Fin(20.0), NaN, EveningOf(0));
    var revised := VolRow(0, Fin(30.0), NaN, EveningOf(1));
    RevisedHistory(first, revised);
    OneBar(bar);
    KeepOne(EarlyRow(OpenOf(1)), first);
    KeepOne(EarlyRow(OpenOf(1)), revised);
    KeepAppend(EarlyRow(OpenOf(1)), [first], revised);
    assert [first] + [revised] == [first, revised];
    KeepOne(EarlyDaily(OpenOf(1)), DailyBars([bar])[0]);
  }

  lemma RevisedHistory(first: VolRow, revised: VolRow)
    requires first.asof == revised.asof && first.vix.Fin? && revised.vix.Fin?
    ensures VolHistory([first]) == [first] && VolHistory([first, revised]) == [revised]
  {
    assert [first][..0] == [] && [first, revised][..1] == [first];
  }

  lemma OneBar(bar: Bar)
    requires bar.close.Fin? && bar.available.None?
    ensures |DailyBars([bar])| == 1 && DailyBars([bar])[0].day == bar.Day() && DailyBars([bar])[0].source.None?
    ensures DailyBars([bar]) == [DailyBars([bar])[0]]
  {
    assert [bar][..0] == [];
    assert Tidy([bar]) == [bar];
    assert Group([bar]) == AddBar([], bar);
  }

  lemma KeepOne<T(!new)>(p: T -> bool, x: T)
    ensures Keep(p, [x]) == if p(x) then [x] else []
  {
    assert [x][..0] == [];
  }

  lemma {:induction false} LatestVolIs(rows: seq<VolRow>, cutoff: Instant)
    requires rows != [] && forall r :: r in rows ==> r.available < cutoff
    ensures LatestVol(rows) < cutoff && forall r :: r in rows ==> r.available <= LatestVol(rows)
  {
    if |rows| > 1 {
      var n := |rows| - 1;
      assert rows == rows[..n] + [rows[n]];
      LatestVolIs(rows[..n], cutoff);
    }
  }

  lemma {:induction false} LatestBarIs(days: seq<Daily>, cutoff: Instant)
    requires days != [] && forall d :: d in days ==> d.Available() < cutoff
    ensures LatestBar(days) < cutoff && forall d :: d in days ==> d.Available() <= LatestBar(days)
  {
    if |days| > 1 {
      var n := |days| - 1;
      assert days == days[..n] + [days[n]];
      LatestBarIs(days[..n], cutoff);
    }
  }

  /** The stamp: every row is available before its session opens and not before any
      input it used. */
  lemma StampIsHonest(rows: seq<VolRow>, bars: seq<Bar>, day: Date)
    requires Classified(rows, bars, day).Some?
    ensures var row := Classified(rows, bars, day).value;
            && row.session == day
            && row.available < OpenOf(day)
            && (forall r :: r in VolHistory(rows) && r.available < OpenOf(day) ==> r.available <= row.available)
            && (forall d :: d in DailyBars(bars) && d.Available() < OpenOf(day) ==> d.Available() <= row.available && d.day < day)
  {
    hide VolHistory, DailyBars, LatestVol, LatestBar, TrendOf, Percentile, VolStateOf;
    HistoryIsFinite(rows);
    var vol := Keep(EarlyRow(OpenOf(day)), VolHistory(rows));
    var days := Keep(EarlyDaily(OpenOf(day)), DailyBars(bars));
    LatestVolIs(vol, OpenOf(day));
    LatestBarIs(days, OpenOf(day));
    assert days[|days| - 1] in days;
  }

  // ---- the trend -----------------------------------------------------------

  lemma {:induction false} RangeSumNonNegative(days: seq<Daily>, n: nat)
    requires n < |days|
    ensures RangeSum(days, n) >= 0.0
  {
    if n > 0 {
      RangeSumNonNegative(days, n - 1);
    }
  }

  /** A trend points the way the close moved over the window, and a history shorter than
      the window has none. */
  lemma TrendDirection(days: seq<Daily>)
    ensures |days| <= TREND_WINDOW ==> TrendOf(days) == Chop
    ensures |days| > TREND_WINDOW ==>
              var first, last := days[|days| - TREND_WINDOW - 1].close, days[|days| - 1].close;
              (TrendOf(days) == Up ==> last > first) && (TrendOf(days) == Down ==> last < first)
  {
    if |days| > TREND_WINDOW {
      RangeSumNonNegative(days[|days| - TREND_WINDOW - 1..], TREND_WINDOW);
    }
  }

  /** Only the last 22 sessions matter. */
  lemma TrendIsLocal(older: seq<Daily>, days: seq<Daily>)
    requires |days| > TREND_WINDOW
    ensures TrendOf(older + days) == TrendOf(days)
  {
    var all := older + days;
    assert all[|all| - TREND_WINDOW - 1..] == days[|days| - TREND_WINDOW - 1..];
  }

  /** The labels of a row agree: a low state never sits in a high-volatility bucket nor a
      high one in a low bucket, stress needs an inverted curve, and the bucket trends
      exactly when the trend does. */
  lemma LabelsAgree(rows: seq<VolRow>, bars: seq<Bar>, day: Date)
    requires Classified(rows, bars, day).Some?
    ensures var row := Classified(rows, bars, day).value;
            && (row.vol == Low ==> !row.bucket.highVol)
            && (row.vol == High ==> row.bucket.highVol)
            && (row.bucket.trending <==> row.trend != Chop)
            && (row.vol == Stressed ==>
                  exists r :: r in VolHistory(rows) && r.available < OpenOf(day) && r.vix.Fin? && r.vix9d.Fin? && r.vix9d.v > r.vix.v > 0.0)
  {
    hide VolHistory, DailyBars, LatestVol, LatestBar, TrendOf, Percentile, Keep;
    HistoryIsFinite(rows);
    var vol := Keep(EarlyRow(OpenOf(day)), VolHistory(rows));
    var latest := vol[|vol| - 1];
    assert latest in vol;
    if latest.vix9d.Fin? && latest.vix.v > 0.0 && latest.vix9d.v / latest.vix.v > 1.0 {
      Inverted(latest.vix9d.v, latest.vix.v);
    }
  }

  lemma Inverted(short: real, long: real)
    requires long > 0.0 && short / long > 1.0
    ensures short > long
  {
    var q := short / long;
    assert q * long == short;
    ProductNonNegative(q - 1.0, long);
    assert (q - 1.0) * long == short - long;
  }

  // ---- the percentile ------------------------------------------------------

  lemma {:induction false} CountsOrdered(rows: seq<VolRow>, x: real)
    ensures CountBelow(rows, x) <= CountAtMost(rows, x) <= |rows|
  {
    if rows != [] {
      CountsOrdered(rows[..|rows| - 1], x);
    }
  }

  lemma MidrankBounds(below: nat, atMost: nat, n: nat)
    requires below < n && 1 <= atMost <= n
    ensures 0.0 < 100.0 * ((below + atMost) as real) / (2.0 * (n as real)) < 100.0
  {
    var a, d := 100.0 * ((below + atMost) as real), 2.0 * (n as real);
    var q := a / d;
    assert q * d == a;
    if q >= 100.0 {
      ProductNonNegative(q - 100.0, d);
    }
    if q <= 0.0 {
      ProductNonNegative(-q, d);
    }
  }

  /** The percentile lies strictly between 0 and 100: the last value always counts
      itself at most, and never below. */
  lemma PercentileRange(history: seq<VolRow>)
    requires history != [] && history[|history| - 1].vix.Fin?
    ensures 0.0 < Percentile(history) < 100.0
  {
    var n := |history| - 1;
    var x := history[n].vix.v;
    CountsOrdered(history[..n], x);
    MidrankBounds(CountBelow(history, x), CountAtMost(history, x), |history|);
  }

  lemma {:induction false} ConstantCounts(history: seq<VolRow>, x: real)
    requires forall r :: r in history ==> r.vix == Fin(x)
    ensures CountBelow(history, x) == 0 && CountAtMost(history, x) == |history|
  {
    if history != [] {
      var n := |history| - 1;
      assert history == history[..n] + [history[n]];
      ConstantCounts(history[..n], x);
    }
  }

  /** An all-constant history sits at the median. */
  lemma ConstantIsMedian(history: seq<VolRow>, x: real)
    requires history != [] && forall r :: r in history ==> r.vix == Fin(x)
    ensures history[|history| - 1].vix.Fin? && Percentile(history) == 50.0
  {
    assert history[|history| - 1] in history;
    ConstantCounts(history, x);
    HalfOf(|history|);
  }

  lemma HalfOf(n: nat)
    requires n >= 1
    ensures 100.0 * ((0 + n) as real) / (2.0 * (n as real)) == 50.0
  {
    var d := 2.0 * (n as real);
    assert 100.0 * (n as real) == 50.0 * d;
    QuotientIs(50.0 * d, d, 50.0);
  }

  lemma QuotientIs(a: real, d: real, q: real)
    requires d > 0.0 && a == q * d
    ensures a / d == q
  {
  }

  // ---- the session loop ----------------------------------------------------

  /** The rows of the first n sessions that are in range and classifiable. */
  function RowsOf(history: seq<VolRow>, daily: seq<Daily>, start: Date, end: Date, n: nat): seq<Regime>
    requires n <= |daily| && forall r :: r in history ==> r.vix.Fin?
  {
    if n == 0 then []
    else
      var earlier := RowsOf(history, daily, start, end, n - 1);
      var day := daily[n - 1].day;
      if !(start <= day <= end) then earlier
      else
        match RowFor(history, daily, day)
        case None => earlier
        case Some(r) => earlier + [r]
  }

  /** classify: the session loop over the tidied inputs; an inverted range raises. */
  method Classify(rows: seq<VolRow>, bars: seq<Bar>, start: Date, end: Date) returns (out: Option<seq<Regime>>)
    ensures forall r :: r in VolHistory(rows) ==> r.vix.Fin?
    ensures out == if start > end then None
                   else Some(RowsOf(VolHistory(rows), DailyBars(bars), start, end, |DailyBars(bars)|))
  {
    hide VolHistory, DailyBars, RowFor;
    HistoryIsFinite(rows);
    if start > end {
      return None;
    }
    var history, daily := VolHistory(rows), DailyBars(bars);
    var records: seq<Regime> := [];
    for i := 0 to |daily|
      invariant records == RowsOf(history, daily, start, end, i)
    {
      var day := daily[i].day;
      if start <= day <= end {
        match RowFor(history, daily, day) {
          case None =>
          case Some(r) =>
            records := records + [r];
        }
      }
    }
    return Some(records);
  }

  lemma SessionNamed(history: seq<VolRow>, daily: seq<Daily>, day: Date)
    requires forall r :: r in history ==> r.vix.Fin?
    ensures RowFor(history, daily, day).Some? ==> RowFor(history, daily, day).value.session == day
  {
    hide Percentile, TrendOf, LatestVol, LatestBar;
  }

  /** Something usable was published before the open: a vol row and a daily bar. */
  ghost predicate Usable(history: seq<VolRow>, daily: seq<Daily>, day: Date) {
    && (exists r :: r in history && r.available < OpenOf(day))
    && (exists d :: d in daily && d.Available() < OpenOf(day))
  }

  lemma RowIff(history: seq<VolRow>, daily: seq<Daily>, day: Date)
    requires forall r :: r in history ==> r.vix.Fin?
    ensures RowFor(history, daily, day).Some? <==> Usable(history, daily, day)
  {
    hide Percentile, TrendOf, LatestVol, LatestBar, VolStateOf;
    var vol := Keep(EarlyRow(OpenOf(day)), history);
    var bars := Keep(EarlyDaily(OpenOf(day)), daily);
    assert vol != [] ==> vol[0] in vol;
    assert bars != [] ==> bars[0] in bars;
  }

  /** The rows are those of the sessions in range that have a bar and a row of their
      own. */
  lemma {:induction false} RowsAreClassified(history: seq<VolRow>, daily: seq<Daily>, start: Date, end: Date, n: nat, r: Regime)
    requires n <= |daily| && forall r :: r in history ==> r.vix.Fin?
    ensures r in RowsOf(history, daily, start, end, n) <==>
            && start <= r.session <= end
            && (exists i :: 0 <= i < n && daily[i].day == r.session)
            && RowFor(history, daily, r.session) == Some(r)
  {
    hide RowFor;
    if n > 0 {
      RowsAreClassified(history, daily, start, end, n - 1, r);
      SessionNamed(history, daily, daily[n - 1].day);
    }
  }

  /** A session has a row exactly when it is in range, its day has a bar, and both a vol
      row and a daily bar were published before its open. */
  lemma SessionHasRowIff(history: seq<VolRow>, daily: seq<Daily>, start: Date, end: Date, day: Date)
    requires forall r :: r in history ==> r.vix.Fin?
    ensures (exists r :: r in RowsOf(history, daily, start, end, |daily|) && r.session == day) <==>
            && start <= day <= end
            && (exists i :: 0 <= i < |daily| && daily[i].day == day)
            && Usable(history, daily, day)
  {
    hide RowFor, RowsOf, Usable;
    RowIff(history, daily, day);
    SessionNamed(history, daily, day);
    if r :| r in RowsOf(history, daily, start, end, |daily|) && r.session == day {
      RowsAreClassified(history, daily, start, end, |daily|, r);
    }
    if RowFor(history, daily, day).Some? {
      RowsAreClassified(history, daily, start, end, |daily|, RowFor(history, daily, day).value);
    }
  }

  /** One row per session, in session order. */
  lemma {:induction false} RowsAscend(history: seq<VolRow>, daily: seq<Daily>, start: Date, end: Date, n: nat)
    requires n <= |daily| && InOrder(daily) && forall r :: r in history ==> r.vix.Fin?
    ensures forall i, j :: 0 <= i < j < |RowsOf(history, daily, start, end, n)| ==>
                             RowsOf(history, daily, start, end, n)[i].session < RowsOf(history, daily, start, end, n)[j].session
  {
    hide RowFor;
    if n > 0 {
      RowsAscend(history, daily, start, end, n - 1);
      var earlier := RowsOf(history, daily, start, end, n - 1);
      forall i | 0 <= i < |earlier|
        ensures earlier[i].session < daily[n - 1].day
      {
        RowsAreClassified(history, daily, start, end, n - 1, earlier[i]);
      }
      SessionNamed(history, daily, daily[n - 1].day);
    }
  }
}
