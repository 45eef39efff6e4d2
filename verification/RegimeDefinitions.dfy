// The definitions behind a regime row, from the rows and bars as loaded
// (src/edge/regime/classifier.py:168-217, 285-330, 351-426).
module RegimeDefinitions {
  import opened Common
  import opened Classifier

  // ---- one day's bar -------------------------------------------------------

  /** A bar of this day that has a close. */
  predicate On(b: Bar, day: Date) {
    b.Day() == day && b.close.Fin?
  }

  /** A missing high or low degrades to the close. */
  function High(b: Bar): real
    requires b.close.Fin?
  {
    if b.high == NaN then b.close.v else b.high.v
  }

  function Low(b: Bar): real
    requires b.close.Fin?
  {
    if b.low == NaN then b.close.v else b.low.v
  }

  /** The highest high, the lowest low and the latest stamp of a day's bars. */
  ghost predicate Spans(bars: seq<Bar>, day: Date, d: Daily) {
    && d.day == day
    && (forall b :: b in bars && On(b, day) ==> d.low <= Low(b) && High(b) <= d.high)
    && (exists b :: b in bars && On(b, day) && High(b) == d.high)
    && (exists b :: b in bars && On(b, day) && Low(b) == d.low)
    && (forall b :: b in bars && On(b, day) && b.available.Some? ==> d.source.Some? && b.available.value <= d.source.value)
    && (d.source.Some? ==> exists b :: b in bars && On(b, day) && b.available == d.source)
  }

  lemma MergedSpans(bars: seq<Bar>, b: Bar, rest: Option<Daily>)
    requires b.close.Fin?
    requires match rest
             case None => forall x :: x in bars ==> !On(x, b.Day())
             case Some(d) => Spans(bars, b.Day(), d)
    ensures Spans(bars + [b], b.Day(), Merged(rest, b))
  {
    var all, d := bars + [b], Merged(rest, b);
    MergedIs(rest, b);
    assert b in all && forall x :: x in all <==> x in bars || x == b;
    if rest.Some? {
      hide Merged;
      var x :| x in bars && On(x, b.Day()) && High(x) == rest.value.high;
      var y :| y in bars && On(y, b.Day()) && Low(y) == rest.value.low;
      assert x in all && y in all;
      if rest.value.source.Some? {
        var z :| z in bars && On(z, b.Day()) && z.available == rest.value.source;
        assert z in all;
      }
    }
  }

  lemma MergedIs(rest: Option<Daily>, b: Bar)
    requires b.close.Fin? && (rest.Some? ==> rest.value.day == b.Day())
    ensures var d := Merged(rest, b);
            && d.day == b.Day() && d.close == b.close.v
            && match rest
               case None => d.high == High(b) && d.low == Low(b) && d.source == b.available
               case Some(r) =>
                 && d.high == (if High(b) > r.high then High(b) else r.high)
                 && d.low == (if Low(b) < r.low then Low(b) else r.low)
                 && d.source == (if r.source.None? then b.available
                                 else if b.available.None? || b.available.value <= r.source.value then r.source else b.available)
  {
  }

  lemma {:induction false} DayBarSpans(sorted: seq<Bar>, day: Date)
    ensures match DayBar(sorted, day)
            case None => forall x :: x in sorted ==> !On(x, day)
            case Some(d) => Spans(sorted, day, d)
  {
    if sorted != [] {
      hide Merged, Spans, DayBar;
      var n := |sorted| - 1;
      var b := sorted[n];
      assert sorted == sorted[..n] + [b];
      DayBarSpans(sorted[..n], day);
      DayBarAppend(sorted[..n], b, day);
      if On(b, day) {
        MergedSpans(sorted[..n], b, DayBar(sorted[..n], day));
      } else if DayBar(sorted[..n], day).Some? {
        OtherDay(sorted[..n], b, day, DayBar(sorted[..n], day).value);
      }
    } else {
      assert DayBar(sorted, day).None?;
    }
  }

  lemma OtherDay(bars: seq<Bar>, b: Bar, day: Date, d: Daily)
    requires Spans(bars, day, d) && !On(b, day)
    ensures Spans(bars + [b], day, d)
  {
    assert forall x :: x in bars + [b] <==> x in bars || x == b;
    var x :| x in bars && On(x, day) && High(x) == d.high;
    var y :| y in bars && On(y, day) && Low(y) == d.low;
    assert x in bars + [b] && y in bars + [b];
  }

  /** The latest bar of a day in a frame: no later one, and of equally late ones the last. */
  ghost predicate Latest(bars: seq<Bar>, day: Date, i: nat) {
    && i < |bars| && On(bars[i], day)
    && forall j :: 0 <= j < |bars| && On(bars[j], day) ==> bars[j].ts < bars[i].ts || (bars[j].ts == bars[i].ts && j <= i)
  }

  /** The last bar of a day in a sorted frame. */
  function LastOn(sorted: seq<Bar>, day: Date): Option<Bar> {
    if sorted == [] then None
    else
      var b := sorted[|sorted| - 1];
      if On(b, day) then Some(b) else LastOn(sorted[..|sorted| - 1], day)
  }

  lemma LastOnAppend(sorted: seq<Bar>, b: Bar, day: Date)
    ensures LastOn(sorted + [b], day) == if On(b, day) then Some(b) else LastOn(sorted, day)
  {
    assert (sorted + [b])[..|sorted|] == sorted;
  }

  lemma {:induction false} DayBarClose(sorted: seq<Bar>, day: Date)
    ensures match DayBar(sorted, day)
            case None => LastOn(sorted, day).None?
            case Some(d) => d.day == day && LastOn(sorted, day).Some? && LastOn(sorted, day).value.close == Fin(d.close)
  {
    if sorted != [] {
      hide Merged, DayBar;
      var n := |sorted| - 1;
      assert sorted == sorted[..n] + [sorted[n]];
      DayBarClose(sorted[..n], day);
      DayBarAppend(sorted[..n], sorted[n], day);
      if On(sorted[n], day) {
        MergedIs(DayBar(sorted[..n], day), sorted[n]);
      }
    } else {
      assert DayBar(sorted, day).None?;
    }
  }

  /** Sorting in a bar makes it the last of its day unless a later one is there. */
  lemma {:induction false} LastAfterInsert(sorted: seq<Bar>, b: Bar, day: Date)
    requires InTime(sorted) && b.close.Fin?
    ensures LastOn(sorted, day).Some? ==> On(LastOn(sorted, day).value, day) && LastOn(sorted, day).value in sorted
    ensures LastOn(InsertBar(sorted, b), day) ==
            if !On(b, day) then LastOn(sorted, day)
            else if LastOn(sorted, day).Some? && LastOn(sorted, day).value.ts > b.ts then LastOn(sorted, day) else Some(b)
  {
    if sorted == [] {
      LastOnAppend(sorted, b, day);
    } else {
      hide InsertBar, LastOn;
      var n := |sorted| - 1;
      var last := sorted[n];
      assert sorted == sorted[..n] + [last] && last in sorted;
      LastAfterInsert(sorted[..n], b, day);
      LastOnAppend(sorted[..n], last, day);
      if last.ts <= b.ts {
        InsertOver(sorted, b);
        LastOnAppend(sorted, b, day);
      } else {
        InsertUnder(sorted[..n], last, b);
        LastOnAppend(InsertBar(sorted[..n], b), last, day);
      }
    }
  }

  /** Tidying keeps the latest bar of every day last. */
  lemma {:induction false} TidyLatest(bars: seq<Bar>, day: Date)
    ensures match LastOn(Tidy(bars), day)
            case None => forall x :: x in bars ==> !On(x, day)
            case Some(b) => exists i: nat :: Latest(bars, day, i) && bars[i] == b
  {
    if bars == [] {
      assert LastOn(Tidy(bars), day).None?;
    } else {
      hide LastOn;
      var n := |bars| - 1;
      var b := bars[n];
      assert bars == bars[..n] + [b];
      TidyLatest(bars[..n], day);
      TidyInTime(bars[..n]);
      if b.close.Fin? {
        LastAfterInsert(Tidy(bars[..n]), b, day);
      }
      hide Tidy;
      var before := LastOn(Tidy(bars[..n]), day);
      if before.Some? {
        var i: nat :| Latest(bars[..n], day, i) && bars[..n][i] == before.value;
        LatestNext(bars, day, i);
      } else {
        FirstOfDay(bars, day);
      }
    }
  }

  lemma LatestNext(bars: seq<Bar>, day: Date, i: nat)
    requires bars != [] && Latest(bars[..|bars| - 1], day, i)
    ensures var n := |bars| - 1;
            Latest(bars, day, if On(bars[n], day) && bars[n].ts >= bars[i].ts then n else i)
  {
    var n := |bars| - 1;
    assert forall j :: 0 <= j < n ==> bars[..n][j] == bars[j];
  }

  lemma FirstOfDay(bars: seq<Bar>, day: Date)
    requires bars != [] && forall x :: x in bars[..|bars| - 1] ==> !On(x, day)
    ensures var n := |bars| - 1;
            if On(bars[n], day) then Latest(bars, day, n) else forall x :: x in bars ==> !On(x, day)
  {
    var n := |bars| - 1;
    assert forall j :: 0 <= j < n ==> bars[j] in bars[..n];
  }

  /** One bar per session with a close: its highest high, its lowest low, the close of its latest
      bar and the latest stamp of its bars. */
  lemma DailyBarIs(bars: seq<Bar>, d: Daily)
    requires d in DailyBars(bars)
    ensures Spans(bars, d.day, d)
    ensures exists i: nat :: Latest(bars, d.day, i) && bars[i].close == Fin(d.close)
  {
    hide DayBar, Tidy, Group, LastOn, Spans, Latest;
    var sorted := Tidy(bars);
    TidyInTime(bars);
    GroupMembers(sorted);
    DayBarSpans(sorted, d.day);
    DayBarClose(sorted, d.day);
    TidyLatest(bars, d.day);
    TidySpans(bars, d);
  }

  lemma TidySpans(bars: seq<Bar>, d: Daily)
    requires Spans(Tidy(bars), d.day, d)
    ensures Spans(bars, d.day, d)
  {
    hide Tidy;
    TidyMembers(bars);
  }

  // ---- the percentile ------------------------------------------------------

  /** The places in a history whose VIX is below x, and at most x. */
  ghost function Under(history: seq<VolRow>, x: real): set<nat> {
    set i: nat | i < |history| && history[i].vix.Fin? && history[i].vix.v < x
  }

  ghost function NotAbove(history: seq<VolRow>, x: real): set<nat> {
    set i: nat | i < |history| && history[i].vix.Fin? && history[i].vix.v <= x
  }

  lemma UnderNext(history: seq<VolRow>, x: real)
    requires history != []
    ensures var (n, v) := (|history| - 1, history[|history| - 1].vix);
            |Under(history, x)| == |Under(history[..n], x)| + (if v.Fin? && v.v < x then 1 else 0)
  {
    var n, v := |history| - 1, history[|history| - 1].vix;
    assert Under(history, x) == Under(history[..n], x) + if v.Fin? && v.v < x then {n} else {};
  }

  lemma NotAboveNext(history: seq<VolRow>, x: real)
    requires history != []
    ensures var (n, v) := (|history| - 1, history[|history| - 1].vix);
            |NotAbove(history, x)| == |NotAbove(history[..n], x)| + (if v.Fin? && v.v <= x then 1 else 0)
  {
    var n, v := |history| - 1, history[|history| - 1].vix;
    assert NotAbove(history, x) == NotAbove(history[..n], x) + if v.Fin? && v.v <= x then {n} else {};
  }

  lemma {:induction false} CountsAre(history: seq<VolRow>, x: real)
    ensures CountBelow(history, x) == |Under(history, x)| && CountAtMost(history, x) == |NotAbove(history, x)|
  {
    if history != [] {
      hide Under, NotAbove;
      CountsAre(history[..|history| - 1], x);
      UnderNext(history, x);
      NotAboveNext(history, x);
    }
  }

  /** The midrank: of the last value, the share of the history below it and the share at most
      it, averaged. */
  lemma PercentileIsMidrank(history: seq<VolRow>)
    requires history != [] && history[|history| - 1].vix.Fin?
    ensures var x := history[|history| - 1].vix.v;
            Percentile(history) * (2.0 * (|history| as real)) == 100.0 * ((|Under(history, x)| + |NotAbove(history, x)|) as real)
  {
    var x := history[|history| - 1].vix.v;
    CountsAre(history, x);
    hide CountBelow, CountAtMost, Under, NotAbove;
    DivideBack(100.0 * ((CountBelow(history, x) + CountAtMost(history, x)) as real), 2.0 * (|history| as real));
  }

  lemma DivideBack(a: real, d: real)
    requires d > 0.0
    ensures (a / d) * d == a
  {
  }

  // ---- the trend -----------------------------------------------------------

  /** The widest of a session's moves: within the session, and from the last close to either
      extreme, up or down. */
  function WidestMove(day: Daily, close: real): real {
    var up, down := Max(day.high - close, day.low - close), Max(close - day.high, close - day.low);
    Max(day.high - day.low, Max(up, down))
  }

  function MoveAt(days: seq<Daily>): int -> real {
    (k: int) => if 1 <= k < |days| then WidestMove(days[k], days[k - 1].close) else 0.0
  }

  /** The n places after k. */
  function Places(k: int, n: nat): seq<int> {
    seq(n, i => k + 1 + i)
  }

  lemma MoveIs(days: seq<Daily>, k: nat)
    requires 1 <= k < |days|
    ensures TrueRange(days[k], days[k - 1]) == MoveAt(days)(k)
  {
  }

  lemma {:induction false} RangesAreMoves(days: seq<Daily>, k: nat, n: nat)
    requires k + n < |days|
    ensures RangeSum(days[k..], n) == Sum(MoveAt(days), Places(k, n))
  {
    if n > 0 {
      hide TrueRange, MoveAt;
      RangesAreMoves(days, k, n - 1);
      MoveIs(days, k + n);
      assert Places(k, n)[..n - 1] == Places(k, n - 1);
    }
  }

  /** The trend over the last 21 sessions: up when 21 times the change of the close exceeds the
      sum of the sessions' widest moves, down when the fall does, and neither otherwise or
      on a shorter history. */
  lemma TrendIs(days: seq<Daily>)
    ensures |days| < 22 ==> TrendOf(days) == Chop
    ensures |days| >= 22 ==>
              var n := |days|;
              var change, moves := days[n - 1].close - days[n - 22].close, Sum(MoveAt(days), Places(n - 22, 21));
              && (TrendOf(days) == Up <==> 21.0 * change > moves)
              && (TrendOf(days) == Down <==> 21.0 * change < -moves)
  {
    var n := |days|;
    if n >= 22 {
      RangesAreMoves(days, n - 22, 21);
      hide RangeSum, Sum, MoveAt, Places;
      var w := days[n - 22..];
      assert w[21] == days[n - 1] && w[0] == days[n - 22];
      RangeSumNonNegative(w, 21);
    }
  }

  // ---- the row -------------------------------------------------------------

  /** The latest of some rows and bars, or the evening of the last bar's session. */
  ghost predicate Stamped(at: Instant, vol: seq<VolRow>, bars: seq<Daily>)
    requires bars != []
  {
    || at == bars[|bars| - 1].day * 1440 + 18 * 60
    || (exists r :: r in vol && r.available == at)
    || (exists d :: d in bars && d.Available() == at)
  }

  lemma {:induction false} LatestVolIn(rows: seq<VolRow>)
    requires rows != []
    ensures exists r :: r in rows && r.available == LatestVol(rows)
  {
    var n := |rows| - 1;
    assert rows[n] in rows;
    if n > 0 {
      LatestVolIn(rows[..n]);
      var r :| r in rows[..n] && r.available == LatestVol(rows[..n]);
      assert r in rows;
    }
  }

  lemma {:induction false} LatestBarIn(days: seq<Daily>)
    requires days != []
    ensures exists d :: d in days && d.Available() == LatestBar(days)
  {
    var n := |days| - 1;
    assert days[n] in days;
    if n > 0 {
      LatestBarIn(days[..n]);
      var d :| d in days[..n] && d.Available() == LatestBar(days[..n]);
      assert d in days;
    }
  }

  /** A session's row from what is usable at 9:30: the state from the latest VIX and its
      midrank, the trend from the bars, the bucket from both, and a stamp that some input
      or the evening of the last session explains. */
  lemma RowIs(rows: seq<VolRow>, bars: seq<Bar>, day: Date)
    requires Classified(rows, bars, day).Some?
    ensures var row := Classified(rows, bars, day).value;
            var vol := Keep(EarlyRow(day * 1440 + 9 * 60 + 30), VolHistory(rows));
            var days := Keep(EarlyDaily(day * 1440 + 9 * 60 + 30), DailyBars(bars));
            && vol != [] && days != [] && vol[|vol| - 1].vix.Fin?
            && (forall r :: r in vol ==> r.asof <= vol[|vol| - 1].asof)
            && row.session == day && row.pctile == Percentile(vol) && row.trend == TrendOf(days)
            && var (vix, vix9d) := (vol[|vol| - 1].vix.v, vol[|vol| - 1].vix9d);
            && (row.vol == Stressed <==> vix9d.Fin? && vix > 0.0 && vix9d.v > vix)
            && (row.vol != Stressed ==> (row.vol == VolState.Low <==> row.pctile < 33.0) && (row.vol == VolState.High <==> row.pctile >= 67.0))
            && (row.bucket.highVol <==> row.pctile >= 50.0)
            && (row.bucket.trending <==> row.trend == Up || row.trend == Down)
            && Stamped(row.available, vol, days)
  {
    HistoryIsFinite(rows);
    HistoryIsLast(rows);
    hide VolHistory, DailyBars, LatestVol, LatestBar, TrendOf, Percentile;
    var vol := Keep(EarlyRow(OpenOf(day)), VolHistory(rows));
    var days := Keep(EarlyDaily(OpenOf(day)), DailyBars(bars));
    KeepAscending(DateOf(), EarlyRow(OpenOf(day)), VolHistory(rows));
    assert vol[|vol| - 1] in vol;
    InvertedIff(vol[|vol| - 1]);
    LatestVolIn(vol);
    LatestBarIn(days);
    LastIsLatest(vol);
  }

  lemma LastIsLatest(vol: seq<VolRow>)
    requires Classifier.Ascending(DateOf(), vol) && vol != []
    ensures forall r :: r in vol ==> r.asof <= vol[|vol| - 1].asof
  {
    assert forall i :: 0 <= i < |vol| ==> DateOf()(vol[i]) <= DateOf()(vol[|vol| - 1]);
  }

  lemma InvertedIff(r: VolRow)
    requires r.vix.Fin?
    ensures r.vix9d.Fin? && r.vix.v > 0.0 ==> (r.vix9d.v / r.vix.v > 1.0 <==> r.vix9d.v > r.vix.v)
  {
    if r.vix9d.Fin? && r.vix.v > 0.0 {
      var q := r.vix9d.v / r.vix.v;
      assert q * r.vix.v == r.vix9d.v;
      QuotientAtMost(q, 1.0, r.vix.v);
    }
  }
}
