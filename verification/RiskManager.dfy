// RiskManager (src/catalyst/risk/manager.py): the object that keeps the marks, the
// return history and the correlation cache, and sizes entries against a live book.
module RiskManagement {
  import opened Common
  import opened Ordering
  import opened Instruments
  import opened LedgerModel
  import opened RiskGate
  import opened Broker

  type Pair = (string, string, int)

  /** A pair of symbols in a fixed order, with the month it was measured in. */
  function PairKey(a: string, b: string, month: int): Pair {
    if Before(b, a) then (b, a, month) else (a, b, month)
  }

  /** A measured correlation; what cannot be measured counts as correlated. */
  function Measured(n: Num): real {
    if n.Fin? then n.v else 1.0
  }

  /** The return history: the measured correlation of two symbols up to a date, and the
      month a date falls in. */
  datatype History = History(correlation: (string, string, Date) -> Num, month: Date -> int)

  type Cache = map<Pair, real>

  function Correlated(h: History, cache: Cache, a: string, b: string, upto: Date): real {
    var key := PairKey(a, b, h.month(upto));
    if a == b then 1.0
    else if key in cache then cache[key]
    else Measured(h.correlation(a, b, upto))
  }

  function Cached(h: History, cache: Cache, a: string, b: string, upto: Date): Cache {
    if a == b then cache else cache[PairKey(a, b, h.month(upto)) := Correlated(h, cache, a, b, upto)]
  }

  function Underlying(legs: seq<Leg>): string
    requires legs != []
  {
    legs[0].key.underlying
  }

  /** The cache after asking for every driver position of a book. */
  function CacheAfter(h: History, cache: Cache, symbol: string, book: seq<Pos>, upto: Date): Cache
    requires forall i :: 0 <= i < |book| ==> book[i].legs != []
  {
    if book == [] then cache
    else
      var n := |book| - 1;
      var earlier := CacheAfter(h, cache, symbol, book[..n], upto);
      if book[n].engine == HEDGE then earlier else Cached(h, earlier, symbol, Underlying(book[n].legs), upto)
  }

  /** How many driver positions are correlated with a symbol; hedges do not crowd. */
  function CorrelatedCount(h: History, cache: Cache, threshold: real, symbol: string, book: seq<Pos>, upto: Date): nat
    requires forall i :: 0 <= i < |book| ==> book[i].legs != []
  {
    if book == [] then 0
    else
      var n := |book| - 1;
      var earlier := CacheAfter(h, cache, symbol, book[..n], upto);
      CorrelatedCount(h, cache, threshold, symbol, book[..n], upto) +
      if book[n].engine != HEDGE && Correlated(h, earlier, symbol, Underlying(book[n].legs), upto) >= threshold then 1 else 0
  }

  /** The cache remembers: asking never changes an answer already given this month. */
  lemma {:induction false} CacheOnlyGrows(h: History, cache: Cache, symbol: string, book: seq<Pos>, upto: Date, k: Pair)
    requires (forall i :: 0 <= i < |book| ==> book[i].legs != []) && k in cache
    ensures k in CacheAfter(h, cache, symbol, book, upto) && CacheAfter(h, cache, symbol, book, upto)[k] == cache[k]
  {
    if book != [] {
      CacheOnlyGrows(h, cache, symbol, book[..|book| - 1], upto, k);
    }
  }

  /** Every cached answer was measured on this history, on some day of its month. */
  ghost predicate Current(h: History, cache: Cache) {
    forall k :: k in cache ==> MeasuredIn(h, k, cache[k])
  }

  ghost predicate MeasuredIn(h: History, k: Pair, c: real) {
    exists a, b, upto :: k == PairKey(a, b, h.month(upto)) && c == Measured(h.correlation(a, b, upto))
  }

  /** Asking keeps the cache current, so a history that replaces another answers for itself
      alone: its cache starts empty. */
  lemma {:induction false} CacheStaysCurrent(h: History, cache: Cache, symbol: string, book: seq<Pos>, upto: Date)
    requires forall i :: 0 <= i < |book| ==> book[i].legs != []
    ensures Current(h, map[])
    ensures Current(h, cache) ==> Current(h, CacheAfter(h, cache, symbol, book, upto))
  {
    if book != [] && Current(h, cache) {
      var n := |book| - 1;
      CacheStaysCurrent(h, cache, symbol, book[..n], upto);
      AskedIsCurrent(h, CacheAfter(h, cache, symbol, book[..n], upto), symbol, Underlying(book[n].legs), upto);
    }
  }

  lemma AskedIsCurrent(h: History, cache: Cache, a: string, b: string, upto: Date)
    requires Current(h, cache)
    ensures Current(h, Cached(h, cache, a, b, upto))
  {
    var key := PairKey(a, b, h.month(upto));
    if a != b && key !in cache {
      assert MeasuredIn(h, key, Measured(h.correlation(a, b, upto)));
    }
    hide MeasuredIn;
  }

  /** Two questions share an answer exactly when they are about the same two symbols in the same
      month. */
  lemma PairKeyIs(a: string, b: string, c: string, d: string, m: int, n: int)
    ensures PairKey(a, b, m) == PairKey(c, d, n) <==> m == n && ((a == c && b == d) || (a == d && b == c))
  {
    BeforeTotal(a, b);
    BeforeTotal(c, d);
    hide Before;
  }

  /** Every answer on record for this month is the one a measurement up to this day gives. */
  ghost predicate Faithful(h: History, cache: Cache, upto: Date) {
    forall a, b :: a != b && PairKey(a, b, h.month(upto)) in cache ==>
      cache[PairKey(a, b, h.month(upto))] == Measured(h.correlation(a, b, upto))
  }

  ghost predicate Symmetric(h: History) {
    forall a, b, upto :: h.correlation(a, b, upto) == h.correlation(b, a, upto)
  }

  /** The driver positions that crowd a symbol: those on the same underlying, and those whose
      correlation with it reaches the threshold or cannot be measured. */
  ghost function Crowding(h: History, threshold: real, symbol: string, book: seq<Pos>, upto: Date): set<nat>
    requires forall i :: 0 <= i < |book| ==> book[i].legs != []
  {
    set i: nat | i < |book| && Crowds(h, threshold, symbol, book[i], upto)
  }

  predicate Crowds(h: History, threshold: real, symbol: string, p: Pos, upto: Date)
    requires p.legs != []
  {
    && p.engine != HEDGE
    && var other := p.legs[0].key.underlying;
    var measured := h.correlation(symbol, other, upto);
    if other == symbol then 1.0 >= threshold
    else if measured == NaN then 1.0 >= threshold
    else measured.v >= threshold
  }

  lemma AskedIsFaithful(h: History, cache: Cache, a: string, b: string, upto: Date)
    requires Symmetric(h) && Faithful(h, cache, upto)
    ensures Faithful(h, Cached(h, cache, a, b, upto), upto)
    ensures Correlated(h, cache, a, b, upto) == if a == b then 1.0 else Measured(h.correlation(a, b, upto))
  {
    hide PairKey;
    var m := h.month(upto);
    forall c, d | c != d && PairKey(c, d, m) in Cached(h, cache, a, b, upto)
      ensures Cached(h, cache, a, b, upto)[PairKey(c, d, m)] == Measured(h.correlation(c, d, upto))
    {
      PairKeyIs(a, b, c, d, m, m);
      assert h.correlation(a, b, upto) == h.correlation(b, a, upto);
    }
  }

  lemma CrowdingNext(h: History, threshold: real, symbol: string, book: seq<Pos>, upto: Date)
    requires book != [] && forall i :: 0 <= i < |book| ==> book[i].legs != []
    ensures var n := |book| - 1;
            |Crowding(h, threshold, symbol, book, upto)| ==
            |Crowding(h, threshold, symbol, book[..n], upto)| + (if Crowds(h, threshold, symbol, book[n], upto) then 1 else 0)
  {
    hide Crowds;
    var n := |book| - 1;
    var before, all := Crowding(h, threshold, symbol, book[..n], upto), Crowding(h, threshold, symbol, book, upto);
    if Crowds(h, threshold, symbol, book[n], upto) {
      assert all == before + {n};
    } else {
      assert all == before;
    }
  }

  /** The count is the number of crowding positions, as long as the cache has answered for this day
      only; and it then still has. */
  lemma {:induction false} CountIs(h: History, cache: Cache, threshold: real, symbol: string, book: seq<Pos>, upto: Date)
    requires Symmetric(h) && Faithful(h, cache, upto) && forall i :: 0 <= i < |book| ==> book[i].legs != []
    ensures CorrelatedCount(h, cache, threshold, symbol, book, upto) == |Crowding(h, threshold, symbol, book, upto)|
    ensures Faithful(h, CacheAfter(h, cache, symbol, book, upto), upto)
  {
    if book != [] {
      hide Faithful, Symmetric, Correlated, Cached, Crowding;
      var n := |book| - 1;
      CountIs(h, cache, threshold, symbol, book[..n], upto);
      AskedIsFaithful(h, CacheAfter(h, cache, symbol, book[..n], upto), symbol, Underlying(book[n].legs), upto);
      CrowdingNext(h, threshold, symbol, book, upto);
    }
  }

  class RiskManager {
    const limits: Limits
    var marks: map<Date, real>
    var history: History
    var cache: Cache

    constructor (limits: Limits, history: History)
      ensures this.limits == limits && marks == map[] && this.history == history && cache == map[]
    {
      this.limits, this.history := limits, history;
      marks, cache := map[], map[];
    }

    method RecordMark(day: Date, equity: real)
      modifies this`marks
      ensures marks == old(marks)[day := equity]
    {
      marks := marks[day := equity];
    }

    method SetHistory(history: History)
      modifies this`history, this`cache
      ensures this.history == history && cache == map[]
    {
      this.history := history;
      cache := map[];
    }

    /** The last marked day before a date, if any. */
    method LatestBefore(before: Date) returns (d: Option<Date>)
      ensures d.None? ==> forall e :: !Latest(marks, before, e)
      ensures d.Some? ==> Latest(marks, before, d.value)
    {
      d := None;
      var left := marks.Items;
      ghost var seen: set<Date> := {};
      while left != {}
        invariant seen <= marks.Keys && Searched(marks, seen, before, d)
        invariant left == marks.Items - (set k | k in seen :: (k, marks[k]))
        decreases |left|
      {
        hide Searched;
        var entry :| entry in left;
        var day := entry.0;
        SearchNext(marks, seen, before, d, day);
        seen := seen + {day};
        left := left - {entry};
        if day < before && (d.None? || d.value < day) {
          d := Some(day);
        }
      }
      forall k | k in marks
        ensures k in seen
      {
        assert (k, marks[k]) in marks.Items;
      }
      assert seen == marks.Keys;
    }

    /** d is the last of these days before a date. */
    static ghost predicate Searched(marks: map<Date, real>, days: set<Date>, before: Date, d: Option<Date>) {
      && (d.None? ==> forall e :: e in days ==> e >= before)
      && (d.Some? ==> d.value in days && d.value < before && forall e :: e in days && e < before ==> e <= d.value)
    }

    static lemma SearchNext(marks: map<Date, real>, days: set<Date>, before: Date, d: Option<Date>, day: Date)
      requires Searched(marks, days, before, d)
      ensures Searched(marks, days + {day}, before,
                       if day < before && (d.None? || d.value < day) then Some(day) else d)
    {
    }

    method TrippedBefore(before: Date, equity: real, halt: real) returns (tripped: bool)
      ensures tripped <==> Tripped(marks, before, equity, halt)
    {
      hide Halted;
      var d := LatestBefore(before);
      if d.None? {
        return false;
      }
      tripped := Halted(marks[d.value], equity, halt);
      forall e | Latest(marks, before, e)
        ensures e == d.value
      {
        LatestUnique(marks, before, d.value, e);
      }
    }

    method BreakerState(today: Date, equity: real) returns (b: Option<Refusal>)
      ensures b == Breaker(limits, marks, today, equity)
      ensures b.Some? ==> b.value != CappedToZero
    {
      hide Tripped;
      var daily := TrippedBefore(today, equity, limits.dailyHalt);
      if daily {
        return Some(DailyBreaker);
      }
      var weekly := TrippedBefore(Monday(today), equity, limits.weeklyHalt);
      if weekly {
        return Some(WeeklyBreaker);
      }
      return None;
    }

    method Correlation(a: string, b: string, upto: Date) returns (c: real)
      modifies this`cache
      ensures c == Correlated(history, old(cache), a, b, upto)
      ensures cache == Cached(history, old(cache), a, b, upto)
    {
      if a == b {
        return 1.0;
      }
      var key := PairKey(a, b, history.month(upto));
      if key in cache {
        assert cache[key := cache[key]] == cache;
        return cache[key];
      }
      c := Measured(history.correlation(a, b, upto));
      cache := cache[key := c];
    }

    method CountCorrelated(symbol: string, broker: SimulatedBroker, upto: Date) returns (count: nat)
      requires broker.Valid() && forall i :: 0 <= i < |broker.book| ==> broker.book[i].legs != []
      modifies this`cache
      ensures count == CorrelatedCount(history, old(cache), limits.correlationThreshold, symbol, broker.book, upto)
      ensures cache == CacheAfter(history, old(cache), symbol, broker.book, upto)
    {
      hide Correlated, Cached;
      count := 0;
      ghost var book := broker.book;
      broker.BookSize();
      for i := 0 to |broker.positions|
        invariant count == CorrelatedCount(history, old(cache), limits.correlationThreshold, symbol, book[..i], upto)
        invariant cache == CacheAfter(history, old(cache), symbol, book[..i], upto)
      {
        assert book[..i + 1][..i] == book[..i];
        var p := broker.positions[i];
        assert p.View() == book[i];
        if p.engine != HEDGE {
          var c := Correlation(symbol, Underlying(p.legs), upto);
          if c >= limits.correlationThreshold {
            count := count + 1;
          }
        }
      }
      assert book[..|book|] == book;
    }

    /** Dollars at risk in a book, all of it or the hedge sleeve only. */
    method Deployed(broker: SimulatedBroker, sleeve: bool) returns (dollars: real)
      requires broker.Valid()
      ensures dollars == Sum(if sleeve then HedgeAtRisk() else AtRisk(), broker.book)
    {
      dollars := 0.0;
      ghost var book := broker.book;
      ghost var risk := if sleeve then HedgeAtRisk() else AtRisk();
      broker.BookSize();
      for i := 0 to |broker.positions|
        invariant dollars == Sum(risk, book[..i])
      {
        hide Sum, Dollars, Multiplier, RiskBasis;
        SumPrefix(risk, book, i);
        var p := broker.positions[i];
        assert p.View() == book[i];
        var worth := Dollars(RiskBasis(p.maxLoss, p.entry), p.qty, Multiplier(p.legs));
        assert AtRisk()(book[i]) == worth;
        if !sleeve || p.engine == HEDGE {
          dollars := dollars + worth;
        }
      }
      assert book[..|book|] == book;
    }

    /** size_entry against the account and the positions of a broker; correlations are
        measured only when every other check has passed. */
    method SizeEntry(r: Request, today: Date, broker: SimulatedBroker) returns (v: Verdict)
      requires limits.Valid() && r.legs != []
      requires broker.Valid() && forall i :: 0 <= i < |broker.book| ==> broker.book[i].legs != []
      modifies this`cache
      ensures var l := broker.View();
              var breaker := Breaker(limits, marks, today, Equity(l));
              var symbol := Underlying(r.legs);
              var count := CorrelatedCount(history, old(cache), limits.correlationThreshold, symbol, l.book, today);
              && v == RiskGate.SizeEntry(limits, breaker, r, Seen(l, count))
              && cache == if AsksCorrelation(limits, breaker, r, Seen(l, 0))
                          then CacheAfter(history, old(cache), symbol, l.book, today) else old(cache)
    {
      hide Breaker, CorrelatedCount, CacheAfter, Equity, AtRisk, HedgeAtRisk, Limits.Valid, Holds, RiskGate.SizeEntry;
      var equity := broker.GetEquity();
      var breaker := BreakerState(today, equity);
      var deployed := Deployed(broker, false);
      var hedged := Deployed(broker, true);
      var x := Exposure(equity, broker.cash, deployed, hedged, 0);
      v := RiskGate.SizeEntry(limits, breaker, r, x);
      ghost var asked := CorrelatedCount(history, cache, limits.correlationThreshold, Underlying(r.legs), broker.book, today);
      CorrelationLast(limits, breaker, r, x.(correlated := asked));
      if r.Hedge() || (v.Denied? && v.reason != CappedToZero) {
        return v;
      }
      var count := CountCorrelated(Underlying(r.legs), broker, today);
      if count >= limits.maxCorrelated {
        return Denied(CorrelationCap);
      }
    }
  }
}
