// The risk gate (src/catalyst/risk/manager.py, src/catalyst/risk/sizing.py) and what
// its answers guarantee once the broker fills the order they size.
module RiskGate {
  import opened Common
  import opened Instruments
  import opened Ratios
  import opened Market
  import opened LedgerModel
  import opened LedgerInvariant
  import Daily = DailyModel

  const HEDGE := "hedge"

  datatype Limits = Limits(
    cashFloor: real,
    buffer: real,
    hedgeFraction: real,
    maxDeployed: real,
    maxCorrelated: nat,
    dailyHalt: real,
    weeklyHalt: real,
    correlationThreshold: real)
  {
    predicate Valid() {
      && 0.0 <= cashFloor < 1.0 && 0.0 <= buffer && 0.0 <= hedgeFraction < 1.0
      && 0.0 < maxDeployed <= 1.0 && maxCorrelated >= 1 && dailyHalt < 0.0 && weeklyHalt < 0.0
    }
  }

  /** ProposedTrade as the gate reads it. */
  datatype Request = Request(legs: seq<Leg>, maxLoss: Num, cost: Num, riskFraction: real, engine: string) {
    predicate Hedge() {
      engine == HEDGE
    }

    function Proposal(): Daily.Proposal {
      Daily.Proposal(legs, Some(maxLoss), engine)
    }
  }

  datatype Refusal =
    | DailyBreaker | WeeklyBreaker
    | BadMaxLoss | BadCost | BelowOneUnit | CashFloor | HeatCap | HedgeBudget | CorrelationCap | CappedToZero

  datatype Verdict = Denied(reason: Refusal) | Granted(units: nat)

  /** What the gate sees of the account and the book. */
  datatype Exposure = Exposure(equity: real, cash: real, deployed: real, hedged: real, correlated: nat)

  // ---- circuit breakers ----------------------------------------------------

  /** Monday of a date's week; day numbers are proleptic ordinals, day 1 a Monday. */
  function Monday(today: Date): Date {
    today - (today - 1) % 7
  }

  /** The last day up to today that starts a week. */
  lemma MondayIs(today: Date, d: Date)
    ensures d == Monday(today) <==> d <= today < d + 7 && (d - 1) % 7 == 0
  {
  }

  ghost predicate Latest(marks: map<Date, real>, before: Date, d: Date) {
    d in marks && d < before && forall e :: e in marks && e < before ==> e <= d
  }

  predicate Halted(reference: real, equity: real, halt: real) {
    reference > 0.0 && equity / reference - 1.0 <= halt
  }

  ghost predicate Tripped(marks: map<Date, real>, before: Date, equity: real, halt: real) {
    exists d :: Latest(marks, before, d) && Halted(marks[d], equity, halt)
  }

  ghost function Breaker(g: Limits, marks: map<Date, real>, today: Date, equity: real): Option<Refusal> {
    if Tripped(marks, today, equity, g.dailyHalt) then Some(DailyBreaker)
    else if Tripped(marks, Monday(today), equity, g.weeklyHalt) then Some(WeeklyBreaker)
    else None
  }

  lemma HaltedIff(reference: real, equity: real, halt: real)
    requires reference > 0.0
    ensures Halted(reference, equity, halt) <==> equity <= (1.0 + halt) * reference
  {
    var q := equity / reference;
    assert q * reference == equity;
    QuotientAtMost(q, 1.0 + halt, reference);
  }

  lemma HaltedPositive(reference: real, equity: real, halt: real)
    requires Halted(reference, equity, halt)
    ensures reference > 0.0
  {
  }

  lemma LatestUnique(marks: map<Date, real>, before: Date, d: Date, e: Date)
    requires Latest(marks, before, d) && Latest(marks, before, e)
    ensures d == e
  {
  }

  /** The breakers let an entry through exactly when equity is still above the halt
      level of the last mark before today and of the last mark before this week. */
  lemma BreakerOffIff(g: Limits, marks: map<Date, real>, today: Date, equity: real)
    ensures Breaker(g, marks, today, equity).None? <==>
            && (forall d :: Latest(marks, today, d) && marks[d] > 0.0 ==> equity > (1.0 + g.dailyHalt) * marks[d])
            && (forall d :: Latest(marks, Monday(today), d) && marks[d] > 0.0 ==> equity > (1.0 + g.weeklyHalt) * marks[d])
  {
    TrippedIff(marks, today, equity, g.dailyHalt);
    TrippedIff(marks, Monday(today), equity, g.weeklyHalt);
    hide Tripped;
  }

  lemma TrippedIff(marks: map<Date, real>, before: Date, equity: real, halt: real)
    ensures Tripped(marks, before, equity, halt) <==>
            exists d :: Latest(marks, before, d) && marks[d] > 0.0 && equity <= (1.0 + halt) * marks[d]
  {
    hide Halted;
    if Tripped(marks, before, equity, halt) {
      var d :| Latest(marks, before, d) && Halted(marks[d], equity, halt);
      HaltedPositive(marks[d], equity, halt);
      HaltedIff(marks[d], equity, halt);
    }
    if d :| Latest(marks, before, d) && marks[d] > 0.0 && equity <= (1.0 + halt) * marks[d] {
      HaltedIff(marks[d], equity, halt);
    }
  }

  /** A mark takes effect the day after: it never touches the verdict of its own day or of
      an earlier one, and it is the daily reference of the next. */
  lemma MarkTakesEffectNextDay(g: Limits, marks: map<Date, real>, day: Date, mark: real, today: Date, equity: real)
    ensures today <= day ==> Breaker(g, marks[day := mark], today, equity) == Breaker(g, marks, today, equity)
    ensures Tripped(marks[day := mark], day + 1, equity, g.dailyHalt) <==> Halted(mark, equity, g.dailyHalt)
  {
    var marked := marks[day := mark];
    if today <= day {
      OnlyEarlierMarks(marked, marks, today, equity, g.dailyHalt);
      OnlyEarlierMarks(marked, marks, Monday(today), equity, g.weeklyHalt);
    }
    NextDayReference(marked, day, equity, g.dailyHalt);
  }

  /** Only the marks before a date matter to what they trip. */
  lemma OnlyEarlierMarks(a: map<Date, real>, b: map<Date, real>, before: Date, equity: real, halt: real)
    requires forall e :: e in a && e < before ==> e in b && a[e] == b[e]
    requires forall e :: e in b && e < before ==> e in a
    ensures Tripped(a, before, equity, halt) <==> Tripped(b, before, equity, halt)
  {
    hide Halted;
    assert forall d :: Latest(a, before, d) ==> Latest(b, before, d);
    assert forall d :: Latest(b, before, d) ==> Latest(a, before, d);
  }

  lemma NextDayReference(marks: map<Date, real>, day: Date, equity: real, halt: real)
    requires day in marks
    ensures Tripped(marks, day + 1, equity, halt) <==> Halted(marks[day], equity, halt)
  {
    hide Halted;
    assert Latest(marks, day + 1, day);
    if Tripped(marks, day + 1, equity, halt) {
      var d :| Latest(marks, day + 1, d) && Halted(marks[d], equity, halt);
      LatestUnique(marks, day + 1, d, day);
    }
  }

  // ---- sizing --------------------------------------------------------------

  /** Dollars of n units. */
  function Spend(n: int, unit: real): real {
    (n as real) * unit
  }

  /** The most whole units a budget covers. */
  function Afford(budget: real, unit: real): int
    requires unit > 0.0
  {
    (budget / unit).Floor
  }

  lemma AffordIs(budget: real, unit: real, n: int)
    requires unit > 0.0
    ensures n <= Afford(budget, unit) <==> Spend(n, unit) <= budget
  {
    var q := budget / unit;
    assert q * unit == budget;
    QuotientAtMost(n as real, q, unit);
  }

  /** fixed_fractional_units, given the budget equity * fraction. */
  function FixedFractional(equity: real, budget: real, unit: real): nat
  {
    if equity <= 0.0 || unit <= 0.0 then 0
    else if Afford(budget, unit) <= 0 then 0 else Afford(budget, unit)
  }

  /** Fixed-fractional sizing is the greatest whole number of units whose loss stays
      within the risk budget, never below zero. */
  lemma FixedFractionalIsGreatest(equity: real, budget: real, unit: real, n: nat)
    requires equity > 0.0 && unit > 0.0
    ensures n <= FixedFractional(equity, budget, unit) <==> n == 0 || Spend(n, unit) <= budget
  {
    AffordIs(budget, unit, n);
  }

  /** The buffered per-unit dollars: of risk, and of cash the ledger must fund. */
  function UnitRisk(g: Limits, r: Request): real
    requires r.maxLoss.Fin?
  {
    r.maxLoss.v * (1.0 + g.buffer) * Multiplier(r.legs)
  }

  function UnitCash(g: Limits, r: Request): real
    requires r.maxLoss.Fin? && r.cost.Fin?
  {
    Max(Max(r.cost.v, r.maxLoss.v), 0.0) * (1.0 + g.buffer) * Multiplier(r.legs)
  }

  lemma UnitDollarsPositive(g: Limits, r: Request)
    requires g.Valid() && r.maxLoss.Fin? && r.cost.Fin? && r.maxLoss.v > 0.0
    ensures UnitRisk(g, r) > 0.0 && UnitCash(g, r) > 0.0
  {
    var b := 1.0 + g.buffer;
    ProductPositive(r.maxLoss.v, b);
    ProductPositive(r.maxLoss.v * b, Multiplier(r.legs));
    var m := Max(Max(r.cost.v, r.maxLoss.v), 0.0);
    ProductPositive(m, b);
    ProductPositive(m * b, Multiplier(r.legs));
  }

  /** The four budgets of an entry, in dollars. */
  function RiskBudget(r: Request, x: Exposure): real {
    x.equity * r.riskFraction
  }

  function CashHeadroom(g: Limits, x: Exposure): real {
    x.cash - g.cashFloor * x.equity
  }

  function HeatHeadroom(g: Limits, x: Exposure): real {
    g.maxDeployed * x.equity - x.deployed
  }

  function HedgeHeadroom(g: Limits, x: Exposure): real {
    g.hedgeFraction * x.equity - x.hedged
  }

  function Least(a: int, b: int): int {
    if a <= b then a else b
  }

  /** size_entry, the breakers' verdict given. */
  function SizeEntry(g: Limits, breaker: Option<Refusal>, r: Request, x: Exposure): Verdict
    requires g.Valid()
  {
    if breaker.Some? then Denied(breaker.value)
    else if r.maxLoss.NaN? || r.maxLoss.v <= 0.0 then Denied(BadMaxLoss)
    else if r.cost.NaN? then Denied(BadCost)
    else
      UnitDollarsPositive(g, r);
      var risk, cost := UnitRisk(g, r), UnitCash(g, r);
      var base := FixedFractional(x.equity, RiskBudget(r, x), risk);
      var headroom, heat, hedge := CashHeadroom(g, x), HeatHeadroom(g, x), HedgeHeadroom(g, x);
      if base <= 0 then Denied(BelowOneUnit)
      else if headroom < cost then Denied(CashFloor)
      else if heat < risk then Denied(HeatCap)
      else if r.Hedge() && hedge < risk then Denied(HedgeBudget)
      else if !r.Hedge() && x.correlated >= g.maxCorrelated then Denied(CorrelationCap)
      else
        var units := Least(Least(base, Afford(headroom, cost)), Afford(heat, risk));
        var capped := if r.Hedge() then Least(units, Afford(hedge, risk)) else units;
        if capped <= 0 then Denied(CappedToZero) else Granted(capped)
  }

  /** Every check but the correlation cap lets the entry through, so the cap is asked. */
  predicate AsksCorrelation(g: Limits, breaker: Option<Refusal>, r: Request, x: Exposure)
    requires g.Valid()
  {
    var v := SizeEntry(g, breaker, r, x.(correlated := 0));
    !r.Hedge() && (v.Granted? || v.reason == CappedToZero)
  }

  /** The correlation count matters only where it is asked for. */
  lemma CorrelationLast(g: Limits, breaker: Option<Refusal>, r: Request, x: Exposure)
    requires g.Valid() && (breaker.Some? ==> breaker.value != CappedToZero)
    ensures SizeEntry(g, breaker, r, x) ==
            if AsksCorrelation(g, breaker, r, x) && x.correlated >= g.maxCorrelated then Denied(CorrelationCap)
            else SizeEntry(g, breaker, r, x.(correlated := 0))
  {
    hide UnitRisk, UnitCash, Afford, FixedFractional, RiskBudget, CashHeadroom, HeatHeadroom, HedgeHeadroom;
    SameBudgets(g, r, x);
  }

  lemma SameBudgets(g: Limits, r: Request, x: Exposure)
    ensures var y := x.(correlated := 0);
            && RiskBudget(r, y) == RiskBudget(r, x) && CashHeadroom(g, y) == CashHeadroom(g, x)
            && HeatHeadroom(g, y) == HeatHeadroom(g, x) && HedgeHeadroom(g, y) == HedgeHeadroom(g, x)
  {
    assert x.(correlated := 0).equity == x.equity;
  }

  /** The gates that no size can pass. */
  predicate Eligible(g: Limits, breaker: Option<Refusal>, r: Request, x: Exposure) {
    && breaker.None?
    && r.maxLoss.Fin? && r.maxLoss.v > 0.0 && r.cost.Fin?
    && x.equity > 0.0
    && (!r.Hedge() ==> x.correlated < g.maxCorrelated)
  }

  /** n units fit every budget. */
  predicate Fits(g: Limits, r: Request, x: Exposure, n: int)
    requires r.maxLoss.Fin? && r.cost.Fin?
  {
    && Spend(n, UnitRisk(g, r)) <= RiskBudget(r, x)
    && Spend(n, UnitCash(g, r)) <= CashHeadroom(g, x)
    && Spend(n, UnitRisk(g, r)) <= HeatHeadroom(g, x)
    && (r.Hedge() ==> Spend(n, UnitRisk(g, r)) <= HedgeHeadroom(g, x))
  }

  lemma SpendOne(unit: real)
    ensures Spend(1, unit) == unit
  {
  }

  /** The gate in one sentence: it grants n units exactly when the entry is eligible, n
      units fit every budget and one more would not; so sizing only ever shrinks. */
  lemma GrantsIff(g: Limits, breaker: Option<Refusal>, r: Request, x: Exposure, n: int)
    requires g.Valid() && n >= 1
    ensures SizeEntry(g, breaker, r, x) == Granted(n) <==>
            Eligible(g, breaker, r, x) && Fits(g, r, x, n) && !Fits(g, r, x, n + 1)
  {
    hide UnitRisk, UnitCash, Spend, Afford, RiskBudget, CashHeadroom, HeatHeadroom, HedgeHeadroom, Limits.Valid;
    if breaker.None? && r.maxLoss.Fin? && r.maxLoss.v > 0.0 && r.cost.Fin? {
      UnitDollarsPositive(g, r);
      FitsIff(g, r, x, n);
      FitsIff(g, r, x, n + 1);
      FitsIff(g, r, x, 1);
      SpendOne(UnitRisk(g, r));
      SpendOne(UnitCash(g, r));
    }
  }

  /** n units fit when each budget affords them. */
  lemma FitsIff(g: Limits, r: Request, x: Exposure, n: int)
    requires g.Valid() && r.maxLoss.Fin? && r.maxLoss.v > 0.0 && r.cost.Fin?
    requires UnitRisk(g, r) > 0.0 && UnitCash(g, r) > 0.0
    ensures n <= Afford(RiskBudget(r, x), UnitRisk(g, r)) <==> Spend(n, UnitRisk(g, r)) <= RiskBudget(r, x)
    ensures n <= Afford(CashHeadroom(g, x), UnitCash(g, r)) <==> Spend(n, UnitCash(g, r)) <= CashHeadroom(g, x)
    ensures n <= Afford(HeatHeadroom(g, x), UnitRisk(g, r)) <==> Spend(n, UnitRisk(g, r)) <= HeatHeadroom(g, x)
    ensures n <= Afford(HedgeHeadroom(g, x), UnitRisk(g, r)) <==> Spend(n, UnitRisk(g, r)) <= HedgeHeadroom(g, x)
  {
    hide UnitRisk, UnitCash, Spend, Afford, RiskBudget, CashHeadroom, HeatHeadroom, HedgeHeadroom, Limits.Valid;
    AffordIs(RiskBudget(r, x), UnitRisk(g, r), n);
    AffordIs(CashHeadroom(g, x), UnitCash(g, r), n);
    AffordIs(HeatHeadroom(g, x), UnitRisk(g, r), n);
    AffordIs(HedgeHeadroom(g, x), UnitRisk(g, r), n);
  }

  /** The budgets in dollars: n buffered maximum losses within the risk fraction of equity, within
      what the heat cap leaves, and, for a hedge, within what the hedge sleeve leaves; and n
      buffered debits, or losses when those are more, within the cash above the floor. */
  lemma FitsMeans(g: Limits, r: Request, x: Exposure, n: int)
    requires r.maxLoss.Fin? && r.cost.Fin? && r.maxLoss.v > 0.0
    ensures var buffered, mult := 1.0 + g.buffer, Multiplier(r.legs);
            var risk := r.maxLoss.v * buffered * mult;
            var cash := (if r.cost.v > r.maxLoss.v then r.cost.v else r.maxLoss.v) * buffered * mult;
            Fits(g, r, x, n) <==>
            && Spend(n, risk) <= x.equity * r.riskFraction
            && Spend(n, cash) <= x.cash - g.cashFloor * x.equity
            && x.deployed + Spend(n, risk) <= g.maxDeployed * x.equity
            && (r.engine == HEDGE ==> x.hedged + Spend(n, risk) <= g.hedgeFraction * x.equity)
  {
    UnitsAre(g, r);
    hide Spend, UnitRisk, UnitCash;
  }

  lemma UnitsAre(g: Limits, r: Request)
    requires r.maxLoss.Fin? && r.cost.Fin? && r.maxLoss.v > 0.0
    ensures var buffered, mult := 1.0 + g.buffer, Multiplier(r.legs);
            && UnitRisk(g, r) == r.maxLoss.v * buffered * mult
            && UnitCash(g, r) == (if r.cost.v > r.maxLoss.v then r.cost.v else r.maxLoss.v) * buffered * mult
  {
  }

  /** Why an entry is refused: the first of these that applies. The last check of the code never
      refuses: an entry that affords one unit of everything is granted. */
  lemma RefusedFor(g: Limits, breaker: Option<Refusal>, r: Request, x: Exposure)
    requires g.Valid()
    ensures var v := SizeEntry(g, breaker, r, x);
            if breaker.Some? then v == Denied(breaker.value)
            else if r.maxLoss == NaN || r.maxLoss.v <= 0.0 then v == Denied(BadMaxLoss)
            else if r.cost == NaN then v == Denied(BadCost)
            else if x.equity <= 0.0 || UnitRisk(g, r) > RiskBudget(r, x) then v == Denied(BelowOneUnit)
            else if UnitCash(g, r) > CashHeadroom(g, x) then v == Denied(CashFloor)
            else if UnitRisk(g, r) > HeatHeadroom(g, x) then v == Denied(HeatCap)
            else if r.Hedge() && UnitRisk(g, r) > HedgeHeadroom(g, x) then v == Denied(HedgeBudget)
            else if !r.Hedge() && x.correlated >= g.maxCorrelated then v == Denied(CorrelationCap)
            else v.Granted?
  {
    hide UnitRisk, UnitCash, Spend, Afford, RiskBudget, CashHeadroom, HeatHeadroom, HedgeHeadroom, Limits.Valid;
    if breaker.None? && r.maxLoss.Fin? && r.maxLoss.v > 0.0 && r.cost.Fin? {
      UnitDollarsPositive(g, r);
      FitsIff(g, r, x, 1);
      SpendOne(UnitRisk(g, r));
      SpendOne(UnitCash(g, r));
    }
  }

  // ---- the gate and the ledger ---------------------------------------------

  function RiskBasis(maxLoss: Option<Num>, entry: real): real {
    Max(if maxLoss.Some? && maxLoss.value.Fin? then maxLoss.value.v else Max(entry, 0.0), 0.0)
  }

  /** premium_at_risk: the structural loss when there is one, else the debit paid. */
  function AtRisk(): Pos -> real {
    (p: Pos) => p.Worth(RiskBasis(p.maxLoss, p.entry))
  }

  function HedgeAtRisk(): Pos -> real {
    (p: Pos) => if p.engine == HEDGE then AtRisk()(p) else 0.0
  }

  /** What the gate is told about a ledger. */
  function Seen(l: Ledger, correlated: nat): Exposure {
    Exposure(Equity(l), l.cash, Sum(AtRisk(), l.book), Sum(HedgeAtRisk(), l.book), correlated)
  }

  /** What a position can still lose: its structural loss when it has one, otherwise the debit it was
      opened for, and never less than nothing, for every unit. */
  lemma AtRiskIs(p: Pos)
    ensures var perUnit := if p.maxLoss.Some? && p.maxLoss.value != NaN then p.maxLoss.value.v else p.entry;
            && AtRisk()(p) == LedgerModel.Dollars(if perUnit > 0.0 then perUnit else 0.0, p.qty, Multiplier(p.legs))
            && HedgeAtRisk()(p) == if p.engine == HEDGE then AtRisk()(p) else 0.0
  {
    hide LedgerModel.Dollars;
  }

  lemma SpendIsDollars(x: real, n: nat, mult: real)
    ensures Spend(n, x * mult) == LedgerModel.Dollars(x, n, mult)
  {
  }

  lemma SpendMonotone(n: nat, a: real, b: real)
    requires a <= b
    ensures Spend(n, a) <= Spend(n, b)
  {
    ProductNonNegative(n as real, b - a);
    assert (n as real) * (b - a) == Spend(n, b) - Spend(n, a);
  }

  /** The buffer only adds to the risk of a unit. */
  lemma BufferCovers(g: Limits, r: Request, n: nat)
    requires g.Valid() && r.maxLoss.Fin? && r.maxLoss.v > 0.0
    ensures LedgerModel.Dollars(r.maxLoss.v, n, Multiplier(r.legs)) <= Spend(n, UnitRisk(g, r))
  {
    var m := Multiplier(r.legs);
    SpendIsDollars(r.maxLoss.v, n, m);
    ProductNonNegative(r.maxLoss.v, g.buffer);
    ProductNonNegative(r.maxLoss.v * g.buffer, m);
    assert r.maxLoss.v * (1.0 + g.buffer) == r.maxLoss.v + r.maxLoss.v * g.buffer;
    assert (r.maxLoss.v + r.maxLoss.v * g.buffer) * m == r.maxLoss.v * m + r.maxLoss.v * g.buffer * m;
    SpendMonotone(n, r.maxLoss.v * m, UnitRisk(g, r));
  }

  /** A filled entry of n units of a reduced structure: the cash moves by the fill's
      cash flow and the risk deployed grows by the structural loss of n units. */
  lemma EntryFills(c: Setup, l: Ledger, r: Request, n: nat)
    requires Inv(l) && WellFormed(r.legs) && UnitsOf(r.legs) == 1 && n >= 1
    requires r.maxLoss.Fin? && r.maxLoss.v > 0.0
    ensures WellFormed(Scaled(r.legs, n))
    ensures var (after, out) := Place(c, l, Daily.OpenOrder(r.Proposal(), n));
            out.Filled? ==>
              && after.cash == l.cash + Premium(l.market, c.model, Scaled(r.legs, n)) - Commission(l.market, c.model, Scaled(r.legs, n))
              && Sum(AtRisk(), after.book) == Sum(AtRisk(), l.book) + LedgerModel.Dollars(r.maxLoss.v, n, Multiplier(r.legs))
              && Sum(HedgeAtRisk(), after.book) ==
                 Sum(HedgeAtRisk(), l.book) + if r.Hedge() then LedgerModel.Dollars(r.maxLoss.v, n, Multiplier(r.legs)) else 0.0
  {
    hide Inv, AllQuotable, Premium, Commission, NeedsReserve, Total, LedgerModel.Dollars, WellFormed, Opened;
    MirrorWellFormed(r.legs, n);
    var o := Daily.OpenOrder(r.Proposal(), n);
    var (after, out) := Place(c, l, o);
    if out.Filled? {
      var premium, commission := Premium(l.market, c.model, o.legs), Commission(l.market, c.model, o.legs);
      var q := Opened(l.market, o, premium, commission, l.orders + 1);
      OpenedAtRisk(l.market, r, n, premium, commission, l.orders + 1);
      SumAppend(AtRisk(), l.book, [q]);
      SumOne(AtRisk(), q);
      SumAppend(HedgeAtRisk(), l.book, [q]);
      SumOne(HedgeAtRisk(), q);
    }
  }

  lemma OpenedAtRisk(m: Snapshot, r: Request, n: nat, premium: real, commission: real, id: nat)
    requires WellFormed(r.legs) && UnitsOf(r.legs) == 1 && n >= 1 && r.maxLoss.Fin? && r.maxLoss.v > 0.0
    ensures WellFormed(Scaled(r.legs, n))
    ensures AtRisk()(Opened(m, Daily.OpenOrder(r.Proposal(), n), premium, commission, id))
            == LedgerModel.Dollars(r.maxLoss.v, n, Multiplier(r.legs))
    ensures Opened(m, Daily.OpenOrder(r.Proposal(), n), premium, commission, id).engine == r.engine
  {
    MirrorWellFormed(r.legs, n);
    UnitsScale(r.legs, Scaled(r.legs, n), n);
    ReducedIsExact(Scaled(r.legs, n));
    hide MarkValue, LedgerModel.Dollars, UnitPrice, UnitsOf, Reduced, WellFormed;
  }

  /** The gate composed with the ledger: when a granted entry fills, the risk deployed
      stays within the heat cap of the equity it was sized on, that of the hedges within the
      hedge sleeve when the entry is one, and if the fill's all-in
      debit is within the buffered cash of the granted units, the broker's cash stays
      above the floor. */
  lemma GrantedEntryIsSafe(c: Setup, g: Limits, breaker: Option<Refusal>, l: Ledger, r: Request, correlated: nat, n: nat)
    requires g.Valid() && Inv(l) && WellFormed(r.legs) && UnitsOf(r.legs) == 1
    requires n >= 1 && SizeEntry(g, breaker, r, Seen(l, correlated)) == Granted(n)
    ensures WellFormed(Scaled(r.legs, n)) && r.maxLoss.Fin? && r.cost.Fin?
    ensures var (after, out) := Place(c, l, Daily.OpenOrder(r.Proposal(), n));
            out.Filled? ==>
              && Sum(AtRisk(), after.book) <= g.maxDeployed * Equity(l)
              && (r.Hedge() ==> Sum(HedgeAtRisk(), after.book) <= g.hedgeFraction * Equity(l))
              && (l.cash - after.cash <= Spend(n, UnitCash(g, r)) ==> after.cash >= g.cashFloor * Equity(l))
  {
    hide Inv, Place, UnitsOf, WellFormed, UnitRisk, UnitCash, Spend, Equity, AtRisk, HedgeAtRisk, LedgerModel.Dollars, SizeEntry, Sum;
    GrantsIff(g, breaker, r, Seen(l, correlated), n);
    EntryFills(c, l, r, n);
    BufferCovers(g, r, n);
  }
}
