// The simulated broker as a state machine over values
// (src/catalyst/brokers/simulated.py). Broker.dfy holds the class that mutates in
// place and proves that each of its methods takes exactly these steps.
module LedgerModel {
  import opened Common
  import opened Instruments
  import opened Ratios
  import opened Costs
  import opened Market

  /** What the broker is configured with. commissionRate prices synthetic closes;
      the cost model prices every other fill. */
  datatype Setup = Setup(model: CostModel, commissionRate: real)

  /** An open structure. openFlow is a history value: the net cash of its opening. */
  datatype Pos = Pos(
    id: nat,
    legs: seq<Leg>,
    qty: nat,
    entry: real,
    value: real,
    high: real,
    realized: real,
    maxLoss: Option<Num>,
    engine: string,
    tp1Done: bool,
    openFlow: real)
  {
    function Mult(): real {
      Multiplier(legs)
    }

    function Worth(x: real): real {
      Dollars(x, qty, Mult())
    }
  }

  /** Dollars of a per-unit price over a number of units. */
  function Dollars(x: real, units: nat, mult: real): real {
    x * (units as real) * mult
  }

  /** The commission of a synthetic close of every open unit. */
  function CloseCommission(rate: real, legs: seq<Leg>, qty: nat): real {
    rate * ((CountOptions(legs) * qty) as real)
  }

  /** Option contracts per unit; shares carry no commission. */
  function CountOptions(legs: seq<Leg>): nat {
    if legs == [] then 0
    else
      var last := legs[|legs| - 1];
      CountOptions(legs[..|legs| - 1]) + if last.key.EquityKey? then 0 else last.qty
  }

  /** retired and forced are history values: the realised P&L of positions that
      left the book, and the commissions charged by synthetic closes. */
  datatype Ledger = Ledger(
    cash: real,
    book: seq<Pos>,
    reserved: map<nat, real>,
    market: Snapshot,
    spots: SpotBook,
    today: Option<Date>,
    orders: nat,
    commissions: real,
    settlements: seq<(nat, real, real)>,
    partials: seq<(nat, real)>,
    synthetics: seq<(nat, real, real)>,
    staleMarks: nat,
    retired: real,
    forced: real)

  function Opening(cash: real): Ledger {
    Ledger(cash, [], map[], Snapshot(map[], map[], None), map[], None, 0, 0.0, [], [], [], 0, 0.0, 0.0)
  }

  // ---- collateral ----------------------------------------------------------

  ghost function Total(m: map<nat, real>): real {
    if m == map[] then 0.0
    else
      var k :| k in m;
      m[k] + Total(m - {k})
  }

  lemma {:induction false} TotalRemove(m: map<nat, real>, k: nat)
    requires k in m
    ensures Total(m) == m[k] + Total(m - {k})
  {
    var j :| j in m && Total(m) == m[j] + Total(m - {j});
    if j != k {
      TotalRemove(m - {j}, k);
      TotalRemove(m - {k}, j);
      assert m - {j} - {k} == m - {k} - {j};
    }
  }

  lemma TotalUpdate(m: map<nat, real>, k: nat, x: real)
    ensures Total(m[k := x]) == Total(m) + x - (if k in m then m[k] else 0.0)
  {
    TotalRemove(m[k := x], k);
    assert m[k := x] - {k} == m - {k};
    if k in m {
      TotalRemove(m, k);
    } else {
      assert m - {k} == m;
    }
  }

  function Release(reserved: map<nat, real>, id: nat, units: nat, total: nat): map<nat, real>
    requires total >= 1
  {
    if id !in reserved then reserved
    else if units >= total then reserved - {id}
    else reserved[id := reserved[id] * (1.0 - (units as real) / (total as real))]
  }

  ghost function BuyingPower(l: Ledger): real {
    l.cash - Total(l.reserved)
  }

  function MarketValue(): Pos -> real {
    (p: Pos) => p.Worth(p.value)
  }

  function Equity(l: Ledger): real {
    l.cash + Sum(MarketValue(), l.book)
  }

  // ---- advancing the market ------------------------------------------------

  function Mark(m: Snapshot, p: Pos): Pos {
    match MarkValue(m, p.legs)
    case None => p
    case Some(v) => p.(value := v, high := Max(p.high, v))
  }

  function MarkAll(m: Snapshot, book: seq<Pos>): (marked: seq<Pos>)
    ensures |marked| == |book|
    ensures forall i :: 0 <= i < |book| ==> marked[i] == Mark(m, book[i])
  {
    seq(|book|, i requires 0 <= i < |book| => Mark(m, book[i]))
  }

  function StaleCount(m: Snapshot, legs: seq<Leg>): nat {
    if MarkValue(m, legs).None? then 1 else 0
  }

  function CountStale(m: Snapshot, book: seq<Pos>): nat {
    if book == [] then 0
    else CountStale(m, book[..|book| - 1]) + StaleCount(m, book[|book| - 1].legs)
  }

  /** What expiry does to one position. Stuck is a part-expired structure whose
      expired legs have no usable spot yet. */
  datatype Settlement = Untouched | Stuck | Full(value: real) | Partial(perUnit: real)

  function SettlementOf(m: Snapshot, spots: SpotBook, today: Date, p: Pos): Settlement {
    var expired := ExpiredLegs(p.legs, today);
    if expired == [] then Untouched
    else
      match IntrinsicValue(m, spots, expired)
      case None => if |expired| == |p.legs| then Full(p.value) else Stuck
      case Some(v) => if |expired| == |p.legs| then Full(v) else Partial(v)
  }

  /** A part-expired position after its expired legs paid out. */
  function Survivor(m: Snapshot, p: Pos, today: Date, paid: real): (q: Pos)
    ensures q.id == p.id && q.legs == LiveLegs(p.legs, today)
  {
    Mark(m, PaidOut(p, paid, LiveLegs(p.legs, today)))
  }

  /** Expired legs paid out; the live ones remain. */
  function PaidOut(p: Pos, paid: real, live: seq<Leg>): Pos {
    p.(legs := live, realized := p.realized + paid)
  }

  /** Settle position p, which is not in l.book: the survivors are appended. */
  function SettleOne(l: Ledger, p: Pos, today: Date): Ledger
  {
    match SettlementOf(l.market, l.spots, today, p)
    case Untouched => l.(book := l.book + [p])
    case Stuck => l.(book := l.book + [p])
    case Full(v) =>
      var pnl := p.Worth(v - p.entry);
      l.(cash := l.cash + p.Worth(v),
      settlements := l.settlements + [(p.id, v, pnl)],
      reserved := l.reserved - {p.id},
      retired := l.retired + p.realized + pnl)
    case Partial(v) =>
      l.(cash := l.cash + p.Worth(v),
      partials := l.partials + [(p.id, v)],
      staleMarks := l.staleMarks + StaleCount(l.market, LiveLegs(p.legs, today)),
      book := l.book + [Survivor(l.market, p, today, p.Worth(v))])
  }

  /** Full and partial settlement of the position at index k of a book. */
  function FullAt(l: Ledger, k: nat, v: real): Ledger
    requires k < |l.book|
  {
    var p := l.book[k];
    var pnl := p.Worth(v - p.entry);
    l.(cash := l.cash + p.Worth(v),
    settlements := l.settlements + [(p.id, v, pnl)],
    reserved := l.reserved - {p.id},
    retired := l.retired + p.realized + pnl,
    book := Remove(l.book, k))
  }

  function PartialAt(l: Ledger, k: nat, v: real, today: Date): Ledger
    requires k < |l.book|
  {
    var p := l.book[k];
    l.(cash := l.cash + p.Worth(v),
    partials := l.partials + [(p.id, v)],
    staleMarks := l.staleMarks + StaleCount(l.market, LiveLegs(p.legs, today)),
    book := l.book[k := Survivor(l.market, p, today, p.Worth(v))])
  }

  /** SettleOne on the position at index k, with the later positions kept behind. */
  function SettledAt(l: Ledger, k: nat, today: Date): Ledger
    requires k < |l.book|
  {
    var r := SettleOne(l.(book := l.book[..k]), l.book[k], today);
    r.(book := r.book + l.book[k + 1..])
  }

  lemma SettledAtCases(l: Ledger, k: nat, today: Date)
    requires k < |l.book|
    ensures match SettlementOf(l.market, l.spots, today, l.book[k])
            case Untouched => SettledAt(l, k, today) == l
            case Stuck => SettledAt(l, k, today) == l
            case Full(v) => SettledAt(l, k, today) == FullAt(l, k, v)
            case Partial(v) => SettledAt(l, k, today) == PartialAt(l, k, v, today)
  {
    hide SettlementOf, Survivor, Dollars, LiveLegs;
    assert l.book == l.book[..k] + [l.book[k]] + l.book[k + 1..];
    match SettlementOf(l.market, l.spots, today, l.book[k])
    case Untouched =>
    case Stuck =>
    case Full(v) =>
    case Partial(v) =>
      var q := Survivor(l.market, l.book[k], today, l.book[k].Worth(v));
      assert l.book[k := q] == l.book[..k] + [q] + l.book[k + 1..];
  }

  /** now is l with its first i positions settled; the first k of its book survive. */
  ghost predicate SettledTo(l: Ledger, i: nat, today: Date, now: Ledger, k: nat) {
    && i <= |l.book|
    && k <= |now.book|
    && now.book[k..] == l.book[i..]
    && now.(book := now.book[..k]) == SettleAll(l.(book := []), l.book[..i], today)
  }

  lemma SettledStep(l: Ledger, i: nat, today: Date, now: Ledger, k: nat)
    requires SettledTo(l, i, today, now, k) && i < |l.book|
    ensures k < |now.book|
    ensures var full := SettlementOf(now.market, now.spots, today, now.book[k]).Full?;
            SettledTo(l, i + 1, today, SettledAt(now, k, today), if full then k else k + 1)
  {
    hide SettlementOf, Survivor, Dollars, LiveLegs;
    assert |now.book[k..]| == |l.book[i..]|;
    assert now.book[k..][0] == l.book[i..][0];
    assert now.book[k + 1..] == now.book[k..][1..] == l.book[i..][1..] == l.book[i + 1..];
    assert l.book[..i + 1][..i] == l.book[..i];
    var r := SettleOne(now.(book := now.book[..k]), now.book[k], today);
    var after := SettledAt(now, k, today);
    assert r == SettleAll(l.(book := []), l.book[..i + 1], today);
    var k' := |r.book|;
    assert after.book[..k'] == r.book && after.book[k'..] == now.book[k + 1..];
    assert after.(book := after.book[..k']) == r;
  }

  lemma SettledStart(l: Ledger, today: Date)
    ensures SettledTo(l, 0, today, l, 0)
  {
    assert l.book[..0] == [];
  }

  lemma SettledEnd(l: Ledger, today: Date, now: Ledger, k: nat)
    requires SettledTo(l, |l.book|, today, now, k)
    ensures now == SettleAll(l.(book := []), l.book, today)
  {
    assert l.book[..|l.book|] == l.book && l.book[|l.book|..] == [];
    assert now.book == now.book[..k] + now.book[k..];
  }

  function SettleAll(l: Ledger, pending: seq<Pos>, today: Date): Ledger
    decreases |pending|
  {
    if pending == [] then l
    else
      var n := |pending| - 1;
      SettleOne(SettleAll(l, pending[..n], today), pending[n], today)
  }

  /** New books, remembered spots, fresh marks; nothing has settled yet. */
  function Refresh(l: Ledger, chains: map<string, Chain>, today: Date,
                   equityQuotes: Option<map<string, Quote>>, fillQuotes: Option<map<string, Quote>>): Ledger
  {
    var market := Snapshot(
                    chains,
                    if equityQuotes.Some? then equityQuotes.value else l.market.marks,
                    if fillQuotes.Some? then fillQuotes else l.market.fills);
    l.(market := market,
    spots := RememberSpots(l.spots, chains, today),
    today := Some(today),
    staleMarks := l.staleMarks + CountStale(market, l.book),
    book := MarkAll(market, l.book))
  }

  function UpdateMarket(l: Ledger, chains: map<string, Chain>, today: Date,
                        equityQuotes: Option<map<string, Quote>>, fillQuotes: Option<map<string, Quote>>): Ledger
  {
    var refreshed := Refresh(l, chains, today, equityQuotes, fillQuotes);
    SettleAll(refreshed.(book := []), refreshed.book, today)
  }

  // ---- orders --------------------------------------------------------------

  datatype Reason = NoMarketData | LegUnquotable | NoMaxLoss | Insufficient | UnknownPosition | TooMany | NotMirror

  datatype Outcome =
    | Rejected(reason: Reason)
    | Filled(units: nat, price: real, commission: real, id: nat)

  function IndexOf(book: seq<Pos>, id: nat): (i: nat)
    ensures i <= |book|
    ensures i < |book| ==> book[i].id == id
    ensures forall j :: 0 <= j < i ==> book[j].id != id
  {
    if book == [] then 0
    else if book[0].id == id then 0
    else 1 + IndexOf(book[1..], id)
  }

  function Remove<T>(s: seq<T>, i: nat): seq<T>
    requires i < |s|
  {
    s[..i] + s[i + 1..]
  }

  /** The dict a list of legs collapses to: later legs win. */
  function SlotMap(legs: seq<Leg>): (m: map<(Key, Side), nat>)
    ensures forall k :: k in m <==> exists i :: 0 <= i < |legs| && legs[i].Slot() == k
  {
    if legs == [] then map[]
    else
      var n := |legs| - 1;
      var rest := SlotMap(legs[..n]);
      assert forall i :: 0 <= i < n ==> legs[..n][i] == legs[i];
      rest[legs[n].Slot() := legs[n].qty]
  }

  /** The strict close test: same (key, side) set as the inverted structure, every
      quantity exactly ratio times units. */
  predicate Mirrors(got: seq<Leg>, held: seq<Leg>, units: nat) {
    var want := SlotMap(Mirror(held, 1));
    var have := SlotMap(got);
    have.Keys == want.Keys && forall k :: k in want ==> have[k] == want[k] * units
  }

  function NeedsReserve(o: Order, cashFlow: real): Option<real>
    requires o.legs != []
  {
    if cashFlow <= 0.0 then Some(0.0)
    else
      match o.maxLoss
      case Some(Fin(loss)) => Some(Dollars(loss, UnitsOf(o.legs), Multiplier(o.legs)))
      case _ => None
  }

  ghost function PlaceOpen(l: Ledger, o: Order, premium: real, commission: real): (r: (Ledger, Outcome))
    requires WellFormed(o.legs)
  {
    var cashFlow := premium - commission;
    match NeedsReserve(o, cashFlow)
    case None => (l, Rejected(NoMaxLoss))
    case Some(reserve) =>
      if l.cash + cashFlow - Total(l.reserved) - reserve < 0.0 then
        (l, Rejected(Insufficient))
      else
        var id := l.orders;
        var p := Opened(l.market, o, premium, commission, id);
        (l.(cash := l.cash + cashFlow,
         commissions := l.commissions + commission,
         reserved := WithReserve(l.reserved, id, reserve),
         staleMarks := l.staleMarks + StaleCount(l.market, p.legs),
         book := l.book + [p]),
         Filled(p.qty, p.entry, commission, id))
  }

  function WithReserve(reserved: map<nat, real>, id: nat, reserve: real): map<nat, real> {
    if reserve > 0.0 then reserved[id := reserve] else reserved
  }

  /** The position an open creates: gcd-reduced ratios, the fill as its entry, and
      both its mark and its high water at the first mark. */
  function Opened(m: Snapshot, o: Order, premium: real, commission: real, id: nat): Pos
    requires WellFormed(o.legs)
  {
    var units := UnitsOf(o.legs);
    var price := UnitPrice(-premium, units, Multiplier(o.legs));
    var p := Pos(id, Reduced(o.legs, units), units, price, price, price, 0.0,
                 o.maxLoss, o.engine, false, premium - commission);
    var marked := Mark(m, p);
    marked.(high := marked.value)
  }

  function UnitPrice(cash: real, units: nat, mult: real): real
    requires units >= 1 && mult >= 1.0
  {
    assert (units as real) * mult >= 1.0 by { ProductAtLeastOne(units as real, mult); }
    cash / ((units as real) * mult)
  }

  lemma UnitPriceTimes(cash: real, units: nat, mult: real)
    requires units >= 1 && mult >= 1.0
    ensures Dollars(UnitPrice(cash, units, mult), units, mult) == cash
  {
    var d := (units as real) * mult;
    ProductAtLeastOne(units as real, mult);
    var x := UnitPrice(cash, units, mult);
    assert x * d == cash;
    assert x * (units as real) * mult == x * d;
  }

  lemma DollarsMinus(a: real, b: real, units: nat, mult: real)
    ensures Dollars(a - b, units, mult) == Dollars(a, units, mult) - Dollars(b, units, mult)
  {
    var u := units as real;
    assert (a - b) * u == a * u - b * u;
    var x, y := a * u, b * u;
    assert (x - y) * mult == x * mult - y * mult;
  }

  lemma DollarsPart(x: real, units: nat, part: nat, mult: real)
    requires part <= units
    ensures Dollars(x, units - part, mult) == Dollars(x, units, mult) - Dollars(x, part, mult)
  {
    var u, v := units as real, part as real;
    assert x * (u - v) == x * u - x * v;
    var a, b := x * u, x * v;
    assert (a - b) * mult == a * mult - b * mult;
  }

  lemma DollarsSign(x: real, units: nat, mult: real)
    requires units >= 1 && mult >= 1.0
    ensures Dollars(0.0, units, mult) == 0.0
    ensures x > 0.0 <==> Dollars(x, units, mult) > 0.0
    ensures x < 0.0 <==> Dollars(x, units, mult) < 0.0
  {
    var d := (units as real) * mult;
    ProductAtLeastOne(units as real, mult);
    assert Dollars(x, units, mult) == x * d;
    if x >= 0.0 {
      ProductNonNegative(x, d - 1.0);
    } else {
      ProductNonNegative(-x, d - 1.0);
    }
  }

  lemma ProductAtLeastOne(a: real, b: real)
    requires a >= 1.0 && b >= 1.0
    ensures a * b >= 1.0
  {
    ProductNonNegative(a - 1.0, b - 1.0);
  }

  function AfterClose(p: Pos, price: real, units: nat): Pos
    requires units <= p.qty
  {
    p.(qty := p.qty - units, realized := p.realized + Dollars(price - p.entry, units, p.Mult()))
  }

  lemma AfterCloseKeepsName(p: Pos, price: real, units: nat)
    requires units <= p.qty
    ensures AfterClose(p, price, units).id == p.id && AfterClose(p, price, units).qty == p.qty - units
  {
  }

  /** The book after units of position i leave at this per-unit price. */
  function CloseUnits(l: Ledger, i: nat, units: nat, price: real, cashFlow: real, commission: real): Ledger
    requires i < |l.book| && 1 <= units <= l.book[i].qty
  {
    var p := l.book[i];
    var left := AfterClose(p, price, units);
    l.(cash := l.cash + cashFlow,
    commissions := l.commissions + commission,
    reserved := Release(l.reserved, p.id, units, p.qty),
    book := if left.qty == 0 then Remove(l.book, i) else l.book[i := left],
    retired := if left.qty == 0 then l.retired + left.realized else l.retired)
  }

  /** CloseUnits as the broker performs it: the cash side, then the smaller
      position, then its removal when nothing is left. */
  lemma CloseInTwo(l: Ledger, i: nat, units: nat, price: real, cashFlow: real, commission: real)
    requires i < |l.book| && 1 <= units <= l.book[i].qty
    ensures var p := l.book[i];
            var left := AfterClose(p, price, units);
            var posted := l.(cash := l.cash + cashFlow,
                             commissions := l.commissions + commission,
                             reserved := Release(l.reserved, p.id, units, p.qty),
                             book := l.book[i := left]);
            CloseUnits(l, i, units, price, cashFlow, commission)
            == if left.qty > 0 then posted
               else posted.(book := Remove(posted.book, i), retired := posted.retired + left.realized)
  {
    hide Release, Dollars;
    assert Remove(l.book[i := AfterClose(l.book[i], price, units)], i) == Remove(l.book, i);
  }

  function PlaceClose(l: Ledger, o: Order, premium: real, commission: real): (Ledger, Outcome)
    requires WellFormed(o.legs)
  {
    var i := if o.positionId.Some? then IndexOf(l.book, o.positionId.value) else |l.book|;
    if i == |l.book| then (l, Rejected(UnknownPosition))
    else
      var p := l.book[i];
      var units := UnitsOf(o.legs);
      if units > p.qty then (l, Rejected(TooMany))
      else if !Mirrors(o.legs, p.legs, units) then (l, Rejected(NotMirror))
      else
        var price := UnitPrice(premium, units, Multiplier(o.legs));
        (CloseUnits(l, i, units, price, premium - commission, commission),
         Filled(units, price, commission, p.id))
  }

  ghost function Place(c: Setup, l: Ledger, o: Order): (Ledger, Outcome)
    requires WellFormed(o.legs)
  {
    if l.today.None? then (l, Rejected(NoMarketData))
    else
      var numbered := l.(orders := l.orders + 1);
      if !AllQuotable(l.market, c.model, o.legs) then (numbered, Rejected(LegUnquotable))
      else
        var premium := Premium(l.market, c.model, o.legs);
        var commission := Commission(l.market, c.model, o.legs);
        if o.intent.Open? then PlaceOpen(numbered, o, premium, commission)
        else PlaceClose(numbered, o, premium, commission)
  }

  // ---- synthetic closes ----------------------------------------------------

  function ForceAt(c: Setup, l: Ledger, i: nat, v: real): Ledger
    requires i < |l.book|
  {
    var p := l.book[i];
    var commission := CloseCommission(c.commissionRate, p.legs, p.qty);
    var pnl := p.Worth(v - p.entry) - commission;
    l.(cash := l.cash + (p.Worth(v) - commission),
    commissions := l.commissions + commission,
    book := Remove(l.book, i),
    synthetics := l.synthetics + [(p.id, v, pnl)],
    reserved := l.reserved - {p.id},
    retired := l.retired + p.realized + pnl,
    forced := l.forced + commission)
  }

  function ForceClose(c: Setup, l: Ledger, id: nat, v: real): Ledger {
    var i := IndexOf(l.book, id);
    if i == |l.book| then l else ForceAt(c, l, i, v)
  }

  // ---- runs ----------------------------------------------------------------

  /** Everything a caller can do to the broker, including what the record layer
      writes back: it drains the partial-settlement list and flags tp1. */
  datatype Event =
    | Advance(chains: map<string, Chain>, today: Date,
              equityQuotes: Option<map<string, Quote>>, fillQuotes: Option<map<string, Quote>>)
    | Submit(order: Order)
    | Force(id: nat, value: real)
    | DrainPartials
    | FlagTp1(id: nat)

  function FlagDone(l: Ledger, id: nat): Ledger {
    var i := IndexOf(l.book, id);
    if i == |l.book| then l else l.(book := l.book[i := l.book[i].(tp1Done := true)])
  }

  ghost function Step(c: Setup, l: Ledger, e: Event): Ledger
    requires e.Submit? ==> WellFormed(e.order.legs)
  {
    match e
    case Advance(chains, today, equityQuotes, fillQuotes) => UpdateMarket(l, chains, today, equityQuotes, fillQuotes)
    case Submit(order) => Place(c, l, order).0
    case Force(id, value) => ForceClose(c, l, id, value)
    case DrainPartials => l.(partials := [])
    case FlagTp1(id) => FlagDone(l, id)
  }

  ghost predicate WellFormedEvents(es: seq<Event>) {
    forall i :: 0 <= i < |es| && es[i].Submit? ==> WellFormed(es[i].order.legs)
  }

  ghost function Run(c: Setup, l: Ledger, es: seq<Event>): Ledger
    requires WellFormedEvents(es)
  {
    if es == [] then l else Step(c, Run(c, l, es[..|es| - 1]), es[|es| - 1])
  }
}
