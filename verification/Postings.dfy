// What each fill posts: to cash, to the book, to the reserves and to the telemetry
// (src/catalyst/brokers/simulated.py:227-262, 338-431).
module Postings {
  import opened Common
  import opened Instruments
  import opened Ratios
  import opened Market
  import opened LedgerModel
  import opened LedgerInvariant
  import opened MarketRules

  // ---- opens ---------------------------------------------------------------

  /** Position q is what a filled open of these legs creates: their ratios with gcd 1, the units that
      make up the order, the price that was paid per unit, marked at once, and nothing realised. */
  ghost predicate OpenedAs(m: Snapshot, o: Order, premium: real, commission: real, q: Pos)
    requires o.legs != []
  {
    && |q.legs| == |o.legs| && q.qty == UnitsOf(o.legs) >= 1
    && (forall i :: 0 <= i < |o.legs| ==>
          q.legs[i].key == o.legs[i].key && q.legs[i].side == o.legs[i].side && q.legs[i].qty * q.qty == o.legs[i].qty)
    && Dollars(q.entry, q.qty, Multiplier(o.legs)) == -premium
    && q.high == q.value
    && q.value == (if exists i :: 0 <= i < |o.legs| && LegMid(m, o.legs[i].key).None? then q.entry else Sum(LegWorth(m), q.legs))
    && q.realized == 0.0 && q.maxLoss == o.maxLoss && q.engine == o.engine && !q.tp1Done
    && q.openFlow == premium - commission
  }

  lemma OpenedIs(m: Snapshot, o: Order, premium: real, commission: real, id: nat)
    requires WellFormed(o.legs)
    ensures Opened(m, o, premium, commission, id).id == id
    ensures OpenedAs(m, o, premium, commission, Opened(m, o, premium, commission, id))
  {
    hide UnitsOf, UnitPrice, Dollars, Reduced, LegMid, LegWorth, MarkValue;
    ReducedIsExact(o.legs);
    var units := UnitsOf(o.legs);
    UnitPriceTimes(-premium, units, Multiplier(o.legs));
    var legs := Reduced(o.legs, units);
    MarkValueIs(m, legs);
    assert forall i :: 0 <= i < |o.legs| ==> legs[i].key == o.legs[i].key;
    hide WellFormed;
  }

  /** What a filled open posts. A credit reserves the declared loss of all its units. */
  ghost predicate OpenPosted(c: Setup, l: Ledger, o: Order, r: Ledger, out: Outcome)
    requires o.legs != []
  {
    var premium, commission := Premium(l.market, c.model, o.legs), Commission(l.market, c.model, o.legs);
    var credit := premium - commission > 0.0 && o.maxLoss.Some? && o.maxLoss.value != NaN;
    var reserve := if credit then Dollars(o.maxLoss.value.v, UnitsOf(o.legs), Multiplier(o.legs)) else 0.0;
    var id := l.orders + 1;
    && |r.book| == |l.book| + 1 && r.book[..|l.book|] == l.book
    && var q := r.book[|l.book|];
    && q.id == id && OpenedAs(l.market, o, premium, commission, q)
    && out == Filled(q.qty, q.entry, commission, id)
    && r == l.(orders := id, cash := l.cash + premium - commission, commissions := l.commissions + commission, book := r.book,
               reserved := if reserve > 0.0 then l.reserved[id := reserve] else l.reserved,
               staleMarks := l.staleMarks + if exists i :: 0 <= i < |o.legs| && LegMid(l.market, o.legs[i].key).None? then 1 else 0)
  }

  /** A filled open posts exactly that. */
  lemma OpenPosts(c: Setup, l: Ledger, o: Order)
    requires WellFormed(o.legs) && o.intent.Open? && Place(c, l, o).1.Filled?
    ensures var (r, out) := Place(c, l, o); OpenPosted(c, l, o, r, out)
  {
    hide WellFormed, UnitsOf, Dollars, LegMid, AllQuotable, Total, Opened, MarkValue, OpenedAs;
    var id, premium, commission := l.orders + 1, Premium(l.market, c.model, o.legs), Commission(l.market, c.model, o.legs);
    hide Premium, Commission;
    OpenedIs(l.market, o, premium, commission, id);
    var q := Opened(l.market, o, premium, commission, id);
    OpenedFill(l.market, o, premium, commission, id);
    MarkValueIs(l.market, q.legs);
    LegsThere(o.legs);
    SameKeys(l.market, o, premium, commission, q);
  }

  lemma LegsThere(legs: seq<Leg>)
    requires WellFormed(legs)
    ensures legs != []
  {
  }

  lemma SameKeys(m: Snapshot, o: Order, premium: real, commission: real, q: Pos)
    requires o.legs != [] && OpenedAs(m, o, premium, commission, q)
    ensures (exists i :: 0 <= i < |q.legs| && LegMid(m, q.legs[i].key).None?) <==>
            exists i :: 0 <= i < |o.legs| && LegMid(m, o.legs[i].key).None?
  {
    hide LegMid, UnitsOf, Dollars, LegWorth, Sum;
    assert forall i :: 0 <= i < |o.legs| ==> q.legs[i].key == o.legs[i].key;
  }

  /** The answer names the units and the price of the position. */
  lemma OpenedFill(m: Snapshot, o: Order, premium: real, commission: real, id: nat)
    requires WellFormed(o.legs)
    ensures var q := Opened(m, o, premium, commission, id); q.qty == UnitsOf(o.legs)
  {
    hide UnitsOf, UnitPrice, Reduced, MarkValue, WellFormed;
  }

  // ---- closes --------------------------------------------------------------

  /** What a filled close of u units of position i posts. */
  lemma ClosePosts(l: Ledger, i: nat, u: nat, price: real, cashFlow: real, commission: real)
    requires i < |l.book| && 1 <= u <= l.book[i].qty
    ensures var p, r := l.book[i], CloseUnits(l, i, u, price, cashFlow, commission);
            var realized := p.realized + Dollars(price - p.entry, u, Multiplier(p.legs));
            && r == l.(cash := l.cash + cashFlow, commissions := l.commissions + commission, book := r.book, reserved := r.reserved,
                       retired := r.retired)
            && r.book == (if u == p.qty then l.book[..i] + l.book[i + 1..] else l.book[i := p.(qty := p.qty - u, realized := realized)])
            && r.retired == (if u == p.qty then l.retired + realized else l.retired)
            && (u == p.qty ==> r.reserved == l.reserved - {p.id})
            && (u < p.qty ==> r.reserved == if p.id in l.reserved then l.reserved[p.id := r.reserved[p.id]] else l.reserved)
            && (u < p.qty && p.id in l.reserved ==> r.reserved[p.id] * (p.qty as real) == l.reserved[p.id] * ((p.qty - u) as real))
  {
    hide Dollars, Multiplier;
    if u < l.book[i].qty && l.book[i].id in l.reserved {
      ShareKept(l.reserved[l.book[i].id], u, l.book[i].qty);
    }
    if l.book[i].id !in l.reserved {
      assert l.reserved - {l.book[i].id} == l.reserved;
    }
  }

  lemma ShareKept(held: real, u: nat, total: nat)
    requires u < total
    ensures held * (1.0 - (u as real) / (total as real)) * (total as real) == held * ((total - u) as real)
  {
    var q, n := (u as real) / (total as real), total as real;
    assert q * n == u as real;
    assert (1.0 - q) * n == n - q * n;
    assert held * (1.0 - q) * n == held * ((1.0 - q) * n);
  }

  /** What a synthetic close of position i at a value posts: all its units at that value, a commission
      on every option contract, its reserve freed, and an entry in the telemetry. */
  lemma ForcePosts(c: Setup, l: Ledger, i: nat, v: real)
    requires i < |l.book| && IndexOf(l.book, l.book[i].id) == i
    ensures var p, r := l.book[i], ForceClose(c, l, l.book[i].id, v);
            var fee := CloseCommission(c.commissionRate, p.legs, p.qty);
            var pnl := Dollars(v - p.entry, p.qty, Multiplier(p.legs)) - fee;
            r == l.(cash := l.cash + Dollars(v, p.qty, Multiplier(p.legs)) - fee, commissions := l.commissions + fee,
                    book := l.book[..i] + l.book[i + 1..], synthetics := l.synthetics + [(p.id, v, pnl)],
                    reserved := l.reserved - {p.id}, retired := l.retired + p.realized + pnl, forced := l.forced + fee)
  {
    hide Dollars, Multiplier, CloseCommission;
  }
}
