// SimulatedBroker (src/catalyst/brokers/simulated.py): the class that keeps the
// ledger in place. Every method is proved to take the step of LedgerModel.dfy that
// bears its name.
module Broker {
  import opened Common
  import opened Instruments
  import opened Ratios
  import opened Costs
  import opened Market
  import opened LedgerModel

  /** An open structure; quantity, legs and marks change in place. */
  class Position {
    const id: nat
    var legs: seq<Leg>
    var qty: nat
    const entry: real
    var value: real
    var high: real
    var realized: real
    const maxLoss: Option<Num>
    const engine: string
    var tp1Done: bool
    ghost const openFlow: real

    constructor (id: nat, legs: seq<Leg>, qty: nat, entry: real, maxLoss: Option<Num>, engine: string, ghost openFlow: real)
      ensures View() == Pos(id, legs, qty, entry, entry, entry, 0.0, maxLoss, engine, false, openFlow)
    {
      this.id, this.legs, this.qty, this.entry := id, legs, qty, entry;
      this.value, this.high, this.realized := entry, entry, 0.0;
      this.maxLoss, this.engine, this.tp1Done := maxLoss, engine, false;
      this.openFlow := openFlow;
    }

    ghost function View(): Pos
      reads this
    {
      Pos(id, legs, qty, entry, value, high, realized, maxLoss, engine, tp1Done, openFlow)
    }

    /** Some units leave at this per-unit price. */
    method Reduce(units: nat, price: real)
      requires units <= qty
      modifies this`qty, this`realized
      ensures View() == AfterClose(old(View()), price, units)
    {
      realized := realized + Dollars(price - entry, units, Multiplier(legs));
      qty := qty - units;
    }

    /** Expired legs paid out and left the structure. */
    method PayOut(paid: real, live: seq<Leg>)
      modifies this`legs, this`realized
      ensures View() == PaidOut(old(View()), paid, live)
    {
      realized := realized + paid;
      legs := live;
    }
  }

  /** book lists what the objects in ps hold, and no object is listed twice. */
  ghost predicate Holds(ps: seq<Position>, book: seq<Pos>)
    reads ps
  {
    && |ps| == |book|
    && (forall i :: 0 <= i < |ps| ==> ps[i].View() == book[i])
    && (forall i, j :: 0 <= i < j < |ps| ==> ps[i] != ps[j])
  }

  ghost function Members(ps: seq<Position>): set<Position> {
    set p | p in ps
  }

  lemma MembersListed(ps: seq<Position>, was: seq<Position>)
    ensures Members(ps) <= Members(was) ==> forall j :: 0 <= j < |ps| ==> ps[j] in was
  {
    assert forall j :: 0 <= j < |ps| ==> ps[j] in Members(ps);
  }

  /** What an object and its entry in the book agree on. */
  lemma SameEntry(ps: seq<Position>, book: seq<Pos>, i: nat)
    requires Holds(ps, book) && i < |ps|
    ensures |ps| == |book| && ps[i].View() == book[i]
    ensures ps[i].id == book[i].id && ps[i].qty == book[i].qty && ps[i].legs == book[i].legs
    ensures ps[i].entry == book[i].entry && ps[i].value == book[i].value && ps[i].realized == book[i].realized
  {
  }

  lemma HoldsRemove(ps: seq<Position>, book: seq<Pos>, i: nat)
    requires Holds(ps, book) && i < |ps|
    ensures Holds(ps[..i] + ps[i + 1..], Remove(book, i))
  {
    hide Position.View;
  }

  lemma HoldsAppend(ps: seq<Position>, book: seq<Pos>, p: Position)
    requires Holds(ps, book) && p !in ps
    ensures Holds(ps + [p], book + [p.View()])
  {
    hide Position.View;
  }

  class SimulatedBroker {
    const setup: Setup
    var cash: real
    var positions: seq<Position>
    var reserved: map<nat, real>
    var market: Snapshot
    var spots: SpotBook
    var today: Option<Date>
    var orders: nat
    var commissions: real
    var settlements: seq<(nat, real, real)>
    var partials: seq<(nat, real)>
    var synthetics: seq<(nat, real, real)>
    var staleMarks: nat
    ghost var book: seq<Pos>
    ghost var retired: real
    ghost var forced: real

    constructor (setup: Setup, startingCash: real)
      ensures Valid() && View() == Opening(startingCash) && this.setup == setup
      ensures positions == []
    {
      this.setup := setup;
      cash, positions, reserved := startingCash, [], map[];
      market, spots, today := Snapshot(map[], map[], None), map[], None;
      orders, commissions, staleMarks := 0, 0.0, 0;
      settlements, partials, synthetics := [], [], [];
      book, retired, forced := [], 0.0, 0.0;
    }

    ghost predicate Valid()
      reads this, positions
    {
      Holds(positions, book)
    }

    /** The ledger this object holds. */
    ghost function View(): Ledger
      reads this
    {
      Ledger(cash, book, reserved, market, spots, today, orders, commissions,
             settlements, partials, synthetics, staleMarks, retired, forced)
    }

    // ---- marks ---------------------------------------------------------------

    method MarkPosition(p: Position)
      modifies p`value, p`high, this`staleMarks
      ensures p.View() == Mark(market, old(p.View()))
      ensures staleMarks == old(staleMarks) + StaleCount(market, p.legs)
    {
      var value := 0.0;
      for i := 0 to |p.legs|
        invariant forall j :: 0 <= j < i ==> LegMid(market, p.legs[j].key).Some?
        invariant value == Sum(MarkTerm(market), p.legs[..i])
      {
        match LegMid(market, p.legs[i].key) {
          case None =>
            staleMarks := staleMarks + 1;
            return;
          case Some(mid) =>
            assert p.legs[..i + 1][..i] == p.legs[..i];
            value := value + mid * p.legs[i].Signed();
        }
      }
      assert p.legs[..|p.legs|] == p.legs;
      p.value := value;
      p.high := Max(p.high, value);
    }

    /** Mark the position at i; the rest of the book stays. */
    method MarkAt(i: nat)
      requires Valid() && i < |positions|
      modifies positions[i], this`staleMarks, this`book
      ensures Valid()
      ensures book == old(book)[i := Mark(market, old(book)[i])]
      ensures staleMarks == old(staleMarks) + StaleCount(market, old(book)[i].legs)
    {
      hide Mark, MarkValue;
      MarkPosition(positions[i]);
      book := book[i := Mark(market, book[i])];
    }

    /** The position at i survives a partial expiry: paid, reduced and re-marked. */
    method SurviveAt(i: nat, paid: real, day: Date)
      requires Valid() && i < |positions|
      modifies positions[i], this`staleMarks, this`book
      ensures Valid()
      ensures |old(book)| == |positions|
      ensures View() == old(View()).(
                        book := old(book)[i := Survivor(market, old(book)[i], day, paid)],
                        staleMarks := old(staleMarks) + StaleCount(market, LiveLegs(old(book)[i].legs, day)))
    {
      hide Survivor, LiveLegs, StaleCount;
      PayLegs(positions[i], paid, day);
      book := book[i := positions[i].View()];
    }

    /** The expired legs of a position have paid out; the rest is marked. */
    method PayLegs(p: Position, paid: real, day: Date)
      modifies p, this`staleMarks
      ensures p.View() == Survivor(market, old(p.View()), day, paid)
      ensures staleMarks == old(staleMarks) + StaleCount(market, LiveLegs(old(p.legs), day))
    {
      hide Mark, MarkValue, LiveLegs;
      p.PayOut(paid, LiveLegs(p.legs, day));
      MarkPosition(p);
    }

    /** Units of the position at i leave at this per-unit price. */
    method ReduceAt(i: nat, units: nat, price: real)
      requires Valid() && i < |positions| && units <= positions[i].qty
      modifies positions[i], this`book
      ensures Valid() && |old(book)| == |positions|
      ensures View() == old(View()).(book := old(book)[i := AfterClose(old(book)[i], price, units)])
    {
      hide AfterClose;
      positions[i].Reduce(units, price);
      book := book[i := positions[i].View()];
    }

    method MarkPositions()
      requires Valid()
      modifies positions, this`staleMarks, this`book
      ensures Valid()
      ensures book == MarkAll(market, old(book))
      ensures staleMarks == old(staleMarks) + CountStale(market, old(book))
    {
      hide Mark, MarkValue, StaleCount, Position.View;
      ghost var was := book;
      for i := 0 to |positions|
        invariant Valid() && |book| == |was|
        invariant forall j :: 0 <= j < i ==> book[j] == Mark(market, was[j])
        invariant forall j :: i <= j < |was| ==> book[j] == was[j]
        invariant staleMarks == old(staleMarks) + CountStale(market, was[..i])
        modifies positions, this`staleMarks, this`book
      {
        MarkAt(i);
        assert was[..i + 1][..i] == was[..i];
      }
      assert was[..|was|] == was;
    }

    method UpdateMarket(chains: map<string, Chain>, day: Date,
                        equityQuotes: Option<map<string, Quote>>, fillQuotes: Option<map<string, Quote>>)
      requires Valid()
      modifies this, positions
      ensures Valid()
      ensures View() == LedgerModel.UpdateMarket(old(View()), chains, day, equityQuotes, fillQuotes)
      ensures forall j :: 0 <= j < |positions| ==> positions[j] in old(positions)
    {
      hide MarkAll, Mark, RememberSpots, CountStale, SettleAll, Holds, Position.View;
      Observe(chains, day, equityQuotes, fillQuotes);
      MarkPositions();
      SettleExpired(day);
    }

    /** Take in the new books; an omitted equity book keeps the current one. */
    method Observe(chains: map<string, Chain>, day: Date,
                   equityQuotes: Option<map<string, Quote>>, fillQuotes: Option<map<string, Quote>>)
      modifies this`market, this`spots, this`today
      ensures View() == old(View()).(
              market := Snapshot(chains,
                                 if equityQuotes.Some? then equityQuotes.value else old(market).marks,
                                 if fillQuotes.Some? then fillQuotes else old(market).fills),
              spots := RememberSpots(old(spots), chains, day),
              today := Some(day))
    {
      market := Snapshot(
        chains,
        if equityQuotes.Some? then equityQuotes.value else market.marks,
        if fillQuotes.Some? then fillQuotes else market.fills);
      spots := RememberSpots(spots, chains, day);
      today := Some(day);
    }

    // ---- settlement ----------------------------------------------------------

    method IntrinsicSum(legs: seq<Leg>) returns (r: Option<real>)
      ensures r == IntrinsicValue(market, spots, legs)
    {
      var value := 0.0;
      for i := 0 to |legs|
        invariant forall j :: 0 <= j < i ==> LegIntrinsic(market, spots, legs[j]).Some?
        invariant value == Sum(IntrinsicTerm(market, spots), legs[..i])
      {
        match LegIntrinsic(market, spots, legs[i]) {
          case None =>
            return None;
          case Some(v) =>
            assert legs[..i + 1][..i] == legs[..i];
            value := value + v;
        }
      }
      assert legs[..|legs|] == legs;
      return Some(value);
    }

    /** A finished position leaves the book. */
    method Drop(i: nat)
      requires Valid() && i < |positions|
      modifies this`positions, this`book, this`retired
      ensures Valid()
      ensures book == Remove(old(book), i) && retired == old(retired) + old(book)[i].realized
      ensures positions == old(positions[..i] + positions[i + 1..])
    {
      HoldsRemove(positions, book, i);
      SameEntry(positions, book, i);
      hide Holds, Position.View;
      retired := retired + positions[i].realized;
      book := Remove(book, i);
      positions := positions[..i] + positions[i + 1..];
    }

    /** Take position i off the book with its reserve, realising pnl on the way. */
    method Retire(i: nat, pnl: real)
      requires Valid() && i < |positions|
      modifies this`positions, this`book, this`reserved, this`retired
      ensures Valid()
      ensures View() == old(View()).(
              book := Remove(old(book), i),
              reserved := old(reserved) - {old(book)[i].id},
              retired := old(retired) + old(book)[i].realized + pnl)
      ensures positions == old(positions[..i] + positions[i + 1..])
    {
      SameEntry(positions, book, i);
      hide Holds, Position.View;
      reserved := reserved - {positions[i].id};
      Drop(i);
      retired := retired + pnl;
    }

    /** Settle the position at index k; reports whether it stayed in the book. */
    method SettleAt(k: nat, day: Date) returns (kept: bool)
      requires Valid() && k < |positions|
      modifies this, positions
      ensures Valid()
      ensures View() == SettledAt(old(View()), k, day)
      ensures kept <==> !SettlementOf(old(market), old(spots), day, old(book)[k]).Full?
      ensures positions == if kept then old(positions) else old(positions[..k] + positions[k + 1..])
    {
      SameEntry(positions, book, k);
      hide ExpiredLegs, LiveLegs, IntrinsicValue, Dollars, Mark, MarkValue, Multiplier, SettleOne, Holds, Position.View;
      var p := positions[k];
      kept := true;
      SettledAtCases(View(), k, day);
      var expired := ExpiredLegs(p.legs, day);
      if expired == [] {
        return;
      }
      var intrinsic := IntrinsicSum(expired);
      if |expired| == |p.legs| {
        var v := if intrinsic.Some? then intrinsic.value else p.value;
        kept := false;
        SettleFull(k, v);
        return;
      }
      if intrinsic.None? {
        return;
      }
      SettlePartial(k, intrinsic.value, day);
    }

    method SettleFull(k: nat, v: real)
      requires Valid() && k < |positions|
      modifies this
      ensures Valid()
      ensures View() == FullAt(old(View()), k, v)
      ensures positions == old(positions[..k] + positions[k + 1..])
    {
      SameEntry(positions, book, k);
      hide Dollars, Multiplier, Holds, Position.View;
      var p := positions[k];
      cash := cash + Dollars(v, p.qty, Multiplier(p.legs));
      var pnl := Dollars(v - p.entry, p.qty, Multiplier(p.legs));
      settlements := settlements + [(p.id, v, pnl)];
      Retire(k, pnl);
    }

    method SettlePartial(k: nat, v: real, day: Date)
      requires Valid() && k < |positions|
      modifies this, positions
      ensures Valid()
      ensures View() == PartialAt(old(View()), k, v, day)
      ensures positions == old(positions)
    {
      SameEntry(positions, book, k);
      hide LiveLegs, Dollars, Survivor, StaleCount, Multiplier, Holds, Position.View;
      var p := positions[k];
      var paid := Dollars(v, p.qty, Multiplier(p.legs));
      PostPartial(p.id, v, paid);
      SurviveAt(k, paid, day);
    }

    method PostPartial(id: nat, v: real, paid: real)
      requires Valid()
      modifies this`cash, this`partials
      ensures Valid() && View() == old(View()).(cash := old(cash) + paid, partials := old(partials) + [(id, v)])
    {
      cash := cash + paid;
      partials := partials + [(id, v)];
    }

    /** One turn of the settlement loop: position i of l, now at index k. */
    method SettleNext(ghost l: Ledger, ghost i: nat, k: nat, day: Date) returns (next: nat)
      requires Valid() && SettledTo(l, i, day, View(), k) && i < |l.book|
      modifies this, positions
      ensures Valid() && SettledTo(l, i + 1, day, View(), next)
      ensures |positions| - next == old(|positions|) - k - 1
      ensures Members(positions) <= old(Members(positions))
    {
      hide SettledTo, SettledAt, SettlementOf, SettleAll, Position.View, Holds;
      BookSize();
      SettledStep(l, i, day, View(), k);
      var kept := SettleAt(k, day);
      next := if kept then k + 1 else k;
    }

    method SettleExpired(day: Date)
      requires Valid()
      modifies this, positions
      ensures Valid()
      ensures View() == SettleAll(old(View()).(book := []), old(book), day)
      ensures forall j :: 0 <= j < |positions| ==> positions[j] in old(positions)
    {
      BookSize();
      hide SettledTo, SettleAll, Position.View, Holds, Members;
      ghost var l := View();
      ghost var i: nat := 0;
      var k: nat := 0;
      SettledStart(l, day);
      while k < |positions|
        invariant Valid()
        invariant i <= |l.book| && |positions| - k == |l.book| - i
        invariant SettledTo(l, i, day, View(), k)
        invariant Members(positions) <= old(Members(positions))
        decreases |positions| - k
      {
        MembersListed(positions, old(positions));
        k := SettleNext(l, i, k, day);
        i := i + 1;
      }
      SettledEnd(l, day, View(), k);
      MembersListed(positions, old(positions));
    }

    // ---- orders --------------------------------------------------------------

    method ReservedCollateral() returns (total: real)
      ensures total == Total(reserved)
    {
      total := 0.0;
      var left := reserved;
      while left != map[]
        invariant total + Total(left) == Total(reserved)
        decreases left.Keys
      {
        var k :| k in left;
        TotalRemove(left, k);
        total := total + left[k];
        left := left - {k};
      }
    }

    /** Per-leg modeled fills, or None when some leg is unquotable. */
    method LegFills(legs: seq<Leg>) returns (fills: Option<seq<Fill>>)
      ensures fills.Some? <==> AllQuotable(market, setup.model, legs)
      ensures fills.Some? ==>
                && |fills.value| == |legs|
                && forall i :: 0 <= i < |legs| ==> FillOf(market, setup.model, legs[i]) == Some(fills.value[i])
    {
      var filled := [];
      for i := 0 to |legs|
        invariant |filled| == i
        invariant forall j :: 0 <= j < i ==> FillOf(market, setup.model, legs[j]) == Some(filled[j])
      {
        match FillOf(market, setup.model, legs[i]) {
          case None =>
            return None;
          case Some(fill) =>
            filled := filled + [fill];
        }
      }
      return Some(filled);
    }

    /** Gross premium cash and total commission of filled legs. */
    method CashFlow(legs: seq<Leg>, fills: seq<Fill>) returns (premium: real, commission: real)
      requires |fills| == |legs|
      requires forall i :: 0 <= i < |legs| ==> FillOf(market, setup.model, legs[i]) == Some(fills[i])
      ensures premium == Premium(market, setup.model, legs)
      ensures commission == Commission(market, setup.model, legs)
    {
      hide FillOf, LegCash;
      premium, commission := 0.0, 0.0;
      for i := 0 to |legs|
        invariant premium == Sum(PremiumTerm(market, setup.model), legs[..i])
        invariant commission == Sum(CommissionTerm(market, setup.model), legs[..i])
      {
        assert legs[..i + 1][..i] == legs[..i];
        premium := premium + LegCash(legs[i], fills[i].price);
        commission := commission + fills[i].commission;
      }
      assert legs[..|legs|] == legs;
    }

    method PlaceOrder(o: Order) returns (out: Outcome)
      requires Valid() && WellFormed(o.legs)
      modifies this, positions
      ensures Valid()
      ensures (View(), out) == Place(setup, old(View()), o)
      ensures forall j :: 0 <= j < |positions| ==> positions[j] in old(positions) || fresh(positions[j])
    {
      hide WellFormed, AllQuotable, PlaceOpen, PlaceClose, Premium, Commission;
      if today.None? {
        return Rejected(NoMarketData);
      }
      orders := orders + 1;
      var fills := LegFills(o.legs);
      if fills.None? {
        return Rejected(LegUnquotable);
      }
      var premium, commission := CashFlow(o.legs, fills.value);
      if o.intent.Open? {
        out := OpenPosition(o, premium, commission);
      } else {
        out := ClosePosition(o, premium, commission);
      }
    }

    method OpenPosition(o: Order, premium: real, commission: real) returns (out: Outcome)
      requires Valid() && WellFormed(o.legs)
      modifies this
      ensures Valid()
      ensures (View(), out) == PlaceOpen(old(View()), o, premium, commission)
      ensures forall j :: 0 <= j < |positions| ==> positions[j] in old(positions) || fresh(positions[j])
    {
      assert o.legs != [];
      hide WellFormed, Total, Opened, NeedsReserve, Holds;
      var refusal, reserve := OpenGuard(o, premium - commission);
      if refusal.Some? {
        return Rejected(refusal.value);
      }
      hide PlaceOpen;
      out := AcceptOpen(o, premium, commission, reserve);
    }

    /** Why an open is refused, or the collateral it posts. */
    method OpenGuard(o: Order, cashFlow: real) returns (refusal: Option<Reason>, reserve: real)
      requires o.legs != []
      ensures match NeedsReserve(o, cashFlow)
              case None => refusal == Some(NoMaxLoss)
              case Some(r) =>
                r == reserve && refusal == if cash + cashFlow - Total(reserved) - r < 0.0 then Some(Insufficient) else None
    {
      hide NeedsReserve, Total;
      var needed := RequiredReserve(o, cashFlow);
      if needed.None? {
        return Some(NoMaxLoss), 0.0;
      }
      var held := ReservedCollateral();
      return if cash + cashFlow - held - needed.value < 0.0 then Some(Insufficient) else None, needed.value;
    }

    method AcceptOpen(o: Order, premium: real, commission: real, reserve: real) returns (out: Outcome)
      requires Valid() && WellFormed(o.legs)
      requires NeedsReserve(o, premium - commission) == Some(reserve)
      requires cash + (premium - commission) - Total(reserved) - reserve >= 0.0
      modifies this
      ensures Valid()
      ensures (View(), out) == PlaceOpen(old(View()), o, premium, commission)
      ensures forall j :: 0 <= j < |positions| ==> positions[j] in old(positions) || fresh(positions[j])
    {
      hide WellFormed, Total, Opened, NeedsReserve, Holds, Position.View, StaleCount;
      PostOpen(premium - commission, commission, reserve);
      var p := AddPosition(o, premium, commission);
      return Filled(p.qty, p.entry, commission, p.id);
    }

    method PostOpen(cashFlow: real, commission: real, reserve: real)
      requires Valid()
      modifies this`cash, this`commissions, this`reserved
      ensures Valid()
      ensures View() == old(View()).(cash := old(cash) + cashFlow, commissions := old(commissions) + commission,
                                     reserved := WithReserve(old(reserved), orders, reserve))
    {
      hide Holds;
      cash := cash + cashFlow;
      commissions := commissions + commission;
      if reserve > 0.0 {
        reserved := reserved[orders := reserve];
      }
    }

    /** The collateral an open must post; a credit without a stated loss cannot. */
    method RequiredReserve(o: Order, cashFlow: real) returns (reserve: Option<real>)
      requires o.legs != []
      ensures reserve == NeedsReserve(o, cashFlow)
    {
      if cashFlow <= 0.0 {
        return Some(0.0);
      }
      match o.maxLoss {
        case Some(Fin(loss)) =>
          return Some(Dollars(loss, UnitsOf(o.legs), Multiplier(o.legs)));
        case _ =>
          return None;
      }
    }

    method AddPosition(o: Order, premium: real, commission: real) returns (p: Position)
      requires Valid() && WellFormed(o.legs)
      modifies this`positions, this`book, this`staleMarks
      ensures Valid() && fresh(p) && positions == old(positions) + [p]
      ensures var q := Opened(market, o, premium, commission, orders);
              && p.id == q.id == orders && p.qty == q.qty && p.entry == q.entry
              && View() == old(View()).(book := old(book) + [q], staleMarks := old(staleMarks) + StaleCount(market, q.legs))
    {
      hide Opened, WellFormed;
      p := NewPosition(o, premium, commission);
      HoldsAppend(positions, book, p);
      hide Holds;
      positions := positions + [p];
      book := book + [p.View()];
    }

    /** The new position, marked, with its high water at the first mark. */
    method NewPosition(o: Order, premium: real, commission: real) returns (p: Position)
      requires WellFormed(o.legs)
      modifies this`staleMarks
      ensures fresh(p) && p.id == orders && p.View() == Opened(market, o, premium, commission, orders)
      ensures staleMarks == old(staleMarks) + StaleCount(market, p.legs)
    {
      hide UnitsOf, Mark, MarkValue, UnitPrice, Multiplier, Reduced, WellFormed;
      UnitsPositive(o.legs);
      var units := UnitsOf(o.legs);
      var price := UnitPrice(-premium, units, Multiplier(o.legs));
      p := new Position(orders, Reduced(o.legs, units), units, price, o.maxLoss, o.engine, premium - commission);
      MarkPosition(p);
      p.high := p.value;
    }

    method ClosePosition(o: Order, premium: real, commission: real) returns (out: Outcome)
      requires Valid() && WellFormed(o.legs)
      modifies this, positions
      ensures Valid()
      ensures (View(), out) == PlaceClose(old(View()), o, premium, commission)
      ensures forall j :: 0 <= j < |positions| ==> positions[j] in old(positions)
    {
      UnitsPositive(o.legs);
      hide PlaceClose, CloseUnits, Holds, UnitPrice, Multiplier, UnitsOf, WellFormed;
      var refusal, i := RefuseClose(o, premium, commission);
      if refusal.Some? {
        return Rejected(refusal.value);
      }
      var units := UnitsOf(o.legs);
      var price := UnitPrice(premium, units, Multiplier(o.legs));
      out := Filled(units, price, commission, positions[i].id);
      TakeUnits(i, units, price, premium - commission, commission);
    }

    /** Why a close is refused, or else the position it closes. */
    method RefuseClose(o: Order, ghost premium: real, ghost commission: real) returns (refusal: Option<Reason>, i: nat)
      requires Valid() && WellFormed(o.legs)
      ensures refusal.Some? ==> PlaceClose(View(), o, premium, commission) == (View(), Rejected(refusal.value))
      ensures refusal.None? ==>
                var units := UnitsOf(o.legs);
                && i < |positions| && 1 <= units <= positions[i].qty
                && |book| == |positions| && positions[i].qty == book[i].qty
                && Multiplier(o.legs) >= 1.0
                && var price := UnitPrice(premium, units, Multiplier(o.legs));
                   PlaceClose(View(), o, premium, commission)
                   == (CloseUnits(View(), i, units, price, premium - commission, commission),
                       Filled(units, price, commission, positions[i].id))
    {
      hide UnitsOf, WellFormed, Mirrors, UnitPrice, Multiplier, IndexOf, CloseUnits;
      UnitsPositive(o.legs);
      i := |positions|;
      BookSize();
      if o.positionId.None? {
        return Some(UnknownPosition), i;
      }
      i := Locate(o.positionId.value);
      if i == |positions| {
        return Some(UnknownPosition), i;
      }
      SameEntry(positions, book, i);
      hide Holds, Position.View;
      var p := positions[i];
      var units := UnitsOf(o.legs);
      if units > p.qty {
        return Some(TooMany), i;
      }
      if !Mirrors(o.legs, p.legs, units) {
        return Some(NotMirror), i;
      }
      return None, i;
    }

    method TakeUnits(i: nat, units: nat, price: real, cashFlow: real, commission: real)
      requires Valid() && i < |positions| && 1 <= units <= positions[i].qty
      modifies this, positions
      ensures Valid() && |old(book)| == |old(positions)| && units <= old(book)[i].qty
      ensures View() == CloseUnits(old(View()), i, units, price, cashFlow, commission)
      ensures forall p :: p in positions ==> p in old(positions)
    {
      SameEntry(positions, book, i);
      hide Release, AfterClose, Dollars, Multiplier, Holds, Position.View, Remove, CloseUnits;
      CloseInTwo(View(), i, units, price, cashFlow, commission);
      PostClose(positions[i].id, units, positions[i].qty, cashFlow, commission);
      ReduceAt(i, units, price);
      DropIfEmpty(i);
    }

    method DropIfEmpty(i: nat)
      requires Valid() && i < |positions|
      modifies this`positions, this`book, this`retired
      ensures Valid() && |old(book)| == |old(positions)|
      ensures var p := old(book)[i];
              View() == if p.qty > 0 then old(View())
                        else old(View()).(book := Remove(old(book), i), retired := old(retired) + p.realized)
      ensures forall p :: p in positions ==> p in old(positions)
    {
      SameEntry(positions, book, i);
      hide Holds, Position.View;
      if positions[i].qty == 0 {
        Drop(i);
      }
    }

    /** The cash, commission and collateral side of a close. */
    method PostClose(id: nat, units: nat, total: nat, cashFlow: real, commission: real)
      requires total >= 1
      modifies this`cash, this`commissions, this`reserved
      ensures View() == old(View()).(
              cash := old(cash) + cashFlow,
              commissions := old(commissions) + commission,
              reserved := Release(old(reserved), id, units, total))
    {
      cash := cash + cashFlow;
      commissions := commissions + commission;
      reserved := Release(reserved, id, units, total);
    }

    /** Index of the position with this id, or the length of the book. */
    method Locate(id: nat) returns (i: nat)
      requires Valid()
      ensures i == IndexOf(book, id)
      ensures i <= |positions|
    {
      i := 0;
      while i < |positions| && positions[i].id != id
        invariant i <= |positions|
        invariant forall j :: 0 <= j < i ==> positions[j].id != id
      {
        i := i + 1;
      }
    }

    /** The ghost book lists the objects one to one. */
    lemma BookSize()
      requires Valid()
      ensures |book| == |positions|
    {
    }

    /** The ids of the open positions, in book order. */
    method Ids() returns (ids: seq<nat>)
      requires Valid()
      ensures |ids| == |book| && forall i :: 0 <= i < |ids| ==> ids[i] == book[i].id
    {
      ids := [];
      for i := 0 to |positions|
        invariant |ids| == i && forall j :: 0 <= j < i ==> ids[j] == book[j].id
      {
        ids := ids + [positions[i].id];
      }
    }

    // ---- synthetic closes and write-backs ------------------------------------

    method ForceClose(id: nat, value: real)
      requires Valid()
      modifies this
      ensures Valid()
      ensures View() == LedgerModel.ForceClose(setup, old(View()), id, value)
      ensures forall j :: 0 <= j < |positions| ==> positions[j] in old(positions)
    {
      hide Dollars, Multiplier, CloseCommission, IndexOf;
      var i := Locate(id);
      if i == |positions| {
        return;
      }
      SameEntry(positions, book, i);
      hide Holds, Position.View;
      var p := positions[i];
      var commission := CloseCommission(setup.commissionRate, p.legs, p.qty);
      var pnl := Dollars(value - p.entry, p.qty, Multiplier(p.legs)) - commission;
      PostForce(id, value, Dollars(value, p.qty, Multiplier(p.legs)) - commission, commission, pnl);
      Retire(i, pnl);
    }

    method PostForce(id: nat, value: real, proceeds: real, commission: real, pnl: real)
      requires Valid()
      modifies this`cash, this`commissions, this`forced, this`synthetics
      ensures Valid()
      ensures View() == old(View()).(cash := old(cash) + proceeds, commissions := old(commissions) + commission,
                                     forced := old(forced) + commission, synthetics := old(synthetics) + [(id, value, pnl)])
    {
      hide Holds;
      cash := cash + proceeds;
      commissions := commissions + commission;
      forced := forced + commission;
      synthetics := synthetics + [(id, value, pnl)];
    }

    method DrainPartials()
      requires Valid()
      modifies this`partials
      ensures Valid() && View() == old(View()).(partials := [])
    {
      partials := [];
    }

    /** The record layer's tp1 flag on the position at i. */
    method FlagTp1(i: nat)
      requires Valid() && i < |positions|
      modifies this`book, positions[i]
      ensures Valid() && View() == old(View()).(book := old(book)[i := old(book)[i].(tp1Done := true)])
    {
      positions[i].tp1Done := true;
      book := book[i := positions[i].View()];
    }

    method GetEquity() returns (equity: real)
      requires Valid()
      ensures equity == Equity(View())
    {
      hide Dollars;
      equity := 0.0;
      for i := 0 to |positions|
        invariant equity == Sum(MarketValue(), book[..i])
      {
        assert book[..i + 1][..i] == book[..i];
        equity := equity + Dollars(positions[i].value, positions[i].qty, Multiplier(positions[i].legs));
      }
      assert book[..|book|] == book;
      equity := cash + equity;
    }
  }
}
