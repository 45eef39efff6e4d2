// What every reachable state of the broker satisfies, for any sequence of market
// updates, orders, synthetic closes and record-layer write-backs.
module LedgerInvariant {
  import opened Common
  import opened Instruments
  import opened Ratios
  import opened Market
  import opened LedgerModel

  /** What a position still carries on the books: its open basis less what it has
      already realised. */
  function Carry(): Pos -> real {
    (p: Pos) => p.Worth(p.entry) - p.realized
  }

  function Basis(): Pos -> real {
    (p: Pos) => p.Worth(p.entry)
  }

  function Realized(): Pos -> real {
    (p: Pos) => p.realized
  }

  /** Constant over every run: the starting cash. */
  function Stake(l: Ledger): real {
    l.cash + (l.commissions - l.forced) - l.retired + Sum(Carry(), l.book)
  }

  ghost predicate Ordered(l: Ledger) {
    && (forall i, j :: 0 <= i < j < |l.book| ==> l.book[i].id < l.book[j].id)
    && (forall i :: 0 <= i < |l.book| ==> l.book[i].id <= l.orders)
  }

  ghost predicate Shaped(p: Pos) {
    p.qty >= 1 && WellFormed(p.legs)
  }

  ghost predicate MarkedAt(m: Snapshot, p: Pos) {
    MarkValue(m, p.legs).Some? ==> p.value == MarkValue(m, p.legs).value
  }

  /** Opened for a net credit with a positive structural loss to cover. */
  ghost predicate Secured(p: Pos) {
    p.openFlow > 0.0 && p.maxLoss.Some? && p.maxLoss.value.Fin? && p.maxLoss.value.v > 0.0
  }

  function Collateral(): Pos -> real {
    (p: Pos) => if p.openFlow > 0.0 && p.maxLoss.Some? && p.maxLoss.value.Fin? && p.maxLoss.value.v > 0.0
      then p.Worth(p.maxLoss.value.v)
      else 0.0
  }

  ghost predicate Backed(reserved: map<nat, real>, p: Pos) {
    && (p.id in reserved <==> Secured(p))
    && (Secured(p) ==> reserved[p.id] == Collateral()(p))
  }

  ghost predicate Held(book: seq<Pos>, id: nat) {
    exists i :: 0 <= i < |book| && book[i].id == id
  }

  ghost predicate Sound(m: Snapshot, reserved: map<nat, real>, p: Pos) {
    Shaped(p) && MarkedAt(m, p) && Backed(reserved, p)
  }

  ghost predicate Inv(l: Ledger) {
    && Ordered(l)
    && (forall i :: 0 <= i < |l.book| ==> Sound(l.market, l.reserved, l.book[i]))
    && (forall id :: id in l.reserved ==> Held(l.book, id))
  }

  /** Reserves of other positions do not matter to p. */
  lemma SoundFrame(m: Snapshot, reserved: map<nat, real>, reserved': map<nat, real>, p: Pos)
    requires Sound(m, reserved, p)
    requires p.id in reserved' <==> p.id in reserved
    requires p.id in reserved ==> reserved'[p.id] == reserved[p.id]
    ensures Sound(m, reserved', p)
  {
  }

  /** l with more positions behind those in its book. */
  function With(l: Ledger, rest: seq<Pos>): Ledger {
    l.(book := l.book + rest)
  }

  // ---- settlement ----------------------------------------------------------

  /** What one settlement does to the carry of a position that survives it. */
  lemma SurvivorCarry(m: Snapshot, p: Pos, today: Date, v: real)
    requires Shaped(p) && |ExpiredLegs(p.legs, today)| < |p.legs|
    ensures Carry()(Survivor(m, p, today, p.Worth(v))) == Carry()(p) - p.Worth(v)
  {
    hide ExpiredLegs, LiveLegs, MarkValue, Dollars;
    LiveLegsWellFormed(p.legs, today);
  }

  lemma SurvivorIsSound(m: Snapshot, reserved: map<nat, real>, p: Pos, today: Date, paid: real)
    requires Sound(m, reserved, p) && |ExpiredLegs(p.legs, today)| < |p.legs|
    ensures Sound(m, reserved, Survivor(m, p, today, paid))
  {
    hide ExpiredLegs, LiveLegs, MarkValue, Dollars, WellFormed;
    LiveLegsWellFormed(p.legs, today);
  }

  lemma FullCarry(p: Pos, v: real)
    ensures p.Worth(v) - (p.realized + p.Worth(v - p.entry)) == Carry()(p)
  {
    hide Dollars;
    DollarsMinus(v, p.entry, p.qty, p.Mult());
  }

  lemma StakeWith(l: Ledger, rest: seq<Pos>)
    ensures Stake(With(l, rest)) == Stake(l) + Sum(Carry(), rest)
  {
    hide Carry;
    SumAppend(Carry(), l.book, rest);
  }

  lemma SettledStake(l: Ledger, p: Pos, today: Date)
    requires Shaped(p)
    ensures Stake(SettleOne(l, p, today)) == Stake(l) + Carry()(p)
  {
    hide Shaped, Survivor, SettlementOf, Carry, Dollars;
    SumOne(Carry(), p);
    SumAppend(Carry(), l.book, [p]);
    match SettlementOf(l.market, l.spots, today, p)
    case Untouched =>
    case Stuck =>
    case Full(v) =>
      FullCarry(p, v);
    case Partial(v) =>
      SettlementShape(l.market, l.spots, today, p);
      SurvivorCarry(l.market, p, today, v);
      var q := Survivor(l.market, p, today, p.Worth(v));
      SumAppend(Carry(), l.book, [q]);
      SumOne(Carry(), q);
  }

  lemma SettleOneKeepsStake(l: Ledger, p: Pos, today: Date, rest: seq<Pos>)
    requires Shaped(p)
    ensures Stake(With(SettleOne(l, p, today), rest)) == Stake(With(l, [p] + rest))
  {
    hide Carry, SettleOne, Stake, Shaped;
    SettledStake(l, p, today);
    StakeWith(SettleOne(l, p, today), rest);
    StakeWith(l, [p] + rest);
    SumAppend(Carry(), [p], rest);
    SumOne(Carry(), p);
  }

  lemma SettlementShape(m: Snapshot, spots: SpotBook, today: Date, p: Pos)
    ensures SettlementOf(m, spots, today, p).Partial? ==> |ExpiredLegs(p.legs, today)| < |p.legs|
  {
    hide ExpiredLegs, IntrinsicValue;
  }

  lemma SettleOneKeepsInv(l: Ledger, p: Pos, today: Date, rest: seq<Pos>)
    requires Inv(With(l, [p] + rest))
    ensures Inv(With(SettleOne(l, p, today), rest))
  {
    hide Inv, Survivor, SettlementOf, Dollars;
    var before := With(l, [p] + rest);
    var n := |l.book|;
    assert before.book[n] == p;
    var after := With(SettleOne(l, p, today), rest);
    assert before.book[..n] == l.book && before.book[n + 1..] == rest;
    match SettlementOf(l.market, l.spots, today, p)
    case Untouched =>
      assert after.book == before.book && after == before;
    case Stuck =>
      assert after.book == before.book && after == before;
    case Full(v) =>
      RemovalKeepsInv(before, n, after);
    case Partial(v) =>
      PartialKeepsInv(before, n, today, p.Worth(v), after);
  }

  lemma PartialKeepsInv(l: Ledger, i: nat, today: Date, paid: real, after: Ledger)
    requires Inv(l) && i < |l.book|
    requires SettlementOf(l.market, l.spots, today, l.book[i]).Partial?
    requires after.book == l.book[..i] + [Survivor(l.market, l.book[i], today, paid)] + l.book[i + 1..]
    requires after.market == l.market && after.orders == l.orders && after.reserved == l.reserved
    ensures Inv(after)
  {
    hide Sound, Survivor, SettlementOf;
    var p := l.book[i];
    SettlementShape(l.market, l.spots, today, p);
    SurvivorIsSound(l.market, l.reserved, p, today, paid);
    var q := Survivor(l.market, p, today, paid);
    SplicedIsUpdated(l.book, i, q);
    ReplacementKeepsInv(l, i, q, after);
  }

  lemma RemovalKeepsOrder(l: Ledger, i: nat, after: Ledger)
    requires Ordered(l) && i < |l.book|
    requires after.book == Remove(l.book, i) && after.orders == l.orders
    ensures Ordered(after)
    ensures forall k :: 0 <= k < |after.book| ==> after.book[k].id != l.book[i].id
  {
    forall k | 0 <= k < |after.book|
      ensures after.book[k] == l.book[if k < i then k else k + 1]
    {
    }
  }

  /** Dropping position i and its reserve keeps the invariant. */
  lemma RemovalKeepsInv(l: Ledger, i: nat, after: Ledger)
    requires Inv(l) && i < |l.book|
    requires after.book == Remove(l.book, i)
    requires after.reserved == l.reserved - {l.book[i].id}
    requires after.market == l.market && after.orders == l.orders
    ensures Inv(after)
  {
    hide Sound, Ordered;
    RemovalKeepsOrder(l, i, after);
    forall k | 0 <= k < |after.book|
      ensures Sound(after.market, after.reserved, after.book[k])
    {
      var j := if k < i then k else k + 1;
      assert after.book[k] == l.book[j];
      SoundFrame(l.market, l.reserved, after.reserved, l.book[j]);
    }
    forall id | id in after.reserved
      ensures Held(after.book, id)
    {
      assert Held(l.book, id);
      var k :| 0 <= k < |l.book| && l.book[k].id == id;
      assert after.book[if k < i then k else k - 1].id == id;
    }
  }

  /** Replacing position i by one with the same identity that the new reserve
      covers keeps the invariant. */
  lemma ReplacementKeepsInv(l: Ledger, i: nat, q: Pos, after: Ledger)
    requires Inv(l) && i < |l.book|
    requires q.id == l.book[i].id && Sound(l.market, after.reserved, q)
    requires after.book == l.book[i := q]
    requires after.market == l.market && after.orders == l.orders
    requires after.reserved.Keys == l.reserved.Keys
    requires forall id :: id in l.reserved && id != q.id ==> after.reserved[id] == l.reserved[id]
    ensures Inv(after)
  {
    hide Sound;
    forall k | 0 <= k < |after.book|
      ensures Sound(after.market, after.reserved, after.book[k])
    {
      if k != i {
        assert l.book[k].id != q.id;
        SoundFrame(l.market, l.reserved, after.reserved, l.book[k]);
      }
    }
    forall id | id in after.reserved
      ensures Held(after.book, id)
    {
      assert Held(l.book, id);
      var k :| 0 <= k < |l.book| && l.book[k].id == id;
      assert after.book[k].id == id;
    }
  }

  lemma {:induction false} SettleAllKeeps(l: Ledger, pending: seq<Pos>, today: Date, rest: seq<Pos>)
    requires Inv(With(l, pending + rest))
    ensures Inv(With(SettleAll(l, pending, today), rest))
    ensures Stake(With(SettleAll(l, pending, today), rest)) == Stake(With(l, pending + rest))
    decreases |pending|
  {
    if pending == [] {
      assert pending + rest == rest;
    } else {
      var n := |pending| - 1;
      var p := pending[n];
      assert pending + rest == pending[..n] + ([p] + rest);
      SettleAllKeeps(l, pending[..n], today, [p] + rest);
      var r := SettleAll(l, pending[..n], today);
      assert With(r, [p] + rest).book[|r.book|] == p;
      SettleOneKeepsInv(r, p, today, rest);
      SettleOneKeepsStake(r, p, today, rest);
    }
  }

  lemma MarkedIsSound(m: Snapshot, m': Snapshot, reserved: map<nat, real>, p: Pos)
    requires Sound(m, reserved, p)
    ensures Sound(m', reserved, Mark(m', p)) && Carry()(Mark(m', p)) == Carry()(p)
  {
    hide MarkValue, Dollars, WellFormed;
  }

  lemma RefreshKeeps(l: Ledger, chains: map<string, Chain>, today: Date,
                     equityQuotes: Option<map<string, Quote>>, fillQuotes: Option<map<string, Quote>>)
    requires Inv(l)
    ensures var r := Refresh(l, chains, today, equityQuotes, fillQuotes);
            Inv(r) && Stake(r) == Stake(l)
  {
    hide Sound, RememberSpots, CountStale, Carry, Mark, Held, Sum;
    var r := Refresh(l, chains, today, equityQuotes, fillQuotes);
    forall i | 0 <= i < |r.book|
      ensures Sound(r.market, r.reserved, r.book[i]) && r.book[i].id == l.book[i].id
    {
      MarkedIsSound(l.market, r.market, l.reserved, l.book[i]);
      MarkedName(r.market, l.book[i]);
    }
    StillHeld(l.book, r.book, r.reserved);
    MarkedCarry(l, r.market, r.book);
  }

  lemma MarkedName(m: Snapshot, p: Pos)
    ensures Mark(m, p).id == p.id
  {
    hide MarkValue;
  }

  lemma MarkedCarry(l: Ledger, m: Snapshot, marked: seq<Pos>)
    requires Inv(l) && marked == MarkAll(m, l.book)
    ensures Sum(Carry(), marked) == Sum(Carry(), l.book)
  {
    hide Sound, Carry, Mark;
    forall i | 0 <= i < |marked|
      ensures Carry()(marked[i]) == 1.0 * Carry()(l.book[i])
    {
      MarkedIsSound(l.market, m, l.reserved, l.book[i]);
    }
    SumCongruent(Carry(), marked, Carry(), l.book, 1.0);
  }

  lemma StillHeld(a: seq<Pos>, b: seq<Pos>, reserved: map<nat, real>)
    requires |a| == |b| && forall i :: 0 <= i < |a| ==> b[i].id == a[i].id
    requires forall id :: id in reserved ==> Held(a, id)
    ensures forall id :: id in reserved ==> Held(b, id)
  {
    forall id | id in reserved
      ensures Held(b, id)
    {
      assert Held(a, id);
      var k :| 0 <= k < |a| && a[k].id == id;
      assert b[k].id == id;
    }
  }

  lemma AdvanceKeeps(l: Ledger, chains: map<string, Chain>, today: Date,
                     equityQuotes: Option<map<string, Quote>>, fillQuotes: Option<map<string, Quote>>)
    requires Inv(l)
    ensures var r := UpdateMarket(l, chains, today, equityQuotes, fillQuotes);
            Inv(r) && Stake(r) == Stake(l)
  {
    hide Inv, Stake, SettleAll, Refresh;
    RefreshKeeps(l, chains, today, equityQuotes, fillQuotes);
    var refreshed := Refresh(l, chains, today, equityQuotes, fillQuotes);
    var empty := refreshed.(book := []);
    assert With(empty, refreshed.book + []) == refreshed;
    SettleAllKeeps(empty, refreshed.book, today, []);
    var r := SettleAll(empty, refreshed.book, today);
    assert r.book + [] == r.book;
    assert With(r, []) == r;
  }

  // ---- orders --------------------------------------------------------------

  /** The position an accepted open creates. */
  lemma OpenedPosition(m: Snapshot, o: Order, premium: real, commission: real, id: nat, reserved: map<nat, real>)
    requires WellFormed(o.legs) && id !in reserved
    requires NeedsReserve(o, premium - commission).Some?
    ensures var q := Opened(m, o, premium, commission, id);
            && q.id == id
            && Carry()(q) == -premium
            && Sound(m, WithReserve(reserved, id, NeedsReserve(o, premium - commission).value), q)
  {
    hide UnitsOf, MarkValue, Dollars, UnitPrice, Reduced;
    var units := UnitsOf(o.legs);
    ReducedIsExact(o.legs);
    UnitPriceTimes(-premium, units, Multiplier(o.legs));
    if o.maxLoss.Some? && o.maxLoss.value.Fin? {
      DollarsSign(o.maxLoss.value.v, units, Multiplier(o.legs));
    }
  }

  lemma AppendKeepsInv(l: Ledger, q: Pos, after: Ledger)
    requires Inv(l)
    requires forall i :: 0 <= i < |l.book| ==> l.book[i].id < q.id
    requires q.id <= after.orders && l.orders <= after.orders
    requires after.book == l.book + [q] && after.market == l.market
    requires after.reserved == l.reserved || (q.id in after.reserved && after.reserved - {q.id} == l.reserved)
    requires q.id !in l.reserved && Sound(l.market, after.reserved, q)
    ensures Inv(after)
  {
    hide Sound;
    forall k | 0 <= k < |after.book|
      ensures Sound(after.market, after.reserved, after.book[k])
    {
      if k < |l.book| {
        assert l.book[k].id in l.reserved <==> l.book[k].id in after.reserved;
        SoundFrame(l.market, l.reserved, after.reserved, l.book[k]);
      }
    }
    forall id | id in after.reserved
      ensures Held(after.book, id)
    {
      if id in l.reserved {
        assert Held(l.book, id);
        var k :| 0 <= k < |l.book| && l.book[k].id == id;
        assert after.book[k].id == id;
      } else {
        assert after.book[|l.book|].id == id;
      }
    }
  }

  lemma OpenKeeps(l: Ledger, o: Order, premium: real, commission: real)
    requires Inv(l) && WellFormed(o.legs)
    requires forall i :: 0 <= i < |l.book| ==> l.book[i].id < l.orders
    ensures var r := PlaceOpen(l, o, premium, commission).0;
            Inv(r) && Stake(r) == Stake(l)
  {
    hide Sound, Opened, NeedsReserve, Carry, Total, WellFormed, UnitsOf;
    var (r, outcome) := PlaceOpen(l, o, premium, commission);
    if outcome.Filled? {
      var id := l.orders;
      assert !Held(l.book, id);
      OpenedPosition(l.market, o, premium, commission, id, l.reserved);
      var q := Opened(l.market, o, premium, commission, id);
      AppendKeepsInv(l, q, r);
      SumAppend(Carry(), l.book, [q]);
      SumOne(Carry(), q);
    }
  }

  /** Closing legs that mirror a structure share its multiplier. */
  lemma MirrorsShareMultiplier(got: seq<Leg>, held: seq<Leg>, units: nat)
    requires WellFormed(got) && WellFormed(held) && Mirrors(got, held, units)
    ensures Multiplier(got) == Multiplier(held)
  {
    var k := got[0].Slot();
    assert k in SlotMap(got);
    assert k in SlotMap(Mirror(held, 1));
    var i :| 0 <= i < |held| && Mirror(held, 1)[i].Slot() == k;
  }

  /** What closing some units does to the carry and the reserve of a position. */
  lemma ClosedCarry(p: Pos, price: real, units: nat)
    requires units <= p.qty
    ensures Carry()(AfterClose(p, price, units)) == Carry()(p) - Dollars(price, units, p.Mult())
    ensures units == p.qty ==> Carry()(AfterClose(p, price, units)) == -AfterClose(p, price, units).realized
  {
    hide Dollars;
    DollarsMinus(price, p.entry, units, p.Mult());
    DollarsPart(p.entry, p.qty, units, p.Mult());
    DollarsPart(p.entry, p.qty, p.qty, p.Mult());
  }

  lemma ClosedIsSound(m: Snapshot, reserved: map<nat, real>, p: Pos, price: real, units: nat)
    requires Sound(m, reserved, p) && units < p.qty
    ensures Sound(m, Release(reserved, p.id, units, p.qty), AfterClose(p, price, units))
  {
    hide MarkValue, WellFormed, Dollars;
    if Secured(p) {
      ReserveShrinks(p.maxLoss.value.v, p.qty, units, p.Mult());
    }
  }

  /** Releasing a share of the reserve leaves exactly the remaining units' share. */
  lemma ReserveShrinks(loss: real, total: nat, units: nat, mult: real)
    requires total >= 1 && units <= total
    ensures Dollars(loss, total, mult) * (1.0 - (units as real) / (total as real)) == Dollars(loss, total - units, mult)
  {
    var q, u := total as real, units as real;
    var f := 1.0 - u / q;
    assert q * (u / q) == u;
    assert q * f == q - u;
    assert loss * q * mult * f == loss * (q * f) * mult;
  }

  lemma CloseUnitsKeepsStake(l: Ledger, i: nat, units: nat, price: real, premium: real, commission: real)
    requires i < |l.book| && 1 <= units <= l.book[i].qty
    requires Dollars(price, units, l.book[i].Mult()) == premium
    ensures Stake(CloseUnits(l, i, units, price, premium - commission, commission)) == Stake(l)
  {
    hide Carry, AfterClose, Release, Dollars;
    var p := l.book[i];
    var left := AfterClose(p, price, units);
    ClosedCarry(p, price, units);
    AfterCloseKeepsName(p, price, units);
    if left.qty == 0 {
      SumRemove(Carry(), l.book, i);
    } else {
      SumUpdate(Carry(), l.book, i, left);
    }
  }

  lemma CloseUnitsKeepsInv(l: Ledger, i: nat, units: nat, price: real, cashFlow: real, commission: real)
    requires Inv(l) && i < |l.book| && 1 <= units <= l.book[i].qty
    ensures Inv(CloseUnits(l, i, units, price, cashFlow, commission))
  {
    hide Sound, AfterClose, Release;
    var p := l.book[i];
    var left := AfterClose(p, price, units);
    AfterCloseKeepsName(p, price, units);
    var r := CloseUnits(l, i, units, price, cashFlow, commission);
    if left.qty == 0 {
      ReleaseAll(l.reserved, p.id, p.qty);
      RemovalKeepsInv(l, i, r);
    } else {
      ClosedIsSound(l.market, l.reserved, p, price, units);
      ReleaseSome(l.reserved, p.id, units, p.qty);
      ReplacementKeepsInv(l, i, left, r);
    }
  }

  lemma CloseKeeps(l: Ledger, o: Order, premium: real, commission: real)
    requires Inv(l) && WellFormed(o.legs)
    ensures var r := PlaceClose(l, o, premium, commission).0;
            Inv(r) && Stake(r) == Stake(l)
  {
    hide Sound, UnitsOf, Mirrors, Dollars, CloseUnits, UnitPrice, Stake;
    var (r, outcome) := PlaceClose(l, o, premium, commission);
    if outcome.Filled? {
      var i := IndexOf(l.book, o.positionId.value);
      var p := l.book[i];
      var units := UnitsOf(o.legs);
      SoundParts(l.market, l.reserved, p);
      UnitsPositive(o.legs);
      MirrorsShareMultiplier(o.legs, p.legs, units);
      UnitPriceTimes(premium, units, p.Mult());
      CloseUnitsKeepsStake(l, i, units, outcome.price, premium, commission);
      CloseUnitsKeepsInv(l, i, units, outcome.price, premium - commission, commission);
    }
  }

  lemma SoundParts(m: Snapshot, reserved: map<nat, real>, p: Pos)
    requires Sound(m, reserved, p)
    ensures p.qty >= 1 && WellFormed(p.legs)
  {
  }

  lemma ReleaseAll(reserved: map<nat, real>, id: nat, total: nat)
    requires total >= 1
    ensures Release(reserved, id, total, total) == reserved - {id}
  {
  }

  lemma ReleaseSome(reserved: map<nat, real>, id: nat, units: nat, total: nat)
    requires units < total
    ensures Release(reserved, id, units, total).Keys == reserved.Keys
    ensures forall k :: k in reserved && k != id ==> Release(reserved, id, units, total)[k] == reserved[k]
  {
  }

  lemma PlaceKeeps(c: Setup, l: Ledger, o: Order)
    requires Inv(l) && WellFormed(o.legs)
    ensures Inv(Place(c, l, o).0) && Stake(Place(c, l, o).0) == Stake(l)
  {
    hide Sound, WellFormed, PlaceOpen, PlaceClose, AllQuotable, Premium, Commission;
    var numbered := l.(orders := l.orders + 1);
    assert Inv(numbered);
    if l.today.Some? && AllQuotable(l.market, c.model, o.legs) {
      var premium := Premium(l.market, c.model, o.legs);
      var commission := Commission(l.market, c.model, o.legs);
      if o.intent.Open? {
        OpenKeeps(numbered, o, premium, commission);
      } else {
        CloseKeeps(numbered, o, premium, commission);
      }
    }
  }

  lemma ForceKeeps(c: Setup, l: Ledger, id: nat, v: real)
    requires Inv(l)
    ensures Inv(ForceClose(c, l, id, v)) && Stake(ForceClose(c, l, id, v)) == Stake(l)
  {
    hide Sound, Dollars, CountOptions, Carry;
    var i := IndexOf(l.book, id);
    if i < |l.book| {
      FullCarry(l.book[i], v);
      SumRemove(Carry(), l.book, i);
      RemovalKeepsInv(l, i, ForceClose(c, l, id, v));
    }
  }

  lemma FlagKeeps(l: Ledger, id: nat)
    requires Inv(l)
    ensures Inv(FlagDone(l, id)) && Stake(FlagDone(l, id)) == Stake(l)
  {
    hide Sound, Dollars;
    var i := IndexOf(l.book, id);
    if i < |l.book| {
      var q := l.book[i].(tp1Done := true);
      FlaggedIsSound(l.market, l.reserved, l.book[i]);
      SumUpdate(Carry(), l.book, i, q);
      ReplacementKeepsInv(l, i, q, FlagDone(l, id));
    }
  }

  lemma FlaggedIsSound(m: Snapshot, reserved: map<nat, real>, p: Pos)
    requires Sound(m, reserved, p)
    ensures Sound(m, reserved, p.(tp1Done := true))
  {
    hide MarkValue, WellFormed, Dollars;
  }

  lemma StepKeeps(c: Setup, l: Ledger, e: Event)
    requires Inv(l) && (e.Submit? ==> WellFormed(e.order.legs))
    ensures Inv(Step(c, l, e)) && Stake(Step(c, l, e)) == Stake(l)
  {
    hide Sound, Place, UpdateMarket, ForceClose, FlagDone, WellFormed;
    match e
    case Advance(chains, today, equityQuotes, fillQuotes) => AdvanceKeeps(l, chains, today, equityQuotes, fillQuotes);
    case Submit(order) => PlaceKeeps(c, l, order);
    case Force(id, value) => ForceKeeps(c, l, id, value);
    case DrainPartials =>
    case FlagTp1(id) => FlagKeeps(l, id);
  }

  // ---- main results --------------------------------------------------------

  /** Every reachable state satisfies the invariant. */
  lemma {:induction false} Reachable(c: Setup, start: real, es: seq<Event>)
    requires WellFormedEvents(es)
    ensures Inv(Run(c, Opening(start), es))
    ensures Stake(Run(c, Opening(start), es)) == start
  {
    if es != [] {
      var n := |es| - 1;
      Reachable(c, start, es[..n]);
      StepKeeps(c, Run(c, Opening(start), es[..n]), es[n]);
    }
  }

  lemma {:induction false} CarrySplits(book: seq<Pos>)
    ensures Sum(Carry(), book) == Sum(Basis(), book) - Sum(Realized(), book)
  {
    if book != [] {
      CarrySplits(book[..|book| - 1]);
    }
  }

  /** Ledger conservation: over any run, cash is the starting cash, plus the
      realised P&L of every position ever opened, minus the basis of the open
      ones, minus the commissions that were not charged by a synthetic close. */
  lemma Conservation(c: Setup, start: real, es: seq<Event>)
    requires WellFormedEvents(es)
    ensures var l := Run(c, Opening(start), es);
            l.cash == start
                      + (l.retired + Sum(Realized(), l.book))
                      - Sum(Basis(), l.book)
                      - (l.commissions - l.forced)
  {
    Reachable(c, start, es);
    CarrySplits(Run(c, Opening(start), es).book);
  }
}
