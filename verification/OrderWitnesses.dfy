// Runs of the broker from a fresh account that show where its guarantees end
// (src/catalyst/brokers/simulated.py:151-225, 342-372, 402-431). All of them trade two
// calls on one underlying, quoted at 1.0 without a spread, with a frictionless model.
module OrderWitnesses {
  import opened Common
  import opened Instruments
  import opened Ratios
  import opened Costs
  import opened Market
  import opened LedgerModel
  import opened LedgerInvariant
  import opened OrderProperties

  const NEAR := OptionKey("X", 10, Call, 5.0)
  const FAR := OptionKey("X", 20, Call, 5.0)

  const FREE := Setup(ZeroCost, 0.0)

  const CALLS := [Contract(NEAR, Fin(1.0), Fin(1.0)), Contract(FAR, Fin(1.0), Fin(1.0))]

  const BEFORE := map["X" := Chain(Fin(5.0), CALLS)]
  const AFTER := map["X" := Chain(Fin(30.0), CALLS)]

  const DAY_THREE := Advance(BEFORE, 3, None, None)
  const DAY_ELEVEN := Advance(AFTER, 11, None, None)

  function OpenOrder(legs: seq<Leg>, maxLoss: real): Order {
    Order(legs, Open, None, Some(Fin(maxLoss)), "e")
  }

  function CloseOrder(legs: seq<Leg>): Order {
    Order(legs, Close, Some(1), None, "e")
  }

  // ---- prices --------------------------------------------------------------

  function SignedOf(): Leg -> real {
    (leg: Leg) => leg.Signed()
  }

  ghost predicate AtOne(legs: seq<Leg>) {
    forall i :: 0 <= i < |legs| ==> legs[i].key == NEAR || legs[i].key == FAR
  }

  ghost predicate Quoted(m: Snapshot) {
    m == Snapshot(BEFORE, map[], None) || m == Snapshot(AFTER, map[], None)
  }

  lemma LegAtOne(m: Snapshot, leg: Leg)
    requires Quoted(m) && (leg.key == NEAR || leg.key == FAR)
    ensures FillOf(m, ZeroCost, leg) == Some(Fill(1.0, 0.0)) && LegMid(m, leg.key) == Some(1.0)
  {
    assert CALLS[1..] == [CALLS[1]];
    assert Find(CALLS[1..], FAR) == Some(CALLS[1]);
    assert Find(CALLS, leg.key) == Some(if leg.key == NEAR then CALLS[0] else CALLS[1]);
  }

  lemma TermsAtOne(m: Snapshot, leg: Leg)
    requires Quoted(m) && (leg.key == NEAR || leg.key == FAR)
    ensures FillOf(m, ZeroCost, leg).Some? && LegMid(m, leg.key).Some?
    ensures PremiumTerm(m, ZeroCost)(leg) == -100.0 * SignedOf()(leg)
    ensures CommissionTerm(m, ZeroCost)(leg) == 0.0 && DistanceTerm(m, ZeroCost)(leg) == 0.0
    ensures MarkTerm(m)(leg) == SignedOf()(leg)
  {
    LegAtOne(m, leg);
    hide FillOf, LegMid;
  }

  /** At these quotes every sum over legs is a multiple of the signed contracts. */
  lemma {:induction false} SumsAtOne(m: Snapshot, legs: seq<Leg>)
    requires Quoted(m) && AtOne(legs)
    ensures AllQuotable(m, ZeroCost, legs) && AllMarkable(m, legs)
    ensures Premium(m, ZeroCost, legs) == -100.0 * Sum(SignedOf(), legs)
    ensures Commission(m, ZeroCost, legs) == 0.0 && Distance(m, ZeroCost, legs) == 0.0
    ensures Sum(MarkTerm(m), legs) == Sum(SignedOf(), legs)
  {
    if legs != [] {
      hide FillOf, LegMid, PremiumTerm, CommissionTerm, DistanceTerm, MarkTerm, SignedOf;
      var n := |legs| - 1;
      SumsAtOne(m, legs[..n]);
      TermsAtOne(m, legs[n]);
    }
  }

  lemma SumTwo(f: Leg -> real, a: Leg, b: Leg)
    ensures Sum(f, [a, b]) == f(a) + f(b)
  {
    assert [a, b] == [a] + [b];
    SumOne(f, a);
    SumOne(f, b);
    SumAppend(f, [a], [b]);
  }

  // ---- the first day -------------------------------------------------------

  lemma RunMore(l: Ledger, es: seq<Event>, e: Event)
    requires WellFormedEvents(es) && (e.Submit? ==> WellFormed(e.order.legs))
    ensures WellFormedEvents(es + [e])
    ensures Run(FREE, l, es + [e]) == Step(FREE, Run(FREE, l, es), e)
  {
    assert (es + [e])[..|es|] == es;
    hide Step, WellFormed;
  }

  lemma FirstDay(cash: real)
    ensures var l := Step(FREE, Opening(cash), DAY_THREE);
            && l.cash == cash && l.book == [] && l.reserved == map[] && l.orders == 0
            && l.market == Snapshot(BEFORE, map[], None) && l.today == Some(3)
            && ("X" in l.spots ==> 10 !in l.spots["X"])
  {
    hide SettleOne;
  }

  /** One structure opened on the first day, and nothing else in the account. */
  ghost predicate Holding(l: Ledger, legs: seq<Leg>, cash: real, reserved: map<nat, real>, worth: real) {
    && l.cash == cash && l.reserved == reserved && l.orders == 1 && l.today == Some(3)
    && l.market == Snapshot(BEFORE, map[], None)
    && ("X" in l.spots ==> 10 !in l.spots["X"])
    && |l.book| == 1
    && l.book[0].id == 1 && l.book[0].legs == legs && l.book[0].qty == 1 && l.book[0].value == worth
    && l.book[0].Mult() == 100.0
  }

  function OpenedOnce(legs: seq<Leg>, maxLoss: real): seq<Event> {
    [DAY_THREE, Submit(OpenOrder(legs, maxLoss))]
  }

  lemma OpensOnFirstDay(legs: seq<Leg>, maxLoss: real, reserve: real)
    requires WellFormed(legs) && AtOne(legs) && UnitsOf(legs) == 1
    requires maxLoss >= 0.0
    requires reserve == if Sum(SignedOf(), legs) < 0.0 then 100.0 * maxLoss else 0.0
    requires 1000.0 - 100.0 * Sum(SignedOf(), legs) - reserve >= 0.0
    ensures WellFormedEvents(OpenedOnce(legs, maxLoss))
    ensures Holding(Run(FREE, Opening(1000.0), OpenedOnce(legs, maxLoss)), legs,
                    1000.0 - 100.0 * Sum(SignedOf(), legs),
                    if reserve > 0.0 then map[1 := reserve] else map[],
                    Sum(SignedOf(), legs))
  {
    hide Holding, WellFormed, AtOne, UnitsOf, Sum, Place, UpdateMarket;
    var e := Submit(OpenOrder(legs, maxLoss));
    FirstDay(1000.0);
    var l := Step(FREE, Opening(1000.0), DAY_THREE);
    RunMore(Opening(1000.0), [], DAY_THREE);
    RunMore(Opening(1000.0), [DAY_THREE], e);
    assert [] + [DAY_THREE] == [DAY_THREE] && [DAY_THREE] + [e] == OpenedOnce(legs, maxLoss);
    assert Run(FREE, Opening(1000.0), OpenedOnce(legs, maxLoss)) == Place(FREE, l, OpenOrder(legs, maxLoss)).0;
    OpensAtOne(l, legs, maxLoss, reserve);
  }

  lemma OpensAtOne(l: Ledger, legs: seq<Leg>, maxLoss: real, reserve: real)
    requires l.cash == 1000.0 && l.book == [] && l.reserved == map[] && l.orders == 0
    requires l.market == Snapshot(BEFORE, map[], None) && l.today == Some(3)
    requires "X" in l.spots ==> 10 !in l.spots["X"]
    requires WellFormed(legs) && AtOne(legs) && UnitsOf(legs) == 1
    requires maxLoss >= 0.0
    requires reserve == if Sum(SignedOf(), legs) < 0.0 then 100.0 * maxLoss else 0.0
    requires 1000.0 - 100.0 * Sum(SignedOf(), legs) - reserve >= 0.0
    ensures Holding(Place(FREE, l, OpenOrder(legs, maxLoss)).0, legs,
                    1000.0 - 100.0 * Sum(SignedOf(), legs),
                    if reserve > 0.0 then map[1 := reserve] else map[],
                    Sum(SignedOf(), legs))
  {
    hide FillOf, LegMid, WellFormed, UnitsOf, AtOne, Sum, AllQuotable, AllMarkable, UnitPrice, Premium, Commission;
    SumsAtOne(l.market, legs);
    OneUnit(legs);
    assert l.reserved[1 := reserve] == map[1 := reserve];
  }

  lemma OneUnit(legs: seq<Leg>)
    requires WellFormed(legs) && UnitsOf(legs) == 1
    ensures Reduced(legs, 1) == legs
    ensures AtOne(legs) ==> Multiplier(legs) == 100.0
  {
    hide UnitsOf;
    assert forall i :: 0 <= i < |legs| ==> Reduced(legs, 1)[i] == legs[i];
  }

  // ---- repeated legs -------------------------------------------------------

  const SHORT := Leg(NEAR, Sell, 1)
  const LONG := Leg(NEAR, Buy, 1)

  lemma TwoOfOne(leg: Leg)
    requires leg == SHORT || leg == LONG
    ensures WellFormed([leg, leg]) && WellFormed([leg]) && AtOne([leg, leg]) && AtOne([leg])
    ensures UnitsOf([leg, leg]) == 1 == UnitsOf([leg])
    ensures Collapse([leg, leg]) == [leg] == Dropped([leg, leg])
    ensures Collapse([leg]) == [leg] && Dropped([leg]) == []
    ensures Sum(SignedOf(), [leg, leg]) == 2.0 * leg.Signed() && Sum(SignedOf(), [leg]) == leg.Signed()
  {
    SumTwo(SignedOf(), leg, leg);
    SumOne(SignedOf(), leg);
    assert [leg, leg][..1] == [leg] && [leg][..0] == [] && [leg, leg][1..] == [leg] && [leg][1..] == [];
    assert leg.Slot() in SlotMap([leg]);
    DroppedIff([leg]);
    assert [leg, leg][0].Slot() in SlotMap([leg, leg][1..]);
    assert Gcd(1, 1) == 1 && Gcd(0, 1) == 1;
  }

  /** A filled close in a run of this kind moves equity by its windfall alone. */
  lemma FreeClose(l: Ledger, legs: seq<Leg>, held: seq<Leg>, cash: real, reserved: map<nat, real>, worth: real)
    requires Inv(l) && Holding(l, held, cash, reserved, worth)
    requires WellFormed(legs) && AtOne(legs) && UnitsOf(legs) == 1
    requires multiset(Collapse(legs)) == multiset(Mirror(Collapse(held), 1))
    ensures var r := Place(FREE, l, CloseOrder(legs));
            && r.1.Filled?
            && Equity(r.0) == Equity(l) + Windfall(l.market, legs, held, 1)
  {
    hide WellFormed, AtOne, UnitsOf, Collapse, Mirror, Inv, Place, Equity, Windfall, AllQuotable, Distance, Commission;
    SumsAtOne(l.market, legs);
    AnyCloseFillsIff(FREE, l, CloseOrder(legs), 1);
    FirstHeld(l, held, cash, reserved, worth);
    CloseMovesEquity(FREE, l, CloseOrder(legs));
    ClosesTheOne(FREE, l, CloseOrder(legs));
  }

  lemma FirstHeld(l: Ledger, held: seq<Leg>, cash: real, reserved: map<nat, real>, worth: real)
    requires Holding(l, held, cash, reserved, worth)
    ensures IndexOf(l.book, 1) == 0
  {
  }

  lemma ClosesTheOne(c: Setup, l: Ledger, o: Order)
    requires WellFormed(o.legs) && o.intent.Close? && Place(c, l, o).1.Filled?
    ensures o.positionId == Some(Place(c, l, o).1.id)
  {
    hide UnitsOf, Mirrors, WellFormed, AllQuotable, Premium, Commission, UnitPrice, CloseUnits;
    UnitsPositive(o.legs);
  }

  /** Held legs may repeat: short the same call twice, buy one of them back, and both are
      gone. Equity rises by the price of the other. */
  lemma RepeatedHeldLegCreatesMoney()
    ensures var es := OpenedOnce([SHORT, SHORT], 0.0);
            && WellFormedEvents(es) && WellFormed([LONG]) && DistinctSlots([LONG])
            && var l := Run(FREE, Opening(1000.0), es);
            var r := Place(FREE, l, CloseOrder([LONG]));
            r.1.Filled? && Equity(r.0) == Equity(l) + 100.0
  {
    hide WellFormed, AtOne, UnitsOf, Collapse, Dropped, Run, Place, Inv, Equity, Sum;
    TwoOfOne(SHORT);
    TwoOfOne(LONG);
    OpensOnFirstDay([SHORT, SHORT], 0.0, 0.0);
    Reachable(FREE, 1000.0, OpenedOnce([SHORT, SHORT], 0.0));
    var l := Run(FREE, Opening(1000.0), OpenedOnce([SHORT, SHORT], 0.0));
    assert Mirror([SHORT], 1) == [LONG];
    FreeClose(l, [LONG], [SHORT, SHORT], 1200.0, map[], -2.0);
    NoSum();
    WindfallAtOne(l.market, [LONG], [SHORT, SHORT]);
  }

  /** Order legs may repeat: hold one call, sell it twice in one order, and the second sale
      is free cash. */
  lemma RepeatedOrderLegCreatesMoney()
    ensures var es := OpenedOnce([LONG], 0.0);
            && WellFormedEvents(es) && DistinctOpens(es) && WellFormed([SHORT, SHORT])
            && var l := Run(FREE, Opening(1000.0), es);
            var r := Place(FREE, l, CloseOrder([SHORT, SHORT]));
            r.1.Filled? && Equity(r.0) == Equity(l) + 100.0
  {
    hide WellFormed, AtOne, UnitsOf, Collapse, Dropped, Run, Place, Inv, Equity, Sum;
    TwoOfOne(SHORT);
    TwoOfOne(LONG);
    OpensOnFirstDay([LONG], 0.0, 0.0);
    Reachable(FREE, 1000.0, OpenedOnce([LONG], 0.0));
    var l := Run(FREE, Opening(1000.0), OpenedOnce([LONG], 0.0));
    assert Mirror([LONG], 1) == [SHORT];
    FreeClose(l, [SHORT, SHORT], [LONG], 900.0, map[], 1.0);
    NoSum();
    WindfallAtOne(l.market, [SHORT, SHORT], [LONG]);
  }

  lemma WindfallAtOne(m: Snapshot, legs: seq<Leg>, held: seq<Leg>)
    requires Quoted(m) && AtOne(legs) && AtOne(Dropped(legs)) && AtOne(Dropped(held))
    ensures Windfall(m, legs, held, 1) == -100.0 * (Sum(SignedOf(), Dropped(legs)) + Sum(SignedOf(), Dropped(held)))
  {
    assert Multiplier(legs) == 100.0;
    hide Dropped, AtOne, Sum, MarkTerm, Multiplier, AllQuotable, AllMarkable, Premium, Commission, Market.Distance;
    SumsAtOne(m, Dropped(legs));
    SumsAtOne(m, Dropped(held));
    assert Windfall(m, legs, held, 1) ==
           -100.0 * (Sum(MarkTerm(m), Dropped(legs)) + 1.0 * Sum(MarkTerm(m), Dropped(held)));
  }

  lemma NoSum()
    ensures Sum(SignedOf(), []) == 0.0 && AtOne([])
  {
  }

  // ---- partial expiry ------------------------------------------------------

  const TWO_FAR := Leg(FAR, Buy, 2)

  lemma Diagonal()
    ensures WellFormed([LONG, TWO_FAR]) && AtOne([LONG, TWO_FAR]) && UnitsOf([LONG, TWO_FAR]) == 1
    ensures DistinctSlots([LONG, TWO_FAR])
    ensures Sum(SignedOf(), [LONG, TWO_FAR]) == 3.0
    ensures UnitsOf([TWO_FAR]) == 2
  {
    SumTwo(SignedOf(), LONG, TWO_FAR);
    assert [LONG, TWO_FAR][..1] == [LONG] && [LONG][..0] == [] && [TWO_FAR][..0] == [];
    assert Gcd(1, 2) == 1 && Gcd(0, 2) == 2;
  }

  /** What the eleventh day does to a lone position. */
  lemma EleventhDay(l: Ledger, legs: seq<Leg>, cash: real, reserved: map<nat, real>, worth: real)
    requires Holding(l, legs, cash, reserved, worth)
    ensures var r := Step(FREE, l, DAY_ELEVEN);
            var refreshed := Refresh(l, AFTER, 11, None, None);
            && refreshed.market == Snapshot(AFTER, map[], None)
            && ("X" in refreshed.spots ==> 10 !in refreshed.spots["X"])
            && refreshed.cash == l.cash && refreshed.reserved == l.reserved && refreshed.orders == 1
            && |refreshed.book| == 1 && refreshed.book[0] == Mark(refreshed.market, l.book[0])
            && refreshed.today == Some(11)
            && r == SettleOne(refreshed.(book := []), refreshed.book[0], 11)
  {
    hide SettleOne, Mark;
    var refreshed := Refresh(l, AFTER, 11, None, None);
    assert refreshed.book[..0] == [];
    assert SettleAll(refreshed.(book := []), refreshed.book[..0], 11) == refreshed.(book := []);
  }

  /** The near call settles at 25, whatever else the position holds. */
  lemma NearSettles(m: Snapshot, spots: SpotBook, leg: Leg)
    requires m == Snapshot(AFTER, map[], None) && ("X" in spots ==> 10 !in spots["X"])
    requires leg.key == NEAR
    ensures IntrinsicValue(m, spots, [leg]) == Some(25.0 * leg.Signed())
  {
    assert LegIntrinsic(m, spots, leg) == Some(25.0 * leg.Signed());
    SumOne(IntrinsicTerm(m, spots), leg);
  }

  lemma DiagonalExpires()
    ensures ExpiredLegs([LONG, TWO_FAR], 11) == [LONG] && LiveLegs([LONG, TWO_FAR], 11) == [TWO_FAR]
    ensures ExpiredLegs([SHORT], 11) == [SHORT]
  {
    assert [LONG, TWO_FAR][..1] == [LONG] && [LONG][..0] == [] && [SHORT][..0] == [];
  }

  /** A position that no order can close: one near call against two far ones is one unit
      at ratios 1 and 2. When the near call expires the far ratio of 2 stays, the mirror
      order counts as two units, and every close without repeated legs is refused. Only a
      synthetic close or expiry gets rid of it. */
  lemma PartialExpiryStrands()
    ensures var es := OpenedOnce([LONG, TWO_FAR], 0.0) + [DAY_ELEVEN];
            && WellFormedEvents(es) && DistinctOpens(es)
            && var l := Run(FREE, Opening(1000.0), es);
            && |l.book| == 1 && l.book[0].qty == 1 && l.book[0].legs == [TWO_FAR]
            && forall o: Order :: WellFormed(o.legs) && DistinctSlots(o.legs) && o.intent.Close? ==>
                                    Place(FREE, l, o).1.Rejected?
  {
    hide WellFormed, UnitsOf, AtOne, Sum, Run, Place, Inv, DistinctSlots, Step, Holding;
    var legs := [LONG, TWO_FAR];
    Diagonal();
    OpensOnFirstDay(legs, 0.0, 0.0);
    var held := Run(FREE, Opening(1000.0), OpenedOnce(legs, 0.0));
    RunMore(Opening(1000.0), OpenedOnce(legs, 0.0), DAY_ELEVEN);
    NearLegSettles(held);
    var es := OpenedOnce(legs, 0.0) + [DAY_ELEVEN];
    Reachable(FREE, 1000.0, es);
    RunDistinct(FREE, 1000.0, es);
    NoCloseFills(Run(FREE, Opening(1000.0), es));
  }

  lemma NearLegSettles(l: Ledger)
    requires Holding(l, [LONG, TWO_FAR], 700.0, map[], 3.0)
    ensures var r := Step(FREE, l, DAY_ELEVEN);
            |r.book| == 1 && r.book[0].qty == 1 && r.book[0].legs == [TWO_FAR]
  {
    EleventhDay(l, [LONG, TWO_FAR], 700.0, map[], 3.0);
    var refreshed := Refresh(l, AFTER, 11, None, None);
    MarkKeepsShape(refreshed.market, l.book[0]);
    hide Refresh, Step, SettleOne, Mark;
    DiagonalPaysOut(refreshed.(book := []), refreshed.book[0]);
  }

  lemma DiagonalPaysOut(l: Ledger, p: Pos)
    requires l.book == [] && l.market == Snapshot(AFTER, map[], None) && ("X" in l.spots ==> 10 !in l.spots["X"])
    requires p.legs == [LONG, TWO_FAR] && p.qty == 1
    ensures var r := SettleOne(l, p, 11);
            |r.book| == 1 && r.book[0].qty == 1 && r.book[0].legs == [TWO_FAR]
  {
    DiagonalExpires();
    NearSettles(l.market, l.spots, LONG);
    hide ExpiredLegs, LiveLegs, IntrinsicValue, MarkValue, Dollars;
  }

  lemma NoCloseFills(l: Ledger)
    requires Inv(l) && |l.book| == 1 && DistinctBook(l.book) && l.book[0].legs == [TWO_FAR]
    ensures forall o: Order :: WellFormed(o.legs) && DistinctSlots(o.legs) && o.intent.Close? ==>
                                 Place(FREE, l, o).1.Rejected?
  {
    Diagonal();
    hide WellFormed, UnitsOf, Place, Inv, DistinctSlots;
    forall o: Order | WellFormed(o.legs) && DistinctSlots(o.legs) && o.intent.Close?
      ensures Place(FREE, l, o).1.Rejected?
    {
      if Place(FREE, l, o).1.Filled? {
        CloseFillsIff(FREE, l, o, Place(FREE, l, o).1.units);
      }
    }
  }

  // ---- a negative declared loss --------------------------------------------

  const FAR_SHORT := Leg(FAR, Sell, 1)

  /** The one way an accepted open can leave buying power below zero. A short call settles
      far in the money and takes the account to -1400. The next short call declares a loss
      of -20 a unit: the guard counts that as 2000 dollars, nothing is reserved, and the
      order fills. */
  lemma NegativeLossSlipsThrough()
    ensures var es := OpenedOnce([SHORT], 5.0) + [DAY_ELEVEN];
            && WellFormedEvents(es) && WellFormed([FAR_SHORT])
            && var l := Run(FREE, Opening(1000.0), es);
            var r := Place(FREE, l, OpenOrder([FAR_SHORT], -20.0));
            && BuyingPower(l) == -1400.0
            && r.1.Filled?
            && BuyingPower(r.0) == -1300.0
  {
    hide WellFormed, UnitsOf, AtOne, Sum, Run, ExpiredLegs, LiveLegs, IntrinsicValue, RememberSpots;
    TwoOfOne(SHORT);
    OpensOnFirstDay([SHORT], 5.0, 500.0);
    var held := Run(FREE, Opening(1000.0), OpenedOnce([SHORT], 5.0));
    RunMore(Opening(1000.0), OpenedOnce([SHORT], 5.0), DAY_ELEVEN);
    NearCallSettles(held);
    var l := Run(FREE, Opening(1000.0), OpenedOnce([SHORT], 5.0) + [DAY_ELEVEN]);
    hide Step, Holding;
    FarShortFills(l);
  }

  lemma NearCallSettles(l: Ledger)
    requires Holding(l, [SHORT], 1100.0, map[1 := 500.0], -1.0)
    ensures var r := Step(FREE, l, DAY_ELEVEN);
            r.cash == -1400.0 && r.reserved == map[] && r.today.Some? && Quoted(r.market)
  {
    EleventhDay(l, [SHORT], 1100.0, map[1 := 500.0], -1.0);
    var refreshed := Refresh(l, AFTER, 11, None, None);
    MarkKeepsShape(refreshed.market, l.book[0]);
    hide Refresh, Step, SettleOne, Mark;
    ShortPaysOut(refreshed.(book := []), refreshed.book[0]);
  }

  lemma MarkKeepsShape(m: Snapshot, p: Pos)
    ensures var q := Mark(m, p);
            q.id == p.id && q.legs == p.legs && q.qty == p.qty && q.Mult() == p.Mult()
  {
    hide MarkValue;
  }

  lemma ShortPaysOut(l: Ledger, p: Pos)
    requires l.cash == 1100.0 && l.reserved == map[1 := 500.0] && l.market == Snapshot(AFTER, map[], None)
    requires "X" in l.spots ==> 10 !in l.spots["X"]
    requires p.id == 1 && p.legs == [SHORT] && p.qty == 1 && p.Mult() == 100.0
    ensures var r := SettleOne(l, p, 11);
            r.cash == -1400.0 && r.reserved == map[] && r.today == l.today && r.market == l.market
  {
    ShortIsFull(l.market, l.spots, p);
    hide SettlementOf, Multiplier;
    assert l.reserved - {1} == map[];
    assert p.Worth(-25.0) == -2500.0;
  }

  lemma ShortIsFull(m: Snapshot, spots: SpotBook, p: Pos)
    requires m == Snapshot(AFTER, map[], None) && ("X" in spots ==> 10 !in spots["X"]) && p.legs == [SHORT]
    ensures SettlementOf(m, spots, 11, p) == Full(-25.0)
  {
    DiagonalExpires();
    NearSettles(m, spots, SHORT);
    hide ExpiredLegs, IntrinsicValue;
  }

  lemma FarShortFills(l: Ledger)
    requires l.cash == -1400.0 && l.reserved == map[] && l.today.Some? && Quoted(l.market)
    ensures WellFormed([FAR_SHORT])
    ensures BuyingPower(l) == -1400.0
    ensures var r := Place(FREE, l, OpenOrder([FAR_SHORT], -20.0));
            r.1.Filled? && BuyingPower(r.0) == -1300.0
  {
    hide FillOf, LegMid, UnitPrice, AllQuotable, AllMarkable, Premium, Commission, Opened;
    SumsAtOne(l.market, [FAR_SHORT]);
    SumOne(SignedOf(), FAR_SHORT);
  }

  // ---- shares --------------------------------------------------------------

  const SHARE := Leg(EquityKey("X"), Buy, 1)

  const TWO_BOOKS :=
    Advance(map[], 3, Some(map["X" := Quote(Fin(5.0), Fin(5.0))]), Some(map["X" := Quote(Fin(1.0), Fin(1.0))]))

  /** Shares need their condition: bought at 1 from the fill book and marked at 5 from the
      other, one share raises equity by 4. */
  lemma UnfairMarksCreateMoney()
    ensures WellFormedEvents([TWO_BOOKS]) && WellFormed([SHARE]) && DistinctSlots([SHARE])
    ensures var l := Run(FREE, Opening(1000.0), [TWO_BOOKS]);
            var r := Place(FREE, l, OpenOrder([SHARE], 0.0));
            && !AllFairlyMarked(l.market, [SHARE])
            && r.1.Filled? && Equity(r.0) == Equity(l) + 4.0
  {
    var start := Opening(1000.0);
    RunMore(start, [], TWO_BOOKS);
    assert [] + [TWO_BOOKS] == [TWO_BOOKS];
    var l := Run(FREE, start, [TWO_BOOKS]);
    var o := OpenOrder([SHARE], 0.0);
    assert l == Step(FREE, start, TWO_BOOKS);
    FirstBooks(start);
    ShareFills(l.market);
    assert UnitsOf([SHARE]) == 1;
    hide Run, Step, FillOf, LegMid, Opened, Equity, AllMarkable, AllQuotable, Premium, Commission;
    assert Place(FREE, l, o).1.Filled?;
    OpenCostsItsFriction(FREE, l, o);
  }

  lemma FirstBooks(l: Ledger)
    requires l == Opening(1000.0)
    ensures var r := Step(FREE, l, TWO_BOOKS);
            && r.market == Snapshot(map[], TWO_BOOKS.equityQuotes.value, TWO_BOOKS.fillQuotes)
            && r.cash == 1000.0 && r.book == [] && r.reserved == map[] && r.today == Some(3)
  {
    hide SettleOne;
  }

  lemma ShareFills(m: Snapshot)
    requires m == Snapshot(map[], TWO_BOOKS.equityQuotes.value, TWO_BOOKS.fillQuotes)
    ensures AllQuotable(m, ZeroCost, [SHARE]) && AllMarkable(m, [SHARE]) && !AllFairlyMarked(m, [SHARE])
    ensures Premium(m, ZeroCost, [SHARE]) == -1.0 && Commission(m, ZeroCost, [SHARE]) == 0.0
    ensures Distance(m, ZeroCost, [SHARE]) == -4.0
  {
    assert FillOf(m, ZeroCost, SHARE) == Some(Fill(1.0, 0.0)) && LegMid(m, SHARE.key) == Some(5.0);
    assert !FairlyMarked(m, [SHARE][0].key);
    SumOne(PremiumTerm(m, ZeroCost), SHARE);
    SumOne(CommissionTerm(m, ZeroCost), SHARE);
    SumOne(DistanceTerm(m, ZeroCost), SHARE);
  }
}
