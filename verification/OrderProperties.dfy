// What an accepted order can and cannot do to the account
// (src/catalyst/brokers/simulated.py:315-431).
module OrderProperties {
  import opened Common
  import opened Instruments
  import opened Ratios
  import opened Costs
  import opened Market
  import opened LedgerModel
  import opened LedgerInvariant

  // ---- close matching ------------------------------------------------------

  lemma {:induction false} SlotMapAt(legs: seq<Leg>, i: nat)
    requires DistinctSlots(legs) && i < |legs|
    ensures legs[i].Slot() in SlotMap(legs) && SlotMap(legs)[legs[i].Slot()] == legs[i].qty
  {
    var n := |legs| - 1;
    if i < n {
      SlotMapAt(legs[..n], i);
      assert legs[i].Slot() != legs[n].Slot();
    }
  }

  lemma {:induction false} DistinctMultiplicity(legs: seq<Leg>, x: Leg)
    requires DistinctSlots(legs)
    ensures multiset(legs)[x] == if x in legs then 1 else 0
  {
    if legs != [] {
      var n := |legs| - 1;
      assert legs == legs[..n] + [legs[n]];
      DistinctMultiplicity(legs[..n], x);
      assert legs[n] !in legs[..n];
    }
  }

  lemma SameElementsSamePermutation(a: seq<Leg>, b: seq<Leg>)
    requires DistinctSlots(a) && DistinctSlots(b)
    requires forall x :: x in a <==> x in b
    ensures multiset(a) == multiset(b)
  {
    forall x: Leg
      ensures multiset(a)[x] == multiset(b)[x]
    {
      DistinctMultiplicity(a, x);
      DistinctMultiplicity(b, x);
    }
  }

  lemma MirrorDistinct(legs: seq<Leg>, u: nat)
    requires DistinctSlots(legs)
    ensures DistinctSlots(Mirror(legs, u))
  {
    forall i, j | 0 <= i < j < |legs|
      ensures Mirror(legs, u)[i].Slot() != Mirror(legs, u)[j].Slot()
    {
      assert legs[i].Slot() != legs[j].Slot();
    }
  }

  lemma SlotWitness(legs: seq<Leg>, k: (Key, Side)) returns (leg: Leg)
    requires DistinctSlots(legs) && k in SlotMap(legs)
    ensures leg in legs && leg.Slot() == k && SlotMap(legs)[k] == leg.qty
  {
    var i :| 0 <= i < |legs| && legs[i].Slot() == k;
    SlotMapAt(legs, i);
    leg := legs[i];
  }

  lemma SlotOf(legs: seq<Leg>, leg: Leg)
    requires DistinctSlots(legs) && leg in legs
    ensures leg.Slot() in SlotMap(legs) && SlotMap(legs)[leg.Slot()] == leg.qty
  {
    var i :| 0 <= i < |legs| && legs[i] == leg;
    SlotMapAt(legs, i);
  }

  lemma InMirror(held: seq<Leg>, u: nat, leg: Leg)
    ensures leg in Mirror(held, u) <==> exists j :: 0 <= j < |held| && leg == Leg(held[j].key, held[j].side.Inverse(), held[j].qty * u)
  {
    if leg in Mirror(held, u) {
      var j :| 0 <= j < |held| && Mirror(held, u)[j] == leg;
    }
    if j :| 0 <= j < |held| && leg == Leg(held[j].key, held[j].side.Inverse(), held[j].qty * u) {
      assert Mirror(held, u)[j] == leg;
    }
  }

  /** A leg of the inverted structure, at one unit and at u units. */
  lemma MirrorAtUnits(held: seq<Leg>, u: nat, leg: Leg)
    requires leg in Mirror(held, 1)
    ensures leg.(qty := leg.qty * u) in Mirror(held, u)
  {
    InMirror(held, 1, leg);
    InMirror(held, u, leg.(qty := leg.qty * u));
  }

  lemma MirrorAtOne(held: seq<Leg>, u: nat, leg: Leg) returns (one: Leg)
    requires leg in Mirror(held, u)
    ensures one in Mirror(held, 1) && leg == one.(qty := one.qty * u)
  {
    InMirror(held, u, leg);
    var j :| 0 <= j < |held| && leg == Leg(held[j].key, held[j].side.Inverse(), held[j].qty * u);
    one := Mirror(held, 1)[j];
  }

  /** For structures without repeated legs, the dictionary test accepts exactly the
      permutations of the inverted structure times the units. */
  lemma MirrorsIffPermutation(got: seq<Leg>, held: seq<Leg>, units: nat)
    requires DistinctSlots(got) && DistinctSlots(held)
    ensures Mirrors(got, held, units) <==> multiset(got) == multiset(Mirror(held, units))
  {
    if Mirrors(got, held, units) {
      MirrorsArePermutations(got, held, units);
    }
    if multiset(got) == multiset(Mirror(held, units)) {
      PermutationMirrors(got, held, units);
    }
  }

  lemma MirrorsArePermutations(got: seq<Leg>, held: seq<Leg>, units: nat)
    requires DistinctSlots(got) && DistinctSlots(held) && Mirrors(got, held, units)
    ensures multiset(got) == multiset(Mirror(held, units))
  {
    hide SlotMap;
    var one, all := Mirror(held, 1), Mirror(held, units);
    MirrorDistinct(held, 1);
    MirrorDistinct(held, units);
    forall x: Leg
      ensures x in got <==> x in all
    {
      if x in got {
        SlotOf(got, x);
        var y := SlotWitness(one, x.Slot());
        MirrorAtUnits(held, units, y);
      }
      if x in all {
        var y := MirrorAtOne(held, units, x);
        SlotOf(one, y);
        var z := SlotWitness(got, y.Slot());
      }
    }
    SameElementsSamePermutation(got, all);
  }

  lemma PermutationMirrors(got: seq<Leg>, held: seq<Leg>, units: nat)
    requires DistinctSlots(got) && DistinctSlots(held)
    requires multiset(got) == multiset(Mirror(held, units))
    ensures Mirrors(got, held, units)
  {
    hide SlotMap, Mirror;
    var one, all := Mirror(held, 1), Mirror(held, units);
    MirrorDistinct(held, 1);
    forall k: (Key, Side)
      ensures k in SlotMap(got) <==> k in SlotMap(one)
      ensures k in SlotMap(one) ==> SlotMap(got)[k] == SlotMap(one)[k] * units
    {
      if k in SlotMap(got) {
        var x := SlotWitness(got, k);
        assert x in multiset(all);
        var y := MirrorAtOne(held, units, x);
        SlotOf(one, y);
      }
      if k in SlotMap(one) {
        var y := SlotWitness(one, k);
        MirrorAtUnits(held, units, y);
        var x := y.(qty := y.qty * units);
        assert x in multiset(got);
        SlotOf(got, x);
      }
    }
  }

  // ---- repeated legs -------------------------------------------------------

  /** What the dict keeps of a list of legs: the last one of every (key, side). */
  function Collapse(legs: seq<Leg>): seq<Leg> {
    if legs == [] then []
    else if legs[0].Slot() in SlotMap(legs[1..]) then Collapse(legs[1..])
    else [legs[0]] + Collapse(legs[1..])
  }

  /** What it drops. */
  function Dropped(legs: seq<Leg>): seq<Leg> {
    if legs == [] then []
    else if legs[0].Slot() in SlotMap(legs[1..]) then [legs[0]] + Dropped(legs[1..])
    else Dropped(legs[1..])
  }

  lemma {:induction false} SlotMapOnTop(leg: Leg, rest: seq<Leg>)
    ensures SlotMap([leg] + rest) ==
            if leg.Slot() in SlotMap(rest) then SlotMap(rest) else SlotMap(rest)[leg.Slot() := leg.qty]
  {
    var legs := [leg] + rest;
    if rest != [] {
      var n := |rest| - 1;
      assert legs[..|legs| - 1] == [leg] + rest[..n];
      SlotMapOnTop(leg, rest[..n]);
    } else {
      assert legs[..0] == [];
    }
  }

  lemma CollapseOnTop(leg: Leg, rest: seq<Leg>)
    ensures Collapse([leg] + rest) ==
            if leg.Slot() in SlotMap(rest) then Collapse(rest) else [leg] + Collapse(rest)
  {
    assert ([leg] + rest)[1..] == rest;
    hide SlotMap;
  }

  lemma DistinctOnTop(leg: Leg, rest: seq<Leg>)
    ensures DistinctSlots([leg] + rest) <==> DistinctSlots(rest) && leg.Slot() !in SlotMap(rest)
  {
    var legs := [leg] + rest;
    assert forall i :: 0 <= i < |rest| ==> legs[i + 1] == rest[i];
    if DistinctSlots(rest) && leg.Slot() !in SlotMap(rest) {
      forall i, j | 0 <= i < j < |legs|
        ensures legs[i].Slot() != legs[j].Slot()
      {
        assert legs[j] == rest[j - 1];
        if i > 0 {
          assert legs[i] == rest[i - 1];
        }
      }
    }
    if DistinctSlots(legs) {
      forall i, j | 0 <= i < j < |rest|
        ensures rest[i].Slot() != rest[j].Slot()
      {
        assert legs[i + 1].Slot() != legs[j + 1].Slot();
      }
      forall j | 0 <= j < |rest|
        ensures rest[j].Slot() != leg.Slot()
      {
        assert legs[0].Slot() != legs[j + 1].Slot();
      }
    }
  }

  lemma {:induction false} CollapseKeepsSlots(legs: seq<Leg>)
    ensures SlotMap(Collapse(legs)) == SlotMap(legs)
    ensures DistinctSlots(Collapse(legs))
  {
    if legs == [] {
      assert DistinctSlots([]);
    } else {
      hide SlotMap, DistinctSlots, Collapse;
      var leg, rest := legs[0], legs[1..];
      assert legs == [leg] + rest;
      CollapseKeepsSlots(rest);
      CollapseOnTop(leg, rest);
      SlotMapOnTop(leg, rest);
      SlotMapOnTop(leg, Collapse(rest));
      DistinctOnTop(leg, Collapse(rest));
    }
  }

  /** Nothing is dropped exactly when no slot is repeated. */
  lemma {:induction false} DroppedIff(legs: seq<Leg>)
    ensures Dropped(legs) == [] <==> DistinctSlots(legs)
    ensures DistinctSlots(legs) ==> Collapse(legs) == legs
  {
    if legs != [] {
      hide DistinctSlots, SlotMap;
      var rest := legs[1..];
      assert legs == [legs[0]] + rest;
      DroppedIff(rest);
      DistinctOnTop(legs[0], rest);
    } else {
      assert DistinctSlots([]);
    }
  }

  /** Every sum over legs splits into what is kept and what is dropped. */
  lemma {:induction false} CollapseSplitsSum(f: Leg -> real, legs: seq<Leg>)
    ensures Sum(f, legs) == Sum(f, Collapse(legs)) + Sum(f, Dropped(legs))
  {
    if legs != [] {
      var rest := legs[1..];
      assert legs == [legs[0]] + rest;
      CollapseSplitsSum(f, rest);
      SumAppend(f, [legs[0]], rest);
      SumAppend(f, [legs[0]], Collapse(rest));
      SumAppend(f, [legs[0]], Dropped(rest));
    }
  }

  lemma {:induction false} SlotsOfMirror(legs: seq<Leg>, u: nat, k: (Key, Side))
    ensures k in SlotMap(Mirror(legs, u)) <==> (k.0, k.1.Inverse()) in SlotMap(legs)
  {
    var m := Mirror(legs, u);
    if i :| 0 <= i < |legs| && m[i].Slot() == k {
      assert legs[i].Slot() == (k.0, k.1.Inverse());
    }
    if i :| 0 <= i < |legs| && legs[i].Slot() == (k.0, k.1.Inverse()) {
      assert m[i].Slot() == k;
    }
  }

  function Inverted(leg: Leg, u: nat): Leg {
    Leg(leg.key, leg.side.Inverse(), leg.qty * u)
  }

  lemma MirrorOnTop(leg: Leg, rest: seq<Leg>, u: nat)
    ensures Mirror([leg] + rest, u) == [Inverted(leg, u)] + Mirror(rest, u)
  {
  }

  lemma InvertedSlot(leg: Leg, rest: seq<Leg>, u: nat)
    ensures Inverted(leg, u).Slot() in SlotMap(Mirror(rest, u)) <==> leg.Slot() in SlotMap(rest)
  {
    hide SlotMap, Mirror;
    SlotsOfMirror(rest, u, Inverted(leg, u).Slot());
  }

  lemma MirrorOfNone(u: nat)
    ensures Collapse([]) == [] && Mirror([], u) == []
  {
  }

  lemma {:induction false} CollapseOfMirror(legs: seq<Leg>, u: nat)
    ensures Collapse(Mirror(legs, u)) == Mirror(Collapse(legs), u)
  {
    if legs == [] {
      MirrorOfNone(u);
    } else {
      hide SlotMap, Mirror, Collapse, Inverted, Leg.Slot;
      var leg, rest := legs[0], legs[1..];
      assert legs == [leg] + rest;
      CollapseOfMirror(rest, u);
      MirrorOnTop(leg, rest, u);
      MirrorOnTop(leg, Collapse(rest), u);
      CollapseOnTop(leg, rest);
      CollapseOnTop(Inverted(leg, u), Mirror(rest, u));
      InvertedSlot(leg, rest, u);
    }
  }

  /** The dictionary test on any legs: what the dict keeps of the order is a permutation
      of the inverse of what it keeps of the structure, times the units. */
  lemma MirrorsIffCollapsed(got: seq<Leg>, held: seq<Leg>, units: nat)
    ensures Mirrors(got, held, units)
            <==> multiset(Collapse(got)) == multiset(Mirror(Collapse(held), units))
  {
    hide SlotMap, DistinctSlots;
    CollapseKeepsSlots(got);
    CollapseKeepsSlots(held);
    CollapseKeepsSlots(Mirror(held, 1));
    CollapseOfMirror(held, 1);
    MirrorsIffPermutation(Collapse(got), Collapse(held), units);
  }

  /** The unit count of closing legs that mirror u units of a reduced structure. */
  lemma {:induction false} MirrorUnits(held: seq<Leg>, u: nat)
    requires WellFormed(held) && u >= 1
    ensures WellFormed(Mirror(held, u)) && UnitsOf(Mirror(held, u)) == u * UnitsOf(held)
  {
    MirrorWellFormed(held, u);
    UnitsScale(held, Mirror(held, u), u);
  }

  lemma DividesAntisymmetric(a: nat, b: nat)
    requires Divides(a, b) && Divides(b, a)
    ensures a == b
  {
    var x, y := b / a, a / b;
    assert b == a * x && a == b * y;
    ProductBeyond(a, x);
    ProductBeyond(b, y);
  }

  /** The gcd of the legs does not depend on their order. */
  lemma UnitsOfPermutation(a: seq<Leg>, b: seq<Leg>)
    requires WellFormed(a) && WellFormed(b) && multiset(a) == multiset(b)
    ensures UnitsOf(a) == UnitsOf(b)
  {
    UnitsPositive(a);
    UnitsPositive(b);
    UnitsDivideEveryLeg(a);
    UnitsDivideEveryLeg(b);
    CommonDivisorCarries(a, b, UnitsOf(a));
    CommonDivisorCarries(b, a, UnitsOf(b));
    UnitsGreatest(b, UnitsOf(a));
    UnitsGreatest(a, UnitsOf(b));
    DividesAntisymmetric(UnitsOf(a), UnitsOf(b));
  }

  lemma CommonDivisorCarries(a: seq<Leg>, b: seq<Leg>, d: nat)
    requires multiset(a) == multiset(b)
    requires forall i :: 0 <= i < |a| ==> Divides(d, a[i].qty)
    ensures forall i :: 0 <= i < |b| ==> Divides(d, b[i].qty)
  {
    forall i | 0 <= i < |b|
      ensures Divides(d, b[i].qty)
    {
      assert b[i] in multiset(a);
      var j :| 0 <= j < |a| && a[j] == b[i];
    }
  }

  /** Which closes are accepted: the legs are quotable, the position is in the book,
      its stored ratios still have gcd 1, and the order is a permutation of the
      inverted ratios times some u between 1 and the open units. */
  ghost predicate Closeable(c: Setup, l: Ledger, o: Order, u: nat) {
    && l.today.Some?
    && AllQuotable(l.market, c.model, o.legs)
    && o.positionId.Some?
    && var i := IndexOf(l.book, o.positionId.value);
    && i < |l.book|
    && l.book[i].legs != []
    && UnitsOf(l.book[i].legs) == 1
    && 1 <= u <= l.book[i].qty
    && multiset(o.legs) == multiset(Mirror(l.book[i].legs, u))
  }

  lemma MirrorForcesUnits(got: seq<Leg>, held: seq<Leg>, units: nat)
    requires WellFormed(got) && WellFormed(held)
    requires units == UnitsOf(got) && multiset(got) == multiset(Mirror(held, units))
    ensures UnitsOf(held) == 1
  {
    UnitsPositive(got);
    MirrorUnits(held, units);
    UnitsOfPermutation(got, Mirror(held, units));
    CancelFactor(units, UnitsOf(held), 1);
  }

  lemma MirrorGivesUnits(got: seq<Leg>, held: seq<Leg>, u: nat)
    requires WellFormed(got) && WellFormed(held) && UnitsOf(held) == 1 && u >= 1
    requires multiset(got) == multiset(Mirror(held, u))
    ensures UnitsOf(got) == u
  {
    MirrorUnits(held, u);
    UnitsOfPermutation(got, Mirror(held, u));
  }

  /** Strict close matching: a close fills for exactly u units if and only if it is
      Closeable for u; in particular a position whose ratios have a common factor,
      as dropping expired legs can leave behind, is closed by no order without repeated
      legs. */
  lemma CloseFillsIff(c: Setup, l: Ledger, o: Order, u: nat)
    requires Inv(l) && WellFormed(o.legs) && DistinctSlots(o.legs) && o.intent.Close?
    requires forall i :: 0 <= i < |l.book| ==> DistinctSlots(l.book[i].legs)
    ensures (Place(c, l, o).1.Filled? && Place(c, l, o).1.units == u) <==> Closeable(c, l, o, u)
  {
    hide UnitsOf, Mirrors, Mirror, CloseUnits, WellFormed, AllQuotable, Premium, Commission, UnitPrice, Sound, DistinctSlots;
    UnitsPositive(o.legs);
    if l.today.Some? && AllQuotable(l.market, c.model, o.legs) && o.positionId.Some? {
      var i := IndexOf(l.book, o.positionId.value);
      if i < |l.book| {
        var p := l.book[i];
        SoundParts(l.market, l.reserved, p);
        UnitsPositive(p.legs);
        var units := UnitsOf(o.legs);
        MirrorsIffPermutation(o.legs, p.legs, units);
        if Mirrors(o.legs, p.legs, units) {
          MirrorForcesUnits(o.legs, p.legs, units);
        }
        if Closeable(c, l, o, u) {
          MirrorGivesUnits(o.legs, p.legs, u);
        }
      }
    }
  }

  /** The same for any legs at all: the test sees only what the dict keeps, while the units
      come from every leg of the order. */
  lemma AnyCloseFillsIff(c: Setup, l: Ledger, o: Order, u: nat)
    requires WellFormed(o.legs) && o.intent.Close?
    ensures Place(c, l, o).1.Filled? && Place(c, l, o).1.units == u
            <==> && l.today.Some?
                 && AllQuotable(l.market, c.model, o.legs)
                 && o.positionId.Some?
                 && var i := IndexOf(l.book, o.positionId.value);
                 && i < |l.book|
                 && u == UnitsOf(o.legs) <= l.book[i].qty
                 && multiset(Collapse(o.legs)) == multiset(Mirror(Collapse(l.book[i].legs), u))
  {
    hide UnitsOf, Mirrors, Mirror, Collapse, CloseUnits, WellFormed, AllQuotable, Premium, Commission, UnitPrice, IndexOf;
    UnitsPositive(o.legs);
    if o.positionId.Some? {
      var i := IndexOf(l.book, o.positionId.value);
      if i < |l.book| {
        MirrorsIffCollapsed(o.legs, l.book[i].legs, UnitsOf(o.legs));
      }
    }
  }

  /** Which opens are accepted: the legs are quotable, a net credit comes with a number for
      its loss, and the cash left over all reserves, this one included, is not negative. */
  lemma OpenFillsIff(c: Setup, l: Ledger, o: Order)
    requires WellFormed(o.legs) && o.intent.Open?
    ensures Place(c, l, o).1.Filled?
            <==> && l.today.Some?
                 && AllQuotable(l.market, c.model, o.legs)
                 && var cashFlow := Premium(l.market, c.model, o.legs) - Commission(l.market, c.model, o.legs);
                 && (cashFlow > 0.0 ==> o.maxLoss.Some? && o.maxLoss.value.Fin?)
                 && var reserve := if cashFlow > 0.0 then Dollars(o.maxLoss.value.v, UnitsOf(o.legs), Multiplier(o.legs)) else 0.0;
                    l.cash + cashFlow - Total(l.reserved) - reserve >= 0.0
    ensures Place(c, l, o).1.Filled? ==> Place(c, l, o).1.units == UnitsOf(o.legs) && Place(c, l, o).1.id == l.orders + 1
  {
    hide WellFormed, UnitsOf, AllQuotable, Premium, Commission, Total, Dollars, UnitPrice, MarkValue, Reduced;
    UnitsPositive(o.legs);
  }

  /** An accepted close of u units takes exactly u units out of that position and
      leaves every other position as it was. */
  lemma CloseTakesExactly(c: Setup, l: Ledger, o: Order)
    requires Inv(l) && WellFormed(o.legs) && o.intent.Close?
    requires Place(c, l, o).1.Filled?
    ensures var (r, out) := Place(c, l, o);
            var i := IndexOf(l.book, out.id);
            && i < |l.book|
            && 1 <= out.units <= l.book[i].qty
            && (out.units < l.book[i].qty ==>
                  && |r.book| == |l.book|
                  && r.book[i].qty == l.book[i].qty - out.units
                  && r.book[i].legs == l.book[i].legs
                  && forall k :: 0 <= k < |l.book| && k != i ==> r.book[k] == l.book[k])
            && (out.units == l.book[i].qty ==> r.book == l.book[..i] + l.book[i + 1..])
  {
    hide UnitsOf, Mirrors, WellFormed, AllQuotable, Premium, Commission, UnitPrice, Sound, Release, Dollars;
    UnitsPositive(o.legs);
  }

  /** A rejected order changes nothing but the order counter. */
  lemma RejectionChangesNothing(c: Setup, l: Ledger, o: Order)
    requires WellFormed(o.legs) && Place(c, l, o).1.Rejected?
    ensures Place(c, l, o).0 == l.(orders := Place(c, l, o).0.orders)
    ensures Place(c, l, o).0.orders == if l.today.Some? then l.orders + 1 else l.orders
  {
    hide UnitsOf, Mirrors, WellFormed, AllQuotable, Premium, Commission, UnitPrice, CloseUnits, Opened, NeedsReserve, Total;
  }

  // ---- no accepted option order creates money -------------------------------

  /** The fills of legs that can be marked: their marks less their distance from them. */
  lemma {:induction false} PremiumSplits(m: Snapshot, model: CostModel, legs: seq<Leg>, mult: real)
    requires AllQuotable(m, model, legs) && AllMarkable(m, legs)
    requires forall i :: 0 <= i < |legs| ==> legs[i].key.Multiplier() == mult
    ensures Premium(m, model, legs) == -Times(mult, Sum(MarkTerm(m), legs)) - Distance(m, model, legs)
  {
    if legs == [] {
      TimesAdds(mult, 0.0, 0.0);
    } else {
      var n := |legs| - 1;
      hide FillOf, LegMid, MarkTerm, PremiumTerm, DistanceTerm, Times;
      PremiumSplits(m, model, legs[..n], mult);
      LegSplits(m, model, legs[n]);
      TimesAdds(mult, Sum(MarkTerm(m), legs[..n]), MarkTerm(m)(legs[n]));
    }
  }

  lemma LegSplits(m: Snapshot, model: CostModel, leg: Leg)
    requires FillOf(m, model, leg).Some? && LegMid(m, leg.key).Some?
    ensures PremiumTerm(m, model)(leg) == -Times(leg.key.Multiplier(), MarkTerm(m)(leg)) - DistanceTerm(m, model)(leg)
  {
    FillSplits(m, model, leg);
    hide FillOf, LegMid, MarkTerm, PremiumTerm, DistanceTerm;
    assert -leg.key.Multiplier() * MarkTerm(m)(leg) == -(leg.key.Multiplier() * MarkTerm(m)(leg));
  }

  /** Fairly marked legs that fill can be marked, at no negative friction; zeroed frictions
      leave none. */
  lemma {:induction false} FrictionIsFair(m: Snapshot, model: CostModel, legs: seq<Leg>)
    requires Honest(model) && AllFairlyMarked(m, legs) && AllQuotable(m, model, legs)
    ensures AllMarkable(m, legs)
    ensures Distance(m, model, legs) >= 0.0 && Commission(m, model, legs) >= 0.0
    ensures model == Nbbo(ZEROED, 0.0) ==> Distance(m, model, legs) == 0.0 == Commission(m, model, legs)
  {
    if legs != [] {
      var n := |legs| - 1;
      hide FillOf, LegMid, MarkTerm, DistanceTerm, CommissionTerm, FairlyMarked;
      FrictionIsFair(m, model, legs[..n]);
      FairLegIsMarked(m, model, legs[n]);
    }
  }

  /** big is the same instrument as small, in c times its signed quantity. */
  ghost predicate ScaledBy(small: Leg, big: Leg, c: real) {
    big.key == small.key && big.Signed() == c * small.Signed()
  }

  /** Scaling every signed quantity by c scales the mark by c. */
  lemma {:induction false} MarkScales(m: Snapshot, small: seq<Leg>, big: seq<Leg>, c: real)
    requires |small| == |big|
    requires forall i :: 0 <= i < |small| ==> ScaledBy(small[i], big[i], c)
    ensures Sum(MarkTerm(m), big) == c * Sum(MarkTerm(m), small)
  {
    hide MarkTerm, ScaledBy;
    forall i | 0 <= i < |small|
      ensures MarkTerm(m)(big[i]) == c * MarkTerm(m)(small[i])
    {
      MarkTermScales(m, small[i], big[i], c);
    }
    SumCongruent(MarkTerm(m), big, MarkTerm(m), small, c);
  }

  lemma MarkTermScales(m: Snapshot, small: Leg, big: Leg, c: real)
    requires ScaledBy(small, big, c)
    ensures MarkTerm(m)(big) == c * MarkTerm(m)(small)
  {
    if LegMid(m, small.key).Some? {
      var mid := LegMid(m, small.key).value;
      assert mid * (c * small.Signed()) == c * (mid * small.Signed());
    }
  }

  lemma MirroredLegSigned(leg: Leg, u: nat)
    ensures ScaledBy(leg, Leg(leg.key, leg.side.Inverse(), leg.qty * u), -(u as real))
  {
    assert (leg.qty * u) as real == (leg.qty as real) * (u as real);
  }

  lemma ScaledLegSigned(leg: Leg, u: nat)
    ensures ScaledBy(leg, leg.(qty := leg.qty * u), u as real)
  {
    assert (leg.qty * u) as real == (leg.qty as real) * (u as real);
  }

  lemma MirrorMark(m: Snapshot, legs: seq<Leg>, u: nat)
    ensures Sum(MarkTerm(m), Mirror(legs, u)) == -(u as real) * Sum(MarkTerm(m), legs)
  {
    hide MarkTerm, ScaledBy;
    var c := -(u as real);
    forall i | 0 <= i < |legs|
      ensures ScaledBy(legs[i], Mirror(legs, u)[i], c)
    {
      MirroredLegSigned(legs[i], u);
    }
    MarkScales(m, legs, Mirror(legs, u), c);
  }

  lemma ReducedLegSigned(legs: seq<Leg>, i: nat)
    requires WellFormed(legs) && i < |legs|
    ensures var u := UnitsOf(legs);
            u >= 1 && ScaledBy(Reduced(legs, u)[i], legs[i], u as real)
  {
    hide UnitsOf, WellFormed, ScaledBy;
    ReducedIsExact(legs);
    var u := UnitsOf(legs);
    var r := Reduced(legs, u);
    assert legs[i] == r[i].(qty := r[i].qty * u);
    ScaledLegSigned(r[i], u);
  }

  lemma ReducedMark(m: Snapshot, legs: seq<Leg>)
    requires WellFormed(legs)
    ensures var u := UnitsOf(legs);
            u >= 1 && Sum(MarkTerm(m), legs) == (u as real) * Sum(MarkTerm(m), Reduced(legs, u))
  {
    hide MarkTerm, UnitsOf, ScaledBy;
    UnitsPositive(legs);
    var u := UnitsOf(legs);
    var c := u as real;
    forall i | 0 <= i < |legs|
      ensures ScaledBy(Reduced(legs, u)[i], legs[i], c)
    {
      ReducedLegSigned(legs, i);
    }
    MarkScales(m, Reduced(legs, u), legs, c);
  }

  lemma OpenedIs(m: Snapshot, o: Order, premium: real, commission: real, id: nat)
    requires WellFormed(o.legs) && AllMarkable(m, o.legs)
    ensures var p := Opened(m, o, premium, commission, id);
            var u := UnitsOf(o.legs);
            && u >= 1 && p.legs == Reduced(o.legs, u) && p.qty == u
            && p.value == Sum(MarkTerm(m), p.legs)
            && p.Mult() == Multiplier(o.legs)
  {
    hide MarkTerm, UnitsOf, UnitPrice, WellFormed, AllMarkable, Sum;
    ReducedIsExact(o.legs);
    ReducedMarkable(m, o.legs);
  }

  /** The market value of a freshly opened option structure. */
  lemma OpenedWorth(m: Snapshot, o: Order, premium: real, commission: real, id: nat)
    requires WellFormed(o.legs) && AllMarkable(m, o.legs)
    ensures MarketValue()(Opened(m, o, premium, commission, id)) == Multiplier(o.legs) * Sum(MarkTerm(m), o.legs)
  {
    hide MarkTerm, UnitsOf, Opened, WellFormed, AllMarkable, Dollars, Sum, Multiplier, Reduced;
    OpenedIs(m, o, premium, commission, id);
    ReducedMark(m, o.legs);
    var p := Opened(m, o, premium, commission, id);
    DollarsCommute(p.value, p.qty, Multiplier(o.legs));
  }

  lemma ReducedMarkable(m: Snapshot, legs: seq<Leg>)
    requires WellFormed(legs) && AllMarkable(m, legs)
    ensures UnitsOf(legs) >= 1 && AllMarkable(m, Reduced(legs, UnitsOf(legs)))
  {
    hide LegMid, UnitsOf;
    UnitsPositive(legs);
  }

  lemma DollarsCommute(x: real, units: nat, mult: real)
    ensures Dollars(x, units, mult) == mult * ((units as real) * x)
  {
  }

  /** What a filled order costs in friction: the distance of its fills from the marks, and
      the commission. */
  function Friction(c: Setup, l: Ledger, o: Order): real {
    Distance(l.market, c.model, o.legs) + Commission(l.market, c.model, o.legs)
  }

  lemma FilledIsQuotable(c: Setup, l: Ledger, o: Order)
    requires WellFormed(o.legs) && Place(c, l, o).1.Filled?
    ensures AllQuotable(l.market, c.model, o.legs)
  {
    hide AllQuotable, PlaceOpen, PlaceClose, Premium, Commission;
  }

  /** The friction of a filled order on fairly marked legs is never negative, and zeroed
      frictions leave none. */
  lemma FilledFrictionIsFair(c: Setup, l: Ledger, o: Order)
    requires Honest(c.model) && WellFormed(o.legs) && AllFairlyMarked(l.market, o.legs)
    requires Place(c, l, o).1.Filled?
    ensures AllMarkable(l.market, o.legs)
    ensures Friction(c, l, o) >= 0.0
    ensures c.model == Nbbo(ZEROED, 0.0) ==> Friction(c, l, o) == 0.0
  {
    hide Place, WellFormed, AllFairlyMarked, AllQuotable, AllMarkable, Distance, Commission;
    FilledIsQuotable(c, l, o);
    FrictionIsFair(l.market, c.model, o.legs);
  }

  /** What an accepted open does to equity: its net cash, and the new position's worth. */
  lemma OpenEquity(l: Ledger, o: Order, premium: real, commission: real)
    requires WellFormed(o.legs) && PlaceOpen(l, o, premium, commission).1.Filled?
    ensures Equity(PlaceOpen(l, o, premium, commission).0) ==
            Equity(l) + premium - commission + MarketValue()(Opened(l.market, o, premium, commission, l.orders))
  {
    hide MarketValue, Opened, NeedsReserve, Total, WellFormed;
    var q := Opened(l.market, o, premium, commission, l.orders);
    SumAppend(MarketValue(), l.book, [q]);
    SumOne(MarketValue(), q);
  }

  lemma PlacedOpen(c: Setup, l: Ledger, o: Order)
    requires WellFormed(o.legs) && o.intent.Open? && Place(c, l, o).1.Filled?
    ensures Place(c, l, o) ==
            PlaceOpen(l.(orders := l.orders + 1), o, Premium(l.market, c.model, o.legs), Commission(l.market, c.model, o.legs))
  {
    hide AllQuotable, PlaceOpen, Premium, Commission, WellFormed;
  }

  /** Legs at their marks, in dollars. */
  function MarkedDollars(m: Snapshot, legs: seq<Leg>): real {
    Multiplier(legs) * Sum(MarkTerm(m), legs)
  }

  lemma OpenedDollars(m: Snapshot, o: Order, premium: real, commission: real, id: nat)
    requires WellFormed(o.legs) && AllMarkable(m, o.legs)
    ensures MarketValue()(Opened(m, o, premium, commission, id)) == MarkedDollars(m, o.legs)
  {
    OpenedWorth(m, o, premium, commission, id);
    hide MarketValue, Opened, Sum, MarkTerm, Multiplier, WellFormed, AllMarkable;
  }

  lemma PremiumAtMarks(m: Snapshot, model: CostModel, legs: seq<Leg>)
    requires WellFormed(legs) && AllQuotable(m, model, legs) && AllMarkable(m, legs)
    ensures Premium(m, model, legs) + MarkedDollars(m, legs) == -Distance(m, model, legs)
  {
    PremiumSplits(m, model, legs, Multiplier(legs));
    hide Premium, Distance, Sum, MarkTerm, Multiplier, WellFormed, AllMarkable, AllQuotable;
  }

  /** Opening a structure that can be marked costs exactly its friction. */
  lemma OpenCostsItsFriction(c: Setup, l: Ledger, o: Order)
    requires WellFormed(o.legs) && AllMarkable(l.market, o.legs) && o.intent.Open?
    requires Place(c, l, o).1.Filled?
    ensures Equity(Place(c, l, o).0) == Equity(l) - Friction(c, l, o)
  {
    hide MarketValue, Opened, AllQuotable, AllMarkable, Premium, Distance, Commission, PlaceOpen, Place, WellFormed, Equity,
      MarkedDollars;
    FilledIsQuotable(c, l, o);
    PlacedOpen(c, l, o);
    PremiumAtMarks(l.market, c.model, o.legs);
    var premium, commission := Premium(l.market, c.model, o.legs), Commission(l.market, c.model, o.legs);
    var numbered := l.(orders := l.orders + 1);
    OpenedDollars(l.market, o, premium, commission, numbered.orders);
    OpenEquity(numbered, o, premium, commission);
    EquityFrame(l, numbered);
  }

  /** A structure that cannot be marked is carried at its entry price. */
  lemma OpenedUnmarked(m: Snapshot, o: Order, premium: real, commission: real, id: nat)
    requires WellFormed(o.legs) && !AllMarkable(m, o.legs)
    ensures MarketValue()(Opened(m, o, premium, commission, id)) == -premium
  {
    ReducedIsExact(o.legs);
    ReducedUnmarkable(m, o.legs);
    UnitPriceTimes(-premium, UnitsOf(o.legs), Multiplier(o.legs));
    hide UnitsOf, UnitPrice, WellFormed, AllMarkable, Sum, Dollars, Multiplier, MarkTerm;
  }

  lemma ReducedUnmarkable(m: Snapshot, legs: seq<Leg>)
    requires WellFormed(legs) && !AllMarkable(m, legs)
    ensures UnitsOf(legs) >= 1 && !AllMarkable(m, Reduced(legs, UnitsOf(legs)))
  {
    hide LegMid, UnitsOf;
    UnitsPositive(legs);
    var i :| 0 <= i < |legs| && LegMid(m, legs[i].key).None?;
    assert Reduced(legs, UnitsOf(legs))[i].key == legs[i].key;
  }

  /** So opening one costs exactly its commission. */
  lemma UnmarkedOpenCostsCommission(c: Setup, l: Ledger, o: Order)
    requires WellFormed(o.legs) && !AllMarkable(l.market, o.legs) && o.intent.Open?
    requires Place(c, l, o).1.Filled?
    ensures Equity(Place(c, l, o).0) == Equity(l) - Commission(l.market, c.model, o.legs)
  {
    hide MarketValue, Opened, AllMarkable, Premium, Commission, PlaceOpen, Place, WellFormed, Equity;
    PlacedOpen(c, l, o);
    var premium, commission := Premium(l.market, c.model, o.legs), Commission(l.market, c.model, o.legs);
    var numbered := l.(orders := l.orders + 1);
    OpenedUnmarked(l.market, o, premium, commission, numbered.orders);
    OpenEquity(numbered, o, premium, commission);
    EquityFrame(l, numbered);
  }

  lemma ClosedWorth(p: Pos, price: real, units: nat)
    requires units <= p.qty
    ensures MarketValue()(AfterClose(p, price, units)) == MarketValue()(p) - Dollars(p.value, units, p.Mult())
    ensures units == p.qty ==> MarketValue()(AfterClose(p, price, units)) == 0.0
  {
    hide Dollars;
    DollarsPart(p.value, p.qty, units, p.Mult());
    DollarsPart(p.value, p.qty, p.qty, p.Mult());
  }

  lemma CloseUnitsEquity(l: Ledger, i: nat, units: nat, price: real, cashFlow: real, commission: real)
    requires i < |l.book| && 1 <= units <= l.book[i].qty
    ensures Equity(CloseUnits(l, i, units, price, cashFlow, commission)) ==
            Equity(l) + cashFlow - Dollars(l.book[i].value, units, l.book[i].Mult())
  {
    hide Dollars, Release, AfterClose, MarketValue;
    var p := l.book[i];
    ClosedWorth(p, price, units);
    AfterCloseKeepsName(p, price, units);
    if units == p.qty {
      SumRemove(MarketValue(), l.book, i);
    } else {
      SumUpdate(MarketValue(), l.book, i, AfterClose(p, price, units));
    }
  }

  /** A structure is markable when the closing legs that mirror it are. */
  lemma MirroredMarkable(m: Snapshot, got: seq<Leg>, held: seq<Leg>, u: nat)
    requires AllMarkable(m, got) && Mirrors(got, held, u)
    ensures AllMarkable(m, held)
  {
    hide LegMid;
    forall i | 0 <= i < |held|
      ensures LegMid(m, held[i].key).Some?
    {
      var k := Mirror(held, 1)[i].Slot();
      assert k in SlotMap(Mirror(held, 1)) && k in SlotMap(got);
      var j :| 0 <= j < |got| && got[j].Slot() == k;
    }
  }

  /** What the closing legs buy back at the marks: u units of what the dict keeps of the
      structure, and whatever it drops of the order. */
  lemma ClosingMark(m: Snapshot, got: seq<Leg>, held: seq<Leg>, u: nat)
    requires Mirrors(got, held, u)
    ensures Sum(MarkTerm(m), got) ==
            Sum(MarkTerm(m), Dropped(got))
            - (u as real) * (Sum(MarkTerm(m), held) - Sum(MarkTerm(m), Dropped(held)))
  {
    hide MarkTerm, Mirrors, Collapse, Dropped, Mirror, Sum;
    MirrorsIffCollapsed(got, held, u);
    CollapseSplitsSum(MarkTerm(m), got);
    CollapseSplitsSum(MarkTerm(m), held);
    SumPermutation(MarkTerm(m), Collapse(got), Mirror(Collapse(held), u));
    MirrorMark(m, Collapse(held), u);
    assert Sum(MarkTerm(m), held) - Sum(MarkTerm(m), Dropped(held)) == Sum(MarkTerm(m), Collapse(held));
  }

  /** What the dropped legs of a close are worth to the account, in dollars: order legs
      that pay or receive cash without leaving the book, and held legs that leave the
      book without being bought back. */
  function Windfall(m: Snapshot, got: seq<Leg>, held: seq<Leg>, u: nat): real {
    -Multiplier(got) * (Sum(MarkTerm(m), Dropped(got)) + (u as real) * Sum(MarkTerm(m), Dropped(held)))
  }

  lemma ClosePremium(m: Snapshot, model: CostModel, got: seq<Leg>, held: seq<Leg>, u: nat)
    requires AllMarkable(m, got) && AllQuotable(m, model, got) && Mirrors(got, held, u) && WellFormed(got)
    ensures AllMarkable(m, held)
    ensures Premium(m, model, got) ==
            Multiplier(got) * ((u as real) * Sum(MarkTerm(m), held)) - Distance(m, model, got) + Windfall(m, got, held, u)
  {
    hide MarkTerm, LegMid, FillOf, Premium, Distance, Mirrors, AllMarkable, Sum, Dropped, AllQuotable;
    PremiumSplits(m, model, got, Multiplier(got));
    MirroredMarkable(m, got, held, u);
    ClosingMark(m, got, held, u);
    WindfallAlgebra(Multiplier(got), u as real, Sum(MarkTerm(m), got), Sum(MarkTerm(m), held),
                    Sum(MarkTerm(m), Dropped(got)), Sum(MarkTerm(m), Dropped(held)));
  }

  lemma WindfallAlgebra(mult: real, u: real, got: real, held: real, extra: real, lost: real)
    requires got == extra - u * (held - lost)
    ensures -Times(mult, got) == mult * (u * held) - mult * (extra + u * lost)
    ensures -mult * (extra + u * lost) == -(mult * (extra + u * lost))
  {
    var a, b := u * held, u * lost;
    assert u * (held - lost) == a - b;
    assert got == extra + b - a;
    assert mult * (extra + b - a) == mult * (extra + b) - mult * a;
  }

  /** Any accepted close trades the last mark of its units for their premium. */
  lemma CloseTradesMark(c: Setup, l: Ledger, o: Order)
    requires WellFormed(o.legs) && o.intent.Close? && Place(c, l, o).1.Filled?
    ensures var i := IndexOf(l.book, Place(c, l, o).1.id);
            && i < |l.book|
            && o.positionId == Some(l.book[i].id) && Place(c, l, o).1.units == UnitsOf(o.legs)
            && Mirrors(o.legs, l.book[i].legs, UnitsOf(o.legs))
            && Equity(Place(c, l, o).0) ==
               Equity(l) + Premium(l.market, c.model, o.legs) - Commission(l.market, c.model, o.legs)
               - Dollars(l.book[i].value, UnitsOf(o.legs), l.book[i].Mult())
  {
    hide AllQuotable, Premium, Commission, Mirrors, CloseUnits, UnitPrice, UnitsOf, Dollars, Equity, WellFormed, IndexOf, Multiplier;
    UnitsPositive(o.legs);
    var i := IndexOf(l.book, o.positionId.value);
    var numbered := l.(orders := l.orders + 1);
    var premium, commission := Premium(l.market, c.model, o.legs), Commission(l.market, c.model, o.legs);
    CloseUnitsEquity(numbered, i, UnitsOf(o.legs), Place(c, l, o).1.price, premium - commission, commission);
    EquityFrame(l, numbered);
  }

  /** The exact effect of an accepted close on equity, for legs that can be marked,
      repeated or not: minus the friction, plus what the dropped legs are worth. */
  lemma CloseMovesEquity(c: Setup, l: Ledger, o: Order)
    requires Inv(l) && WellFormed(o.legs) && AllMarkable(l.market, o.legs) && o.intent.Close?
    requires Place(c, l, o).1.Filled?
    ensures var i := IndexOf(l.book, Place(c, l, o).1.id);
            && i < |l.book|
            && var windfall := Windfall(l.market, o.legs, l.book[i].legs, Place(c, l, o).1.units);
               Equity(Place(c, l, o).0) == Equity(l) - Friction(c, l, o) + windfall
  {
    hide MarkTerm, AllQuotable, AllMarkable, Premium, Distance, Commission, Sound, Mirrors, UnitsOf, Dollars, Equity, Windfall,
      Place, IndexOf, Multiplier, Sum;
    CloseTradesMark(c, l, o);
    FilledIsQuotable(c, l, o);
    var p := l.book[IndexOf(l.book, Place(c, l, o).1.id)];
    SoundMark(l.market, l.reserved, p);
    SoundParts(l.market, l.reserved, p);
    UnitsPositive(o.legs);
    MirrorsShareMultiplier(o.legs, p.legs, UnitsOf(o.legs));
    ClosePremium(l.market, c.model, o.legs, p.legs, UnitsOf(o.legs));
    DollarsCommute(p.value, UnitsOf(o.legs), Multiplier(o.legs));
  }

  lemma NoWindfall(m: Snapshot, got: seq<Leg>, held: seq<Leg>, u: nat)
    requires DistinctSlots(got) && DistinctSlots(held)
    ensures Windfall(m, got, held, u) == 0.0
  {
    DroppedIff(got);
    DroppedIff(held);
  }

  /** So where no leg is repeated, closing fairly marked units costs exactly its friction
      too. */
  lemma CloseCostsItsFriction(c: Setup, l: Ledger, o: Order)
    requires Inv(l) && Honest(c.model) && WellFormed(o.legs) && AllFairlyMarked(l.market, o.legs) && o.intent.Close?
    requires DistinctSlots(o.legs) && forall i :: 0 <= i < |l.book| ==> DistinctSlots(l.book[i].legs)
    requires Place(c, l, o).1.Filled?
    ensures Equity(Place(c, l, o).0) == Equity(l) - Friction(c, l, o)
    ensures Friction(c, l, o) >= 0.0
    ensures c.model == Nbbo(ZEROED, 0.0) ==> Friction(c, l, o) == 0.0
  {
    hide Place, Inv, Equity, Windfall, DistinctSlots, AllFairlyMarked, AllMarkable, WellFormed, Friction;
    FilledFrictionIsFair(c, l, o);
    CloseMovesEquity(c, l, o);
    var i := IndexOf(l.book, Place(c, l, o).1.id);
    NoWindfall(l.market, o.legs, l.book[i].legs, Place(c, l, o).1.units);
  }

  lemma EquityFrame(l: Ledger, l': Ledger)
    requires l.cash == l'.cash && l.book == l'.book
    ensures Equity(l) == Equity(l')
  {
  }

  lemma SoundMark(m: Snapshot, reserved: map<nat, real>, p: Pos)
    requires Sound(m, reserved, p)
    ensures AllMarkable(m, p.legs) ==> p.value == Sum(MarkTerm(m), p.legs)
  {
  }

  // ---- the role of distinct legs -------------------------------------------

  ghost predicate DistinctBook(book: seq<Pos>) {
    forall i :: 0 <= i < |book| ==> DistinctSlots(book[i].legs)
  }

  ghost predicate DistinctOpens(es: seq<Event>) {
    forall i :: 0 <= i < |es| && es[i].Submit? && es[i].order.intent.Open? ==> DistinctSlots(es[i].order.legs)
  }

  lemma SettleOneDistinct(l: Ledger, p: Pos, today: Date)
    requires DistinctBook(l.book) && DistinctSlots(p.legs)
    ensures DistinctBook(SettleOne(l, p, today).book)
  {
    hide SettlementOf, DistinctSlots, Survivor, LiveLegs, Dollars;
    LiveLegsDistinct(p.legs, today);
  }

  lemma {:induction false} SettleAllDistinct(l: Ledger, pending: seq<Pos>, today: Date)
    requires DistinctBook(l.book) && DistinctBook(pending)
    ensures DistinctBook(SettleAll(l, pending, today).book)
    decreases |pending|
  {
    if pending != [] {
      hide SettleOne, DistinctSlots;
      var n := |pending| - 1;
      SettleAllDistinct(l, pending[..n], today);
      SettleOneDistinct(SettleAll(l, pending[..n], today), pending[n], today);
    }
  }

  lemma AdvanceDistinct(l: Ledger, chains: map<string, Chain>, today: Date,
                        equityQuotes: Option<map<string, Quote>>, fillQuotes: Option<map<string, Quote>>)
    requires DistinctBook(l.book)
    ensures DistinctBook(UpdateMarket(l, chains, today, equityQuotes, fillQuotes).book)
  {
    hide MarkValue, DistinctSlots, RememberSpots, SettleAll, CountStale;
    var refreshed := Refresh(l, chains, today, equityQuotes, fillQuotes);
    SettleAllDistinct(refreshed.(book := []), refreshed.book, today);
  }

  lemma OpenDistinct(l: Ledger, o: Order, premium: real, commission: real)
    requires WellFormed(o.legs) && DistinctBook(l.book) && DistinctSlots(o.legs)
    ensures DistinctBook(PlaceOpen(l, o, premium, commission).0.book)
  {
    hide MarkValue, UnitsOf, UnitPrice, NeedsReserve, Total, DistinctSlots, WellFormed;
    UnitsPositive(o.legs);
    ReducedDistinct(o.legs, UnitsOf(o.legs));
  }

  lemma CloseDistinct(l: Ledger, o: Order, premium: real, commission: real)
    requires WellFormed(o.legs) && DistinctBook(l.book)
    ensures DistinctBook(PlaceClose(l, o, premium, commission).0.book)
  {
    hide UnitsOf, UnitPrice, Mirrors, DistinctSlots, WellFormed, Release, Dollars;
    UnitsPositive(o.legs);
  }

  lemma PlaceDistinct(c: Setup, l: Ledger, o: Order)
    requires WellFormed(o.legs) && DistinctBook(l.book)
    requires o.intent.Open? ==> DistinctSlots(o.legs)
    ensures DistinctBook(Place(c, l, o).0.book)
  {
    hide AllQuotable, Premium, Commission, PlaceOpen, PlaceClose, DistinctSlots, WellFormed;
    var numbered := l.(orders := l.orders + 1);
    if o.intent.Open? {
      OpenDistinct(numbered, o, Premium(l.market, c.model, o.legs), Commission(l.market, c.model, o.legs));
    } else {
      CloseDistinct(numbered, o, Premium(l.market, c.model, o.legs), Commission(l.market, c.model, o.legs));
    }
  }

  lemma StepDistinct(c: Setup, l: Ledger, e: Event)
    requires e.Submit? ==> WellFormed(e.order.legs)
    requires DistinctBook(l.book)
    requires e.Submit? && e.order.intent.Open? ==> DistinctSlots(e.order.legs)
    ensures DistinctBook(Step(c, l, e).book)
  {
    hide UpdateMarket, Place, DistinctSlots, WellFormed, Dollars;
    match e
    case Advance(chains, today, equityQuotes, fillQuotes) => AdvanceDistinct(l, chains, today, equityQuotes, fillQuotes);
    case Submit(order) => PlaceDistinct(c, l, order);
    case Force(id, value) =>
    case DrainPartials =>
    case FlagTp1(id) =>
  }

  lemma ReducedDistinct(legs: seq<Leg>, u: nat)
    requires u >= 1 && DistinctSlots(legs)
    ensures DistinctSlots(Reduced(legs, u))
  {
    forall i, j | 0 <= i < j < |legs|
      ensures Reduced(legs, u)[i].Slot() != Reduced(legs, u)[j].Slot()
    {
      assert legs[i].Slot() != legs[j].Slot();
    }
  }

  /** If no opening order repeats a (key, side), no position ever does. */
  lemma {:induction false} RunDistinct(c: Setup, start: real, es: seq<Event>)
    requires WellFormedEvents(es) && DistinctOpens(es)
    ensures DistinctBook(Run(c, Opening(start), es).book)
  {
    if es != [] {
      var n := |es| - 1;
      RunDistinct(c, start, es[..n]);
      StepDistinct(c, Run(c, Opening(start), es[..n]), es[n]);
    }
  }

  /** What a filled order does to equity after any run at all. When its legs can be marked
      it takes off the friction, and a close adds what its dropped legs are worth, so it
      raises equity exactly when those are worth more than the friction. When some leg
      cannot be marked, an open costs its commission, and a close gains what its premium
      is above the last mark of its units. */
  lemma OrderMovesEquity(c: Setup, start: real, es: seq<Event>, o: Order)
    requires WellFormedEvents(es) && WellFormed(o.legs)
    ensures var l := Run(c, Opening(start), es);
            Place(c, l, o).1.Filled? ==>
              var gain := GainOf(c, l, o, Place(c, l, o).1);
              var cost := if AllMarkable(l.market, o.legs) then Friction(c, l, o) else Commission(l.market, c.model, o.legs);
              && Equity(Place(c, l, o).0) == Equity(l) - cost + gain
              && (Equity(Place(c, l, o).0) > Equity(l) <==> gain > cost)
  {
    hide Place, Equity, Run, WellFormed, AllMarkable, Friction, Windfall, Inv, Premium, Commission, Dollars, IndexOf, Mirrors;
    Reachable(c, start, es);
    var l := Run(c, Opening(start), es);
    if Place(c, l, o).1.Filled? {
      if o.intent.Open? {
        if AllMarkable(l.market, o.legs) {
          OpenCostsItsFriction(c, l, o);
        } else {
          UnmarkedOpenCostsCommission(c, l, o);
        }
      } else {
        CloseTradesMark(c, l, o);
        if AllMarkable(l.market, o.legs) {
          CloseMovesEquity(c, l, o);
        }
      }
    }
  }

  /** What a filled order gains beside its cost: nothing for an open; for a close the
      windfall, or where no mark is fresh its premium above the last one. */
  function GainOf(c: Setup, l: Ledger, o: Order, filled: Outcome): real
    requires filled.Filled?
  {
    var i := IndexOf(l.book, filled.id);
    if o.intent.Open? || i == |l.book| then 0.0
    else if AllMarkable(l.market, o.legs) then Windfall(l.market, o.legs, l.book[i].legs, filled.units)
    else Premium(l.market, c.model, o.legs) - Dollars(l.book[i].value, filled.units, l.book[i].Mult())
  }

  /** No order without repeated legs creates money, after any run whose opens repeat no
      leg either: the next such order that fills on fairly marked legs, options always
      among them, costs exactly a friction that is not negative, and nothing under zeroed
      frictions. */
  lemma NoOrderCreatesMoney(c: Setup, start: real, es: seq<Event>, o: Order)
    requires Honest(c.model) && WellFormedEvents(es) && DistinctOpens(es)
    requires WellFormed(o.legs) && DistinctSlots(o.legs)
    ensures var l := Run(c, Opening(start), es);
            Place(c, l, o).1.Filled? && AllFairlyMarked(l.market, o.legs) ==>
              && Equity(Place(c, l, o).0) == Equity(l) - Friction(c, l, o)
              && Friction(c, l, o) >= 0.0
              && (c.model == Nbbo(ZEROED, 0.0) ==> Friction(c, l, o) == 0.0)
  {
    hide Place, Equity, Run, DistinctSlots, AllFairlyMarked, AllMarkable, WellFormed, Friction;
    Reachable(c, start, es);
    RunDistinct(c, start, es);
    var l := Run(c, Opening(start), es);
    if Place(c, l, o).1.Filled? && AllFairlyMarked(l.market, o.legs) {
      FilledFrictionIsFair(c, l, o);
      if o.intent.Open? {
        OpenCostsItsFriction(c, l, o);
      } else {
        CloseCostsItsFriction(c, l, o);
      }
    }
  }
}
