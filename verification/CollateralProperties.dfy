// Collateral against credit structures
// (src/catalyst/brokers/simulated.py:199-206, 227-239, 338-381, 424).
module CollateralProperties {
  import opened Common
  import opened Instruments
  import opened Ratios
  import opened Market
  import opened LedgerModel
  import opened LedgerInvariant

  /** The reserve is exactly the structural loss of the open credit structures: none
      is missing, none outlives its position, each is the per-unit loss over the
      units still open. */
  lemma {:induction false} ReserveIsCollateral(l: Ledger)
    requires Inv(l)
    ensures Total(l.reserved) == Sum(Collateral(), l.book)
  {
    CollateralTotal(l.reserved, l.book);
  }

  lemma {:induction false} CollateralTotal(reserved: map<nat, real>, book: seq<Pos>)
    requires forall i :: 0 <= i < |book| ==> Backed(reserved, book[i])
    requires forall i, j :: 0 <= i < j < |book| ==> book[i].id < book[j].id
    requires forall id :: id in reserved ==> Held(book, id)
    ensures Total(reserved) == Sum(Collateral(), book)
    decreases |book|
  {
    hide Backed;
    if book == [] {
      assert forall id :: id in reserved ==> Held(book, id);
      assert reserved == map[];
    } else {
      var n := |book| - 1;
      var p := book[n];
      var rest := reserved - {p.id};
      forall i | 0 <= i < n
        ensures Backed(rest, book[i])
      {
        BackedFrame(reserved, rest, book[i]);
      }
      forall id | id in rest
        ensures Held(book[..n], id)
      {
        assert Held(book, id);
        var i :| 0 <= i < |book| && book[i].id == id;
        assert book[..n][i].id == id;
      }
      CollateralTotal(rest, book[..n]);
      BackedAmount(reserved, p);
      if p.id in reserved {
        TotalRemove(reserved, p.id);
      } else {
        assert rest == reserved;
      }
    }
  }

  lemma BackedFrame(reserved: map<nat, real>, rest: map<nat, real>, p: Pos)
    requires Backed(reserved, p)
    requires p.id in rest <==> p.id in reserved
    requires p.id in reserved ==> rest[p.id] == reserved[p.id]
    ensures Backed(rest, p)
  {
  }

  lemma BackedAmount(reserved: map<nat, real>, p: Pos)
    requires Backed(reserved, p)
    ensures Collateral()(p) == if p.id in reserved then reserved[p.id] else 0.0
  {
    hide Dollars;
  }

  ghost predicate ReservedFor(l: Ledger, p: Pos) {
    && (p.id in l.reserved <==> Secured(p))
    && (Secured(p) ==> l.reserved[p.id] == Dollars(p.maxLoss.value.v, p.qty, p.Mult()))
  }

  lemma ReservedAmount(l: Ledger, p: Pos)
    requires Backed(l.reserved, p)
    ensures ReservedFor(l, p)
  {
    hide Dollars;
  }

  /** In every reachable state: a position carries a reserve exactly when it was
      opened for a net credit with a positive loss to cover, the reserve is that loss over
      the units still open, and the buying power is the cash less those losses. */
  lemma ReachableCollateral(c: Setup, start: real, es: seq<Event>)
    requires WellFormedEvents(es)
    ensures var l := Run(c, Opening(start), es);
            && BuyingPower(l) == l.cash - Sum(Collateral(), l.book)
            && (forall i :: 0 <= i < |l.book| ==> ReservedFor(l, l.book[i]))
            && (forall id :: id in l.reserved ==> Held(l.book, id))
  {
    hide Run, Secured, Total, Stake;
    Reachable(c, start, es);
    var l := Run(c, Opening(start), es);
    ReserveIsCollateral(l);
    forall i | 0 <= i < |l.book|
      ensures ReservedFor(l, l.book[i])
    {
      assert Sound(l.market, l.reserved, l.book[i]);
      ReservedAmount(l, l.book[i]);
    }
  }

  /** An accepted open adds its net cash to the buying power and takes off the new
      reserve. The result is negative in exactly one case: a net credit with a
      negative declared loss, on an account the credit does not lift to zero. */
  lemma OpenKeepsBuyingPower(c: Setup, l: Ledger, o: Order)
    requires Inv(l) && WellFormed(o.legs) && o.intent.Open?
    requires Place(c, l, o).1.Filled?
    ensures var cashFlow := Premium(l.market, c.model, o.legs) - Commission(l.market, c.model, o.legs);
            var r := Place(c, l, o).0;
            && (cashFlow > 0.0 ==> o.maxLoss.Some? && o.maxLoss.value.Fin?)
            && BuyingPower(r) ==
               BuyingPower(l) + cashFlow
               - (if cashFlow > 0.0 then Max(0.0, Dollars(o.maxLoss.value.v, UnitsOf(o.legs), Multiplier(o.legs))) else 0.0)
            && (BuyingPower(r) < 0.0 <==>
                cashFlow > 0.0 && o.maxLoss.value.v < 0.0 && BuyingPower(l) + cashFlow < 0.0)
  {
    hide Sound, AllQuotable, Premium, Commission, Opened, UnitsOf, WellFormed, Dollars, Total;
    UnitsPositive(o.legs);
    var cashFlow := Premium(l.market, c.model, o.legs) - Commission(l.market, c.model, o.legs);
    var id := l.orders + 1;
    if cashFlow > 0.0 {
      DollarsSign(o.maxLoss.value.v, UnitsOf(o.legs), Multiplier(o.legs));
    }
    assert !Held(l.book, id);
    var reserve := NeedsReserve(o, cashFlow).value;
    TotalUpdate(l.reserved, id, reserve);
  }

  /** Full settlement pays v per unit and frees the whole reserve of the position. */
  lemma SettlementMovesBuyingPower(l: Ledger, p: Pos, today: Date)
    requires Backed(l.reserved, p)
    requires SettlementOf(l.market, l.spots, today, p).Full?
    ensures var v := SettlementOf(l.market, l.spots, today, p).value;
            BuyingPower(SettleOne(l, p, today)) == BuyingPower(l) + p.Worth(v) + Collateral()(p)
  {
    hide Backed, Dollars, Total, SettlementOf;
    BackedAmount(l.reserved, p);
    if p.id in l.reserved {
      TotalRemove(l.reserved, p.id);
    } else {
      assert l.reserved - {p.id} == l.reserved;
    }
  }

  /** A credit structure settling no worse than its loss and credit combined costs at
      most the credit, which stayed spendable: the reserve covers the rest. */
  lemma SettlementCostsAtMostTheCredit(l: Ledger, p: Pos, today: Date)
    requires Backed(l.reserved, p) && Secured(p) && p.qty >= 1
    requires SettlementOf(l.market, l.spots, today, p).Full?
    requires SettlementOf(l.market, l.spots, today, p).value >= -(p.maxLoss.value.v + (-p.entry))
    ensures BuyingPower(SettleOne(l, p, today)) >= BuyingPower(l) - p.Worth(-p.entry)
  {
    hide Backed, Total, SettlementOf, Dollars, SettleOne, BuyingPower;
    SettlementMovesBuyingPower(l, p, today);
    var v, loss, credit := SettlementOf(l.market, l.spots, today, p).value, p.maxLoss.value.v, -p.entry;
    DollarsMinus(v, -(loss + credit), p.qty, p.Mult());
    DollarsMinus(-credit, loss, p.qty, p.Mult());
    DollarsMinus(0.0, credit, p.qty, p.Mult());
    DollarsSign(v + loss + credit, p.qty, p.Mult());
    DollarsNonNegative(v - (-(loss + credit)), p.qty, p.Mult());
    assert -(loss + credit) == -credit - loss;
    assert 0.0 - credit == -credit;
  }

  lemma DollarsNonNegative(x: real, units: nat, mult: real)
    requires units >= 1 && mult >= 1.0
    ensures x >= 0.0 ==> Dollars(x, units, mult) >= 0.0
  {
    DollarsSign(x, units, mult);
  }
}
