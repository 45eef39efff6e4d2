// src/catalyst/costs/model.py: the only place where a quote becomes a fill.
module Costs {
  import opened Common
  import opened Instruments

  datatype FillConfig = FillConfig(
    spreadFraction: real,
    slippagePct: real,
    slippageFlat: real,
    equityBps: real)
  {
    /** The field bounds of FillModelConfig. */
    predicate Valid() {
      && 0.0 <= spreadFraction <= 1.0
      && slippagePct >= 0.0
      && slippageFlat >= 0.0
      && equityBps >= 0.0
    }
  }

  /** Every friction zeroed, as the diagnostic run configures it. */
  const ZEROED := FillConfig(0.0, 0.0, 0.0, 0.0)

  datatype CostModel =
    | Nbbo(cfg: FillConfig, perContract: real)
    | ZeroCost

  datatype Fill = Fill(price: real, commission: real)

  datatype CostError = CrossedQuote | UnusableQuote | BetterThanNbbo

  datatype Priced = Priced(fill: Fill) | Refused(error: CostError)

  const TOLERANCE := 0.000000001

  function Mid(bid: real, ask: real): real {
    (bid + ask) / 2.0
  }

  /** The NBBO assertion: would this price be on the good side of the mid? */
  predicate BetterThanMid(price: real, mid: real, side: Side, tolerance: real) {
    match side
    case Buy => price < mid - tolerance
    case Sell => price > mid + tolerance
  }

  /** The mid moved the configured fraction toward the worse touch. */
  function Crossing(cfg: FillConfig, bid: real, ask: real, side: Side): real {
    var mid := Mid(bid, ask);
    match side
    case Buy => mid + cfg.spreadFraction * (ask - mid)
    case Sell => mid - cfg.spreadFraction * (mid - bid)
  }

  /** A price with proportional slippage against the trader. */
  function Slid(price: real, slip: real, side: Side): real {
    match side
    case Buy => price * (1.0 + slip)
    case Sell => price * (1.0 - slip)
  }

  /** The crossed price with all slippage against the trader, floored at zero. */
  function Slipped(crossed: real, slip: real, flat: real, side: Side): real {
    match side
    case Buy => Max(Slid(crossed, slip, Buy) + flat, 0.0)
    case Sell => Max(Slid(crossed, slip, Sell) - flat, 0.0)
  }

  function LegFill(m: CostModel, bid: real, ask: real, side: Side, contracts: nat): Priced {
    if bid > ask then
      Refused(CrossedQuote)
    else
      match m
      case ZeroCost => Priced(Fill(Max(Mid(bid, ask), 0.0), 0.0))
      case Nbbo(cfg, perContract) =>
        var price := Slipped(Crossing(cfg, bid, ask, side), cfg.slippagePct, cfg.slippageFlat, side);
        if BetterThanMid(price, Mid(bid, ask), side, TOLERANCE) then
          Refused(BetterThanNbbo)
        else
          Priced(Fill(price, perContract * (contracts as real)))
  }

  function EquityFill(m: CostModel, bid: real, ask: real, side: Side): Priced {
    match m
    case ZeroCost => Priced(Fill(Max(Mid(bid, ask), 0.0), 0.0))
    case Nbbo(cfg, _) =>
      if bid <= 0.0 || ask <= 0.0 || ask < bid then
        Refused(UnusableQuote)
      else
        var crossed := Crossing(cfg, bid, ask, side);
        var slip := cfg.equityBps / 10000.0;
        var price := Slid(crossed, slip, side);
        if BetterThanMid(price, Mid(bid, ask), side, 0.0) then
          Refused(BetterThanNbbo)
        else
          Priced(Fill(Max(price, 0.0), 0.0))
  }

  ghost predicate Honest(m: CostModel) {
    m.Nbbo? ==> m.cfg.Valid() && m.perContract >= 0.0
  }

  lemma CrossingIsAdverse(cfg: FillConfig, bid: real, ask: real, side: Side)
    requires cfg.Valid() && bid <= ask
    ensures side.Buy? ==> Mid(bid, ask) <= Crossing(cfg, bid, ask, side) <= ask
    ensures side.Sell? ==> bid <= Crossing(cfg, bid, ask, side) <= Mid(bid, ask)
  {
    var half := (ask - bid) / 2.0;
    assert ask - Mid(bid, ask) == half && Mid(bid, ask) - bid == half;
    ProductNonNegative(cfg.spreadFraction, half);
    ProductNonNegative(1.0 - cfg.spreadFraction, half);
  }

  /** On a quote with a non-negative bid, an option leg is refused exactly when the
      book is crossed: the better-than-NBBO assertion never fires, every price is at
      the mid or on its adverse side, and the commission is per contract. */
  lemma OptionFillIsAdverse(m: CostModel, bid: real, ask: real, side: Side, contracts: nat)
    requires Honest(m) && bid >= 0.0
    ensures LegFill(m, bid, ask, side, contracts).Refused? <==> bid > ask
    ensures LegFill(m, bid, ask, side, contracts) != Refused(BetterThanNbbo)
    ensures bid <= ask ==>
              var f := LegFill(m, bid, ask, side, contracts).fill;
              && f.price >= 0.0
              && f.commission >= 0.0
              && side.Sign() * (f.price - Mid(bid, ask)) >= 0.0
  {
    if bid <= ask && m.Nbbo? {
      hide Crossing, Slipped;
      var cfg := m.cfg;
      CrossingIsAdverse(cfg, bid, ask, side);
      SlippedIsAdverse(Crossing(cfg, bid, ask, side), cfg.slippagePct, cfg.slippageFlat, side);
      CommissionNonNegative(m.perContract, contracts);
      SignedDistance(side, Slipped(Crossing(cfg, bid, ask, side), cfg.slippagePct, cfg.slippageFlat, side) - Mid(bid, ask));
      hide Side.Sign;
    }
  }

  lemma CommissionNonNegative(rate: real, contracts: nat)
    requires rate >= 0.0
    ensures rate * (contracts as real) >= 0.0
  {
    ProductNonNegative(rate, contracts as real);
  }

  lemma SlippedIsAdverse(c: real, slip: real, flat: real, side: Side)
    requires c >= 0.0 && slip >= 0.0 && flat >= 0.0
    ensures Slipped(c, slip, flat, side) >= 0.0
    ensures if side.Buy? then Slipped(c, slip, flat, side) >= c else Slipped(c, slip, flat, side) <= c
  {
    SlidIsAdverse(c, slip, side);
    hide Slid;
  }

  lemma SlidIsAdverse(c: real, slip: real, side: Side)
    requires c >= 0.0 && slip >= 0.0
    ensures if side.Buy? then Slid(c, slip, side) >= c else Slid(c, slip, side) <= c
  {
    ProductNonNegative(c, slip);
    assert c * (1.0 + slip) == c + c * slip;
    assert c * (1.0 - slip) == c - c * slip;
  }

  /** The sign of a side in front of a distance. */
  lemma SignedDistance(side: Side, d: real)
    ensures side.Sign() * d == if side.Buy? then d else -d
  {
  }

  /** The same for shares: an unusable quote is refused, nothing else is. */
  lemma EquityFillIsAdverse(m: CostModel, bid: real, ask: real, side: Side)
    requires Honest(m) && m.Nbbo?
    ensures EquityFill(m, bid, ask, side).Refused? <==> bid <= 0.0 || ask <= 0.0 || ask < bid
    ensures EquityFill(m, bid, ask, side) != Refused(BetterThanNbbo)
    ensures EquityFill(m, bid, ask, side).Priced? ==>
              var f := EquityFill(m, bid, ask, side).fill;
              && f.price >= 0.0
              && f.commission == 0.0
              && side.Sign() * (f.price - Mid(bid, ask)) >= 0.0
  {
    if 0.0 < bid <= ask {
      var cfg := m.cfg;
      var c := Crossing(cfg, bid, ask, side);
      CrossingIsAdverse(cfg, bid, ask, side);
      hide Crossing, Slid;
      var slip := cfg.equityBps / 10000.0;
      SlidIsAdverse(c, slip, side);
      SignedDistance(side, Max(Slid(c, slip, side), 0.0) - Mid(bid, ask));
      hide Side.Sign;
    }
  }

  /** Under either model, with no friction at all in the zeroed configuration. */
  lemma AnyEquityFillIsAdverse(m: CostModel, bid: real, ask: real, side: Side)
    requires Honest(m) && bid > 0.0 && ask > 0.0 && EquityFill(m, bid, ask, side).Priced?
    ensures var f := EquityFill(m, bid, ask, side).fill;
            && f.commission >= 0.0
            && side.Sign() * (f.price - Mid(bid, ask)) >= 0.0
            && (m == Nbbo(ZEROED, 0.0) ==> f == Fill(Mid(bid, ask), 0.0))
  {
    if m.Nbbo? {
      EquityFillIsAdverse(m, bid, ask, side);
    }
  }

  /** Slippage of more than the whole premium turns a negative crossed price into one that
      is above the mid by more than the tolerance. */
  predicate Overslips(cfg: FillConfig, bid: real, ask: real) {
    var c := Crossing(cfg, bid, ask, Sell);
    cfg.slippagePct > 1.0 && c < 0.0 && -c * (cfg.slippagePct - 1.0) > Mid(bid, ask) + cfg.slippageFlat + TOLERANCE
  }

  /** When the bid may be negative the better-than-NBBO assertion is reachable. It fires
      exactly on a sale into an uncrossed book whose mid is negative beyond the tolerance,
      because the floor at zero then lands above the mid, or whose negative crossed price
      is overslipped. */
  lemma NbboAssertionFiresIff(cfg: FillConfig, perContract: real, bid: real, ask: real, side: Side, contracts: nat)
    requires cfg.Valid()
    ensures LegFill(Nbbo(cfg, perContract), bid, ask, side, contracts) == Refused(BetterThanNbbo)
            <==> bid <= ask && side.Sell? && (Mid(bid, ask) < -TOLERANCE || Overslips(cfg, bid, ask))
  {
    if bid <= ask {
      var c := Crossing(cfg, bid, ask, side);
      CrossingIsAdverse(cfg, bid, ask, side);
      hide Crossing;
      match side
      case Buy => BuyStaysAdverse(c, cfg.slippagePct, cfg.slippageFlat, Mid(bid, ask));
      case Sell => SaleBeatsMidIff(c, cfg.slippagePct, cfg.slippageFlat, Mid(bid, ask));
    }
  }

  lemma BuyStaysAdverse(c: real, slip: real, flat: real, mid: real)
    requires c >= mid && slip >= 0.0 && flat >= 0.0
    ensures Slipped(c, slip, flat, Buy) >= mid
  {
    if c >= 0.0 {
      SlidIsAdverse(c, slip, Buy);
    }
    hide Slid;
  }

  lemma SaleBeatsMidIff(c: real, slip: real, flat: real, mid: real)
    requires c <= mid && slip >= 0.0 && flat >= 0.0
    ensures Slipped(c, slip, flat, Sell) > mid + TOLERANCE
            <==> mid < -TOLERANCE || (slip > 1.0 && c < 0.0 && -c * (slip - 1.0) > mid + flat + TOLERANCE)
  {
    if c >= 0.0 {
      SlidIsAdverse(c, slip, Sell);
    } else {
      NegativeSale(c, slip);
    }
    hide Slid;
  }

  lemma NegativeSale(c: real, slip: real)
    requires c < 0.0
    ensures Slid(c, slip, Sell) == -c * (slip - 1.0)
    ensures slip <= 1.0 ==> Slid(c, slip, Sell) <= 0.0
  {
    assert c * (1.0 - slip) == -c * (slip - 1.0);
    if slip <= 1.0 {
      ProductNonNegative(-c, 1.0 - slip);
      assert -c * (1.0 - slip) == -(c * (1.0 - slip));
    }
  }

  /** Component by component, at least as much friction. */
  predicate AtLeast(more: FillConfig, less: FillConfig) {
    && more.spreadFraction >= less.spreadFraction
    && more.slippagePct >= less.slippagePct
    && more.slippageFlat >= less.slippageFlat
  }

  lemma SaleSlidesFurther(c: real, c': real, slip: real, slip': real)
    requires 0.0 <= c' <= c && 0.0 <= slip <= slip'
    ensures Slid(c', slip', Sell) <= Max(Slid(c, slip, Sell), 0.0)
  {
    if slip' <= 1.0 {
      ProductNonNegative(c - c', 1.0 - slip');
      ProductNonNegative(c, slip' - slip);
      assert (c - c') * (1.0 - slip') == c * (1.0 - slip') - c' * (1.0 - slip');
      assert c * (slip' - slip) == c * (1.0 - slip) - c * (1.0 - slip');
    } else {
      ProductNonNegative(c', slip' - 1.0);
      assert c' * (slip' - 1.0) == -(c' * (1.0 - slip'));
    }
  }

  lemma PurchaseSlidesFurther(c: real, c': real, slip: real, slip': real)
    requires 0.0 <= c <= c' && 0.0 <= slip <= slip'
    ensures Slid(c, slip, Buy) <= Slid(c', slip', Buy)
  {
    ProductNonNegative(c' - c, 1.0 + slip);
    ProductNonNegative(c', slip' - slip);
    assert (c' - c) * (1.0 + slip) == c' * (1.0 + slip) - c * (1.0 + slip);
    assert c' * (slip' - slip) == c' * (1.0 + slip') - c' * (1.0 + slip);
  }

  lemma CrossesFurther(more: FillConfig, less: FillConfig, bid: real, ask: real, side: Side)
    requires more.Valid() && less.Valid() && AtLeast(more, less) && bid <= ask
    ensures if side.Buy? then Crossing(more, bid, ask, side) >= Crossing(less, bid, ask, side)
            else Crossing(more, bid, ask, side) <= Crossing(less, bid, ask, side)
  {
    var half := (ask - bid) / 2.0;
    assert ask - Mid(bid, ask) == half && Mid(bid, ask) - bid == half;
    ProductNonNegative(more.spreadFraction - less.spreadFraction, half);
    assert (more.spreadFraction - less.spreadFraction) * half == more.spreadFraction * half - less.spreadFraction * half;
  }

  lemma PriceIsSlipped(cfg: FillConfig, perContract: real, bid: real, ask: real, side: Side, contracts: nat)
    requires cfg.Valid() && 0.0 <= bid <= ask && perContract >= 0.0
    ensures var r := LegFill(Nbbo(cfg, perContract), bid, ask, side, contracts);
            r.Priced? && r.fill.price == Slipped(Crossing(cfg, bid, ask, side), cfg.slippagePct, cfg.slippageFlat, side)
  {
    OptionFillIsAdverse(Nbbo(cfg, perContract), bid, ask, side, contracts);
    hide Crossing, Slipped;
  }

  lemma SlipsFurther(c: real, c': real, less: FillConfig, more: FillConfig, side: Side)
    requires less.Valid() && AtLeast(more, less) && c >= 0.0 && c' >= 0.0
    requires if side.Buy? then c <= c' else c' <= c
    ensures var a, b := Slipped(c', more.slippagePct, more.slippageFlat, side), Slipped(c, less.slippagePct, less.slippageFlat, side);
            if side.Buy? then a >= b else a <= b
  {
    match side
    case Buy => PurchaseSlidesFurther(c, c', less.slippagePct, more.slippagePct);
    case Sell => SaleSlidesFurther(c, c', less.slippagePct, more.slippagePct);
    hide Slid;
  }

  /** Friction only hurts: on one quote, more of any friction never buys lower nor sells
      higher. */
  lemma FrictionOnlyHurts(more: FillConfig, less: FillConfig, perContract: real, bid: real, ask: real, side: Side, contracts: nat)
    requires more.Valid() && less.Valid() && AtLeast(more, less) && 0.0 <= bid <= ask && perContract >= 0.0
    ensures var a, b := LegFill(Nbbo(more, perContract), bid, ask, side, contracts), LegFill(Nbbo(less, perContract), bid, ask, side, contracts);
            a.Priced? && b.Priced? && side.Sign() * (a.fill.price - b.fill.price) >= 0.0
  {
    PriceIsSlipped(more, perContract, bid, ask, side, contracts);
    PriceIsSlipped(less, perContract, bid, ask, side, contracts);
    CrossingIsAdverse(more, bid, ask, side);
    CrossingIsAdverse(less, bid, ask, side);
    CrossesFurther(more, less, bid, ask, side);
    var c, c' := Crossing(less, bid, ask, side), Crossing(more, bid, ask, side);
    hide Crossing, Slipped, LegFill;
    SlipsFurther(c, c', less, more, side);
    SignedDistance(side, Slipped(c', more.slippagePct, more.slippageFlat, side) - Slipped(c, less.slippagePct, less.slippageFlat, side));
    hide Side.Sign;
  }

  /** What an option leg costs, from the quote and the configuration alone. With h half the
      spread and f the configured fraction of it: a buy pays mid + f * h, plus slippage in
      percent and then in dollars; a sale gets mid - f * h less both, but never less than
      nothing; and the commission is per contract. */
  lemma OptionFillPays(cfg: FillConfig, rate: real, bid: real, ask: real, side: Side, contracts: nat)
    requires cfg.Valid() && 0.0 <= bid <= ask && rate >= 0.0
    ensures var mid, h := (bid + ask) / 2.0, (ask - bid) / 2.0;
            var paid := (mid + cfg.spreadFraction * h) * (1.0 + cfg.slippagePct) + cfg.slippageFlat;
            var got := (mid - cfg.spreadFraction * h) * (1.0 - cfg.slippagePct) - cfg.slippageFlat;
            LegFill(Nbbo(cfg, rate), bid, ask, side, contracts) ==
            Priced(Fill(if side.Buy? then paid else if got >= 0.0 then got else 0.0, rate * (contracts as real)))
  {
    OptionFillOff(cfg, rate, bid, ask, side, contracts, cfg.spreadFraction * ((ask - bid) / 2.0));
    hide LegFill;
  }

  lemma OptionFillOff(cfg: FillConfig, rate: real, bid: real, ask: real, side: Side, contracts: nat, off: real)
    requires cfg.Valid() && 0.0 <= bid <= ask && rate >= 0.0 && off == cfg.spreadFraction * ((ask - bid) / 2.0)
    ensures var mid := (bid + ask) / 2.0;
            var paid := (mid + off) * (1.0 + cfg.slippagePct) + cfg.slippageFlat;
            var got := (mid - off) * (1.0 - cfg.slippagePct) - cfg.slippageFlat;
            LegFill(Nbbo(cfg, rate), bid, ask, side, contracts) ==
            Priced(Fill(if side.Buy? then paid else if got >= 0.0 then got else 0.0, rate * (contracts as real)))
  {
    var c, mid := Crossing(cfg, bid, ask, side), (bid + ask) / 2.0;
    OptionFillIsAdverse(Nbbo(cfg, rate), bid, ask, side, contracts);
    CrossedNonNegative(cfg, bid, ask, side);
    CrossedBy(cfg, bid, ask, side);
    hide Crossing, Slipped;
    assert c == if side.Buy? then mid + off else mid - off;
    SlippedIs(c, cfg.slippagePct, cfg.slippageFlat, side);
  }

  lemma SlippedIs(c: real, slip: real, flat: real, side: Side)
    requires c >= 0.0 && slip >= 0.0 && flat >= 0.0
    ensures var paid, got := c * (1.0 + slip) + flat, c * (1.0 - slip) - flat;
            Slipped(c, slip, flat, side) == if side.Buy? then paid else if got >= 0.0 then got else 0.0
  {
    SlidIsAdverse(c, slip, side);
  }

  /** The frictionless twin trades at the mid, for nothing. */
  lemma TwinFillPays(bid: real, ask: real, side: Side, contracts: nat)
    requires 0.0 <= bid <= ask
    ensures LegFill(ZeroCost, bid, ask, side, contracts) == Priced(Fill((bid + ask) / 2.0, 0.0))
    ensures bid > 0.0 ==> EquityFill(ZeroCost, bid, ask, side) == Priced(Fill((bid + ask) / 2.0, 0.0))
  {
  }

  lemma CrossedBy(cfg: FillConfig, bid: real, ask: real, side: Side)
    ensures var mid, h := (bid + ask) / 2.0, (ask - bid) / 2.0;
            Crossing(cfg, bid, ask, side) == if side.Buy? then mid + cfg.spreadFraction * h else mid - cfg.spreadFraction * h
  {
    var h := (ask - bid) / 2.0;
    assert ask - Mid(bid, ask) == h && Mid(bid, ask) - bid == h;
  }

  /** What shares cost: the same crossing, slippage in basis points, and no commission. */
  lemma ShareFillPays(cfg: FillConfig, rate: real, bid: real, ask: real, side: Side)
    requires cfg.Valid() && 0.0 < bid <= ask && rate >= 0.0
    ensures var mid, h := (bid + ask) / 2.0, (ask - bid) / 2.0;
            var paid := (mid + cfg.spreadFraction * h) * (1.0 + cfg.equityBps / 10000.0);
            var got := (mid - cfg.spreadFraction * h) * (1.0 - cfg.equityBps / 10000.0);
            EquityFill(Nbbo(cfg, rate), bid, ask, side) ==
            Priced(Fill(if side.Buy? then paid else if got >= 0.0 then got else 0.0, 0.0))
  {
    ShareFillOff(cfg, rate, bid, ask, side, cfg.spreadFraction * ((ask - bid) / 2.0), cfg.equityBps / 10000.0);
    hide EquityFill;
  }

  lemma ShareFillOff(cfg: FillConfig, rate: real, bid: real, ask: real, side: Side, off: real, slip: real)
    requires cfg.Valid() && 0.0 < bid <= ask && rate >= 0.0
    requires off == cfg.spreadFraction * ((ask - bid) / 2.0) && slip == cfg.equityBps / 10000.0
    ensures var mid := (bid + ask) / 2.0;
            var paid, got := (mid + off) * (1.0 + slip), (mid - off) * (1.0 - slip);
            EquityFill(Nbbo(cfg, rate), bid, ask, side) ==
            Priced(Fill(if side.Buy? then paid else if got >= 0.0 then got else 0.0, 0.0))
  {
    var c, mid := Crossing(cfg, bid, ask, side), (bid + ask) / 2.0;
    EquityFillIsAdverse(Nbbo(cfg, rate), bid, ask, side);
    CrossedNonNegative(cfg, bid, ask, side);
    CrossedBy(cfg, bid, ask, side);
    hide Crossing, Slid;
    assert c == if side.Buy? then mid + off else mid - off;
    SlidIsAdverse(c, slip, side);
    SlidIs(c, slip, side);
  }

  lemma CrossedNonNegative(cfg: FillConfig, bid: real, ask: real, side: Side)
    requires cfg.Valid() && 0.0 <= bid <= ask
    ensures Crossing(cfg, bid, ask, side) >= 0.0
  {
    CrossingIsAdverse(cfg, bid, ask, side);
    hide Crossing;
  }

  lemma SlidIs(price: real, slip: real, side: Side)
    ensures Slid(price, slip, side) == if side.Buy? then price * (1.0 + slip) else price * (1.0 - slip)
  {
  }

  /** The zeroed configuration and the frictionless twin price options alike. */
  lemma ZeroedConfigIsTheTwin(bid: real, ask: real, side: Side, contracts: nat)
    requires bid >= 0.0
    ensures LegFill(Nbbo(ZEROED, 0.0), bid, ask, side, contracts) == LegFill(ZeroCost, bid, ask, side, contracts)
    ensures bid <= ask ==>
              LegFill(Nbbo(ZEROED, 0.0), bid, ask, side, contracts) == Priced(Fill(Mid(bid, ask), 0.0))
  {
    if bid <= ask {
      OptionFillIsAdverse(Nbbo(ZEROED, 0.0), bid, ask, side, contracts);
      assert Crossing(ZEROED, bid, ask, side) == Mid(bid, ask);
    }
  }
}
