// The edge platform's fill model (src/edge/execution/costmodel.py): marketable fills,
// fills with latency, and the limit-order loop over a quote path.
module ExecutionFills {
  import opened Common
  import opened Instruments
  import opened Costs

  /** QuoteEvent; its fields are non-negative by validation. */
  datatype Nbbo = Nbbo(ts: int, bid: real, ask: real, bidSize: nat, askSize: nat) {
    predicate Valid() {
      bid >= 0.0 && ask >= 0.0
    }

    function QuoteMid(): real {
      Mid(bid, ask)
    }
  }

  datatype Config = Config(spreadFraction: real, slippagePct: real, perContract: real, mult: int) {
    predicate Valid() {
      0.0 <= spreadFraction <= 1.0 && slippagePct >= 0.0 && perContract >= 0.0 && mult > 0
    }

    function Friction(): FillConfig {
      FillConfig(spreadFraction, slippagePct, 0.0, 0.0)
    }
  }

  datatype Status = Complete | Partial | Unfilled

  datatype FillCosts = FillCosts(spread: real, slippage: real, commission: real)

  datatype FillResult = FillResult(status: Status, qty: nat, price: Option<real>, costs: FillCosts)

  datatype FillError = BadQuantity | BadLimit | CrossedBook | OutOfOrder | BetterThanMid_ | NegativeLatency | Lookahead

  datatype Outcome = Done(result: FillResult) | Raised(error: FillError)

  const NO_FILL := FillResult(Unfilled, 0, None, FillCosts(0.0, 0.0, 0.0))

  /** How far a price lies on the adverse side of the mid. */
  function Away(side: Side, price: real, mid: real): real {
    match side
    case Buy => price - mid
    case Sell => mid - price
  }

  function Fee(cfg: Config, qty: int): real {
    cfg.perContract * (qty as real)
  }

  // ---- marketable fills ----------------------------------------------------

  /** Dollars of a per-share distance over a fill. */
  function Charge(distance: real, qty: int, mult: int): real {
    distance * ((qty * mult) as real)
  }

  function MarketableFill(cfg: Config, q: Nbbo, side: Side, qty: int): Outcome {
    if qty < 1 then Raised(BadQuantity)
    else if q.bid > q.ask then Raised(CrossedBook)
    else
      var crossed := Crossing(cfg.Friction(), q.bid, q.ask, side);
      var price := Slipped(crossed, cfg.slippagePct, 0.0, side);
      if BetterThanMid(price, q.QuoteMid(), side, TOLERANCE) then Raised(BetterThanMid_)
      else
        var adverse := Charge(Away(side, price, q.QuoteMid()), qty, cfg.mult);
        var spread := Charge(Away(side, crossed, q.QuoteMid()), qty, cfg.mult);
        Done(FillResult(Complete, qty, Some(price), FillCosts(spread, adverse - spread, Fee(cfg, qty))))
  }

  lemma ChargeMonotone(a: real, b: real, qty: int, mult: int)
    requires qty >= 0 && mult > 0 && a <= b
    ensures Charge(a, qty, mult) <= Charge(b, qty, mult)
    ensures Charge(0.0, qty, mult) == 0.0
  {
    NatProduct(qty, mult);
    ProductNonNegative(b - a, (qty * mult) as real);
  }

  lemma NatProduct(a: int, b: int)
    requires a >= 0 && b >= 0
    ensures a * b >= 0
  {
  }

  /** A sane market order always fills whole, on the adverse side of the mid, and its
      attribution is exact: spread and slippage add up to the signed distance from the
      mid in dollars, and no component is negative. */
  lemma MarketableIsAttributed(cfg: Config, q: Nbbo, side: Side, qty: int)
    requires cfg.Valid() && q.Valid()
    ensures MarketableFill(cfg, q, side, qty).Raised? <==> qty < 1 || q.bid > q.ask
    ensures MarketableFill(cfg, q, side, qty) != Raised(BetterThanMid_)
    ensures MarketableFill(cfg, q, side, qty).Done? ==>
              var r := MarketableFill(cfg, q, side, qty).result;
              && r.status == Complete && r.qty == qty && r.price.Some?
              && Away(side, r.price.value, q.QuoteMid()) >= 0.0
              && r.costs.spread + r.costs.slippage == Charge(Away(side, r.price.value, q.QuoteMid()), qty, cfg.mult)
              && r.costs.spread >= 0.0 && r.costs.slippage >= 0.0 && r.costs.commission >= 0.0
  {
    hide Charge, Crossing, Slipped, Fee;
    if qty >= 1 && q.bid <= q.ask {
      var c := Crossing(cfg.Friction(), q.bid, q.ask, side);
      var mid := q.QuoteMid();
      CrossingIsAdverse(cfg.Friction(), q.bid, q.ask, side);
      SlippedIsAdverse(c, cfg.slippagePct, 0.0, side);
      FeeNonNegative(cfg, qty);
      ChargeMonotone(0.0, Away(side, c, mid), qty, cfg.mult);
      ChargeMonotone(Away(side, c, mid), Away(side, Slipped(c, cfg.slippagePct, 0.0, side), mid), qty, cfg.mult);
    }
  }

  /** What a marketable order pays and to whom, from the quote and the configuration alone.
      With h half the spread and f the configured fraction of it, the fill is off the mid by
      f * h and then by slippage in percent, never below nothing; f * h on every contract is
      the spread cost, spread and slippage together are the distance from the mid, and the
      commission is per contract. */
  lemma MarketablePays(cfg: Config, q: Nbbo, side: Side, qty: int)
    requires cfg.Valid() && q.Valid() && qty >= 1 && q.bid <= q.ask
    ensures MarketableFill(cfg, q, side, qty).Done?
    ensures var r := MarketableFill(cfg, q, side, qty).result;
            var off := cfg.spreadFraction * ((q.ask - q.bid) / 2.0);
            && r.status == Complete && r.qty == qty
            && r.price == Some(PriceOff(cfg, q, side, off))
            && r.costs.spread == off * ((qty * cfg.mult) as real)
            && r.costs.spread + r.costs.slippage == DistanceOff(cfg, q, side, off) * ((qty * cfg.mult) as real)
            && r.costs.commission == cfg.perContract * (qty as real)
  {
    var mid, off := (q.bid + q.ask) / 2.0, cfg.spreadFraction * ((q.ask - q.bid) / 2.0);
    var c := Crossing(cfg.Friction(), q.bid, q.ask, side);
    var price := Slipped(c, cfg.slippagePct, 0.0, side);
    MarketableIs(cfg, q, side, qty);
    CrossedOff(cfg, q, side, off);
    hide Crossing, Slipped, Charge, MarketableFill, PriceOff;
    ChargeIs(off, qty, cfg.mult);
    ChargeIs(Away(side, price, mid), qty, cfg.mult);
  }

  /** mid and off away from it on the side of the trader's loss, then slippage, floored. */
  function PriceOff(cfg: Config, q: Nbbo, side: Side, off: real): real {
    var mid := (q.bid + q.ask) / 2.0;
    var raw := if side.Buy? then (mid + off) * (1.0 + cfg.slippagePct) else (mid - off) * (1.0 - cfg.slippagePct);
    if raw >= 0.0 then raw else 0.0
  }

  function DistanceOff(cfg: Config, q: Nbbo, side: Side, off: real): real {
    var mid := (q.bid + q.ask) / 2.0;
    if side.Buy? then PriceOff(cfg, q, side, off) - mid else mid - PriceOff(cfg, q, side, off)
  }

  lemma CrossedOff(cfg: Config, q: Nbbo, side: Side, off: real)
    requires cfg.Valid() && q.Valid() && q.bid <= q.ask && off == cfg.spreadFraction * ((q.ask - q.bid) / 2.0)
    ensures var c, mid := Crossing(cfg.Friction(), q.bid, q.ask, side), (q.bid + q.ask) / 2.0;
            && Away(side, c, mid) == off
            && Slipped(c, cfg.slippagePct, 0.0, side) == PriceOff(cfg, q, side, off)
  {
    var c, mid := Crossing(cfg.Friction(), q.bid, q.ask, side), (q.bid + q.ask) / 2.0;
    CrossedNonNegative(cfg.Friction(), q.bid, q.ask, side);
    CrossedBy(cfg.Friction(), q.bid, q.ask, side);
    hide Crossing, Slipped;
    assert c == if side.Buy? then mid + off else mid - off;
    PricedOff(cfg, q, side, off, c);
  }

  lemma PricedOff(cfg: Config, q: Nbbo, side: Side, off: real, c: real)
    requires cfg.Valid() && c >= 0.0 && c == (q.bid + q.ask) / 2.0 + (if side.Buy? then off else -off)
    ensures Slipped(c, cfg.slippagePct, 0.0, side) == PriceOff(cfg, q, side, off)
  {
    hide Slipped;
    SlippedIs(c, cfg.slippagePct, 0.0, side);
    SlippedIsAdverse(c, cfg.slippagePct, 0.0, side);
  }

  lemma MarketableIs(cfg: Config, q: Nbbo, side: Side, qty: int)
    requires cfg.Valid() && q.Valid() && qty >= 1 && q.bid <= q.ask
    ensures MarketableFill(cfg, q, side, qty).Done?
    ensures var r := MarketableFill(cfg, q, side, qty).result;
            var mid := (q.bid + q.ask) / 2.0;
            var c := Crossing(cfg.Friction(), q.bid, q.ask, side);
            var price := Slipped(c, cfg.slippagePct, 0.0, side);
            && r.status == Complete && r.qty == qty && r.price == Some(price)
            && r.costs.spread == Charge(Away(side, c, mid), qty, cfg.mult)
            && r.costs.spread + r.costs.slippage == Charge(Away(side, price, mid), qty, cfg.mult)
            && r.costs.commission == cfg.perContract * (qty as real)
  {
    MarketableIsAttributed(cfg, q, side, qty);
    hide Crossing, Slipped, Charge, Away;
  }

  lemma ChargeIs(distance: real, qty: int, mult: int)
    ensures Charge(distance, qty, mult) == distance * ((qty * mult) as real)
  {
  }

  lemma FeeNonNegative(cfg: Config, qty: int)
    requires cfg.Valid() && qty >= 0
    ensures Fee(cfg, qty) >= 0.0
  {
    ProductNonNegative(cfg.perContract, qty as real);
  }

  // ---- latency -------------------------------------------------------------

  function FillWithLatency(cfg: Config, decision: Nbbo, later: Option<Nbbo>, latency: int, side: Side, qty: int): Outcome {
    if latency < 0 then Raised(NegativeLatency)
    else
      match later
      case None => Done(NO_FILL)
      case Some(q) =>
        if q.ts > decision.ts + latency then Raised(Lookahead)
        else if q.ts < decision.ts then Done(NO_FILL)
        else MarketableFill(cfg, q, side, qty)
  }

  /** A latent order trades only on a quote of its own transit window, and then at a
      price of that quote: the decision quote never leaks into the fill. A quote from after the
      window raises, and one from before the decision fills nothing. */
  lemma FillsOffTheArrivalQuote(cfg: Config, decision: Nbbo, other: Nbbo, later: Option<Nbbo>, latency: int, side: Side, qty: int)
    requires cfg.Valid() && (later.Some? ==> later.value.Valid())
    ensures var out := FillWithLatency(cfg, decision, later, latency, side, qty);
            && (out.Done? && out.result.qty > 0 ==>
                  && later.Some? && decision.ts <= later.value.ts <= decision.ts + latency
                  && Away(side, out.result.price.value, later.value.QuoteMid()) >= 0.0)
            && (later.Some? && decision.ts <= later.value.ts <= decision.ts + latency ==>
                  out == MarketableFill(cfg, later.value, side, qty))
            && (other.ts == decision.ts ==> out == FillWithLatency(cfg, other, later, latency, side, qty))
            && (latency < 0 ==> out == Raised(NegativeLatency))
            && (latency >= 0 && later.Some? && later.value.ts > decision.ts + latency ==> out == Raised(Lookahead))
            && (latency >= 0 && (later.None? || later.value.ts < decision.ts) ==> out == Done(NO_FILL))
  {
    hide MarketableFill;
    if later.Some? {
      MarketableIsAttributed(cfg, later.value, side, qty);
    }
  }

  // ---- limit orders --------------------------------------------------------

  /** Does the opposite side cross the limit? */
  predicate CrossesLimit(q: Nbbo, side: Side, limit: real) {
    match side
    case Buy => 0.0 < q.ask <= limit
    case Sell => q.bid >= limit
  }

  function Displayed(q: Nbbo, side: Side): nat {
    match side
    case Buy => q.askSize
    case Sell => q.bidSize
  }

  /** What one quote offers the order: its displayed size, at least one contract, when
      it crosses. */
  function Offer(q: Nbbo, side: Side, limit: real): nat {
    if !CrossesLimit(q, side, limit) then 0
    else if Displayed(q, side) < 1 then 1 else Displayed(q, side)
  }

  /** What the first n quotes offer together. */
  function Offered(path: seq<Nbbo>, side: Side, limit: real, n: nat): nat
    requires n <= |path|
  {
    if n == 0 then 0 else Offered(path, side, limit, n - 1) + Offer(path[n - 1], side, limit)
  }

  function Least(a: nat, b: nat): nat {
    if a <= b then a else b
  }

  /** Contracts filled after the first n quotes. */
  function FilledAfter(path: seq<Nbbo>, side: Side, limit: real, qty: nat, n: nat): nat
    requires n <= |path|
  {
    Least(qty, Offered(path, side, limit, n))
  }

  /** Contracts quote i takes. */
  function Take(path: seq<Nbbo>, side: Side, limit: real, qty: nat, i: nat): (t: int)
    requires i < |path|
    ensures 0 <= t <= Offer(path[i], side, limit)
  {
    FilledAfter(path, side, limit, qty, i + 1) - FilledAfter(path, side, limit, qty, i)
  }

  /** Dollars from each crossing quote's mid to the limit, over what it filled. */
  function AdverseSelection(path: seq<Nbbo>, side: Side, limit: real, qty: nat, mult: int, n: nat): real
    requires n <= |path|
  {
    if n == 0 then 0.0
    else AdverseSelection(path, side, limit, qty, mult, n - 1)
         + Charge(Away(side, limit, path[n - 1].QuoteMid()), Take(path, side, limit, qty, n - 1), mult)
  }

  predicate BadAt(path: seq<Nbbo>, i: nat)
    requires i < |path|
  {
    (i > 0 && path[i].ts < path[i - 1].ts) || path[i].bid > path[i].ask
  }

  ghost predicate CleanPath(path: seq<Nbbo>) {
    forall i :: 0 <= i < |path| ==> !BadAt(path, i)
  }

  /** What the first bad quote from i on is refused for. */
  function PathError(path: seq<Nbbo>, i: nat): FillError
    requires i <= |path|
    decreases |path| - i
  {
    if i == |path| then CrossedBook
    else if i > 0 && path[i].ts < path[i - 1].ts then OutOfOrder
    else if path[i].bid > path[i].ask then CrossedBook
    else PathError(path, i + 1)
  }

  /** A crossing quote never lets a limit fill beat its mid. */
  lemma LimitNeverBeatsMid(q: Nbbo, side: Side, limit: real)
    requires q.bid <= q.ask && CrossesLimit(q, side, limit)
    ensures Away(side, limit, q.QuoteMid()) >= 0.0
    ensures !BetterThanMid(limit, q.QuoteMid(), side, TOLERANCE)
  {
  }

  /** limit_fill: what it fills is the order's size or everything the crossing quotes
      offer, whichever is less; it raises exactly on a bad argument or a bad path, and
      never because a tranche beat the mid. */
  method LimitFill(cfg: Config, side: Side, limit: real, qty: int, path: seq<Nbbo>) returns (out: Outcome)
    requires cfg.Valid()
    ensures out.Raised? <==> qty < 1 || limit <= 0.0 || !CleanPath(path)
    ensures out.Raised? ==> out.error == if qty < 1 then BadQuantity else if limit <= 0.0 then BadLimit else PathError(path, 0)
    ensures out.Done? ==>
              var filled := FilledAfter(path, side, limit, qty, |path|);
              var r := out.result;
              && r.qty == filled
              && (filled == 0 ==> r == NO_FILL)
              && (0 < filled ==>
                    && r.status == (if filled == qty then Complete else Partial)
                    && r.price == Some(limit)
                    && r.costs == FillCosts(AdverseSelection(path, side, limit, qty, cfg.mult, |path|), 0.0,
                                            Fee(cfg, filled)))
  {
    hide Charge, Fee;
    if qty < 1 {
      return Raised(BadQuantity);
    }
    if limit <= 0.0 {
      return Raised(BadLimit);
    }
    var remaining, spread := qty, 0.0;
    for i := 0 to |path|
      invariant 0 <= remaining == qty - FilledAfter(path, side, limit, qty, i)
      invariant spread == AdverseSelection(path, side, limit, qty, cfg.mult, i)
      invariant forall j :: 0 <= j < i ==> !BadAt(path, j)
      invariant PathError(path, 0) == PathError(path, i)
    {
      var q := path[i];
      if i > 0 && q.ts < path[i - 1].ts {
        assert BadAt(path, i);
        return Raised(OutOfOrder);
      }
      if q.bid > q.ask {
        assert BadAt(path, i);
        return Raised(CrossedBook);
      }
      if remaining == 0 || !CrossesLimit(q, side, limit) {
        NoTake(Away(side, limit, q.QuoteMid()), cfg.mult);
        continue;
      }
      LimitNeverBeatsMid(q, side, limit);
      if BetterThanMid(limit, q.QuoteMid(), side, TOLERANCE) {
        return Raised(BetterThanMid_);
      }
      var take := Least(remaining, if Displayed(q, side) < 1 then 1 else Displayed(q, side));
      spread := spread + Charge(Away(side, limit, q.QuoteMid()), take, cfg.mult);
      remaining := remaining - take;
    }
    var filled := qty - remaining;
    if filled == 0 {
      return Done(NO_FILL);
    }
    return Done(FillResult(if remaining == 0 then Complete else Partial, filled, Some(limit),
                           FillCosts(spread, 0.0, Fee(cfg, filled))));
  }

  lemma NoTake(distance: real, mult: int)
    ensures Charge(distance, 0, mult) == 0.0
  {
  }

  // ---- what the fills promise ----------------------------------------------

  /** What each quote of the path fills, from the quote alone: a buy is crossed by an ask
      above zero and at most the limit, a sale by a bid of at least the limit; and a crossing
      quote takes what is left of the order, up to the size shown on the side it trades
      with and at least one contract. */
  lemma LimitTakes(path: seq<Nbbo>, side: Side, limit: real, qty: nat, i: nat)
    requires i < |path|
    ensures FilledAfter(path, side, limit, qty, 0) == 0
    ensures var q := path[i];
            var left := qty - FilledAfter(path, side, limit, qty, i);
            var crosses := if side.Buy? then 0.0 < q.ask && q.ask <= limit else q.bid >= limit;
            var shown := if side.Buy? then q.askSize else q.bidSize;
            var most := if shown >= 1 then shown else 1;
            var take := if !crosses then 0 else if left <= most then left else most;
            FilledAfter(path, side, limit, qty, i + 1) == FilledAfter(path, side, limit, qty, i) + take
  {
    OfferedNext(path, side, limit, i);
    hide Offered;
  }

  /** And each contract it fills costs its distance from the mid of that quote. */
  lemma LimitCosts(path: seq<Nbbo>, side: Side, limit: real, qty: nat, mult: int, i: nat)
    requires i < |path|
    ensures AdverseSelection(path, side, limit, qty, mult, 0) == 0.0
    ensures var mid := (path[i].bid + path[i].ask) / 2.0;
            var take := FilledAfter(path, side, limit, qty, i + 1) - FilledAfter(path, side, limit, qty, i);
            AdverseSelection(path, side, limit, qty, mult, i + 1) ==
            AdverseSelection(path, side, limit, qty, mult, i)
            + (if side.Buy? then limit - mid else mid - limit) * ((take * mult) as real)
  {
    hide FilledAfter, Charge, AdverseSelection;
    CostNext(path, side, limit, qty, mult, i);
    ChargeIs(Away(side, limit, path[i].QuoteMid()), Take(path, side, limit, qty, i), mult);
  }

  lemma CostNext(path: seq<Nbbo>, side: Side, limit: real, qty: nat, mult: int, i: nat)
    requires i < |path|
    ensures AdverseSelection(path, side, limit, qty, mult, 0) == 0.0
    ensures AdverseSelection(path, side, limit, qty, mult, i + 1) ==
            AdverseSelection(path, side, limit, qty, mult, i)
            + Charge(Away(side, limit, path[i].QuoteMid()), Take(path, side, limit, qty, i), mult)
  {
    hide Charge, Take, Away;
  }

  lemma OfferedNext(path: seq<Nbbo>, side: Side, limit: real, i: nat)
    requires i < |path|
    ensures Offered(path, side, limit, 0) == 0
    ensures Offered(path, side, limit, i + 1) == Offered(path, side, limit, i) + Offer(path[i], side, limit)
  {
  }

  /** A path is refused for its first quote that is older than the one before it or has a
      crossed book, the age being looked at first. */
  lemma PathRefused(path: seq<Nbbo>)
    ensures CleanPath(path) <==>
            forall i :: 0 <= i < |path| ==> path[i].bid <= path[i].ask && (i > 0 ==> path[i - 1].ts <= path[i].ts)
    ensures !CleanPath(path) ==>
              exists i :: 0 <= i < |path| && BadAt(path, i) && (forall j :: 0 <= j < i ==> !BadAt(path, j))
                          && PathError(path, 0) == if i > 0 && path[i].ts < path[i - 1].ts then OutOfOrder else CrossedBook
  {
    if !CleanPath(path) {
      var i := FirstBad(path, 0);
      assert path[i].bid > path[i].ask || (i > 0 && path[i - 1].ts > path[i].ts);
    } else {
      forall i | 0 <= i < |path|
        ensures path[i].bid <= path[i].ask && (i > 0 ==> path[i - 1].ts <= path[i].ts)
      {
        assert !BadAt(path, i);
      }
    }
  }

  lemma FirstBad(path: seq<Nbbo>, from: nat) returns (i: nat)
    requires from <= |path| && exists i :: from <= i < |path| && BadAt(path, i)
    ensures from <= i < |path| && BadAt(path, i) && forall j :: from <= j < i ==> !BadAt(path, j)
    ensures PathError(path, from) == if i > 0 && path[i].ts < path[i - 1].ts then OutOfOrder else CrossedBook
    decreases |path| - from
  {
    if BadAt(path, from) {
      i := from;
    } else {
      i := FirstBad(path, from + 1);
    }
  }

  /** Every tranche is at its quote's mid or on the adverse side of it. */
  lemma TrancheIsAdverse(path: seq<Nbbo>, side: Side, limit: real, qty: nat, i: nat)
    requires i < |path| && !BadAt(path, i) && Take(path, side, limit, qty, i) > 0
    ensures Away(side, limit, path[i].QuoteMid()) >= 0.0
  {
    hide Take;
    LimitNeverBeatsMid(path[i], side, limit);
  }

  /** The cost of a limit fill is a sum of non-negative distances. */
  lemma {:induction false} AdverseSelectionNonNegative(path: seq<Nbbo>, side: Side, limit: real, qty: nat, mult: int, n: nat)
    requires n <= |path| && mult > 0 && CleanPath(path)
    ensures AdverseSelection(path, side, limit, qty, mult, n) >= 0.0
  {
    hide Charge, Take, Away, Offer;
    if n > 0 {
      AdverseSelectionNonNegative(path, side, limit, qty, mult, n - 1);
      var t := Take(path, side, limit, qty, n - 1);
      if t > 0 {
        TrancheIsAdverse(path, side, limit, qty, n - 1);
        ChargeMonotone(0.0, Away(side, limit, path[n - 1].QuoteMid()), t, mult);
      } else {
        NoTake(Away(side, limit, path[n - 1].QuoteMid()), mult);
      }
    }
  }

  /** At least as aggressive: a buy bids higher, a sale asks less. */
  predicate AtLeastAsAggressive(side: Side, limit: real, than: real) {
    match side
    case Buy => limit >= than
    case Sell => limit <= than
  }

  lemma {:induction false} OfferedGrows(path: seq<Nbbo>, side: Side, limit: real, than: real, n: nat)
    requires n <= |path| && AtLeastAsAggressive(side, limit, than)
    ensures Offered(path, side, limit, n) >= Offered(path, side, than, n)
  {
    if n > 0 {
      OfferedGrows(path, side, limit, than, n - 1);
    }
  }

  lemma {:induction false} OfferedExtends(path: seq<Nbbo>, more: seq<Nbbo>, side: Side, limit: real, n: nat)
    requires |path| <= n <= |path + more|
    ensures Offered(path + more, side, limit, n) >= Offered(path, side, limit, |path|)
    decreases n
  {
    if n == |path| {
      OfferedPrefix(path, more, side, limit, n);
    } else {
      OfferedExtends(path, more, side, limit, n - 1);
    }
  }

  lemma {:induction false} OfferedPrefix(path: seq<Nbbo>, more: seq<Nbbo>, side: Side, limit: real, n: nat)
    requires n <= |path|
    ensures Offered(path + more, side, limit, n) == Offered(path, side, limit, n)
  {
    if n > 0 {
      OfferedPrefix(path, more, side, limit, n - 1);
    }
  }

  /** Filled quantity never falls when the limit is more aggressive, the path longer
      or the order larger; and it never exceeds the order. */
  lemma FillsAreMonotone(path: seq<Nbbo>, more: seq<Nbbo>, side: Side, limit: real, than: real, qty: nat, smaller: nat)
    requires AtLeastAsAggressive(side, limit, than) && smaller <= qty
    ensures FilledAfter(path + more, side, limit, qty, |path + more|) >= FilledAfter(path, side, than, smaller, |path|)
    ensures FilledAfter(path, side, limit, qty, |path|) <= qty
  {
    OfferedExtends(path, more, side, limit, |path + more|);
    OfferedGrows(path, side, limit, than, |path|);
  }

  /** Filled quantity is positive exactly when some quote crosses. */
  lemma {:induction false} FillsIffCrossed(path: seq<Nbbo>, side: Side, limit: real, qty: nat, n: nat)
    requires qty >= 1 && n <= |path|
    ensures FilledAfter(path, side, limit, qty, n) > 0 <==> exists i :: 0 <= i < n && CrossesLimit(path[i], side, limit)
  {
    if n > 0 {
      FillsIffCrossed(path, side, limit, qty, n - 1);
    }
  }
}
