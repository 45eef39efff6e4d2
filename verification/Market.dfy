// Market snapshots and everything the broker computes from one without touching
// its ledger: marks, modeled fills, intrinsic values
// (src/catalyst/brokers/simulated.py:107-149, 166-188, 268-309).
module Market {
  import opened Common
  import opened Instruments
  import opened Costs

  datatype Quote = Quote(bid: Num, ask: Num)

  datatype Contract = Contract(key: Key, bid: Num, ask: Num)

  datatype Chain = Chain(spot: Num, contracts: seq<Contract>)

  /** The books the broker sees. fills is the current-bar equity book; when it is
      absent, equity fills fall back to the mark quotes. */
  datatype Snapshot = Snapshot(
    chains: map<string, Chain>,
    marks: map<string, Quote>,
    fills: Option<map<string, Quote>>)

  /** First contract with this key, as OptionChain.find scans. */
  function Find(contracts: seq<Contract>, key: Key): Option<Contract> {
    if contracts == [] then None
    else if contracts[0].key == key then Some(contracts[0])
    else Find(contracts[1..], key)
  }

  function ContractOf(m: Snapshot, key: Key): Option<Contract> {
    if key.underlying in m.chains then Find(m.chains[key.underlying].contracts, key) else None
  }

  function PositiveQuote(book: map<string, Quote>, underlying: string): Option<(real, real)> {
    if underlying !in book then None
    else
      match book[underlying]
      case Quote(Fin(bid), Fin(ask)) => if bid <= 0.0 || ask <= 0.0 then None else Some((bid, ask))
      case _ => None
  }

  // ---- marks ---------------------------------------------------------------

  function LegMid(m: Snapshot, key: Key): Option<real> {
    match key
    case EquityKey(underlying) =>
      (match PositiveQuote(m.marks, underlying)
       case None => None
       case Some(q) => Some(Mid(q.0, q.1)))
    case OptionKey(_, _, _, _) =>
      match ContractOf(m, key)
      case Some(Contract(_, Fin(bid), Fin(ask))) => if ask <= 0.0 then None else Some(Mid(bid, ask))
      case _ => None
  }

  predicate AllMarkable(m: Snapshot, legs: seq<Leg>) {
    forall i :: 0 <= i < |legs| ==> LegMid(m, legs[i].key).Some?
  }

  /** A leg's signed contribution to a structure's per-unit mark. */
  function MarkTerm(m: Snapshot): Leg -> real {
    (leg: Leg) => match LegMid(m, leg.key)
      case None => 0.0
      case Some(mid) => mid * leg.Signed()
  }

  /** The mark of a structure, or None when any leg has no quote. */
  function MarkValue(m: Snapshot, legs: seq<Leg>): Option<real> {
    if AllMarkable(m, legs) then Some(Sum(MarkTerm(m), legs)) else None
  }

  // ---- fills ---------------------------------------------------------------

  function FillBook(m: Snapshot): map<string, Quote> {
    if m.fills.Some? then m.fills.value else m.marks
  }

  /** The modeled fill of one leg, or None when the snapshot cannot fill it. */
  function FillOf(m: Snapshot, model: CostModel, leg: Leg): Option<Fill> {
    match leg.key
    case EquityKey(underlying) =>
      (match PositiveQuote(FillBook(m), underlying)
       case None => None
       case Some(q) => FromPriced(EquityFill(model, q.0, q.1, leg.side)))
    case OptionKey(_, _, _, _) =>
      match ContractOf(m, leg.key)
      case Some(Contract(_, Fin(bid), Fin(ask))) =>
        if ask <= 0.0 || bid < 0.0 || (leg.side.Sell? && bid <= 0.0) then None
        else FromPriced(LegFill(model, bid, ask, leg.side, leg.qty))
      case _ => None
  }

  function FromPriced(p: Priced): Option<Fill> {
    match p
    case Priced(fill) => Some(fill)
    case Refused(_) => None
  }

  predicate AllQuotable(m: Snapshot, model: CostModel, legs: seq<Leg>) {
    forall i :: 0 <= i < |legs| ==> FillOf(m, model, legs[i]).Some?
  }

  /** Signed cash of a leg at a price: buys pay, sells receive. */
  function LegCash(leg: Leg, price: real): real {
    -leg.side.Sign() * price * leg.Qty() * leg.key.Multiplier()
  }

  /** The premium cash of one filled leg. */
  function PremiumTerm(m: Snapshot, model: CostModel): Leg -> real {
    (leg: Leg) => match FillOf(m, model, leg)
      case None => 0.0
      case Some(fill) => LegCash(leg, fill.price)
  }

  function CommissionTerm(m: Snapshot, model: CostModel): Leg -> real {
    (leg: Leg) => match FillOf(m, model, leg)
      case None => 0.0
      case Some(fill) => fill.commission
  }

  /** How far a leg's fill lands from its mid, in dollars. */
  function DistanceTerm(m: Snapshot, model: CostModel): Leg -> real {
    (leg: Leg) => match (FillOf(m, model, leg), LegMid(m, leg.key))
      case (Some(fill), Some(mid)) => leg.side.Sign() * (fill.price - mid) * leg.Qty() * leg.key.Multiplier()
      case _ => 0.0
  }

  function Premium(m: Snapshot, model: CostModel, legs: seq<Leg>): real {
    Sum(PremiumTerm(m, model), legs)
  }

  function Commission(m: Snapshot, model: CostModel, legs: seq<Leg>): real {
    Sum(CommissionTerm(m, model), legs)
  }

  function Distance(m: Snapshot, model: CostModel, legs: seq<Leg>): real {
    Sum(DistanceTerm(m, model), legs)
  }

  /** An instrument is fairly marked when it is marked at the mid of the book it fills
      from. Options always are: they have one book. Shares may have two. */
  predicate FairlyMarked(m: Snapshot, key: Key) {
    match (PositiveQuote(FillBook(m), key.underlying), PositiveQuote(m.marks, key.underlying))
    case (Some(f), Some(q)) => key.EquityKey? ==> Mid(f.0, f.1) == Mid(q.0, q.1)
    case (Some(_), None) => key.OptionKey?
    case (None, _) => true
  }

  predicate AllFairlyMarked(m: Snapshot, legs: seq<Leg>) {
    forall i :: 0 <= i < |legs| ==> FairlyMarked(m, legs[i].key)
  }

  lemma OptionsAreFair(m: Snapshot, legs: seq<Leg>)
    requires forall i :: 0 <= i < |legs| ==> legs[i].key.OptionKey?
    ensures AllFairlyMarked(m, legs)
  {
  }

  /** What a filled leg was priced from, when it is fairly marked. */
  lemma FairFill(m: Snapshot, model: CostModel, leg: Leg)
    requires Honest(model) && FairlyMarked(m, leg.key) && FillOf(m, model, leg).Some?
    ensures LegMid(m, leg.key).Some?
    ensures FillOf(m, model, leg).value.commission >= 0.0
    ensures leg.side.Sign() * (FillOf(m, model, leg).value.price - LegMid(m, leg.key).value) >= 0.0
    ensures model == Nbbo(ZEROED, 0.0) ==>
              FillOf(m, model, leg).value == Fill(LegMid(m, leg.key).value, 0.0)
  {
    hide LegFill, EquityFill;
    match leg.key
    case OptionKey(_, _, _, _) =>
      var c := ContractOf(m, leg.key).value;
      OptionFillIsAdverse(model, c.bid.v, c.ask.v, leg.side, leg.qty);
      if model == Nbbo(ZEROED, 0.0) {
        ZeroedConfigIsTheTwin(c.bid.v, c.ask.v, leg.side, leg.qty);
      }
    case EquityKey(underlying) =>
      var q := PositiveQuote(FillBook(m), underlying).value;
      AnyEquityFillIsAdverse(model, q.0, q.1, leg.side);
  }

  /** The cash of a filled and marked leg is its mark less the distance from it. */
  lemma FillSplits(m: Snapshot, model: CostModel, leg: Leg)
    requires FillOf(m, model, leg).Some? && LegMid(m, leg.key).Some?
    ensures PremiumTerm(m, model)(leg) ==
            -leg.key.Multiplier() * MarkTerm(m)(leg) - DistanceTerm(m, model)(leg)
  {
    hide FillOf, LegMid;
    SplitAtMid(leg.side, FillOf(m, model, leg).value.price, LegMid(m, leg.key).value, leg.Qty(), leg.key.Multiplier());
  }

  /** A fairly marked leg that the market can fill can also be marked, and the fill is on
      the adverse side of the mark. */
  lemma FairLegIsMarked(m: Snapshot, model: CostModel, leg: Leg)
    requires Honest(model) && FairlyMarked(m, leg.key) && FillOf(m, model, leg).Some?
    ensures LegMid(m, leg.key).Some?
    ensures DistanceTerm(m, model)(leg) >= 0.0 && CommissionTerm(m, model)(leg) >= 0.0
    ensures model == Nbbo(ZEROED, 0.0) ==> DistanceTerm(m, model)(leg) == 0.0 == CommissionTerm(m, model)(leg)
  {
    hide FillOf, LegMid, FairlyMarked;
    FairFill(m, model, leg);
    DistanceSign(leg.side.Sign() * (FillOf(m, model, leg).value.price - LegMid(m, leg.key).value), leg.Qty(), leg.key.Multiplier());
  }

  lemma DistanceSign(d: real, q: real, mult: real)
    requires d >= 0.0 && q >= 0.0 && mult >= 1.0
    ensures d * q * mult >= 0.0
    ensures d == 0.0 ==> d * q * mult == 0.0
  {
    ProductNonNegative(d, q);
    ProductNonNegative(d * q, mult);
  }

  lemma SplitAtMid(side: Side, price: real, mid: real, q: real, mult: real)
    ensures -side.Sign() * price * q * mult ==
            -mult * (mid * (side.Sign() * q)) - side.Sign() * (price - mid) * q * mult
  {
    var a, b := price * q, mid * q;
    assert (price - mid) * q == a - b;
    assert (a - b) * mult == a * mult - b * mult;
    match side
    case Buy =>
      assert -1.0 * price * q == -a;
      assert mid * (1.0 * q) == b;
    case Sell =>
      assert -(-1.0) * price * q == a;
      assert mid * (-1.0 * q) == -b;
      assert -1.0 * (price - mid) * q == -(a - b);
  }

  // ---- settlement ----------------------------------------------------------

  /** Spots remembered per underlying, keyed by session date. */
  type SpotBook = map<string, map<Date, real>>

  const SPOT_WINDOW := 5

  /** The dates later than `d`. */
  function LaterThan(dates: set<Date>, d: Date): set<Date> {
    set e | e in dates && e > d
  }

  /** Keep the five latest dates. */
  function KeepLatest(history: map<Date, real>): (kept: map<Date, real>) {
    map d | d in history && |LaterThan(history.Keys, d)| < SPOT_WINDOW :: history[d]
  }

  function RememberSpots(spots: SpotBook, chains: map<string, Chain>, today: Date): SpotBook {
    map u | u in spots.Keys + chains.Keys && (u in spots || HasSpot(chains, u)) ::
      if HasSpot(chains, u) then
        KeepLatest((if u in spots then spots[u] else map[])[today := chains[u].spot.v])
      else
        spots[u]
  }

  predicate HasSpot(chains: map<string, Chain>, u: string) {
    u in chains && chains[u].spot.Fin? && chains[u].spot.v > 0.0
  }

  /** The expiry-day spot when one was seen, else the current one; zero and NaN are
      not spots. */
  function SpotFor(m: Snapshot, spots: SpotBook, underlying: string, expiry: Date): Option<real> {
    if underlying in spots && expiry in spots[underlying] && spots[underlying][expiry] > 0.0 then
      Some(spots[underlying][expiry])
    else if HasSpot(m.chains, underlying) then
      Some(m.chains[underlying].spot.v)
    else
      None
  }

  function Intrinsic(key: Key, spot: real): real
    requires key.OptionKey?
  {
    match key.right
    case Call => Max(spot - key.strike, 0.0)
    case Put => Max(key.strike - spot, 0.0)
  }

  lemma WindowGrows(dates: set<Date>, d: Date, today: Date)
    ensures |LaterThan(dates + {today}, d)| <= |LaterThan(dates, d)| + 1
  {
    assert LaterThan(dates + {today}, d) <= LaterThan(dates, d) + {today};
    Smaller(LaterThan(dates + {today}, d), LaterThan(dates, d) + {today});
  }

  lemma {:induction false} Smaller(a: set<Date>, b: set<Date>)
    requires a <= b
    ensures |a| <= |b|
  {
    assert b == a + (b - a);
  }

  /** The spot of an expiry day settles its options: it is remembered when it is seen. */
  lemma ExpirySpotIsRemembered(m: Snapshot, spots: SpotBook, chains: map<string, Chain>, today: Date, u: string)
    requires HasSpot(chains, u)
    requires u in spots ==> forall e :: e in spots[u] ==> e <= today
    ensures SpotFor(m, RememberSpots(spots, chains, today), u, today) == Some(chains[u].spot.v)
  {
    var history := (if u in spots then spots[u] else map[])[today := chains[u].spot.v];
    assert LaterThan(history.Keys, today) == {};
    assert KeepLatest(history)[today] == chains[u].spot.v;
  }

  /** And it is still remembered after a further session while fewer than four later
      dates were on record, whatever spot that session brings. */
  lemma ExpirySpotSurvives(spots: SpotBook, chains: map<string, Chain>, today: Date, u: string, expiry: Date)
    requires u in spots && expiry in spots[u] && expiry != today
    requires |LaterThan(spots[u].Keys, expiry)| < SPOT_WINDOW - 1
    ensures u in RememberSpots(spots, chains, today) && expiry in RememberSpots(spots, chains, today)[u]
    ensures RememberSpots(spots, chains, today)[u][expiry] == spots[u][expiry]
  {
    if HasSpot(chains, u) {
      WindowGrows(spots[u].Keys, expiry, today);
      assert spots[u][today := chains[u].spot.v].Keys == spots[u].Keys + {today};
    }
  }

  function LegIntrinsic(m: Snapshot, spots: SpotBook, leg: Leg): Option<real> {
    match leg.key
    case EquityKey(_) => None
    case OptionKey(underlying, expiry, _, _) =>
      match SpotFor(m, spots, underlying, expiry)
      case None => None
      case Some(spot) => Some(Payout(leg, spot))
  }

  /** A leg's signed payment at expiry. */
  function Payout(leg: Leg, spot: real): real
    requires leg.key.OptionKey?
  {
    Intrinsic(leg.key, spot) * leg.Signed()
  }

  predicate AllSettlable(m: Snapshot, spots: SpotBook, legs: seq<Leg>) {
    forall i :: 0 <= i < |legs| ==> LegIntrinsic(m, spots, legs[i]).Some?
  }

  function IntrinsicTerm(m: Snapshot, spots: SpotBook): Leg -> real {
    (leg: Leg) => match LegIntrinsic(m, spots, leg)
      case None => 0.0
      case Some(v) => v
  }

  function IntrinsicValue(m: Snapshot, spots: SpotBook, legs: seq<Leg>): Option<real> {
    if AllSettlable(m, spots, legs) then Some(Sum(IntrinsicTerm(m, spots), legs)) else None
  }

  function ExpiredLegs(legs: seq<Leg>, today: Date): (expired: seq<Leg>)
    ensures |expired| <= |legs|
    ensures forall leg :: leg in expired <==> leg in legs && leg.Expired(today)
    ensures |expired| == |legs| <==> forall i :: 0 <= i < |legs| ==> legs[i].Expired(today)
  {
    if legs == [] then []
    else
      var rest := ExpiredLegs(legs[..|legs| - 1], today);
      var last := legs[|legs| - 1];
      assert legs == legs[..|legs| - 1] + [last];
      if last.Expired(today) then rest + [last] else rest
  }

  /** The legs that are not among the expired ones, in order. */
  function LiveLegs(legs: seq<Leg>, today: Date): (live: seq<Leg>)
    ensures |live| <= |legs|
    ensures forall leg :: leg in live <==> leg in legs && !leg.Expired(today)
    ensures (exists i :: 0 <= i < |legs| && !legs[i].Expired(today)) <==> live != []
  {
    if legs == [] then []
    else
      var rest := LiveLegs(legs[..|legs| - 1], today);
      var last := legs[|legs| - 1];
      assert legs == legs[..|legs| - 1] + [last];
      if last.Expired(today) then rest else rest + [last]
  }

  lemma {:induction false} LiveLegsDistinct(legs: seq<Leg>, today: Date)
    requires DistinctSlots(legs)
    ensures DistinctSlots(LiveLegs(legs, today))
  {
    if legs != [] {
      var n := |legs| - 1;
      LiveLegsDistinct(legs[..n], today);
      var rest := LiveLegs(legs[..n], today);
      forall i | 0 <= i < |rest|
        ensures rest[i].Slot() != legs[n].Slot()
      {
        assert rest[i] in legs[..n];
      }
    }
  }

  /** Dropping expired legs keeps a structure well formed unless it empties it. */
  lemma LiveLegsWellFormed(legs: seq<Leg>, today: Date)
    requires WellFormed(legs)
    requires |ExpiredLegs(legs, today)| < |legs|
    ensures WellFormed(LiveLegs(legs, today))
    ensures Multiplier(LiveLegs(legs, today)) == Multiplier(legs)
  {
    var live := LiveLegs(legs, today);
    forall i | 0 <= i < |live|
      ensures live[i].qty >= 1 && live[i].key.Multiplier() == Multiplier(legs)
    {
      assert live[i] in legs;
    }
  }
}
