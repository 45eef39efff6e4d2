// What the broker reads from its books: which contract, which mid, when a leg fills, what a
// position is marked at, and which spots it remembers
// (src/catalyst/brokers/simulated.py:89-149, 268-309).
module MarketRules {
  import opened Common
  import opened Instruments
  import opened Costs
  import opened Market
  import opened LedgerModel
  import opened LedgerInvariant

  // ---- quotes --------------------------------------------------------------

  /** The contract at place i of its underlying's chain is the first one with this key. */
  ghost predicate FirstAt(m: Snapshot, key: Key, i: nat) {
    && key.underlying in m.chains
    && var contracts := m.chains[key.underlying].contracts;
    && i < |contracts| && contracts[i].key == key
    && forall j :: 0 <= j < i ==> contracts[j].key != key
  }

  lemma {:induction false} FindIs(contracts: seq<Contract>, key: Key)
    ensures match Find(contracts, key)
            case None => forall j :: 0 <= j < |contracts| ==> contracts[j].key != key
            case Some(c) =>
              exists i: nat :: i < |contracts| && contracts[i] == c && c.key == key && forall j :: 0 <= j < i ==> contracts[j].key != key
  {
    if contracts != [] && contracts[0].key != key {
      var rest := contracts[1..];
      FindIs(rest, key);
      assert forall j :: 0 < j < |contracts| ==> contracts[j] == rest[j - 1];
      match Find(rest, key)
      case None =>
      case Some(c) =>
        var i: nat :| i < |rest| && rest[i] == c && c.key == key && forall j :: 0 <= j < i ==> rest[j].key != key;
        assert contracts[i + 1] == c;
    }
  }

  /** An option is quoted by the first contract of its chain that has its key. */
  lemma QuotedBy(m: Snapshot, key: Key)
    ensures match ContractOf(m, key)
            case None => forall i :: !FirstAt(m, key, i)
            case Some(c) => exists i: nat :: FirstAt(m, key, i) && m.chains[key.underlying].contracts[i] == c
  {
    if key.underlying in m.chains {
      var contracts := m.chains[key.underlying].contracts;
      FindIs(contracts, key);
      hide Find;
      match ContractOf(m, key)
      case None =>
      case Some(c) =>
        var i: nat :| i < |contracts| && contracts[i] == c && c.key == key && forall j :: 0 <= j < i ==> contracts[j].key != key;
        assert FirstAt(m, key, i);
    }
  }

  /** The mid of bid and ask, when both are numbers and the asks and, for shares, the bids are
      positive; nothing otherwise. Shares are marked from the mark book. */
  lemma MidIs(m: Snapshot, key: Key)
    ensures match key
            case OptionKey(_, _, _, _) =>
              (match ContractOf(m, key)
               case None => LegMid(m, key) == None
               case Some(c) =>
                 LegMid(m, key) == if c.bid != NaN && c.ask != NaN && c.ask.v > 0.0 then Some((c.bid.v + c.ask.v) / 2.0) else None)
            case EquityKey(u) =>
              if u in m.marks && m.marks[u].bid != NaN && m.marks[u].ask != NaN && m.marks[u].bid.v > 0.0 && m.marks[u].ask.v > 0.0
              then LegMid(m, key) == Some((m.marks[u].bid.v + m.marks[u].ask.v) / 2.0) else LegMid(m, key) == None
  {
    hide ContractOf;
  }

  // ---- fills ---------------------------------------------------------------

  /** A two-sided quote in numbers, not crossed. */
  predicate Uncrossed(bid: Num, ask: Num) {
    bid != NaN && ask != NaN && bid.v <= ask.v
  }

  /** Shares fill from the fill book when there is one, otherwise from the mark book. */
  function ShareBook(m: Snapshot): map<string, Quote> {
    match m.fills
    case Some(book) => book
    case None => m.marks
  }

  /** When the market can fill a leg: an option on an uncrossed book with an ask, and with a bid
      when it is sold; shares on an uncrossed positive quote. */
  lemma FillsIff(m: Snapshot, model: CostModel, leg: Leg)
    requires Honest(model) && model.Nbbo?
    ensures FillOf(m, model, leg).Some? <==>
            match leg.key
            case OptionKey(_, _, _, _) =>
              (match ContractOf(m, leg.key)
               case None => false
               case Some(c) => Uncrossed(c.bid, c.ask) && c.ask.v > 0.0 && c.bid.v >= 0.0 && (leg.side == Sell ==> c.bid.v > 0.0))
            case EquityKey(u) => u in ShareBook(m) && var q := ShareBook(m)[u]; Uncrossed(q.bid, q.ask) && q.bid.v > 0.0
  {
    hide LegFill, EquityFill, ContractOf;
    match leg.key
    case OptionKey(_, _, _, _) =>
      match ContractOf(m, leg.key) {
        case None =>
        case Some(c) =>
          if c.bid.Fin? && c.ask.Fin? && c.bid.v >= 0.0 {
            OptionFillIsAdverse(model, c.bid.v, c.ask.v, leg.side, leg.qty);
          }
      }
    case EquityKey(u) =>
      if u in ShareBook(m) && ShareBook(m)[u].bid.Fin? && ShareBook(m)[u].ask.Fin? {
        EquityFillIsAdverse(model, ShareBook(m)[u].bid.v, ShareBook(m)[u].ask.v, leg.side);
      }
  }

  /** The dollars a filled structure of one multiplier brings in: its sales less its purchases. */
  function Proceeds(m: Snapshot, model: CostModel): Leg -> real {
    (leg: Leg) =>
      match FillOf(m, model, leg)
      case None => 0.0
      case Some(fill) =>
        if leg.side == Sell then fill.price * (leg.qty as real) else -(fill.price * (leg.qty as real))
  }

  lemma PremiumIs(m: Snapshot, model: CostModel, legs: seq<Leg>)
    requires WellFormed(legs)
    ensures Premium(m, model, legs) == Multiplier(legs) * Sum(Proceeds(m, model), legs)
  {
    hide FillOf, PremiumTerm, Proceeds;
    forall i | 0 <= i < |legs|
      ensures PremiumTerm(m, model)(legs[i]) == Multiplier(legs) * Proceeds(m, model)(legs[i])
    {
      LegProceeds(m, model, legs[i], Multiplier(legs));
    }
    hide WellFormed;
    SumCongruent(PremiumTerm(m, model), legs, Proceeds(m, model), legs, Multiplier(legs));
  }

  lemma LegProceeds(m: Snapshot, model: CostModel, leg: Leg, mult: real)
    requires leg.key.Multiplier() == mult
    ensures PremiumTerm(m, model)(leg) == mult * Proceeds(m, model)(leg)
  {
    hide FillOf;
    if FillOf(m, model, leg).Some? {
      SignedCash(leg.side, FillOf(m, model, leg).value.price, leg.qty as real, mult);
    }
  }

  lemma SignedCash(side: Side, price: real, q: real, mult: real)
    ensures -side.Sign() * price * q * mult == mult * (if side == Sell then price * q else -(price * q))
  {
    var x := price * q;
    match side
    case Buy => assert -1.0 * price * q == -x;
    case Sell => assert -(-1.0) * price * q == x;
  }

  /** Dollars per point: 100 for a structure of options, 1 for shares, never both. */
  lemma MultiplierIs(legs: seq<Leg>)
    requires WellFormed(legs)
    ensures forall i :: 0 <= i < |legs| ==> Multiplier(legs) == (if legs[i].key.OptionKey? then 100.0 else 1.0)
  {
  }

  // ---- marks ---------------------------------------------------------------

  /** A leg's worth per unit: its mid for every contract bought, the opposite when sold. */
  function LegWorth(m: Snapshot): Leg -> real {
    (leg: Leg) =>
      match LegMid(m, leg.key)
      case None => 0.0
      case Some(mid) => if leg.side == Buy then mid * (leg.qty as real) else -(mid * (leg.qty as real))
  }

  lemma WorthIsTerm(m: Snapshot, leg: Leg)
    ensures LegWorth(m)(leg) == MarkTerm(m)(leg)
  {
    hide LegMid;
    if LegMid(m, leg.key).Some? {
      var mid, q := LegMid(m, leg.key).value, leg.qty as real;
      match leg.side
      case Buy => assert mid * (1.0 * q) == mid * q;
      case Sell => assert mid * (-1.0 * q) == -(mid * q);
    }
  }

  lemma MarkValueIs(m: Snapshot, legs: seq<Leg>)
    ensures MarkValue(m, legs) ==
            if exists i :: 0 <= i < |legs| && LegMid(m, legs[i].key).None? then None else Some(Sum(LegWorth(m), legs))
  {
    hide LegMid, MarkTerm, LegWorth;
    forall i | 0 <= i < |legs|
      ensures LegWorth(m)(legs[i]) == 1.0 * MarkTerm(m)(legs[i])
    {
      WorthIsTerm(m, legs[i]);
    }
    SumCongruent(LegWorth(m), legs, MarkTerm(m), legs, 1.0);
  }

  /** A position after marking: worth the sum of its legs and its high water raised to that, when
      every leg has a mid; otherwise as it was. */
  lemma MarkIs(m: Snapshot, p: Pos)
    ensures var q := Mark(m, p);
            && q == p.(value := q.value, high := q.high)
            && if exists i :: 0 <= i < |p.legs| && LegMid(m, p.legs[i].key).None? then q == p
               else q.value == Sum(LegWorth(m), p.legs) && q.high == (if q.value > p.high then q.value else p.high)
  {
    hide LegMid, LegWorth, MarkValue;
    MarkValueIs(m, p.legs);
  }

  /** The positions of a book that keep an old mark. */
  ghost function Stale(m: Snapshot, book: seq<Pos>): set<nat> {
    set i: nat | i < |book| && MarkValue(m, book[i].legs).None?
  }

  lemma StaleNext(m: Snapshot, book: seq<Pos>)
    requires book != []
    ensures var n := |book| - 1; |Stale(m, book)| == |Stale(m, book[..n])| + (if MarkValue(m, book[n].legs).None? then 1 else 0)
  {
    hide MarkValue;
    var n := |book| - 1;
    assert Stale(m, book) == Stale(m, book[..n]) + if MarkValue(m, book[n].legs).None? then {n} else {};
  }

  /** How many there are is what a market update adds to the stale count. */
  lemma {:induction false} StaleCounted(m: Snapshot, book: seq<Pos>)
    ensures CountStale(m, book) == |Stale(m, book)|
  {
    if book != [] {
      hide MarkValue, Stale;
      StaleCounted(m, book[..|book| - 1]);
      StaleNext(m, book);
    }
  }

  // ---- spots ---------------------------------------------------------------

  /** Dates on record for an underlying. */
  function DatesOf(spots: SpotBook, u: string): set<Date> {
    if u in spots then spots[u].Keys else {}
  }

  ghost function Later(dates: set<Date>, d: Date): set<Date> {
    set e | e in dates && e > d
  }

  /** A positive spot today joins the record and overwrites today's; then only the five latest dates
      stay. Without one the record stays as it was. */
  lemma SpotsAre(spots: SpotBook, chains: map<string, Chain>, today: Date, u: string, d: Date)
    ensures var seen := u in chains && chains[u].spot != NaN && chains[u].spot.v > 0.0;
            var dates := DatesOf(spots, u) + if seen then {today} else {};
            var r := RememberSpots(spots, chains, today);
            && (d in DatesOf(r, u) <==> d in dates && (seen ==> |Later(dates, d)| < 5))
            && (d in DatesOf(r, u) ==> r[u][d] == if seen && d == today then chains[u].spot.v else spots[u][d])
  {
    if HasSpot(chains, u) {
      var history := (if u in spots then spots[u] else map[])[today := chains[u].spot.v];
      assert history.Keys == DatesOf(spots, u) + {today};
      assert LaterThan(history.Keys, d) == Later(history.Keys, d);
    }
  }
}
