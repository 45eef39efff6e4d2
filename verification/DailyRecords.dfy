// Which trades the settlement sweep and the end of a daily run record, and what the records
// say (src/catalyst/backtest/backtester.py:390-490).
module DailyRecords {
  import opened Common
  import opened Instruments
  import opened Market
  import opened LedgerModel
  import opened LedgerInvariant
  import opened DailyModel
  import opened DailySweep
  import opened DailyInvariant
  import opened DailyRuns

  // ---- one record ----------------------------------------------------------

  /** The record of trade t when its last units leave at this value for this fee: its exit price is
      the average over all units closed, and its P&L the move from the entry to that price,
      less all commissions. */
  function RecordMade(t: Trade, value: real, units: nat, fee: real): Record
    requires t.qtyClosed + units >= 1
  {
    var closed := t.qtyClosed + units;
    var price := (t.exitCash + value * (units as real)) / (closed as real);
    Record(t.id, t.entry, price, closed, Dollars(price - t.entry, closed, t.mult) - (t.commissions + fee), t.maxQty)
  }

  lemma RecordMadeIs(t: Trade, value: real, units: nat, fee: real)
    requires t.qtyClosed + units >= 1
    ensures RecordMade(t, value, units, fee) ==
            ToRecord(t.(commissions := t.commissions + fee, exitCash := t.exitCash + Weighted(value, units),
                        qtyClosed := t.qtyClosed + units))
  {
    hide Dollars, Points;
    RecordIsConsistent(t.(commissions := t.commissions + fee, exitCash := t.exitCash + Weighted(value, units),
                          qtyClosed := t.qtyClosed + units));
  }

  // ---- the settlement sweep ------------------------------------------------

  /** The first k trades after expiry, in order: those whose positions settled in full are gone, and a
      partial settlement is credited for every unit held. */
  function TradesLeft(m: Snapshot, spots: SpotBook, today: Date, book: seq<Pos>, open: seq<Trade>, k: nat): seq<Trade>
    requires k <= |book| == |open|
  {
    if k == 0 then []
    else
      var rest, p, t := TradesLeft(m, spots, today, book, open, k - 1), book[k - 1], open[k - 1];
      match SettlementOf(m, spots, today, p)
      case Full(_) => rest
      case Partial(v) =>
        rest + [Trade(t.id, t.entry, t.maxQty, t.mult, t.commissions, t.exitCash + Times(v, p.qty as real), t.qtyClosed)]
      case _ => rest + [t]
  }

  ghost predicate Stocked(book: seq<Pos>) {
    forall i :: 0 <= i < |book| ==> book[i].qty >= 1
  }

  /** The records of those that are gone, each at the value its position settled at, for no fee. */
  function RecordsMade(m: Snapshot, spots: SpotBook, today: Date, book: seq<Pos>, open: seq<Trade>, k: nat): seq<Record>
    requires k <= |book| == |open| && Stocked(book)
  {
    if k == 0 then []
    else
      var rest, p, t := RecordsMade(m, spots, today, book, open, k - 1), book[k - 1], open[k - 1];
      match SettlementOf(m, spots, today, p)
      case Full(v) => rest + [RecordMade(t, v, p.qty, 0.0)]
      case _ => rest
  }

  /** The sweep of the first k trades. */
  ghost predicate SweptTo(l: Ledger, today: Date, book: seq<Pos>, open: seq<Trade>, d: Desk, r: Desk, k: nat)
    requires k <= |book| == |open| && Stocked(book)
  {
    r == d.(open := TradesLeft(l.market, l.spots, today, book, open, k),
            trades := d.trades + RecordsMade(l.market, l.spots, today, book, open, k))
  }

  lemma SweptOne(l: Ledger, today: Date, p: Pos, t: Trade, r: Desk)
    requires t.id == p.id && t.Remaining() == p.qty >= 1
    requires IndexOf(r.ledger.book, t.id) < |r.ledger.book| <==> !Fate(l, today, p).Full?
    requires Fate(l, today, p).Full? ==> Telemetry(r.ledger.settlements, t.id) == Some(Fate(l, today, p).value)
    ensures SweepOne(r, FoldedTrade(l, today, p, t)) ==
            match SettlementOf(l.market, l.spots, today, p)
            case Full(v) => r.(trades := r.trades + [RecordMade(t, v, p.qty, 0.0)])
            case Partial(v) =>
              r.(open := r.open + [Trade(t.id, t.entry, t.maxQty, t.mult, t.commissions, t.exitCash + Times(v, p.qty as real), t.qtyClosed)])
            case _ => r.(open := r.open + [t])
  {
    hide SettlementOf, IndexOf, Telemetry, ToRecord, RecordMade;
    match SettlementOf(l.market, l.spots, today, p)
    case Full(v) => RecordMadeIs(t, v, p.qty, 0.0);
    case _ =>
  }

  lemma SweepTurnIs(l: Ledger, now: Ledger, today: Date, book: seq<Pos>, open: seq<Trade>, folded: seq<Trade>,
                    d: Desk, r: Desk, n: nat)
    requires Sweeping(l, now, today, book, open, folded) && n < |book| == |folded| == |open| && Stocked(book)
    requires d.ledger == now.(partials := []) && SweptTo(l, today, book, open, d, r, n)
    ensures SweptTo(l, today, book, open, d, SweepOne(r, folded[n]), n + 1)
  {
    hide Sweeping, SettlementOf, IndexOf, Telemetry, Paired, Shaped, SweepOne, FoldedTrade, RecordMade, Times;
    SweepTurn(l, now, today, book, open, folded, n);
    QtyOf(book[n], open[n]);
    SweptOne(l, today, book[n], open[n], r);
    match SettlementOf(l.market, l.spots, today, book[n])
    case Full(v) =>
      var rest, x := RecordsMade(l.market, l.spots, today, book, open, n), RecordMade(open[n], v, book[n].qty, 0.0);
      assert d.trades + rest + [x] == d.trades + (rest + [x]);
    case _ =>
  }

  lemma QtyOf(p: Pos, t: Trade)
    requires Paired(p, t) && Shaped(p)
    ensures t.id == p.id && t.Remaining() == p.qty >= 1
  {
    hide Multiplier;
  }

  lemma {:induction false} SweepPrefixIs(l: Ledger, now: Ledger, today: Date, book: seq<Pos>, open: seq<Trade>,
                                         folded: seq<Trade>, d: Desk, k: nat)
    requires Sweeping(l, now, today, book, open, folded) && k <= |book| == |folded| == |open| && Stocked(book)
    requires d.ledger == now.(partials := []) && d.open == []
    ensures SweptTo(l, today, book, open, d, SweepAll(d, folded[..k]), k)
  {
    hide Sweeping, SweptTo, SweepOne, SweepAll;
    if k == 0 {
      NoneSwept(l, today, book, open, folded, d);
    } else {
      SweepPrefixIs(l, now, today, book, open, folded, d, k - 1);
      SweepTurnIs(l, now, today, book, open, folded, d, SweepAll(d, folded[..k - 1]), k - 1);
      SweepAllStep(d, folded, k - 1);
    }
  }

  lemma NoneSwept(l: Ledger, today: Date, book: seq<Pos>, open: seq<Trade>, folded: seq<Trade>, d: Desk)
    requires |book| == |open| && Stocked(book) && d.open == []
    ensures SweptTo(l, today, book, open, d, SweepAll(d, folded[..0]), 0)
  {
  }

  /** One market step of the record layer, trade by trade, against the re-marked book before it
      settles. */
  lemma SweepIs(d: Desk, chains: map<string, Chain>, today: Date)
    requires DeskInv(d)
    ensures var l := Refresh(d.ledger, chains, today, None, None);
            var r := NextMarket(d, chains, today);
            && |l.book| == |d.open| && Stocked(l.book)
            && r.open == TradesLeft(l.market, l.spots, today, l.book, d.open, |d.open|)
            && r.trades == d.trades + RecordsMade(l.market, l.spots, today, l.book, d.open, |d.open|)
  {
    hide Inv, Paid, SettleAll, Refresh, Survivors, FullEntries, PartialEntries, InStep, Shaped, FoldedTo, SweepAll, FoldPartials;
    var l := Refresh(d.ledger, chains, today, None, None);
    RefreshPaired(d, chains, today);
    StockedIf(l.book);
    var empty := l.(book := []);
    var now := UpdateMarket(d.ledger, chains, today, None, None);
    SettleAllShape(empty, l.book, today);
    InStepSize(l.book, d.open);
    FoldPrefix(empty, today, l.book, d.open, |l.book|);
    assert l.book[..|l.book|] == l.book && [] + Survivors(empty, today, l.book) == Survivors(empty, today, l.book);
    assert [] + PartialEntries(empty, today, l.book) == PartialEntries(empty, today, l.book);
    var folded := FoldPartials(d.open, now.partials);
    FoldedSize(empty, today, l.book, d.open, folded);
    var e := d.(ledger := now.(partials := []), open := []);
    hide TradesLeft, RecordsMade;
    SweepPrefixIs(empty, now, today, l.book, d.open, folded, e, |l.book|);
    assert folded[..|l.book|] == folded;
  }

  /** A trade whose position is gone without settlement telemetry would be counted, and recorded as if
      it had left at its entry when none of it was closed before. No run gets there. */
  lemma MissingTelemetry(d: Desk, t: Trade)
    requires !Held(d.ledger.book, t.id) && forall i :: 0 <= i < |d.ledger.settlements| ==> d.ledger.settlements[i].0 != t.id
    ensures var r := SweepOne(d, t);
            && r.unexplained == d.unexplained + 1 && r.open == d.open && r.ledger == d.ledger
            && |r.trades| == |d.trades| + 1 && r.trades[..|d.trades|] == d.trades
            && (t.qtyClosed == 0 ==> r.trades[|d.trades|] == Record(t.id, t.entry, t.entry, t.maxQty, -t.commissions, t.maxQty))
  {
    hide Points, Dollars;
    FoundIffHeld(d.ledger.book, t.id);
    NoTelemetry(d.ledger.settlements, t.id);
  }

  lemma {:induction false} NoTelemetry(settlements: seq<(nat, real, real)>, id: nat)
    requires forall i :: 0 <= i < |settlements| ==> settlements[i].0 != id
    ensures Telemetry(settlements, id) == None
  {
    if settlements != [] {
      NoTelemetry(settlements[..|settlements| - 1], id);
    }
  }

  lemma StockedIf(book: seq<Pos>)
    requires forall i :: 0 <= i < |book| ==> Shaped(book[i])
    ensures Stocked(book)
  {
    forall i | 0 <= i < |book|
      ensures book[i].qty >= 1
    {
      assert Shaped(book[i]);
    }
  }

  // ---- the end of the run --------------------------------------------------

  function LegUnits(): Leg -> real {
    (leg: Leg) => leg.qty as real
  }

  /** The rate per contract, shares counted like contracts, over all units. */
  function FinalFee(rate: real, p: Pos): real {
    rate * (Sum(LegUnits(), p.legs) * (p.qty as real))
  }

  lemma {:induction false} AllCounted(legs: seq<Leg>)
    ensures Sum(LegUnits(), legs) == AllContracts(legs) as real
  {
    if legs != [] {
      AllCounted(legs[..|legs| - 1]);
    }
  }

  lemma FinalFeeIs(c: Setup, p: Pos)
    ensures FinalFee(c.commissionRate, p) == ClosingCharge(c, p)
  {
    AllCounted(p.legs);
    var n, q := AllContracts(p.legs), p.qty;
    assert (n as real) * (q as real) == (n * q) as real;
  }

  /** The records of the first k positions still held, each closed at its mark. */
  function FinalRecords(c: Setup, book: seq<Pos>, open: seq<Trade>, k: nat): seq<Record>
    requires k <= |book| == |open| && Stocked(book)
  {
    if k == 0 then []
    else
      var p := book[k - 1];
      FinalRecords(c, book, open, k - 1) + [RecordMade(open[k - 1], p.value, p.qty, FinalFee(c.commissionRate, p))]
  }

  ghost predicate FinalTo(c: Setup, d: Desk, r: Desk, k: nat)
    requires k <= |d.ledger.book| == |d.open| && Stocked(d.ledger.book)
  {
    r == d.(open := d.open[k..], trades := d.trades + FinalRecords(c, d.ledger.book, d.open, k))
  }

  lemma FinalTurn(c: Setup, d: Desk, r: Desk, k: nat)
    requires DeskInv(d) && k < |d.ledger.book| == |d.open| && Stocked(d.ledger.book) && FinalTo(c, d, r, k)
    ensures FinalTo(c, d, FinalizeOne(c, r, d.ledger.book[k]), k + 1)
  {
    hide DeskInv, RecordMade, FinalFee, ToRecord, ClosingCharge;
    var p, t := d.ledger.book[k], d.open[k];
    PairedAt(d, k);
    assert r.open[0] == t;
    FinalFeeIs(c, p);
    RecordMadeIs(t, p.value, p.qty, FinalFee(c.commissionRate, p));
    assert Remove(r.open, 0) == d.open[k + 1..];
  }

  lemma PairedAt(d: Desk, k: nat)
    requires DeskInv(d) && k < |d.ledger.book| == |d.open|
    ensures d.open[k].id == d.ledger.book[k].id && d.ledger.book[k].qty >= 1
  {
    hide Inv, Multiplier;
    assert Paired(d.ledger.book[k], d.open[k]);
    InvAt(d.ledger, k);
  }

  lemma {:induction false} FinalPrefix(c: Setup, d: Desk, k: nat)
    requires DeskInv(d) && k <= |d.ledger.book| == |d.open| && Stocked(d.ledger.book)
    ensures FinalTo(c, d, FinalizeAll(c, d, d.ledger.book[..k]), k)
  {
    hide DeskInv, FinalTo, FinalizeOne, FinalizeAll;
    if k == 0 {
      NoneFinal(c, d);
    } else {
      FinalPrefix(c, d, k - 1);
      FinalTurn(c, d, FinalizeAll(c, d, d.ledger.book[..k - 1]), k - 1);
      FinalizeNext(c, d, d.ledger.book, k - 1);
    }
  }

  lemma NoneFinal(c: Setup, d: Desk)
    requires |d.ledger.book| == |d.open| && Stocked(d.ledger.book)
    ensures FinalTo(c, d, FinalizeAll(c, d, d.ledger.book[..0]), 0)
  {
  }

  /** The end of a run: every position still held is recorded at its mark, less a commission on
      every one of its contracts, and nothing stays open. */
  lemma FinalizeIs(c: Setup, d: Desk)
    requires DeskInv(d)
    ensures |d.ledger.book| == |d.open| && Stocked(d.ledger.book)
    ensures Finalize(c, d) == d.(open := [], trades := d.trades + FinalRecords(c, d.ledger.book, d.open, |d.open|))
  {
    hide DeskInv, FinalizeAll, FinalRecords;
    PairsUp(d);
    FinalPrefix(c, d, |d.open|);
    assert d.ledger.book[..|d.open|] == d.ledger.book && d.open[|d.open|..] == [];
  }

  lemma PairsUp(d: Desk)
    requires DeskInv(d)
    ensures |d.ledger.book| == |d.open| && Stocked(d.ledger.book)
  {
    hide Inv, Paired;
    forall i | 0 <= i < |d.ledger.book|
      ensures d.ledger.book[i].qty >= 1
    {
      InvAt(d.ledger, i);
    }
  }
}
