// What the minutes of an intraday session close and open, position by position
// (src/catalyst/backtest/intraday.py:153-250, 332-476).
module IntradayExits {
  import opened Common
  import opened Instruments
  import opened Ratios
  import opened Market
  import opened LedgerModel
  import opened LedgerInvariant
  import opened OrderProperties
  import Daily = DailyModel
  import Exit = DailyExits
  import opened IntradayModel
  import opened IntradayRuns

  // ---- one close -----------------------------------------------------------

  /** Can the market take the whole position off? */
  predicate Sellable(c: Setup, m: Snapshot, p: Pos) {
    AllQuotable(m, c.model, Mirror(p.legs, p.qty))
  }

  /** The per-unit price and the fee of a real close of all its units. */
  function RealPrice(c: Setup, m: Snapshot, p: Pos): real
    requires p.qty >= 1
  {
    Exit.ExitPrice(c, m, p, p.qty)
  }

  function RealFee(c: Setup, m: Snapshot, p: Pos): real {
    Exit.ExitFee(c, m, p, p.qty)
  }

  /** Option contracts in a leg; shares carry no commission. */
  function Contracts(): Leg -> real {
    (leg: Leg) => if leg.key.OptionKey? then leg.qty as real else 0.0
  }

  /** A rate per option contract, over all units. */
  function PerContract(rate: real, p: Pos): real {
    rate * (Sum(Contracts(), p.legs) * (p.qty as real))
  }

  lemma {:induction false} ContractsCounted(legs: seq<Leg>)
    ensures Sum(Contracts(), legs) == CountOptions(legs) as real
  {
    if legs != [] {
      ContractsCounted(legs[..|legs| - 1]);
    }
  }

  lemma PerContractIs(rate: real, p: Pos)
    ensures PerContract(rate, p) == CloseCommission(rate, p.legs, p.qty)
  {
    ContractsCounted(p.legs);
    var n, q := CountOptions(p.legs), p.qty;
    assert (n as real) * (q as real) == (n * q) as real;
  }

  /** The record of a position closed whole at a price: all its units, and the move from the
      entry less the fee of the close and the fee of the entry. */
  function RecordAt(c: Setup, p: Pos, price: real, fee: real): Daily.Record {
    Daily.Record(p.id, p.entry, price, p.qty,
                 Dollars(price - p.entry, p.qty, Multiplier(p.legs)) - fee - PerContract(c.commissionRate, p), p.qty)
  }

  /** A close of position i that was not forced: sold at the market with its record, or
      refused, untouched and counted. */
  ghost predicate Closed(g: Params, d: Pit, r: Pit, i: nat, sold: bool)
    requires i < |d.ledger.book|
  {
    var p := d.ledger.book[i];
    && sold == (d.ledger.today.Some? && Sellable(g.setup, d.ledger.market, p)) && p.qty >= 1
    && r.ledger.market == d.ledger.market && r.ledger.today == d.ledger.today
    && r == d.(ledger := r.ledger, trades := r.trades, retries := r.retries)
    && if sold then
         && r.ledger.book == d.ledger.book[..i] + d.ledger.book[i + 1..]
         && r.trades == d.trades + [RecordAt(g.setup, p, RealPrice(g.setup, d.ledger.market, p), RealFee(g.setup, d.ledger.market, p))]
         && r.retries == d.retries
       else r.ledger.book == d.ledger.book && r.trades == d.trades && r.retries == d.retries + 1
  }

  lemma ClosesOrRefuses(g: Params, d: Pit, i: nat, day: Date)
    requires PitInv(d, day) && i < |d.ledger.book|
    ensures var (r, left) := CloseWhole(g, d, d.ledger.book[i].id, false); Closed(g, d, r, i, left)
  {
    hide PitInv, Inv, Place, CloseUnits, Whole, UnitsOf, WholeRecord, AllQuotable, Mirror, CloseWhole, BookClose;
    var p := d.ledger.book[i];
    PitParts(d, i, day);
    WholeHas(d.ledger, i, day);
    CloseUnfolds(g, d, i);
    if d.ledger.today.Some? {
      Exit.ExitOrderIs(g.setup, d.ledger, i, p.qty);
      SoldIs(g, d, i);
    } else {
      NoMarketYet(g.setup, d.ledger, Daily.CloseOrder(p, p.qty));
      RefusedIs(g, d, i, d.ledger);
    }
  }

  lemma WholeHas(l: Ledger, i: nat, day: Date)
    requires Inv(l) && i < |l.book| && Whole(l.book[i], day)
    ensures UnitsOf(l.book[i].legs) == 1 && Exit.CanExit(l, i, l.book[i].qty)
  {
    WholeParts(l, i, day);
    hide UnitsOf;
    SoundParts(l.market, l.reserved, l.book[i]);
  }

  lemma CloseUnfolds(g: Params, d: Pit, i: nat)
    requires Inv(d.ledger) && i < |d.ledger.book| && IndexOf(d.ledger.book, d.ledger.book[i].id) == i
    requires Exit.CanExit(d.ledger, i, d.ledger.book[i].qty)
    ensures var p := d.ledger.book[i];
            var (l, out) := Place(g.setup, d.ledger, Exit.ExitOrder(p, p.qty));
            forall force :: CloseWhole(g, d, p.id, force) == BookClose(g, d, p, force, l, out)
  {
    hide Inv, Place, BookClose, WellFormed, IndexOf;
  }

  lemma NoMarketYet(c: Setup, l: Ledger, o: Order)
    requires l.today.None? && WellFormed(o.legs)
    ensures Place(c, l, o) == (l, Rejected(NoMarketData))
  {
  }

  lemma RefusedIs(g: Params, d: Pit, i: nat, l: Ledger)
    requires i < |d.ledger.book| && d.ledger.book[i].qty >= 1 && !(d.ledger.today.Some? && Sellable(g.setup, d.ledger.market, d.ledger.book[i]))
    requires l == d.ledger || l == d.ledger.(orders := d.ledger.orders + 1)
    ensures forall reason ::
              var (r, left) := BookClose(g, d, d.ledger.book[i], false, l, Rejected(reason)); Closed(g, d, r, i, left)
  {
    hide Sellable;
  }

  lemma SoldIs(g: Params, d: Pit, i: nat)
    requires i < |d.ledger.book| && d.ledger.today.Some? && Exit.CanExit(d.ledger, i, d.ledger.book[i].qty)
    requires UnitsOf(d.ledger.book[i].legs) == 1 && Exit.Answered(g.setup, d.ledger, i, d.ledger.book[i].qty)
    ensures var p := d.ledger.book[i];
            var (l, out) := Place(g.setup, d.ledger, Exit.ExitOrder(p, p.qty));
            var (r, left) := BookClose(g, d, p, false, l, out);
            Closed(g, d, r, i, left)
  {
    hide Place, CloseUnits, UnitsOf, AllQuotable, Mirror, WellFormed, IndexOf, Multiplier, CloseCommission, UnitPrice, PerContract;
    var p := d.ledger.book[i];
    PerContractIs(g.setup.commissionRate, p);
    if Sellable(g.setup, d.ledger.market, p) {
      Exit.ExitedParts(g.setup, d.ledger, i, p.qty);
      var m := d.ledger.market;
      Exit.ClosedIs(d.ledger.(orders := d.ledger.orders + 1), i, p.qty, RealPrice(g.setup, m, p),
                    Premium(m, g.setup.model, Mirror(p.legs, p.qty)) - RealFee(g.setup, m, p), RealFee(g.setup, m, p));
    }
  }

  // ---- the exits of a minute -----------------------------------------------

  /** What the exits of the first k positions leave: the positions still held, the records of
      those that were sold and their ids, and how many were refused. */
  datatype Left = Left(book: seq<Pos>, records: seq<Daily.Record>, sold: set<nat>, refused: nat)

  /** Each position by itself: its rule does not fire and it stays; it fires and the position
      is sold; or it fires, the market cannot take it, and it stays for another try. */
  function LeftOf(c: Setup, m: Snapshot, hit: nat -> bool, book: seq<Pos>, k: nat): Left
    requires k <= |book| && forall i :: 0 <= i < |book| ==> book[i].qty >= 1
  {
    if k == 0 then Left([], [], {}, 0)
    else
      var rest, p := LeftOf(c, m, hit, book, k - 1), book[k - 1];
      if !hit(p.id) then rest.(book := rest.book + [p])
      else if Sellable(c, m, p) then
        Left(rest.book, rest.records + [RecordAt(c, p, RealPrice(c, m, p), RealFee(c, m, p))], rest.sold + {p.id}, rest.refused)
      else rest.(book := rest.book + [p], refused := rest.refused + 1)
  }

  ghost predicate Stocked(book: seq<Pos>) {
    forall i :: 0 <= i < |book| ==> book[i].qty >= 1
  }

  /** r is d with the exits of its first k positions done and the others untouched. */
  ghost predicate PassedTo(g: Params, d: Pit, hit: nat -> bool, r: Pit, k: nat)
    requires Stocked(d.ledger.book) && k <= |d.ledger.book|
  {
    var left := LeftOf(g.setup, d.ledger.market, hit, d.ledger.book, k);
    && r.ledger.market == d.ledger.market && r.ledger.today == d.ledger.today
    && r.ledger.book == left.book + d.ledger.book[k..]
    && r == d.(ledger := r.ledger, open := d.open - left.sold, trades := d.trades + left.records, retries := d.retries + left.refused)
  }

  lemma StockedBook(d: Pit, day: Date)
    requires PitInv(d, day)
    ensures Stocked(d.ledger.book)
  {
    forall i | 0 <= i < |d.ledger.book|
      ensures d.ledger.book[i].qty >= 1
    {
      SoundParts(d.ledger.market, d.ledger.reserved, d.ledger.book[i]);
    }
  }

  lemma LeftNext(c: Setup, m: Snapshot, hit: nat -> bool, book: seq<Pos>, k: nat)
    requires k < |book| && Stocked(book)
    ensures var rest, p := LeftOf(c, m, hit, book, k), book[k];
            LeftOf(c, m, hit, book, k + 1) ==
            if !hit(p.id) then rest.(book := rest.book + [p])
            else if Sellable(c, m, p) then
              Left(rest.book, rest.records + [RecordAt(c, p, RealPrice(c, m, p), RealFee(c, m, p))], rest.sold + {p.id}, rest.refused)
            else rest.(book := rest.book + [p], refused := rest.refused + 1)
  {
    hide Sellable, RecordAt, RealPrice, RealFee;
  }

  /** Position i of the first k: sold with its record, or still held. */
  ghost predicate GoneOrHeld(c: Setup, m: Snapshot, hit: nat -> bool, book: seq<Pos>, left: Left, i: nat)
    requires i < |book| && Stocked(book)
  {
    var p := book[i];
    if hit(p.id) && Sellable(c, m, p) then
      p.id in left.sold && RecordAt(c, p, RealPrice(c, m, p), RealFee(c, m, p)) in left.records
    else p in left.book
  }

  /** Who is sold: exactly the positions whose rule fired and which the market can take. */
  lemma {:induction false} LeftIs(c: Setup, m: Snapshot, hit: nat -> bool, book: seq<Pos>, k: nat)
    requires k <= |book| && Stocked(book)
    ensures var left := LeftOf(c, m, hit, book, k);
            && |left.book| + |left.records| == k
            && left.refused <= |left.book|
            && (forall i :: 0 <= i < k ==> GoneOrHeld(c, m, hit, book, left, i))
            && (forall id :: id in left.sold ==> exists i :: 0 <= i < k && book[i].id == id && hit(id) && Sellable(c, m, book[i]))
  {
    if k > 0 {
      hide Sellable, RecordAt, RealPrice, RealFee;
      LeftIs(c, m, hit, book, k - 1);
      LeftNext(c, m, hit, book, k - 1);
      var left, all := LeftOf(c, m, hit, book, k - 1), LeftOf(c, m, hit, book, k);
      forall i | 0 <= i < k - 1
        ensures GoneOrHeld(c, m, hit, book, all, i)
      {
        assert GoneOrHeld(c, m, hit, book, left, i);
      }
    }
  }

  /** The position stays, whatever is counted. */
  lemma TurnKept(g: Params, d: Pit, hit: nat -> bool, r: Pit, r': Pit, k: nat, refused: nat)
    requires Stocked(d.ledger.book) && k < |d.ledger.book| && PassedTo(g, d, hit, r, k)
    requires var m, p := d.ledger.market, d.ledger.book[k];
             var rest := LeftOf(g.setup, m, hit, d.ledger.book, k);
             && LeftOf(g.setup, m, hit, d.ledger.book, k + 1) == rest.(book := rest.book + [p], refused := rest.refused + refused)
             && r' == r.(ledger := r'.ledger, retries := r.retries + refused)
    requires r'.ledger.book == r.ledger.book && r'.ledger.market == r.ledger.market && r'.ledger.today == r.ledger.today
    ensures PassedTo(g, d, hit, r', k + 1)
  {
    hide LeftOf;
    assert d.ledger.book[k..] == [d.ledger.book[k]] + d.ledger.book[k + 1..];
  }

  /** The position goes, its tag with it, and its record comes. */
  lemma TurnSold(g: Params, d: Pit, hit: nat -> bool, r: Pit, r': Pit, k: nat, x: Daily.Record)
    requires Stocked(d.ledger.book) && k < |d.ledger.book| && PassedTo(g, d, hit, r, k)
    requires var m, p := d.ledger.market, d.ledger.book[k];
             var rest := LeftOf(g.setup, m, hit, d.ledger.book, k);
             && LeftOf(g.setup, m, hit, d.ledger.book, k + 1) == Left(rest.book, rest.records + [x], rest.sold + {p.id}, rest.refused)
             && r' == r.(ledger := r'.ledger, trades := r.trades + [x], open := r.open - {p.id})
             && r'.ledger.book == r.ledger.book[..|rest.book|] + r.ledger.book[|rest.book| + 1..]
    requires r'.ledger.market == r.ledger.market && r'.ledger.today == r.ledger.today
    ensures PassedTo(g, d, hit, r', k + 1)
  {
    hide LeftOf;
    var left := LeftOf(g.setup, d.ledger.market, hit, d.ledger.book, k);
    Exit.SplicedNext(left.book, d.ledger.book, k, d.ledger.book[k]);
    assert d.trades + left.records + [x] == d.trades + (left.records + [x]);
    assert d.open - left.sold - {d.ledger.book[k].id} == d.open - (left.sold + {d.ledger.book[k].id});
  }

  lemma PositionAtTurn(g: Params, d: Pit, hit: nat -> bool, r: Pit, k: nat)
    requires Stocked(d.ledger.book) && k < |d.ledger.book| && PassedTo(g, d, hit, r, k)
    ensures var i := |LeftOf(g.setup, d.ledger.market, hit, d.ledger.book, k).book|;
            i < |r.ledger.book| && r.ledger.book[i] == d.ledger.book[k]
  {
    hide LeftOf;
  }

  /** One position's turn. */
  lemma ExitTurn(g: Params, d: Pit, hit: nat -> bool, r: Pit, k: nat, day: Date)
    requires PitInv(r, day) && Stocked(d.ledger.book) && d.ledger.today.Some?
    requires k < |d.ledger.book| && PassedTo(g, d, hit, r, k)
    ensures Inv(r.ledger)
    ensures var id := d.ledger.book[k].id; PassedTo(g, d, hit, ExitOne(g, r, id, hit(id)), k + 1)
  {
    hide PitInv, Inv, LeftOf, Sellable, RecordAt, RealPrice, RealFee, ExitOne, CloseWhole;
    var p, m := d.ledger.book[k], d.ledger.market;
    var i := |LeftOf(g.setup, m, hit, d.ledger.book, k).book|;
    LeftNext(g.setup, m, hit, d.ledger.book, k);
    PositionAtTurn(g, d, hit, r, k);
    PitParts(r, i, day);
    ExitIs(g, r, p.id, hit(p.id));
    var r' := ExitOne(g, r, p.id, hit(p.id));
    if hit(p.id) {
      ClosesOrRefuses(g, r, i, day);
      SameMarket(g, d, hit, r, k);
      hide PassedTo;
      if Sellable(g.setup, m, p) {
        TurnSold(g, d, hit, r, r', k, RecordAt(g.setup, p, RealPrice(g.setup, m, p), RealFee(g.setup, m, p)));
      } else {
        TurnKept(g, d, hit, r, r', k, 1);
      }
    } else {
      hide PassedTo;
      TurnKept(g, d, hit, r, r', k, 0);
    }
  }

  lemma SameMarket(g: Params, d: Pit, hit: nat -> bool, r: Pit, k: nat)
    requires Stocked(d.ledger.book) && k < |d.ledger.book| && PassedTo(g, d, hit, r, k)
    ensures r.ledger.market == d.ledger.market && r.ledger.today == d.ledger.today
  {
    hide LeftOf;
  }

  lemma ExitIs(g: Params, d: Pit, id: nat, hit: bool)
    requires Inv(d.ledger) && id in d.open
    ensures var (e, left) := CloseWhole(g, d, id, false);
            ExitOne(g, d, id, hit) == if !hit then d else if left then e.(open := e.open - {id}) else e
  {
    hide Inv, CloseWhole;
  }

  /** The exits of a minute: every position whose rule fired was sold at the market with its
      record, or could not be sold and was counted for another try; every other stays. */
  lemma {:induction false} ExitsPass(g: Params, d: Pit, hit: nat -> bool, k: nat, day: Date)
    requires Inv(d.ledger) && PitInv(d, day) && Stocked(d.ledger.book) && d.ledger.today.Some? && k <= |d.ledger.book|
    ensures PassedTo(g, d, hit, ExitAll(g, d, Ids(d.ledger.book)[..k], hit), k)
  {
    hide PitInv, ExitOne, PassedTo, ExitAll, Inv;
    if k == 0 {
      NonePassed(g, d, hit);
    } else {
      var ids := Ids(d.ledger.book);
      ExitsPass(g, d, hit, k - 1, day);
      var before := ExitAll(g, d, ids[..k - 1], hit);
      ExitAllKeeps(g, d, ids[..k - 1], hit, day);
      ExitTurn(g, d, hit, before, k - 1, day);
      ExitNext(g, d, ids, hit, k - 1);
    }
  }

  lemma NonePassed(g: Params, d: Pit, hit: nat -> bool)
    requires Inv(d.ledger) && Stocked(d.ledger.book)
    ensures PassedTo(g, d, hit, ExitAll(g, d, Ids(d.ledger.book)[..0], hit), 0)
  {
    hide Inv;
    assert d.open - {} == d.open;
  }

  lemma ExitNext(g: Params, d: Pit, ids: seq<nat>, hit: nat -> bool, k: nat)
    requires Inv(d.ledger) && k < |ids|
    ensures ExitAll(g, d, ids[..k + 1], hit) == ExitOne(g, ExitAll(g, d, ids[..k], hit), ids[k], hit(ids[k]))
  {
    hide Inv, ExitOne;
    assert ids[..k + 1][..k] == ids[..k];
  }

  // ---- the flatten ---------------------------------------------------------

  /** A mark moved against the holder by the haircut's share of its size. */
  function AgainstHolder(haircut: real, mark: real): real {
    mark - (if mark >= 0.0 then mark else -mark) * (1.0 - haircut)
  }

  lemma SyntheticIs(haircut: real, mark: real)
    ensures Synthetic(haircut, mark) == AgainstHolder(haircut, mark)
  {
  }

  /** The record of a forced close: at the market where it can be sold, otherwise at its last
      mark moved against the holder, at the rate per contract. */
  function ForcedRecord(g: Params, m: Snapshot, p: Pos): Daily.Record
    requires p.qty >= 1
  {
    if Sellable(g.setup, m, p) then RecordAt(g.setup, p, RealPrice(g.setup, m, p), RealFee(g.setup, m, p))
    else RecordAt(g.setup, p, AgainstHolder(g.haircut, p.value), PerContract(g.setup.commissionRate, p))
  }

  function Unsold(c: Setup, m: Snapshot, p: Pos): nat {
    if Sellable(c, m, p) then 0 else 1
  }

  /** A forced close of position i. */
  ghost predicate Forced(g: Params, d: Pit, r: Pit, i: nat)
    requires i < |d.ledger.book|
  {
    var p, m := d.ledger.book[i], d.ledger.market;
    && p.qty >= 1
    && r.ledger.market == m && r.ledger.today == d.ledger.today
    && r.ledger.book == d.ledger.book[..i] + d.ledger.book[i + 1..]
    && r == d.(ledger := r.ledger, trades := d.trades + [ForcedRecord(g, m, p)], synthetic := d.synthetic + Unsold(g.setup, m, p))
  }

  lemma ForcedCloses(g: Params, d: Pit, i: nat, day: Date)
    requires PitInv(d, day) && i < |d.ledger.book| && d.ledger.today.Some?
    ensures Forced(g, d, CloseWhole(g, d, d.ledger.book[i].id, true).0, i)
  {
    hide PitInv, Inv, Place, CloseUnits, Whole, UnitsOf, WholeRecord, AllQuotable, Mirror, CloseWhole, BookClose;
    PitParts(d, i, day);
    WholeHas(d.ledger, i, day);
    CloseUnfolds(g, d, i);
    Exit.ExitOrderIs(g.setup, d.ledger, i, d.ledger.book[i].qty);
    if Sellable(g.setup, d.ledger.market, d.ledger.book[i]) {
      SoldIs(g, d, i);
      SoldIsForced(g, d, i);
    } else {
      ForcedAnyway(g, d, i, d.ledger.(orders := d.ledger.orders + 1));
    }
  }

  lemma SoldIsForced(g: Params, d: Pit, i: nat)
    requires i < |d.ledger.book| && d.ledger.today.Some? && Exit.CanExit(d.ledger, i, d.ledger.book[i].qty)
    requires Sellable(g.setup, d.ledger.market, d.ledger.book[i])
    requires var (l, out) := Place(g.setup, d.ledger, Exit.ExitOrder(d.ledger.book[i], d.ledger.book[i].qty));
             && out.Filled?
             && Closed(g, d, BookClose(g, d, d.ledger.book[i], false, l, out).0, i, true)
    ensures var (l, out) := Place(g.setup, d.ledger, Exit.ExitOrder(d.ledger.book[i], d.ledger.book[i].qty));
            Forced(g, d, BookClose(g, d, d.ledger.book[i], true, l, out).0, i)
  {
    hide Place, Sellable, WholeRecord, RecordAt, RealPrice, RealFee, WellFormed, IndexOf;
  }

  lemma ForcedAnyway(g: Params, d: Pit, i: nat, l: Ledger)
    requires i < |d.ledger.book| && l == d.ledger.(orders := d.ledger.orders + 1)
    requires Exit.CanExit(d.ledger, i, d.ledger.book[i].qty) && !Sellable(g.setup, d.ledger.market, d.ledger.book[i])
    ensures forall reason ::
              Forced(g, d, BookClose(g, d, d.ledger.book[i], true, l, Rejected(reason)).0, i)
  {
    hide Sellable, Synthetic, AgainstHolder, CloseCommission, PerContract, Dollars, Multiplier, WellFormed;
    var p := d.ledger.book[i];
    SyntheticIs(g.haircut, p.value);
    PerContractIs(g.setup.commissionRate, p);
  }

  function ForcedRecords(g: Params, m: Snapshot, book: seq<Pos>): seq<Daily.Record>
    requires Stocked(book)
  {
    if book == [] then [] else ForcedRecords(g, m, book[..|book| - 1]) + [ForcedRecord(g, m, book[|book| - 1])]
  }

  function UnsoldCount(c: Setup, m: Snapshot, book: seq<Pos>): nat {
    if book == [] then 0 else UnsoldCount(c, m, book[..|book| - 1]) + Unsold(c, m, book[|book| - 1])
  }

  /** r is d with its first k positions closed by force: one record each, and one synthetic fill
      for each that the market could not take. */
  ghost predicate FlatTo(g: Params, d: Pit, r: Pit, k: nat)
    requires Stocked(d.ledger.book) && k <= |d.ledger.book|
  {
    var m, gone := d.ledger.market, d.ledger.book[..k];
    && r.ledger.market == m && r.ledger.today == d.ledger.today
    && r.ledger.book == d.ledger.book[k..]
    && r == d.(ledger := r.ledger, open := r.open, trades := d.trades + ForcedRecords(g, m, gone),
               synthetic := d.synthetic + UnsoldCount(g.setup, m, gone), flattens := d.flattens + k)
  }

  lemma ForcedNext(g: Params, m: Snapshot, book: seq<Pos>, k: nat)
    requires Stocked(book) && k < |book|
    ensures ForcedRecords(g, m, book[..k + 1]) == ForcedRecords(g, m, book[..k]) + [ForcedRecord(g, m, book[k])]
    ensures UnsoldCount(g.setup, m, book[..k + 1]) == UnsoldCount(g.setup, m, book[..k]) + Unsold(g.setup, m, book[k])
  {
    hide ForcedRecord, Unsold;
    assert book[..k + 1][..k] == book[..k];
  }

  lemma FlatTurn(g: Params, d: Pit, r: Pit, k: nat, day: Date)
    requires PitInv(r, day) && Stocked(d.ledger.book) && d.ledger.today.Some?
    requires k < |d.ledger.book| && FlatTo(g, d, r, k)
    ensures Inv(r.ledger)
    ensures FlatTo(g, d, FlattenOne(g, r, d.ledger.book[k].id), k + 1)
  {
    hide PitInv, Inv, ForcedRecord, Unsold, ForcedRecords, UnsoldCount, CloseWhole;
    InvOf(r, day);
    ForcedNext(g, d.ledger.market, d.ledger.book, k);
    assert r.ledger.book[0] == d.ledger.book[k];
    ForcedCloses(g, r, 0, day);
    assert r.ledger.book[..0] + r.ledger.book[0 + 1..] == d.ledger.book[k + 1..];
  }

  /** The flatten: every position closed by force, each at its own price. */
  lemma {:induction false} FlatPass(g: Params, d: Pit, k: nat, day: Date)
    requires Inv(d.ledger) && PitInv(d, day) && Stocked(d.ledger.book) && d.ledger.today.Some? && k <= |d.ledger.book|
    ensures FlatTo(g, d, FlattenAll(g, d, Ids(d.ledger.book)[..k]), k)
  {
    hide PitInv, Inv, FlattenOne, FlattenAll, FlatTo, Settles;
    if k == 0 {
      NoneForced(g, d);
    } else {
      var ids := Ids(d.ledger.book);
      FlatPass(g, d, k - 1, day);
      FlattenPrefix(g, d, k - 1, day);
      PitOf(g.setup, d, FlattenAll(g, d, ids[..k - 1]), day);
      FlatTurn(g, d, FlattenAll(g, d, ids[..k - 1]), k - 1, day);
      FlattenOnTop(g, d, ids, k - 1);
    }
  }

  lemma PitOf(c: Setup, d: Pit, r: Pit, day: Date)
    requires Settles(c, d, r, day)
    ensures PitInv(r, day)
  {
  }

  lemma NoneForced(g: Params, d: Pit)
    requires Inv(d.ledger) && Stocked(d.ledger.book)
    ensures FlatTo(g, d, FlattenAll(g, d, Ids(d.ledger.book)[..0]), 0)
  {
    hide Inv;
  }
}
