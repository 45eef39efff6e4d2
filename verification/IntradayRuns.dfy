// The intraday backtester ends every session flat, its records carry exactly the
// cash that moved, and its tags name exactly the broker's positions
// (src/catalyst/backtest/intraday.py:126-476).
module IntradayRuns {
  import opened Common
  import opened Instruments
  import opened Ratios
  import opened Costs
  import opened Market
  import opened LedgerModel
  import opened LedgerInvariant
  import Daily = DailyModel
  import opened DailySweep
  import opened IntradayModel

  /** The engine and the cost model charge the same commission per contract. */
  ghost predicate Matching(c: Setup) {
    match c.model
    case Nbbo(_, perContract) => perContract == c.commissionRate
    case ZeroCost => c.commissionRate == 0.0
  }

  /** A structure opened at reduced ratios, none of whose legs has expired. */
  ghost predicate Whole(p: Pos, day: Date) {
    && p.legs != []
    && UnitsOf(p.legs) == 1
    && Unexpired(p.legs, day)
  }

  ghost predicate OnePerTag(open: map<nat, Tag>) {
    forall i, j :: i in open && j in open && i != j ==> open[i] != open[j]
  }

  ghost predicate Tracked(book: seq<Pos>, open: map<nat, Tag>) {
    forall id :: id in open <==> Held(book, id)
  }

  ghost predicate PitInv(d: Pit, day: Date) {
    && Inv(d.ledger)
    && (forall i :: 0 <= i < |d.ledger.book| ==> Whole(d.ledger.book[i], day))
    && Tracked(d.ledger.book, d.open)
    && OnePerTag(d.open)
    && d.entries == |d.trades| + |d.ledger.book|
  }

  /** What an open position has cost so far: its basis and its entry commission. */
  function Outlay(c: Setup): Pos -> real {
    (p: Pos) => p.Worth(p.entry) + CloseCommission(c.commissionRate, p.legs, p.qty)
  }

  /** Constant over every run: the starting cash. */
  function PitStake(c: Setup, d: Pit): real {
    d.ledger.cash - Sum(Pnl(), d.trades) + Sum(Outlay(c), d.ledger.book)
  }

  // ---- commissions ---------------------------------------------------------

  lemma {:induction false} CountScales(legs: seq<Leg>, scaled: seq<Leg>, u: nat)
    requires |scaled| == |legs|
    requires forall i :: 0 <= i < |legs| ==> scaled[i].key == legs[i].key && scaled[i].qty == legs[i].qty * u
    ensures CountOptions(scaled) == CountOptions(legs) * u
  {
    if legs != [] {
      var n := |legs| - 1;
      CountScales(legs[..n], scaled[..n], u);
      Distribute(CountOptions(legs[..n]), legs[n].qty, u);
    }
  }

  lemma Distribute(a: nat, b: nat, u: nat)
    ensures (a + b) * u == a * u + b * u
  {
  }

  /** The charge for a number of option contracts. */
  function Charge(rate: real, contracts: nat): real {
    rate * (contracts as real)
  }

  lemma ChargeAdds(rate: real, a: nat, b: nat)
    ensures Charge(rate, a + b) == Charge(rate, a) + Charge(rate, b)
  {
    assert (a + b) as real == (a as real) + (b as real);
  }

  function Charged(leg: Leg): nat {
    if leg.key.EquityKey? then 0 else leg.qty
  }

  lemma FillCommission(m: Snapshot, c: Setup, leg: Leg)
    requires Matching(c) && FillOf(m, c.model, leg).Some?
    ensures CommissionTerm(m, c.model)(leg) == Charge(c.commissionRate, Charged(leg))
  {
  }

  /** What the broker charges a filled order is the rate times its option contracts. */
  lemma {:induction false} CommissionCounts(m: Snapshot, c: Setup, legs: seq<Leg>)
    requires Matching(c) && AllQuotable(m, c.model, legs)
    ensures Commission(m, c.model, legs) == Charge(c.commissionRate, CountOptions(legs))
  {
    hide FillOf, Matching, CommissionTerm;
    if legs == [] {
      ChargeNothing(c.commissionRate);
    } else {
      hide Charge;
      var n := |legs| - 1;
      CommissionCounts(m, c, legs[..n]);
      FillCommission(m, c, legs[n]);
      ChargeAdds(c.commissionRate, CountOptions(legs[..n]), Charged(legs[n]));
    }
  }

  lemma ChargeNothing(rate: real)
    ensures Charge(rate, 0) == 0.0
  {
  }

  lemma CloseCommissionIs(rate: real, legs: seq<Leg>, u: nat)
    ensures CloseCommission(rate, legs, u) == Charge(rate, CountOptions(legs) * u)
  {
  }

  /** The entry commission the records use is what the broker charged. */
  lemma OpenedCommission(m: Snapshot, c: Setup, legs: seq<Leg>)
    requires WellFormed(legs) && Matching(c) && AllQuotable(m, c.model, legs)
    ensures UnitsOf(legs) >= 1
    ensures CloseCommission(c.commissionRate, Reduced(legs, UnitsOf(legs)), UnitsOf(legs)) == Commission(m, c.model, legs)
  {
    hide UnitsOf, Charge, CloseCommission, Matching, Commission, AllQuotable;
    ReducedIsExact(legs);
    var u := UnitsOf(legs);
    CountScales(Reduced(legs, u), legs, u);
    CloseCommissionIs(c.commissionRate, Reduced(legs, u), u);
    CommissionCounts(m, c, legs);
  }

  // ---- market updates --------------------------------------------------------

  lemma {:induction false} NothingExpired(legs: seq<Leg>, day: Date)
    requires Unexpired(legs, day)
    ensures ExpiredLegs(legs, day) == []
  {
    if legs != [] {
      NothingExpired(legs[..|legs| - 1], day);
    }
  }

  /** With no expired leg in the book, settlement changes nothing. */
  lemma {:induction false} NothingSettles(l: Ledger, pending: seq<Pos>, day: Date)
    requires forall i :: 0 <= i < |pending| ==> Whole(pending[i], day)
    ensures SettleAll(l, pending, day) == l.(book := l.book + pending)
    decreases |pending|
  {
    if pending == [] {
      assert l.book + [] == l.book;
    } else {
      hide UnitsOf, Survivor, IntrinsicValue, Dollars;
      var n := |pending| - 1;
      NothingSettles(l, pending[..n], day);
      assert Whole(pending[n], day);
      NothingExpired(pending[n].legs, day);
      assert l.book + pending == (l.book + pending[..n]) + [pending[n]];
    }
  }

  lemma MarkedIsWhole(c: Setup, m: Snapshot, p: Pos, day: Date)
    requires Whole(p, day)
    ensures Whole(Mark(m, p), day) && Mark(m, p).id == p.id
    ensures Outlay(c)(Mark(m, p)) == 1.0 * Outlay(c)(p)
  {
    hide MarkValue, UnitsOf, Unexpired, CloseCommission, Dollars;
  }

  /** A market update during the session only re-marks the book. */
  lemma UpdateOnlyMarks(l: Ledger, chains: map<string, Chain>, day: Date,
                        marks: Option<map<string, Quote>>, fills: Option<map<string, Quote>>)
    requires forall i :: 0 <= i < |l.book| ==> Whole(l.book[i], day)
    ensures UpdateMarket(l, chains, day, marks, fills) == Refresh(l, chains, day, marks, fills)
  {
    hide Whole, RememberSpots, CountStale, SettleAll, Mark;
    var r := Refresh(l, chains, day, marks, fills);
    forall i | 0 <= i < |r.book|
      ensures Whole(r.book[i], day)
    {
      MarkedIsWhole(Setup(ZeroCost, 0.0), r.market, l.book[i], day);
    }
    hide Refresh;
    NothingSettles(r.(book := []), r.book, day);
    assert [] + r.book == r.book;
  }

  lemma UpdateKeepsPit(c: Setup, d: Pit, chains: map<string, Chain>, day: Date,
                       marks: Option<map<string, Quote>>, fills: Option<map<string, Quote>>)
    requires PitInv(d, day)
    ensures var r := d.(ledger := UpdateMarket(d.ledger, chains, day, marks, fills));
            PitInv(r, day) && PitStake(c, r) == PitStake(c, d)
  {
    hide Inv, Whole, Pnl, Outlay, SettleAll, RememberSpots, CountStale, Mark;
    var l := UpdateMarket(d.ledger, chains, day, marks, fills);
    AdvanceKeeps(d.ledger, chains, day, marks, fills);
    UpdateOnlyMarks(d.ledger, chains, day, marks, fills);
    forall i | 0 <= i < |l.book|
      ensures Whole(l.book[i], day) && l.book[i].id == d.ledger.book[i].id
      ensures Outlay(c)(l.book[i]) == 1.0 * Outlay(c)(d.ledger.book[i])
    {
      MarkedIsWhole(c, l.market, d.ledger.book[i], day);
    }
    SumCongruent(Outlay(c), l.book, Outlay(c), d.ledger.book, 1.0);
    SameIdsHeld(d.ledger.book, l.book);
  }

  lemma SameIdsHeld(a: seq<Pos>, b: seq<Pos>)
    requires |a| == |b| && forall i :: 0 <= i < |a| ==> a[i].id == b[i].id
    ensures forall id :: Held(a, id) <==> Held(b, id)
  {
    forall id
      ensures Held(a, id) <==> Held(b, id)
    {
      if Held(a, id) {
        var i :| 0 <= i < |a| && a[i].id == id;
        assert b[i].id == id;
      }
      if Held(b, id) {
        var i :| 0 <= i < |b| && b[i].id == id;
        assert a[i].id == id;
      }
    }
  }

  // ---- closing ---------------------------------------------------------------

  /** A whole close of a held position is refused without touching the book, or
      fills exactly its units. */
  lemma WholeCloseFills(c: Setup, l: Ledger, i: nat, day: Date)
    requires Inv(l) && i < |l.book| && Whole(l.book[i], day)
    ensures var p := l.book[i];
            && p.qty >= 1 && WellFormed(Mirror(p.legs, p.qty))
            && (var (r, out) := Place(c, l, Daily.CloseOrder(p, p.qty));
                match out
                case Rejected(_) => r == l || r == l.(orders := l.orders + 1)
                case Filled(units, price, commission, id) =>
                  && units == p.qty && id == p.id
                  && r == CloseUnits(l.(orders := l.orders + 1), i, p.qty, price,
                                     p.Worth(price) - commission, commission))
  {
    hide Inv, Whole, WellFormed, UnitsOf, AllQuotable, Premium, Commission, PlaceClose, Multiplier, Dollars, CloseUnits, IndexOf;
    var p := l.book[i];
    WholeParts(l, i, day);
    WholeCloseOf(l.(orders := l.orders + 1), i, Premium(l.market, c.model, Mirror(p.legs, p.qty)),
                 Commission(l.market, c.model, Mirror(p.legs, p.qty)));
  }

  lemma WholeParts(l: Ledger, i: nat, day: Date)
    requires Inv(l) && i < |l.book| && Whole(l.book[i], day)
    ensures var p := l.book[i];
            && p.qty >= 1
            && IndexOf(l.book, p.id) == i
            && WellFormed(Mirror(p.legs, p.qty))
            && UnitsOf(Mirror(p.legs, p.qty)) == p.qty
            && Multiplier(Mirror(p.legs, p.qty)) == p.Mult()
  {
    var p := l.book[i];
    SoundParts(l.market, l.reserved, p);
    hide Sound, UnitsOf;
    IndexIs(l, i);
    MirrorWellFormed(p.legs, p.qty);
    UnitsScale(p.legs, Mirror(p.legs, p.qty), p.qty);
  }

  lemma WholeCloseOf(l: Ledger, i: nat, premium: real, commission: real)
    requires i < |l.book| && IndexOf(l.book, l.book[i].id) == i && l.book[i].qty >= 1
    requires WellFormed(Mirror(l.book[i].legs, l.book[i].qty))
    requires UnitsOf(Mirror(l.book[i].legs, l.book[i].qty)) == l.book[i].qty
    requires Multiplier(Mirror(l.book[i].legs, l.book[i].qty)) == l.book[i].Mult()
    ensures var p := l.book[i];
            var (r, out) := PlaceClose(l, Daily.CloseOrder(p, p.qty), premium, commission);
            match out
            case Rejected(_) => r == l
            case Filled(units, price, fee, id) =>
              && units == p.qty && id == p.id && fee == commission
              && r == CloseUnits(l, i, p.qty, price, p.Worth(price) - commission, commission)
  {
    var p := l.book[i];
    UnitPriceTimes(premium, p.qty, p.Mult());
    hide WellFormed, UnitsOf, Mirrors, CloseUnits, UnitPrice, IndexOf, Dollars, Multiplier;
  }

  lemma IndexIs(l: Ledger, i: nat)
    requires Inv(l) && i < |l.book|
    ensures IndexOf(l.book, l.book[i].id) == i
  {
    hide Sound;
    var j := IndexOf(l.book, l.book[i].id);
    assert l.book[j].id == l.book[i].id;
  }

  lemma HeldAfterRemoval(book: seq<Pos>, i: nat, id: nat)
    requires i < |book| && forall j :: 0 <= j < |book| && j != i ==> book[j].id != book[i].id
    ensures Held(Remove(book, i), id) <==> Held(book, id) && id != book[i].id
  {
    var rest := Remove(book, i);
    assert forall k :: 0 <= k < i ==> rest[k] == book[k];
    assert forall k :: i < k < |book| ==> rest[k - 1] == book[k];
    if Held(rest, id) {
      var k :| 0 <= k < |rest| && rest[k].id == id;
      var j := if k < i then k else k + 1;
      assert book[j].id == id;
    }
    if Held(book, id) && id != book[i].id {
      var k :| 0 <= k < |book| && book[k].id == id;
      var j := if k < i then k else k - 1;
      assert rest[j].id == id;
    }
  }

  lemma RemovalKeepsPit(d: Pit, r: Pit, i: nat, day: Date)
    requires PitInv(d, day) && i < |d.ledger.book|
    requires Inv(r.ledger) && r.ledger.book == Remove(d.ledger.book, i)
    requires r.open == d.open - {d.ledger.book[i].id}
    requires r.entries == d.entries && |r.trades| == |d.trades| + 1
    ensures PitInv(r, day)
  {
    hide Whole, Sound, Held;
    forall id
      ensures id in r.open <==> Held(r.ledger.book, id)
    {
      HeldAfterRemoval(d.ledger.book, i, id);
    }
  }

  lemma RemovalKeepsStake(c: Setup, d: Pit, r: Pit, i: nat, price: real, fee: real)
    requires i < |d.ledger.book|
    requires r.ledger.book == Remove(d.ledger.book, i)
    requires r.ledger.cash == d.ledger.cash + (d.ledger.book[i].Worth(price) - fee)
    requires r.trades == d.trades + [WholeRecord(c, d.ledger.book[i], price, fee)]
    ensures PitStake(c, r) == PitStake(c, d)
  {
    var p := d.ledger.book[i];
    hide Dollars, Multiplier, CloseCommission, Sum;
    SumRemove(Outlay(c), d.ledger.book, i);
    SumAppend(Pnl(), d.trades, [WholeRecord(c, p, price, fee)]);
    SumOne(Pnl(), WholeRecord(c, p, price, fee));
    DollarsMinus(price, p.entry, p.qty, p.Mult());
  }

  lemma FullCloseIs(l: Ledger, i: nat, price: real, cashFlow: real, commission: real)
    requires i < |l.book| && l.book[i].qty >= 1
    ensures var r := CloseUnits(l, i, l.book[i].qty, price, cashFlow, commission);
            r.book == Remove(l.book, i) && r.cash == l.cash + cashFlow
  {
    hide Dollars, Release;
  }

  lemma ForcedIs(c: Setup, l: Ledger, i: nat, v: real)
    requires i < |l.book| && IndexOf(l.book, l.book[i].id) == i
    ensures var r, p := ForceClose(c, l, l.book[i].id, v), l.book[i];
            && r.book == Remove(l.book, i)
            && r.cash == l.cash + (p.Worth(v) - CloseCommission(c.commissionRate, p.legs, p.qty))
  {
    hide Dollars, CloseCommission;
  }

  /** One whole close: refused and nothing moves, or the position leaves, its record
      is written and cash and records move together. A forced close never fails. */
  lemma CloseWholeKeeps(g: Params, d: Pit, i: nat, force: bool, day: Date)
    requires PitInv(d, day) && i < |d.ledger.book|
    ensures var id := d.ledger.book[i].id;
            var (r, left) := CloseWhole(g, d, id, force);
            && (force ==> left)
            && r.open == d.open && r.breakerHit == d.breakerHit && r.entries == d.entries
            && PitStake(g.setup, r) == PitStake(g.setup, d)
            && (left ==> r.ledger.book == Remove(d.ledger.book, i) && PitInv(r.(open := r.open - {id}), day))
            && (!left ==> r.ledger.book == d.ledger.book && PitInv(r, day))
  {
    hide PitInv, PitStake, Place, CloseUnits, ForceClose, WholeRecord, Inv, Whole, CloseCommission, Synthetic;
    var p := d.ledger.book[i];
    PitParts(d, i, day);
    WholeCloseFills(g.setup, d.ledger, i, day);
    var (l, out) := Place(g.setup, d.ledger, Daily.CloseOrder(p, p.qty));
    var (r, left) := CloseWhole(g, d, p.id, force);
    var gone := r.(open := r.open - {p.id});
    match out
    case Filled(_, price, commission, _) =>
      FullCloseIs(d.ledger.(orders := d.ledger.orders + 1), i, price, p.Worth(price) - commission, commission);
      RemovalKeepsPit(d, gone, i, day);
      RemovalKeepsStake(g.setup, d, r, i, price, commission);
    case Rejected(_) =>
      if force {
        var v := Synthetic(g.haircut, p.value);
        var fee := CloseCommission(g.setup.commissionRate, p.legs, p.qty);
        ForcedIs(g.setup, l, i, v);
        RemovalKeepsPit(d, gone, i, day);
        RemovalKeepsStake(g.setup, d, r, i, v, fee);
      } else {
        SameBookKeeps(g.setup, d, r, day);
      }
  }

  lemma PitParts(d: Pit, i: nat, day: Date)
    requires PitInv(d, day) && i < |d.ledger.book|
    ensures Inv(d.ledger) && Whole(d.ledger.book[i], day)
    ensures IndexOf(d.ledger.book, d.ledger.book[i].id) == i
    ensures d.ledger.book[i].id in d.open
  {
    hide Inv, Whole, IndexOf;
    IndexIs(d.ledger, i);
    assert Held(d.ledger.book, d.ledger.book[i].id);
  }

  lemma SameBookKeeps(c: Setup, d: Pit, r: Pit, day: Date)
    requires PitInv(d, day) && Inv(r.ledger)
    requires r.ledger.book == d.ledger.book && r.ledger.cash == d.ledger.cash
    requires r.open == d.open && r.trades == d.trades && r.entries == d.entries
    ensures PitInv(r, day) && PitStake(c, r) == PitStake(c, d)
  {
    hide Inv, Whole, Outlay, Pnl;
  }

  // ---- one minute ------------------------------------------------------------

  /** What no part of a minute but an entry changes. */
  ghost predicate Settles(c: Setup, d: Pit, r: Pit, day: Date) {
    && PitInv(r, day)
    && PitStake(c, r) == PitStake(c, d)
    && r.entries == d.entries
    && r.breakerHit == d.breakerHit
  }

  lemma ExitKeeps(g: Params, d: Pit, id: nat, hit: bool, day: Date)
    requires PitInv(d, day)
    ensures Settles(g.setup, d, ExitOne(g, d, id, hit), day)
  {
    hide Inv, Whole, PitStake, CloseWhole;
    if id in d.open && hit {
      assert Held(d.ledger.book, id);
      var i :| 0 <= i < |d.ledger.book| && d.ledger.book[i].id == id;
      CloseWholeKeeps(g, d, i, false, day);
      StakeFrame(g.setup, CloseWhole(g, d, id, false).0, ExitOne(g, d, id, hit));
    }
  }

  lemma StakeFrame(c: Setup, d: Pit, r: Pit)
    requires r.ledger == d.ledger && r.trades == d.trades
    ensures PitStake(c, r) == PitStake(c, d)
  {
  }

  lemma {:induction false} ExitAllKeeps(g: Params, d: Pit, ids: seq<nat>, hit: nat -> bool, day: Date)
    requires PitInv(d, day)
    ensures Settles(g.setup, d, ExitAll(g, d, ids, hit), day)
  {
    if ids != [] {
      assert Inv(d.ledger);
      hide PitInv, PitStake, ExitOne, Inv;
      var n := |ids| - 1;
      ExitAllKeeps(g, d, ids[..n], hit, day);
      ExitKeeps(g, ExitAll(g, d, ids[..n], hit), ids[n], hit(ids[n]), day);
    }
  }

  lemma FlattenStep(g: Params, d: Pit, day: Date)
    requires PitInv(d, day) && d.ledger.book != []
    ensures var r := FlattenOne(g, d, d.ledger.book[0].id);
            Settles(g.setup, d, r, day) && r.ledger.book == d.ledger.book[1..]
  {
    hide PitStake, Inv, CloseWhole, Whole;
    var id := d.ledger.book[0].id;
    CloseWholeKeeps(g, d, 0, true, day);
    StakeFrame(g.setup, CloseWhole(g, d, id, true).0, FlattenOne(g, d, id));
    assert Remove(d.ledger.book, 0) == d.ledger.book[1..];
  }

  lemma FlattenOnTop(g: Params, d: Pit, ids: seq<nat>, k: nat)
    requires Inv(d.ledger) && k < |ids|
    ensures FlattenAll(g, d, ids[..k + 1]) == FlattenOne(g, FlattenAll(g, d, ids[..k]), ids[k])
  {
    hide Inv, FlattenOne;
    assert ids[..k + 1][..k] == ids[..k];
  }

  lemma {:induction false} FlattenPrefix(g: Params, d: Pit, k: nat, day: Date)
    requires PitInv(d, day) && Inv(d.ledger) && k <= |d.ledger.book|
    ensures var r := FlattenAll(g, d, Ids(d.ledger.book)[..k]);
            Settles(g.setup, d, r, day) && r.ledger.book == d.ledger.book[k..]
  {
    hide PitInv, PitStake, Inv, FlattenOne;
    if k > 0 {
      hide FlattenAll;
      var ids := Ids(d.ledger.book);
      FlattenPrefix(g, d, k - 1, day);
      var e := FlattenAll(g, d, ids[..k - 1]);
      DropFirst(d.ledger.book, k - 1);
      FlattenStep(g, e, day);
      FlattenOnTop(g, d, ids, k - 1);
    }
  }

  lemma DropFirst(book: seq<Pos>, k: nat)
    requires k < |book|
    ensures book[k..] != [] && book[k..][0] == book[k] && book[k..][1..] == book[k + 1..]
    ensures Ids(book)[k] == book[k].id
  {
  }

  /** The flatten empties the book and the tags. */
  lemma FlatKeeps(g: Params, d: Pit, day: Date)
    requires PitInv(d, day)
    ensures Settles(g.setup, d, Flat(g, d), day)
    ensures Flat(g, d).ledger.book == [] && Flat(g, d).open == map[]
  {
    hide Inv, PitStake, Whole;
    var n := |d.ledger.book|;
    FlattenPrefix(g, d, n, day);
    assert Ids(d.ledger.book)[..n] == Ids(d.ledger.book);
    assert d.ledger.book[n..] == [];
    var r := Flat(g, d);
    forall id
      ensures id !in r.open
    {
      assert !Held(r.ledger.book, id);
    }
  }

  // ---- entries ---------------------------------------------------------------

  lemma OpenedOutlay(c: Setup, m: Snapshot, o: Order, premium: real, id: nat)
    requires WellFormed(o.legs) && Matching(c) && AllQuotable(m, c.model, o.legs)
    ensures var commission := Commission(m, c.model, o.legs);
            var q := Opened(m, o, premium, commission, id);
            q.id == id && Outlay(c)(q) == commission - premium
  {
    hide UnitsOf, MarkValue, Dollars, UnitPrice, Reduced, CloseCommission, Commission, AllQuotable, Matching;
    ReducedIsExact(o.legs);
    UnitPriceTimes(-premium, UnitsOf(o.legs), Multiplier(o.legs));
    OpenedCommission(m, c, o.legs);
  }

  lemma OpenedIsWhole(m: Snapshot, o: Order, premium: real, commission: real, id: nat, day: Date)
    requires WellFormed(o.legs) && Unexpired(o.legs, day)
    ensures Whole(Opened(m, o, premium, commission, id), day)
  {
    hide UnitsOf, MarkValue, UnitPrice;
    ReducedIsExact(o.legs);
  }

  lemma ScaledUnexpired(legs: seq<Leg>, u: nat, day: Date)
    requires Unexpired(legs, day)
    ensures Unexpired(Scaled(legs, u), day)
  {
  }

  /** What a filled entry does to the ledger. */
  lemma OpenFills(c: Setup, l: Ledger, o: Order, day: Date)
    requires Inv(l) && WellFormed(o.legs) && Unexpired(o.legs, day) && Matching(c) && o.intent.Open?
    ensures var (r, out) := Place(c, l, o);
            match out
            case Rejected(_) => r.book == l.book && r.cash == l.cash
            case Filled(_, _, _, id) =>
              && id == l.orders + 1
              && |r.book| == |l.book| + 1
              && r.book == l.book + [r.book[|l.book|]]
              && r.book[|l.book|].id == id
              && Whole(r.book[|l.book|], day)
              && r.cash + Outlay(c)(r.book[|l.book|]) == l.cash
  {
    hide Inv, Outlay, Whole, WellFormed, Unexpired, Matching, AllQuotable, Premium, Commission, Opened, NeedsReserve, Total;
    var (r, out) := Place(c, l, o);
    if out.Filled? {
      var premium := Premium(l.market, c.model, o.legs);
      OpenedOutlay(c, l.market, o, premium, l.orders + 1);
      OpenedIsWhole(l.market, o, premium, Commission(l.market, c.model, o.legs), l.orders + 1, day);
    }
  }

  lemma HeldAfterAppend(book: seq<Pos>, p: Pos, id: nat)
    ensures Held(book + [p], id) <==> Held(book, id) || id == p.id
  {
    var all := book + [p];
    if Held(book, id) {
      var i :| 0 <= i < |book| && book[i].id == id;
      assert all[i].id == id;
    }
    if id == p.id {
      assert all[|book|].id == id;
    }
    if Held(all, id) && id != p.id {
      var i :| 0 <= i < |all| && all[i].id == id;
      assert book[i].id == id;
    }
  }

  lemma AppendKeepsPit(c: Setup, d: Pit, r: Pit, p: Pos, tag: Tag, day: Date)
    requires PitInv(d, day) && tag !in d.open.Values
    requires p.id !in d.open && Whole(p, day)
    requires Inv(r.ledger) && r.ledger.book == d.ledger.book + [p]
    requires r.open == d.open[p.id := tag] && r.entries == d.entries + 1 && r.trades == d.trades
    requires r.ledger.cash + Outlay(c)(p) == d.ledger.cash
    ensures PitInv(r, day) && PitStake(c, r) == PitStake(c, d)
  {
    hide Inv, Whole, Outlay, Held, Pnl;
    forall id
      ensures id in r.open <==> Held(r.ledger.book, id)
    {
      HeldAfterAppend(d.ledger.book, p, id);
    }
    forall i | i in d.open
      ensures d.open[i] != tag
    {
      assert d.open[i] in d.open.Values;
    }
    SumAppend(Outlay(c), d.ledger.book, [p]);
    SumOne(Outlay(c), p);
  }

  lemma NewIdIsFree(d: Pit, day: Date, id: nat)
    requires PitInv(d, day) && id == d.ledger.orders + 1
    ensures id !in d.open
  {
    hide Sound, Whole;
    forall i | 0 <= i < |d.ledger.book|
      ensures d.ledger.book[i].id != id
    {
      assert Ordered(d.ledger);
    }
    assert !Held(d.ledger.book, id);
  }

  lemma SendKeeps(g: Params, d: Pit, a: Attempt, day: Date)
    requires PitInv(d, day) && ValidAttempt(a, day) && Matching(g.setup)
    requires a.Tagged() !in d.open.Values
    ensures var r := Send(g, d, a);
            PitInv(r, day) && PitStake(g.setup, r) == PitStake(g.setup, d) && r.breakerHit == d.breakerHit
  {
    hide PitStake, Place, Inv, Outlay, WellFormed, Unexpired, Matching, Whole, Held;
    if a.units > 0 {
      MirrorWellFormed(a.proposal.legs, a.units);
      ScaledUnexpired(a.proposal.legs, a.units, day);
      var o := Daily.OpenOrder(a.proposal, a.units);
      OpenFills(g.setup, d.ledger, o, day);
      var r := Send(g, d, a);
      var (l, out) := Place(g.setup, d.ledger, o);
      match out
      case Rejected(_) =>
        PlaceKeeps(g.setup, d.ledger, o);
        SameBookKeeps(g.setup, d, r, day);
      case Filled(_, _, _, id) =>
        NewIdIsFree(d, day, id);
        AppendKeepsPit(g.setup, d, r, l.book[|d.ledger.book|], a.Tagged(), day);
    } else {
      SameBookKeeps(g.setup, d, Send(g, d, a), day);
    }
  }

  lemma EnterKeeps(g: Params, d: Pit, a: Attempt, day: Date)
    requires PitInv(d, day) && ValidAttempt(a, day) && Matching(g.setup)
    ensures var r := Enter(g, d, day, a);
            && PitInv(r, day) && PitStake(g.setup, r) == PitStake(g.setup, d) && r.breakerHit == d.breakerHit
            && (d.breakerHit ==> r.entries == d.entries)
  {
    hide PitStake, Inv, Matching, Send, UpdateMarket, Whole, Held;
    if a.Tagged() in d.open.Values {
    } else if d.breakerHit {
      SameBookKeeps(g.setup, d, Enter(g, d, day, a), day);
    } else {
      UpdateKeepsPit(g.setup, d, a.chains, day, None, None);
      SendKeeps(g, d.(ledger := UpdateMarket(d.ledger, a.chains, day, None, None)), a, day);
    }
  }

  lemma {:induction false} EnterAllKeeps(g: Params, d: Pit, attempts: seq<Attempt>, day: Date)
    requires PitInv(d, day) && Inv(d.ledger) && Matching(g.setup)
    requires forall i :: 0 <= i < |attempts| ==> ValidAttempt(attempts[i], day)
    ensures var r := EnterAll(g, d, day, attempts);
            && PitInv(r, day) && PitStake(g.setup, r) == PitStake(g.setup, d) && r.breakerHit == d.breakerHit
            && (d.breakerHit ==> r.entries == d.entries)
  {
    hide PitInv, PitStake, Enter, Inv, Matching, ValidAttempt;
    if attempts != [] {
      var n := |attempts| - 1;
      EnterAllKeeps(g, d, attempts[..n], day);
      EnterKeeps(g, EnterAll(g, d, day, attempts[..n]), attempts[n], day);
    }
  }

  lemma SeenKeeps(c: Setup, d: Pit, t: Tick, day: Date, openEquity: real, halt: real)
    requires PitInv(d, day)
    ensures PitInv(See(d, t, day), day) && PitStake(c, See(d, t, day)) == PitStake(c, d)
    ensures var r := Watch(See(d, t, day), openEquity, halt);
            && PitInv(r, day) && PitStake(c, r) == PitStake(c, d) && r.entries == d.entries
            && (d.breakerHit ==> r.breakerHit)
  {
    hide PitStake, Inv, Whole, Held, UpdateMarket, Equity;
    UpdateKeepsPit(c, d, t.chains, day, Some(t.marks), Some(t.fills));
    StakeFrame(c, See(d, t, day), Watch(See(d, t, day), openEquity, halt));
  }

  /** What one minute guarantees, whatever the market and the strategies do. */
  ghost predicate MinuteKept(c: Setup, s: Session, d: Pit, r: Pit, ts: int) {
    && PitInv(r, s.day)
    && PitStake(c, r) == PitStake(c, d)
    && (d.breakerHit ==> r.breakerHit && r.entries == d.entries)
    && (ts >= s.flattenAt ==> r.ledger.book == [] && r.open == map[] && r.entries == d.entries)
  }

  lemma MinuteKeeps(g: Params, s: Session, openEquity: real, d: Pit, ts: int)
    requires PitInv(d, s.day) && Inv(d.ledger) && ValidSession(s) && Matching(g.setup)
    ensures MinuteKept(g.setup, s, d, Minute(g, s, openEquity, d, ts), ts)
  {
    hide PitInv, PitStake, Inv, Matching, Flat, EnterAll, ExitAll, See, Watch;
    var t := s.feed(ts);
    assert ValidTick(t, s.day);
    SeenKeeps(g.setup, d, t, s.day, openEquity, s.halt);
    var seen := Watch(See(d, t, s.day), openEquity, s.halt);
    InvOf(seen, s.day);
    if ts >= s.flattenAt {
      FlatKeeps(g, seen, s.day);
      var flat := Flat(g, seen);
      assert Ids(flat.ledger.book) == [];
      NothingToExit(g, flat, t.hit);
    } else {
      ExitAllKeeps(g, seen, Ids(seen.ledger.book), t.hit, s.day);
      EnterAllKeeps(g, Exits(g, seen, t.hit), t.attempts, s.day);
    }
  }

  lemma InvOf(d: Pit, day: Date)
    requires PitInv(d, day)
    ensures Inv(d.ledger)
  {
  }

  lemma NothingToExit(g: Params, d: Pit, hit: nat -> bool)
    requires Inv(d.ledger)
    ensures ExitAll(g, d, [], hit) == d
  {
  }

  // ---- main results ----------------------------------------------------------

  /** The decision minutes of a session, each with the state it ends in. */
  ghost function Trace(g: Params, s: Session, openEquity: real, d: Pit, ts: int): (r: seq<(int, Pit)>)
    requires Inv(d.ledger) && ValidSession(s)
    decreases s.end - ts
  {
    if ts > s.end then []
    else
      var e := Minute(g, s, openEquity, d, ts);
      [(ts, e)] + Trace(g, s, openEquity, e, ts + s.every)
  }

  /** At every minute of a session: the tags name exactly the broker's positions and
      no tag is held twice, every entry is either a record or an open position, cash
      and records agree; from the flatten time on nothing is held and nothing is
      entered; and once the breaker has fired, before the session or in an earlier minute,
      no entry follows. */
  lemma {:induction false} EveryMinute(g: Params, s: Session, openEquity: real, d: Pit, ts: int, k: nat)
    requires PitInv(d, s.day) && Inv(d.ledger) && ValidSession(s) && Matching(g.setup)
    requires k < |Trace(g, s, openEquity, d, ts)|
    ensures var (at, e) := Trace(g, s, openEquity, d, ts)[k];
            && (forall id :: id in e.open <==> Held(e.ledger.book, id))
            && OnePerTag(e.open)
            && e.entries == |e.trades| + |e.ledger.book|
            && PitStake(g.setup, e) == PitStake(g.setup, d)
            && (at >= s.flattenAt ==> e.ledger.book == [] && e.open == map[])
            && (d.breakerHit ==> e.breakerHit && e.entries == d.entries)
            && var before := if k == 0 then d else Trace(g, s, openEquity, d, ts)[k - 1].1;
            && (at >= s.flattenAt ==> e.entries == before.entries)
            && (before.breakerHit ==> e.breakerHit && e.entries == before.entries)
    decreases s.end - ts
  {
    hide PitStake, Inv, Matching, Minute, OnePerTag, Whole, Held;
    MinuteKeeps(g, s, openEquity, d, ts);
    if k > 0 {
      EveryMinute(g, s, openEquity, Minute(g, s, openEquity, d, ts), ts + s.every, k - 1);
    }
  }

  lemma {:induction false} MinutesKeep(g: Params, s: Session, openEquity: real, d: Pit, ts: int)
    requires PitInv(d, s.day) && Inv(d.ledger) && ValidSession(s) && Matching(g.setup)
    ensures var r := Minutes(g, s, openEquity, d, ts);
            PitInv(r, s.day) && PitStake(g.setup, r) == PitStake(g.setup, d)
    decreases s.end - ts
  {
    hide PitInv, PitStake, Inv, Matching, Minute;
    if ts <= s.end {
      MinuteKeeps(g, s, openEquity, d, ts);
      MinutesKeep(g, s, openEquity, Minute(g, s, openEquity, d, ts), ts + s.every);
    }
  }

  /** Between sessions: flat. */
  ghost predicate AtRest(d: Pit) {
    && Inv(d.ledger)
    && d.ledger.book == []
    && d.entries == |d.trades|
  }

  lemma RestIsPit(c: Setup, d: Pit, day: Date)
    requires AtRest(d)
    ensures PitInv(d.(open := map[], breakerHit := false), day)
    ensures PitStake(c, d.(open := map[], breakerHit := false)) == PitStake(c, d)
  {
    hide Inv;
  }

  lemma SessionKeeps(g: Params, d: Pit, s: Session)
    requires AtRest(d) && Inv(d.ledger) && ValidSession(s) && Matching(g.setup)
    ensures AtRest(RunSession(g, d, s)) && PitStake(g.setup, RunSession(g, d, s)) == PitStake(g.setup, d)
  {
    hide PitStake, Inv, Matching, Minutes, Flat, See, Whole, Held, Equity, ValidSession;
    if s.hasBars {
      var e := d.(open := map[], breakerHit := false);
      RestIsPit(g.setup, d, s.day);
      MinutesKeep(g, s, Equity(d.ledger), e, s.start);
      var f := Minutes(g, s, Equity(d.ledger), e, s.start);
      SeenKeeps(g.setup, f, s.closing, s.day, 0.0, 0.0);
      FlatKeeps(g, See(f, s.closing, s.day), s.day);
    }
  }

  /** Over any number of sessions the book ends flat, every entry has become exactly
      one record, and cash is the starting cash plus the P&L of all records, the
      forced synthetic closes included. */
  lemma {:induction false} IntradayReconciles(g: Params, start: real, ss: seq<Session>)
    requires ValidSessions(ss) && Matching(g.setup)
    ensures var r := RunIntraday(g, start, ss);
            && r.ledger.book == []
            && r.entries == |r.trades|
            && r.ledger.cash == start + Sum(Pnl(), r.trades)
            && Equity(r.ledger) == r.ledger.cash
  {
    RestOverRun(g, start, ss);
  }

  lemma {:induction false} RestOverRun(g: Params, start: real, ss: seq<Session>)
    requires ValidSessions(ss) && Matching(g.setup)
    ensures AtRest(RunIntraday(g, start, ss)) && PitStake(g.setup, RunIntraday(g, start, ss)) == start
  {
    hide Inv, Matching, RunSession;
    if ss != [] {
      hide PitStake;
      RestOverRun(g, start, ss[..|ss| - 1]);
      SessionKeeps(g, RunIntraday(g, start, ss[..|ss| - 1]), ss[|ss| - 1]);
    }
  }

  /** The synthetic price never favours the holder, for marks of either sign, exactly
      when the haircut is at most one. */
  lemma HaircutIsAdverse(haircut: real, mark: real)
    ensures mark == 0.0 ==> Synthetic(haircut, mark) == 0.0
    ensures mark != 0.0 ==> (Synthetic(haircut, mark) <= mark <==> haircut <= 1.0)
  {
    if mark > 0.0 {
      ScaleOrder(mark, haircut, 1.0);
    } else if mark < 0.0 {
      ScaleOrder(-mark, 1.0, 2.0 - haircut);
    }
  }

  lemma ScaleOrder(x: real, a: real, b: real)
    requires x > 0.0
    ensures x * a <= x * b <==> a <= b
  {
    assert x * a - x * b == x * (a - b);
    if a > b {
      ProductPositive(x, a - b);
    } else {
      ProductNonNegative(x, b - a);
    }
  }
}
