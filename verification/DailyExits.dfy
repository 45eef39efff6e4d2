// What an exit closes, and what the exits of a session leave behind
// (src/catalyst/backtest/backtester.py:331-388).
module DailyExits {
  import opened Common
  import opened Instruments
  import opened Ratios
  import opened Market
  import opened LedgerModel
  import opened LedgerInvariant
  import opened OrderProperties
  import opened DailyModel
  import opened DailySweep
  import opened DailyInvariant
  import opened DailyRuns
  import opened Settlement

  /** u is the share of the position that was asked for: all of it at a fraction of one or
      more, else the whole number nearest to the fraction of it, halves up. */
  predicate AsksFor(qty: nat, fraction: real, u: nat) {
    if fraction >= 1.0 then u == qty
    else (u as real) - 0.5 <= (qty as real) * fraction < (u as real) + 0.5
  }

  /** There is exactly one such share, and it is never more than the position. */
  lemma AskedIsClosed(qty: nat, fraction: real, u: nat)
    requires fraction >= 0.0
    ensures AsksFor(qty, fraction, u) <==> u == ClosingUnits(qty, fraction)
    ensures AsksFor(qty, fraction, u) ==> u <= qty
  {
    if fraction < 1.0 {
      ClosingUnitsRoundHalfUp(qty, fraction);
      hide ClosingUnits;
    }
  }

  // ---- the order an exit sends ---------------------------------------------

  /** The inverse of u units of a structure mirrors it at u units. */
  lemma {:induction false} MirrorsItself(legs: seq<Leg>, u: nat)
    ensures Mirrors(Mirror(legs, u), legs, u)
  {
    var one, all := Mirror(legs, 1), Mirror(legs, u);
    if legs != [] {
      var n := |legs| - 1;
      MirrorsItself(legs[..n], u);
      assert one[..n] == Mirror(legs[..n], 1) && all[..n] == Mirror(legs[..n], u);
    }
  }

  /** Mirroring fixes the units. */
  lemma MirrorsFixUnits(legs: seq<Leg>, u: nat, units: nat)
    requires WellFormed(legs) && Mirrors(Mirror(legs, u), legs, units)
    ensures units == u
  {
    MirrorsItself(legs, u);
    var want, got := SlotMap(Mirror(legs, 1)), SlotMap(Mirror(legs, u));
    var n := |legs| - 1;
    var k := Mirror(legs, 1)[n].Slot();
    assert Mirror(legs, 1)[n].qty == legs[n].qty >= 1;
    LastSlot(Mirror(legs, 1));
    assert got[k] == want[k] * u == want[k] * units;
    CancelFactor(want[k], u, units);
  }

  lemma LastSlot(legs: seq<Leg>)
    requires legs != []
    ensures var last := legs[|legs| - 1]; last.Slot() in SlotMap(legs) && SlotMap(legs)[last.Slot()] == last.qty
  {
  }

  /** The order that closes u units of a position. */
  function ExitOrder(p: Pos, u: nat): Order {
    Order(Mirror(p.legs, u), Close, Some(p.id), None, p.engine)
  }

  /** It fills when the market can fill its legs and the ratios of the position have gcd 1. */
  predicate Fillable(c: Setup, m: Snapshot, p: Pos, u: nat)
    requires p.legs != []
  {
    AllQuotable(m, c.model, Mirror(p.legs, u)) && UnitsOf(p.legs) == 1
  }

  /** The premium per unit of closing u units. */
  function ExitPrice(c: Setup, m: Snapshot, p: Pos, u: nat): real
    requires u >= 1
  {
    UnitPrice(Premium(m, c.model, Mirror(p.legs, u)), u, Multiplier(p.legs))
  }

  function ExitFee(c: Setup, m: Snapshot, p: Pos, u: nat): real {
    Commission(m, c.model, Mirror(p.legs, u))
  }

  /** The ledger and the answer when u units of position i are closed. */
  function Exited(c: Setup, l: Ledger, i: nat, u: nat): (Ledger, Outcome)
    requires i < |l.book| && 1 <= u <= l.book[i].qty
  {
    var p := l.book[i];
    var price, fee := ExitPrice(c, l.market, p, u), ExitFee(c, l.market, p, u);
    (CloseUnits(l.(orders := l.orders + 1), i, u, price, Premium(l.market, c.model, Mirror(p.legs, u)) - fee, fee),
     Filled(u, price, fee, p.id))
  }

  /** The position of an exit: where it is, well formed, and holding the units. */
  ghost predicate CanExit(l: Ledger, i: nat, u: nat) {
    && i < |l.book| && IndexOf(l.book, l.book[i].id) == i
    && WellFormed(l.book[i].legs) && 1 <= u <= l.book[i].qty
    && WellFormed(Mirror(l.book[i].legs, u))
  }

  /** An exit fills as Exited says where it is Fillable, and elsewhere moves the counter. */
  ghost predicate Answered(c: Setup, l: Ledger, i: nat, u: nat)
    requires CanExit(l, i, u)
  {
    var r := Place(c, l, ExitOrder(l.book[i], u));
    if Fillable(c, l.market, l.book[i], u) then r == Exited(c, l, i, u)
    else r.1.Rejected? && r.0 == l.(orders := l.orders + 1)
  }

  lemma ExitOrderIs(c: Setup, l: Ledger, i: nat, u: nat)
    requires l.today.Some? && CanExit(l, i, u)
    ensures Answered(c, l, i, u)
  {
    var p, numbered := l.book[i], l.(orders := l.orders + 1);
    ExitedParts(c, l, i, u);
    hide WellFormed, UnitsOf, AllQuotable, Premium, Commission, CloseUnits, IndexOf, Mirror, UnitPrice, PlaceClose, Place, Exited;
    PlacedClose(c, l, ExitOrder(p, u));
    ExitClose(numbered, i, u, Premium(l.market, c.model, Mirror(p.legs, u)), ExitFee(c, l.market, p, u));
  }

  lemma PlacedClose(c: Setup, l: Ledger, o: Order)
    requires WellFormed(o.legs) && o.intent.Close? && l.today.Some?
    ensures var numbered := l.(orders := l.orders + 1);
            Place(c, l, o) ==
            if AllQuotable(l.market, c.model, o.legs)
            then PlaceClose(numbered, o, Premium(l.market, c.model, o.legs), Commission(l.market, c.model, o.legs))
            else (numbered, Rejected(LegUnquotable))
  {
    hide AllQuotable, PlaceClose, PlaceOpen, Premium, Commission, WellFormed;
  }

  lemma ExitClose(l: Ledger, i: nat, u: nat, premium: real, commission: real)
    requires i < |l.book| && IndexOf(l.book, l.book[i].id) == i
    requires WellFormed(l.book[i].legs) && 1 <= u <= l.book[i].qty
    ensures var p := l.book[i];
            && WellFormed(Mirror(p.legs, u))
            && var price := UnitPrice(premium, u, Multiplier(p.legs));
               var r := PlaceClose(l, ExitOrder(p, u), premium, commission);
               if UnitsOf(p.legs) == 1 then
                 r == (CloseUnits(l, i, u, price, premium - commission, commission), Filled(u, price, commission, p.id))
               else r.1.Rejected? && r.0 == l
  {
    var p := l.book[i];
    MirrorWellFormed(p.legs, u);
    UnitsPositive(Mirror(p.legs, u));
    ExitTest(p, u);
    hide WellFormed, UnitsOf, CloseUnits, IndexOf, Mirrors, Mirror, UnitPrice, Multiplier;
  }

  lemma IndexAt(l: Ledger, i: nat)
    requires Inv(l) && i < |l.book|
    ensures IndexOf(l.book, l.book[i].id) == i
  {
    hide Sound;
  }

  /** The units of the order and the strict test, for an exit of u units. */
  lemma ExitTest(p: Pos, u: nat)
    requires WellFormed(p.legs) && 1 <= u <= p.qty
    ensures UnitsOf(p.legs) == 1 ==> UnitsOf(Mirror(p.legs, u)) == u && Mirrors(Mirror(p.legs, u), p.legs, u)
    ensures UnitsOf(p.legs) != 1 ==> !Mirrors(Mirror(p.legs, u), p.legs, UnitsOf(Mirror(p.legs, u)))
  {
    MirrorUnits(p.legs, u);
    UnitsPositive(p.legs);
    MirrorsItself(p.legs, u);
    hide Mirrors, Mirror, UnitsOf, WellFormed;
    if UnitsOf(p.legs) != 1 && Mirrors(Mirror(p.legs, u), p.legs, UnitsOf(Mirror(p.legs, u))) {
      MirrorsFixUnits(p.legs, u, UnitsOf(Mirror(p.legs, u)));
      CancelFactor(u, UnitsOf(p.legs), 1);
    }
  }

  // ---- one exit ------------------------------------------------------------

  /** The trade with u more units closed at this price and fee. */
  function TradeAfter(t: Trade, u: nat, price: real, fee: real): Trade {
    Trade(t.id, t.entry, t.maxQty, t.mult, t.commissions + fee, t.exitCash + price * (u as real), t.qtyClosed + u)
  }

  /** The position with u units gone and, after a first target, its flag set. */
  function PosAfter(p: Pos, u: nat, price: real, isTp1: bool): Pos
    requires u <= p.qty
  {
    Pos(p.id, p.legs, p.qty - u, p.entry, p.value, p.high,
        p.realized + Dollars(price - p.entry, u, Multiplier(p.legs)),
        p.maxLoss, p.engine, p.tp1Done || isTp1, p.openFlow)
  }

  /** u units of position i were closed at this price and fee: the position keeps the rest, or
      is gone; its trade books the units, or becomes a record; cash moves by the premium
      less the fee; nothing else does. */
  ghost predicate ExitBooked(d: Desk, r: Desk, i: nat, u: nat, premium: real, price: real, fee: real, isTp1: bool)
    requires i < |d.ledger.book| == |d.open| && u <= d.ledger.book[i].qty
  {
    var l, p, t := d.ledger, d.ledger.book[i], TradeAfter(d.open[i], u, price, fee);
    && r.ledger.cash == l.cash + premium - fee
    && r.ledger.market == l.market && r.ledger.today == l.today && r.unexplained == d.unexplained
    && if u == p.qty then
         && r.ledger.book == l.book[..i] + l.book[i + 1..] && r.open == d.open[..i] + d.open[i + 1..]
         && r.trades == d.trades + [ToRecord(t)]
       else
         && r.ledger.book == l.book[i := PosAfter(p, u, price, isTp1)] && r.open == d.open[i := t]
         && r.trades == d.trades
  }

  /** What one exit does, from the position, the market and the share that was asked for. A
      share of nothing changes nothing. Where the market can fill the order, exactly that
      share leaves. Where it cannot, only the order counter moves. */
  lemma ExitCloses(c: Setup, d: Desk, i: nat, action: Action, u: nat)
    requires DeskInv(d) && d.ledger.today.Some? && i < |d.ledger.book|
    requires action.fraction >= 0.0 && AsksFor(d.ledger.book[i].qty, action.fraction, u)
    ensures var l, p := d.ledger, d.ledger.book[i];
            var r := ExitOne(c, d, p.id, action);
            && |d.open| == |l.book| && d.open[i].id == p.id && p.legs != [] && u <= p.qty
            && if u == 0 then r == d
               else if !Fillable(c, l.market, p, u) then r == d.(ledger := l.(orders := l.orders + 1))
               else ExitBooked(d, r, i, u, Premium(l.market, c.model, Mirror(p.legs, u)),
                               ExitPrice(c, l.market, p, u), ExitFee(c, l.market, p, u), action.isTp1)
  {
    var l, p := d.ledger, d.ledger.book[i];
    AskedIsClosed(p.qty, action.fraction, u);
    IndexAt(l, i);
    PairAt(l.book, d.open, i);
    IndicesAgree(l.book, d.open, p.id);
    InStepSize(l.book, d.open);
    InvAt(l, i);
    if u > 0 {
      MirrorWellFormed(p.legs, u);
      ExitOrderIs(c, l, i, u);
      if Fillable(c, l.market, p, u) {
        BookedAs(c, d, i, action, u);
      } else {
        RefusedAs(c, d, i, action, u);
      }
    } else {
      hide Inv, Place, InStep, RecordExit, Mirror, ClosingUnits;
    }
  }

  lemma RefusedAs(c: Setup, d: Desk, i: nat, action: Action, u: nat)
    requires Inv(d.ledger) && i < |d.ledger.book| && IndexOf(d.ledger.book, d.ledger.book[i].id) == i
    requires action.fraction >= 0.0 && 1 <= u == ClosingUnits(d.ledger.book[i].qty, action.fraction)
    requires WellFormed(Mirror(d.ledger.book[i].legs, u))
    requires Place(c, d.ledger, ExitOrder(d.ledger.book[i], u)).1.Rejected?
    ensures ExitOne(c, d, d.ledger.book[i].id, action) == d.(ledger := Place(c, d.ledger, ExitOrder(d.ledger.book[i], u)).0)
  {
    hide Inv, Place, RecordExit, Mirror, ClosingUnits, WellFormed, IndexOf;
  }

  ghost predicate BookedExactly(c: Setup, d: Desk, i: nat, action: Action, u: nat)
    requires Inv(d.ledger) && CanExit(d.ledger, i, u) && |d.open| == |d.ledger.book| && action.fraction >= 0.0
  {
    var m, p := d.ledger.market, d.ledger.book[i];
    ExitBooked(d, ExitOne(c, d, p.id, action), i, u, Premium(m, c.model, Mirror(p.legs, u)),
               ExitPrice(c, m, p, u), ExitFee(c, m, p, u), action.isTp1)
  }

  lemma BookedAs(c: Setup, d: Desk, i: nat, action: Action, u: nat)
    requires Inv(d.ledger) && InStep(d.ledger.book, d.open) && d.ledger.today.Some? && CanExit(d.ledger, i, u)
    requires i < |d.open| == |d.ledger.book| && TradeIndex(d.open, d.ledger.book[i].id) == i
    requires action.fraction >= 0.0 && u == ClosingUnits(d.ledger.book[i].qty, action.fraction)
    requires Fillable(c, d.ledger.market, d.ledger.book[i], u)
    ensures BookedExactly(c, d, i, action, u)
  {
    hide Inv, InStep, Place, CloseUnits, RecordExit, ExitOne, FlagDone, Mirror, Premium, PosAfter, ClosingUnits, Fillable,
      WellFormed, IndexOf, TradeIndex, ExitPrice, ExitFee, ExitBooked, Paired, LedgerInvariant.Sound, Exited, ExitOrder, WrittenUp;
    var l, p := d.ledger, d.ledger.book[i];
    PairAt(l.book, d.open, i);
    IdsApart(l, i);
    ExitedParts(c, l, i, u);
    ExitOrderIs(c, l, i, u);
    ExitUnfolds(c, d, i, action, u);
    BookedFrom(d, i, u, Premium(l.market, c.model, Mirror(p.legs, u)), ExitPrice(c, l.market, p, u), ExitFee(c, l.market, p, u), action.isTp1);
  }

  lemma ExitedParts(c: Setup, l: Ledger, i: nat, u: nat)
    requires i < |l.book| && 1 <= u <= l.book[i].qty
    ensures var p := l.book[i];
            var price, fee := ExitPrice(c, l.market, p, u), ExitFee(c, l.market, p, u);
            && Exited(c, l, i, u).1 == Filled(u, price, fee, p.id)
            && Exited(c, l, i, u).0 ==
               CloseUnits(l.(orders := l.orders + 1), i, u, price, Premium(l.market, c.model, Mirror(p.legs, u)) - fee, fee)
  {
    hide CloseUnits, Premium, Mirror, ExitPrice, ExitFee;
  }

  /** A filled close written up: booked, and flagged after a first target. */
  function WrittenUp(d: Desk, l: Ledger, id: nat, out: Outcome, isTp1: bool): Desk
    requires out.Filled?
  {
    var recorded := RecordExit(d.(ledger := l), out.units, out.price, out.commission, id);
    if isTp1 then recorded.(ledger := FlagDone(recorded.ledger, id)) else recorded
  }

  /** The same from the close, its booking and the flag. */
  lemma BookedFrom(d: Desk, i: nat, u: nat, premium: real, price: real, fee: real, isTp1: bool)
    requires i < |d.ledger.book| == |d.open| && Paired(d.ledger.book[i], d.open[i]) && 1 <= u <= d.ledger.book[i].qty
    requires IndexOf(d.ledger.book, d.ledger.book[i].id) == i == TradeIndex(d.open, d.ledger.book[i].id)
    requires forall j :: 0 <= j < |d.ledger.book| && j != i ==> d.ledger.book[j].id != d.ledger.book[i].id
    ensures var closed := CloseUnits(d.ledger.(orders := d.ledger.orders + 1), i, u, price, premium - fee, fee);
            ExitBooked(d, WrittenUp(d, closed, d.ledger.book[i].id, Filled(u, price, fee, d.ledger.book[i].id), isTp1),
                       i, u, premium, price, fee, isTp1)
  {
    var numbered := d.ledger.(orders := d.ledger.orders + 1);
    var closed := CloseUnits(numbered, i, u, price, premium - fee, fee);
    hide CloseUnits, RecordExit, FlagDone, ToRecord, Dollars, Multiplier, IndexOf, TradeIndex;
    ClosedIs(numbered, i, u, price, premium - fee, fee);
    RecordedIs(d.(ledger := closed), i, u, price, fee);
    FlaggedIs(closed, d.ledger.book, i, d.ledger.book[i].id, u, price);
  }

  lemma IdsApart(l: Ledger, i: nat)
    requires Inv(l) && i < |l.book|
    ensures forall j :: 0 <= j < |l.book| && j != i ==> l.book[j].id != l.book[i].id
  {
    hide Sound;
  }

  lemma ClosedIs(l: Ledger, i: nat, u: nat, price: real, cashFlow: real, fee: real)
    requires i < |l.book| && 1 <= u <= l.book[i].qty
    ensures var p, r := l.book[i], CloseUnits(l, i, u, price, cashFlow, fee);
            && r.cash == l.cash + cashFlow && r.market == l.market && r.today == l.today
            && r.book == if u == p.qty then l.book[..i] + l.book[i + 1..] else l.book[i := PosAfter(p, u, price, false)]
  {
    hide Release, Dollars, Multiplier;
  }

  lemma RecordedIs(d: Desk, i: nat, u: nat, price: real, fee: real)
    requires i < |d.open| && TradeIndex(d.open, d.open[i].id) == i
    ensures var t := TradeAfter(d.open[i], u, price, fee);
            var r := RecordExit(d, u, price, fee, d.open[i].id);
            && r.ledger == d.ledger && r.unexplained == d.unexplained
            && if t.qtyClosed >= t.maxQty then r.open == d.open[..i] + d.open[i + 1..] && r.trades == d.trades + [ToRecord(t)]
               else r.open == d.open[i := t] && r.trades == d.trades
  {
    hide ToRecord;
  }

  lemma ExitUnfolds(c: Setup, d: Desk, i: nat, action: Action, u: nat)
    requires Inv(d.ledger) && i < |d.ledger.book| && IndexOf(d.ledger.book, d.ledger.book[i].id) == i
    requires action.fraction >= 0.0 && 1 <= u == ClosingUnits(d.ledger.book[i].qty, action.fraction)
    requires WellFormed(Mirror(d.ledger.book[i].legs, u))
    requires Place(c, d.ledger, ExitOrder(d.ledger.book[i], u)).1.Filled?
    ensures var (l, out) := Place(c, d.ledger, ExitOrder(d.ledger.book[i], u));
            ExitOne(c, d, d.ledger.book[i].id, action) == WrittenUp(d, l, d.ledger.book[i].id, out, action.isTp1)
  {
    hide Inv, Place, RecordExit, Mirror, ClosingUnits, WellFormed, IndexOf, FlagDone;
  }

  /** The first-target flag reaches the position when it is still there. */
  lemma FlaggedIs(l: Ledger, book: seq<Pos>, i: nat, id: nat, u: nat, price: real)
    requires i < |book| && book[i].id == id && IndexOf(book, id) == i && 1 <= u <= book[i].qty
    requires forall j :: 0 <= j < |book| && j != i ==> book[j].id != id
    requires l.book == if u == book[i].qty then book[..i] + book[i + 1..] else book[i := PosAfter(book[i], u, price, false)]
    ensures var r := FlagDone(l, id);
            && r == l.(book := r.book)
            && r.book == if u == book[i].qty then book[..i] + book[i + 1..] else book[i := PosAfter(book[i], u, price, true)]
  {
    hide Dollars, Multiplier, IndexOf;
    if u == book[i].qty {
      forall j | 0 <= j < |l.book|
        ensures l.book[j].id != id
      {
        assert l.book[j] == if j < i then book[j] else book[j + 1];
      }
    }
  }

  // ---- the exits of a session ----------------------------------------------

  /** What the exits leave of a position, by itself: all of it when its rule asks for nothing,
      or for a share of nothing, or the market cannot fill the order; otherwise what the
      share leaves. */
  function PosLeft(c: Setup, m: Snapshot, rule: nat -> Option<Action>, p: Pos): Option<Pos>
    requires p.legs != [] && (rule(p.id).Some? ==> rule(p.id).value.fraction >= 0.0)
  {
    match rule(p.id)
    case None => Some(p)
    case Some(a) =>
      var u := ClosingUnits(p.qty, a.fraction);
      if u == 0 || !Fillable(c, m, p, u) then Some(p)
      else if u == p.qty then None
      else Some(PosAfter(p, u, ExitPrice(c, m, p, u), a.isTp1))
  }

  /** Its trade, with whatever was closed booked. */
  function TradeLeft(c: Setup, m: Snapshot, rule: nat -> Option<Action>, p: Pos, t: Trade): Trade
    requires p.legs != [] && (rule(p.id).Some? ==> rule(p.id).value.fraction >= 0.0)
  {
    match rule(p.id)
    case None => t
    case Some(a) =>
      var u := ClosingUnits(p.qty, a.fraction);
      if u == 0 || !Fillable(c, m, p, u) then t
      else TradeAfter(t, u, ExitPrice(c, m, p, u), ExitFee(c, m, p, u))
  }

  /** What the exits of the first k positions leave: positions, their trades, and the records
      of those that are gone. */
  datatype Left = Left(book: seq<Pos>, open: seq<Trade>, records: seq<Record>)

  ghost predicate Asked(rule: nat -> Option<Action>) {
    forall id :: rule(id).Some? ==> rule(id).value.fraction >= 0.0
  }

  ghost predicate Legged(book: seq<Pos>) {
    forall i :: 0 <= i < |book| ==> book[i].legs != []
  }

  ghost function LeftOf(c: Setup, m: Snapshot, rule: nat -> Option<Action>, book: seq<Pos>, open: seq<Trade>, k: nat): Left
    requires Asked(rule) && Legged(book) && k <= |book| == |open|
  {
    if k == 0 then Left([], [], [])
    else
      var rest := LeftOf(c, m, rule, book, open, k - 1);
      var t := TradeLeft(c, m, rule, book[k - 1], open[k - 1]);
      match PosLeft(c, m, rule, book[k - 1])
      case Some(q) => Left(rest.book + [q], rest.open + [t], rest.records)
      case None => Left(rest.book, rest.open, rest.records + [ToRecord(t)])
  }

  /** r is d with left in place of its first k positions. */
  ghost predicate Matches(d: Desk, left: Left, r: Desk, k: nat)
    requires k <= |d.ledger.book| == |d.open|
  {
    && |left.book| == |left.open|
    && r.ledger.book == left.book + d.ledger.book[k..]
    && r.open == left.open + d.open[k..]
    && r.trades == d.trades + left.records
  }

  /** r is d with the exits of its first k positions done and the others untouched. */
  ghost predicate PassedTo(c: Setup, d: Desk, rule: nat -> Option<Action>, r: Desk, k: nat)
    requires Asked(rule) && Legged(d.ledger.book) && k <= |d.ledger.book| == |d.open|
  {
    && DeskInv(r)
    && r.ledger.market == d.ledger.market && r.ledger.today == d.ledger.today
    && Matches(d, LeftOf(c, d.ledger.market, rule, d.ledger.book, d.open, k), r, k)
  }

  /** The next position is now q and its trade t. */
  lemma MatchesKept(d: Desk, left: Left, r: Desk, r': Desk, k: nat, q: Pos, t: Trade)
    requires k < |d.ledger.book| == |d.open| && Matches(d, left, r, k)
    requires r'.ledger.book == r.ledger.book[|left.book| := q] && r'.open == r.open[|left.book| := t] && r'.trades == r.trades
    ensures Matches(d, Left(left.book + [q], left.open + [t], left.records), r', k + 1)
  {
    SplicedNext(left.book, d.ledger.book, k, q);
    SplicedNext(left.open, d.open, k, t);
  }

  /** The next position is gone and its trade recorded. */
  lemma MatchesGone(d: Desk, left: Left, r: Desk, r': Desk, k: nat, x: Record)
    requires k < |d.ledger.book| == |d.open| && Matches(d, left, r, k)
    requires var i := |left.book|;
             && r'.ledger.book == r.ledger.book[..i] + r.ledger.book[i + 1..]
             && r'.open == r.open[..i] + r.open[i + 1..] && r'.trades == r.trades + [x]
    ensures Matches(d, Left(left.book, left.open, left.records + [x]), r', k + 1)
  {
    SplicedNext(left.book, d.ledger.book, k, d.ledger.book[k]);
    SplicedNext(left.open, d.open, k, d.open[k]);
    assert d.trades + left.records + [x] == d.trades + (left.records + [x]);
  }

  lemma SplicedNext<T>(before: seq<T>, all: seq<T>, k: nat, y: T)
    requires k < |all|
    ensures var s, n := before + all[k..], |before|;
            && s[n] == all[k]
            && s[n := y] == before + [y] + all[k + 1..]
            && s[..n] + s[n + 1..] == before + all[k + 1..]
  {
  }

  /** One position's turn. */
  lemma ExitTurn(c: Setup, d: Desk, rule: nat -> Option<Action>, r: Desk, k: nat)
    requires DeskInv(d) && d.ledger.today.Some? && Asked(rule) && Legged(d.ledger.book)
    requires k < |d.ledger.book| == |d.open| && PassedTo(c, d, rule, r, k)
    ensures var p := d.ledger.book[k];
            match rule(p.id)
            case None => PassedTo(c, d, rule, r, k + 1)
            case Some(a) => PassedTo(c, d, rule, ExitOne(c, r, p.id, a), k + 1)
  {
    var p, t, m := d.ledger.book[k], d.open[k], d.ledger.market;
    var left := LeftOf(c, m, rule, d.ledger.book, d.open, k);
    var i := |left.book|;
    LeftNext(c, m, rule, d.ledger.book, d.open, k);
    SplicedNext(left.book, d.ledger.book, k, p);
    SplicedNext(left.open, d.open, k, t);
    hide DeskInv, Fillable, ExitOne, LeftOf, Matches;
    match rule(p.id)
    case None =>
      SameAtTurn(d, left, r, k);
      MatchesKept(d, left, r, r, k, p, t);
    case Some(a) =>
      SameAtTurn(d, left, r, k);
      AskedTurn(c, d, left, r, k, a);
  }

  lemma SameAtTurn(d: Desk, left: Left, r: Desk, k: nat)
    requires k < |d.ledger.book| == |d.open| && Matches(d, left, r, k)
    ensures var i := |left.book|;
            && i < |r.ledger.book| && i < |r.open| && r.ledger.book[i] == d.ledger.book[k] && r.open[i] == d.open[k]
            && r.ledger.book == r.ledger.book[i := d.ledger.book[k]] && r.open == r.open[i := d.open[k]]
  {
  }

  lemma AskedTurn(c: Setup, d: Desk, left: Left, r: Desk, k: nat, a: Action)
    requires DeskInv(r) && r.ledger.today.Some? && Legged(d.ledger.book) && a.fraction >= 0.0
    requires k < |d.ledger.book| == |d.open| && Matches(d, left, r, k)
    requires r.ledger.market == d.ledger.market && r.ledger.today == d.ledger.today
    ensures var p, t, m := d.ledger.book[k], d.open[k], d.ledger.market;
            var u := ClosingUnits(p.qty, a.fraction);
            var r' := ExitOne(c, r, p.id, a);
            && DeskInv(r') && r'.ledger.market == m && r'.ledger.today == d.ledger.today
            && if u == 0 || !Fillable(c, m, p, u) then Matches(d, Left(left.book + [p], left.open + [t], left.records), r', k + 1)
               else
                 var t' := TradeAfter(t, u, ExitPrice(c, m, p, u), ExitFee(c, m, p, u));
                 if u == p.qty then Matches(d, Left(left.book, left.open, left.records + [ToRecord(t')]), r', k + 1)
                 else
                   Matches(d, Left(left.book + [PosAfter(p, u, ExitPrice(c, m, p, u), a.isTp1)], left.open + [t'], left.records), r', k + 1)
  {
    var p, t, m := d.ledger.book[k], d.open[k], d.ledger.market;
    var i, u := |left.book|, ClosingUnits(p.qty, a.fraction);
    SameAtTurn(d, left, r, k);
    AskedIsClosed(p.qty, a.fraction, u);
    ExitCloses(c, r, i, a, u);
    ExitKeepsDesk(c, r, p.id, a);
    hide DeskInv, ExitOne, ClosingUnits, ToRecord, ExitPrice, ExitFee, PosAfter, TradeAfter, Mirror, Premium, Matches, Fillable, AsksFor;
    var r' := ExitOne(c, r, p.id, a);
    if u == 0 || !Fillable(c, m, p, u) {
      MatchesKept(d, left, r, r', k, p, t);
    } else {
      var price, fee := ExitPrice(c, m, p, u), ExitFee(c, m, p, u);
      if u == p.qty {
        MatchesGone(d, left, r, r', k, ToRecord(TradeAfter(t, u, price, fee)));
      } else {
        MatchesKept(d, left, r, r', k, PosAfter(p, u, price, a.isTp1), TradeAfter(t, u, price, fee));
      }
    }
  }

  lemma LeftNext(c: Setup, m: Snapshot, rule: nat -> Option<Action>, book: seq<Pos>, open: seq<Trade>, k: nat)
    requires Asked(rule) && Legged(book) && k < |book| == |open|
    ensures var rest := LeftOf(c, m, rule, book, open, k);
            var t := TradeLeft(c, m, rule, book[k], open[k]);
            LeftOf(c, m, rule, book, open, k + 1) ==
            match PosLeft(c, m, rule, book[k])
            case Some(q) => Left(rest.book + [q], rest.open + [t], rest.records)
            case None => Left(rest.book, rest.open, rest.records + [ToRecord(t)])
  {
    hide PosLeft, TradeLeft, ToRecord;
  }

  /** The exits of a session: every position is exited by itself, as if there were no other. */
  lemma {:induction false} ExitsPass(c: Setup, d: Desk, rule: nat -> Option<Action>, k: nat)
    requires DeskInv(d) && d.ledger.today.Some? && Asked(rule) && Legged(d.ledger.book)
    requires k <= |d.ledger.book| == |d.open|
    ensures PassedTo(c, d, rule, ExitAll(c, d, ExitList(rule, d.ledger.book[..k])), k)
  {
    if k == 0 {
      NonePassed(c, d, rule);
    } else {
      hide DeskInv, ExitOne, PassedTo, ExitAll, ExitList, Asked;
      ExitsPass(c, d, rule, k - 1);
      ExitTurn(c, d, rule, ExitAll(c, d, ExitList(rule, d.ledger.book[..k - 1])), k - 1);
      ExitNext(c, d, rule, d.ledger.book, k - 1);
    }
  }

  lemma NonePassed(c: Setup, d: Desk, rule: nat -> Option<Action>)
    requires DeskInv(d) && Asked(rule) && Legged(d.ledger.book) && |d.ledger.book| == |d.open|
    ensures PassedTo(c, d, rule, ExitAll(c, d, ExitList(rule, d.ledger.book[..0])), 0)
  {
    hide DeskInv, ExitOne;
  }

  lemma ExitNext(c: Setup, d: Desk, rule: nat -> Option<Action>, book: seq<Pos>, k: nat)
    requires Inv(d.ledger) && Asked(rule)
    ensures ExitAll(c, d, ExitList(rule, book[..0])) == d
    ensures k < |book| ==>
              var before := ExitAll(c, d, ExitList(rule, book[..k]));
              ExitAll(c, d, ExitList(rule, book[..k + 1])) ==
              match rule(book[k].id)
              case None => before
              case Some(action) => ExitOne(c, before, book[k].id, action)
  {
    if k < |book| {
      assert book[..k + 1][..k] == book[..k];
      var earlier := ExitList(rule, book[..k]);
      if rule(book[k].id).Some? {
        assert (earlier + [(book[k].id, rule(book[k].id).value)])[..|earlier|] == earlier;
      }
    }
    hide ExitOne, Inv;
  }

  // ---- entries -------------------------------------------------------------

  /** Position q holds units of the proposed structure: the same instruments and sides, every
      ratio times the held units being the proposed quantity times the asked ones. */
  ghost predicate HoldsUnits(q: Pos, p: Proposal, units: int) {
    && |q.legs| == |p.legs| && q.maxLoss == p.maxLoss && q.engine == p.engine
    && forall i :: 0 <= i < |p.legs| ==>
         q.legs[i].key == p.legs[i].key && q.legs[i].side == p.legs[i].side && q.legs[i].qty * q.qty == p.legs[i].qty * units
  }

  /** What an entry does: nothing for no units; otherwise it sends every leg times the units,
      and a fill opens one position of them and one trade at the price and fee of the fill. */
  ghost predicate Entered(c: Setup, d: Desk, r: Desk, p: Proposal, units: int)
    requires WellFormed(p.legs)
  {
    if units <= 0 then r == d
    else
      var o := Order(Scaled(p.legs, units), Open, None, p.maxLoss, p.engine);
      && WellFormed(o.legs)
      && var (l, out) := Place(c, d.ledger, o);
      && r.ledger == l && r.trades == d.trades && r.unexplained == d.unexplained
      && if out.Rejected? then l.book == d.ledger.book && r.open == d.open
         else
           && |l.book| == |d.ledger.book| + 1 && l.book[..|d.ledger.book|] == d.ledger.book
           && HoldsUnits(l.book[|d.ledger.book|], p, units)
           && out.units == units * UnitsOf(p.legs)
           && r.open == d.open + [Trade(out.id, out.price, out.units, Multiplier(p.legs), out.commission, 0.0, 0)]
  }

  lemma EnterIs(c: Setup, d: Desk, p: Proposal, units: int)
    requires Inv(d.ledger) && WellFormed(p.legs)
    ensures Entered(c, d, Enter(c, d, p, units), p, units)
  {
    hide Inv, Place, Scaled, UnitsOf, HoldsUnits, WellFormed;
    if units > 0 {
      MirrorWellFormed(p.legs, units);
      var o := OpenOrder(p, units);
      if Place(c, d.ledger, o).1.Filled? {
        OpensUnits(c, d.ledger, p, units);
      } else {
        RejectionChangesNothing(c, d.ledger, o);
      }
    }
  }

  lemma OpensUnits(c: Setup, l: Ledger, p: Proposal, units: nat)
    requires Inv(l) && WellFormed(p.legs) && WellFormed(Scaled(p.legs, units)) && units >= 1
    requires Place(c, l, OpenOrder(p, units)).1.Filled?
    ensures var (r, out) := Place(c, l, OpenOrder(p, units));
            && |r.book| == |l.book| + 1 && r.book[..|l.book|] == l.book
            && HoldsUnits(r.book[|l.book|], p, units)
            && out.units == units * UnitsOf(p.legs)
  {
    hide Inv, Place, UnitsOf, WellFormed, PlaceOpen, Opened, Scaled;
    var o := OpenOrder(p, units);
    FilledOpen(c, l, o);
    PlacedOpen(c, l, o);
    OpenAppends(l.(orders := l.orders + 1), o, Premium(l.market, c.model, o.legs), Commission(l.market, c.model, o.legs));
    UnitsScaled(p.legs, units);
    OpenedHolds(l.market, p, units, Premium(l.market, c.model, o.legs), Commission(l.market, c.model, o.legs), l.orders + 1);
  }

  lemma OpenAppends(l: Ledger, o: Order, premium: real, commission: real)
    requires WellFormed(o.legs) && PlaceOpen(l, o, premium, commission).1.Filled?
    ensures var (r, out) := PlaceOpen(l, o, premium, commission);
            r.book == l.book + [Opened(l.market, o, premium, commission, l.orders)] && out.units == UnitsOf(o.legs)
  {
    hide Total, NeedsReserve, UnitsOf, UnitPrice, WellFormed, MarkValue, Reduced;
  }

  lemma UnitsScaled(legs: seq<Leg>, u: nat)
    requires WellFormed(legs) && u >= 1
    ensures Scaled(legs, u) != [] && UnitsOf(Scaled(legs, u)) == u * UnitsOf(legs)
  {
    hide UnitsOf;
    UnitsScale(legs, Scaled(legs, u), u);
  }

  lemma OpenedHolds(m: Snapshot, p: Proposal, units: nat, premium: real, commission: real, id: nat)
    requires WellFormed(p.legs) && units >= 1 && WellFormed(Scaled(p.legs, units))
    ensures HoldsUnits(Opened(m, OpenOrder(p, units), premium, commission, id), p, units)
  {
    var legs := Scaled(p.legs, units);
    ReducedIsExact(legs);
    OpenedShape(m, OpenOrder(p, units), premium, commission, id);
    hide UnitsOf, Opened, WellFormed;
  }

  lemma OpenedShape(m: Snapshot, o: Order, premium: real, commission: real, id: nat)
    requires WellFormed(o.legs)
    ensures var u, q := UnitsOf(o.legs), Opened(m, o, premium, commission, id);
            u >= 1 && q.id == id && q.legs == Reduced(o.legs, u) && q.qty == u && q.maxLoss == o.maxLoss && q.engine == o.engine
  {
    hide UnitsOf, UnitPrice, MarkValue, Reduced;
    UnitsPositive(o.legs);
  }

  /** Every entry takes its turn, in order. */
  lemma EnteredInOrder(c: Setup, d: Desk, entries: seq<(Proposal, int)>, k: nat)
    requires DeskInv(d) && forall i :: 0 <= i < |entries| ==> WellFormed(entries[i].0.legs)
    ensures EnterAll(c, d, entries[..0]) == d
    ensures k < |entries| ==>
              Entered(c, EnterAll(c, d, entries[..k]), EnterAll(c, d, entries[..k + 1]), entries[k].0, entries[k].1)
  {
    hide Enter, InStep, Inv, WellFormed, Entered;
    if k < |entries| {
      EnterAllKeeps(c, d, entries[..k]);
      assert entries[..k + 1][..k] == entries[..k];
      EnterIs(c, EnterAll(c, d, entries[..k]), entries[k].0, entries[k].1);
    }
  }

  /** Entries only add: positions, trades and records that were there stay as they were. */
  lemma {:induction false} EntriesAdd(c: Setup, d: Desk, entries: seq<(Proposal, int)>)
    requires DeskInv(d) && forall i :: 0 <= i < |entries| ==> WellFormed(entries[i].0.legs)
    ensures var r := EnterAll(c, d, entries);
            d.ledger.book <= r.ledger.book && d.open <= r.open && r.trades == d.trades
  {
    if entries != [] {
      hide Enter, InStep, Inv, WellFormed, DeskInv;
      var n := |entries| - 1;
      EntriesAdd(c, d, entries[..n]);
      EnterAllKeeps(c, d, entries[..n]);
      var before := EnterAll(c, d, entries[..n]);
      EntryAdds(c, before, entries[n].0, entries[n].1);
    }
  }

  lemma EntryAdds(c: Setup, d: Desk, p: Proposal, units: int)
    requires DeskInv(d) && WellFormed(p.legs)
    ensures var r := Enter(c, d, p, units);
            d.ledger.book <= r.ledger.book && d.open <= r.open && r.trades == d.trades
  {
    hide Enter, Place, InStep, HoldsUnits, WellFormed, Scaled;
    EnterIs(c, d, p, units);
  }

  // ---- sessions ------------------------------------------------------------

  lemma {:induction false} SweepKeepsLedger(d: Desk, pending: seq<Trade>)
    ensures SweepAll(d, pending).ledger == d.ledger
  {
    if pending != [] {
      hide ToRecord, SettleTrade, Telemetry;
      SweepKeepsLedger(d, pending[..|pending| - 1]);
    }
  }

  /** One session, from the market to the last entry. The market step is the broker's, with
      its partial settlements drained. Then every held position is exited by itself. Then
      entries only add. */
  lemma SessionIs(c: Setup, d: Desk, s: Session)
    requires DeskInv(d) && ValidSession(s)
    ensures DeskInv(NextMarket(d, s.chains, s.today))
    ensures var e := NextMarket(d, s.chains, s.today);
            var r := RunSession(c, d, s);
            && e.ledger == UpdateMarket(d.ledger, s.chains, s.today, None, None).(partials := [])
            && Legged(e.ledger.book) && |e.open| == |e.ledger.book|
            && var left := LeftOf(c, e.ledger.market, s.rule, e.ledger.book, e.open, |e.open|);
               left.book <= r.ledger.book && left.open <= r.open && r.trades == e.trades + left.records
  {
    hide UpdateMarket, SweepAll, FoldPartials, ExitAll, EnterAll, ExitList, Inv, InStep, Legged;
    AdvanceKeepsDesk(d, s.chains, s.today);
    var e := NextMarket(d, s.chains, s.today);
    MarketStep(d, s.chains, s.today);
    LeggedBook(e);
    var n := |e.open|;
    hide NextMarket;
    ExitsPass(c, e, s.rule, n);
    assert e.ledger.book[..n] == e.ledger.book && e.ledger.book[n..] == [] && e.open[n..] == [];
    EntriesAdd(c, ExitAll(c, e, ExitList(s.rule, e.ledger.book)), s.entries);
  }

  lemma LeggedBook(d: Desk)
    requires DeskInv(d)
    ensures Legged(d.ledger.book) && |d.open| == |d.ledger.book|
  {
    forall i | 0 <= i < |d.ledger.book|
      ensures d.ledger.book[i].legs != []
    {
      InvAt(d.ledger, i);
    }
  }

  lemma MarketStep(d: Desk, chains: map<string, Chain>, today: Date)
    requires DeskInv(d)
    ensures var r := NextMarket(d, chains, today);
            && r.ledger == UpdateMarket(d.ledger, chains, today, None, None).(partials := [])
            && r.ledger.today == Some(today)
  {
    hide UpdateMarket, SweepAll, FoldPartials;
    var e := d.(ledger := UpdateMarket(d.ledger, chains, today, None, None));
    SweepKeepsLedger(e.(ledger := e.ledger.(partials := []), open := []), FoldPartials(e.open, e.ledger.partials));
    TodayIs(d, chains, today);
  }

  lemma TodayIs(d: Desk, chains: map<string, Chain>, today: Date)
    requires DeskInv(d)
    ensures UpdateMarket(d.ledger, chains, today, None, None).today == Some(today)
  {
    LeggedBook(d);
    hide UpdateMarket, Settled;
    NothingDueStays(d.ledger, chains, today, None, None);
  }

  /** So it goes for every session of a run. */
  lemma EverySession(c: Setup, start: real, ss: seq<Session>, k: nat)
    requires ValidSessions(ss) && k < |ss|
    ensures RunDaily(c, start, []) == OpeningDesk(start)
    ensures var d := RunDaily(c, start, ss[..k]);
            var e := NextMarket(d, ss[k].chains, ss[k].today);
            var r := RunDaily(c, start, ss[..k + 1]);
            && DeskInv(e) && Legged(e.ledger.book) && |e.open| == |e.ledger.book|
            && e.ledger == UpdateMarket(d.ledger, ss[k].chains, ss[k].today, None, None).(partials := [])
            && var left := LeftOf(c, e.ledger.market, ss[k].rule, e.ledger.book, e.open, |e.open|);
               left.book <= r.ledger.book && left.open <= r.open && r.trades == e.trades + left.records
  {
    hide DeskInv, RunSession, NextMarket, LeftOf, Legged, UpdateMarket, ValidSession;
    assert ss[..k + 1][..k] == ss[..k];
    SessionIs(c, RunDaily(c, start, ss[..k]), ss[k]);
  }
}
