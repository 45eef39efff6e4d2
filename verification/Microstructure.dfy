// Order-flow features over the trade tape (src/edge/features/microstructure.py): the
// tick rule, signed imbalance, and VPIN on an exact volume clock.
module Microstructure {
  import opened Common

  // ---- the tick rule -------------------------------------------------------

  function Sign(x: real): int {
    if x > 0.0 then 1 else if x < 0.0 then -1 else 0
  }

  /** The raw tick of print i; the first print has no predecessor. */
  function Tick(price: seq<real>, i: nat): int
    requires i < |price|
  {
    if i == 0 then 0 else Sign(price[i] - price[i - 1])
  }

  /** The rule in one line: a zero tick inherits the previous sign. */
  function Carried(price: seq<real>, i: nat): int
    requires i < |price|
  {
    if Tick(price, i) != 0 then Tick(price, i)
    else if i == 0 then 0
    else Carried(price, i - 1)
  }

  /** Largest index up to i with a non-zero tick, or 0 when there is none. */
  function LastTick(price: seq<real>, i: nat): (j: nat)
    requires i < |price|
    ensures j <= i
    ensures forall k :: j < k <= i ==> Tick(price, k) == 0
    ensures j != 0 ==> Tick(price, j) != 0
  {
    if Tick(price, i) != 0 || i == 0 then i else LastTick(price, i - 1)
  }

  lemma {:induction false} CarriedFrom(price: seq<real>, i: nat)
    requires i < |price|
    ensures Carried(price, i) == Tick(price, LastTick(price, i))
  {
    if Tick(price, i) == 0 && i > 0 {
      CarriedFrom(price, i - 1);
    }
  }

  /** A print is unsigned exactly when the price has not moved since the start. */
  lemma {:induction false} UnsignedIffUnmoved(price: seq<real>, i: nat)
    requires i < |price|
    ensures Carried(price, i) == 0 <==> forall k :: 0 <= k <= i ==> price[k] == price[0]
  {
    if i > 0 {
      UnsignedIffUnmoved(price, i - 1);
    }
  }

  /** The last move of the price up to print i was at print j. */
  ghost predicate LastMove(price: seq<real>, i: nat, j: nat) {
    0 < j <= i < |price| && price[j] != price[j - 1] && forall k :: j < k <= i ==> price[k] == price[k - 1]
  }

  /** A print is a buy exactly when the last move of the price was up, and a sale exactly when it
      was down. */
  lemma SignOfLastMove(price: seq<real>, i: nat)
    requires i < |price|
    ensures Carried(price, i) == 1 <==> exists j: nat :: LastMove(price, i, j) && price[j] > price[j - 1]
    ensures Carried(price, i) == -1 <==> exists j: nat :: LastMove(price, i, j) && price[j] < price[j - 1]
  {
    hide LastMove, Carried, LastTick;
    CarriedFrom(price, i);
    var last := LastTick(price, i);
    MovesAre(price, i);
    if last > 0 {
      assert LastMove(price, i, last);
    }
  }

  /** There is at most one last move, and LastTick finds it. */
  lemma MovesAre(price: seq<real>, i: nat)
    requires i < |price|
    ensures forall j: nat :: LastMove(price, i, j) <==> j == LastTick(price, i) && j > 0
  {
    hide LastTick;
    var last := LastTick(price, i);
    forall k: nat | 0 < k <= i
      ensures Tick(price, k) == 0 <==> price[k] == price[k - 1]
    {
    }
    hide Tick;
    forall j: nat | LastMove(price, i, j)
      ensures j == last
    {
    }
  }

  /** Signs never look ahead: later prints do not change an earlier sign. */
  lemma {:induction false} SignsAreCausal(price: seq<real>, more: seq<real>, i: nat)
    requires i < |price|
    ensures Carried(price + more, i) == Carried(price, i)
  {
    if i > 0 {
      SignsAreCausal(price, more, i - 1);
    }
  }

  /** The vectorised form: mark non-zero ticks with their index, take the running
      maximum in place, gather, and clear what precedes the first non-zero tick. */
  method TickRuleSigns(price: seq<real>) returns (carried: array<int>)
    ensures fresh(carried) && carried.Length == |price|
    ensures forall i :: 0 <= i < |price| ==> carried[i] == Carried(price, i)
  {
    hide Tick, LastTick, Carried;
    var signs := Ticks(price);
    var idx := MarkedTicks(price, signs);
    AccumulateMaximum(price, idx);
    carried := Gathered(price, signs, idx);
    ClearUnsigned(price, signs, carried);
  }

  /** The sign of every move; the first print has none. */
  method Ticks(price: seq<real>) returns (signs: array<int>)
    ensures fresh(signs) && signs.Length == |price|
    ensures forall k :: 0 <= k < |price| ==> signs[k] == Tick(price, k)
  {
    signs := new int[|price|];
    for i := 0 to |price|
      invariant forall k :: 0 <= k < i ==> signs[k] == Tick(price, k)
    {
      signs[i] := if i == 0 then 0 else Sign(price[i] - price[i - 1]);
    }
  }

  /** The index of every non-zero tick, and zero elsewhere. */
  method MarkedTicks(price: seq<real>, signs: array<int>) returns (idx: array<nat>)
    requires signs.Length == |price| && forall k :: 0 <= k < |price| ==> signs[k] == Tick(price, k)
    ensures fresh(idx) && idx.Length == |price|
    ensures forall k :: 0 <= k < |price| ==> idx[k] == if Tick(price, k) != 0 then k else 0
  {
    hide Tick;
    idx := new nat[|price|];
    for i := 0 to |price|
      invariant forall k :: 0 <= k < i ==> idx[k] == if Tick(price, k) != 0 then k else 0
    {
      idx[i] := if signs[i] != 0 then i else 0;
    }
  }

  method Gathered(price: seq<real>, signs: array<int>, idx: array<nat>) returns (carried: array<int>)
    requires signs.Length == idx.Length == |price| && forall k :: 0 <= k < |price| ==> signs[k] == Tick(price, k)
    requires forall k :: 0 <= k < |price| ==> idx[k] == LastTick(price, k)
    ensures fresh(carried) && carried.Length == |price|
    ensures forall k :: 0 <= k < |price| ==> carried[k] == Carried(price, k)
  {
    hide Tick, LastTick, Carried;
    carried := new int[|price|];
    for i := 0 to |price|
      invariant forall k :: 0 <= k < i ==> carried[k] == Carried(price, k)
    {
      CarriedFrom(price, i);
      carried[i] := signs[idx[i]];
    }
  }

  /** np.maximum.accumulate(idx, out=idx). */
  method AccumulateMaximum(price: seq<real>, idx: array<nat>)
    requires idx.Length == |price|
    requires forall k :: 0 <= k < |price| ==> idx[k] == if Tick(price, k) != 0 then k else 0
    modifies idx
    ensures forall k :: 0 <= k < |price| ==> idx[k] == LastTick(price, k)
  {
    var i := 1;
    while i < idx.Length
      invariant 1 <= i
      invariant forall k :: 0 <= k < i && k < |price| ==> idx[k] == LastTick(price, k)
      invariant forall k :: i <= k < |price| ==> idx[k] == if Tick(price, k) != 0 then k else 0
    {
      idx[i] := if idx[i - 1] > idx[i] then idx[i - 1] else idx[i];
      i := i + 1;
    }
  }

  /** Positions before the first non-zero sign are set to zero. */
  method ClearUnsigned(price: seq<real>, signs: array<int>, carried: array<int>)
    requires signs.Length == carried.Length == |price| && signs != carried
    requires forall k :: 0 <= k < |price| ==> signs[k] == Tick(price, k)
    requires forall k :: 0 <= k < |price| ==> carried[k] == Carried(price, k)
    modifies carried
    ensures forall k :: 0 <= k < |price| ==> carried[k] == Carried(price, k)
  {
    var first := 0;
    while first < signs.Length && signs[first] == 0
      invariant first <= signs.Length
      invariant forall k :: 0 <= k < first ==> Tick(price, k) == 0 && Carried(price, k) == 0
      invariant forall k :: 0 <= k < |price| ==> carried[k] == Carried(price, k)
    {
      carried[first] := 0;
      first := first + 1;
    }
  }

  // ---- signed imbalance ----------------------------------------------------

  function Weight(): ((real, int)) -> real {
    (p: (real, int)) => p.0 * (p.1 as real)
  }

  function Volume(): ((real, int)) -> real {
    (p: (real, int)) => p.0
  }

  function Imbalance(prints: seq<(real, int)>): real {
    var total := Sum(Volume(), prints);
    if total <= 0.0 then 0.0 else Sum(Weight(), prints) / total
  }

  ghost predicate ValidPrints(prints: seq<(real, int)>) {
    forall i :: 0 <= i < |prints| ==> prints[i].0 >= 0.0 && -1 <= prints[i].1 <= 1
  }

  lemma {:induction false} SignedWithinVolume(prints: seq<(real, int)>)
    requires ValidPrints(prints)
    ensures -Sum(Volume(), prints) <= Sum(Weight(), prints) <= Sum(Volume(), prints)
  {
    if prints != [] {
      SignedWithinVolume(prints[..|prints| - 1]);
      var p := prints[|prints| - 1];
      assert p.1 == -1 || p.1 == 0 || p.1 == 1;
    }
  }

  /** Signed imbalance lies in [-1, 1]. */
  lemma ImbalanceRange(prints: seq<(real, int)>)
    requires ValidPrints(prints)
    ensures -1.0 <= Imbalance(prints) <= 1.0
  {
    SignedWithinVolume(prints);
    var total := Sum(Volume(), prints);
    if total > 0.0 {
      QuotientWithin(Sum(Weight(), prints), total);
    }
  }

  lemma QuotientWithin(a: real, b: real)
    requires b > 0.0 && -b <= a <= b
    ensures -1.0 <= a / b <= 1.0
    ensures a >= 0.0 ==> a / b >= 0.0
  {
    var q := a / b;
    assert q * b == a;
    if q > 1.0 {
      ProductPositive(q - 1.0, b);
    }
    if q < -1.0 {
      ProductPositive(-1.0 - q, b);
    }
    if q < 0.0 && a >= 0.0 {
      ProductPositive(-q, b);
    }
  }

  function Bought(): ((real, int)) -> real {
    (p: (real, int)) => if p.1 == 1 then p.0 else 0.0
  }

  function Sold(): ((real, int)) -> real {
    (p: (real, int)) => if p.1 == -1 then p.0 else 0.0
  }

  /** Signed imbalance is what was bought less what was sold, as a share of all volume. */
  lemma ImbalanceIsNet(prints: seq<(real, int)>)
    requires ValidPrints(prints) && Sum(Volume(), prints) > 0.0
    ensures Imbalance(prints) * Sum(Volume(), prints) == Sum(Bought(), prints) - Sum(Sold(), prints)
  {
    hide Sum, ValidPrints;
    NetIsBoughtLessSold(prints);
    DividedBack(Sum(Weight(), prints), Sum(Volume(), prints));
  }

  lemma DividedBack(x: real, y: real)
    requires y > 0.0
    ensures (x / y) * y == x
  {
  }

  lemma {:induction false} NetIsBoughtLessSold(prints: seq<(real, int)>)
    requires ValidPrints(prints)
    ensures Sum(Weight(), prints) == Sum(Bought(), prints) - Sum(Sold(), prints)
  {
    if prints != [] {
      NetIsBoughtLessSold(prints[..|prints| - 1]);
      var p := prints[|prints| - 1];
      assert p.1 == -1 || p.1 == 0 || p.1 == 1;
    }
  }

  // ---- the volume clock ----------------------------------------------------

  /** Sum of the first i values; index 0 is the leading zero of the grid. */
  function Cum(xs: seq<real>, i: nat): real
    requires i <= |xs|
  {
    if i == 0 then 0.0 else Cum(xs, i - 1) + xs[i - 1]
  }

  /** Each print's volume on one side: signed prints wholly, unsigned ones by half. */
  function SideVolume(size: seq<real>, signs: seq<int>, side: int): (v: seq<real>)
    requires |size| == |signs|
    ensures |v| == |size|
  {
    seq(|size|, i requires 0 <= i < |size| =>
      (if signs[i] * side > 0 then size[i] else 0.0) + (if signs[i] == 0 then size[i] else 0.0) / 2.0)
  }

  /** The grid cell of e: the largest j with Cum(xs, j) <= e. */
  function Cell(xs: seq<real>, e: real, n: nat): (j: nat)
    requires n <= |xs| && e >= 0.0
    ensures j <= n && Cum(xs, j) <= e
    ensures j < n ==> Cum(xs, j + 1) > e
  {
    if n == 0 || Cum(xs, n) <= e then n else Cell(xs, e, n - 1)
  }

  /** np.interp of the cumulative ys at e over the cumulative grid of xs. */
  function Interp(xs: seq<real>, ys: seq<real>, e: real): real
    requires |xs| == |ys| && e >= 0.0
  {
    var j := Cell(xs, e, |xs|);
    if j == |xs| then Cum(ys, j)
    else Cum(ys, j) + (e - Cum(xs, j)) * Slope(Cum(ys, j + 1) - Cum(ys, j), Cum(xs, j + 1) - Cum(xs, j))
  }

  function Slope(dy: real, dx: real): real
    requires dx > 0.0
  {
    dy / dx
  }

  function Edge(v: real, k: nat): real {
    (k as real) * v
  }

  /** One side's volume in bucket k: the difference of the interpolations at its edges. */
  function PerBucket(size: seq<real>, signs: seq<int>, side: int, v: real, k: nat): real
    requires |size| == |signs| && v > 0.0
  {
    EdgesPositive(v, k);
    EdgesPositive(v, k + 1);
    var ys := SideVolume(size, signs, side);
    Interp(Tape(size, signs), ys, Edge(v, k + 1)) - Interp(Tape(size, signs), ys, Edge(v, k))
  }

  /** buy + sell, whose cumulative sum is the volume clock. */
  function Tape(size: seq<real>, signs: seq<int>): (t: seq<real>)
    requires |size| == |signs|
    ensures |t| == |size|
  {
    var buy, sell := SideVolume(size, signs, 1), SideVolume(size, signs, -1);
    seq(|size|, i requires 0 <= i < |size| => buy[i] + sell[i])
  }

  lemma EdgesPositive(v: real, k: nat)
    requires v > 0.0
    ensures Edge(v, k) >= 0.0
    ensures Edge(v, k + 1) == Edge(v, k) + v
  {
    ProductNonNegative(k as real, v);
    assert ((k + 1) as real) == (k as real) + 1.0;
  }

  function Abs(x: real): real {
    if x >= 0.0 then x else -x
  }

  /** The imbalance of bucket k as a share of its volume. */
  function BucketImbalance(size: seq<real>, signs: seq<int>, v: real, k: nat): real
    requires |size| == |signs| && v > 0.0
  {
    Abs(PerBucket(size, signs, 1, v, k) - PerBucket(size, signs, -1, v, k)) / v
  }

  function ImbalanceSum(size: seq<real>, signs: seq<int>, v: real, lo: nat, hi: nat): real
    requires |size| == |signs| && v > 0.0 && lo <= hi
    decreases hi
  {
    if lo == hi then 0.0
    else ImbalanceSum(size, signs, v, lo, hi - 1) + BucketImbalance(size, signs, v, hi - 1)
  }

  /** bucket_vpin: the mean imbalance of the last n complete buckets, or NaN. */
  function Vpin(size: seq<real>, signs: seq<int>, v: real, n: int): Num
    requires |size| == |signs|
  {
    if v <= 0.0 || n <= 0 || size == [] then NaN
    else
      var complete := (Cum(Tape(size, signs), |size|) / v).Floor;
      if complete < n then NaN
      else Fin(ImbalanceSum(size, signs, v, complete - n, complete) / (n as real))
  }

  // ---- exact allocation ----------------------------------------------------

  ghost predicate NonNegative(xs: seq<real>) {
    forall i :: 0 <= i < |xs| ==> xs[i] >= 0.0
  }

  /** How much of print i lies below e on the volume clock. */
  function Below(size: seq<real>, e: real, i: nat): real
    requires i < |size|
  {
    var room := e - Cum(size, i);
    if room <= 0.0 then 0.0 else if room >= size[i] then size[i] else room
  }

  /** A print's share for a side: all, half or nothing. */
  function Share(sign: int, side: int): real
  {
    if sign * side > 0 then 1.0 else if sign == 0 then 0.5 else 0.0
  }

  /** One side's volume below e, print by print, over the first n prints. */
  function Allocated(size: seq<real>, signs: seq<int>, side: int, e: real, n: nat): real
    requires |size| == |signs| && n <= |size|
  {
    if n == 0 then 0.0
    else Allocated(size, signs, side, e, n - 1) + Share(signs[n - 1], side) * Below(size, e, n - 1)
  }

  lemma SideIsShare(size: seq<real>, signs: seq<int>, side: int, i: nat)
    requires |size| == |signs| && i < |size|
    ensures SideVolume(size, signs, side)[i] == Share(signs[i], side) * size[i]
  {
  }

  /** The volume clock is the plain cumulative size. */
  lemma TapeIsSize(size: seq<real>, signs: seq<int>)
    requires |size| == |signs|
    ensures Tape(size, signs) == size
  {
    forall i | 0 <= i < |size|
      ensures Tape(size, signs)[i] == size[i]
    {
      var s := signs[i];
      assert s * 1 == s && s * -1 == -s;
    }
  }

  lemma {:induction false} CumGrows(xs: seq<real>, i: nat, j: nat)
    requires NonNegative(xs) && i <= j <= |xs|
    ensures Cum(xs, i) <= Cum(xs, j)
  {
    if i < j {
      CumGrows(xs, i, j - 1);
    }
  }

  /** Prints that end at or before e are allocated wholly. */
  lemma {:induction false} WholePrints(size: seq<real>, signs: seq<int>, side: int, e: real, n: nat)
    requires |size| == |signs| && n <= |size| && NonNegative(size) && Cum(size, n) <= e
    ensures Allocated(size, signs, side, e, n) == Cum(SideVolume(size, signs, side), n)
  {
    if n > 0 {
      CumGrows(size, n - 1, n);
      WholePrints(size, signs, side, e, n - 1);
      SideIsShare(size, signs, side, n - 1);
    }
  }

  /** Prints that start at or after e are not allocated at all. */
  lemma {:induction false} LaterPrints(size: seq<real>, signs: seq<int>, side: int, e: real, j: nat, n: nat)
    requires |size| == |signs| && j <= n <= |size| && NonNegative(size) && Cum(size, j) >= e
    ensures Allocated(size, signs, side, e, n) == Allocated(size, signs, side, e, j)
  {
    if j < n {
      CumGrows(size, j, n - 1);
      LaterPrints(size, signs, side, e, j, n - 1);
    }
  }

  lemma SlopeIsShare(share: real, x: real, y: real)
    requires x > 0.0 && y == share * x
    ensures Slope(y, x) == share
  {
  }

  lemma BelowInside(size: seq<real>, e: real, i: nat)
    requires i < |size| && Cum(size, i) <= e < Cum(size, i + 1)
    ensures Below(size, e, i) == e - Cum(size, i)
  {
  }

  /** Interpolating the cumulative side volume is the exact print-by-print split: a
      print straddling e gives e the part of it below e. */
  lemma InterpIsAllocation(size: seq<real>, signs: seq<int>, side: int, e: real)
    requires |size| == |signs| && NonNegative(size) && e >= 0.0
    ensures Interp(size, SideVolume(size, signs, side), e) == Allocated(size, signs, side, e, |size|)
  {
    hide Slope, Share, Below, SideVolume;
    var j := Cell(size, e, |size|);
    WholePrints(size, signs, side, e, j);
    if j < |size| {
      LaterPrints(size, signs, side, e, j + 1, |size|);
      SideIsShare(size, signs, side, j);
      var ys := SideVolume(size, signs, side);
      SlopeIsShare(Share(signs[j], side), Cum(size, j + 1) - Cum(size, j), Cum(ys, j + 1) - Cum(ys, j));
      BelowInside(size, e, j);
      Swap(Share(signs[j], side), e - Cum(size, j));
    }
  }

  lemma Swap(a: real, b: real)
    ensures a * b == b * a
  {
  }

  lemma SharesSum(sign: int)
    ensures Share(sign, 1) + Share(sign, -1) == 1.0
    ensures Share(sign, 1) >= 0.0 && Share(sign, -1) >= 0.0
  {
    assert sign * 1 == sign && sign * -1 == -sign;
  }

  /** Both sides together are exactly the volume below e. */
  lemma {:induction false} SidesFillVolume(size: seq<real>, signs: seq<int>, e: real, n: nat)
    requires |size| == |signs| && n <= |size| && NonNegative(size) && e >= 0.0
    ensures Allocated(size, signs, 1, e, n) + Allocated(size, signs, -1, e, n) == Min(e, Cum(size, n))
  {
    if n > 0 {
      hide Share;
      SidesFillVolume(size, signs, e, n - 1);
      SharesSum(signs[n - 1]);
      SplitWhole(Share(signs[n - 1], 1), Share(signs[n - 1], -1), Below(size, e, n - 1));
    }
  }

  lemma SplitWhole(a: real, b: real, x: real)
    requires a + b == 1.0
    ensures a * x + b * x == x
  {
    assert (a + b) * x == a * x + b * x;
  }

  lemma {:induction false} AllocationGrows(size: seq<real>, signs: seq<int>, side: int, e: real, e': real, n: nat)
    requires |size| == |signs| && n <= |size| && NonNegative(size) && e <= e' && (side == 1 || side == -1)
    ensures Allocated(size, signs, side, e, n) <= Allocated(size, signs, side, e', n)
  {
    if n > 0 {
      hide Share;
      AllocationGrows(size, signs, side, e, e', n - 1);
      SharesSum(signs[n - 1]);
      ScaleMonotone(Share(signs[n - 1], side), Below(size, e, n - 1), Below(size, e', n - 1));
    }
  }

  lemma ScaleMonotone(c: real, a: real, b: real)
    requires c >= 0.0 && a <= b
    ensures c * a <= c * b
  {
    ProductNonNegative(c, b - a);
  }

  /** The volume clock is exact: in every complete bucket buy and sell are both
      non-negative and together are exactly the bucket volume, and each side is the
      print-by-print allocation between the bucket's edges. */
  lemma BucketsAreExact(size: seq<real>, signs: seq<int>, v: real, k: nat)
    requires |size| == |signs| && NonNegative(size) && v > 0.0
    requires Edge(v, k + 1) <= Cum(size, |size|)
    ensures PerBucket(size, signs, 1, v, k) + PerBucket(size, signs, -1, v, k) == v
    ensures PerBucket(size, signs, 1, v, k) >= 0.0 && PerBucket(size, signs, -1, v, k) >= 0.0
    ensures forall side :: side == 1 || side == -1 ==>
              PerBucket(size, signs, side, v, k) ==
              Allocated(size, signs, side, Edge(v, k + 1), |size|) - Allocated(size, signs, side, Edge(v, k), |size|)
  {
    hide Edge, Interp, Allocated, SideVolume, Tape;
    EdgesPositive(v, k);
    TapeIsSize(size, signs);
    var lo, hi := Edge(v, k), Edge(v, k + 1);
    forall side | side == 1 || side == -1
      ensures PerBucket(size, signs, side, v, k) ==
              Allocated(size, signs, side, hi, |size|) - Allocated(size, signs, side, lo, |size|)
      ensures PerBucket(size, signs, side, v, k) >= 0.0
    {
      InterpIsAllocation(size, signs, side, lo);
      InterpIsAllocation(size, signs, side, hi);
      AllocationGrows(size, signs, side, lo, hi, |size|);
    }
    SidesFillVolume(size, signs, lo, |size|);
    SidesFillVolume(size, signs, hi, |size|);
  }

  lemma ImbalanceInUnit(size: seq<real>, signs: seq<int>, v: real, k: nat)
    requires |size| == |signs| && NonNegative(size) && v > 0.0
    requires Edge(v, k + 1) <= Cum(size, |size|)
    ensures 0.0 <= BucketImbalance(size, signs, v, k) <= 1.0
  {
    hide PerBucket;
    BucketsAreExact(size, signs, v, k);
    QuotientWithin(Abs(PerBucket(size, signs, 1, v, k) - PerBucket(size, signs, -1, v, k)), v);
  }

  lemma {:induction false} ImbalanceSumRange(size: seq<real>, signs: seq<int>, v: real, lo: nat, hi: nat)
    requires |size| == |signs| && NonNegative(size) && v > 0.0 && lo <= hi
    requires Edge(v, hi) <= Cum(size, |size|)
    ensures 0.0 <= ImbalanceSum(size, signs, v, lo, hi) <= (hi - lo) as real
  {
    if lo < hi {
      hide BucketImbalance, Edge;
      EdgesPositive(v, hi - 1);
      ImbalanceInUnit(size, signs, v, hi - 1);
      ImbalanceSumRange(size, signs, v, lo, hi - 1);
    }
  }

  lemma CompleteBuckets(total: real, v: real, n: nat)
    requires v > 0.0
    ensures Edge(v, n) <= total <==> n <= (total / v).Floor
  {
    var q := total / v;
    assert q * v == total;
    if (n as real) <= q {
      ScaleMonotone(v, n as real, q);
    } else {
      ProductPositive((n as real) - q, v);
      assert ((n as real) - q) * v == (n as real) * v - total;
    }
  }

  /** VPIN is a number exactly when the tape holds n whole buckets of a positive
      volume, and then it lies in [0, 1]. */
  lemma VpinRange(size: seq<real>, signs: seq<int>, v: real, n: int)
    requires |size| == |signs| && NonNegative(size)
    ensures Vpin(size, signs, v, n).Fin? <==>
            v > 0.0 && n > 0 && size != [] && Edge(v, n) <= Cum(size, |size|)
    ensures Vpin(size, signs, v, n).Fin? ==> 0.0 <= Vpin(size, signs, v, n).v <= 1.0
  {
    hide Edge, ImbalanceSum;
    if v > 0.0 && n > 0 && size != [] {
      TapeIsSize(size, signs);
      var total := Cum(size, |size|);
      CompleteBuckets(total, v, n);
      var complete := (total / v).Floor;
      if n <= complete {
        CompleteBuckets(total, v, complete);
        ImbalanceSumRange(size, signs, v, complete - n, complete);
        QuotientWithin(ImbalanceSum(size, signs, v, complete - n, complete), n as real);
      }
    }
  }

  // ---- VPIN from the prints ------------------------------------------------

  ghost predicate Signs(signs: seq<int>) {
    forall i :: 0 <= i < |signs| ==> signs[i] == 1 || signs[i] == 0 || signs[i] == -1
  }

  /** Net volume of the first n prints below e on the volume clock: what was bought less what
      was sold. */
  function NetBelow(size: seq<real>, signs: seq<int>, e: real, n: nat): real
    requires |size| == |signs| && n <= |size|
  {
    if n == 0 then 0.0 else NetBelow(size, signs, e, n - 1) + (signs[n - 1] as real) * Below(size, e, n - 1)
  }

  /** Net volume between the edges of bucket k. */
  function NetIn(size: seq<real>, signs: seq<int>, v: real, k: nat): real
    requires |size| == |signs|
  {
    NetBelow(size, signs, Edge(v, k + 1), |size|) - NetBelow(size, signs, Edge(v, k), |size|)
  }

  /** The sizes of the net volumes of buckets lo to hi. */
  function NetSizes(size: seq<real>, signs: seq<int>, v: real, lo: nat, hi: nat): real
    requires |size| == |signs| && lo <= hi
    decreases hi
  {
    if lo == hi then 0.0
    else
      var net := NetIn(size, signs, v, hi - 1);
      NetSizes(size, signs, v, lo, hi - 1) + if net >= 0.0 then net else -net
  }

  lemma {:induction false} NetIsDifference(size: seq<real>, signs: seq<int>, e: real, n: nat)
    requires |size| == |signs| && n <= |size| && Signs(signs)
    ensures Allocated(size, signs, 1, e, n) - Allocated(size, signs, -1, e, n) == NetBelow(size, signs, e, n)
  {
    if n > 0 {
      hide Below;
      NetIsDifference(size, signs, e, n - 1);
      var s := signs[n - 1];
      assert s == 1 || s == 0 || s == -1;
    }
  }

  lemma BucketIsNet(size: seq<real>, signs: seq<int>, v: real, k: nat)
    requires |size| == |signs| && NonNegative(size) && Signs(signs) && v > 0.0
    requires Edge(v, k + 1) <= Cum(size, |size|)
    ensures var net := NetIn(size, signs, v, k);
            Times(BucketImbalance(size, signs, v, k), v) == if net >= 0.0 then net else -net
  {
    hide PerBucket, Allocated, NetBelow, Edge;
    BucketsAreExact(size, signs, v, k);
    NetIsDifference(size, signs, Edge(v, k + 1), |size|);
    NetIsDifference(size, signs, Edge(v, k), |size|);
    DividedBack(Abs(PerBucket(size, signs, 1, v, k) - PerBucket(size, signs, -1, v, k)), v);
  }

  lemma {:induction false} ImbalancesAreNet(size: seq<real>, signs: seq<int>, v: real, lo: nat, hi: nat)
    requires |size| == |signs| && NonNegative(size) && Signs(signs) && v > 0.0 && lo <= hi
    requires Edge(v, hi) <= Cum(size, |size|)
    ensures Times(ImbalanceSum(size, signs, v, lo, hi), v) == NetSizes(size, signs, v, lo, hi)
  {
    if lo < hi {
      hide BucketImbalance, Edge, NetIn, Times;
      EdgesPositive(v, hi - 1);
      BucketIsNet(size, signs, v, hi - 1);
      ImbalancesAreNet(size, signs, v, lo, hi - 1);
      TimesAdds(v, ImbalanceSum(size, signs, v, lo, hi - 1), BucketImbalance(size, signs, v, hi - 1));
    }
  }

  /** VPIN from the prints: over the last n complete buckets, the mean size of the net volume as
      a share of the bucket volume. */
  lemma VpinIsMeanNet(size: seq<real>, signs: seq<int>, v: real, n: nat, complete: nat)
    requires |size| == |signs| && size != [] && NonNegative(size) && Signs(signs) && v > 0.0 && 0 < n <= complete
    requires Edge(v, complete) <= Cum(size, |size|) < Edge(v, complete + 1)
    ensures Vpin(size, signs, v, n).Fin?
    ensures Vpin(size, signs, v, n).v * ((n as real) * v) == NetSizes(size, signs, v, complete - n, complete)
  {
    hide Edge, ImbalanceSum, Cum, NetSizes;
    TapeIsSize(size, signs);
    var total := Cum(size, |size|);
    CompleteBuckets(total, v, complete);
    CompleteBuckets(total, v, complete + 1);
    ImbalancesAreNet(size, signs, v, complete - n, complete);
    MeanTimes(ImbalanceSum(size, signs, v, complete - n, complete), n as real, v);
  }

  lemma MeanTimes(sum: real, n: real, v: real)
    requires n > 0.0
    ensures (sum / n) * (n * v) == sum * v
  {
    var q := sum / n;
    assert q * n == sum;
    assert q * (n * v) == (q * n) * v;
  }
}
