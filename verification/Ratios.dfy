// The unit semantics of the simulated broker: a structure of n legs is held as
// gcd-reduced ratios and a unit count (src/catalyst/brokers/simulated.py:359-378).
module Ratios {
  import opened Instruments

  function Gcd(a: nat, b: nat): (g: nat)
    ensures a >= 1 || b >= 1 ==> g >= 1
    decreases b
  {
    if b == 0 then a else Gcd(b, a % b)
  }

  ghost predicate Divides(d: nat, n: nat) {
    d >= 1 && n % d == 0
  }

  lemma DividesMultiple(d: nat, k: nat)
    requires d >= 1
    ensures Divides(d, d * k) && (d * k) / d == k
  {
    QuotientUnique(d * k, d, k, 0);
  }

  lemma QuotientUnique(n: nat, d: nat, q: nat, r: nat)
    requires d >= 1 && r < d && n == d * q + r
    ensures n / d == q && n % d == r
  {
    RemaindersAgree(d, q, r, n / d, n % d);
  }

  lemma RemaindersAgree(d: int, q: int, r: int, q': int, r': int)
    requires 0 <= r < d && 0 <= r' < d && d * q + r == d * q' + r'
    ensures q == q' && r == r'
  {
    ProductBeyond(d, q - q');
    assert d * (q - q') == r' - r;
  }

  lemma ProductBeyond(d: int, k: int)
    requires d >= 0
    ensures k >= 1 ==> d * k >= d
    ensures k <= -1 ==> d * k <= -d
  {
  }

  /** Scaling both arguments scales the gcd: Euclid's steps commute with it. */
  lemma {:induction false} GcdScale(u: nat, a: nat, b: nat)
    requires u >= 1
    ensures Gcd(u * a, u * b) == u * Gcd(a, b)
    decreases b
  {
    if b != 0 {
      var q, r := a / b, a % b;
      assert a == b * q + r;
      assert u * a == (u * b) * q + u * r by {
        assert u * (b * q) == (u * b) * q;
      }
      assert u * r < u * b;
      assert u * b >= 1;
      QuotientUnique(u * a, u * b, q, u * r);
      GcdScale(u, b, r);
    }
  }

  /** A common divisor of b and r divides every b * q + r. */
  lemma DividesCombination(d: nat, b: nat, r: nat, q: nat)
    requires Divides(d, b) && Divides(d, r)
    ensures Divides(d, b * q + r)
  {
    var x, y := b / d, r / d;
    assert b == d * x && r == d * y;
    Factored(d, x, q, y);
    DividesMultiple(d, x * q + y);
  }

  lemma Factored(d: nat, x: nat, q: nat, y: nat)
    ensures (d * x) * q + d * y == d * (x * q + y)
    ensures x * q + y >= 0
  {
    assert (d * x) * q == d * (x * q);
  }

  /** A common divisor of a and b divides the remainder. */
  lemma DividesRemainder(d: nat, a: nat, b: nat)
    requires Divides(d, a) && Divides(d, b) && b >= 1
    ensures Divides(d, a % b)
  {
    var x, y, q, r := a / d, b / d, a / b, a % b;
    assert a == d * x && b == d * y && a == b * q + r;
    Difference(d, x, y, q, r);
    DividesMultiple(d, x - y * q);
  }

  lemma Difference(d: nat, x: nat, y: nat, q: nat, r: nat)
    requires d >= 1 && d * x == (d * y) * q + r
    ensures x - y * q >= 0 && r == d * (x - y * q)
  {
    assert (d * y) * q == d * (y * q);
    assert r == d * x - d * (y * q) == d * (x - y * q);
    ProductBeyond(d, x - y * q);
  }

  /** Gcd divides both arguments, and any common divisor divides it. */
  lemma {:induction false} GcdDivides(a: nat, b: nat)
    requires a >= 1 || b >= 1
    ensures Divides(Gcd(a, b), a) && Divides(Gcd(a, b), b)
    decreases b
  {
    if b == 0 {
      DividesMultiple(a, 1);
      DividesMultiple(a, 0);
    } else {
      hide Divides;
      GcdDivides(b, a % b);
      DividesCombination(Gcd(a, b), b, a % b, a / b);
      assert a == b * (a / b) + a % b;
    }
  }

  lemma {:induction false} GcdGreatest(a: nat, b: nat, d: nat)
    requires Divides(d, a) && Divides(d, b)
    ensures Divides(d, Gcd(a, b))
    decreases b
  {
    if b != 0 {
      hide Divides;
      DividesRemainder(d, a, b);
      GcdGreatest(b, a % b, d);
    }
  }

  /** The unit count of an order: the gcd of its leg quantities, folded left to right. */
  function UnitsOf(legs: seq<Leg>): (g: nat)
    requires legs != []
    ensures (forall i :: 0 <= i < |legs| ==> legs[i].qty >= 1) ==> g >= 1
  {
    var n := |legs| - 1;
    if n == 0 then legs[0].qty else Gcd(UnitsOf(legs[..n]), legs[n].qty)
  }

  lemma UnitsPositive(legs: seq<Leg>)
    requires WellFormed(legs)
    ensures legs != [] && UnitsOf(legs) >= 1
  {
  }

  /** Per-unit ratios: each quantity divided by the units. */
  function Reduced(legs: seq<Leg>, u: nat): (r: seq<Leg>)
    requires u >= 1
    ensures |r| == |legs|
    ensures forall i :: 0 <= i < |legs| ==> r[i] == legs[i].(qty := legs[i].qty / u)
  {
    seq(|legs|, i requires 0 <= i < |legs| => legs[i].(qty := legs[i].qty / u))
  }

  lemma {:induction false} UnitsDivideEveryLeg(legs: seq<Leg>)
    requires legs != [] && forall i :: 0 <= i < |legs| ==> legs[i].qty >= 1
    ensures forall i :: 0 <= i < |legs| ==> Divides(UnitsOf(legs), legs[i].qty)
  {
    var n := |legs| - 1;
    if n == 0 {
      DividesMultiple(legs[0].qty, 1);
    } else {
      var h := UnitsOf(legs[..n]);
      var g := UnitsOf(legs);
      UnitsDivideEveryLeg(legs[..n]);
      GcdDivides(h, legs[n].qty);
      forall i | 0 <= i < n
        ensures Divides(g, legs[i].qty)
      {
        assert Divides(h, legs[..n][i].qty);
        DividesTransitive(g, h, legs[i].qty);
      }
    }
  }

  lemma DividesTransitive(a: nat, b: nat, c: nat)
    requires Divides(a, b) && Divides(b, c)
    ensures Divides(a, c)
  {
    assert c == b * (c / b) && b == a * (b / a);
    assert c == a * ((b / a) * (c / b)) by {
      assert (a * (b / a)) * (c / b) == a * ((b / a) * (c / b));
    }
    DividesMultiple(a, (b / a) * (c / b));
  }

  lemma {:induction false} UnitsScale(legs: seq<Leg>, scaled: seq<Leg>, u: nat)
    requires legs != [] && u >= 1 && |scaled| == |legs|
    requires forall i :: 0 <= i < |legs| ==> scaled[i].qty == legs[i].qty * u
    ensures UnitsOf(scaled) == u * UnitsOf(legs)
  {
    var n := |legs| - 1;
    if n > 0 {
      UnitsScale(legs[..n], scaled[..n], u);
      GcdScale(u, UnitsOf(legs[..n]), legs[n].qty);
    }
  }

  /** Opening reduces: quantities are exactly ratio times units, the ratios are
      positive and their own gcd is 1. */
  lemma {:induction false} ReducedIsExact(legs: seq<Leg>)
    requires WellFormed(legs)
    ensures var u := UnitsOf(legs); var r := Reduced(legs, u);
            && u >= 1
            && WellFormed(r)
            && Multiplier(r) == Multiplier(legs)
            && UnitsOf(r) == 1
            && forall i :: 0 <= i < |legs| ==> legs[i].qty == r[i].qty * u
  {
    var u := UnitsOf(legs);
    var r := Reduced(legs, u);
    UnitsDivideEveryLeg(legs);
    forall i | 0 <= i < |legs|
      ensures legs[i].qty == r[i].qty * u && r[i].qty >= 1
    {
      assert Divides(u, legs[i].qty);
      assert legs[i].qty == u * (legs[i].qty / u);
    }
    UnitsScale(r, legs, u);
    assert u * UnitsOf(r) == u * 1;
    CancelFactor(u, UnitsOf(r), 1);
  }

  lemma CancelFactor(u: nat, a: nat, b: nat)
    requires u >= 1 && u * a == u * b
    ensures a == b
  {
    QuotientUnique(u * a, u, a, 0);
    QuotientUnique(u * b, u, b, 0);
  }

  /** A common divisor of all leg quantities divides the unit count. */
  lemma {:induction false} UnitsGreatest(legs: seq<Leg>, d: nat)
    requires legs != [] && forall i :: 0 <= i < |legs| ==> Divides(d, legs[i].qty)
    ensures Divides(d, UnitsOf(legs))
  {
    var n := |legs| - 1;
    if n > 0 {
      UnitsGreatest(legs[..n], d);
      GcdGreatest(UnitsOf(legs[..n]), legs[n].qty, d);
    }
  }
}
