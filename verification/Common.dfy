// Small vocabulary shared by every module: optional values, numbers that may be
// NaN, and finite sums of reals.
module Common {

  datatype Option<+T> = None | Some(value: T)

  /** A float as the source sees it: either NaN or a real number. */
  datatype Num = NaN | Fin(v: real)

  function Max(a: real, b: real): (m: real)
    ensures m == a || m == b
    ensures m >= a && m >= b
  {
    if a >= b then a else b
  }

  function Min(a: real, b: real): (m: real)
    ensures m == a || m == b
    ensures m <= a && m <= b
  {
    if a <= b then a else b
  }

  lemma ProductNonNegative(a: real, b: real)
    requires a >= 0.0 && b >= 0.0
    ensures a * b >= 0.0
  {
  }

  lemma ProductPositive(a: real, b: real)
    requires a > 0.0 && b > 0.0
    ensures a * b > 0.0
  {
  }

  lemma QuotientAtMost(q: real, t: real, d: real)
    requires d > 0.0
    ensures q <= t <==> q * d <= t * d
  {
    assert (t - q) * d == t * d - q * d;
    if q <= t {
      ProductNonNegative(t - q, d);
    } else {
      ProductPositive(q - t, d);
      assert (q - t) * d == q * d - t * d;
    }
  }

  /** A product that proofs can keep folded. */
  function Times(a: real, b: real): real {
    a * b
  }

  lemma TimesAdds(b: real, s: real, t: real)
    ensures Times(b, s + t) == Times(b, s) + Times(b, t)
    ensures Times(s + t, b) == Times(s, b) + Times(t, b)
  {
  }

  /** The left-to-right sum of f over s, as a loop accumulates it. */
  function Sum<T>(f: T -> real, s: seq<T>): real
  {
    if s == [] then 0.0 else Sum(f, s[..|s| - 1]) + f(s[|s| - 1])
  }

  lemma {:induction false} SumAppend<T>(f: T -> real, a: seq<T>, b: seq<T>)
    ensures Sum(f, a + b) == Sum(f, a) + Sum(f, b)
  {
    if b == [] {
      assert a + b == a;
    } else {
      var n := |b| - 1;
      assert (a + b)[..|a + b| - 1] == a + b[..n];
      SumAppend(f, a, b[..n]);
    }
  }

  lemma SumOne<T>(f: T -> real, x: T)
    ensures Sum(f, [x]) == f(x)
  {
    assert [x][..0] == [];
  }

  lemma SumPrefix<T>(f: T -> real, s: seq<T>, n: nat)
    requires n < |s|
    ensures Sum(f, s[..n + 1]) == Sum(f, s[..n]) + f(s[n])
  {
    assert s[..n + 1][..n] == s[..n];
  }

  lemma {:induction false} SumRemove<T>(f: T -> real, s: seq<T>, i: nat)
    requires i < |s|
    ensures Sum(f, s) == Sum(f, s[..i] + s[i + 1..]) + f(s[i])
  {
    assert s == s[..i] + [s[i]] + s[i + 1..];
    SumAppend(f, s[..i] + [s[i]], s[i + 1..]);
    SumAppend(f, s[..i], [s[i]]);
    SumAppend(f, s[..i], s[i + 1..]);
    SumOne(f, s[i]);
  }

  lemma {:induction false} SumUpdate<T>(f: T -> real, s: seq<T>, i: nat, x: T)
    requires i < |s|
    ensures Sum(f, s[i := x]) == Sum(f, s) - f(s[i]) + f(x)
  {
    SumRemove(f, s, i);
    SumRemove(f, s[i := x], i);
    assert s[i := x][..i] + s[i := x][i + 1..] == s[..i] + s[i + 1..];
  }

  lemma SplicedIsUpdated<T>(s: seq<T>, i: nat, x: T)
    requires i < |s|
    ensures s[..i] + [x] + s[i + 1..] == s[i := x]
  {
  }

  /** A sum does not depend on the order of its terms. */
  lemma {:induction false} SumPermutation<T>(f: T -> real, a: seq<T>, b: seq<T>)
    requires multiset(a) == multiset(b)
    ensures Sum(f, a) == Sum(f, b)
    decreases |a|
  {
    if a == [] {
      assert |multiset(b)| == 0;
    } else {
      var n := |a| - 1;
      var x := a[n];
      assert a == a[..n] + [x];
      assert x in multiset(b);
      var j :| 0 <= j < |b| && b[j] == x;
      var rest := b[..j] + b[j + 1..];
      assert b == b[..j] + [x] + b[j + 1..];
      assert multiset(a[..n]) == multiset(a) - multiset{x};
      assert multiset(rest) == multiset(b) - multiset{x};
      SumPermutation(f, a[..n], rest);
      SumRemove(f, b, j);
    }
  }

  /** Term-wise equal summands give equal sums. */
  lemma {:induction false} SumCongruent<S, T>(f: S -> real, a: seq<S>, g: T -> real, b: seq<T>, c: real)
    requires |a| == |b|
    requires forall i :: 0 <= i < |a| ==> f(a[i]) == c * g(b[i])
    ensures Sum(f, a) == c * Sum(g, b)
  {
    if a != [] {
      var n := |a| - 1;
      SumCongruent(f, a[..n], g, b[..n], c);
      assert Sum(g, b) == Sum(g, b[..n]) + g(b[n]);
    }
  }
}
