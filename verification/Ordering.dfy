// Sorting by a string key, as Python's sorted() orders symbols and tuples of symbols.
module Ordering {

  /** Strict lexicographic order by code point. */
  predicate Before(a: string, b: string) {
    if b == [] then false
    else if a == [] then true
    else if a[0] != b[0] then a[0] < b[0]
    else Before(a[1..], b[1..])
  }

  lemma {:induction false} BeforeTotal(a: string, b: string)
    ensures a == b || Before(a, b) || Before(b, a)
    ensures !(Before(a, b) && Before(b, a))
    ensures !Before(a, a)
  {
    if a != [] && b != [] && a[0] == b[0] {
      BeforeTotal(a[1..], b[1..]);
      assert a == [a[0]] + a[1..] && b == [b[0]] + b[1..];
    }
    if a != [] {
      BeforeTotal(a[1..], a[1..]);
    }
  }

  lemma {:induction false} BeforeTransitive(a: string, b: string, c: string)
    requires Before(a, b) && Before(b, c)
    ensures Before(a, c)
  {
    if a != [] && a[0] == b[0] == c[0] {
      BeforeTransitive(a[1..], b[1..], c[1..]);
    }
  }

  function Insert<T>(key: T -> string, x: T, s: seq<T>): seq<T> {
    if s == [] || Before(key(x), key(s[0])) then [x] + s
    else [s[0]] + Insert(key, x, s[1..])
  }

  function SortBy<T>(key: T -> string, s: seq<T>): seq<T> {
    if s == [] then [] else Insert(key, s[|s| - 1], SortBy(key, s[..|s| - 1]))
  }

  ghost predicate Ascending<T>(key: T -> string, s: seq<T>) {
    forall i, j :: 0 <= i < j < |s| ==> Before(key(s[i]), key(s[j]))
  }

  ghost predicate DistinctKeys<T>(key: T -> string, s: seq<T>) {
    forall i, j :: 0 <= i < j < |s| ==> key(s[i]) != key(s[j])
  }

  lemma {:induction false} InsertKeeps<T>(key: T -> string, x: T, s: seq<T>)
    ensures multiset(Insert(key, x, s)) == multiset(s) + multiset{x}
  {
    if s == [] || Before(key(x), key(s[0])) {
    } else {
      InsertKeeps(key, x, s[1..]);
      assert s == [s[0]] + s[1..];
    }
  }

  lemma {:induction false} InsertAscends<T>(key: T -> string, x: T, s: seq<T>)
    requires Ascending(key, s) && forall i :: 0 <= i < |s| ==> key(s[i]) != key(x)
    ensures Ascending(key, Insert(key, x, s))
  {
    if s == [] {
    } else if Before(key(x), key(s[0])) {
      forall j | 1 <= j < |s|
        ensures Before(key(x), key(s[j]))
      {
        BeforeTransitive(key(x), key(s[0]), key(s[j]));
      }
    } else {
      BeforeTotal(key(x), key(s[0]));
      InsertAscends(key, x, s[1..]);
      InsertKeeps(key, x, s[1..]);
      var rest := Insert(key, x, s[1..]);
      forall j | 0 <= j < |rest|
        ensures Before(key(s[0]), key(rest[j]))
      {
        assert rest[j] in multiset(rest);
        assert rest[j] == x || rest[j] in s[1..];
      }
    }
  }

  /** sorted(): the same elements, strictly ascending when the keys are distinct. */
  lemma {:induction false} SortByKeeps<T>(key: T -> string, s: seq<T>)
    ensures multiset(SortBy(key, s)) == multiset(s)
  {
    if s != [] {
      SortByKeeps(key, s[..|s| - 1]);
      InsertKeeps(key, s[|s| - 1], SortBy(key, s[..|s| - 1]));
      assert s == s[..|s| - 1] + [s[|s| - 1]];
    }
  }

  lemma {:induction false} SortByAscends<T>(key: T -> string, s: seq<T>)
    requires DistinctKeys(key, s)
    ensures Ascending(key, SortBy(key, s))
  {
    if s != [] {
      var n := |s| - 1;
      var rest := SortBy(key, s[..n]);
      SortByAscends(key, s[..n]);
      SortByKeeps(key, s[..n]);
      forall i | 0 <= i < |rest|
        ensures key(rest[i]) != key(s[n])
      {
        assert rest[i] in multiset(rest);
        assert rest[i] in s[..n];
      }
      InsertAscends(key, s[n], rest);
    }
  }

  lemma SortByMembers<T>(key: T -> string, s: seq<T>)
    ensures |SortBy(key, s)| == |s|
    ensures forall x :: x in SortBy(key, s) <==> x in s
  {
    SortByKeeps(key, s);
    assert |multiset(SortBy(key, s))| == |multiset(s)|;
    forall x
      ensures x in SortBy(key, s) <==> x in s
    {
      assert x in multiset(s) <==> x in multiset(SortBy(key, s));
    }
  }

  /** Two ascending sequences with the same elements are equal. */
  lemma {:induction false} AscendingUnique<T>(key: T -> string, a: seq<T>, b: seq<T>)
    requires Ascending(key, a) && Ascending(key, b)
    requires forall x :: x in a <==> x in b
    ensures a == b
  {
    if a == [] {
      HasMember(b);
    } else {
      assert a[0] in b;
      assert b[0] in a;
      var i :| 0 <= i < |b| && b[i] == a[0];
      var j :| 0 <= j < |a| && a[j] == b[0];
      BeforeTotal(key(a[0]), key(b[0]));
      assert a[0] == b[0];
      forall x
        ensures x in a[1..] <==> x in b[1..]
      {
        TailMembers(key, a, x);
        TailMembers(key, b, x);
      }
      AscendingUnique(key, a[1..], b[1..]);
      assert a == [a[0]] + a[1..] && b == [b[0]] + b[1..];
    }
  }

  lemma HasMember<T>(s: seq<T>)
    ensures s != [] ==> exists x :: x in s
  {
    if s != [] {
      assert s[0] in s;
    }
  }

  lemma TailMembers<T>(key: T -> string, a: seq<T>, x: T)
    requires Ascending(key, a) && a != []
    ensures x in a[1..] <==> x in a && x != a[0]
  {
    BeforeTotal(key(a[0]), key(a[0]));
    if x in a && x != a[0] {
      var i :| 0 <= i < |a| && a[i] == x;
      assert a[1..][i - 1] == x;
    }
  }
}
