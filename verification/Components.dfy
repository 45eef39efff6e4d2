// Connected components of an undirected graph, by paths, and what pins down the
// grouped answer of correlation_groups (src/edge/risk/sizing.py:93-150).
module Components {
  import opened Ordering

  type Edges = set<(string, string)>

  ghost predicate Adjacent(es: Edges, x: string, y: string) {
    (x, y) in es || (y, x) in es
  }

  ghost predicate Path(es: Edges, p: seq<string>) {
    p != [] && forall i :: 0 <= i < |p| - 1 ==> Adjacent(es, p[i], p[i + 1])
  }

  ghost predicate PathBetween(es: Edges, p: seq<string>, x: string, y: string) {
    Path(es, p) && p[0] == x && p[|p| - 1] == y
  }

  ghost predicate Connected(es: Edges, x: string, y: string) {
    exists p :: PathBetween(es, p, x, y)
  }

  lemma ConnectedSelf(es: Edges, x: string)
    ensures Connected(es, x, x)
  {
    assert PathBetween(es, [x], x, x);
  }

  lemma ConnectedEdge(es: Edges, x: string, y: string)
    requires Adjacent(es, x, y)
    ensures Connected(es, x, y)
  {
    assert PathBetween(es, [x, y], x, y);
  }

  lemma ConnectedSymmetric(es: Edges, x: string, y: string)
    requires Connected(es, x, y)
    ensures Connected(es, y, x)
  {
    var p :| PathBetween(es, p, x, y);
    var q := seq(|p|, i requires 0 <= i < |p| => p[|p| - 1 - i]);
    forall i | 0 <= i < |q| - 1
      ensures Adjacent(es, q[i], q[i + 1])
    {
      assert Adjacent(es, p[|p| - 2 - i], p[|p| - 2 - i + 1]);
    }
    assert PathBetween(es, q, y, x);
  }

  lemma ConnectedTransitive(es: Edges, x: string, y: string, z: string)
    requires Connected(es, x, y) && Connected(es, y, z)
    ensures Connected(es, x, z)
  {
    var p :| PathBetween(es, p, x, y);
    var q :| PathBetween(es, q, y, z);
    var r := p + q[1..];
    forall i | 0 <= i < |r| - 1
      ensures Adjacent(es, r[i], r[i + 1])
    {
      if i < |p| - 1 {
        assert Adjacent(es, p[i], p[i + 1]);
      } else {
        assert Adjacent(es, q[i - |p| + 1], q[i - |p| + 2]);
      }
    }
    assert PathBetween(es, r, x, z);
  }

  lemma ConnectedMore(es: Edges, fs: Edges, x: string, y: string)
    requires es <= fs && Connected(es, x, y)
    ensures Connected(fs, x, y)
  {
    var p :| PathBetween(es, p, x, y);
    forall i | 0 <= i < |p| - 1
      ensures Adjacent(fs, p[i], p[i + 1])
    {
      assert Adjacent(es, p[i], p[i + 1]);
    }
    assert PathBetween(fs, p, x, y);
  }

  /** Whatever is constant along edges is constant along paths. */
  lemma {:induction false} ConstantAlongPath(es: Edges, label_: map<string, string>, p: seq<string>)
    requires Path(es, p)
    requires forall x, y :: Adjacent(es, x, y) ==> x in label_ && y in label_ && label_[x] == label_[y]
    requires p[0] in label_
    ensures p[|p| - 1] in label_ && label_[p[0]] == label_[p[|p| - 1]]
  {
    if |p| > 1 {
      assert Adjacent(es, p[0], p[0 + 1]);
      assert Path(es, p[1..]) by {
        forall i | 0 <= i < |p[1..]| - 1
          ensures Adjacent(es, p[1..][i], p[1..][i + 1])
        {
          assert Adjacent(es, p[i + 1], p[i + 1 + 1]);
        }
      }
      ConstantAlongPath(es, label_, p[1..]);
    }
  }

  // ---- the grouped answer --------------------------------------------------

  function Self(): string -> string {
    (s: string) => s
  }

  function First(): seq<string> -> string {
    (g: seq<string>) => if g == [] then "" else g[0]
  }

  /** Sorted groups in order of their first members; every symbol is in a group, and
      two members are in the same group exactly when a path joins them. */
  ghost predicate AreComponents(symbols: seq<string>, es: Edges, groups: seq<seq<string>>) {
    && (forall i :: 0 <= i < |groups| ==> groups[i] != [] && Ascending(Self(), groups[i]))
    && Ascending(First(), groups)
    && (forall s :: s in symbols <==> Member(groups, s))
    && (forall i, j, x, y :: 0 <= i < |groups| && 0 <= j < |groups| && x in groups[i] && y in groups[j] ==>
          (i == j <==> Connected(es, x, y)))
  }

  ghost predicate Member(groups: seq<seq<string>>, s: string) {
    exists i :: 0 <= i < |groups| && s in groups[i]
  }

  /** No symbol is in two groups. */
  lemma OneGroupEach(symbols: seq<string>, es: Edges, groups: seq<seq<string>>, i: nat, j: nat, s: string)
    requires AreComponents(symbols, es, groups)
    requires i < |groups| && j < |groups| && s in groups[i] && s in groups[j]
    ensures i == j
  {
    ConnectedSelf(es, s);
  }

  lemma GroupFound(symbols: seq<string>, es: Edges, a: seq<seq<string>>, b: seq<seq<string>>, g: seq<string>)
    requires AreComponents(symbols, es, a) && AreComponents(symbols, es, b) && g in a
    ensures g in b
  {
    var i :| 0 <= i < |a| && a[i] == g;
    var s := g[0];
    assert s in g;
    assert Member(a, s);
    assert Member(b, s);
    var j :| 0 <= j < |b| && s in b[j];
    forall x
      ensures x in g <==> x in b[j]
    {
      if x in g {
        assert Connected(es, s, x);
        assert Member(a, x);
        assert Member(b, x);
        var k :| 0 <= k < |b| && x in b[k];
        assert j == k;
      }
      if x in b[j] {
        assert Connected(es, s, x);
        assert Member(b, x);
        assert Member(a, x);
        var k :| 0 <= k < |a| && x in a[k];
        assert i == k;
      }
    }
    AscendingUnique(Self(), g, b[j]);
  }

  /** The specification leaves no freedom: there is only one such list of groups. */
  lemma ComponentsUnique(symbols: seq<string>, es: Edges, a: seq<seq<string>>, b: seq<seq<string>>)
    requires AreComponents(symbols, es, a) && AreComponents(symbols, es, b)
    ensures a == b
  {
    forall g
      ensures g in a <==> g in b
    {
      if g in a {
        GroupFound(symbols, es, a, b, g);
      }
      if g in b {
        GroupFound(symbols, es, b, a, g);
      }
    }
    AscendingUnique(First(), a, b);
  }
}
