// Correlation groups by union-find and group-capped position sizing
// (src/edge/risk/sizing.py).
module Sizing {
  import opened Common
  import opened Ordering
  import opened Components

  datatype Result<T> = Ok(value: T) | Err(error: SizingError)

  datatype SizingError =
    | BadWindow | BadThreshold | NoColumns | TooFewRows
    | BadEquity | BadMultiplier | EmptyBook | BadKelly | MissingColumns

  // ---- the forest ----------------------------------------------------------

  /** parent maps plus their history: the representative of every symbol, and a height
      that grows along every parent link up to top. */
  datatype Trees = Trees(parent: map<string, string>, root: map<string, string>, height: map<string, nat>, top: nat) {
    predicate Placed(s: string) {
      && s in parent && s in root && s in height && height[s] <= top
      && root[s] in parent && root[s] in root && root[root[s]] == root[s] && parent[root[s]] == root[s]
      && parent[s] in parent && parent[s] in root && root[parent[s]] == root[s]
      && (parent[s] == s ==> root[s] == s)
      && (parent[s] != s ==> parent[s] in height && height[s] < height[parent[s]])
    }

    ghost predicate Valid() {
      && root.Keys == parent.Keys == height.Keys
      && forall s {:trigger Placed(s)} :: s in parent.Keys ==> Placed(s)
    }

    function Halved(s: string): Trees
      requires Placed(s) && Placed(parent[s])
    {
      this.(parent := parent[s := parent[parent[s]]])
    }

    function Attached(ra: string, rb: string): Trees
      requires Placed(ra) && Placed(rb)
    {
      if ra == rb then this
      else
        var h := if height[rb] > height[ra] then height[rb] else height[ra] + 1;
        Trees(parent[ra := rb],
              map x | x in root :: if root[x] == ra then rb else root[x],
              height[rb := h],
              if top > h then top else h)
    }
  }

  lemma HalvedIsValid(t: Trees, s: string)
    requires t.Valid() && s in t.parent
    ensures t.Placed(s) && t.Placed(t.parent[s]) && t.Halved(s).Valid()
  {
    assert t.Placed(s);
    assert t.Placed(t.parent[s]);
    var r := t.Halved(s);
    forall x | x in r.parent.Keys
      ensures r.Placed(x)
    {
      assert t.Placed(x);
    }
  }

  lemma AttachedIsValid(t: Trees, ra: string, rb: string)
    requires t.Valid() && ra in t.parent && rb in t.parent && t.parent[ra] == ra && t.parent[rb] == rb
    ensures t.Placed(ra) && t.Placed(rb) && t.Attached(ra, rb).Valid()
    ensures t.root[ra] == ra && t.root[rb] == rb
  {
    assert t.Placed(ra) && t.Placed(rb);
    if ra != rb {
      var r := t.Attached(ra, rb);
      forall x | x in r.parent.Keys
        ensures r.Placed(x)
      {
        assert t.Placed(x);
        assert t.Placed(t.root[x]);
        assert t.Placed(t.parent[x]);
      }
    }
  }

  ghost predicate Covers(parent: map<string, string>, symbols: seq<string>) {
    parent.Keys == set s | s in symbols
  }

  lemma CoversAt(parent: map<string, string>, symbols: seq<string>, i: nat)
    requires Covers(parent, symbols) && i < |symbols|
    ensures symbols[i] in parent
  {
  }

  lemma CoversSame(parent: map<string, string>, parent': map<string, string>, symbols: seq<string>)
    requires Covers(parent, symbols) && parent'.Keys == parent.Keys
    ensures Covers(parent', symbols)
  {
  }

  /** The parent map that find() halves paths in and union re-roots. */
  class Forest {
    var parent: map<string, string>
    ghost var trees: Trees

    ghost predicate Valid()
      reads this
    {
      trees.Valid() && trees.parent == parent
    }

    constructor (symbols: seq<string>)
      ensures Valid() && Covers(parent, symbols)
      ensures trees.root == map s | s in symbols :: s
    {
      parent := map s | s in symbols :: s;
      trees := Trees(map s | s in symbols :: s, map s | s in symbols :: s, map s | s in symbols :: 0, 0);
    }

    /** Follow parents to the root, halving the path on the way. No representative
        changes, so no later answer does either. */
    method Find(start: string) returns (s: string)
      requires Valid() && start in parent
      modifies this
      ensures Valid() && parent.Keys == old(parent.Keys) && trees.root == old(trees.root)
      ensures s in parent && parent[s] == s
      ensures start in trees.root && s == trees.root[start]
    {
      s := start;
      assert trees.Placed(s);
      while parent[s] != s
        invariant Valid() && parent.Keys == old(parent.Keys) && trees.root == old(trees.root)
        invariant trees.Placed(s) && trees.height == old(trees.height) && trees.top == old(trees.top)
        invariant start in trees.root && trees.root[s] == trees.root[start]
        decreases trees.top - trees.height[s]
      {
        HalvedIsValid(trees, s);
        ghost var before := trees;
        parent := parent[s := parent[parent[s]]];
        trees := trees.Halved(s);
        assert trees.Placed(s) && before.Placed(before.parent[s]);
        s := parent[s];
        assert trees.Placed(s);
      }
    }

    /** Everything under a's root is now under b's. */
    method Union(a: string, b: string)
      requires Valid() && a in parent && b in parent
      modifies this
      ensures Valid() && parent.Keys == old(parent.Keys)
      ensures a in old(trees.root) && b in old(trees.root)
      ensures trees.root == Merged(old(trees.root), a, b)
    {
      var rb := Find(b);
      var ra := Find(a);
      assert trees.Placed(b);
      AttachedIsValid(trees, ra, rb);
      ghost var before := trees;
      parent := parent[ra := rb];
      trees := trees.Attached(ra, rb);
      assert trees.root == Merged(before.root, a, b);
    }
  }

  /** The representatives after a and b became one. */
  function Merged(root: map<string, string>, a: string, b: string): map<string, string>
    requires a in root && b in root
  {
    map x | x in root :: if root[x] == root[a] then root[b] else root[x]
  }

  // ---- correlation groups --------------------------------------------------

  /** Daily returns as correlation_groups reads them: columns, the number of rows, and
      the pairwise correlation over the last so many rows. */
  datatype Frame = Frame(symbols: seq<string>, rows: nat, corr: (int, string, string) -> Num)

  const THRESHOLD := 0.7
  const WINDOW := 63

  predicate Linked(f: Frame, threshold: real, window: int, a: string, b: string) {
    match f.corr(window, a, b)
    case NaN => false
    case Fin(rho) => rho > threshold
  }

  predicate Distinct(symbols: seq<string>) {
    forall i, j :: 0 <= i < j < |symbols| ==> symbols[i] != symbols[j]
  }

  /** The links among the first i columns and, for column i, up to column j. */
  ghost function LinksUpTo(f: Frame, threshold: real, window: int, i: nat, j: nat): Edges {
    set a: nat, b: nat | a < |f.symbols| && b < |f.symbols| && a < b && (a < i || (a == i && b < j))
                         && Linked(f, threshold, window, f.symbols[a], f.symbols[b])
      :: (f.symbols[a], f.symbols[b])
  }

  /** The graph: an edge for every pair of columns whose correlation is above the
      threshold; NaN links nothing. */
  ghost function Graph(f: Frame, threshold: real, window: int): Edges {
    LinksUpTo(f, threshold, window, |f.symbols|, 0)
  }

  lemma NextLink(f: Frame, threshold: real, window: int, i: nat, j: nat)
    requires i < j < |f.symbols|
    ensures LinksUpTo(f, threshold, window, i, j + 1) ==
            if Linked(f, threshold, window, f.symbols[i], f.symbols[j])
            then LinksUpTo(f, threshold, window, i, j) + {(f.symbols[i], f.symbols[j])}
            else LinksUpTo(f, threshold, window, i, j)
  {
  }

  lemma NoLinkYet(f: Frame, threshold: real, window: int)
    ensures LinksUpTo(f, threshold, window, 0, 0) == {}
  {
  }

  lemma NextRow(f: Frame, threshold: real, window: int, i: nat)
    requires i < |f.symbols|
    ensures LinksUpTo(f, threshold, window, i, |f.symbols|) == LinksUpTo(f, threshold, window, i + 1, 0)
    ensures LinksUpTo(f, threshold, window, i, 0) == LinksUpTo(f, threshold, window, i, i + 1)
  {
  }

  /** Representatives agree exactly on the pairs that a path joins. */
  ghost predicate Represents(root: map<string, string>, symbols: seq<string>, es: Edges) {
    && root.Keys == (set s | s in symbols)
    && (forall x, y :: Adjacent(es, x, y) ==> x in root && y in root && root[x] == root[y])
    && (forall x, y :: x in root && y in root && root[x] == root[y] ==> Connected(es, x, y))
  }

  lemma RepresentsStart(symbols: seq<string>)
    ensures Represents(map s | s in symbols :: s, symbols, {})
  {
    forall x | x in symbols
      ensures Connected({}, x, x)
    {
      ConnectedSelf({}, x);
    }
  }

  lemma RepresentsMerge(root: map<string, string>, symbols: seq<string>, es: Edges, a: string, b: string)
    requires Represents(root, symbols, es) && a in root && b in root
    ensures Represents(Merged(root, a, b), symbols, es + {(a, b)})
  {
    var fs := es + {(a, b)};
    var r := Merged(root, a, b);
    forall x, y | Adjacent(fs, x, y)
      ensures x in r && y in r && r[x] == r[y]
    {
      assert Adjacent(es, x, y) || (x == a && y == b) || (x == b && y == a);
    }
    forall x, y | x in r && y in r && r[x] == r[y]
      ensures Connected(fs, x, y)
    {
      MergedJoined(root, symbols, es, a, b, x, y);
    }
  }

  lemma MergedJoined(root: map<string, string>, symbols: seq<string>, es: Edges, a: string, b: string, x: string, y: string)
    requires Represents(root, symbols, es) && a in root && b in root && x in root && y in root
    requires Merged(root, a, b)[x] == Merged(root, a, b)[y]
    ensures Connected(es + {(a, b)}, x, y)
  {
    hide PathBetween;
    var fs := es + {(a, b)};
    ConnectedEdge(fs, a, b);
    ConnectedSymmetric(fs, a, b);
    if root[x] == root[y] {
      assert Connected(es, x, y);
      ConnectedMore(es, fs, x, y);
    } else if root[x] == root[a] {
      assert Connected(es, x, a) && Connected(es, b, y);
      ConnectedMore(es, fs, x, a);
      ConnectedMore(es, fs, b, y);
      ConnectedTransitive(fs, x, a, b);
      ConnectedTransitive(fs, x, b, y);
    } else {
      assert Connected(es, x, b) && Connected(es, a, y);
      ConnectedMore(es, fs, x, b);
      ConnectedMore(es, fs, a, y);
      ConnectedTransitive(fs, x, b, a);
      ConnectedTransitive(fs, x, a, y);
    }
  }

  lemma SameRootIffJoined(root: map<string, string>, symbols: seq<string>, es: Edges, x: string, y: string)
    requires Represents(root, symbols, es) && x in root && y in root
    ensures root[x] == root[y] <==> Connected(es, x, y)
  {
    if Connected(es, x, y) {
      var p :| PathBetween(es, p, x, y);
      ConstantAlongPath(es, root, p);
    }
  }

  /** The double loop over column pairs. */
  method LinkAll(f: Frame, threshold: real, window: int) returns (forest: Forest)
    ensures fresh(forest) && forest.Valid() && Covers(forest.parent, f.symbols)
    ensures Represents(forest.trees.root, f.symbols, Graph(f, threshold, window))
  {
    hide Represents, LinksUpTo, Covers, Trees.Valid;
    NoLinkYet(f, threshold, window);
    RepresentsStart(f.symbols);
    forest := new Forest(f.symbols);
    for i := 0 to |f.symbols|
      invariant fresh(forest) && forest.Valid() && Covers(forest.parent, f.symbols)
      invariant Represents(forest.trees.root, f.symbols, LinksUpTo(f, threshold, window, i, 0))
    {
      NextRow(f, threshold, window, i);
      LinkRow(forest, f, threshold, window, i);
    }
  }

  /** The pairs of column i with every later column. */
  method LinkRow(forest: Forest, f: Frame, threshold: real, window: int, i: nat)
    requires forest.Valid() && Covers(forest.parent, f.symbols) && i < |f.symbols|
    requires Represents(forest.trees.root, f.symbols, LinksUpTo(f, threshold, window, i, i + 1))
    modifies forest
    ensures forest.Valid() && Covers(forest.parent, f.symbols)
    ensures Represents(forest.trees.root, f.symbols, LinksUpTo(f, threshold, window, i, |f.symbols|))
  {
    hide Represents, LinksUpTo, Covers, Trees.Valid;
    for j := i + 1 to |f.symbols|
      invariant forest.Valid() && Covers(forest.parent, f.symbols)
      invariant Represents(forest.trees.root, f.symbols, LinksUpTo(f, threshold, window, i, j))
    {
      NextLink(f, threshold, window, i, j);
      if Linked(f, threshold, window, f.symbols[i], f.symbols[j]) {
        Link(forest, f.symbols, LinksUpTo(f, threshold, window, i, j), i, j);
      }
    }
  }

  /** One linked pair. */
  method Link(forest: Forest, symbols: seq<string>, ghost es: Edges, i: nat, j: nat)
    requires forest.Valid() && Covers(forest.parent, symbols) && i < |symbols| && j < |symbols|
    requires Represents(forest.trees.root, symbols, es)
    modifies forest
    ensures forest.Valid() && Covers(forest.parent, symbols)
    ensures Represents(forest.trees.root, symbols, es + {(symbols[i], symbols[j])})
  {
    hide Represents, Covers, Trees.Valid, Merged;
    CoversAt(forest.parent, symbols, i);
    CoversAt(forest.parent, symbols, j);
    RepresentsKeys(forest.trees.root, symbols, es);
    RepresentsMerge(forest.trees.root, symbols, es, symbols[i], symbols[j]);
    ghost var parent := forest.parent;
    forest.Union(symbols[i], symbols[j]);
    CoversSame(parent, forest.parent, symbols);
  }

  lemma RepresentsKeys(root: map<string, string>, symbols: seq<string>, es: Edges)
    requires Represents(root, symbols, es)
    ensures forall i :: 0 <= i < |symbols| ==> symbols[i] in root
  {
  }

  /** components.setdefault(find(s), []).append(s): the symbols so far, by root. */
  ghost predicate Bucketed(root: map<string, string>, seen: seq<string>, roots: seq<string>, buckets: map<string, seq<string>>) {
    && Distinct(roots)
    && (forall r :: r in buckets <==> r in roots)
    && (forall r :: r in roots ==> buckets[r] != [] && Distinct(buckets[r]))
    && (forall s :: s in seen ==> s in root && root[s] in buckets && s in buckets[root[s]])
    && (forall r, s :: r in buckets && s in buckets[r] ==> s in seen && s in root && root[s] == r)
  }

  lemma BucketNext(root: map<string, string>, seen: seq<string>, roots: seq<string>, buckets: map<string, seq<string>>, s: string)
    requires Bucketed(root, seen, roots, buckets) && s in root && s !in seen
    ensures var r := root[s];
            if r in buckets then Bucketed(root, seen + [s], roots, buckets[r := buckets[r] + [s]])
            else Bucketed(root, seen + [s], roots + [r], buckets[r := [s]])
  {
  }

  lemma BucketStart(root: map<string, string>)
    ensures Bucketed(root, [], [], map[])
  {
  }

  method Buckets(forest: Forest, symbols: seq<string>) returns (roots: seq<string>, buckets: map<string, seq<string>>)
    requires forest.Valid() && Covers(forest.parent, symbols) && Distinct(symbols)
    modifies forest
    ensures forest.Valid() && forest.trees.root == old(forest.trees.root)
    ensures Bucketed(forest.trees.root, symbols, roots, buckets)
  {
    hide Bucketed, Trees.Valid, Covers, Distinct;
    roots, buckets := [], map[];
    BucketStart(forest.trees.root);
    for i := 0 to |symbols|
      invariant forest.Valid() && forest.trees.root == old(forest.trees.root)
      invariant Covers(forest.parent, symbols)
      invariant Bucketed(forest.trees.root, symbols[..i], roots, buckets)
    {
      var s := symbols[i];
      CoversAt(forest.parent, symbols, i);
      NotSeen(symbols, i);
      ghost var parent := forest.parent;
      var r := forest.Find(s);
      CoversSame(parent, forest.parent, symbols);
      BucketNext(forest.trees.root, symbols[..i], roots, buckets, s);
      if r !in buckets {
        roots := roots + [r];
        buckets := buckets[r := [s]];
      } else {
        buckets := buckets[r := buckets[r] + [s]];
      }
    }
    assert symbols[..|symbols|] == symbols;
  }

  lemma NotSeen(symbols: seq<string>, i: nat)
    requires Distinct(symbols) && i < |symbols|
    ensures symbols[i] !in symbols[..i] && symbols[..i + 1] == symbols[..i] + [symbols[i]]
  {
  }

  /** The bucket of each root, sorted, and the buckets in order of first members. */
  function Grouped(roots: seq<string>, buckets: map<string, seq<string>>): seq<seq<string>>
    requires forall r :: r in roots ==> r in buckets
  {
    SortBy(First(), seq(|roots|, i requires 0 <= i < |roots| => SortBy(Self(), buckets[roots[i]])))
  }

  lemma DistinctAscends(s: seq<string>)
    requires Distinct(s)
    ensures Ascending(Self(), SortBy(Self(), s))
  {
    SortByAscends(Self(), s);
  }

  /** The sorted buckets before they are put in order. */
  ghost predicate Shelved(root: map<string, string>, roots: seq<string>, buckets: map<string, seq<string>>, shelves: seq<seq<string>>) {
    && |shelves| == |roots|
    && (forall i :: 0 <= i < |roots| ==> roots[i] in buckets && shelves[i] == SortBy(Self(), buckets[roots[i]]))
  }

  lemma ShelfIs(root: map<string, string>, symbols: seq<string>, roots: seq<string>, buckets: map<string, seq<string>>,
                shelves: seq<seq<string>>, i: nat)
    requires Bucketed(root, symbols, roots, buckets) && Shelved(root, roots, buckets, shelves) && i < |roots|
    ensures shelves[i] != [] && Ascending(Self(), shelves[i])
    ensures forall s :: s in shelves[i] <==> s in symbols && s in root && root[s] == roots[i]
  {
    assert roots[i] in roots;
    var b := buckets[roots[i]];
    DistinctAscends(b);
    SortByMembers(Self(), b);
  }

  lemma ShelvesDistinct(root: map<string, string>, symbols: seq<string>, roots: seq<string>,
                        buckets: map<string, seq<string>>, shelves: seq<seq<string>>)
    requires Bucketed(root, symbols, roots, buckets) && Shelved(root, roots, buckets, shelves)
    ensures DistinctKeys(First(), shelves)
  {
    forall i, j | 0 <= i < j < |shelves|
      ensures First()(shelves[i]) != First()(shelves[j])
    {
      ShelfIs(root, symbols, roots, buckets, shelves, i);
      ShelfIs(root, symbols, roots, buckets, shelves, j);
      assert shelves[i][0] in shelves[i] && shelves[j][0] in shelves[j];
    }
  }

  /** Two members share a group exactly when they share a root. */
  lemma GroupedByRoot(root: map<string, string>, symbols: seq<string>, roots: seq<string>, buckets: map<string, seq<string>>,
                      shelves: seq<seq<string>>, groups: seq<seq<string>>, i: nat, j: nat, x: string, y: string)
    requires Bucketed(root, symbols, roots, buckets) && Shelved(root, roots, buckets, shelves)
    requires groups == SortBy(First(), shelves)
    requires i < |groups| && j < |groups| && x in groups[i] && y in groups[j]
    ensures x in root && y in root && (i == j <==> root[x] == root[y])
  {
    ShelvesDistinct(root, symbols, roots, buckets, shelves);
    SortByAscends(First(), shelves);
    SortByMembers(First(), shelves);
    assert groups[i] in shelves && groups[j] in shelves;
    var k :| 0 <= k < |shelves| && shelves[k] == groups[i];
    var m :| 0 <= m < |shelves| && shelves[m] == groups[j];
    ShelfIs(root, symbols, roots, buckets, shelves, k);
    ShelfIs(root, symbols, roots, buckets, shelves, m);
    BeforeTotal(First()(groups[i]), First()(groups[i]));
    if root[x] == root[y] {
      assert k == m;
    }
  }

  lemma GroupsAreComponents(root: map<string, string>, symbols: seq<string>, es: Edges, roots: seq<string>,
                            buckets: map<string, seq<string>>, shelves: seq<seq<string>>)
    requires Represents(root, symbols, es)
    requires Bucketed(root, symbols, roots, buckets) && Shelved(root, roots, buckets, shelves)
    ensures AreComponents(symbols, es, SortBy(First(), shelves))
  {
    hide Represents, Bucketed, Shelved, Ascending, Connected;
    var groups := SortBy(First(), shelves);
    ShelvesDistinct(root, symbols, roots, buckets, shelves);
    SortByAscends(First(), shelves);
    SortByMembers(First(), shelves);
    forall i | 0 <= i < |groups|
      ensures groups[i] != [] && Ascending(Self(), groups[i])
    {
      var k := ShelfOf(root, symbols, roots, buckets, shelves, groups[i]);
    }
    forall i, j, x, y | 0 <= i < |groups| && 0 <= j < |groups| && x in groups[i] && y in groups[j]
      ensures i == j <==> Connected(es, x, y)
    {
      GroupedByRoot(root, symbols, roots, buckets, shelves, groups, i, j, x, y);
      SameRootIffJoined(root, symbols, es, x, y);
    }
    forall s
      ensures s in symbols <==> Member(groups, s)
    {
      MembersAreSymbols(root, symbols, es, roots, buckets, shelves, groups, s);
    }
  }

  lemma ShelfOf(root: map<string, string>, symbols: seq<string>, roots: seq<string>, buckets: map<string, seq<string>>,
                shelves: seq<seq<string>>, g: seq<string>) returns (k: nat)
    requires Bucketed(root, symbols, roots, buckets) && Shelved(root, roots, buckets, shelves) && g in shelves
    ensures k < |roots| == |shelves| && shelves[k] == g && g != [] && Ascending(Self(), g)
    ensures forall s :: s in g <==> s in symbols && s in root && root[s] == roots[k]
  {
    k :| 0 <= k < |shelves| && shelves[k] == g;
    ShelfIs(root, symbols, roots, buckets, shelves, k);
  }

  lemma MembersAreSymbols(root: map<string, string>, symbols: seq<string>, es: Edges, roots: seq<string>,
                          buckets: map<string, seq<string>>, shelves: seq<seq<string>>, groups: seq<seq<string>>, s: string)
    requires Bucketed(root, symbols, roots, buckets) && Shelved(root, roots, buckets, shelves)
    requires forall g :: g in groups <==> g in shelves
    ensures s in symbols <==> Member(groups, s)
  {
    if s in symbols {
      assert root[s] in roots;
      var i :| 0 <= i < |roots| && roots[i] == root[s];
      ShelfIs(root, symbols, roots, buckets, shelves, i);
      assert shelves[i] in shelves;
      var k :| 0 <= k < |groups| && groups[k] == shelves[i];
      assert s in groups[k];
    }
    if Member(groups, s) {
      var k :| 0 <= k < |groups| && s in groups[k];
      var i := ShelfOf(root, symbols, roots, buckets, shelves, groups[k]);
    }
  }

  /** Who is linked: columns, earlier first, whose correlation over the window is a number and
      strictly above the threshold. */
  lemma GraphIs(f: Frame, threshold: real, window: int, a: string, b: string)
    ensures (a, b) in Graph(f, threshold, window) <==>
            && (exists i, j :: 0 <= i < j < |f.symbols| && f.symbols[i] == a && f.symbols[j] == b)
            && f.corr(window, a, b) != NaN && f.corr(window, a, b).v > threshold
  {
  }

  /** correlation_groups: exactly the connected components of the correlation graph. */
  method CorrelationGroups(f: Frame, threshold: real, window: int) returns (r: Result<seq<seq<string>>>)
    requires Distinct(f.symbols)
    ensures r.Err? <==> window < 2 || !(-1.0 <= threshold <= 1.0) || f.symbols == [] || f.rows < 2
    ensures r.Err? ==> r.error == if window < 2 then BadWindow
                                  else if !(-1.0 <= threshold <= 1.0) then BadThreshold
                                  else if f.symbols == [] then NoColumns else TooFewRows
    ensures r.Ok? ==> AreComponents(f.symbols, Graph(f, threshold, window), r.value)
  {
    if window < 2 {
      return Err(BadWindow);
    }
    if !(-1.0 <= threshold <= 1.0) {
      return Err(BadThreshold);
    }
    if f.symbols == [] {
      return Err(NoColumns);
    }
    if f.rows < 2 {
      return Err(TooFewRows);
    }
    hide Represents, AreComponents, Graph;
    var forest := LinkAll(f, threshold, window);
    var roots, buckets := Buckets(forest, f.symbols);
    ghost var shelves := seq(|roots|, i requires 0 <= i < |roots| => SortBy(Self(), buckets[roots[i]]));
    GroupsAreComponents(forest.trees.root, f.symbols, Graph(f, threshold, window), roots, buckets, shelves);
    return Ok(Grouped(roots, buckets));
  }

  // ---- group-capped sizing -------------------------------------------------

  datatype PositionSize = PositionSize(riskPct: real, riskDollars: real, capped: bool, group: seq<string>)

  /** A proposed book: symbols in order, each with its full-Kelly fraction. */
  datatype Book = Book(symbols: seq<string>, kelly: map<string, real>) {
    ghost predicate Valid() {
      Distinct(symbols) && forall s :: s in symbols <==> s in kelly
    }
  }

  /** Risk before caps, in percent of equity. */
  function Uncapped(kelly: map<string, real>, mult: real): string -> real {
    (s: string) => if s in kelly then kelly[s] * mult * 100.0 else 0.0
  }

  function Scale(total: real, cap: real): real
    requires cap > 0.0
  {
    if total > cap then cap / total else 1.0
  }

  /** What a member of a group gets, given the group's total before caps. */
  function Slot(equity: real, pct: real, total: real, cap: real, group: seq<string>): PositionSize
    requires cap > 0.0
  {
    var risk := Times(pct, Scale(total, cap));
    PositionSize(risk, equity * risk / 100.0, total > cap, group)
  }

  function Risk(sized: map<string, PositionSize>): string -> real {
    (s: string) => if s in sized then sized[s].riskPct else 0.0
  }

  /** Every member of these groups has its slot, and nobody else has one. */
  ghost predicate SlotsFor(equity: real, kelly: map<string, real>, mult: real, cap: real,
                           groups: seq<seq<string>>, sized: map<string, PositionSize>)
  {
    && cap > 0.0
    && (forall s :: s in sized <==> Member(groups, s))
    && (forall i, s :: 0 <= i < |groups| && s in groups[i] ==>
          s in sized && sized[s] == Slot(equity, Uncapped(kelly, mult)(s), Sum(Uncapped(kelly, mult), groups[i]), cap, groups[i]))
  }

  /** A group's total risk before caps. */
  method TotalOf(kelly: map<string, real>, mult: real, group: seq<string>) returns (total: real)
    ensures total == Sum(Uncapped(kelly, mult), group)
  {
    hide Uncapped;
    total := 0.0;
    for i := 0 to |group|
      invariant total == Sum(Uncapped(kelly, mult), group[..i])
    {
      SumPrefix(Uncapped(kelly, mult), group, i);
      total := total + Uncapped(kelly, mult)(group[i]);
    }
    assert group[..|group|] == group;
  }

  /** Fill the slots of one more group. */
  method FillGroup(equity: real, kelly: map<string, real>, mult: real, cap: real, group: seq<string>, before: map<string, PositionSize>)
    returns (sized: map<string, PositionSize>)
    requires cap > 0.0 && forall s :: s in group ==> s in kelly
    ensures forall s :: s in sized <==> s in before || s in group
    ensures forall s :: s in before && s !in group ==> sized[s] == before[s]
    ensures forall s :: s in group ==>
                          sized[s] == Slot(equity, Uncapped(kelly, mult)(s), Sum(Uncapped(kelly, mult), group), cap, group)
  {
    hide Sum, Uncapped, Slot;
    var total := TotalOf(kelly, mult, group);
    sized := before;
    for i := 0 to |group|
      invariant forall s :: s in sized <==> s in before || s in group[..i]
      invariant forall s :: s in before && s !in group ==> sized[s] == before[s]
      invariant forall s :: s in group[..i] ==> sized[s] == Slot(equity, Uncapped(kelly, mult)(s), total, cap, group)
    {
      var s := group[i];
      assert group[..i + 1] == group[..i] + [s];
      sized := sized[s := Slot(equity, Uncapped(kelly, mult)(s), total, cap, group)];
    }
    assert group[..|group|] == group;
  }

  function FullKelly(kelly: map<string, real>): string -> real {
    (s: string) => if s in kelly then kelly[s] else 0.0
  }

  /** Out of a group that asks for total, a member that asks for pct gets pct, or the same share
      of the cap when that is less. */
  ghost predicate ShareOf(equity: real, pct: real, total: real, cap: real, size: PositionSize) {
    && (if total <= cap then size.riskPct == pct else size.riskPct * total == pct * cap)
    && size.riskDollars == equity * size.riskPct / 100.0
    && (size.capped <==> total > cap)
  }

  /** A size from its inputs: mult times the Kelly fraction, in percent, out of mult times the sum
      of its group's Kelly fractions. */
  ghost predicate SizedExactly(equity: real, kelly: map<string, real>, mult: real, cap: real, size: PositionSize, s: string)
    requires s in kelly
  {
    ShareOf(equity, kelly[s] * mult * 100.0, Times(mult * 100.0, Sum(FullKelly(kelly), size.group)), cap, size)
  }

  lemma AskedIs(kelly: map<string, real>, mult: real, group: seq<string>)
    ensures Sum(Uncapped(kelly, mult), group) == Times(mult * 100.0, Sum(FullKelly(kelly), group))
  {
    hide Uncapped, FullKelly, Sum;
    var f, k, c := Uncapped(kelly, mult), FullKelly(kelly), mult * 100.0;
    forall i | 0 <= i < |group|
      ensures f(group[i]) == c * k(group[i])
    {
      OneAsks(kelly, mult, group[i]);
    }
    SumCongruent(f, group, k, group, c);
  }

  lemma OneAsks(kelly: map<string, real>, mult: real, s: string)
    ensures Uncapped(kelly, mult)(s) == (mult * 100.0) * FullKelly(kelly)(s)
  {
  }

  lemma SlotIsExact(equity: real, kelly: map<string, real>, mult: real, cap: real, group: seq<string>, s: string)
    requires cap > 0.0 && s in kelly
    ensures SizedExactly(equity, kelly, mult, cap,
                         Slot(equity, Uncapped(kelly, mult)(s), Sum(Uncapped(kelly, mult), group), cap, group), s)
  {
    hide ShareOf, Times;
    AskedIs(kelly, mult, group);
    SlotIsShare(equity, Uncapped(kelly, mult)(s), Sum(Uncapped(kelly, mult), group), cap, group);
  }

  lemma SlotIsShare(equity: real, pct: real, total: real, cap: real, group: seq<string>)
    requires cap > 0.0
    ensures ShareOf(equity, pct, total, cap, Slot(equity, pct, total, cap, group))
  {
    if total > cap {
      ShareOfCap(pct, total, cap);
    }
  }

  lemma ShareOfCap(pct: real, total: real, cap: real)
    requires 0.0 < cap < total
    ensures Times(pct, cap / total) * total == pct * cap
  {
    var q := cap / total;
    assert q * total == cap;
    assert (pct * q) * total == pct * (q * total);
  }

  /** What size_positions promises one symbol: its group is its connected component, sorted;
      its size is exact; the group's total risk is its total before caps or the cap, whichever
      is less; and nobody in it gets more than before caps, or another share of it. */
  ghost predicate SizedFairly(equity: real, book: Book, mult: real, cap: real, es: Edges,
                              sized: map<string, PositionSize>, s: string)
  {
    && s in sized
    && var g := sized[s].group;
    var total := Sum(Uncapped(book.kelly, mult), g);
    && Ascending(Self(), g)
    && (forall t :: t in g <==> t in book.symbols && Connected(es, s, t))
    && Sum(Risk(sized), g) == Min(total, cap)
    && 0.0 <= sized[s].riskPct <= Uncapped(book.kelly, mult)(s)
    && s in book.kelly && SizedExactly(equity, book.kelly, mult, cap, sized[s], s)
    && forall t :: t in g ==>
         && t in sized && sized[t].group == g
         && Times(sized[s].riskPct, Uncapped(book.kelly, mult)(t)) == Times(sized[t].riskPct, Uncapped(book.kelly, mult)(s))
  }

  /** size_positions: validation, correlation groups, then the group cap. */
  method SizePositions(equity: real, book: Book, f: Frame, cap: real, defaultMult: real, kellyMult: Option<real>)
    returns (r: Result<map<string, PositionSize>>)
    requires book.Valid() && cap > 0.0
    ensures var mult := if kellyMult.Some? then kellyMult.value else defaultMult;
            && (r.Err? <==>
                  || equity <= 0.0 || !(0.0 < mult <= 1.0) || book.symbols == []
                  || (exists s :: s in book.kelly && !(0.0 <= book.kelly[s] <= 1.0))
                  || (exists s :: s in book.symbols && s !in f.symbols)
                  || f.rows < 2)
            && (r.Err? ==>
                  r.error == if equity <= 0.0 then BadEquity
                             else if !(0.0 < mult <= 1.0) then BadMultiplier
                             else if book.symbols == [] then EmptyBook
                             else if exists s :: s in book.kelly && !(0.0 <= book.kelly[s] <= 1.0) then BadKelly
                             else if exists s :: s in book.symbols && s !in f.symbols then MissingColumns
                             else TooFewRows)
            && (r.Ok? ==>
                  && (forall s :: s in r.value <==> s in book.symbols)
                  && forall s :: s in book.symbols ==>
                       SizedFairly(equity, book, mult, cap, Graph(f.(symbols := book.symbols), 0.7, 63), r.value, s))
  {
    var mult := if kellyMult.Some? then kellyMult.value else defaultMult;
    if equity <= 0.0 {
      return Err(BadEquity);
    }
    if !(0.0 < mult <= 1.0) {
      return Err(BadMultiplier);
    }
    if book.symbols == [] {
      return Err(EmptyBook);
    }
    if exists s :: s in book.kelly && !(0.0 <= book.kelly[s] <= 1.0) {
      return Err(BadKelly);
    }
    if exists s :: s in book.symbols && s !in f.symbols {
      return Err(MissingColumns);
    }
    hide Graph, SizedFairly;
    var found := CorrelationGroups(f.(symbols := book.symbols), THRESHOLD, WINDOW);
    if found.Err? {
      return Err(found.error);
    }
    ghost var es := Graph(f.(symbols := book.symbols), THRESHOLD, WINDOW);
    var sized := FillAll(equity, book, mult, cap, found.value, es);
    AllSizedFairly(equity, book, mult, cap, found.value, es, sized);
    return Ok(sized);
  }

  lemma AllSizedFairly(equity: real, book: Book, mult: real, cap: real, groups: seq<seq<string>>, es: Edges,
                       sized: map<string, PositionSize>)
    requires book.Valid() && cap > 0.0 && mult > 0.0 && forall s :: s in book.kelly ==> book.kelly[s] >= 0.0
    requires AreComponents(book.symbols, es, groups) && SlotsFor(equity, book.kelly, mult, cap, groups, sized)
    ensures forall s :: s in sized <==> s in book.symbols
    ensures forall s :: s in book.symbols ==> SizedFairly(equity, book, mult, cap, es, sized, s)
  {
    hide SizedFairly, Slot, Sum, Uncapped, Connected, Ascending;
    forall s | s in book.symbols
      ensures SizedFairly(equity, book, mult, cap, es, sized, s)
    {
      assert Member(groups, s);
      var i :| 0 <= i < |groups| && s in groups[i];
      MemberSizedFairly(equity, book, mult, cap, groups, es, sized, i, s);
    }
  }

  lemma MemberSizedFairly(equity: real, book: Book, mult: real, cap: real, groups: seq<seq<string>>, es: Edges,
                          sized: map<string, PositionSize>, i: nat, s: string)
    requires book.Valid() && cap > 0.0 && mult > 0.0 && forall s :: s in book.kelly ==> book.kelly[s] >= 0.0
    requires AreComponents(book.symbols, es, groups) && SlotsFor(equity, book.kelly, mult, cap, groups, sized)
    requires i < |groups| && s in groups[i]
    ensures SizedFairly(equity, book, mult, cap, es, sized, s)
  {
    hide SlotsFor, Sum, Uncapped, Connected, Ascending, AreComponents, Risk, Times, Slot, SizedExactly;
    GroupCap(equity, book.kelly, mult, cap, groups, sized, i);
    SlotOf(equity, book.kelly, mult, cap, groups, sized, i, s);
    GroupIsComponent(book.symbols, es, groups, i, s);
    IsSlot(equity, book.kelly, mult, cap, groups, sized, i, s);
    assert s in book.symbols;
    SlotIsExact(equity, book.kelly, mult, cap, groups[i], s);
    forall t | t in groups[i]
      ensures t in sized && sized[t].group == groups[i]
      ensures Times(sized[s].riskPct, Uncapped(book.kelly, mult)(t)) == Times(sized[t].riskPct, Uncapped(book.kelly, mult)(s))
    {
      GroupProportions(equity, book.kelly, mult, cap, groups, sized, i, s, t);
    }
  }

  lemma GroupIsComponent(symbols: seq<string>, es: Edges, groups: seq<seq<string>>, i: nat, s: string)
    requires AreComponents(symbols, es, groups) && i < |groups| && s in groups[i]
    ensures Ascending(Self(), groups[i])
    ensures forall t :: t in groups[i] <==> t in symbols && Connected(es, s, t)
  {
    hide Connected, Ascending;
    forall t
      ensures t in groups[i] <==> t in symbols && Connected(es, s, t)
    {
      if t in groups[i] {
        assert Member(groups, t);
      }
      if t in symbols && Connected(es, s, t) {
        assert Member(groups, t);
        var j :| 0 <= j < |groups| && t in groups[j];
        assert i == j;
      }
    }
  }

  method FillAll(equity: real, book: Book, mult: real, cap: real, groups: seq<seq<string>>, ghost es: Edges)
    returns (sized: map<string, PositionSize>)
    requires book.Valid() && cap > 0.0 && AreComponents(book.symbols, es, groups)
    ensures SlotsFor(equity, book.kelly, mult, cap, groups, sized)
  {
    hide Slot, Sum, Uncapped, Connected, Ascending;
    sized := map[];
    for i := 0 to |groups|
      invariant SlotsFor(equity, book.kelly, mult, cap, groups[..i], sized)
    {
      hide SlotsFor;
      InBook(book, es, groups, i);
      var before := sized;
      sized := FillGroup(equity, book.kelly, mult, cap, groups[i], before);
      GroupIsNew(book.symbols, es, groups, i);
      SlotsNext(equity, book.kelly, mult, cap, groups[..i], groups[i], before, sized);
      assert groups[..i + 1] == groups[..i] + [groups[i]];
    }
    assert groups[..|groups|] == groups;
  }

  lemma InBook(book: Book, es: Edges, groups: seq<seq<string>>, i: nat)
    requires book.Valid() && AreComponents(book.symbols, es, groups) && i < |groups|
    ensures forall s :: s in groups[i] ==> s in book.kelly
  {
    hide Connected, Ascending;
    forall s | s in groups[i]
      ensures s in book.kelly
    {
      assert Member(groups, s);
    }
  }

  lemma GroupIsNew(symbols: seq<string>, es: Edges, groups: seq<seq<string>>, i: nat)
    requires AreComponents(symbols, es, groups) && i < |groups|
    ensures forall s :: s in groups[i] ==> !Member(groups[..i], s)
  {
    forall s | s in groups[i]
      ensures !Member(groups[..i], s)
    {
      forall k | 0 <= k < i
        ensures s !in groups[k]
      {
        if s in groups[k] {
          OneGroupEach(symbols, es, groups, k, i, s);
        }
      }
    }
  }

  lemma SlotsNext(equity: real, kelly: map<string, real>, mult: real, cap: real, done: seq<seq<string>>, group: seq<string>,
                  before: map<string, PositionSize>, sized: map<string, PositionSize>)
    requires SlotsFor(equity, kelly, mult, cap, done, before)
    requires forall s :: s in group ==> !Member(done, s)
    requires forall s :: s in sized <==> s in before || s in group
    requires forall s :: s in before && s !in group ==> sized[s] == before[s]
    requires forall s :: s in group ==>
                           sized[s] == Slot(equity, Uncapped(kelly, mult)(s), Sum(Uncapped(kelly, mult), group), cap, group)
    ensures SlotsFor(equity, kelly, mult, cap, done + [group], sized)
  {
    hide Slot, Sum, Uncapped;
    var all := done + [group];
    forall s
      ensures s in sized <==> Member(all, s)
    {
      if s in group {
        assert s in all[|done|];
      }
      if Member(done, s) {
        var i :| 0 <= i < |done| && s in done[i];
        assert s in all[i];
      }
    }
    forall i, s | 0 <= i < |all| && s in all[i]
      ensures s in sized && sized[s] == Slot(equity, Uncapped(kelly, mult)(s), Sum(Uncapped(kelly, mult), all[i]), cap, all[i])
    {
      if i < |done| {
        assert s in done[i];
        assert Member(done, s);
      }
    }
  }

  lemma IsSlot(equity: real, kelly: map<string, real>, mult: real, cap: real,
               groups: seq<seq<string>>, sized: map<string, PositionSize>, i: nat, s: string)
    requires SlotsFor(equity, kelly, mult, cap, groups, sized) && i < |groups| && s in groups[i]
    ensures s in sized && sized[s] == Slot(equity, Uncapped(kelly, mult)(s), Sum(Uncapped(kelly, mult), groups[i]), cap, groups[i])
  {
    hide Sum, Slot, Uncapped;
  }

  /** What a member of group i got. */
  lemma SlotOf(equity: real, kelly: map<string, real>, mult: real, cap: real,
               groups: seq<seq<string>>, sized: map<string, PositionSize>, i: nat, s: string)
    requires SlotsFor(equity, kelly, mult, cap, groups, sized) && i < |groups| && s in groups[i]
    ensures var total := Sum(Uncapped(kelly, mult), groups[i]);
            && s in sized
            && sized[s].riskPct == Times(Uncapped(kelly, mult)(s), Scale(total, cap))
            && sized[s].riskDollars == equity * sized[s].riskPct / 100.0
            && sized[s].group == groups[i]
            && (sized[s].capped <==> total > cap)
  {
    hide Sum, Scale, Uncapped, Times;
  }

  lemma GroupTotal(equity: real, kelly: map<string, real>, mult: real, cap: real,
                   groups: seq<seq<string>>, sized: map<string, PositionSize>, i: nat)
    requires cap > 0.0 && SlotsFor(equity, kelly, mult, cap, groups, sized) && i < |groups|
    ensures var total := Sum(Uncapped(kelly, mult), groups[i]);
            Sum(Risk(sized), groups[i]) == Times(total, Scale(total, cap))
  {
    hide Sum, Scale, Uncapped, Times, SlotsFor, Slot;
    var g := groups[i];
    var c := Scale(Sum(Uncapped(kelly, mult), g), cap);
    forall k | 0 <= k < |g|
      ensures Risk(sized)(g[k]) == Times(Uncapped(kelly, mult)(g[k]), c)
    {
      SlotOf(equity, kelly, mult, cap, groups, sized, i, g[k]);
    }
    SumTimes(Risk(sized), Uncapped(kelly, mult), g, c);
  }

  /** The group cap: a group's total risk is its total before caps or the cap,
      whichever is less; nobody gets more than before caps; and exactly the members of
      groups over the cap are marked capped. */
  lemma GroupCap(equity: real, kelly: map<string, real>, mult: real, cap: real,
                 groups: seq<seq<string>>, sized: map<string, PositionSize>, i: nat)
    requires cap > 0.0 && SlotsFor(equity, kelly, mult, cap, groups, sized) && i < |groups|
    requires mult > 0.0 && forall s :: s in kelly ==> kelly[s] >= 0.0
    ensures var total := Sum(Uncapped(kelly, mult), groups[i]);
            && Sum(Risk(sized), groups[i]) == Min(total, cap)
            && forall s :: s in groups[i] ==>
                 && s in sized
                 && 0.0 <= sized[s].riskPct <= Uncapped(kelly, mult)(s)
                 && sized[s].group == groups[i]
                 && (sized[s].capped <==> total > cap)
  {
    hide Sum, Scale, Uncapped, Times, SlotsFor, Slot;
    var total := Sum(Uncapped(kelly, mult), groups[i]);
    ScaleBounds(total, cap);
    GroupTotal(equity, kelly, mult, cap, groups, sized, i);
    forall s | s in groups[i]
      ensures s in sized && 0.0 <= sized[s].riskPct <= Uncapped(kelly, mult)(s)
      ensures sized[s].group == groups[i] && (sized[s].capped <==> total > cap)
    {
      SlotOf(equity, kelly, mult, cap, groups, sized, i, s);
      UncappedNonNegative(kelly, mult, s);
      Shrinks(Uncapped(kelly, mult)(s), Scale(total, cap));
    }
  }

  /** Capping keeps the proportions inside a group. */
  lemma GroupProportions(equity: real, kelly: map<string, real>, mult: real, cap: real,
                         groups: seq<seq<string>>, sized: map<string, PositionSize>, i: nat, s: string, t: string)
    requires cap > 0.0 && SlotsFor(equity, kelly, mult, cap, groups, sized) && i < |groups|
    requires s in groups[i] && t in groups[i]
    ensures s in sized && t in sized
    ensures Times(sized[s].riskPct, Uncapped(kelly, mult)(t)) == Times(sized[t].riskPct, Uncapped(kelly, mult)(s))
  {
    hide Sum, Scale, Uncapped, Times, SlotsFor, Slot;
    SlotOf(equity, kelly, mult, cap, groups, sized, i, s);
    SlotOf(equity, kelly, mult, cap, groups, sized, i, t);
    Proportion(Uncapped(kelly, mult)(s), Uncapped(kelly, mult)(t), Scale(Sum(Uncapped(kelly, mult), groups[i]), cap));
  }

  lemma ScaleBounds(total: real, cap: real)
    requires cap > 0.0
    ensures 0.0 <= Scale(total, cap) <= 1.0 && Times(total, Scale(total, cap)) == Min(total, cap)
  {
    if total > cap {
      ShareOut(cap, total, cap / total);
    }
  }

  lemma ShareOut(part: real, whole: real, c: real)
    requires 0.0 < part < whole && c * whole == part
    ensures 0.0 <= c <= 1.0 && Times(whole, c) == part
  {
    if c < 0.0 {
      ProductNonNegative(-c, whole);
    }
    if c > 1.0 {
      ProductNonNegative(c - 1.0, whole);
    }
  }

  lemma {:induction false} SumTimes(f: string -> real, g: string -> real, s: seq<string>, c: real)
    requires forall i :: 0 <= i < |s| ==> f(s[i]) == Times(g(s[i]), c)
    ensures Sum(f, s) == Times(Sum(g, s), c)
  {
    if s == [] {
      TimesAdds(c, 0.0, 0.0);
    } else {
      hide Times;
      var n := |s| - 1;
      SumTimes(f, g, s[..n], c);
      TimesAdds(c, Sum(g, s[..n]), g(s[n]));
    }
  }

  lemma UncappedNonNegative(kelly: map<string, real>, mult: real, s: string)
    requires mult > 0.0 && forall x :: x in kelly ==> kelly[x] >= 0.0
    ensures Uncapped(kelly, mult)(s) >= 0.0
  {
    if s in kelly {
      ProductNonNegative(kelly[s], mult);
    }
  }

  lemma Shrinks(a: real, c: real)
    requires a >= 0.0 && 0.0 <= c <= 1.0
    ensures 0.0 <= Times(a, c) <= a
  {
    ProductNonNegative(a, c);
    ProductNonNegative(a, 1.0 - c);
    assert a * (1.0 - c) == a - a * c;
  }

  lemma Proportion(a: real, b: real, c: real)
    ensures Times(Times(a, c), b) == Times(Times(b, c), a)
  {
  }
}
