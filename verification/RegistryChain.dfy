// What the chain walk of src/edge/research/registry.py accepts, and what two files
// accepted under one sidecar have in common.
module RegistryChain {
  import opened Common
  import opened RegistryModel

  // ---- a file as lines -----------------------------------------------------

  predicate Terminated(file: Bytes) {
    file == [] || file[|file| - 1] == NEWLINE
  }

  ghost predicate NewlineFree(bodies: seq<Bytes>) {
    forall i :: 0 <= i < |bodies| ==> NEWLINE !in bodies[i]
  }

  /** The file that holds these lines. */
  function Join(bodies: seq<Bytes>): Bytes {
    if bodies == [] then [] else bodies[0] + [NEWLINE] + Join(bodies[1..])
  }

  /** The lines of a newline-terminated file, without their newlines. */
  function Bodies(file: Bytes): seq<Bytes>
    decreases |file|
  {
    if file == [] then []
    else
      var n := LineEnd(file);
      [file[..n - 1]] + Bodies(file[n..])
  }

  lemma {:induction false} JoinBodies(file: Bytes)
    requires Terminated(file)
    ensures Join(Bodies(file)) == file && NewlineFree(Bodies(file))
    decreases |file|
  {
    hide LineEnd, Bodies;
    if file == [] {
      NoBodies();
    } else {
      var n := LineEnd(file);
      BodiesStep(file);
      JoinBodies(file[n..]);
      assert file == file[..n - 1] + [NEWLINE] + file[n..];
      FreeOnTop(Bodies(file));
    }
  }

  lemma NoBodies()
    ensures Bodies([]) == []
  {
  }

  lemma FreeOnTop(bodies: seq<Bytes>)
    requires bodies != [] && NEWLINE !in bodies[0] && NewlineFree(bodies[1..])
    ensures NewlineFree(bodies)
  {
    forall i | 0 <= i < |bodies|
      ensures NEWLINE !in bodies[i]
    {
      if i > 0 {
        assert bodies[i] == bodies[1..][i - 1];
      }
    }
  }

  lemma {:induction false} LineEndIs(body: Bytes, rest: Bytes)
    requires NEWLINE !in body
    ensures LineEnd(body + [NEWLINE] + rest) == |body| + 1
  {
    if body != [] {
      LineEndIs(body[1..], rest);
      assert (body + [NEWLINE] + rest)[1..] == body[1..] + [NEWLINE] + rest;
    }
  }

  lemma {:induction false} BodiesJoin(bodies: seq<Bytes>)
    requires NewlineFree(bodies)
    ensures Bodies(Join(bodies)) == bodies && Terminated(Join(bodies))
  {
    if bodies != [] {
      var rest := Join(bodies[1..]);
      LineEndIs(bodies[0], rest);
      BodiesJoin(bodies[1..]);
      var file := Join(bodies);
      assert file[..|bodies[0]|] == bodies[0] && file[|bodies[0]| + 1..] == rest;
    }
  }

  lemma {:induction false} JoinAppends(a: seq<Bytes>, b: seq<Bytes>)
    ensures Join(a + b) == Join(a) + Join(b)
  {
    if a == [] {
      assert a + b == b;
    } else {
      JoinAppends(a[1..], b);
      assert (a + b)[1..] == a[1..] + b;
    }
  }

  lemma BodiesAppend(file: Bytes, more: Bytes)
    requires Terminated(file) && Terminated(more)
    ensures Bodies(file + more) == Bodies(file) + Bodies(more)
  {
    hide Bodies, Join, Terminated;
    JoinBodies(file);
    JoinBodies(more);
    JoinAppends(Bodies(file), Bodies(more));
    BodiesJoin(Bodies(file) + Bodies(more));
  }

  lemma {:induction false} NewlinesAdd(a: Bytes, b: Bytes)
    ensures CountNewlines(a + b) == CountNewlines(a) + CountNewlines(b)
  {
    if b == [] {
      assert a + b == a;
    } else {
      assert (a + b)[..|a + b| - 1] == a + b[..|b| - 1];
      NewlinesAdd(a, b[..|b| - 1]);
    }
  }

  lemma {:induction false} NoNewlines(body: Bytes)
    requires NEWLINE !in body
    ensures CountNewlines(body) == 0
  {
    if body != [] {
      NoNewlines(body[..|body| - 1]);
    }
  }

  lemma {:induction false} NewlinesOfJoin(bodies: seq<Bytes>)
    requires NewlineFree(bodies)
    ensures CountNewlines(Join(bodies)) == |bodies|
  {
    if bodies != [] {
      NewlinesOfJoin(bodies[1..]);
      NoNewlines(bodies[0]);
      NewlinesAdd(bodies[0] + [NEWLINE], Join(bodies[1..]));
    }
  }

  // ---- what the walk accepts -----------------------------------------------

  function PrevOf(k: Codec, prev: Digest, bodies: seq<Bytes>, i: nat): Digest
    requires i <= |bodies|
  {
    if i == 0 then prev else k.sha(bodies[i - 1])
  }

  /** Every line parses, links to the exact bytes of the one before, and carries its
      own line number. */
  ghost predicate Chained(k: Codec, prev: Digest, lineno: nat, bodies: seq<Bytes>) {
    forall i :: 0 <= i < |bodies| ==> ChainedAt(k, prev, lineno, bodies, i)
  }

  ghost predicate ChainedAt(k: Codec, prev: Digest, lineno: nat, bodies: seq<Bytes>, i: nat)
    requires i < |bodies|
  {
    match k.parse(bodies[i])
    case None => false
    case Some(t) => t.prevSha == PrevOf(k, prev, bodies, i) && t.id == lineno + i + 1
  }

  /** The link the walk yields for line i. */
  function LinkAt(k: Codec, lineno: nat, offset: nat, bodies: seq<Bytes>, i: nat): Link
    requires i < |bodies| && k.parse(bodies[i]).Some?
  {
    Link(lineno + i + 1, offset + |Join(bodies[..i])|, |bodies[i]| + 1, k.sha(bodies[i]), k.parse(bodies[i]).value)
  }

  ghost predicate Links(k: Codec, lineno: nat, offset: nat, bodies: seq<Bytes>, links: seq<Link>) {
    && |links| == |bodies|
    && forall i :: 0 <= i < |bodies| ==> k.parse(bodies[i]).Some? && links[i] == LinkAt(k, lineno, offset, bodies, i)
  }

  lemma ChainedTail(k: Codec, prev: Digest, lineno: nat, bodies: seq<Bytes>)
    requires bodies != []
    ensures Chained(k, prev, lineno, bodies) <==>
            ChainedAt(k, prev, lineno, bodies, 0) && Chained(k, k.sha(bodies[0]), lineno + 1, bodies[1..])
  {
    var rest, prev', next := bodies[1..], k.sha(bodies[0]), lineno + 1;
    forall j | 1 <= j < |bodies|
      ensures ChainedAt(k, prev, lineno, bodies, j) <==> ChainedAt(k, prev', next, rest, j - 1)
    {
      assert PrevOf(k, prev', rest, j - 1) == PrevOf(k, prev, bodies, j);
    }
    if Chained(k, prev, lineno, bodies) {
      forall i | 0 <= i < |rest|
        ensures ChainedAt(k, prev', next, rest, i)
      {
        assert ChainedAt(k, prev, lineno, bodies, i + 1);
      }
    }
  }

  lemma LinksTail(k: Codec, lineno: nat, offset: nat, bodies: seq<Bytes>, links: seq<Link>)
    requires bodies != [] && k.parse(bodies[0]).Some?
    requires Links(k, lineno + 1, offset + |bodies[0]| + 1, bodies[1..], links)
    ensures Links(k, lineno, offset, bodies, [LinkAt(k, lineno, offset, bodies, 0)] + links)
  {
    var all := [LinkAt(k, lineno, offset, bodies, 0)] + links;
    forall i | 0 <= i < |bodies|
      ensures k.parse(bodies[i]).Some? && all[i] == LinkAt(k, lineno, offset, bodies, i)
    {
      if i > 0 {
        assert links[i - 1] == LinkAt(k, lineno + 1, offset + |bodies[0]| + 1, bodies[1..], i - 1);
        assert bodies[..i][1..] == bodies[1..][..i - 1];
      }
    }
  }

  /** The walk accepts exactly the newline-terminated files whose lines are chained,
      and yields one link per line. */
  lemma {:induction false} WalkFromIff(k: Codec, file: Bytes, prev: Digest, lineno: nat, offset: nat)
    ensures var w := WalkFrom(k, file, prev, lineno, offset);
            && (w.Some? <==> Terminated(file) && Chained(k, prev, lineno, Bodies(file)))
            && (w.Some? ==> Links(k, lineno, offset, Bodies(file), w.value))
    decreases |file|
  {
    hide Chained, Links, CheckLine, WalkFrom, Bodies, LineEnd, LinkAt;
    if file == [] {
      EmptyWalkFrom(k, prev, lineno, offset);
    } else {
      var n := LineEnd(file);
      BodiesStep(file);
      if file[n - 1] != NEWLINE {
        UncheckedLine(k, file, prev, lineno, offset);
      } else {
        TerminatedTail(file, n);
        WalkFromIff(k, file[n..], k.sha(file[..n - 1]), lineno + 1, offset + n);
        WalkStep(k, file, prev, lineno, offset);
        ChainedTail(k, prev, lineno, Bodies(file));
        var w := WalkFrom(k, file[n..], k.sha(file[..n - 1]), lineno + 1, offset + n);
        if w.Some? && k.parse(file[..n - 1]).Some? {
          LinksTail(k, lineno, offset, Bodies(file), w.value);
        }
      }
    }
  }

  lemma EmptyWalkFrom(k: Codec, prev: Digest, lineno: nat, offset: nat)
    ensures WalkFrom(k, [], prev, lineno, offset) == Some([]) && Bodies([]) == []
    ensures Chained(k, prev, lineno, []) && Links(k, lineno, offset, [], [])
  {
  }

  lemma BodiesStep(file: Bytes)
    requires file != []
    ensures var n := LineEnd(file);
            && Bodies(file) != []
            && Bodies(file)[0] == file[..n - 1] && Bodies(file)[1..] == Bodies(file[n..])
            && |Bodies(file)[0]| + 1 == n
  {
    hide LineEnd;
  }

  lemma UncheckedLine(k: Codec, file: Bytes, prev: Digest, lineno: nat, offset: nat)
    requires file != [] && file[LineEnd(file) - 1] != NEWLINE
    ensures WalkFrom(k, file, prev, lineno, offset).None? && !Terminated(file)
  {
    hide LineEnd;
  }

  /** One step of the walk, in terms of the line's chain condition. */
  lemma WalkStep(k: Codec, file: Bytes, prev: Digest, lineno: nat, offset: nat)
    requires file != [] && file[LineEnd(file) - 1] == NEWLINE
    requires Bodies(file) != [] && Bodies(file)[0] == file[..LineEnd(file) - 1]
    ensures var n := LineEnd(file);
            var bodies := Bodies(file);
            var w := WalkFrom(k, file[n..], k.sha(bodies[0]), lineno + 1, offset + n);
            WalkFrom(k, file, prev, lineno, offset) ==
            if ChainedAt(k, prev, lineno, bodies, 0) && w.Some?
            then Some([LinkAt(k, lineno, offset, bodies, 0)] + w.value)
            else None
  {
    hide LineEnd, Bodies;
    var n := LineEnd(file);
    assert file[..n][..n - 1] == file[..n - 1];
    assert Bodies(file)[..0] == [];
  }

  lemma TerminatedTail(file: Bytes, n: nat)
    requires 1 <= n <= |file| && file[n - 1] == NEWLINE
    ensures Terminated(file) <==> Terminated(file[n..])
  {
  }

  /** Acceptance in terms of lines: a file verifies exactly when it is the join of
      newline-free lines, each parsing, linked to the bytes before it from the genesis
      constant on, and numbered from one. */
  lemma WalkAcceptsIff(k: Codec, file: Bytes)
    ensures Walk(k, file).Some? <==>
            exists bodies :: NewlineFree(bodies) && file == Join(bodies) && Chained(k, k.genesis, 0, bodies)
  {
    hide Chained, WalkFrom;
    WalkFromIff(k, file, k.genesis, 0, 0);
    if Walk(k, file).Some? {
      JoinBodies(file);
    }
    if bodies :| NewlineFree(bodies) && file == Join(bodies) && Chained(k, k.genesis, 0, bodies) {
      BodiesJoin(bodies);
    }
  }

  /** What a verified walk says about each line. */
  lemma WalkedLines(k: Codec, file: Bytes)
    requires Walk(k, file).Some?
    ensures Terminated(file) && Join(Bodies(file)) == file && NewlineFree(Bodies(file))
    ensures Chained(k, k.genesis, 0, Bodies(file))
    ensures Links(k, 0, 0, Bodies(file), Walk(k, file).value)
  {
    WalkFromIff(k, file, k.genesis, 0, 0);
    JoinBodies(file);
  }

  /** A sidecar's cache describes these lines: the size of their file, their number, and the hash of
      the last one. */
  ghost predicate Describes(k: Codec, c: Cache, bodies: seq<Bytes>) {
    && c.byteSize == |Join(bodies)| && c.lineCount == |bodies|
    && c.tailSha == if bodies == [] then None else Some(k.sha(bodies[|bodies| - 1]))
  }

  /** When a read completes: on an empty file without a sidecar, or on the join of chained lines that
      the sidecar describes. */
  lemma ReadIff(k: Codec, file: Bytes, side: Sidecar)
    ensures Read(k, file, side).Some? <==>
            || (side == Missing && file == [])
            || (side.Held? && exists bodies ::
                  && NewlineFree(bodies) && file == Join(bodies) && Chained(k, k.genesis, 0, bodies)
                  && Describes(k, side.cache, bodies))
  {
    hide Walk, Chained, Bodies, Join, NewlineFree;
    WalkAcceptsIff(k, file);
    if side.Held? && Walk(k, file).Some? {
      WalkedLines(k, file);
      TailOfLines(k, file);
    }
    if bodies :| side.Held? && NewlineFree(bodies) && file == Join(bodies)
                 && Chained(k, k.genesis, 0, bodies) && Describes(k, side.cache, bodies)
    {
      BodiesJoin(bodies);
    }
  }

  lemma TailOfLines(k: Codec, file: Bytes)
    requires Walk(k, file).Some?
    ensures var links, bodies := Walk(k, file).value, Bodies(file);
            |links| == |bodies| && TailSha(links) == if bodies == [] then None else Some(k.sha(bodies[|bodies| - 1]))
  {
    hide Walk, Bodies, Join, NewlineFree, Chained;
    WalkedLines(k, file);
  }

  // ---- tamper evidence -----------------------------------------------------

  /** Two different lines at one place with one hash. */
  ghost predicate Collision(k: Codec, a: seq<Bytes>, b: seq<Bytes>) {
    exists i :: 0 <= i < |a| && i < |b| && a[i] != b[i] && k.sha(a[i]) == k.sha(b[i])
  }

  /** Backward induction through prev_sha: chains of one length whose last lines hash
      alike are the same chain, or a collision is at hand. */
  lemma {:induction false} TailDeterminesChain(k: Codec, a: seq<Bytes>, b: seq<Bytes>)
    requires |a| == |b| > 0
    requires Chained(k, k.genesis, 0, a) && Chained(k, k.genesis, 0, b)
    requires k.sha(a[|a| - 1]) == k.sha(b[|b| - 1])
    ensures a == b || Collision(k, a, b)
  {
    var n := |a| - 1;
    if a[n] == b[n] && n > 0 {
      assert ChainedAt(k, k.genesis, 0, a, n) && ChainedAt(k, k.genesis, 0, b, n);
      ChainedPrefix(k, a, n);
      ChainedPrefix(k, b, n);
      TailDeterminesChain(k, a[..n], b[..n]);
      if a[..n] == b[..n] {
        assert a == a[..n] + [a[n]] && b == b[..n] + [b[n]];
      } else {
        var i :| 0 <= i < n && a[..n][i] != b[..n][i] && k.sha(a[..n][i]) == k.sha(b[..n][i]);
        assert a[i] != b[i] && k.sha(a[i]) == k.sha(b[i]);
      }
    }
  }

  lemma ChainedPrefix(k: Codec, a: seq<Bytes>, n: nat)
    requires n <= |a| && Chained(k, k.genesis, 0, a)
    ensures Chained(k, k.genesis, 0, a[..n])
  {
    forall i | 0 <= i < n
      ensures ChainedAt(k, k.genesis, 0, a[..n], i)
    {
      assert ChainedAt(k, k.genesis, 0, a, i);
    }
  }

  /** Tamper evidence: any two files that a completed read accepts under the same
      sidecar are byte-identical, or two different lines with one hash stand at the
      same line number. */
  lemma TamperEvident(k: Codec, side: Sidecar, f: Bytes, g: Bytes)
    requires Read(k, f, side).Some? && Read(k, g, side).Some?
    ensures f == g || Collision(k, Bodies(f), Bodies(g))
  {
    hide Chained, WalkFrom, Collision;
    if side.Held? {
      WalkedLines(k, f);
      WalkedLines(k, g);
      var a, b := Bodies(f), Bodies(g);
      if a != [] {
        var n := |a| - 1;
        assert Walk(k, f).value[n] == LinkAt(k, 0, 0, a, n);
        assert Walk(k, g).value[n] == LinkAt(k, 0, 0, b, n);
        TailDeterminesChain(k, a, b);
      }
    }
  }

  // ---- appended lines ------------------------------------------------------

  lemma WalkPrefix(k: Codec, file: Bytes, more: Bytes)
    requires Terminated(file) && Walk(k, file + more).Some?
    ensures Walk(k, file).Some?
  {
    hide Chained, WalkFrom;
    WalkFromIff(k, file, k.genesis, 0, 0);
    WalkFromIff(k, file + more, k.genesis, 0, 0);
    assert more != [] ==> (file + more)[|file + more| - 1] == more[|more| - 1];
    BodiesAppend(file, more);
    var n := |Bodies(file)|;
    ChainedPrefix(k, Bodies(file + more), n);
    assert Bodies(file + more)[..n] == Bodies(file);
  }

  /** A newline-terminated file that fails the walk still fails whatever is appended:
      a broken chain cannot be repaired at its end. */
  lemma BrokenStaysBroken(k: Codec, file: Bytes, more: Bytes)
    requires Terminated(file) && Walk(k, file).None?
    ensures Walk(k, file + more).None?
  {
    hide Walk;
    if Walk(k, file + more).Some? {
      WalkPrefix(k, file, more);
    }
  }

  /** Without the final newline the last failure is repairable, so the condition of
      BrokenStaysBroken cannot be dropped. */
  lemma UnterminatedIsRepairable(k: Codec, t: Trial)
    requires Sound(k) && MeetsSchema(k, t) && t.id == 1 && t.prevSha == k.genesis
    ensures Walk(k, k.print_(t)).None? && Walk(k, k.print_(t) + [NEWLINE]).Some?
  {
    hide Chained, WalkFrom;
    assert PrintsBack(k, t);
    var body := k.print_(t);
    WalkFromIff(k, body, k.genesis, 0, 0);
    assert body[|body| - 1] in body;
    assert Join([body]) == body + [NEWLINE];
    OneLineChain(k, t);
    WalkAcceptsIff(k, body + [NEWLINE]);
    assert NewlineFree([body]);
  }

  lemma OneLineChain(k: Codec, t: Trial)
    requires PrintsBack(k, t) && t.id == 1 && t.prevSha == k.genesis
    ensures Chained(k, k.genesis, 0, [k.print_(t)])
  {
  }
}
