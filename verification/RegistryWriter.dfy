// The incremental writer of src/edge/research/registry.py against recomputation: over
// any sequence of appends its committed state, its duplicate map and the sidecar are
// what a full walk of the file would give.
module RegistryWriter {
  import opened Common
  import opened RegistryModel
  import opened RegistryChain

  /** The writer, the duplicate map and the sidecar all describe the file's walk. */
  ghost predicate Synced(k: Codec, s: State) {
    match Walk(k, s.file)
    case None => false
    case Some(links) =>
      && s.side == Held(CacheOf(links))
      && s.writer == Some((WriterOf(links), DupMap(links)))
  }

  /** No writer yet, and the disk passes a completed read. */
  ghost predicate Cold(k: Codec, s: State) {
    s.writer.None? && Read(k, s.file, s.side).Some?
  }

  /** The record to append next to these verified lines. */
  function NextOf(k: Codec, links: seq<Link>, e: Entry): Trial {
    NextTrial(k, WriterOf(links), DupMap(links), e)
  }

  // ---- appending -----------------------------------------------------------

  /** A record that may follow these verified lines. */
  predicate Continues(k: Codec, links: seq<Link>, t: Trial) {
    t.id == |links| + 1 && t.prevSha == if TailSha(links).Some? then TailSha(links).value else k.genesis
  }

  /** A walked file and one more line that continues its chain. */
  lemma WalkAppend(k: Codec, file: Bytes, body: Bytes, t: Trial)
    requires Walk(k, file).Some?
    requires NEWLINE !in body && k.parse(body) == Some(t)
    requires Continues(k, Walk(k, file).value, t)
    ensures Walk(k, file + body + [NEWLINE]) ==
            Some(Walk(k, file).value + [Link(t.id, |file|, |body| + 1, k.sha(body), t)])
  {
    hide WalkFrom, Chained, Links, Terminated, NewlineFree, Bodies, Join;
    var bodies := Bodies(file);
    var longer := file + body + [NEWLINE];
    WalkedLines(k, file);
    BodiesOfLonger(file, body);
    ChainedAppend(k, bodies, body, t, Walk(k, file).value);
    WalkFromIff(k, longer, k.genesis, 0, 0);
    LinksAppend(k, bodies, body, t, Walk(k, file).value, Walk(k, longer).value);
  }

  lemma BodiesOfLonger(file: Bytes, body: Bytes)
    requires Terminated(file) && NEWLINE !in body
    ensures Bodies(file + body + [NEWLINE]) == Bodies(file) + [body]
    ensures Terminated(file + body + [NEWLINE])
  {
    JoinBodies(file);
    JoinAppends(Bodies(file), [body]);
    assert Join([body]) == body + [NEWLINE];
    assert file + body + [NEWLINE] == file + (body + [NEWLINE]);
    BodiesJoin(Bodies(file) + [body]);
  }

  lemma LinksAppend(k: Codec, bodies: seq<Bytes>, body: Bytes, t: Trial, links: seq<Link>, links': seq<Link>)
    requires Links(k, 0, 0, bodies, links) && Links(k, 0, 0, bodies + [body], links')
    requires k.parse(body) == Some(t) && t.id == |links| + 1
    ensures links' == links + [Link(t.id, |Join(bodies)|, |body| + 1, k.sha(body), t)]
  {
    hide Join;
    var all := bodies + [body];
    forall i | 0 <= i < |all|
      ensures links'[i] == (links + [Link(t.id, |Join(bodies)|, |body| + 1, k.sha(body), t)])[i]
    {
      assert links'[i] == LinkAt(k, 0, 0, all, i);
      if i < |bodies| {
        assert links[i] == LinkAt(k, 0, 0, bodies, i);
        assert all[..i] == bodies[..i];
      } else {
        assert all[..i] == bodies;
      }
    }
  }

  lemma ChainedAppend(k: Codec, bodies: seq<Bytes>, body: Bytes, t: Trial, links: seq<Link>)
    requires Chained(k, k.genesis, 0, bodies) && Links(k, 0, 0, bodies, links)
    requires k.parse(body) == Some(t) && Continues(k, links, t)
    ensures Chained(k, k.genesis, 0, bodies + [body])
  {
    var all := bodies + [body];
    forall i | 0 <= i < |all|
      ensures ChainedAt(k, k.genesis, 0, all, i)
    {
      if i < |bodies| {
        assert ChainedAt(k, k.genesis, 0, bodies, i);
      } else if bodies != [] {
        assert links[i - 1] == LinkAt(k, 0, 0, bodies, i - 1);
      }
    }
  }

  /** The verified lines cover the file. */
  lemma WalkCovers(k: Codec, file: Bytes)
    requires Walk(k, file).Some?
    ensures CacheOf(Walk(k, file).value).byteSize == |file|
    ensures CountNewlines(file) == |Walk(k, file).value|
    ensures |Bodies(file)| == |Walk(k, file).value|
    ensures Walk(k, file).value == [] <==> file == []
    ensures var links := Walk(k, file).value;
            links != [] ==>
              var last := links[|links| - 1];
              var body := Bodies(file)[|links| - 1];
              && last.offset <= |file| && file[last.offset..] == body + [NEWLINE]
              && last.sha == k.sha(body) && k.parse(body) == Some(last.record)
              && last.record.id == |links|
  {
    hide WalkFrom, Chained, Bodies, CountNewlines, Join, NewlineFree;
    WalkedLines(k, file);
    var bodies := Bodies(file);
    NewlinesOfJoin(bodies);
    NoBodies();
    if file != [] {
      BodiesStep(file);
    }
    if bodies != [] {
      LastLine(k, bodies, Walk(k, file).value);
      LastId(k, bodies);
    }
  }

  /** The last line ends the file. */
  lemma LastLine(k: Codec, bodies: seq<Bytes>, links: seq<Link>)
    requires Links(k, 0, 0, bodies, links) && bodies != []
    requires k.parse(bodies[|bodies| - 1]).Some?
    ensures var last := links[|links| - 1];
            var body := bodies[|bodies| - 1];
            && |links| == |bodies|
            && last.offset + last.rawLen == |Join(bodies)|
            && last.offset <= |Join(bodies)| && Join(bodies)[last.offset..] == body + [NEWLINE]
            && last.sha == k.sha(body) && last.record == k.parse(body).value
  {
    var n := |bodies| - 1;
    assert links[n] == LinkAt(k, 0, 0, bodies, n);
    assert bodies == bodies[..n] + [bodies[n]];
    JoinAppends(bodies[..n], [bodies[n]]);
    assert Join([bodies[n]]) == bodies[n] + [NEWLINE];
  }

  lemma LastId(k: Codec, bodies: seq<Bytes>)
    requires Chained(k, k.genesis, 0, bodies) && bodies != []
    ensures k.parse(bodies[|bodies| - 1]).Some? && k.parse(bodies[|bodies| - 1]).value.id == |bodies|
  {
    assert ChainedAt(k, k.genesis, 0, bodies, |bodies| - 1);
  }

  /** After its own appends a warm writer is never refused. */
  lemma WarmNeverRefuses(k: Codec, s: State)
    requires Synced(k, s)
    ensures Preflight(k, s) == s.writer
    ensures s.writer == Some((WriterOf(Walk(k, s.file).value), DupMap(Walk(k, s.file).value)))
  {
    hide WalkFrom, CountNewlines, Bodies;
    WalkCovers(k, s.file);
    var links := Walk(k, s.file).value;
    if links != [] {
      var body := Bodies(s.file)[|links| - 1];
      assert (body + [NEWLINE])[..|body|] == body;
    }
  }

  /** What a preflight hands to the append, cold or warm. */
  lemma PreflightIs(k: Codec, s: State)
    requires Cold(k, s) || Synced(k, s)
    ensures Walk(k, s.file).Some?
    ensures var links := Walk(k, s.file).value;
            Preflight(k, s) == Some((WriterOf(links), DupMap(links)))
  {
    hide WalkFrom;
    if Synced(k, s) {
      WarmNeverRefuses(k, s);
    } else if s.side.Missing? {
      EmptyWalk(k);
    }
  }

  lemma EmptyWalk(k: Codec)
    ensures Walk(k, []) == Some([])
  {
  }

  /** The record to append next meets the schema exactly when its payload does. */
  lemma NextMeetsSchema(k: Codec, file: Bytes, e: Entry)
    requires Sound(k) && Walk(k, file).Some?
    ensures MeetsSchema(k, NextOf(k, Walk(k, file).value, e)) <==> k.fits(e.payload)
  {
    hide WalkFrom, Bodies, CountNewlines, IsDigest, Chained, DupMap;
    WalkCovers(k, file);
  }

  /** One append, from a cold registry or a synced one: it succeeds, extends the walk
      by exactly its own line, and leaves writer, duplicate map and sidecar equal to
      what that walk computes. */
  lemma AppendSyncs(k: Codec, s: State, e: Entry)
    requires Sound(k) && (Cold(k, s) || Synced(k, s)) && k.fits(e.payload)
    ensures Walk(k, s.file).Some?
    ensures var links := Walk(k, s.file).value;
            var t := NextOf(k, links, e);
            var (r, out) := RecordTrial(k, s, e);
            && out == Recorded(t)
            && Synced(k, r)
            && r.file == s.file + k.print_(t) + [NEWLINE]
            && Walk(k, r.file) == Some(links + [Link(t.id, |s.file|, |k.print_(t)| + 1, k.sha(k.print_(t)), t)])
  {
    AppendRecords(k, s, e);
    hide Walk, WalkFrom, CountNewlines, Bodies, DupMap, Read, MeetsSchema, Append, RecordTrial, Synced, Cold, NextOf;
    var links := Walk(k, s.file).value;
    var t := NextOf(k, links, e);
    NextWalks(k, s.file, e);
    WalkCovers(k, s.file);
    AppendIsSynced(k, s, links, t);
  }

  /** What record_trial does with an entry that meets the schema. */
  lemma AppendRecords(k: Codec, s: State, e: Entry)
    requires Sound(k) && (Cold(k, s) || Synced(k, s)) && k.fits(e.payload)
    ensures Walk(k, s.file).Some?
    ensures var links := Walk(k, s.file).value;
            var t := NextOf(k, links, e);
            RecordTrial(k, s, e) == (Append(k, s, WriterOf(links), DupMap(links), t), Recorded(t))
  {
    PreflightIs(k, s);
    NextMeetsSchema(k, s.file, e);
    hide Walk, WalkFrom, CountNewlines, Bodies, DupMap, Read, MeetsSchema, Append, Synced, Cold, WriterOf, Preflight;
  }

  /** The line written next continues the walk. */
  lemma NextWalks(k: Codec, file: Bytes, e: Entry)
    requires Sound(k) && Walk(k, file).Some? && k.fits(e.payload)
    ensures var links := Walk(k, file).value;
            var t := NextOf(k, links, e);
            Walk(k, file + k.print_(t) + [NEWLINE]) ==
            Some(links + [Link(t.id, |file|, |k.print_(t)| + 1, k.sha(k.print_(t)), t)])
  {
    hide Walk, WalkFrom, CountNewlines, Bodies, DupMap, MeetsSchema;
    NextMeetsSchema(k, file, e);
    var t := NextOf(k, Walk(k, file).value, e);
    assert PrintsBack(k, t);
    WalkAppend(k, file, k.print_(t), t);
  }

  lemma AppendIsSynced(k: Codec, s: State, links: seq<Link>, t: Trial)
    requires CacheOf(links).byteSize == |s.file|
    requires var body := k.print_(t);
             && t.id == |links| + 1
             && Walk(k, s.file + body + [NEWLINE]) == Some(links + [Link(t.id, |s.file|, |body| + 1, k.sha(body), t)])
    ensures var r := Append(k, s, WriterOf(links), DupMap(links), t);
            Synced(k, r) && r.file == s.file + k.print_(t) + [NEWLINE]
  {
    hide Walk, DupMap;
    DupMapOnTop(links, Link(t.id, |s.file|, |k.print_(t)| + 1, k.sha(k.print_(t)), t));
  }

  lemma DupMapOnTop(links: seq<Link>, link: Link)
    ensures DupMap(links + [link]) == SetDefault(DupMap(links), link.record.configHash, link.record.id)
  {
    assert (links + [link])[..|links|] == links;
  }

  /** Records in file order. */
  function Records(links: seq<Link>): (r: seq<Trial>)
    ensures |r| == |links|
    ensures forall i :: 0 <= i < |links| ==> r[i] == links[i].record
  {
    seq(|links|, i requires 0 <= i < |links| => links[i].record)
  }

  /** duplicate_of names the first earlier record with the same config hash, and is
      absent exactly when there is none. */
  ghost predicate FirstDuplicate(records: seq<Trial>, i: nat)
    requires i < |records|
  {
    match records[i].duplicateOf
    case None => forall j :: 0 <= j < i ==> records[j].configHash != records[i].configHash
    case Some(id) =>
      && 1 <= id <= i
      && records[id - 1].configHash == records[i].configHash
      && forall j :: 0 <= j < id - 1 ==> records[j].configHash != records[i].configHash
  }

  /** The duplicate map holds the first id of every hash, when ids are line numbers. */
  lemma {:induction false} DupMapIsFirst(links: seq<Link>, h: Digest)
    requires forall i :: 0 <= i < |links| ==> links[i].record.id == i + 1
    ensures h !in DupMap(links) ==> forall j :: 0 <= j < |links| ==> links[j].record.configHash != h
    ensures h in DupMap(links) ==>
              var id := DupMap(links)[h];
              && 1 <= id <= |links|
              && links[id - 1].record.configHash == h
              && forall j :: 0 <= j < id - 1 ==> links[j].record.configHash != h
  {
    if links != [] {
      DupMapIsFirst(links[..|links| - 1], h);
    }
  }

  lemma WalkedIds(k: Codec, file: Bytes)
    requires Walk(k, file).Some?
    ensures forall i :: 0 <= i < |Walk(k, file).value| ==> Walk(k, file).value[i].record.id == i + 1
  {
    hide WalkFrom;
    WalkedLines(k, file);
    var links := Walk(k, file).value;
    forall i | 0 <= i < |links|
      ensures links[i].record.id == i + 1
    {
      assert ChainedAt(k, k.genesis, 0, Bodies(file), i);
      assert links[i] == LinkAt(k, 0, 0, Bodies(file), i);
    }
  }

  /** What a state reached from s by appending es looks like. */
  ghost predicate Grown(k: Codec, s: State, r: State, es: seq<Entry>) {
    && Walk(k, s.file).Some? && Walk(k, r.file).Some?
    && var old_, new_ := Records(Walk(k, s.file).value), Records(Walk(k, r.file).value);
    && |new_| == |old_| + |es|
    && new_[..|old_|] == old_
    && s.file <= r.file
    && forall i :: 0 <= i < |es| ==> Appended(k, new_, |old_| + i, es[i])
  }

  /** Record i carries its entry, its line number and the first duplicate. */
  ghost predicate Appended(k: Codec, records: seq<Trial>, i: nat, e: Entry)
    requires i < |records|
  {
    && records[i].id == i + 1
    && records[i].configHash == k.sha(e.config) && records[i].payload == e.payload
    && FirstDuplicate(records, i)
  }

  lemma AppendedFrame(k: Codec, a: seq<Trial>, b: seq<Trial>, i: nat, e: Entry)
    requires i < |a| && Appended(k, a, i, e)
    ensures Appended(k, a + b, i, e)
  {
    assert forall j :: 0 <= j <= i ==> (a + b)[j] == a[j];
  }

  lemma GrownStep(k: Codec, s: State, m: State, es: seq<Entry>, e: Entry)
    requires Sound(k) && (Cold(k, m) || Synced(k, m)) && Grown(k, s, m, es) && k.fits(e.payload)
    ensures Grown(k, s, RecordTrial(k, m, e).0, es + [e])
  {
    hide Synced, Cold, Walk, Appended, RecordTrial;
    AppendSyncs(k, m, e);
    WalkedIds(k, m.file);
    var r := RecordTrial(k, m, e).0;
    var links := Walk(k, m.file).value;
    var mid, now := Records(links), Records(Walk(k, r.file).value);
    var t := NextOf(k, links, e);
    assert now == mid + [t];
    NewRecordAppended(links, k, e);
    forall i | 0 <= i < |es + [e]|
      ensures Appended(k, now, |Records(Walk(k, s.file).value)| + i, (es + [e])[i])
    {
      if i < |es| {
        AppendedFrame(k, mid, [t], |Records(Walk(k, s.file).value)| + i, es[i]);
      }
    }
  }

  lemma NewRecordAppended(links: seq<Link>, k: Codec, e: Entry)
    requires forall i :: 0 <= i < |links| ==> links[i].record.id == i + 1
    ensures Appended(k, Records(links) + [NextOf(k, links, e)], |links|, e)
  {
    hide DupMap;
    DupMapIsFirst(links, k.sha(e.config));
    var all := Records(links) + [NextOf(k, links, e)];
    assert forall j :: 0 <= j < |links| ==> all[j] == links[j].record;
  }

  /** The entries the schema accepts, in order. */
  function Fitting(k: Codec, es: seq<Entry>): seq<Entry> {
    if es == [] then []
    else
      var n := |es| - 1;
      if k.fits(es[n].payload) then Fitting(k, es[..n]) + [es[n]] else Fitting(k, es[..n])
  }

  /** The sidecar describes the file to the last field. A completed read also accepts a
      missing sidecar beside an empty file, and any tail offset. */
  ghost predicate Described(k: Codec, s: State) {
    Walk(k, s.file).Some? && s.side == Held(CacheOf(Walk(k, s.file).value))
  }

  /** An entry the schema refuses touches nothing on disk, but warms a cold writer. */
  lemma RefusedEntry(k: Codec, s: State, e: Entry)
    requires Sound(k) && (Cold(k, s) || Synced(k, s)) && !k.fits(e.payload)
    ensures Walk(k, s.file).Some?
    ensures var links := Walk(k, s.file).value;
            RecordTrial(k, s, e) == (s.(writer := Some((WriterOf(links), DupMap(links)))), Invalid)
    ensures Described(k, s) <==> Synced(k, RecordTrial(k, s, e).0)
    ensures Synced(k, s) ==> RecordTrial(k, s, e).0 == s
  {
    hide WalkFrom, MeetsSchema, DupMap, Read;
    PreflightIs(k, s);
    NextMeetsSchema(k, s.file, e);
  }

  /** The incremental writer refines recomputation: from any registry that passes a
      completed read, any sequence of appends records exactly the entries that meet the
      schema, keeps every earlier record, numbers the new ones by their lines, points
      duplicate_of at the first record with the same hash, and keeps writer, duplicate
      map and sidecar equal to a full recomputation. The one exception is a first entry
      that the schema refuses while the sidecar does not describe the file. */
  lemma {:induction false} WriterRefinesWalk(k: Codec, s: State, es: seq<Entry>)
    requires Sound(k) && Cold(k, s)
    requires es != [] ==> Described(k, s) || k.fits(es[0].payload)
    ensures var r := RecordAll(k, s, es);
            && Grown(k, s, r, Fitting(k, es))
            && (es == [] ==> r == s)
            && (es != [] ==> Synced(k, r))
  {
    hide Synced, Cold, Grown, RecordTrial, Described;
    if es == [] {
      NothingGrown(k, s);
    } else {
      var n := |es| - 1;
      WriterRefinesWalk(k, s, es[..n]);
      var m := RecordAll(k, s, es[..n]);
      if k.fits(es[n].payload) {
        AppendSyncs(k, m, es[n]);
        GrownStep(k, s, m, Fitting(k, es[..n]), es[n]);
      } else {
        RefusedEntry(k, m, es[n]);
        GrownFrame(k, s, m, RecordTrial(k, m, es[n]).0, Fitting(k, es[..n]));
      }
    }
  }

  lemma GrownFrame(k: Codec, s: State, m: State, r: State, es: seq<Entry>)
    requires Grown(k, s, m, es) && r.file == m.file
    ensures Grown(k, s, r, es)
  {
  }

  /** In that case the writer is stuck: the refused entry leaves a warm writer beside a
      sidecar it does not agree with, and every later append is refused as tampering. */
  lemma {:induction false} RefusedFirstEntrySticks(k: Codec, s: State, es: seq<Entry>)
    requires Sound(k) && Cold(k, s) && !Described(k, s)
    requires es != [] && !k.fits(es[0].payload)
    ensures Walk(k, s.file).Some?
    ensures var links := Walk(k, s.file).value;
            RecordAll(k, s, es) == s.(writer := Some((WriterOf(links), DupMap(links))))
    ensures forall e :: RecordTrial(k, RecordAll(k, s, es), e).1 == Tampered
  {
    hide WalkFrom, MeetsSchema, DupMap, Read;
    if |es| == 1 {
      assert RecordAll(k, s, es[..0]) == s;
      RefusedEntry(k, s, es[0]);
    } else {
      RefusedFirstEntrySticks(k, s, es[..|es| - 1]);
    }
  }

  /** So every entry that meets the schema is recorded exactly when there is none, or
      the sidecar describes the file, or the first entry meets the schema. */
  lemma RecordsAllFittingIff(k: Codec, s: State, es: seq<Entry>)
    requires Sound(k) && Cold(k, s)
    ensures Grown(k, s, RecordAll(k, s, es), Fitting(k, es))
            <==> Fitting(k, es) == [] || Described(k, s) || k.fits(es[0].payload)
  {
    hide RecordAll, Described, Cold, WalkFrom, Fitting, Appended;
    if es == [] || Described(k, s) || k.fits(es[0].payload) {
      WriterRefinesWalk(k, s, es);
      NoneFit(k);
    } else {
      RefusedFirstEntrySticks(k, s, es);
      NothingGrown(k, s);
    }
  }

  lemma NoneFit(k: Codec)
    ensures Fitting(k, []) == []
  {
  }

  /** A fresh registry is such a case: one refused first entry, and no entry is ever
      recorded by that writer. */
  lemma FreshRegistrySticks(k: Codec, refused: Entry, e: Entry)
    requires Sound(k) && !k.fits(refused.payload)
    ensures var s := State([], Missing, None);
            Cold(k, s) && RecordTrial(k, RecordTrial(k, s, refused).0, e).1 == Tampered
  {
    var s := State([], Missing, None);
    EmptyWalk(k);
    assert [refused][..0] == [];
    assert RecordAll(k, s, [refused]) == RecordTrial(k, RecordAll(k, s, []), refused).0;
    RefusedFirstEntrySticks(k, s, [refused]);
  }

  lemma NothingGrown(k: Codec, s: State)
    requires Cold(k, s)
    ensures Grown(k, s, s, [])
  {
    PreflightIs(k, s);
  }

  /** A synced registry always passes a completed read, which sees every record. */
  lemma SyncedReads(k: Codec, s: State)
    requires Synced(k, s)
    ensures Read(k, s.file, s.side) == Walk(k, s.file)
  {
    hide WalkFrom, CountNewlines, Bodies;
    WalkCovers(k, s.file);
  }

  // ---- a foreign edit under a warm writer ----------------------------------

  /** The one edit a warm append cannot see is never forgotten: if the file on disk no
      longer verifies, an append that slips through leaves a file that every later
      read refuses. */
  lemma SlippedEditIsCaughtLater(k: Codec, committed: Bytes, disk: State, e: Entry)
    requires Walk(k, committed).Some?
    requires disk.writer == Some((WriterOf(Walk(k, committed).value), DupMap(Walk(k, committed).value)))
    requires Walk(k, disk.file).None?
    ensures var r := RecordTrial(k, disk, e).0;
            Read(k, r.file, r.side).None? && Walk(k, r.file).None?
  {
    hide WalkFrom, CountNewlines, DupMap;
    WalkCovers(k, committed);
    EmptyWalk(k);
    var (r, out) := RecordTrial(k, disk, e);
    if out.Recorded? {
      assert disk.file != [];
      var line := k.print_(out.trial) + [NEWLINE];
      assert disk.file + k.print_(out.trial) + [NEWLINE] == disk.file + line;
      BrokenStaysBroken(k, disk.file, line);
    }
  }

  /** Two different byte strings with one hash: the committed last line, and what now stands
      where it stood. */
  ghost predicate TailCollision(k: Codec, committed: Bytes, edited: Bytes, at: nat) {
    && Bodies(committed) != [] && at < |edited|
    && var last, now := Bodies(committed)[|Bodies(committed)| - 1], edited[at..|edited| - 1];
    && last != now && k.sha(last) == k.sha(now)
  }

  /** The committed last line is a proper end of the edited one. */
  ghost predicate Overlong(committed: Bytes, edited: Bytes) {
    && Bodies(committed) != [] && Bodies(edited) != []
    && var last, now := Bodies(committed)[|Bodies(committed)| - 1], Bodies(edited)[|Bodies(edited)| - 1];
    && |last| < |now| && now[|now| - |last|..] == last
  }

  /** What a passing warm preflight says of a file that does verify, whoever wrote it: it is
      the committed file, or a collision is at hand, or its last line is a longer one that
      ends in the committed one, for the preflight reads from the committed offset. */
  lemma WarmFileIsCommitted(k: Codec, committed: Bytes, disk: State)
    requires Walk(k, committed).Some? && Walk(k, disk.file).Some?
    requires WarmOk(k, disk.file, disk.side, WriterOf(Walk(k, committed).value))
    ensures || disk.file == committed
            || Collision(k, Bodies(committed), Bodies(disk.file))
            || TailCollision(k, committed, disk.file, WriterOf(Walk(k, committed).value).tailOffset)
            || Overlong(committed, disk.file)
  {
    hide Walk, WriterOf, WarmOk, Collision, Bodies, Join, TailCollision, Overlong;
    WarmFacts(k, committed, disk);
    if Bodies(committed) != [] {
      var at := WriterOf(Walk(k, committed).value).tailOffset;
      if TailCollision(k, committed, disk.file, at) {
      } else {
        SameTailBytes(k, committed, disk.file, at);
        TailStandsOrGrew(committed, disk.file, at);
        if !Overlong(committed, disk.file) {
          SameTailSameFile(k, committed, disk.file);
        }
      }
    }
  }

  lemma SameTailBytes(k: Codec, committed: Bytes, edited: Bytes, at: nat)
    requires Bodies(committed) != [] && at < |edited| && !TailCollision(k, committed, edited, at)
    requires k.sha(Bodies(committed)[|Bodies(committed)| - 1]) == k.sha(edited[at..|edited| - 1])
    ensures edited[at..|edited| - 1] == Bodies(committed)[|Bodies(committed)| - 1]
  {
    hide Bodies;
  }

  /** Where the committed last line still stands, it is the last line, or a proper end of it. */
  lemma TailStandsOrGrew(committed: Bytes, edited: Bytes, at: nat)
    requires Bodies(committed) != [] && Bodies(edited) != [] && edited == Join(Bodies(edited))
    requires at < |edited| && edited[at..] == edited[at..|edited| - 1] + [NEWLINE]
    requires NEWLINE !in Bodies(committed)[|Bodies(committed)| - 1]
    requires edited[at..|edited| - 1] == Bodies(committed)[|Bodies(committed)| - 1]
    ensures Overlong(committed, edited) || Bodies(edited)[|Bodies(edited)| - 1] == Bodies(committed)[|Bodies(committed)| - 1]
  {
    hide Bodies, Join;
    var last, now := Bodies(committed)[|Bodies(committed)| - 1], Bodies(edited)[|Bodies(edited)| - 1];
    assert |last| == |edited| - 1 - at;
    LastLineEnds(Bodies(edited), last);
    if |now| == |last| {
      assert now[0..] == now;
    }
  }

  /** What the warm preflight has seen of a file that verifies. */
  lemma WarmFacts(k: Codec, committed: Bytes, disk: State)
    requires Walk(k, committed).Some? && Walk(k, disk.file).Some?
    requires WarmOk(k, disk.file, disk.side, WriterOf(Walk(k, committed).value))
    ensures |Bodies(committed)| == |Bodies(disk.file)| && disk.file == Join(Bodies(disk.file))
    ensures Bodies(committed) == [] ==> disk.file == committed
    ensures Bodies(committed) != [] ==>
              var last, at := Bodies(committed)[|Bodies(committed)| - 1], WriterOf(Walk(k, committed).value).tailOffset;
              && NEWLINE !in last
              && at < |disk.file| && disk.file[at..] == disk.file[at..|disk.file| - 1] + [NEWLINE]
              && k.sha(last) == k.sha(disk.file[at..|disk.file| - 1])
  {
    hide Walk, CountNewlines, Bodies, Join, Chained, Links;
    WalkCovers(k, committed);
    WalkCovers(k, disk.file);
    WalkedLines(k, committed);
    WalkedLines(k, disk.file);
    var w := WriterOf(Walk(k, committed).value);
    if Bodies(committed) != [] {
      var at := w.tailOffset;
      var chunk := disk.file[at..];
      assert chunk[..|chunk| - 1] == disk.file[at..|disk.file| - 1];
    }
  }

  lemma SameTailSameFile(k: Codec, f: Bytes, g: Bytes)
    requires Walk(k, f).Some? && Walk(k, g).Some?
    requires |Bodies(f)| == |Bodies(g)| > 0
    requires k.sha(Bodies(f)[|Bodies(f)| - 1]) == k.sha(Bodies(g)[|Bodies(g)| - 1])
    ensures f == g || Collision(k, Bodies(f), Bodies(g))
  {
    WalkedLines(k, f);
    WalkedLines(k, g);
    hide Walk, Bodies, Collision, Join, Chained, Links;
    TailDeterminesChain(k, Bodies(f), Bodies(g));
  }

  /** A newline-free end of a file is an end of its last line. */
  lemma LastLineEnds(bodies: seq<Bytes>, tail: Bytes)
    requires bodies != [] && NEWLINE !in tail
    requires |tail| < |Join(bodies)| && Join(bodies)[|Join(bodies)| - |tail| - 1..] == tail + [NEWLINE]
    ensures var last := bodies[|bodies| - 1];
            |tail| <= |last| && last[|last| - |tail|..] == tail
  {
    var n := |bodies| - 1;
    var last, file := bodies[n], Join(bodies);
    assert bodies == bodies[..n] + [last];
    JoinAppends(bodies[..n], [last]);
    assert Join([last]) == last + [NEWLINE];
    var before := Join(bodies[..n]);
    JoinEnds(bodies[..n]);
    hide Join;
    assert file == before + (last + [NEWLINE]);
    if |tail| > |last| {
      NewlineInside(before, last, tail);
    }
    SameEnd(before, last, tail);
  }

  /** An end that reaches back over a line break has a newline inside. */
  lemma NewlineInside(before: Bytes, last: Bytes, tail: Bytes)
    requires before != [] && before[|before| - 1] == NEWLINE
    requires |last| < |tail| <= |before| + |last|
    requires (before + (last + [NEWLINE]))[|before| + |last| - |tail|..] == tail + [NEWLINE]
    ensures NEWLINE in tail
  {
    var i := |tail| - |last| - 1;
    assert (tail + [NEWLINE])[i] == (before + (last + [NEWLINE]))[|before| + |last| - |tail| + i] == before[|before| - 1];
    assert tail[i] == NEWLINE;
  }

  lemma SameEnd(before: Bytes, last: Bytes, tail: Bytes)
    requires |tail| <= |last|
    requires (before + (last + [NEWLINE]))[|before| + |last| - |tail|..] == tail + [NEWLINE]
    ensures last[|last| - |tail|..] == tail
  {
    assert (before + (last + [NEWLINE]))[|before| + |last| - |tail|..] == (last + [NEWLINE])[|last| - |tail|..];
    assert (tail + [NEWLINE])[..|tail|] == tail;
    assert (last + [NEWLINE])[|last| - |tail|..][..|tail|] == last[|last| - |tail|..];
  }

  lemma JoinEnds(bodies: seq<Bytes>)
    ensures bodies != [] ==> Join(bodies) != [] && Join(bodies)[|Join(bodies)| - 1] == NEWLINE
    ensures bodies == [] ==> Join(bodies) == []
  {
    if bodies != [] {
      var n := |bodies| - 1;
      assert bodies == bodies[..n] + [bodies[n]];
      JoinAppends(bodies[..n], [bodies[n]]);
      assert Join([bodies[n]]) == bodies[n] + [NEWLINE];
    }
  }

  /** So whatever was done to the file under a warm writer, an append that goes through
      either stands on the committed file, or shows a collision, or leaves a file that every
      later read refuses. */
  lemma WarmAppendTells(k: Codec, committed: Bytes, disk: State, e: Entry)
    requires Sound(k) && Walk(k, committed).Some?
    requires disk.writer == Some((WriterOf(Walk(k, committed).value), DupMap(Walk(k, committed).value)))
    requires RecordTrial(k, disk, e).1.Recorded?
    ensures var r := RecordTrial(k, disk, e).0;
            || disk.file == committed
            || Collision(k, Bodies(committed), Bodies(disk.file))
            || (Walk(k, r.file).None? && Read(k, r.file, r.side).None?)
  {
    hide WalkFrom, CountNewlines, DupMap, Bodies, Collision, Join, TailOk, MeetsSchema;
    var (r, out) := RecordTrial(k, disk, e);
    if Walk(k, r.file).Some? {
      WarmFileEnds(k, committed, disk);
      assert PrintsBack(k, out.trial);
      var body := k.print_(out.trial);
      assert disk.file + body + [NEWLINE] == disk.file + (body + [NEWLINE]);
      WalkPrefix(k, disk.file, body + [NEWLINE]);
      WalkCovers(k, committed);
      WalkCovers(k, disk.file);
      AppendedLink(k, disk.file, body);
      if Walk(k, committed).value != [] {
        SameTailSameFile(k, committed, disk.file);
      }
    }
  }

  lemma WarmFileEnds(k: Codec, committed: Bytes, disk: State)
    requires Walk(k, committed).Some? && WarmOk(k, disk.file, disk.side, WriterOf(Walk(k, committed).value))
    ensures Terminated(disk.file)
    ensures CountNewlines(disk.file) == |Walk(k, committed).value| && |disk.file| == |committed|
  {
    hide Walk, CountNewlines, Bodies;
    WalkCovers(k, committed);
  }

  /** What the last line of a verified file says of the lines before it. */
  lemma AppendedLink(k: Codec, file: Bytes, body: Bytes)
    requires Walk(k, file).Some? && NEWLINE !in body && Walk(k, file + body + [NEWLINE]).Some?
    ensures k.parse(body).Some? && Continues(k, Walk(k, file).value, k.parse(body).value)
  {
    hide WalkFrom, Chained, Links, Terminated, NewlineFree, Bodies, Join;
    var bodies, longer := Bodies(file), file + body + [NEWLINE];
    WalkedLines(k, file);
    BodiesOfLonger(file, body);
    WalkFromIff(k, longer, k.genesis, 0, 0);
    LastChained(k, bodies, body, Walk(k, file).value);
  }

  lemma LastChained(k: Codec, bodies: seq<Bytes>, body: Bytes, links: seq<Link>)
    requires Chained(k, k.genesis, 0, bodies + [body]) && Links(k, 0, 0, bodies, links)
    ensures k.parse(body).Some? && Continues(k, links, k.parse(body).value)
  {
    var n := |bodies|;
    assert ChainedAt(k, k.genesis, 0, bodies + [body], n);
    if n > 0 {
      assert links[n - 1] == LinkAt(k, 0, 0, bodies, n - 1);
      assert (bodies + [body])[n - 1] == bodies[n - 1];
    }
  }

  // ---- a file without its final newline ------------------------------------

  /** The lines of a file that are terminated. */
  function TerminatedPart(file: Bytes): (n: nat)
    ensures n <= |file| && Terminated(file[..n]) && NEWLINE !in file[n..]
  {
    if Terminated(file) then |file|
    else
      var n := TerminatedPart(file[..|file| - 1]);
      assert file[..|file| - 1][..n] == file[..n];
      assert file[n..] == file[..|file| - 1][n..] + [file[|file| - 1]];
      n
  }

  /** A file without its final newline never verifies, and writing the newline repairs it
      exactly when its terminated lines verify and the rest is the record that continues
      them. */
  lemma RepairedByNewlineIff(k: Codec, file: Bytes)
    requires !Terminated(file)
    ensures Walk(k, file).None?
    ensures var n := TerminatedPart(file);
            Walk(k, file + [NEWLINE]).Some? <==>
            && Walk(k, file[..n]).Some?
            && k.parse(file[n..]).Some?
            && Continues(k, Walk(k, file[..n]).value, k.parse(file[n..]).value)
  {
    hide WalkFrom, Chained, Bodies, TerminatedPart;
    WalkFromIff(k, file, k.genesis, 0, 0);
    var n := TerminatedPart(file);
    var part, tail := file[..n], file[n..];
    assert file + [NEWLINE] == part + tail + [NEWLINE] == part + (tail + [NEWLINE]);
    if Walk(k, file + [NEWLINE]).Some? {
      WalkPrefix(k, part, tail + [NEWLINE]);
      AppendedLink(k, part, tail);
    } else if Walk(k, part).Some? && k.parse(tail).Some? && Continues(k, Walk(k, part).value, k.parse(tail).value) {
      WalkAppend(k, part, tail, k.parse(tail).value);
    }
  }

  // ---- rebuild and migration -----------------------------------------------

  /** rebuild_index adopts a file exactly when its chain verifies, leaves the file
      alone, and what it adopts then passes a completed read. */
  lemma RebuildCannotLaunder(k: Codec, s: State)
    ensures var (r, out) := Rebuild(k, s);
            && (out.Some? <==> Walk(k, s.file).Some?)
            && (out.None? ==> r == s)
            && (out.Some? ==> r.file == s.file && Cold(k, r) && Read(k, r.file, r.side) == Walk(k, s.file)
                              && out.value == |Walk(k, s.file).value|)
  {
    hide WalkFrom, CountNewlines, Bodies;
    if Walk(k, s.file).Some? {
      WalkCovers(k, s.file);
    }
  }

  /** The walked records are the legacy ones but for their links. */
  ghost predicate Relinked(k: Codec, bodies: seq<Bytes>, links: seq<Link>) {
    && |links| == |bodies|
    && forall i :: 0 <= i < |bodies| ==> RelinkedAt(k, bodies[i], links[i].record)
  }

  ghost predicate RelinkedAt(k: Codec, legacy: Bytes, t: Trial) {
    k.legacy(legacy).Plain? && t == k.legacy(legacy).trial.(prevSha := t.prevSha)
  }

  lemma {:induction false} RechainedWalks(k: Codec, file: Bytes, prev: Digest, lineno: nat, offset: nat)
    requires Sound(k) && Rechained(k, file, prev, lineno).Some?
    ensures var w := WalkFrom(k, Rechained(k, file, prev, lineno).value, prev, lineno, offset);
            w.Some? && Relinked(k, Bodies(file), w.value)
    decreases |file|
  {
    if file != [] {
      hide RechainLine, LineEnd, Relinked, WalkFrom, Bodies, CheckLine;
      var n := LineEnd(file);
      var t := RechainLine(k, file[..n], prev, lineno).value;
      var body := k.print_(t);
      RechainedLine(k, file, prev, lineno, offset);
      RechainedWalks(k, file[n..], k.sha(body), lineno + 1, offset + |body| + 1);
      var rest := Rechained(k, file[n..], k.sha(body), lineno + 1).value;
      assert PrintsBack(k, t);
      WalkOnTop(k, body, rest, prev, lineno, offset);
      BodiesStep(file);
      RelinkedOnTop(k, Bodies(file), CheckLine(k, body + [NEWLINE], prev, lineno, offset).value,
                    WalkFrom(k, rest, k.sha(body), lineno + 1, offset + |body| + 1).value);
    } else {
      assert Rechained(k, file, prev, lineno).value == [];
    }
  }

  lemma WalkOnTop(k: Codec, body: Bytes, rest: Bytes, prev: Digest, lineno: nat, offset: nat)
    requires NEWLINE !in body
    requires CheckLine(k, body + [NEWLINE], prev, lineno, offset).Some?
    requires CheckLine(k, body + [NEWLINE], prev, lineno, offset).value.sha == k.sha(body)
    requires WalkFrom(k, rest, k.sha(body), lineno + 1, offset + |body| + 1).Some?
    ensures WalkFrom(k, body + [NEWLINE] + rest, prev, lineno, offset) ==
            Some([CheckLine(k, body + [NEWLINE], prev, lineno, offset).value]
                 + WalkFrom(k, rest, k.sha(body), lineno + 1, offset + |body| + 1).value)
  {
    hide CheckLine, LineEnd;
    var out := body + [NEWLINE] + rest;
    LineEndIs(body, rest);
    assert out[..|body| + 1] == body + [NEWLINE] && out[|body| + 1..] == rest;
  }

  lemma RelinkedOnTop(k: Codec, bodies: seq<Bytes>, link: Link, links: seq<Link>)
    requires bodies != [] && RelinkedAt(k, bodies[0], link.record) && Relinked(k, bodies[1..], links)
    ensures Relinked(k, bodies, [link] + links)
  {
    hide RelinkedAt;
    forall i | 0 <= i < |bodies|
      ensures RelinkedAt(k, bodies[i], ([link] + links)[i].record)
    {
      if i > 0 {
        assert bodies[i] == bodies[1..][i - 1];
      }
    }
  }

  /** A rechained line passes the walk's per-line check. */
  lemma RechainedLine(k: Codec, file: Bytes, prev: Digest, lineno: nat, offset: nat)
    requires Sound(k) && file != [] && RechainLine(k, file[..LineEnd(file)], prev, lineno).Some?
    ensures var n := LineEnd(file);
            var t := RechainLine(k, file[..n], prev, lineno).value;
            var body := k.print_(t);
            && CheckLine(k, body + [NEWLINE], prev, lineno, offset)
               == Some(Link(lineno + 1, offset, |body| + 1, k.sha(body), t))
            && k.legacy(file[..n - 1]).Plain?
            && t == k.legacy(file[..n - 1]).trial.(prevSha := prev)
  {
    hide LineEnd;
    var n := LineEnd(file);
    var t := RechainLine(k, file[..n], prev, lineno).value;
    assert PrintsBack(k, t);
    var body := k.print_(t);
    assert (body + [NEWLINE])[..|body|] == body;
    assert file[..n][..n - 1] == file[..n - 1];
  }

  /** A legacy line that a migration can adopt: an unchained object that meets the
      schema once linked, numbered by its line. */
  ghost predicate Adoptable(k: Codec, body: Bytes, lineno: nat) {
    match k.legacy(body)
    case Plain(t) => t.id == lineno && MeetsSchema(k, t.(prevSha := k.genesis))
    case _ => false
  }

  ghost predicate AllAdoptable(k: Codec, bodies: seq<Bytes>, lineno: nat) {
    forall i :: 0 <= i < |bodies| ==> Adoptable(k, bodies[i], lineno + i + 1)
  }

  lemma AdoptableOnTop(k: Codec, bodies: seq<Bytes>, lineno: nat)
    requires bodies != []
    ensures AllAdoptable(k, bodies, lineno) <==>
            Adoptable(k, bodies[0], lineno + 1) && AllAdoptable(k, bodies[1..], lineno + 1)
  {
    hide Adoptable;
    var rest := bodies[1..];
    forall i | 0 < i < |bodies|
      ensures Adoptable(k, bodies[i], lineno + i + 1) <==> Adoptable(k, rest[i - 1], lineno + 1 + (i - 1) + 1)
    {
      assert bodies[i] == rest[i - 1];
    }
    if AllAdoptable(k, bodies, lineno) {
      forall j | 0 <= j < |rest|
        ensures Adoptable(k, rest[j], lineno + 1 + j + 1)
      {
        assert Adoptable(k, bodies[j + 1], lineno + (j + 1) + 1);
      }
    }
  }

  lemma RechainsLineIff(k: Codec, raw: Bytes, prev: Digest, lineno: nat)
    requires Sound(k) && IsDigest(prev) && raw != []
    ensures RechainLine(k, raw, prev, lineno).Some?
            <==> raw[|raw| - 1] == NEWLINE && Adoptable(k, raw[..|raw| - 1], lineno + 1)
  {
    hide IsDigest;
  }

  /** One line of the rewrite. */
  lemma RechainedStep(k: Codec, file: Bytes, prev: Digest, lineno: nat)
    ensures Rechained(k, [], prev, lineno) == Some([])
    ensures file != [] ==>
              var n := LineEnd(file);
              match RechainLine(k, file[..n], prev, lineno)
              case None => Rechained(k, file, prev, lineno) == None
              case Some(t) =>
                var rest := Rechained(k, file[n..], k.sha(k.print_(t)), lineno + 1);
                Rechained(k, file, prev, lineno) ==
                if rest.None? then None else Some(k.print_(t) + [NEWLINE] + rest.value)
  {
    hide RechainLine, LineEnd;
  }

  lemma TerminatedByLine(file: Bytes)
    requires file != []
    ensures var n := LineEnd(file);
            Terminated(file) <==> file[n - 1] == NEWLINE && Terminated(file[n..])
  {
    hide LineEnd;
    if file[LineEnd(file) - 1] == NEWLINE {
      TerminatedTail(file, LineEnd(file));
    }
  }

  lemma SoundHash(k: Codec, body: Bytes)
    requires Sound(k)
    ensures IsDigest(k.sha(body))
  {
    hide IsDigest, PrintsBack, MeetsSchema;
  }

  /** Rechaining goes through exactly on a terminated file of adoptable lines. */
  lemma {:induction false} RechainedIff(k: Codec, file: Bytes, prev: Digest, lineno: nat)
    requires Sound(k) && IsDigest(prev)
    ensures Rechained(k, file, prev, lineno).Some? <==> Terminated(file) && AllAdoptable(k, Bodies(file), lineno)
    decreases |file|
  {
    RechainedStep(k, file, prev, lineno);
    if file == [] {
      NoBodies();
    } else {
      hide RechainLine, LineEnd, Adoptable, AllAdoptable, IsDigest, Bodies, Rechained, Terminated, Sound;
      var n := LineEnd(file);
      BodiesStep(file);
      TerminatedByLine(file);
      RechainsLineIff(k, file[..n], prev, lineno);
      AdoptableOnTop(k, Bodies(file), lineno);
      assert file[..n][..n - 1] == file[..n - 1];
      if RechainLine(k, file[..n], prev, lineno).Some? {
        var body := k.print_(RechainLine(k, file[..n], prev, lineno).value);
        SoundHash(k, body);
        RechainedIff(k, file[n..], k.sha(body), lineno + 1);
      }
    }
  }

  /** migrate_legacy succeeds exactly on a non-empty, newline-terminated file whose every
      line is an unchained object that meets the schema and is numbered by its line. Then
      the file verifies, keeps every record but for its new link, and reads; otherwise
      nothing changes. */
  lemma MigrationKeepsRecords(k: Codec, s: State)
    requires Sound(k)
    ensures var (r, out) := Migrate(k, s);
            && (out.Some? <==> s.file != [] && Terminated(s.file) && AllAdoptable(k, Bodies(s.file), 0))
            && (out.None? ==> r == s)
            && (out.Some? ==>
                  && Cold(k, r) && Walk(k, r.file).Some?
                  && out.value == |Walk(k, r.file).value|
                  && Relinked(k, Bodies(s.file), Walk(k, r.file).value))
  {
    hide WalkFrom, Rechained, Bodies, Cold, LineEnd, Relinked, AllAdoptable, Terminated, IsDigest;
    RechainedIff(k, s.file, k.genesis, 0);
    if s.file != [] && Rechained(k, s.file, k.genesis, 0).Some? {
      RechainedWalks(k, s.file, k.genesis, 0, 0);
      RebuildCannotLaunder(k, s.(file := Rechained(k, s.file, k.genesis, 0).value));
    }
  }
}
