// TrialRegistry (src/edge/research/registry.py): the class that reads, appends to and
// rebuilds the files on disk. Each method is proved to compute the function of
// RegistryModel.dfy that it stands for.
module Registry {
  import opened Common
  import opened RegistryModel
  import opened RegistryWriter
  import Welford

  /** The trials file and its sidecar; an absent file is an empty one. Other programs
      may change either between calls. */
  class Disk {
    var file: Bytes
    var side: Sidecar

    constructor ()
      ensures file == [] && side == Missing
    {
      file, side := [], Missing;
    }
  }

  class TrialRegistry {
    const codec: Codec
    const disk: Disk
    var writer: Option<Writer>
    var dupMap: Option<map<Digest, nat>>

    constructor (codec: Codec, disk: Disk)
      ensures this.codec == codec && this.disk == disk && View().writer == None
      ensures View().file == disk.file && View().side == disk.side
    {
      this.codec, this.disk := codec, disk;
      writer, dupMap := None, None;
    }

    ghost function View(): State
      reads this, disk
    {
      State(disk.file, disk.side,
            if writer.Some? && dupMap.Some? then Some((writer.value, dupMap.value)) else None)
    }

    // ---- reading -------------------------------------------------------------

    /** Length of the line that starts at offset. */
    method LineLength(offset: nat) returns (n: nat)
      requires offset < |disk.file|
      ensures n == LineEnd(disk.file[offset..])
      ensures offset + n <= |disk.file|
    {
      n := 1;
      ghost var rest := disk.file[offset..];
      while disk.file[offset + n - 1] != NEWLINE && offset + n < |disk.file|
        invariant 1 <= n && offset + n <= |disk.file|
        invariant LineEnd(rest) == n - 1 + LineEnd(rest[n - 1..])
        decreases |disk.file| - n
      {
        assert rest[n - 1..][1..] == rest[n..];
        n := n + 1;
      }
    }

    /** The streaming walk: chain and id law per line, without the sidecar. */
    method WalkChain() returns (links: Option<seq<Link>>)
      ensures links == Walk(codec, disk.file)
    {
      hide LineEnd, CheckLine, Onto, WalkFrom;
      var prev, lineno, offset := codec.genesis, 0, 0;
      var walked: seq<Link> := [];
      assert disk.file[0..] == disk.file;
      OntoEnds(walked, Walk(codec, disk.file));
      while offset < |disk.file|
        invariant offset <= |disk.file|
        invariant Walk(codec, disk.file) ==
                  Onto(walked, WalkFrom(codec, disk.file[offset..], prev, lineno, offset))
        decreases |disk.file| - offset
      {
        var n := LineLength(offset);
        var raw := disk.file[offset..offset + n];
        assert raw == disk.file[offset..][..n];
        assert disk.file[offset..][n..] == disk.file[offset + n..];
        OntoEnds(walked, None);
        WalkStep(codec, disk.file[offset..], prev, lineno, offset);
        match CheckLine(codec, raw, prev, lineno, offset) {
          case None =>
            return None;
          case Some(link) =>
            OntoStep(walked, link, WalkFrom(codec, disk.file[offset + n..], link.sha, lineno + 1, offset + n));
            walked := walked + [link];
            prev, lineno, offset := link.sha, lineno + 1, offset + n;
        }
      }
      OntoEnds(walked, None);
      assert disk.file[offset..] == [];
      WalkStep(codec, [], prev, lineno, offset);
      return Some(walked);
    }

    static lemma WalkStep(k: Codec, file: Bytes, prev: Digest, lineno: nat, offset: nat)
      ensures WalkFrom(k, [], prev, lineno, offset) == Some([])
      ensures file != [] ==>
                var n := LineEnd(file);
                match CheckLine(k, file[..n], prev, lineno, offset)
                case None => WalkFrom(k, file, prev, lineno, offset) == None
                case Some(link) =>
                  var rest := WalkFrom(k, file[n..], link.sha, lineno + 1, offset + n);
                  WalkFrom(k, file, prev, lineno, offset) ==
                  if rest.None? then None else Some([link] + rest.value)
    {
      hide CheckLine, LineEnd;
    }

    static ghost function Onto(walked: seq<Link>, rest: Option<seq<Link>>): Option<seq<Link>> {
      if rest.None? then None else Some(walked + rest.value)
    }

    static lemma OntoEnds(walked: seq<Link>, rest: Option<seq<Link>>)
      ensures Onto([], rest) == rest && Onto(walked, Some([])) == Some(walked) && Onto(walked, None) == None
    {
      assert walked + [] == walked;
      if rest.Some? {
        assert [] + rest.value == rest.value;
      }
    }

    static lemma OntoStep(walked: seq<Link>, link: Link, rest: Option<seq<Link>>)
      ensures rest.Some? ==> Onto(walked, Some([link] + rest.value)) == Onto(walked + [link], rest)
      ensures rest.None? ==> Onto(walked, None) == Onto(walked + [link], rest)
    {
      if rest.Some? {
        assert walked + ([link] + rest.value) == (walked + [link]) + rest.value;
      }
    }

    /** A completed read of the registry. */
    method VerifiedLinks() returns (links: Option<seq<Link>>)
      ensures links == Read(codec, disk.file, disk.side)
    {
      hide Walk;
      match disk.side {
        case Unreadable =>
          return None;
        case Missing =>
          if |disk.file| > 0 {
            return None;
          }
          return Some([]);
        case Held(cache) =>
          if |disk.file| != cache.byteSize {
            return None;
          }
          links := WalkChain();
          if links.Some? && (|links.value| != cache.lineCount || TailSha(links.value) != cache.tailSha) {
            return None;
          }
      }
    }

    method CumulativeTrialCount() returns (count: Option<nat>)
      ensures count == match Read(codec, disk.file, disk.side)
                       case None => None
                       case Some(links) => Some(|links|)
    {
      var links := VerifiedLinks();
      return if links.None? then None else Some(|links.value|);
    }

    /** Two-pass sample variance of the numeric Sharpes of a verified registry. */
    method VarOfTrialSharpes() returns (v: Option<real>)
      ensures v == match Read(codec, disk.file, disk.side)
                   case None => None
                   case Some(links) => Some(Welford.SampleVariance(Welford.Numeric(Sharpes(codec, links))))
    {
      hide Welford.SampleVariance, Welford.Numeric;
      var links := VerifiedLinks();
      match links {
        case None =>
          return None;
        case Some(verified) =>
          var variance := Welford.Variance(Sharpes(codec, verified));
          return Some(variance);
      }
    }

    // ---- the writer ----------------------------------------------------------

    method FullVerifyForWrite() returns (r: Option<(Writer, map<Digest, nat>)>)
      ensures r == match Read(codec, disk.file, disk.side)
                   case None => None
                   case Some(links) => Some((WriterOf(links), DupMap(links)))
    {
      hide Read;
      var read := VerifiedLinks();
      if read.None? {
        return None;
      }
      var links := read.value;
      var dups := map[];
      for i := 0 to |links|
        invariant dups == DupMap(links[..i])
      {
        assert links[..i + 1][..i] == links[..i];
        dups := SetDefault(dups, links[i].record.configHash, links[i].record.id);
      }
      assert links[..|links|] == links;
      return Some((WriterOf(links), dups));
    }

    method CountNewlines() returns (count: nat)
      ensures count == RegistryModel.CountNewlines(disk.file)
    {
      count := 0;
      for i := 0 to |disk.file|
        invariant count == RegistryModel.CountNewlines(disk.file[..i])
      {
        assert disk.file[..i + 1][..i] == disk.file[..i];
        if disk.file[i] == NEWLINE {
          count := count + 1;
        }
      }
      assert disk.file[..|disk.file|] == disk.file;
    }

    method VerifyWarm(w: Writer) returns (ok: bool)
      ensures ok == WarmOk(codec, disk.file, disk.side, w)
    {
      if disk.side != Held(Cache(w.lineCount, w.byteSize, w.tailSha, w.tailOffset)) {
        return false;
      }
      if |disk.file| != w.byteSize {
        return false;
      }
      var newlines := CountNewlines();
      if newlines != w.lineCount {
        return false;
      }
      if w.lineCount == 0 {
        return true;
      }
      var chunk := if w.tailOffset <= |disk.file| then disk.file[w.tailOffset..] else [];
      return TailOk(codec, chunk, w);
    }

    /** Append one chained trial, or refuse. */
    method RecordTrial(e: Entry) returns (out: Outcome)
      modifies this, disk
      ensures (View(), out) == RegistryModel.RecordTrial(codec, old(View()), e)
    {
      hide WarmOk, Read, DupMap, MeetsSchema;
      if writer.None? || dupMap.None? {
        var verified := FullVerifyForWrite();
        if verified.None? {
          return Tampered;
        }
        writer, dupMap := Some(verified.value.0), Some(verified.value.1);
      } else {
        var ok := VerifyWarm(writer.value);
        if !ok {
          return Tampered;
        }
      }
      var w, dups := writer.value, dupMap.value;
      var t := NextTrial(codec, w, dups, e);
      if !MeetsSchema(codec, t) {
        return Invalid;
      }
      var body := codec.print_(t);
      disk.file := disk.file + body + [NEWLINE];
      var w' := Writer(w.lineCount + 1, w.byteSize + |body| + 1, Some(codec.sha(body)), w.byteSize, Some(t.prevSha));
      disk.side := Held(Cache(w'.lineCount, w'.byteSize, w'.tailSha, w'.tailOffset));
      writer := Some(w');
      dupMap := Some(SetDefault(dups, t.configHash, t.id));
      return Recorded(t);
    }

    method RebuildIndex() returns (count: Option<nat>)
      modifies this, disk
      ensures (View(), count) == Rebuild(codec, old(View()))
    {
      hide Walk;
      var links := WalkChain();
      if links.None? {
        return None;
      }
      disk.side := Held(CacheOf(links.value));
      writer, dupMap := None, None;
      return Some(|links.value|);
    }

    /** The chained bytes of a legacy file, line by line. */
    method Rechain() returns (out: Option<Bytes>)
      ensures out == Rechained(codec, disk.file, codec.genesis, 0)
    {
      hide LineEnd, RechainLine, Behind, Rechained;
      var prev, lineno, offset := codec.genesis, 0, 0;
      var written: Bytes := [];
      assert disk.file[0..] == disk.file;
      BehindEnds(written, Rechained(codec, disk.file, prev, 0));
      while offset < |disk.file|
        invariant offset <= |disk.file|
        invariant Rechained(codec, disk.file, codec.genesis, 0) ==
                  Behind(written, Rechained(codec, disk.file[offset..], prev, lineno))
        decreases |disk.file| - offset
      {
        var n := LineLength(offset);
        var raw := disk.file[offset..offset + n];
        assert raw == disk.file[offset..][..n];
        assert disk.file[offset..][n..] == disk.file[offset + n..];
        RechainedStep(codec, disk.file[offset..], prev, lineno);
        match RechainLine(codec, raw, prev, lineno) {
          case None =>
            BehindEnds(written, None);
            return None;
          case Some(t) =>
            var body := codec.print_(t);
            BehindStep(written, body + [NEWLINE], Rechained(codec, disk.file[offset + n..], codec.sha(body), lineno + 1));
            written := written + (body + [NEWLINE]);
            prev, lineno, offset := codec.sha(body), lineno + 1, offset + n;
        }
      }
      BehindEnds(written, None);
      assert disk.file[offset..] == [];
      RechainedStep(codec, [], prev, lineno);
      return Some(written);
    }

    /** Rewrite a legacy chainless file with its chain; None raises. */
    method MigrateLegacy() returns (count: Option<nat>)
      modifies this, disk
      ensures (View(), count) == Migrate(codec, old(View()))
    {
      hide Rechained, Rebuild;
      if |disk.file| == 0 {
        return None;
      }
      var out := Rechain();
      if out.None? {
        return None;
      }
      disk.file := out.value;
      count := RebuildIndex();
    }

    static ghost function Behind(out: Bytes, rest: Option<Bytes>): Option<Bytes> {
      if rest.None? then None else Some(out + rest.value)
    }

    static lemma BehindEnds(out: Bytes, rest: Option<Bytes>)
      ensures Behind([], rest) == rest && Behind(out, Some([])) == Some(out) && Behind(out, None) == None
    {
      assert out + [] == out;
      if rest.Some? {
        assert [] + rest.value == rest.value;
      }
    }

    static lemma BehindStep(out: Bytes, line: Bytes, rest: Option<Bytes>)
      ensures rest.Some? ==> Behind(out, Some(line + rest.value)) == Behind(out + line, rest)
      ensures rest.None? ==> Behind(out, None) == Behind(out + line, rest)
    {
      if rest.Some? {
        assert out + (line + rest.value) == (out + line) + rest.value;
      }
    }
  }

  /** Recorded Sharpes in file order, absent where not numeric. */
  function Sharpes(k: Codec, links: seq<Link>): (r: seq<Option<real>>)
    ensures |r| == |links|
    ensures forall i :: 0 <= i < |links| ==> r[i] == k.sharpe(links[i].record.payload)
  {
    seq(|links|, i requires 0 <= i < |links| => k.sharpe(links[i].record.payload))
  }
}
