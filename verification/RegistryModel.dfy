// The tamper-evident trial registry (src/edge/research/registry.py) as functions of
// the bytes on disk. Registry.dfy holds the class that reads and writes in place.
//
// The hash and the record codec are parameters. Of the hash nothing is assumed but that
// it yields digests, and of the codec only that what it prints of a record that meets
// the schema has no newline and parses back. RegistryWitness.dfy builds such a codec.
module RegistryModel {
  import opened Common

  newtype Byte = b: int | 0 <= b < 256

  type Bytes = seq<Byte>
  type Digest = string

  const NEWLINE: Byte := 10

  /** TrialRecord. payload is the text of every field the registry carries without
      reading it, as the record serialises them. */
  datatype Trial = Trial(
    id: nat,
    configHash: Digest,
    duplicateOf: Option<nat>,
    prevSha: Digest,
    payload: string)

  /** One line of a legacy file: no JSON object with the fields of a record, already
      chained, or one whose prevSha is still to be filled in before the schema is
      checked. */
  datatype LegacyLine = Malformed | AlreadyChained | Plain(trial: Trial)

  /** fits says whether a payload meets the schema, and sharpe reads result['sharpe']
      from it where that is numeric. */
  datatype Codec = Codec(
    sha: Bytes -> Digest,
    genesis: Digest,
    fits: string -> bool,
    sharpe: string -> Option<real>,
    parse: Bytes -> Option<Trial>,
    print_: Trial -> Bytes,
    legacy: Bytes -> LegacyLine)

  /** 64 lower-case hexadecimal digits. */
  predicate IsDigest(d: Digest) {
    |d| == 64 && forall i :: 0 <= i < |d| ==> '0' <= d[i] <= '9' || 'a' <= d[i] <= 'f'
  }

  /** The schema of TrialRecord. */
  predicate MeetsSchema(k: Codec, t: Trial) {
    t.id > 0 && IsDigest(t.configHash) && IsDigest(t.prevSha) && k.fits(t.payload)
  }

  ghost predicate Sound(k: Codec) {
    && IsDigest(k.genesis)
    && (forall b :: IsDigest(k.sha(b)))
    && (forall t: Trial :: MeetsSchema(k, t) ==> PrintsBack(k, t))
  }

  ghost predicate PrintsBack(k: Codec, t: Trial) {
    NEWLINE !in k.print_(t) && k.print_(t) != [] && k.parse(k.print_(t)) == Some(t)
  }

  // ---- lines ---------------------------------------------------------------

  /** Length of the first line, its newline included when it has one. */
  function LineEnd(file: Bytes): (n: nat)
    requires file != []
    ensures 1 <= n <= |file|
    ensures forall i :: 0 <= i < n - 1 ==> file[i] != NEWLINE
    ensures file[n - 1] == NEWLINE || n == |file|
  {
    if file[0] == NEWLINE || |file| == 1 then 1
    else
      var n := LineEnd(file[1..]);
      1 + n
  }

  function CountNewlines(file: Bytes): nat {
    if file == [] then 0
    else CountNewlines(file[..|file| - 1]) + if file[|file| - 1] == NEWLINE then 1 else 0
  }

  // ---- the chain walk ------------------------------------------------------

  /** One verified line. */
  datatype Link = Link(lineno: nat, offset: nat, rawLen: nat, sha: Digest, record: Trial)

  /** Walk the rest of a file from this state; None is RegistryTampered. */
  function WalkFrom(k: Codec, file: Bytes, prev: Digest, lineno: nat, offset: nat): Option<seq<Link>>
    decreases |file|
  {
    if file == [] then Some([])
    else
      var n := LineEnd(file);
      match CheckLine(k, file[..n], prev, lineno, offset)
      case None => None
      case Some(link) =>
        match WalkFrom(k, file[n..], link.sha, lineno + 1, offset + n)
        case None => None
        case Some(rest) => Some([link] + rest)
  }

  /** The per-line checks: trailing newline, schema, chain link, id law. */
  function CheckLine(k: Codec, raw: Bytes, prev: Digest, lineno: nat, offset: nat): Option<Link>
    requires raw != []
  {
    var n := |raw| - 1;
    if raw[n] != NEWLINE then None
    else
      match k.parse(raw[..n])
      case None => None
      case Some(t) =>
        if t.prevSha != prev || t.id != lineno + 1 then None
        else Some(Link(lineno + 1, offset, |raw|, k.sha(raw[..n]), t))
  }

  function Walk(k: Codec, file: Bytes): Option<seq<Link>> {
    WalkFrom(k, file, k.genesis, 0, 0)
  }

  // ---- sidecar and reads ---------------------------------------------------

  datatype Cache = Cache(lineCount: nat, byteSize: nat, tailSha: Option<Digest>, tailOffset: nat)

  datatype Sidecar = Missing | Unreadable | Held(cache: Cache)

  function TailSha(links: seq<Link>): Option<Digest> {
    if links == [] then None else Some(links[|links| - 1].sha)
  }

  /** The cache that describes exactly these verified lines. */
  function CacheOf(links: seq<Link>): Cache {
    if links == [] then Cache(0, 0, None, 0)
    else
      var last := links[|links| - 1];
      Cache(|links|, last.offset + last.rawLen, Some(last.sha), last.offset)
  }

  /** A completed read: the whole walk, then agreement with the sidecar. */
  function Read(k: Codec, file: Bytes, side: Sidecar): Option<seq<Link>> {
    match side
    case Unreadable => None
    case Missing => if file == [] then Some([]) else None
    case Held(c) =>
      if |file| != c.byteSize then None
      else
        match Walk(k, file)
        case None => None
        case Some(links) =>
          if |links| != c.lineCount || TailSha(links) != c.tailSha then None else Some(links)
  }

  // ---- the writer ----------------------------------------------------------

  /** A warm writer's committed view of the file. */
  datatype Writer = Writer(lineCount: nat, byteSize: nat, tailSha: Option<Digest>, tailOffset: nat, tailPrev: Option<Digest>)

  function WriterOf(links: seq<Link>): Writer {
    var c := CacheOf(links);
    Writer(c.lineCount, c.byteSize, c.tailSha, c.tailOffset,
           if links == [] then None else Some(links[|links| - 1].record.prevSha))
  }

  /** First id per config hash. */
  function DupMap(links: seq<Link>): map<Digest, nat> {
    if links == [] then map[]
    else
      var n := |links| - 1;
      SetDefault(DupMap(links[..n]), links[n].record.configHash, links[n].record.id)
  }

  function SetDefault(m: map<Digest, nat>, key: Digest, id: nat): map<Digest, nat> {
    if key in m then m else m[key := id]
  }

  function Get(m: map<Digest, nat>, key: Digest): Option<nat> {
    if key in m then Some(m[key]) else None
  }

  /** Everything the registry object and the disk hold between calls. */
  datatype State = State(file: Bytes, side: Sidecar, writer: Option<(Writer, map<Digest, nat>)>)

  /** The warm preflight: sidecar, size, newline count, then the tail line. */
  predicate WarmOk(k: Codec, file: Bytes, side: Sidecar, w: Writer) {
    && side == Held(Cache(w.lineCount, w.byteSize, w.tailSha, w.tailOffset))
    && |file| == w.byteSize
    && CountNewlines(file) == w.lineCount
    && (w.lineCount == 0 || TailOk(k, if w.tailOffset <= |file| then file[w.tailOffset..] else [], w))
  }

  predicate TailOk(k: Codec, chunk: Bytes, w: Writer) {
    && chunk != []
    && chunk[|chunk| - 1] == NEWLINE
    && var body := chunk[..|chunk| - 1];
    && Some(k.sha(body)) == w.tailSha
    && match k.parse(body)
       case None => false
       case Some(t) => Some(t.prevSha) == w.tailPrev && t.id == w.lineCount
  }

  /** What a trial brings: its configuration as canonical JSON, and its payload. The rest
      of its record the registry fills in. */
  datatype Entry = Entry(config: Bytes, payload: string)

  /** The writer state an append starts from: verified cold or warm; None raises. */
  function Preflight(k: Codec, s: State): Option<(Writer, map<Digest, nat>)> {
    match s.writer
    case Some(held) => if WarmOk(k, s.file, s.side, held.0) then Some(held) else None
    case None =>
      match Read(k, s.file, s.side)
      case None => None
      case Some(links) => Some((WriterOf(links), DupMap(links)))
  }

  function NextTrial(k: Codec, w: Writer, dups: map<Digest, nat>, e: Entry): Trial {
    var hash := k.sha(e.config);
    Trial(w.lineCount + 1, hash, Get(dups, hash),
          if w.tailSha.Some? then w.tailSha.value else k.genesis, e.payload)
  }

  /** Append the record's line and commit the new writer state and sidecar. */
  function Append(k: Codec, s: State, w: Writer, dups: map<Digest, nat>, t: Trial): State {
    var body := k.print_(t);
    var w' := Writer(w.lineCount + 1, w.byteSize + |body| + 1, Some(k.sha(body)), w.byteSize, Some(t.prevSha));
    State(s.file + body + [NEWLINE],
          Held(Cache(w'.lineCount, w'.byteSize, w'.tailSha, w'.tailOffset)),
          Some((w', SetDefault(dups, t.configHash, t.id))))
  }

  /** Invalid is the schema's refusal, which comes after the preflight. */
  datatype Outcome = Recorded(trial: Trial) | Tampered | Invalid

  /** record_trial. A refusal leaves the disk alone, but a preflight that passed is
      remembered even when the schema then refuses the record. */
  function RecordTrial(k: Codec, s: State, e: Entry): (State, Outcome) {
    match Preflight(k, s)
    case None => (s, Tampered)
    case Some((w, dups)) =>
      var t := NextTrial(k, w, dups, e);
      if MeetsSchema(k, t) then (Append(k, s, w, dups, t), Recorded(t))
      else (s.(writer := Some((w, dups))), Invalid)
  }

  function RecordAll(k: Codec, s: State, es: seq<Entry>): State {
    if es == [] then s
    else RecordTrial(k, RecordAll(k, s, es[..|es| - 1]), es[|es| - 1]).0
  }

  /** rebuild_index: only a file that verifies gets a sidecar. */
  function Rebuild(k: Codec, s: State): (State, Option<nat>) {
    match Walk(k, s.file)
    case None => (s, None)
    case Some(links) => (State(s.file, Held(CacheOf(links)), None), Some(|links|))
  }

  // ---- legacy migration ----------------------------------------------------

  /** The chained bytes of a legacy file; None raises. */
  function Rechained(k: Codec, file: Bytes, prev: Digest, lineno: nat): Option<Bytes>
    decreases |file|
  {
    if file == [] then Some([])
    else
      var n := LineEnd(file);
      match RechainLine(k, file[..n], prev, lineno)
      case None => None
      case Some(t) =>
        var body := k.print_(t);
        match Rechained(k, file[n..], k.sha(body), lineno + 1)
        case None => None
        case Some(rest) => Some(body + [NEWLINE] + rest)
  }

  /** A legacy line with its link filled in. */
  function RechainLine(k: Codec, raw: Bytes, prev: Digest, lineno: nat): Option<Trial>
    requires raw != []
  {
    if raw[|raw| - 1] != NEWLINE then None
    else
      match k.legacy(raw[..|raw| - 1])
      case Plain(t) =>
        if MeetsSchema(k, t.(prevSha := prev)) && t.id == lineno + 1 then Some(t.(prevSha := prev)) else None
      case _ => None
  }

  function Migrate(k: Codec, s: State): (State, Option<nat>) {
    if s.file == [] then (s, None)
    else
      match Rechained(k, s.file, k.genesis, 0)
      case None => (s, None)
      case Some(file) => Rebuild(k, s.(file := file))
  }
}
