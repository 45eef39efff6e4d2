// A record codec that meets what RegistryModel asks of one, whatever the hash and the
// payload schema are. Records are written as the unary digits of a list of numbers; the
// parser checks the schema, as that of the registry does.
module RegistryWitness {
  import opened Common
  import opened RegistryModel

  const END: Byte := 0
  const DIGIT: Byte := 1

  /** Each number in unary, with an end mark. */
  function Unary(ns: seq<nat>): Bytes
    decreases |ns|, if ns == [] then 0 else ns[0]
  {
    if ns == [] then []
    else if ns[0] == 0 then [END] + Unary(ns[1..])
    else [DIGIT] + Unary([ns[0] - 1] + ns[1..])
  }

  function Numbers(b: Bytes): Option<seq<nat>> {
    if b == [] then Some([])
    else
      match Numbers(b[1..])
      case None => None
      case Some(ns) =>
        if b[0] == END then Some([0] + ns)
        else if b[0] == DIGIT && ns != [] then Some([ns[0] + 1] + ns[1..])
        else None
  }

  lemma {:induction false} NumbersOfUnary(ns: seq<nat>)
    ensures Numbers(Unary(ns)) == Some(ns)
    ensures NEWLINE !in Unary(ns)
    ensures ns != [] ==> Unary(ns) != []
    decreases |ns|, if ns == [] then 0 else ns[0]
  {
    if ns != [] {
      if ns[0] == 0 {
        NumbersOfUnary(ns[1..]);
        assert [0] + ns[1..] == ns;
      } else {
        var less := [ns[0] - 1] + ns[1..];
        NumbersOfUnary(less);
        assert [less[0] + 1] + less[1..] == ns;
      }
    }
  }

  function Codes(s: string): seq<nat> {
    seq(|s|, i requires 0 <= i < |s| => s[i] as nat)
  }

  predicate IsCode(n: nat) {
    n < 0xD800 || 0xE000 <= n < 0x11_0000
  }

  function Text(ns: seq<nat>): Option<string> {
    if forall i :: 0 <= i < |ns| ==> IsCode(ns[i]) then
      Some(seq(|ns|, i requires 0 <= i < |ns| && IsCode(ns[i]) => ns[i] as char))
    else
      None
  }

  lemma TextOfCodes(s: string)
    ensures Text(Codes(s)) == Some(s)
  {
    var ns := Codes(s);
    assert forall i :: 0 <= i < |ns| ==> IsCode(ns[i]);
    assert Text(ns).value == s;
  }

  function Fields(t: Trial): seq<nat> {
    [t.id, if t.duplicateOf.Some? then t.duplicateOf.value + 1 else 0]
    + Codes(t.configHash) + Codes(t.prevSha) + Codes(t.payload)
  }

  function Assembled(ns: seq<nat>): Option<Trial> {
    if |ns| < 130 then None
    else
      var hash, prev, payload := Text(ns[2..66]), Text(ns[66..130]), Text(ns[130..]);
      if hash.None? || prev.None? || payload.None? then None
      else Some(Trial(ns[0], hash.value, if ns[1] == 0 then None else Some(ns[1] - 1), prev.value, payload.value))
  }

  lemma AssembledFields(t: Trial)
    requires |t.configHash| == 64 && |t.prevSha| == 64
    ensures Assembled(Fields(t)) == Some(t)
  {
    var ns := Fields(t);
    assert ns[2..66] == Codes(t.configHash);
    assert ns[66..130] == Codes(t.prevSha);
    assert ns[130..] == Codes(t.payload);
    TextOfCodes(t.configHash);
    TextOfCodes(t.prevSha);
    TextOfCodes(t.payload);
  }

  function Print(t: Trial): Bytes {
    Unary(Fields(t))
  }

  /** Only a record that meets the schema is read. */
  function Parse(fits: string -> bool, b: Bytes): Option<Trial> {
    match Numbers(b)
    case None => None
    case Some(ns) =>
      match Assembled(ns)
      case None => None
      case Some(t) =>
        if t.id > 0 && IsDigest(t.configHash) && IsDigest(t.prevSha) && fits(t.payload) then Some(t) else None
  }

  /** Whatever the hash, the payload schema and the rest: some codec is sound, and it
      reads nothing that breaks the schema. */
  lemma SoundCodecExists(sha: Bytes -> Digest, genesis: Digest, fits: string -> bool,
                         sharpe: string -> Option<real>, legacy: Bytes -> LegacyLine)
    requires IsDigest(genesis) && forall b :: IsDigest(sha(b))
    ensures var k := Codec(sha, genesis, fits, sharpe, b => Parse(fits, b), Print, legacy);
            && Sound(k)
            && forall b :: k.parse(b).Some? ==> MeetsSchema(k, k.parse(b).value)
  {
    var k := Codec(sha, genesis, fits, sharpe, b => Parse(fits, b), Print, legacy);
    forall t | MeetsSchema(k, t)
      ensures PrintsBack(k, t)
    {
      AssembledFields(t);
      NumbersOfUnary(Fields(t));
      hide Fields, Unary, Numbers, Assembled, IsDigest;
      assert k.parse(k.print_(t)) == Some(t);
    }
  }
}
