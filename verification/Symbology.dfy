// Option symbols (src/catalyst/core/symbology.py): the printer and the parser of the
// OCC Options Symbology Initiative key, padded (21 characters) and compact.
module Symbology {
  import opened Common
  import opened Instruments

  datatype Ymd = Ymd(year: int, month: int, day: int)

  predicate Leap(year: int) {
    year % 4 == 0 && (year % 100 != 0 || year % 400 == 0)
  }

  function DaysIn(year: int, month: int): int {
    if month == 2 then (if Leap(year) then 29 else 28)
    else if month == 4 || month == 6 || month == 9 || month == 11 then 30
    else 31
  }

  predicate ValidDate(d: Ymd) {
    1 <= d.year <= 9999 && 1 <= d.month <= 12 && 1 <= d.day <= DaysIn(d.year, d.month)
  }

  /** OptionKey; its strike is positive by validation. */
  datatype OsiKey = OsiKey(underlying: string, expiry: Ymd, right: Right, strike: real) {
    predicate Valid() {
      ValidDate(expiry) && strike > 0.0
    }
  }

  // ---- characters and digits -----------------------------------------------

  predicate IsDigit(c: char) {
    '0' <= c <= '9'
  }

  predicate IsUpper(c: char) {
    'A' <= c <= 'Z'
  }

  function UpperChar(c: char): char {
    if 'a' <= c <= 'z' then (c as int - 32) as char else c
  }

  function Upper(s: string): (u: string)
    ensures |u| == |s|
    ensures forall i :: 0 <= i < |s| ==> u[i] == UpperChar(s[i])
  {
    seq(|s|, i requires 0 <= i < |s| => UpperChar(s[i]))
  }

  function DigitChar(d: int): (c: char)
    requires 0 <= d < 10
    ensures IsDigit(c)
  {
    ('0' as int + d) as char
  }

  function DigitValue(c: char): (d: int)
    requires IsDigit(c)
    ensures 0 <= d < 10
  {
    c as int - '0' as int
  }

  predicate AllDigits(s: string) {
    forall i :: 0 <= i < |s| ==> IsDigit(s[i])
  }

  /** The last w decimal digits of n, zero-padded. */
  function Digits(n: nat, w: nat): (s: string)
    ensures |s| == w && AllDigits(s)
  {
    if w == 0 then "" else Digits(n / 10, w - 1) + [DigitChar(n % 10)]
  }

  function ValueOf(s: string): nat
    requires AllDigits(s)
  {
    if s == "" then 0 else ValueOf(s[..|s| - 1]) * 10 + DigitValue(s[|s| - 1])
  }

  function Pow10(w: nat): nat {
    if w == 0 then 1 else 10 * Pow10(w - 1)
  }

  lemma {:induction false} ValueOfDigits(n: nat, w: nat)
    requires n < Pow10(w)
    ensures ValueOf(Digits(n, w)) == n
  {
    if w > 0 {
      ValueOfDigits(n / 10, w - 1);
      var s := Digits(n, w);
      assert s[..w - 1] == Digits(n / 10, w - 1);
    }
  }

  lemma {:induction false} DigitsOfValue(s: string)
    requires AllDigits(s)
    ensures ValueOf(s) < Pow10(|s|) && Digits(ValueOf(s), |s|) == s
  {
    if s != "" {
      DigitsOfValue(s[..|s| - 1]);
      assert s == s[..|s| - 1] + [s[|s| - 1]];
    }
  }

  // ---- rounding ------------------------------------------------------------

  /** Python's round(): to the nearest integer, halves to the even one. */
  function Round(x: real): int {
    var f := x.Floor;
    var rest := x - (f as real);
    if rest < 0.5 then f
    else if rest > 0.5 then f + 1
    else if f % 2 == 0 then f else f + 1
  }

  /** Rounding lands within a half, and leaves whole numbers alone. */
  lemma RoundIsNearest(x: real)
    ensures -0.5 <= x - (Round(x) as real) <= 0.5
    ensures x == (x.Floor as real) ==> (Round(x) as real) == x
  {
  }

  /** A strike in thousandths, before rounding, and back. */
  function Thousandths(strike: real): real {
    strike * 1000.0
  }

  function Strike(thousandths: nat): real {
    (thousandths as real) / 1000.0
  }

  lemma StrikeIs(n: nat)
    ensures Thousandths(Strike(n)).Floor == n && Round(Thousandths(Strike(n))) == n
    ensures Strike(n) > 0.0 <==> n > 0
  {
    assert Thousandths(Strike(n)) == n as real;
    RoundIsNearest(n as real);
  }

  // ---- printing ------------------------------------------------------------

  const MAX_THOUSANDTHS := 99999999

  function Spaces(n: nat): (s: string)
    ensures |s| == n && forall i :: 0 <= i < n ==> s[i] == ' '
  {
    seq(n, i => ' ')
  }

  function RightChar(r: Right): char {
    if r.Call? then 'C' else 'P'
  }

  /** The fifteen characters after the root. */
  function Tail(d: Ymd, r: Right, thousandths: nat): (s: string)
    requires ValidDate(d)
    ensures |s| == 15
  {
    Digits(d.year % 100, 2) + Digits(d.month, 2) + Digits(d.day, 2) + [RightChar(r)] + Digits(thousandths, 8)
  }

  /** to_osi: refuses a root over six characters and a strike outside eight digits. */
  function Print(k: OsiKey, pad: bool): Option<string>
    requires k.Valid()
  {
    var root := Upper(k.underlying);
    if |root| > 6 then None
    else
      var thousandths := Round(Thousandths(k.strike));
      if !(0 < thousandths <= MAX_THOUSANDTHS) then None
      else Some((if pad then root + Spaces(6 - |root|) else root) + Tail(k.expiry, k.right, thousandths))
  }

  // ---- parsing -------------------------------------------------------------

  function RemoveSpaces(s: string): (t: string)
    ensures ' ' !in t
  {
    if s == "" then ""
    else
      var rest := RemoveSpaces(s[..|s| - 1]);
      if s[|s| - 1] == ' ' then rest else rest + [s[|s| - 1]]
  }

  /** The pattern's $ also matches before one final newline. */
  function DropNewline(s: string): string {
    if s != "" && s[|s| - 1] == '\n' then s[..|s| - 1] else s
  }

  /** The root pattern: a letter or dot, then up to five letters, digits or dots. */
  predicate RootOk(root: string) {
    && 1 <= |root| <= 6
    && (IsUpper(root[0]) || root[0] == '.')
    && forall i :: 1 <= i < |root| ==> IsUpper(root[i]) || IsDigit(root[i]) || root[i] == '.'
  }

  predicate TailOk(tail: string) {
    && |tail| == 15
    && AllDigits(tail[..6])
    && (tail[6] == 'C' || tail[6] == 'P')
    && AllDigits(tail[7..])
  }

  function TailDate(tail: string): Ymd
    requires TailOk(tail)
  {
    assert AllDigits(tail[0..2]) && AllDigits(tail[2..4]) && AllDigits(tail[4..6]) by {
      forall i | 0 <= i < 6
        ensures IsDigit(tail[i])
      {
        assert tail[..6][i] == tail[i];
      }
    }
    Ymd(2000 + ValueOf(tail[0..2]), ValueOf(tail[2..4]), ValueOf(tail[4..6]))
  }

  /** Match a symbol without its spaces, and build a key if date and strike are valid. */
  function ParseBody(body: string): (r: Option<OsiKey>)
    ensures r.Some? ==> r.value.Valid()
  {
    if |body| < 15 || !RootOk(body[..|body| - 15]) || !TailOk(body[|body| - 15..]) then None
    else
      var k := KeyOf(body[..|body| - 15], body[|body| - 15..]);
      if k.Valid() then Some(k) else None
  }

  function KeyOf(root: string, tail: string): OsiKey
    requires TailOk(tail)
  {
    OsiKey(root, TailDate(tail), if tail[6] == 'C' then Call else Put, Strike(ValueOf(tail[7..])))
  }

  /** parse_osi: either form back to the key. */
  function Parse(symbol: string): (r: Option<OsiKey>)
    ensures r.Some? ==> r.value.Valid()
  {
    ParseBody(DropNewline(RemoveSpaces(symbol)))
  }

  // ---- round trips ---------------------------------------------------------

  /** The keys OSI represents faithfully. */
  predicate Canonical(k: OsiKey) {
    && RootOk(k.underlying)
    && ValidDate(k.expiry) && 2000 <= k.expiry.year <= 2099
    && 0 < Thousandths(k.strike).Floor <= MAX_THOUSANDTHS
    && Strike(Thousandths(k.strike).Floor) == k.strike
  }

  lemma Slices(a: string, b: string, c: string, m: char, e: string)
    requires |a| == |b| == |c| == 2
    ensures var t := a + b + c + [m] + e;
            t[0..2] == a && t[2..4] == b && t[4..6] == c && t[6] == m && t[7..] == e
  {
  }

  lemma TailSlices(d: Ymd, r: Right, thousandths: nat)
    requires ValidDate(d)
    ensures var t := Tail(d, r, thousandths);
            && t[0..2] == Digits(d.year % 100, 2) && t[2..4] == Digits(d.month, 2) && t[4..6] == Digits(d.day, 2)
            && t[6] == RightChar(r)
            && t[7..] == Digits(thousandths, 8)
  {
    assert d.month >= 1 && d.day >= 1;
    hide Digits, ValidDate;
    Slices(Digits(d.year % 100, 2), Digits(d.month, 2), Digits(d.day, 2), RightChar(r), Digits(thousandths, 8));
  }

  lemma TailParts(d: Ymd, r: Right, thousandths: nat)
    requires ValidDate(d) && 2000 <= d.year <= 2099 && thousandths <= MAX_THOUSANDTHS
    ensures var t := Tail(d, r, thousandths);
            && TailOk(t)
            && TailDate(t) == d
            && (t[6] == 'C' <==> r.Call?)
            && ValueOf(t[7..]) == thousandths
  {
    hide Tail, Digits, ValueOf, Pow10, DaysIn;
    var t := Tail(d, r, thousandths);
    TailSlices(d, r, thousandths);
    SixDigits(t);
    DateBack(d);
    EightDigits(thousandths);
    hide ValidDate;
  }

  /** Two digits each are enough for a date of this century. */
  lemma DateBack(d: Ymd)
    requires ValidDate(d) && 2000 <= d.year <= 2099
    ensures ValueOf(Digits(d.year % 100, 2)) == d.year - 2000
    ensures ValueOf(Digits(d.month, 2)) == d.month && ValueOf(Digits(d.day, 2)) == d.day
  {
    hide Digits, ValueOf, Pow10;
    TwoDigits();
    ValueOfDigits(d.year - 2000, 2);
    ValueOfDigits(d.month, 2);
    ValueOfDigits(d.day, 2);
  }

  lemma EightDigits(n: nat)
    requires n <= MAX_THOUSANDTHS
    ensures ValueOf(Digits(n, 8)) == n
  {
    hide Digits, ValueOf, Pow10;
    TwoDigits();
    ValueOfDigits(n, 8);
  }

  lemma SixDigits(t: string)
    requires |t| == 15 && AllDigits(t[0..2]) && AllDigits(t[2..4]) && AllDigits(t[4..6])
    ensures AllDigits(t[..6])
  {
    forall i | 0 <= i < 6
      ensures IsDigit(t[..6][i])
    {
      if i < 2 {
        assert t[..6][i] == t[0..2][i];
      } else if i < 4 {
        assert t[..6][i] == t[2..4][i - 2];
      } else {
        assert t[..6][i] == t[4..6][i - 4];
      }
    }
  }

  lemma TwoDigits()
    ensures Pow10(2) == 100 && Pow10(8) == MAX_THOUSANDTHS + 1
  {
    assert Pow10(4) == 10000;
  }

  lemma {:induction false} NoSpaces(s: string)
    requires ' ' !in s
    ensures RemoveSpaces(s) == s
  {
    if s != "" {
      NoSpaces(s[..|s| - 1]);
    }
  }

  lemma {:induction false} SpacesGo(a: string, n: nat, b: string)
    ensures RemoveSpaces(a + Spaces(n) + b) == RemoveSpaces(a) + RemoveSpaces(b)
  {
    var s := a + Spaces(n) + b;
    if b != "" {
      assert s[..|s| - 1] == a + Spaces(n) + b[..|b| - 1];
      SpacesGo(a, n, b[..|b| - 1]);
    } else if n > 0 {
      assert s[..|s| - 1] == a + Spaces(n - 1) + "";
      SpacesGo(a, n - 1, "");
    } else {
      assert s == a;
    }
  }

  lemma RootIsPlain(root: string)
    requires RootOk(root)
    ensures Upper(root) == root && ' ' !in root
  {
  }

  lemma TailIsPlain(d: Ymd, r: Right, thousandths: nat)
    requires ValidDate(d)
    ensures ' ' !in Tail(d, r, thousandths)
    ensures IsDigit(Tail(d, r, thousandths)[14])
  {
    var t := Tail(d, r, thousandths);
    forall i | 0 <= i < 15
      ensures t[i] != ' '
    {
    }
  }

  lemma WholeThousandths(k: OsiKey)
    requires Canonical(k)
    ensures Round(Thousandths(k.strike)) == Thousandths(k.strike).Floor && k.strike > 0.0
  {
    hide Thousandths, Strike, Round;
    StrikeIs(Thousandths(k.strike).Floor);
  }

  lemma PrintedIs(k: OsiKey, pad: bool)
    requires Canonical(k)
    ensures k.Valid()
    ensures var n := Thousandths(k.strike).Floor;
            && Print(k, pad) == Some((if pad then k.underlying + Spaces(6 - |k.underlying|) else k.underlying)
                                   + Tail(k.expiry, k.right, n))
            && Strike(n) == k.strike
  {
    WholeThousandths(k);
    RootIsPlain(k.underlying);
    hide Tail, Round, Thousandths, Strike;
  }

  /** Printed symbols are the root and the tail, spaces aside. */
  lemma BodyIs(root: string, pad: bool, tail: string)
    requires RootOk(root) && |tail| == 15 && ' ' !in tail && IsDigit(tail[14])
    ensures var symbol := (if pad then root + Spaces(6 - |root|) else root) + tail;
            DropNewline(RemoveSpaces(symbol)) == root + tail
  {
    RootIsPlain(root);
    hide RootOk, Spaces, RemoveSpaces;
    SpacesGo(root, if pad then 6 - |root| else 0, tail);
    assert root + Spaces(0) == root;
    NoSpaces(root);
    NoSpaces(tail);
    assert (root + tail)[|root + tail| - 1] == tail[14];
  }

  /** What a symbol looks like: the root in capitals, blanks up to six characters when padded, two
      digits each of year, month and day, C or P, and the strike in thousandths in eight digits. */
  lemma PrintedParts(k: OsiKey, pad: bool)
    requires k.Valid()
    ensures var root := |k.underlying|;
            var n := Round(k.strike * 1000.0);
            match Print(k, pad)
            case None => root > 6 || n < 1 || n > 99999999
            case Some(s) =>
              && root <= 6 && 1 <= n <= 99999999
              && var at := if pad then 6 else root;
              && |s| == at + 15
              && (forall i :: 0 <= i < root ==> s[i] == if 'a' <= k.underlying[i] <= 'z' then k.underlying[i] - 'a' + 'A' else k.underlying[i])
              && (forall i :: root <= i < at ==> s[i] == ' ')
              && s[at..at + 2] == Digits(k.expiry.year % 100, 2)
              && s[at + 2..at + 4] == Digits(k.expiry.month, 2)
              && s[at + 4..at + 6] == Digits(k.expiry.day, 2)
              && s[at + 6] == (if k.right == Call then 'C' else 'P')
              && s[at + 7..] == Digits(n, 8)
  {
    hide Digits, Round, Tail, ValidDate;
    if Print(k, pad).Some? {
      var n := Round(Thousandths(k.strike));
      TailSlices(k.expiry, k.right, n);
      assert k.expiry.month >= 1 && k.expiry.day >= 1 by { DatePositive(k.expiry); }
      var head := if pad then Upper(k.underlying) + Spaces(6 - |k.underlying|) else Upper(k.underlying);
      HeadAndTail(head, Tail(k.expiry, k.right, n));
    }
  }

  lemma DatePositive(d: Ymd)
    requires ValidDate(d)
    ensures d.year >= 1 && d.month >= 1 && d.day >= 1
  {
  }

  lemma HeadAndTail(head: string, tail: string)
    requires |tail| == 15
    ensures var s, at := head + tail, |head|;
            && |s| == at + 15 && (forall i :: 0 <= i < at ==> s[i] == head[i])
            && s[at..at + 2] == tail[0..2] && s[at + 2..at + 4] == tail[2..4] && s[at + 4..at + 6] == tail[4..6]
            && s[at + 6] == tail[6] && s[at + 7..] == tail[7..]
  {
  }

  /** The parser inverts the printer on every canonical key, padded or not. */
  lemma PrintThenParse(k: OsiKey, pad: bool)
    requires Canonical(k)
    ensures k.Valid() && Print(k, pad).Some? && Parse(Print(k, pad).value) == Some(k)
    ensures pad ==> |Print(k, pad).value| == 21
  {
    hide Tail, Round, ValidDate, Print, TailOk, TailDate, ValueOf, RemoveSpaces, DropNewline, RootOk, Canonical, Thousandths, Strike;
    CanonicalParts(k);
    var tail := Tail(k.expiry, k.right, Thousandths(k.strike).Floor);
    PrintedIs(k, pad);
    TailIsPlain(k.expiry, k.right, Thousandths(k.strike).Floor);
    TailParts(k.expiry, k.right, Thousandths(k.strike).Floor);
    BodyIs(k.underlying, pad, tail);
    BodySplits(k.underlying, tail);
    hide Spaces;
  }

  lemma CanonicalParts(k: OsiKey)
    requires Canonical(k)
    ensures RootOk(k.underlying) && |k.underlying| <= 6 && ValidDate(k.expiry) && 2000 <= k.expiry.year <= 2099
    ensures 0 < Thousandths(k.strike).Floor <= MAX_THOUSANDTHS
  {
  }

  lemma BodySplits(root: string, tail: string)
    requires |tail| == 15
    ensures var body := root + tail;
            |body| >= 15 && body[..|body| - 15] == root && body[|body| - 15..] == tail
  {
  }

  /** Whatever the parser accepts is canonical. */
  lemma ParsedIsCanonical(symbol: string)
    requires Parse(symbol).Some?
    ensures Canonical(Parse(symbol).value)
  {
    hide RemoveSpaces, DropNewline, RootOk, TailDate, Thousandths, Strike, Pow10, Round, ValueOf;
    var body := DropNewline(RemoveSpaces(symbol));
    var tail := body[|body| - 15..];
    TwoDigits();
    DigitsOfValue(tail[7..]);
    TailYear(tail);
    StrikeIs(ValueOf(tail[7..]));
  }

  lemma TailYear(tail: string)
    requires TailOk(tail)
    ensures 2000 <= TailDate(tail).year <= 2099
  {
    var d := TailDate(tail);
    assert AllDigits(tail[0..2]) by {
      assert tail[0..2] == tail[..6][..2];
    }
    TwoDigits();
    DigitsOfValue(tail[0..2]);
  }

  /** When a symbol names its key again: printing then parsing is the identity exactly
      on the canonical keys. */
  lemma RoundTripIff(k: OsiKey, pad: bool)
    requires k.Valid()
    ensures (Print(k, pad).Some? && Parse(Print(k, pad).value) == Some(k)) <==> Canonical(k)
  {
    hide Print, Parse, Canonical;
    if Canonical(k) {
      PrintThenParse(k, pad);
    }
    if Print(k, pad).Some? && Parse(Print(k, pad).value) == Some(k) {
      ParsedIsCanonical(Print(k, pad).value);
    }
  }

  /** No two canonical keys share a symbol, even with digits, C and P inside roots. */
  lemma PrintIsInjective(a: OsiKey, b: OsiKey, pad: bool)
    requires Canonical(a) && Canonical(b) && a.Valid() && b.Valid() && Print(a, pad) == Print(b, pad)
    ensures a == b
  {
    hide Print, Parse, Canonical;
    PrintThenParse(a, pad);
    PrintThenParse(b, pad);
  }

  lemma TailBack(tail: string)
    requires TailOk(tail) && ValidDate(TailDate(tail))
    ensures Tail(TailDate(tail), if tail[6] == 'C' then Call else Put, ValueOf(tail[7..])) == tail
  {
    hide Digits, ValueOf, Pow10, ValidDate, DaysIn;
    PairsAreDigits(tail);
    TwoDigits();
    DigitsOfValue(tail[0..2]);
    DigitsOfValue(tail[2..4]);
    DigitsOfValue(tail[4..6]);
    DigitsOfValue(tail[7..]);
    YearDigits(ValueOf(tail[0..2]));
    assert tail == tail[0..2] + tail[2..4] + tail[4..6] + [tail[6]] + tail[7..];
  }

  lemma PairsAreDigits(tail: string)
    requires TailOk(tail)
    ensures AllDigits(tail[0..2]) && AllDigits(tail[2..4]) && AllDigits(tail[4..6])
  {
    forall i | 0 <= i < 6
      ensures IsDigit(tail[i])
    {
      assert tail[..6][i] == tail[i];
    }
  }

  lemma YearDigits(yy: nat)
    requires yy < 100
    ensures (2000 + yy) % 100 == yy
  {
  }

  /** The other direction: printing what was parsed gives the symbol back in compact
      form, without the spaces and the final newline the parser forgives. */
  lemma ParseThenPrint(symbol: string)
    requires Parse(symbol).Some?
    ensures Print(Parse(symbol).value, false) == Some(DropNewline(RemoveSpaces(symbol)))
  {
    hide RemoveSpaces, DropNewline, RootOk, TailOk, TailDate, Thousandths, Strike, Round, ValueOf, Tail, ValidDate, Canonical;
    var body := DropNewline(RemoveSpaces(symbol));
    var root, tail := body[..|body| - 15], body[|body| - 15..];
    assert root + tail == body;
    ParsedBounds(root, tail);
    PrintKey(root, tail);
  }

  lemma ParsedBounds(root: string, tail: string)
    requires RootOk(root) && TailOk(tail)
    ensures |root| <= 6 && ValueOf(tail[7..]) <= MAX_THOUSANDTHS
  {
    hide ValueOf, Pow10;
    TwoDigits();
    DigitsOfValue(tail[7..]);
  }

  lemma PrintKey(root: string, tail: string)
    requires RootOk(root) && TailOk(tail) && KeyOf(root, tail).Valid()
    requires |root| <= 6 && ValueOf(tail[7..]) <= MAX_THOUSANDTHS
    ensures Print(KeyOf(root, tail), false) == Some(root + tail)
  {
    RootIsPlain(root);
    StrikeIs(ValueOf(tail[7..]));
    TailBack(tail);
    hide RootOk, TailOk, TailDate, Thousandths, Strike, Round, ValueOf, Tail, ValidDate;
  }

  /** The calendar: a valid date is a day of a month, and only leap years have a 29 February. */
  lemma LastDays(year: int, month: int, day: int)
    requires 1 <= year <= 9999
    ensures var long, short := {1, 3, 5, 7, 8, 10, 12}, {4, 6, 9, 11};
            ValidDate(Ymd(year, month, day)) <==>
            || (month in long && 1 <= day <= 31)
            || (month in short && 1 <= day <= 30)
            || (month == 2 && 1 <= day <= 28)
            || (month == 2 && day == 29 && year % 4 == 0 && !(year % 100 == 0 && year % 400 != 0))
  {
  }
}
