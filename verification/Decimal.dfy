/** Unsigned integers as decimal text: how src/json_buffer.c prints and parses them. */
module Decimal {
  import opened Common

  const INT32_MAX: nat := 0x7FFF_FFFF
  const UINT8_MAX: nat := 0xFF
  const UINT16_MAX: nat := 0xFFFF
  const UINT32_MAX: nat := 0xFFFF_FFFF
  const UINT64_MAX: nat := 0xFFFF_FFFF_FFFF_FFFF

  type Uint8 = n: nat | n <= UINT8_MAX
  type Uint32 = n: nat | n <= UINT32_MAX
  type Uint64 = n: nat | n <= UINT64_MAX

  predicate IsDigit(c: char) { '0' <= c <= '9' }

  function DigitChar(n: nat): (c: char)
    requires n < 10
    ensures IsDigit(c)
  {
    '0' + n as char
  }

  function DigitValue(c: char): (n: nat)
    requires IsDigit(c)
    ensures n < 10
  {
    (c - '0') as nat
  }

  predicate AllDigits(s: string) { forall i :: 0 <= i < |s| ==> IsDigit(s[i]) }

  /** The decimal text of a number, without leading zeros. */
  function Print(n: nat): (s: string)
    ensures s != [] && AllDigits(s)
  {
    if n < 10 then [DigitChar(n)] else Print(n / 10) + [DigitChar(n % 10)]
  }

  function ValueOf(s: string): nat
    requires AllDigits(s)
  {
    if s == [] then 0 else ValueOf(s[..|s| - 1]) * 10 + DigitValue(s[|s| - 1])
  }

  lemma {:induction false} ValueOfPrint(n: nat)
    ensures ValueOf(Print(n)) == n
  {
    if n < 10 {
      assert Print(n)[..0] == [];
    } else {
      ValueOfPrint(n / 10);
      var s, c := Print(n / 10), DigitChar(n % 10);
      assert Print(n) == s + [c] && (s + [c])[..|s|] == s && (s + [c])[|s|] == c;
      assert DigitValue(c) == n % 10;
      assert n == n / 10 * 10 + n % 10;
    }
  }

  // ---- the number at the front of a text ----

  predicate IsSpace(c: char) { c == ' ' || '\t' <= c <= '\r' }

  function SkipSpace(s: string): string {
    if s != [] && IsSpace(s[0]) then SkipSpace(s[1..]) else s
  }

  function DigitCount(s: string): (n: nat)
    ensures n <= |s| && AllDigits(s[..n]) && (n < |s| ==> !IsDigit(s[n]))
  {
    if s == [] || !IsDigit(s[0]) then 0
    else
      var n := 1 + DigitCount(s[1..]);
      assert s[..n] == [s[0]] + s[1..][..n - 1];
      n
  }

  datatype Scanned = NoNumber | Number(negative: bool, magnitude: nat, rest: string)

  /** White space, an optional sign and digits, as strtoumax and scanf read them. */
  function Scan(s: string): Scanned {
    var t := SkipSpace(s);
    var signed := t != [] && (t[0] == '-' || t[0] == '+');
    var digits := if signed then t[1..] else t;
    var n := DigitCount(digits);
    if n == 0 then NoNumber
    else Number(signed && t[0] == '-', ValueOf(digits[..n]), digits[n..])
  }

  lemma ScanPrinted(s: string)
    requires s != [] && AllDigits(s)
    ensures Scan(s) == Number(false, ValueOf(s), [])
  {
    assert SkipSpace(s) == s;
    assert DigitCount(s) == |s|;
    assert s[..|s|] == s && s[|s|..] == [];
  }

  /** A negated magnitude wraps in 64 bits. */
  function Unsigned64(negative: bool, magnitude: nat): nat
    requires magnitude <= UINT64_MAX
  {
    if negative && magnitude > 0 then UINT64_MAX + 1 - magnitude else magnitude
  }

  /** JsonBuffer_ParseUnsignedText: a whole text that is a number from 0 to max. */
  function ParseUnsigned(s: string, max: nat): Option<nat> {
    if s == [] || s[0] == '-' then None
    else match Scan(s)
      case NoNumber => None
      case Number(negative, magnitude, rest) =>
        if magnitude > UINT64_MAX || rest != [] then None
        else if Unsigned64(negative, magnitude) > max then None
        else Some(Unsigned64(negative, magnitude))
  }

  /** The limit only rejects. */
  lemma ParseLimits(s: string, max: nat)
    requires max <= UINT64_MAX
    ensures var n := ParseUnsigned(s, UINT64_MAX);
            ParseUnsigned(s, max) == if n.Some? && n.value > max then None else n
  {}

  /** scanf of an unsigned number of a given width: the front of the text, truncated. */
  function ScanUnsigned(s: string, max: nat): Option<nat> {
    match Scan(s)
    case NoNumber => None
    case Number(negative, magnitude, _) =>
      Some(Unsigned64(negative, if magnitude > UINT64_MAX then UINT64_MAX else magnitude) % (max + 1))
  }

  /** Parsing what was printed gives the number back, exactly when it is in range. */
  lemma ParsePrinted(n: nat, max: nat)
    requires n <= UINT64_MAX
    ensures ParseUnsigned(Print(n), max) == if n <= max then Some(n) else None
  {
    ScanPrinted(Print(n));
    ValueOfPrint(n);
  }

  lemma SmallMod(n: nat, m: nat)
    requires n < m
    ensures n % m == n
  {}

  lemma ScanPrintedNumber(n: nat, max: nat)
    requires n <= max <= UINT64_MAX
    ensures ScanUnsigned(Print(n), max) == Some(n)
  {
    ScanPrinted(Print(n));
    ValueOfPrint(n);
    SmallMod(n, max + 1);
  }

  // ---- what an accepted text means ----

  predicate AllSpace(s: string) { forall i :: 0 <= i < |s| ==> IsSpace(s[i]) }

  /** A minus sign that white space hides from the test of the first character. */
  predicate Wraps(s: string) {
    s != [] && IsSpace(s[0]) && SkipSpace(s) != [] && SkipSpace(s)[0] == '-'
  }

  /**
   * The value of an accepted text is the number written in it exactly when no hidden minus sign
   * wraps it; a wrapped number is its own negation only for 0 and 2^63.
   */
  lemma AcceptedMeansNumber(s: string, max: nat)
    requires ParseUnsigned(s, max).Some?
    ensures Scan(s).Number?
    ensures ParseUnsigned(s, max).value == Scan(s).magnitude <==>
            !Wraps(s) || Scan(s).magnitude in {0, 0x8000_0000_0000_0000}
  {}

  predicate IsSign(g: string) { g == "" || g == "+" || g == "-" }

  /** White space, a sign if any, and digits. */
  ghost predicate Numeral(s: string, w: string, g: string, d: string) {
    s == w + g + d && AllSpace(w) && IsSign(g) && d != [] && AllDigits(d)
  }

  lemma {:induction false} SkipSpaceFront(w: string, t: string)
    requires AllSpace(w) && t != [] && !IsSpace(t[0])
    ensures SkipSpace(w + t) == t
  {
    if w == [] {
      assert w + t == t;
    } else {
      assert (w + t)[1..] == w[1..] + t;
      SkipSpaceFront(w[1..], t);
    }
  }

  lemma {:induction false} SkipSpaceSplits(s: string) returns (w: string)
    ensures AllSpace(w) && s == w + SkipSpace(s)
  {
    if s != [] && IsSpace(s[0]) {
      var v := SkipSpaceSplits(s[1..]);
      w := [s[0]] + v;
    } else {
      w := [];
    }
  }

  lemma ScanNumeral(s: string, w: string, g: string, d: string)
    requires Numeral(s, w, g, d)
    ensures Scan(s) == Number(g == "-", ValueOf(d), [])
  {
    var t := g + d;
    assert s == w + t && !IsSpace(t[0]);
    SkipSpaceFront(w, t);
    assert g != "" ==> t[1..] == d;
    assert g == "" ==> t == d;
    assert DigitCount(d) == |d| && d[..|d|] == d && d[|d|..] == [];
  }

  /** What a numeral parses to: refused with a leading minus sign, out of range, or over the limit. */
  lemma NumeralParses(s: string, w: string, g: string, d: string, max: nat)
    requires Numeral(s, w, g, d)
    ensures var n := ValueOf(d);
            var v := if g == "-" && n > 0 then 0x1_0000_0000_0000_0000 - n else n;
            ParseUnsigned(s, max) ==
            if (w == "" && g == "-") || n > UINT64_MAX || v > max then None else Some(v)
  {
    ScanNumeral(s, w, g, d);
    assert s[0] == if w != "" then w[0] else if g != "" then g[0] else d[0];
  }

  predicate Signed(t: string) { t != [] && (t[0] == '-' || t[0] == '+') }

  lemma SignSplits(t: string) returns (g: string)
    ensures IsSign(g) && t == g + if Signed(t) then t[1..] else t
  {
    g := if Signed(t) then [t[0]] else "";
  }

  lemma AllCounted(d: string)
    requires d != [] && d[DigitCount(d)..] == []
    ensures AllDigits(d)
  {
    assert d[..DigitCount(d)] == d;
  }

  lemma Joined(s: string, w: string, t: string, g: string, d: string)
    requires s == w + t && t == g + d
    ensures s == w + g + d
  {}

  /** And nothing but a numeral parses. */
  lemma OnlyNumeralsParse(s: string, max: nat)
    requires ParseUnsigned(s, max).Some?
    ensures exists w, g, d :: Numeral(s, w, g, d)
  {
    var t := SkipSpace(s);
    var w := SkipSpaceSplits(s);
    var g := SignSplits(t);
    var d := if Signed(t) then t[1..] else t;
    AllCounted(d);
    Joined(s, w, t, g, d);
    assert Numeral(s, w, g, d);
  }

  /** A minus sign and digits are refused when bare, and wrap when any white space comes before them. */
  lemma NegativeTexts(w: string, digits: string, max: nat)
    requires AllSpace(w) && digits != [] && AllDigits(digits) && 0 < ValueOf(digits) <= UINT64_MAX
    ensures Wraps(w + "-" + digits) <==> w != []
    ensures var n := UINT64_MAX + 1 - ValueOf(digits);
            ParseUnsigned(w + "-" + digits, max) == if w != [] && n <= max then Some(n) else None
  {
    HiddenMinus(w, digits);
    NumeralParses(w + "-" + digits, w, "-", digits, max);
  }

  lemma HiddenMinus(w: string, digits: string)
    requires AllSpace(w)
    ensures Wraps(w + "-" + digits) <==> w != []
  {
    var t := "-" + digits;
    assert w + "-" + digits == w + t;
    SkipSpaceFront(w, t);
    assert (w + t)[0] == if w != [] then w[0] else '-';
  }

  /** For one: only the first character is tested for a sign, so a space lets minus one through. */
  lemma SpacedNegativeAccepted()
    ensures ParseUnsigned(" -1", UINT64_MAX) == Some(UINT64_MAX)
  {
    assert ValueOf("1") == 1 by { assert "1"[..0] == []; }
    NegativeTexts(" ", "1", UINT64_MAX);
    assert " " + "-" + "1" == " -1";
  }
}
