/** Hash values of src/hash.c: their hexadecimal text and the update/finalize protocol. */
module Hash {
  import opened Common

  datatype Hash = Hash(kind: nat, data: seq<Byte>, final: bool)

  /** Digest length of a hash type; zero for types that do not exist. */
  function DigestLength(kind: nat): nat {
    match kind
    case 1 => 16   // MD5
    case 2 => 20   // SHA-1
    case 3 => 28   // SHA-224
    case 4 => 32   // SHA-256
    case 5 => 64   // SHA-512
    case _ => 0
  }

  // ---- hexadecimal digits ----

  function Digit(n: nat): (c: char)
    requires n < 16
  {
    if n < 10 then '0' + n as char else 'a' + (n - 10) as char
  }

  predicate IsHex(c: char) { '0' <= c <= '9' || 'a' <= c <= 'f' || 'A' <= c <= 'F' }

  function Value(c: char): (n: nat)
    requires IsHex(c)
    ensures n < 16
  {
    if '0' <= c <= '9' then (c - '0') as nat
    else if 'a' <= c <= 'f' then (c - 'a') as nat + 10
    else (c - 'A') as nat + 10
  }

  function Lower(c: char): char {
    if 'A' <= c <= 'F' then 'a' + (c - 'A') else c
  }

  lemma DigitValue(n: nat)
    requires n < 16
    ensures IsHex(Digit(n)) && Value(Digit(n)) == n
  {}

  lemma ValueDigit(c: char)
    requires IsHex(c)
    ensures Digit(Value(c)) == Lower(c)
  {}

  /** The two digits of a byte, and the byte of two digits. */
  function Digits(b: Byte): string { [Digit(b as nat / 16), Digit(b as nat % 16)] }

  function Pair(c: char, d: char): Byte
    requires IsHex(c) && IsHex(d)
  {
    (Value(c) * 16 + Value(d)) as Byte
  }

  lemma DigitsPair(b: Byte)
    ensures IsHex(Digits(b)[0]) && IsHex(Digits(b)[1]) && Pair(Digits(b)[0], Digits(b)[1]) == b
  {
    DigitValue(b as nat / 16);
    DigitValue(b as nat % 16);
  }

  lemma PairDigits(c: char, d: char)
    requires IsHex(c) && IsHex(d)
    ensures Digits(Pair(c, d)) == [Lower(c), Lower(d)]
  {
    ValueDigit(c);
    ValueDigit(d);
  }

  // ---- text of a byte sequence, and back ----

  function Hex(data: seq<Byte>): (s: string)
    ensures |s| == 2 * |data|
  {
    if data == [] then [] else Hex(data[..|data| - 1]) + Digits(data[|data| - 1])
  }

  predicate AllHex(s: string) { forall i :: 0 <= i < |s| ==> IsHex(s[i]) }

  function Unhex(s: string): (data: seq<Byte>)
    requires |s| % 2 == 0 && AllHex(s)
    ensures 2 * |data| == |s|
  {
    if s == [] then [] else Unhex(s[..|s| - 2]) + [Pair(s[|s| - 2], s[|s| - 1])]
  }

  function LowerAll(s: string): (r: string)
    ensures |r| == |s| && forall i :: 0 <= i < |s| ==> r[i] == Lower(s[i])
  {
    seq(|s|, i requires 0 <= i < |s| => Lower(s[i]))
  }

  lemma UnhexMore(s: string, t: string)
    requires |s| % 2 == 0 && AllHex(s) && |t| == 2 && IsHex(t[0]) && IsHex(t[1])
    ensures AllHex(s + t) && Unhex(s + t) == Unhex(s) + [Pair(t[0], t[1])]
  {
    assert (s + t)[..|s|] == s;
  }

  lemma {:induction false} HexUnhex(data: seq<Byte>)
    ensures AllHex(Hex(data)) && Unhex(Hex(data)) == data
  {
    if data != [] {
      var front, b := data[..|data| - 1], data[|data| - 1];
      assert data == front + [b];
      HexUnhex(front);
      DigitsPair(b);
      UnhexMore(Hex(front), Digits(b));
      assert Hex(data) == Hex(front) + Digits(b);
    }
  }

  const DIGITS := "0123456789abcdef"

  /** Two lower-case digits for each byte, the high one first. */
  lemma {:induction false} HexAt(data: seq<Byte>, i: nat)
    requires i < |data|
    ensures Hex(data)[2 * i] == DIGITS[data[i] as nat / 16] && Hex(data)[2 * i + 1] == DIGITS[data[i] as nat % 16]
  {
    if i < |data| - 1 { HexAt(data[..|data| - 1], i); }
  }

  lemma LowerMore(s: string, c: char, d: char)
    ensures LowerAll(s + [c, d]) == LowerAll(s) + [Lower(c), Lower(d)]
  {}

  lemma {:induction false} UnhexHex(s: string)
    requires |s| % 2 == 0 && AllHex(s)
    ensures Hex(Unhex(s)) == LowerAll(s)
  {
    if s != [] {
      var front, c, d := s[..|s| - 2], s[|s| - 2], s[|s| - 1];
      assert s == front + [c, d];
      UnhexHex(front);
      UnhexMore(front, [c, d]);
      PairDigits(c, d);
      LowerMore(front, c, d);
    }
  }

  // ---- the two conversions in place ----

  /** Prints a finalized hash; fails on one that is not. */
  method ToText(h: Hash) returns (text: Option<string>)
    ensures text == if h.final then Some(Hex(h.data)) else None
  {
    if !h.final { return None; }
    var s: string, i := [], 0;
    while i < |h.data|
      invariant 0 <= i <= |h.data| && s == Hex(h.data[..i])
    {
      assert h.data[..i + 1][..i] == h.data[..i];
      s := s + Digits(h.data[i]);
      i := i + 1;
    }
    assert h.data[..i] == h.data;
    return Some(s);
  }

  /** What a parse accepts: a known type, and exactly its digest's length in hexadecimal digits. */
  predicate Accepts(kind: nat, s: string) {
    DigestLength(kind) != 0 && |s| == 2 * DigestLength(kind) && AllHex(s)
  }

  method CreateFromString(kind: nat, s: string) returns (h: Option<Hash>)
    ensures h.Some? <==> Accepts(kind, s)
    ensures h.Some? ==> |s| % 2 == 0 && AllHex(s) && h.value == Hash(kind, Unhex(s), true)
  {
    var size := DigestLength(kind);
    if size == 0 || |s| != size * 2 { return None; }
    var i := 0;
    while i < |s|
      invariant 0 <= i <= |s| && forall j :: 0 <= j < i ==> IsHex(s[j])
    {
      if !IsHex(s[i]) { return None; }
      i := i + 1;
    }
    var data: seq<Byte>, pos := [], 0;
    i := 0;
    while i < size
      invariant 0 <= i <= size && pos == 2 * i && data == Unhex(s[..pos])
    {
      assert s[..pos + 2][..pos] == s[..pos];
      data := data + [Pair(s[pos], s[pos + 1])];
      pos := pos + 2;
      i := i + 1;
    }
    assert s[..pos] == s;
    return Some(Hash(kind, data, true));
  }

  /** Parsing the printed form of a hash with its type's digest length gives the hash back. */
  lemma TextRoundTrip(h: Hash)
    requires h.final && h.data != [] && |h.data| == DigestLength(h.kind)
    ensures Accepts(h.kind, Hex(h.data)) && Hash(h.kind, Unhex(Hex(h.data)), true) == h
  {
    HexUnhex(h.data);
  }

  /** Printing what was parsed gives the lower-case form of the text. */
  lemma ParseRoundTrip(kind: nat, s: string)
    requires Accepts(kind, s)
    ensures |s| % 2 == 0 && Hex(Unhex(s)) == LowerAll(s) && |Unhex(s)| == DigestLength(kind)
  {
    UnhexHex(s);
  }

  /** So two texts parse to the same digest exactly when they differ at most in case. */
  lemma SameDigest(kind: nat, s: string, t: string)
    requires Accepts(kind, s) && Accepts(kind, t)
    ensures |s| % 2 == 0 && |t| % 2 == 0
    ensures Unhex(s) == Unhex(t) <==> LowerAll(s) == LowerAll(t)
  {
    UnhexHex(s);
    UnhexHex(t);
    HexUnhex(Unhex(s));
    HexUnhex(Unhex(t));
  }

  // ---- accumulating a digest ----

  /** A hash being computed; `digest` stands for the digest library. */
  class Hasher {
    const digest: seq<Byte> -> seq<Byte>
    var final: bool
    var data: seq<Byte>
    var fed: seq<Byte>   // what the digest context has absorbed

    /** Once final, the data is the digest of everything fed before. */
    ghost predicate Valid()
      reads this
    {
      final ==> data == digest(fed)
    }

    constructor (digest: seq<Byte> -> seq<Byte>)
      ensures Valid() && !final && fed == [] && this.digest == digest
    {
      this.digest, final, data, fed := digest, false, [], [];
    }

    method Update(bytes: seq<Byte>, accepted: bool) returns (ok: bool)
      requires Valid()
      modifies this
      ensures Valid() && final == old(final) && data == old(data)
      ensures ok <==> !final && accepted
      ensures fed == if ok then old(fed) + bytes else old(fed)
    {
      if final || !accepted { return false; }
      fed := fed + bytes;
      return true;
    }

    method Finalize(accepted: bool) returns (ok: bool)
      requires Valid()
      modifies this
      ensures Valid() && fed == old(fed)
      ensures ok <==> !old(final) && accepted
      ensures ok ==> final && data == digest(fed)
      ensures !ok ==> final == old(final) && data == old(data)
    {
      if final || !accepted { return false; }
      data := digest(fed);
      final := true;
      return true;
    }
  }
}
