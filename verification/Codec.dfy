/** Bytes, hex strings and 32-byte little-endian scalars
    (server/src/common/canonical.ts:40-49, server/src/frost/frost.ts:50-70). */
module Codec {
  import opened Modular
  import opened Wrappers

  type Byte = b: int | 0 <= b < 256
  type Bytes = seq<Byte>

  // ---- hex ----------------------------------------------------------------

  type Nibble = d: int | 0 <= d < 16

  function HexDigit(d: Nibble): char {
    if d < 10 then ('0' as int + d) as char else ('a' as int + d - 10) as char
  }

  function HexValue(c: char): Option<Nibble> {
    if '0' <= c <= '9' then Some(c as int - '0' as int)
    else if 'a' <= c <= 'f' then Some(c as int - 'a' as int + 10)
    else if 'A' <= c <= 'F' then Some(c as int - 'A' as int + 10)
    else None
  }

  function LowerDigit(c: char): char {
    if 'A' <= c <= 'F' then (c as int + 32) as char else c
  }

  function Lower(hex: string): (r: string)
    ensures |r| == |hex| && forall i :: 0 <= i < |r| ==> r[i] == LowerDigit(hex[i])
  {
    seq(|hex|, i requires 0 <= i < |hex| => LowerDigit(hex[i]))
  }

  function BytesToHex(b: Bytes): string {
    if b == [] then "" else [HexDigit(b[0] / 16), HexDigit(b[0] % 16)] + BytesToHex(b[1..])
  }

  predicate IsHex(hex: string) {
    forall i :: 0 <= i < |hex| ==> HexValue(hex[i]).Some?
  }

  datatype HexError = InvalidHex

  /** Odd length or any character outside [0-9a-fA-F] is refused. */
  function HexToBytes(hex: string): (r: Result<Bytes, HexError>) {
    if |hex| % 2 != 0 || !IsHex(hex) then Err(InvalidHex) else Ok(DecodePairs(hex))
  }

  function DecodePairs(hex: string): (b: Bytes)
    ensures |b| == |hex| / 2
    requires |hex| % 2 == 0 && IsHex(hex)
  {
    if hex == [] then [] else [HexValue(hex[0]).value * 16 + HexValue(hex[1]).value] + DecodePairs(hex[2..])
  }

  lemma DigitRoundTrip(d: Nibble)
    ensures HexValue(HexDigit(d)) == Some(d)
  {
  }

  lemma DigitOfValue(c: char)
    requires HexValue(c).Some?
    ensures HexDigit(HexValue(c).value) == LowerDigit(c)
  {
  }

  lemma PairRoundTrip(hi: Nibble, lo: Nibble)
    ensures (hi * 16 + lo) / 16 == hi && (hi * 16 + lo) % 16 == lo
  {
  }

  /** Encoding then decoding gives the bytes back. */
  lemma {:induction false} HexRoundTrip(b: Bytes)
    ensures HexToBytes(BytesToHex(b)) == Ok(b)
  {
    if b != [] {
      HexRoundTrip(b[1..]);
      DigitRoundTrip(b[0] / 16);
      DigitRoundTrip(b[0] % 16);
      var h, rest := BytesToHex(b), BytesToHex(b[1..]);
      assert h[2..] == rest;
      assert forall i :: 2 <= i < |h| ==> h[i] == rest[i - 2];
      assert IsHex(h);
      assert DecodePairs(h) == [b[0]] + DecodePairs(rest) == b;
    }
  }

  lemma PairDecodeEncode(a: char, b: char)
    requires HexValue(a).Some? && HexValue(b).Some?
    ensures BytesToHex([HexValue(a).value * 16 + HexValue(b).value]) == [LowerDigit(a), LowerDigit(b)]
  {
    DigitOfValue(a);
    DigitOfValue(b);
    PairRoundTrip(HexValue(a).value, HexValue(b).value);
  }

  /** Decoding then encoding gives the string back, in lower case. */
  lemma {:induction false} HexDecodeEncode(hex: string)
    requires |hex| % 2 == 0 && IsHex(hex)
    ensures BytesToHex(DecodePairs(hex)) == Lower(hex)
  {
    hide HexValue, HexDigit, LowerDigit;
    if hex != [] {
      var rest := hex[2..];
      assert forall i :: 0 <= i < |rest| ==> rest[i] == hex[i + 2];
      HexDecodeEncode(rest);
      PairDecodeEncode(hex[0], hex[1]);
      assert DecodePairs(hex)[1..] == DecodePairs(rest);
      assert Lower(hex) == [LowerDigit(hex[0]), LowerDigit(hex[1])] + Lower(rest);
    }
  }

  /** Two lower-case digits a byte, the high one first. */
  lemma {:induction false} HexDigitsOf(b: Bytes, k: nat)
    requires k < |b|
    ensures |BytesToHex(b)| == 2 * |b|
    ensures BytesToHex(b)[2 * k] == "0123456789abcdef"[b[k] / 16]
    ensures BytesToHex(b)[2 * k + 1] == "0123456789abcdef"[b[k] % 16]
  {
    DigitIs(b[0] / 16);
    DigitIs(b[0] % 16);
    if |b| > 1 {
      HexDigitsOf(b[1..], if k == 0 then 0 else k - 1);
    }
  }

  lemma DigitIs(d: Nibble)
    ensures HexDigit(d) == "0123456789abcdef"[d]
  {
  }

  // ---- little-endian numbers ----------------------------------------------

  function NumberLE(b: Bytes): nat {
    if b == [] then 0 else b[0] + 256 * NumberLE(b[1..])
  }

  function LittleEndian(v: nat, n: nat): (b: Bytes)
    ensures |b| == n
  {
    if n == 0 then [] else [v % 256] + LittleEndian(v / 256, n - 1)
  }

  lemma {:induction false} LittleEndianRoundTrip(v: nat, n: nat)
    requires v < Pow(256, n)
    ensures NumberLE(LittleEndian(v, n)) == v
  {
    if n > 0 {
      LittleEndianRoundTrip(v / 256, n - 1);
    }
  }

  lemma {:induction false} LittleEndianSnoc(v: nat, n: nat)
    requires Pow(256, n) > 0
    ensures LittleEndian(v, n + 1) == LittleEndian(v, n) + [(v / Pow(256, n)) % 256]
  {
    if n > 0 {
      PowPositive(256, n - 1);
      LittleEndianSnoc(v / 256, n - 1);
      DivDiv(v, 256, Pow(256, n - 1));
    }
  }

  lemma {:induction false} PowPositive(b: int, e: nat)
    requires b > 0
    ensures Pow(b, e) > 0
  {
    if e > 0 {
      PowPositive(b, e - 1);
    }
  }

  lemma DivDiv(v: nat, a: nat, b: nat)
    requires a > 0 && b > 0 && a * b > 0
    ensures v / a / b == v / (a * b)
  {
    var q := v / a / b;
    var r := (v / a - q * b) * a + v % a;
    assert v / a == q * b + v / a % b;
    DivDivBound(v / a % b, v % a, a, b);
    assert v == q * (a * b) + r by {
      assert v == a * (v / a) + v % a;
      assert q * (a * b) == a * (q * b);
      assert a * (v / a) == a * (q * b) + a * (v / a % b);
    }
    Unique(v, q, r, a * b);
  }

  lemma DivDivBound(x: nat, y: nat, a: nat, b: nat)
    requires x < b && y < a
    ensures 0 <= x * a + y < a * b
  {
    assert x * a <= (b - 1) * a;
  }

  /** Byte i weighs 256^i. */
  lemma {:induction false} ByteWeighs(b: Bytes, x: Byte)
    ensures NumberLE(b + [x]) == NumberLE(b) + x * Pow(256, |b|)
  {
    if b == [] {
      assert [x][1..] == [];
    } else {
      assert (b + [x])[1..] == b[1..] + [x];
      ByteWeighs(b[1..], x);
      assert 256 * (x * Pow(256, |b| - 1)) == x * (256 * Pow(256, |b| - 1));
    }
  }

  /** The shift-and-or loop (server/src/frost/frost.ts:50-54). */
  method BytesToNumberLE(b: Bytes) returns (r: nat)
    ensures r == NumberLE(b)
  {
    r := 0;
    var i := |b|;
    while i > 0
      invariant 0 <= i <= |b|
      invariant r == NumberLE(b[i..])
    {
      i := i - 1;
      assert b[i..][1..] == b[i + 1..];
      r := r * 256 + b[i];
    }
  }

  /** The scalar a byte string stands for. */
  function ScalarBytes(s: int, L: int): Bytes
    requires L > 0
  {
    LittleEndian(Mod(s, L), 32)
  }

  /** The mask-and-shift loop (server/src/frost/frost.ts:56-64). */
  method ScalarToBytes(s: int, L: int) returns (out: array<Byte>)
    requires L > 0
    ensures fresh(out) && out[..] == ScalarBytes(s, L)
  {
    out := new Byte[32](_ => 0);
    ghost var s0: nat := Mod(s, L);
    var v: nat := Mod(s, L);
    for i := 0 to 32
      invariant Pow(256, i) > 0
      invariant v == s0 / Pow(256, i)
      invariant out[..i] == LittleEndian(s0, i)
    {
      LittleEndianSnoc(s0, i);
      DivDiv(s0, Pow(256, i), 256);
      PowPositive(256, i + 1);
      out[i] := v % 256;
      v := v / 256;
    }
    assert out[..] == out[..32];
  }

  function ScalarToHex(s: int, L: int): string
    requires L > 0
  {
    BytesToHex(ScalarBytes(s, L))
  }

  function ScalarFromHex(hex: string, L: int): Result<int, HexError>
    requires L > 0
  {
    match HexToBytes(hex)
    case Ok(b) => Ok(Mod(NumberLE(b), L))
    case Err(e) => Err(e)
  }

  /** Every integer, negative included, survives as its residue. */
  lemma ScalarRoundTrip(s: int, L: int)
    requires 0 < L <= Pow(256, 32)
    ensures ScalarFromHex(ScalarToHex(s, L), L) == Ok(s % L)
  {
    HexRoundTrip(ScalarBytes(s, L));
    LittleEndianRoundTrip(s % L, 32);
    Unique(s % L, 0, s % L, L);
  }
}
