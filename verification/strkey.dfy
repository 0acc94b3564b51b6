/**
 * StrKey text: base32 without padding, a version byte, and a little-endian CRC16.
 * The loops keep JavaScript's 32-bit accumulator, which is never masked between
 * characters; their specification is the bit-for-bit regrouping of section 6 of RFC 4648.
 */
module StrKey {
  import opened Primitives

  datatype StrKeyError =
    | BadLength
    | BadCharacter(position: nat)
    | WrongVersion
    | ChecksumMismatch
    | BadPayloadLength

  const VERSION_ACCOUNT: bv8 := 48
  const VERSION_CONTRACT: bv8 := 16

  // ---------------------------------------------------------------- alphabet

  predicate IsBase32(code: CodeUnit) {
    65 <= code <= 90 || 50 <= code <= 55
  }

  function DigitOf(code: CodeUnit): bv5
    requires IsBase32(code)
  {
    if 65 <= code then (code - 65) as bv5 else (code - 24) as bv5
  }

  function CharOf(digit: bv5): CodeUnit {
    var n := digit as int;
    if n < 26 then n + 65 else n + 24
  }

  lemma DigitRoundTrips(digit: bv5)
    ensures IsBase32(CharOf(digit)) && DigitOf(CharOf(digit)) == digit
  {
    assert (digit as int) as bv5 == digit;
  }

  lemma CharRoundTrips(code: CodeUnit)
    requires IsBase32(code)
    ensures CharOf(DigitOf(code)) == code
  {
    var n := if 65 <= code then code - 65 else code - 24;
    assert (n as bv5) as int == n;
  }

  // ------------------------------------------------------------------- bits

  /** Bit k of a byte, counted from the most significant. */
  function Bit8(b: bv8, k: nat): bool
    requires k < 8
  {
    (b >> (7 - k)) & 1 == 1
  }

  /** Bit k of a base32 digit, counted from the most significant. */
  function Bit5(d: bv5, k: nat): bool
    requires k < 5
  {
    (d >> (4 - k)) & 1 == 1
  }

  function Bits8(b: bv8): (bits: seq<bool>)
    ensures |bits| == 8
  {
    seq(8, k requires 0 <= k < 8 => Bit8(b, k))
  }

  function Bits5(d: bv5): (bits: seq<bool>)
    ensures |bits| == 5
  {
    seq(5, k requires 0 <= k < 5 => Bit5(d, k))
  }

  /** The bit string of a byte string, most significant bits first. */
  function ByteBits(bytes: Octets): (bits: seq<bool>)
    ensures |bits| == 8 * |bytes|
  {
    if bytes == [] then [] else ByteBits(bytes[..|bytes| - 1]) + Bits8(bytes[|bytes| - 1])
  }

  /** The bit string of a base32 digit string. */
  function DigitBits(digits: seq<bv5>): (bits: seq<bool>)
    ensures |bits| == 5 * |digits|
  {
    if digits == [] then [] else DigitBits(digits[..|digits| - 1]) + Bits5(digits[|digits| - 1])
  }

  function Pack8(bits: seq<bool>): bv8
    requires |bits| == 8
  {
    (if bits[0] then 128 else 0) | (if bits[1] then 64 else 0) | (if bits[2] then 32 else 0)
      | (if bits[3] then 16 else 0)
    | (if bits[4] then 8 else 0) | (if bits[5] then 4 else 0) | (if bits[6] then 2 else 0) | (if bits[7] then 1 else 0)
  }

  function Pack5(bits: seq<bool>): bv5
    requires |bits| == 5
  {
    (if bits[0] then 16 else 0) | (if bits[1] then 8 else 0) | (if bits[2] then 4 else 0) | (if bits[3] then 2 else 0)
    | (if bits[4] then 1 else 0)
  }

  /** A bit string cut into bytes. */
  function CutBytes(bits: seq<bool>): (bytes: Octets)
    requires |bits| % 8 == 0
    ensures 8 * |bytes| == |bits|
  {
    if bits == [] then [] else CutBytes(bits[..|bits| - 8]) + [Pack8(bits[|bits| - 8..])]
  }

  /** A bit string cut into base32 digits. */
  function CutDigits(bits: seq<bool>): (digits: seq<bv5>)
    requires |bits| % 5 == 0
    ensures 5 * |digits| == |bits|
  {
    if bits == [] then [] else CutDigits(bits[..|bits| - 5]) + [Pack5(bits[|bits| - 5..])]
  }

  lemma PackBits8(b: bv8)
    ensures Pack8(Bits8(b)) == b
  {
  }

  lemma PackBits5(d: bv5)
    ensures Pack5(Bits5(d)) == d
  {
  }

  lemma Pack8Bit(bits: seq<bool>, k: nat)
    requires |bits| == 8 && k < 8
    ensures Bit8(Pack8(bits), k) == bits[k]
  {
    if k == 0 {} else if k == 1 {} else if k == 2 {} else if k == 3 {} else if k == 4 {} else if k == 5 {}
    else if k == 6 {} else {}
  }

  lemma BitsOfPack8(bits: seq<bool>)
    requires |bits| == 8
    ensures Bits8(Pack8(bits)) == bits
  {
    forall k: nat | k < 8 ensures Bit8(Pack8(bits), k) == bits[k] {
      Pack8Bit(bits, k);
    }
  }

  lemma BitsOfPack5(bits: seq<bool>)
    requires |bits| == 5
    ensures Bits5(Pack5(bits)) == bits
  {
    forall k: nat | k < 5 ensures Bit5(Pack5(bits), k) == bits[k] {
      if k == 0 {} else if k == 1 {} else if k == 2 {} else if k == 3 {} else {}
    }
  }

  lemma {:induction false} DigitsOfBits(digits: seq<bv5>)
    ensures CutDigits(DigitBits(digits)) == digits
  {
    if digits != [] {
      var n := |digits| - 1;
      DigitsOfBits(digits[..n]);
      PackBits5(digits[n]);
      assert DigitBits(digits)[..5 * n] == DigitBits(digits[..n]);
      assert DigitBits(digits)[5 * n..] == Bits5(digits[n]);
    }
  }

  lemma {:induction false} BitsOfBytes(bits: seq<bool>)
    requires |bits| % 8 == 0
    ensures ByteBits(CutBytes(bits)) == bits
  {
    if bits != [] {
      BitsOfBytes(bits[..|bits| - 8]);
      BitsOfPack8(bits[|bits| - 8..]);
      AppendByte(CutBytes(bits[..|bits| - 8]), Pack8(bits[|bits| - 8..]));
    }
  }

  lemma SameBitsSameByte(b: bv8, c: bv8)
    requires Bits8(b) == Bits8(c)
    ensures b == c
  {
    PackBits8(b);
    PackBits8(c);
  }

  lemma {:induction false} ByteBitsAreInjective(x: Octets, y: Octets)
    requires ByteBits(x) == ByteBits(y)
    ensures x == y
    decreases |x|
  {
    if x != [] {
      var n := |x| - 1;
      var bits := ByteBits(x);
      assert bits[..8 * n] == ByteBits(x[..n]) && bits[8 * n..] == Bits8(x[n]);
      assert bits[..8 * n] == ByteBits(y[..n]) && bits[8 * n..] == Bits8(y[n]);
      ByteBitsAreInjective(x[..n], y[..n]);
      SameBitsSameByte(x[n], y[n]);
    }
  }

  /** Cutting a bit string and concatenating the pieces undo each other. */
  lemma BytesOfBits(bytes: Octets)
    ensures CutBytes(ByteBits(bytes)) == bytes
  {
    BitsOfBytes(ByteBits(bytes));
    ByteBitsAreInjective(CutBytes(ByteBits(bytes)), bytes);
  }

  lemma {:induction false} BitsOfDigits(bits: seq<bool>)
    requires |bits| % 5 == 0
    ensures DigitBits(CutDigits(bits)) == bits
  {
    if bits != [] {
      var front, last := bits[..|bits| - 5], bits[|bits| - 5..];
      BitsOfDigits(front);
      BitsOfPack5(last);
      assert CutDigits(bits) == CutDigits(front) + [Pack5(last)];
      AppendDigit(CutDigits(front), Pack5(last));
    }
  }

  lemma AppendByte(bytes: Octets, b: bv8)
    ensures ByteBits(bytes + [b]) == ByteBits(bytes) + Bits8(b)
  {
    assert (bytes + [b])[..|bytes|] == bytes;
  }

  lemma AppendDigit(digits: seq<bv5>, d: bv5)
    ensures DigitBits(digits + [d]) == DigitBits(digits) + Bits5(d)
  {
    assert (digits + [d])[..|digits|] == digits;
  }

  // ------------------------------------------------- the 32-bit accumulator

  /** `v << k` on 32 bits, for the shifts the loops make. */
  function ShiftLeft(v: bv32, k: nat): bv32
    requires k < 5
  {
    match k
    case 0 => v
    case 1 => v << 1
    case 2 => v << 2
    case 3 => v << 3
    case _ => v << 4
  }

  /** `v >>> k` on 32 bits. */
  function ShiftRight(v: bv32, k: nat): bv32
    requires k < 8
  {
    match k
    case 0 => v
    case 1 => v >> 1
    case 2 => v >> 2
    case 3 => v >> 3
    case 4 => v >> 4
    case 5 => v >> 5
    case 6 => v >> 6
    case _ => v >> 7
  }

  /** `v >> k`: JavaScript's right shift also copies the sign bit into the places it frees. */
  function SignedShiftRight(v: bv32, k: nat): bv32
    requires k < 5
  {
    if v & 0x8000_0000 == 0 then ShiftRight(v, k)
    else match k
      case 0 => v
      case 1 => (v >> 1) | 0x8000_0000
      case 2 => (v >> 2) | 0xC000_0000
      case 3 => (v >> 3) | 0xE000_0000
      case _ => (v >> 4) | 0xF000_0000
  }

  function LowByte(v: bv32): bv8 {
    (v & 0xff) as bv8
  }

  function LowDigit(v: bv32): bv5 {
    (v & 31) as bv5
  }

  function PushDigit(v: bv32, d: bv5): bv32 {
    (v << 5) | (d as bv32)
  }

  function PushByte(v: bv32, b: bv8): bv32 {
    (v << 8) | (b as bv32)
  }

  /** Bit k of the accumulator, counted from the least significant; at most 13 are ever pending. */
  function ValueBit(v: bv32, k: nat): bool
    requires k < 16
  {
    match k
    case 0 => v & 1 != 0
    case 1 => v & 2 != 0
    case 2 => v & 4 != 0
    case 3 => v & 8 != 0
    case 4 => v & 16 != 0
    case 5 => v & 32 != 0
    case 6 => v & 64 != 0
    case 7 => v & 128 != 0
    case 8 => v & 256 != 0
    case 9 => v & 512 != 0
    case 10 => v & 1024 != 0
    case 11 => v & 2048 != 0
    case 12 => v & 4096 != 0
    case 13 => v & 8192 != 0
    case 14 => v & 16384 != 0
    case _ => v & 32768 != 0
  }

  /** The low n bits of the accumulator, most significant first. */
  function LowBits(v: bv32, n: nat): (bits: seq<bool>)
    requires n <= 16
    ensures |bits| == n
  {
    seq(n, k requires 0 <= k < n => ValueBit(v, n - 1 - k))
  }

  lemma PushedDigitBit(v: bv32, d: bv5, k: nat)
    requires k < 12
    ensures ValueBit(PushDigit(v, d), k) == if k < 5 then Bit5(d, 4 - k) else ValueBit(v, k - 5)
  {
    if k == 0 {} else if k == 1 {} else if k == 2 {} else if k == 3 {} else if k == 4 {} else if k == 5 {}
    else if k == 6 {} else if k == 7 {} else if k == 8 {} else if k == 9 {} else if k == 10 {} else {}
  }

  lemma PushedByteBit(v: bv32, b: bv8, k: nat)
    requires k < 12
    ensures ValueBit(PushByte(v, b), k) == if k < 8 then Bit8(b, 7 - k) else ValueBit(v, k - 8)
  {
    if k == 0 {} else if k == 1 {} else if k == 2 {} else if k == 3 {} else if k == 4 {} else if k == 5 {}
    else if k == 6 {} else if k == 7 {} else if k == 8 {} else if k == 9 {} else if k == 10 {} else {}
  }

  lemma LowByteBit(v: bv32, k: nat)
    requires k < 8
    ensures Bit8(LowByte(v), k) == ValueBit(v, 7 - k)
  {
    if k == 0 {} else if k == 1 {} else if k == 2 {} else if k == 3 {} else if k == 4 {} else if k == 5 {}
    else if k == 6 {} else {}
  }

  lemma LowDigitBit(v: bv32, k: nat)
    requires k < 5
    ensures Bit5(LowDigit(v), k) == ValueBit(v, 4 - k)
  {
    if k == 0 {} else if k == 1 {} else if k == 2 {} else if k == 3 {} else {}
  }

  lemma PushedDigitBits(v: bv32, d: bv5, n: nat)
    requires n < 8
    ensures LowBits(PushDigit(v, d), n + 5) == LowBits(v, n) + Bits5(d)
  {
    var all := LowBits(v, n) + Bits5(d);
    forall t | 0 <= t < n + 5 ensures LowBits(PushDigit(v, d), n + 5)[t] == all[t] {
      PushedDigitBit(v, d, n + 4 - t);
    }
  }

  lemma PushedByteBits(v: bv32, b: bv8, n: nat)
    requires n < 5
    ensures LowBits(PushByte(v, b), n + 8) == LowBits(v, n) + Bits8(b)
  {
    var all := LowBits(v, n) + Bits8(b);
    forall t | 0 <= t < n + 8 ensures LowBits(PushByte(v, b), n + 8)[t] == all[t] {
      PushedByteBit(v, b, n + 7 - t);
    }
  }

  lemma LowByteBits(v: bv32)
    ensures Bits8(LowByte(v)) == LowBits(v, 8)
  {
    forall k | 0 <= k < 8 ensures Bits8(LowByte(v))[k] == LowBits(v, 8)[k] {
      LowByteBit(v, k);
    }
  }

  lemma LowDigitBits(v: bv32)
    ensures Bits5(LowDigit(v)) == LowBits(v, 5)
  {
    forall k | 0 <= k < 5 ensures Bits5(LowDigit(v))[k] == LowBits(v, 5)[k] {
      LowDigitBit(v, k);
    }
  }

  lemma ShiftedByOne(v: bv32, s: nat, m: nat)
    requires s == 1 && m < 8
    ensures ValueBit(ShiftRight(v, s), m) == ValueBit(v, s + m)
  {
    if m == 0 {} else if m == 1 {} else if m == 2 {} else if m == 3 {} else if m == 4 {} else if m == 5 {}
    else if m == 6 {} else {}
  }

  lemma ShiftedByTwo(v: bv32, s: nat, m: nat)
    requires s == 2 && m < 8
    ensures ValueBit(ShiftRight(v, s), m) == ValueBit(v, s + m)
  {
    if m == 0 {} else if m == 1 {} else if m == 2 {} else if m == 3 {} else if m == 4 {} else if m == 5 {}
    else if m == 6 {} else {}
  }

  lemma ShiftedByThree(v: bv32, s: nat, m: nat)
    requires s == 3 && m < 8
    ensures ValueBit(ShiftRight(v, s), m) == ValueBit(v, s + m)
  {
    if m == 0 {} else if m == 1 {} else if m == 2 {} else if m == 3 {} else if m == 4 {} else if m == 5 {}
    else if m == 6 {} else {}
  }

  lemma ShiftedByFour(v: bv32, s: nat, m: nat)
    requires s == 4 && m < 8
    ensures ValueBit(ShiftRight(v, s), m) == ValueBit(v, s + m)
  {
    if m == 0 {} else if m == 1 {} else if m == 2 {} else if m == 3 {} else if m == 4 {} else if m == 5 {}
    else if m == 6 {} else {}
  }

  lemma ShiftedByFive(v: bv32, s: nat, m: nat)
    requires s == 5 && m < 8
    ensures ValueBit(ShiftRight(v, s), m) == ValueBit(v, s + m)
  {
    if m == 0 {} else if m == 1 {} else if m == 2 {} else if m == 3 {} else if m == 4 {} else if m == 5 {}
    else if m == 6 {} else {}
  }

  lemma ShiftedBySix(v: bv32, s: nat, m: nat)
    requires s == 6 && m < 8
    ensures ValueBit(ShiftRight(v, s), m) == ValueBit(v, s + m)
  {
    if m == 0 {} else if m == 1 {} else if m == 2 {} else if m == 3 {} else if m == 4 {} else if m == 5 {}
    else if m == 6 {} else {}
  }

  lemma ShiftedBySeven(v: bv32, s: nat, m: nat)
    requires s == 7 && m < 8
    ensures ValueBit(ShiftRight(v, s), m) == ValueBit(v, s + m)
  {
    if m == 0 {} else if m == 1 {} else if m == 2 {} else if m == 3 {} else if m == 4 {} else if m == 5 {}
    else if m == 6 {} else {}
  }

  lemma ShiftedBit(v: bv32, s: nat, m: nat)
    requires s < 8 && m < 8
    ensures ValueBit(ShiftRight(v, s), m) == ValueBit(v, s + m)
  {
    match s
    case 0 =>
    case 1 => ShiftedByOne(v, s, m);
    case 2 => ShiftedByTwo(v, s, m);
    case 3 => ShiftedByThree(v, s, m);
    case 4 => ShiftedByFour(v, s, m);
    case 5 => ShiftedByFive(v, s, m);
    case 6 => ShiftedBySix(v, s, m);
    case _ => ShiftedBySeven(v, s, m);
  }

  lemma SplitLowBitAt(v: bv32, s: nat, n: nat, t: nat)
    requires s < 8 && n <= 8 && t < s + n
    ensures LowBits(v, s + n)[t] == (LowBits(ShiftRight(v, s), n) + LowBits(v, s))[t]
  {
    if t < n {
      ShiftedBit(v, s, n - 1 - t);
    }
  }

  /** The low s + n bits are the low n bits after a shift, then the s bits shifted out. */
  lemma SplitLowBits(v: bv32, s: nat, n: nat)
    requires s < 8 && n <= 8
    ensures LowBits(v, s + n) == LowBits(ShiftRight(v, s), n) + LowBits(v, s)
  {
    forall t | 0 <= t < s + n ensures LowBits(v, s + n)[t] == (LowBits(ShiftRight(v, s), n) + LowBits(v, s))[t] {
      SplitLowBitAt(v, s, n, t);
    }
  }

  /** The sign bits that `>>` copies in never reach the low byte. */
  lemma SignStaysHigh(v: bv32, s: nat)
    requires s < 5
    ensures LowByte(SignedShiftRight(v, s)) == LowByte(ShiftRight(v, s))
  {
    if s == 0 {} else if s == 1 {} else if s == 2 {} else if s == 3 {} else {}
  }

  lemma ExtractByte(v: bv32, s: nat)
    requires s < 5
    ensures LowBits(v, s + 8) == Bits8(LowByte(SignedShiftRight(v, s))) + LowBits(v, s)
  {
    SplitLowBits(v, s, 8);
    SignStaysHigh(v, s);
    LowByteBits(ShiftRight(v, s));
  }

  lemma ExtractDigit(v: bv32, s: nat)
    requires s < 8
    ensures LowBits(v, s + 5) == Bits5(LowDigit(ShiftRight(v, s))) + LowBits(v, s)
  {
    SplitLowBits(v, s, 5);
    LowDigitBits(ShiftRight(v, s));
  }

  lemma ShiftedLeftBit(v: bv32, pad: nat, k: nat)
    requires pad < 5 && k < 5
    ensures ValueBit(ShiftLeft(v, pad), k) == (pad <= k && ValueBit(v, k - pad))
  {
    if k == 0 {} else if k == 1 {} else if k == 2 {} else if k == 3 {} else {}
  }

  lemma PadDigit(v: bv32, pad: nat)
    requires pad < 5
    ensures Bits5(LowDigit(ShiftLeft(v, pad))) == LowBits(v, 5 - pad) + ZeroBits(pad)
  {
    LowDigitBits(ShiftLeft(v, pad));
    var all := LowBits(v, 5 - pad) + ZeroBits(pad);
    forall t | 0 <= t < 5 ensures LowBits(ShiftLeft(v, pad), 5)[t] == all[t] {
      ShiftedLeftBit(v, pad, 4 - t);
    }
  }

  // ---------------------------------------------------------------- base32

  function ZeroBits(n: nat): (bits: seq<bool>)
    ensures |bits| == n
  {
    seq(n, _ => false)
  }

  function DigitsOf(encoded: Str): (digits: seq<bv5>)
    ensures |digits| == |encoded|
  {
    seq(|encoded|, i requires 0 <= i < |encoded| => if IsBase32(encoded[i]) then DigitOf(encoded[i]) else 0)
  }

  function TextOf(digits: seq<bv5>): (text: Str)
    ensures |text| == |digits|
  {
    seq(|digits|, i requires 0 <= i < |digits| => CharOf(digits[i]))
  }

  lemma TextOfAppend(digits: seq<bv5>, d: bv5)
    ensures TextOf(digits + [d]) == TextOf(digits) + [CharOf(d)]
  {
  }

  lemma DigitsOfText(digits: seq<bv5>)
    ensures DigitsOf(TextOf(digits)) == digits
    ensures forall c :: c in TextOf(digits) ==> IsBase32(c)
  {
    forall i | 0 <= i < |digits|
      ensures IsBase32(TextOf(digits)[i]) && DigitsOf(TextOf(digits))[i] == digits[i]
    {
      DigitRoundTrips(digits[i]);
    }
  }

  lemma TextOfDigits(encoded: Str)
    requires forall c :: c in encoded ==> IsBase32(c)
    ensures TextOf(DigitsOf(encoded)) == encoded
  {
    forall i | 0 <= i < |encoded| ensures TextOf(DigitsOf(encoded))[i] == encoded[i] {
      CharRoundTrips(encoded[i]);
    }
  }

  /** The first character outside the alphabet, from position i on. */
  function FirstBad(encoded: Str, i: nat): (r: Option<nat>)
    ensures r.None? ==> forall k :: i <= k < |encoded| ==> IsBase32(encoded[k])
    ensures r.Some? ==> i <= r.value < |encoded| && !IsBase32(encoded[r.value])
    ensures r.Some? ==> forall k :: i <= k < r.value ==> IsBase32(encoded[k])
    decreases |encoded| - i
  {
    if i >= |encoded| then None
    else if !IsBase32(encoded[i]) then Some(i)
    else FirstBad(encoded, i + 1)
  }

  function Base32Bytes(encoded: Str): (r: Result<Octets, StrKeyError>)
    ensures r.Success? ==> |r.value| == 35
  {
    if |encoded| != 56 then Failure(BadLength)
    else match FirstBad(encoded, 0)
      case Some(i) => Failure(BadCharacter(i))
      case None => Success(CutBytes(DigitBits(DigitsOf(encoded))))
  }

  lemma AcceptedBase32(encoded: Str)
    requires Base32Bytes(encoded).Success?
    ensures |encoded| == 56 && forall c :: c in encoded ==> IsBase32(c)
    ensures ByteBits(Base32Bytes(encoded).value) == DigitBits(DigitsOf(encoded))
  {
    assert FirstBad(encoded, 0).None?;
    BitsOfBytes(DigitBits(DigitsOf(encoded)));
  }

  /** The digits of a byte string, its bit string padded with zeros to a multiple of five. */
  function Base32Digits(data: Octets): (digits: seq<bv5>) {
    PaddedLength(|data|);
    CutDigits(ByteBits(data) + ZeroBits(PadBits(|data|)))
  }

  /** Zero bits that complete the last digit of n bytes. */
  function PadBits(n: nat): nat {
    match n % 5
    case 0 => 0
    case 1 => 2
    case 2 => 4
    case 3 => 1
    case _ => 3
  }

  method Base32Decode(encoded: Str) returns (r: Result<Octets, StrKeyError>)
    ensures r == Base32Bytes(encoded)
  {
    if |encoded| != 56 {
      return Failure(BadLength);
    }
    var out := new bv8[35](_ => 0);
    var bits: nat, value: bv32, index: nat := 0, 0, 0;

    for i := 0 to |encoded|
      invariant index <= 35 && Decoding(encoded, i, out[..index], value, bits)
      invariant FirstBad(encoded, i) == FirstBad(encoded, 0)
    {
      if !IsBase32(encoded[i]) {
        return Failure(BadCharacter(i));
      }
      value, bits, index := TakeCharacter(encoded, i, out, index, value, bits);
    }
    // 56 characters carry exactly 35 bytes, so the source's test for trailing bits finds none left.
    DecodedAll(encoded, out[..index], value, bits);
    assert out[..index] == out[..];
    return Success(out[..]);
  }

  /** Five more bits in; a byte out once eight are held. */
  method TakeCharacter(encoded: Str, i: nat, out: array<bv8>, was: nat, held: bv32, count: nat)
    returns (value: bv32, bits: nat, index: nat)
    requires i < |encoded| == 56 && IsBase32(encoded[i]) && was <= 35 == out.Length
    requires Decoding(encoded, i, out[..was], held, count)
    modifies out
    ensures index <= 35 && Decoding(encoded, i + 1, out[..index], value, bits)
  {
    DecodeCharacter(encoded, i, out[..was], held, count);
    value, bits, index := PushDigit(held, DigitOf(encoded[i])), count + 5, was;
    if bits >= 8 {
      bits := bits - 8;
      ghost var done := out[..was];
      out[index] := LowByte(SignedShiftRight(value, bits));
      index := index + 1;
      assert out[..index] == done + [out[was]];
    }
  }

  /** After i characters: the bytes emitted and the low bits held are the digits read so far. */
  ghost predicate Decoding(encoded: Str, i: nat, bytes: Octets, value: bv32, bits: nat) {
    i <= |encoded| && bits < 8 && 8 * |bytes| + bits == 5 * i
    && ByteBits(bytes) + LowBits(value, bits) == DigitBits(DigitsOf(encoded)[..i])
  }

  lemma DecodeCharacter(encoded: Str, i: nat, bytes: Octets, value: bv32, bits: nat)
    requires i < |encoded| == 56 && IsBase32(encoded[i]) && Decoding(encoded, i, bytes, value, bits)
    ensures var next := PushDigit(value, DigitOf(encoded[i]));
            if bits < 3 then
              Decoding(encoded, i + 1, bytes, next, bits + 5)
            else
              |bytes| < 35
              && Decoding(encoded, i + 1, bytes + [LowByte(SignedShiftRight(next, bits - 3))], next, bits - 3)
  {
    assert DigitsOf(encoded)[i] == DigitOf(encoded[i]);
    DecodeStep(DigitsOf(encoded), i, bytes, value, bits);
  }

  lemma DecodedAll(encoded: Str, bytes: Octets, value: bv32, bits: nat)
    requires |encoded| == 56 && Decoding(encoded, 56, bytes, value, bits)
    ensures |bytes| == 35 && bits == 0 && (FirstBad(encoded, 0).None? ==> Base32Bytes(encoded) == Success(bytes))
  {
    assert DigitsOf(encoded)[..56] == DigitsOf(encoded);
    assert ByteBits(bytes) + LowBits(value, 0) == ByteBits(bytes);
    BytesOfBits(bytes);
  }

  lemma DecodeStep(digits: seq<bv5>, i: nat, done: Octets, value: bv32, bits: nat)
    requires i < |digits| && bits < 8
    requires ByteBits(done) + LowBits(value, bits) == DigitBits(digits[..i])
    ensures var next := PushDigit(value, digits[i]);
            if bits < 3 then
              ByteBits(done) + LowBits(next, bits + 5) == DigitBits(digits[..i + 1])
            else
              ByteBits(done + [LowByte(SignedShiftRight(next, bits - 3))]) + LowBits(next, bits - 3)
              == DigitBits(digits[..i + 1])
  {
    var next := PushDigit(value, digits[i]);
    DecodePush(digits, i, value, bits, ByteBits(done));
    if bits >= 3 {
      DecodeEmit(done, next, bits - 3);
    }
  }

  lemma DecodePush(digits: seq<bv5>, i: nat, value: bv32, bits: nat, soFar: seq<bool>)
    requires i < |digits| && bits < 8
    requires soFar + LowBits(value, bits) == DigitBits(digits[..i])
    ensures soFar + LowBits(PushDigit(value, digits[i]), bits + 5) == DigitBits(digits[..i + 1])
  {
    PushedDigitBits(value, digits[i], bits);
    AppendDigit(digits[..i], digits[i]);
    assert digits[..i] + [digits[i]] == digits[..i + 1];
    assert soFar + (LowBits(value, bits) + Bits5(digits[i])) == (soFar + LowBits(value, bits)) + Bits5(digits[i]);
  }

  lemma DecodeEmit(done: Octets, value: bv32, s: nat)
    requires s < 5
    ensures ByteBits(done) + LowBits(value, s + 8)
         == ByteBits(done + [LowByte(SignedShiftRight(value, s))]) + LowBits(value, s)
  {
    var b := LowByte(SignedShiftRight(value, s));
    ExtractByte(value, s);
    AppendByte(done, b);
    assert ByteBits(done) + (Bits8(b) + LowBits(value, s)) == (ByteBits(done) + Bits8(b)) + LowBits(value, s);
  }

  method Base32Encode(data: Octets) returns (text: Str)
    ensures text == TextOf(Base32Digits(data))
  {
    var bits, value := 0, 0 as bv32;
    ghost var digits: seq<bv5> := [];
    text := [];
    for i := 0 to |data|
      invariant bits < 5
      invariant text == TextOf(digits)
      invariant DigitBits(digits) + LowBits(value, bits) == ByteBits(data[..i])
    {
      EncodePush(data, i, value, bits, DigitBits(digits));
      value := PushByte(value, data[i]);
      bits := bits + 8;
      while bits >= 5
        invariant bits <= 12
        invariant text == TextOf(digits)
        invariant DigitBits(digits) + LowBits(value, bits) == ByteBits(data[..i + 1])
      {
        TextOfAppend(digits, LowDigit(ShiftRight(value, bits - 5)));
        text := text + [CharOf(LowDigit(ShiftRight(value, bits - 5)))];
        EncodeEmit(digits, value, bits - 5);
        digits := digits + [LowDigit(ShiftRight(value, bits - 5))];
        bits := bits - 5;
      }
    }
    EncodeTail(data, digits, value, bits);
    if bits > 0 {
      TextOfAppend(digits, LowDigit(ShiftLeft(value, 5 - bits)));
      text := text + [CharOf(LowDigit(ShiftLeft(value, 5 - bits)))];
    }
  }

  lemma EncodePush(data: Octets, i: nat, value: bv32, bits: nat, soFar: seq<bool>)
    requires i < |data| && bits < 5
    requires soFar + LowBits(value, bits) == ByteBits(data[..i])
    ensures soFar + LowBits(PushByte(value, data[i]), bits + 8) == ByteBits(data[..i + 1])
  {
    PushedByteBits(value, data[i], bits);
    AppendByte(data[..i], data[i]);
    assert data[..i] + [data[i]] == data[..i + 1];
    assert soFar + (LowBits(value, bits) + Bits8(data[i])) == (soFar + LowBits(value, bits)) + Bits8(data[i]);
  }

  lemma EncodeEmit(done: seq<bv5>, value: bv32, s: nat)
    requires s < 8
    ensures DigitBits(done) + LowBits(value, s + 5)
         == DigitBits(done + [LowDigit(ShiftRight(value, s))]) + LowBits(value, s)
  {
    var d := LowDigit(ShiftRight(value, s));
    ExtractDigit(value, s);
    AppendDigit(done, d);
    assert DigitBits(done) + (Bits5(d) + LowBits(value, s)) == (DigitBits(done) + Bits5(d)) + LowBits(value, s);
  }

  lemma PaddedLength(n: nat)
    ensures (8 * n + PadBits(n)) % 5 == 0
  {
    var q := n / 5;
    assert n == 5 * q + n % 5;
    assert 8 * n + PadBits(n) == 5 * (8 * q) + (8 * (n % 5) + PadBits(n));
  }

  lemma PadAmount(n: nat, m: nat, bits: nat)
    requires bits < 5 && 5 * m + bits == 8 * n
    ensures PadBits(n) == if bits == 0 then 0 else 5 - bits
  {
    var q := n / 5;
    assert n == 5 * q + n % 5;
    assert 5 * (m - 8 * q) + bits == 8 * (n % 5);
  }

  lemma EncodeTail(data: Octets, digits: seq<bv5>, value: bv32, bits: nat)
    requires bits < 5 && DigitBits(digits) + LowBits(value, bits) == ByteBits(data[..|data|])
    ensures Base32Digits(data) == if bits > 0 then digits + [LowDigit(ShiftLeft(value, 5 - bits))] else digits
  {
    assert data[..|data|] == data;
    assert |DigitBits(digits) + LowBits(value, bits)| == 8 * |data|;
    PadAmount(|data|, |digits|, bits);
    var pad := if bits == 0 then 0 else 5 - bits;
    assert Base32Digits(data) == CutDigits(ByteBits(data) + ZeroBits(pad));
    if bits > 0 {
      PaddedTail(DigitBits(digits), digits, ByteBits(data), value, 5 - bits);
    } else {
      EmptyTail(ByteBits(data), digits);
    }
  }

  lemma EmptyTail(all: seq<bool>, digits: seq<bv5>)
    requires all == DigitBits(digits)
    ensures |all + ZeroBits(0)| % 5 == 0 && CutDigits(all + ZeroBits(0)) == digits
  {
    assert all + ZeroBits(0) == all;
    DigitsOfBits(digits);
  }

  lemma PaddedTail(soFar: seq<bool>, digits: seq<bv5>, all: seq<bool>, value: bv32, pad: nat)
    requires 0 < pad < 5 && soFar == DigitBits(digits) && soFar + LowBits(value, 5 - pad) == all
    ensures |all + ZeroBits(pad)| % 5 == 0
    ensures CutDigits(all + ZeroBits(pad)) == digits + [LowDigit(ShiftLeft(value, pad))]
  {
    var d := LowDigit(ShiftLeft(value, pad));
    PadDigit(value, pad);
    AppendDigit(digits, d);
    assert all + ZeroBits(pad) == soFar + (LowBits(value, 5 - pad) + ZeroBits(pad));
    DigitsOfBits(digits + [d]);
  }

  // --------------------------------------------------------- CRC16 (XModem)

  /** The 16-bit shift register, most significant bit first. */
  type Register = r: seq<bool> | |r| == 16 witness ZeroBits(16)

  function ZeroRegister(): Register {
    ZeroBits(16)
  }

  /** Shifts one message bit in and divides by x^16 + x^12 + x^5 + 1. */
  function FeedBit(r: Register, bit: bool): Register {
    Shifted(r, r[0] != bit)
  }

  function Shifted(r: Register, carry: bool): Register {
    seq(16, k requires 0 <= k < 16 =>
      if k == 15 then carry else if k == 3 || k == 10 then r[k + 1] != carry else r[k + 1])
  }

  function Feed(r: Register, bits: seq<bool>): Register {
    if bits == [] then r else FeedBit(Feed(r, bits[..|bits| - 1]), bits[|bits| - 1])
  }

  /** The remainder of the message polynomial. */
  function Remainder(bits: seq<bool>): Register {
    Feed(ZeroRegister(), bits)
  }

  /** The checksum bytes appended to a body: low byte first. */
  function Checksum(body: Octets): (sum: Octets)
    ensures |sum| == 2
  {
    var r := Remainder(ByteBits(body));
    [Pack8(r[8..]), Pack8(r[..8])]
  }

  function Xor(x: seq<bool>, y: seq<bool>): (z: seq<bool>)
    requires |x| == |y|
    ensures |z| == |x|
  {
    seq(|x|, k requires 0 <= k < |x| => x[k] != y[k])
  }

  lemma {:induction false} FeedIsLinear(r: Register, s: Register, x: seq<bool>, y: seq<bool>)
    requires |x| == |y|
    ensures Xor(Feed(r, x), Feed(s, y)) == Feed(Xor(r, s), Xor(x, y))
    decreases |x|
  {
    if x == [] {
    } else {
      var n := |x| - 1;
      FeedIsLinear(r, s, x[..n], y[..n]);
      assert Xor(x, y)[..n] == Xor(x[..n], y[..n]);
      FeedBitIsLinear(Feed(r, x[..n]), Feed(s, y[..n]), x[n], y[n]);
    }
  }

  lemma FeedBitIsLinear(r: Register, s: Register, a: bool, b: bool)
    ensures Xor(FeedBit(r, a), FeedBit(s, b)) == FeedBit(Xor(r, s), a != b)
  {
  }

  /** Some bit among the last m of the register is set. */
  ghost predicate LowSet(r: Register, m: nat) {
    exists j :: 0 <= j < 16 && 16 - m <= j && r[j]
  }

  lemma LowSetSteps(r: Register, bit: bool, m: nat)
    requires m < 16 && LowSet(r, m)
    ensures LowSet(FeedBit(r, bit), m + 1)
  {
    var j :| 0 <= j < 16 && 16 - m <= j && r[j];
    var next := FeedBit(r, bit);
    if next[15] {
    } else {
      assert next[j - 1];
    }
  }

  lemma NonZeroSteps(r: Register)
    requires LowSet(r, 16)
    ensures LowSet(FeedBit(r, false), 16)
  {
    var j :| 0 <= j < 16 && r[j];
    var next := FeedBit(r, false);
    if r[0] {
      assert next[15];
    } else {
      assert next[j - 1];
    }
  }

  lemma {:induction false} ZerosKeepZero(bits: seq<bool>)
    requires forall t :: 0 <= t < |bits| ==> !bits[t]
    ensures Remainder(bits) == ZeroRegister()
  {
    if bits != [] {
      ZerosKeepZero(bits[..|bits| - 1]);
    }
  }

  /** After a first set bit, the register keeps a set bit among as many low places as bits were fed. */
  lemma {:induction false} BurstRemainder(e: seq<bool>, first: nat)
    requires first < |e| <= first + 16 && e[first]
    requires forall t :: 0 <= t < first ==> !e[t]
    ensures LowSet(Remainder(e), |e| - first)
  {
    var n := |e| - 1;
    if n == first {
      ZerosKeepZero(e[..n]);
      assert FeedBit(ZeroRegister(), true)[15];
    } else {
      BurstRemainder(e[..n], first);
      LowSetSteps(Remainder(e[..n]), e[n], n - first);
    }
  }

  lemma {:induction false} ErrorRemainder(e: seq<bool>, first: nat, last: nat)
    requires first < last <= |e| && last <= first + 16 && e[first]
    requires forall t :: 0 <= t < |e| && (t < first || last <= t) ==> !e[t]
    ensures LowSet(Remainder(e), 16)
  {
    if |e| == last {
      BurstRemainder(e, first);
    } else {
      ErrorRemainder(e[..|e| - 1], first, last);
      NonZeroSteps(Remainder(e[..|e| - 1]));
    }
  }

  /** CRC16 catches every burst of at most sixteen bits. */
  lemma BurstIsCaught(x: seq<bool>, y: seq<bool>, lo: nat, hi: nat)
    requires |x| == |y| && lo <= hi <= |x| && hi <= lo + 16 && x != y
    requires forall t :: 0 <= t < |x| && (t < lo || hi <= t) ==> x[t] == y[t]
    ensures Remainder(x) != Remainder(y)
    ensures hi == |x| ==> exists j :: 16 - (hi - lo) <= j < 16 && Remainder(x)[j] != Remainder(y)[j]
  {
    var e := Xor(x, y);
    var first := FirstDifference(x, y);
    FeedIsLinear(ZeroRegister(), ZeroRegister(), x, y);
    assert Xor(ZeroRegister(), ZeroRegister()) == ZeroRegister();
    ErrorRemainder(e, first, hi);
    var d := Remainder(e);
    assert d == Xor(Remainder(x), Remainder(y));
    if hi == |x| {
      BurstRemainder(e, first);
      var j :| 0 <= j < 16 && 16 - (|e| - first) <= j && d[j];
      assert Remainder(x)[j] != Remainder(y)[j];
    }
  }

  lemma {:induction false} FirstDifference(x: seq<bool>, y: seq<bool>) returns (first: nat)
    requires |x| == |y| && x != y
    ensures first < |x| && x[first] != y[first]
    ensures forall t :: 0 <= t < first ==> x[t] == y[t]
  {
    if x[0] != y[0] {
      first := 0;
    } else {
      assert x == [x[0]] + x[1..] && y == [y[0]] + y[1..];
      var rest := FirstDifference(x[1..], y[1..]);
      first := rest + 1;
      forall t | 0 <= t < first ensures x[t] == y[t] {
        assert t > 0 ==> x[1..][t - 1] == y[1..][t - 1];
      }
    }
  }

  // ---------------------------------------- the checksum loop, on 32-bit words

  function CrcShift(crc: bv32): bv32 {
    if crc & 0x8000 != 0 then ((crc << 1) ^ 0x1021) & 0xffff else (crc << 1) & 0xffff
  }

  lemma LowBitAt(v: bv32, t: nat)
    requires t < 16
    ensures LowBits(v, 16)[t] == ValueBit(v, 15 - t)
  {
  }

  lemma FeedBitAt(r: Register, t: nat)
    requires t < 16
    ensures FeedBit(r, false)[t] == if t == 15 then r[0] else if t == 3 || t == 10 then r[t + 1] != r[0] else r[t + 1]
  {
  }

  /** Bit by bit, the word moves as the register does. */
  lemma CrcShiftFirstBits(crc: bv32, t: nat)
    requires 0 <= t < 4
    ensures LowBits(CrcShift(crc), 16)[t] == FeedBit(LowBits(crc, 16), false)[t]
  {
    LowBitAt(CrcShift(crc), t);
    LowBitAt(crc, 0);
    LowBitAt(crc, if t < 15 then t + 1 else 0);
    FeedBitAt(LowBits(crc, 16), t);
    if t == 0 {} else if t == 1 {} else if t == 2 {} else {}
  }

  lemma CrcShiftSecondBits(crc: bv32, t: nat)
    requires 4 <= t < 8
    ensures LowBits(CrcShift(crc), 16)[t] == FeedBit(LowBits(crc, 16), false)[t]
  {
    LowBitAt(CrcShift(crc), t);
    LowBitAt(crc, 0);
    LowBitAt(crc, if t < 15 then t + 1 else 0);
    FeedBitAt(LowBits(crc, 16), t);
    if t == 4 {} else if t == 5 {} else if t == 6 {} else {}
  }

  lemma CrcShiftThirdBits(crc: bv32, t: nat)
    requires 8 <= t < 12
    ensures LowBits(CrcShift(crc), 16)[t] == FeedBit(LowBits(crc, 16), false)[t]
  {
    LowBitAt(CrcShift(crc), t);
    LowBitAt(crc, 0);
    LowBitAt(crc, if t < 15 then t + 1 else 0);
    FeedBitAt(LowBits(crc, 16), t);
    if t == 8 {} else if t == 9 {} else if t == 10 {} else {}
  }

  lemma CrcShiftLastBits(crc: bv32, t: nat)
    requires 12 <= t < 16
    ensures LowBits(CrcShift(crc), 16)[t] == FeedBit(LowBits(crc, 16), false)[t]
  {
    LowBitAt(CrcShift(crc), t);
    LowBitAt(crc, 0);
    LowBitAt(crc, if t < 15 then t + 1 else 0);
    FeedBitAt(LowBits(crc, 16), t);
    if t == 12 {} else if t == 13 {} else if t == 14 {} else {}
  }

  lemma CrcShiftFeeds(crc: bv32)
    ensures LowBits(CrcShift(crc), 16) == FeedBit(LowBits(crc, 16), false)
  {
    forall t | 0 <= t < 16 ensures LowBits(CrcShift(crc), 16)[t] == FeedBit(LowBits(crc, 16), false)[t] {
      if t < 4 {
        CrcShiftFirstBits(crc, t);
      } else if t < 8 {
        CrcShiftSecondBits(crc, t);
      } else if t < 12 {
        CrcShiftThirdBits(crc, t);
      } else {
        CrcShiftLastBits(crc, t);
      }
    }
  }

  lemma CrcLoadBit(crc: bv32, b: bv8, k: nat)
    requires k < 16
    ensures ValueBit(crc ^ ((b as bv32) << 8), k) == if k < 8 then ValueBit(crc, k)
                                                     else ValueBit(crc, k) != Bit8(b, 15 - k)
  {
    if k == 0 {} else if k == 1 {} else if k == 2 {} else if k == 3 {} else if k == 4 {} else if k == 5 {}
    else if k == 6 {} else if k == 7 {} else if k == 8 {} else if k == 9 {} else if k == 10 {} else if k == 11 {}
    else if k == 12 {} else if k == 13 {} else if k == 14 {} else {}
  }

  /** The register with the bits still to be fed already added in at its top. */
  function Loaded(r: Register, bits: seq<bool>): Register
    requires |bits| <= 16
  {
    Xor(r, bits + ZeroBits(16 - |bits|))
  }

  lemma CrcLoad(crc: bv32, b: bv8)
    ensures LowBits(crc ^ ((b as bv32) << 8), 16) == Loaded(LowBits(crc, 16), Bits8(b))
  {
    var next := crc ^ ((b as bv32) << 8);
    forall t | 0 <= t < 16 ensures LowBits(next, 16)[t] == Loaded(LowBits(crc, 16), Bits8(b))[t] {
      CrcLoadBit(crc, b, 15 - t);
    }
  }

  /** Shifting a loaded register feeds the first of the loaded bits. */
  lemma LoadedSteps(r: Register, bits: seq<bool>)
    requires 0 < |bits| <= 16
    ensures FeedBit(Loaded(r, bits), false) == Loaded(FeedBit(r, bits[0]), bits[1..])
  {
  }

  lemma {:induction false} FeedConcat(r: Register, x: seq<bool>, y: seq<bool>)
    ensures Feed(r, x + y) == Feed(Feed(r, x), y)
    decreases |y|
  {
    if y == [] {
      assert x + y == x;
    } else {
      FeedConcat(r, x, y[..|y| - 1]);
      assert (x + y)[..|x + y| - 1] == x + y[..|y| - 1];
    }
  }

  /** What one byte does to the register: the inner loop, from its k-th turn to the next. */
  lemma CrcTurn(before: Register, b: bv8, k: nat, crc: bv32)
    requires k < 8 && LowBits(crc, 16) == Loaded(Feed(before, Bits8(b)[..k]), Bits8(b)[k..])
    ensures LowBits(CrcShift(crc), 16) == Loaded(Feed(before, Bits8(b)[..k + 1]), Bits8(b)[k + 1..])
  {
    var bits := Bits8(b);
    CrcShiftFeeds(crc);
    LoadedSteps(Feed(before, bits[..k]), bits[k..]);
    assert bits[..k + 1][..k] == bits[..k];
    assert bits[k..][1..] == bits[k + 1..];
  }

  lemma CrcByteDone(data: Octets, i: nat, crc: bv32)
    requires i < |data|
    requires LowBits(crc, 16) == Loaded(Feed(Remainder(ByteBits(data[..i])), Bits8(data[i])[..8]), Bits8(data[i])[8..])
    ensures LowBits(crc, 16) == Remainder(ByteBits(data[..i + 1]))
  {
    var bits := Bits8(data[i]);
    assert bits[..8] == bits && bits[8..] == [];
    assert Loaded(Feed(Remainder(ByteBits(data[..i])), bits), []) == Feed(Remainder(ByteBits(data[..i])), bits);
    AppendByte(data[..i], data[i]);
    assert data[..i] + [data[i]] == data[..i + 1];
    FeedConcat(ZeroRegister(), ByteBits(data[..i]), bits);
  }

  lemma CrcByteStarts(before: Register, b: bv8, crc: bv32)
    requires LowBits(crc, 16) == before
    ensures LowBits(crc ^ ((b as bv32) << 8), 16) == Loaded(Feed(before, Bits8(b)[..0]), Bits8(b)[0..])
  {
    CrcLoad(crc, b);
    assert Bits8(b)[0..] == Bits8(b);
  }

  lemma SixteenBits(crc: bv32)
    ensures LowBits(crc & 0xffff, 16) == LowBits(crc, 16)
  {
    forall t | 0 <= t < 16 ensures LowBits(crc & 0xffff, 16)[t] == LowBits(crc, 16)[t] {
      MaskedBit(crc, 15 - t);
    }
  }

  lemma NoBits()
    ensures LowBits(0, 16) == ZeroRegister()
  {
    forall t | 0 <= t < 16 ensures !LowBits(0, 16)[t] {
      ZeroHasNoBit(15 - t);
    }
  }

  lemma ZeroHasNoBit(k: nat)
    requires k < 16
    ensures !ValueBit(0, k)
  {
  }

  lemma MaskedBit(crc: bv32, k: nat)
    requires k < 16
    ensures ValueBit(crc & 0xffff, k) == ValueBit(crc, k)
  {
    if k == 0 {} else if k == 1 {} else if k == 2 {} else if k == 3 {} else if k == 4 {} else if k == 5 {}
    else if k == 6 {} else if k == 7 {} else if k == 8 {} else if k == 9 {} else if k == 10 {} else if k == 11 {}
    else if k == 12 {} else if k == 13 {} else if k == 14 {} else {}
  }

  method Crc16XModem(data: Octets) returns (crc: bv32)
    ensures LowBits(crc, 16) == Remainder(ByteBits(data)) && crc & 0xffff == crc
  {
    crc := 0;
    NoBits();
    for i := 0 to |data|
      invariant LowBits(crc, 16) == Remainder(ByteBits(data[..i]))
    {
      ghost var before := Remainder(ByteBits(data[..i]));
      CrcByteStarts(before, data[i], crc);
      crc := crc ^ ((data[i] as bv32) << 8);
      for k := 0 to 8
        invariant LowBits(crc, 16) == Loaded(Feed(before, Bits8(data[i])[..k]), Bits8(data[i])[k..])
      {
        CrcTurn(before, data[i], k, crc);
        crc := CrcShift(crc);
      }
      CrcByteDone(data, i, crc);
    }
    assert data[..|data|] == data;
    SixteenBits(crc);
    crc := crc & 0xffff;
  }

  // ----------------------------------------------------------------- StrKey

  function StrKeyPayload(encoded: Str, version: bv8): (r: Result<Bytes32, StrKeyError>) {
    match Base32Bytes(encoded)
    case Failure(e) => Failure(e)
    case Success(bytes) =>
      if bytes[0] != version then Failure(WrongVersion)
      else if bytes[33..] != Checksum(bytes[..33]) then Failure(ChecksumMismatch)
      else Success(bytes[1..33])
  }

  function StrKeyText(payload: Octets, version: bv8): (r: Result<Str, StrKeyError>) {
    if |payload| != 32 then Failure(BadPayloadLength)
    else Success(TextOf(Base32Digits([version] + payload + Checksum([version] + payload))))
  }

  lemma ChecksumWord(body: Octets, crc: bv32)
    requires LowBits(crc, 16) == Remainder(ByteBits(body))
    ensures Checksum(body) == [LowByte(crc), LowByte(crc >> 8)]
  {
    LowByteBits(crc);
    PackBits8(LowByte(crc));
    HighBits(crc);
    LowByteBits(crc >> 8);
    PackBits8(LowByte(crc >> 8));
  }

  lemma HighBits(crc: bv32)
    ensures LowBits(crc, 16)[8..] == LowBits(crc, 8)
    ensures LowBits(crc, 16)[..8] == LowBits(crc >> 8, 8)
  {
    forall t | 0 <= t < 8 ensures LowBits(crc >> 8, 8)[t] == LowBits(crc, 16)[..8][t] {
      HighBit(crc, 7 - t);
    }
  }

  lemma HighBit(crc: bv32, k: nat)
    requires k < 8
    ensures ValueBit(crc >> 8, k) == ValueBit(crc, k + 8)
  {
    if k == 0 {} else if k == 1 {} else if k == 2 {} else if k == 3 {} else if k == 4 {} else if k == 5 {}
    else if k == 6 {} else {}
  }

  method DecodeStrKey(encoded: Str, expectedVersion: bv8) returns (r: Result<Bytes32, StrKeyError>)
    ensures r == StrKeyPayload(encoded, expectedVersion)
  {
    var decoded := Base32Decode(encoded);
    if decoded.Failure? {
      return Failure(decoded.error);
    }
    var bytes := decoded.value;
    if bytes[0] != expectedVersion {
      return Failure(WrongVersion);
    }
    var actual := Crc16XModem(bytes[..33]);
    ChecksumMatches(bytes, actual);
    if LittleEndian(bytes[33], bytes[34]) != actual {
      return Failure(ChecksumMismatch);
    }
    return Success(bytes[1..33]);
  }

  function LittleEndian(low: bv8, high: bv8): bv32 {
    (low as bv32) | ((high as bv32) << 8)
  }

  lemma TwoBytes(low: bv8, high: bv8)
    ensures LowByte(LittleEndian(low, high)) == low && LowByte(LittleEndian(low, high) >> 8) == high
  {
  }

  lemma WordOfBytes(w: bv32)
    ensures LittleEndian(LowByte(w), LowByte(w >> 8)) == w & 0xffff
  {
  }

  lemma ChecksumMatches(bytes: Octets, actual: bv32)
    requires |bytes| == 35 && LowBits(actual, 16) == Remainder(ByteBits(bytes[..33])) && actual & 0xffff == actual
    ensures LittleEndian(bytes[33], bytes[34]) == actual <==> bytes[33..] == Checksum(bytes[..33])
  {
    ChecksumWord(bytes[..33], actual);
    TwoBytes(bytes[33], bytes[34]);
    WordOfBytes(actual);
    assert bytes[33..] == [bytes[33], bytes[34]];
  }

  method EncodeStrKey(payload: Octets, version: bv8) returns (r: Result<Str, StrKeyError>)
    ensures r == StrKeyText(payload, version) && (r.Success? <==> |payload| == 32)
  {
    if |payload| != 32 {
      return Failure(BadPayloadLength);
    }
    var body := [version] + payload;
    var checksum := Crc16XModem(body);
    ChecksumWord(body, checksum);
    var text := Base32Encode(body + [LowByte(checksum), LowByte(checksum >> 8)]);
    return Success(text);
  }

  // ------------------------------------------------------------ the theorems

  /** Every 32-byte key survives encoding and decoding. */
  lemma DecodeEncode(payload: Octets, version: bv8)
    requires |payload| == 32
    ensures StrKeyText(payload, version).Success?
    ensures StrKeyPayload(StrKeyText(payload, version).value, version) == Success(payload)
  {
    var body := [version] + payload;
    var full := body + Checksum(body);
    assert full[..33] == body && full[33..] == Checksum(body) && full[1..33] == payload;
    FullBytes(full);
  }

  lemma FullBytes(full: Octets)
    requires |full| == 35
    ensures Base32Bytes(TextOf(Base32Digits(full))) == Success(full)
  {
    FullDigits(full);
    DigitsOfText(Base32Digits(full));
    BytesOfBits(full);
  }

  lemma FullDigits(full: Octets)
    requires |full| == 35
    ensures |Base32Digits(full)| == 56 && DigitBits(Base32Digits(full)) == ByteBits(full)
  {
    assert ByteBits(full) + ZeroBits(0) == ByteBits(full);
    BitsOfDigits(ByteBits(full));
  }

  /** Every accepted text is the encoding of the key it decodes to. */
  lemma EncodeDecode(encoded: Str, version: bv8)
    requires StrKeyPayload(encoded, version).Success?
    ensures StrKeyText(StrKeyPayload(encoded, version).value, version) == Success(encoded)
  {
    var bytes := Base32Bytes(encoded).value;
    AcceptedBase32(encoded);
    assert [version] + bytes[1..33] == bytes[..33];
    assert bytes[..33] + bytes[33..] == bytes;
    FullDigits(bytes);
    DigitsOfBits(DigitsOf(encoded));
    DigitsOfBits(Base32Digits(bytes));
    TextOfDigits(encoded);
  }

  lemma {:induction false} DigitBitsAt(digits: seq<bv5>, t: nat)
    requires t < 5 * |digits|
    ensures DigitBits(digits)[t] == Bits5(digits[t / 5])[t % 5]
    decreases |digits|
  {
    var n := |digits| - 1;
    if t < 5 * n {
      DigitBitsAt(digits[..n], t);
    }
  }

  lemma RegroupBits(a: seq<bool>, b: seq<bool>, c: seq<bool>)
    ensures (a + b) + c == a + (b + c)
  {
  }

  lemma {:induction false} ByteBitsSplit(bytes: Octets, n: nat)
    requires n <= |bytes|
    ensures ByteBits(bytes) == ByteBits(bytes[..n]) + ByteBits(bytes[n..])
    decreases |bytes|
  {
    if n == |bytes| {
      assert bytes[..n] == bytes;
    } else {
      var m := |bytes| - 1;
      ByteBitsSplit(bytes[..m], n);
      assert bytes[..m][..n] == bytes[..n] && bytes[..m][n..] == bytes[n..][..m - n];
      RegroupBits(ByteBits(bytes[..n]), ByteBits(bytes[n..m]), Bits8(bytes[m]));
      assert bytes[..m][n..] == bytes[n..m] && bytes[n..][m - n] == bytes[m];
    }
  }

  /** The last sixteen bits are the remainder of the others, low byte first. */
  ghost predicate SelfChecked(bits: seq<bool>) {
    && |bits| == 280
    && bits[264..] == Remainder(bits[..264])[8..] + Remainder(bits[..264])[..8]
  }

  lemma ChecksumBits(body: Octets)
    ensures ByteBits(Checksum(body)) == Remainder(ByteBits(body))[8..] + Remainder(ByteBits(body))[..8]
  {
    var r := Remainder(ByteBits(body));
    BitsOfPack8(r[8..]);
    BitsOfPack8(r[..8]);
    AppendByte([], Pack8(r[8..]));
    AppendByte([Pack8(r[8..])], Pack8(r[..8]));
    assert [] + [Pack8(r[8..])] == [Pack8(r[8..])];
    assert Checksum(body) == [Pack8(r[8..])] + [Pack8(r[..8])];
  }

  lemma AcceptedIsSelfChecked(encoded: Str, version: bv8)
    requires StrKeyPayload(encoded, version).Success?
    ensures SelfChecked(DigitBits(DigitsOf(encoded)))
  {
    var bytes := Base32Bytes(encoded).value;
    AcceptedBase32(encoded);
    ByteBitsSplit(bytes, 33);
    ChecksumBits(bytes[..33]);
    assert ByteBits(bytes)[..264] == ByteBits(bytes[..33]);
    assert ByteBits(bytes)[264..] == ByteBits(bytes[33..]);
  }

  /** Replacing any one character of an accepted StrKey by any other makes decoding fail. */
  lemma SingleCharacterErrorIsCaught(encoded: Str, i: nat, c: CodeUnit, version: bv8)
    requires StrKeyPayload(encoded, version).Success? && i < |encoded| && c != encoded[i]
    ensures StrKeyPayload(encoded[i := c], version).Failure?
  {
    var changed := encoded[i := c];
    if !IsBase32(c) {
      assert changed[i] in changed;
    } else {
      AcceptedIsSelfChecked(encoded, version);
      CharRoundTrips(encoded[i]);
      CharRoundTrips(c);
      ChangedDigitBits(DigitsOf(encoded), DigitsOf(changed), i);
      BurstBreaksTheCheck(DigitBits(DigitsOf(encoded)), DigitBits(DigitsOf(changed)), i);
      if StrKeyPayload(changed, version).Success? {
        AcceptedIsSelfChecked(changed, version);
        assert false;
      }
    }
  }

  lemma ChangedDigitBits(d: seq<bv5>, e: seq<bv5>, i: nat)
    requires |d| == |e| && i < |d| && d[i] != e[i]
    requires forall j :: 0 <= j < |d| && j != i ==> d[j] == e[j]
    ensures DigitBits(d) != DigitBits(e)
    ensures forall t :: 0 <= t < 5 * |d| && t / 5 != i ==> DigitBits(d)[t] == DigitBits(e)[t]
  {
    DigitsOfBits(d);
    DigitsOfBits(e);
    forall t | 0 <= t < 5 * |d| && t / 5 != i ensures DigitBits(d)[t] == DigitBits(e)[t] {
      DigitBitsAt(d, t);
      DigitBitsAt(e, t);
    }
  }

  /** A five-bit burst inside the message, inside the checksum, or straddling the two. */
  lemma BurstBreaksTheCheck(x: seq<bool>, y: seq<bool>, i: nat)
    requires SelfChecked(x) && |y| == 280 && i < 56 && x != y
    requires forall t :: 0 <= t < 280 && t / 5 != i ==> x[t] == y[t]
    ensures !SelfChecked(y)
  {
    var m, n := x[..264], y[..264];
    if m == n || i > 52 {
      assert m == n;
      assert x == m + x[264..] && y == n + y[264..];
    } else if i < 52 {
      BurstIsCaught(m, n, 5 * i, 5 * i + 5);
      assert x[264..] == y[264..];
      assert Remainder(m) == x[264..][8..] + x[264..][..8];
      assert Remainder(n) != y[264..][8..] + y[264..][..8];
      assert Remainder(n)
        == (Remainder(n)[8..] + Remainder(n)[..8])[8..] + (Remainder(n)[8..] + Remainder(n)[..8])[..8];
    } else {
      BurstIsCaught(m, n, 260, 264);
      var j :| 12 <= j < 16 && Remainder(m)[j] != Remainder(n)[j];
      assert x[264 + j - 8] == x[264..][j - 8] == Remainder(m)[j];
      assert y[264 + j - 8] == y[264..][j - 8];
      assert (Remainder(n)[8..] + Remainder(n)[..8])[j - 8] == Remainder(n)[j];
    }
  }
}
