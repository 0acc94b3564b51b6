/** What StrKey text is, in terms of its alphabet, its bits and the division behind its checksum. */
module StrKeyMeaning {
  import opened Primitives
  import opened StrKey

  // ---------------------------------------------------------------- alphabet

  const ALPHABET: string := "ABCDEFGHIJKLMNOPQRSTUVWXYZ234567"

  lemma AlphabetAt(n: nat)
    requires n < 32
    ensures ALPHABET[n] as int == if n < 26 then n + 65 else n + 24
  {
    if n == 0 {} else if n == 1 {} else if n == 2 {} else if n == 3 {} else if n == 4 {} else if n == 5 {}
    else if n == 6 {} else if n == 7 {} else if n == 8 {} else if n == 9 {} else if n == 10 {} else if n == 11 {}
    else if n == 12 {} else if n == 13 {} else if n == 14 {} else if n == 15 {} else if n == 16 {} else if n == 17 {}
    else if n == 18 {} else if n == 19 {} else if n == 20 {} else if n == 21 {} else if n == 22 {} else if n == 23 {}
    else if n == 24 {} else if n == 25 {} else if n == 26 {} else if n == 27 {} else if n == 28 {} else if n == 29 {}
    else if n == 30 {} else {}
  }

  /** Digit d is the d-th letter of the alphabet of RFC 4648, and nothing else is a digit. */
  lemma DigitsAreLetters(d: bv5, c: CodeUnit)
    ensures CharOf(d) as int == ALPHABET[d as int] as int
    ensures IsBase32(c) <==> exists n: nat :: n < 32 && IsLetter(c, n)
  {
    AlphabetAt(d as int);
    if IsBase32(c) {
      var n := if c >= 65 then c - 65 else c - 24;
      AlphabetAt(n);
      assert IsLetter(c, n);
    }
    if n: nat :| n < 32 && IsLetter(c, n) {
      AlphabetAt(n);
    }
  }

  predicate IsLetter(c: CodeUnit, n: nat)
    requires n < 32
  {
    c == ALPHABET[n] as int
  }

  // ---------------------------------------------------------------- checksum

  /** x^16 + x^12 + x^5 + 1, highest power first. */
  predicate InGenerator(k: nat) {
    k == 0 || k == 4 || k == 11 || k == 16
  }

  /** The generator polynomial times q, over the field of two elements, highest power first. */
  function TimesGenerator(q: seq<bool>): (product: seq<bool>)
    ensures |product| == |q| + 16
  {
    if q == [] then ZeroBits(16)
    else
      var n := |q| - 1;
      var shifted := TimesGenerator(q[..n]) + [false];
      seq(n + 17, k requires 0 <= k < n + 17 =>
        shifted[k] != (k >= n && q[n] && InGenerator(k - n)))
  }

  /** A message followed by sixteen zeros is a multiple of the generator, but for the checksum register at its end. */
  ghost predicate Divides(bits: seq<bool>, q: seq<bool>, r: Register) {
    |q| == |bits| && bits + ZeroBits(16) == Xor(TimesGenerator(q), ZeroBits(|bits|) + r)
  }

  lemma {:induction false} RemainderDivides(bits: seq<bool>) returns (q: seq<bool>)
    ensures Divides(bits, q, Remainder(bits))
  {
    if bits == [] {
      q := [];
      assert Remainder([]) == ZeroRegister();
      assert [] + ZeroBits(16) == Xor(TimesGenerator([]), ZeroBits(0) + ZeroRegister());
    } else {
      var n := |bits| - 1;
      var front := RemainderDivides(bits[..n]);
      q := front + [Remainder(bits[..n])[0] != bits[n]];
      forall k | 0 <= k < n + 17
        ensures (bits + ZeroBits(16))[k] == Xor(TimesGenerator(q), ZeroBits(n + 1) + Remainder(bits))[k]
      {
        DivisionStep(bits, front, q, k);
      }
    }
  }

  lemma DivisionStep(bits: seq<bool>, front: seq<bool>, q: seq<bool>, k: nat)
    requires bits != [] && Divides(bits[..|bits| - 1], front, Remainder(bits[..|bits| - 1])) && k < |bits| + 16
    requires q == front + [Remainder(bits[..|bits| - 1])[0] != bits[|bits| - 1]]
    ensures (bits + ZeroBits(16))[k] == Xor(TimesGenerator(q), ZeroBits(|bits|) + Remainder(bits))[k]
  {
    var n := |bits| - 1;
    var r, p := Remainder(bits[..n]), TimesGenerator(front);
    var carry := r[0] != bits[n];
    var next := FeedBit(r, bits[n]);
    assert q[..n] == front && q[n] == carry && Remainder(bits) == next;
    assert TimesGenerator(q)[k] == ((p + [false])[k] != (k >= n && carry && InGenerator(k - n)));
    if k < n + 16 {
      assert (bits[..n] + ZeroBits(16))[k] == Xor(p, ZeroBits(n) + r)[k];
    }
    if k < n {
      assert p[k] == bits[k];
    } else if k == n {
      assert p[k] == r[0];
    } else {
      assert k < n + 16 ==> p[k] == r[k - n];
      FedBit(r, bits[n], k - n);
      assert (ZeroBits(n + 1) + next)[k] == next[k - n - 1];
    }
  }

  /** One step of the register, seen from the bit that moves. */
  lemma FedBit(r: Register, bit: bool, j: nat)
    requires 0 < j <= 16
    ensures FeedBit(r, bit)[j - 1] == ((j < 16 && r[j]) != ((r[0] != bit) && InGenerator(j)))
  {
  }

  // -------------------------------------------------------------------- text

  /** The bits of a key's text: the version byte, the key, and the checksum of both with its low byte first. */
  lemma TextBits(payload: Octets, version: bv8)
    requires |payload| == 32
    ensures var body := Bits8(version) + ByteBits(payload);
            var text := StrKeyText(payload, version).value;
            |text| == 56 && (forall c :: c in text ==> IsBase32(c))
            && DigitBits(DigitsOf(text)) == body + Remainder(body)[8..] + Remainder(body)[..8]
  {
    var body := [version] + payload;
    var bytes := body + Checksum(body);
    BodyBits(body, payload, version);
    ByteBitsSplit(bytes, 33);
    assert bytes[..33] == body && bytes[33..] == Checksum(body);
    ChecksumBits(body);
    TextOfBytes(bytes);
  }

  lemma BodyBits(body: Octets, payload: Octets, version: bv8)
    requires body == [version] + payload
    ensures ByteBits(body) == Bits8(version) + ByteBits(payload)
  {
    ByteBitsSplit(body, 1);
    assert body[..1] == [version] && body[1..] == payload;
    OneByteBits(version);
  }

  lemma TextOfBytes(bytes: Octets)
    requires |bytes| == 35
    ensures var text := TextOf(Base32Digits(bytes));
            |text| == 56 && (forall c :: c in text ==> IsBase32(c)) && DigitBits(DigitsOf(text)) == ByteBits(bytes)
  {
    assert ByteBits(bytes) + ZeroBits(PadBits(35)) == ByteBits(bytes);
    BitsOfDigits(ByteBits(bytes));
    DigitsOfText(Base32Digits(bytes));
  }

  lemma OneByteBits(b: bv8)
    ensures ByteBits([b]) == Bits8(b)
  {
    assert ByteBits([b]) == ByteBits([b][..0]) + Bits8(b);
  }

  /** Accounts' texts begin with a G and contracts' with a C. */
  lemma FirstLetters(payload: Octets)
    requires |payload| == 32
    ensures StrKeyText(payload, VERSION_ACCOUNT).value[0] as int == 'G' as int
    ensures StrKeyText(payload, VERSION_CONTRACT).value[0] as int == 'C' as int
  {
    AccountBits();
    ContractBits();
    FirstLetter(payload, VERSION_ACCOUNT, 6);
    FirstLetter(payload, VERSION_CONTRACT, 2);
  }

  lemma AccountBits()
    ensures Bits8(VERSION_ACCOUNT)[..5] == Bits5(6)
  {
  }

  lemma ContractBits()
    ensures Bits8(VERSION_CONTRACT)[..5] == Bits5(2)
  {
  }

  lemma FirstLetter(payload: Octets, version: bv8, d: bv5)
    requires |payload| == 32 && Bits8(version)[..5] == Bits5(d)
    ensures StrKeyText(payload, version).Success? && StrKeyText(payload, version).value != []
    ensures StrKeyText(payload, version).value[0] == CharOf(d)
  {
    var text := StrKeyText(payload, version).value;
    TextBits(payload, version);
    FirstDigitBits(DigitsOf(text));
    assert DigitBits(DigitsOf(text))[..5] == Bits8(version)[..5];
    PackBits5(d);
    PackBits5(DigitsOf(text)[0]);
    CharRoundTrips(text[0]);
  }

  lemma {:induction false} FirstDigitBits(digits: seq<bv5>)
    requires digits != []
    ensures DigitBits(digits)[..5] == Bits5(digits[0])
  {
    var n := |digits| - 1;
    if n > 0 {
      FirstDigitBits(digits[..n]);
    } else {
      assert DigitBits(digits[..0]) == [];
    }
  }

  /** A text is refused first for its length, then for its first character outside the alphabet. */
  lemma ShapeRefused(text: Str, version: bv8, i: nat)
    ensures |text| != 56 ==> StrKeyPayload(text, version) == Failure(BadLength)
    ensures |text| == 56 && i < 56 && !IsBase32(text[i]) && (forall j :: 0 <= j < i ==> IsBase32(text[j])) ==>
              StrKeyPayload(text, version) == Failure(BadCharacter(i))
  {
  }

  /** Then for its version byte, and last for its checksum. */
  lemma ContentRefused(text: Str, version: bv8, bytes: Octets)
    requires |text| == 56 && (forall i :: 0 <= i < 56 ==> IsBase32(text[i]))
    requires |bytes| == 35 && ByteBits(bytes) == DigitBits(DigitsOf(text))
    ensures var r := Remainder(ByteBits(bytes[..33]));
            StrKeyPayload(text, version)
            == if bytes[0] != version then Failure(WrongVersion)
               else if Bits8(bytes[33]) != r[8..] || Bits8(bytes[34]) != r[..8] then Failure(ChecksumMismatch)
               else Success(bytes[1..33])
  {
    BytesOfBits(bytes);
    ChecksumIs(bytes);
    assert FirstBad(text, 0).None?;
    assert Base32Bytes(text) == Success(bytes);
  }

  lemma ChecksumIs(bytes: Octets)
    requires |bytes| == 35
    ensures var r := Remainder(ByteBits(bytes[..33]));
            bytes[33..] == Checksum(bytes[..33]) <==> Bits8(bytes[33]) == r[8..] && Bits8(bytes[34]) == r[..8]
  {
    var r := Remainder(ByteBits(bytes[..33]));
    BitsOfPack8(r[8..]);
    BitsOfPack8(r[..8]);
    PackBits8(bytes[33]);
    PackBits8(bytes[34]);
    assert bytes[33..] == [bytes[33], bytes[34]];
  }
}
