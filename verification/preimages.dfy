/** Fixed-width, positional encodings: what the contract hashes before checking a signature. */
module Digest {
  import opened Primitives

  // ----------------------------------------------------------- big-endian

  function Pow256(w: nat): nat {
    if w == 0 then 1 else 256 * Pow256(w - 1)
  }

  /** The low w base-256 digits of n, most significant first. */
  function BigEndian(n: nat, w: nat): (bytes: Octets)
    ensures |bytes| == w
  {
    if w == 0 then [] else BigEndian(n / 256, w - 1) + [ByteOf(n % 256)]
  }

  /** `i128::to_be_bytes`: two's complement. */
  function I128Bytes(n: i128): (bytes: Octets)
    ensures |bytes| == 16
  {
    BigEndian(if n >= 0 then n else n + 2 * (I128_MAX + 1), 16)
  }

  /** `u64::to_be_bytes`. */
  function U64Bytes(n: u64): (bytes: Octets)
    ensures |bytes| == 8
  {
    BigEndian(n, 8)
  }

  lemma {:induction false} BigEndianIsInjective(n: nat, m: nat, w: nat)
    requires n < Pow256(w) && m < Pow256(w) && BigEndian(n, w) == BigEndian(m, w)
    ensures n == m
    decreases w
  {
    if w > 0 {
      var x, y := BigEndian(n, w), BigEndian(m, w);
      assert x[..w - 1] == BigEndian(n / 256, w - 1) && y[..w - 1] == BigEndian(m / 256, w - 1);
      assert x[w - 1] == ByteOf(n % 256) && y[w - 1] == ByteOf(m % 256);
      ByteRoundTrips(n % 256);
      ByteRoundTrips(m % 256);
      BigEndianIsInjective(n / 256, m / 256, w - 1);
    }
  }

  lemma WidthsSuffice()
    ensures Pow256(8) == U64_MAX + 1 && Pow256(16) == 2 * (I128_MAX + 1)
  {
    assert Pow256(4) == 256 * Pow256(3) && Pow256(3) == 256 * Pow256(2) && Pow256(2) == 65536;
    assert Pow256(8) == 256 * Pow256(7) && Pow256(7) == 256 * Pow256(6) && Pow256(6) == 256 * Pow256(5)
      && Pow256(5) == 256 * Pow256(4);
    assert Pow256(12) == 256 * Pow256(11) && Pow256(11) == 256 * Pow256(10) && Pow256(10) == 256 * Pow256(9)
      && Pow256(9) == 256 * Pow256(8);
    assert Pow256(16) == 256 * Pow256(15) && Pow256(15) == 256 * Pow256(14) && Pow256(14) == 256 * Pow256(13)
      && Pow256(13) == 256 * Pow256(12);
  }

  lemma I128BytesAreInjective(n: i128, m: i128)
    requires I128Bytes(n) == I128Bytes(m)
    ensures n == m
  {
    WidthsSuffice();
    BigEndianIsInjective(if n >= 0 then n else n + 2 * (I128_MAX + 1),
                         if m >= 0 then m else m + 2 * (I128_MAX + 1), 16);
  }

  lemma U64BytesAreInjective(n: u64, m: u64)
    requires U64Bytes(n) == U64Bytes(m)
    ensures n == m
  {
    WidthsSuffice();
    BigEndianIsInjective(n, m, 8);
  }

  // -------------------------------------------------------------- layouts

  /** ASCII "PAKTA_REG_V1", "PAKTA_REV_V2" and "PAKTA_ATT_V1", each closed by a zero byte. */
  const DOMAIN: Octets := [80, 65, 75, 84, 65, 95, 82, 69, 71, 95, 86, 49, 0]
  const REVOKE_DOMAIN: Octets := [80, 65, 75, 84, 65, 95, 82, 69, 86, 95, 86, 50, 0]
  const ATTEST_DOMAIN: Octets := [80, 65, 75, 84, 65, 95, 65, 84, 84, 95, 86, 49, 0]

  datatype RegistrationFields = RegistrationFields(
    networkId: Bytes32, contractId: Bytes32, payableIdHash: Bytes32, proofHash: Bytes32, recipient: Bytes32,
    assetContractId: Bytes32, amount: i128, policyHash: Bytes32, expiry: u64)

  datatype RevocationFields = RevocationFields(
    networkId: Bytes32, contractId: Bytes32, payableIdHash: Bytes32, proofHash: Bytes32, reasonHash: Bytes32)

  datatype AttestationFields = AttestationFields(
    networkId: Bytes32, contractId: Bytes32, payableIdHash: Bytes32, phase: bv8, reasonHash: Bytes32, sequence: u64)

  function RegistrationLayout(f: RegistrationFields): seq<Octets> {
    [DOMAIN, f.networkId, f.contractId, f.payableIdHash, f.proofHash, f.recipient, f.assetContractId,
     I128Bytes(f.amount), f.policyHash, U64Bytes(f.expiry)]
  }

  function RevocationLayout(f: RevocationFields): seq<Octets> {
    [REVOKE_DOMAIN, f.networkId, f.contractId, f.payableIdHash, f.proofHash, f.reasonHash]
  }

  function AttestationLayout(f: AttestationFields): seq<Octets> {
    [ATTEST_DOMAIN, f.networkId, f.contractId, f.payableIdHash, [f.phase], f.reasonHash, U64Bytes(f.sequence)]
  }

  function Flatten(parts: seq<Octets>): Octets {
    if parts == [] then [] else parts[0] + Flatten(parts[1..])
  }

  function Preimage(f: RegistrationFields): Octets {
    Flatten(RegistrationLayout(f))
  }

  function RevocationPreimage(f: RevocationFields): Octets {
    Flatten(RevocationLayout(f))
  }

  function AttestationPreimage(f: AttestationFields): Octets {
    Flatten(AttestationLayout(f))
  }

  function RegistrationDigest(sha: Octets -> Bytes32, f: RegistrationFields): Bytes32 {
    sha(Preimage(f))
  }

  function RevocationDigest(sha: Octets -> Bytes32, f: RevocationFields): Bytes32 {
    sha(RevocationPreimage(f))
  }

  function AttestationDigest(sha: Octets -> Bytes32, f: AttestationFields): Bytes32 {
    sha(AttestationPreimage(f))
  }

  lemma {:induction false} FlattenAppend(parts: seq<Octets>, part: Octets)
    ensures Flatten(parts + [part]) == Flatten(parts) + part
  {
    if parts == [] {
      assert parts + [part] == [part] && Flatten([part]) == part + Flatten([]);
    } else {
      FlattenAppend(parts[1..], part);
      assert (parts + [part])[1..] == parts[1..] + [part];
    }
  }

  /** The contract's builders push each field onto a growing buffer. */
  method RegistrationPreimage(f: RegistrationFields) returns (preimage: Octets)
    ensures preimage == Preimage(f) && |preimage| == 261
  {
    var layout := RegistrationLayout(f);
    preimage := [];
    for i := 0 to |layout|
      invariant preimage == Flatten(layout[..i])
      invariant |preimage|
                == if i == 0 then 0 else if i <= 7 then 32 * i - 19
                   else if i == 8 then 221 else if i == 9 then 253 else 261
    {
      FlattenAppend(layout[..i], layout[i]);
      assert layout[..i] + [layout[i]] == layout[..i + 1];
      preimage := preimage + layout[i];
    }
    assert layout[..|layout|] == layout;
  }

  // ------------------------------------------------------- where each byte is

  /** The number these bytes write in base 256, most significant first. */
  function NumberOf(bytes: Octets): nat {
    if bytes == [] then 0 else 256 * NumberOf(bytes[..|bytes| - 1]) + ValueOfByte(bytes[|bytes| - 1])
  }

  lemma {:induction false} BigEndianReads(n: nat, w: nat)
    requires n < Pow256(w)
    ensures NumberOf(BigEndian(n, w)) == n
    decreases w
  {
    if w > 0 {
      var bytes := BigEndian(n, w);
      BigEndianReads(n / 256, w - 1);
      ByteRoundTrips(n % 256);
      assert bytes[..w - 1] == BigEndian(n / 256, w - 1) && bytes[w - 1] == ByteOf(n % 256);
    }
  }

  /** Two's complement, and plain numbers, most significant byte first. */
  lemma IntegersRead(n: i128, m: u64)
    ensures NumberOf(I128Bytes(n)) == if n >= 0 then n else n + 0x1_0000_0000_0000_0000_0000_0000_0000_0000
    ensures NumberOf(U64Bytes(m)) == m
  {
    WidthsSuffice();
    BigEndianReads(if n >= 0 then n else n + 2 * (I128_MAX + 1), 16);
    BigEndianReads(m, 8);
  }

  /** A text's characters as bytes, closed by a zero byte. */
  predicate Spells(bytes: Octets, text: string) {
    |bytes| == |text| + 1 && bytes[|text|] == 0 && forall i :: 0 <= i < |text| ==> bytes[i] as int == text[i] as int
  }

  lemma DomainSpells()
    ensures Spells(DOMAIN, "PAKTA_REG_V1")
  {
  }

  lemma RevokeDomainSpells()
    ensures Spells(REVOKE_DOMAIN, "PAKTA_REV_V2")
  {
  }

  lemma AttestDomainSpells()
    ensures Spells(ATTEST_DOMAIN, "PAKTA_ATT_V1")
  {
  }

  /** The bytes from one offset up to another. */
  predicate Carries(bytes: Octets, from: nat, to: nat, part: Octets) {
    from <= to <= |bytes| && bytes[from..to] == part
  }

  lemma {:induction false} PartAt(parts: seq<Octets>, i: nat, offset: nat)
    requires i < |parts| && offset == |Flatten(parts[..i])|
    ensures Carries(Flatten(parts), offset, offset + |parts[i]|, parts[i])
    ensures |Flatten(parts[..i + 1])| == offset + |parts[i]|
    decreases |parts|
  {
    assert parts[..i + 1] == parts[..i] + [parts[i]];
    FlattenAppend(parts[..i], parts[i]);
    FlattenSplits(parts[..i + 1], parts[i + 1..]);
    assert parts == parts[..i + 1] + parts[i + 1..];
  }

  lemma {:induction false} FlattenSplits(x: seq<Octets>, y: seq<Octets>)
    ensures Flatten(x + y) == Flatten(x) + Flatten(y)
  {
    if x == [] {
      assert x + y == y;
    } else {
      FlattenSplits(x[1..], y);
      assert (x + y)[1..] == x[1..] + y && (x + y)[0] == x[0];
    }
  }

  /** The table of the registration preimage: 261 bytes, each field at its offset. */
  lemma RegistrationPreimageTable(f: RegistrationFields)
    ensures var b := Preimage(f);
            |b| == 261 && Spells(b[..13], "PAKTA_REG_V1")
            && Carries(b, 13, 45, f.networkId) && Carries(b, 45, 77, f.contractId)
              && Carries(b, 77, 109, f.payableIdHash)
            && Carries(b, 109, 141, f.proofHash) && Carries(b, 141, 173, f.recipient)
              && Carries(b, 173, 205, f.assetContractId)
            && Carries(b, 205, 221, I128Bytes(f.amount)) && Carries(b, 221, 253, f.policyHash)
            && Carries(b, 253, 261, U64Bytes(f.expiry))
  {
    var parts := RegistrationLayout(f);
    DomainSpells();
    assert parts[..0] == [] && parts[..10] == parts;
    PartAt(parts, 0, 0);
    PartAt(parts, 1, 13);
    PartAt(parts, 2, 45);
    PartAt(parts, 3, 77);
    PartAt(parts, 4, 109);
    PartAt(parts, 5, 141);
    PartAt(parts, 6, 173);
    PartAt(parts, 7, 205);
    PartAt(parts, 8, 221);
    PartAt(parts, 9, 253);
  }

  /** The table of the revocation preimage: 173 bytes. */
  lemma RevocationPreimageTable(f: RevocationFields)
    ensures var b := RevocationPreimage(f);
            |b| == 173 && Spells(b[..13], "PAKTA_REV_V2")
            && Carries(b, 13, 45, f.networkId) && Carries(b, 45, 77, f.contractId)
              && Carries(b, 77, 109, f.payableIdHash)
            && Carries(b, 109, 141, f.proofHash) && Carries(b, 141, 173, f.reasonHash)
  {
    var parts := RevocationLayout(f);
    RevokeDomainSpells();
    assert parts[..0] == [] && parts[..6] == parts;
    PartAt(parts, 0, 0);
    PartAt(parts, 1, 13);
    PartAt(parts, 2, 45);
    PartAt(parts, 3, 77);
    PartAt(parts, 4, 109);
    PartAt(parts, 5, 141);
  }

  /** The table of the attestation preimage: 150 bytes. */
  lemma AttestationPreimageTable(f: AttestationFields)
    ensures var b := AttestationPreimage(f);
            |b| == 150 && Spells(b[..13], "PAKTA_ATT_V1")
            && Carries(b, 13, 45, f.networkId) && Carries(b, 45, 77, f.contractId)
              && Carries(b, 77, 109, f.payableIdHash)
            && b[109] == f.phase && Carries(b, 110, 142, f.reasonHash) && Carries(b, 142, 150, U64Bytes(f.sequence))
  {
    var parts := AttestationLayout(f);
    AttestDomainSpells();
    assert parts[..0] == [] && parts[..7] == parts;
    PartAt(parts, 0, 0);
    PartAt(parts, 1, 13);
    PartAt(parts, 2, 45);
    PartAt(parts, 3, 77);
    PartAt(parts, 4, 109);
    assert AttestationPreimage(f)[109..110] == [f.phase];
    PartAt(parts, 5, 110);
    PartAt(parts, 6, 142);
  }

  // ---------------------------------------------------------- injectivity

  /** Parts of equal widths can be read back from their concatenation. */
  lemma {:induction false} SameWidthsSameParts(x: seq<Octets>, y: seq<Octets>)
    requires |x| == |y| && forall i :: 0 <= i < |x| ==> |x[i]| == |y[i]|
    requires Flatten(x) == Flatten(y)
    ensures x == y
    decreases |x|
  {
    if x != [] {
      var n := |x[0]|;
      assert x[0] == Flatten(x)[..n] && y[0] == Flatten(y)[..n];
      assert Flatten(x[1..]) == Flatten(x)[n..] && Flatten(y[1..]) == Flatten(y)[n..];
      SameWidthsSameParts(x[1..], y[1..]);
      assert x == [x[0]] + x[1..] && y == [y[0]] + y[1..];
    }
  }

  lemma RegistrationPreimageIsInjective(f: RegistrationFields, g: RegistrationFields)
    requires Preimage(f) == Preimage(g)
    ensures f == g
  {
    var x, y := RegistrationLayout(f), RegistrationLayout(g);
    SameWidthsSameParts(x, y);
    assert x[1] == y[1] && x[2] == y[2] && x[3] == y[3] && x[4] == y[4] && x[5] == y[5] && x[6] == y[6];
    assert x[7] == y[7] && x[8] == y[8] && x[9] == y[9];
    I128BytesAreInjective(f.amount, g.amount);
    U64BytesAreInjective(f.expiry, g.expiry);
  }

  lemma RevocationPreimageIsInjective(f: RevocationFields, g: RevocationFields)
    requires RevocationPreimage(f) == RevocationPreimage(g)
    ensures f == g
  {
    var x, y := RevocationLayout(f), RevocationLayout(g);
    SameWidthsSameParts(x, y);
    assert x[1] == y[1] && x[2] == y[2] && x[3] == y[3] && x[4] == y[4] && x[5] == y[5];
  }

  lemma AttestationPreimageIsInjective(f: AttestationFields, g: AttestationFields)
    requires AttestationPreimage(f) == AttestationPreimage(g)
    ensures f == g
  {
    var x, y := AttestationLayout(f), AttestationLayout(g);
    SameWidthsSameParts(x, y);
    assert x[1] == y[1] && x[2] == y[2] && x[3] == y[3] && x[4] == y[4] && x[5] == y[5] && x[6] == y[6];
    assert x[4][0] == y[4][0];
    U64BytesAreInjective(f.sequence, g.sequence);
  }

  lemma StartsWithDomain(parts: seq<Octets>)
    requires parts != []
    ensures |Flatten(parts)| >= |parts[0]| && Flatten(parts)[..|parts[0]|] == parts[0]
  {
  }

  /** A signature for one purpose is never a signature for another: the first thirteen bytes differ. */
  lemma DomainsAreSeparate(f: RegistrationFields, g: RevocationFields, h: AttestationFields)
    ensures Preimage(f) != RevocationPreimage(g)
    ensures Preimage(f) != AttestationPreimage(h)
    ensures RevocationPreimage(g) != AttestationPreimage(h)
  {
    StartsWithDomain(RegistrationLayout(f));
    StartsWithDomain(RevocationLayout(g));
    StartsWithDomain(AttestationLayout(h));
    assert DOMAIN[8] == 71 && REVOKE_DOMAIN[8] == 86 && ATTEST_DOMAIN[8] == 84;
  }
}

/** The same encodings built by the backend from text, hexadecimal and big integers. */
module RegistrationDigest {
  import opened Primitives
  import opened Text
  import opened Digest
  import opened StrKey

  const MAX_SAFE_INTEGER: int := 0x1F_FFFF_FFFF_FFFF

  /** An integer as JavaScript passes it: a number, or a bigint. */
  datatype JsInteger = Number(n: int) | BigInt(n: int)

  datatype DigestError =
    | EmptyField
    | BadKey(cause: StrKeyError)
    | BadHex
    | NotPositive
    | AboveI128
    | NotSafe
    | OutsideU64
    | UnknownPhase
    | WrongLength

  datatype RegistrationInput = RegistrationInput(
    networkPassphrase: Str, contractId: Str, payableId: Str, proofHash: Str, recipient: Str, assetContractId: Str,
    amountUnits: int, policyVersion: Str, expiry: JsInteger)

  datatype RevocationInput = RevocationInput(
    networkPassphrase: Str, contractId: Str, payableId: Str, proofHash: Str, reasonCode: Str)

  datatype Phase = Blocked | Resolved | Reconciled

  datatype AttestationInput = AttestationInput(
    networkPassphrase: Str, contractId: Str, payableId: Str, phase: Phase, reasonCode: Str, sequence: JsInteger)

  // ---------------------------------------------------------------- numbers

  function I128Encoding(value: int): Result<Octets, DigestError> {
    if value <= 0 then Failure(NotPositive)
    else if value > I128_MAX then Failure(AboveI128)
    else Success(I128Bytes(value))
  }

  function U64Encoding(value: JsInteger): Result<Octets, DigestError> {
    if value.Number? && !(-MAX_SAFE_INTEGER <= value.n <= MAX_SAFE_INTEGER) then Failure(NotSafe)
    else if value.n < 0 || value.n > U64_MAX then Failure(OutsideU64)
    else Success(U64Bytes(value.n))
  }

  lemma ShiftStep(value: nat, remaining: nat, i: nat, tail: Octets)
    requires BigEndian(remaining, i + 1) + tail == BigEndian(value, i + 1 + |tail|)
    ensures BigEndian(remaining / 256, i) + ([ByteOf(remaining % 256)] + tail) == BigEndian(value, i + 1 + |tail|)
  {
  }

  /** On a non-negative bigint `& 0xffn` is the remainder by 256 and `>>= 8n` the quotient. */
  method FillBigEndian(value: nat, out: array<bv8>)
    modifies out
    ensures out[..] == BigEndian(value, out.Length)
  {
    var remaining, i := value, out.Length;
    ghost var tail: Octets := [];
    while i > 0
      invariant 0 <= i <= out.Length && 0 <= remaining
      invariant tail == out[i..]
      invariant BigEndian(remaining, i) + tail == BigEndian(value, out.Length)
    {
      i := i - 1;
      ShiftStep(value, remaining, i, tail);
      out[i] := ByteOf(remaining % 256);
      tail := [ByteOf(remaining % 256)] + tail;
      remaining := remaining / 256;
    }
    assert BigEndian(remaining, 0) + tail == tail;
  }

  method I128BigEndian(value: int) returns (r: Result<Octets, DigestError>)
    ensures r == I128Encoding(value)
  {
    if value <= 0 {
      return Failure(NotPositive);
    }
    if value > I128_MAX {
      return Failure(AboveI128);
    }
    var out := new bv8[16](_ => 0);
    FillBigEndian(value, out);
    return Success(out[..]);
  }

  method U64BigEndian(value: JsInteger) returns (r: Result<Octets, DigestError>)
    ensures r == U64Encoding(value)
  {
    if value.Number? && !(-MAX_SAFE_INTEGER <= value.n <= MAX_SAFE_INTEGER) {
      return Failure(NotSafe);
    }
    if value.n < 0 || value.n > U64_MAX {
      return Failure(OutsideU64);
    }
    var out := new bv8[8](_ => 0);
    FillBigEndian(value.n, out);
    return Success(out[..]);
  }

  // ------------------------------------------------------------ hexadecimal

  predicate IsHex(c: CodeUnit) {
    48 <= c <= 57 || 97 <= c <= 102
  }

  function HexValue(c: CodeUnit): (v: nat)
    requires IsHex(c)
    ensures v < 16
  {
    if c <= 57 then c - 48 else c - 87
  }

  function HexDigit(v: nat): (c: CodeUnit)
    requires v < 16
    ensures IsHex(c) && HexValue(c) == v
  {
    if v < 10 then 48 + v else 87 + v
  }

  predicate IsHash(hex: Str) {
    |hex| == 64 && forall c :: c in hex ==> IsHex(c)
  }

  function HexByte(hex: Str, i: nat): (n: ByteValue)
    requires IsHash(hex) && i < 32
  {
    16 * HexValue(hex[2 * i]) + HexValue(hex[2 * i + 1])
  }

  function HexBytes(hex: Str): (values: seq<ByteValue>)
    requires IsHash(hex)
    ensures |values| == 32
  {
    seq(32, i requires 0 <= i < 32 => HexByte(hex, i))
  }

  function HashBytes(hex: Str): Bytes32
    requires IsHash(hex)
  {
    ToOctets(HexBytes(hex))
  }

  /** Lowercase hexadecimal text of 32 bytes. */
  function HexText(bytes: Bytes32): (hex: Str)
    ensures IsHash(hex)
  {
    seq(64, k requires 0 <= k < 64 =>
      HexDigit(if k % 2 == 0 then ValueOfByte(bytes[k / 2]) / 16 else ValueOfByte(bytes[k / 2]) % 16))
  }

  /** Sixteen digits, in this order. */
  lemma HexDigitsAre(v: nat)
    requires v < 16
    ensures HexDigit(v) as int == "0123456789abcdef"[v] as int && HexValue(HexDigit(v)) == v
  {
  }

  lemma HexTextAt(bytes: Bytes32, i: nat)
    requires i < 32
    ensures HexText(bytes)[2 * i] == HexDigit(ValueOfByte(bytes[i]) / 16)
    ensures HexText(bytes)[2 * i + 1] == HexDigit(ValueOfByte(bytes[i]) % 16)
  {
    assert (2 * i) / 2 == i && (2 * i) % 2 == 0 && (2 * i + 1) / 2 == i && (2 * i + 1) % 2 == 1;
  }

  lemma HexByteOfHexText(bytes: Bytes32, i: nat)
    requires i < 32
    ensures HexByte(HexText(bytes), i) == ValueOfByte(bytes[i])
  {
    HexTextAt(bytes, i);
  }

  lemma HashBytesOfHexText(bytes: Bytes32)
    ensures HashBytes(HexText(bytes)) == bytes
  {
    forall i | 0 <= i < 32 ensures HashBytes(HexText(bytes))[i] == bytes[i] {
      HexByteOfHexText(bytes, i);
      OctetRoundTrips(bytes[i]);
    }
  }

  lemma HexByteIsInjective(x: Str, y: Str, i: nat)
    requires IsHash(x) && IsHash(y) && i < 32 && HexByte(x, i) == HexByte(y, i)
    ensures x[2 * i] == y[2 * i] && x[2 * i + 1] == y[2 * i + 1]
  {
    var a, b, c, d := x[2 * i], x[2 * i + 1], y[2 * i], y[2 * i + 1];
    assert a in x && b in x && c in y && d in y;
    assert HexValue(a) == HexValue(c) && HexValue(b) == HexValue(d);
  }

  lemma HashBytesAreInjective(x: Str, y: Str)
    requires IsHash(x) && IsHash(y) && HashBytes(x) == HashBytes(y)
    ensures x == y
  {
    ToOctetsIsInjective(HexBytes(x), HexBytes(y));
    forall k | 0 <= k < 64 ensures x[k] == y[k] {
      var i := k / 2;
      assert HexBytes(x)[i] == HexByte(x, i) && HexBytes(y)[i] == HexByte(y, i);
      HexByteIsInjective(x, y, i);
    }
  }

  lemma HashBytesPrefix(hex: Str, i: nat)
    requires IsHash(hex) && i < 32
    ensures HashBytes(hex)[..i + 1] == HashBytes(hex)[..i] + [ByteOf(HexByte(hex, i))]
  {
    assert HashBytes(hex)[i] == ByteOf(HexByte(hex, i));
  }

  method HexToBytes(hex: Str) returns (r: Result<Octets, DigestError>)
    ensures r == if IsHash(hex) then Success(HashBytes(hex)) else Failure(BadHex)
  {
    if !IsHash(hex) {
      return Failure(BadHex);
    }
    var out := new bv8[32](_ => 0);
    for i := 0 to 32
      invariant out[..i] == HashBytes(hex)[..i]
    {
      HashBytesPrefix(hex, i);
      out[i] := ByteOf(HexByte(hex, i));
      assert out[..i + 1] == out[..i] + [out[i]];
    }
    assert out[..32] == out[..] && HashBytes(hex)[..32] == HashBytes(hex);
    return Success(out[..]);
  }

  // -------------------------------------------------------------- preimages

  function PhaseByte(p: Phase): bv8 {
    match p
    case Blocked => 0
    case Resolved => 1
    case Reconciled => 2
  }

  function Hashed(text: Str, sha: Octets -> Bytes32): Result<Octets, DigestError> {
    if text == [] then Failure(EmptyField) else Success(sha(Utf8(text)))
  }

  function Key(text: Str, version: bv8): Result<Octets, DigestError> {
    if text == [] then Failure(EmptyField)
    else match StrKeyPayload(text, version)
      case Success(bytes) => Success(bytes)
      case Failure(e) => Failure(BadKey(e))
  }

  function Hash(hex: Str): Result<Octets, DigestError> {
    if hex == [] then Failure(EmptyField) else if IsHash(hex) then Success(HashBytes(hex)) else Failure(BadHex)
  }

  /** Array elements are evaluated left to right; the first failure is thrown. */
  function AllOf(parts: seq<Result<Octets, DigestError>>): (r: Result<seq<Octets>, DigestError>)
    ensures r.Success? <==> forall i :: 0 <= i < |parts| ==> parts[i].Success?
    ensures r.Success? ==> |r.value| == |parts| && forall i :: 0 <= i < |parts| ==> r.value[i] == parts[i].value
  {
    if parts == [] then Success([])
    else if parts[0].Failure? then Failure(parts[0].error)
    else match AllOf(parts[1..])
      case Failure(e) => Failure(e)
      case Success(rest) => Success([parts[0].value] + rest)
  }

  function ConcatOf(parts: seq<Octets>, expected: nat): Result<Octets, DigestError> {
    if |Flatten(parts)| != expected then Failure(WrongLength) else Success(Flatten(parts))
  }

  function Built(parts: seq<Result<Octets, DigestError>>, expected: nat): Result<Octets, DigestError> {
    match AllOf(parts)
    case Failure(e) => Failure(e)
    case Success(all) => ConcatOf(all, expected)
  }

  function RegistrationParts(input: RegistrationInput, sha: Octets -> Bytes32): seq<Result<Octets, DigestError>> {
    [Success(DOMAIN),
     Hashed(input.networkPassphrase, sha), Key(input.contractId, VERSION_CONTRACT), Hashed(input.payableId, sha),
     Hash(input.proofHash), Key(input.recipient, VERSION_ACCOUNT), Key(input.assetContractId, VERSION_CONTRACT),
     I128Encoding(input.amountUnits), Hashed(input.policyVersion, sha), U64Encoding(input.expiry)]
  }

  function RegistrationBytes(input: RegistrationInput, sha: Octets -> Bytes32): Result<Octets, DigestError> {
    Built(RegistrationParts(input, sha), 261)
  }

  function RevocationParts(input: RevocationInput, sha: Octets -> Bytes32): seq<Result<Octets, DigestError>> {
    [Success(REVOKE_DOMAIN),
     Hashed(input.networkPassphrase, sha), Key(input.contractId, VERSION_CONTRACT), Hashed(input.payableId, sha),
     Hash(input.proofHash), Hashed(input.reasonCode, sha)]
  }

  function RevocationBytes(input: RevocationInput, sha: Octets -> Bytes32): Result<Octets, DigestError> {
    Built(RevocationParts(input, sha), 173)
  }

  function AttestationParts(input: AttestationInput, sha: Octets -> Bytes32): seq<Result<Octets, DigestError>> {
    [Success(ATTEST_DOMAIN),
     Hashed(input.networkPassphrase, sha), Key(input.contractId, VERSION_CONTRACT), Hashed(input.payableId, sha),
     Success([PhaseByte(input.phase)]), Hashed(input.reasonCode, sha), U64Encoding(input.sequence)]
  }

  function AttestationBytes(input: AttestationInput, sha: Octets -> Bytes32): Result<Octets, DigestError> {
    Built(AttestationParts(input, sha), 150)
  }

  function TotalLength(parts: seq<Octets>): nat {
    if parts == [] then 0 else TotalLength(parts[..|parts| - 1]) + |parts[|parts| - 1]|
  }

  lemma {:induction false} FlattenLength(parts: seq<Octets>)
    ensures |Flatten(parts)| == TotalLength(parts)
  {
    if parts != [] {
      var n := |parts| - 1;
      FlattenLength(parts[..n]);
      FlattenAppend(parts[..n], parts[n]);
      assert parts[..n] + [parts[n]] == parts;
    }
  }

  lemma {:induction false} PrefixIsShorter(parts: seq<Octets>, i: nat)
    requires i <= |parts|
    ensures |Flatten(parts[..i])| <= |Flatten(parts)|
    decreases |parts| - i
  {
    if i < |parts| {
      PrefixIsShorter(parts, i + 1);
      FlattenAppend(parts[..i], parts[i]);
      assert parts[..i] + [parts[i]] == parts[..i + 1];
    } else {
      assert parts[..i] == parts;
    }
  }

  method ConcatExact(parts: seq<Octets>, expected: nat) returns (r: Result<Octets, DigestError>)
    ensures r == ConcatOf(parts, expected)
  {
    var total := 0;
    for i := 0 to |parts|
      invariant total == TotalLength(parts[..i])
    {
      assert parts[..i + 1][..i] == parts[..i];
      total := total + |parts[i]|;
    }
    assert parts[..|parts|] == parts;
    FlattenLength(parts);
    if total != expected {
      return Failure(WrongLength);
    }
    var out := new bv8[total](_ => 0);
    var offset: nat := 0;
    for i := 0 to |parts|
      invariant offset <= total && out[..offset] == Flatten(parts[..i])
    {
      FlattenAppend(parts[..i], parts[i]);
      assert parts[..i] + [parts[i]] == parts[..i + 1];
      PrefixIsShorter(parts, i + 1);
      CopyInto(out, offset, parts[i]);
      offset := offset + |parts[i]|;
    }
    assert out[..offset] == out[..];
    return Success(out[..]);
  }

  /** `Uint8Array.set`. */
  method CopyInto(out: array<bv8>, offset: nat, part: Octets)
    requires offset + |part| <= out.Length
    modifies out
    ensures out[..offset + |part|] == old(out[..offset]) + part
  {
    for k := 0 to |part|
      invariant out[..offset + k] == old(out[..offset]) + part[..k]
    {
      out[offset + k] := part[k];
      assert out[..offset + k + 1] == out[..offset + k] + [part[k]];
    }
  }

  method RegistrationPreimageOf(input: RegistrationInput, sha: Octets -> Bytes32)
    returns (r: Result<Octets, DigestError>)
    ensures r == RegistrationBytes(input, sha)
  {
    var amount := I128BigEndian(input.amountUnits);
    var expiry := U64BigEndian(input.expiry);
    var parts := AllOf([Success(DOMAIN),
      Hashed(input.networkPassphrase, sha), Key(input.contractId, VERSION_CONTRACT), Hashed(input.payableId, sha),
      Hash(input.proofHash), Key(input.recipient, VERSION_ACCOUNT), Key(input.assetContractId, VERSION_CONTRACT),
      amount, Hashed(input.policyVersion, sha), expiry]);
    if parts.Failure? {
      return Failure(parts.error);
    }
    r := ConcatExact(parts.value, 261);
  }

  // ----------------------------------------------------- agreement with Rust

  /** The contract's typed arguments for an input the backend accepts. */
  function FieldsOf(input: RegistrationInput, sha: Octets -> Bytes32): RegistrationFields
    requires RegistrationBytes(input, sha).Success?
  {
    var parts := RegistrationParts(input, sha);
    assert parts[2].Success? && parts[4].Success? && parts[5].Success? && parts[6].Success? && parts[7].Success?
      && parts[9].Success?;
    RegistrationFields(
      sha(Utf8(input.networkPassphrase)), StrKeyPayload(input.contractId, VERSION_CONTRACT).value,
        sha(Utf8(input.payableId)),
      HashBytes(input.proofHash), StrKeyPayload(input.recipient, VERSION_ACCOUNT).value,
      StrKeyPayload(input.assetContractId, VERSION_CONTRACT).value, input.amountUnits, sha(Utf8(input.policyVersion)),
        input.expiry.n)
  }

  function RevocationFieldsOf(input: RevocationInput, sha: Octets -> Bytes32): RevocationFields
    requires RevocationBytes(input, sha).Success?
  {
    var parts := RevocationParts(input, sha);
    assert parts[2].Success? && parts[4].Success?;
    RevocationFields(
      sha(Utf8(input.networkPassphrase)), StrKeyPayload(input.contractId, VERSION_CONTRACT).value,
        sha(Utf8(input.payableId)),
      HashBytes(input.proofHash), sha(Utf8(input.reasonCode)))
  }

  function AttestationFieldsOf(input: AttestationInput, sha: Octets -> Bytes32): AttestationFields
    requires AttestationBytes(input, sha).Success?
  {
    var parts := AttestationParts(input, sha);
    assert parts[2].Success? && parts[6].Success?;
    AttestationFields(
      sha(Utf8(input.networkPassphrase)), StrKeyPayload(input.contractId, VERSION_CONTRACT).value,
        sha(Utf8(input.payableId)),
      PhaseByte(input.phase), sha(Utf8(input.reasonCode)), input.sequence.n)
  }

  lemma AcceptedParts(parts: seq<Result<Octets, DigestError>>, layout: seq<Octets>, expected: nat)
    requires Built(parts, expected).Success? && |parts| == |layout|
    requires forall i :: 0 <= i < |parts| && parts[i].Success? ==> parts[i].value == layout[i]
    ensures Built(parts, expected).value == Flatten(layout)
  {
    assert AllOf(parts).value == layout;
  }

  /** For every accepted input the backend's bytes are the contract's bytes. */
  lemma RegistrationBytesAgree(input: RegistrationInput, sha: Octets -> Bytes32)
    requires RegistrationBytes(input, sha).Success?
    ensures RegistrationBytes(input, sha).value == Preimage(FieldsOf(input, sha))
  {
    AcceptedParts(RegistrationParts(input, sha), RegistrationLayout(FieldsOf(input, sha)), 261);
  }

  lemma RevocationBytesAgree(input: RevocationInput, sha: Octets -> Bytes32)
    requires RevocationBytes(input, sha).Success?
    ensures RevocationBytes(input, sha).value == RevocationPreimage(RevocationFieldsOf(input, sha))
  {
    AcceptedParts(RevocationParts(input, sha), RevocationLayout(RevocationFieldsOf(input, sha)), 173);
  }

  lemma AttestationBytesAgree(input: AttestationInput, sha: Octets -> Bytes32)
    requires AttestationBytes(input, sha).Success?
    ensures AttestationBytes(input, sha).value == AttestationPreimage(AttestationFieldsOf(input, sha))
  {
    AcceptedParts(AttestationParts(input, sha), AttestationLayout(AttestationFieldsOf(input, sha)), 150);
  }

  // ------------------------------------- what is accepted, and what it becomes

  datatype Field =
    | Constant(bytes: Octets)
    | NameField(text: Str)
    | KeyField(text: Str, version: bv8)
    | HashField(hex: Str)
    | AmountField(units: int)
    | CountField(count: JsInteger)

  /** What is wrong with a field. */
  function Obstacle(f: Field): Option<DigestError> {
    match f
    case Constant(_) => None
    case NameField(text) => if text == [] then Some(EmptyField) else None
    case KeyField(text, version) =>
      if text == [] then Some(EmptyField)
      else (match StrKeyPayload(text, version)
            case Failure(cause) => Some(BadKey(cause))
            case Success(_) => None)
    case HashField(hex) =>
      if hex == [] then Some(EmptyField)
      else if |hex| == 64 && (forall i :: 0 <= i < 64 ==> 48 <= hex[i] <= 57 || 97 <= hex[i] <= 102) then None
      else Some(BadHex)
    case AmountField(units) =>
      if units < 1 then Some(NotPositive)
      else if units > 0x7FFF_FFFF_FFFF_FFFF_FFFF_FFFF_FFFF_FFFF then Some(AboveI128)
      else None
    case CountField(Number(n)) =>
      if n < -0x1F_FFFF_FFFF_FFFF || n > 0x1F_FFFF_FFFF_FFFF then Some(NotSafe)
      else if n < 0 then Some(OutsideU64)
      else None
    case CountField(BigInt(n)) => if n < 0 || n > 0xFFFF_FFFF_FFFF_FFFF then Some(OutsideU64) else None
  }

  /** What a field becomes when nothing is. */
  function Column(f: Field, sha: Octets -> Bytes32): Octets
    requires Obstacle(f).None?
  {
    match f
    case Constant(bytes) => bytes
    case NameField(text) => sha(Utf8(text))
    case KeyField(text, version) => StrKeyPayload(text, version).value
    case HashField(hex) => HashShape(hex); HashBytes(hex)
    case AmountField(units) => I128Bytes(units)
    case CountField(count) => U64Bytes(count.n)
  }

  function Width(f: Field): nat {
    match f
    case Constant(bytes) => |bytes|
    case AmountField(_) => 16
    case CountField(_) => 8
    case _ => 32
  }

  function Part(f: Field, sha: Octets -> Bytes32): Result<Octets, DigestError> {
    match f
    case Constant(bytes) => Success(bytes)
    case NameField(text) => Hashed(text, sha)
    case KeyField(text, version) => Key(text, version)
    case HashField(hex) => Hash(hex)
    case AmountField(units) => I128Encoding(units)
    case CountField(count) => U64Encoding(count)
  }

  lemma PartIs(f: Field, sha: Octets -> Bytes32)
    ensures Part(f, sha) == if Obstacle(f).Some? then Failure(Obstacle(f).value) else Success(Column(f, sha))
    ensures Obstacle(f).None? ==> |Column(f, sha)| == Width(f)
  {
    match f {
      case KeyField(text, version) => KeyPart(text, version, sha);
      case HashField(hex) => HashPart(hex, sha);
      case AmountField(_) => NumberPart(f, sha);
      case CountField(_) => NumberPart(f, sha);
      case _ =>
    }
  }

  lemma KeyPart(text: Str, version: bv8, sha: Octets -> Bytes32)
    ensures var f := KeyField(text, version);
            (Part(f, sha) == if Obstacle(f).Some? then Failure(Obstacle(f).value) else Success(Column(f, sha)))
            && (Obstacle(f).None? ==> |Column(f, sha)| == 32)
  {
  }

  lemma HashPart(hex: Str, sha: Octets -> Bytes32)
    ensures var f := HashField(hex);
            (Part(f, sha) == if Obstacle(f).Some? then Failure(Obstacle(f).value) else Success(Column(f, sha)))
            && (Obstacle(f).None? ==> |Column(f, sha)| == 32)
  {
    HashShape(hex);
  }

  lemma NumberPart(f: Field, sha: Octets -> Bytes32)
    requires f.AmountField? || f.CountField?
    ensures Part(f, sha) == if Obstacle(f).Some? then Failure(Obstacle(f).value) else Success(Column(f, sha))
    ensures Obstacle(f).None? ==> |Column(f, sha)| == Width(f)
  {
  }

  lemma HashShape(hex: Str)
    ensures IsHash(hex) <==> |hex| == 64 && forall i :: 0 <= i < 64 ==> 48 <= hex[i] <= 57 || 97 <= hex[i] <= 102
  {
    if IsHash(hex) {
      forall i | 0 <= i < 64 ensures 48 <= hex[i] <= 57 || 97 <= hex[i] <= 102 {
        assert hex[i] in hex;
      }
    }
  }

  function Parts(fs: seq<Field>, sha: Octets -> Bytes32): (parts: seq<Result<Octets, DigestError>>)
    ensures |parts| == |fs| && forall i :: 0 <= i < |fs| ==> parts[i] == Part(fs[i], sha)
  {
    seq(|fs|, i requires 0 <= i < |fs| => Part(fs[i], sha))
  }

  function Widths(fs: seq<Field>): nat {
    if fs == [] then 0 else Width(fs[0]) + Widths(fs[1..])
  }

  predicate Flawless(fs: seq<Field>) {
    forall i :: 0 <= i < |fs| ==> Obstacle(fs[i]).None?
  }

  /** Nothing but the first obstacle, in field order, keeps the bytes from being built. */
  predicate Meets(fs: seq<Field>, r: Result<Octets, DigestError>) {
    (r.Success? <==> Flawless(fs))
    && forall i :: 0 <= i < |fs| && Obstacle(fs[i]).Some? && Flawless(fs[..i]) ==> r == Failure(Obstacle(fs[i]).value)
  }

  lemma {:induction false} FirstFailureIsThrown(parts: seq<Result<Octets, DigestError>>, i: nat)
    requires i < |parts| && parts[i].Failure? && forall j :: 0 <= j < i ==> parts[j].Success?
    ensures AllOf(parts) == Failure(parts[i].error)
  {
    if i > 0 {
      FirstFailureIsThrown(parts[1..], i - 1);
    }
  }

  lemma {:induction false} ColumnsFit(fs: seq<Field>, columns: seq<Octets>, sha: Octets -> Bytes32)
    requires Flawless(fs) && |columns| == |fs| && forall i :: 0 <= i < |fs| ==> columns[i] == Column(fs[i], sha)
    ensures |Flatten(columns)| == Widths(fs)
  {
    if fs != [] {
      PartIs(fs[0], sha);
      ColumnsFit(fs[1..], columns[1..], sha);
    }
  }

  lemma BuiltMeets(fs: seq<Field>, sha: Octets -> Bytes32)
    ensures Meets(fs, Built(Parts(fs, sha), Widths(fs)))
  {
    var parts := Parts(fs, sha);
    forall i | 0 <= i < |fs|
      ensures parts[i] == if Obstacle(fs[i]).Some? then Failure(Obstacle(fs[i]).value) else Success(Column(fs[i], sha))
    {
      PartIs(fs[i], sha);
    }
    if Flawless(fs) {
      assert AllOf(parts).Success?;
      ColumnsFit(fs, AllOf(parts).value, sha);
    } else {
      var k :| 0 <= k < |fs| && Obstacle(fs[k]).Some?;
      assert parts[k].Failure?;
    }
    forall i | 0 <= i < |fs| && Obstacle(fs[i]).Some? && Flawless(fs[..i])
      ensures AllOf(parts) == Failure(Obstacle(fs[i]).value)
    {
      forall j | 0 <= j < i ensures parts[j].Success? {
        assert fs[..i][j] == fs[j];
      }
      FirstFailureIsThrown(parts, i);
    }
  }

  /** A registration's fields, in the order they are looked at. */
  function RegistrationList(input: RegistrationInput): seq<Field> {
    [Constant(DOMAIN), NameField(input.networkPassphrase), KeyField(input.contractId, 16), NameField(input.payableId),
     HashField(input.proofHash), KeyField(input.recipient, 48), KeyField(input.assetContractId, 16),
     AmountField(input.amountUnits), NameField(input.policyVersion), CountField(input.expiry)]
  }

  function RevocationList(input: RevocationInput): seq<Field> {
    [Constant(REVOKE_DOMAIN), NameField(input.networkPassphrase), KeyField(input.contractId, 16),
     NameField(input.payableId),
     HashField(input.proofHash), NameField(input.reasonCode)]
  }

  /** 0 for blocked, 1 for resolved, 2 for reconciled. */
  function PhaseNumber(p: Phase): bv8 {
    if p == Blocked then 0 else if p == Resolved then 1 else 2
  }

  function AttestationList(input: AttestationInput): seq<Field> {
    [Constant(ATTEST_DOMAIN), NameField(input.networkPassphrase), KeyField(input.contractId, 16),
     NameField(input.payableId),
     Constant([PhaseNumber(input.phase)]), NameField(input.reasonCode), CountField(input.sequence)]
  }

  lemma RegistrationWidths(input: RegistrationInput)
    ensures Widths(RegistrationList(input)) == 261
  {
    var fs := RegistrationList(input);
    SevenWidths(fs);
    SevenWidths(fs[3..]);
    assert fs[7..] == fs[3..][4..];
  }

  lemma RevocationWidths(input: RevocationInput)
    ensures Widths(RevocationList(input)) == 173
  {
    SevenWidths(RevocationList(input));
    SevenWidths(RevocationList(input)[3..]);
  }

  lemma AttestationWidths(input: AttestationInput)
    ensures Widths(AttestationList(input)) == 150
  {
    SevenWidths(AttestationList(input));
  }

  /** Up to seven fields at a time. */
  lemma SevenWidths(fs: seq<Field>)
    requires |fs| >= 3
    ensures Widths(fs) == Width(fs[0]) + Width(fs[1]) + Width(fs[2]) + Widths(fs[3..])
    ensures |fs| >= 7 ==> Widths(fs[3..]) == Width(fs[3]) + Width(fs[4]) + Width(fs[5]) + Width(fs[6]) + Widths(fs[7..])
  {
    ThreeWidths(fs);
    if |fs| >= 7 {
      ThreeWidths(fs[3..]);
      assert fs[3..][3..] == fs[6..] && fs[6..][1..] == fs[7..];
      assert Widths(fs[6..]) == Width(fs[6]) + Widths(fs[7..]);
    }
  }

  lemma ThreeWidths(fs: seq<Field>)
    requires |fs| >= 3
    ensures Widths(fs) == Width(fs[0]) + Width(fs[1]) + Width(fs[2]) + Widths(fs[3..])
  {
    assert fs[1..][1..] == fs[2..] && fs[2..][1..] == fs[3..];
    assert Widths(fs) == Width(fs[0]) + Widths(fs[1..]) && Widths(fs[1..]) == Width(fs[1]) + Widths(fs[2..]);
    assert Widths(fs[2..]) == Width(fs[2]) + Widths(fs[3..]);
  }

  lemma RegistrationListed(input: RegistrationInput, sha: Octets -> Bytes32)
    ensures RegistrationParts(input, sha) == Parts(RegistrationList(input), sha)
  {
  }

  lemma RevocationListed(input: RevocationInput, sha: Octets -> Bytes32)
    ensures RevocationParts(input, sha) == Parts(RevocationList(input), sha)
  {
  }

  lemma AttestationListed(input: AttestationInput, sha: Octets -> Bytes32)
    ensures AttestationParts(input, sha) == Parts(AttestationList(input), sha)
  {
  }

  /** The registration's bytes are built exactly when every field is as it should be; otherwise the first that is not,
      in field order, is the error. */
  lemma RegistrationBytesMeet(input: RegistrationInput, sha: Octets -> Bytes32)
    ensures Meets(RegistrationList(input), RegistrationBytes(input, sha))
  {
    RegistrationListed(input, sha);
    RegistrationWidths(input);
    BuiltMeets(RegistrationList(input), sha);
  }

  lemma RevocationBytesMeet(input: RevocationInput, sha: Octets -> Bytes32)
    ensures Meets(RevocationList(input), RevocationBytes(input, sha))
  {
    RevocationListed(input, sha);
    RevocationWidths(input);
    BuiltMeets(RevocationList(input), sha);
  }

  lemma AttestationBytesMeet(input: AttestationInput, sha: Octets -> Bytes32)
    ensures Meets(AttestationList(input), AttestationBytes(input, sha))
  {
    AttestationListed(input, sha);
    AttestationWidths(input);
    BuiltMeets(AttestationList(input), sha);
  }

  /** Each field of the registration is at its offset, under its own name. */
  lemma RegistrationBytesTable(input: RegistrationInput, sha: Octets -> Bytes32)
    requires RegistrationBytes(input, sha).Success?
    ensures StrKeyPayload(input.contractId, 16).Success? && StrKeyPayload(input.recipient, 48).Success?
            && StrKeyPayload(input.assetContractId, 16).Success? && IsHash(input.proofHash)
    ensures var b := RegistrationBytes(input, sha).value;
            |b| == 261 && Spells(b[..13], "PAKTA_REG_V1")
            && Carries(b, 13, 45, sha(Utf8(input.networkPassphrase)))
            && Carries(b, 45, 77, StrKeyPayload(input.contractId, 16).value)
            && Carries(b, 77, 109, sha(Utf8(input.payableId))) && Carries(b, 109, 141, HashBytes(input.proofHash))
            && Carries(b, 141, 173, StrKeyPayload(input.recipient, 48).value)
            && Carries(b, 173, 205, StrKeyPayload(input.assetContractId, 16).value)
            && NumberOf(b[205..221]) == input.amountUnits && Carries(b, 221, 253, sha(Utf8(input.policyVersion)))
            && NumberOf(b[253..261]) == input.expiry.n
  {
    RegistrationBytesAgree(input, sha);
    FieldsAccepted(input, sha);
    var f := FieldsOf(input, sha);
    RegistrationPreimageTable(f);
    IntegersRead(f.amount, f.expiry);
    assert RegistrationParts(input, sha)[7].Success?;
  }

  lemma RevocationBytesTable(input: RevocationInput, sha: Octets -> Bytes32)
    requires RevocationBytes(input, sha).Success?
    ensures StrKeyPayload(input.contractId, 16).Success? && IsHash(input.proofHash)
    ensures var b := RevocationBytes(input, sha).value;
            |b| == 173 && Spells(b[..13], "PAKTA_REV_V2")
            && Carries(b, 13, 45, sha(Utf8(input.networkPassphrase)))
            && Carries(b, 45, 77, StrKeyPayload(input.contractId, 16).value)
            && Carries(b, 77, 109, sha(Utf8(input.payableId))) && Carries(b, 109, 141, HashBytes(input.proofHash))
            && Carries(b, 141, 173, sha(Utf8(input.reasonCode)))
  {
    RevocationBytesAgree(input, sha);
    assert RevocationParts(input, sha)[2].Success? && RevocationParts(input, sha)[4].Success?;
    RevocationPreimageTable(RevocationFieldsOf(input, sha));
  }

  lemma AttestationBytesTable(input: AttestationInput, sha: Octets -> Bytes32)
    requires AttestationBytes(input, sha).Success?
    ensures StrKeyPayload(input.contractId, 16).Success?
    ensures var b := AttestationBytes(input, sha).value;
            |b| == 150 && Spells(b[..13], "PAKTA_ATT_V1")
            && Carries(b, 13, 45, sha(Utf8(input.networkPassphrase)))
            && Carries(b, 45, 77, StrKeyPayload(input.contractId, 16).value)
            && Carries(b, 77, 109, sha(Utf8(input.payableId))) && b[109] == PhaseNumber(input.phase)
            && Carries(b, 110, 142, sha(Utf8(input.reasonCode))) && NumberOf(b[142..150]) == input.sequence.n
  {
    AttestationBytesAgree(input, sha);
    assert AttestationParts(input, sha)[2].Success? && AttestationParts(input, sha)[6].Success?;
    var f := AttestationFieldsOf(input, sha);
    AttestationPreimageTable(f);
    IntegersRead(0, f.sequence);
  }

  // ---------------------------------------------------- binding back to text

  /** One hash, one text up to unpaired surrogates, unless SHA-256 has a collision. */
  lemma HashedTextIsBound(x: Str, y: Str, sha: Octets -> Bytes32)
    ensures sha(Utf8(x)) == sha(Utf8(y)) <==> Repaired(x) == Repaired(y) || Collision(sha, Utf8(x), Utf8(y))
  {
    SameBytesExactlyWhenSameRepaired(x, y);
  }

  lemma KeyTextIsBound(x: Str, y: Str, version: bv8)
    requires StrKeyPayload(x, version).Success? && StrKeyPayload(x, version) == StrKeyPayload(y, version)
    ensures x == y
  {
    EncodeDecode(x, version);
    EncodeDecode(y, version);
  }

  /** The input with its names as UTF-8 keeps them. */
  function RepairedInput(input: RegistrationInput): RegistrationInput {
    input.(networkPassphrase := Repaired(input.networkPassphrase), payableId := Repaired(input.payableId),
           policyVersion := Repaired(input.policyVersion))
  }

  ghost predicate SomeTextCollides(sha: Octets -> Bytes32, a: RegistrationInput, b: RegistrationInput) {
    Collision(sha, Utf8(a.networkPassphrase), Utf8(b.networkPassphrase))
    || Collision(sha, Utf8(a.payableId), Utf8(b.payableId))
    || Collision(sha, Utf8(a.policyVersion), Utf8(b.policyVersion))
  }

  /** A number and a bigint of one value are the same expiry. */
  predicate SameInput(a: RegistrationInput, b: RegistrationInput) {
    a == b.(expiry := a.expiry) && a.expiry.n == b.expiry.n
  }

  /** The bytes determine every field of the input, text for text: names, keys, hash, amount and expiry. Of a
      name they keep all but which unpaired surrogates it holds. */
  lemma RegistrationBytesBind(a: RegistrationInput, b: RegistrationInput, sha: Octets -> Bytes32)
    requires RegistrationBytes(a, sha).Success? && RegistrationBytes(a, sha) == RegistrationBytes(b, sha)
    ensures SameInput(RepairedInput(a), RepairedInput(b)) || SomeTextCollides(sha, a, b)
  {
    RegistrationBytesAgree(a, sha);
    RegistrationBytesAgree(b, sha);
    RegistrationPreimageIsInjective(FieldsOf(a, sha), FieldsOf(b, sha));
    HashedTextIsBound(a.networkPassphrase, b.networkPassphrase, sha);
    HashedTextIsBound(a.payableId, b.payableId, sha);
    HashedTextIsBound(a.policyVersion, b.policyVersion, sha);
    FieldsAccepted(a, sha);
    FieldsAccepted(b, sha);
    KeyTextIsBound(a.contractId, b.contractId, VERSION_CONTRACT);
    KeyTextIsBound(a.recipient, b.recipient, VERSION_ACCOUNT);
    KeyTextIsBound(a.assetContractId, b.assetContractId, VERSION_CONTRACT);
    HashBytesAreInjective(a.proofHash, b.proofHash);
  }

  lemma FieldsAccepted(a: RegistrationInput, sha: Octets -> Bytes32)
    requires RegistrationBytes(a, sha).Success?
    ensures StrKeyPayload(a.contractId, VERSION_CONTRACT).Success?
            && StrKeyPayload(a.recipient, VERSION_ACCOUNT).Success?
    ensures StrKeyPayload(a.assetContractId, VERSION_CONTRACT).Success? && IsHash(a.proofHash)
  {
    var parts := RegistrationParts(a, sha);
    assert parts[2].Success? && parts[4].Success? && parts[5].Success? && parts[6].Success?;
  }

  lemma NetworkIsNamed(a: RegistrationInput, sha: Octets -> Bytes32)
    requires RegistrationBytes(a, sha).Success?
    ensures a.networkPassphrase != []
  {
    assert RegistrationParts(a, sha)[1].Success?;
  }

  lemma SameBytesSameName(a: RegistrationInput, b: RegistrationInput, sha: Octets -> Bytes32)
    requires RegistrationBytes(a, sha).Success? && RegistrationBytes(a, sha) == RegistrationBytes(b, sha)
    ensures sha(Utf8(a.payableId)) == sha(Utf8(b.payableId))
  {
    RegistrationBytesAgree(a, sha);
    RegistrationBytesAgree(b, sha);
    RegistrationPreimageIsInjective(FieldsOf(a, sha), FieldsOf(b, sha));
  }

  lemma SameNameHashSameBytes(a: RegistrationInput, x: Str, y: Str, sha: Octets -> Bytes32)
    requires x != [] && y != [] && sha(Utf8(x)) == sha(Utf8(y))
    ensures RegistrationBytes(a.(payableId := x), sha) == RegistrationBytes(a.(payableId := y), sha)
  {
    assert RegistrationParts(a.(payableId := x), sha) == RegistrationParts(a.(payableId := y), sha);
  }

  /** Exactly when two names give one registration the same bytes: they differ in unpaired surrogates only, or
      SHA-256 collides on them. */
  lemma NamesShareBytesExactly(a: RegistrationInput, x: Str, y: Str, sha: Octets -> Bytes32)
    requires RegistrationBytes(a.(payableId := x), sha).Success? && y != []
    ensures RegistrationBytes(a.(payableId := x), sha) == RegistrationBytes(a.(payableId := y), sha)
            <==> Repaired(x) == Repaired(y) || Collision(sha, Utf8(x), Utf8(y))
  {
    var v, w := a.(payableId := x), a.(payableId := y);
    HashedTextIsBound(x, y, sha);
    if RegistrationBytes(v, sha) == RegistrationBytes(w, sha) {
      SameBytesSameName(v, w, sha);
    }
    if sha(Utf8(x)) == sha(Utf8(y)) {
      NamesAreNotEmpty(v, sha);
      SameNameHashSameBytes(a, x, y, sha);
    }
  }

  lemma NamesAreNotEmpty(a: RegistrationInput, sha: Octets -> Bytes32)
    requires RegistrationBytes(a, sha).Success?
    ensures a.payableId != []
  {
    assert RegistrationParts(a, sha)[3].Success?;
  }

  /** Two such names. */
  lemma IllFormedNamesShareBytes(a: RegistrationInput, sha: Octets -> Bytes32)
    ensures RegistrationBytes(a.(payableId := [0xD800]), sha) == RegistrationBytes(a.(payableId := [0xDC00]), sha)
  {
    assert Repaired([0xD800]) == [0xFFFD] == Repaired([0xDC00]);
    SameBytesExactlyWhenSameRepaired([0xD800], [0xDC00]);
    SameNameHashSameBytes(a, [0xD800], [0xDC00], sha);
  }
}
