/** Types shared by every module: machine integers, octets, UTF-16 text and result types. */
module Primitives {

  const I128_MAX: int := 0x7FFF_FFFF_FFFF_FFFF_FFFF_FFFF_FFFF_FFFF
  const U64_MAX: int := 0xFFFF_FFFF_FFFF_FFFF

  type i128 = x: int | -I128_MAX - 1 <= x <= I128_MAX
  type u64 = x: int | 0 <= x <= U64_MAX

  type Octets = seq<bv8>
  type Bytes32 = b: Octets | |b| == 32 witness seq(32, _ => 0 as bv8)

  /** A JavaScript string is a sequence of UTF-16 code units, surrogates included. */
  type CodeUnit = u: int | 0 <= u < 0x1_0000
  type Str = seq<CodeUnit>

  datatype Option<+T> = None | Some(value: T)

  datatype Result<+T, +E> = Success(value: T) | Failure(error: E)

  /** The code units of an ASCII literal. */
  function Ascii(s: string): (r: Str)
    ensures |r| == |s|
  {
    seq(|s|, i requires 0 <= i < |s| => if s[i] < 128 as char then s[i] as CodeUnit else 63)
  }

  /** Two distinct inputs with one hash: what a broken digest would have to exhibit. */
  ghost predicate Collision(sha: Octets -> Bytes32, a: Octets, b: Octets) {
    a != b && sha(a) == sha(b)
  }

  // ------------------------------------------------------------------ octets

  /** Four bits of value n. Written out because the solver converts between integers and bit vectors badly. */
  function Nibble(n: int): (b: bv8)
    requires 0 <= n < 16
    ensures NibbleValue(b) == n && b & 15 == b
  {
    match n
    case 0 => 0 case 1 => 1 case 2 => 2 case 3 => 3 case 4 => 4 case 5 => 5 case 6 => 6 case 7 => 7
    case 8 => 8 case 9 => 9 case 10 => 10 case 11 => 11 case 12 => 12 case 13 => 13 case 14 => 14 case _ => 15
  }

  function NibbleValue(b: bv8): (n: nat)
    ensures n < 16
  {
    match b
    case 0 => 0 case 1 => 1 case 2 => 2 case 3 => 3 case 4 => 4 case 5 => 5 case 6 => 6 case 7 => 7
    case 8 => 8 case 9 => 9 case 10 => 10 case 11 => 11 case 12 => 12 case 13 => 13 case 14 => 14 case _ => 15
  }

  /** The octet of value n, from its two hexadecimal digits. */
  function ByteOf(n: int): bv8
    requires 0 <= n < 256
  {
    (Nibble(n / 16) << 4) | Nibble(n % 16)
  }

  function ValueOfByte(b: bv8): (n: nat)
    ensures n < 256
  {
    16 * NibbleValue(b >> 4) + NibbleValue(b & 15)
  }

  lemma NibbleIs(b: bv8)
    requires b < 16
    ensures NibbleValue(b) == b as int
  {
  }

  lemma NibblesApart(high: bv8, low: bv8)
    ensures high & 15 == high && low & 15 == low ==> ((high << 4) | low) >> 4 == high && ((high << 4) | low) & 15 == low
  {
  }

  lemma ByteRoundTrips(n: int)
    requires 0 <= n < 256
    ensures ValueOfByte(ByteOf(n)) == n
  {
    NibblesApart(Nibble(n / 16), Nibble(n % 16));
  }

  lemma NibbleRestored(b: bv8)
    ensures b & 15 == b ==> Nibble(NibbleValue(b)) == b
  {
  }

  lemma OctetRoundTrips(b: bv8)
    ensures ByteOf(ValueOfByte(b)) == b
  {
    NibbleRestored(b >> 4);
    NibbleRestored(b & 15);
    assert ((b >> 4) << 4) | (b & 15) == b;
  }
}
