/** UTF-16 text and its UTF-8 bytes, as hashed by both sides. */
module Text {
  import opened Primitives

  predicate IsHigh(u: CodeUnit) {
    0xD800 <= u <= 0xDBFF
  }

  predicate IsLow(u: CodeUnit) {
    0xDC00 <= u <= 0xDFFF
  }

  /** Code units taken by the first character: two for a surrogate pair, otherwise one. */
  function FirstLength(s: Str): (n: nat)
    requires s != []
    ensures 1 <= n <= |s|
  {
    if IsHigh(s[0]) && |s| > 1 && IsLow(s[1]) then 2 else 1
  }

  /** Every surrogate belongs to a pair. */
  predicate WellFormed(s: Str) {
    s == [] || ((FirstLength(s) == 2 || !(IsHigh(s[0]) || IsLow(s[0]))) && WellFormed(s[FirstLength(s)..]))
  }

  method HasLoneSurrogate(value: Str) returns (lone: bool)
    ensures lone == !WellFormed(value)
  {
    var i := 0;
    while i < |value|
      invariant i <= |value|
      invariant WellFormed(value) == WellFormed(value[i..])
    {
      var unit := value[i];
      assert value[i..][0] == unit;
      if 0xd800 <= unit <= 0xdbff {
        // Past the end charCodeAt is NaN, which no range contains.
        if i + 1 >= |value| || !(0xdc00 <= value[i + 1] <= 0xdfff) {
          return true;
        }
        assert value[i..][1] == value[i + 1];
        assert value[i..][2..] == value[i + 2..];
        i := i + 1;
      } else if 0xdc00 <= unit <= 0xdfff {
        return true;
      } else {
        assert value[i..][1..] == value[i + 1..];
      }
      i := i + 1;
    }
    assert value[i..] == [];
    return false;
  }

  /** The first character as a Unicode scalar value; an unpaired surrogate reads as U+FFFD. */
  function FirstScalar(s: Str): (c: int)
    requires s != []
    ensures 0 <= c < 0x11_0000
  {
    if FirstLength(s) == 2 then 0x1_0000 + (s[0] as int - 0xD800) * 0x400 + (s[1] as int - 0xDC00)
    else if IsHigh(s[0]) || IsLow(s[0]) then 0xFFFD
    else s[0]
  }

  type ByteValue = b: int | 0 <= b < 256

  function ScalarBytes(c: int): (bytes: seq<ByteValue>)
    requires 0 <= c < 0x11_0000
    ensures |bytes| > 0
  {
    if c < 0x80 then [c]
    else if c < 0x800 then [0xC0 + c / 0x40, 0x80 + c % 0x40]
    else if c < 0x1_0000 then [0xE0 + c / 0x1000, 0x80 + c / 0x40 % 0x40, 0x80 + c % 0x40]
    else [0xF0 + c / 0x4_0000, 0x80 + c / 0x1000 % 0x40, 0x80 + c / 0x40 % 0x40, 0x80 + c % 0x40]
  }

  function Utf8Values(s: Str): seq<ByteValue> {
    if s == [] then [] else ScalarBytes(FirstScalar(s)) + Utf8Values(s[FirstLength(s)..])
  }

  function ToOctets(values: seq<ByteValue>): (bytes: Octets)
    ensures |bytes| == |values|
  {
    seq(|values|, i requires 0 <= i < |values| => ByteOf(values[i]))
  }

  /** `Buffer.from(s, "utf8")`. */
  function Utf8(s: Str): Octets {
    ToOctets(Utf8Values(s))
  }

  lemma ToOctetsIsInjective(x: seq<ByteValue>, y: seq<ByteValue>)
    requires ToOctets(x) == ToOctets(y)
    ensures x == y
  {
    assert |x| == |ToOctets(x)| == |y|;
    forall i | 0 <= i < |x| ensures x[i] == y[i] {
      ByteRoundTrips(x[i]);
      ByteRoundTrips(y[i]);
      assert ToOctets(x)[i] == ToOctets(y)[i];
    }
  }

  /** The leading byte tells the length, so no scalar's bytes are a prefix of another's. */
  lemma ScalarBytesArePrefixFree(c: int, d: int, x: seq<ByteValue>, y: seq<ByteValue>)
    requires 0 <= c < 0x11_0000 && 0 <= d < 0x11_0000
    requires ScalarBytes(c) + x == ScalarBytes(d) + y
    ensures c == d && x == y
  {
    var p, q := ScalarBytes(c), ScalarBytes(d);
    assert (p + x)[0] == p[0] && (q + y)[0] == q[0];
    assert |p| == |q| by {
      LeadByte(c);
      LeadByte(d);
    }
    assert p == (p + x)[..|p|] && q == (q + y)[..|q|];
    assert x == (p + x)[|p|..] && y == (q + y)[|q|..];
    SameBytesSameScalar(c, d);
  }

  lemma LeadByte(c: int)
    requires 0 <= c < 0x11_0000
    ensures var b := ScalarBytes(c)[0];
            |ScalarBytes(c)| == if b < 0x80 then 1 else if b < 0xE0 then 2 else if b < 0xF0 then 3 else 4
  {
  }

  /** The scalar that one to four bytes say, by the table of section 3 of RFC 3629. */
  function ScalarOf(b: seq<int>): int
    requires 1 <= |b| <= 4
  {
    if |b| == 1 then b[0]
    else if |b| == 2 then (b[0] - 0xC0) * 0x40 + (b[1] - 0x80)
    else if |b| == 3 then (b[0] - 0xE0) * 0x1000 + (b[1] - 0x80) * 0x40 + (b[2] - 0x80)
    else (b[0] - 0xF0) * 0x4_0000 + (b[1] - 0x80) * 0x1000 + (b[2] - 0x80) * 0x40 + (b[3] - 0x80)
  }

  /** As few bytes as its range needs, each continuation byte between 0x80 and 0xBF, reading back to the scalar. */
  lemma ScalarBytesRead(c: int)
    requires 0 <= c < 0x11_0000
    ensures var b := ScalarBytes(c);
            |b| == (if c < 0x80 then 1 else if c < 0x800 then 2 else if c < 0x1_0000 then 3 else 4)
            && ScalarOf(b) == c && forall i :: 1 <= i < |b| ==> 0x80 <= b[i] <= 0xBF
  {
    SixBitGroups(c);
  }

  /** A pair's scalar gives back both surrogates; an unpaired one reads as U+FFFD, anything else as itself. */
  lemma FirstScalarReads(s: Str)
    requires s != []
    ensures if |s| > 1 && 0xD800 <= s[0] <= 0xDBFF && 0xDC00 <= s[1] <= 0xDFFF then
              FirstScalar(s) >= 0x1_0000 && FirstLength(s) == 2
              && (FirstScalar(s) - 0x1_0000) / 0x400 == s[0] - 0xD800
              && (FirstScalar(s) - 0x1_0000) % 0x400 == s[1] - 0xDC00
            else FirstLength(s) == 1 && FirstScalar(s) == if 0xD800 <= s[0] <= 0xDFFF then 0xFFFD else s[0]
  {
  }

  /** The bytes are the scalars' bytes, one character after another. */
  lemma Utf8Continues(s: Str)
    requires s != []
    ensures Utf8([]) == [] && Utf8(s) == ToOctets(ScalarBytes(FirstScalar(s))) + Utf8(s[FirstLength(s)..])
  {
  }

  lemma SixBitGroups(c: int)
    requires 0 <= c < 0x11_0000
    ensures c == 0x40 * (c / 0x40) + c % 0x40
    ensures c / 0x40 == 0x40 * (c / 0x1000) + c / 0x40 % 0x40
    ensures c / 0x1000 == 0x40 * (c / 0x4_0000) + c / 0x1000 % 0x40
  {
  }

  lemma SameBytesSameScalar(c: int, d: int)
    requires 0 <= c < 0x11_0000 && 0 <= d < 0x11_0000 && ScalarBytes(c) == ScalarBytes(d)
    ensures c == d
  {
    var p, q := ScalarBytes(c), ScalarBytes(d);
    SixBitGroups(c);
    SixBitGroups(d);
    assert p[0] == q[0] && p[|p| - 1] == q[|p| - 1];
    if |p| == 3 {
      assert p[1] == q[1];
    } else if |p| == 4 {
      assert p[1] == q[1] && p[2] == q[2];
    }
  }

  lemma SameScalarSameUnits(s: Str, t: Str)
    requires s != [] && t != [] && WellFormed(s) && WellFormed(t) && FirstScalar(s) == FirstScalar(t)
    ensures FirstLength(s) == FirstLength(t) && s[..FirstLength(s)] == t[..FirstLength(t)]
  {
    assert FirstLength(s) == 2 <==> FirstScalar(s) >= 0x1_0000;
    assert FirstLength(t) == 2 <==> FirstScalar(t) >= 0x1_0000;
    if FirstLength(s) == 2 {
      assert s[0] == t[0] && s[1] == t[1];
    }
  }

  /** Two well-formed texts with the same UTF-8 bytes are the same text. */
  lemma Utf8IsInjective(s: Str, t: Str)
    requires WellFormed(s) && WellFormed(t) && Utf8(s) == Utf8(t)
    ensures s == t
  {
    ToOctetsIsInjective(Utf8Values(s), Utf8Values(t));
    SameValuesSameText(s, t);
  }

  lemma {:induction false} SameValuesSameText(s: Str, t: Str)
    requires WellFormed(s) && WellFormed(t) && Utf8Values(s) == Utf8Values(t)
    ensures s == t
    decreases |s|
  {
    if s != [] && t != [] {
      var n, m := FirstLength(s), FirstLength(t);
      ScalarBytesArePrefixFree(FirstScalar(s), FirstScalar(t), Utf8Values(s[n..]), Utf8Values(t[m..]));
      SameScalarSameUnits(s, t);
      SameValuesSameText(s[n..], t[m..]);
      assert s == s[..n] + s[n..] && t == t[..m] + t[m..];
    }
  }

  // ------------------------------------------- what UTF-8 does to other texts

  /** The first character as it survives encoding: an unpaired surrogate has become U+FFFD. */
  function FirstRepaired(s: Str): Str
    requires s != []
  {
    if FirstLength(s) == 2 then s[..2] else if IsHigh(s[0]) || IsLow(s[0]) then [0xFFFD] else [s[0]]
  }

  /** The text with U+FFFD in place of every unpaired surrogate. */
  function Repaired(s: Str): Str {
    if s == [] then [] else FirstRepaired(s) + Repaired(s[FirstLength(s)..])
  }

  /** The repaired first character is read back as one character, whatever follows it. */
  lemma FirstRepairedStandsAlone(s: Str, rest: Str)
    requires s != []
    ensures var t := FirstRepaired(s) + rest;
            t[FirstLength(t)..] == rest && FirstScalar(t) == FirstScalar(s)
            && (FirstLength(t) == 2 || !(IsHigh(t[0]) || IsLow(t[0])))
  {
    var t := FirstRepaired(s) + rest;
    assert t[0] == FirstRepaired(s)[0];
    if FirstLength(s) == 2 {
      assert t[1] == s[1] && t[2..] == rest;
    } else {
      assert t[1..] == rest;
    }
  }

  lemma {:induction false} RepairedIsWellFormed(s: Str)
    ensures WellFormed(Repaired(s)) && Utf8Values(Repaired(s)) == Utf8Values(s)
    ensures Repaired(s) == [] <==> s == []
  {
    if s != [] {
      RepairedIsWellFormed(s[FirstLength(s)..]);
      FirstRepairedStandsAlone(s, Repaired(s[FirstLength(s)..]));
    }
  }

  lemma {:induction false} WellFormedIsRepaired(s: Str)
    requires WellFormed(s)
    ensures Repaired(s) == s
  {
    if s != [] {
      var n := FirstLength(s);
      WellFormedIsRepaired(s[n..]);
      assert s == s[..n] + s[n..];
    }
  }

  /** Two texts share their bytes exactly when they differ in nothing but which unpaired surrogates they hold. */
  lemma SameBytesExactlyWhenSameRepaired(s: Str, t: Str)
    ensures Utf8(s) == Utf8(t) <==> Repaired(s) == Repaired(t)
  {
    RepairedIsWellFormed(s);
    RepairedIsWellFormed(t);
    if Utf8(s) == Utf8(t) {
      Utf8IsInjective(Repaired(s), Repaired(t));
    }
  }

  lemma {:induction false} WellFormedConcat(s: Str, t: Str)
    requires WellFormed(s) && WellFormed(t)
    ensures WellFormed(s + t)
  {
    if s == [] {
      assert s + t == t;
    } else {
      var n := FirstLength(s);
      WellFormedConcat(s[n..], t);
      assert (s + t)[n..] == s[n..] + t;
      assert (s + t)[0] == s[0] && (n == 2 ==> (s + t)[1] == s[1]);
    }
  }

  lemma {:induction false} PlainIsWellFormed(s: Str)
    requires forall i :: 0 <= i < |s| ==> s[i] < 0xD800
    ensures WellFormed(s)
  {
    if s != [] {
      assert FirstLength(s) == 1;
      PlainIsWellFormed(s[1..]);
    }
  }
}
