/** Decimal numerals, most significant digit first. */
module Numerals {
  import opened Primitives

  predicate IsDigit(c: CodeUnit) {
    48 <= c <= 57
  }

  predicate AllDigits(s: Str) {
    forall i :: 0 <= i < |s| ==> IsDigit(s[i])
  }

  function ValueOf(s: Str): nat
    requires AllDigits(s)
  {
    if s == [] then 0 else 10 * ValueOf(s[..|s| - 1]) + (s[|s| - 1] - 48)
  }

  /** `BigInt.prototype.toString` of a non-negative value. */
  function Numeral(n: nat): (s: Str)
    ensures AllDigits(s) && |s| >= 1 && (n > 0 ==> s[0] != 48) && (n < 10 ==> |s| == 1)
  {
    if n < 10 then [48 + n] else Numeral(n / 10) + [48 + n % 10]
  }

  /** Digits with no leading zero, except the numeral zero itself. */
  predicate Canonical(s: Str) {
    s != [] && AllDigits(s) && (|s| > 1 ==> s[0] != 48)
  }

  lemma {:induction false} NumeralHasValue(n: nat)
    ensures ValueOf(Numeral(n)) == n
  {
    if n >= 10 {
      NumeralHasValue(n / 10);
      assert Numeral(n)[..|Numeral(n)| - 1] == Numeral(n / 10);
    } else {
      assert Numeral(n)[..0] == [];
    }
  }

  lemma {:induction false} NonZeroLead(s: Str)
    requires s != [] && AllDigits(s) && s[0] != 48
    ensures ValueOf(s) > 0
  {
    if |s| > 1 {
      NonZeroLead(s[..|s| - 1]);
    }
  }

  lemma NumeralGrows(h: nat, d: nat)
    requires h > 0 && d < 10
    ensures Numeral(10 * h + d) == Numeral(h) + [48 + d]
  {
    assert (10 * h + d) / 10 == h && (10 * h + d) % 10 == d;
  }

  /** A canonical numeral is the only one of its value. */
  lemma {:induction false} CanonicalIsNumeral(s: Str)
    requires Canonical(s)
    ensures Numeral(ValueOf(s)) == s
  {
    var n := |s| - 1;
    if n > 0 {
      CanonicalIsNumeral(s[..n]);
      NonZeroLead(s[..n]);
      NumeralGrows(ValueOf(s[..n]), s[n] - 48);
      assert s == s[..n] + [s[n]];
    } else {
      assert s[..0] == [] && s == [s[0]];
    }
  }

  /** How many digits the text starts with. */
  function DigitRun(s: Str): (k: nat)
    ensures k <= |s| && (forall i :: 0 <= i < k ==> IsDigit(s[i])) && (k < |s| ==> !IsDigit(s[k]))
  {
    if s == [] || !IsDigit(s[0]) then 0 else DigitRun(s[1..]) + 1
  }

  lemma DigitRunStops(whole: Str, rest: Str)
    requires AllDigits(whole) && (rest != [] ==> !IsDigit(rest[0]))
    ensures DigitRun(whole + rest) == |whole|
  {
    var s := whole + rest;
    assert forall i :: 0 <= i < |whole| ==> IsDigit(s[i]);
    assert rest != [] ==> !IsDigit(s[|whole|]);
  }

  function Pow10(w: nat): nat {
    if w == 0 then 1 else 10 * Pow10(w - 1)
  }

  function ZeroDigits(n: nat): (s: Str)
    ensures |s| == n && AllDigits(s)
  {
    seq(n, i => 48)
  }

  lemma {:induction false} FixedWidthBelow(s: Str)
    requires AllDigits(s)
    ensures ValueOf(s) < Pow10(|s|)
  {
    if s != [] {
      FixedWidthBelow(s[..|s| - 1]);
    }
  }

  lemma {:induction false} FixedWidthIsInjective(s: Str, t: Str)
    requires AllDigits(s) && AllDigits(t) && |s| == |t| && ValueOf(s) == ValueOf(t)
    ensures s == t
  {
    if s != [] {
      var n := |s| - 1;
      FixedWidthIsInjective(s[..n], t[..n]);
      assert s == s[..n] + [s[n]] && t == t[..n] + [t[n]];
    }
  }

  lemma {:induction false} LeadingZeros(s: Str, k: nat)
    requires AllDigits(s)
    ensures ValueOf(ZeroDigits(k) + s) == ValueOf(s)
  {
    if s == [] {
      assert ZeroDigits(k) + s == ZeroDigits(k);
      if k > 0 {
        assert ZeroDigits(k)[..k - 1] == ZeroDigits(k - 1) + [];
        LeadingZeros([], k - 1);
      }
    } else {
      var n := |s| - 1;
      LeadingZeros(s[..n], k);
      assert (ZeroDigits(k) + s)[..k + n] == ZeroDigits(k) + s[..n];
    }
  }

  lemma {:induction false} NumeralLength(n: nat, w: nat)
    requires n < Pow10(w) && w > 0
    ensures |Numeral(n)| <= w
    decreases w
  {
    if n >= 10 {
      NumeralLength(n / 10, w - 1);
    }
  }
}

/** Decimal money texts and the whole units the contract counts in. */
module Amount {
  import opened Primitives
  import opened Numerals

  const ASSET_DECIMALS: nat := 7
  const UNITS_PER_WHOLE: nat := 10_000_000

  datatype AmountError = NotCanonical | TooManyDecimals | Zero | AboveI128 | Negative | BadFractionDigits

  // ------------------------------------------------------------------ parsing

  datatype Parts = Parts(whole: Str, fraction: Str)

  predicate WellShaped(p: Parts) {
    Canonical(p.whole) && AllDigits(p.fraction)
  }

  /** What `^(0|[1-9]\d*)(?:\.(\d+))?$` captures; a missing fraction reads as empty. */
  function Captures(s: Str): (r: Option<Parts>)
    ensures r.Some? ==> WellShaped(r.value) && s == Rendered(r.value)
  {
    var k := DigitRun(s);
    var whole, rest := s[..k], s[k..];
    assert s == whole + rest;
    if !Canonical(whole) then None
    else if rest == [] then Some(Parts(whole, []))
    else if rest[0] == 46 && |rest| > 1 && AllDigits(rest[1..]) then
      assert rest == [46] + rest[1..];
      Some(Parts(whole, rest[1..]))
    else None
  }

  function Rendered(p: Parts): Str {
    if p.fraction == [] then p.whole else p.whole + [46] + p.fraction
  }

  /** Every well-shaped pair is what its own text parses to. */
  lemma CapturesRendered(p: Parts)
    requires WellShaped(p)
    ensures Captures(Rendered(p)) == Some(p)
  {
    var rest := if p.fraction == [] then [] else [46] + p.fraction;
    var s := Rendered(p);
    assert s == p.whole + rest;
    DigitRunStops(p.whole, rest);
    assert s[..|p.whole|] == p.whole && s[|p.whole|..] == rest;
    if rest != [] {
      assert rest[1..] == p.fraction;
    }
  }

  /** `padEnd`: the fraction to seven digits. */
  function Padded(fraction: Str): (s: Str)
    requires AllDigits(fraction) && |fraction| <= ASSET_DECIMALS
    ensures |s| == ASSET_DECIMALS && AllDigits(s)
  {
    fraction + ZeroDigits(ASSET_DECIMALS - |fraction|)
  }

  function UnitsOf(p: Parts): nat
    requires WellShaped(p) && |p.fraction| <= ASSET_DECIMALS
  {
    ValueOf(p.whole) * UNITS_PER_WHOLE + ValueOf(Padded(p.fraction))
  }

  function DecimalToUnits(amount: Str): (r: Result<int, AmountError>)
    ensures r.Success? ==> 0 < r.value <= I128_MAX
  {
    match Captures(amount)
    case None => Failure(NotCanonical)
    case Some(p) =>
      if |p.fraction| > ASSET_DECIMALS then Failure(TooManyDecimals)
      else
        var units := UnitsOf(p);
        if units == 0 then Failure(Zero)
        else if units > I128_MAX then Failure(AboveI128)
        else Success(units)
  }

  lemma {:induction false} ValueAppend(s: Str, t: Str)
    requires AllDigits(s) && AllDigits(t)
    ensures ValueOf(s + t) == ValueOf(s) * Pow10(|t|) + ValueOf(t)
  {
    if t == [] {
      assert s + t == s;
    } else {
      var n := |t| - 1;
      ValueAppend(s, t[..n]);
      assert (s + t)[..|s| + n] == s + t[..n] && (s + t)[|s| + n] == t[n];
      Distributes(ValueOf(s), Pow10(n), ValueOf(t[..n]));
    }
  }

  lemma Distributes(a: nat, b: nat, c: nat)
    ensures 10 * (a * b + c) == a * (10 * b) + 10 * c
  {
  }

  lemma {:induction false} ZeroDigitsValue(k: nat)
    ensures ValueOf(ZeroDigits(k)) == 0
  {
    LeadingZeros([], k);
    assert ZeroDigits(k) + [] == ZeroDigits(k);
  }

  lemma {:induction false} Pow10Adds(a: nat, b: nat)
    ensures Pow10(a + b) == Pow10(a) * Pow10(b)
  {
    if b > 0 {
      Pow10Adds(a, b - 1);
      Reassociates(Pow10(a), Pow10(b - 1));
    }
  }

  lemma Reassociates(a: nat, b: nat)
    ensures 10 * (a * b) == a * (10 * b)
  {
  }

  lemma TenMillion()
    ensures Pow10(7) == 10_000_000
  {
    assert Pow10(7) == 10 * Pow10(6) && Pow10(6) == 10 * Pow10(5) && Pow10(5) == 10 * Pow10(4) && Pow10(4) == 1_0000;
  }

  /** Units are ten-millionths: the number written by all the digits, divided by ten for each digit of the fraction,
      is the units divided by ten million. */
  lemma UnitsAreTenMillionths(p: Parts)
    requires WellShaped(p) && |p.fraction| <= 7
    ensures UnitsOf(p) * Pow10(|p.fraction|) == ValueOf(p.whole + p.fraction) * 10_000_000
  {
    var k := 7 - |p.fraction|;
    var w, f := ValueOf(p.whole), ValueOf(p.fraction);
    ValueAppend(p.whole, p.fraction);
    ValueAppend(p.fraction, ZeroDigits(k));
    ZeroDigitsValue(k);
    TenMillion();
    Pow10Adds(|p.fraction|, k);
    Scales(w, f, Pow10(|p.fraction|), Pow10(k));
  }

  lemma Scales(w: nat, f: nat, a: nat, b: nat)
    ensures (w * (a * b) + f * b) * a == (w * a + f) * (a * b)
  {
  }

  /** What a decimal text converts to, or the first thing wrong with it. */
  lemma ConvertsExactly(s: Str)
    ensures (forall p: Parts :: WellShaped(p) ==> Rendered(p) != s) ==> DecimalToUnits(s) == Failure(NotCanonical)
    ensures forall p: Parts :: WellShaped(p) && Rendered(p) == s ==>
              if |p.fraction| > 7 then DecimalToUnits(s) == Failure(TooManyDecimals)
              else if ValueOf(p.whole + p.fraction) == 0 then DecimalToUnits(s) == Failure(Zero)
              else if UnitsOf(p) > I128_MAX then DecimalToUnits(s) == Failure(AboveI128)
              else DecimalToUnits(s) == Success(UnitsOf(p))
  {
    forall p: Parts | WellShaped(p) && Rendered(p) == s
      ensures Captures(s) == Some(p)
      ensures |p.fraction| <= 7 ==> (UnitsOf(p) == 0 <==> ValueOf(p.whole + p.fraction) == 0)
    {
      CapturesRendered(p);
      if |p.fraction| <= 7 {
        UnitsAreTenMillionths(p);
        Pow10IsPositive(|p.fraction|);
        Positive(UnitsOf(p), Pow10(|p.fraction|), ValueOf(p.whole + p.fraction));
      }
    }
  }

  lemma {:induction false} Pow10IsPositive(w: nat)
    ensures Pow10(w) > 0
  {
    if w > 0 {
      Pow10IsPositive(w - 1);
    }
  }

  lemma Positive(a: nat, b: nat, c: nat)
    requires a * b == c * 10_000_000 && b > 0
    ensures a == 0 <==> c == 0
  {
    if a > 0 {
      assert a * b > 0;
    }
  }

  /** The amounts a proof may carry: a canonical decimal of at most seven digits, above zero, with no upper bound. */
  predicate AmountShape(s: Str) {
    Captures(s).Some? && |Captures(s).value.fraction| <= ASSET_DECIMALS && UnitsOf(Captures(s).value) > 0
  }

  /** Of these exactly the ones above i128 do not convert. */
  lemma ShapedAmountsConvert(s: Str)
    requires AmountShape(s)
    ensures var units := UnitsOf(Captures(s).value);
            DecimalToUnits(s) == if units > I128_MAX then Failure(AboveI128) else Success(units)
  {
  }

  /** Such an amount: any whole number whose units exceed i128. */
  lemma WholeNumberAbove(n: nat) returns (s: Str)
    requires n * UNITS_PER_WHOLE > I128_MAX
    ensures AmountShape(s) && UnitsOf(Captures(s).value) > I128_MAX && DecimalToUnits(s) == Failure(AboveI128)
  {
    NumeralHasValue(n);
    s := Rendered(Parts(Numeral(n), []));
    CapturesRendered(Parts(Numeral(n), []));
  }

  // ---------------------------------------------------------------- rendering

  /** `padStart` of a remainder: exactly seven digits. */
  function SevenDigits(n: nat): (s: Str)
    requires n < UNITS_PER_WHOLE
    ensures |s| == ASSET_DECIMALS && AllDigits(s)
  {
    NumeralLength(n, ASSET_DECIMALS);
    ZeroDigits(ASSET_DECIMALS - |Numeral(n)|) + Numeral(n)
  }

  function Trimmed(fraction: Str, keep: nat): (s: Str)
    requires AllDigits(fraction)
    ensures AllDigits(s) && |s| <= |fraction| && s == fraction[..|s|]
  {
    var n := |fraction|;
    if n > keep && fraction[n - 1] == 48 then Trimmed(fraction[..n - 1], keep) else fraction
  }

  function UnitsToDecimalText(units: int, minFractionDigits: int): (r: Result<Str, AmountError>)
    ensures r.Success? <==> 0 <= units <= I128_MAX && 0 <= minFractionDigits <= ASSET_DECIMALS
  {
    if units < 0 then Failure(Negative)
    else if units > I128_MAX then Failure(AboveI128)
    else if minFractionDigits < 0 || minFractionDigits > ASSET_DECIMALS then Failure(BadFractionDigits)
    else Success(Rendered(Parts(Numeral(units / UNITS_PER_WHOLE),
                                Trimmed(SevenDigits(units % UNITS_PER_WHOLE), minFractionDigits))))
  }

  method UnitsToDecimal(units: int, minFractionDigits: int) returns (r: Result<Str, AmountError>)
    ensures r == UnitsToDecimalText(units, minFractionDigits)
  {
    if units < 0 {
      return Failure(Negative);
    }
    if units > I128_MAX {
      return Failure(AboveI128);
    }
    if minFractionDigits < 0 || minFractionDigits > ASSET_DECIMALS {
      return Failure(BadFractionDigits);
    }
    var whole, fraction := units / UNITS_PER_WHOLE, SevenDigits(units % UNITS_PER_WHOLE);
    var trimmed := fraction;
    while |trimmed| > minFractionDigits && trimmed[|trimmed| - 1] == 48
      invariant AllDigits(trimmed) && Trimmed(trimmed, minFractionDigits) == Trimmed(fraction, minFractionDigits)
    {
      trimmed := trimmed[..|trimmed| - 1];
    }
    return Success(if trimmed == [] then Numeral(whole) else Numeral(whole) + [46] + trimmed);
  }

  // ------------------------------------------------------------------- proofs

  /** Trimming only ever removes zeros. */
  lemma {:induction false} TrimRemovesZeros(fraction: Str, keep: nat)
    requires AllDigits(fraction)
    ensures fraction == Trimmed(fraction, keep) + ZeroDigits(|fraction| - |Trimmed(fraction, keep)|)
  {
    var n := |fraction|;
    if n > keep && fraction[n - 1] == 48 {
      TrimRemovesZeros(fraction[..n - 1], keep);
      assert fraction == fraction[..n - 1] + [48];
    }
  }

  lemma {:induction false} TrimIgnoresZeros(fraction: Str, zeros: nat, keep: nat)
    requires AllDigits(fraction) && keep <= |fraction|
    ensures Trimmed(fraction + ZeroDigits(zeros), keep) == Trimmed(fraction, keep)
  {
    var s := fraction + ZeroDigits(zeros);
    if zeros > 0 {
      assert s[..|s| - 1] == fraction + ZeroDigits(zeros - 1);
      TrimIgnoresZeros(fraction, zeros - 1, keep);
    } else {
      assert s == fraction;
    }
  }

  lemma PaddingUndoesTrimming(fraction: Str, keep: nat)
    requires AllDigits(fraction) && |fraction| == ASSET_DECIMALS
    ensures Padded(Trimmed(fraction, keep)) == fraction
  {
    TrimRemovesZeros(fraction, keep);
  }

  /** No zero ends it past the digits that are always kept. */
  predicate NoSpareZero(fraction: Str, keep: nat) {
    |fraction| > keep ==> fraction[|fraction| - 1] != 48
  }

  lemma {:induction false} TrimmedIsTight(fraction: Str, keep: nat)
    requires AllDigits(fraction) && keep <= |fraction|
    ensures |Trimmed(fraction, keep)| >= keep && NoSpareZero(Trimmed(fraction, keep), keep)
  {
    var n := |fraction|;
    if n > keep && fraction[n - 1] == 48 {
      TrimmedIsTight(fraction[..n - 1], keep);
    }
  }

  lemma SevenDigitsValue(n: nat)
    requires n < UNITS_PER_WHOLE
    ensures ValueOf(SevenDigits(n)) == n
  {
    NumeralLength(n, ASSET_DECIMALS);
    LeadingZeros(Numeral(n), ASSET_DECIMALS - |Numeral(n)|);
    NumeralHasValue(n);
  }

  lemma PaddedBelow(fraction: Str)
    requires AllDigits(fraction) && |fraction| <= ASSET_DECIMALS
    ensures ValueOf(Padded(fraction)) < UNITS_PER_WHOLE
  {
    FixedWidthBelow(Padded(fraction));
    assert Pow10(7) == 10 * Pow10(6) && Pow10(6) == 10 * Pow10(5) && Pow10(5) == 10 * Pow10(4) && Pow10(4) == 1_0000;
  }

  lemma ParsesAs(p: Parts)
    requires WellShaped(p) && |p.fraction| <= ASSET_DECIMALS && 0 < UnitsOf(p) <= I128_MAX
    ensures DecimalToUnits(Rendered(p)) == Success(UnitsOf(p))
  {
    CapturesRendered(p);
  }

  /** Every representable amount survives the trip through text, at every precision. */
  lemma {:induction false} UnitsRoundTrip(units: int, minFractionDigits: int)
    requires 0 < units <= I128_MAX && 0 <= minFractionDigits <= ASSET_DECIMALS
    ensures DecimalToUnits(UnitsToDecimalText(units, minFractionDigits).value) == Success(units)
  {
    var whole, rest := units / UNITS_PER_WHOLE, units % UNITS_PER_WHOLE;
    var fraction := SevenDigits(rest);
    var trimmed := Trimmed(fraction, minFractionDigits);
    PaddingUndoesTrimming(fraction, minFractionDigits);
    SevenDigitsValue(rest);
    NumeralHasValue(whole);
    ParsesAs(Parts(Numeral(whole), trimmed));
  }

  /** What units render as: the one text of that value with at least the digits asked for and no spare zero past them;
      otherwise the first thing wrong. */
  lemma RendersExactly(units: int, minFractionDigits: int) returns (p: Parts)
    ensures var r := UnitsToDecimalText(units, minFractionDigits);
            if units < 0 then r == Failure(Negative)
            else if units > I128_MAX then r == Failure(AboveI128)
            else if minFractionDigits < 0 || minFractionDigits > 7 then r == Failure(BadFractionDigits)
            else
              WellShaped(p) && |p.fraction| <= 7 && UnitsOf(p) == units && r == Success(Rendered(p))
              && |p.fraction| >= minFractionDigits && NoSpareZero(p.fraction, minFractionDigits)
  {
    p := Parts([], []);
    if 0 <= units <= I128_MAX && 0 <= minFractionDigits <= 7 {
      var fraction := SevenDigits(units % UNITS_PER_WHOLE);
      p := Parts(Numeral(units / UNITS_PER_WHOLE), Trimmed(fraction, minFractionDigits));
      TrimmedIsTight(fraction, minFractionDigits);
      PaddingUndoesTrimming(fraction, minFractionDigits);
      SevenDigitsValue(units % UNITS_PER_WHOLE);
      NumeralHasValue(units / UNITS_PER_WHOLE);
    }
  }

  /** The digits that carry the value: whole part, and fraction without its trailing zeros. */
  function Significant(amount: Str): (Str, Str)
    requires Captures(amount).Some?
  {
    (Captures(amount).value.whole, Trimmed(Captures(amount).value.fraction, 0))
  }

  lemma {:induction false} PaddedSignificant(fraction: Str)
    requires AllDigits(fraction) && |fraction| <= ASSET_DECIMALS
    ensures Trimmed(Padded(fraction), 0) == Trimmed(fraction, 0)
  {
    TrimIgnoresZeros(fraction, ASSET_DECIMALS - |fraction|, 0);
  }

  lemma {:induction false} PaddedFromTrimmed(fraction: Str)
    requires AllDigits(fraction) && |fraction| <= ASSET_DECIMALS
    ensures Padded(fraction) == Padded(Trimmed(fraction, 0))
  {
    TrimRemovesZeros(fraction, 0);
  }

  lemma SamePaddedExactlyWhenSameTrimmed(f: Str, h: Str)
    requires AllDigits(f) && AllDigits(h) && |f| <= ASSET_DECIMALS && |h| <= ASSET_DECIMALS
    ensures Padded(f) == Padded(h) <==> Trimmed(f, 0) == Trimmed(h, 0)
  {
    if Trimmed(f, 0) == Trimmed(h, 0) {
      PaddedFromTrimmed(f);
      PaddedFromTrimmed(h);
    } else {
      PaddedSignificant(f);
      PaddedSignificant(h);
    }
  }

  lemma UnitsSplit(p: Parts)
    requires WellShaped(p) && |p.fraction| <= ASSET_DECIMALS
    ensures UnitsOf(p) / UNITS_PER_WHOLE == ValueOf(p.whole)
            && UnitsOf(p) % UNITS_PER_WHOLE == ValueOf(Padded(p.fraction))
  {
    PaddedBelow(p.fraction);
  }

  lemma SameUnitsExactlyWhenSameParts(p: Parts, q: Parts)
    requires WellShaped(p) && WellShaped(q) && |p.fraction| <= ASSET_DECIMALS && |q.fraction| <= ASSET_DECIMALS
    ensures UnitsOf(p) == UnitsOf(q) <==> p.whole == q.whole && Padded(p.fraction) == Padded(q.fraction)
  {
    if UnitsOf(p) == UnitsOf(q) {
      UnitsSplit(p);
      UnitsSplit(q);
      CanonicalIsNumeral(p.whole);
      CanonicalIsNumeral(q.whole);
      FixedWidthIsInjective(Padded(p.fraction), Padded(q.fraction));
    }
  }

  /** Two accepted strings are the same money exactly when they differ only in zeros ending the fraction. */
  lemma SameUnitsExactlyWhenSameDigits(s: Str, t: Str)
    requires DecimalToUnits(s).Success? && DecimalToUnits(t).Success?
    ensures DecimalToUnits(s) == DecimalToUnits(t) <==> Significant(s) == Significant(t)
  {
    var p, q := Captures(s).value, Captures(t).value;
    SameUnitsExactlyWhenSameParts(p, q);
    SamePaddedExactlyWhenSameTrimmed(p.fraction, q.fraction);
  }

  /** What units render back to: the same whole part, and the fraction padded and trimmed. */
  lemma {:induction false} TextOfUnits(p: Parts)
    requires WellShaped(p) && |p.fraction| <= ASSET_DECIMALS && 0 < UnitsOf(p) <= I128_MAX
    ensures UnitsToDecimalText(UnitsOf(p), 2) == Success(Rendered(Parts(p.whole, Trimmed(Padded(p.fraction), 2))))
  {
    UnitsSplit(p);
    PaddedBelow(p.fraction);
    CanonicalIsNumeral(p.whole);
    var n := ValueOf(Padded(p.fraction));
    SevenDigitsValue(n);
    FixedWidthIsInjective(SevenDigits(n), Padded(p.fraction));
  }

  lemma {:induction false} TightExactlyWhenUnchanged(fraction: Str)
    requires AllDigits(fraction) && |fraction| <= ASSET_DECIMALS
    ensures Trimmed(Padded(fraction), 2) == fraction <==> |fraction| >= 2 && NoSpareZero(fraction, 2)
  {
    TrimmedIsTight(Padded(fraction), 2);
    if |fraction| >= 2 {
      TrimIgnoresZeros(fraction, ASSET_DECIMALS - |fraction|, 2);
    }
  }

  /** A string comes back unchanged exactly when it has two or more fraction digits and none past the second is a
      spare zero. */
  lemma {:induction false} TextRoundTripsExactlyWhenTight(s: Str)
    requires DecimalToUnits(s).Success?
    ensures UnitsToDecimalText(DecimalToUnits(s).value, 2) == Success(s)
            <==> |Captures(s).value.fraction| >= 2 && NoSpareZero(Captures(s).value.fraction, 2)
  {
    var p := Captures(s).value;
    var q := Parts(p.whole, Trimmed(Padded(p.fraction), 2));
    TextOfUnits(p);
    TightExactlyWhenUnchanged(p.fraction);
    CapturesRendered(p);
    CapturesRendered(q);
  }
}
