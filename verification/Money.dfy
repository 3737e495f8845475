/** Printing minor units as a decimal amount and reading one back, exactly and at any size. */
module Money {
  import opened Tables

  function Pow10(k: nat): (p: nat)
    ensures p > 0
  {
    if k == 0 then 1 else 10 * Pow10(k - 1)
  }

  predicate IsDigit(c: char) {
    '0' <= c <= '9'
  }

  predicate AllDigits(s: string) {
    forall i: nat :: i < |s| ==> IsDigit(s[i])
  }

  function DigitChar(d: nat): (c: char)
    requires d < 10
    ensures IsDigit(c) && DigitValue(c) == d
  {
    '0' + d as char
  }

  function DigitValue(c: char): (d: nat)
    requires IsDigit(c)
    ensures d < 10
  {
    (c - '0') as nat
  }

  /** BigInt.prototype.toString: no leading zeros. */
  function Digits(n: nat): (s: string)
    ensures s != "" && AllDigits(s)
  {
    if n < 10 then [DigitChar(n)] else Digits(n / 10) + [DigitChar(n % 10)]
  }

  /** BigInt of a digit string. */
  function ValueOf(s: string): nat
    requires AllDigits(s)
  {
    if s == "" then 0 else ValueOf(s[..|s| - 1]) * 10 + DigitValue(s[|s| - 1])
  }

  function Zeros(k: nat): (s: string)
    ensures |s| == k && AllDigits(s) && forall i: nat :: i < k ==> s[i] == '0'
  {
    seq(k, _ => '0')
  }

  function PadStart(s: string, width: nat): string {
    if |s| >= width then s else Zeros(width - |s|) + s
  }

  function PadEnd(s: string, width: nat): string {
    if |s| >= width then s else s + Zeros(width - |s|)
  }

  // ----- the two functions

  function Quotient(a: nat, divisor: nat): (q: nat)
    requires divisor > 0
  {
    a / divisor
  }

  function Remainder(a: nat, divisor: nat): (r: nat)
    requires divisor > 0
    ensures r < divisor
  {
    a % divisor
  }

  function Decimal(whole: nat, fraction: nat, scale: nat): string {
    Digits(whole) + if scale > 0 then "." + PadStart(Digits(fraction), scale) else ""
  }

  /** The number that money prints, without the currency. */
  function Print(minor: int, scale: nat): string {
    var a := if minor < 0 then -minor else minor;
    var divisor := Pow10(scale);
    (if minor < 0 then "-" else "") + Decimal(Quotient(a, divisor), Remainder(a, divisor), scale)
  }

  /** Where the first dot is, or the length without one. */
  function DotAt(s: string): (d: nat)
    ensures d <= |s| && (d < |s| ==> s[d] == '.') && forall i: nat :: i < d ==> s[i] != '.'
  {
    if s == "" then 0 else if s[0] == '.' then 0 else 1 + DotAt(s[1..])
  }

  function Whole(s: string): string {
    s[..DotAt(s)]
  }

  function Fraction(s: string): string {
    if DotAt(s) < |s| then s[DotAt(s) + 1..] else ""
  }

  /** The regular expression and the extra test for scale 0. */
  predicate Matches(s: string, scale: nat) {
    && Whole(s) != "" && AllDigits(Whole(s)) && AllDigits(Fraction(s))
    && (DotAt(s) < |s| ==> 1 <= |Fraction(s)| <= (if scale > 1 then scale else 1) && scale > 0)
  }

  function Scaled(whole: nat, fraction: nat, scale: nat): (n: nat) {
    whole * Pow10(scale) + fraction
  }

  /** The amount that the two digit strings denote; an empty fraction counts as zero. */
  function Amount(whole: string, fraction: string, scale: nat): nat
    requires AllDigits(whole) && AllDigits(fraction)
  {
    PadEndDigits(fraction, scale);
    var padded := PadEnd(fraction, scale);
    Scaled(ValueOf(whole), ValueOf(if padded == "" then "0" else padded), scale)
  }

  function ToMinor(s: string, scale: nat): Option<string> {
    if !Matches(s, scale) then None
    else
      var result := Amount(Whole(s), Fraction(s), scale);
      if result <= 0 then None else Some(Digits(result))
  }

  // ----- digit strings

  lemma PadEndDigits(s: string, width: nat)
    requires AllDigits(s)
    ensures AllDigits(PadEnd(s, width))
  {
  }

  lemma {:induction false} ValueOfDigits(n: nat)
    ensures ValueOf(Digits(n)) == n
  {
    if n >= 10 {
      ValueOfDigits(n / 10);
      assert Digits(n)[..|Digits(n)| - 1] == Digits(n / 10);
    } else {
      assert [DigitChar(n)][..0] == "";
    }
  }

  function TimesTen(v: nat, k: nat): nat {
    if k == 0 then v else TimesTen(v, k - 1) * 10
  }

  lemma {:induction false} TimesTenIsProduct(v: nat, k: nat)
    ensures TimesTen(v, k) == v * Pow10(k)
  {
    if k > 0 {
      TimesTenIsProduct(v, k - 1);
      Reassociated(v, Pow10(k - 1));
    }
  }

  lemma Reassociated(v: nat, p: nat)
    ensures (v * p) * 10 == v * (10 * p)
  {
  }

  lemma {:induction false} AppendedZeros(s: string, k: nat)
    requires AllDigits(s)
    ensures AllDigits(s + Zeros(k)) && ValueOf(s + Zeros(k)) == TimesTen(ValueOf(s), k)
  {
    if k == 0 {
      assert s + Zeros(0) == s;
    } else {
      AppendedZeros(s, k - 1);
      assert (s + Zeros(k))[..|s| + k - 1] == s + Zeros(k - 1);
    }
  }

  /** Appending zeros multiplies by a power of ten. */
  lemma {:induction false} ValueAppendZeros(s: string, k: nat)
    requires AllDigits(s)
    ensures AllDigits(s + Zeros(k)) && ValueOf(s + Zeros(k)) == ValueOf(s) * Pow10(k)
  {
    AppendedZeros(s, k);
    TimesTenIsProduct(ValueOf(s), k);
  }

  /** Leading zeros change nothing. */
  lemma {:induction false} ValuePrependZeros(s: string, k: nat)
    requires AllDigits(s)
    ensures AllDigits(Zeros(k) + s) && ValueOf(Zeros(k) + s) == ValueOf(s)
  {
    if s == "" {
      assert Zeros(k) + s == "" + Zeros(k);
      ValueAppendZeros("", k);
    } else {
      ValuePrependZeros(s[..|s| - 1], k);
      assert (Zeros(k) + s)[..k + |s| - 1] == Zeros(k) + s[..|s| - 1];
    }
  }

  lemma {:induction false} DigitsFit(n: nat, k: nat)
    requires n < Pow10(k) && k > 0
    ensures |Digits(n)| <= k
  {
    if n >= 10 {
      DigitsFit(n / 10, k - 1);
    }
  }

  lemma {:induction false} NoDotInDigits(s: string, rest: string)
    requires AllDigits(s) && (rest == "" || rest[0] == '.')
    ensures DotAt(s + rest) == |s|
  {
    if s == "" {
      assert s + rest == rest;
    } else {
      assert (s + rest)[0] == s[0] && (s + rest)[1..] == s[1..] + rest;
      NoDotInDigits(s[1..], rest);
    }
  }

  // ----- main results

  lemma {:induction false} PrintedParts(whole: nat, fraction: nat, scale: nat)
    ensures var s := Decimal(whole, fraction, scale);
            && Whole(s) == Digits(whole)
            && Fraction(s) == (if scale > 0 then PadStart(Digits(fraction), scale) else "")
            && (DotAt(s) < |s| <==> scale > 0)
  {
    Parted(Digits(whole), if scale > 0 then "." + PadStart(Digits(fraction), scale) else "");
  }

  lemma {:induction false} Parted(whole: string, rest: string)
    requires AllDigits(whole) && (rest == "" || rest[0] == '.')
    ensures DotAt(whole + rest) == |whole| && Whole(whole + rest) == whole
    ensures Fraction(whole + rest) == if rest == "" then "" else rest[1..]
  {
    NoDotInDigits(whole, rest);
    assert (whole + rest)[..|whole|] == whole;
    if rest != "" {
      assert (whole + rest)[|whole| + 1..] == rest[1..];
    }
  }

  lemma {:induction false} PaddedValue(n: nat, scale: nat)
    requires scale > 0 && n < Pow10(scale)
    ensures var f := PadStart(Digits(n), scale); |f| == scale && AllDigits(f) && ValueOf(f) == n
  {
    DigitsFit(n, scale);
    ValueOfDigits(n);
    PadStartValue(Digits(n), scale);
  }

  lemma {:induction false} PadStartValue(s: string, width: nat)
    requires AllDigits(s) && |s| <= width
    ensures var f := PadStart(s, width); |f| == width && AllDigits(f) && ValueOf(f) == ValueOf(s)
  {
    if |s| < width {
      ValuePrependZeros(s, width - |s|);
    }
  }

  lemma SplitByDivisor(n: nat, divisor: nat)
    requires divisor > 0
    ensures Quotient(n, divisor) * divisor + Remainder(n, divisor) == n
  {
  }

  lemma {:induction false} DecimalAmount(whole: nat, fraction: nat, scale: nat)
    requires fraction < Pow10(scale)
    ensures var s := Decimal(whole, fraction, scale);
            Matches(s, scale) && Amount(Whole(s), Fraction(s), scale) == Scaled(whole, fraction, scale)
  {
    PrintedParts(whole, fraction, scale);
    ValueOfDigits(whole);
    if scale > 0 {
      PaddedValue(fraction, scale);
    } else {
      assert ValueOf("0") == 0 by { assert "0"[..0] == ""; }
    }
  }

  lemma {:induction false} PrintedReads(n: nat, scale: nat)
    ensures ToMinor(Print(n, scale), scale) == if n > 0 then Some(Digits(n)) else None
  {
    var divisor := Pow10(scale);
    var whole, fraction := Quotient(n, divisor), Remainder(n, divisor);
    assert Print(n, scale) == Decimal(whole, fraction, scale);
    DecimalAmount(whole, fraction, scale);
    SplitByDivisor(n, divisor);
  }

  /** Round trip: what money prints reads back as the same minor units exactly when they are positive. */
  lemma MoneyRoundTrip(minor: int, scale: nat)
    ensures ToMinor(Print(minor, scale), scale) == Some(Digits(if minor < 0 then -minor else minor)) <==> minor > 0
    ensures minor <= 0 ==> ToMinor(Print(minor, scale), scale) == None
  {
    if minor >= 0 {
      PrintedReads(minor, scale);
    } else {
      MinusRejected(minor, scale);
    }
  }

  lemma MinusRejected(minor: int, scale: nat)
    requires minor < 0
    ensures !Matches(Print(minor, scale), scale)
  {
    var s := Print(minor, scale);
    assert s[0] == '-';
    if DotAt(s) > 0 {
      assert Whole(s)[0] == '-';
    }
  }

  lemma {:induction false} AmountValue(whole: string, f: string, scale: nat)
    requires AllDigits(whole) && AllDigits(f) && |f| <= scale
    ensures Amount(whole, f, scale) ==
            Scaled(ValueOf(whole), ValueOf(f) * Pow10(scale - |f|), scale)
  {
    var k := scale - |f|;
    ValueAppendZeros(f, k);
    assert PadEnd(f, scale) == f + Zeros(k) by {
      if k == 0 { assert f + Zeros(0) == f; }
    }
    if f + Zeros(k) == "" {
      assert ValueOf("0") == 0 by { assert "0"[..0] == ""; }
    }
  }

  /**
   Exact reading: an accepted string is a positive decimal with at most scale fraction digits, and
   the result is its value times ten to the scale, written here over the fraction's own denominator.
   */
  lemma {:induction false} ReadsExactly(s: string, scale: nat)
    requires ToMinor(s, scale).Some?
    ensures Matches(s, scale) && |Fraction(s)| <= scale
    ensures AllDigits(ToMinor(s, scale).value)
    ensures ValueOf(ToMinor(s, scale).value) * Pow10(|Fraction(s)|) ==
            Scaled(ValueOf(Whole(s)), ValueOf(Fraction(s)), |Fraction(s)|) * Pow10(scale)
  {
    var f := Fraction(s);
    AmountValue(Whole(s), f, scale);
    ValueOfDigits(Amount(Whole(s), f, scale));
    ScaledExactly(ValueOf(Whole(s)), ValueOf(f), |f|, scale);
  }

  lemma {:induction false} ScaledExactly(whole: nat, f: nat, digits: nat, scale: nat)
    requires digits <= scale
    ensures Scaled(whole, f * Pow10(scale - digits), scale) * Pow10(digits) == Scaled(whole, f, digits) * Pow10(scale)
  {
    Pow10Adds(scale - digits, digits);
    CrossMultiply(whole, f, Pow10(scale), Pow10(digits), Pow10(scale - digits));
  }

  lemma CrossMultiply(whole: nat, f: nat, p: nat, q: nat, r: nat)
    requires r * q == p
    ensures (whole * p + f * r) * q == (whole * q + f) * p
  {
    calc {
      (whole * p + f * r) * q;
    ==
      whole * p * q + f * (r * q);
    ==
      whole * p * q + f * p;
    ==
      (whole * q + f) * p;
    }
  }

  lemma {:induction false} Pow10Adds(a: nat, b: nat)
    ensures Pow10(a) * Pow10(b) == Pow10(a + b)
  {
    if a > 0 {
      Pow10Adds(a - 1, b);
      assert Pow10(a) * Pow10(b) == 10 * (Pow10(a - 1) * Pow10(b));
    }
  }

  /** Acceptance: the strings of the grammar whose digits are not all zero, and no others. */
  lemma {:induction false} AcceptsByParts(s: string, scale: nat)
    ensures ToMinor(s, scale).Some? <==> Matches(s, scale) && (ValueOf(Whole(s)) > 0 || ValueOf(Fraction(s)) > 0)
  {
    if Matches(s, scale) {
      var f := Fraction(s);
      AmountValue(Whole(s), f, scale);
      PositiveProduct(ValueOf(Whole(s)), Pow10(scale));
      PositiveProduct(ValueOf(f), Pow10(scale - |f|));
    }
  }

  lemma PositiveProduct(n: nat, p: nat)
    requires p > 0
    ensures n * p > 0 <==> n > 0
  {
  }

  // ----- the point and the sign, in characters

  /** Some digit is not 0. */
  predicate SomeNonzero(s: string) {
    exists i: nat :: i < |s| && '1' <= s[i] <= '9'
  }

  lemma {:induction false} ZeroValue(s: string)
    requires AllDigits(s)
    ensures ValueOf(s) == 0 <==> !SomeNonzero(s)
  {
    if s != "" {
      var init, last := s[..|s| - 1], s[|s| - 1];
      ZeroValue(init);
      if i: nat :| i < |s| && '1' <= s[i] <= '9' {
        assert i < |init| ==> init[i] == s[i];
      }
      if i: nat :| i < |init| && '1' <= init[i] <= '9' {
        assert s[i] == init[i];
      }
    }
  }

  lemma NoPoint(whole: string, scale: nat)
    requires AllDigits(whole)
    ensures ToMinor(whole, scale).Some? <==> SomeNonzero(whole)
  {
    Parted(whole, "");
    assert whole + "" == whole;
    AcceptsByParts(whole, scale);
    ZeroValue(whole);
    assert ValueOf("") == 0;
  }

  lemma PointParts(whole: string, fraction: string)
    requires AllDigits(whole)
    ensures var s := whole + "." + fraction;
            DotAt(s) == |whole| && Whole(s) == whole && Fraction(s) == fraction && |s| == |whole| + 1 + |fraction|
  {
    Parted(whole, "." + fraction);
    assert whole + "." + fraction == whole + ("." + fraction);
    assert ("." + fraction)[1..] == fraction;
  }

  lemma PointAccepted(whole: string, fraction: string, scale: nat)
    requires AllDigits(whole) && AllDigits(fraction)
    ensures ToMinor(whole + "." + fraction, scale).Some? <==>
            whole != "" && 1 <= |fraction| <= scale && (SomeNonzero(whole) || SomeNonzero(fraction))
  {
    PointParts(whole, fraction);
    AcceptsByParts(whole + "." + fraction, scale);
    ZeroValue(whole);
    ZeroValue(fraction);
  }

  /** Digits, or digits with a point before the last few of them; not all of them 0. */
  ghost predicate IsDecimal(s: string, scale: nat) {
    || (AllDigits(s) && SomeNonzero(s))
    || exists whole: string, fraction: string :: IsPointed(s, whole, fraction, scale)
  }

  predicate IsPointed(s: string, whole: string, fraction: string, scale: nat) {
    && s == whole + "." + fraction
    && whole != "" && AllDigits(whole) && AllDigits(fraction) && 1 <= |fraction| <= scale
    && (SomeNonzero(whole) || SomeNonzero(fraction))
  }

  lemma CutAt(s: string, d: nat, c: char)
    requires d < |s| && s[d] == c
    ensures s == s[..d] + [c] + s[d + 1..]
  {
  }

  lemma SplitAtPoint(s: string)
    ensures if DotAt(s) < |s| then s == Whole(s) + "." + Fraction(s) else Whole(s) == s && Fraction(s) == ""
  {
    if DotAt(s) < |s| {
      CutAt(s, DotAt(s), '.');
    } else {
      assert s[..|s|] == s;
    }
  }

  lemma AcceptedIsDecimal(s: string, scale: nat)
    requires Matches(s, scale) && (SomeNonzero(Whole(s)) || SomeNonzero(Fraction(s)))
    ensures IsDecimal(s, scale)
  {
    SplitAtPoint(s);
    if DotAt(s) < |s| {
      assert IsPointed(s, Whole(s), Fraction(s), scale);
    }
  }

  /** Acceptance in characters: digits with at most one point, at most scale of them after it, not all 0. */
  lemma AcceptsExactly(s: string, scale: nat)
    ensures ToMinor(s, scale).Some? <==> IsDecimal(s, scale)
  {
    AcceptsByParts(s, scale);
    if ToMinor(s, scale).Some? {
      ZeroValue(Whole(s));
      ZeroValue(Fraction(s));
      AcceptedIsDecimal(s, scale);
    }
    if IsDecimal(s, scale) {
      DecimalAccepted(s, scale);
    }
  }

  lemma DecimalAccepted(s: string, scale: nat)
    requires IsDecimal(s, scale)
    ensures ToMinor(s, scale).Some?
  {
    if whole: string, fraction: string :| IsPointed(s, whole, fraction, scale) {
      PointAccepted(whole, fraction, scale);
    } else {
      NoPoint(s, scale);
    }
  }

  /** What is printed is a sign for a negative number, digits without leading zeros, a point and scale digits. */
  predicate PrintedAs(s: string, minor: int, scale: nat, whole: string, fraction: string) {
    && AllDigits(whole) && AllDigits(fraction) && whole != "" && (|whole| > 1 ==> whole[0] != '0')
    && |fraction| == scale
    && s == (if minor < 0 then "-" else "") + whole + (if scale > 0 then "." else "") + fraction
    && Scaled(ValueOf(whole), ValueOf(fraction), scale) == if minor < 0 then -minor else minor
  }

  lemma {:induction false} NoLeadingZero(n: nat)
    ensures |Digits(n)| > 1 ==> Digits(n)[0] != '0'
    ensures n > 0 ==> Digits(n)[0] != '0'
  {
    if n >= 10 {
      NoLeadingZero(n / 10);
    }
  }

  lemma FractionDigits(fraction: nat, scale: nat) returns (f: string)
    requires fraction < Pow10(scale)
    ensures AllDigits(f) && |f| == scale && ValueOf(f) == fraction
    ensures f == if scale > 0 then PadStart(Digits(fraction), scale) else ""
  {
    f := if scale > 0 then PadStart(Digits(fraction), scale) else "";
    if scale > 0 {
      PaddedValue(fraction, scale);
    } else {
      assert ValueOf("") == 0;
    }
  }

  lemma SignedParts(sign: string, whole: string, fraction: string, scale: nat)
    requires |fraction| == scale
    ensures sign + whole + (if scale > 0 then "." else "") + fraction ==
            sign + (whole + if scale > 0 then "." + fraction else "")
  {
  }

  /** Every amount, negative ones too, is printed exactly and in one canonical way. */
  lemma PrintsExactly(minor: int, scale: nat)
    ensures exists whole: string, fraction: string :: PrintedAs(Print(minor, scale), minor, scale, whole, fraction)
  {
    var a: nat := if minor < 0 then -minor else minor;
    var q, r := Quotient(a, Pow10(scale)), Remainder(a, Pow10(scale));
    var fraction := FractionDigits(r, scale);
    ValueOfDigits(q);
    NoLeadingZero(q);
    SplitByDivisor(a, Pow10(scale));
    SignedParts(if minor < 0 then "-" else "", Digits(q), fraction, scale);
    assert PrintedAs(Print(minor, scale), minor, scale, Digits(q), fraction);
  }
}
