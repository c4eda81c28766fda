/**
 * The two JavaScript conversions the PDF viewer's page field goes through:
 * `Number(text)` (ECMAScript StringToNumber, without double rounding) and
 * `String(number)`, together with the relational comparisons `<` and `<=`.
 * Finite numbers are exact rationals; NaN and the infinities are kept apart
 * because every comparison with NaN is false.
 */
module JsNumbers {
  import opened Common

  datatype JsNum = Finite(value: real) | Infinity(negative: bool) | NaN

  /** StrWhiteSpaceChar: the WhiteSpace and LineTerminator code points. */
  predicate IsStrWhiteSpace(c: char) {
    || c == '\t' || c == '\n' || c == '\U{B}' || c == '\U{C}' || c == '\r' || c == ' '
    || c == '\U{A0}' || c == '\U{1680}' || ('\U{2000}' <= c <= '\U{200A}')
    || c == '\U{2028}' || c == '\U{2029}' || c == '\U{202F}' || c == '\U{205F}'
    || c == '\U{3000}' || c == '\U{FEFF}'
  }

  /** Drops leading white space. */
  function TrimStart(s: string): (r: string)
    ensures |r| <= |s|
  {
    if s == [] || !IsStrWhiteSpace(s[0]) then s else TrimStart(s[1..])
  }

  /** Drops trailing white space. */
  function TrimEnd(s: string): (r: string)
    ensures |r| <= |s|
  {
    if s == [] || !IsStrWhiteSpace(s[|s| - 1]) then s else TrimEnd(s[..|s| - 1])
  }

  function Trim(s: string): string {
    TrimEnd(TrimStart(s))
  }

  predicate IsDigit(c: char) {
    '0' <= c <= '9'
  }

  predicate AllDigits(s: string) {
    forall k :: 0 <= k < |s| ==> IsDigit(s[k])
  }

  function DigitValue(c: char): (d: nat)
    requires IsDigit(c)
    ensures d < 10
  {
    c as int - '0' as int
  }

  function DigitChar(d: nat): (c: char)
    requires d < 10
    ensures IsDigit(c) && DigitValue(c) == d
  {
    ('0' as int + d) as char
  }

  /** The value of a decimal digit string, most significant digit first. */
  function DigitsValue(ds: string): nat
    requires AllDigits(ds)
  {
    if ds == [] then 0 else DigitsValue(ds[..|ds| - 1]) * 10 + DigitValue(ds[|ds| - 1])
  }

  /** The length of the longest prefix of `s` made of decimal digits. */
  function LeadingDigits(s: string): (n: nat)
    ensures n <= |s| && AllDigits(s[..n])
    ensures n < |s| ==> !IsDigit(s[n])
  {
    if s == [] || !IsDigit(s[0]) then 0
    else
      var m := LeadingDigits(s[1..]);
      assert s[..1 + m] == [s[0]] + s[1..][..m];
      1 + m
  }

  /** The value of the digits after a decimal point: always in [0, 1). */
  function FractionValue(ds: string): (f: real)
    requires AllDigits(ds)
    ensures 0.0 <= f < 1.0
  {
    if ds == [] then 0.0 else (DigitValue(ds[0]) as real + FractionValue(ds[1..])) / 10.0
  }

  function Pow10(n: nat): (p: nat)
    ensures p >= 1
  {
    if n == 0 then 1 else 10 * Pow10(n - 1)
  }

  /** m * 10^e */
  function Scale(m: real, e: int): real {
    if e >= 0 then m * Pow10(e) as real else m / Pow10(-e) as real
  }

  /** SignedInteger of an ExponentPart: an optional sign and at least one digit. */
  function SignedInteger(s: string): Option<int> {
    if s != [] && (s[0] == '+' || s[0] == '-') then
      var ds := s[1..];
      if ds != [] && AllDigits(ds) then
        Some(if s[0] == '-' then -(DigitsValue(ds) as int) else DigitsValue(ds))
      else None
    else if s != [] && AllDigits(s) then Some(DigitsValue(s))
    else None
  }

  /**
   * StrUnsignedDecimalLiteral: `Infinity`, or digits with an optional point,
   * optional fraction digits and an optional exponent, with at least one digit
   * before or after the point. Anything else is NaN.
   */
  function UnsignedDecimal(u: string): JsNum {
    if u == "Infinity" then Infinity(false)
    else
      var i := LeadingDigits(u);
      AfterWholeDigits(DigitsValue(u[..i]) as real, i > 0, u[i..])
  }

  /** What may follow the whole digits: a point with fraction digits, or nothing. */
  function AfterWholeDigits(whole: real, sawDigit: bool, rest: string): JsNum {
    if rest != [] && rest[0] == '.' then
      var fraction := rest[1..];
      var j := LeadingDigits(fraction);
      if !sawDigit && j == 0 then NaN
      else ExponentPart(whole + FractionValue(fraction[..j]), fraction[j..])
    else if !sawDigit then NaN
    else ExponentPart(whole, rest)
  }

  /** An optional exponent and then the end of the text. */
  function ExponentPart(mantissa: real, tail: string): JsNum {
    if tail == [] then Finite(mantissa)
    else if tail[0] == 'e' || tail[0] == 'E' then
      match SignedInteger(tail[1..])
      case None => NaN
      case Some(e) => Finite(Scale(mantissa, e))
    else NaN
  }

  function RadixDigit(c: char): Option<nat> {
    if IsDigit(c) then Some(DigitValue(c))
    else if 'a' <= c <= 'f' then Some(c as int - 'a' as int + 10)
    else if 'A' <= c <= 'F' then Some(c as int - 'A' as int + 10)
    else None
  }

  predicate AllRadixDigits(s: string, radix: nat) {
    forall k :: 0 <= k < |s| ==> RadixDigit(s[k]).Some? && RadixDigit(s[k]).value < radix
  }

  function RadixValue(s: string, radix: nat): nat
    requires AllRadixDigits(s, radix)
  {
    if s == [] then 0
    else
      var front := s[..|s| - 1];
      assert AllRadixDigits(front, radix) by {
        assert forall k :: 0 <= k < |front| ==> front[k] == s[k];
      }
      var high := RadixValue(front, radix);
      assert high * radix >= 0;
      high * radix + RadixDigit(s[|s| - 1]).value
  }

  /** NonDecimalIntegerLiteral after its `0x`, `0o` or `0b` prefix. */
  function NonDecimal(ds: string, radix: nat): JsNum {
    if ds != [] && AllRadixDigits(ds, radix) then Finite(RadixValue(ds, radix) as real) else NaN
  }

  function Negate(n: JsNum): JsNum {
    match n
    case Finite(v) => Finite(-v)
    case Infinity(neg) => Infinity(!neg)
    case NaN => NaN
  }

  /** The radix named by a `0x`, `0o` or `0b` prefix (either case), or 0 when there is none. */
  function PrefixRadix(t: string): nat {
    if |t| < 2 || t[0] != '0' then 0
    else if t[1] == 'x' || t[1] == 'X' then 16
    else if t[1] == 'o' || t[1] == 'O' then 8
    else if t[1] == 'b' || t[1] == 'B' then 2
    else 0
  }

  /** `Number(s)` for a string `s`: blank text is 0, unparsable text is NaN. */
  function ToNumber(s: string): JsNum {
    var t := Trim(s);
    if t == [] then Finite(0.0)
    else if PrefixRadix(t) != 0 then NonDecimal(t[2..], PrefixRadix(t))
    else
      var signed := t[0] == '-' || t[0] == '+';
      var n := UnsignedDecimal(if signed then t[1..] else t);
      if t[0] == '-' then Negate(n) else n
  }

  /** `a < b`; false whenever either side is NaN. */
  predicate Less(a: JsNum, b: JsNum) {
    match (a, b)
    case (NaN, _) => false
    case (_, NaN) => false
    case (Finite(x), Finite(y)) => x < y
    case (Infinity(na), Infinity(nb)) => na && !nb
    case (Infinity(na), Finite(_)) => na
    case (Finite(_), Infinity(nb)) => !nb
  }

  /** `a <= b`: not `b < a`, and false whenever either side is NaN. */
  predicate LessOrEqual(a: JsNum, b: JsNum) {
    !a.NaN? && !b.NaN? && !Less(b, a)
  }

  /** The decimal text of a natural number, without leading zeros. */
  function ShowNat(n: nat): (s: string)
    ensures s != [] && AllDigits(s)
  {
    if n < 10 then [DigitChar(n)] else ShowNat(n / 10) + [DigitChar(n % 10)]
  }

  /** Digits of a fraction in [0, 1), at most `fuel` of them. */
  function FractionDigits(f: real, fuel: nat): (s: string)
    requires 0.0 <= f < 1.0
    ensures AllDigits(s) && |s| <= fuel
    decreases fuel
  {
    if fuel == 0 || f == 0.0 then []
    else
      var scaled := f * 10.0;
      var d := scaled.Floor;
      [DigitChar(d)] + FractionDigits(scaled - d as real, fuel - 1)
  }

  const MaxFractionDigits: nat := 20

  function ShowNonNegative(v: real): string
    requires v >= 0.0
  {
    var whole := v.Floor;
    var fraction := v - whole as real;
    if fraction == 0.0 then ShowNat(whole)
    else ShowNat(whole) + "." + FractionDigits(fraction, MaxFractionDigits)
  }

  /** `String(v)` for a finite number. */
  function ShowNumber(v: real): string {
    if v < 0.0 then "-" + ShowNonNegative(-v) else ShowNonNegative(v)
  }

  predicate IsWhole(v: real) {
    v == v.Floor as real
  }

  // ---------------------------------------------------------------- lemmas

  /** Reading back the digits of a natural number gives that number. */
  lemma {:induction false} ShowNatValue(n: nat)
    ensures DigitsValue(ShowNat(n)) == n
  {
    if n >= 10 {
      var s := ShowNat(n);
      assert s[..|s| - 1] == ShowNat(n / 10);
      ShowNatValue(n / 10);
    }
  }

  lemma {:induction false} LeadingDigitsOfDigits(s: string)
    requires AllDigits(s)
    ensures LeadingDigits(s) == |s|
  {
    if s != [] {
      LeadingDigitsOfDigits(s[1..]);
    }
  }

  lemma UnsignedDecimalOfDigits(s: string)
    requires s != [] && AllDigits(s)
    ensures UnsignedDecimal(s) == Finite(DigitsValue(s) as real)
  {
    assert s != "Infinity" by {
      assert IsDigit(s[0]);
    }
    LeadingDigitsOfDigits(s);
    assert s[..|s|] == s && s[|s|..] == [];
    assert AfterWholeDigits(DigitsValue(s) as real, true, []) == Finite(DigitsValue(s) as real);
  }

  /** The digit prefix stops at the first character that is not a digit. */
  lemma {:induction false} LeadingDigitsStop(ds: string, rest: string)
    requires AllDigits(ds) && rest != [] && !IsDigit(rest[0])
    ensures LeadingDigits(ds + rest) == |ds|
  {
    if ds != [] {
      assert (ds + rest)[1..] == ds[1..] + rest;
      LeadingDigitsStop(ds[1..], rest);
    }
  }

  /** A point followed by digits adds their fraction to the whole part. */
  lemma AfterPointOfDigits(whole: real, fraction: string)
    requires AllDigits(fraction)
    ensures AfterWholeDigits(whole, true, "." + fraction) == Finite(whole + FractionValue(fraction))
  {
    var rest := "." + fraction;
    assert rest != [] && rest[0] == '.' && rest[1..] == fraction;
    LeadingDigitsOfDigits(fraction);
    AfterPointStep(whole, fraction, rest);
  }

  lemma AfterPointStep(whole: real, fraction: string, rest: string)
    requires AllDigits(fraction) && rest != [] && rest[0] == '.' && rest[1..] == fraction
    requires LeadingDigits(fraction) == |fraction|
    ensures AfterWholeDigits(whole, true, rest) == Finite(whole + FractionValue(fraction))
  {
    assert fraction[..|fraction|] == fraction && fraction[|fraction|..] == [];
  }

  /** Whole and fraction digits around a point read as their decimal value. */
  lemma UnsignedDecimalWithFraction(whole: string, fraction: string)
    requires whole != [] && AllDigits(whole) && AllDigits(fraction)
    ensures UnsignedDecimal(whole + "." + fraction) == Finite(DigitsValue(whole) as real + FractionValue(fraction))
  {
    var rest := "." + fraction;
    var u := whole + rest;
    assert whole + "." + fraction == u;
    assert u != "Infinity" by {
      assert IsDigit(u[0]);
    }
    LeadingDigitsStop(whole, rest);
    assert u[..|whole|] == whole && u[|whole|..] == rest;
    AfterPointOfDigits(DigitsValue(whole) as real, fraction);
  }

  /** TrimStart removes a run of white space and keeps a suffix that does not start with any. */
  lemma {:induction false} TrimStartRemovesWhiteSpace(s: string)
    ensures var r := TrimStart(s);
      && r == s[|s| - |r|..]
      && (r == [] || !IsStrWhiteSpace(r[0]))
      && forall k :: 0 <= k < |s| - |r| ==> IsStrWhiteSpace(s[k])
  {
    if s != [] && IsStrWhiteSpace(s[0]) {
      TrimStartRemovesWhiteSpace(s[1..]);
    }
  }

  /** TrimEnd removes a run of white space and keeps a prefix that does not end with any. */
  lemma {:induction false} TrimEndRemovesWhiteSpace(s: string)
    ensures var r := TrimEnd(s);
      && r == s[..|r|]
      && (r == [] || !IsStrWhiteSpace(r[|r| - 1]))
      && forall k :: |r| <= k < |s| ==> IsStrWhiteSpace(s[k])
  {
    if s != [] && IsStrWhiteSpace(s[|s| - 1]) {
      TrimEndRemovesWhiteSpace(s[..|s| - 1]);
    }
  }

  lemma TrimOfPlainText(s: string)
    requires s != [] && !IsStrWhiteSpace(s[0]) && !IsStrWhiteSpace(s[|s| - 1])
    ensures Trim(s) == s
  {
  }

  /** Text that starts with a digit and has no radix prefix or trailing white space is read as a decimal literal. */
  lemma ToNumberOfDecimal(t: string)
    requires t != [] && IsDigit(t[0]) && !IsStrWhiteSpace(t[|t| - 1])
    requires PrefixRadix(t) == 0
    ensures ToNumber(t) == UnsignedDecimal(t)
  {
    TrimOfPlainText(t);
  }

  /** A digit string starts with a digit, ends without white space and has no radix prefix. */
  lemma DigitsText(ds: string)
    requires ds != [] && AllDigits(ds)
    ensures IsDigit(ds[0]) && !IsStrWhiteSpace(ds[|ds| - 1]) && PrefixRadix(ds) == 0
  {
    assert IsDigit(ds[|ds| - 1]);
    assert |ds| >= 2 ==> IsDigit(ds[1]);
  }

  /** So does a digit string followed by a point and more digits. */
  lemma PointedDigitsText(whole: string, fraction: string)
    requires whole != [] && AllDigits(whole) && AllDigits(fraction)
    ensures var u := whole + "." + fraction;
      u != [] && IsDigit(u[0]) && !IsStrWhiteSpace(u[|u| - 1]) && PrefixRadix(u) == 0
  {
    var u := whole + "." + fraction;
    assert IsDigit(u[0]) && (|u| >= 2 ==> IsDigit(u[1]) || u[1] == '.');
    assert IsDigit(u[|u| - 1]) || u[|u| - 1] == '.';
  }

  /** `Number` of whole and fraction digits around a point is their decimal value. */
  lemma ToNumberWithFraction(whole: string, fraction: string)
    requires whole != [] && AllDigits(whole) && AllDigits(fraction)
    ensures ToNumber(whole + "." + fraction) == Finite(DigitsValue(whole) as real + FractionValue(fraction))
  {
    PointedDigitsText(whole, fraction);
    UnsignedDecimalWithFraction(whole, fraction);
    ToNumberOfDecimal(whole + "." + fraction);
  }

  /** `String` of a natural number is its digits. */
  lemma ShowNumberOfNat(n: nat)
    ensures ShowNumber(n as real) == ShowNat(n)
  {
    assert (n as real).Floor == n;
  }

  /** A digit string reads as its decimal value. */
  lemma ToNumberOfDigits(ds: string)
    requires ds != [] && AllDigits(ds)
    ensures ToNumber(ds) == Finite(DigitsValue(ds) as real)
  {
    DigitsText(ds);
    UnsignedDecimalOfDigits(ds);
    ToNumberOfDecimal(ds);
  }

  /** A minus sign before a digit string negates its value. */
  lemma ToNumberOfNegatedDigits(ds: string)
    requires ds != [] && AllDigits(ds)
    ensures ToNumber("-" + ds) == Finite(-(DigitsValue(ds) as real))
  {
    var t := "-" + ds;
    TrimOfPlainText(t);
    assert t[1..] == ds;
    UnsignedDecimalOfDigits(ds);
  }

  /** The digits `String` writes for a natural number read back as that number. */
  lemma ShowNatRoundTrip(n: nat)
    ensures ToNumber(ShowNat(n)) == Finite(n as real)
  {
    ShowNatValue(n);
    ToNumberOfDigits(ShowNat(n));
  }

  /** `String` of a negative whole number reads back as that number. */
  lemma ShowNegativeRoundTrip(n: nat)
    requires n > 0
    ensures ToNumber(ShowNumber(-(n as real))) == Finite(-(n as real))
  {
    assert ShowNumber(-(n as real)) == "-" + ShowNonNegative(n as real);
    assert (n as real).Floor == n;
    ShowNatValue(n);
    ToNumberOfNegatedDigits(ShowNat(n));
  }

  /**
   * `Number(String(k)) == k` for every whole number k: the page field written
   * by the previous and next buttons reads back as the page it names.
   */
  lemma ShowNumberRoundTrip(k: int)
    ensures ToNumber(ShowNumber(k as real)) == Finite(k as real)
  {
    if k < 0 {
      var n: nat := -k;
      assert k as real == -(n as real);
      ShowNegativeRoundTrip(n);
    } else {
      ShowNumberOfNat(k);
      ShowNatRoundTrip(k);
    }
  }

  /** For numbers, `<=` is the order of the reals. */
  lemma LessOrEqualFinite(x: real, y: real)
    ensures LessOrEqual(Finite(x), Finite(y)) <==> x <= y
  {
  }

  /** Every comparison involving NaN is false, in both directions. */
  lemma NaNIsIncomparable(a: JsNum)
    ensures !Less(a, NaN) && !Less(NaN, a) && !LessOrEqual(a, NaN) && !LessOrEqual(NaN, a)
  {
  }
}
