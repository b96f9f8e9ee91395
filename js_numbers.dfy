/**
 * The part of JavaScript's number semantics the form logic relies on:
 * `Number(string)` (StringToNumber, the StringNumericLiteral grammar of
 * ECMAScript section 7.1.4.1.1), the relational operators `<`, `<=`, `>`
 * with their NaN behaviour, `*` and `Math.min`.
 * Numbers are exact reals; IEEE-754 rounding, overflow to Infinity,
 * underflow to zero and the sign of zero are not modelled.
 */
module JsNumbers {
  import opened Wrappers

  datatype JsNumber = NaN | Finite(value: real) | PosInfinity | NegInfinity

  /** WhiteSpace and LineTerminator code points, which `Number` strips from both ends. */
  predicate IsWhiteSpace(c: char) {
    || c == '\t' || c == '\U{000B}' || c == '\U{000C}' || c == ' ' || c == '\U{00A0}' || c == '\U{FEFF}'
    || c == '\n' || c == '\r' || c == '\U{2028}' || c == '\U{2029}'
    // the remaining Space_Separator (Zs) code points
    || c == '\U{1680}' || ('\U{2000}' <= c <= '\U{200A}') || c == '\U{202F}' || c == '\U{205F}' || c == '\U{3000}'
  }

  function TrimStart(s: string): (r: string)
    ensures |r| <= |s| && r == s[|s| - |r|..]
    ensures r == [] || !IsWhiteSpace(r[0])
    ensures forall i :: 0 <= i < |s| - |r| ==> IsWhiteSpace(s[i])
  {
    if s == [] || !IsWhiteSpace(s[0]) then s else TrimStart(s[1..])
  }

  function TrimEnd(s: string): (r: string)
    ensures |r| <= |s| && r == s[..|r|]
    ensures r == [] || !IsWhiteSpace(r[|r| - 1])
    ensures forall i :: |r| <= i < |s| ==> IsWhiteSpace(s[i])
  {
    if s == [] || !IsWhiteSpace(s[|s| - 1]) then s else TrimEnd(s[..|s| - 1])
  }

  function Trim(s: string): string {
    TrimEnd(TrimStart(s))
  }

  predicate IsDigit(c: char, base: nat) {
    if base == 16 then '0' <= c <= '9' || 'a' <= c <= 'f' || 'A' <= c <= 'F'
    else '0' <= c <= '9' && (c as int) - ('0' as int) < base
  }

  function DigitValue(c: char): nat {
    if '0' <= c <= '9' then (c as int) - ('0' as int)
    else if 'a' <= c <= 'f' then (c as int) - ('a' as int) + 10
    else if 'A' <= c <= 'F' then (c as int) - ('A' as int) + 10
    else 0
  }

  predicate AllDigits(s: string, base: nat) {
    forall i :: 0 <= i < |s| ==> IsDigit(s[i], base)
  }

  /** The value of a numeral in the given base, most significant digit first. */
  function DigitsValue(s: string, base: nat): nat {
    if s == [] then 0 else DigitsValue(s[..|s| - 1], base) * base + DigitValue(s[|s| - 1])
  }

  function Pow10Nat(k: nat): (p: nat)
    ensures p >= 1
  {
    if k == 0 then 1 else 10 * Pow10Nat(k - 1)
  }

  function Pow10(e: int): (p: real)
    ensures p > 0.0
  {
    if e >= 0 then Pow10Nat(e) as real else 1.0 / Pow10Nat(-e) as real
  }

  /** The index of the first `c` in `s`, or `|s|` when there is none. */
  function IndexOf(s: string, c: char): (i: nat)
    ensures i <= |s|
    ensures i < |s| ==> s[i] == c
    ensures forall j :: 0 <= j < i ==> s[j] != c
  {
    if s == [] then 0 else if s[0] == c then 0 else 1 + IndexOf(s[1..], c)
  }

  /** The index of the first exponent indicator `e` or `E`, or `|s|`. */
  function IndexOfExponent(s: string): (i: nat)
    ensures i <= |s|
    ensures i < |s| ==> s[i] == 'e' || s[i] == 'E'
    ensures forall j :: 0 <= j < i ==> s[j] != 'e' && s[j] != 'E'
  {
    if s == [] then 0 else if s[0] == 'e' || s[0] == 'E' then 0 else 1 + IndexOfExponent(s[1..])
  }

  /** The value of `whole.fraction`. */
  function MantissaValue(whole: string, fraction: string): real {
    DigitsValue(whole, 10) as real + DigitsValue(fraction, 10) as real / Pow10Nat(|fraction|) as real
  }

  /** `DecimalDigits . DecimalDigits?`, `. DecimalDigits` or `DecimalDigits`. */
  function ParseMantissa(m: string): Option<real> {
    var i := IndexOf(m, '.');
    var whole := m[..i];
    var fraction := if i < |m| then m[i + 1..] else "";
    if AllDigits(whole, 10) && AllDigits(fraction, 10) && (whole != "" || fraction != "") then
      Some(MantissaValue(whole, fraction))
    else
      None
  }

  /** SignedInteger: an optional sign and at least one decimal digit. */
  function ParseExponent(x: string): Option<int> {
    var negative := x != [] && x[0] == '-';
    var digits := if x != [] && (x[0] == '+' || x[0] == '-') then x[1..] else x;
    if digits != "" && AllDigits(digits, 10) then
      Some(if negative then -(DigitsValue(digits, 10) as int) else DigitsValue(digits, 10))
    else
      None
  }

  /** StrUnsignedDecimalLiteral: `Infinity` or a mantissa with an optional exponent part. */
  function ParseUnsignedDecimal(u: string): JsNumber {
    if u == "Infinity" then PosInfinity
    else
      var k := IndexOfExponent(u);
      match ParseMantissa(u[..k])
      case None => NaN
      case Some(m) =>
        if k == |u| then Finite(m)
        else
          match ParseExponent(u[k + 1..])
          case None => NaN
          case Some(e) => Finite(m * Pow10(e))
  }

  function Negate(n: JsNumber): JsNumber {
    match n
    case NaN => NaN
    case Finite(v) => Finite(-v)
    case PosInfinity => NegInfinity
    case NegInfinity => PosInfinity
  }

  /** StrDecimalLiteral: an optional `+` or `-` before an unsigned literal. */
  function ParseDecimalLiteral(t: string): JsNumber {
    var signed := t != [] && (t[0] == '+' || t[0] == '-');
    var n := ParseUnsignedDecimal(if signed then t[1..] else t);
    if signed && t[0] == '-' then Negate(n) else n
  }

  /** The base a NonDecimalIntegerLiteral prefix letter selects, or 0 for none. */
  function Radix(c: char): nat {
    if c == 'x' || c == 'X' then 16
    else if c == 'o' || c == 'O' then 8
    else if c == 'b' || c == 'B' then 2
    else 0
  }

  /** NonDecimalIntegerLiteral digits after the `0x`, `0o` or `0b` prefix; no sign is allowed. */
  function ParseNonDecimal(d: string, base: nat): JsNumber {
    if d != "" && AllDigits(d, base) then Finite(DigitsValue(d, base) as real) else NaN
  }

  /** StrNumericLiteral: a non-decimal integer after a `0x`/`0o`/`0b` prefix, or a decimal literal. */
  function ParseNumericLiteral(t: string): JsNumber {
    if |t| >= 2 && t[0] == '0' && Radix(t[1]) != 0 then ParseNonDecimal(t[2..], Radix(t[1]))
    else ParseDecimalLiteral(t)
  }

  /** `Number(s)` for a string `s`: blank strings are 0, anything outside the grammar is NaN. */
  function StringToNumber(s: string): JsNumber {
    var t := Trim(s);
    if t == [] then Finite(0.0) else ParseNumericLiteral(t)
  }

  /** `a < b` on numbers; any comparison involving NaN is false. */
  predicate Less(a: JsNumber, b: JsNumber) {
    match (a, b)
    case (NaN, _) => false
    case (_, NaN) => false
    case (Finite(x), Finite(y)) => x < y
    case (NegInfinity, _) => !b.NegInfinity?
    case (_, PosInfinity) => !a.PosInfinity?
    case (_, _) => false
  }

  /** `a <= b`: false when either side is NaN, otherwise `!(b < a)`. */
  predicate LessEq(a: JsNumber, b: JsNumber) {
    !a.NaN? && !b.NaN? && !Less(b, a)
  }

  /** `a > b`. */
  predicate Greater(a: JsNumber, b: JsNumber) {
    Less(b, a)
  }

  function Sign(x: real): int {
    if x > 0.0 then 1 else if x < 0.0 then -1 else 0
  }

  function InfinityOfSign(s: int): JsNumber {
    if s > 0 then PosInfinity else NegInfinity
  }

  /** `a * b`: NaN is absorbing, an infinity times zero is NaN, otherwise signs multiply. */
  function Multiply(a: JsNumber, b: JsNumber): JsNumber {
    match (a, b)
    case (NaN, _) => NaN
    case (_, NaN) => NaN
    case (Finite(x), Finite(y)) => Finite(x * y)
    case (Finite(x), _) => if x == 0.0 then NaN else InfinityOfSign(Sign(x) * (if b.PosInfinity? then 1 else -1))
    case (_, Finite(y)) => if y == 0.0 then NaN else InfinityOfSign(Sign(y) * (if a.PosInfinity? then 1 else -1))
    case (_, _) => if a == b then PosInfinity else NegInfinity
  }

  /** `Math.min(a, b)`: NaN when either argument is NaN. */
  function Min(a: JsNumber, b: JsNumber): JsNumber {
    if a.NaN? || b.NaN? then NaN else if Less(b, a) then b else a
  }

  // ---------------------------------------------------------------------
  // Properties of the conversion and the operators
  // ---------------------------------------------------------------------

  /** The canonical decimal numeral of a natural number, without leading zeros. */
  function Decimal(n: nat): (s: string)
    ensures s != [] && AllDigits(s, 10)
  {
    if n < 10 then [(('0' as int) + n) as char]
    else Decimal(n / 10) + [(('0' as int) + n % 10) as char]
  }

  lemma {:induction false} DigitsValueOfDecimal(n: nat)
    ensures DigitsValue(Decimal(n), 10) == n
  {
    var s := Decimal(n);
    if n >= 10 {
      assert s[..|s| - 1] == Decimal(n / 10);
      DigitsValueOfDecimal(n / 10);
    }
  }

  /** A string whose first and last characters are not white space is its own trimmed form. */
  lemma TrimUnpadded(s: string)
    requires s != [] && !IsWhiteSpace(s[0]) && !IsWhiteSpace(s[|s| - 1])
    ensures Trim(s) == s
  {
    assert TrimStart(s) == s;
  }

  lemma DigitIsNotMarker(c: char)
    requires IsDigit(c, 10)
    ensures !IsWhiteSpace(c) && c != '.' && c != 'e' && c != 'E' && c != '+' && c != '-'
    ensures c != 'x' && c != 'X' && c != 'o' && c != 'O' && c != 'b' && c != 'B' && c != 'I'
  {
  }

  /** A plain digit string carries no decimal point and no exponent. */
  lemma DigitsHaveNoMarkers(s: string)
    requires AllDigits(s, 10)
    ensures IndexOf(s, '.') == |s| && IndexOfExponent(s) == |s|
  {
  }

  lemma MantissaOfDigits(s: string)
    requires s != [] && AllDigits(s, 10)
    ensures ParseMantissa(s) == Some(DigitsValue(s, 10) as real)
  {
    DigitsHaveNoMarkers(s);
    assert s[..|s|] == s;
    assert MantissaValue(s, "") == DigitsValue(s, 10) as real;
  }

  lemma UnsignedDigits(s: string)
    requires s != [] && AllDigits(s, 10)
    ensures ParseUnsignedDecimal(s) == Finite(DigitsValue(s, 10) as real)
  {
    DigitIsNotMarker(s[0]);
    assert s != "Infinity" by { assert "Infinity"[0] == 'I'; }
    DigitsHaveNoMarkers(s);
    assert s[..|s|] == s;
    MantissaOfDigits(s);
  }

  /** A string of decimal digits converts to its value. */
  lemma DigitStringToNumber(s: string)
    requires s != [] && AllDigits(s, 10)
    ensures StringToNumber(s) == Finite(DigitsValue(s, 10) as real)
  {
    DigitIsNotMarker(s[|s| - 1]);
    assert |s| >= 2 ==> IsDigit(s[1], 10);
    PlainLiteral(s);
    UnsignedDigits(s);
  }

  /** `Number` inverts the decimal rendering of a natural number. */
  lemma DecimalToNumber(n: nat)
    ensures StringToNumber(Decimal(n)) == Finite(n as real)
  {
    DigitStringToNumber(Decimal(n));
    DigitsValueOfDecimal(n);
  }

  /** ... and of a negated natural number. */
  lemma NegativeDecimalToNumber(n: nat)
    ensures StringToNumber("-" + Decimal(n)) == Finite(-(n as real))
  {
    var d := Decimal(n);
    var s := "-" + d;
    DigitIsNotMarker(d[|d| - 1]);
    assert s[|s| - 1] == d[|d| - 1];
    TrimUnpadded(s);
    assert s[1..] == d;
    UnsignedDigits(d);
    DigitsValueOfDecimal(n);
  }

  lemma IndexOfAt(s: string, c: char, j: nat)
    requires j < |s| && s[j] == c
    requires forall i :: 0 <= i < j ==> s[i] != c
    ensures IndexOf(s, c) == j
  {
  }

  lemma NoExponentIndicator(s: string)
    requires forall i :: 0 <= i < |s| ==> s[i] != 'e' && s[i] != 'E'
    ensures IndexOfExponent(s) == |s|
  {
  }

  /** A mantissa `w.f` of two digit strings. */
  lemma MantissaWithPoint(w: string, f: string)
    requires w != [] && AllDigits(w, 10) && AllDigits(f, 10)
    ensures ParseMantissa(w + "." + f)
         == Some(MantissaValue(w, f))
  {
    var s := w + "." + f;
    forall i | 0 <= i < |w| ensures s[i] != '.' {
      assert s[i] == w[i];
      DigitIsNotMarker(w[i]);
    }
    IndexOfAt(s, '.', |w|);
    assert s[..|w|] == w;
    assert s[|w| + 1..] == f;
  }

  lemma UnsignedWithPoint(w: string, f: string)
    requires w != [] && AllDigits(w, 10) && AllDigits(f, 10)
    ensures ParseUnsignedDecimal(w + "." + f)
         == Finite(MantissaValue(w, f))
  {
    var s := w + "." + f;
    DigitIsNotMarker(w[0]);
    assert s[0] == w[0];
    assert s != "Infinity" by { assert "Infinity"[0] == 'I'; }
    forall i | 0 <= i < |s| ensures s[i] != 'e' && s[i] != 'E' {
      if i < |w| {
        assert s[i] == w[i];
        DigitIsNotMarker(w[i]);
      } else if i > |w| {
        assert s[i] == f[i - |w| - 1];
        DigitIsNotMarker(f[i - |w| - 1]);
      }
    }
    NoExponentIndicator(s);
    assert s[..|s|] == s;
    MantissaWithPoint(w, f);
  }

  /** A literal with no sign and no `0x`/`0o`/`0b` prefix is parsed as unsigned. */
  lemma UnprefixedLiteral(t: string)
    requires t != [] && t[0] != '+' && t[0] != '-' && (|t| >= 2 ==> Radix(t[1]) == 0)
    ensures ParseNumericLiteral(t) == ParseUnsignedDecimal(t)
  {
    assert ParseDecimalLiteral(t) == ParseUnsignedDecimal(t);
  }

  /** A literal that starts with a decimal digit and is not a prefixed integer is parsed as unsigned. */
  lemma PlainLiteral(s: string)
    requires s != [] && IsDigit(s[0], 10) && !IsWhiteSpace(s[|s| - 1])
    requires |s| >= 2 ==> IsDigit(s[1], 10) || s[1] == '.'
    ensures StringToNumber(s) == ParseUnsignedDecimal(s)
  {
    DigitIsNotMarker(s[0]);
    TrimUnpadded(s);
    if |s| >= 2 && IsDigit(s[1], 10) { DigitIsNotMarker(s[1]); }
    UnprefixedLiteral(s);
  }

  /** `Number` of a decimal numeral with a fraction part, such as `7.25`. */
  lemma PointNumeralToNumber(w: string, f: string)
    requires w != [] && AllDigits(w, 10) && f != [] && AllDigits(f, 10)
    ensures StringToNumber(w + "." + f) == Finite(MantissaValue(w, f))
  {
    var s := w + "." + f;
    assert s[0] == w[0] && s[|s| - 1] == f[|f| - 1];
    DigitIsNotMarker(f[|f| - 1]);
    assert |s| >= 2 ==> IsDigit(s[1], 10) || s[1] == '.' by {
      if |w| >= 2 { assert s[1] == w[1]; } else { assert s[1] == '.'; }
    }
    PlainLiteral(s);
    UnsignedWithPoint(w, f);
  }

  /** The value of `n.d` for a single digit `d`. */
  lemma TenthsValue(n: nat, d: nat)
    requires d < 10
    ensures MantissaValue(Decimal(n), Decimal(d)) == n as real + d as real / 10.0
  {
    var w, f := Decimal(n), Decimal(d);
    assert |f| == 1;
    assert Pow10Nat(|f|) == 10;
    DigitsValueOfDecimal(n);
    DigitsValueOfDecimal(d);
  }

  /** A one-place decimal fraction such as `7.5`, as a sleep duration is entered. */
  lemma TenthsToNumber(n: nat, d: nat)
    requires d < 10
    ensures StringToNumber(Decimal(n) + "." + Decimal(d)) == Finite(n as real + d as real / 10.0)
  {
    PointNumeralToNumber(Decimal(n), Decimal(d));
    TenthsValue(n, d);
  }

  /** Exactly one of `a < b`, `b < a` and equality holds unless NaN is involved, in which case none. */
  lemma LessTrichotomy(a: JsNumber, b: JsNumber)
    ensures (a.NaN? || b.NaN?) ==> !Less(a, b) && !Less(b, a) && !LessEq(a, b)
    ensures !a.NaN? && !b.NaN? ==> (Less(a, b) || Less(b, a) || a == b)
    ensures !(Less(a, b) && Less(b, a))
    ensures !Less(a, a)
  {
  }
}
