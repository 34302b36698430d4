/** JavaScript's `Number(string)` conversion (ECMAScript 2023, section 7.1.4.1.1,
    StringToNumber) over exact reals. `None` stands for `NaN`. */
module JsNumber {
  import opened Base
  import opened JsText

  predicate IsDigit(c: char)
  {
    '0' <= c <= '9'
  }

  /** The value of a hexadecimal digit character (0 for anything else). */
  function DigitValue(c: char): nat
  {
    if '0' <= c <= '9' then c as int - '0' as int
    else if 'a' <= c <= 'f' then c as int - 'a' as int + 10
    else if 'A' <= c <= 'F' then c as int - 'A' as int + 10
    else 0
  }

  predicate IsRadixDigit(c: char, radix: nat)
  {
    (IsDigit(c) || ('a' <= c <= 'f') || ('A' <= c <= 'F')) && DigitValue(c) < radix
  }

  predicate AllRadixDigits(s: string, radix: nat)
  {
    forall k :: 0 <= k < |s| ==> IsRadixDigit(s[k], radix)
  }

  /** The number a digit string denotes in the given radix. */
  function RadixValue(s: string, radix: nat): nat
  {
    if s == [] then 0 else RadixValue(s[..|s| - 1], radix) * radix + DigitValue(s[|s| - 1])
  }

  /** The value of the digits after a decimal point: `.d1d2…` is
      `(d1 + .d2…) / 10`. */
  function FractionValue(s: string): real
  {
    if s == [] then 0.0 else (DigitValue(s[0]) as real + FractionValue(s[1..])) / 10.0
  }

  /** `m × 10^e` for a possibly negative exponent, one power of ten at a time. */
  function ScaleBy(m: real, e: int): (r: real)
    ensures e == 0 ==> r == m
    decreases if e >= 0 then e else -e
  {
    if e == 0 then m
    else if e > 0 then ScaleBy(m * 10.0, e - 1)
    else ScaleBy(m / 10.0, e + 1)
  }

  /** Index of the first character satisfying `p`, or `|s|` when there is none. */
  function FindFirst(s: string, p: char -> bool): (k: nat)
    ensures k <= |s|
    ensures k < |s| ==> p(s[k])
    ensures forall j :: 0 <= j < k ==> !p(s[j])
  {
    if s == [] then 0 else if p(s[0]) then 0 else 1 + FindFirst(s[1..], p)
  }

  predicate IsExponentMark(c: char)
  {
    c == 'e' || c == 'E'
  }

  predicate IsDot(c: char)
  {
    c == '.'
  }

  /** An exponent: an optional sign and at least one decimal digit. */
  function SignedInteger(s: string): Option<int>
  {
    if |s| > 0 && (s[0] == '+' || s[0] == '-') then
      var d := s[1..];
      var v: int := RadixValue(d, 10);
      if |d| > 0 && AllRadixDigits(d, 10) then Some(if s[0] == '-' then -v else v)
      else None
    else if |s| > 0 && AllRadixDigits(s, 10) then Some(RadixValue(s, 10))
    else None
  }

  /** `digits [. digits]` or `. digits`: the part before the exponent. */
  function Mantissa(m: string): Option<real>
  {
    var d := FindFirst(m, IsDot);
    var whole := m[..d];
    var fraction := if d < |m| then m[d + 1..] else "";
    if AllRadixDigits(whole, 10) && AllRadixDigits(fraction, 10) && |whole| + |fraction| >= 1 then
      Some(RadixValue(whole, 10) as real + FractionValue(fraction))
    else None
  }

  /** StrUnsignedDecimalLiteral other than `Infinity`: a mantissa and an
      optional `e`/`E` exponent. */
  function UnsignedDecimal(t: string): Option<real>
  {
    var k := FindFirst(t, IsExponentMark);
    var mantissa := Mantissa(t[..k]);
    var exponent := if k == |t| then Some(0) else SignedInteger(t[k + 1..]);
    if mantissa.Some? && exponent.Some? then Some(ScaleBy(mantissa.value, exponent.value)) else None
  }

  /** `0x`/`0o`/`0b` literals: at least one digit of the radix. */
  function NonDecimal(digits: string, radix: nat): Option<real>
  {
    if |digits| > 0 && AllRadixDigits(digits, radix) then Some(RadixValue(digits, radix) as real)
    else None
  }

  /** The characters a numeric literal other than `Infinity` can begin with. */
  predicate CanStartNumber(c: char)
  {
    IsDigit(c) || c == '.' || c == '+' || c == '-'
  }

  /** A text whose first character cannot begin a number is no decimal
      literal. */
  lemma UnsignedDecimalStart(t: string)
    requires |t| > 0 && !CanStartNumber(t[0])
    ensures UnsignedDecimal(t).None?
  {
    var k := FindFirst(t, IsExponentMark);
    if k > 0 {
      var m := t[..k];
      assert m[0] == t[0];
      var d := FindFirst(m, IsDot);
      assert d > 0 && m[..d][0] == t[0];
      assert !IsRadixDigit(t[0], 10);
    }
  }

  /** `Number(s)` for a string `s`: the text is trimmed first, and an
      empty or all-white text is 0. */
  function StringToNumber(s: string): (r: Option<real>)
    ensures (forall k :: 0 <= k < |s| ==> IsWhite(s[k])) ==> r == Some(0.0)
    ensures |Trim(s)| > 0 && !CanStartNumber(Trim(s)[0]) ==> r.None?
  {
    var t := Trim(s);
    if t == "" then Some(0.0)
    else if |t| >= 2 && t[0] == '0' && (t[1] == 'x' || t[1] == 'X') then NonDecimal(t[2..], 16)
    else if |t| >= 2 && t[0] == '0' && (t[1] == 'o' || t[1] == 'O') then NonDecimal(t[2..], 8)
    else if |t| >= 2 && t[0] == '0' && (t[1] == 'b' || t[1] == 'B') then NonDecimal(t[2..], 2)
    else if !CanStartNumber(t[0]) then
      UnsignedDecimalStart(t);
      UnsignedDecimal(t)
    else if t[0] == '+' then UnsignedDecimal(t[1..])
    else if t[0] == '-' then
      match UnsignedDecimal(t[1..])
      case Some(x) => Some(-x)
      case None => None
    else UnsignedDecimal(t)
  }

  /** `Number.isInteger(x)` for a finite number. */
  predicate IsIntegral(x: real)
  {
    x == x.Floor as real
  }

  /** The decimal text of a natural number, as `String(n)` prints it. */
  function NatText(n: nat): (r: string)
    ensures |r| >= 1 && AllRadixDigits(r, 10)
    ensures n >= 10 ==> r[0] != '0'
    ensures n < 10 ==> |r| == 1
  {
    if n < 10 then [('0' as int + n) as char]
    else NatText(n / 10) + [('0' as int + n % 10) as char]
  }

  lemma {:induction false} NatTextValue(n: nat)
    ensures RadixValue(NatText(n), 10) == n
  {
    if n >= 10 {
      NatTextValue(n / 10);
      var t := NatText(n);
      assert t[..|t| - 1] == NatText(n / 10);
    }
  }

  lemma DecimalDigitIsDigit(c: char)
    requires IsRadixDigit(c, 10)
    ensures IsDigit(c)
  {
  }

  lemma FindFirstAbsent(s: string, p: char -> bool)
    requires forall k :: 0 <= k < |s| ==> !p(s[k])
    ensures FindFirst(s, p) == |s|
  {
  }

  /** A plain digit string is read as the integer it denotes. */
  lemma DecimalOfDigits(t: string)
    requires |t| >= 1 && AllRadixDigits(t, 10)
    ensures UnsignedDecimal(t) == Some(RadixValue(t, 10) as real)
  {
    DecimalDigitsAreDigits(t);
    FindFirstAbsent(t, IsExponentMark);
    MantissaOfDigits(t);
    WithoutExponent(t, RadixValue(t, 10) as real);
  }

  /** Without an exponent mark the text is read as its mantissa. */
  lemma WithoutExponent(t: string, v: real)
    requires FindFirst(t, IsExponentMark) == |t| && Mantissa(t) == Some(v)
    ensures UnsignedDecimal(t) == Some(v)
  {
    assert t[..|t|] == t;
  }

  lemma DecimalDigitsAreDigits(t: string)
    requires AllRadixDigits(t, 10)
    ensures forall k :: 0 <= k < |t| ==> IsDigit(t[k])
  {
    forall k | 0 <= k < |t| ensures IsDigit(t[k]) {
      DecimalDigitIsDigit(t[k]);
    }
  }

  /** A digit string without a dot is a mantissa with no fraction. */
  lemma MantissaOfDigits(t: string)
    requires |t| >= 1 && AllRadixDigits(t, 10)
    requires forall k :: 0 <= k < |t| ==> IsDigit(t[k])
    ensures Mantissa(t) == Some(RadixValue(t, 10) as real)
  {
    FindFirstAbsent(t, IsDot);
    assert t[..|t|] == t;
    assert FractionValue("") == 0.0;
  }

  /** A trimmed, unsigned text that is not a `0x`/`0o`/`0b` literal is read
      as a decimal literal. */
  lemma PlainDecimalText(t: string)
    requires |t| >= 1 && IsDigit(t[0]) && IsTrimmed(t)
    requires !(|t| >= 2 && t[0] == '0')
    ensures StringToNumber(t) == UnsignedDecimal(t)
  {
  }

  /** A digit string without a leading zero is read as the integer it denotes. */
  lemma NumberOfDigits(t: string)
    requires |t| >= 1 && AllRadixDigits(t, 10) && !(|t| >= 2 && t[0] == '0')
    ensures StringToNumber(t) == Some(RadixValue(t, 10) as real)
  {
    DecimalDigitIsDigit(t[0]);
    DecimalDigitIsDigit(t[|t| - 1]);
    assert !IsWhite(t[|t| - 1]);
    PlainDecimalText(t);
    DecimalOfDigits(t);
  }

  /** Round trip: `Number(String(n)) == n` for every natural number. */
  lemma NumberOfNatText(n: nat)
    ensures StringToNumber(NatText(n)) == Some(n as real)
  {
    NumberOfDigits(NatText(n));
    NatTextValue(n);
  }
}
