/**
  The two JavaScript string-to-number conversions the validators rely on,
  restricted to decimal notation:
  - `Number.parseInt(s)`: an optional sign, then the longest run of leading
    decimal digits; anything after that run is ignored; no digits gives NaN.
  - `Number(s)`: the WHOLE string must be a decimal literal (optional sign,
    digits, optional fraction); the empty string converts to 0.
  NaN is `None`. Values are exact (`int`, `real`), not IEEE doubles.
*/
module JsNumbers {
  import opened Wrappers

  predicate IsDigit(c: char) {
    '0' <= c <= '9'
  }

  predicate AllDigits(s: string) {
    forall i :: 0 <= i < |s| ==> IsDigit(s[i])
  }

  function DigitValue(c: char): nat
    requires IsDigit(c)
  {
    (c as int) - ('0' as int)
  }

  function DigitChar(d: nat): (c: char)
    requires d < 10
    ensures IsDigit(c) && DigitValue(c) == d
  {
    (('0' as int) + d) as char
  }

  /** The value of a string of decimal digits, most significant digit first. */
  function DigitsValue(s: string): nat
    requires AllDigits(s)
  {
    if s == [] then 0 else DigitsValue(s[..|s| - 1]) * 10 + DigitValue(s[|s| - 1])
  }

  function Pow10(n: nat): (p: nat)
    ensures p >= 1
  {
    if n == 0 then 1 else 10 * Pow10(n - 1)
  }

  /** The number of leading decimal digits of `s`. */
  function LeadingDigits(s: string): (n: nat)
    ensures n <= |s|
    ensures AllDigits(s[..n])
    ensures n < |s| ==> !IsDigit(s[n])
  {
    if s == [] || !IsDigit(s[0]) then 0 else 1 + LeadingDigits(s[1..])
  }

  predicate HasSign(s: string) {
    |s| > 0 && (s[0] == '-' || s[0] == '+')
  }

  predicate IsNegative(s: string) {
    |s| > 0 && s[0] == '-'
  }

  function Unsigned(s: string): string {
    if HasSign(s) then s[1..] else s
  }

  /** `Number.parseInt(s)` for decimal text. */
  function ParseInt(s: string): Option<int> {
    var body := Unsigned(s);
    var n := LeadingDigits(body);
    if n == 0 then None
    else if IsNegative(s) then Some(-(DigitsValue(body[..n]) as int))
    else Some(DigitsValue(body[..n]))
  }

  /** The value of the digits after a decimal point. */
  function Fraction(d: string): real
    requires AllDigits(d)
  {
    (DigitsValue(d) as real) / (Pow10(|d|) as real)
  }

  /** The value of unsigned decimal text `digits [. digits]`, NaN otherwise. */
  function Magnitude(body: string): Option<real> {
    var n := LeadingDigits(body);
    var whole := DigitsValue(body[..n]) as real;
    var rest := body[n..];
    if rest == [] then (if n == 0 then None else Some(whole))
    else if rest[0] == '.' && AllDigits(rest[1..]) && (n > 0 || |rest| > 1)
    then Some(whole + Fraction(rest[1..]))
    else None
  }

  /** `Number(s)` for decimal text without exponent. */
  function ToNumber(s: string): Option<real> {
    if s == [] then Some(0.0)
    else
      match Magnitude(Unsigned(s))
      case None => None
      case Some(m) => Some(if IsNegative(s) then -m else m)
  }

  /** `Number.isInteger` on a finite value. */
  predicate IsInteger(x: real) {
    x.Floor as real == x
  }

  /** The text of a natural number in plain decimal notation. */
  function Decimal(n: nat): (s: string)
    ensures |s| >= 1 && AllDigits(s)
  {
    if n < 10 then [DigitChar(n)] else Decimal(n / 10) + [DigitChar(n % 10)]
  }

  /** The decimal text of an integer, with a leading '-' when negative. */
  function IntToString(i: int): string {
    if i < 0 then "-" + Decimal(-i) else Decimal(i)
  }

  lemma {:induction false} DecimalValue(n: nat)
    ensures DigitsValue(Decimal(n)) == n
  {
    if n >= 10 {
      var s := Decimal(n);
      assert s[..|s| - 1] == Decimal(n / 10);
      DecimalValue(n / 10);
    }
  }

  /** A run of digits followed by a non-digit has exactly that many leading digits. */
  lemma {:induction false} LeadingDigitsOfConcat(d: string, t: string)
    requires AllDigits(d)
    requires t == [] || !IsDigit(t[0])
    ensures LeadingDigits(d + t) == |d|
  {
    if d != [] {
      assert (d + t)[1..] == d[1..] + t;
      LeadingDigitsOfConcat(d[1..], t);
    }
  }

  /** parseInt reads the leading digits and ignores whatever follows them. */
  lemma ParseIntPrefix(d: string, t: string)
    requires d != [] && AllDigits(d)
    requires t == [] || !IsDigit(t[0])
    ensures ParseInt(d + t) == Some(DigitsValue(d))
  {
    assert Unsigned(d + t) == d + t;
    LeadingDigitsOfConcat(d, t);
    assert (d + t)[..|d|] == d;
  }

  /** A leading '-' negates what parseInt reads from the unsigned text after it. */
  lemma ParseIntMinus(body: string, v: nat)
    requires !HasSign(body) && ParseInt(body) == Some(v)
    ensures ParseInt("-" + body) == Some(-(v as int))
  {
    var s := "-" + body;
    assert s[1..] == body;
    assert Unsigned(s) == body == Unsigned(body);
  }

  /** parseInt of an explicitly negated digit run is its negation. */
  lemma ParseIntNegative(d: string, t: string)
    requires d != [] && AllDigits(d)
    requires t == [] || !IsDigit(t[0])
    ensures ParseInt("-" + (d + t)) == Some(-(DigitsValue(d) as int))
  {
    ParseIntPrefix(d, t);
    assert (d + t)[0] == d[0];
    ParseIntMinus(d + t, DigitsValue(d));
  }

  /** parseInt inverts the printing of a natural number. */
  lemma ParseIntDecimal(n: nat)
    ensures ParseInt(Decimal(n)) == Some(n)
  {
    ParseIntPrefix(Decimal(n), "");
    assert Decimal(n) + "" == Decimal(n);
    DecimalValue(n);
  }

  /** parseInt is NaN exactly when no digit follows the optional sign. */
  lemma ParseIntNaN(s: string)
    ensures ParseInt(s) == None <==> (Unsigned(s) == [] || !IsDigit(Unsigned(s)[0]))
  {
  }

  /** Number() of a digit run is its value. */
  lemma ToNumberDigits(d: string)
    requires d != [] && AllDigits(d)
    ensures ToNumber(d) == Some(DigitsValue(d) as real)
  {
    assert Unsigned(d) == d;
    LeadingDigitsOfConcat(d, "");
    assert d + "" == d;
    assert d[..|d|] == d;
  }

  /** Number() of unsigned `digits.fraction` text adds the two parts. */
  lemma MagnitudeWithFraction(d: string, f: string)
    requires d != [] && AllDigits(d) && AllDigits(f)
    ensures Magnitude(d + ['.'] + f) == Some(DigitsValue(d) as real + Fraction(f))
  {
    var s := d + (['.'] + f);
    LeadingDigitsOfConcat(d, ['.'] + f);
    assert s[..|d|] == d;
    assert s[|d|..] == ['.'] + f;
    assert (['.'] + f)[1..] == f;
    assert d + ['.'] + f == s;
  }

  /** Number() of a digit run followed by ".0" is still an integer. */
  lemma ToNumberZeroFraction(d: string)
    requires d != [] && AllDigits(d)
    ensures ToNumber(d + ".0") == Some(DigitsValue(d) as real)
  {
    FractionOfZero();
    MagnitudeWithFraction(d, "0");
    assert d + ".0" == d + ['.'] + "0";
    assert Unsigned(d + ".0") == d + ".0";
  }

  /** A leading '+' does not change what Number() reads. */
  lemma ToNumberPlus(body: string)
    requires body != [] && !HasSign(body)
    ensures ToNumber("+" + body) == ToNumber(body)
  {
    assert ("+" + body)[1..] == body;
  }

  /** The digit runs the spelling lemmas below use. */
  lemma DigitsOfFive()
    ensures AllDigits("5") && DigitsValue("5") == 5
    ensures AllDigits("05") && DigitsValue("05") == 5
    ensures AllDigits("00") && DigitsValue("00") == 0
  {
    assert "5"[..0] == "" && "0"[..0] == "";
    assert "05"[..1] == "0" && "00"[..1] == "0";
  }

  /** Leading zeros do not change what Number() reads: "05" is 5. */
  lemma ToNumberLeadingZero()
    ensures ToNumber("05") == Some(5.0)
  {
    DigitsOfFive();
    ToNumberDigits("05");
  }

  /** Zeros after the point, or a bare point, leave an integer: "5.00" and "5." are 5. */
  lemma ToNumberTrailingPoint()
    ensures ToNumber("5.00") == Some(5.0)
    ensures ToNumber("5.") == Some(5.0)
  {
    DigitsOfFive();
    assert Fraction("00") == 0.0;
    assert Fraction("") == 0.0;
    MagnitudeWithFraction("5", "00");
    MagnitudeWithFraction("5", "");
    assert "5" + ['.'] + "00" == "5.00" && Unsigned("5.00") == "5.00";
    assert "5" + ['.'] + "" == "5." && Unsigned("5.") == "5.";
  }

  lemma FractionOfZero()
    ensures AllDigits("0") && Fraction("0") == 0.0
  {
    assert "0"[..0] == "";
  }

  /** Number() rejects a digit run followed by any character other than a digit or '.'. */
  lemma ToNumberTrailing(d: string, c: char)
    requires d != [] && AllDigits(d)
    requires !IsDigit(c) && c != '.'
    ensures ToNumber(d + [c]) == None
  {
    var s := d + [c];
    assert Unsigned(s) == s;
    LeadingDigitsOfConcat(d, [c]);
    assert s[|d|..] == [c];
  }
}
