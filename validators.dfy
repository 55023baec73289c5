/**
  The query-parameter validators: zod string schemas whose transform turns
  the text into a number (or checks its length) and reports one custom
  issue, at the path given to `addIssue`, when the text is not acceptable.
*/
module Validators {
  import opened Wrappers
  import opened JsNumbers
  import opened Zod

  function LimitMessage(minValue: int, maxValue: int): string {
    "Limit must be a number between " + IntToString(minValue) + " and " + IntToString(maxValue)
  }

  const PageMessage := "Page must be a number greater than or equal 0"
  const ProgramIdMessage := "ProgramId must be a number greater than or equal 0"
  const IdMessage := "Id must be a number greater than or equal 0"

  /** `LimitValidator(minValue, maxValue, defaultValue)`: an optional string;
      absent or empty means `defaultValue`, otherwise parseInt of the text;
      the number must lie in [minValue, maxValue] (NaN never does). */
  function Limit(minValue: int, maxValue: int, defaultValue: int, v: Value): (r: Result<int, Issue>)
    ensures r.Success? ==> minValue <= r.value <= maxValue
    ensures r.Success? ==> v.Undefined? || v.Str?
    ensures v.Str? && v.s != "" ==>
              (r.Success? <==> ParseInt(v.s).Some? && minValue <= ParseInt(v.s).value <= maxValue)
    ensures v.Str? && v.s != "" && r.Success? ==> Some(r.value) == ParseInt(v.s)
    ensures r.Failure? && (v.Undefined? || v.Str?) ==>
              r.error == Issue(Custom(LimitMessage(minValue, maxValue)), ["limit"])
    ensures !(v.Undefined? || v.Str?) ==> r == Failure(Issue(InvalidType("string", TypeName(v)), []))
  {
    match OptionalString(v)
    case Failure(e) => Failure(e)
    case Success(value) =>
      var limit := if value.Some? && value.value != "" then ParseInt(value.value) else Some(defaultValue);
      if limit.Some? && minValue <= limit.value <= maxValue then Success(limit.value)
      else Failure(Issue(Custom(LimitMessage(minValue, maxValue)), ["limit"]))
  }

  /** `PageValidator()`: a required string whose parseInt is an integer >= 0. */
  function Page(v: Value): (r: Result<int, Issue>)
    ensures r.Success? ==> v.Str? && r.value >= 0
    ensures v.Str? ==> (r.Success? <==> ParseInt(v.s).Some? && ParseInt(v.s).value >= 0)
    ensures r.Success? ==> Some(r.value) == ParseInt(v.s)
    ensures v.Str? && r.Failure? ==> r.error == Issue(Custom(PageMessage), ["page"])
    ensures !v.Str? ==> r == Failure(Issue(InvalidType("string", TypeName(v)), []))
  {
    match RequiredString(v)
    case Failure(e) => Failure(e)
    case Success(s) =>
      var page := ParseInt(s);
      if page.Some? && page.value >= 0 then Success(page.value)
      else Failure(Issue(Custom(PageMessage), ["page"]))
  }

  /** `ProgramIdValidator()`: an optional string; absent or empty means no
      program id at all, otherwise parseInt of the text must be >= 0. */
  function ProgramId(v: Value): (r: Result<Option<int>, Issue>)
    ensures (v.Undefined? || v == Str("")) ==> r == Success(None)
    ensures v.Str? && v.s != "" && r.Success? ==> r.value.Some? && r.value.value >= 0
    ensures v.Str? && v.s != "" ==> (r.Success? <==> ParseInt(v.s).Some? && ParseInt(v.s).value >= 0)
    ensures v.Str? && v.s != "" && r.Success? ==> r.value == ParseInt(v.s)
    ensures v.Str? && r.Failure? ==> r.error == Issue(Custom(ProgramIdMessage), ["programId"])
    ensures r.Success? ==> v.Undefined? || v.Str?
    ensures !(v.Undefined? || v.Str?) ==> r == Failure(Issue(InvalidType("string", TypeName(v)), []))
  {
    match OptionalString(v)
    case Failure(e) => Failure(e)
    case Success(value) =>
      if value.None? || value.value == "" then Success(None)
      else
        var programId := ParseInt(value.value);
        if programId.Some? && programId.value >= 0 then Success(Some(programId.value))
        else Failure(Issue(Custom(ProgramIdMessage), ["programId"]))
  }

  /** `SearchValidator()`: an optional string of 3 to 200 UTF-16 units. */
  function Search(v: Value): (r: Result<Option<string>, Issue>)
    ensures r.Success? <==> v.Undefined? || (v.Str? && 3 <= Utf16Length(v.s) <= 200)
    ensures r.Success? ==> r.value == (if v.Undefined? then None else Some(v.s))
    ensures v.Str? && Utf16Length(v.s) < 3 ==> r == Failure(Issue(TooSmall(3, true), []))
    ensures v.Str? && Utf16Length(v.s) > 200 ==> r == Failure(Issue(TooBig(200, true), []))
    ensures !(v.Undefined? || v.Str?) ==> r == Failure(Issue(InvalidType("string", TypeName(v)), []))
  {
    match OptionalString(v)
    case Failure(e) => Failure(e)
    case Success(None) => Success(None)
    case Success(Some(s)) =>
      if Utf16Length(s) < 3 then Failure(Issue(TooSmall(3, true), []))
      else if Utf16Length(s) > 200 then Failure(Issue(TooBig(200, true), []))
      else Success(Some(s))
  }

  /** The bounds count UTF-16 units: two characters, one of them astral, are
      long enough, and 140 astral characters are too long. */
  lemma SearchCountsUtf16Units(astral: string)
    requires |astral| == 140 && forall i :: 0 <= i < |astral| ==> IsAstral(astral[i])
    ensures Search(Str("a\U{1F600}")) == Success(Some("a\U{1F600}"))
    ensures Search(Str(astral)) == Failure(Issue(TooBig(200, true), []))
  {
    Utf16LengthOfEmoji();
    AstralLength(astral);
  }

  lemma {:induction false} AstralLength(s: string)
    requires forall i :: 0 <= i < |s| ==> IsAstral(s[i])
    ensures Utf16Length(s) == 2 * |s|
  {
    if s != [] {
      AstralLength(s[1..]);
    }
  }

  /** `IdValidator()`: a required string that Number() converts, as a whole,
      to an integer >= 0. */
  function Id(v: Value): (r: Result<int, Issue>)
    ensures r.Success? ==> v.Str? && r.value >= 0 && ToNumber(v.s) == Some(r.value as real)
    ensures v.Str? ==>
              (r.Success? <==> ToNumber(v.s).Some? && IsInteger(ToNumber(v.s).value) && ToNumber(v.s).value >= 0.0)
    ensures v.Str? && r.Failure? ==> r.error == Issue(Custom(IdMessage), ["id"])
    ensures !v.Str? ==> r == Failure(Issue(InvalidType("string", TypeName(v)), []))
  {
    match RequiredString(v)
    case Failure(e) => Failure(e)
    case Success(s) =>
      var id := ToNumber(s);
      if id.Some? && IsInteger(id.value) && id.value >= 0.0 then Success(id.value.Floor)
      else Failure(Issue(Custom(IdMessage), ["id"]))
  }

  /** An absent or empty limit is the default, checked against the same bounds. */
  lemma LimitDefault(minValue: int, maxValue: int, defaultValue: int, v: Value)
    requires v.Undefined? || v == Str("")
    ensures minValue <= defaultValue <= maxValue ==> Limit(minValue, maxValue, defaultValue, v) == Success(defaultValue)
    ensures !(minValue <= defaultValue <= maxValue) ==> Limit(minValue, maxValue, defaultValue, v).Failure?
  {
  }

  /** A limit in range, printed in decimal, reads back as itself. */
  lemma LimitRoundTrip(minValue: int, maxValue: int, defaultValue: int, n: nat)
    requires minValue <= n <= maxValue
    ensures Limit(minValue, maxValue, defaultValue, Str(Decimal(n))) == Success(n)
  {
    ParseIntDecimal(n);
  }

  /** Text with no digit after the optional sign is rejected with the limit issue. */
  lemma LimitNonNumeric(minValue: int, maxValue: int, defaultValue: int, s: string)
    requires s != [] && (Unsigned(s) == [] || !IsDigit(Unsigned(s)[0]))
    ensures Limit(minValue, maxValue, defaultValue, Str(s)) ==
            Failure(Issue(Custom(LimitMessage(minValue, maxValue)), ["limit"]))
  {
    ParseIntNaN(s);
  }

  /** A number outside the range is rejected with the limit issue, trailing text or not;
      its negation is accepted exactly when it lies in the range. */
  lemma LimitOutOfRange(minValue: int, maxValue: int, defaultValue: int, d: string, t: string)
    requires d != [] && AllDigits(d) && (t == [] || !IsDigit(t[0]))
    requires !(minValue <= DigitsValue(d) <= maxValue)
    ensures Limit(minValue, maxValue, defaultValue, Str(d + t)) ==
            Failure(Issue(Custom(LimitMessage(minValue, maxValue)), ["limit"]))
    ensures Limit(minValue, maxValue, defaultValue, Str("-" + (d + t))) ==
            (if minValue <= -(DigitsValue(d) as int) <= maxValue then Success(-(DigitsValue(d) as int))
             else Failure(Issue(Custom(LimitMessage(minValue, maxValue)), ["limit"])))
  {
    ParseIntPrefix(d, t);
    ParseIntNegative(d, t);
  }

  /** parseInt ignores trailing text: "25abc" is the limit 25. */
  lemma LimitIgnoresTrailing(minValue: int, maxValue: int, defaultValue: int, d: string, t: string)
    requires d != [] && AllDigits(d) && (t == [] || !IsDigit(t[0]))
    requires minValue <= DigitsValue(d) <= maxValue
    ensures Limit(minValue, maxValue, defaultValue, Str(d + t)) == Success(DigitsValue(d))
  {
    ParseIntPrefix(d, t);
  }

  /** Every natural number, printed in decimal, is accepted as that page. */
  lemma PageRoundTrip(n: nat)
    ensures Page(Str(Decimal(n))) == Success(n)
  {
    ParseIntDecimal(n);
  }

  /** A negative page is rejected; "-0" is parseInt's -0, which is accepted as 0. */
  lemma PageNegative(d: string, t: string)
    requires d != [] && AllDigits(d) && (t == [] || !IsDigit(t[0]))
    ensures DigitsValue(d) > 0 ==> Page(Str("-" + (d + t))) == Failure(Issue(Custom(PageMessage), ["page"]))
    ensures DigitsValue(d) == 0 ==> Page(Str("-" + (d + t))) == Success(0)
  {
    ParseIntNegative(d, t);
  }

  /** Text with no digit after the optional sign is rejected with the page issue. */
  lemma PageNonNumeric(s: string)
    requires Unsigned(s) == [] || !IsDigit(Unsigned(s)[0])
    ensures Page(Str(s)) == Failure(Issue(Custom(PageMessage), ["page"]))
  {
    ParseIntNaN(s);
  }

  /** Every natural number, printed in decimal, is accepted as that program id. */
  lemma ProgramIdRoundTrip(n: nat)
    ensures ProgramId(Str(Decimal(n))) == Success(Some(n))
  {
    ParseIntDecimal(n);
  }

  /** A negative program id is rejected; "-0" is parseInt's -0, which is accepted as 0. */
  lemma ProgramIdNegative(d: string, t: string)
    requires d != [] && AllDigits(d) && (t == [] || !IsDigit(t[0]))
    ensures DigitsValue(d) > 0 ==>
              ProgramId(Str("-" + (d + t))) == Failure(Issue(Custom(ProgramIdMessage), ["programId"]))
    ensures DigitsValue(d) == 0 ==> ProgramId(Str("-" + (d + t))) == Success(Some(0))
  {
    ParseIntNegative(d, t);
  }

  /** Non-empty text with no digit after the optional sign is rejected with the program id issue. */
  lemma ProgramIdNonNumeric(s: string)
    requires s != [] && (Unsigned(s) == [] || !IsDigit(Unsigned(s)[0]))
    ensures ProgramId(Str(s)) == Failure(Issue(Custom(ProgramIdMessage), ["programId"]))
  {
    ParseIntNaN(s);
  }

  /** Every natural number, printed in decimal, with or without ".0", is accepted as that id. */
  lemma IdRoundTrip(n: nat)
    ensures Id(Str(Decimal(n))) == Success(n)
    ensures Id(Str(Decimal(n) + ".0")) == Success(n)
  {
    DecimalValue(n);
    ToNumberDigits(Decimal(n));
    ToNumberZeroFraction(Decimal(n));
  }

  /** Every text whose Number() is a natural number is accepted as that id. */
  lemma IdOfNumber(s: string, n: nat)
    requires ToNumber(s) == Some(n as real)
    ensures Id(Str(s)) == Success(n)
  {
  }

  /** Number() accepts other spellings of an integer too: a plus sign, leading
      zeros, and trailing zeros or a bare point after it all give the id 5. */
  lemma IdAcceptsOtherSpellings()
    ensures Id(Str("+5")) == Success(5)
    ensures Id(Str("05")) == Success(5)
    ensures Id(Str("5.00")) == Success(5)
    ensures Id(Str("5.")) == Success(5)
  {
    DigitsOfFive();
    ToNumberDigits("5");
    ToNumberPlus("5");
    ToNumberLeadingZero();
    ToNumberTrailingPoint();
    IdOfNumber("+5", 5);
    IdOfNumber("05", 5);
    IdOfNumber("5.00", 5);
    IdOfNumber("5.", 5);
  }

  /** Number() of the empty string is 0, so an empty id is the id 0. */
  lemma IdEmpty()
    ensures Id(Str("")) == Success(0)
  {
  }

  /** Id converts the whole text, Page and Limit only its leading digits:
      "5x" is no id but is the page 5 and (within bounds) the limit 5. */
  lemma IdRejectsTrailingPageAccepts(d: string, c: char)
    requires d != [] && AllDigits(d)
    requires !IsDigit(c) && c != '.'
    ensures Id(Str(d + [c])) == Failure(Issue(Custom(IdMessage), ["id"]))
    ensures Page(Str(d + [c])) == Success(DigitsValue(d))
    ensures 1 <= DigitsValue(d) <= 100 ==> Limit(1, 100, 10, Str(d + [c])) == Success(DigitsValue(d))
  {
    assert ToNumber(d + [c]) == None by { ToNumberTrailing(d, c); }
    assert ParseInt(d + [c]) == Some(DigitsValue(d)) by { ParseIntPrefix(d, [c]); }
  }
}
