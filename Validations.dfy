/**
 * The command-line argument validators and the date parser behind them.
 * Each validator compares the argument's length with the length of its
 * expected prefix and slices the prefix off; the prefix text itself is
 * never compared.
 */
module Validations {
  import opened Wrappers
  import opened Dates

  /** The four expected argument prefixes, in argv order. */
  const SymbolPrefix := "--symbol="
  const CurrencyPrefix := "--currency="
  const StartDatePrefix := "--start-date="
  const EndDatePrefix := "--end-date="
  const PassedParams := [SymbolPrefix, CurrencyPrefix, StartDatePrefix, EndDatePrefix]

  const SymbolMaxLength := 100
  const CurrencyCodeLength := 3

  const DateFormatError := "Incorrect data format, should be YYYY-MM-DD."
  const NoEndDateError := "Provide a value for the end-date parameter."
  const NoStartDateError := "Provide a value for the start-date parameter."
  const CurrencyLengthError := "Currency should contain 3 characters."
  const NoSymbolError := "Provide a value for the symbol parameter."
  const SymbolLengthError := "Symbol's length cannot be more than 100 characters."

  // ---------------------------------------------------------------------
  // The %Y-%m-%d date format
  // ---------------------------------------------------------------------

  predicate IsDigit(c: char) {
    '0' <= c <= '9'
  }

  predicate IsNonZeroDigit(c: char) {
    '1' <= c <= '9'
  }

  function DigitValue(c: char): (n: int)
    requires IsDigit(c)
    ensures 0 <= n <= 9
  {
    c as int - '0' as int
  }

  function DigitChar(n: int): (c: char)
    requires 0 <= n <= 9
    ensures IsDigit(c) && DigitValue(c) == n
  {
    ('0' as int + n) as char
  }

  /** The year field: exactly four digits. */
  function YearField(t: string): (r: Option<int>)
    ensures r.Some? <==> |t| == 4 && forall i :: 0 <= i < 4 ==> IsDigit(t[i])
    ensures r.Some? ==> 0 <= r.value <= 9999
  {
    if |t| == 4 && IsDigit(t[0]) && IsDigit(t[1]) && IsDigit(t[2]) && IsDigit(t[3]) then
      Some(1000 * DigitValue(t[0]) + 100 * DigitValue(t[1]) + 10 * DigitValue(t[2]) + DigitValue(t[3]))
    else None
  }

  /**
   * The month field: one of the alternatives 1[0-2], 0[1-9] or [1-9], that is
   * two digits worth 1..12 or one non-zero digit.
   */
  function MonthField(t: string): (r: Option<int>)
    ensures r.Some? ==> 1 <= r.value <= 12
    ensures r.Some? ==> |t| == 1 || |t| == 2
    ensures r.Some? && |t| == 1 ==> IsDigit(t[0]) && r.value == DigitValue(t[0])
    ensures r.Some? && |t| == 2 ==> IsDigit(t[0]) && IsDigit(t[1]) && r.value == 10 * DigitValue(t[0]) + DigitValue(t[1])
  {
    if |t| == 2 && IsDigit(t[0]) && IsDigit(t[1]) && 1 <= 10 * DigitValue(t[0]) + DigitValue(t[1]) <= 12 then
      Some(10 * DigitValue(t[0]) + DigitValue(t[1]))
    else if |t| == 1 && IsNonZeroDigit(t[0]) then
      Some(DigitValue(t[0]))
    else None
  }

  /**
   * The day field: one of the alternatives 3[01], [12]\d, 0[1-9], [1-9] or
   * " [1-9]", that is two digits worth 1..31, one non-zero digit, or a space
   * followed by a non-zero digit.
   */
  function DayField(t: string): (r: Option<int>)
    ensures r.Some? ==> 1 <= r.value <= 31
    ensures r.Some? ==> |t| == 1 || |t| == 2
    ensures r.Some? && |t| == 1 ==> IsDigit(t[0]) && r.value == DigitValue(t[0])
    ensures r.Some? && |t| == 2 && t[0] == ' ' ==> IsDigit(t[1]) && r.value == DigitValue(t[1])
    ensures r.Some? && |t| == 2 && t[0] != ' ' ==>
              IsDigit(t[0]) && IsDigit(t[1]) && r.value == 10 * DigitValue(t[0]) + DigitValue(t[1])
  {
    if |t| == 2 && IsDigit(t[0]) && IsDigit(t[1]) && 1 <= 10 * DigitValue(t[0]) + DigitValue(t[1]) <= 31 then
      Some(10 * DigitValue(t[0]) + DigitValue(t[1]))
    else if |t| == 1 && IsNonZeroDigit(t[0]) then
      Some(DigitValue(t[0]))
    else if |t| == 2 && t[0] == ' ' && IsNonZeroDigit(t[1]) then
      Some(DigitValue(t[1]))
    else None
  }

  /** The index of the first '-' in t, if any. */
  function IndexOfDash(t: string): (r: Option<nat>)
    ensures r.Some? ==> r.value < |t| && t[r.value] == '-'
    ensures r.Some? ==> forall i :: 0 <= i < r.value ==> t[i] != '-'
    ensures r.None? ==> forall i :: 0 <= i < |t| ==> t[i] != '-'
  {
    if |t| == 0 then None
    else if t[0] == '-' then Some(0)
    else match IndexOfDash(t[1..])
      case None => None
      case Some(i) => Some(i + 1)
  }

  /**
   * Matches s against the whole pattern for %Y-%m-%d: four digits, a dash,
   * the month field, a dash and the day field, with nothing left over. No
   * field alternative contains a dash, so the month field is exactly the
   * text between the first two dashes.
   */
  function MatchDate(s: string): (r: Option<Date>)
    ensures r.Some? ==> 1 <= r.value.month <= 12 && 1 <= r.value.day <= 31 && 0 <= r.value.year <= 9999
    ensures r.Some? ==>
      && |s| >= 5 && s[4] == '-' && IndexOfDash(s[5..]).Some?
      && var i := 5 + IndexOfDash(s[5..]).value;
         && YearField(s[..4]) == Some(r.value.year)
         && MonthField(s[5..i]) == Some(r.value.month)
         && DayField(s[i + 1..]) == Some(r.value.day)
  {
    if |s| < 5 || s[4] != '-' then None
    else
      match YearField(s[..4])
      case None => None
      case Some(y) =>
        var rest := s[5..];
        match IndexOfDash(rest)
        case None => None
        case Some(i) =>
          assert rest[..i] == s[5..5 + i] && rest[i + 1..] == s[5 + i + 1..];
          match (MonthField(rest[..i]), DayField(rest[i + 1..]))
          case (Some(m), Some(d)) => Some(Date(y, m, d))
          case _ => None
  }

  /**
   * validate_date(text) with the default format: the date the text denotes,
   * or the format error when the text does not match or names no real date.
   */
  function ValidateDate(s: string): (r: Result<Date>)
    ensures r.Ok? ==> IsValidDate(r.value)
    ensures r.Err? ==> r.msg == DateFormatError
    ensures r.Ok? <==> MatchDate(s).Some? && IsValidDate(MatchDate(s).value)
  {
    match MatchDate(s)
    case Some(d) => if IsValidDate(d) then Ok(d) else Err(DateFormatError)
    case None => Err(DateFormatError)
  }

  /** The two-digit, zero-padded spelling of n. */
  function Pad2(n: int): (t: string)
    requires 0 <= n <= 99
    ensures |t| == 2 && IsDigit(t[0]) && IsDigit(t[1]) && 10 * DigitValue(t[0]) + DigitValue(t[1]) == n
  {
    [DigitChar(n / 10), DigitChar(n % 10)]
  }

  /** The four-digit, zero-padded spelling of n. */
  function Pad4(n: int): (t: string)
    requires 0 <= n <= 9999
    ensures YearField(t) == Some(n) && |t| == 4
  {
    var hi, lo := Pad2(n / 100), Pad2(n % 100);
    assert 100 * (n / 100) + n % 100 == n;
    hi + lo
  }

  /** The canonical YYYY-MM-DD spelling of a date. */
  function FormatDate(d: Date): (s: string)
    requires IsValidDate(d)
  {
    Pad4(d.year) + "-" + Pad2(d.month) + "-" + Pad2(d.day)
  }

  /** Parsing the canonical spelling of any valid date gives that date back. */
  lemma FormatThenValidate(d: Date)
    requires IsValidDate(d)
    ensures ValidateDate(FormatDate(d)) == Ok(d)
  {
    var s := FormatDate(d);
    var m, dd := Pad2(d.month), Pad2(d.day);
    assert s[..4] == Pad4(d.year);
    assert s[4] == '-';
    var rest := s[5..];
    assert rest == m + "-" + dd;
    assert IndexOfDash(rest) == Some(2) by {
      assert rest[2] == '-' && rest[0] != '-' && rest[1] != '-';
    }
    assert rest[..2] == m && rest[3..] == dd;
  }

  /**
   * Every spelling the format accepts denotes the date its fields spell: a
   * year field, a dash, a month field, a dash and a day field give that
   * year, month and day when they form a real date, and the format error
   * otherwise.
   */
  lemma ValidateDateSpelling(ys: string, ms: string, ds: string)
    requires YearField(ys).Some? && MonthField(ms).Some? && DayField(ds).Some?
    ensures var d := Date(YearField(ys).value, MonthField(ms).value, DayField(ds).value);
      ValidateDate(ys + "-" + ms + "-" + ds) == if IsValidDate(d) then Ok(d) else Err(DateFormatError)
  {
    MatchDateSpelling(ys, ms, ds);
  }

  /** The pieces of a date written with dashes between them are matched back as its fields. */
  lemma MatchDateSpelling(ys: string, ms: string, ds: string)
    requires YearField(ys).Some? && MonthField(ms).Some? && DayField(ds).Some?
    ensures MatchDate(ys + "-" + ms + "-" + ds) == Some(Date(YearField(ys).value, MonthField(ms).value, DayField(ds).value))
  {
    var s := ys + "-" + ms + "-" + ds;
    var rest := ms + "-" + ds;
    assert s[..4] == ys && s[4] == '-' && s[5..] == rest;
    FirstDashAfter(ms, ds);
    assert rest[..|ms|] == ms && rest[|ms| + 1..] == ds;
  }

  /** A month field holds no dash, so the first dash after it is the one that follows it. */
  lemma FirstDashAfter(ms: string, ds: string)
    requires MonthField(ms).Some?
    ensures IndexOfDash(ms + "-" + ds) == Some(|ms|)
  {
    var rest := ms + "-" + ds;
    assert forall i :: 0 <= i < |ms| ==> rest[i] == ms[i] && IsDigit(ms[i]);
    assert rest[|ms|] == '-';
  }

  /** "2022-3-15", with a one-digit month, is 15 March 2022. */
  lemma ValidateDateShortMonthExample()
    ensures ValidateDate("2022-3-15") == Ok(Date(2022, 3, 15))
  {
    assert "2022" + "-" + "3" + "-" + "15" == "2022-3-15";
    assert ValidateDate("2022" + "-" + "3" + "-" + "15") == Ok(Date(2022, 3, 15)) by {
      assert YearField("2022") == Some(2022) && MonthField("3") == Some(3) && DayField("15") == Some(15);
      assert IsValidDate(Date(2022, 3, 15));
      ValidateDateSpelling("2022", "3", "15");
    }
  }

  /** "2022-2-30" matches the format but raises, as February has no 30th. */
  lemma ValidateDateRejectsFebruaryThirtieth()
    ensures ValidateDate("2022-2-30") == Err(DateFormatError)
  {
    assert YearField("2022") == Some(2022) && MonthField("2") == Some(2) && DayField("30") == Some(30);
    ValidateDateSpelling("2022", "2", "30");
    assert "2022" + "-" + "2" + "-" + "30" == "2022-2-30";
  }

  /** Only valid dates are produced, and every valid date is produced from its canonical spelling. */
  lemma ValidateDateRange(d: Date)
    ensures IsValidDate(d) <==> exists s :: ValidateDate(s) == Ok(d)
  {
    if IsValidDate(d) {
      FormatThenValidate(d);
    }
  }

  /** The date the unit tests parse. */
  lemma ValidateDateExample()
    ensures ValidateDate("2020-10-10") == Ok(Date(2020, 10, 10))
  {
    assert "2020-10-10"[5..] == "10-10";
    assert IndexOfDash("10-10") == Some(2);
  }

  /** A month outside 1..12 is a format error. */
  lemma ValidateDateRejectsMonth()
    ensures ValidateDate("2020-20-10") == Err(DateFormatError)
  {
    assert "2020-20-10"[5..] == "20-10";
    assert IndexOfDash("20-10") == Some(2);
  }

  /** Month and day may be written with one digit. */
  lemma ValidateDateOneDigitFields()
    ensures ValidateDate("2022-9-9") == Ok(Date(2022, 9, 9))
  {
    assert "2022-9-9"[5..] == "9-9";
    assert IndexOfDash("9-9") == Some(1);
  }

  /** A day that the month does not have is a format error. */
  lemma ValidateDateRejectsMissingDay()
    ensures ValidateDate("2021-02-29") == Err(DateFormatError)
  {
    assert "2021-02-29"[5..] == "02-29";
    assert IndexOfDash("02-29") == Some(2);
  }

  /** The day may be a space followed by one digit. */
  lemma ValidateDateSpacePaddedDay()
    ensures ValidateDate("2020-10- 5") == Ok(Date(2020, 10, 5))
  {
    assert "2020-10- 5"[5..] == "10- 5";
    assert IndexOfDash("10- 5") == Some(2);
  }

  /** Year 0 matches the pattern but is not a date. */
  lemma ValidateDateRejectsYearZero()
    ensures ValidateDate("0000-01-01") == Err(DateFormatError)
  {
    assert "0000-01-01"[5..] == "01-01";
    assert IndexOfDash("01-01") == Some(2);
  }

  // ---------------------------------------------------------------------
  // The argument validators
  // ---------------------------------------------------------------------

  /** validate_and_get_end_date: a date after an 11-character prefix. */
  function ValidateAndGetEndDate(text: string): (r: Result<Date>)
    ensures |text| <= |EndDatePrefix| <==> r == Err(NoEndDateError)
    ensures |text| > |EndDatePrefix| ==> r == ValidateDate(text[|EndDatePrefix|..])
    ensures r.Ok? ==> IsValidDate(r.value)
  {
    if |text| <= |PassedParams[3]| then Err(NoEndDateError)
    else ValidateDate(text[|PassedParams[3]|..])
  }

  /** validate_and_get_start_date: a date after a 13-character prefix. */
  function ValidateAndGetStartDate(text: string): (r: Result<Date>)
    ensures |text| <= |StartDatePrefix| <==> r == Err(NoStartDateError)
    ensures |text| > |StartDatePrefix| ==> r == ValidateDate(text[|StartDatePrefix|..])
    ensures r.Ok? ==> IsValidDate(r.value)
  {
    if |text| <= |PassedParams[2]| then Err(NoStartDateError)
    else ValidateDate(text[|PassedParams[2]|..])
  }

  /** validate_and_get_currency: exactly three characters after an 11-character prefix. */
  function ValidateAndGetCurrency(text: string): (r: Result<string>)
    ensures r.Ok? <==> |text| == |CurrencyPrefix| + CurrencyCodeLength
    ensures r.Err? ==> r.msg == CurrencyLengthError
    ensures r.Ok? ==> |r.value| == CurrencyCodeLength && text == text[..|CurrencyPrefix|] + r.value
  {
    if |text| != |PassedParams[1]| + CurrencyCodeLength then Err(CurrencyLengthError)
    else Ok(text[|PassedParams[1]|..])
  }

  /** validate_and_get_symbol: 1..100 characters after a 9-character prefix. */
  function ValidateAndGetSymbol(text: string): (r: Result<string>)
    ensures |text| <= |SymbolPrefix| <==> r == Err(NoSymbolError)
    ensures |text| > |SymbolPrefix| + SymbolMaxLength <==> r == Err(SymbolLengthError)
    ensures r.Ok? <==> |SymbolPrefix| < |text| <= |SymbolPrefix| + SymbolMaxLength
    ensures r.Ok? ==> 1 <= |r.value| <= SymbolMaxLength && text == text[..|SymbolPrefix|] + r.value
  {
    if |text| <= |PassedParams[0]| then Err(NoSymbolError)
    else if |text| > |PassedParams[0]| + SymbolMaxLength then Err(SymbolLengthError)
    else Ok(text[|PassedParams[0]|..])
  }

  /** Any nine characters are taken as the symbol prefix: the value after them comes back unchanged. */
  lemma SymbolIgnoresPrefixText(prefix: string, value: string)
    requires |prefix| == |SymbolPrefix| && 1 <= |value| <= SymbolMaxLength
    ensures ValidateAndGetSymbol(prefix + value) == Ok(value)
  {
    assert (prefix + value)[|prefix|..] == value;
  }

  lemma CurrencyIgnoresPrefixText(prefix: string, code: string)
    requires |prefix| == |CurrencyPrefix| && |code| == CurrencyCodeLength
    ensures ValidateAndGetCurrency(prefix + code) == Ok(code)
  {
    assert (prefix + code)[|prefix|..] == code;
  }

  /** A start-date argument written with any 13-character prefix and a canonical date yields that date. */
  lemma StartDateRoundTrip(prefix: string, d: Date)
    requires |prefix| == |StartDatePrefix| && IsValidDate(d)
    ensures ValidateAndGetStartDate(prefix + FormatDate(d)) == Ok(d)
  {
    assert (prefix + FormatDate(d))[|prefix|..] == FormatDate(d);
    FormatThenValidate(d);
  }

  lemma EndDateRoundTrip(prefix: string, d: Date)
    requires |prefix| == |EndDatePrefix| && IsValidDate(d)
    ensures ValidateAndGetEndDate(prefix + FormatDate(d)) == Ok(d)
  {
    assert (prefix + FormatDate(d))[|prefix|..] == FormatDate(d);
    FormatThenValidate(d);
  }

  lemma SymbolExamples()
    ensures ValidateAndGetSymbol("--symbol=HELLO") == Ok("HELLO")
    ensures ValidateAndGetSymbol("--symbol=") == Err(NoSymbolError)
  {
    assert "--symbol=HELLO"[9..] == "HELLO";
  }

  lemma CurrencyExamples()
    ensures ValidateAndGetCurrency("--currency=HEY") == Ok("HEY")
    ensures ValidateAndGetCurrency("--currency=HI") == Err(CurrencyLengthError)
  {
    assert "--currency=HEY"[11..] == "HEY";
  }

  lemma DateArgumentExamples()
    ensures ValidateAndGetEndDate("--end-date=") == Err(NoEndDateError)
    ensures ValidateAndGetStartDate("--start-date=") == Err(NoStartDateError)
  {
  }

  lemma EndDateExample()
    ensures ValidateAndGetEndDate("--end-date=2020-10-10") == Ok(Date(2020, 10, 10))
  {
    assert "--end-date=2020-10-10"[11..] == "2020-10-10";
    ValidateDateExample();
  }

  lemma StartDateExample()
    ensures ValidateAndGetStartDate("--start-date=2020-10-10") == Ok(Date(2020, 10, 10))
  {
    assert "--start-date=2020-10-10"[13..] == "2020-10-10";
    ValidateDateExample();
  }
}
