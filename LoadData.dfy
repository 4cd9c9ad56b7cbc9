/**
 * The data-loading flow: read the four arguments, count the business days
 * requested, decide whether the cached rows answer the request, fetch
 * otherwise, and convert every row not in the requested currency.
 */
module LoadData {
  import opened Wrappers
  import opened Dates
  import opened Validations
  import opened Model
  import opened ApiHelpers

  const ArgCountError := "There are 4 mandatory input parameters: --symbol, --currency, --start-date, --end-date."
  const RangeError := "Start date can't earlier than end date."
  /** What Python raises when the conversion pass reads .currency of a None entry. */
  const NoRowError := "'NoneType' object has no attribute 'currency'"

  // ---------------------------------------------------------------------
  // Business days (numpy.busday_count with the default Monday-Friday week)
  // ---------------------------------------------------------------------

  /** The number of weekdays among the ordinals lo, lo + 1, ..., hi - 1. */
  function CountWeekdays(lo: int, hi: int): (n: nat)
    ensures n <= if lo < hi then hi - lo else 0
    decreases hi - lo
  {
    if lo >= hi then 0 else CountWeekdays(lo, hi - 1) + (if IsWeekday(hi - 1) then 1 else 0)
  }

  /** busday_count(begin, end): weekdays in [begin, end), negated when end comes first. */
  function BusdayCount(begin: int, end: int): (n: int)
    ensures begin <= end ==> 0 <= n <= end - begin
    ensures end < begin ==> end - begin <= n <= 0
  {
    if begin <= end then CountWeekdays(begin, end) else -(CountWeekdays(end, begin) as int)
  }

  /** day_range: the business-day count, plus one when the end date itself is a weekday. */
  function DayRange(start: int, end: int): (n: int)
    ensures start <= end ==> 0 <= n <= end - start + 1
    ensures end < start ==> end - start < n <= 0
  {
    var busdays := BusdayCount(start, end);
    assert end < start ==> busdays + (if IsWeekday(end) then 1 else 0) == -(CountWeekdays(end + 1, start) as int) by {
      if end < start {
        CountFront(end, start);
      }
    }
    if IsWeekday(end) then busdays + 1 else busdays
  }

  lemma {:induction false} CountFront(lo: int, hi: int)
    requires lo < hi
    ensures CountWeekdays(lo, hi) == (if IsWeekday(lo) then 1 else 0) + CountWeekdays(lo + 1, hi)
    decreases hi - lo
  {
    if lo + 1 < hi {
      CountFront(lo, hi - 1);
    }
  }

  lemma {:induction false} CountPositive(lo: int, hi: int)
    ensures CountWeekdays(lo, hi) > 0 <==> exists d :: lo <= d < hi && IsWeekday(d)
    decreases hi - lo
  {
    if lo < hi {
      CountPositive(lo, hi - 1);
      if IsWeekday(hi - 1) {
        assert lo <= hi - 1 < hi;
      }
    }
  }

  /** For a forward range, day_range is the number of weekdays from start to end inclusive. */
  lemma DayRangeForward(start: int, end: int)
    requires start <= end
    ensures DayRange(start, end) == CountWeekdays(start, end + 1)
    ensures DayRange(start, end) >= 0
  {
  }

  /**
   * For a reversed range, day_range is minus the number of weekdays strictly
   * after end and before start: the end date's own weekday is counted once
   * by busday_count and given back by the +1.
   */
  lemma DayRangeBackward(start: int, end: int)
    requires end < start
    ensures DayRange(start, end) == -(CountWeekdays(end + 1, start) as int)
  {
    CountFront(end, start);
  }

  /** The range check rejects exactly the reversed ranges that skip over a weekday. */
  lemma DayRangeNegative(start: int, end: int)
    ensures DayRange(start, end) < 0 <==> end < start && exists d :: end < d < start && IsWeekday(d)
  {
    if end < start {
      DayRangeBackward(start, end);
      CountPositive(end + 1, start);
    } else {
      DayRangeForward(start, end);
    }
  }

  /** A start date one day after the end date passes the check with a day range of zero. */
  lemma NextDayStartPasses(start: int, end: int)
    requires start == end + 1
    ensures DayRange(start, end) == 0
  {
    DayRangeBackward(start, end);
  }

  /** End on Monday 2022-09-12, start on Tuesday 2022-09-13: busday_count is -1, day_range 0. */
  lemma MondayTuesdayExample()
    ensures Ordinal(Date(2022, 9, 12)) == 738410 && Weekday(738410) == 0
    ensures BusdayCount(738411, 738410) == -1
    ensures DayRange(738411, 738410) == 0
  {
  }

  // ---------------------------------------------------------------------
  // Reading the arguments
  // ---------------------------------------------------------------------

  /** The validated request: symbol, currency, the two dates and the day range. */
  datatype Request = Request(symbol: string, currency: string, startDate: Date, endDate: Date, dayRange: int)

  /** The range check as written: only a negative day range is refused. */
  function CheckRange(start: int, end: int): (r: Result<int>)
    ensures r.Err? ==> r.msg == RangeError
    ensures r.Ok? ==> r.value == DayRange(start, end) && r.value >= 0
    ensures start <= end ==> r.Ok?
  {
    var dayRange := DayRange(start, end);
    assert start <= end ==> dayRange >= 0 by {
      if start <= end {
        DayRangeForward(start, end);
      }
    }
    if dayRange < 0 then Err(RangeError) else Ok(dayRange)
  }

  /** A start date after the end date is let through whenever no weekday lies strictly between them. */
  lemma CheckRangeAcceptsReversed(start: int, end: int)
    requires end < start
    ensures CheckRange(start, end).Ok? <==> CountWeekdays(end + 1, start) == 0
    ensures start == end + 1 ==> CheckRange(start, end) == Ok(0)
  {
    DayRangeBackward(start, end);
  }

  /** The range check as its message intends it: refuse whenever start comes after end. */
  function CheckRangeFixed(start: int, end: int): (r: Result<int>)
  {
    if end < start then Err(RangeError) else Ok(DayRange(start, end))
  }

  lemma CheckRangeFixedCorrect(start: int, end: int)
    ensures CheckRangeFixed(start, end).Ok? <==> start <= end
    ensures start <= end ==> CheckRangeFixed(start, end) == Ok(CountWeekdays(start, end + 1))
  {
    if start <= end {
      DayRangeForward(start, end);
    }
  }

  /**
   * The script's argument handling: at least five argv entries, then the four
   * validators in order (the first failure is the error), then the range check.
   */
  function ParseRequest(argv: seq<string>): (r: Result<Request>)
    ensures |argv| <= |PassedParams| ==> r == Err(ArgCountError)
    ensures r.Ok? ==>
      && |argv| > |PassedParams|
      && ValidateAndGetSymbol(argv[1]) == Ok(r.value.symbol)
      && ValidateAndGetCurrency(argv[2]) == Ok(r.value.currency)
      && ValidateAndGetStartDate(argv[3]) == Ok(r.value.startDate)
      && ValidateAndGetEndDate(argv[4]) == Ok(r.value.endDate)
      && r.value.dayRange == DayRange(Ordinal(r.value.startDate), Ordinal(r.value.endDate))
      && r.value.dayRange >= 0
    ensures |argv| > |PassedParams| && ValidateAndGetSymbol(argv[1]).Err? ==> r == Err(ValidateAndGetSymbol(argv[1]).msg)
    ensures |argv| > |PassedParams| && ValidateAndGetSymbol(argv[1]).Ok? && ValidateAndGetCurrency(argv[2]).Err? ==>
      r == Err(CurrencyLengthError)
    ensures |argv| > |PassedParams| && ValidateAndGetSymbol(argv[1]).Ok? && ValidateAndGetCurrency(argv[2]).Ok?
            && ValidateAndGetStartDate(argv[3]).Err? ==>
      r == Err(ValidateAndGetStartDate(argv[3]).msg)
    ensures |argv| > |PassedParams| && ValidateAndGetSymbol(argv[1]).Ok? && ValidateAndGetCurrency(argv[2]).Ok?
            && ValidateAndGetStartDate(argv[3]).Ok? && ValidateAndGetEndDate(argv[4]).Err? ==>
      r == Err(ValidateAndGetEndDate(argv[4]).msg)
    ensures |argv| > |PassedParams| && ValidateAndGetSymbol(argv[1]).Ok? && ValidateAndGetCurrency(argv[2]).Ok?
            && ValidateAndGetStartDate(argv[3]).Ok? && ValidateAndGetEndDate(argv[4]).Ok? ==>
      (r.Ok? <==> DayRange(Ordinal(ValidateAndGetStartDate(argv[3]).value), Ordinal(ValidateAndGetEndDate(argv[4]).value)) >= 0)
      && (r.Err? ==> r.msg == RangeError)
  {
    if |argv| <= |PassedParams| then Err(ArgCountError)
    else
      match ValidateAndGetSymbol(argv[1])
      case Err(m) => Err(m)
      case Ok(symbol) =>
        match ValidateAndGetCurrency(argv[2])
        case Err(m) => Err(m)
        case Ok(currency) =>
          match ValidateAndGetStartDate(argv[3])
          case Err(m) => Err(m)
          case Ok(startDate) =>
            match ValidateAndGetEndDate(argv[4])
            case Err(m) => Err(m)
            case Ok(endDate) =>
              match CheckRange(Ordinal(startDate), Ordinal(endDate))
              case Err(m) => Err(m)
              case Ok(dayRange) => Ok(Request(symbol, currency, startDate, endDate, dayRange))
  }

  /** Arguments whose start date is the day after their end date are accepted, with a day range of zero. */
  lemma NextDayRequestAccepted(argv: seq<string>)
    requires |argv| > |PassedParams|
    requires ValidateAndGetSymbol(argv[1]).Ok? && ValidateAndGetCurrency(argv[2]).Ok?
    requires ValidateAndGetStartDate(argv[3]).Ok? && ValidateAndGetEndDate(argv[4]).Ok?
    requires Ordinal(ValidateAndGetStartDate(argv[3]).value) == Ordinal(ValidateAndGetEndDate(argv[4]).value) + 1
    ensures ParseRequest(argv).Ok? && ParseRequest(argv).value.dayRange == 0
    ensures Before(ParseRequest(argv).value.endDate, ParseRequest(argv).value.startDate)
  {
    var s, e := ValidateAndGetStartDate(argv[3]).value, ValidateAndGetEndDate(argv[4]).value;
    NextDayStartPasses(Ordinal(s), Ordinal(e));
    OrdinalOrder(e, s);
  }

  // ---------------------------------------------------------------------
  // Queries on the cached rows
  // ---------------------------------------------------------------------

  /** base_query: the rows of the symbol dated from start to end, in table order. */
  function BaseRows(rows: seq<StockRow>, symbol: string, start: int, end: int): (r: seq<StockRow>)
    ensures |r| <= |rows|
    ensures forall k :: 0 <= k < |r| ==> r[k].symbol == symbol && start <= r[k].date <= end
  {
    if rows == [] then []
    else
      var rest := BaseRows(rows[1..], symbol, start, end);
      if rows[0].symbol == symbol && start <= rows[0].date <= end then [rows[0]] + rest else rest
  }

  /** .filter(Stock.currency == currency), in order. */
  function WithCurrency(rows: seq<StockRow>, currency: string): (r: seq<StockRow>)
    ensures |r| <= |rows|
    ensures forall k :: 0 <= k < |r| ==> r[k].currency == currency
  {
    if rows == [] then []
    else
      var rest := WithCurrency(rows[1..], currency);
      if rows[0].currency == currency then [rows[0]] + rest else rest
  }

  /** .filter(Stock.date == date), in order. */
  function OnDate(rows: seq<StockRow>, date: int): (r: seq<StockRow>)
    ensures |r| <= |rows|
    ensures forall k :: 0 <= k < |r| ==> r[k].date == date
  {
    if rows == [] then []
    else
      var rest := OnDate(rows[1..], date);
      if rows[0].date == date then [rows[0]] + rest else rest
  }

  /** base_query keeps exactly the rows of the symbol dated from start to end. */
  lemma {:induction false} BaseRowsMembers(rows: seq<StockRow>, symbol: string, start: int, end: int)
    ensures forall x :: x in BaseRows(rows, symbol, start, end) <==> x in rows && x.symbol == symbol && start <= x.date <= end
    decreases |rows|
  {
    if rows != [] {
      BaseRowsMembers(rows[1..], symbol, start, end);
      assert forall x :: x in rows <==> x == rows[0] || x in rows[1..];
    }
  }

  /** The currency filter keeps exactly the rows in that currency. */
  lemma {:induction false} WithCurrencyMembers(rows: seq<StockRow>, currency: string)
    ensures forall x :: x in WithCurrency(rows, currency) <==> x in rows && x.currency == currency
    decreases |rows|
  {
    if rows != [] {
      WithCurrencyMembers(rows[1..], currency);
      assert forall x :: x in rows <==> x == rows[0] || x in rows[1..];
    }
  }

  /** The date filter keeps exactly the rows of that date. */
  lemma {:induction false} OnDateMembers(rows: seq<StockRow>, date: int)
    ensures forall x :: x in OnDate(rows, date) <==> x in rows && x.date == date
    decreases |rows|
  {
    if rows != [] {
      OnDateMembers(rows[1..], date);
      assert forall x :: x in rows <==> x == rows[0] || x in rows[1..];
    }
  }

  /** base_query keeps order and multiplicity: a row appended to the table is appended to the query's result when it matches. */
  lemma {:induction false} BaseRowsSnoc(rows: seq<StockRow>, x: StockRow, symbol: string, start: int, end: int)
    ensures BaseRows(rows + [x], symbol, start, end)
         == BaseRows(rows, symbol, start, end) + (if x.symbol == symbol && start <= x.date <= end then [x] else [])
    decreases |rows|
  {
    if rows != [] {
      assert (rows + [x])[0] == rows[0] && (rows + [x])[1..] == rows[1..] + [x];
      BaseRowsSnoc(rows[1..], x, symbol, start, end);
    } else {
      assert [x][1..] == [];
    }
  }

  /** The currency filter keeps order and multiplicity. */
  lemma {:induction false} WithCurrencySnoc(rows: seq<StockRow>, x: StockRow, currency: string)
    ensures WithCurrency(rows + [x], currency) == WithCurrency(rows, currency) + (if x.currency == currency then [x] else [])
    decreases |rows|
  {
    if rows != [] {
      assert (rows + [x])[0] == rows[0] && (rows + [x])[1..] == rows[1..] + [x];
      WithCurrencySnoc(rows[1..], x, currency);
    } else {
      assert [x][1..] == [];
    }
  }

  /** The date filter keeps order and multiplicity. */
  lemma {:induction false} OnDateSnoc(rows: seq<StockRow>, x: StockRow, date: int)
    ensures OnDate(rows + [x], date) == OnDate(rows, date) + (if x.date == date then [x] else [])
    decreases |rows|
  {
    if rows != [] {
      assert (rows + [x])[0] == rows[0] && (rows + [x])[1..] == rows[1..] + [x];
      OnDateSnoc(rows[1..], x, date);
    } else {
      assert [x][1..] == [];
    }
  }

  /** The groups of group_by(date): each date of the rows once, in order of first appearance. */
  function DistinctDates(rows: seq<StockRow>): (ds: seq<int>)
    ensures forall d :: d in ds <==> exists x :: x in rows && x.date == d
    ensures forall i, j :: 0 <= i < j < |ds| ==> ds[i] != ds[j]
  {
    if rows == [] then []
    else
      var ds := DistinctDates(rows[..|rows| - 1]);
      var last := rows[|rows| - 1];
      assert forall x :: x in rows <==> x == last || x in rows[..|rows| - 1];
      if last.date in ds then ds else ds + [last.date]
  }

  function Somes(rows: seq<StockRow>): (r: seq<Option<StockRow>>)
    ensures |r| == |rows| && forall k :: 0 <= k < |rows| ==> r[k] == Some(rows[k])
  {
    seq(|rows|, k requires 0 <= k < |rows| => Some(rows[k]))
  }

  // ---------------------------------------------------------------------
  // The three-way choice
  // ---------------------------------------------------------------------

  /**
   * The entry the loop appends for date d, as written: when that date has a
   * row in the requested currency, the first such row of the whole range,
   * otherwise the first row of the date.
   */
  predicate IsPerDateEntry(base: seq<StockRow>, currency: string, d: int, x: StockRow) {
    && x in base
    && (WithCurrency(OnDate(base, d), currency) != [] ==>
          WithCurrency(base, currency) != [] && x == WithCurrency(base, currency)[0])
    && (WithCurrency(OnDate(base, d), currency) == [] ==>
          OnDate(base, d) != [] && x == OnDate(base, d)[0])
  }

  /** The list built from the groups: one entry per cached date, in the order of the groups. */
  ghost predicate IsPerDateSelection(base: seq<StockRow>, currency: string, stocks: seq<StockRow>) {
    var dates := DistinctDates(base);
    && |stocks| == |dates|
    && forall k :: 0 <= k < |stocks| ==> IsPerDateEntry(base, currency, dates[k], stocks[k])
  }

  /** The per-date fallback: walk the grouped dates and append one row for each. */
  method SelectPerDate(base: seq<StockRow>, currency: string) returns (stocks: seq<StockRow>)
    ensures IsPerDateSelection(base, currency, stocks)
  {
    var dates := DistinctDates(base);
    stocks := [];
    var i := 0;
    while i < |dates|
      invariant 0 <= i <= |dates| && |stocks| == i
      invariant forall k :: 0 <= k < i ==> IsPerDateEntry(base, currency, dates[k], stocks[k])
    {
      var stock := OnDate(base, dates[i]);
      var inCurrency := WithCurrency(stock, currency);
      if |inCurrency| > 0 {
        // base_query, not stock, is filtered here: the first such row of the whole range
        CurrencyEntry(base, currency, dates[i]);
        stocks := stocks + [WithCurrency(base, currency)[0]];
      } else {
        assert dates[i] in dates;
        OwnDateEntry(base, currency, dates[i]);
        stocks := stocks + [stock[0]];
      }
      i := i + 1;
    }
  }

  /** A date with a row in the currency gets the range's first row in that currency. */
  lemma CurrencyEntry(base: seq<StockRow>, currency: string, d: int)
    requires WithCurrency(OnDate(base, d), currency) != []
    ensures WithCurrency(base, currency) != []
    ensures IsPerDateEntry(base, currency, d, WithCurrency(base, currency)[0])
  {
    var inCurrency := WithCurrency(OnDate(base, d), currency);
    WithCurrencyMembers(OnDate(base, d), currency);
    OnDateMembers(base, d);
    WithCurrencyMembers(base, currency);
    assert inCurrency[0] in inCurrency;
    assert inCurrency[0] in WithCurrency(base, currency);
    var all := WithCurrency(base, currency);
    assert all[0] in all;
  }

  /** A date without a row in the currency gets its own first row. */
  lemma OwnDateEntry(base: seq<StockRow>, currency: string, d: int)
    requires d in DistinctDates(base) && WithCurrency(OnDate(base, d), currency) == []
    ensures OnDate(base, d) != []
    ensures IsPerDateEntry(base, currency, d, OnDate(base, d)[0])
  {
    DateHasRow(base, d);
    OnDateMembers(base, d);
    var onDate := OnDate(base, d);
    assert onDate[0] in onDate;
  }

  lemma DateHasRow(base: seq<StockRow>, d: int)
    requires d in DistinctDates(base)
    ensures OnDate(base, d) != []
  {
    var x :| x in base && x.date == d;
    OnDateMembers(base, d);
    assert x in OnDate(base, d);
  }

  /**
   * Three cached dates, the first two in EUR: the entry for the second date
   * is the first date's EUR row, so that date's own row never appears.
   */
  lemma PerDateSelectionRepeatsFirstRow(d: int, stocks: seq<StockRow>)
    requires IsPerDateSelection(PerDateExampleRows(d), "EUR", stocks)
    ensures |stocks| == 3
    ensures stocks[0] == stocks[1] == PerDateExampleRows(d)[0]
    ensures stocks[1].date != d + 1
  {
    var base := PerDateExampleRows(d);
    ExampleDates(d);
    ExampleFilters(d);
    var dates := DistinctDates(base);
    assert WithCurrency(OnDate(base, dates[0]), "EUR") != [];
    assert WithCurrency(OnDate(base, dates[1]), "EUR") != [];
  }

  lemma ExampleDates(d: int)
    ensures DistinctDates(PerDateExampleRows(d)) == [d, d + 1, d + 2]
  {
    var base := PerDateExampleRows(d);
    var one, two := [base[0]], [base[0], base[1]];
    assert one[..0] == [] && two[..1] == one && base[..2] == two;
    assert DistinctDates(one) == [d];
    assert DistinctDates(two) == [d, d + 1];
  }

  lemma ExampleFilters(d: int)
    ensures WithCurrency(PerDateExampleRows(d), "EUR") != []
    ensures WithCurrency(PerDateExampleRows(d), "EUR")[0] == PerDateExampleRows(d)[0]
    ensures WithCurrency(OnDate(PerDateExampleRows(d), d), "EUR") != []
    ensures WithCurrency(OnDate(PerDateExampleRows(d), d + 1), "EUR") != []
  {
    var base := PerDateExampleRows(d);
    OnDateMembers(base, d);
    OnDateMembers(base, d + 1);
    WithCurrencyMembers(OnDate(base, d), "EUR");
    WithCurrencyMembers(OnDate(base, d + 1), "EUR");
    assert base[0] in OnDate(base, d);
    assert base[0] in WithCurrency(OnDate(base, d), "EUR");
    assert base[1] in OnDate(base, d + 1);
    assert base[1] in WithCurrency(OnDate(base, d + 1), "EUR");
  }

  /** Rows for days d, d + 1 (both in EUR) and d + 2 (in USD), symbol "Sym". */
  function PerDateExampleRows(d: int): (rows: seq<StockRow>)
    ensures |rows| == 3
  {
    [StockRow(1, d, "Sym", "EUR", "10"), StockRow(2, d + 1, "Sym", "EUR", "11"), StockRow(3, d + 2, "Sym", "USD", "12")]
  }

  /** The entry the per-date list should hold for date d: its row in the requested currency, else its first row. */
  function EntryFor(base: seq<StockRow>, currency: string, d: int): (x: StockRow)
    requires d in DistinctDates(base)
    ensures x in base && x.date == d
    ensures WithCurrency(OnDate(base, d), currency) != [] <==> x.currency == currency
  {
    DateHasRow(base, d);
    OnDateMembers(base, d);
    var onDate := OnDate(base, d);
    var inCurrency := WithCurrency(onDate, currency);
    WithCurrencyMembers(onDate, currency);
    assert onDate[0] in onDate;
    if inCurrency != [] then (assert inCurrency[0] in inCurrency; inCurrency[0]) else onDate[0]
  }

  /** The per-date list as intended: one entry per cached date, each from its own date. */
  function PerDateFixed(base: seq<StockRow>, currency: string): (stocks: seq<StockRow>)
    ensures |stocks| == |DistinctDates(base)|
    ensures forall k :: 0 <= k < |stocks| ==> stocks[k] in base && stocks[k].date == DistinctDates(base)[k]
    ensures forall k :: 0 <= k < |stocks| ==>
              (WithCurrency(OnDate(base, DistinctDates(base)[k]), currency) != [] <==> stocks[k].currency == currency)
  {
    var dates := DistinctDates(base);
    seq(|dates|, k requires 0 <= k < |dates| => assert dates[k] in dates; EntryFor(base, currency, dates[k]))
  }

  /** Where the rows come from: the cache, or the remote endpoint. */
  datatype Selection = Cached(rows: seq<StockRow>) | FetchRemote

  /** The three-way choice over the rows of the requested range: cached rows, a fetch, or one row per date. */
  method ChooseSource(base: seq<StockRow>, currency: string, dayRange: int) returns (s: Selection)
    ensures |WithCurrency(base, currency)| == dayRange ==> s == Cached(WithCurrency(base, currency))
    ensures |WithCurrency(base, currency)| != dayRange && |DistinctDates(base)| != dayRange ==> s == FetchRemote
    ensures |WithCurrency(base, currency)| != dayRange && |DistinctDates(base)| == dayRange ==>
              s.Cached? && IsPerDateSelection(base, currency, s.rows)
  {
    var inCurrency := WithCurrency(base, currency);
    if |inCurrency| == dayRange {
      s := Cached(inCurrency);
    } else if |DistinctDates(base)| != dayRange {
      s := FetchRemote;
    } else {
      var stocks := SelectPerDate(base, currency);
      s := Cached(stocks);
    }
  }

  // ---------------------------------------------------------------------
  // The conversion pass
  // ---------------------------------------------------------------------

  /** A replacement made by the conversion pass: none, or a row for the same date and symbol in the target currency. */
  predicate IsConversionOf(o: Option<StockRow>, s: StockRow, currency: string) {
    o.Some? ==> o.value.date == s.date && o.value.symbol == s.symbol && o.value.currency == currency
  }

  /** The table and the answer after the loop body has looked at one entry. */
  datatype EntryOutcome = EntryOutcome(rows: seq<StockRow>, nextId: int, result: Result<Option<StockRow>>)

  /**
   * The loop body for one entry: None raises; an entry in the requested
   * currency stays; any other is replaced by get_currency's answer for it.
   */
  function ConvertEntryOutcome(rows: seq<StockRow>, nextId: int, api: ConvertApi, entry: Option<StockRow>,
                               currency: string): (o: EntryOutcome)
    ensures rows <= o.rows
    ensures o.result.Err? <==>
              entry.None? || (entry.value.currency != currency &&
              api(entry.value.currency, currency, entry.value.closePrice, entry.value.date).statusCode != SuccessStatus)
    ensures o.result.Err? ==> o.result.msg == (if entry.None? then NoRowError else ApiError)
    ensures o.result.Ok? ==>
              if entry.value.currency == currency then o == EntryOutcome(rows, nextId, Ok(entry))
              else IsConversionOf(o.result.value, entry.value, currency)
    ensures o.result.Err? ==> o.rows == rows && o.nextId == nextId
  {
    match entry
    case None => EntryOutcome(rows, nextId, Err(NoRowError))
    case Some(s) =>
      if s.currency == currency then EntryOutcome(rows, nextId, Ok(entry))
      else
        var resp := api(s.currency, currency, s.closePrice, s.date);
        if resp.statusCode != SuccessStatus then EntryOutcome(rows, nextId, Err(ApiError))
        else
          var o := InsertStock(rows, nextId, StockParams(s.date, s.symbol, Some(currency), resp.body));
          EntryOutcome(o.rows, o.nextId, Ok(o.result))
  }

  /** The table and the list when the conversion pass ends. */
  datatype ConvertOutcome = ConvertOutcome(rows: seq<StockRow>, nextId: int, result: Result<seq<Option<StockRow>>>)

  /**
   * The conversion loop from index i on, with the table at (rows, nextId) and the
   * list at out: each entry is replaced, at its index, by the loop body's
   * answer for it, until the list is done or an entry raises; on an error
   * the rows created before it stay in the table.
   */
  function ConvertFrom(rows: seq<StockRow>, nextId: int, api: ConvertApi, out: seq<Option<StockRow>>,
                       currency: string, i: nat): (o: ConvertOutcome)
    requires i <= |out|
    ensures rows <= o.rows
    ensures o.result.Err? ==> o.result.msg == NoRowError || o.result.msg == ApiError
    ensures o.result.Ok? ==> |o.result.value| == |out|
    decreases |out| - i
  {
    if i == |out| then ConvertOutcome(rows, nextId, Ok(out))
    else
      var e := ConvertEntryOutcome(rows, nextId, api, out[i], currency);
      match e.result
      case Err(msg) => ConvertOutcome(e.rows, e.nextId, Err(msg))
      case Ok(x) => ConvertFrom(e.rows, e.nextId, api, out[i := x], currency, i + 1)
  }

  /**
   * A pass that succeeds met no None entry; it kept the entries in the
   * requested currency and replaced each other one by a conversion of it.
   */
  lemma {:induction false} ConvertFromShape(rows: seq<StockRow>, nextId: int, api: ConvertApi,
                                            out: seq<Option<StockRow>>, currency: string, i: nat)
    requires i <= |out|
    ensures var o := ConvertFrom(rows, nextId, api, out, currency, i);
      o.result.Ok? ==>
        && (forall k :: 0 <= k < i ==> o.result.value[k] == out[k])
        && forall k :: i <= k < |out| ==>
             && out[k].Some?
             && (out[k].value.currency == currency ==> o.result.value[k] == out[k])
             && (out[k].value.currency != currency ==> IsConversionOf(o.result.value[k], out[k].value, currency))
    decreases |out| - i
  {
    if i < |out| {
      var e := ConvertEntryOutcome(rows, nextId, api, out[i], currency);
      if e.result.Ok? {
        var next := out[i := e.result.value];
        ConvertFromShape(e.rows, e.nextId, api, next, currency, i + 1);
        var o := ConvertFrom(e.rows, e.nextId, api, next, currency, i + 1);
        assert ConvertFrom(rows, nextId, api, out, currency, i) == o;
        if o.result.Ok? {
          assert o.result.value[i] == e.result.value;
          forall k | i < k < |out| ensures next[k] == out[k] { }
        }
      }
    }
  }

  /** When every entry from i on is already in the requested currency, the pass changes neither the list nor the table. */
  lemma {:induction false} ConvertAllInCurrency(rows: seq<StockRow>, nextId: int, api: ConvertApi,
                                                out: seq<Option<StockRow>>, currency: string, i: nat)
    requires i <= |out|
    requires forall k :: i <= k < |out| ==> out[k].Some? && out[k].value.currency == currency
    ensures ConvertFrom(rows, nextId, api, out, currency, i) == ConvertOutcome(rows, nextId, Ok(out))
    decreases |out| - i
  {
    if i < |out| {
      assert out[i := out[i]] == out;
      ConvertAllInCurrency(rows, nextId, api, out, currency, i + 1);
    }
  }

  /** Entry k stops a pass begun at i: the entries from i up to k are present, and k is None or its conversion is refused. */
  predicate StopsAt(api: ConvertApi, out: seq<Option<StockRow>>, currency: string, i: int, k: int)
    requires 0 <= i <= k < |out|
  {
    && (forall j :: i <= j < k ==> out[j].Some?)
    && (|| out[k].None?
        || (&& out[k].value.currency != currency
            && api(out[k].value.currency, currency, out[k].value.closePrice, out[k].value.date).statusCode
               != SuccessStatus))
  }

  /** The pass fails exactly when one of its entries stops it. */
  lemma {:induction false} ConvertErrorCause(rows: seq<StockRow>, nextId: int, api: ConvertApi,
                                             out: seq<Option<StockRow>>, currency: string, i: nat)
    requires i <= |out|
    ensures ConvertFrom(rows, nextId, api, out, currency, i).result.Err? <==>
              exists k :: i <= k < |out| && StopsAt(api, out, currency, i, k)
    decreases |out| - i
  {
    if i < |out| {
      var e := ConvertEntryOutcome(rows, nextId, api, out[i], currency);
      if e.result.Ok? {
        var next := out[i := e.result.value];
        ConvertErrorCause(e.rows, e.nextId, api, next, currency, i + 1);
        assert !StopsAt(api, out, currency, i, i);
        forall k | i + 1 <= k < |out| ensures StopsAt(api, next, currency, i + 1, k) <==> StopsAt(api, out, currency, i, k) {
          assert next[k] == out[k];
          assert forall j :: i + 1 <= j < k ==> next[j] == out[j];
        }
        if ConvertFrom(rows, nextId, api, out, currency, i).result.Err? {
          var k :| i + 1 <= k < |out| && StopsAt(api, next, currency, i + 1, k);
          assert StopsAt(api, out, currency, i, k);
        }
      } else {
        assert StopsAt(api, out, currency, i, i);
      }
    }
  }

  /** The pass keeps the uniqueness constraint and the primary-key invariant, on success and on failure. */
  lemma {:induction false} ConvertKeepsInvariant(rows: seq<StockRow>, nextId: int, api: ConvertApi,
                                                 out: seq<Option<StockRow>>, currency: string, i: nat)
    requires i <= |out| && StockInvariant(rows, nextId)
    ensures var o := ConvertFrom(rows, nextId, api, out, currency, i); StockInvariant(o.rows, o.nextId)
    decreases |out| - i
  {
    if i < |out| {
      var e := ConvertEntryOutcome(rows, nextId, api, out[i], currency);
      if out[i].Some? {
        var s := out[i].value;
        InsertKeepsInvariant(rows, nextId,
                             StockParams(s.date, s.symbol, Some(currency), api(s.currency, currency, s.closePrice, s.date).body));
      }
      if e.result.Ok? {
        ConvertKeepsInvariant(e.rows, e.nextId, api, out[i := e.result.value], currency, i + 1);
      }
    }
  }

  /** After a whole pass that succeeds, every entry that is present is in the requested currency. */
  lemma ConvertedInCurrency(rows: seq<StockRow>, nextId: int, api: ConvertApi,
                            stocks: seq<Option<StockRow>>, currency: string)
    ensures var o := ConvertFrom(rows, nextId, api, stocks, currency, 0);
      o.result.Ok? ==> forall k :: 0 <= k < |stocks| && o.result.value[k].Some? ==> o.result.value[k].value.currency == currency
  {
    ConvertFromShape(rows, nextId, api, stocks, currency, 0);
  }

  /** The conversion loop's body for one entry, against the session. */
  method ConvertEntry(db: Database, api: ConvertApi, entry: Option<StockRow>, currency: string)
    returns (r: Result<Option<StockRow>>)
    requires db.Valid()
    modifies db
    ensures db.Valid() && db.currencies == old(db.currencies)
    ensures EntryOutcome(db.stocks, db.nextId, r) == ConvertEntryOutcome(old(db.stocks), old(db.nextId), api, entry, currency)
  {
    match entry {
      case None =>
        return Err(NoRowError);
      case Some(stock) =>
        if stock.currency != currency {
          r := GetCurrency(db, api, stock.currency, currency, stock.closePrice, stock.date, stock.symbol);
        } else {
          r := Ok(entry);
        }
    }
  }

  /**
   * The conversion loop: every entry not in the requested currency is replaced, at
   * its index, by get_currency's row for it; a None entry raises.
   */
  method ConvertCurrencies(db: Database, api: ConvertApi, stocks: seq<Option<StockRow>>, currency: string)
    returns (r: Result<seq<Option<StockRow>>>)
    requires db.Valid()
    modifies db
    ensures db.Valid() && db.currencies == old(db.currencies)
    ensures ConvertOutcome(db.stocks, db.nextId, r) == ConvertFrom(old(db.stocks), old(db.nextId), api, stocks, currency, 0)
  {
    var out := stocks;
    var i := 0;
    while i < |out|
      invariant 0 <= i <= |out|
      invariant db.Valid() && db.currencies == old(db.currencies)
      invariant ConvertFrom(db.stocks, db.nextId, api, out, currency, i)
                == ConvertFrom(old(db.stocks), old(db.nextId), api, stocks, currency, 0)
    {
      var entry := ConvertEntry(db, api, out[i], currency);
      if entry.Err? {
        return Err(entry.msg);
      }
      out := out[i := entry.value];
      i := i + 1;
    }
    r := Ok(out);
  }

  // ---------------------------------------------------------------------
  // The whole flow
  // ---------------------------------------------------------------------

  /**
   * What the script does for a validated request q, from the table (rows0,
   * nextId0) to the table (rows1, nextId1) and the answer r, path by path:
   * the cached rows in the currency when they cover the day range; else the
   * conversion of the fetched rows when the cache does not cover every
   * date; else the conversion of the per-date list.
   */
  ghost predicate Served(rows0: seq<StockRow>, nextId0: int, rows1: seq<StockRow>, nextId1: int, q: Request,
                         market: MarketApi, convert: ConvertApi, r: Result<seq<Option<StockRow>>>)
    requires IsValidDate(q.startDate) && IsValidDate(q.endDate)
  {
    var start, end := Ordinal(q.startDate), Ordinal(q.endDate);
    var base := BaseRows(rows0, q.symbol, start, end);
    var inCurrency := WithCurrency(base, q.currency);
    var resp := market(q.symbol, start, end);
    && (|inCurrency| == q.dayRange ==>
          r == Ok(Somes(inCurrency)) && rows1 == rows0 && nextId1 == nextId0)
    && (|inCurrency| != q.dayRange && |DistinctDates(base)| == q.dayRange ==>
          exists sel :: IsPerDateSelection(base, q.currency, sel)
                        && ConvertOutcome(rows1, nextId1, r) == ConvertFrom(rows0, nextId0, convert, Somes(sel), q.currency, 0))
    && (|inCurrency| != q.dayRange && |DistinctDates(base)| != q.dayRange ==>
          && (resp.statusCode != SuccessStatus ==> r == Err(ApiError) && rows1 == rows0 && nextId1 == nextId0)
          && (resp.statusCode == SuccessStatus && AllItemsParse(resp.body) ==>
                var fetched := InsertAll(rows0, nextId0, ParamsOf(Reversed(resp.body)));
                ConvertOutcome(rows1, nextId1, r) == ConvertFrom(fetched.rows, fetched.nextId, convert, fetched.results, q.currency, 0))
          && (resp.statusCode == SuccessStatus && !AllItemsParse(resp.body) ==>
                && r == Err(DateFormatError)
                && exists j :: 0 <= j < |resp.body| && StoppedAt(rows0, nextId0, Reversed(resp.body), j, rows1, nextId1)))
  }

  /** The script's work for a validated request: choose the source, then convert. */
  method ServeRequest(db: Database, q: Request, market: MarketApi, convert: ConvertApi)
    returns (r: Result<seq<Option<StockRow>>>)
    requires db.Valid() && IsValidDate(q.startDate) && IsValidDate(q.endDate)
    modifies db
    ensures db.Valid() && db.currencies == old(db.currencies) && old(db.stocks) <= db.stocks
    ensures Served(old(db.stocks), old(db.nextId), db.stocks, db.nextId, q, market, convert, r)
    ensures r.Ok? ==> forall k :: 0 <= k < |r.value| && r.value[k].Some? ==> r.value[k].value.currency == q.currency
  {
    var start, end := Ordinal(q.startDate), Ordinal(q.endDate);
    var base := BaseRows(db.stocks, q.symbol, start, end);
    var source := ChooseSource(base, q.currency, q.dayRange);
    var stocks: seq<Option<StockRow>>;
    ghost var rows0, nextId0 := db.stocks, db.nextId;
    match source {
      case Cached(rows) =>
        stocks := Somes(rows);
      case FetchRemote =>
        var fetched := GetMarketStocks(db, market, q.symbol, start, end);
        if fetched.Err? {
          return Err(fetched.msg);
        }
        stocks := fetched.value;
    }
    ghost var rows1, nextId1 := db.stocks, db.nextId;
    r := ConvertCurrencies(db, convert, stocks, q.currency);
    ConvertKeepsInvariant(rows1, nextId1, convert, stocks, q.currency, 0);
    ConvertedInCurrency(rows1, nextId1, convert, stocks, q.currency);
    if |WithCurrency(base, q.currency)| == q.dayRange {
      ConvertAllInCurrency(rows1, nextId1, convert, stocks, q.currency, 0);
    } else if |DistinctDates(base)| == q.dayRange {
      assert IsPerDateSelection(base, q.currency, source.rows);
    }
  }

  /** The script's main block, from the argument check to the converted list handed to the printer. */
  method LoadStocks(db: Database, argv: seq<string>, market: MarketApi, convert: ConvertApi)
    returns (r: Result<seq<Option<StockRow>>>)
    requires db.Valid()
    modifies db
    ensures db.Valid() && db.currencies == old(db.currencies) && old(db.stocks) <= db.stocks
    ensures ParseRequest(argv).Err? ==>
              r == Err(ParseRequest(argv).msg) && db.stocks == old(db.stocks) && db.nextId == old(db.nextId)
    ensures ParseRequest(argv).Ok? ==>
              && Served(old(db.stocks), old(db.nextId), db.stocks, db.nextId, ParseRequest(argv).value, market, convert, r)
              && (r.Ok? ==> forall k :: 0 <= k < |r.value| && r.value[k].Some? ==>
                              r.value[k].value.currency == ParseRequest(argv).value.currency)
  {
    var parsed := ParseRequest(argv);
    if parsed.Err? {
      return Err(parsed.msg);
    }
    r := ServeRequest(db, parsed.value, market, convert);
  }
}
