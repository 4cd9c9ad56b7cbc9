# Brokerage stock loader, modelled in Dafny

The modelled program is a command-line loader for end-of-day stock prices. It takes four
arguments (`--symbol=`, `--currency=`, `--start-date=`, `--end-date=`) and validates each one.
It then counts the business days between the two dates. If the local `stocks` table already holds
enough rows for the request, it answers from them. Otherwise it fetches prices from a market-data
endpoint. Finally it converts every row that is not in the requested currency through an
exchange-rate endpoint. Each row is stored with a get-or-create operation that relies on a
(date, symbol, currency) uniqueness constraint.

The project is split into six modules:

- `Wrappers`: `Option` and `Result`. A Python exception becomes an `Err` that carries its message.
- `Dates`: calendar dates. It defines validity for years 1..9999 and the proleptic Gregorian
  ordinal (`date.toordinal()`). It also gives the weekday (`(ordinal + 6) % 7`, with Monday as 0)
  and proves that the ordinal preserves the order of dates.
- `Validations`: the four argument validators, plus `validate_date` with the default `%Y-%m-%d`
  format. Field syntax (four-digit year, one- or two-digit month, one- or two-digit or
  space-padded day, whole string consumed) follows CPython's `_strptime` patterns.
- `Model`: the `stocks` and `currencies` tables as row sequences, together with get-or-create
  (`create_instance`). The session holding both tables is the class `Database`. Its fields are the
  two row sequences and the next primary key. Each method states its new state as a function of
  the old state.
- `ApiHelpers`: response validation, `get_market_stocks` and `get_currency`. The HTTP requests
  are function parameters that map the request arguments to a status code and a decoded body.
- `LoadData`: the script's main block. It covers `numpy.busday_count`, the argument and range
  checks, the cached-row queries, the three-way choice between cache and fetch, the conversion
  pass, and the whole flow (`LoadStocks`).

Dates are stored in the table as ordinals, so the range filters compare integers. The flow follows
the code as written. Where that code departs from what its tests or messages intend, a corrected
definition sits beside it (see "## Findings").

## Model

| member | source | states |
|---|---|---|
| Dates.IsValidDate | brokerage-tech-coding-challenge-master/validations.py:11 | a valid date has a day in 1..31, and 29 February only in a leap year |
| Dates.DaysInMonth | brokerage-tech-coding-challenge-master/validations.py:11 | a month has 28 to 31 days, and February has 29 exactly in leap years |
| Dates.Ordinal | brokerage-tech-coding-challenge-master/validations.py:11 | the ordinal of a date is at least 1 (1 January of year 1 is day 1) |
| Dates.Weekday | brokerage-tech-coding-challenge-master/load_data.py:23 | the weekday number always lies in 0..6 |
| Dates.MonthStep | brokerage-tech-coding-challenge-master/validations.py:11 | the days before month m+1 are the days before month m plus the length of month m |
| Dates.DaysBeforeMonthGrows | brokerage-tech-coding-challenge-master/validations.py:11 | an earlier month, together with all its days, ends no later than a later month begins |
| Dates.YearStep | brokerage-tech-coding-challenge-master/validations.py:11 | the days before year y+1 are the days before year y plus 365, or 366 in a leap year |
| Dates.DaysBeforeYearGrows | brokerage-tech-coding-challenge-master/validations.py:11 | an earlier year, together with all its days, ends no later than a later year begins |
| Dates.DayOfYearBound | brokerage-tech-coding-challenge-master/validations.py:11 | a valid date's day of the year is at most the length of its year |
| Dates.OrdinalMonotone | brokerage-tech-coding-challenge-master/load_data.py:29-30 | of two valid dates, the earlier has the smaller ordinal |
| Dates.OrdinalOrder | brokerage-tech-coding-challenge-master/load_data.py:29-30 | for valid dates, comparing ordinals is the same as comparing dates, and equal ordinals mean equal dates |
| Dates.OrdinalExample | brokerage-tech-coding-challenge-master/load_data.py:23 | 2020-10-10 has ordinal 737708 and falls on a Saturday |
| Validations.DigitValue | brokerage-tech-coding-challenge-master/validations.py:11 | a digit's value lies in 0..9 |
| Validations.DigitChar | brokerage-tech-coding-challenge-master/validations.py:11 | the digit character for n is a digit whose value is n |
| Validations.YearField | brokerage-tech-coding-challenge-master/validations.py:4 | a year field is read exactly when the text is four digits, and its value lies in 0..9999 |
| Validations.MonthField | brokerage-tech-coding-challenge-master/validations.py:4 | only one or two characters form a month field; its value is the number its digits spell, in 1..12 |
| Validations.DayField | brokerage-tech-coding-challenge-master/validations.py:4 | a day field is one or two characters; its value is the number its digits spell (after a leading space, the one digit), in 1..31 |
| Validations.IndexOfDash | brokerage-tech-coding-challenge-master/validations.py:4 | the result is the first '-' of the text, or none when the text contains no '-' |
| Validations.MatchDate | brokerage-tech-coding-challenge-master/validations.py:4 | a match yields a year in 0..9999, a month in 1..12 and a day in 1..31, each the value of its field: four characters, a dash, the text up to the next dash, and the rest |
| Validations.ValidateDate | brokerage-tech-coding-challenge-master/validations.py:9-13 | succeeds exactly when the text matches the format and names a real date; the result is always valid; every failure carries "Incorrect data format, should be YYYY-MM-DD." |
| Validations.Pad2 | brokerage-tech-coding-challenge-master/validations.py:4 | two digits whose value is n |
| Validations.Pad4 | brokerage-tech-coding-challenge-master/validations.py:4 | four characters that the year field reads back as n |
| Validations.FormatThenValidate | brokerage-tech-coding-challenge-master/validations.py:9-13 | parsing the YYYY-MM-DD spelling of any valid date gives that date back |
| Validations.ValidateDateRange | brokerage-tech-coding-challenge-master/validations.py:9-13 | a date is produced by some text exactly when it is valid |
| Validations.ValidateDateExample | brokerage-tech-coding-challenge-master/tests.py:102-107 | "2020-10-10" parses to year 2020, month 10, day 10 |
| Validations.ValidateDateRejectsMonth | brokerage-tech-coding-challenge-master/tests.py:109-112 | "2020-20-10" raises "Incorrect data format, should be YYYY-MM-DD." |
| Validations.ValidateDateOneDigitFields | brokerage-tech-coding-challenge-master/validations.py:9-13 | "2022-9-9" parses to 2022-09-09 |
| Validations.ValidateDateRejectsMissingDay | brokerage-tech-coding-challenge-master/validations.py:9-13 | "2021-02-29" matches the pattern but raises the format error, as 2021 is not a leap year |
| Validations.ValidateDateSpacePaddedDay | brokerage-tech-coding-challenge-master/validations.py:9-13 | "2020-10- 5" parses to 2020-10-05 |
| Validations.ValidateDateRejectsYearZero | brokerage-tech-coding-challenge-master/validations.py:9-13 | "0000-01-01" matches the pattern but raises the format error, as years start at 1 |
| Validations.ValidateDateSpelling | brokerage-tech-coding-challenge-master/validations.py:9-13 | any year, month and day field joined by dashes parses to the date those fields spell when it is valid, and raises the format error otherwise |
| Validations.MatchDateSpelling | brokerage-tech-coding-challenge-master/validations.py:4 | any year, month and day field joined by dashes is matched back as exactly those fields |
| Validations.FirstDashAfter | brokerage-tech-coding-challenge-master/validations.py:4 | a month field holds no dash, so the first dash after it ends the month |
| Validations.ValidateDateShortMonthExample | brokerage-tech-coding-challenge-master/validations.py:9-13 | "2022-3-15" parses to 2022-03-15 |
| Validations.ValidateDateRejectsFebruaryThirtieth | brokerage-tech-coding-challenge-master/validations.py:9-13 | "2022-2-30" matches the pattern but raises the format error, as February has no 30th |
| Validations.ValidateAndGetEndDate | brokerage-tech-coding-challenge-master/validations.py:18-21 | at most 11 characters raise "Provide a value for the end-date parameter."; otherwise the result is the date parse of the text after 11 characters |
| Validations.ValidateAndGetStartDate | brokerage-tech-coding-challenge-master/validations.py:24-27 | at most 13 characters raise "Provide a value for the start-date parameter."; otherwise the result is the date parse of the text after 13 characters |
| Validations.ValidateAndGetCurrency | brokerage-tech-coding-challenge-master/validations.py:30-33 | succeeds exactly on 14 characters and returns the last 3; every other length raises "Currency should contain 3 characters." |
| Validations.ValidateAndGetSymbol | brokerage-tech-coding-challenge-master/validations.py:36-41 | at most 9 characters raise the missing-value error, more than 109 raise the length error, and otherwise (and only then) the symbol is the text after 9 characters, 1 to 100 long |
| Validations.SymbolIgnoresPrefixText | brokerage-tech-coding-challenge-master/validations.py:41 | any 9 characters followed by a 1..100 character value give back that value, whatever the 9 characters are |
| Validations.CurrencyIgnoresPrefixText | brokerage-tech-coding-challenge-master/validations.py:33 | any 11 characters followed by a 3-character code give back that code |
| Validations.StartDateRoundTrip | brokerage-tech-coding-challenge-master/validations.py:24-27 | any 13-character prefix followed by a valid date's YYYY-MM-DD spelling gives back that date |
| Validations.EndDateRoundTrip | brokerage-tech-coding-challenge-master/validations.py:18-21 | any 11-character prefix followed by a valid date's YYYY-MM-DD spelling gives back that date |
| Validations.SymbolExamples | brokerage-tech-coding-challenge-master/tests.py:159-166 | "--symbol=HELLO" gives "HELLO"; "--symbol=" raises the missing-value error |
| Validations.CurrencyExamples | brokerage-tech-coding-challenge-master/tests.py:150-157 | "--currency=HEY" gives "HEY"; "--currency=HI" raises the length error |
| Validations.DateArgumentExamples | brokerage-tech-coding-challenge-master/tests.py:133-148 | a bare "--end-date=" or "--start-date=" raises its missing-value error |
| Validations.EndDateExample | brokerage-tech-coding-challenge-master/tests.py:126-131 | "--end-date=2020-10-10" gives 2020-10-10 |
| Validations.StartDateExample | brokerage-tech-coding-challenge-master/tests.py:138-143 | "--start-date=2020-10-10" gives 2020-10-10 |
| Model.CurrencyOf | brokerage-tech-coding-challenge-master/model.py:23 | a new row gets the supplied currency, or "USD" when none is supplied |
| Model.MatchesParams | brokerage-tech-coding-challenge-master/model.py:37 | a row holding the key with the same price matches; with the currency supplied, matching is exactly holding the key with the same price |
| Model.FirstMatch | brokerage-tech-coding-challenge-master/model.py:37 | no row before the returned position matches every supplied field, and the row at that position does (or the position is the table's end) |
| Model.FindStock | brokerage-tech-coding-challenge-master/model.py:37 | none exactly when no row matches every supplied field; otherwise the earliest row that does |
| Model.InsertStock | brokerage-tech-coding-challenge-master/model.py:28-37 | existing rows are kept as a prefix, and a returned row matches every supplied field and is in the table |
| Model.InsertFreshKey | brokerage-tech-coding-challenge-master/model.py:28-33 | with a free key, the table grows by exactly one row; that row is returned, carries the next id and the supplied fields, and gets "USD" when no currency was given |
| Model.InsertTakenKey | brokerage-tech-coding-challenge-master/model.py:34-37 | with a taken key, table and id counter stay unchanged, and the answer is the first row matching every supplied field, or none exactly when no row matches |
| Model.InsertKeepsInvariant | brokerage-tech-coding-challenge-master/model.py:20-25 | every insert keeps (date, symbol, currency) unique and ids distinct, positive and below the counter |
| Model.TakenKeyOtherPriceFindsNothing | brokerage-tech-coding-challenge-master/model.py:37 | a duplicate key given with another price returns none, although a row holds that key |
| Model.DuplicateInsertExample | brokerage-tech-coding-challenge-master/tests.py:86-98 | the unit test's second insert (price 5654 after 10) returns none, not the first row |
| Model.FindByKey | brokerage-tech-coding-challenge-master/model.py:25 | finds a row exactly when the key is taken, and the row found holds that key |
| Model.InsertStockByKey | brokerage-tech-coding-challenge-master/model.py:28-37 | existing rows are kept as a prefix |
| Model.ByKeyReturnsExistingRow | brokerage-tech-coding-challenge-master/tests.py:86-98 | with the key lookup, a duplicate insert changes nothing and returns the row holding the key |
| Model.InsertCurrency | brokerage-tech-coding-challenge-master/model.py:12-15 | existing rows are kept as a prefix, and a returned row is the requested (code, name) and is in the table |
| Model.InsertCurrencyCases | brokerage-tech-coding-challenge-master/model.py:14 | codes stay unique; a new code appends exactly its row and returns it; a taken code changes nothing and finds a row exactly when one has that code and name |
| Model.Database.constructor | brokerage-tech-coding-challenge-master/model.py:12-25 | a new session has empty tables and hands out id 1 first |
| Model.Database.CreateStock | brokerage-tech-coding-challenge-master/model.py:28-37 | the session's new stock table, id counter and answer are those of InsertStock, the invariants hold, and currencies are untouched |
| Model.Database.CreateCurrency | brokerage-tech-coding-challenge-master/model.py:28-37 | the new currency table and answer are those of InsertCurrency, and stocks are untouched |
| ApiHelpers.ValidateResponse | brokerage-tech-coding-challenge-master/api_helpers.py:21-24 | the body is returned exactly for status 200; any other status raises "Internal error, API request failed." |
| ApiHelpers.Take | brokerage-tech-coding-challenge-master/api_helpers.py:33 | the slice [:n] is a prefix of the text with length min(n, length) |
| ApiHelpers.Reversed | brokerage-tech-coding-challenge-master/api_helpers.py:32 | same length, with element k taken from position length-1-k |
| ApiHelpers.ItemParams | brokerage-tech-coding-challenge-master/api_helpers.py:33-34 | an item fails exactly when the first 10 characters of its date do not parse; otherwise the stored date is that date's ordinal, the symbol and price are the item's, and no currency is passed |
| ApiHelpers.ParamsOf | brokerage-tech-coding-challenge-master/api_helpers.py:32-34 | one set of arguments per item, in order |
| ApiHelpers.InsertAll | brokerage-tech-coding-challenge-master/api_helpers.py:32-34 | a series of inserts gives one answer per insert, keeps the old rows as a prefix, and every answer matches its own arguments |
| ApiHelpers.InsertAllKeepsInvariant | brokerage-tech-coding-challenge-master/model.py:20-25 | a series of inserts keeps the table invariants |
| ApiHelpers.InsertAllSnoc | brokerage-tech-coding-challenge-master/api_helpers.py:32-34 | running one more insert on the outcome of a series is the series with that insert appended |
| ApiHelpers.ReversedParse | brokerage-tech-coding-challenge-master/api_helpers.py:32-33 | the reversed items all parse exactly when the items do, and entry k comes from item length-1-k |
| ApiHelpers.BatchMatchesItems | brokerage-tech-coding-challenge-master/api_helpers.py:32-34 | inserting the reversed items gives one answer per item, and answer k matches the arguments of item length-1-k |
| ApiHelpers.ItemRowCurrency | brokerage-tech-coding-challenge-master/api_helpers.py:33-34 | an item whose (date, symbol) has no USD row yet is stored and returned in USD; a non-USD answer means a USD row with that date and symbol already existed |
| ApiHelpers.ItemRowCurrencyExample | brokerage-tech-coding-challenge-master/model.py:37 | an earlier EUR row with equal date, symbol and price is the answer for a duplicate item |
| ApiHelpers.ParsedPrefix | brokerage-tech-coding-challenge-master/api_helpers.py:32-34 | items whose dates all parse give exactly the arguments collected for them, in order |
| ApiHelpers.ParsedStep | brokerage-tech-coding-challenge-master/api_helpers.py:32-34 | one more item that parses extends the collected arguments by its own, keeping the earlier ones |
| ApiHelpers.InsertItems | brokerage-tech-coding-challenge-master/api_helpers.py:32-34 | when every item parses, the session and answers are the InsertAll outcome of the items in order; otherwise the format error is raised at the first item that does not parse, and the session is the InsertAll outcome of the items before it |
| ApiHelpers.GetMarketStocks | brokerage-tech-coding-challenge-master/api_helpers.py:27-35 | a non-200 response raises and adds nothing; on success there is one answer per item and the session is the InsertAll outcome of the items in reverse response order; an unparsable date raises the format error, and the session is then the InsertAll outcome of the reversed items before the first one that does not parse |
| ApiHelpers.GetCurrency | brokerage-tech-coding-challenge-master/api_helpers.py:38-45 | a non-200 response raises and adds no row; otherwise the session is the outcome of inserting the converted amount under the date, the symbol and to_currency, and a returned row has that date, symbol and currency |
| LoadData.CountWeekdays | brokerage-tech-coding-challenge-master/load_data.py:22 | the weekday count never exceeds the number of days in the interval |
| LoadData.BusdayCount | brokerage-tech-coding-challenge-master/load_data.py:22 | a forward count lies between 0 and the number of days; a reversed count between minus the number of days and 0 |
| LoadData.DayRange | brokerage-tech-coding-challenge-master/load_data.py:22-24 | a forward day_range lies between 0 and the number of days from start to end inclusive; a reversed one is never positive and above the negated distance |
| LoadData.CountFront | brokerage-tech-coding-challenge-master/load_data.py:22 | counting weekdays from the front or the back gives the same total |
| LoadData.CountPositive | brokerage-tech-coding-challenge-master/load_data.py:22 | the count is positive exactly when some day of the interval is a weekday |
| LoadData.DayRangeForward | brokerage-tech-coding-challenge-master/load_data.py:22-24 | when start <= end, day_range is the number of weekdays from start to end inclusive, so it is never negative |
| LoadData.DayRangeBackward | brokerage-tech-coding-challenge-master/load_data.py:22-24 | when end < start, day_range is minus the number of weekdays strictly between end and start |
| LoadData.DayRangeNegative | brokerage-tech-coding-challenge-master/load_data.py:22-26 | day_range is negative exactly when end < start and a weekday lies strictly between them |
| LoadData.NextDayStartPasses | brokerage-tech-coding-challenge-master/load_data.py:22-26 | a start date one day after the end date gives day_range 0 |
| LoadData.MondayTuesdayExample | brokerage-tech-coding-challenge-master/load_data.py:22-24 | end on Monday 2022-09-12 and start on Tuesday 2022-09-13 give busday_count -1 and day_range 0 |
| LoadData.CheckRange | brokerage-tech-coding-challenge-master/load_data.py:22-26 | a negative day_range raises "Start date can't earlier than end date."; an accepted one is day_range and never negative; every forward range is accepted |
| LoadData.CheckRangeAcceptsReversed | brokerage-tech-coding-challenge-master/load_data.py:25-26 | a reversed range is accepted exactly when no weekday lies strictly between the dates |
| LoadData.CheckRangeFixedCorrect | brokerage-tech-coding-challenge-master/load_data.py:25-26 | the corrected check accepts exactly start <= end, with the inclusive weekday count |
| LoadData.ParseRequest | brokerage-tech-coding-challenge-master/load_data.py:16-26 | fewer than 5 entries raise the argument-count error before any validation; the first failing validator's error is the result; with all four valid, the request is accepted exactly when day_range >= 0, and it then holds the validated values |
| LoadData.NextDayRequestAccepted | brokerage-tech-coding-challenge-master/load_data.py:16-26 | valid arguments whose start date is the day after their end date are accepted with day_range 0 |
| LoadData.BaseRows | brokerage-tech-coding-challenge-master/load_data.py:29-30 | every row kept is of the symbol and dated from start to end |
| LoadData.WithCurrency | brokerage-tech-coding-challenge-master/load_data.py:32 | every row kept is in the currency |
| LoadData.OnDate | brokerage-tech-coding-challenge-master/load_data.py:38 | every row kept is of the date |
| LoadData.DistinctDates | brokerage-tech-coding-challenge-master/load_data.py:34 | each date of the rows exactly once |
| LoadData.Somes | brokerage-tech-coding-challenge-master/load_data.py:33 | the rows, each wrapped as present |
| LoadData.BaseRowsMembers | brokerage-tech-coding-challenge-master/load_data.py:29-30 | base_query keeps exactly the rows of the symbol dated from start to end |
| LoadData.WithCurrencyMembers | brokerage-tech-coding-challenge-master/load_data.py:32 | the currency filter keeps exactly the rows in that currency |
| LoadData.OnDateMembers | brokerage-tech-coding-challenge-master/load_data.py:38 | the date filter keeps exactly the rows of that date |
| LoadData.BaseRowsSnoc | brokerage-tech-coding-challenge-master/load_data.py:29-30 | base_query keeps table order and multiplicity: a row appended to the table is appended to the result exactly when it matches |
| LoadData.WithCurrencySnoc | brokerage-tech-coding-challenge-master/load_data.py:32 | the currency filter keeps order and multiplicity: an appended row is appended to the result exactly when it is in the currency |
| LoadData.OnDateSnoc | brokerage-tech-coding-challenge-master/load_data.py:38 | the date filter keeps order and multiplicity: an appended row is appended to the result exactly when it is of the date |
| LoadData.SelectPerDate | brokerage-tech-coding-challenge-master/load_data.py:37-42 | one entry per distinct cached date; when the date has a row in the currency, the entry is the range's first row in that currency, otherwise the date's first row |
| LoadData.DateHasRow | brokerage-tech-coding-challenge-master/load_data.py:38 | every grouped date has at least one row |
| LoadData.CurrencyEntry | brokerage-tech-coding-challenge-master/load_data.py:39-40 | a date with a row in the currency gets the range's first row in that currency |
| LoadData.OwnDateEntry | brokerage-tech-coding-challenge-master/load_data.py:41-42 | a date without a row in the currency gets its own first row |
| LoadData.PerDateSelectionRepeatsFirstRow | brokerage-tech-coding-challenge-master/load_data.py:40 | with two EUR dates cached, the entry for the second date is the first date's row |
| LoadData.ExampleDates | brokerage-tech-coding-challenge-master/load_data.py:37 | the three example rows group into dates d, d+1, d+2 |
| LoadData.ExampleFilters | brokerage-tech-coding-challenge-master/load_data.py:39-40 | in the example, the range's first EUR row is the first row, and days d and d+1 both have EUR rows |
| LoadData.EntryFor | brokerage-tech-coding-challenge-master/load_data.py:38-42 | the corrected entry for a date is a row of that date, and it is in the currency exactly when the date has such a row |
| LoadData.PerDateFixed | brokerage-tech-coding-challenge-master/load_data.py:37-42 | the corrected list has one entry per distinct date, from that date, in the currency exactly when that date has a row in it |
| LoadData.ChooseSource | brokerage-tech-coding-challenge-master/load_data.py:31-42 | if the currency rows number day_range, they are the answer; otherwise, if the distinct dates do not number day_range, the rows are fetched; otherwise the answer is the per-date selection |
| LoadData.ConvertEntryOutcome | brokerage-tech-coding-challenge-master/load_data.py:44-45 | the loop body fails exactly on a None entry or a refused conversion request, with the matching error and the table unchanged; an entry in the currency is kept with nothing added; any other becomes a conversion of it |
| LoadData.ConvertFrom | brokerage-tech-coding-challenge-master/load_data.py:43-45 | the pass keeps the old rows as a prefix and the length of the list; its only errors are the None-entry error and the failed-request error |
| LoadData.ConvertFromShape | brokerage-tech-coding-challenge-master/load_data.py:43-45 | after a successful pass every entry was present; those in the currency are kept and the others are replaced by a row for their date and symbol in the currency, or by None |
| LoadData.ConvertAllInCurrency | brokerage-tech-coding-challenge-master/load_data.py:43-45 | when every remaining entry is already in the currency, the pass changes neither the list nor the table nor the id counter |
| LoadData.ConvertErrorCause | brokerage-tech-coding-challenge-master/load_data.py:43-45 | the pass fails exactly when some entry, with all entries before it present, is None or has its conversion request refused |
| LoadData.ConvertKeepsInvariant | brokerage-tech-coding-challenge-master/model.py:20-25 | the pass keeps the table invariants, whether it succeeds or fails |
| LoadData.ConvertedInCurrency | brokerage-tech-coding-challenge-master/load_data.py:43-45 | after a successful pass every present entry is in the requested currency |
| LoadData.ConvertEntry | brokerage-tech-coding-challenge-master/load_data.py:44-45 | the session and answer after one loop body are those of ConvertEntryOutcome |
| LoadData.ConvertCurrencies | brokerage-tech-coding-challenge-master/load_data.py:43-45 | the session and the answer are the ConvertFrom outcome of the whole list: each entry in another currency is replaced, in order, by get_currency's answer for it, which may be None; a None entry or a refused request stops the pass, and the rows created before it stay |
| LoadData.ServeRequest | brokerage-tech-coding-challenge-master/load_data.py:28-45 | a full cache hit answers with the cached rows and changes neither table nor id counter; the per-date path answers with the ConvertFrom outcome of a list satisfying the per-date selection; the fetch path raises and adds nothing on a failed request, raises the format error with the rows of the items before the bad one committed, or answers with the ConvertFrom outcome of the fetched rows; every answer is in the requested currency |
| LoadData.LoadStocks | brokerage-tech-coding-challenge-master/load_data.py:14-45 | an argument error is raised, and neither table nor id counter changes; otherwise the outcome is ServeRequest's for the parsed request, and every answer is in the requested currency |

## Left out

- HTTP requests, API keys, environment variables and URLs are not modelled. Each endpoint is a function parameter that turns the request arguments into a status code and a decoded body.
- The response body's `'data'` and `'result'` keys, and JSON decoding, are not modelled. A missing key, which would raise `KeyError`, is not modelled either.
- Floating point is not modelled: `round(float(...), 2)` on the converted amount and `str(stock["close"])` on the fetched price. A price is opaque text (`Price`), and the endpoint's body is taken to be that text already.
- `validate_date` with a caller-supplied format, and its "Incorrect desired data format." path, are not modelled. Only the default `%Y-%m-%d` format is modelled.
- Validations.ValidateDate: only ASCII digits are accepted. Python's `\d` also matches other Unicode decimal digits.
- The `TypeError` and generic `Exception` branches of `create_instance` are not modelled. They arise only from wrong argument names or types, and from database failures other than the uniqueness constraint.
- The foreign key from `stocks.currency` to `currencies.code` is not enforced, and neither are the column length limits. The unit tests insert currency codes that are not in the currencies table.
- SQLAlchemy sessions are not modelled: commit, rollback, autoflush and identity maps. The session is two row sequences plus an id counter. A failed insert leaves them unchanged.
- SQL leaves row order and the order of `group_by` groups unspecified. The model uses table order for `.all()` and `.first()`, and order of first appearance for the groups.
- ApiHelpers.GetMarketStocks: the returned rows are not always in USD, which is weaker than "fetched rows carry USD". The lookup after a duplicate insert does not filter on currency, so an earlier non-USD row with equal date, symbol and price can come back. ApiHelpers.ItemRowCurrency says when this happens.
- LoadData.BusdayCount: a reversed range counts the weekdays of [end, begin) and negates the count, so busday_count(b, a) is minus busday_count(a, b). numpy releases differ here: some count (end, begin] instead. Under that convention an end date on a Sunday with the start on the next Monday gives day_range -1, not 0.
- numpy holiday calendars and custom week masks are not modelled. The default Monday to Friday week is.
- `print_stocks` (console output), `read_data.py`, `load_currencies.py` and all logging calls are not part of this model.

## Findings

| source | as written | input that shows it | evidently intended | confidence | as-written member | corrected member |
|---|---|---|---|---|---|---|
| brokerage-tech-coding-challenge-master/model.py:37 | after a failed insert, the lookup filters on every supplied field, including the new price | insert (today, "Symbol", "333", 10), then insert the same key again with price 5654: the lookup finds no row and returns None | the row already holding the key is returned, as the duplicate-insert unit test expects (tests.py:86-98) | not executed | Model.DuplicateInsertExample | Model.ByKeyReturnsExistingRow |
| brokerage-tech-coding-challenge-master/load_data.py:22-26 | only a negative day_range is refused, so a start date after the end date passes when no weekday lies strictly between them | start 2022-09-13 (Tuesday), end 2022-09-12 (Monday): busday_count is -1, the +1 makes day_range 0, and no error is raised | any start date after the end date raises "Start date can't earlier than end date." | not executed | LoadData.CheckRangeAcceptsReversed | LoadData.CheckRangeFixedCorrect |
| brokerage-tech-coding-challenge-master/load_data.py:40 | for a date that has a row in the requested currency, the appended row is the first such row of the whole range, because `base_query` is filtered instead of `stock` | EUR rows on days d and d+1 and a USD row on d+2, with EUR requested: the entry for d+1 is the row of day d | each entry is that date's own row in the requested currency | not executed | LoadData.PerDateSelectionRepeatsFirstRow | LoadData.PerDateFixed |
