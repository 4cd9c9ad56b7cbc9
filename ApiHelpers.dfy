/**
 * The two remote API clients. The HTTP requests themselves are function
 * parameters: a request is answered with a status code and a decoded body,
 * and everything the client does with that answer is modelled.
 */
module ApiHelpers {
  import opened Wrappers
  import opened Dates
  import opened Validations
  import opened Model

  const SuccessStatus := 200
  const ApiError := "Internal error, API request failed."

  /** The length of the YYYY-MM-DD head kept from a timestamp such as 2022-09-09T00:00:00+0000. */
  const DateTextLength := 10

  /** An HTTP response: its status code and its decoded JSON body. */
  datatype Response<T> = Response(statusCode: int, body: T)

  /** One entry of the end-of-day endpoint's "data" list. */
  datatype MarketItem = MarketItem(close: Price, symbol: string, date: string)

  /** The end-of-day endpoint, asked for a symbol between two dates (ordinals). */
  type MarketApi = (string, int, int) -> Response<seq<MarketItem>>

  /** The conversion endpoint, asked with from, to, amount and date; its body is the converted amount. */
  type ConvertApi = (string, string, Price, int) -> Response<Price>

  /** _validate_response: the decoded body of a 200 response, else the request-failed error. */
  function ValidateResponse<T>(resp: Response<T>): (r: Result<T>)
    ensures r.Ok? <==> resp.statusCode == SuccessStatus
    ensures r.Ok? ==> r.value == resp.body
    ensures r.Err? ==> r.msg == ApiError
  {
    if resp.statusCode != SuccessStatus then Err(ApiError) else Ok(resp.body)
  }

  /** The slice s[:n]: the first n characters, or all of s when it is shorter. */
  function Take(s: string, n: nat): (t: string)
    ensures |t| == if |s| <= n then |s| else n
    ensures t <= s
  {
    if |s| <= n then s else s[..n]
  }

  function Reversed<T>(s: seq<T>): (r: seq<T>)
    ensures |r| == |s|
    ensures forall k :: 0 <= k < |s| ==> r[k] == s[|s| - 1 - k]
  {
    if s == [] then [] else Reversed(s[1..]) + [s[0]]
  }

  /** The keyword arguments get_market_stocks passes for one item: no currency is given. */
  function ItemParams(item: MarketItem): (r: Result<StockParams>)
    ensures r.Err? <==> ValidateDate(Take(item.date, DateTextLength)).Err?
    ensures r.Err? ==> r.msg == DateFormatError
    ensures r.Ok? ==> r.value.symbol == item.symbol && r.value.closePrice == item.close && r.value.currency.None?
    ensures r.Ok? ==> r.value.date == Ordinal(ValidateDate(Take(item.date, DateTextLength)).value)
  {
    match ValidateDate(Take(item.date, DateTextLength))
    case Ok(d) => Ok(StockParams(Ordinal(d), item.symbol, None, item.close))
    case Err(m) => Err(m)
  }

  predicate AllItemsParse(items: seq<MarketItem>) {
    forall k :: 0 <= k < |items| ==> ItemParams(items[k]).Ok?
  }

  function ParamsOf(items: seq<MarketItem>): (ps: seq<StockParams>)
    requires AllItemsParse(items)
    ensures |ps| == |items|
    ensures forall k :: 0 <= k < |items| ==> ps[k] == ItemParams(items[k]).value
  {
    seq(|items|, k requires 0 <= k < |items| => ItemParams(items[k]).value)
  }

  /** The state and the answers after a series of create_instance(Stock, ...) calls, in order. */
  datatype BatchOutcome = BatchOutcome(rows: seq<StockRow>, nextId: int, results: seq<Option<StockRow>>)

  function InsertAll(rows: seq<StockRow>, nextId: int, ps: seq<StockParams>): (o: BatchOutcome)
    ensures |o.results| == |ps|
    ensures rows <= o.rows
    ensures forall k :: 0 <= k < |ps| && o.results[k].Some? ==> MatchesParams(o.results[k].value, ps[k]) && o.results[k].value in o.rows
    decreases |ps|
  {
    if ps == [] then BatchOutcome(rows, nextId, [])
    else
      var before := InsertAll(rows, nextId, ps[..|ps| - 1]);
      var o := InsertStock(before.rows, before.nextId, ps[|ps| - 1]);
      assert before.rows <= o.rows;
      BatchOutcome(o.rows, o.nextId, before.results + [o.result])
  }

  lemma {:induction false} InsertAllKeepsInvariant(rows: seq<StockRow>, nextId: int, ps: seq<StockParams>)
    requires StockInvariant(rows, nextId)
    ensures var o := InsertAll(rows, nextId, ps); StockInvariant(o.rows, o.nextId)
    decreases |ps|
  {
    if ps != [] {
      InsertAllKeepsInvariant(rows, nextId, ps[..|ps| - 1]);
      var before := InsertAll(rows, nextId, ps[..|ps| - 1]);
      InsertKeepsInvariant(before.rows, before.nextId, ps[|ps| - 1]);
    }
  }

  /** One more insert after a series is the series with that insert appended. */
  lemma InsertAllSnoc(rows: seq<StockRow>, nextId: int, ps: seq<StockParams>, p: StockParams,
                      before: BatchOutcome, after: StockOutcome)
    requires before == InsertAll(rows, nextId, ps)
    requires after == InsertStock(before.rows, before.nextId, p)
    ensures InsertAll(rows, nextId, ps + [p]) == BatchOutcome(after.rows, after.nextId, before.results + [after.result])
  {
    assert (ps + [p])[..|ps|] == ps;
  }

  lemma ReversedParse(items: seq<MarketItem>)
    ensures AllItemsParse(Reversed(items)) <==> AllItemsParse(items)
    ensures AllItemsParse(items) ==>
      forall k :: 0 <= k < |items| ==> ParamsOf(Reversed(items))[k] == ItemParams(items[|items| - 1 - k]).value
  {
    var rev := Reversed(items);
    if AllItemsParse(rev) {
      forall k | 0 <= k < |items| ensures ItemParams(items[k]).Ok? {
        assert items[k] == rev[|items| - 1 - k];
      }
    }
  }

  /** Over the reversed items, answer k matches the arguments of item |items| - 1 - k. */
  lemma BatchMatchesItems(rows: seq<StockRow>, nextId: int, items: seq<MarketItem>)
    requires AllItemsParse(items)
    ensures AllItemsParse(Reversed(items))
    ensures var o := InsertAll(rows, nextId, ParamsOf(Reversed(items)));
      |o.results| == |items|
      && forall k :: 0 <= k < |items| && o.results[k].Some? ==>
           MatchesParams(o.results[k].value, ItemParams(items[|items| - 1 - k]).value)
  {
    ReversedParse(items);
  }

  /**
   * The row created for an item without a currency is in USD; a row in
   * another currency comes back only when a USD row with the same date and
   * symbol was already stored, because the lookup after the failed insert
   * does not filter on currency.
   */
  lemma ItemRowCurrency(rows: seq<StockRow>, nextId: int, p: StockParams)
    requires p.currency.None?
    ensures var o := InsertStock(rows, nextId, p);
      (!KeyTaken(rows, p.date, p.symbol, DefaultCurrency) ==> o.result.Some? && o.result.value.currency == DefaultCurrency)
      && (o.result.Some? && o.result.value.currency != DefaultCurrency ==> KeyTaken(rows, p.date, p.symbol, DefaultCurrency))
  {
  }

  /** An earlier EUR row with the same date, symbol and price is what a duplicate USD item gets back. */
  lemma ItemRowCurrencyExample(d: int)
    ensures var rows := [StockRow(1, d, "Sym", "EUR", "151.0"), StockRow(2, d, "Sym", "USD", "151.0")];
      InsertStock(rows, 3, StockParams(d, "Sym", None, "151.0")).result == Some(rows[0])
  {
    var rows := [StockRow(1, d, "Sym", "EUR", "151.0"), StockRow(2, d, "Sym", "USD", "151.0")];
    assert HasKey(rows[1], d, "Sym", "USD");
  }

  /** Items whose date fields all parse give the arguments of their inserts, in order. */
  lemma ParsedPrefix(items: seq<MarketItem>, i: int, ps: seq<StockParams>)
    requires 0 <= i <= |items| && |ps| == i
    requires forall k :: 0 <= k < i ==> ItemParams(items[k]) == Ok(ps[k])
    ensures AllItemsParse(items[..i]) && ParamsOf(items[..i]) == ps
  {
    assert forall k :: 0 <= k < i ==> items[..i][k] == items[k];
  }

  /** One more parsed item extends the arguments parsed so far by its own. */
  lemma ParsedStep(items: seq<MarketItem>, i: int, ps: seq<StockParams>, p: StockParams)
    requires 0 <= i < |items| && |ps| == i
    requires forall k :: 0 <= k < i ==> ItemParams(items[k]) == Ok(ps[k])
    requires ItemParams(items[i]) == Ok(p)
    ensures forall k :: 0 <= k < i + 1 ==> ItemParams(items[k]) == Ok((ps + [p])[k])
  {
    forall k | 0 <= k < i + 1 ensures ItemParams(items[k]) == Ok((ps + [p])[k]) {
      if k < i {
        assert (ps + [p])[k] == ps[k];
      }
    }
  }

  /**
   * Item j is the first whose date does not parse, and the table (rows1,
   * nextId1) is what the inserts for the items before it made of (rows0,
   * nextId0).
   */
  predicate StoppedAt(rows0: seq<StockRow>, nextId0: int, items: seq<MarketItem>, j: int,
                      rows1: seq<StockRow>, nextId1: int)
    requires 0 <= j < |items|
  {
    && ItemParams(items[j]).Err?
    && AllItemsParse(items[..j])
    && rows1 == InsertAll(rows0, nextId0, ParamsOf(items[..j])).rows
    && nextId1 == InsertAll(rows0, nextId0, ParamsOf(items[..j])).nextId
  }

  /**
   * The loop of get_market_stocks: get-or-create one row per item, in the
   * order given. An item whose date does not parse raises, and the rows
   * created before it stay committed.
   */
  method InsertItems(db: Database, items: seq<MarketItem>) returns (r: Result<seq<Option<StockRow>>>)
    requires db.Valid()
    modifies db
    ensures db.Valid() && db.currencies == old(db.currencies) && old(db.stocks) <= db.stocks
    ensures r.Ok? ==>
              && AllItemsParse(items)
              && BatchOutcome(db.stocks, db.nextId, r.value) == InsertAll(old(db.stocks), old(db.nextId), ParamsOf(items))
    ensures r.Err? ==> r.msg == DateFormatError && !AllItemsParse(items)
    ensures r.Err? ==> exists j :: 0 <= j < |items| && StoppedAt(old(db.stocks), old(db.nextId), items, j, db.stocks, db.nextId)
  {
    var stocks: seq<Option<StockRow>> := [];
    ghost var ps: seq<StockParams> := [];
    var i := 0;
    while i < |items|
      invariant 0 <= i <= |items| && |ps| == i
      invariant db.Valid() && db.currencies == old(db.currencies)
      invariant forall k :: 0 <= k < i ==> ItemParams(items[k]) == Ok(ps[k])
      invariant BatchOutcome(db.stocks, db.nextId, stocks) == InsertAll(old(db.stocks), old(db.nextId), ps)
    {
      var p := ItemParams(items[i]);
      if p.Err? {
        ParsedPrefix(items, i, ps);
        assert StoppedAt(old(db.stocks), old(db.nextId), items, i, db.stocks, db.nextId);
        return Err(p.msg);
      }
      ghost var before := BatchOutcome(db.stocks, db.nextId, stocks);
      var row := db.CreateStock(p.value);
      InsertAllSnoc(old(db.stocks), old(db.nextId), ps, p.value, before, StockOutcome(db.stocks, db.nextId, row));
      stocks := stocks + [row];
      ParsedStep(items, i, ps, p.value);
      ps := ps + [p.value];
      i := i + 1;
    }
    ParsedPrefix(items, i, ps);
    assert items[..i] == items;
    r := Ok(stocks);
  }

  /**
   * get_market_stocks: fetch the end-of-day prices and get-or-create one
   * USD row per item, walking the items from last to first.
   */
  method GetMarketStocks(db: Database, api: MarketApi, symbol: string, startDate: int, endDate: int)
    returns (r: Result<seq<Option<StockRow>>>)
    requires db.Valid()
    modifies db
    ensures db.Valid() && db.currencies == old(db.currencies)
    ensures old(db.stocks) <= db.stocks
    ensures api(symbol, startDate, endDate).statusCode != SuccessStatus ==>
              r == Err(ApiError) && db.stocks == old(db.stocks) && db.nextId == old(db.nextId)
    ensures r.Ok? ==>
              var items := api(symbol, startDate, endDate).body;
              && api(symbol, startDate, endDate).statusCode == SuccessStatus
              && AllItemsParse(items)
              && BatchOutcome(db.stocks, db.nextId, r.value)
                 == InsertAll(old(db.stocks), old(db.nextId), ParamsOf(Reversed(items)))
    ensures r.Ok? ==> |r.value| == |api(symbol, startDate, endDate).body|
    ensures r.Err? && api(symbol, startDate, endDate).statusCode == SuccessStatus ==>
              var items := Reversed(api(symbol, startDate, endDate).body);
              && r.msg == DateFormatError && !AllItemsParse(api(symbol, startDate, endDate).body)
              && exists j :: 0 <= j < |items| && StoppedAt(old(db.stocks), old(db.nextId), items, j, db.stocks, db.nextId)
  {
    var data := ValidateResponse(api(symbol, startDate, endDate));
    if data.Err? {
      return Err(data.msg);
    }
    r := InsertItems(db, Reversed(data.value));
    ReversedParse(data.value);
  }

  /**
   * get_currency: fetch the converted amount and get-or-create the row for
   * the date and symbol in the target currency.
   */
  method GetCurrency(db: Database, api: ConvertApi, fromCurrency: string, toCurrency: string,
                     amount: Price, date: int, symbol: string)
    returns (r: Result<Option<StockRow>>)
    requires db.Valid()
    modifies db
    ensures db.Valid() && db.currencies == old(db.currencies)
    ensures api(fromCurrency, toCurrency, amount, date).statusCode != SuccessStatus ==>
              r == Err(ApiError) && db.stocks == old(db.stocks) && db.nextId == old(db.nextId)
    ensures api(fromCurrency, toCurrency, amount, date).statusCode == SuccessStatus ==>
              r.Ok? && StockOutcome(db.stocks, db.nextId, r.value)
                       == InsertStock(old(db.stocks), old(db.nextId),
                                      StockParams(date, symbol, Some(toCurrency), api(fromCurrency, toCurrency, amount, date).body))
    ensures r.Ok? && r.value.Some? ==>
              r.value.value.date == date && r.value.value.symbol == symbol && r.value.value.currency == toCurrency
  {
    var data := ValidateResponse(api(fromCurrency, toCurrency, amount, date));
    if data.Err? {
      return Err(data.msg);
    }
    var row := db.CreateStock(StockParams(date, symbol, Some(toCurrency), data.value));
    r := Ok(row);
  }
}
