/**
 * The two tables and the get-or-create operation. A Stock row has an
 * integer primary key, and no two rows share (date, symbol, currency).
 * A Currency row is keyed by its three-letter code. Inserting a row whose
 * key is taken leaves the table as it was and answers with the first row
 * equal to the row on every field the caller supplied.
 */
module Model {
  import opened Wrappers

  /** A closing price, kept as the text the close_price column stores. */
  type Price = string

  const DefaultCurrency := "USD"

  /** A row of the stocks table. Its date is the date's ordinal. */
  datatype StockRow = StockRow(id: int, date: int, symbol: string, currency: string, closePrice: Price)

  /** The keyword arguments of create_instance(Stock, ...); the currency may be left out. */
  datatype StockParams = StockParams(date: int, symbol: string, currency: Option<string>, closePrice: Price)

  /** A row of the currencies table. */
  datatype CurrencyRow = CurrencyRow(code: string, name: string)

  /** The currency a new row gets: the one supplied, else the column default. */
  function CurrencyOf(p: StockParams): (c: string)
    ensures p.currency.None? ==> c == DefaultCurrency
    ensures p.currency.Some? ==> c == p.currency.value
  {
    match p.currency
    case Some(c) => c
    case None => DefaultCurrency
  }

  // ---------------------------------------------------------------------
  // Stock table
  // ---------------------------------------------------------------------

  predicate HasKey(r: StockRow, date: int, symbol: string, currency: string) {
    r.date == date && r.symbol == symbol && r.currency == currency
  }

  predicate KeyTaken(rows: seq<StockRow>, date: int, symbol: string, currency: string) {
    exists i :: 0 <= i < |rows| && HasKey(rows[i], date, symbol, currency)
  }

  /** The filter_by condition: equal on every supplied field. */
  predicate MatchesParams(r: StockRow, p: StockParams)
    ensures HasKey(r, p.date, p.symbol, CurrencyOf(p)) && r.closePrice == p.closePrice ==> MatchesParams(r, p)
    ensures p.currency.Some? ==>
              (MatchesParams(r, p) <==> HasKey(r, p.date, p.symbol, p.currency.value) && r.closePrice == p.closePrice)
  {
    r.date == p.date && r.symbol == p.symbol && r.closePrice == p.closePrice
    && (p.currency.Some? ==> r.currency == p.currency.value)
  }

  /** The uniqueness constraint on (date, symbol, currency). */
  ghost predicate UniqueKeys(rows: seq<StockRow>) {
    forall i, j :: 0 <= i < j < |rows| ==> !HasKey(rows[j], rows[i].date, rows[i].symbol, rows[i].currency)
  }

  /** Primary keys are distinct, positive, and below the next id to hand out. */
  ghost predicate IdsBelow(rows: seq<StockRow>, nextId: int) {
    1 <= nextId
    && (forall i :: 0 <= i < |rows| ==> 1 <= rows[i].id < nextId)
    && (forall i, j :: 0 <= i < j < |rows| ==> rows[i].id != rows[j].id)
  }

  ghost predicate StockInvariant(rows: seq<StockRow>, nextId: int) {
    UniqueKeys(rows) && IdsBelow(rows, nextId)
  }

  /** The position of the first row equal on all supplied fields, or |rows| when there is none. */
  function FirstMatch(rows: seq<StockRow>, p: StockParams): (k: nat)
    ensures k <= |rows|
    ensures forall j :: 0 <= j < k ==> !MatchesParams(rows[j], p)
    ensures k < |rows| ==> MatchesParams(rows[k], p)
  {
    if |rows| == 0 then 0
    else if MatchesParams(rows[0], p) then 0
    else 1 + FirstMatch(rows[1..], p)
  }

  /** query(Stock).filter_by(**params).first(): the first row equal on all supplied fields. */
  function FindStock(rows: seq<StockRow>, p: StockParams): (r: Option<StockRow>)
    ensures r.None? <==> forall i :: 0 <= i < |rows| ==> !MatchesParams(rows[i], p)
    ensures r.Some? ==> exists i :: 0 <= i < |rows| && rows[i] == r.value && MatchesParams(rows[i], p)
                                    && forall j :: 0 <= j < i ==> !MatchesParams(rows[j], p)
  {
    var k := FirstMatch(rows, p);
    if k < |rows| then Some(rows[k]) else None
  }

  /** The new state and the returned row after one create_instance(Stock, ...). */
  datatype StockOutcome = StockOutcome(rows: seq<StockRow>, nextId: int, result: Option<StockRow>)

  /** The row an insert adds: the next id, the supplied fields, the default currency if none. */
  function NewStockRow(id: int, p: StockParams): (r: StockRow) {
    StockRow(id, p.date, p.symbol, CurrencyOf(p), p.closePrice)
  }

  /**
   * create_instance(Stock, **params): insert and return the new row; when
   * the key is taken, roll back and return the first row matching all
   * supplied fields, or none.
   */
  function InsertStock(rows: seq<StockRow>, nextId: int, p: StockParams): (o: StockOutcome)
    ensures rows <= o.rows
    ensures o.result.Some? ==> MatchesParams(o.result.value, p) && o.result.value in o.rows
  {
    if KeyTaken(rows, p.date, p.symbol, CurrencyOf(p)) then
      StockOutcome(rows, nextId, FindStock(rows, p))
    else
      StockOutcome(rows + [NewStockRow(nextId, p)], nextId + 1, Some(NewStockRow(nextId, p)))
  }

  /** A fresh key: the table grows by exactly the returned row, which carries the next id. */
  lemma InsertFreshKey(rows: seq<StockRow>, nextId: int, p: StockParams)
    requires !KeyTaken(rows, p.date, p.symbol, CurrencyOf(p))
    ensures var o := InsertStock(rows, nextId, p);
      |o.rows| == |rows| + 1 && o.result == Some(o.rows[|rows|]) && o.rows[..|rows|] == rows
      && o.result.value.id == nextId && o.nextId == nextId + 1
      && o.result.value.date == p.date && o.result.value.symbol == p.symbol
      && o.result.value.currency == CurrencyOf(p) && o.result.value.closePrice == p.closePrice
  {
  }

  /** A taken key: the table is unchanged, and the answer is the first row matching every supplied field. */
  lemma InsertTakenKey(rows: seq<StockRow>, nextId: int, p: StockParams)
    requires KeyTaken(rows, p.date, p.symbol, CurrencyOf(p))
    ensures var o := InsertStock(rows, nextId, p);
      o.rows == rows && o.nextId == nextId
      && (o.result.None? <==> forall i :: 0 <= i < |rows| ==> !MatchesParams(rows[i], p))
      && (o.result.Some? ==> exists i :: 0 <= i < |rows| && rows[i] == o.result.value
                                        && forall j :: 0 <= j < i ==> !MatchesParams(rows[j], p))
  {
  }

  /** Every insert keeps the uniqueness constraint and the primary-key invariant. */
  lemma InsertKeepsInvariant(rows: seq<StockRow>, nextId: int, p: StockParams)
    requires StockInvariant(rows, nextId)
    ensures var o := InsertStock(rows, nextId, p); StockInvariant(o.rows, o.nextId) && o.nextId >= nextId
  {
  }

  /**
   * The existing row is lost when only the price differs: with the currency
   * supplied, the one row holding the key is the only candidate for the
   * lookup, and its price does not match.
   */
  lemma TakenKeyOtherPriceFindsNothing(rows: seq<StockRow>, nextId: int, p: StockParams, i: int)
    requires StockInvariant(rows, nextId) && p.currency.Some?
    requires 0 <= i < |rows| && HasKey(rows[i], p.date, p.symbol, CurrencyOf(p))
    requires rows[i].closePrice != p.closePrice
    ensures InsertStock(rows, nextId, p) == StockOutcome(rows, nextId, None)
  {
    forall j | 0 <= j < |rows| ensures !MatchesParams(rows[j], p) {
      assert j != i ==> rows[j].date != rows[i].date || rows[j].symbol != rows[i].symbol || rows[j].currency != rows[i].currency;
    }
  }

  /** The duplicate-insert scenario of the unit tests: the second call answers None, not the first row. */
  lemma DuplicateInsertExample(d: int)
    ensures var first := InsertStock([], 1, StockParams(d, "Symbol", Some("333"), "10"));
      var second := InsertStock(first.rows, first.nextId, StockParams(d, "Symbol", Some("333"), "5654"));
      first.result == Some(StockRow(1, d, "Symbol", "333", "10"))
      && second.rows == first.rows && second.result == None
  {
    var first := InsertStock([], 1, StockParams(d, "Symbol", Some("333"), "10"));
    assert first.rows == [StockRow(1, d, "Symbol", "333", "10")];
    TakenKeyOtherPriceFindsNothing(first.rows, first.nextId, StockParams(d, "Symbol", Some("333"), "5654"), 0);
  }

  /** The row holding a given key, looked up by the key alone. */
  function FindByKey(rows: seq<StockRow>, date: int, symbol: string, currency: string): (r: Option<StockRow>)
    ensures r.Some? <==> KeyTaken(rows, date, symbol, currency)
    ensures r.Some? ==> r.value in rows && HasKey(r.value, date, symbol, currency)
  {
    if |rows| == 0 then None
    else if HasKey(rows[0], date, symbol, currency) then Some(rows[0])
    else
      var r := FindByKey(rows[1..], date, symbol, currency);
      assert KeyTaken(rows, date, symbol, currency) ==> KeyTaken(rows[1..], date, symbol, currency) by {
        if KeyTaken(rows, date, symbol, currency) {
          var i :| 0 <= i < |rows| && HasKey(rows[i], date, symbol, currency);
          assert rows[1..][i - 1] == rows[i];
        }
      }
      r
  }

  /** get-or-create as the unit tests expect it: a taken key answers with the row holding it. */
  function InsertStockByKey(rows: seq<StockRow>, nextId: int, p: StockParams): (o: StockOutcome)
    ensures rows <= o.rows
  {
    if KeyTaken(rows, p.date, p.symbol, CurrencyOf(p)) then
      StockOutcome(rows, nextId, FindByKey(rows, p.date, p.symbol, CurrencyOf(p)))
    else
      StockOutcome(rows + [NewStockRow(nextId, p)], nextId + 1, Some(NewStockRow(nextId, p)))
  }

  /** With the key lookup, a duplicate insert returns the existing row, whatever price it was given. */
  lemma ByKeyReturnsExistingRow(rows: seq<StockRow>, nextId: int, p: StockParams, i: int)
    requires StockInvariant(rows, nextId)
    requires 0 <= i < |rows| && HasKey(rows[i], p.date, p.symbol, CurrencyOf(p))
    ensures InsertStockByKey(rows, nextId, p) == StockOutcome(rows, nextId, Some(rows[i]))
  {
    var r := FindByKey(rows, p.date, p.symbol, CurrencyOf(p));
    var j :| 0 <= j < |rows| && rows[j] == r.value;
    assert j == i;
  }

  // ---------------------------------------------------------------------
  // Currency table
  // ---------------------------------------------------------------------

  /** code is the primary key of the currencies table. */
  ghost predicate UniqueCodes(rows: seq<CurrencyRow>) {
    forall i, j :: 0 <= i < j < |rows| ==> rows[i].code != rows[j].code
  }

  predicate CodeTaken(rows: seq<CurrencyRow>, code: string) {
    exists i :: 0 <= i < |rows| && rows[i].code == code
  }

  datatype CurrencyOutcome = CurrencyOutcome(rows: seq<CurrencyRow>, result: Option<CurrencyRow>)

  /**
   * create_instance(Currency, code=..., name=...): insert, or on a taken
   * code answer with the row equal on code and name, if there is one.
   */
  function InsertCurrency(rows: seq<CurrencyRow>, code: string, name: string): (o: CurrencyOutcome)
    ensures rows <= o.rows
    ensures o.result.Some? ==> o.result.value == CurrencyRow(code, name) && o.result.value in o.rows
  {
    if CodeTaken(rows, code) then
      CurrencyOutcome(rows, if CurrencyRow(code, name) in rows then Some(CurrencyRow(code, name)) else None)
    else
      CurrencyOutcome(rows + [CurrencyRow(code, name)], Some(CurrencyRow(code, name)))
  }

  /** A new code grows the table by one row; a taken code changes nothing, and a different name finds no row. */
  lemma InsertCurrencyCases(rows: seq<CurrencyRow>, code: string, name: string)
    requires UniqueCodes(rows)
    ensures var o := InsertCurrency(rows, code, name);
      UniqueCodes(o.rows)
      && (!CodeTaken(rows, code) ==> o.rows == rows + [CurrencyRow(code, name)] && o.result == Some(CurrencyRow(code, name)))
      && (CodeTaken(rows, code) ==>
            o.rows == rows && (o.result.Some? <==> exists i :: 0 <= i < |rows| && rows[i].code == code && rows[i].name == name))
  {
  }

  // ---------------------------------------------------------------------
  // The session: both tables, updated in place
  // ---------------------------------------------------------------------

  class Database {
    var stocks: seq<StockRow>
    var nextId: int
    var currencies: seq<CurrencyRow>

    ghost predicate Valid()
      reads this
    {
      StockInvariant(stocks, nextId) && UniqueCodes(currencies)
    }

    constructor ()
      ensures Valid()
      ensures stocks == [] && nextId == 1 && currencies == []
    {
      stocks, nextId, currencies := [], 1, [];
    }

    /** create_instance(Stock, **params) against this session. */
    method CreateStock(p: StockParams) returns (r: Option<StockRow>)
      requires Valid()
      modifies this
      ensures Valid()
      ensures StockOutcome(stocks, nextId, r) == InsertStock(old(stocks), old(nextId), p)
      ensures currencies == old(currencies)
    {
      InsertKeepsInvariant(stocks, nextId, p);
      if KeyTaken(stocks, p.date, p.symbol, CurrencyOf(p)) {
        // the commit fails on the uniqueness constraint and is rolled back
        r := FindStock(stocks, p);
      } else {
        var row := NewStockRow(nextId, p);
        stocks := stocks + [row];
        nextId := nextId + 1;
        r := Some(row);
      }
    }

    /** create_instance(Currency, code=..., name=...) against this session. */
    method CreateCurrency(code: string, name: string) returns (r: Option<CurrencyRow>)
      requires Valid()
      modifies this
      ensures Valid()
      ensures CurrencyOutcome(currencies, r) == InsertCurrency(old(currencies), code, name)
      ensures stocks == old(stocks) && nextId == old(nextId)
    {
      InsertCurrencyCases(currencies, code, name);
      if CodeTaken(currencies, code) {
        r := if CurrencyRow(code, name) in currencies then Some(CurrencyRow(code, name)) else None;
      } else {
        currencies := currencies + [CurrencyRow(code, name)];
        r := Some(CurrencyRow(code, name));
      }
    }
  }
}
