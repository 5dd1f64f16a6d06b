/**
 * The trader's read-only SQL aggregates. Each joins the account's
 * portfolio row with balances, positions or open orders and the instrument
 * and exchange-rate rows they refer to. The result is `None` exactly where
 * the SQL value is NULL or no row comes back; the trader converts these
 * results with `float(...)`, so a `None` there is a crash that callers must
 * rule out.
 *
 * Joins on a primary key (`contract.id`, `option.id`) or on a key the store
 * keeps unique (`portfolio.account`, `(currency.base, currency.currency)`)
 * are modelled as lookups of that single row.
 */
module Queries {
  import opened Wrappers
  import opened Sql
  import opened Broker
  import opened Store

  /** `currency.rate` on the edge (base, currency), NULL when there is no such row. */
  function RateIn(db: Db, base: string, currency: string): (r: Option<real>)
    ensures r.Some? ==> CurrencyRow(base, currency, r) in db.currencies
    ensures (forall i :: 0 <= i < |db.currencies| ==> db.currencies[i].base != base || db.currencies[i].currency != currency) ==> r.None?
  {
    match RateOf(db.currencies, base, currency)
    case None => None
    case Some(rate) => rate
  }

  /** The live statuses of an order on the book. */
  predicate IsLive(status: string) {
    status == "Submitted" || status == "PreSubmitted"
  }

  // ---------------------------------------------------------------------
  // Symbol lookups
  // ---------------------------------------------------------------------

  /** `getSymbolPrice`: `contract.price` of the first row with that symbol. */
  function SymbolPrice(db: Db, symbol: string): (r: Option<real>)
    ensures r.Some? ==> exists i :: 0 <= i < |db.contracts| && db.contracts[i].symbol == symbol && db.contracts[i].price == r
    ensures (forall i :: 0 <= i < |db.contracts| ==> db.contracts[i].symbol != symbol) ==> r.None?
  {
    match ContractBySymbol(db, symbol)
    case None => None
    case Some(c) => c.price
  }

  /** `getSymbolCurrency`: `contract.currency` of the first row with that symbol. */
  function SymbolCurrency(db: Db, symbol: string): (r: Option<string>)
    ensures r.Some? <==> exists i :: 0 <= i < |db.contracts| && db.contracts[i].symbol == symbol
    ensures r.Some? ==> exists i :: 0 <= i < |db.contracts| && db.contracts[i].symbol == symbol && db.contracts[i].currency == r.value
  {
    match ContractBySymbol(db, symbol)
    case None => None
    case Some(c) => Some(c.currency)
  }

  /** `getContractConId`: `con_id` of the first row with the normalised symbol; `None` when no row has it. */
  function ContractConId(db: Db, symbol: string): (r: Option<Option<int>>)
    ensures r.Some? <==> exists i :: 0 <= i < |db.contracts| && db.contracts[i].symbol == symbol
    ensures r.Some? ==> exists i :: 0 <= i < |db.contracts| && db.contracts[i].symbol == symbol && db.contracts[i].conId == r.value
  {
    match ContractBySymbol(db, symbol)
    case None => None
    case Some(c) => Some(c.conId)
  }

  /** The contract rows `getSymbolPriceInBase` joins: the symbol's rows that have a rate into `base`. */
  function PricedIn(symbol: string, db: Db, base: string): ContractRow -> bool {
    (c: ContractRow) => c.symbol == symbol && RateOf(db.currencies, base, c.currency).Some?
  }

  /** `getSymbolPriceInBase`: `contract.price / currency.rate` for the first joined contract row. */
  function SymbolPriceInBase(db: Db, account: string, symbol: string): (r: Option<real>)
    ensures r.Some? ==> FindPortfolio(db, account).Some?
    ensures r.Some? ==> var base := FindPortfolio(db, account).value.baseCurrency;
      exists i :: 0 <= i < |db.contracts| && db.contracts[i].symbol == symbol
           && db.contracts[i].price.Some? && RateIn(db, base, db.contracts[i].currency).Some?
           && r.value * RateIn(db, base, db.contracts[i].currency).value == db.contracts[i].price.value
  {
    match FindPortfolio(db, account)
    case None => None
    case Some(p) =>
      match FirstIndex(db.contracts, PricedIn(symbol, db, p.baseCurrency))
      case None => None
      case Some(i) =>
        var c := db.contracts[i];
        assert c.symbol == symbol by { assert PricedIn(symbol, db, p.baseCurrency)(c); }
        SqlDiv(c.price, RateIn(db, p.baseCurrency, c.currency))
  }

  // ---------------------------------------------------------------------
  // Cash
  // ---------------------------------------------------------------------

  /** The account's balance rows. */
  function BalanceOf(pid: int): BalanceRow -> bool {
    (b: BalanceRow) => b.portfolioId == pid
  }

  /** A balance converted into the portfolio's base currency. */
  function BalanceInBase(db: Db, base: string): BalanceRow -> Option<real> {
    (b: BalanceRow) => SqlDiv(Some(b.quantity), RateIn(db, base, b.currency))
  }

  /** `getTotalCashAmount`: SUM of `balance.quantity / currency.rate` over the account's balances. */
  function TotalCash(db: Db, account: string): (r: Option<real>)
    ensures FindPortfolio(db, account).None? ==> r.None?
    ensures FindPortfolio(db, account).Some? ==>
              r == SumOver(db.balances, BalanceOf(FindPortfolio(db, account).value.id),
                           BalanceInBase(db, FindPortfolio(db, account).value.baseCurrency))
  {
    match FindPortfolio(db, account)
    case None => None
    case Some(p) => SumOver(db.balances, BalanceOf(p.id), BalanceInBase(db, p.baseCurrency))
  }

  /**
   * A new balance row of the account adds its quantity in base currency to
   * the cash total; a row of another portfolio, or one in a currency with no
   * rate into the base currency, leaves the total unchanged.
   */
  lemma TotalCashAppend(db: Db, account: string, p: PortfolioRow, b: BalanceRow)
    requires FindPortfolio(db, account) == Some(p)
    ensures TotalCash(db.(balances := db.balances + [b]), account)
        == if b.portfolioId == p.id then AddTerm(TotalCash(db, account), SqlDiv(Some(b.quantity), RateIn(db, p.baseCurrency, b.currency)))
           else TotalCash(db, account)
  {
    var db' := db.(balances := db.balances + [b]);
    var t', t := BalanceInBase(db', p.baseCurrency), BalanceInBase(db, p.baseCurrency);
    assert FindPortfolio(db', account) == Some(p);
    forall x: BalanceRow ensures t'(x) == t(x) {
      assert RateIn(db', p.baseCurrency, x.currency) == RateIn(db, p.baseCurrency, x.currency);
    }
    SumOverSameTerms(db'.balances, BalanceOf(p.id), t', t);
    SumOverAppend(db.balances, BalanceOf(p.id), t, b);
    assert TotalCash(db', account) == SumOver(db'.balances, BalanceOf(p.id), t');
  }

  /** The cash total reads the account's own balance rows alone: dropping every other row leaves it unchanged. */
  lemma TotalCashOnlyAccountRows(db: Db, account: string, pid: int)
    requires FindPortfolio(db, account).Some? && FindPortfolio(db, account).value.id == pid
    ensures TotalCash(db.(balances := Where(db.balances, BalanceOf(pid))), account) == TotalCash(db, account)
  {
    var p := FindPortfolio(db, account).value;
    var db' := db.(balances := Where(db.balances, BalanceOf(pid)));
    assert FindPortfolio(db', account) == Some(p);
    SumOverSameTerms(db'.balances, BalanceOf(pid), BalanceInBase(db', p.baseCurrency), BalanceInBase(db, p.baseCurrency));
    SumOverWhere(db.balances, BalanceOf(pid), BalanceOf(pid), BalanceInBase(db, p.baseCurrency));
  }

  /** `getCurrencyBalance`: the account's balance row in one currency. */
  function CurrencyBalance(db: Db, account: string, currency: string): (r: Option<real>)
    ensures r.Some? ==> exists p :: (FindPortfolio(db, account) == Some(p)
              && BalanceRow(p.id, currency, r.value) in db.balances)
    ensures (forall p :: FindPortfolio(db, account) == Some(p) ==>
              forall i :: 0 <= i < |db.balances| ==> db.balances[i].portfolioId != p.id || db.balances[i].currency != currency)
            ==> r.None?
  {
    match FindPortfolio(db, account)
    case None => None
    case Some(p) =>
      match FirstIndex(db.balances, (b: BalanceRow) => b.portfolioId == p.id && b.currency == currency)
      case None => None
      case Some(i) => Some(db.balances[i].quantity)
  }

  /** `getBaseToCurrencyRate`: the rate on (portfolio base currency, currency). */
  function BaseToCurrencyRate(db: Db, account: string, currency: string): (r: Option<real>)
    ensures r.Some? ==> exists p :: (FindPortfolio(db, account) == Some(p)
              && CurrencyRow(p.baseCurrency, currency, r) in db.currencies)
    ensures FindPortfolio(db, account).None? ==> r.None?
  {
    match FindPortfolio(db, account)
    case None => None
    case Some(p) => RateIn(db, p.baseCurrency, currency)
  }

  // ---------------------------------------------------------------------
  // What the lookups return when rows are stored
  // ---------------------------------------------------------------------

  /** The rate lookup returns the rate of the first row on its edge. */
  lemma RateInFirstRow(db: Db, base: string, currency: string, i: int)
    requires 0 <= i < |db.currencies| && db.currencies[i].base == base && db.currencies[i].currency == currency
    requires forall j :: 0 <= j < i ==> db.currencies[j].base != base || db.currencies[j].currency != currency
    ensures RateIn(db, base, currency) == db.currencies[i].rate
  {
  }

  /** In a valid store an edge has one row, so the rate lookup returns the stored rate. */
  lemma RateInStored(db: Db, row: CurrencyRow)
    requires Valid(db) && row in db.currencies
    ensures RateIn(db, row.base, row.currency) == row.rate
  {
    RateOfRow(db.currencies, row);
  }

  /** `getSymbolPrice` returns the price of the first row carrying the symbol. */
  lemma SymbolPriceFirstRow(db: Db, symbol: string, i: int)
    requires 0 <= i < |db.contracts| && db.contracts[i].symbol == symbol
    requires forall j :: 0 <= j < i ==> db.contracts[j].symbol != symbol
    ensures SymbolPrice(db, symbol) == db.contracts[i].price
  {
  }

  /**
   * `getSymbolPriceInBase` is NULL for an unknown account and when no row of
   * the symbol has a rate into the base currency; otherwise it divides the
   * first such row's price by that rate.
   */
  lemma SymbolPriceInBaseNoRow(db: Db, account: string, symbol: string)
    requires FindPortfolio(db, account).Some? ==>
      forall i :: 0 <= i < |db.contracts| ==> !PricedIn(symbol, db, FindPortfolio(db, account).value.baseCurrency)(db.contracts[i])
    ensures SymbolPriceInBase(db, account, symbol).None?
  {
  }

  /** See `SymbolPriceInBaseNoRow`: the first joined row gives the value. */
  lemma SymbolPriceInBaseFirstRow(db: Db, account: string, symbol: string, p: PortfolioRow, i: int)
    requires FindPortfolio(db, account) == Some(p)
    requires 0 <= i < |db.contracts| && PricedIn(symbol, db, p.baseCurrency)(db.contracts[i])
    requires forall j :: 0 <= j < i ==> !PricedIn(symbol, db, p.baseCurrency)(db.contracts[j])
    ensures SymbolPriceInBase(db, account, symbol) == SqlDiv(db.contracts[i].price, RateIn(db, p.baseCurrency, db.contracts[i].currency))
  {
    FirstIndexIs(db.contracts, PricedIn(symbol, db, p.baseCurrency), i);
  }

  /** `getCurrencyBalance` returns the quantity of the account's first row in that currency. */
  lemma CurrencyBalanceFirstRow(db: Db, account: string, currency: string, p: PortfolioRow, i: int)
    requires FindPortfolio(db, account) == Some(p)
    requires 0 <= i < |db.balances| && db.balances[i].portfolioId == p.id && db.balances[i].currency == currency
    requires forall j :: 0 <= j < i ==> db.balances[j].portfolioId != p.id || db.balances[j].currency != currency
    ensures CurrencyBalance(db, account, currency) == Some(db.balances[i].quantity)
  {
  }

  /** In a valid store the account has one row per currency, so `getCurrencyBalance` returns the stored quantity. */
  lemma CurrencyBalanceStored(db: Db, account: string, p: PortfolioRow, b: BalanceRow)
    requires Valid(db) && FindPortfolio(db, account) == Some(p)
    requires b in db.balances && b.portfolioId == p.id
    ensures CurrencyBalance(db, account, b.currency) == Some(b.quantity)
  {
    var r := CurrencyBalance(db, account, b.currency);
    DistinctSameKey(db.balances, BalanceKey, b, BalanceRow(p.id, b.currency, r.value));
  }

  /** `getBaseToCurrencyRate` returns the rate of the first row on the portfolio's base-currency edge. */
  lemma BaseToCurrencyRateFirstRow(db: Db, account: string, currency: string, p: PortfolioRow, i: int)
    requires FindPortfolio(db, account) == Some(p)
    requires 0 <= i < |db.currencies| && db.currencies[i].base == p.baseCurrency && db.currencies[i].currency == currency
    requires forall j :: 0 <= j < i ==> db.currencies[j].base != p.baseCurrency || db.currencies[j].currency != currency
    ensures BaseToCurrencyRate(db, account, currency) == db.currencies[i].rate
  {
    RateInFirstRow(db, p.baseCurrency, currency, i);
  }

  /** In a valid store, `getBaseToCurrencyRate` returns the rate stored on the base-currency edge. */
  lemma BaseToCurrencyRateStored(db: Db, account: string, p: PortfolioRow, row: CurrencyRow)
    requires Valid(db) && FindPortfolio(db, account) == Some(p)
    requires row in db.currencies && row.base == p.baseCurrency
    ensures BaseToCurrencyRate(db, account, row.currency) == row.rate
  {
    RateInStored(db, row);
  }

  // ---------------------------------------------------------------------
  // Positions
  // ---------------------------------------------------------------------

  /** The account's position rows. */
  function PositionOf(pid: int): PositionRow -> bool {
    (pos: PositionRow) => pos.portfolioId == pid
  }

  /** The contract a position refers to, if its `contract_id` is set and on file. */
  function PositionContract(db: Db, pos: PositionRow): (r: Option<ContractRow>)
    ensures r.Some? ==> r.value in db.contracts && pos.contractId == Some(r.value.id)
  {
    match pos.contractId
    case None => None
    case Some(id) => ContractById(db.contracts, id)
  }

  /** A stock position's market value in base currency; NULL for any other row. */
  function StockValueInBase(db: Db, base: string): PositionRow -> Option<real> {
    (pos: PositionRow) =>
      match PositionContract(db, pos)
      case None => None
      case Some(c) =>
        if c.secType == "STK" then SqlDiv(SqlMul(Some(pos.quantity), c.price), RateIn(db, base, c.currency)) else None
  }

  /** An option position's market value (price times multiplier) in base currency; NULL for any other row. */
  function OptionValueInBase(db: Db, base: string): PositionRow -> Option<real> {
    (pos: PositionRow) =>
      match PositionContract(db, pos)
      case None => None
      case Some(c) =>
        if c.secType != "OPT" then None
        else match OptionById(db.options, c.id)
          case None => None
          case Some(o) => SqlDiv(SqlMul(SqlMul(Some(pos.quantity), c.price), Some(o.multiplier)), RateIn(db, base, c.currency))
  }

  /** `getPortfolioStocksValue`. */
  function PortfolioStocksValue(db: Db, account: string): (r: Option<real>)
    ensures FindPortfolio(db, account).None? ==> r.None?
    ensures FindPortfolio(db, account).Some? ==>
              r == SumOver(db.positions, PositionOf(FindPortfolio(db, account).value.id),
                           StockValueInBase(db, FindPortfolio(db, account).value.baseCurrency))
  {
    match FindPortfolio(db, account)
    case None => None
    case Some(p) => SumOver(db.positions, PositionOf(p.id), StockValueInBase(db, p.baseCurrency))
  }

  /** `getPortfolioOptionsValue`. */
  function PortfolioOptionsValue(db: Db, account: string): (r: Option<real>)
    ensures FindPortfolio(db, account).None? ==> r.None?
    ensures FindPortfolio(db, account).Some? ==>
              r == SumOver(db.positions, PositionOf(FindPortfolio(db, account).value.id),
                           OptionValueInBase(db, FindPortfolio(db, account).value.baseCurrency))
  {
    match FindPortfolio(db, account)
    case None => None
    case Some(p) => SumOver(db.positions, PositionOf(p.id), OptionValueInBase(db, p.baseCurrency))
  }

  /**
   * A new stock position of the account adds its market value in base
   * currency; a position of another portfolio, or one whose value is NULL
   * (not a stock, no price, no rate), leaves the sum unchanged.
   */
  lemma StocksValueAppend(db: Db, account: string, p: PortfolioRow, pos: PositionRow)
    requires FindPortfolio(db, account) == Some(p)
    ensures PortfolioStocksValue(db.(positions := db.positions + [pos]), account)
        == if pos.portfolioId == p.id then AddTerm(PortfolioStocksValue(db, account), StockValueInBase(db, p.baseCurrency)(pos)) else PortfolioStocksValue(db, account)
  {
    var db' := db.(positions := db.positions + [pos]);
    var t', t := StockValueInBase(db', p.baseCurrency), StockValueInBase(db, p.baseCurrency);
    assert FindPortfolio(db', account) == Some(p);
    PositionTermsAgree(db', db, p.baseCurrency);
    SumOverSameTerms(db'.positions, PositionOf(p.id), t', t);
    SumOverAppend(db.positions, PositionOf(p.id), t, pos);
    assert PortfolioStocksValue(db', account) == SumOver(db'.positions, PositionOf(p.id), t');
  }

  /** A stock position's value is its quantity times the stock's price, over the rate into base currency. */
  lemma StockValueOfPosition(db: Db, base: string, pos: PositionRow, c: ContractRow)
    requires PositionContract(db, pos) == Some(c) && c.secType == "STK"
    requires c.price.Some? && RateIn(db, base, c.currency).Some? && RateIn(db, base, c.currency).value != 0.0
    ensures StockValueInBase(db, base)(pos).Some?
    ensures StockValueInBase(db, base)(pos).value == pos.quantity * c.price.value / RateIn(db, base, c.currency).value
  {
  }

  /**
   * A new option position of the account adds quantity times price times
   * multiplier in base currency; a position of another portfolio, or one
   * whose value is NULL, leaves the sum unchanged.
   */
  lemma OptionsValueAppend(db: Db, account: string, p: PortfolioRow, pos: PositionRow)
    requires FindPortfolio(db, account) == Some(p)
    ensures PortfolioOptionsValue(db.(positions := db.positions + [pos]), account)
        == if pos.portfolioId == p.id then AddTerm(PortfolioOptionsValue(db, account), OptionValueInBase(db, p.baseCurrency)(pos)) else PortfolioOptionsValue(db, account)
  {
    var db' := db.(positions := db.positions + [pos]);
    var t', t := OptionValueInBase(db', p.baseCurrency), OptionValueInBase(db, p.baseCurrency);
    assert FindPortfolio(db', account) == Some(p);
    PositionTermsAgree(db', db, p.baseCurrency);
    SumOverSameTerms(db'.positions, PositionOf(p.id), t', t);
    SumOverAppend(db.positions, PositionOf(p.id), t, pos);
    assert PortfolioOptionsValue(db', account) == SumOver(db'.positions, PositionOf(p.id), t');
  }

  /** An option position's value is quantity times price times multiplier, over the rate into base currency. */
  lemma OptionValueOfPosition(db: Db, base: string, pos: PositionRow, c: ContractRow, o: OptionRow)
    requires PositionContract(db, pos) == Some(c) && c.secType == "OPT" && OptionById(db.options, c.id) == Some(o)
    requires c.price.Some? && RateIn(db, base, c.currency).Some? && RateIn(db, base, c.currency).value != 0.0
    ensures OptionValueInBase(db, base)(pos).Some?
    ensures OptionValueInBase(db, base)(pos).value == pos.quantity * c.price.value * o.multiplier / RateIn(db, base, c.currency).value
  {
  }

  /** The position terms read the contract, option and currency tables only. */
  lemma PositionTermsAgree(db': Db, db: Db, base: string)
    requires db'.contracts == db.contracts && db'.options == db.options && db'.currencies == db.currencies
    ensures forall x :: StockValueInBase(db', base)(x) == StockValueInBase(db, base)(x)
    ensures forall x :: OptionValueInBase(db', base)(x) == OptionValueInBase(db, base)(x)
  {
    forall x: PositionRow ensures PositionContract(db', x) == PositionContract(db, x) { }
    forall c: string ensures RateIn(db', base, c) == RateIn(db, base, c) { }
  }

  /** The position sums read the account's own rows alone: dropping every other position leaves both unchanged. */
  lemma PositionValuesOnlyAccountRows(db: Db, account: string, pid: int)
    requires FindPortfolio(db, account).Some? && FindPortfolio(db, account).value.id == pid
    ensures PortfolioStocksValue(db.(positions := Where(db.positions, PositionOf(pid))), account) == PortfolioStocksValue(db, account)
    ensures PortfolioOptionsValue(db.(positions := Where(db.positions, PositionOf(pid))), account) == PortfolioOptionsValue(db, account)
  {
    var p := FindPortfolio(db, account).value;
    var db' := db.(positions := Where(db.positions, PositionOf(pid)));
    assert FindPortfolio(db', account) == Some(p);
    PositionTermsAgree(db', db, p.baseCurrency);
    SumOverSameTerms(db'.positions, PositionOf(pid), StockValueInBase(db', p.baseCurrency), StockValueInBase(db, p.baseCurrency));
    SumOverWhere(db.positions, PositionOf(pid), PositionOf(pid), StockValueInBase(db, p.baseCurrency));
    SumOverSameTerms(db'.positions, PositionOf(pid), OptionValueInBase(db', p.baseCurrency), OptionValueInBase(db, p.baseCurrency));
    SumOverWhere(db.positions, PositionOf(pid), PositionOf(pid), OptionValueInBase(db, p.baseCurrency));
  }

  /** Which short puts a naked-put sum covers, beyond being a short put of the account. */
  datatype PutScope = AllPuts | PutsOn(symbol: string) | InTheMoney

  /** The underlying stock row of an option, joined through `option.stock_id = stock.id`. */
  predicate InScope(db: Db, o: OptionRow, scope: PutScope) {
    match ContractById(db.contracts, o.stockId)
    case None => false
    case Some(stock) =>
      match scope
      case AllPuts => true
      case PutsOn(symbol) => stock.symbol == symbol
      case InTheMoney => stock.price.Some? && stock.price.value < o.strike
  }

  /**
   * Commitment of a short put in base currency, `quantity * strike *
   * multiplier / rate`; NULL for a row outside the join. `getTotalNakedPutAmount`
   * has no `contract stock` in its join, so `AllPuts` needs no underlying row.
   */
  function ShortPutTerm(db: Db, base: string, scope: PutScope, pos: PositionRow): Option<real> {
    if pos.quantity >= 0.0 then None
    else match PositionContract(db, pos)
      case None => None
      case Some(c) =>
        if c.secType != "OPT" then None
        else match OptionById(db.options, c.id)
          case None => None
          case Some(o) =>
            if o.callOrPut != "P" || (scope != AllPuts && !InScope(db, o, scope)) then None
            else SqlDiv(Some(pos.quantity * o.strike * o.multiplier), RateIn(db, base, c.currency))
  }

  function ShortPutInBase(db: Db, base: string, scope: PutScope): PositionRow -> Option<real> {
    (pos: PositionRow) => ShortPutTerm(db, base, scope, pos)
  }

  /** `getTotalNakedPutAmount`, `getNakedPutAmount` and `getItmNakedPutAmount`, by scope. */
  function NakedPutAmount(db: Db, account: string, scope: PutScope): (r: Option<real>)
    ensures FindPortfolio(db, account).None? ==> r.None?
    ensures FindPortfolio(db, account).Some? ==>
              r == SumOver(db.positions, PositionOf(FindPortfolio(db, account).value.id),
                           ShortPutInBase(db, FindPortfolio(db, account).value.baseCurrency, scope))
  {
    match FindPortfolio(db, account)
    case None => None
    case Some(p) => SumOver(db.positions, PositionOf(p.id), ShortPutInBase(db, p.baseCurrency, scope))
  }

  /** Strikes and multipliers are non-negative and every stored rate is positive. */
  ghost predicate SaneMarket(db: Db) {
    && (forall i :: 0 <= i < |db.options| ==> db.options[i].strike >= 0.0 && db.options[i].multiplier >= 0.0)
    && (forall i :: 0 <= i < |db.currencies| && db.currencies[i].rate.Some? ==> db.currencies[i].rate.value > 0.0)
  }

  lemma ShortPutTermNonPositive(db: Db, base: string, scope: PutScope, pos: PositionRow)
    requires SaneMarket(db)
    ensures ShortPutTerm(db, base, scope, pos).Some? ==> ShortPutTerm(db, base, scope, pos).value <= 0.0
  {
    if pos.quantity < 0.0 {
      match PositionContract(db, pos) {
        case None =>
        case Some(c) =>
          match OptionById(db.options, c.id) {
            case None =>
            case Some(o) => ShortPutQuotientNonPositive(db, base, pos.quantity, c.currency, o);
          }
      }
    }
  }

  /** The commitment of a short put on a stored option, in base currency, is non-positive. */
  lemma ShortPutQuotientNonPositive(db: Db, base: string, quantity: real, currency: string, o: OptionRow)
    requires SaneMarket(db) && quantity < 0.0 && o in db.options
    ensures var t := SqlDiv(Some(quantity * o.strike * o.multiplier), RateIn(db, base, currency));
      t.Some? ==> t.value <= 0.0
  {
    var t := SqlDiv(Some(quantity * o.strike * o.multiplier), RateIn(db, base, currency));
    if t.Some? {
      var rate := RateIn(db, base, currency).value;
      var k :| 0 <= k < |db.currencies| && db.currencies[k] == CurrencyRow(base, currency, Some(rate));
      var j :| 0 <= j < |db.options| && db.options[j] == o;
      QuotientNonPositive(quantity, o.strike, o.multiplier, rate, t.value);
    }
  }

  /** A short quantity times a non-negative strike and multiplier, over a positive rate, is non-positive. */
  lemma QuotientNonPositive(quantity: real, strike: real, multiplier: real, rate: real, t: real)
    requires quantity < 0.0 && strike >= 0.0 && multiplier >= 0.0 && rate > 0.0
    requires t * rate == quantity * strike * multiplier
    ensures t <= 0.0
  {
    var sm := strike * multiplier;
    assert sm >= 0.0;
    assert quantity * strike * multiplier == quantity * sm;
    assert quantity * sm <= 0.0;
  }

  /** "returned value is <= 0 in base currency": a naked-put sum never exceeds 0 (NULL read as 0). */
  lemma NakedPutAmountNonPositive(db: Db, account: string, scope: PutScope)
    requires SaneMarket(db)
    ensures NakedPutAmount(db, account, scope).GetOr(0.0) <= 0.0
  {
    if p :| FindPortfolio(db, account) == Some(p) {
      forall pos: PositionRow
        ensures ShortPutInBase(db, p.baseCurrency, scope)(pos).Some? ==> ShortPutInBase(db, p.baseCurrency, scope)(pos).value <= 0.0
      {
        ShortPutTermNonPositive(db, p.baseCurrency, scope, pos);
      }
      SumOverNonPositive(db.positions, PositionOf(p.id), ShortPutInBase(db, p.baseCurrency, scope));
    }
  }

  /**
   * The commitment of the in-the-money puts, and of the puts on one
   * underlying, is never larger (in magnitude) than that of all short puts.
   */
  lemma TotalNakedPutsBoundScoped(db: Db, account: string, scope: PutScope)
    requires SaneMarket(db)
    ensures NakedPutAmount(db, account, AllPuts).GetOr(0.0) <= NakedPutAmount(db, account, scope).GetOr(0.0)
  {
    if p :| FindPortfolio(db, account) == Some(p) {
      var all, scoped := ShortPutInBase(db, p.baseCurrency, AllPuts), ShortPutInBase(db, p.baseCurrency, scope);
      forall i | 0 <= i < |db.positions| && PositionOf(p.id)(db.positions[i])
        ensures scoped(db.positions[i]) == all(db.positions[i])
                || (scoped(db.positions[i]).None? && (all(db.positions[i]).Some? ==> all(db.positions[i]).value <= 0.0))
      {
        ShortPutTermNonPositive(db, p.baseCurrency, AllPuts, db.positions[i]);
      }
      SumOverDropNonPositive(db.positions, PositionOf(p.id), all, scoped);
    }
  }

  // ---------------------------------------------------------------------
  // Order book
  // ---------------------------------------------------------------------

  /** `open_order.contract_id = contract.id AND contract.symbol = ? AND contract.secType = 'STK'`. */
  predicate OnStock(contracts: seq<ContractRow>, contractId: int, symbol: string) {
    match ContractById(contracts, contractId)
    case None => false
    case Some(c) => c.symbol == symbol && c.secType == "STK"
  }

  /** The live stock orders of the account on one symbol and side. */
  function LiveStockOrder(contracts: seq<ContractRow>, pid: int, symbol: string, side: Side): OpenOrderRow -> bool {
    (o: OpenOrderRow) => o.accountId == pid && OnStock(contracts, o.contractId, symbol)
                         && o.actionType == side.Text() && IsLive(o.status)
  }

  /** `open_order.contract_id = option.id AND option.call_or_put = ? AND option.stock_id = contract.id AND contract.symbol = ?`. */
  predicate OnOptionOf(contracts: seq<ContractRow>, options: seq<OptionRow>, contractId: int, right: string, stock: string) {
    match OptionById(options, contractId)
    case None => false
    case Some(o) =>
      o.callOrPut == right &&
      match ContractById(contracts, o.stockId)
      case None => false
      case Some(c) => c.symbol == stock
  }

  /** The live option orders of the account on one underlying, right and side. */
  function LiveOptionOrder(contracts: seq<ContractRow>, options: seq<OptionRow>, pid: int, stock: string, right: string, side: Side): OpenOrderRow -> bool {
    (o: OpenOrderRow) => o.accountId == pid && OnOptionOf(contracts, options, o.contractId, right, stock)
                         && o.actionType == side.Text() && IsLive(o.status)
  }

  function Remaining(o: OpenOrderRow): Option<real> { Some(o.remainingQty) }

  /** `remaining_qty * option.multiplier` (NULL if the option row went missing). */
  function RemainingContracts(options: seq<OptionRow>): OpenOrderRow -> Option<real> {
    (o: OpenOrderRow) =>
      match OptionById(options, o.contractId)
      case None => None
      case Some(opt) => Some(o.remainingQty * opt.multiplier)
  }

  /** The book's sign convention: a BUY quantity counts positive, a SELL quantity negative. */
  function Signed(side: Side, q: real): real {
    match side
    case Buy => q
    case Sell => -q
  }

  /** `if r[0]: ±float(r[0]) else: 0`: a NULL or zero SUM reads as 0, otherwise it is signed by side. */
  function SignedSum(side: Side, s: Option<real>): (r: real)
    ensures r == Signed(side, s.GetOr(0.0))
  {
    if s.None? || s.value == 0.0 then 0.0 else Signed(side, s.value)
  }

  /** `getStockQuantityOnOrderBook`: live `remaining_qty` of the account's stock orders on one symbol and side. */
  function StockQuantityOnOrderBook(db: Db, account: string, symbol: string, side: Side): (r: real)
    ensures FindPortfolio(db, account).None? ==> r == 0.0
    ensures FindPortfolio(db, account).Some? ==>
              r == Signed(side, SumOver(db.openOrders, LiveStockOrder(db.contracts, FindPortfolio(db, account).value.id, symbol, side), Remaining).GetOr(0.0))
  {
    match FindPortfolio(db, account)
    case None => 0.0
    case Some(p) => SignedSum(side, SumOver(db.openOrders, LiveStockOrder(db.contracts, p.id, symbol, side), Remaining))
  }

  /** `getOptionsQuantityOnOrderBook`: live `remaining_qty * multiplier` of the account's option orders. */
  function OptionsQuantityOnOrderBook(db: Db, account: string, stock: string, right: string, side: Side): (r: real)
    ensures FindPortfolio(db, account).None? ==> r == 0.0
    ensures FindPortfolio(db, account).Some? ==>
              r == Signed(side, SumOver(db.openOrders, LiveOptionOrder(db.contracts, db.options, FindPortfolio(db, account).value.id, stock, right, side),
                                        RemainingContracts(db.options)).GetOr(0.0))
  {
    match FindPortfolio(db, account)
    case None => 0.0
    case Some(p) => SignedSum(side, SumOver(db.openOrders, LiveOptionOrder(db.contracts, db.options, p.id, stock, right, side), RemainingContracts(db.options)))
  }

  /** With no live order of that symbol and side on the book, the book quantity is 0. */
  lemma OrderBookEmpty(db: Db, account: string, symbol: string, side: Side)
    requires forall p, i :: FindPortfolio(db, account) == Some(p) && 0 <= i < |db.openOrders| ==>
               !LiveStockOrder(db.contracts, p.id, symbol, side)(db.openOrders[i])
    ensures StockQuantityOnOrderBook(db, account, symbol, side) == 0.0
  {
  }

  /** BUY quantities are non-negative and SELL quantities non-positive, when no order has a negative remainder. */
  lemma {:induction false} OrderBookSign(db: Db, account: string, symbol: string, side: Side)
    requires forall i :: 0 <= i < |db.openOrders| ==> db.openOrders[i].remainingQty >= 0.0
    ensures side == Buy ==> StockQuantityOnOrderBook(db, account, symbol, side) >= 0.0
    ensures side == Sell ==> StockQuantityOnOrderBook(db, account, symbol, side) <= 0.0
  {
    if p :| FindPortfolio(db, account) == Some(p) {
      SumOverNonNegative(db.openOrders, LiveStockOrder(db.contracts, p.id, symbol, side), Remaining);
    }
  }

  /**
   * The book quantity is a sum over the matching live orders alone: dropping
   * every other open order, whatever its status, side or instrument, leaves
   * it unchanged.
   */
  lemma OrderBookOnlyLiveOrders(db: Db, account: string, symbol: string, side: Side, pid: int)
    requires FindPortfolio(db, account).Some? && FindPortfolio(db, account).value.id == pid
    ensures StockQuantityOnOrderBook(db.(openOrders := Where(db.openOrders, LiveStockOrder(db.contracts, pid, symbol, side))), account, symbol, side)
            == StockQuantityOnOrderBook(db, account, symbol, side)
  {
    var db' := db.(openOrders := Where(db.openOrders, LiveStockOrder(db.contracts, pid, symbol, side)));
    assert FindPortfolio(db', account) == FindPortfolio(db, account);
    SumOverWhere(db.openOrders, LiveStockOrder(db.contracts, pid, symbol, side), LiveStockOrder(db.contracts, pid, symbol, side), Remaining);
  }

  /** A new live order of that symbol and side moves the book quantity by its signed remainder. */
  lemma OrderBookAppend(db: Db, account: string, symbol: string, side: Side, o: OpenOrderRow)
    requires FindPortfolio(db, account).Some? && LiveStockOrder(db.contracts, FindPortfolio(db, account).value.id, symbol, side)(o)
    ensures StockQuantityOnOrderBook(db.(openOrders := db.openOrders + [o]), account, symbol, side)
            == StockQuantityOnOrderBook(db, account, symbol, side) + Signed(side, o.remainingQty)
  {
    var p := FindPortfolio(db, account).value;
    var db' := db.(openOrders := db.openOrders + [o]);
    assert FindPortfolio(db', account) == Some(p);
    assert db'.openOrders[..|db'.openOrders| - 1] == db.openOrders;
  }

  /** With no live option order of that underlying, right and side on the book, the book quantity is 0. */
  lemma OptionsBookEmpty(db: Db, account: string, stock: string, right: string, side: Side)
    requires forall p, i :: FindPortfolio(db, account) == Some(p) && 0 <= i < |db.openOrders| ==>
               !LiveOptionOrder(db.contracts, db.options, p.id, stock, right, side)(db.openOrders[i])
    ensures OptionsQuantityOnOrderBook(db, account, stock, right, side) == 0.0
  {
  }

  /** BUY option quantities are non-negative and SELL ones non-positive, when remainders and multipliers are non-negative. */
  lemma {:induction false} OptionsBookSign(db: Db, account: string, stock: string, right: string, side: Side)
    requires forall i :: 0 <= i < |db.openOrders| ==> db.openOrders[i].remainingQty >= 0.0
    requires forall i :: 0 <= i < |db.options| ==> db.options[i].multiplier >= 0.0
    ensures side == Buy ==> OptionsQuantityOnOrderBook(db, account, stock, right, side) >= 0.0
    ensures side == Sell ==> OptionsQuantityOnOrderBook(db, account, stock, right, side) <= 0.0
  {
    if p :| FindPortfolio(db, account) == Some(p) {
      var joins := LiveOptionOrder(db.contracts, db.options, p.id, stock, right, side);
      forall i | 0 <= i < |db.openOrders| && joins(db.openOrders[i]) && RemainingContracts(db.options)(db.openOrders[i]).Some?
        ensures RemainingContracts(db.options)(db.openOrders[i]).value >= 0.0
      {
        var opt := OptionById(db.options, db.openOrders[i].contractId).value;
        var k :| 0 <= k < |db.options| && db.options[k] == opt;
        ProductNonNegative(db.openOrders[i].remainingQty, opt.multiplier);
      }
      SumOverNonNegative(db.openOrders, joins, RemainingContracts(db.options));
    }
  }

  lemma ProductNonNegative(a: real, b: real)
    requires a >= 0.0 && b >= 0.0
    ensures a * b >= 0.0
  {
  }

  /** A new live option order whose option row is on file moves the book quantity by its signed remainder times the multiplier. */
  lemma OptionsBookAppend(db: Db, account: string, p: PortfolioRow, stock: string, right: string, side: Side, o: OpenOrderRow, opt: OptionRow)
    requires FindPortfolio(db, account) == Some(p)
    requires LiveOptionOrder(db.contracts, db.options, p.id, stock, right, side)(o)
    requires OptionById(db.options, o.contractId) == Some(opt)
    ensures OptionsQuantityOnOrderBook(db.(openOrders := db.openOrders + [o]), account, stock, right, side)
            == OptionsQuantityOnOrderBook(db, account, stock, right, side) + Signed(side, o.remainingQty * opt.multiplier)
  {
    var db' := db.(openOrders := db.openOrders + [o]);
    var joins, t := LiveOptionOrder(db.contracts, db.options, p.id, stock, right, side), RemainingContracts(db.options);
    var m := o.remainingQty * opt.multiplier;
    assert FindPortfolio(db', account) == Some(p);
    assert t(o).Some? && t(o).value == m;
    SumOverAppend(db.openOrders, joins, t, o);
    var before := SumOver(db.openOrders, joins, t).GetOr(0.0);
    assert SumOver(db'.openOrders, joins, t).GetOr(0.0) == before + m;
    assert OptionsQuantityOnOrderBook(db', account, stock, right, side) == Signed(side, before + m);
    assert OptionsQuantityOnOrderBook(db, account, stock, right, side) == Signed(side, before);
  }
}
