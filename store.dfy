/**
 * The trader's relational store: one sequence of rows per table, in rowid
 * order, and the uniqueness facts the trader's own select-before-insert
 * idiom maintains.
 */
module Store {
  import opened Wrappers
  import opened Sql
  import opened Broker

  datatype PortfolioRow = PortfolioRow(id: int, account: string, baseCurrency: string)

  /** A tradable instrument with its live quote fields and its pending request mark. */
  datatype ContractRow = ContractRow(
    id: int,
    secType: string,
    symbol: string,
    exchange: Option<string>,
    currency: string,
    conId: Option<int>,
    name: Option<string>,
    price: Option<real>,
    bid: Option<real>,
    ask: Option<real>,
    previousClosePrice: Option<real>,
    apiReqId: Option<int>)

  datatype StockRow = StockRow(
    id: int,
    industry: Option<string>,
    category: Option<string>,
    subcategory: Option<string>)

  datatype OptionRow = OptionRow(
    id: int,
    stockId: int,
    callOrPut: string,
    strike: real,
    lastTradeDate: string,
    multiplier: real,
    greeks: Option<Greeks>)

  /** A position; `contractId` is NULL when the instrument could not be resolved. */
  datatype PositionRow = PositionRow(
    portfolioId: int,
    contractId: Option<int>,
    quantity: real,
    cost: real,
    openDate: int)

  datatype BalanceRow = BalanceRow(portfolioId: int, currency: string, quantity: real)

  /** Exchange-rate edge: `rate` converts `currency` into `base`; NULL after a division by zero. */
  datatype CurrencyRow = CurrencyRow(base: string, currency: string, rate: Option<real>)

  datatype OpenOrderRow = OpenOrderRow(
    accountId: int,
    contractId: int,
    permId: int,
    clientId: int,
    orderId: int,
    actionType: string,
    totalQty: real,
    cashQty: real,
    lmtPrice: real,
    auxPrice: real,
    status: string,
    remainingQty: real)

  datatype Db = Db(
    portfolios: seq<PortfolioRow>,
    contracts: seq<ContractRow>,
    stocks: seq<StockRow>,
    options: seq<OptionRow>,
    positions: seq<PositionRow>,
    balances: seq<BalanceRow>,
    currencies: seq<CurrencyRow>,
    openOrders: seq<OpenOrderRow>)

  /** The rowid SQLite gives the next row: one more than the largest, 1 in an empty table. */
  function NextRowId(contracts: seq<ContractRow>): int {
    if contracts == [] then 1 else contracts[|contracts| - 1].id + 1
  }

  ghost predicate IdsIncreasing(contracts: seq<ContractRow>) {
    forall i, j :: 0 <= i < j < |contracts| ==> contracts[i].id < contracts[j].id
  }

  function AccountKey(p: PortfolioRow): Option<string> { Some(p.account) }

  /** Stock and option rows extend contract rows already allocated, one each. */
  ghost predicate ExtensionsAllocated(db: Db) {
    && (forall i :: 0 <= i < |db.stocks| ==> db.stocks[i].id < NextRowId(db.contracts))
    && (forall i :: 0 <= i < |db.options| ==> db.options[i].id < NextRowId(db.contracts))
    && (forall i, j :: 0 <= i < j < |db.stocks| ==> db.stocks[i].id != db.stocks[j].id)
    && (forall i, j :: 0 <= i < j < |db.options| ==> db.options[i].id != db.options[j].id)
  }

  /** Rows of the position with this key: NULL contract ids match nothing. */
  predicate PositionKey(r: PositionRow, portfolioId: int, contractId: Option<int>) {
    r.portfolioId == portfolioId && SqlEq(r.contractId, contractId)
  }

  function PositionKeyOf(r: PositionRow): Option<(int, int)> {
    match r.contractId
    case None => None
    case Some(c) => Some((r.portfolioId, c))
  }

  function BalanceKey(b: BalanceRow): Option<(int, string)> { Some((b.portfolioId, b.currency)) }

  function RateKey(c: CurrencyRow): Option<(string, string)> { Some((c.base, c.currency)) }

  function OrderKey(o: OpenOrderRow): Option<int> { Some(o.orderId) }

  /**
   * The store invariant: primary keys, rowids and the natural keys that the
   * trader's update-then-insert and select-then-insert idioms keep unique.
   */
  ghost predicate Valid(db: Db) {
    && Distinct(db.portfolios, AccountKey)
    && IdsIncreasing(db.contracts)
    && ExtensionsAllocated(db)
    && Distinct(db.positions, PositionKeyOf)
    && Distinct(db.balances, BalanceKey)
    && Distinct(db.currencies, RateKey)
    && Distinct(db.openOrders, OrderKey)
  }

  /** `findPortfolio`: the portfolio row of an account. */
  function FindPortfolio(db: Db, account: string): (r: Option<PortfolioRow>)
    ensures r.Some? <==> exists i :: 0 <= i < |db.portfolios| && db.portfolios[i].account == account
    ensures r.Some? ==> r.value in db.portfolios && r.value.account == account
  {
    match FirstIndex(db.portfolios, (p: PortfolioRow) => p.account == account)
    case None => None
    case Some(i) => Some(db.portfolios[i])
  }

  /** The contract row with a given id. */
  function ContractById(contracts: seq<ContractRow>, id: int): (r: Option<ContractRow>)
    ensures r.Some? ==> r.value in contracts && r.value.id == id
    ensures r.None? ==> forall i :: 0 <= i < |contracts| ==> contracts[i].id != id
  {
    match FirstIndex(contracts, (c: ContractRow) => c.id == id)
    case None => None
    case Some(i) => Some(contracts[i])
  }

  /** The option row extending a given contract id. */
  function OptionById(options: seq<OptionRow>, id: int): (r: Option<OptionRow>)
    ensures r.Some? ==> r.value in options && r.value.id == id
    ensures r.None? ==> forall i :: 0 <= i < |options| ==> options[i].id != id
  {
    match FirstIndex(options, (o: OptionRow) => o.id == id)
    case None => None
    case Some(i) => Some(options[i])
  }

  /** The first contract row carrying a symbol. */
  function ContractBySymbol(db: Db, symbol: string): (r: Option<ContractRow>)
    ensures r.Some? ==> r.value in db.contracts && r.value.symbol == symbol
    ensures r.None? ==> forall i :: 0 <= i < |db.contracts| ==> db.contracts[i].symbol != symbol
  {
    match FirstIndex(db.contracts, (c: ContractRow) => c.symbol == symbol)
    case None => None
    case Some(i) => Some(db.contracts[i])
  }

  /** The rate stored for the edge (base, currency), if a row exists (the rate itself may be NULL). */
  function RateOf(rows: seq<CurrencyRow>, base: string, currency: string): (r: Option<Option<real>>)
    ensures r.Some? <==> exists i :: 0 <= i < |rows| && rows[i].base == base && rows[i].currency == currency
    ensures r.Some? ==> CurrencyRow(base, currency, r.value) in rows
  {
    match FirstIndex(rows, (c: CurrencyRow) => c.base == base && c.currency == currency)
    case None => None
    case Some(i) => Some(rows[i].rate)
  }

  /** Rewriting contract rows without touching their ids keeps the store invariant. */
  lemma SameContractIdsValid(db: Db, contracts: seq<ContractRow>)
    requires Valid(db) && |contracts| == |db.contracts|
    requires forall i :: 0 <= i < |contracts| ==> contracts[i].id == db.contracts[i].id
    ensures Valid(db.(contracts := contracts))
    ensures NextRowId(contracts) == NextRowId(db.contracts)
  {
  }

  /** Rewriting stock rows without touching their ids keeps the store invariant. */
  lemma SameStockIdsValid(db: Db, stocks: seq<StockRow>)
    requires Valid(db) && |stocks| == |db.stocks|
    requires forall i :: 0 <= i < |stocks| ==> stocks[i].id == db.stocks[i].id
    ensures Valid(db.(stocks := stocks))
  {
  }

  /** Rewriting option rows without touching their ids keeps the store invariant. */
  lemma SameOptionIdsValid(db: Db, options: seq<OptionRow>)
    requires Valid(db) && |options| == |db.options|
    requires forall i :: 0 <= i < |options| ==> options[i].id == db.options[i].id
    ensures Valid(db.(options := options))
  {
  }

  /** A currency table with distinct edges keeps the store invariant. */
  lemma CurrenciesValid(db: Db, currencies: seq<CurrencyRow>)
    requires Valid(db) && Distinct(currencies, RateKey)
    ensures Valid(db.(currencies := currencies))
  {
  }

  /** A balance table with one row per (portfolio, currency) keeps the store invariant. */
  lemma BalancesValid(db: Db, balances: seq<BalanceRow>)
    requires Valid(db) && Distinct(balances, BalanceKey)
    ensures Valid(db.(balances := balances))
  {
  }

  /** A position table with one row per (portfolio, contract) keeps the store invariant. */
  lemma PositionsValid(db: Db, positions: seq<PositionRow>)
    requires Valid(db) && Distinct(positions, PositionKeyOf)
    ensures Valid(db.(positions := positions))
  {
  }

  /** An open-order table with one row per order id keeps the store invariant. */
  lemma OpenOrdersValid(db: Db, openOrders: seq<OpenOrderRow>)
    requires Valid(db) && Distinct(openOrders, OrderKey)
    ensures Valid(db.(openOrders := openOrders))
  {
  }

  /** Under distinct rate keys, the rate lookup finds the one row of its edge. */
  lemma RateOfRow(rows: seq<CurrencyRow>, row: CurrencyRow)
    requires Distinct(rows, RateKey) && row in rows
    ensures RateOf(rows, row.base, row.currency) == Some(row.rate)
  {
    var r := RateOf(rows, row.base, row.currency);
    DistinctSameKey(rows, RateKey, row, CurrencyRow(row.base, row.currency, r.value));
  }
}
