/**
 * Instrument registry (`findOrCreateStockContract`,
 * `findOrCreateOptionContract`, `findOrCreateContract`): resolve a broker
 * contract to the id of a local contract row, creating the row (and its stock
 * or option extension) on a miss. Each returns the store after the lookup
 * together with the id.
 */
module Registry {
  import opened Wrappers
  import opened Sql
  import opened Symbols
  import opened Broker
  import opened Store

  /** `con_id = ?`: a NULL on either side matches nothing. */
  predicate ConIdMatch(r: ContractRow, c: Contract) {
    SqlEq(r.conId, c.conId)
  }

  /** `secType = 'STK' AND symbol = normalizeSymbol(c.symbol)`. */
  predicate StockMatch(r: ContractRow, c: Contract) {
    r.secType == "STK" && r.symbol == NormalizeSymbol(c.symbol)
  }

  /** `stock_id = ? AND call_or_put = ? AND strike = ? AND last_trade_date = ?`. */
  predicate OptionMatch(o: OptionRow, stockId: int, c: Contract) {
    o.stockId == stockId && o.callOrPut == c.right && o.strike == c.strike
    && o.lastTradeDate == c.lastTradeDateOrContractMonth
  }

  /** The three lookups as row filters, named so that every use denotes the same function. */
  function ConIdIs(c: Contract): ContractRow -> bool { (r: ContractRow) => ConIdMatch(r, c) }
  function StockIs(c: Contract): ContractRow -> bool { (r: ContractRow) => StockMatch(r, c) }
  function OptionIs(stockId: int, c: Contract): OptionRow -> bool { (o: OptionRow) => OptionMatch(o, stockId, c) }

  /**
   * Display symbol of a new option row, "SYMBOL EXPIRY STRIKE RIGHT". The
   * day-month-year label and the one-decimal strike text are not modelled:
   * the expiry keeps its broker text and the strike is left out.
   */
  function OptionDisplaySymbol(c: Contract): string {
    NormalizeSymbol(c.symbol) + " " + c.lastTradeDateOrContractMonth + " " + c.right
  }

  function NewContractRow(id: int, secType: string, symbol: string, exchange: Option<string>,
                          currency: string, conId: Option<int>, name: Option<string>): ContractRow
  {
    ContractRow(id, secType, symbol, exchange, currency, conId, name, None, None, None, None, None)
  }

  /** `after` differs from `before` only by contract, stock and option rows appended to the contract table's end. */
  ghost predicate Extends(before: Db, after: Db) {
    && |before.contracts| <= |after.contracts|
    && after.contracts[..|before.contracts|] == before.contracts
    && after == before.(contracts := after.contracts, stocks := after.stocks, options := after.options)
  }

  lemma ExtendsTransitive(a: Db, b: Db, c: Db)
    requires Extends(a, b) && Extends(b, c)
    ensures Extends(a, c)
  {
    assert c.contracts[..|a.contracts|] == c.contracts[..|b.contracts|][..|a.contracts|];
  }

  lemma BelowNextRowId(contracts: seq<ContractRow>)
    requires IdsIncreasing(contracts)
    ensures forall i :: 0 <= i < |contracts| ==> contracts[i].id < NextRowId(contracts)
  {
  }

  /** Appending a contract row under the next rowid keeps the store invariant. */
  lemma AppendContractValid(db: Db, row: ContractRow)
    requires Valid(db) && row.id == NextRowId(db.contracts)
    ensures Valid(db.(contracts := db.contracts + [row]))
    ensures NextRowId(db.contracts + [row]) == row.id + 1
  {
    BelowNextRowId(db.contracts);
  }

  /** `INSERT INTO contract(...)` of a stock, then `INSERT INTO stock(id)`. */
  function InsertStock(db: Db, symbol: string, exchange: string, currency: string,
                       conId: Option<int>): (r: (Db, int))
    requires Valid(db)
    ensures Valid(r.0)
    ensures r.1 == NextRowId(db.contracts)
    ensures r.0 == db.(contracts := db.contracts + [NewContractRow(r.1, "STK", symbol, Some(exchange), currency, conId, None)],
                       stocks := db.stocks + [StockRow(r.1, None, None, None)])
  {
    var id := NextRowId(db.contracts);
    var row := NewContractRow(id, "STK", symbol, Some(exchange), currency, conId, None);
    AppendContractValid(db, row);
    (db.(contracts := db.contracts + [row], stocks := db.stocks + [StockRow(id, None, None, None)]), id)
  }

  /**
   * `findOrCreateStockContract`: the row with the broker's `con_id`, else the
   * stock row with the normalised symbol, else a new contract row and stock
   * row.
   */
  function FindOrCreateStockContract(db: Db, c: Contract): (r: (Db, int))
    requires Valid(db)
    ensures Valid(r.0)
    ensures (exists i :: 0 <= i < |db.contracts| && ConIdMatch(db.contracts[i], c)) ==>
              r.0 == db && exists i :: 0 <= i < |db.contracts| && ConIdMatch(db.contracts[i], c) && db.contracts[i].id == r.1
    ensures (forall i :: 0 <= i < |db.contracts| ==> !ConIdMatch(db.contracts[i], c))
            && (exists i :: 0 <= i < |db.contracts| && StockMatch(db.contracts[i], c)) ==>
              r.0 == db && exists i :: 0 <= i < |db.contracts| && StockMatch(db.contracts[i], c) && db.contracts[i].id == r.1
    ensures (forall i :: 0 <= i < |db.contracts| ==> !ConIdMatch(db.contracts[i], c) && !StockMatch(db.contracts[i], c)) ==>
              && r.1 == NextRowId(db.contracts)
              && r.0 == db.(contracts := db.contracts + [NewContractRow(r.1, "STK", NormalizeSymbol(c.symbol), Some(c.primaryExchange), c.currency, c.conId, None)],
                            stocks := db.stocks + [StockRow(r.1, None, None, None)])
  {
    match FirstIndex(db.contracts, ConIdIs(c))
    case Some(i) => (db, db.contracts[i].id)
    case None =>
      match FirstIndex(db.contracts, StockIs(c))
      case Some(i) => (db, db.contracts[i].id)
      case None => InsertStock(db, NormalizeSymbol(c.symbol), c.primaryExchange, c.currency, c.conId)
  }

  /** The underlying for an option: the stock row with the normalised symbol, created on a miss, with the name to copy. */
  function FindOrCreateUnderlying(db: Db, c: Contract): (r: (Db, int, Option<string>))
    requires Valid(db)
    ensures Valid(r.0)
    ensures Extends(db, r.0) && |r.0.contracts| <= |db.contracts| + 1
    ensures FirstIndex(r.0.contracts, StockIs(c)).Some?
    ensures r.0.contracts[FirstIndex(r.0.contracts, StockIs(c)).value].id == r.1
    ensures forall i :: |db.contracts| <= i < |r.0.contracts| ==> r.0.contracts[i].conId.None?
    ensures (exists i :: 0 <= i < |db.contracts| && StockMatch(db.contracts[i], c)) ==> r.0 == db
    ensures (forall i :: 0 <= i < |db.contracts| ==> !StockMatch(db.contracts[i], c)) ==>
              && r.2 == Some(c.localSymbol)
              && (r.0, r.1) == InsertStock(db, NormalizeSymbol(c.symbol), c.primaryExchange, c.currency, None)
  {
    match FirstIndex(db.contracts, StockIs(c))
    case Some(i) => (db, db.contracts[i].id, db.contracts[i].name)
    case None =>
      var (db', id) := InsertStock(db, NormalizeSymbol(c.symbol), c.primaryExchange, c.currency, None);
      assert db'.contracts[|db.contracts|].id == id;
      assert db'.contracts[..|db.contracts|] == db.contracts;
      FirstIndexIs(db'.contracts, StockIs(c), |db.contracts|);
      (db', id, Some(c.localSymbol))
  }

  /** `INSERT INTO contract(...)` of an option, then `INSERT INTO option(...)` under the same id. */
  function InsertOption(db: Db, c: Contract, stockId: int, name: Option<string>): (r: (Db, int))
    requires Valid(db)
    ensures Valid(r.0)
    ensures r.1 == NextRowId(db.contracts)
    ensures r.0 == db.(contracts := db.contracts + [NewContractRow(r.1, c.secType, OptionDisplaySymbol(c), None, c.currency, c.conId, name)],
                       options := db.options + [OptionRow(r.1, stockId, c.right, c.strike, c.lastTradeDateOrContractMonth, c.multiplier, None)])
  {
    var id := NextRowId(db.contracts);
    var row := NewContractRow(id, c.secType, OptionDisplaySymbol(c), None, c.currency, c.conId, name);
    AppendContractValid(db, row);
    (db.(contracts := db.contracts + [row],
         options := db.options + [OptionRow(id, stockId, c.right, c.strike, c.lastTradeDateOrContractMonth, c.multiplier, None)]), id)
  }

  /** The option row on (underlying, right, strike, last trade date), created on a miss. */
  function FindOrCreateOptionRow(db: Db, c: Contract, stockId: int, name: Option<string>): (r: (Db, int))
    requires Valid(db)
    ensures Valid(r.0)
    ensures Extends(db, r.0) && |r.0.contracts| <= |db.contracts| + 1
    ensures FirstIndex(r.0.options, OptionIs(stockId, c)).Some?
    ensures r.0.options[FirstIndex(r.0.options, OptionIs(stockId, c)).value].id == r.1
    ensures forall i :: |db.contracts| <= i < |r.0.contracts| ==> r.0.contracts[i].conId == c.conId && r.0.contracts[i].id == r.1
    ensures (exists j :: 0 <= j < |db.options| && OptionMatch(db.options[j], stockId, c)) ==> r.0 == db
    ensures (forall j :: 0 <= j < |db.options| ==> !OptionMatch(db.options[j], stockId, c)) ==>
              r == InsertOption(db, c, stockId, name)
  {
    match FirstIndex(db.options, OptionIs(stockId, c))
    case Some(j) => (db, db.options[j].id)
    case None =>
      var r := InsertOption(db, c, stockId, name);
      assert r.0.options[|db.options|].id == r.1;
      assert r.0.contracts[..|db.contracts|] == db.contracts;
      FirstIndexIs(r.0.options, OptionIs(stockId, c), |db.options|);
      r
  }

  /** Contract row `s` is the underlying stock of `c` and option row `j`, of id `id`, files `c` under it. */
  ghost predicate OptionFiledAt(db: Db, c: Contract, id: int, s: int, j: int) {
    && 0 <= s < |db.contracts| && 0 <= j < |db.options|
    && StockMatch(db.contracts[s], c) && db.options[j].id == id
    && OptionMatch(db.options[j], db.contracts[s].id, c)
  }

  ghost predicate OptionFiled(db: Db, c: Contract, id: int) {
    exists s, j :: OptionFiledAt(db, c, id, s, j)
  }

  /**
   * `findOrCreateOptionContract`: the row with the broker's `con_id`, else the
   * option row on (underlying, right, strike, last trade date) under the
   * resolved or newly created underlying stock, else a new contract row and
   * option row.
   */
  function FindOrCreateOptionContract(db: Db, c: Contract): (r: (Db, int))
    requires Valid(db)
    ensures Valid(r.0)
    ensures FirstIndex(db.contracts, ConIdIs(c)).Some? ==>
              r == (db, db.contracts[FirstIndex(db.contracts, ConIdIs(c)).value].id)
    ensures FirstIndex(db.contracts, ConIdIs(c)).None? ==> OptionFiled(r.0, c, r.1)
    ensures Extends(db, r.0) && |r.0.contracts| <= |db.contracts| + 2
  {
    match FirstIndex(db.contracts, ConIdIs(c))
    case Some(i) => (db, db.contracts[i].id)
    case None => FileOption(db, c)
  }

  /** The lookup by key, once the broker's `con_id` is not on file. */
  function FileOption(db: Db, c: Contract): (r: (Db, int))
    requires Valid(db)
    ensures Valid(r.0) && OptionFiled(r.0, c, r.1)
    ensures Extends(db, r.0) && |r.0.contracts| <= |db.contracts| + 2
    ensures forall i :: |db.contracts| <= i < |r.0.contracts| ==>
              r.0.contracts[i].conId.None? || (r.0.contracts[i].conId == c.conId && r.0.contracts[i].id == r.1)
  {
    var u := FindOrCreateUnderlying(db, c);
    var r := FindOrCreateOptionRow(u.0, c, u.1, u.2);
    FiledUnderStock(u.0, r.0, c, u.1, r.1);
    AppendedRows(db, u.0, r.0, c, r.1);
    r
  }

  /** An option row filed under a stock row that a later extension keeps is an option filed under that stock. */
  lemma FiledUnderStock(db1: Db, db2: Db, c: Contract, stockId: int, id: int)
    requires FirstIndex(db1.contracts, StockIs(c)).Some?
    requires db1.contracts[FirstIndex(db1.contracts, StockIs(c)).value].id == stockId
    requires FirstIndex(db2.options, OptionIs(stockId, c)).Some?
    requires db2.options[FirstIndex(db2.options, OptionIs(stockId, c)).value].id == id
    requires |db1.contracts| <= |db2.contracts| && db2.contracts[..|db1.contracts|] == db1.contracts
    ensures OptionFiled(db2, c, id)
  {
    var s := FirstIndex(db1.contracts, StockIs(c)).value;
    var j := FirstIndex(db2.options, OptionIs(stockId, c)).value;
    assert db2.contracts[s] == db2.contracts[..|db1.contracts|][s];
    assert OptionFiledAt(db2, c, id, s, j);
  }

  /** Rows appended in two steps: the earlier step's rows have no `con_id`, the later step's carry `c`'s and `id`. */
  lemma AppendedRows(db: Db, db1: Db, db2: Db, c: Contract, id: int)
    requires Extends(db, db1) && Extends(db1, db2)
    requires |db1.contracts| <= |db.contracts| + 1 && |db2.contracts| <= |db1.contracts| + 1
    requires forall i :: |db.contracts| <= i < |db1.contracts| ==> db1.contracts[i].conId.None?
    requires forall i :: |db1.contracts| <= i < |db2.contracts| ==> db2.contracts[i].conId == c.conId && db2.contracts[i].id == id
    ensures Extends(db, db2) && |db2.contracts| <= |db.contracts| + 2
    ensures forall i :: |db.contracts| <= i < |db2.contracts| ==>
              db2.contracts[i].conId.None? || (db2.contracts[i].conId == c.conId && db2.contracts[i].id == id)
  {
    ExtendsTransitive(db, db1, db2);
    forall i | |db.contracts| <= i < |db1.contracts|
      ensures db2.contracts[i] == db1.contracts[i]
    {
      assert db2.contracts[i] == db2.contracts[..|db1.contracts|][i];
    }
  }

  /** `findOrCreateContract`: dispatch on the security type; any other type resolves to no id. */
  function FindOrCreateContract(db: Db, c: Contract): (r: (Db, Option<int>))
    requires Valid(db)
    ensures Valid(r.0)
    ensures r.1.Some? <==> c.secType == "STK" || c.secType == "OPT"
    ensures r.1.None? ==> r.0 == db
    ensures r.1.Some? ==> r.1.value < NextRowId(r.0.contracts)
    ensures Extends(db, r.0)
  {
    if c.secType == "STK" then
      var (db', id) := FindOrCreateStockContract(db, c);
      assert db'.contracts[..|db.contracts|] == db.contracts;
      StockIdBelow(db, c);
      (db', Some(id))
    else if c.secType == "OPT" then
      var (db', id) := FindOrCreateOptionContract(db, c);
      OptionIdBelow(db, c);
      (db', Some(id))
    else (db, None)
  }

  /** The id a stock lookup resolves to is that of a contract row of the store after it. */
  lemma StockIdBelow(db: Db, c: Contract)
    requires Valid(db)
    ensures FindOrCreateStockContract(db, c).1 < NextRowId(FindOrCreateStockContract(db, c).0.contracts)
  {
    var r := FindOrCreateStockContract(db, c);
    BelowNextRowId(r.0.contracts);
    if r.0 != db {
      assert r.0.contracts[|db.contracts|].id == r.1;
    }
  }

  /** The id an option lookup resolves to is that of a contract row of the store after it. */
  lemma OptionIdBelow(db: Db, c: Contract)
    requires Valid(db)
    ensures FindOrCreateOptionContract(db, c).1 < NextRowId(FindOrCreateOptionContract(db, c).0.contracts)
  {
    var r := FindOrCreateOptionContract(db, c);
    match FirstIndex(db.contracts, ConIdIs(c))
    case Some(k) =>
      BelowNextRowId(db.contracts);
    case None =>
      var s, j :| OptionFiledAt(r.0, c, r.1, s, j);
  }

  /** Looking a stock up again right after `FindOrCreateStockContract` finds the same id and inserts nothing. */
  lemma StockLookupIdempotent(db: Db, c: Contract)
    requires Valid(db)
    ensures FindOrCreateStockContract(FindOrCreateStockContract(db, c).0, c) == FindOrCreateStockContract(db, c)
  {
    var r := FindOrCreateStockContract(db, c);
    if r.0 != db {
      var n := |db.contracts|;
      assert r.0.contracts[n].id == r.1 && StockMatch(r.0.contracts[n], c);
      assert forall j :: 0 <= j < n ==> r.0.contracts[j] == db.contracts[j];
      if c.conId.Some? {
        FirstIndexIs(r.0.contracts, ConIdIs(c), n);
      } else {
        assert forall j :: 0 <= j < |r.0.contracts| ==> !ConIdIs(c)(r.0.contracts[j]);
        FirstIndexIs(r.0.contracts, StockIs(c), n);
      }
    }
  }

  /** Filing an option a second time finds the rows the first filing found or created. */
  lemma FileOptionStable(db: Db, c: Contract)
    requires Valid(db)
    ensures FileOption(FileOption(db, c).0, c) == FileOption(db, c)
  {
    var u := FindOrCreateUnderlying(db, c);
    var r := FindOrCreateOptionRow(u.0, c, u.1, u.2);
    assert FileOption(db, c) == r;
    FirstIndexExtends(u.0.contracts, r.0.contracts, StockIs(c));
    var u2 := FindOrCreateUnderlying(r.0, c);
    assert u2.0 == r.0 && u2.1 == u.1;
    assert FileOption(r.0, c) == FindOrCreateOptionRow(r.0, c, u.1, u2.2);
  }

  /** Looking an option up again right after `FindOrCreateOptionContract` finds the same id and inserts nothing. */
  lemma OptionLookupIdempotent(db: Db, c: Contract)
    requires Valid(db)
    ensures FindOrCreateOptionContract(FindOrCreateOptionContract(db, c).0, c) == FindOrCreateOptionContract(db, c)
  {
    if FirstIndex(db.contracts, ConIdIs(c)).None? {
      var r := FileOption(db, c);
      assert FindOrCreateOptionContract(db, c) == r;
      match FirstIndex(r.0.contracts, ConIdIs(c))
      case None =>
        FileOptionStable(db, c);
      case Some(k) =>
        ConIdHitIsNew(db.contracts, r.0.contracts, c, r.1, k);
    }
  }

  /**
   * When no old row carries `c`'s `con_id` and every appended row has either
   * no `con_id` or `c`'s and the id `id`, the first row carrying it has id `id`.
   */
  lemma ConIdHitIsNew(before: seq<ContractRow>, after: seq<ContractRow>, c: Contract, id: int, k: nat)
    requires FirstIndex(before, ConIdIs(c)).None?
    requires |before| <= |after| && after[..|before|] == before
    requires forall i :: |before| <= i < |after| ==>
               after[i].conId.None? || (after[i].conId == c.conId && after[i].id == id)
    requires FirstIndex(after, ConIdIs(c)) == Some(k)
    ensures after[k].id == id
  {
    forall j | 0 <= j < |before|
      ensures !ConIdIs(c)(after[j])
    {
      assert after[j] == after[..|before|][j];
    }
  }
}
