/**
 * The trading bot itself: the broker-callback handlers and periodic tasks of
 * `Trader`, as a class whose fields are the bot's session state. The store
 * is a field reassigned by each handler, and every outbound broker call is
 * appended to `requests` instead of being sent.
 */
module Traders {
  import opened Wrappers
  import opened Sql
  import opened Symbols
  import opened TraderOrders
  import opened Broker
  import opened Store
  import opened Registry
  import opened Queries
  import opened Scanner
  import opened Rebalance

  /** `(SELECT id FROM portfolio WHERE account = ?)` with a possibly NULL account: NULL matches no portfolio. */
  function PortfolioIdOf(db: Db, account: Option<string>): (r: Option<int>)
    ensures r.Some? <==> account.Some? && FindPortfolio(db, account.value).Some?
    ensures r.Some? ==> r.value == FindPortfolio(db, account.value).value.id
  {
    match account
    case None => None
    case Some(a) =>
      match FindPortfolio(db, a)
      case None => None
      case Some(p) => Some(p.id)
  }

  /** `portfolio_id = ? AND contract_id = ?`. */
  function PositionAt(pid: int, cid: Option<int>): PositionRow -> bool {
    (r: PositionRow) => PositionKey(r, pid, cid)
  }

  /** Exactly one row of `rows` is the position (pid, cid), and it holds `quantity` at `cost`. */
  ghost predicate HoldsOnce(rows: seq<PositionRow>, pid: int, cid: Option<int>, quantity: real, cost: real) {
    exists i :: && 0 <= i < |rows| && PositionKey(rows[i], pid, cid)
                && rows[i].quantity == quantity && rows[i].cost == cost
                && forall j :: 0 <= j < |rows| && PositionKey(rows[j], pid, cid) ==> j == i
  }

  /** Under distinct position keys, a row holding a position is the only one. */
  lemma HoldsOnceAt(rows: seq<PositionRow>, pid: int, cid: Option<int>, i: int)
    requires Distinct(rows, PositionKeyOf)
    requires 0 <= i < |rows| && PositionKey(rows[i], pid, cid)
    ensures HoldsOnce(rows, pid, cid, rows[i].quantity, rows[i].cost)
  {
    forall j | 0 <= j < |rows| && PositionKey(rows[j], pid, cid)
      ensures j == i
    {
      assert PositionKeyOf(rows[i]) == PositionKeyOf(rows[j]);
    }
  }

  /** `SET quantity = ?, cost = ?`: the cost is the average cost times the quantity. */
  function SetPosition(position: real, averageCost: real): PositionRow -> PositionRow {
    (r: PositionRow) => r.(quantity := position, cost := averageCost * position)
  }

  /**
   * The position table after `createOrUpdatePosition`: a zero position
   * deletes the rows of (pid, cid); any other updates them, and inserts a
   * row when none was there.
   */
  function PositionsAfter(rows: seq<PositionRow>, pid: int, cid: Option<int>, position: real, averageCost: real,
                          today: int): (r: seq<PositionRow>)
    requires Distinct(rows, PositionKeyOf)
    ensures Distinct(r, PositionKeyOf)
  {
    var at := PositionAt(pid, cid);
    if position == 0.0 then
      DistinctDelete(rows, at, PositionKeyOf);
      DeleteWhere(rows, at)
    else
      var f := SetPosition(position, averageCost);
      DistinctUpdate(rows, at, f, PositionKeyOf);
      var updated := UpdateWhere(rows, at, f);
      if Count(rows, at) == 0 then
        var row := PositionRow(pid, cid, position, averageCost * position, today);
        DistinctAppend(updated, row, PositionKeyOf);
        updated + [row]
      else updated
  }

  /** Closing a position removes exactly the rows of (pid, cid). */
  lemma PositionsAfterClose(rows: seq<PositionRow>, pid: int, cid: Option<int>, averageCost: real, today: int)
    requires Distinct(rows, PositionKeyOf)
    ensures forall r :: r in PositionsAfter(rows, pid, cid, 0.0, averageCost, today) <==> r in rows && !PositionKey(r, pid, cid)
  {
  }

  /** A position with no row yet is appended as a new row. */
  lemma PositionsAfterInsert(rows: seq<PositionRow>, pid: int, cid: Option<int>, position: real, averageCost: real, today: int)
    requires Distinct(rows, PositionKeyOf)
    requires position != 0.0 && Count(rows, PositionAt(pid, cid)) == 0
    ensures PositionsAfter(rows, pid, cid, position, averageCost, today)
            == rows + [PositionRow(pid, cid, position, averageCost * position, today)]
  {
    var updated := UpdateWhere(rows, PositionAt(pid, cid), SetPosition(position, averageCost));
    assert updated == rows;
  }

  /** A position that has a row is set in place: only the rows of (pid, cid) change, to the new quantity and cost. */
  lemma PositionsAfterUpdate(rows: seq<PositionRow>, pid: int, cid: Option<int>, position: real, averageCost: real, today: int)
    requires Distinct(rows, PositionKeyOf)
    requires position != 0.0 && Count(rows, PositionAt(pid, cid)) > 0
    ensures var r := PositionsAfter(rows, pid, cid, position, averageCost, today);
      && |r| == |rows|
      && forall i :: 0 <= i < |rows| ==>
           r[i] == if PositionKey(rows[i], pid, cid) then rows[i].(quantity := position, cost := averageCost * position)
                   else rows[i]
  {
  }

  /** After any non-zero position with a contract id, exactly one row holds it, at the new quantity and cost. */
  lemma PositionsAfterHoldsOnce(rows: seq<PositionRow>, pid: int, cid: Option<int>, position: real, averageCost: real,
                                today: int)
    requires Distinct(rows, PositionKeyOf)
    requires position != 0.0 && cid.Some?
    ensures HoldsOnce(PositionsAfter(rows, pid, cid, position, averageCost, today), pid, cid, position, averageCost * position)
  {
    var at := PositionAt(pid, cid);
    var r := PositionsAfter(rows, pid, cid, position, averageCost, today);
    if Count(rows, at) == 0 {
      PositionsAfterInsert(rows, pid, cid, position, averageCost, today);
      HoldsOnceAt(r, pid, cid, |rows|);
    } else {
      PositionsAfterUpdate(rows, pid, cid, position, averageCost, today);
      var k :| 0 <= k < |rows| && at(rows[k]);
      HoldsOnceAt(r, pid, cid, k);
    }
  }

  /** `order_id = ?`. */
  function OrderIdIs(orderId: int): OpenOrderRow -> bool {
    (o: OpenOrderRow) => o.orderId == orderId
  }

  /** The open-order row `openOrder` inserts: the remaining quantity starts at the total. */
  function NewOrderRow(pid: int, cid: int, orderId: int, order: IncomingOrder, status: string): (r: OpenOrderRow)
    ensures r.remainingQty == r.totalQty == order.totalQuantity
    ensures r.accountId == pid && r.contractId == cid && r.orderId == orderId && r.status == status
  {
    OpenOrderRow(pid, cid, order.permId, order.clientId, orderId, order.action, order.totalQuantity,
                 order.cashQty, order.lmtPrice, order.auxPrice, status, order.totalQuantity)
  }

  /** The message of the broker's error 200 that releases a pending market-data mark. */
  const NoSecurityDefinition := "No security definition has been found for the request"

  /**
   * A price tick stored into a contract row: last, bid, ask and close set
   * their own field; every other tick kind leaves the row as it is.
   */
  function WithQuote(c: ContractRow, tick: TickType, v: Option<real>): (r: ContractRow)
    ensures r.price == (if tick == Last then v else c.price)
    ensures r.bid == (if tick == Bid then v else c.bid)
    ensures r.ask == (if tick == Ask then v else c.ask)
    ensures r.previousClosePrice == (if tick == Close then v else c.previousClosePrice)
    ensures r == c.(price := r.price, bid := r.bid, ask := r.ask, previousClosePrice := r.previousClosePrice)
  {
    match tick
    case Last => c.(price := v)
    case Bid => c.(bid := v)
    case Ask => c.(ask := v)
    case Close => c.(previousClosePrice := v)
    case _ => c
  }

  /**
   * The contract rows after `contractDetails` for `c`: the rows with its
   * `con_id` get the mark `id`, and an option's rows also lose their quotes.
   */
  function DetailsMarked(contracts: seq<ContractRow>, c: Contract, id: int): (r: seq<ContractRow>)
    ensures |r| == |contracts|
    ensures forall i :: 0 <= i < |r| ==> r[i].id == contracts[i].id
    ensures forall i :: 0 <= i < |r| ==>
      r[i] == if !ConIdMatch(contracts[i], c) then contracts[i]
              else if c.secType == "STK" then contracts[i].(apiReqId := Some(id))
              else if c.secType == "OPT" then
                contracts[i].(ask := None, price := None, bid := None, previousClosePrice := None, apiReqId := Some(id))
              else contracts[i]
  {
    if c.secType == "STK" then
      UpdateWhere(contracts, ConIdIs(c), (r: ContractRow) => r.(apiReqId := Some(id)))
    else if c.secType == "OPT" then
      UpdateWhere(contracts, ConIdIs(c),
                  (r: ContractRow) => r.(ask := None, price := None, bid := None, previousClosePrice := None,
                                         apiReqId := Some(id)))
    else contracts
  }

  /**
   * The stock rows after `contractDetails` for a stock: the row extending
   * the first contract with its `con_id` gets the industry classification.
   */
  function Classified(db: Db, details: ContractDetails): (r: seq<StockRow>)
    ensures |r| == |db.stocks|
    ensures forall i :: 0 <= i < |r| ==> r[i].id == db.stocks[i].id
    ensures forall i :: 0 <= i < |r| ==>
      r[i] == if details.contract.secType == "STK" && FirstIndex(db.contracts, ConIdIs(details.contract)).Some?
                 && db.stocks[i].id == db.contracts[FirstIndex(db.contracts, ConIdIs(details.contract)).value].id
              then db.stocks[i].(industry := Some(details.industry), category := Some(details.category),
                                 subcategory := Some(details.subcategory))
              else db.stocks[i]
  {
    if details.contract.secType != "STK" then db.stocks
    else
      match FirstIndex(db.contracts, ConIdIs(details.contract))
      case None => db.stocks
      case Some(k) =>
        var sid := db.contracts[k].id;
        UpdateWhere(db.stocks, (s: StockRow) => s.id == sid,
                    (s: StockRow) => s.(industry := Some(details.industry), category := Some(details.category),
                                        subcategory := Some(details.subcategory)))
  }

  /** `api_req_id = ?`. */
  function MarkedWith(reqId: int): ContractRow -> bool {
    (c: ContractRow) => SqlEq(c.apiReqId, Some(reqId))
  }

  /** `UPDATE contract SET api_req_id = NULL WHERE api_req_id = ?`. */
  function Released(contracts: seq<ContractRow>, reqId: int): (r: seq<ContractRow>)
    ensures |r| == |contracts|
    ensures forall i :: 0 <= i < |r| ==> !MarkedWith(reqId)(r[i])
    ensures forall i :: 0 <= i < |r| ==> r[i].id == contracts[i].id
  {
    UpdateWhere(contracts, MarkedWith(reqId), (c: ContractRow) => c.(apiReqId := None))
  }

  /** `api_req_id NOTNULL`: a market-data snapshot is still pending for the contract. */
  function Pending(): ContractRow -> bool {
    (c: ContractRow) => c.apiReqId.Some?
  }

  /** `id = ?` with a possibly NULL id: NULL matches no row. */
  function IdIs(cid: Option<int>): ContractRow -> bool {
    (c: ContractRow) => SqlEq(Some(c.id), cid)
  }

  /** `UPDATE contract SET price = ? WHERE id = ?`. */
  function Repriced(contracts: seq<ContractRow>, cid: Option<int>, price: real): (r: seq<ContractRow>)
    ensures |r| == |contracts|
    ensures forall i :: 0 <= i < |r| ==> r[i].id == contracts[i].id
    ensures forall i :: 0 <= i < |r| ==>
      r[i] == if cid == Some(contracts[i].id) then contracts[i].(price := Some(price)) else contracts[i]
  {
    UpdateWhere(contracts, IdIs(cid), (c: ContractRow) => c.(price := Some(price)))
  }

  /** The contract `updatePortfolio` files: a pound-quoted contract's strike arrives in pence. */
  function StrikeInPounds(c: Contract): (r: Contract)
    ensures c.currency == "GBP" ==> r == c.(strike := c.strike / 100.0)
    ensures c.currency != "GBP" ==> r == c
  {
    if c.currency == "GBP" then c.(strike := c.strike / 100.0) else c
  }

  /** `adjustCash` runs at most every ten minutes, `sellNakedPuts` at most every minute (in seconds). */
  const CashAdjustPeriod := 600.0
  const NakedPutsSalePeriod := 60.0

  /** A periodic task runs on a loaded account once `period` seconds have passed since its last run. */
  predicate Due(loaded: bool, now: real, last: real, period: real) {
    loaded && now >= last + period
  }

  /** The lookup of an account's portfolio id reads the portfolio table only. */
  lemma PortfolioIdOfSamePortfolios(d1: Db, d2: Db, account: Option<string>)
    requires d1.portfolios == d2.portfolios
    ensures PortfolioIdOf(d1, account) == PortfolioIdOf(d2, account)
  {
  }

  /**
   * The store after the session clears of a first `managedAccounts`: no
   * contract keeps a market-data mark, the account's balances and positions
   * read 0, its open orders are gone, and nothing else changes.
   */
  ghost predicate SessionReset(before: Db, after: Db, account: Option<string>) {
    var pid := PortfolioIdOf(before, account);
    && after == before.(contracts := after.contracts, balances := after.balances, positions := after.positions,
                        openOrders := after.openOrders)
    && |after.contracts| == |before.contracts|
    && (forall i :: 0 <= i < |after.contracts| ==> after.contracts[i] == before.contracts[i].(apiReqId := None))
    && |after.balances| == |before.balances|
    && (forall i :: 0 <= i < |after.balances| ==>
          after.balances[i] == if OfPortfolio(pid, before.balances[i].portfolioId)
                               then before.balances[i].(quantity := 0.0) else before.balances[i])
    && |after.positions| == |before.positions|
    && (forall i :: 0 <= i < |after.positions| ==>
          after.positions[i] == if OfPortfolio(pid, before.positions[i].portfolioId)
                                then before.positions[i].(quantity := 0.0) else before.positions[i])
    && (forall o :: o in after.openOrders <==> o in before.openOrders && !OfPortfolio(pid, o.accountId))
  }

  /** The watch list a first `managedAccounts` installs. */
  const InitialWheelSymbols: seq<string> := ["PFSI", "CCL", "MGM"]

  /** Rows that belong to the portfolio of `account` (none when there is no such portfolio). */
  predicate OfPortfolio(pid: Option<int>, portfolioId: int) {
    pid.Some? && portfolioId == pid.value
  }

  /**
   * Whether `findWheelSymbolsInfo` finds every value it reads: the price of
   * the symbol whose options it is about to request, and the contract row
   * of the next watch-list symbol it is about to look up.
   */
  predicate ScannerReady(db: Db, processing: Option<string>, expirations: seq<Expiration>,
                         wheelSymbols: seq<string>, today: int)
  {
    && (processing.Some? && PopUntilNear(expirations, today).1.Some? ==> SymbolPrice(db, processing.value).Some?)
    && (processing.None? && wheelSymbols != [] ==>
          ContractConId(db, NormalizeSymbol(wheelSymbols[|wheelSymbols| - 1])).Some?)
  }

  /** The scanner's state: the watch list, its progress, the request log, the ticker counter and the timer. */
  datatype ScanView = ScanView(
    wheelSymbols: seq<string>,
    processed: seq<string>,
    processingSymbol: string,
    processing: Option<string>,
    strikes: seq<real>,
    expirations: seq<Expiration>,
    requests: seq<Request>,
    nextTickerId: int,
    nextWheelProcess: real,
    optionContractsAvailable: bool)

  /** What is left for the scanner to do: symbols to start, expirations to try, and the symbol in progress. */
  function Backlog(v: ScanView): nat {
    |v.wheelSymbols| + |v.expirations| + (if v.processing.Some? then 1 else 0)
  }

  /**
   * One step of the option scanner (`findWheelSymbolsInfo`), at most every
   * 2 seconds. While a symbol's chain is in progress, expirations are popped
   * until one is less than 50 days away; the call and the put of every
   * strike within 20% of the symbol's price are then requested and the next
   * step waits 11 seconds more; when no expiration is left the symbol is
   * done. Otherwise the next watch-list symbol is started (its contract
   * details and its option chain are requested), and when the list is
   * exhausted it is restored from the processed symbols an hour later.
   */
  ghost function ScanStep(v: ScanView, db: Db, now: real, today: int): ScanView
    requires now >= v.nextWheelProcess ==> ScannerReady(db, v.processing, v.expirations, v.wheelSymbols, today)
  {
    if now < v.nextWheelProcess then v
    else ScanAdvance(v.(nextWheelProcess := now + 2.0), db, today)
  }

  /** The step once its timer has run out: the symbol in progress, the next watch-list symbol, or a restart. */
  ghost function ScanAdvance(v: ScanView, db: Db, today: int): ScanView
    requires ScannerReady(db, v.processing, v.expirations, v.wheelSymbols, today)
  {
    if v.processing.Some? then ChainStep(v, today, SymbolPrice(db, v.processing.value))
    else if v.wheelSymbols != [] then
      StartSymbol(v, ContractConId(db, NormalizeSymbol(v.wheelSymbols[|v.wheelSymbols| - 1])).value)
    else Restart(v)
  }

  /** The step on a symbol in progress: the next near expiration's window options, or the symbol is done. */
  ghost function ChainStep(v: ScanView, today: int, price: Option<real>): ScanView
    requires v.processing.Some?
    requires PopUntilNear(v.expirations, today).1.Some? ==> price.Some?
  {
    var popped := PopUntilNear(v.expirations, today);
    if popped.1.Some? then
      var ws := WindowStrikes(v.strikes, price.value);
      v.(expirations := popped.0,
         requests := v.requests + OptionRequests(v.processing.value, popped.1.value, ws, v.nextTickerId),
         nextTickerId := v.nextTickerId + 2 * |ws|,
         nextWheelProcess := v.nextWheelProcess + 11.0)
    else
      v.(expirations := popped.0, processed := v.processed + [v.processing.value], processing := None, strikes := [])
  }

  /** The step that starts the last watch-list symbol: its contract details and option chain are requested. */
  ghost function StartSymbol(v: ScanView, conId: Option<int>): ScanView
    requires v.wheelSymbols != []
  {
    var sym := v.wheelSymbols[|v.wheelSymbols| - 1];
    v.(wheelSymbols := v.wheelSymbols[..|v.wheelSymbols| - 1], processingSymbol := sym,
       requests := v.requests + [ReqContractDetails(v.nextTickerId + 1, StockContract(sym, conId)),
                                 ReqSecDefOptParams(v.nextTickerId + 2, sym, "", "STK", conId)],
       nextTickerId := v.nextTickerId + 2)
  }

  /** The step after the whole watch list: it is restored from the processed symbols, an hour later. */
  ghost function Restart(v: ScanView): ScanView {
    v.(wheelSymbols := v.processed, processed := [], nextWheelProcess := v.nextWheelProcess + 3600.0,
       optionContractsAvailable := true)
  }

  /**
   * `r` follows a scanner whose log was `log` and whose counter stood at
   * `lastId` by requests appended to the log, under consecutive ticker ids
   * right after `lastId`, and the counter ends on the last id handed out.
   */
  ghost predicate IssuesFreshIds(log: seq<Request>, lastId: int, r: ScanView) {
    && |log| <= |r.requests| && r.requests[..|log|] == log
    && r.nextTickerId == lastId + (|r.requests| - |log|)
    && forall j :: |log| <= j < |r.requests| ==> TickerIdOf(r.requests[j]) == Some(lastId + (j - |log|) + 1)
  }

  /** Appending requests numbered on from the counter, and advancing the counter past them, issues fresh ids. */
  lemma AppendFreshIds(log: seq<Request>, lastId: int, r: ScanView, added: seq<Request>)
    requires r.requests == log + added && r.nextTickerId == lastId + |added|
    requires forall j :: 0 <= j < |added| ==> TickerIdOf(added[j]) == Some(lastId + j + 1)
    ensures IssuesFreshIds(log, lastId, r)
  {
    assert r.requests[..|log|] == log;
    assert forall j :: |log| <= j < |r.requests| ==> r.requests[j] == added[j - |log|];
  }

  /** A step on a symbol in progress issues fresh ticker ids. */
  lemma ChainStepFreshIds(v: ScanView, today: int, price: Option<real>)
    requires v.processing.Some?
    requires PopUntilNear(v.expirations, today).1.Some? ==> price.Some?
    ensures IssuesFreshIds(v.requests, v.nextTickerId, ChainStep(v, today, price))
  {
    var popped := PopUntilNear(v.expirations, today);
    if popped.1.Some? {
      var ws := WindowStrikes(v.strikes, price.value);
      var added := OptionRequests(v.processing.value, popped.1.value, ws, v.nextTickerId);
      OptionRequestIdsIncrease(v.processing.value, popped.1.value, ws, v.nextTickerId);
      AppendFreshIds(v.requests, v.nextTickerId, ChainStep(v, today, price), added);
    } else {
      AppendFreshIds(v.requests, v.nextTickerId, ChainStep(v, today, price), []);
    }
  }

  /** Starting a symbol issues fresh ticker ids. */
  lemma StartSymbolFreshIds(v: ScanView, conId: Option<int>)
    requires v.wheelSymbols != []
    ensures IssuesFreshIds(v.requests, v.nextTickerId, StartSymbol(v, conId))
  {
    var sym := v.wheelSymbols[|v.wheelSymbols| - 1];
    AppendFreshIds(v.requests, v.nextTickerId, StartSymbol(v, conId),
                   [ReqContractDetails(v.nextTickerId + 1, StockContract(sym, conId)),
                    ReqSecDefOptParams(v.nextTickerId + 2, sym, "", "STK", conId)]);
  }

  /**
   * A scanner step only appends to the request log, under consecutive
   * ticker ids right after the counter's old value, and the counter ends
   * on the last id it handed out.
   */
  lemma ScanStepFreshIds(v: ScanView, db: Db, now: real, today: int)
    requires now >= v.nextWheelProcess ==> ScannerReady(db, v.processing, v.expirations, v.wheelSymbols, today)
    ensures IssuesFreshIds(v.requests, v.nextTickerId, ScanStep(v, db, now, today))
  {
    if now < v.nextWheelProcess {
      AppendFreshIds(v.requests, v.nextTickerId, v, []);
    } else {
      var w := v.(nextWheelProcess := now + 2.0);
      if v.processing.Some? {
        ChainStepFreshIds(w, today, SymbolPrice(db, v.processing.value));
      } else if v.wheelSymbols != [] {
        StartSymbolFreshIds(w, ContractConId(db, NormalizeSymbol(v.wheelSymbols[|v.wheelSymbols| - 1])).value);
      } else {
        AppendFreshIds(v.requests, v.nextTickerId, Restart(w), []);
      }
    }
  }

  /**
   * A step on a symbol in progress that finds a near expiration requests
   * option contracts of that symbol, on that expiration, at strikes of the
   * chain within 20% of the price; and it requests both the call and the
   * put of every such strike.
   */
  lemma ChainStepRequestsWindow(v: ScanView, today: int, price: real)
    requires v.processing.Some? && PopUntilNear(v.expirations, today).1.Some?
    ensures var r := ChainStep(v, today, Some(price));
      var e := PopUntilNear(v.expirations, today).1.value;
      && e in v.expirations && Near(e, today)
      && (forall j :: |v.requests| <= j < |r.requests| ==>
            && r.requests[j].ReqContractDetails?
            && r.requests[j].contract.secType == "OPT"
            && r.requests[j].contract.symbol == v.processing.value
            && r.requests[j].contract.lastTradeDateOrContractMonth == e.text
            && r.requests[j].contract.strike in v.strikes
            && InWindow(price, r.requests[j].contract.strike))
      && (forall s :: s in v.strikes && InWindow(price, s) ==>
            && (exists j :: |v.requests| <= j < |r.requests|
                  && r.requests[j].ReqContractDetails? && r.requests[j].contract == OptionContract(v.processing.value, e, s, "C"))
            && (exists j :: |v.requests| <= j < |r.requests|
                  && r.requests[j].ReqContractDetails? && r.requests[j].contract == OptionContract(v.processing.value, e, s, "P")))
  {
    var e := PopUntilNear(v.expirations, today).1.value;
    assert e in v.expirations by {
      assert e == v.expirations[|PopUntilNear(v.expirations, today).0|];
    }
    var r := ChainStep(v, today, Some(price));
    assert r.requests == v.requests + OptionRequests(v.processing.value, e, WindowStrikes(v.strikes, price), v.nextTickerId);
    LoggedOptionsInWindow(v.requests, v.processing.value, e, v.strikes, price, v.nextTickerId);
    LoggedOptionsCoverWindow(v.requests, v.processing.value, e, v.strikes, price, v.nextTickerId, r.requests);
  }

  /** The same, for the scanner step whose timer has run out while a symbol's chain is in progress. */
  lemma ScanStepRequestsWindow(v: ScanView, db: Db, now: real, today: int)
    requires now >= v.nextWheelProcess && v.processing.Some?
    requires PopUntilNear(v.expirations, today).1.Some? && SymbolPrice(db, v.processing.value).Some?
    ensures var r := ScanStep(v, db, now, today);
      var e := PopUntilNear(v.expirations, today).1.value;
      var price := SymbolPrice(db, v.processing.value).value;
      && e in v.expirations && Near(e, today)
      && (forall j :: |v.requests| <= j < |r.requests| ==>
            && r.requests[j].ReqContractDetails?
            && r.requests[j].contract.secType == "OPT"
            && r.requests[j].contract.symbol == v.processing.value
            && r.requests[j].contract.lastTradeDateOrContractMonth == e.text
            && r.requests[j].contract.strike in v.strikes
            && InWindow(price, r.requests[j].contract.strike))
      && (forall s :: s in v.strikes && InWindow(price, s) ==>
            && (exists j :: |v.requests| <= j < |r.requests|
                  && r.requests[j].ReqContractDetails? && r.requests[j].contract == OptionContract(v.processing.value, e, s, "C"))
            && (exists j :: |v.requests| <= j < |r.requests|
                  && r.requests[j].ReqContractDetails? && r.requests[j].contract == OptionContract(v.processing.value, e, s, "P")))
  {
    ChainStepRequestsWindow(v.(nextWheelProcess := now + 2.0), today, SymbolPrice(db, v.processing.value).value);
  }

  /**
   * The scanner waits at least 2 seconds between steps and does nothing
   * before its time; every step but the restart of the watch list leaves
   * less to scan, and the restart brings back the processed symbols and
   * marks the option contracts as available.
   */
  lemma ScanStepProgress(v: ScanView, db: Db, now: real, today: int)
    requires now >= v.nextWheelProcess ==> ScannerReady(db, v.processing, v.expirations, v.wheelSymbols, today)
    ensures var r := ScanStep(v, db, now, today);
      && (now < v.nextWheelProcess ==> r == v)
      && (now >= v.nextWheelProcess ==> r.nextWheelProcess >= now + 2.0)
      && (now >= v.nextWheelProcess && (v.processing.Some? || v.wheelSymbols != []) ==> Backlog(r) < Backlog(v))
      && (now >= v.nextWheelProcess && v.processing.None? && v.wheelSymbols == [] ==>
            r.wheelSymbols == v.processed && r.processed == [] && r.optionContractsAvailable)
  {
    if now >= v.nextWheelProcess && v.processing.Some? && v.expirations != [] {
      PopShrinks(v.expirations, today);
    }
  }

  /** The trading bot's session state. */
  class Trader {
    var db: Db
    /** Every broker request issued so far, oldest first. */
    var requests: seq<Request>
    var account: Option<string>
    var portfolioNAV: Option<real>
    var portfolioLoaded: bool
    var ordersLoaded: bool
    var optionContractsAvailable: bool
    var nextTickerId: int

    /**
     * Whether the first `managedAccounts` callback has run: the fields
     * below only exist (or stop being None) from then on.
     */
    var configured: bool
    var benchmarkSymbol: string
    var nakedPutsRatio: real
    var lastCashAdjust: real
    var lastNakedPutsSale: real
    var nextWheelProcess: real
    /** Option-scanner state: symbols still to scan, symbols scanned, the current one and what is left of it. */
    var wheelSymbols: seq<string>
    var wheelSymbolsProcessed: seq<string>
    var wheelSymbolsProcessingSymbol: string
    var wheelSymbolsProcessing: Option<string>
    var wheelSymbolsProcessingStrikes: seq<real>
    var wheelSymbolsExpirations: seq<Expiration>

    ghost predicate Valid()
      reads this
    {
      Store.Valid(db)
    }

    /** A bot on an existing store, before any broker callback. */
    constructor(store: Db)
      requires Store.Valid(store)
      ensures Valid() && db == store && requests == []
      ensures account.None? && portfolioNAV.None? && !configured
      ensures !portfolioLoaded && !ordersLoaded && !optionContractsAvailable
      ensures nextTickerId == 1024
    {
      db := store;
      requests := [];
      account := None;
      portfolioNAV := None;
      portfolioLoaded := false;
      ordersLoaded := false;
      optionContractsAvailable := false;
      nextTickerId := 1024;
      configured := false;
      benchmarkSymbol := "";
      nakedPutsRatio := 0.0;
      lastCashAdjust := 0.0;
      lastNakedPutsSale := 0.0;
      nextWheelProcess := 0.0;
      wheelSymbols := [];
      wheelSymbolsProcessed := [];
      wheelSymbolsProcessingSymbol := "";
      wheelSymbolsProcessing := None;
      wheelSymbolsProcessingStrikes := [];
      wheelSymbolsExpirations := [];
    }

    /** `getNextTickerId`: a request id never handed out before by this bot. */
    method GetNextTickerId() returns (id: int)
      modifies this`nextTickerId
      ensures id == old(nextTickerId) + 1 && nextTickerId == id
    {
      nextTickerId := nextTickerId + 1;
      id := nextTickerId;
    }

    /** `clearApiReqId`: no contract keeps a pending market-data mark; nothing else changes. */
    method ClearApiReqId()
      requires Valid()
      modifies this`db
      ensures Valid()
      ensures |db.contracts| == |old(db.contracts)|
      ensures forall i :: 0 <= i < |db.contracts| ==> db.contracts[i] == old(db.contracts[i]).(apiReqId := None)
      ensures db == old(db).(contracts := db.contracts)
    {
      var cs := UpdateWhere(db.contracts, (c: ContractRow) => c.apiReqId.Some?, (c: ContractRow) => c.(apiReqId := None));
      SameContractIdsValid(db, cs);
      db := db.(contracts := cs);
    }

    /** `clearPortfolioBalances`: every balance of the account's portfolio reads 0; other rows are untouched. */
    method ClearPortfolioBalances(accountName: Option<string>)
      requires Valid()
      modifies this`db
      ensures Valid()
      ensures var pid := PortfolioIdOf(old(db), accountName);
        && |db.balances| == |old(db.balances)|
        && forall i :: 0 <= i < |db.balances| ==>
             db.balances[i] == if OfPortfolio(pid, old(db.balances[i]).portfolioId)
                               then old(db.balances[i]).(quantity := 0.0) else old(db.balances[i])
      ensures db == old(db).(balances := db.balances)
    {
      var pid := PortfolioIdOf(db, accountName);
      var p := (b: BalanceRow) => OfPortfolio(pid, b.portfolioId);
      var f := (b: BalanceRow) => b.(quantity := 0.0);
      DistinctUpdate(db.balances, p, f, BalanceKey);
      db := db.(balances := UpdateWhere(db.balances, p, f));
    }

    /** `clearPortfolioPositions`: every position of the account's portfolio reads 0; other rows are untouched. */
    method ClearPortfolioPositions(accountName: Option<string>)
      requires Valid()
      modifies this`db
      ensures Valid()
      ensures var pid := PortfolioIdOf(old(db), accountName);
        && |db.positions| == |old(db.positions)|
        && forall i :: 0 <= i < |db.positions| ==>
             db.positions[i] == if OfPortfolio(pid, old(db.positions[i]).portfolioId)
                                then old(db.positions[i]).(quantity := 0.0) else old(db.positions[i])
      ensures db == old(db).(positions := db.positions)
    {
      var pid := PortfolioIdOf(db, accountName);
      var p := (r: PositionRow) => OfPortfolio(pid, r.portfolioId);
      var f := (r: PositionRow) => r.(quantity := 0.0);
      DistinctUpdate(db.positions, p, f, PositionKeyOf);
      db := db.(positions := UpdateWhere(db.positions, p, f));
    }

    /** `clearOpenOrders`: the account's open orders are deleted and every other order row is kept. */
    method ClearOpenOrders(accountName: Option<string>)
      requires Valid()
      modifies this`db
      ensures Valid()
      ensures var pid := PortfolioIdOf(old(db), accountName);
        forall o :: o in db.openOrders <==> o in old(db.openOrders) && !OfPortfolio(pid, o.accountId)
      ensures db == old(db).(openOrders := db.openOrders)
    {
      var pid := PortfolioIdOf(db, accountName);
      var p := (o: OpenOrderRow) => OfPortfolio(pid, o.accountId);
      DistinctDelete(db.openOrders, p, OrderKey);
      db := db.(openOrders := DeleteWhere(db.openOrders, p));
    }

    /**
     * `createOrUpdatePosition`: a zero position deletes the position row;
     * any other sets cost and quantity of the existing row (in place) or
     * inserts one, so that afterwards exactly one row holds it. A NULL
     * contract id matches no row, so such a position is inserted every time.
     */
    method CreateOrUpdatePosition(cid: Option<int>, position: real, averageCost: real, accountName: string, today: int)
      requires Valid() && FindPortfolio(db, accountName).Some?
      modifies this`db
      ensures Valid()
      ensures var pid := FindPortfolio(old(db), accountName).value.id;
        db == old(db).(positions := PositionsAfter(old(db.positions), pid, cid, position, averageCost, today))
      ensures var pid := FindPortfolio(old(db), accountName).value.id;
        position == 0.0 ==>
          forall r :: r in db.positions <==> r in old(db.positions) && !PositionKey(r, pid, cid)
      ensures var pid := FindPortfolio(old(db), accountName).value.id;
        position != 0.0 && cid.Some? ==> HoldsOnce(db.positions, pid, cid, position, averageCost * position)
    {
      var pid := FindPortfolio(db, accountName).value.id;
      var positions := PositionsAfter(db.positions, pid, cid, position, averageCost, today);
      if position == 0.0 {
        PositionsAfterClose(db.positions, pid, cid, averageCost, today);
      } else if cid.Some? {
        PositionsAfterHoldsOnce(db.positions, pid, cid, position, averageCost, today);
      }
      PositionsValid(db, positions);
      db := db.(positions := positions);
    }

    /**
     * One row of the `currency` table set to `rate` (`UPDATE currency SET
     * rate = ? WHERE base = ? AND currency = ?`, then an INSERT when no row
     * was updated): the edge reads `rate` and no other edge changes.
     */
    method StoreRate(base: string, currency: string, rate: Option<real>)
      requires Valid()
      modifies this`db
      ensures Valid()
      ensures db == old(db).(currencies := db.currencies)
      ensures CurrencyRow(base, currency, rate) in db.currencies
      ensures RateOf(db.currencies, base, currency) == Some(rate)
      ensures forall r :: RateKey(r) != Some((base, currency)) ==> (r in db.currencies <==> r in old(db.currencies))
    {
      var at := (c: CurrencyRow) => c.base == base && c.currency == currency;
      var f := (c: CurrencyRow) => c.(rate := rate);
      var n := Count(db.currencies, at);
      DistinctUpdate(db.currencies, at, f, RateKey);
      var updated := UpdateWhere(db.currencies, at, f);
      UpdateKeepsOtherKeys(db.currencies, at, f, RateKey, (base, currency));
      var currencies;
      if n == 0 {
        var row := CurrencyRow(base, currency, rate);
        DistinctAppend(updated, row, RateKey);
        currencies := updated + [row];
        assert currencies[|updated|] == row;
      } else {
        ghost var k :| 0 <= k < |updated| && at(db.currencies[k]);
        currencies := updated;
        assert currencies[k] == CurrencyRow(base, currency, rate);
      }
      RateOfRow(currencies, CurrencyRow(base, currency, rate));
      CurrenciesValid(db, currencies);
      db := db.(currencies := currencies);
    }

    /**
     * One row of the `balance` table set to `quantity` (`UPDATE balance SET
     * quantity = ? WHERE portfolio_id = ? AND currency = ?`, then an INSERT
     * when no row was updated): the balance reads `quantity` and no other
     * balance changes.
     */
    method StoreBalance(pid: int, currency: string, quantity: real)
      requires Valid()
      modifies this`db
      ensures Valid()
      ensures db == old(db).(balances := db.balances)
      ensures BalanceRow(pid, currency, quantity) in db.balances
      ensures forall b :: b in db.balances && BalanceKey(b) == Some((pid, currency)) ==> b.quantity == quantity
      ensures forall b :: BalanceKey(b) != Some((pid, currency)) ==> (b in db.balances <==> b in old(db.balances))
    {
      var at := (b: BalanceRow) => b.portfolioId == pid && b.currency == currency;
      var f := (b: BalanceRow) => b.(quantity := quantity);
      var n := Count(db.balances, at);
      DistinctUpdate(db.balances, at, f, BalanceKey);
      var updated := UpdateWhere(db.balances, at, f);
      UpdateKeepsOtherKeys(db.balances, at, f, BalanceKey, (pid, currency));
      var balances;
      if n == 0 {
        var row := BalanceRow(pid, currency, quantity);
        DistinctAppend(updated, row, BalanceKey);
        balances := updated + [row];
        assert balances[|updated|] == row;
      } else {
        ghost var k :| 0 <= k < |updated| && at(db.balances[k]);
        balances := updated;
        assert balances[k] == BalanceRow(pid, currency, quantity);
      }
      forall b | b in balances && BalanceKey(b) == Some((pid, currency))
        ensures b.quantity == quantity
      {
        DistinctSameKey(balances, BalanceKey, b, BalanceRow(pid, currency, quantity));
      }
      BalancesValid(db, balances);
      db := db.(balances := balances);
    }

    /**
     * `updateAccountValue`: a cash balance is stored for its currency; an
     * exchange rate `val` (units of `currency` per unit of the base) stores
     * the edge currency -> base as `val` and the edge base -> currency as its
     * reciprocal, NULL when `val` is 0; the NAV in the base currency is kept
     * in memory; every other key is ignored. The source's guard on inserting
     * a balance compares the value's text with the number 0, which always
     * differs, so a missing balance row is always inserted.
     */
    method UpdateAccountValue(key: string, val: real, currency: string, accountName: string)
      requires Valid()
      requires (key == "CashBalance" || key == "ExchangeRate") && currency != "BASE" ==>
                 FindPortfolio(db, accountName).Some?
      modifies this`db, this`portfolioNAV
      ensures Valid()
      ensures key == "CashBalance" && currency != "BASE" ==>
        var pid := FindPortfolio(old(db), accountName).value.id;
        && db == old(db).(balances := db.balances)
        && BalanceRow(pid, currency, val) in db.balances
        && (forall b :: b in db.balances && BalanceKey(b) == Some((pid, currency)) ==> b.quantity == val)
        && (forall b :: BalanceKey(b) != Some((pid, currency)) ==> (b in db.balances <==> b in old(db.balances)))
      ensures key == "ExchangeRate" && currency != "BASE" ==>
        var base := FindPortfolio(old(db), accountName).value.baseCurrency;
        && db == old(db).(currencies := db.currencies)
        && RateOf(db.currencies, currency, base) == Some(Some(val))
        && (currency != base ==> RateOf(db.currencies, base, currency) == Some(SqlDiv(Some(1.0), Some(val))))
        && (forall r :: RateKey(r) != Some((base, currency)) && RateKey(r) != Some((currency, base)) ==>
              (r in db.currencies <==> r in old(db.currencies)))
      ensures key == "NetLiquidationByCurrency" && currency == "BASE" ==> portfolioNAV == Some(val) && db == old(db)
      ensures key != "NetLiquidationByCurrency" ==> portfolioNAV == old(portfolioNAV)
      ensures !((key == "CashBalance" || key == "ExchangeRate") && currency != "BASE") ==> db == old(db)
    {
      if key == "CashBalance" && currency != "BASE" {
        var id := FindPortfolio(db, accountName).value.id;
        StoreBalance(id, currency, val);
      } else if key == "ExchangeRate" && currency != "BASE" {
        var base := FindPortfolio(db, accountName).value.baseCurrency;
        StoreRate(base, currency, SqlDiv(Some(1.0), Some(val)));
        ghost var first := db.currencies;
        StoreRate(currency, base, Some(val));
        if currency != base {
          assert CurrencyRow(base, currency, SqlDiv(Some(1.0), Some(val))) in first;
          RateOfRow(db.currencies, CurrencyRow(base, currency, SqlDiv(Some(1.0), Some(val))));
        }
      } else if key == "NetLiquidationByCurrency" && currency == "BASE" {
        portfolioNAV := Some(val);
      }
    }

    /**
     * `openOrder`: an order id not yet in the table is inserted, after its
     * contract is resolved (and created if new) and only if that yields a
     * non-zero id; an order id already present changes nothing.
     */
    method OpenOrder(orderId: int, contract: Contract, order: IncomingOrder, status: string)
      requires Valid()
      requires FirstIndex(db.openOrders, OrderIdIs(orderId)).None? ==> FindPortfolio(db, order.account).Some?
      modifies this`db
      ensures Valid()
      ensures FirstIndex(old(db.openOrders), OrderIdIs(orderId)).Some? ==> db == old(db)
      ensures FirstIndex(old(db.openOrders), OrderIdIs(orderId)).None? ==>
        var (db1, cid) := FindOrCreateContract(old(db), contract);
        var pid := FindPortfolio(old(db), order.account).value.id;
        && Extends(old(db), db1)
        && db == db1.(openOrders := db.openOrders)
        && db.openOrders == old(db.openOrders)
             + (if cid.Some? && cid.value != 0 then [NewOrderRow(pid, cid.value, orderId, order, status)] else [])
      ensures forall i, j :: 0 <= i < j < |db.openOrders| ==> db.openOrders[i].orderId != db.openOrders[j].orderId
    {
      if FirstIndex(db.openOrders, OrderIdIs(orderId)).None? {
        var pid := FindPortfolio(db, order.account).value.id;
        var (db1, cid) := FindOrCreateContract(db, contract);
        db := db1;
        if cid.Some? && cid.value != 0 {
          var row := NewOrderRow(pid, cid.value, orderId, order, status);
          DistinctAppend(db.openOrders, row, OrderKey);
          db := db.(openOrders := db.openOrders + [row]);
        } else {
          assert db.openOrders + [] == db.openOrders;
        }
      }
    }

    /** `orderStatus`: the order's status and remaining quantity are overwritten; no other row changes. */
    method OrderStatus(orderId: int, status: string, remaining: real)
      requires Valid()
      modifies this`db
      ensures Valid()
      ensures db == old(db).(openOrders := db.openOrders)
      ensures |db.openOrders| == |old(db.openOrders)|
      ensures forall i :: 0 <= i < |db.openOrders| ==>
        db.openOrders[i] == if old(db.openOrders[i]).orderId == orderId
                            then old(db.openOrders[i]).(status := status, remainingQty := remaining)
                            else old(db.openOrders[i])
    {
      var f := (o: OpenOrderRow) => o.(status := status, remainingQty := remaining);
      DistinctUpdate(db.openOrders, OrderIdIs(orderId), f, OrderKey);
      db := db.(openOrders := UpdateWhere(db.openOrders, OrderIdIs(orderId), f));
    }

    /**
     * `contractDetails`: the contract is resolved (and created if new); a
     * stock gets its classification and an option loses its stale quotes;
     * either is marked with a fresh request id, under which a snapshot of
     * its market data is requested.
     */
    method ContractDetailsReceived(reqId: int, details: ContractDetails)
      requires Valid()
      modifies this`db, this`nextTickerId, this`requests
      ensures Valid()
      ensures nextTickerId == old(nextTickerId) + 1
      ensures requests == old(requests) + [ReqMktData(nextTickerId, details.contract, "104,106", true, false)]
      ensures var db1 := FindOrCreateContract(old(db), details.contract).0;
        && Extends(old(db), db1)
        && db == db1.(contracts := DetailsMarked(db1.contracts, details.contract, nextTickerId),
                      stocks := Classified(db1, details))
    {
      var c := details.contract;
      var (db1, _) := FindOrCreateContract(db, c);
      db := db1;
      var nextReqId := GetNextTickerId();
      var ss := Classified(db, details);
      SameStockIdsValid(db, ss);
      db := db.(stocks := ss);
      var cs := DetailsMarked(db.contracts, c, nextReqId);
      SameContractIdsValid(db, cs);
      db := db.(contracts := cs);
      requests := requests + [ReqMktData(nextReqId, c, "104,106", true, false)];
    }

    /**
     * `tickPrice`: a last, bid, ask or close tick is stored in the contract
     * rows marked with the request id (a negative price as NULL); high, low
     * and other ticks are ignored.
     */
    method TickPrice(reqId: int, tick: TickType, price: real)
      requires Valid()
      modifies this`db
      ensures Valid()
      ensures db == old(db).(contracts := db.contracts)
      ensures |db.contracts| == |old(db.contracts)|
      ensures forall i :: 0 <= i < |db.contracts| ==>
        db.contracts[i] == if MarkedWith(reqId)(old(db.contracts[i]))
                           then WithQuote(old(db.contracts[i]), tick, if price < 0.0 then None else Some(price))
                           else old(db.contracts[i])
      ensures !(tick.Last? || tick.Bid? || tick.Ask? || tick.Close?) ==> db == old(db)
    {
      var v: Option<real> := if price < 0.0 then None else Some(price);
      var cs := db.contracts;
      match tick {
        case Last => cs := UpdateWhere(db.contracts, MarkedWith(reqId), (c: ContractRow) => c.(price := v));
        case Bid => cs := UpdateWhere(db.contracts, MarkedWith(reqId), (c: ContractRow) => c.(bid := v));
        case Ask => cs := UpdateWhere(db.contracts, MarkedWith(reqId), (c: ContractRow) => c.(ask := v));
        case Close => cs := UpdateWhere(db.contracts, MarkedWith(reqId), (c: ContractRow) => c.(previousClosePrice := v));
        case _ =>
      }
      SameContractIdsValid(db, cs);
      db := db.(contracts := cs);
    }

    /**
     * `tickOptionComputation`: a model-option tick stores its greeks in the
     * option row of the first contract marked with the request id; the
     * bid, ask and last computations and any other kind are ignored.
     */
    method TickOptionComputation(reqId: int, tick: OptionTickType, greeks: Greeks)
      requires Valid()
      modifies this`db
      ensures Valid()
      ensures db == old(db).(options := db.options)
      ensures tick != ModelOption ==> db == old(db)
      ensures tick == ModelOption ==>
        match FirstIndex(old(db.contracts), MarkedWith(reqId))
        case None => db == old(db)
        case Some(k) =>
          && |db.options| == |old(db.options)|
          && forall i :: 0 <= i < |db.options| ==>
               db.options[i] == if old(db.options[i]).id == old(db.contracts[k]).id
                                then old(db.options[i]).(greeks := Some(greeks)) else old(db.options[i])
    {
      if tick == ModelOption {
        match FirstIndex(db.contracts, MarkedWith(reqId)) {
          case Some(k) =>
            var id := db.contracts[k].id;
            var os := UpdateWhere(db.options, (o: OptionRow) => o.id == id, (o: OptionRow) => o.(greeks := Some(greeks)));
            SameOptionIdsValid(db, os);
            db := db.(options := os);
          case None =>
        }
      }
    }

    /** `UPDATE contract SET api_req_id = NULL WHERE api_req_id = ?`: the request's mark is released everywhere. */
    method ReleaseMark(reqId: int)
      requires Valid()
      modifies this`db
      ensures Valid()
      ensures db == old(db).(contracts := Released(old(db.contracts), reqId))
      ensures |db.contracts| == |old(db.contracts)|
      ensures forall i :: 0 <= i < |db.contracts| ==>
        db.contracts[i] == if MarkedWith(reqId)(old(db.contracts[i]))
                           then old(db.contracts[i]).(apiReqId := None) else old(db.contracts[i])
      ensures forall i :: 0 <= i < |db.contracts| ==> !MarkedWith(reqId)(db.contracts[i])
    {
      var cs := Released(db.contracts, reqId);
      SameContractIdsValid(db, cs);
      db := db.(contracts := cs);
    }

    /** `error`: a "no security definition" error (code 200) releases the request's mark; any other error changes nothing. */
    method Error(reqId: int, errorCode: int, errorString: string)
      requires Valid()
      modifies this`db
      ensures Valid()
      ensures errorCode == 200 && errorString == NoSecurityDefinition ==>
        && db == old(db).(contracts := db.contracts)
        && |db.contracts| == |old(db.contracts)|
        && (forall i :: 0 <= i < |db.contracts| ==>
              db.contracts[i] == if MarkedWith(reqId)(old(db.contracts[i]))
                                 then old(db.contracts[i]).(apiReqId := None) else old(db.contracts[i]))
        && (forall i :: 0 <= i < |db.contracts| ==> !MarkedWith(reqId)(db.contracts[i]))
      ensures !(errorCode == 200 && errorString == NoSecurityDefinition) ==> db == old(db)
    {
      if errorCode == 200 {
        if errorString == NoSecurityDefinition {
          ReleaseMark(reqId);
        }
      }
    }

    /** `securityDefinitionOptionParameter`: the SMART answer becomes the option chain to scan next. */
    method SecurityDefinitionOptionParameter(exchange: string, tradingClass: string,
                                             expirations: seq<Expiration>, strikes: seq<real>)
      modifies this`wheelSymbolsExpirations, this`wheelSymbolsProcessingStrikes, this`wheelSymbolsProcessing
      ensures exchange == "SMART" ==>
        && wheelSymbolsExpirations == expirations && wheelSymbolsProcessingStrikes == strikes
        && wheelSymbolsProcessing == Some(tradingClass)
      ensures exchange != "SMART" ==>
        && wheelSymbolsExpirations == old(wheelSymbolsExpirations)
        && wheelSymbolsProcessingStrikes == old(wheelSymbolsProcessingStrikes)
        && wheelSymbolsProcessing == old(wheelSymbolsProcessing)
    {
      if exchange == "SMART" {
        wheelSymbolsExpirations := expirations;
        wheelSymbolsProcessingStrikes := strikes;
        wheelSymbolsProcessing := Some(tradingClass);
      }
    }

    /** The scanner's `while` loop: expirations are popped from the end until a near one comes off. */
    method PopNearExpiration(today: int) returns (exp: Option<Expiration>)
      modifies this`wheelSymbolsExpirations
      ensures (wheelSymbolsExpirations, exp) == PopUntilNear(old(wheelSymbolsExpirations), today)
      ensures unchanged(this`db, this`account, this`benchmarkSymbol, this`lastCashAdjust, this`portfolioLoaded,
                        this`ordersLoaded, this`configured)
    {
      exp := None;
      while |wheelSymbolsExpirations| > 0
        invariant exp.None?
        invariant PopUntilNear(wheelSymbolsExpirations, today) == PopUntilNear(old(wheelSymbolsExpirations), today)
        decreases |wheelSymbolsExpirations|
      {
        var n := |wheelSymbolsExpirations| - 1;
        exp := Some(wheelSymbolsExpirations[n]);
        wheelSymbolsExpirations := wheelSymbolsExpirations[..n];
        if Near(exp.value, today) {
          break;
        }
        exp := None;
      }
    }

    /** The scanner's `for` loop: the call and the put of every strike in the price window, in strike order. */
    method RequestWindowOptions(sym: string, e: Expiration, price: real)
      modifies this`requests, this`nextTickerId
      ensures requests == old(requests)
                + OptionRequests(sym, e, WindowStrikes(wheelSymbolsProcessingStrikes, price), old(nextTickerId))
      ensures nextTickerId == old(nextTickerId) + 2 * |WindowStrikes(wheelSymbolsProcessingStrikes, price)|
      ensures unchanged(this`db, this`account, this`benchmarkSymbol, this`lastCashAdjust, this`portfolioLoaded,
                        this`ordersLoaded, this`configured)
    {
      var strikes := wheelSymbolsProcessingStrikes;
      ghost var ws: seq<real> := [];
      for i := 0 to |strikes|
        invariant ws == WindowStrikes(strikes[..i], price)
        invariant requests == old(requests) + OptionRequests(sym, e, ws, old(nextTickerId))
        invariant nextTickerId == old(nextTickerId) + 2 * |ws|
      {
        var strike := strikes[i];
        WindowStrikesStep(strikes, i, price);
        if InWindow(price, strike) {
          OptionRequestsSnoc(sym, e, ws, strike, old(nextTickerId), old(requests));
          var callId := GetNextTickerId();
          requests := requests + [ReqContractDetails(callId, OptionContract(sym, e, strike, "C"))];
          var putId := GetNextTickerId();
          requests := requests + [ReqContractDetails(putId, OptionContract(sym, e, strike, "P"))];
          ws := ws + [strike];
        } else {
          assert ws + [] == ws;
        }
      }
      assert strikes[..|strikes|] == strikes;
    }

    /** The fields one scanner step reads and writes. */
    ghost function View(): ScanView
      reads this`wheelSymbols, this`wheelSymbolsProcessed, this`wheelSymbolsProcessingSymbol, this`wheelSymbolsProcessing,
            this`wheelSymbolsProcessingStrikes, this`wheelSymbolsExpirations, this`requests, this`nextTickerId,
            this`nextWheelProcess, this`optionContractsAvailable
    {
      ScanView(wheelSymbols, wheelSymbolsProcessed, wheelSymbolsProcessingSymbol, wheelSymbolsProcessing,
               wheelSymbolsProcessingStrikes, wheelSymbolsExpirations, requests, nextTickerId, nextWheelProcess,
               optionContractsAvailable)
    }

    /** The scanner step on the symbol in progress (first branch of `findWheelSymbolsInfo`). */
    method ContinueChain(today: int, price: Option<real>)
      requires wheelSymbolsProcessing.Some?
      requires PopUntilNear(wheelSymbolsExpirations, today).1.Some? ==> price.Some?
      modifies this`nextWheelProcess, this`wheelSymbolsProcessed, this`wheelSymbolsProcessing,
               this`wheelSymbolsProcessingStrikes, this`wheelSymbolsExpirations, this`requests, this`nextTickerId
      ensures View() == ChainStep(old(View()), today, price)
      ensures unchanged(this`db, this`account, this`benchmarkSymbol, this`lastCashAdjust, this`portfolioLoaded,
                        this`ordersLoaded, this`configured)
    {
      var sym := wheelSymbolsProcessing.value;
      var exp := PopNearExpiration(today);
      if exp.Some? {
        ScanExpiration(sym, exp.value, price.value);
      } else {
        FinishSymbol(sym);
      }
    }

    /** A near expiration came off: its window options are requested and the next step waits 11 seconds more. */
    method ScanExpiration(sym: string, e: Expiration, price: real)
      modifies this`requests, this`nextTickerId, this`nextWheelProcess
      ensures var ws := WindowStrikes(wheelSymbolsProcessingStrikes, price);
        View() == old(View()).(requests := old(requests) + OptionRequests(sym, e, ws, old(nextTickerId)),
                               nextTickerId := old(nextTickerId) + 2 * |ws|,
                               nextWheelProcess := old(nextWheelProcess) + 11.0)
      ensures unchanged(this`db, this`account, this`benchmarkSymbol, this`lastCashAdjust, this`portfolioLoaded,
                        this`ordersLoaded, this`configured)
    {
      RequestWindowOptions(sym, e, price);
      nextWheelProcess := nextWheelProcess + 11.0;
    }

    /** No near expiration is left: the symbol is done. */
    method FinishSymbol(sym: string)
      modifies this`wheelSymbolsProcessed, this`wheelSymbolsProcessing, this`wheelSymbolsProcessingStrikes
      ensures View() == old(View()).(processed := old(wheelSymbolsProcessed) + [sym], processing := None, strikes := [])
      ensures unchanged(this`db, this`account, this`benchmarkSymbol, this`lastCashAdjust, this`portfolioLoaded,
                        this`ordersLoaded, this`configured)
    {
      wheelSymbolsProcessed := wheelSymbolsProcessed + [sym];
      wheelSymbolsProcessing := None;
      wheelSymbolsProcessingStrikes := [];
    }

    /** The scanner step that starts the next watch-list symbol (second branch of `findWheelSymbolsInfo`). */
    method StartNextSymbol(conId: Option<int>)
      requires wheelSymbols != []
      modifies this`wheelSymbols, this`wheelSymbolsProcessingSymbol, this`requests, this`nextTickerId
      ensures View() == StartSymbol(old(View()), conId)
    {
      var n := |wheelSymbols| - 1;
      wheelSymbolsProcessingSymbol := wheelSymbols[n];
      wheelSymbols := wheelSymbols[..n];
      var contract := StockContract(wheelSymbolsProcessingSymbol, conId);
      var detailsId := GetNextTickerId();
      requests := requests + [ReqContractDetails(detailsId, contract)];
      var chainId := GetNextTickerId();
      requests := requests + [ReqSecDefOptParams(chainId, contract.symbol, "", contract.secType, contract.conId)];
    }

    /** The scanner step with no symbol in progress: the next watch-list symbol, or a restart of the list. */
    method StartOrRestart()
      requires wheelSymbolsProcessing.None?
      requires wheelSymbols != [] ==> ContractConId(db, NormalizeSymbol(wheelSymbols[|wheelSymbols| - 1])).Some?
      modifies this`nextWheelProcess, this`wheelSymbols, this`wheelSymbolsProcessed,
               this`wheelSymbolsProcessingSymbol, this`requests, this`nextTickerId, this`optionContractsAvailable
      ensures old(wheelSymbols) != [] ==>
        View() == StartSymbol(old(View()), ContractConId(db, NormalizeSymbol(old(wheelSymbols)[|old(wheelSymbols)| - 1])).value)
      ensures old(wheelSymbols) == [] ==> View() == Restart(old(View()))
      ensures unchanged(this`db, this`account, this`benchmarkSymbol, this`lastCashAdjust, this`portfolioLoaded,
                        this`ordersLoaded, this`configured)
    {
      if |wheelSymbols| > 0 {
        var conId := ContractConId(db, NormalizeSymbol(wheelSymbols[|wheelSymbols| - 1])).value;
        StartNextSymbol(conId);
      } else {
        wheelSymbols := wheelSymbolsProcessed;
        wheelSymbolsProcessed := [];
        nextWheelProcess := nextWheelProcess + 3600.0;
        optionContractsAvailable := true;
      }
    }

    /** `findWheelSymbolsInfo`: one step of the option scanner, as `ScanStep` describes it. */
    method FindWheelSymbolsInfo(now: real, today: int)
      requires configured
      requires now >= nextWheelProcess ==>
                 ScannerReady(db, wheelSymbolsProcessing, wheelSymbolsExpirations, wheelSymbols, today)
      modifies this`nextWheelProcess, this`wheelSymbols, this`wheelSymbolsProcessed,
               this`wheelSymbolsProcessingSymbol, this`wheelSymbolsProcessing, this`wheelSymbolsProcessingStrikes,
               this`wheelSymbolsExpirations, this`requests, this`nextTickerId, this`optionContractsAvailable
      ensures View() == ScanStep(old(View()), db, now, today)
      ensures unchanged(this`db, this`account, this`benchmarkSymbol, this`lastCashAdjust, this`portfolioLoaded,
                        this`ordersLoaded, this`configured)
    {
      if now >= nextWheelProcess {
        Advance(now, today);
      }
    }

    /** The body of `findWheelSymbolsInfo` once its 2-second timer has run out. */
    method Advance(now: real, today: int)
      requires now >= nextWheelProcess
      requires ScannerReady(db, wheelSymbolsProcessing, wheelSymbolsExpirations, wheelSymbols, today)
      modifies this`nextWheelProcess, this`wheelSymbols, this`wheelSymbolsProcessed,
               this`wheelSymbolsProcessingSymbol, this`wheelSymbolsProcessing, this`wheelSymbolsProcessingStrikes,
               this`wheelSymbolsExpirations, this`requests, this`nextTickerId, this`optionContractsAvailable
      ensures View() == ScanStep(old(View()), db, now, today)
      ensures unchanged(this`db, this`account, this`benchmarkSymbol, this`lastCashAdjust, this`portfolioLoaded,
                        this`ordersLoaded, this`configured)
    {
      ghost var v := View();
      nextWheelProcess := now + 2.0;
      ghost var w := View();
      assert ScanStep(v, db, now, today) == ScanAdvance(w, db, today);
      if wheelSymbolsProcessing.Some? {
        ContinueChain(today, SymbolPrice(db, wheelSymbolsProcessing.value));
        assert View() == ScanAdvance(w, db, today);
      } else {
        StartOrRestart();
        assert View() == ScanAdvance(w, db, today);
      }
    }

    /** `tickSnapshotEnd`: the request's mark is released; once no snapshot is pending the scanner runs at once. */
    method TickSnapshotEnd(reqId: int, now: real, today: int)
      requires Valid()
      requires var released := db.(contracts := Released(db.contracts, reqId));
        Count(released.contracts, Pending()) == 0 ==>
          configured && (now >= 0.0 ==> ScannerReady(released, wheelSymbolsProcessing, wheelSymbolsExpirations,
                                                     wheelSymbols, today))
      modifies this`db, this`nextWheelProcess, this`wheelSymbols, this`wheelSymbolsProcessed,
               this`wheelSymbolsProcessingSymbol, this`wheelSymbolsProcessing, this`wheelSymbolsProcessingStrikes,
               this`wheelSymbolsExpirations, this`requests, this`nextTickerId, this`optionContractsAvailable
      ensures Valid()
      ensures db == old(db).(contracts := Released(old(db.contracts), reqId))
      ensures Count(db.contracts, Pending()) == 0 ==>
        View() == ScanStep(old(View()).(nextWheelProcess := 0.0), db, now, today)
      ensures Count(db.contracts, Pending()) > 0 ==> View() == old(View())
    {
      ReleaseMark(reqId);
      var count := Count(db.contracts, Pending());
      if count == 0 {
        nextWheelProcess := 0.0;
        FindWheelSymbolsInfo(now, today);
      }
    }

    /** `cancelStockOrderBook`: one cancel per live stock order of the account on the symbol and side, in table order. */
    method CancelStockOrderBook(accountName: string, symbol: string, side: Side)
      modifies this`requests
      ensures requests == old(requests) + match FindPortfolio(db, accountName)
                                          case None => []
                                          case Some(p) => BookCancels(db, p.id, symbol, side)
    {
      match FindPortfolio(db, accountName) {
        case None =>
          assert requests == old(requests) + [];
        case Some(p) =>
          var live := LiveStockOrder(db.contracts, p.id, symbol, side);
          var orders := db.openOrders;
          for i := 0 to |orders|
            invariant requests == old(requests) + CancelRequests(Where(orders[..i], live))
          {
            WhereStep(orders, i, live);
            if live(orders[i]) {
              CancelRequestsSnoc(Where(orders[..i], live), orders[i]);
              requests := requests + [CancelOrder(orders[i].orderId)];
            } else {
              assert Where(orders[..i], live) + [] == Where(orders[..i], live);
            }
          }
          assert orders[..|orders|] == orders;
      }
    }

    /**
     * `sellNakedPuts`: at most once a minute, the amount still available
     * for short puts (the share `nakedPutsRatio` of the NAV, less the put
     * amount already engaged), which the trader only reports.
     */
    method SellNakedPuts(now: real) returns (puttable: Option<real>)
      requires portfolioLoaded && ordersLoaded ==> configured
      requires Due(portfolioLoaded && ordersLoaded, now, lastNakedPutsSale, NakedPutsSalePeriod) ==> account.Some? && PuttableAmount(db, account.value, nakedPutsRatio).Some?
      modifies this`lastNakedPutsSale
      ensures !old(Due(portfolioLoaded && ordersLoaded, now, lastNakedPutsSale, NakedPutsSalePeriod)) ==> puttable.None? && lastNakedPutsSale == old(lastNakedPutsSale)
      ensures old(Due(portfolioLoaded && ordersLoaded, now, lastNakedPutsSale, NakedPutsSalePeriod)) ==>
        lastNakedPutsSale == now && puttable == PuttableAmount(db, account.value, nakedPutsRatio)
    {
      puttable := None;
      if !portfolioLoaded || !ordersLoaded {
        return;
      }
      if now < lastNakedPutsSale + NakedPutsSalePeriod {
        return;
      }
      lastNakedPutsSale := now;
      var store, acct := db, account.value;
      var cash, stocks, options := TotalCash(store, acct), PortfolioStocksValue(store, acct), PortfolioOptionsValue(store, acct);
      var engaged := NakedPutAmount(store, acct, AllPuts);
      assert PortfolioNav(store, acct).Some?;
      var nav := cash.value;
      nav := nav + stocks.value;
      nav := nav + options.value;
      assert PortfolioNav(store, acct).value == nav;
      puttable := Some(Puttable(nav, nakedPutsRatio, engaged.value));
    }

    /**
     * `adjustCash`: at most every ten minutes, when the benchmark's book
     * differs from the share count that covers the cash (net of in-the-money
     * short puts), both sides of the book are cancelled and one order for
     * the difference, net of the puts on sale, is placed.
     */
    method AdjustCash(now: real, orderId: int)
      requires portfolioLoaded && ordersLoaded ==> configured
      requires Due(portfolioLoaded && ordersLoaded, now, lastCashAdjust, CashAdjustPeriod) ==> account.Some? && CashAdjustable(db, account.value, benchmarkSymbol)
      modifies this`lastCashAdjust, this`requests
      ensures !old(Due(portfolioLoaded && ordersLoaded, now, lastCashAdjust, CashAdjustPeriod)) ==> requests == old(requests) && lastCashAdjust == old(lastCashAdjust)
      ensures old(Due(portfolioLoaded && ordersLoaded, now, lastCashAdjust, CashAdjustPeriod)) ==>
        lastCashAdjust == now && requests == old(requests) + old(CashAdjustment(db, account.value, benchmarkSymbol, orderId))
    {
      if !portfolioLoaded || !ordersLoaded {
        return;
      }
      if now < lastCashAdjust + CashAdjustPeriod {
        return;
      }
      lastCashAdjust := now;
      var acct := account.value;
      var v := CashViewOf(db, acct, benchmarkSymbol).value;
      var pid := FindPortfolio(db, acct).value.id;
      CashAdjustmentOf(db, acct, benchmarkSymbol, orderId, v, pid);
      RebalanceBenchmark(acct, pid, v, orderId);
    }

    /**
     * The body of `adjustCash` once its timer has run out, on the values `v`
     * it reads: the book is compared with the target and replaced if they differ.
     */
    method RebalanceBenchmark(acct: string, pid: int, v: CashView, orderId: int)
      requires FindPortfolio(db, acct).Some? && FindPortfolio(db, acct).value.id == pid
      requires Computable(v)
      modifies this`requests
      ensures requests == old(requests) + AdjustmentRequests(db, pid, benchmarkSymbol, v.currency, orderId,
                                                             Decide(ToAdjust(v), v.onBuy + v.onSale, v.putsOnSale))
    {
      var toAdjust := ToAdjust(v);
      if toAdjust as real != v.onBuy + v.onSale {
        ReplaceBook(acct, pid, v.currency, toAdjust, v.onBuy + v.onSale, v.putsOnSale, orderId);
      } else {
        assert requests == old(requests) + [];
      }
    }

    /**
     * The adjustment order of `adjustCash`: both sides of the benchmark's
     * book are cancelled, then the target plus the put contracts on sale
     * (`putsOnSale`, the order-book query `adjustCash` repeats on an
     * unchanged store) is bought, or sold when negative.
     */
    method ReplaceBook(acct: string, pid: int, currency: string, toAdjust: int, onBook: real, putsOnSale: real,
                       orderId: int)
      requires FindPortfolio(db, acct).Some? && FindPortfolio(db, acct).value.id == pid
      requires toAdjust as real != onBook
      modifies this`requests
      ensures requests == old(requests)
                + AdjustmentRequests(db, pid, benchmarkSymbol, currency, orderId, Decide(toAdjust, onBook, putsOnSale))
    {
      ghost var a := Decide(toAdjust, onBook, putsOnSale);
      CancelBenchmarkBook(acct, pid);
      ghost var cancelled := requests;
      PlaceBenchmarkOrder(currency, toAdjust, onBook, putsOnSale, orderId);
      assert requests == cancelled + match a.order
                                     case None => []
                                     case Some(o) => [PlaceOrder(orderId, BenchmarkContract(benchmarkSymbol, currency),
                                                                 BenchmarkOrder(o.0, o.1))];
    }

    /** The two `cancelStockOrderBook` calls of `adjustCash`: the benchmark's BUY side, then its SELL side. */
    method CancelBenchmarkBook(acct: string, pid: int)
      requires FindPortfolio(db, acct).Some? && FindPortfolio(db, acct).value.id == pid
      modifies this`requests
      ensures requests == old(requests)
                + (BookCancels(db, pid, benchmarkSymbol, Buy) + BookCancels(db, pid, benchmarkSymbol, Sell))
    {
      CancelStockOrderBook(acct, benchmarkSymbol, Buy);
      CancelStockOrderBook(acct, benchmarkSymbol, Sell);
      LogTwice(old(requests), BookCancels(db, pid, benchmarkSymbol, Buy), BookCancels(db, pid, benchmarkSymbol, Sell));
    }

    /** The order `adjustCash` places after cancelling the book: a BUY of a positive quantity, a SELL of a negative one. */
    method PlaceBenchmarkOrder(currency: string, toAdjust: int, onBook: real, putsOnSale: real, orderId: int)
      requires toAdjust as real != onBook
      modifies this`requests
      ensures requests == old(requests) + match Decide(toAdjust, onBook, putsOnSale).order
                                          case None => []
                                          case Some(o) => [PlaceOrder(orderId, BenchmarkContract(benchmarkSymbol, currency),
                                                                      BenchmarkOrder(o.0, o.1))]
    {
      var contract := BenchmarkContract(benchmarkSymbol, currency);
      var q := toAdjust as real + putsOnSale;
      if q > 0.0 {
        requests := requests + [PlaceOrder(orderId, contract, BuyBenchmark(q))];
      } else if q < 0.0 {
        requests := requests + [PlaceOrder(orderId, contract, SellBenchmark(-q))];
      } else {
        assert requests == requests + [];
      }
    }

    /** `updateAccountTime`: one scanner step, then the cash adjustment, whose requests follow the scanner's. */
    method UpdateAccountTime(now: real, today: int, orderId: int)
      requires configured
      requires now >= nextWheelProcess ==>
                 ScannerReady(db, wheelSymbolsProcessing, wheelSymbolsExpirations, wheelSymbols, today)
      requires Due(portfolioLoaded && ordersLoaded, now, lastCashAdjust, CashAdjustPeriod) ==>
                 account.Some? && CashAdjustable(db, account.value, benchmarkSymbol)
      modifies this`nextWheelProcess, this`wheelSymbols, this`wheelSymbolsProcessed,
               this`wheelSymbolsProcessingSymbol, this`wheelSymbolsProcessing, this`wheelSymbolsProcessingStrikes,
               this`wheelSymbolsExpirations, this`requests, this`nextTickerId, this`optionContractsAvailable,
               this`lastCashAdjust
      ensures View() == ScanStep(old(View()), old(db), now, today).(requests := requests)
      ensures old(Due(portfolioLoaded && ordersLoaded, now, lastCashAdjust, CashAdjustPeriod)) ==>
                && lastCashAdjust == now
                && requests == ScanStep(old(View()), old(db), now, today).requests
                               + old(CashAdjustment(db, account.value, benchmarkSymbol, orderId))
      ensures !old(Due(portfolioLoaded && ordersLoaded, now, lastCashAdjust, CashAdjustPeriod)) ==>
                && lastCashAdjust == old(lastCashAdjust)
                && requests == ScanStep(old(View()), old(db), now, today).requests
    {
      FindWheelSymbolsInfo(now, today);
      ghost var scanned := View();
      AdjustCash(now, orderId);
      assert View() == scanned.(requests := requests);
    }

    /** `accountDownloadEnd`: the portfolio is loaded. */
    method AccountDownloadEnd()
      modifies this`portfolioLoaded
      ensures portfolioLoaded
    {
      portfolioLoaded := true;
    }

    /** `openOrderEnd`: the open orders are loaded. */
    method OpenOrderEnd()
      modifies this`ordersLoaded
      ensures ordersLoaded
    {
      ordersLoaded := true;
    }

    /**
     * `position`: the contract is resolved (and created if new) and the
     * account's position on it is stored as `createOrUpdatePosition` does.
     */
    method Position(accountName: string, contract: Contract, position: real, averageCost: real, today: int)
      requires Valid() && FindPortfolio(db, accountName).Some?
      modifies this`db
      ensures Valid()
      ensures var (db1, cid) := FindOrCreateContract(old(db), contract);
        var pid := FindPortfolio(old(db), accountName).value.id;
        && Extends(old(db), db1)
        && db == db1.(positions := db.positions)
        && (position == 0.0 ==> forall r :: r in db.positions <==> r in old(db.positions) && !PositionKey(r, pid, cid))
        && (position != 0.0 && cid.Some? ==> HoldsOnce(db.positions, pid, cid, position, averageCost * position))
    {
      var (db1, cid) := FindOrCreateContract(db, contract);
      db := db1;
      CreateOrUpdatePosition(cid, position, averageCost, accountName, today);
    }

    /**
     * `updatePortfolio`: except for unknown and cash entries, the contract
     * (strike in pounds for a GBP contract) is resolved, the position
     * stored, and the contract row gets the market price.
     */
    method UpdatePortfolio(contract: Contract, position: real, marketPrice: real, averageCost: real,
                           accountName: string, today: int)
      requires Valid()
      requires contract.secType != "UNK" && contract.secType != "CASH" ==> FindPortfolio(db, accountName).Some?
      modifies this`db
      ensures Valid()
      ensures contract.secType == "UNK" || contract.secType == "CASH" ==> db == old(db)
      ensures contract.secType != "UNK" && contract.secType != "CASH" ==>
        var (db1, cid) := FindOrCreateContract(old(db), StrikeInPounds(contract));
        var pid := FindPortfolio(old(db), accountName).value.id;
        && Extends(old(db), db1)
        && db == db1.(positions := db.positions, contracts := Repriced(db1.contracts, cid, marketPrice))
        && (position == 0.0 ==> forall r :: r in db.positions <==> r in old(db.positions) && !PositionKey(r, pid, cid))
        && (position != 0.0 && cid.Some? ==> HoldsOnce(db.positions, pid, cid, position, averageCost * position))
    {
      if contract.secType != "UNK" && contract.secType != "CASH" {
        var c := StrikeInPounds(contract);
        var (db1, cid) := FindOrCreateContract(db, c);
        db := db1;
        CreateOrUpdatePosition(cid, position, averageCost, accountName, today);
        var cs := Repriced(db.contracts, cid, marketPrice);
        SameContractIdsValid(db, cs);
        db := db.(contracts := cs);
      }
    }

    /**
     * `managedAccounts`: the account is recorded. The first time (no
     * account yet) the bot is configured, the session state of the store is
     * reset for that account, and market data, account updates, order ids
     * and open orders are requested.
     */
    method ManagedAccounts(recorded: Option<string>)
      requires Valid()
      modifies this`account, this`configured, this`benchmarkSymbol, this`nakedPutsRatio, this`wheelSymbols,
               this`wheelSymbolsProcessed, this`wheelSymbolsProcessing, this`wheelSymbolsProcessingStrikes,
               this`wheelSymbolsExpirations, this`lastCashAdjust, this`lastNakedPutsSale, this`nextWheelProcess,
               this`db, this`requests
      ensures Valid() && account == recorded
      ensures old(account).Some? && old(account).value != "" ==>
        && db == old(db) && requests == old(requests) && View() == old(View())
        && configured == old(configured) && benchmarkSymbol == old(benchmarkSymbol)
        && nakedPutsRatio == old(nakedPutsRatio)
        && lastCashAdjust == old(lastCashAdjust) && lastNakedPutsSale == old(lastNakedPutsSale)
      ensures !(old(account).Some? && old(account).value != "") ==>
        && Configured()
        && requests == old(requests) + [ReqFrozenMarketData, ReqAccountUpdates(true, recorded), ReqIds(-1), ReqOpenOrders]
        && SessionReset(old(db), db, recorded)
    {
      var firstTime := !(account.Some? && account.value != "");
      account := recorded;
      if firstTime {
        Configure();
        ResetSession(account);
        requests := requests + [ReqFrozenMarketData, ReqAccountUpdates(true, account), ReqIds(-1), ReqOpenOrders];
      }
    }

    /** The settings a first `managedAccounts` installs: benchmark, put ratio, watch list, and timers at 0. */
    ghost predicate Configured()
      reads this
    {
      && configured && benchmarkSymbol == "VT" && nakedPutsRatio == 0.5
      && wheelSymbols == InitialWheelSymbols && wheelSymbolsProcessed == [] && wheelSymbolsProcessing.None?
      && wheelSymbolsProcessingStrikes == [] && wheelSymbolsExpirations == []
      && lastCashAdjust == 0.0 && lastNakedPutsSale == 0.0 && nextWheelProcess == 0.0
    }

    /** The configuration half of a first `managedAccounts`. */
    method Configure()
      modifies this`configured, this`benchmarkSymbol, this`nakedPutsRatio, this`wheelSymbols,
               this`wheelSymbolsProcessed, this`wheelSymbolsProcessing, this`wheelSymbolsProcessingStrikes,
               this`wheelSymbolsExpirations, this`lastCashAdjust, this`lastNakedPutsSale, this`nextWheelProcess
      ensures Configured()
    {
      benchmarkSymbol := "VT";
      nakedPutsRatio := 0.5;
      wheelSymbols := InitialWheelSymbols;
      wheelSymbolsProcessed := [];
      wheelSymbolsProcessing := None;
      wheelSymbolsProcessingStrikes := [];
      wheelSymbolsExpirations := [];
      lastCashAdjust := 0.0;
      lastNakedPutsSale := 0.0;
      nextWheelProcess := 0.0;
      configured := true;
    }

    /** The store half of a first `managedAccounts`: the four session clears, in order. */
    method ResetSession(acct: Option<string>)
      requires Valid()
      modifies this`db
      ensures Valid()
      ensures SessionReset(old(db), db, acct)
    {
      ghost var db0 := db;
      ClearApiReqId();
      ghost var db1 := db;
      PortfolioIdOfSamePortfolios(db0, db1, acct);
      ClearPortfolioBalances(acct);
      ghost var db2 := db;
      PortfolioIdOfSamePortfolios(db0, db2, acct);
      ClearPortfolioPositions(acct);
      ghost var db3 := db;
      PortfolioIdOfSamePortfolios(db0, db3, acct);
      ClearOpenOrders(acct);
      assert db.contracts == db1.contracts && db.balances == db2.balances && db.positions == db3.positions;
    }
  }
}
