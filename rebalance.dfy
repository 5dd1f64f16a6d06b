/**
 * The cash-rebalance decision of `adjustCash`: from the account's cash,
 * its short-put commitments and the benchmark's order book, an integer
 * number of benchmark shares to buy (positive) or sell (negative), and the
 * order requests that bring the book to that quantity.
 */
module Rebalance {
  import opened Wrappers
  import opened Sql
  import opened TraderOrders
  import opened Broker
  import opened Store
  import opened Queries

  /** The values `adjustCash` reads from the store, once every query it makes has a value. */
  datatype CashView = CashView(
    totalCash: real,                   // getTotalCashAmount
    itmNakedPuts: real,                // getItmNakedPutAmount, <= 0
    onBuy: real,                       // benchmark BUY book plus puts on sale
    onSale: real,                      // benchmark SELL book (negative) plus calls on sale
    putsOnSale: real,                  // getOptionsQuantityOnOrderBook(P, SELL), <= 0
    priceInBase: real,                 // getSymbolPriceInBase
    price: real,                       // getSymbolPrice
    currency: string,                  // getSymbolCurrency
    currencyBalance: real,             // getCurrencyBalance in the benchmark's currency
    rate: real,                        // getBaseToCurrencyRate of that currency
    benchmarkNakedPuts: Option<real>)  // getNakedPutAmount on the benchmark, read only on the buy branch

  /** Cash left once the in-the-money short puts are covered, in base currency. */
  function NetCash(v: CashView): real {
    v.totalCash + v.itmNakedPuts
  }

  /** Net cash is negative: shares are sold to raise it. */
  predicate SellBranch(v: CashView) {
    NetCash(v) < 0.0
  }

  /** The benchmark-currency balance strictly exceeds net cash converted into it: shares may be bought. */
  predicate BuyBranch(v: CashView) {
    !SellBranch(v) && v.currencyBalance > NetCash(v) * v.rate
  }

  /** Every division `adjustCash` performs on the branch it takes has a non-zero divisor and a value to divide. */
  predicate Computable(v: CashView) {
    && (SellBranch(v) ==> v.priceInBase != 0.0)
    && (BuyBranch(v) ==> v.benchmarkNakedPuts.Some?
                         && (NetCash(v) + v.benchmarkNakedPuts.value > 0.0 ==> v.price != 0.0))
  }

  /** On the buy branch, net cash once the benchmark's own short puts are covered too. */
  function AdjustedNetCash(v: CashView): real
    requires BuyBranch(v) && v.benchmarkNakedPuts.Some?
  {
    NetCash(v) + v.benchmarkNakedPuts.value
  }

  /** On the sell branch: `floor(net_cash / benchmarkPriceInBase)`. */
  function SellQuantity(v: CashView): (r: int)
    requires SellBranch(v) && v.priceInBase != 0.0
    ensures v.priceInBase > 0.0 ==> r < 0
  {
    var r := (NetCash(v) / v.priceInBase).Floor;
    assert v.priceInBase > 0.0 ==> r < 0 by {
      if v.priceInBase > 0.0 {
        DivNegative(NetCash(v), v.priceInBase);
      }
    }
    r
  }

  /** The adjusted net cash converted into the benchmark's currency, in shares: `net_cash * rate / benchmarkPrice`. */
  function BuyTarget(v: CashView): real
    requires BuyBranch(v) && Computable(v) && AdjustedNetCash(v) > 0.0
  {
    AdjustedNetCash(v) * v.rate / v.price
  }

  /** On the buy branch: the floor of the buy target when the adjusted net cash is positive, else 0. */
  function BuyQuantity(v: CashView): int
    requires BuyBranch(v) && Computable(v)
  {
    if AdjustedNetCash(v) > 0.0 then BuyTarget(v).Floor else 0
  }

  /** `math.floor(to_adjust)`: the share delta `adjustCash` aims for. */
  function ToAdjust(v: CashView): (r: int)
    requires Computable(v)
    ensures !SellBranch(v) && !BuyBranch(v) ==> r == 0
    ensures BuyBranch(v) && AdjustedNetCash(v) <= 0.0 ==> r == 0
    ensures r > 0 ==> BuyBranch(v) || (SellBranch(v) && v.priceInBase < 0.0)
  {
    if SellBranch(v) then SellQuantity(v)
    else if BuyBranch(v) then BuyQuantity(v)
    else 0
  }

  /** With a positive price, a negative net cash sells the fewest shares that cover the shortfall. */
  lemma SellCoversShortfall(v: CashView)
    requires Computable(v) && SellBranch(v) && v.priceInBase > 0.0
    ensures ToAdjust(v) < 0
    ensures ToAdjust(v) as real * v.priceInBase <= NetCash(v)
    ensures NetCash(v) < (ToAdjust(v) + 1) as real * v.priceInBase
  {
    var x := NetCash(v) / v.priceInBase;
    var r := ToAdjust(v);
    assert r == x.Floor;
    DivNegative(NetCash(v), v.priceInBase);
    assert x * v.priceInBase == NetCash(v);
    assert r as real <= x < (r + 1) as real;
    MulLeq(r as real, x, v.priceInBase);
    MulLt(x, (r + 1) as real, v.priceInBase);
    assert NetCash(v) < (r + 1) as real * v.priceInBase;
  }

  /** With a positive price and a non-negative rate, a purchase never costs more than the adjusted net cash, in the benchmark's currency. */
  lemma BuyWithinCash(v: CashView)
    requires Computable(v) && BuyBranch(v) && v.price > 0.0 && v.rate >= 0.0
    ensures ToAdjust(v) >= 0
    ensures AdjustedNetCash(v) > 0.0 ==> ToAdjust(v) as real * v.price <= AdjustedNetCash(v) * v.rate
    ensures AdjustedNetCash(v) > 0.0 ==> AdjustedNetCash(v) * v.rate < (ToAdjust(v) + 1) as real * v.price
  {
    var net := AdjustedNetCash(v);
    if net > 0.0 {
      var x := BuyTarget(v);
      var r := ToAdjust(v);
      assert r == BuyQuantity(v) == x.Floor;
      MulLeq(0.0, net, v.rate);
      assert x >= 0.0;
      assert x * v.price == net * v.rate;
      assert r as real <= x < (r + 1) as real;
      MulLeq(r as real, x, v.price);
      MulLt(x, (r + 1) as real, v.price);
      assert net * v.rate < (r + 1) as real * v.price;
    }
  }

  lemma DivNegative(a: real, b: real)
    requires a < 0.0 && b > 0.0
    ensures a / b < 0.0
  {
    assert (a / b) * b == a;
  }

  lemma MulLeq(a: real, b: real, c: real)
    requires a <= b && c >= 0.0
    ensures a * c <= b * c
  {
  }

  lemma MulLt(a: real, b: real, c: real)
    requires a < b && c > 0.0
    ensures a * c < b * c
  {
  }

  /** What `adjustCash` does to the order book. */
  datatype Adjustment =
    | Hold                                       // the book already holds the target
    | Replace(order: Option<(Side, real)>)       // cancel both sides, then place at most this order

  /**
   * Compare the target with the book (`to_adjust != on_buy + on_sale`);
   * on a difference, the order placed is the target plus the (signed) put
   * contracts on sale.
   */
  function Decide(toAdjust: int, onBook: real, putsOnSale: real): (r: Adjustment)
    ensures r.Hold? <==> toAdjust as real == onBook
    ensures r.Replace? && r.order.Some? ==> r.order.value.1 > 0.0
    ensures r.Replace? && r.order.Some? ==>
              (r.order.value.0 == Buy <==> toAdjust as real + putsOnSale > 0.0)
              && r.order.value.1 == if r.order.value.0 == Buy then toAdjust as real + putsOnSale else -(toAdjust as real + putsOnSale)
    ensures r.Replace? && r.order.None? <==> r.Replace? && toAdjust as real + putsOnSale == 0.0
  {
    if toAdjust as real == onBook then Hold
    else
      var q := toAdjust as real + putsOnSale;
      if q > 0.0 then Replace(Some((Buy, q)))
      else if q < 0.0 then Replace(Some((Sell, -q)))
      else Replace(None)
  }

  /**
   * The values `adjustCash` reads, or `None` when one of its unconditional
   * queries has no value (where the trader would fail on `float(None)`).
   */
  function CashViewOf(db: Db, account: string, benchmark: string): Option<CashView> {
    var total := TotalCash(db, account);
    var allPuts := NakedPutAmount(db, account, AllPuts);
    var itm := NakedPutAmount(db, account, InTheMoney);
    var priceInBase := SymbolPriceInBase(db, account, benchmark);
    var price := SymbolPrice(db, benchmark);
    var currency := SymbolCurrency(db, benchmark);
    if total.None? || allPuts.None? || itm.None? || priceInBase.None? || price.None? || currency.None? then None
    else
      var balance := CurrencyBalance(db, account, currency.value);
      var rate := BaseToCurrencyRate(db, account, currency.value);
      if balance.None? || rate.None? then None
      else
        var putsOnSale := OptionsQuantityOnOrderBook(db, account, benchmark, "P", Sell);
        var onBuy := StockQuantityOnOrderBook(db, account, benchmark, Buy) - putsOnSale;
        var onSale := StockQuantityOnOrderBook(db, account, benchmark, Sell)
                      - OptionsQuantityOnOrderBook(db, account, benchmark, "C", Sell);
        Some(CashView(total.value, itm.value, onBuy, onSale, putsOnSale, priceInBase.value, price.value,
                      currency.value, balance.value, rate.value, NakedPutAmount(db, account, PutsOn(benchmark))))
  }

  /** `adjustCash` runs to completion on this store: every value it reads exists and every division it makes is defined. */
  predicate CashAdjustable(db: Db, account: string, benchmark: string) {
    CashViewOf(db, account, benchmark).Some? && Computable(CashViewOf(db, account, benchmark).value)
  }

  /** The `con_id`-less stock contract the benchmark orders are placed on. */
  function BenchmarkContract(symbol: string, currency: string): (c: Contract)
    ensures c.symbol == symbol && c.secType == "STK" && c.currency == currency && c.exchange == "SMART"
  {
    EmptyContract.(symbol := symbol, secType := "STK", currency := currency, exchange := "SMART")
  }

  /** One `cancelOrder` per order row, in row order. */
  function CancelRequests(rows: seq<OpenOrderRow>): (r: seq<Request>)
    ensures |r| == |rows|
    ensures forall j :: 0 <= j < |r| ==> r[j] == CancelOrder(rows[j].orderId)
  {
    seq(|rows|, j requires 0 <= j < |rows| => CancelOrder(rows[j].orderId))
  }

  /** One more order row adds its cancel at the end. */
  lemma CancelRequestsSnoc(rows: seq<OpenOrderRow>, x: OpenOrderRow)
    ensures CancelRequests(rows + [x]) == CancelRequests(rows) + [CancelOrder(x.orderId)]
  {
    assert forall j :: 0 <= j < |rows| ==> (rows + [x])[j] == rows[j];
  }

  /** `cancelStockOrderBook`: cancel every live stock order of the account on the symbol and side. */
  function BookCancels(db: Db, pid: int, symbol: string, side: Side): seq<Request> {
    CancelRequests(Where(db.openOrders, LiveStockOrder(db.contracts, pid, symbol, side)))
  }

  /** The benchmark order placed on the given side and quantity. */
  function BenchmarkOrder(side: Side, q: real): (o: Order)
    ensures o.action == side.Text() && o.totalQuantity == Some(q) && o.transmit
  {
    match side
    case Buy => BuyBenchmark(q)
    case Sell => SellBenchmark(q)
  }

  /** The requests of an adjustment: none on `Hold`, else the cancels of both sides and then at most one order. */
  function AdjustmentRequests(db: Db, pid: int, benchmark: string, currency: string, orderId: int, a: Adjustment): seq<Request> {
    match a
    case Hold => []
    case Replace(o) =>
      BookCancels(db, pid, benchmark, Buy) + BookCancels(db, pid, benchmark, Sell)
      + match o
        case None => []
        case Some(order) => [PlaceOrder(orderId, BenchmarkContract(benchmark, currency), BenchmarkOrder(order.0, order.1))]
  }

  /**
   * An adjustment issues nothing when the book already holds the target;
   * otherwise only cancels of live benchmark orders, followed by at most one
   * order, a transmitted BUY or SELL of a positive quantity.
   */
  lemma AdjustmentRequestsShape(db: Db, pid: int, benchmark: string, currency: string, orderId: int,
                                toAdjust: int, onBook: real, putsOnSale: real)
    ensures var r := AdjustmentRequests(db, pid, benchmark, currency, orderId, Decide(toAdjust, onBook, putsOnSale));
      && (toAdjust as real == onBook ==> r == [])
      && (forall j :: 0 <= j < |r| && !r[j].CancelOrder? ==> j == |r| - 1 && r[j].PlaceOrder?)
      && (forall j :: 0 <= j < |r| && r[j].CancelOrder? ==>
            exists k :: 0 <= k < |db.openOrders| && db.openOrders[k].orderId == r[j].orderId
              && (LiveStockOrder(db.contracts, pid, benchmark, Buy)(db.openOrders[k])
                  || LiveStockOrder(db.contracts, pid, benchmark, Sell)(db.openOrders[k])))
      && (forall j :: 0 <= j < |r| && r[j].PlaceOrder? ==>
            r[j].orderId == orderId && r[j].contract == BenchmarkContract(benchmark, currency)
            && r[j].order.transmit && r[j].order.totalQuantity.Some? && r[j].order.totalQuantity.value > 0.0
            && (r[j].order.action == "BUY" <==> toAdjust as real + putsOnSale > 0.0))
  {
    var a := Decide(toAdjust, onBook, putsOnSale);
    var r := AdjustmentRequests(db, pid, benchmark, currency, orderId, a);
    if a.Replace? {
      var wb := Where(db.openOrders, LiveStockOrder(db.contracts, pid, benchmark, Buy));
      var ws := Where(db.openOrders, LiveStockOrder(db.contracts, pid, benchmark, Sell));
      var cancels := CancelRequests(wb) + CancelRequests(ws);
      assert r[..|cancels|] == cancels;
      forall j | 0 <= j < |cancels|
        ensures exists k :: (0 <= k < |db.openOrders| && db.openOrders[k].orderId == cancels[j].orderId
              && (LiveStockOrder(db.contracts, pid, benchmark, Buy)(db.openOrders[k])
                  || LiveStockOrder(db.contracts, pid, benchmark, Sell)(db.openOrders[k])))
      {
        if j < |wb| {
          assert wb[j] in wb;
          var k :| 0 <= k < |db.openOrders| && db.openOrders[k] == wb[j];
        } else {
          assert ws[j - |wb|] in ws;
          var k :| 0 <= k < |db.openOrders| && db.openOrders[k] == ws[j - |wb|];
        }
      }
      forall j | 0 <= j < |r| && r[j].CancelOrder?
        ensures j < |cancels|
      { }
    }
  }

  /**
   * The requests of one `adjustCash` run on a store where it runs to
   * completion: the target share count compared with the benchmark's book.
   */
  function CashAdjustment(db: Db, account: string, benchmark: string, orderId: int): seq<Request>
    requires CashAdjustable(db, account, benchmark)
  {
    var v := CashViewOf(db, account, benchmark).value;
    AdjustmentRequests(db, FindPortfolio(db, account).value.id, benchmark, v.currency, orderId,
                       Decide(ToAdjust(v), v.onBuy + v.onSale, v.putsOnSale))
  }

  /** The adjustment in terms of the values read and the account's portfolio. */
  lemma CashAdjustmentOf(db: Db, account: string, benchmark: string, orderId: int, v: CashView, pid: int)
    requires CashAdjustable(db, account, benchmark)
    requires CashViewOf(db, account, benchmark) == Some(v) && FindPortfolio(db, account).value.id == pid
    ensures CashAdjustment(db, account, benchmark, orderId)
            == AdjustmentRequests(db, pid, benchmark, v.currency, orderId, Decide(ToAdjust(v), v.onBuy + v.onSale, v.putsOnSale))
  {
  }

  /** `portfolio_nav` of `sellNakedPuts`: cash plus stock and option values, or None when one of the sums is NULL. */
  function PortfolioNav(db: Db, account: string): (r: Option<real>)
    ensures r.Some? <==> TotalCash(db, account).Some? && PortfolioStocksValue(db, account).Some?
                         && PortfolioOptionsValue(db, account).Some?
    ensures r.Some? ==> r.value == TotalCash(db, account).value + PortfolioStocksValue(db, account).value
                                   + PortfolioOptionsValue(db, account).value
  {
    var cash, stocks, options := TotalCash(db, account), PortfolioStocksValue(db, account), PortfolioOptionsValue(db, account);
    if cash.Some? && stocks.Some? && options.Some? then Some(cash.value + stocks.value + options.value) else None
  }

  /** `portfolio_nav * nakedPutsRatio + naked_puts_engaged`. */
  function Puttable(nav: real, ratio: real, engaged: real): real {
    nav * ratio + engaged
  }

  /** `puttable_amount`: the share of the NAV allowed on short puts, less what they already engage. */
  function PuttableAmount(db: Db, account: string, ratio: real): Option<real> {
    var nav, engaged := PortfolioNav(db, account), NakedPutAmount(db, account, AllPuts);
    if nav.Some? && engaged.Some? then Some(Puttable(nav.value, ratio, engaged.value)) else None
  }

  /** Short puts only ever reduce the puttable amount below the ratio of the NAV. */
  lemma PuttableWithinRatio(db: Db, account: string, ratio: real)
    requires SaneMarket(db)
    ensures PuttableAmount(db, account, ratio).Some? ==>
              PuttableAmount(db, account, ratio).value <= PortfolioNav(db, account).value * ratio
  {
    NakedPutAmountNonPositive(db, account, AllPuts);
  }
}
