/**
 * Order templates (`TraderOrder`): each builds a fresh broker order and sets
 * a fixed handful of its fields. The same class appears twice in the
 * repository, in its own file and embedded at the top of the trader, the
 * embedded copy holding only the first four templates.
 */
module TraderOrders {
  import opened Wrappers

  /**
   * The order fields the templates touch. A field a template leaves alone
   * keeps the value of a freshly constructed broker order: empty text for
   * `action`, `orderType` and `tif`, no quantity and no limit price (the
   * broker library's "unset" markers) and `transmit` set.
   */
  datatype Order = Order(
    action: string,
    orderType: string,
    totalQuantity: Option<real>,
    lmtPrice: Option<real>,
    tif: string,
    transmit: bool)

  /** A broker order as the broker library constructs it. */
  const FreshOrder := Order("", "", None, None, "", true)

  /** `TraderOrder.Order()`: a day order that waits for confirmation before transmission. */
  function BaseOrder(): (o: Order)
    ensures o.tif == "DAY" && !o.transmit
    ensures o.action == FreshOrder.action && o.orderType == FreshOrder.orderType
    ensures o.totalQuantity.None? && o.lmtPrice.None?
  {
    FreshOrder.(tif := "DAY", transmit := false)
  }

  /** `TraderOrder.Midprice(action, quantity, priceCap)`: a capped MIDPRICE day order. */
  function Midprice(action: string, quantity: real, priceCap: real): (o: Order)
    ensures o.action == action && o.orderType == "MIDPRICE"
    ensures o.totalQuantity == Some(quantity) && o.lmtPrice == Some(priceCap)
    ensures o.tif == BaseOrder().tif && o.transmit == BaseOrder().transmit
  {
    BaseOrder().(action := action, orderType := "MIDPRICE",
                 totalQuantity := Some(quantity), lmtPrice := Some(priceCap))
  }

  /** `TraderOrder.BuyBenchmark(quantity)`: a transmitted MIDPRICE buy capped at 1. */
  function BuyBenchmark(quantity: real): (o: Order)
    ensures o.action == "BUY" && o.orderType == "MIDPRICE" && o.tif == "DAY"
    ensures o.totalQuantity == Some(quantity) && o.lmtPrice == Some(1.0) && o.transmit
  {
    Midprice("BUY", quantity, 1.0).(transmit := true)
  }

  /** `TraderOrder.SellBenchmark(quantity)`: a transmitted MIDPRICE sell capped at 1000000. */
  function SellBenchmark(quantity: real): (o: Order)
    ensures o.action == "SELL" && o.orderType == "MIDPRICE" && o.tif == "DAY"
    ensures o.totalQuantity == Some(quantity) && o.lmtPrice == Some(1000000.0) && o.transmit
  {
    Midprice("SELL", quantity, 1000000.0).(transmit := true)
  }

  /** `TraderOrder.SellNakedPut(priceCap)`: an untransmitted day limit sell of one contract. */
  function SellNakedPut(priceCap: real): (o: Order)
    ensures o.action == "SELL" && o.orderType == "LMT"
    ensures o.totalQuantity == Some(1.0) && o.lmtPrice == Some(priceCap)
    ensures o.tif == "DAY" && !o.transmit
  {
    BaseOrder().(action := "SELL", orderType := "LMT",
                 totalQuantity := Some(1.0), lmtPrice := Some(priceCap))
  }

  /** `TraderOrder.SellCoveredCall(priceCap, quantity)`: an untransmitted day limit sell. */
  function SellCoveredCall(priceCap: real, quantity: real): (o: Order)
    ensures o.action == "SELL" && o.orderType == "LMT"
    ensures o.totalQuantity == Some(quantity) && o.lmtPrice == Some(priceCap)
    ensures o.tif == "DAY" && !o.transmit
  {
    BaseOrder().(action := "SELL", orderType := "LMT",
                 totalQuantity := Some(quantity), lmtPrice := Some(priceCap))
  }
}
