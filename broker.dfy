/**
 * Values exchanged with the broker: the contract and order descriptions its
 * callbacks deliver, and the outbound requests the trader issues, which the
 * model records in an append-only request log instead of sending them.
 */
module Broker {
  import opened Wrappers
  import opened TraderOrders

  /**
   * A broker contract description. `conId` is None where the trader copied a
   * NULL `con_id` out of its own table; `multiplier` is the numeric value of
   * the broker's multiplier text.
   */
  datatype Contract = Contract(
    conId: Option<int>,
    symbol: string,
    secType: string,
    exchange: string,
    primaryExchange: string,
    currency: string,
    localSymbol: string,
    right: string,
    strike: real,
    lastTradeDateOrContractMonth: string,
    multiplier: real)

  /** A contract description as the broker library constructs it, before any field is set. */
  const EmptyContract := Contract(Some(0), "", "", "", "", "", "", "", 0.0, "", 0.0)

  /** The two order sides the order-book queries distinguish. */
  datatype Side = Buy | Sell {
    function Text(): string {
      match this
      case Buy => "BUY"
      case Sell => "SELL"
    }
  }

  /** Price tick kinds; only the first four are stored, High and Low are ignored. */
  datatype TickType = Bid | Ask | Last | Close | High | Low | OtherTick(code: int)

  /** Option-computation tick kinds; only the model computation is stored, the bid/ask/last ones are ignored. */
  datatype OptionTickType = ModelOption | BidOptionComputation | AskOptionComputation | LastOptionComputation | OtherOptionTick(code: int)

  /**
   * An option expiration as the broker lists it: its "YYYYMMDD" text and the
   * day number of that date, so that `(expiration - today).days` is
   * `ordinal - today`.
   */
  datatype Expiration = Expiration(text: string, ordinal: int)

  /** The fields of a broker order that the open-order table keeps. */
  datatype IncomingOrder = IncomingOrder(
    account: string,
    permId: int,
    clientId: int,
    action: string,
    totalQuantity: real,
    cashQty: real,
    lmtPrice: real,
    auxPrice: real)

  /** The fields of a contract-details answer that the trader reads. */
  datatype ContractDetails = ContractDetails(
    contract: Contract,
    industry: string,
    category: string,
    subcategory: string)

  /** Option greeks of a model-option computation tick. */
  datatype Greeks = Greeks(
    impliedVolatility: real,
    delta: real,
    pvDividend: real,
    gamma: real,
    vega: real,
    theta: real)

  /** Outbound broker calls, in the order they were issued. */
  datatype Request =
    | ReqContractDetails(reqId: int, contract: Contract)
    | ReqSecDefOptParams(reqId: int, underlyingSymbol: string, futFopExchange: string,
                         underlyingSecType: string, underlyingConId: Option<int>)
    | ReqMktData(reqId: int, contract: Contract, genericTickList: string,
                 snapshot: bool, regulatorySnapshot: bool)
    | PlaceOrder(orderId: int, contract: Contract, order: Order)
    | CancelOrder(orderId: int)
    | ReqFrozenMarketData
    | ReqAccountUpdates(subscribe: bool, account: Option<string>)
    | ReqIds(numIds: int)
    | ReqOpenOrders

  /** The ticker id a request is issued under, for the requests that carry one. */
  function TickerIdOf(r: Request): Option<int> {
    match r
    case ReqContractDetails(id, _) => Some(id)
    case ReqSecDefOptParams(id, _, _, _, _) => Some(id)
    case ReqMktData(id, _, _, _, _) => Some(id)
    case _ => None
  }

  /** Logging two batches of requests one after the other logs their concatenation. */
  lemma LogTwice(log: seq<Request>, first: seq<Request>, second: seq<Request>)
    ensures log + first + second == log + (first + second)
  {
  }
}
