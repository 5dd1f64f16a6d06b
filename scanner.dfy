/**
 * The option-chain scanner's pure steps (`findWheelSymbolsInfo`): popping
 * expirations until one is near, the strike window around the underlying's
 * price, and the contract-detail requests issued for a window of strikes.
 */
module Scanner {
  import opened Wrappers
  import opened Sql
  import opened Broker

  /** Expirations fewer than this many days away are scanned. */
  const NearDays := 50

  predicate Near(e: Expiration, today: int) {
    e.ordinal - today < NearDays
  }

  /**
   * The `while` loop over the expiration list: pop from the end until a near
   * expiration comes off. Returns the list left and the expiration found.
   */
  function PopUntilNear(exps: seq<Expiration>, today: int): (r: (seq<Expiration>, Option<Expiration>))
    ensures |r.0| <= |exps| && r.0 == exps[..|r.0|]
    ensures r.1.Some? ==> |r.0| < |exps| && r.1.value == exps[|r.0|] && Near(r.1.value, today)
    ensures r.1.None? ==> r.0 == []
    ensures forall i :: |r.0| < i < |exps| ==> !Near(exps[i], today)
    ensures r.1.None? ==> forall i :: 0 <= i < |exps| ==> !Near(exps[i], today)
  {
    if exps == [] then ([], None)
    else
      var last := exps[|exps| - 1];
      if Near(last, today) then (exps[..|exps| - 1], Some(last))
      else
        var r := PopUntilNear(exps[..|exps| - 1], today);
        assert exps[..|exps| - 1][..|r.0|] == exps[..|r.0|];
        r
  }

  /** A non-empty list always loses at least one expiration. */
  lemma PopShrinks(exps: seq<Expiration>, today: int)
    requires exps != []
    ensures |PopUntilNear(exps, today).0| < |exps|
  {
  }

  /** `price * 0.8 < strike < price * 1.2`. */
  predicate InWindow(price: real, strike: real) {
    price * 0.8 < strike && strike < price * 1.2
  }

  /** The strikes the scanner requests contracts for, in list order. */
  function WindowStrikes(strikes: seq<real>, price: real): (ws: seq<real>)
    ensures forall s {:trigger s in ws} :: s in ws <==> s in strikes && InWindow(price, s)
  {
    if strikes == [] then []
    else
      var n := |strikes| - 1;
      WindowStrikes(strikes[..n], price) + (if InWindow(price, strikes[n]) then [strikes[n]] else [])
  }

  /** The option contract requested for one strike and right. */
  function OptionContract(symbol: string, exp: Expiration, strike: real, right: string): (c: Contract)
    ensures c.exchange == "SMART" && c.secType == "OPT" && c.symbol == symbol
    ensures c.strike == strike && c.lastTradeDateOrContractMonth == exp.text && c.right == right
  {
    EmptyContract.(exchange := "SMART", secType := "OPT", symbol := symbol, strike := strike,
                   lastTradeDateOrContractMonth := exp.text, right := right)
  }

  /** The underlying contract requested when a symbol starts being processed. */
  function StockContract(symbol: string, conId: Option<int>): (c: Contract)
    ensures c.exchange == "SMART" && c.secType == "STK" && c.symbol == symbol && c.conId == conId
  {
    EmptyContract.(exchange := "SMART", secType := "STK", conId := conId, symbol := symbol)
  }

  /** The call then the put requested for one strike, under the next two ticker ids after `lastId`. */
  function StrikeRequests(symbol: string, exp: Expiration, strike: real, lastId: int): seq<Request> {
    [ReqContractDetails(lastId + 1, OptionContract(symbol, exp, strike, "C")),
     ReqContractDetails(lastId + 2, OptionContract(symbol, exp, strike, "P"))]
  }

  /**
   * The requests for a sequence of window strikes when the ticker counter
   * stands at `lastId`: two per strike, ticker ids `lastId + 1`, `lastId + 2`, ...
   */
  function OptionRequests(symbol: string, exp: Expiration, ws: seq<real>, lastId: int): (r: seq<Request>)
    ensures |r| == 2 * |ws|
  {
    if ws == [] then []
    else
      var n := |ws| - 1;
      OptionRequests(symbol, exp, ws[..n], lastId) + StrikeRequests(symbol, exp, ws[n], lastId + 2 * n)
  }

  /** Request `2k` is the call and request `2k+1` the put on strike `k`, under ticker ids `lastId + 2k + 1` and `lastId + 2k + 2`. */
  lemma {:induction false} OptionRequestsAt(symbol: string, exp: Expiration, ws: seq<real>, lastId: int, k: int)
    requires 0 <= k < |ws|
    ensures OptionRequests(symbol, exp, ws, lastId)[2 * k] == ReqContractDetails(lastId + 2 * k + 1, OptionContract(symbol, exp, ws[k], "C"))
    ensures OptionRequests(symbol, exp, ws, lastId)[2 * k + 1] == ReqContractDetails(lastId + 2 * k + 2, OptionContract(symbol, exp, ws[k], "P"))
  {
    var n := |ws| - 1;
    var init := OptionRequests(symbol, exp, ws[..n], lastId);
    assert OptionRequests(symbol, exp, ws, lastId) == init + StrikeRequests(symbol, exp, ws[n], lastId + 2 * n);
    if k < n {
      OptionRequestsAt(symbol, exp, ws[..n], lastId, k);
    }
  }

  /** Every strike of the window gets one call and one put request, and every request is for a window strike. */
  lemma OptionRequestsCoverWindow(symbol: string, exp: Expiration, strikes: seq<real>, price: real, lastId: int)
    ensures forall s :: s in strikes && InWindow(price, s) ==>
              exists k :: 0 <= k < |WindowStrikes(strikes, price)| && WindowStrikes(strikes, price)[k] == s
                && OptionRequests(symbol, exp, WindowStrikes(strikes, price), lastId)[2 * k]
                   == ReqContractDetails(lastId + 2 * k + 1, OptionContract(symbol, exp, s, "C"))
                && OptionRequests(symbol, exp, WindowStrikes(strikes, price), lastId)[2 * k + 1]
                   == ReqContractDetails(lastId + 2 * k + 2, OptionContract(symbol, exp, s, "P"))
    ensures forall j :: 0 <= j < |OptionRequests(symbol, exp, WindowStrikes(strikes, price), lastId)| ==>
              OptionRequests(symbol, exp, WindowStrikes(strikes, price), lastId)[j].ReqContractDetails?
              && InWindow(price, OptionRequests(symbol, exp, WindowStrikes(strikes, price), lastId)[j].contract.strike)
  {
    var ws := WindowStrikes(strikes, price);
    var r := OptionRequests(symbol, exp, ws, lastId);
    forall s
      ensures s in strikes && InWindow(price, s) ==>
                exists k :: 0 <= k < |ws| && ws[k] == s
                  && r[2 * k] == ReqContractDetails(lastId + 2 * k + 1, OptionContract(symbol, exp, s, "C"))
                  && r[2 * k + 1] == ReqContractDetails(lastId + 2 * k + 2, OptionContract(symbol, exp, s, "P"))
    {
      if s in strikes && InWindow(price, s) {
        assert s in ws;
        var k :| 0 <= k < |ws| && ws[k] == s;
        OptionRequestsAt(symbol, exp, ws, lastId, k);
      }
    }
    assert ws == WindowStrikes(strikes, price);
    forall j | 0 <= j < |r|
      ensures r[j].ReqContractDetails? && InWindow(price, r[j].contract.strike)
    {
      var k := j / 2;
      OptionRequestsAt(symbol, exp, ws, lastId, k);
      assert ws[k] in ws;
    }
  }

  /** Logged after `log`, the requests for a window are option contract requests of the symbol and expiration at window strikes. */
  lemma LoggedOptionsInWindow(log: seq<Request>, symbol: string, exp: Expiration, strikes: seq<real>, price: real, lastId: int)
    ensures var r := log + OptionRequests(symbol, exp, WindowStrikes(strikes, price), lastId);
      forall j :: |log| <= j < |r| ==>
        && r[j].ReqContractDetails?
        && r[j].contract.secType == "OPT"
        && r[j].contract.symbol == symbol
        && r[j].contract.lastTradeDateOrContractMonth == exp.text
        && r[j].contract.strike in strikes
        && InWindow(price, r[j].contract.strike)
  {
    var ws := WindowStrikes(strikes, price);
    var added := OptionRequests(symbol, exp, ws, lastId);
    var r := log + added;
    forall j | |log| <= j < |r|
      ensures && r[j].ReqContractDetails?
              && r[j].contract.secType == "OPT"
              && r[j].contract.symbol == symbol
              && r[j].contract.lastTradeDateOrContractMonth == exp.text
              && r[j].contract.strike in strikes
              && InWindow(price, r[j].contract.strike)
    {
      var k := (j - |log|) / 2;
      OptionRequestsAt(symbol, exp, ws, lastId, k);
      assert r[j] == added[j - |log|];
      assert ws[k] in ws;
    }
  }

  /** Logged after `log` into `r`, the requests for a window hold the call and the put of a window strike. */
  lemma LoggedStrikeCovered(log: seq<Request>, symbol: string, exp: Expiration, strikes: seq<real>, price: real, lastId: int,
                            r: seq<Request>, s: real)
    requires r == log + OptionRequests(symbol, exp, WindowStrikes(strikes, price), lastId)
    requires s in strikes && InWindow(price, s)
    ensures exists j :: |log| <= j < |r| && r[j].ReqContractDetails? && r[j].contract == OptionContract(symbol, exp, s, "C")
    ensures exists j :: |log| <= j < |r| && r[j].ReqContractDetails? && r[j].contract == OptionContract(symbol, exp, s, "P")
  {
    var ws := WindowStrikes(strikes, price);
    var added := OptionRequests(symbol, exp, ws, lastId);
    assert s in ws;
    var k :| 0 <= k < |ws| && ws[k] == s;
    OptionRequestsAt(symbol, exp, ws, lastId, k);
    assert r[|log| + 2 * k] == added[2 * k];
    assert r[|log| + 2 * k + 1] == added[2 * k + 1];
  }

  /** Logged after `log` into `r`, the requests for a window hold the call and the put of every window strike. */
  lemma LoggedOptionsCoverWindow(log: seq<Request>, symbol: string, exp: Expiration, strikes: seq<real>, price: real, lastId: int,
                                 r: seq<Request>)
    requires r == log + OptionRequests(symbol, exp, WindowStrikes(strikes, price), lastId)
    ensures forall s :: s in strikes && InWindow(price, s) ==>
              && (exists j :: |log| <= j < |r| && r[j].ReqContractDetails? && r[j].contract == OptionContract(symbol, exp, s, "C"))
              && (exists j :: |log| <= j < |r| && r[j].ReqContractDetails? && r[j].contract == OptionContract(symbol, exp, s, "P"))
  {
    forall s | s in strikes && InWindow(price, s)
      ensures && (exists j :: |log| <= j < |r| && r[j].ReqContractDetails? && r[j].contract == OptionContract(symbol, exp, s, "C"))
              && (exists j :: |log| <= j < |r| && r[j].ReqContractDetails? && r[j].contract == OptionContract(symbol, exp, s, "P"))
    {
      LoggedStrikeCovered(log, symbol, exp, strikes, price, lastId, r, s);
    }
  }

  /** The ticker ids of the requests strictly increase, starting right after `lastId`. */
  lemma OptionRequestIdsIncrease(symbol: string, exp: Expiration, ws: seq<real>, lastId: int)
    ensures forall j :: 0 <= j < |OptionRequests(symbol, exp, ws, lastId)| ==>
              OptionRequests(symbol, exp, ws, lastId)[j].ReqContractDetails?
              && OptionRequests(symbol, exp, ws, lastId)[j].reqId == lastId + j + 1
  {
    var r := OptionRequests(symbol, exp, ws, lastId);
    forall j | 0 <= j < |r|
      ensures r[j].ReqContractDetails? && r[j].reqId == lastId + j + 1
    {
      OptionRequestsAt(symbol, exp, ws, lastId, j / 2);
    }
  }

  /** Scanning one more strike extends the window by that strike when it is in the window. */
  lemma WindowStrikesStep(strikes: seq<real>, i: int, price: real)
    requires 0 <= i < |strikes|
    ensures WindowStrikes(strikes[..i + 1], price)
            == WindowStrikes(strikes[..i], price) + (if InWindow(price, strikes[i]) then [strikes[i]] else [])
  {
    assert strikes[..i + 1][..i] == strikes[..i];
  }

  /** One more window strike appends its call, then its put, under the next two ticker ids. */
  lemma OptionRequestsSnoc(symbol: string, exp: Expiration, ws: seq<real>, strike: real, lastId: int, log: seq<Request>)
    ensures log + OptionRequests(symbol, exp, ws + [strike], lastId)
            == log + OptionRequests(symbol, exp, ws, lastId)
               + [ReqContractDetails(lastId + 2 * |ws| + 1, OptionContract(symbol, exp, strike, "C"))]
               + [ReqContractDetails(lastId + 2 * |ws| + 2, OptionContract(symbol, exp, strike, "P"))]
  {
    assert (ws + [strike])[..|ws|] == ws;
  }
}
