/**
 * The per-leg order tracer of HedgeOrderTracer.cs: a four-state lifecycle
 * (wait to open, wait for the open order, wait to close, wait for the close
 * order) guarded by a submission lock, with attempt and failure counters and
 * the bull/bear rule that fixes each order's side and limit price.
 */
module Hedging {
  import opened Host

  datatype MarketOrderType = Bear | Bull

  datatype HedgeStatus = WaitOpenPosition | WaitOpenOrderComplete | WaitClosePosition | WaitCloseOrderComplete

  datatype BuySell = Buy | Sell

  datatype OpenClose = Open | CloseToday

  /** The host's order states that the tracer distinguishes; every other state is `Working`. */
  datatype OrderStatus = AllTraded | Voided | Working

  /** What the tracer asks the host to send (account, market, price type, time in force
      and hedge flag are the same for every order and are left out). */
  datatype OrderRequest = OrderRequest(instrument: string, exchange: string, price: real, volume: int, side: BuySell, offset: OpenClose)

  /** An order handle returned by the host; the host updates its status. */
  class Order {
    const request: OrderRequest
    var status: OrderStatus

    constructor (request: OrderRequest)
      ensures this.request == request && status == Working
    {
      this.request := request;
      status := Working;
    }
  }

  function Opposite(side: BuySell): BuySell
  {
    if side == Buy then Sell else Buy
  }

  /** A bearish leg opens by buying, a bullish one by selling. */
  function OpenDir(marketType: MarketOrderType): (side: BuySell)
    ensures side == Buy <==> marketType == Bear
  {
    if marketType == Bear then Buy else Sell
  }

  /** A leg closes on the side opposite to the one it opened on. */
  function CloseDir(marketType: MarketOrderType): (side: BuySell)
    ensures side == Opposite(OpenDir(marketType))
  {
    if marketType == Bear then Sell else Buy
  }

  /** The opening limit price: `priceDiff` ticks above the last price for a bearish
      leg, below it for a bullish one. */
  function OpenPrice(marketType: MarketOrderType, lastPrice: real, priceTick: real, priceDiff: real): (p: real)
    ensures p - lastPrice == (if OpenDir(marketType) == Buy then priceTick * priceDiff else -(priceTick * priceDiff))
  {
    if marketType == Bear then lastPrice + priceTick * priceDiff else lastPrice - priceTick * priceDiff
  }

  /** The closing limit price: the mirror of the opening price about the last price. */
  function ClosePrice(marketType: MarketOrderType, lastPrice: real, priceTick: real, priceDiff: real): (p: real)
    ensures p - lastPrice == (if CloseDir(marketType) == Buy then priceTick * priceDiff else -(priceTick * priceDiff))
    ensures p + OpenPrice(marketType, lastPrice, priceTick, priceDiff) == 2.0 * lastPrice
  {
    if marketType == Bear then lastPrice - priceTick * priceDiff else lastPrice + priceTick * priceDiff
  }

  /**
   * With a non-negative offset every order is priced to cross the market: a buy
   * at or above the last price, a sell at or below it; and the closing price
   * mirrors the opening one.
   */
  lemma OrdersCrossTheMarket(marketType: MarketOrderType, lastPrice: real, priceTick: real, priceDiff: real)
    requires priceTick * priceDiff >= 0.0
    ensures OpenDir(marketType) == Buy ==> OpenPrice(marketType, lastPrice, priceTick, priceDiff) >= lastPrice
    ensures OpenDir(marketType) == Sell ==> OpenPrice(marketType, lastPrice, priceTick, priceDiff) <= lastPrice
    ensures CloseDir(marketType) == Buy ==> ClosePrice(marketType, lastPrice, priceTick, priceDiff) >= lastPrice
    ensures CloseDir(marketType) == Sell ==> ClosePrice(marketType, lastPrice, priceTick, priceDiff) <= lastPrice
    ensures OpenPrice(marketType, lastPrice, priceTick, priceDiff) + ClosePrice(marketType, lastPrice, priceTick, priceDiff) == 2.0 * lastPrice
  {
  }

  /** The order states in which an order is outstanding. */
  predicate Awaiting(status: HedgeStatus)
  {
    status == WaitOpenOrderComplete || status == WaitCloseOrderComplete
  }

  class HedgeOrderTracer {
    const future: Future
    const volume: int
    var order: Order?
    var marketType: MarketOrderType
    var orderLock: bool
    var status: HedgeStatus
    var openHitTimes: nat
    var closeHitTimes: nat
    var openFailedTimes: nat
    var closeFailedTimes: nat
    /** The requests sent to the host, oldest first. */
    ghost var sent: seq<OrderRequest>

    /**
     * The lock is held exactly while an order is outstanding, and the
     * outstanding order is the last one sent; every attempt sent exactly one
     * order; orders alternate open, close, open, ... for this leg's instrument
     * and volume; each close is on the side opposite to the open before it;
     * and an open position was opened on the side the market type dictates.
     */
    ghost predicate Valid()
      reads this
    {
      && (orderLock <==> Awaiting(status))
      && |sent| == openHitTimes + closeHitTimes
      && openHitTimes == closeHitTimes + (if status == WaitOpenOrderComplete || status == WaitClosePosition then 1 else 0)
      && (status == WaitCloseOrderComplete ==> closeHitTimes > 0)
      && (orderLock ==> order != null && order.request == sent[|sent| - 1])
      && (forall i :: 0 <= i < |sent| ==>
            sent[i].instrument == future.id && sent[i].volume == volume
            && sent[i].offset == (if i % 2 == 0 then Open else CloseToday))
      && (forall i :: 0 < i < |sent| && i % 2 == 1 ==> sent[i].side == Opposite(sent[i - 1].side))
      && (openHitTimes > closeHitTimes ==> sent[|sent| - 1].side == OpenDir(marketType))
    }

    constructor (future: Future, volume: int)
      ensures Valid()
      ensures this.future == future && this.volume == volume
      ensures order == null && status == WaitOpenPosition && !orderLock
      ensures openHitTimes == 0 && closeHitTimes == 0 && openFailedTimes == 0 && closeFailedTimes == 0
      ensures sent == []
    {
      this.future := future;
      this.volume := volume;
      order := null;
      marketType := Bear;
      orderLock := false;
      status := WaitOpenPosition;
      openHitTimes, closeHitTimes := 0, 0;
      openFailedTimes, closeFailedTimes := 0, 0;
      sent := [];
    }

    /** No position is held: every order sent was matched by a close, and none is outstanding. */
    function IsPositionEmpty(): (r: bool)
      reads this
      ensures r <==> status == WaitOpenPosition
      ensures r && Valid() ==> !orderLock && openHitTimes == closeHitTimes
    {
      status == WaitOpenPosition
    }

    /** A position is held: the last order sent opened it, and none is outstanding. */
    function IsPositionOpen(): (r: bool)
      reads this
      ensures r <==> status == WaitClosePosition
      ensures r && Valid() ==> !orderLock && openHitTimes == closeHitTimes + 1 && sent[|sent| - 1].offset == Open
    {
      status == WaitClosePosition
    }

    /**
     * Opens the position: when unlocked and waiting to open, sends one opening
     * order for the leg's volume (the host hands back a fresh order handle),
     * locks, waits for it and counts the attempt; otherwise does nothing.
     */
    method OpenPosition(marketType: MarketOrderType, lastPrice: real, priceDiff: real)
      requires Valid()
      modifies this
      ensures Valid()
      ensures old(orderLock) || old(status) != WaitOpenPosition ==> unchanged(this)
      ensures !old(orderLock) && old(status) == WaitOpenPosition ==>
        && this.marketType == marketType
        && order != null && fresh(order)
        && order.request == OrderRequest(future.id, future.exchangeId,
             OpenPrice(marketType, lastPrice, future.priceTick, priceDiff), volume, OpenDir(marketType), Open)
        && sent == old(sent) + [order.request]
        && orderLock && status == WaitOpenOrderComplete
        && openHitTimes == old(openHitTimes) + 1 && closeHitTimes == old(closeHitTimes)
        && openFailedTimes == old(openFailedTimes) && closeFailedTimes == old(closeFailedTimes)
    {
      if orderLock || status != WaitOpenPosition {
        return;
      }
      this.marketType := marketType;
      var priceLimit := OpenPrice(marketType, lastPrice, future.priceTick, priceDiff);
      var dir := OpenDir(marketType);
      var request := OrderRequest(future.id, future.exchangeId, priceLimit, volume, dir, Open);
      order := new Order(request);
      sent := sent + [request];
      orderLock := true;
      status := WaitOpenOrderComplete;
      openHitTimes := openHitTimes + 1;
    }

    /**
     * Closes the position: when unlocked and waiting to close, sends one
     * closing order on the side opposite to the opening one, locks, waits for
     * it and counts the attempt; otherwise does nothing.
     */
    method ClosePosition(lastPrice: real, priceDiff: real)
      requires Valid()
      modifies this
      ensures Valid()
      ensures old(orderLock) || old(status) != WaitClosePosition ==> unchanged(this)
      ensures !old(orderLock) && old(status) == WaitClosePosition ==>
        && marketType == old(marketType)
        && order != null && fresh(order)
        && order.request == OrderRequest(future.id, future.exchangeId,
             ClosePrice(marketType, lastPrice, future.priceTick, priceDiff), volume, CloseDir(marketType), CloseToday)
        && sent == old(sent) + [order.request]
        && orderLock && status == WaitCloseOrderComplete
        && closeHitTimes == old(closeHitTimes) + 1 && openHitTimes == old(openHitTimes)
        && openFailedTimes == old(openFailedTimes) && closeFailedTimes == old(closeFailedTimes)
    {
      if orderLock || status != WaitClosePosition {
        return;
      }
      var priceLimit := ClosePrice(marketType, lastPrice, future.priceTick, priceDiff);
      var dir := CloseDir(marketType);
      var request := OrderRequest(future.id, future.exchangeId, priceLimit, volume, dir, CloseToday);
      order := new Order(request);
      sent := sent + [request];
      orderLock := true;
      status := WaitCloseOrderComplete;
      closeHitTimes := closeHitTimes + 1;
    }

    /**
     * Follows a status change of an order: ignores every order but the current
     * one; on a full fill moves from waiting for the open order to waiting to
     * close, or from waiting for the close order to waiting to open, and
     * unlocks; on a void counts a failure of the pending attempt and keeps the
     * lock and the status.
     */
    method OnOrderStatusChange(o: Order)
      requires Valid()
      modifies this
      ensures Valid()
      ensures o != old(order) || o.status == Working ==> unchanged(this)
      ensures o == old(order) && o.status == AllTraded ==>
        && !orderLock
        && status == (match old(status)
                      case WaitOpenOrderComplete => WaitClosePosition
                      case WaitCloseOrderComplete => WaitOpenPosition
                      case other => other)
        && order == old(order) && marketType == old(marketType) && sent == old(sent)
        && openHitTimes == old(openHitTimes) && closeHitTimes == old(closeHitTimes)
        && openFailedTimes == old(openFailedTimes) && closeFailedTimes == old(closeFailedTimes)
      ensures o == old(order) && o.status == Voided ==>
        && orderLock == old(orderLock) && status == old(status)
        && order == old(order) && marketType == old(marketType) && sent == old(sent)
        && openHitTimes == old(openHitTimes) && closeHitTimes == old(closeHitTimes)
        && openFailedTimes == old(openFailedTimes) + (if old(status) == WaitOpenOrderComplete then 1 else 0)
        && closeFailedTimes == old(closeFailedTimes) + (if old(status) == WaitCloseOrderComplete then 1 else 0)
    {
      if o != order {
        return;
      }
      if o.status == AllTraded {
        if status == WaitOpenOrderComplete {
          status := WaitClosePosition;
        } else if status == WaitCloseOrderComplete {
          status := WaitOpenPosition;
        }
        orderLock := false;
      } else if o.status == Voided {
        if status == WaitOpenOrderComplete {
          openFailedTimes := openFailedTimes + 1;
        } else if status == WaitCloseOrderComplete {
          closeFailedTimes := closeFailedTimes + 1;
        }
      }
    }
  }

  /** One full round trip on a leg: open, fill, close, fill; two orders on opposite
      sides are sent and the tracer is back to waiting to open. */
  method RoundTrip(future: Future, volume: int, marketType: MarketOrderType, lastPrice: real, priceDiff: real)
    returns (t: HedgeOrderTracer)
    ensures fresh(t) && t.Valid()
    ensures t.status == WaitOpenPosition && !t.orderLock
    ensures t.openHitTimes == 1 && t.closeHitTimes == 1 && t.openFailedTimes == 0 && t.closeFailedTimes == 0
    ensures |t.sent| == 2 && t.sent[0].side == OpenDir(marketType) && t.sent[1].side == Opposite(t.sent[0].side)
    ensures t.sent[0].offset == Open && t.sent[1].offset == CloseToday
  {
    t := new HedgeOrderTracer(future, volume);
    t.OpenPosition(marketType, lastPrice, priceDiff);
    var opening := t.order;
    opening.status := AllTraded;
    t.OnOrderStatusChange(opening);
    t.ClosePosition(lastPrice, priceDiff);
    var closing := t.order;
    closing.status := AllTraded;
    t.OnOrderStatusChange(closing);
  }

  /** A voided opening order leaves the leg locked in wait for the open order
      for good: a later open or close sends nothing, and only the failure is counted. */
  method VoidedOpenStaysLocked(future: Future, volume: int, marketType: MarketOrderType, lastPrice: real, priceDiff: real)
    returns (t: HedgeOrderTracer)
    ensures fresh(t) && t.Valid()
    ensures t.status == WaitOpenOrderComplete && t.orderLock
    ensures |t.sent| == 1 && t.openHitTimes == 1 && t.openFailedTimes == 1
  {
    t := new HedgeOrderTracer(future, volume);
    t.OpenPosition(marketType, lastPrice, priceDiff);
    var opening := t.order;
    opening.status := Voided;
    t.OnOrderStatusChange(opening);
    t.OpenPosition(marketType, lastPrice, priceDiff);
    t.ClosePosition(lastPrice, priceDiff);
  }
}
