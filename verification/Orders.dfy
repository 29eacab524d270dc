/** Orders as the book sees them: the enumerations, the order record and its two updates. */
module Orders {
  /** A 64-bit price; the largest one stands for "no price yet" on the sell side. */
  type Price = p: int | 0 <= p <= 0xFFFF_FFFF_FFFF_FFFF

  const MAX_PRICE: Price := 0xFFFF_FFFF_FFFF_FFFF

  type Id = nat

  datatype Side = Sell | Buy {
    function Opposite(): Side { if Sell? then Buy else Sell }
  }

  datatype OrderType = Market | Limit | Stop | StopLimit | TrailingStop | TrailingStopLimit {
    predicate IsTrailing() { TrailingStop? || TrailingStopLimit? }

    predicate IsStop() { Stop? || StopLimit? || IsTrailing() }

    /** What a stop order turns into when it is activated. */
    function Activated(): OrderType {
      if Stop? || TrailingStop? then Market else Limit
    }
  }

  datatype TimeInForce = GTC | IOC | AON | FOK

  datatype Order = Order(
    id: Id,
    typ: OrderType,
    side: Side,
    tif: TimeInForce,
    price: Price,
    stopPrice: Price,
    trail: Price,
    lastExecutedPrice: nat,
    quantity: nat,
    executed: nat,
    open: nat,
    lastExecutedQuantity: nat)
  {
    /** Fills `amount` at `at`; the price parameter of the original is 32 bits wide. */
    function Execute(at: Price, amount: nat): Order
      requires amount <= open
    {
      this.(open := open - amount,
            executed := executed + amount,
            lastExecutedPrice := at % 0x1_0000_0000,
            lastExecutedQuantity := amount)
    }

    /** Cancels down to `amount`; `quantity` is computed from the old open quantity, as in the original. */
    function SetQuantity(amount: nat): Order {
      this.(quantity := Min(amount, open), open := amount)
    }

    /** The order has a limit of its own, at which it may rest once it is matched. */
    predicate CanRest() { typ.Limit? || typ.StopLimit? || typ.TrailingStopLimit? }

    /** The worst price the order accepts once it is matched. */
    function LimitPrice(): Price {
      if CanRest() then price else MarketLimit(side)
    }

    /** The order as it is matched after its stop has been activated. */
    function Activate(): Order {
      this.(stopPrice := 0, trail := 0, typ := typ.Activated())
    }
  }

  function Min(a: nat, b: nat): nat { if a < b then a else b }

  /** The price a market order is given so that it crosses every level. */
  function MarketLimit(side: Side): Price {
    if side.Sell? then 0 else MAX_PRICE
  }

  /** A stop order at `stop` is due when the market price is `market`. */
  predicate Due(side: Side, stop: Price, market: Price) {
    if side.Sell? then market <= stop else market >= stop
  }

  /** The market price a stop order of this side is compared with. */
  function MarketPriceFor(side: Side, last: Price): Price {
    if side.Buy? && last == 0 then MAX_PRICE else last
  }

  /** Stop price of a trailing order, kept inside the 64-bit range at both ends. */
  function TrailedPrice(side: Side, last: Price, trail: Price): Price {
    var market := MarketPriceFor(side, last);
    if side.Sell? then (if trail < market then market - trail else 0)
    else if market < MAX_PRICE - trail then market + trail else MAX_PRICE
  }

  /** A stop order turns into a market order, a stop-limit order into a limit order at its own price. */
  lemma ActivatedKind(o: Order)
    requires o.typ.IsStop()
    ensures o.typ.Stop? || o.typ.TrailingStop? ==> o.Activate().typ.Market?
    ensures o.typ.StopLimit? || o.typ.TrailingStopLimit? ==> o.Activate().typ.Limit?
    ensures var a := o.Activate();
            && a.id == o.id && a.side == o.side && a.tif == o.tif && a.price == o.price
            && a.open == o.open && a.executed == o.executed && a.quantity == o.quantity
            && a.stopPrice == 0 && a.trail == 0
  {
  }

  /** A trailing stop keeps its distance to the market except where the 64-bit range ends. */
  lemma TrailedSaturates(side: Side, last: Price, trail: Price)
    ensures side.Sell? && last >= trail ==> last - TrailedPrice(side, last, trail) == trail
    ensures side.Sell? && last < trail ==> TrailedPrice(side, last, trail) == 0
    ensures side.Buy? && last > 0 && last + trail <= MAX_PRICE ==> TrailedPrice(side, last, trail) - last == trail
    ensures side.Buy? && (last == 0 || last + trail > MAX_PRICE) ==> TrailedPrice(side, last, trail) == MAX_PRICE
  {
  }
}
