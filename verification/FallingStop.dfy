/** A run of the book in which the stop price of a trailing sell falls. */
module FallingStop {
  import opened Absorption
  import opened Arrivals
  import opened BookState
  import opened Departures
  import opened Exchange
  import opened Handling
  import opened Levels
  import opened Options
  import opened OrderBook
  import opened Orders
  import opened Outcomes
  import opened QuietBook
  import opened Quiescence
  import opened Repricing
  import opened Trailing
  import opened Waiting

  function TrailingSell(trail: Price): Order {
    Order(2, TrailingStop, Sell, GTC, 0, 0, trail, 0, 1, 0, 1, 0)
  }

  /** The book with a limit order of which more than `open` is open, and the trailing sell. */
  ghost predicate WithTrailing(v: View, open: nat, trail: Price) {
    && InStep(v) && (forall id :: id in v.orders <==> id == 1 || id == 2)
    && v.orders[1].order.typ.Limit? && v.orders[1].order.open > open
    && Trails(v.orders, 2, Sell) && v.orders[2].order.trail == trail
  }

  lemma Both(v: View, open: nat, trail: Price)
    requires WithTrailing(v, open, trail)
    ensures 1 in v.orders && 2 in v.orders && Trails(v.orders, 2, Sell) && v.orders[2].order.trail == trail
  {
  }

  /** Only the trailing sell could be due. */
  lemma QuietAbove(v: View, open: nat, trail: Price)
    requires WithTrailing(v, open, trail) && 2 in v.orders && v.orders[2].order.stopPrice < v.last
    ensures Quiet(v.exchange)
  {
    forall id | ParkedIn(v.exchange, id) ensures id == 2 && v.exchange.booked[2].phase.terms.price < v.last {
      IndexedIsBooked(v.orders, v.levels, v.exchange.booked, id);
      assert id in v.orders;
    }
    IndexedIsBooked(v.orders, v.levels, v.exchange.booked, 2);
    hide Consistent, Replay;
  }

  lemma SameButStop(o: Order, t: Ticket, p: Order, t': Ticket)
    requires Mirrors(o, t) && Mirrors(p, t') && t'.claim == t.claim && (t'.phase.Resting? <==> t.phase.Resting?)
    requires t.phase.Parked? ==>
               t'.phase.terms.trailing == t.phase.terms.trailing && t'.phase.terms.trail == t.phase.terms.trail
    ensures p.side == o.side && p.open == o.open && (p.typ.Limit? <==> o.typ.Limit?)
    ensures (p.typ.IsTrailing() <==> o.typ.IsTrailing()) && (o.typ.IsTrailing() ==> p.trail == o.trail)
  {
  }

  /** After repricing alone an order is there as before, except for its stop price if it trails. */
  lemma StillThere(u: View, w: View, id: Id)
    requires InStep(u) && InStep(w) && OnlyRepriced(u.exchange, w.exchange) && id in u.orders
    ensures id in w.orders && w.orders[id].order.side == u.orders[id].order.side
    ensures w.orders[id].order.open == u.orders[id].order.open
    ensures w.orders[id].order.typ.Limit? <==> u.orders[id].order.typ.Limit?
    ensures w.orders[id].order.typ.IsTrailing() <==> u.orders[id].order.typ.IsTrailing()
    ensures u.orders[id].order.typ.IsTrailing() ==> w.orders[id].order.trail == u.orders[id].order.trail
  {
    IndexedIsBooked(u.orders, u.levels, u.exchange.booked, id);
    SameIds(u, w);
    IndexedIsBooked(w.orders, w.levels, w.exchange.booked, id);
    hide InStep, Placed, Mirrors, Home;
    assert u.exchange.booked[id].phase.Resting? == w.exchange.booked[id].phase.Resting?;
    hide OnlyRepriced;
    SameButStop(u.orders[id].order, u.exchange.booked[id], w.orders[id].order, w.exchange.booked[id]);
  }

  lemma RepricedFrom(u: View, w: View)
    requires InStep(u) && InStep(w) && OnlyReprices(u.log, w.log)
    ensures OnlyRepriced(u.exchange, w.exchange)
  {
    hide Consistent, OnlyRepriced, OnlyReprices;
    RepricesMean(u.log, w.log);
  }

  lemma SameIds(u: View, w: View)
    requires InStep(u) && InStep(w) && OnlyRepriced(u.exchange, w.exchange)
    ensures (forall id :: id in w.orders <==> id in u.orders) && w.last == u.last
  {
    hide Linked, Fifo, Replay;
  }

  /** The two orders are there still, and the last price is the same. */
  lemma StillWithTrailing(u: View, w: View, open: nat, trail: Price)
    requires WithTrailing(u, open, trail) && InStep(w) && OnlyReprices(u.log, w.log)
    ensures WithTrailing(w, open, trail) && w.last == u.last
  {
    hide InStep, OnlyReprices, OnlyRepriced;
    RepricedFrom(u, w);
    SameIds(u, w);
    Both(u, open, trail);
    StillThere(u, w, 1);
    StillThere(u, w, 2);
  }

  lemma ExecutedBeside(v: View, u: View, open: nat, trail: Price, price: Price)
    requires WithTrailing(v, open + 1, trail) && ExecutedAt(v, 1, 1, price, u)
    ensures WithTrailing(u, open, trail) && u.last == price && u.orders[1].order.open > 0
    ensures u.orders[2].order.stopPrice == v.orders[2].order.stopPrice
  {
    hide InStep;
  }

  lemma SellIsAt(u: View, buy: Price, sell: Price, w: View)
    requires TrailedSince(u, buy, sell, w) && Trails(w.orders, 2, Sell) && w.last > buy
    ensures AtDistance(w.orders[2].order, w.last)
  {
    hide AtDistance, NeverInFavour;
  }

  /** A part of the limit order is executed at a price above the stop price and above the threshold. */
  lemma FollowsPrice(v: View, u: View, w: View, open: nat, trail: Price, price: Price, buy: Price, sell: Price)
    requires WithTrailing(v, open + 1, trail) && ExecutedAt(v, 1, 1, price, u)
    requires InStep(w) && (Quiet(u.exchange) ==> OnlyReprices(u.log, w.log)) && TrailedSince(u, buy, sell, w)
    requires 2 in v.orders && v.orders[2].order.stopPrice < price && buy < price
    ensures 2 in w.orders && WithTrailing(w, open, trail) && w.last == price && AtDistance(w.orders[2].order, price)
  {
    ExecutedBeside(v, u, open, trail, price);
    QuietAbove(u, open, trail);
    StillWithTrailing(u, w, open, trail);
    hide InStep, TrailedSince, AtDistance, OnlyReprices, ExecutedAt, Quiet;
    SellIsAt(u, buy, sell, w);
  }

  /** While the order trails, the threshold does not rise. */
  lemma StaysBelow(w: View, a: Moment, b: Moment)
    requires InStep(w) && b.log == w.log && Onward(a, b) && Replay(a.log).Some? && 2 in w.orders && Trails(w.orders, 2, Sell)
    ensures b.buy <= a.buy
  {
    IndexedIsBooked(w.orders, w.levels, w.exchange.booked, 2);
    assert TrailsIn(w.exchange, 2, Sell);
    hide Consistent, Replay, Extends;
  }

  // ---------------------------------------------------------------------------------------------
  // The run
  // ---------------------------------------------------------------------------------------------

  /** Nothing trails or waits while there is the limit order alone. */
  lemma SellAlone(v: View, ask: Price, price: Price)
    requires InStep(v) && WithSell(v, ask, 1, price)
    ensures Quiet(v.exchange) && 2 !in v.orders && v.last == price && forall id :: !Trails(v.orders, id, Sell)
  {
    SellIs(v, ask, 1, price);
    forall id | ParkedIn(v.exchange, id) ensures false {
      assert id in v.orders;
      IndexedIsBooked(v.orders, v.levels, v.exchange.booked, id);
    }
    hide Consistent, Replay, WithSell;
  }

  /** The book when the trailing sell has been parked. */
  lemma TrailingParked(v: View, ask: Price, price: Price, trail: Price) returns (u: View)
    requires InStep(v) && WithSell(v, ask, 1, price) && v.last == price && 0 < trail && 0 < price
    requires Legal(v.exchange, Enter(2, ClaimOf(TrailingSell(trail))))
    ensures WaitsAt(TrailingSell(trail), price) && u.log == Begun(TrailingSell(trail), v) && u.last == price
    ensures InStep(u) && WithTrailing(u, 3, trail)
  {
    var o := TrailingSell(trail);
    SellIs(v, ask, 1, price);
    TrailingArrives(trail, price);
    hide InStep, WithSell, Arriving, WaitsAt, Begun, Home;
    u := WaitingView(v, o);
  }

  lemma TrailingArrives(trail: Price, price: Price)
    requires 0 < trail && 0 < price
    ensures WaitsAt(TrailingSell(trail), price)
    ensures var a := Arriving(TrailingSell(trail), price); a.id == 2 && a.typ.TrailingStop? && a.side.Sell? && a.trail == trail
  {
  }

  /** A waiting order added to the book. */
  lemma WaitingView(v: View, o: Order) returns (u: View)
    requires InStep(v) && Legal(v.exchange, Enter(o.id, ClaimOf(o))) && WaitsAt(o, v.last)
    ensures InStep(u) && u.log == Begun(o, v) && u.last == v.last && u.orders == Added(v.orders, Arriving(o, v.last))
  {
    var a, x := Arriving(o, v.last), Entered(v, o);
    EnteredInStep(v, o);
    MayPark(v.exchange, o);
    WaitsAs(o, v.last);
    hide Consistent, Replay, Legal, Arriving, WaitsAt;
    ConsistentAdd(v.orders, v.levels, x.log, x.exchange, a);
    ReplayAppend(x.log, x.exchange, Booking(a));
    u := View(Added(v.orders, a), AddedLevel(v.levels, a), v.last, x.log + [Booking(a)], Apply(x.exchange, Booking(a)));
  }

  lemma WaitsAs(o: Order, last: Price)
    requires WaitsAt(o, last)
    ensures var a := Arriving(o, last);
            a.id == o.id && ClaimOf(a) == ClaimOf(o) && !a.typ.Market? && Booking(a) == Park(o.id, WaitingTerms(o, last))
  {
  }

  /** Settled, the stop price is below the last price. */
  lemma StopsBelow(v: View, open: nat, trail: Price)
    requires WithTrailing(v, open, trail) && NoneDue(v.exchange, Sell)
    ensures 2 in v.orders && v.orders[2].order.stopPrice < v.last
  {
    IndexedIsBooked(v.orders, v.levels, v.exchange.booked, 2);
    assert ParkedIn(v.exchange, 2);
    hide Consistent, Replay;
  }

  /** Whenever the last price falls to one between the threshold and the price that a trailing sell has followed, and
      the order is not due, its stop price falls with it. `before` is the book before that. */
  method TrailingSellFalls(threshold: Price, price: Price, top: Price, trail: Price, ask: Price)
    returns (book: PriceLevelOrderBook, ghost before: View)
    requires 0 < threshold < price < top && 0 < trail < top && top - trail < price
    ensures fresh(book) && book.variant == AS_WRITTEN && book.Ready() && book.Settled()
    ensures 2 in before.orders && Trails(before.orders, 2, Sell) && before.orders[2].order.trail == trail
    ensures before.last == top && before.orders[2].order.stopPrice == top - trail
    ensures book.lastTradedPrice == price && 2 in book.orders && Trails(book.orders, 2, Sell)
    ensures book.orders[2].order.stopPrice == if trail < price then price - trail else 0
    ensures book.orders[2].order.stopPrice < top - trail
  {
    hide Consistent, Replay, LiveBut, Legal, Arrived, BuysWait, WithSell, ExecutedAt, TrailedSince, OnlyReprices, Onward, Quiet,
         NoneDue, WithTrailing, Begun, WaitsAt, Extends, Finished, Idle, LoneDue, LoneGone, Calm;
    book := SellFirst(ask, threshold);
    ghost var v := book.Now();
    SellAlone(v, ask, threshold);
    assert book.trailingBuyPrice == threshold;
    ghost var begun := book.Here().(log := Begun(TrailingSell(trail), v));
    book.AddOrder(TrailingSell(trail));
    ghost var u := TrailingParked(v, ask, threshold, trail);
    v := book.Now();
    StillWithTrailing(u, v, 3, trail);
    Both(v, 3, trail);
    StopsBelow(v, 3, trail);
    StaysBelow(v, begun, book.Here());
    ghost var buy, sell := book.trailingBuyPrice, book.trailingSellPrice;
    u := book.ExecuteOrderAt(1, 1, top);
    ExecutedBeside(v, u, 2, trail, top);
    FollowsPrice(v, u, book.Now(), 2, trail, top, buy, sell);
    before := book.Now();
    Both(before, 2, trail);
    StaysBelow(before, Moment(u.log, buy, sell), book.Here());
    buy, sell := book.trailingBuyPrice, book.trailingSellPrice;
    u := book.ExecuteOrderAt(1, 1, price);
    ExecutedBeside(before, u, 1, trail, price);
    FollowsPrice(before, u, book.Now(), 1, trail, price, buy, sell);
    Both(book.Now(), 1, trail);
  }
}
