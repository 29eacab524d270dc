/** What an operation has come to when it returns, in terms of prices and quantities: where the order is, and
    where the trailing orders are. */
module Outcomes {
  import opened Arrivals
  import opened BookState
  import opened Exchange
  import opened Handling
  import opened Levels
  import opened Options
  import opened Orders
  import opened Repricing
  import opened Trailing
  import opened Waiting

  // ---------------------------------------------------------------------------------------------
  // Where an order ends up
  // ---------------------------------------------------------------------------------------------

  /** The stop price of an order that comes in: its own or, if it trails, the one the last price calls for. */
  function StopFor(o: Order, last: Price): Price {
    if !o.typ.TrailingStop? && !o.typ.TrailingStopLimit? then o.stopPrice
    else if o.side.Sell? then (if o.trail < last then last - o.trail else 0)
    else (if last == 0 || last + o.trail > MAX_PRICE then MAX_PRICE else last + o.trail)
  }

  /** A stop order whose stop price is not reached; buys are due when nothing has been traded yet. */
  predicate WaitsAt(o: Order, last: Price) {
    && !o.typ.Market? && !o.typ.Limit?
    && if o.side.Sell? then last > StopFor(o, last) else last != 0 && last < StopFor(o, last)
  }

  /** An unfilled rest of the order may stay in the book once it is matched. */
  predicate MayStay(o: Order) {
    && (o.typ.Limit? || o.typ.StopLimit? || o.typ.TrailingStopLimit?)
    && (o.tif.GTC? || o.tif.AON?)
  }

  function WaitingLevel(o: Order, last: Price): Key {
    Key(Shelf(if o.typ.TrailingStop? || o.typ.TrailingStopLimit? then Trailings else Stops, o.side), StopFor(o, last))
  }

  function WaitingTerms(o: Order, last: Price): StopTerms {
    StopTerms(StopFor(o, last), o.typ.TrailingStop? || o.typ.TrailingStopLimit?, o.trail)
  }

  /** The order is the last one in level `k`. */
  predicate StandsLast(orders: Index, levels: LevelMap, id: Id, k: Key) {
    && id in orders && orders[id].at == k
    && k in levels && levels[k].ids != [] && levels[k].ids[|levels[k].ids| - 1] == id
  }

  /** An order that has been matched: what is left of it stands in the level of its limit if it may stay, and is
      gone otherwise; one that may stay and is gone was filled. Nothing of it got lost. */
  ghost predicate LeftOrRests(o: Order, orders: Index, log: seq<Event>) {
    if MayStay(o) && o.id in orders then
      && orders[o.id].at == Key(Shelf(Limits, o.side), o.price) && orders[o.id].order.open > 0
      && orders[o.id].order.open + orders[o.id].order.executed == o.open + o.executed
    else
      o.id !in orders && (MayStay(o) ==> Filled(log, o.id) == o.executed + o.open)
  }

  /** Where an order stands that has just been taken in. */
  ghost predicate PutInPlace(o: Order, v: View, w: View) {
    if WaitsAt(o, v.last) then
      && StandsLast(w.orders, w.levels, o.id, WaitingLevel(o, v.last)) && w.last == v.last
      && w.log == v.log + [Park(o.id, WaitingTerms(o, v.last))]
    else
      && LeftOrRests(o, w.orders, w.log)
      && (o.id in w.orders ==> StandsLast(w.orders, w.levels, o.id, Key(Shelf(Limits, o.side), o.price)))
  }

  /** What has become of an order when adding it has come to its end: it was parked at its stop price, or matched. */
  ghost predicate EndsUp(o: Order, v: View, w: View) {
    if WaitsAt(o, v.last) then
      v.log + [Enter(o.id, ClaimOf(o))] + [Park(o.id, WaitingTerms(o, v.last))] <= w.log
    else
      LeftOrRests(o, w.orders, w.log)
  }

  /** The log when an order has come in and, if it waits, has been parked. */
  ghost function Begun(o: Order, v: View): seq<Event> {
    v.log + [Enter(o.id, ClaimOf(o))] + if WaitsAt(o, v.last) then [Park(o.id, WaitingTerms(o, v.last))] else []
  }

  lemma ArrivesAs(o: Order, last: Price)
    ensures WaitsAt(o, last) <==> Arriving(o, last).typ.IsStop()
    ensures WaitsAt(o, last) ==>
              Home(Arriving(o, last)) == WaitingLevel(o, last) && TermsOf(Arriving(o, last)) == WaitingTerms(o, last)
    ensures var a := Arriving(o, last);
            && a.id == o.id && a.side == o.side && a.price == o.price && a.open == o.open && a.executed == o.executed
            && (MayStay(a) <==> MayStay(o))
            && (!WaitsAt(o, last) ==> !WaitsAt(a, last))
  {
  }

  /** A stop order that waits may be parked. */
  lemma MayPark(x: State, o: Order)
    requires Legal(x, Enter(o.id, ClaimOf(o))) && WaitsAt(o, x.Last())
    ensures Legal(Apply(x, Enter(o.id, ClaimOf(o))), Park(o.id, WaitingTerms(o, x.Last())))
  {
  }

  lemma PutInPlaceParked(o: Order, v: View, w: View)
    requires WaitsAt(o, v.last)
    requires w.orders == Added(v.orders, Arriving(o, v.last)) && w.levels == AddedLevel(v.levels, Arriving(o, v.last))
    requires w.last == v.last && w.log == v.log + [Park(o.id, TermsOf(Arriving(o, v.last)))]
    ensures PutInPlace(o, v, w)
  {
    ArrivesAs(o, v.last);
    hide Arriving, WaitsAt, WaitingLevel, WaitingTerms, Home, TermsOf;
  }

  lemma PutInPlaceMatched(o: Order, v: View, w: View)
    requires !Arriving(o, v.last).typ.IsStop() && PutInPlace(Arriving(o, v.last), v, w)
    ensures PutInPlace(o, v, w)
  {
    ArrivesAs(o, v.last);
    hide Arriving, WaitsAt, MayStay, StandsLast;
  }

  /** A limit order of which something is left has been put last in the level of its price. */
  lemma RestsInPlace(order: Order, o: Order, orders: Index, levels: LevelMap, log: seq<Event>)
    requires order.typ.Limit? && Progressed(order, o) && MayStay(order) && o.open > 0
    ensures LeftOrRests(order, Added(orders, o), log)
    ensures StandsLast(Added(orders, o), AddedLevel(levels, o), order.id, Key(Shelf(Limits, order.side), order.price))
  {
  }

  lemma LeavesInPlace(order: Order, o: Order, orders: Index, levels: LevelMap, log: seq<Event>, x: State)
    requires Consistent(orders, levels, x.booked)
    requires Replay(log) == Some(x) && o.id in x.incoming && x.incoming[o.id] == ClaimOf(o)
    requires Progressed(order, o) && (MayStay(order) ==> o.open == 0)
    ensures order.id !in orders && LeftOrRests(order, orders, log + [Leave(o.id)])
  {
    InOnePlace(log);
    ExecutedIsLogged(log, o.id);
    assert (log + [Leave(o.id)])[..|log|] == log;
  }

  /** What follows does not bring an order back, and loses nothing of one that rests. */
  lemma LeftOrRestsStill(o: Order, w: View, z: View)
    requires InStep(w) && InStep(z) && Extends(w.log, z.log) && LiveBut(z.orders, {})
    requires o.id !in w.exchange.incoming && LeftOrRests(o, w.orders, w.log)
    ensures LeftOrRests(o, z.orders, z.log)
  {
    if o.id in w.orders {
      IndexedIsBooked(w.orders, w.levels, w.exchange.booked, o.id);
      RestsOrIsFilled(w.log, z.log, o.id);
      if o.id in z.orders {
        IndexedIsBooked(z.orders, z.levels, z.exchange.booked, o.id);
      }
    } else {
      StaysGone(w.log, z.log, o.id);
    }
    hide Linked, Fifo, Replay, Extends, MayStay, Filled;
  }

  lemma ActivatedEndsUp(o: Order, orders: Index, log: seq<Event>)
    requires o.typ.IsStop() && LeftOrRests(o.Activate(), orders, log)
    ensures LeftOrRests(o, orders, log)
  {
  }

  lemma BeginsWith(o: Order, v: View, w: View)
    requires Legal(v.exchange, Enter(o.id, ClaimOf(o))) && PutInPlace(o, Entered(v, o), w)
    ensures Begun(o, v) == if WaitsAt(o, v.last) then w.log else v.log + [Enter(o.id, ClaimOf(o))]
  {
    hide WaitsAt, LeftOrRests;
  }

  lemma EndsUpAfter(o: Order, v: View, w: View, z: View)
    requires Legal(v.exchange, Enter(o.id, ClaimOf(o))) && PutInPlace(o, Entered(v, o), w)
    requires InStep(w) && InStep(z) && Extends(w.log, z.log) && LiveBut(z.orders, {}) && o.id !in w.exchange.incoming
    ensures EndsUp(o, v, z)
  {
    if !WaitsAt(o, v.last) {
      LeftOrRestsStill(o, w, z);
    }
    hide Consistent, Replay, LeftOrRests, WaitsAt, WaitingTerms;
  }

  lemma EndsUpStill(o: Order, v: View, w: View, z: View)
    requires EndsUp(o, v, w)
    requires InStep(w) && InStep(z) && Extends(w.log, z.log) && LiveBut(z.orders, {}) && o.id !in w.exchange.incoming
    ensures EndsUp(o, v, z)
  {
    if !WaitsAt(o, v.last) {
      LeftOrRestsStill(o, w, z);
    }
    hide Consistent, Replay, LeftOrRests, WaitsAt, WaitingTerms;
  }

  // ---------------------------------------------------------------------------------------------
  // Where the trailing orders are
  // ---------------------------------------------------------------------------------------------

  /** A trailing sell that was there at `v` or came in just then, when sells had followed the market to `threshold`:
      if the market is above that now, the order is its trail below the market; if it was not above and has not
      risen since, the order is where it was. */
  ghost predicate SellTrailed(o: Order, v: View, threshold: Price, w: View) {
    && (w.last > threshold ==> AtDistance(o, w.last))
    && (v.last <= threshold && NeverInFavour(|v.exchange.quotes|, w.exchange, Sell) && o.id in v.orders ==>
          o.stopPrice == v.orders[o.id].order.stopPrice)
  }

  /** The same for a trailing buy, as long as there is a last price. */
  ghost predicate BuyTrailed(o: Order, v: View, threshold: Price, w: View) {
    && (w.last < threshold && Quoted(|v.exchange.quotes|, w.exchange) ==> AtDistance(o, w.last))
    && ((v.last == 0 || v.last >= threshold) && NeverInFavour(|v.exchange.quotes|, w.exchange, Buy) && o.id in v.orders ==>
          o.stopPrice == v.orders[o.id].order.stopPrice)
  }

  /** From `v`, when the thresholds were `buy` and `sell`, to `w` the trailing orders have followed the market. */
  ghost predicate TrailedSince(v: View, buy: Price, sell: Price, w: View) {
    forall id | id in w.orders && (w.orders[id].order.typ.TrailingStop? || w.orders[id].order.typ.TrailingStopLimit?) ::
      if w.orders[id].order.side.Sell? then SellTrailed(w.orders[id].order, v, buy, w)
      else BuyTrailed(w.orders[id].order, v, sell, w)
  }

  /** The index shows the stop prices of the orders that wait in `x`, as far as it has them. */
  ghost predicate StopsShown(v: View, x: State) {
    && x.quotes == v.exchange.quotes && x.Last() == v.last
    && forall id | ParkedIn(x, id) && id in v.orders :: v.orders[id].order.stopPrice == x.booked[id].phase.terms.price
  }

  lemma StopsAreShown(v: View)
    requires InStep(v)
    ensures StopsShown(v, v.exchange)
  {
    forall id | ParkedIn(v.exchange, id) && id in v.orders
      ensures v.orders[id].order.stopPrice == v.exchange.booked[id].phase.terms.price
    {
      IndexedIsBooked(v.orders, v.levels, v.exchange.booked, id);
    }
  }

  /** An order that comes in or is parked changes no other. */
  lemma StopsShownStill(v: View, o: Order, x: State, e: Event)
    requires StopsShown(v, x) && o.id !in v.orders && Legal(x, e)
    requires (e.Enter? || e.Park?) && e.id == o.id
    ensures StopsShown(v, Apply(x, e))
  {
  }

  lemma HaveTrailed(v: View, x: State, a: Moment, w: View, b: Moment)
    requires StopsShown(v, x) && Replay(a.log) == Some(x)
    requires InStep(w) && w.log == b.log && Onward(a, b)
    requires TrackedIn(w.orders, Sell, w.last, b.buy) && TrackedIn(w.orders, Buy, w.last, b.sell)
    ensures TrailedSince(v, a.buy, a.sell, w)
  {
    ExtendsFewer(a.log, w.log);
    hide Consistent, Replay, Extends, AtDistance, TrackedIn, SellTrailed, BuyTrailed, Follows, StopsShown;
    forall id | id in w.orders && (w.orders[id].order.typ.TrailingStop? || w.orders[id].order.typ.TrailingStopLimit?)
      ensures if w.orders[id].order.side.Sell? then SellTrailed(w.orders[id].order, v, a.buy, w)
              else BuyTrailed(w.orders[id].order, v, a.sell, w)
    {
      if w.orders[id].order.side.Sell? {
        SellHasTrailed(v, x, a, w, b, id);
      } else {
        BuyHasTrailed(v, x, a, w, b, id);
      }
    }
  }

  lemma SellHasTrailed(v: View, x: State, a: Moment, w: View, b: Moment, id: Id)
    requires StopsShown(v, x) && InStep(w) && Fewer(x, w.exchange) && Follows(x, a, w.exchange, b)
    requires TrackedIn(w.orders, Sell, w.last, b.buy) && Trails(w.orders, id, Sell)
    ensures SellTrailed(w.orders[id].order, v, a.buy, w)
  {
    hide Replay, AtDistance, NeverInFavour, Quoted;
    IndexedIsBooked(w.orders, w.levels, w.exchange.booked, id);
    hide Consistent;
    assert TrailsIn(w.exchange, id, Sell);
  }

  lemma BuyHasTrailed(v: View, x: State, a: Moment, w: View, b: Moment, id: Id)
    requires StopsShown(v, x) && InStep(w) && Fewer(x, w.exchange) && Follows(x, a, w.exchange, b)
    requires TrackedIn(w.orders, Buy, w.last, b.sell) && Trails(w.orders, id, Buy)
    ensures BuyTrailed(w.orders[id].order, v, a.sell, w)
  {
    assert Quoted(|x.quotes|, w.exchange) ==> w.last != 0;
    hide Replay, AtDistance, NeverInFavour, Quoted;
    IndexedIsBooked(w.orders, w.levels, w.exchange.booked, id);
    hide Consistent;
    assert TrailsIn(w.exchange, id, Buy);
  }

  /** Without a level of trailing orders there is no trailing order. */
  lemma NoLevelNoTrails(orders: Index, levels: LevelMap, x: State, side: Side)
    requires Consistent(orders, levels, x.booked) && !HasLevel(levels, Shelf(Trailings, side))
    ensures forall id :: !Trails(orders, id, side)
    ensures forall id | ParkedIn(x, id) :: !TrailsIn(x, id, side)
  {
    forall id | id in orders ensures !Trails(orders, id, side) {
      assert Placed(id, orders[id], levels);
    }
    forall id | ParkedIn(x, id) ensures !TrailsIn(x, id, side) {
      assert Mirrors(orders[id].order, x.booked[id]);
      assert !Trails(orders, id, side);
    }
    hide Linked, Fifo;
  }

  /** Repricing keeps the stop orders and the levels of the other maps. */
  lemma RelistedStops(before: Index, levels: LevelMap, after: Index, levels': LevelMap, shelf: Shelf, walk: seq<Id>)
    requires Relisted(before, levels, after, levels', shelf, walk)
    ensures after.Keys == before.Keys && StopsOf(after) == StopsOf(before)
    ensures forall k: Key | k.shelf != shelf ::
              (k in levels' <==> k in levels) && (k in levels' ==> levels'[k] == levels[k])
  {
    RelistedKinds(before, levels, after, levels', shelf, walk);
    hide Relisted;
  }
}
