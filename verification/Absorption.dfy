/** A market order that the front of the best level absorbs, and a stop buy that is alone in being due:
    the states in which one activation can be followed to the end. */
module Absorption {
  import opened BookState
  import opened Levels
  import opened Orders
  import opened QuietBook

  /** The oldest order of the best opposite level `k` asks for more than the incoming order offers. */
  ghost predicate Absorbs(orders: Index, levels: LevelMap, taker: Order, k: Key) {
    && !taker.tif.FOK? && taker.open > 0
    && Leads(levels, k) && k.shelf == Shelf(Limits, taker.side.Opposite()) && ClaimOf(taker).Crosses(k.price)
    && levels[k].ids != [] && levels[k].ids[0] in orders
    && orders[levels[k].ids[0]].order.open > taker.open
  }

  /** The book after that one trade. */
  ghost predicate Absorbed(orders: Index, levels: LevelMap, taker: Order, k: Key,
                           orders': Index, levels': LevelMap, last': Price) {
    && k in levels && levels[k].ids != [] && levels[k].ids[0] in orders && taker.open <= levels[k].volume
    && taker.open <= orders[levels[k].ids[0]].order.open
    && var front := orders[levels[k].ids[0]];
    && orders' == orders[levels[k].ids[0] := front.(order := front.order.Execute(k.price, taker.open))]
    && levels' == ReducedLevel(levels, k, taker.open)
    && last' == k.price
  }

  /** `id` is the only stop order that is due, a stop buy alone in its level; no trailing orders wait; the
      best sell level `k` absorbs it, and no stop sell is due at its price either. */
  ghost predicate LoneDue(orders: Index, levels: LevelMap, last: Price, id: Id, k: Key) {
    && id in orders && orders[id].at in levels && levels[orders[id].at].ids == [id]
    && orders[id].order.typ.Stop? && orders[id].order.side.Buy?
    && orders[id].at.shelf == Shelf(Stops, Buy) && Due(Buy, orders[id].at.price, MarketPriceFor(Buy, last))
    && Idle(levels - {orders[id].at}, last)
    && QuietOn(Sell, levels, k.price)
    && Absorbs(orders, levels, orders[id].order.Activate(), k)
  }

  /** The book after activating it. */
  ghost predicate LoneGone(orders: Index, levels: LevelMap, id: Id, k: Key,
                           orders': Index, levels': LevelMap, last': Price) {
    && id in orders && Placed(id, orders[id], levels) && orders[id].order.open <= levels[orders[id].at].volume
    && Absorbed(orders - {id}, TakenLevel(levels, orders[id]), orders[id].order.Activate(), k, orders', levels', last')
  }

  /** The price field of a market order plays no part. */
  lemma AbsorbedAtAnyPrice(orders: Index, levels: LevelMap, taker: Order, k: Key, price: Price)
    requires taker.typ.Market?
    ensures Absorbs(orders, levels, taker.(price := price), k) == Absorbs(orders, levels, taker, k)
    ensures forall orders', levels', last' ::
              Absorbed(orders, levels, taker.(price := price), k, orders', levels', last') ==>
                Absorbed(orders, levels, taker, k, orders', levels', last')
  {
  }

  lemma AbsorberLeads(orders: Index, levels: LevelMap, taker: Order, j: Key)
    requires Absorbs(orders, levels, taker, j)
    ensures !taker.tif.FOK? && taker.open > 0
    ensures Leads(levels, j) && HasLevel(levels, j.shelf)
    ensures j.shelf == Shelf(Limits, taker.side.Opposite()) && ClaimOf(taker).Crosses(j.price)
  {
  }

  /** There is one leading level to a map. */
  lemma AbsorbedBy(orders: Index, levels: LevelMap, taker: Order, k: Key, j: Key)
    requires Absorbs(orders, levels, taker, j)
    requires Leads(levels, k) && k.shelf == Shelf(Limits, taker.side.Opposite())
    ensures j == k
  {
  }

  /** Only the lone stop buy is due. */
  lemma LoneLeads(orders: Index, levels: LevelMap, last: Price, id: Id, k: Key, j: Key)
    requires LoneDue(orders, levels, last, id, k)
    requires j in levels && j.shelf == Shelf(Stops, Buy) && Due(Buy, j.price, MarketPriceFor(Buy, last))
    ensures j == orders[id].at && levels[j].ids == [id]
  {
    var others := levels - {orders[id].at};
    assert j == orders[id].at || j in others;
  }

  lemma LoneIsDue(orders: Index, levels: LevelMap, last: Price, id: Id, k: Key)
    requires LoneDue(orders, levels, last, id, k)
    ensures id in orders && orders[id].at in levels
    ensures orders[id].at.shelf == Shelf(Stops, Buy) && Due(Buy, orders[id].at.price, MarketPriceFor(Buy, last))
  {
  }

  /** What activating it relies on once it is out of the book. */
  lemma LoneTaken(orders: Index, levels: LevelMap, last: Price, id: Id, k: Key)
    requires Linked(orders, levels) && LoneDue(orders, levels, last, id, k)
    ensures id in orders && Placed(id, orders[id], levels) && orders[id].order.open <= levels[orders[id].at].volume
    ensures Idle(TakenLevel(levels, orders[id]), last)
    ensures orders[id].order.Activate().typ.Market?
    ensures Absorbs(orders - {id}, TakenLevel(levels, orders[id]), orders[id].order.Activate(), k)
  {
    FrontStands(orders, levels, k);
    VolumeCovers(orders, levels, id);
    hide Linked;
    LevelGoes(levels, orders[id]);
  }

  /** Taking the only order takes the level. */
  lemma LevelGoes(levels: LevelMap, e: Entry)
    requires e.at in levels && levels[e.at].ids == [e.order.id] && e.order.open <= levels[e.at].volume
    ensures TakenLevel(levels, e) == levels - {e.at}
  {
    assert Without([e.order.id], e.order.id) == [];
  }

  /** Nothing more is due afterwards at the price it was activated at, and no stop sell at the new one. */
  lemma LoneThenQuiet(orders: Index, levels: LevelMap, last: Price, id: Id, k: Key,
                      orders': Index, levels': LevelMap, last': Price)
    requires LoneDue(orders, levels, last, id, k) && LoneGone(orders, levels, id, k, orders', levels', last')
    ensures NoTrailing(levels') && QuietOn(Sell, levels', last')
    ensures levels'.Keys == levels.Keys - {orders[id].at}
    ensures forall j | j in levels' && j.shelf == Shelf(Stops, Buy) :: !Due(Buy, j.price, MarketPriceFor(Buy, last))
  {
    hide Absorbs;
    LevelGoes(levels, orders[id]);
    assert levels'.Keys == (levels - {orders[id].at}).Keys;
  }

  /** Once the lone stop buy has been activated, the stop buys are quiet exactly if all the others wait
      above the price it traded at. */
  lemma LoneLeavesDue(orders: Index, levels: LevelMap, last: Price, id: Id, k: Key,
                      orders': Index, levels': LevelMap, last': Price)
    requires LoneDue(orders, levels, last, id, k) && LoneGone(orders, levels, id, k, orders', levels', last')
    ensures NoTrailing(levels')
    ensures QuietOn(Buy, levels', last') <==>
            forall j | j in levels && j.shelf == Shelf(Stops, Buy) && j != orders[id].at ::
              j.price > MarketPriceFor(Buy, k.price)
  {
    LoneThenQuiet(orders, levels, last, id, k, orders', levels', last');
    hide Absorbs, Idle;
    assert forall j: Key | j.shelf == Shelf(Stops, Buy) :: j in levels' <==> j in levels && j != orders[id].at;
  }
}
