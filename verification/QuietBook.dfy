/** Quiet stop orders as the levels show them. */
module QuietBook {
  import opened BookState
  import opened Exchange
  import opened Handling
  import opened Levels
  import opened Orders
  import opened Quiescence
  import opened Waiting

  /** No level of this map is due. */
  ghost predicate ShelfQuiet(levels: LevelMap, shelf: Shelf, last: Price) {
    forall k | k in levels && k.shelf == shelf :: !Due(shelf.side, k.price, MarketPriceFor(shelf.side, last))
  }

  /** No stop order of this side is due. */
  ghost predicate QuietOn(side: Side, levels: LevelMap, last: Price) {
    ShelfQuiet(levels, Shelf(Stops, side), last) && ShelfQuiet(levels, Shelf(Trailings, side), last)
  }

  predicate NoTrailing(levels: LevelMap) {
    forall k | k in levels :: !k.shelf.kind.Trailings?
  }

  /** Nothing is left to activate or to reprice. */
  ghost predicate Idle(levels: LevelMap, last: Price) {
    && QuietOn(Buy, levels, last) && QuietOn(Sell, levels, last)
    && NoTrailing(levels)
  }

  lemma NoTrailingQuiet(levels: LevelMap, last: Price)
    requires NoTrailing(levels)
    ensures forall side :: ShelfQuiet(levels, Shelf(Trailings, side), last)
  {
  }

  /** Orders that leave do not change that. */
  lemma IdleWithFewer(levels: LevelMap, levels': LevelMap, last: Price)
    requires Idle(levels, last) && levels'.Keys <= levels.Keys
    ensures Idle(levels', last)
  {
  }

  /** A stop order that neither trails nor is due leaves nothing to activate. */
  lemma IdleWithStop(levels: LevelMap, last: Price, o: Order)
    requires Idle(levels, last)
    requires o.typ.IsStop() && !o.typ.IsTrailing() && !Due(o.side, o.stopPrice, MarketPriceFor(o.side, last))
    ensures Idle(AddedLevel(levels, o), last)
  {
  }

  // ---------------------------------------------------------------------------------------------
  // Levels and waiting orders
  // ---------------------------------------------------------------------------------------------

  /** A level of stop orders is due exactly if its front order is. */
  lemma FrontWaits(orders: Index, levels: LevelMap, booked: map<Id, Ticket>, k: Key)
    requires Consistent(orders, levels, booked) && k in levels && !k.shelf.kind.Limits?
    ensures levels[k].ids != [] && levels[k].ids[0] in orders && levels[k].ids[0] in booked
    ensures var id := levels[k].ids[0];
            && orders[id].order.id == id && orders[id].order.typ.IsStop()
            && booked[id].WaitsOn(k.shelf.side) && booked[id].claim == ClaimOf(orders[id].order)
            && booked[id].phase.terms == TermsOf(orders[id].order)
            && booked[id].phase.terms.price == k.price && booked[id].phase.terms.trailing == k.shelf.kind.Trailings?
  {
    FrontStands(orders, levels, k);
    assert Mirrors(orders[levels[k].ids[0]].order, booked[levels[k].ids[0]]);
  }

  /** A waiting order stands in the level of its stop price. */
  lemma WaitsInLevel(orders: Index, levels: LevelMap, x: State, id: Id)
    requires Consistent(orders, levels, x.booked) && ParkedIn(x, id)
    ensures var t := x.booked[id];
            Key(Shelf(if t.phase.terms.trailing then Trailings else Stops, t.claim.side), t.phase.terms.price) in levels
  {
    assert Placed(id, orders[id], levels) && Mirrors(orders[id].order, x.booked[id]);
  }

  /** The front order of the leading level of stop orders is the foremost of them. */
  lemma FrontIsForemost(orders: Index, levels: LevelMap, x: State, k: Key)
    requires Consistent(orders, levels, x.booked) && Leads(levels, k) && !k.shelf.kind.Limits?
    ensures levels[k].ids != [] && IsForemost(x, levels[k].ids[0])
  {
    FrontWaits(orders, levels, x.booked, k);
    var front := levels[k].ids[0];
    forall other | && other in x.booked && other != front && x.booked[other].WaitsOn(x.booked[front].claim.side)
                   && x.booked[other].phase.terms.trailing == x.booked[front].phase.terms.trailing
      ensures x.booked[front].TriggersBefore(x.booked[other])
    {
      FrontTriggersFirst(orders, levels, x, k, other);
    }
    hide Consistent, Leads;
  }

  lemma FrontTriggersFirst(orders: Index, levels: LevelMap, x: State, k: Key, other: Id)
    requires Consistent(orders, levels, x.booked) && Leads(levels, k) && !k.shelf.kind.Limits?
    requires levels[k].ids != [] && ParkedIn(x, levels[k].ids[0])
    requires var t := x.booked[levels[k].ids[0]];
             t.claim.side == k.shelf.side && t.phase.terms.price == k.price && t.phase.terms.trailing == k.shelf.kind.Trailings?
    requires other != levels[k].ids[0] && ParkedIn(x, other)
    requires x.booked[other].claim.side == k.shelf.side && x.booked[other].phase.terms.trailing == k.shelf.kind.Trailings?
    ensures x.booked[levels[k].ids[0]].TriggersBefore(x.booked[other])
  {
    var e := orders[other];
    assert Placed(other, e, levels) && Mirrors(e.order, x.booked[other]);
    assert e.at.shelf == k.shelf && e.at.price == x.booked[other].phase.terms.price;
    if e.at == k && !k.shelf.kind.Trailings? {
      var i := IndexOf(levels[k].ids, other);
      assert ByArrival(levels[k].ids, x.booked);
      assert ArrivalOf(x.booked, levels[k].ids[0]) < ArrivalOf(x.booked, levels[k].ids[i]);
    } else {
      assert Ahead(k.shelf, k.price, e.at.price);
    }
  }

  lemma ShelfTells(orders: Index, levels: LevelMap, x: State, shelf: Shelf, last: Price)
    requires Consistent(orders, levels, x.booked) && !shelf.kind.Limits?
    ensures ShelfQuiet(levels, shelf, last) <==>
            forall id | ParkedIn(x, id) && x.booked[id].claim.side == shelf.side
                        && x.booked[id].phase.terms.trailing == shelf.kind.Trailings? :: !x.booked[id].DueAt(last)
  {
    forall id | ParkedIn(x, id) ensures
      var t := x.booked[id];
      Key(Shelf(if t.phase.terms.trailing then Trailings else Stops, t.claim.side), t.phase.terms.price) in levels
    {
      WaitsInLevel(orders, levels, x, id);
    }
    forall k | k in levels && k.shelf == shelf
      ensures levels[k].ids != [] && ParkedIn(x, levels[k].ids[0])
      ensures var t := x.booked[levels[k].ids[0]];
              t.claim.side == shelf.side && t.phase.terms.price == k.price
              && t.phase.terms.trailing == shelf.kind.Trailings?
    {
      FrontWaits(orders, levels, x.booked, k);
    }
    hide Consistent;
  }

  /** The levels of one side are quiet exactly if no order waiting there is due. */
  lemma SideTells(orders: Index, levels: LevelMap, x: State, side: Side)
    requires Consistent(orders, levels, x.booked)
    ensures QuietOn(side, levels, x.Last()) <==> NoneDue(x, side)
  {
    ShelfTells(orders, levels, x, Shelf(Stops, side), x.Last());
    ShelfTells(orders, levels, x, Shelf(Trailings, side), x.Last());
    hide Consistent, ShelfQuiet;
  }

  lemma StopsTell(orders: Index, levels: LevelMap, x: State, last: Price)
    requires Consistent(orders, levels, x.booked) && ShelfQuiet(levels, Shelf(Stops, Buy), last)
    ensures Cleared(x, last)
  {
    ShelfTells(orders, levels, x, Shelf(Stops, Buy), last);
    hide Consistent, ShelfQuiet;
    assert forall id | WaitingBuy(x, id) :: !x.booked[id].DueAt(last);
  }

  lemma IdleTells(orders: Index, levels: LevelMap, x: State)
    requires Consistent(orders, levels, x.booked)
    ensures Idle(levels, x.Last()) <==> AtRest(x)
  {
    SideTells(orders, levels, x, Buy);
    SideTells(orders, levels, x, Sell);
    forall k | k in levels && k.shelf.kind.Trailings? ensures !NoneTrails(x) {
      FrontWaits(orders, levels, x.booked, k);
      assert ParkedIn(x, levels[k].ids[0]);
    }
    forall id | ParkedIn(x, id) && x.booked[id].phase.terms.trailing ensures !NoTrailing(levels) {
      WaitsInLevel(orders, levels, x, id);
    }
    hide Consistent, QuietOn, NoneDue;
  }

  /** Without trailing orders, stop buys wait above the market exactly if their levels do. */
  lemma BuysTell(orders: Index, levels: LevelMap, x: State)
    requires Consistent(orders, levels, x.booked) && NoTrailing(levels)
    ensures BuysWait(x) <==> QuietOn(Buy, levels, x.Last())
  {
    SideTells(orders, levels, x, Buy);
    forall id | ParkedIn(x, id) ensures !x.booked[id].phase.terms.trailing {
      WaitsInLevel(orders, levels, x, id);
    }
    hide Consistent, QuietOn;
  }

  /** With no stop sell due, all levels of stop sells, trailing or not, are below the last price. */
  lemma SellsBelow(orders: Index, levels: LevelMap, x: State, k: Key)
    requires Consistent(orders, levels, x.booked) && NoneDue(x, Sell)
    requires k in levels && !k.shelf.kind.Limits? && k.shelf.side.Sell?
    ensures k.price < x.Last()
  {
    FrontWaits(orders, levels, x.booked, k);
    assert ParkedIn(x, levels[k].ids[0]);
    hide Consistent;
  }

  /** With stop buys waiting, their levels are above the market. */
  lemma BuysAbove(orders: Index, levels: LevelMap, x: State, k: Key)
    requires Consistent(orders, levels, x.booked) && BuysWait(x)
    requires k in levels && k.shelf == Shelf(Stops, Buy)
    ensures k.price > MarketPriceFor(Buy, x.Last())
  {
    FrontWaits(orders, levels, x.booked, k);
    assert ParkedIn(x, levels[k].ids[0]);
    hide Consistent;
  }

  /** So is a trailing buy below the top of the price range. */
  lemma TrailingBuysAbove(orders: Index, levels: LevelMap, x: State, id: Id)
    requires Consistent(orders, levels, x.booked) && BuysWait(x)
    requires id in orders && orders[id].order.typ.IsTrailing() && orders[id].order.side.Buy?
    requires MarketPriceFor(Buy, x.Last()) < MAX_PRICE
    ensures orders[id].order.stopPrice > MarketPriceFor(Buy, x.Last())
  {
    IndexedIsBooked(orders, levels, x.booked, id);
    assert ParkedIn(x, id);
    hide Consistent;
  }
}
