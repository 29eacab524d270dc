/** The re-entrant order book: deleting an order activates stop orders, which are matched, which deletes
    orders. Every method keeps the index, the levels and the reference exchange in step. */
module OrderBook {
  import opened Absorption
  import opened Arrivals
  import opened BookState
  import opened Exchange
  import opened GreedyFill
  import opened Handling
  import opened Levels
  import opened Options
  import opened Orders
  import opened Outcomes
  import opened QuietBook
  import opened Quiescence
  import opened Repricing
  import opened Trailing
  import opened Waiting

  class PriceLevelOrderBook {
    const variant: Variant
    var lastTradedPrice: Price
    var trailingBuyPrice: Price
    var trailingSellPrice: Price
    var orders: Index
    var levels: LevelMap
    ghost var log: seq<Event>
    ghost var exchange: State

    /** The book is in step with the reference exchange, and its log is a legal run of that exchange. */
    ghost predicate Rep()
      reads this
    {
      && Consistent(orders, levels, exchange.booked)
      && exchange.Last() == lastTradedPrice
      && Replay(log) == Some(exchange)
    }

    ghost predicate Live()
      reads this
    {
      LiveBut(orders, {})
    }

    /** Between public operations no order is in flight. */
    ghost predicate Ready()
      reads this
    {
      Rep() && Live() && exchange.incoming == map[]
    }

    ghost function StopIds(): set<Id>
      reads this`orders
    {
      StopsOf(orders)
    }

    ghost function Now(): View
      reads this
    {
      View(orders, levels, lastTradedPrice, log, exchange)
    }

    ghost function Here(): Moment
      reads this
    {
      Moment(log, trailingBuyPrice, trailingSellPrice)
    }

    function MarketPrice(side: Side): Price
      reads this
    {
      MarketPriceFor(side, lastTradedPrice)
    }

    /** The trailing orders of one side, if any, have followed the last price, or it is their new threshold. */
    ghost predicate Tracked(side: Side)
      reads this
    {
      TrackedIn(orders, side, lastTradedPrice, if side.Sell? then trailingBuyPrice else trailingSellPrice)
    }

    /** What holds when activation has come to its end. */
    ghost predicate Settled()
      reads this
    {
      Tracked(Buy) && Tracked(Sell) && NoneDue(exchange, Sell) && (variant.bothFlags ==> BuysWait(exchange))
    }

    /** What a nested activation may do: trade and drop orders and let trailing ones follow the market, but never
        add an order or touch one in flight. */
    twostate predicate Nested()
      reads this
    {
      && Rep() && Live()
      && exchange.incoming == old(exchange.incoming)
      && orders.Keys <= old(orders.Keys)
      && StopIds() <= old(StopIds())
      && Extends(old(log), log) && Onward(old(Here()), Here())
    }

    twostate predicate SameBook()
      reads this
    {
      && orders == old(orders) && levels == old(levels)
      && log == old(log) && exchange == old(exchange)
      && lastTradedPrice == old(lastTradedPrice)
    }

    twostate predicate SameThresholds()
      reads this
    {
      trailingBuyPrice == old(trailingBuyPrice) && trailingSellPrice == old(trailingSellPrice)
    }

    constructor (v: Variant)
      ensures Ready() && variant == v && NoneDue(exchange, Sell) && BuysWait(exchange)
      ensures orders == map[] && levels == map[] && log == []
      ensures lastTradedPrice == 0 && trailingBuyPrice == 0 && trailingSellPrice == MAX_PRICE
    {
      variant := v;
      lastTradedPrice := 0;
      trailingBuyPrice := 0;
      trailingSellPrice := MAX_PRICE;
      orders := map[];
      levels := map[];
      log := [];
      exchange := EMPTY;
    }

    ghost method Record(e: Event)
      requires Replay(log) == Some(exchange) && Legal(exchange, e)
      modifies this`log, this`exchange
      ensures log == old(log) + [e] && exchange == Apply(old(exchange), e)
      ensures Replay(log) == Some(exchange)
    {
      ReplayAppend(log, exchange, e);
      log := log + [e];
      exchange := Apply(exchange, e);
    }

    // -------------------------------------------------------------------------------------------
    // Queries
    // -------------------------------------------------------------------------------------------

    method GetBestBuy() returns (price: Price)
      ensures HasLevel(levels, Shelf(Limits, Buy)) ==> Leads(levels, Key(Shelf(Limits, Buy), price))
      ensures !HasLevel(levels, Shelf(Limits, Buy)) ==> price == 0
    {
      var found, k := FindLeader(levels, Shelf(Limits, Buy));
      return if found then k.price else 0;
    }

    method GetBestSell() returns (price: Price)
      ensures HasLevel(levels, Shelf(Limits, Sell)) ==> Leads(levels, Key(Shelf(Limits, Sell), price))
      ensures !HasLevel(levels, Shelf(Limits, Sell)) ==> price == MAX_PRICE
    {
      var found, k := FindLeader(levels, Shelf(Limits, Sell));
      return if found then k.price else MAX_PRICE;
    }

    // -------------------------------------------------------------------------------------------
    // Inserting, taking out and trading: the steps that change index and levels
    // -------------------------------------------------------------------------------------------

    /** Emplaces the level if needed, indexes the order and appends it to its level. */
    method InsertOrder(o: Order)
      requires Rep() && Live()
      requires o.id in exchange.incoming && exchange.incoming[o.id] == ClaimOf(o)
      requires !o.typ.Market? && Legal(exchange, Booking(o))
      modifies this`orders, this`levels, this`log, this`exchange
      ensures Rep() && Live()
      ensures o.id !in old(orders) && orders == Added(old(orders), o) && levels == AddedLevel(old(levels), o)
      ensures log == old(log) + [Booking(o)]
      ensures old(Legal(exchange, Booking(o))) && exchange == Apply(old(exchange), Booking(o))
    {
      hide Linked, Mirrored, Fifo, Replay, Uncontested;
      ConsistentAdd(orders, levels, log, exchange, o);
      Record(Booking(o));
      levels := levels[Home(o) := LevelAt(levels, Home(o)).AddOrder(o)];
      orders := orders[o.id := Entry(o, Home(o))];
    }

    /** Takes the order out of its level, erases the level from the map its type and side select if it is
        empty now, and drops the order from the index. */
    method EraseOrder(id: Id, ghost quote: Option<nat>)
      requires Rep() && LiveBut(orders, {id}) && id in orders
      requires MayLeave(exchange, id, quote)
      modifies this`orders, this`levels, this`log, this`exchange
      ensures Rep() && Live()
      ensures orders == old(orders) - {id}
      ensures old(Placed(id, orders[id], levels) && orders[id].order.open <= levels[orders[id].at].volume)
      ensures levels == TakenLevel(old(levels), old(orders[id]))
      ensures log == old(log) + [Unbooking(id, quote)]
      ensures old(Legal(exchange, Unbooking(id, quote)))
      ensures exchange == Apply(old(exchange), Unbooking(id, quote))
      ensures exchange.incoming ==
              if quote.Some? then old(exchange.incoming)[id := ClaimOf(old(orders[id].order))] else old(exchange.incoming)
    {
      hide Linked, Mirrored, Fifo, Replay, Uncontested;
      ConsistentTake(orders, levels, exchange, id, quote);
      Record(Unbooking(id, quote));
      var e := orders[id];
      var level := levels[e.at].DeleteOrder(e.order);
      if level.ids == [] {
        levels := levels - {Key(ShelfOf(e.order), e.at.price)};
      } else {
        levels := levels[e.at := level];
      }
      orders := orders - {id};
    }

    /** Trades the incoming order with the oldest order of the leading level and lowers the level's volume. */
    method TradeWithFront(taker: Order, k: Key) returns (t: Order, maker: Id)
      requires Rep() && Live()
      requires taker.id in exchange.incoming && exchange.incoming[taker.id] == ClaimOf(taker)
      requires taker.open > 0
      requires k.shelf == Shelf(Limits, taker.side.Opposite()) && Leads(levels, k) && ClaimOf(taker).Crosses(k.price)
      modifies this`orders, this`levels, this`log, this`exchange, this`lastTradedPrice
      ensures Rep() && LiveBut(orders, {maker})
      ensures maker in orders && orders.Keys == old(orders.Keys) && orders[maker].order.typ.Limit?
      ensures maker in old(exchange.booked)
      ensures StopIds() == old(StopIds())
      ensures t.open < taker.open && Progressed(taker, t)
      ensures old(IsBest(exchange, ClaimOf(taker), maker)) && old(Legal(exchange, BestTrade(exchange, taker.id, maker)))
      ensures exchange == Apply(old(exchange), BestTrade(old(exchange), taker.id, maker))
      ensures exchange.booked[maker].claim.open == orders[maker].order.open
      ensures log == old(log) + [BestTrade(old(exchange), taker.id, maker)]
      ensures exchange.incoming == old(exchange.incoming)[taker.id := ClaimOf(t)]
      ensures old(Absorbs(orders, levels, taker, k)) ==>
                && t.open == 0 && orders[maker].order.open > 0
                && Absorbed(old(orders), old(levels), taker, k, orders, levels, lastTradedPrice)
    {
      hide Linked, Mirrored, Fifo, Replay, IsFirst;
      FrontIsFirst(orders, levels, exchange, k);
      maker := levels[k].ids[0];
      var o := orders[maker].order;
      var price := o.price;
      var amount := Min(taker.open, o.open);
      t := taker.Execute(price, amount);
      o := o.Execute(price, amount);
      ghost var before := exchange;
      Record(BestTrade(exchange, taker.id, maker));
      ConsistentReduce(orders, levels, before, exchange, o);
      levels := levels[k := levels[k].ReduceVolume(o.lastExecutedQuantity)];
      orders := orders[maker := Entry(o, k)];
      lastTradedPrice := price;
      assert Mirrors(o, exchange.booked[maker]);
    }

    lemma NotInFlight(id: Id)
      requires Rep() && id in orders
      ensures id !in exchange.incoming
    {
      InOnePlace(log);
      assert id in exchange.booked;
    }

    lemma OrderlyNow()
      requires Rep() && Live()
      ensures Orderly(exchange)
    {
      forall id | id in exchange.booked && exchange.booked[id].phase.Resting?
        ensures exchange.booked[id].claim.open > 0
      {
        assert Mirrors(orders[id].order, exchange.booked[id]);
      }
      forall a, b | && a in exchange.booked && b in exchange.booked && a != b
                    && exchange.booked[a].phase.Resting? && exchange.booked[b].phase.Resting?
        ensures exchange.booked[a].phase.arrived != exchange.booked[b].phase.arrived
      {
        ArrivalsDiffer(log, a, b);
      }
    }

    // -------------------------------------------------------------------------------------------
    // Matching
    // -------------------------------------------------------------------------------------------

    /** The fill-or-kill check. As written it answers whether the best opposite level crosses; advancing,
        whether in addition the crossing volume suffices. */
    method CanMatchOrder(order: Order) returns (can: bool)
      requires Rep() && Live()
      requires order.price == order.LimitPrice()
      ensures can <==> GateOpen(variant, exchange, ClaimOf(order))
    {
      hide Linked, Mirrored, Fifo, Replay, LiveBut, Scanned, Crossing;
      var claim := ClaimOf(order);
      var shelf := Shelf(Limits, order.side.Opposite());
      var required, available := order.open, 0;
      var ahead := levels;
      ghost var seen: set<Id> := {};
      ScanStart(orders, levels, exchange, claim);
      var found, k := FindLeader(ahead, shelf);
      while found && claim.Crosses(k.price)
        invariant Scanned(orders, levels, ahead, exchange, claim, seen)
        invariant !variant.advancing ==> ahead == levels && seen == {}
        invariant found == HasLevel(ahead, shelf) && (found ==> k.shelf == shelf && Leads(ahead, k))
        invariant available <= required && (available < required || seen == {})
        invariant if variant.advancing then available == Volume(exchange.booked, seen) else available <= required
        decreases |ahead|, required - available
      {
        ScanStep(orders, levels, ahead, exchange, claim, seen, k);
        var volume := ahead[k].volume;
        var needed := required - available;
        available := available + Min(volume, needed);
        if available >= required {
          return true;
        }
        if variant.advancing {
          seen := seen + Members(ahead[k].ids);
          ahead := ahead - {k};
          found, k := FindLeader(ahead, shelf);
        }
      }
      ScanEnd(orders, levels, ahead, exchange, claim, seen);
      return false;
    }

    /** Matches an incoming order against the opposite side, best level and oldest order first. Filled
        resting orders are deleted on the way, which may activate stop orders that trade themselves. */
    method Match(order: Order) returns (o: Order)
      requires Rep() && Live()
      requires order.id in exchange.incoming && exchange.incoming[order.id] == ClaimOf(order)
      requires order.price == order.LimitPrice()
      modifies this
      decreases StopIds(), 5
      ensures Rep() && Live()
      ensures Progressed(order, o)
      ensures exchange.incoming == old(exchange.incoming)[order.id := ClaimOf(o)]
      ensures orders.Keys <= old(orders.Keys) && StopIds() <= old(StopIds())
      ensures Extends(old(log), log) && Onward(old(Here()), Here())
      ensures !old(Passes(variant, exchange, order)) ==> o == order && SameBook()
      ensures old(Passes(variant, exchange, order)) ==> o.open == 0 || Uncontested(exchange, ClaimOf(o))
      ensures old(Passes(variant, exchange, order)) && o.open != 0 ==>
                forall k: Key | k in levels && k.shelf == Shelf(Limits, order.side.Opposite()) ::
                  if order.side.Buy? then k.price > order.price else k.price < order.price
      ensures old(Undisturbed(exchange, ClaimOf(order))) && old(Passes(variant, exchange, order)) ==>
                Orderly(old(exchange)) && exchange == Fill(old(exchange), order.id)
      ensures old(Uncontested(exchange, ClaimOf(order))) ==> o == order && SameBook()
      ensures forall j :: old(Absorbs(orders, levels, order, j)) ==>
                Absorbed(old(orders), old(levels), order, j, orders, levels, lastTradedPrice)
    {
      hide Consistent, Replay, LiveBut, Orderly, Uncontested, Undisturbed, Fill, GateOpen, Extends, Onward, Absorbs, Absorbed;
      forall j | Absorbs(orders, levels, order, j) ensures !order.tif.FOK? {
        AbsorberLeads(orders, levels, order, j);
      }
      if order.tif.FOK? {
        var can := CanMatchOrder(order);
        if !can {
          OnwardSelf(Here());
          return order;
        }
      }
      o := Consume(order);
      forall k: Key | o.open != 0 && k in levels && k.shelf == Shelf(Limits, order.side.Opposite())
        ensures if order.side.Buy? then k.price > order.price else k.price < order.price
      {
        LevelsBeyond(orders, levels, exchange, o, k);
      }
    }

    /** The loop of `Match`, once the gate has let the order through. */
    method Consume(order: Order) returns (o: Order)
      requires Rep() && Live()
      requires order.id in exchange.incoming && exchange.incoming[order.id] == ClaimOf(order)
      modifies this
      decreases StopIds(), 4, 2
      ensures Rep() && Live()
      ensures Progressed(order, o)
      ensures exchange.incoming == old(exchange.incoming)[order.id := ClaimOf(o)]
      ensures orders.Keys <= old(orders.Keys) && StopIds() <= old(StopIds())
      ensures Extends(old(log), log) && Onward(old(Here()), Here())
      ensures o.open == 0 || Uncontested(exchange, ClaimOf(o))
      ensures old(Undisturbed(exchange, ClaimOf(order))) ==>
                Orderly(old(exchange)) && exchange == Fill(old(exchange), order.id)
      ensures old(Uncontested(exchange, ClaimOf(order))) ==> o == order && SameBook()
      ensures forall j :: old(Absorbs(orders, levels, order, j)) ==>
                Absorbed(old(orders), old(levels), order, j, orders, levels, lastTradedPrice)
    {
      hide Consistent, Replay, LiveBut, Orderly, Uncontested, Undisturbed, Fill, GateOpen, Handled, Legal, Apply, Crossing, IsBest,
           TradeOnce;
      OnwardSelf(Here());
      hide Extends, Onward, Absorbs, Absorbed;
      forall j | Absorbs(orders, levels, order, j)
        ensures order.open > 0 && j.shelf == Shelf(Limits, order.side.Opposite())
        ensures Leads(levels, j) && HasLevel(levels, j.shelf) && ClaimOf(order).Crosses(j.price)
      {
        AbsorberLeads(orders, levels, order, j);
      }
      o := order;
      OrderlyNow();
      var shelf := Shelf(Limits, order.side.Opposite());
      var found, k := FindLeader(levels, shelf);
      while found && ClaimOf(o).Crosses(k.price) && o.open != 0
        invariant Rep() && Live() && Orderly(exchange)
        invariant found == HasLevel(levels, shelf) && (found ==> k.shelf == shelf && Leads(levels, k))
        invariant Progressed(order, o)
        invariant exchange.incoming == old(exchange.incoming)[order.id := ClaimOf(o)]
        invariant orders.Keys <= old(orders.Keys) && StopIds() <= old(StopIds())
        invariant Extends(old(log), log) && Onward(old(Here()), Here())
        invariant old(Undisturbed(exchange, ClaimOf(order))) ==>
                    && Fill(exchange, order.id) == Fill(old(exchange), order.id)
                    && Undisturbed(exchange, ClaimOf(o))
        invariant old(Uncontested(exchange, ClaimOf(order))) ==> o == order && SameBook()
        invariant forall j :: old(Absorbs(orders, levels, order, j)) ==>
                    || (o == order && SameBook())
                    || (o.open == 0 && Absorbed(old(orders), old(levels), order, j, orders, levels, lastTradedPrice))
        decreases o.open
      {
        forall j | old(Absorbs(orders, levels, order, j)) && SameBook() ensures j == k {
          AbsorbedBy(orders, levels, order, k, j);
        }
        ghost var mid := Here();
        LeaderContests(k, ClaimOf(o));
        o := MatchFront(o, k);
        OnwardFurther(old(Here()), mid, Here());
        found, k := FindLeader(levels, shelf);
      }
      forall j | old(Absorbs(orders, levels, order, j)) && SameBook() && found ensures j == k {
        AbsorbedBy(orders, levels, order, k, j);
      }
      if o.open != 0 {
        LeaderDecides(orders, levels, exchange, ClaimOf(o));
      }
      FillDone(exchange, order.id);
    }

    /** One round of matching: a trade, and the deletion of the resting order if it is filled. */
    method MatchFront(taker: Order, k: Key) returns (t: Order)
      requires Rep() && Live()
      requires taker.id in exchange.incoming && exchange.incoming[taker.id] == ClaimOf(taker)
      requires taker.open > 0
      requires k.shelf == Shelf(Limits, taker.side.Opposite()) && Leads(levels, k) && ClaimOf(taker).Crosses(k.price)
      modifies this
      decreases StopIds(), 4, 1
      ensures Rep() && Live() && Orderly(exchange) && Orderly(old(exchange))
      ensures t.open < taker.open && Progressed(taker, t)
      ensures exchange.incoming == old(exchange.incoming)[taker.id := ClaimOf(t)]
      ensures orders.Keys <= old(orders.Keys) && StopIds() <= old(StopIds())
      ensures Extends(old(log), log) && Onward(old(Here()), Here())
      ensures old(Undisturbed(exchange, ClaimOf(taker))) ==>
                Fill(exchange, taker.id) == Fill(old(exchange), taker.id) && Undisturbed(exchange, ClaimOf(t))
      ensures old(Absorbs(orders, levels, taker, k)) ==>
                t.open == 0 && Absorbed(old(orders), old(levels), taker, k, orders, levels, lastTradedPrice)
    {
      hide Absorbs, Absorbed;
      hide Consistent, Replay, Orderly, Legal, IsBest, Fill, Extends, Onward, Undisturbed, AtRest, Idle;
      OrderlyNow();
      ghost var before := exchange;
      var maker;
      t, maker := TradeWithFront(taker, k);
      FillStep(before, taker.id, maker);
      if Undisturbed(before, ClaimOf(taker)) {
        UndisturbedStep(before, taker.id, maker);
        IdleTells(orders, levels, exchange);
      }
      OnwardSelf(old(Here()));
      OnwardBy(old(Here()), old(Here()), before, BestTrade(before, taker.id, maker));
      if orders[maker].order.open == 0 {
        ghost var mid := Here().(log := log + [Withdraw(maker)]);
        TakenIsFewer(maker);
        OnwardBy(old(Here()), Here(), exchange, Withdraw(maker));
        DeleteOrder(maker, None);
        OnwardFurther(old(Here()), mid, Here());
      }
      OrderlyNow();
    }

    /** A leading level that crosses holds an order that crosses. */
    lemma LeaderContests(k: Key, claim: Claim)
      requires Rep() && Leads(levels, k) && k.shelf == Shelf(Limits, claim.side.Opposite()) && claim.Crosses(k.price)
      ensures !Uncontested(exchange, claim)
    {
      FrontIsFirst(orders, levels, exchange, k);
    }

    /** Taking an order out leaves nothing to activate if there was nothing. */
    lemma TakenIsFewer(id: Id)
      requires Rep() && id in orders
      ensures Placed(id, orders[id], levels) && orders[id].order.open <= levels[orders[id].at].volume
      ensures Idle(levels, lastTradedPrice) ==> Idle(TakenLevel(levels, orders[id]), lastTradedPrice)
      ensures Legal(exchange, Withdraw(id))
    {
      VolumeCovers(orders, levels, id);
      if Idle(levels, lastTradedPrice) {
        IdleWithFewer(levels, TakenLevel(levels, orders[id]), lastTradedPrice);
      }
    }

    // -------------------------------------------------------------------------------------------
    // Deleting, and activating stop orders
    // -------------------------------------------------------------------------------------------

    /** Deletes an order and activates whatever is due then. `quote` says, for the log only, that the order
        leaves its stop level to be matched, and by which quote it was found due. */
    method DeleteOrder(id: Id, ghost quote: Option<nat>)
      requires Rep() && LiveBut(orders, {id}) && id in orders
      requires MayLeave(exchange, id, quote)
      modifies this
      decreases StopIds() - {id}, 4, 0
      ensures Rep() && Live() && Settled()
      ensures orders.Keys <= old(orders.Keys) - {id} && StopIds() <= old(StopIds()) - {id}
      ensures exchange.incoming ==
              if quote.Some? then old(exchange.incoming)[id := ClaimOf(old(orders[id].order))] else old(exchange.incoming)
      ensures Extends(old(log) + [Unbooking(id, quote)], log)
      ensures Onward(old(Here()).(log := old(log) + [Unbooking(id, quote)]), Here())
      ensures Finished(variant.bothFlags, old(log) + [Unbooking(id, quote)], log)
      ensures quote.None? && old(Quiet(exchange)) ==> OnlyReprices(old(log) + [Withdraw(id)], log)
      ensures old(Legal(exchange, Unbooking(id, quote)))
      ensures forall prices: set<Price> :: Calm(Apply(old(exchange), Unbooking(id, quote)), prices) ==> BuysWait(exchange)
      ensures old(Placed(id, orders[id], levels) && orders[id].order.open <= levels[orders[id].at].volume)
      ensures old(Idle(TakenLevel(levels, orders[id]), lastTradedPrice)) ==>
                && log == old(log) + [Unbooking(id, quote)] && exchange == Apply(old(exchange), Unbooking(id, quote))
                && orders == old(orders) - {id} && levels == TakenLevel(old(levels), old(orders[id]))
                && lastTradedPrice == old(lastTradedPrice)
    {
      hide Consistent, Replay, LiveBut, Legal, Settled, Idle, LoneDue, LoneGone, Extends, Onward, Finished, Calm, BuysWait;
      if quote.None? && Quiet(exchange) {
        TakenIsFewer(id);
        QuietStep(exchange, Withdraw(id));
      }
      EraseOrder(id, quote);
      assert StopIds() == old(StopIds()) - {id};
      ghost var mid, x := log, exchange;
      ActivateStopOrders();
      CalmFrom(mid, x);
    }

    /** If an activation began calm, stop buys are quiet at its end, as written too. */
    lemma CalmFrom(base: seq<Event>, x: State)
      requires Rep() && Replay(base) == Some(x) && Finished(variant.bothFlags, base, log)
      ensures forall prices: set<Price> :: Calm(x, prices) ==> BuysWait(exchange)
    {
      forall prices: set<Price> | Calm(x, prices) ensures BuysWait(exchange) {
        CalmIsQuiet(variant.bothFlags, base, log, prices);
      }
    }

    /** Activates stop orders until a pass finds none due (as written: none on the sell side). */
    method ActivateStopOrders()
      requires Rep() && Live()
      modifies this
      decreases StopIds(), 3, 1
      ensures Nested() && Settled() && Finished(variant.bothFlags, old(log), log)
      ensures old(Quiet(exchange)) ==> OnlyReprices(old(log), log)
      ensures old(Idle(levels, lastTradedPrice)) ==> SameBook()
      ensures !variant.bothFlags ==> forall id, k :: old(LoneDue(orders, levels, lastTradedPrice, id, k)) ==>
                LoneGone(old(orders), old(levels), id, k, orders, levels, lastTradedPrice)
    {
      OnwardSelf(Here());
      hide Consistent, Replay, LiveBut, NoneDue, BuysWait, StopIds, Idle, LoneDue, LoneGone, Extends, Onward, TrackedIn, LastPass;
      var cont := true;
      while cont
        invariant Nested()
        invariant !cont ==> Settled() && Finished(variant.bothFlags, old(log), log)
        invariant old(Quiet(exchange)) ==>
                    if cont then log == old(log) && exchange == old(exchange) else OnlyReprices(old(log), log)
        invariant old(Idle(levels, lastTradedPrice)) ==> SameBook()
        invariant !variant.bothFlags ==> forall id, k :: old(LoneDue(orders, levels, lastTradedPrice, id, k)) ==>
                    if cont then SameBook()
                    else LoneGone(old(orders), old(levels), id, k, orders, levels, lastTradedPrice)
        decreases StopIds(), cont
      {
        ghost var mid, half := Here(), log;
        cont, half := ActivatePass();
        OnwardFurther(old(Here()), mid, Here());
        if !cont {
          assert Finished(variant.bothFlags, mid.log, log);
          FinishedFurther(variant.bothFlags, old(log), mid.log, log);
        }
      }
    }

    /** One pass: stop buys, then stop sells; as written the second answer replaces the first. `half` is the
        log between them. */
    method ActivatePass() returns (cont: bool, ghost half: seq<Event>)
      requires Rep() && Live()
      modifies this
      decreases StopIds(), 3, 0
      ensures Nested()
      ensures if cont then StopIds() < old(StopIds())
              else Settled() && LastPass(variant.bothFlags, old(log), old(log), half, log)
      ensures old(Quiet(exchange)) ==> !cont && OnlyReprices(old(log), log)
      ensures old(Idle(levels, lastTradedPrice)) ==> SameBook()
      ensures !variant.bothFlags ==> forall id, k :: old(LoneDue(orders, levels, lastTradedPrice, id, k)) ==>
                !cont && LoneGone(old(orders), old(levels), id, k, orders, levels, lastTradedPrice)
    {
      hide Consistent, Replay, LiveBut, QuietOn, NoneDue, BuysWait, Cleared, StopIds, NoTrailing, LoneDue, LoneGone, Extends,
           Onward, TrackedIn;
      ExtendsSelf(log);
      var buys := HalfPass(Buy);
      forall id, k | && old(LoneDue(orders, levels, lastTradedPrice, id, k))
                     && LoneGone(old(orders), old(levels), id, k, orders, levels, lastTradedPrice)
        ensures NoTrailing(levels) && QuietOn(Sell, levels, lastTradedPrice)
      {
        LoneThenQuiet(old(orders), old(levels), old(lastTradedPrice), id, k, orders, levels, lastTradedPrice);
      }
      half := log;
      ghost var mid := Here();
      var sells := HalfPass(Sell);
      ClearedFurther(half, log, old(lastTradedPrice));
      OnwardFurther(old(Here()), mid, Here());
      cont := if variant.bothFlags then buys || sells else sells;
    }

    /** Activates one side, then reprices the trailing orders of the other. */
    method HalfPass(side: Side) returns (activated: bool)
      requires Rep() && Live()
      modifies this
      decreases StopIds(), 2, 1
      ensures Nested()
      ensures activated <==> !old(NoneDue(exchange, side))
      ensures activated ==> StopIds() < old(StopIds())
      ensures side.Buy? ==> Cleared(exchange, old(lastTradedPrice))
      ensures !activated ==> OnlyReprices(old(log), log) && NoneDue(exchange, side)
      ensures !activated && (side.Buy? || old(BuysWait(exchange))) ==> BuysWait(exchange)
      ensures !activated && old(NoneDue(exchange, side.Opposite())) ==> NoneDue(exchange, side.Opposite())
      ensures Tracked(side.Opposite()) && (!activated && old(Tracked(side)) ==> Tracked(side))
      ensures old(QuietOn(side, levels, lastTradedPrice) && NoTrailing(levels)) ==> !activated && SameBook()
      ensures forall id, k :: old(LoneDue(orders, levels, lastTradedPrice, id, k)) && side.Buy? ==>
                LoneGone(old(orders), old(levels), id, k, orders, levels, lastTradedPrice)
    {
      hide Consistent, Replay, LiveBut, QuietOn, NoneDue, BuysWait, Cleared, StopIds, LoneDue, LoneGone, Extends, Onward,
           TrackedIn;
      SideTells(orders, levels, exchange, side);
      ghost var mid;
      activated, mid := ActivateSide(side);
      mid := log;
      ghost var here := Here();
      forall id, k | && old(LoneDue(orders, levels, lastTradedPrice, id, k))
                     && LoneGone(old(orders), old(levels), id, k, orders, levels, lastTradedPrice)
        ensures NoTrailing(levels)
      {
        LoneThenQuiet(old(orders), old(levels), old(lastTradedPrice), id, k, orders, levels, lastTradedPrice);
      }
      if NoneDue(exchange, Buy) {
        QuietBuysWait(exchange);
      }
      ghost var x := exchange;
      AllTrailApart(log);
      RepricingIsQuiet(x, side.Opposite());
      ghost var walk := UpdateTrailing(side.Opposite());
      OnwardFurther(old(Here()), here, Here());
      if log != mid {
        ExtendsSelf(mid);
        ExtendsBy(mid, mid, x, Reprice(side.Opposite()));
        ClearedFurther(mid, log, old(lastTradedPrice));
      }
    }

    /** Activates the stop orders of one side that are due, then the trailing ones; `mid` is the log between.
        Whatever this call itself triggers was due at the last price when its map was taken up. */
    method ActivateSide(side: Side) returns (activated: bool, ghost mid: seq<Event>)
      requires Rep() && Live()
      modifies this
      decreases StopIds(), 2, 0
      ensures Nested()
      ensures activated ==> StopIds() < old(StopIds())
      ensures !activated ==> SameBook() && SameThresholds()
      ensures activated <==> !old(NoneDue(exchange, side))
      ensures side.Buy? ==> Cleared(exchange, old(lastTradedPrice))
      ensures Extends(old(log), mid) && Extends(mid, log) && Replay(mid).Some?
      ensures TriggersAt(old(log), mid, old(exchange.incoming.Keys), side, false, |old(exchange.quotes)|)
      ensures TriggersAt(mid, log, old(exchange.incoming.Keys), side, true, |Replay(mid).value.quotes|)
      ensures forall id, k :: old(LoneDue(orders, levels, lastTradedPrice, id, k)) && side.Buy? ==>
                LoneGone(old(orders), old(levels), id, k, orders, levels, lastTradedPrice)
    {
      hide Consistent, Replay, LiveBut, StopIds, NoneDue, Cleared, ShelfQuiet, LoneDue, LoneGone, Extends, Onward, TriggersAt;
      SideTells(orders, levels, exchange, side);
      var stops := Drain(Shelf(Stops, side), MarketPrice(side));
      forall id, k | && old(LoneDue(orders, levels, lastTradedPrice, id, k))
                     && LoneGone(old(orders), old(levels), id, k, orders, levels, lastTradedPrice)
        ensures NoTrailing(levels) && ShelfQuiet(levels, Shelf(Trailings, Buy), lastTradedPrice)
      {
        LoneThenQuiet(old(orders), old(levels), old(lastTradedPrice), id, k, orders, levels, lastTradedPrice);
        NoTrailingQuiet(levels, lastTradedPrice);
      }
      if side.Buy? {
        StopsTell(orders, levels, exchange, old(lastTradedPrice));
      }
      mid := log;
      ghost var here := Here();
      var trailings := Drain(Shelf(Trailings, side), MarketPrice(side));
      OnwardFurther(old(Here()), here, Here());
      ClearedFurther(mid, log, old(lastTradedPrice));
      activated := stops || trailings;
    }

    /** Activates the leading order of one map while it is due at the price read before the loop. */
    method Drain(shelf: Shelf, market: Price) returns (activated: bool)
      requires Rep() && Live()
      requires !shelf.kind.Limits? && market == MarketPrice(shelf.side)
      modifies this
      decreases StopIds(), 1
      ensures Nested()
      ensures activated ==> StopIds() < old(StopIds())
      ensures !activated ==> SameBook() && SameThresholds()
      ensures activated <==> !old(ShelfQuiet(levels, shelf, lastTradedPrice))
      ensures ShelfQuiet(levels, shelf, old(lastTradedPrice))
      ensures TriggersAt(old(log), log, old(exchange.incoming.Keys), shelf.side, shelf.kind.Trailings?, |old(exchange.quotes)|)
      ensures shelf == Shelf(Stops, Buy) ==> forall id, k :: old(LoneDue(orders, levels, lastTradedPrice, id, k)) ==>
                LoneGone(old(orders), old(levels), id, k, orders, levels, lastTradedPrice)
    {
      OnwardSelf(Here());
      hide Linked, Mirrored, Fifo, Replay, LiveBut, LoneDue, LoneGone, NoTrailing, Extends, Onward, TriggersAt;
      NoTriggers(log, exchange.incoming.Keys, shelf.side, shelf.kind.Trailings?, |exchange.quotes|);
      activated := false;
      var found, k := FindLeader(levels, shelf);
      while found && Due(shelf.side, k.price, market)
        invariant Nested()
        invariant found == HasLevel(levels, shelf) && (found ==> k.shelf == shelf && Leads(levels, k))
        invariant TriggersAt(old(log), log, old(exchange.incoming.Keys), shelf.side, shelf.kind.Trailings?,
                             |old(exchange.quotes)|)
        invariant activated ==> StopIds() < old(StopIds())
        invariant activated ==> !old(ShelfQuiet(levels, shelf, lastTradedPrice))
        invariant !activated ==> SameBook() && SameThresholds()
        invariant activated && shelf == Shelf(Stops, Buy) ==>
                    forall id, j :: old(LoneDue(orders, levels, lastTradedPrice, id, j)) ==>
                      LoneGone(old(orders), old(levels), id, j, orders, levels, lastTradedPrice)
        decreases StopIds()
      {
        FrontWaits(orders, levels, exchange.booked, k);
        FrontIsForemost(orders, levels, exchange, k);
        var front := levels[k].ids[0];
        if shelf == Shelf(Stops, Buy) {
          forall id, j | old(LoneDue(orders, levels, lastTradedPrice, id, j)) ensures !activated && front == id {
            if activated {
              LoneThenQuiet(old(orders), old(levels), old(lastTradedPrice), id, j, orders, levels, lastTradedPrice);
            } else {
              LoneLeads(orders, levels, lastTradedPrice, id, j, k);
            }
          }
        }
        activated := true;
        ghost var here := Here();
        ActivateFront(front, old(log), old(exchange));
        OnwardFurther(old(Here()), here, Here());
        found, k := FindLeader(levels, shelf);
      }
      forall id, j | old(LoneDue(orders, levels, lastTradedPrice, id, j))
        ensures shelf == Shelf(Stops, Buy) ==> activated
      {
        LoneIsDue(old(orders), old(levels), old(lastTradedPrice), id, j);
      }
    }

    /** One round of `Drain`, which began when the log was `base`: triggers by the last quote then. */
    method ActivateFront(front: Id, ghost base: seq<Event>, ghost x: State)
      requires Rep() && Live() && Replay(base) == Some(x) && Extends(base, log) && exchange.incoming == x.incoming
      requires front in orders && ParkedIn(exchange, front) && exchange.booked[front].DueAt(x.Last())
      requires IsForemost(exchange, front)
      modifies this
      decreases StopIds(), 0, 1
      ensures Nested() && StopIds() < old(StopIds()) && Extends(base, log)
      ensures var t := old(exchange.booked[front]);
              TriggersAt(base, old(log), x.incoming.Keys, t.claim.side, t.phase.terms.trailing, |x.quotes|) ==>
                TriggersAt(base, log, x.incoming.Keys, t.claim.side, t.phase.terms.trailing, |x.quotes|)
      ensures forall k :: old(LoneDue(orders, levels, lastTradedPrice, front, k)) ==>
                LoneGone(old(orders), old(levels), front, k, orders, levels, lastTradedPrice)
    {
      hide Consistent, LiveBut, Replay, Legal, LoneDue, LoneGone, Extends, Onward, TriggersAt, IsForemost;
      MayTriggerAt(base, log, front);
      NotInFlight(front);
      Standing(front);
      ghost var y := exchange;
      ghost var mid := ActivateStopOrder(orders[front].order, |x.quotes|);
      ExtendsFurther(base, old(log), log);
      ExtendsIsPrefix(old(log), log);
      ghost var o := old(orders[front].order).Activate();
      ConcludedInFlight(log, o, Passes(variant, Replay(mid).value, o));
      ExtendsIsPrefix(old(log) + [Trigger(front, |x.quotes|)], log);
      OneTrigger(old(log), log, y, front, |x.quotes|);
      var t := y.booked[front];
      if TriggersAt(base, old(log), x.incoming.Keys, t.claim.side, t.phase.terms.trailing, |x.quotes|) {
        TriggersFurther(base, old(log), log, x.incoming.Keys, t.claim.side, t.phase.terms.trailing, |x.quotes|);
      }
    }

    /** Deletes the stop order, which may activate others, and then matches it as a market or limit order to
        its end; `mid` is the log when matching begins. */
    method ActivateStopOrder(order: Order, ghost quote: nat) returns (ghost mid: seq<Event>)
      requires Rep() && Live()
      requires order.id in orders && orders[order.id].order == order && Legal(exchange, Trigger(order.id, quote))
      modifies this
      decreases StopIds(), 0, 0
      ensures Nested()
      ensures StopIds() <= old(StopIds()) - {order.id} && order.id in old(StopIds())
      ensures Extends(old(log) + [Trigger(order.id, quote)], log)
      ensures Finished(variant.bothFlags, old(log) + [Trigger(order.id, quote)], mid)
      ensures Extends(mid, log) && Replay(mid).Some?
      ensures Concluded(log, order.Activate(), Passes(variant, Replay(mid).value, order.Activate()))
      ensures LeftOrRests(order, orders, log)
      ensures forall k :: old(LoneDue(orders, levels, lastTradedPrice, order.id, k)) ==>
                LoneGone(old(orders), old(levels), order.id, k, orders, levels, lastTradedPrice)
    {
      hide Consistent, Replay, Legal, Apply, Handled, Settled, Idle, LoneDue, Absorbs, Absorbed, Finished, TakenLevel,
           Undisturbed, Uncontested, Orderly, Extends, Onward, Concluded, Passes, Calm, BuysWait, LeftOrRests;
      forall k | LoneDue(orders, levels, lastTradedPrice, order.id, k)
        ensures Placed(order.id, orders[order.id], levels) && order.open <= levels[orders[order.id].at].volume
        ensures Idle(TakenLevel(levels, orders[order.id]), lastTradedPrice) && order.Activate().typ.Market?
        ensures Absorbs(orders - {order.id}, TakenLevel(levels, orders[order.id]), order.Activate(), k)
      {
        ConsistentIsLinked(orders, levels, exchange.booked);
        LoneTaken(orders, levels, lastTradedPrice, order.id, k);
      }
      NotInFlight(order.id);
      StopIsParked(order.id, quote);
      OnwardSelf(Here());
      OnwardBy(Here(), Here(), exchange, Trigger(order.id, quote));
      DeleteOrder(order.id, Some(quote));
      mid := log;
      ghost var here := Here();
      var o := order.Activate();
      if o.typ.Market? {
        AddMarketOrder(o);
      } else {
        AddLimitOrder(o);
      }
      ActivatedEndsUp(order, orders, log);
      OnwardFurther(old(Here()).(log := old(log) + [Trigger(order.id, quote)]), here, Here());
      OnwardFurther(old(Here()), old(Here()).(log := old(log) + [Trigger(order.id, quote)]), Here());
      InAndOut(old(exchange.incoming), order.id, ClaimOf(order));
    }

    static lemma InAndOut(incoming: map<Id, Claim>, id: Id, claim: Claim)
      requires id !in incoming
      ensures incoming[id := claim] - {id} == incoming
    {
    }

    lemma StopIsParked(id: Id, quote: nat)
      requires Rep() && id in orders && Legal(exchange, Trigger(id, quote))
      ensures orders[id].order.typ.IsStop()
    {
      Standing(id);
    }

    // -------------------------------------------------------------------------------------------
    // Adding
    // -------------------------------------------------------------------------------------------

    /** Matches a market order at any price; what is left of it is dropped. */
    method AddMarketOrder(order: Order)
      requires Rep() && Live()
      requires order.id in exchange.incoming && exchange.incoming[order.id] == ClaimOf(order)
      requires order.typ.Market?
      modifies this
      decreases StopIds(), 6
      ensures Rep() && Live()
      ensures exchange.incoming == old(exchange.incoming) - {order.id}
      ensures orders.Keys <= old(orders.Keys) && StopIds() <= old(StopIds())
      ensures Extends(old(log), log) && Onward(old(Here()), Here())
      ensures order.id !in orders && LeftOrRests(order, orders, log)
      ensures Concluded(log, order, old(Passes(variant, exchange, order)))
      ensures order.tif.FOK? || Concluded(log, order, true)
      ensures !old(Passes(variant, exchange, order)) ==>
                orders == old(orders) && levels == old(levels) && log == old(log) + [Leave(order.id)]
      ensures old(Undisturbed(exchange, ClaimOf(order))) ==>
                Orderly(old(exchange)) && exchange == Handled(variant, old(exchange), order)
      ensures forall k :: old(Absorbs(orders, levels, order, k)) ==>
                Absorbed(old(orders), old(levels), order, k, orders, levels, lastTradedPrice)
    {
      hide Consistent, LiveBut, Replay, Fill, Orderly, GateOpen, Uncontested, Undisturbed, Absorbs, Absorbed, Concluded, Extends,
           Onward, LeftOrRests;
      OrderlyNow();
      var o := order.(price := MarketLimit(order.side));
      forall k | Absorbs(orders, levels, order, k) ensures Absorbs(orders, levels, o, k) {
        AbsorbedAtAnyPrice(orders, levels, order, k, o.price);
      }
      o := Match(o);
      forall k | old(Absorbs(orders, levels, order, k))
        ensures Absorbed(old(orders), old(levels), order, k, orders, levels, lastTradedPrice)
      {
        AbsorbedAtAnyPrice(old(orders), old(levels), order, k, MarketLimit(order.side));
      }
      Concludes(log, exchange, order, old(Passes(variant, exchange, order)));
      OnwardBy(old(Here()), Here(), exchange, Leave(o.id));
      LeavesInPlace(order, o.(price := order.price), orders, levels, log, exchange);
      Record(Leave(o.id));
    }

    /** Matches a limit order; what is left of it rests unless it is immediate-or-cancel or fill-or-kill. */
    method AddLimitOrder(order: Order)
      requires Rep() && Live()
      requires order.id in exchange.incoming && exchange.incoming[order.id] == ClaimOf(order)
      requires order.typ.Limit?
      modifies this
      decreases StopIds(), 6
      ensures Rep() && Live()
      ensures exchange.incoming == old(exchange.incoming) - {order.id}
      ensures orders.Keys <= old(orders.Keys) + {order.id} && StopIds() <= old(StopIds())
      ensures Extends(old(log), log) && Onward(old(Here()), Here())
      ensures LeftOrRests(order, orders, log)
      ensures order.id in orders ==> StandsLast(orders, levels, order.id, Key(Shelf(Limits, order.side), order.price))
      ensures Concluded(log, order, old(Passes(variant, exchange, order)))
      ensures order.tif.FOK? || Concluded(log, order, true)
      ensures !old(Passes(variant, exchange, order)) ==>
                orders == old(orders) && levels == old(levels) && log == old(log) + [Leave(order.id)]
      ensures old(Uncontested(exchange, ClaimOf(order))) && Stays(order, order.open) ==>
                && orders == Added(old(orders), order) && levels == AddedLevel(old(levels), order)
                && lastTradedPrice == old(lastTradedPrice) && log == old(log) + [Rest(order.id)]
      ensures old(Undisturbed(exchange, ClaimOf(order))) ==>
                Orderly(old(exchange)) && exchange == Handled(variant, old(exchange), order)
    {
      hide Consistent, LiveBut, Replay, Fill, Orderly, GateOpen, Uncontested, Undisturbed, Concluded, Extends, Onward,
           LeftOrRests, StandsLast, AddedLevel;
      OrderlyNow();
      var o := Match(order);
      Concludes(log, exchange, order, old(Passes(variant, exchange, order)));
      OnwardBy(old(Here()), Here(), exchange, if Stays(o, o.open) then Rest(o.id) else Leave(o.id));
      if o.open != 0 && !o.tif.IOC? && !o.tif.FOK? {
        RestsInPlace(order, o, orders, levels, log + [Rest(o.id)]);
        InsertOrder(o);
      } else {
        LeavesInPlace(order, o, orders, levels, log, exchange);
        Record(Leave(o.id));
      }
    }

    // -------------------------------------------------------------------------------------------
    // Trailing stop orders
    // -------------------------------------------------------------------------------------------

    /** Every trailing order of one side gets the stop price the last price calls for and moves to its
        level. `walk` lists the orders as they were walked: the old levels and the new ones both group it. */
    method RepriceTrailing(side: Side) returns (ghost walk: seq<Id>)
      requires Rep() && Live()
      modifies this`orders, this`levels, this`log, this`exchange
      ensures Rep() && Live()
      ensures log == old(log) + [Reprice(side)] && exchange == Apply(old(exchange), Reprice(side))
      ensures Relisted(old(orders), old(levels), orders, levels, Shelf(Trailings, side), walk)
      ensures orders == AllMoved(old(orders), Shelf(Trailings, side), lastTradedPrice)
    {
      hide Consistent, Replay, Linked, Walked, Grouped, Midway, Relisted, OnlyMoved, AllMoved, LiveBut, LevelsOf, Swapped;
      var shelf := Shelf(Trailings, side);
      ghost var before := orders;
      assert Linked(before, levels) by {
        ConsistentIsLinked(before, levels, exchange.booked);
      }
      AllMovedOnly(before, levels, shelf, lastTradedPrice);
      walk := [];
      var updated: LevelMap := map[];
      var pending := LevelsOf(levels, shelf);
      WalkStart(before, levels, shelf);
      GroupedStart(AllMoved(before, shelf, lastTradedPrice), shelf);
      MidwayStart(before, AllMoved(before, shelf, lastTradedPrice));
      while pending != map[]
        invariant levels == old(levels) && log == old(log) && exchange == old(exchange)
        invariant Walked(walk, before, levels, pending, shelf)
        invariant Midway(orders, before, AllMoved(before, shelf, lastTradedPrice), walk)
        invariant Grouped(updated, walk, AllMoved(before, shelf, lastTradedPrice), shelf)
        decreases |pending|
      {
        var k := FindLowest(pending);
        WalkLevel(walk, before, levels, pending, shelf, k);
        updated := RepriceLevel(k, updated, before, walk);
        walk := walk + levels[k].ids;
        pending := pending - {k};
      }
      RelistedFinally(before, levels, orders, updated, side, lastTradedPrice, walk, exchange.booked);
      OnlyMovedLive(before, orders, shelf);
      Record(Reprice(side));
      levels := Swapped(levels, updated, shelf);
    }

    /** Empties level `k` from its oldest order on into the new levels. */
    method RepriceLevel(k: Key, updated: LevelMap, ghost before: Index, ghost walk: seq<Id>)
      returns (updated': LevelMap)
      requires Linked(before, levels) && k in levels && k.shelf.kind.Trailings?
      requires Midway(orders, before, AllMoved(before, k.shelf, lastTradedPrice), walk)
      requires Grouped(updated, walk, AllMoved(before, k.shelf, lastTradedPrice), k.shelf)
      modifies this`orders
      ensures Midway(orders, before, AllMoved(before, k.shelf, lastTradedPrice), walk + levels[k].ids)
      ensures Grouped(updated', walk + levels[k].ids, AllMoved(before, k.shelf, lastTradedPrice), k.shelf)
    {
      hide Linked, Grouped, Midway;
      ghost var after := AllMoved(before, k.shelf, lastTradedPrice);
      LevelHolds(before, levels, k);
      updated' := updated;
      var level := levels[k];
      ghost var n := 0;
      assert walk + levels[k].ids[..0] == walk;
      while level.ids != []
        invariant n <= |levels[k].ids| && level.ids == levels[k].ids[n..]
        invariant level.volume == Total(level.ids, before)
        invariant Midway(orders, before, after, walk + levels[k].ids[..n])
        invariant Grouped(updated', walk + levels[k].ids[..n], after, k.shelf)
        decreases |level.ids|
      {
        var id := level.ids[0];
        assert id in levels[k].ids;
        MidwayStep(orders, before, after, walk + levels[k].ids[..n], id);
        var o := orders[id].order.(stopPrice := TrailedPrice(k.shelf.side, lastTradedPrice, orders[id].order.trail));
        GroupedAppend(updated', walk + levels[k].ids[..n], after, k.shelf, id);
        assert o == after[id].order;
        orders := orders[id := Entry(o, Home(o))];
        level := level.PopFront(o);
        updated' := updated'[Home(o) := LevelAt(updated', Home(o)).AddOrder(o)];
        assert walk + levels[k].ids[..n + 1] == walk + levels[k].ids[..n] + [id];
        n := n + 1;
      }
      assert levels[k].ids[..n] == levels[k].ids;
    }

    /** The market has moved past the threshold of the trailing orders of this side, and there are some. */
    predicate Moving(side: Side)
      reads this
    {
      && (if side.Sell? then trailingBuyPrice < MarketPrice(Sell) else trailingSellPrice > MarketPrice(Buy))
      && HasLevel(levels, Shelf(Trailings, side))
    }

    /** Reprices the trailing orders of one side if the market moved in their favour; otherwise, and only
        then, sets the threshold to the last price. */
    method UpdateTrailing(side: Side) returns (ghost walk: seq<Id>)
      requires Rep() && Live()
      modifies this`orders, this`levels, this`log, this`exchange, this`trailingBuyPrice, this`trailingSellPrice
      ensures Rep() && Live()
      ensures old(Moving(side)) ==>
                && Relisted(old(orders), old(levels), orders, levels, Shelf(Trailings, side), walk)
                && orders == AllMoved(old(orders), Shelf(Trailings, side), lastTradedPrice)
                && log == old(log) + [Reprice(side)] && exchange == Apply(old(exchange), Reprice(side))
                && trailingBuyPrice == old(trailingBuyPrice) && trailingSellPrice == old(trailingSellPrice)
      ensures !old(Moving(side)) ==>
                && SameBook()
                && trailingBuyPrice == (if side.Sell? then lastTradedPrice else old(trailingBuyPrice))
                && trailingSellPrice == (if side.Buy? then lastTradedPrice else old(trailingSellPrice))
      ensures (if side.Sell? then lastTradedPrice > old(trailingBuyPrice)
               else lastTradedPrice != 0 && lastTradedPrice < old(trailingSellPrice)) ==>
                forall id | Trails(orders, id, side) :: AtDistance(orders[id].order, lastTradedPrice)
      ensures (if side.Sell? then lastTradedPrice <= old(trailingBuyPrice)
               else lastTradedPrice == 0 || lastTradedPrice >= old(trailingSellPrice)) ==>
                SameBook() && (if side.Sell? then trailingBuyPrice else trailingSellPrice) == lastTradedPrice
      ensures forall id | old(Trails(orders, id, side)) ::
                && id in orders
                && Followed(old(orders[id].order), orders[id].order, lastTradedPrice,
                            if side.Sell? then old(trailingBuyPrice) else old(trailingSellPrice))
      ensures orders.Keys == old(orders.Keys) && StopIds() == old(StopIds())
      ensures Onward(old(Here()), Here())
      ensures old(NoTrailing(levels)) ==> SameBook()
      ensures Tracked(side) && (old(Tracked(side.Opposite())) ==> Tracked(side.Opposite()))
    {
      hide Consistent, Replay, LiveBut, Relisted, AllMoved, Onward, AtDistance, TrackedIn;
      walk := [];
      if Moving(side) {
        ghost var before, levelsBefore := orders, levels;
        ConsistentIsLinked(orders, levels, exchange.booked);
        OnwardReprice(Here(), exchange, side);
        walk := RepriceTrailing(side);
        MovedFollows(before, levelsBefore, side, lastTradedPrice, if side.Sell? then trailingBuyPrice else trailingSellPrice);
        OthersStay(before, levelsBefore, side, lastTradedPrice, if side.Buy? then trailingBuyPrice else trailingSellPrice);
        RelistedStops(before, levelsBefore, orders, levels, Shelf(Trailings, side), walk);
      } else {
        NotMoving(side);
        OnwardMark(Here(), exchange, side);
        MarkTracks(orders, side, lastTradedPrice);
        if side.Sell? {
          trailingBuyPrice := lastTradedPrice;
        } else {
          trailingSellPrice := lastTradedPrice;
        }
      }
    }

    lemma NotMoving(side: Side)
      requires Rep() && !Moving(side)
      ensures NotPast(exchange, Here(), side) || forall id | ParkedIn(exchange, id) :: !TrailsIn(exchange, id, side)
      ensures !HasLevel(levels, Shelf(Trailings, side)) ==> forall id :: !Trails(orders, id, side)
    {
      if !HasLevel(levels, Shelf(Trailings, side)) {
        NoLevelNoTrails(orders, levels, exchange, side);
      }
      hide Consistent, Replay;
    }

    // -------------------------------------------------------------------------------------------
    // Public operations
    // -------------------------------------------------------------------------------------------

    /** Matches a stop order that is due already and parks the others. */
    method AddStopOrder(order: Order)
      requires Rep() && Live()
      requires order.id in exchange.incoming && exchange.incoming[order.id] == ClaimOf(order)
      requires order.typ.IsStop()
      modifies this
      ensures Rep() && Live()
      ensures exchange.incoming == old(exchange.incoming) - {order.id}
      ensures orders.Keys <= old(orders.Keys) + {order.id}
      ensures TakenIn(variant, order, old(Now()), Now()) && PutInPlace(order, old(Now()), Now())
      ensures if Arriving(order, old(lastTradedPrice)).typ.IsStop() then SameThresholds() else Onward(old(Here()), Here())
    {
      hide Consistent, Replay, LiveBut, Handled, Extends, Onward, Concluded, Passes, Orderly, Undisturbed, Uncontested,
           LeftOrRests, StandsLast, WaitsAt;
      ghost var v := Now();
      ArrivesAs(order, lastTradedPrice);
      var o := order;
      if o.typ.IsTrailing() {
        o := o.(stopPrice := TrailedPrice(o.side, lastTradedPrice, o.trail));
      }
      if Due(o.side, o.stopPrice, MarketPrice(o.side)) {
        o := o.Activate();
        if o.typ.Market? {
          AddMarketOrder(o);
        } else {
          AddLimitOrder(o);
        }
        PutInPlaceMatched(order, v, Now());
        return;
      }
      InsertOrder(o);
      PutInPlaceParked(order, v, Now());
    }

    lemma NotBooked(id: Id)
      requires Rep() && id !in orders
      ensures id !in exchange.booked
    {
    }

    /** Matches or parks an order that has come in, as its type demands. */
    method TakeIn(order: Order)
      requires Rep() && Live()
      requires order.id in exchange.incoming && exchange.incoming[order.id] == ClaimOf(order)
      modifies this
      ensures Rep() && Live()
      ensures exchange.incoming == old(exchange.incoming) - {order.id}
      ensures orders.Keys <= old(orders.Keys) + {order.id}
      ensures TakenIn(variant, order, old(Now()), Now()) && PutInPlace(order, old(Now()), Now())
      ensures if Arriving(order, old(lastTradedPrice)).typ.IsStop() then SameThresholds() else Onward(old(Here()), Here())
    {
      hide Consistent, Replay, LiveBut, Handled, Extends, Onward, Concluded, Passes, Orderly, Undisturbed, Uncontested,
           LeftOrRests, StandsLast;
      match order.typ {
        case Market => AddMarketOrder(order);
        case Limit => AddLimitOrder(order);
        case _ => AddStopOrder(order);
      }
    }

    /** Adds an order with a new id: matches it or books it, then activates what is due. */
    method AddOrder(order: Order)
      requires Ready() && order.id !in orders
      modifies this
      ensures Ready() && Settled()
      ensures orders.Keys <= old(orders.Keys) + {order.id}
      ensures old(Legal(exchange, Enter(order.id, ClaimOf(order)))) && Arrived(variant, order, old(Now()), Now())
      ensures EndsUp(order, old(Now()), Now())
      ensures Onward(old(Here()).(log := Begun(order, old(Now()))), Here())
      ensures TrailedSince(old(Now()), old(trailingBuyPrice), old(trailingSellPrice), Now())
      ensures WaitsAt(order, old(lastTradedPrice)) && old(Quiet(exchange)) ==> OnlyReprices(Begun(order, old(Now())), log)
    {
      hide Consistent, Replay, LiveBut, TakenIn, Activated, Arrived, Settled, LoneDue, LoneGone, PutInPlace, EndsUp, TrailedSince,
           Onward, StopsShown, Extends, WaitsAt, Begun, Quiet;
      NotBooked(order.id);
      ghost var v := Now();
      EnteredInStep(v, order);
      ArrivesAs(order, v.last);
      ghost var begun := Here().(log := Begun(order, v));
      ghost var x := HasBegun(order);
      Record(Enter(order.id, ClaimOf(order)));
      TakeIn(order);
      ghost var w, here := Now(), Here();
      BeginsWith(order, v, w);
      OnwardSelf(here);
      ActivateAll();
      OnwardFurther(begun, here, Here());
      TrailedNow(v, x, begun);
      EndsUpAfter(order, v, w, Now());
      if Arriving(order, v.last).typ.IsStop() {
        StopArrived(variant, order, v, w, Now());
      } else {
        OrderArrived(variant, order, v, w, Now());
      }
    }

    lemma TrailedNow(v: View, x: State, a: Moment)
      requires Rep() && Settled() && StopsShown(v, x) && Replay(a.log) == Some(x) && Onward(a, Here())
      ensures TrailedSince(v, a.buy, a.sell, Now())
    {
      HaveTrailed(v, x, a, Now(), Here());
    }

    /** Activation as the public operations end with it. */
    method ActivateAll()
      requires Rep() && Live()
      modifies this
      ensures Nested() && Settled() && Activated(variant.bothFlags, old(Now()), Now())
      ensures old(Quiet(exchange)) ==> OnlyReprices(old(log), log)
      ensures !variant.bothFlags ==> forall id, k :: old(LoneDue(orders, levels, lastTradedPrice, id, k)) ==>
                LoneGone(old(orders), old(levels), id, k, orders, levels, lastTradedPrice)
    {
      hide Consistent, Replay, LiveBut, Settled, Idle, LoneDue, LoneGone, Extends, Finished, Calm, BuysWait;
      ActivateStopOrders();
      CalmFrom(old(log), old(exchange));
    }

    /** Replaces an order by one with a new id and price, which queues up anew. The book is `mid` between the
        withdrawal with what it sets off and the new order, with the thresholds in `bounds`, and `added` before
        the last activation. */
    method ModifyOrder(id: Id, newId: Id, newPrice: Price) returns (ghost mid: View, ghost bounds: Moment, ghost added: View)
      requires Ready() && id in orders
      requires newId == id || newId !in orders
      modifies this
      ensures Ready() && Settled()
      ensures orders.Keys <= old(orders.Keys) - {id} + {newId}
      ensures InStep(mid) && Extends(old(Dropped(Now(), id)).log, mid.log)
      ensures Finished(variant.bothFlags, old(Dropped(Now(), id)).log, mid.log)
      ensures old(Idle(Dropped(Now(), id).levels, lastTradedPrice)) ==> mid == old(Dropped(Now(), id))
      ensures bounds.log == mid.log && Onward(old(Here()).(log := old(log) + [Withdraw(id)]), bounds)
      ensures EndsUp(old(orders[id].order).(id := newId, price := newPrice), mid, Now())
      ensures TrailedSince(mid, bounds.buy, bounds.sell, Now())
      ensures var o := old(orders[id].order).(id := newId, price := newPrice);
              && Legal(mid.exchange, Enter(newId, ClaimOf(o))) && Arrived(variant, o, mid, added)
              && Activated(variant.bothFlags, added, Now())
              && forall prices: set<Price> :: old(Calm(exchange, prices)) && (o.CanRest() ==> newPrice in prices) ==>
                   BuysWait(exchange)
    {
      hide Consistent, Replay, Legal, Settled, Idle, Extends, Finished, Calm, BuysWait, Arrived, LoneDue, LoneGone,
           TakenLevel, Dropped, Onward, EndsUp, TrailedSince, StopsShown, Begun;
      ghost var v := Now();
      var o := orders[id].order.(id := newId, price := newPrice);
      Dropping(id);
      DroppedInStep(v, id);
      assert o.typ.IsStop() ==> ParkedIn(exchange, id) && exchange.booked[id].claim.side == o.side
                                && exchange.booked[id].phase.terms == TermsOf(o) by {
        Standing(id);
      }
      DeleteOrder(id, None);
      mid, bounds := Now(), Here();
      ghost var x := HasBegun(o);
      AddOrder(o);
      added := Now();
      ghost var here := Here();
      ActivateAll();
      OnwardFurther(bounds.(log := Begun(o, mid)), here, Here());
      TrailedNow(mid, x, bounds.(log := Begun(o, mid)));
      EndsUpStill(o, mid, added, Now());
      forall prices: set<Price> | Calm(v.exchange, prices) && (o.CanRest() ==> newPrice in prices) ensures BuysWait(exchange) {
        ModifiedCalmly(variant, v.exchange, id, v.log + [Withdraw(id)], mid, o, added, prices);
      }
    }

    /** The exchange when a new order has come in and, if it waits, has been parked. */
    lemma HasBegun(o: Order) returns (x: State)
      requires Rep() && o.id !in orders && exchange.incoming == map[]
      ensures Replay(Begun(o, Now())) == Some(x) && StopsShown(Now(), x)
      ensures Quiet(exchange) ==> Quiet(x)
    {
      hide Consistent, Replay, StopsShown, WaitsAt, Quiet;
      NotBooked(o.id);
      StopsAreShown(Now());
      StopsShownStill(Now(), o, exchange, Enter(o.id, ClaimOf(o)));
      ReplayAppend(log, exchange, Enter(o.id, ClaimOf(o)));
      if Quiet(exchange) {
        QuietStep(exchange, Enter(o.id, ClaimOf(o)));
      }
      x := Apply(exchange, Enter(o.id, ClaimOf(o)));
      if WaitsAt(o, lastTradedPrice) {
        MayPark(exchange, o);
        var e := Park(o.id, WaitingTerms(o, lastTradedPrice));
        StopsShownStill(Now(), o, x, e);
        ReplayAppend(log + [Enter(o.id, ClaimOf(o))], x, e);
        if Quiet(exchange) {
          QuietStep(x, e);
        }
        x := Apply(x, e);
      } else {
        assert Begun(o, Now()) == log + [Enter(o.id, ClaimOf(o))];
      }
    }

    /** What `Dropped` means for the book as it is. */
    lemma Dropping(id: Id)
      requires Rep() && id in orders
      ensures orders[id].order.id == id && Legal(exchange, Withdraw(id))
      ensures Placed(id, orders[id], levels) && orders[id].order.open <= levels[orders[id].at].volume
      ensures Dropped(Now(), id) == View(orders - {id}, TakenLevel(levels, orders[id]), lastTradedPrice, log + [Withdraw(id)],
                                         Apply(exchange, Withdraw(id)))
    {
      hide Consistent, Replay, TakenLevel, Placed;
      IndexedIsBooked(orders, levels, exchange.booked, id);
    }

    /** Writes back an order whose open quantity went down, and lowers its level's volume with it. */
    method ReduceOrder(o: Order, last: Price, ghost e: Event)
      requires Rep() && Live() && o.id in orders
      requires o.typ == orders[o.id].order.typ && TermsOf(o) == TermsOf(orders[o.id].order)
      requires Home(o) == orders[o.id].at && o.open <= orders[o.id].order.open
      requires Legal(exchange, e)
      requires Apply(exchange, e).booked == exchange.booked[o.id := exchange.booked[o.id].(claim := ClaimOf(o))]
      requires Apply(exchange, e).incoming == exchange.incoming && Apply(exchange, e).Last() == last
      modifies this`orders, this`levels, this`log, this`exchange, this`lastTradedPrice
      ensures Rep() && LiveBut(orders, {o.id}) && (o.open > 0 ==> Live())
      ensures OnlyReduced(old(Now()), o.id, Now()) && o.id in orders && orders[o.id].order == o
      ensures lastTradedPrice == last && log == old(log) + [e] && exchange.incoming == old(exchange.incoming)
      ensures StopIds() == old(StopIds())
    {
      hide Linked, Mirrored, Fifo, Replay;
      ghost var before := exchange;
      Record(e);
      ConsistentReduce(orders, levels, before, exchange, o);
      var at, amount := orders[o.id].at, orders[o.id].order.open - o.open;
      orders := orders[o.id := Entry(o, at)];
      levels := levels[at := levels[at].ReduceVolume(amount)];
      lastTradedPrice := last;
    }

    /** The end of cancelling and executing: an order without open quantity goes, and what is due is activated. */
    method DropIfFilled(id: Id)
      requires Rep() && LiveBut(orders, {id}) && id in orders && exchange.incoming == map[]
      requires orders[id].order.open > 0 ==> Live()
      modifies this
      ensures Ready() && Settled()
      ensures Ended(old(Now()), id, old(trailingBuyPrice), old(trailingSellPrice))
    {
      hide Consistent, Replay, LiveBut, Settled, Idle, Extends, Finished, Calm, BuysWait, LoneDue, LoneGone, TakenLevel, Dropped,
           Uncontested, Onward, TrailedSince, StopsShown;
      ghost var v := Now();
      Dropping(id);
      StopsAreShown(v);
      OnwardSelf(Here());
      if orders[id].order.open == 0 {
        Standing(id);
        OnwardBy(Here(), Here(), exchange, Withdraw(id));
        if Quiet(exchange) {
          QuietStep(exchange, Withdraw(id));
        }
        ReplayAppend(log, exchange, Withdraw(id));
        DroppedInStep(v, id);
        DeleteOrder(id, None);
        OnwardFurther(old(Here()), old(Here()).(log := v.log + [Withdraw(id)]), Here());
      }
      if Quiet(v.exchange) {
        RepricesAreQuiet(if v.orders[id].order.open == 0 then v.log + [Withdraw(id)] else v.log, log);
      }
      ghost var mid := Here();
      ActivateAll();
      FinishedFurther(variant.bothFlags, v.log, mid.log, log);
      OnwardFurther(old(Here()), mid, Here());
      CalmFrom(v.log, v.exchange);
      TrailedNow(v, v.exchange, old(Here()));
    }

    /** How cancelling and executing end once the book is `v` and the thresholds are `buy` and `sell`: the order
        stays or, if nothing of it is open, goes; what is due is activated, and if nothing is, that is all. */
    ghost predicate Ended(v: View, id: Id, buy: Price, sell: Price)
      reads this
    {
      && InStep(v) && id in v.orders
      && (v.orders[id].order.open == 0 ==> id !in orders)
      && TrailedSince(v, buy, sell, Now()) && Onward(Moment(v.log, buy, sell), Here())
      && (Quiet(v.exchange) ==> OnlyReprices(if v.orders[id].order.open == 0 then v.log + [Withdraw(id)] else v.log, log))
      && orders.Keys <= v.orders.Keys && Extends(v.log, log) && Finished(variant.bothFlags, v.log, log)
      && (forall prices: set<Price> :: Calm(v.exchange, prices) ==> BuysWait(exchange))
      && (Idle(v.levels, v.last) ==> Now() == if v.orders[id].order.open == 0 then Dropped(v, id) else v)
      && (v.orders[id].order.open > 0 && !variant.bothFlags ==>
            forall s, k :: LoneDue(v.orders, v.levels, v.last, s, k) ==>
              LoneGone(v.orders, v.levels, s, k, orders, levels, lastTradedPrice))
    }

    /** Cancels an order down to the given open quantity, which makes the book `v`; at zero the order goes. */
    method CancelOrder(id: Id, quantity: nat) returns (ghost v: View)
      requires Ready() && id in orders && quantity <= orders[id].order.open
      modifies this
      ensures Ready() && Settled()
      ensures CancelledDown(old(Now()), id, quantity, v)
      ensures Ended(v, id, old(trailingBuyPrice), old(trailingSellPrice))
      ensures quantity == 0 ==> id !in orders
    {
      hide Consistent, Replay, LiveBut, Settled, Linked, TrailedSince, OnlyReduced, Calm, BuysWait, Finished, Extends;
      Standing(id);
      ReduceOrder(orders[id].order.SetQuantity(quantity), lastTradedPrice, Amend(id, quantity));
      v := Now();
      DropIfFilled(id);
    }

    lemma Standing(id: Id)
      requires Rep() && id in orders
      ensures orders[id].order.id == id && Home(orders[id].order) == orders[id].at
      ensures id in exchange.booked && Mirrors(orders[id].order, exchange.booked[id])
    {
      IndexedIsBooked(orders, levels, exchange.booked, id);
    }

    /** Executes an order, up to its open quantity, at a price given from outside, which makes the book `v`; an
        order that is filled goes. */
    method ExecuteOrderAt(id: Id, quantity: nat, price: Price) returns (ghost v: View)
      requires Ready() && id in orders
      modifies this
      ensures Ready() && Settled()
      ensures ExecutedAt(old(Now()), id, quantity, price, v)
      ensures Ended(v, id, old(trailingBuyPrice), old(trailingSellPrice))
      ensures quantity >= old(orders[id].order.open) ==> id !in orders
    {
      hide Consistent, Replay, LiveBut, Settled, Linked, TrailedSince, OnlyReduced, Calm, BuysWait, Finished, Extends;
      Standing(id);
      var amount := Min(quantity, orders[id].order.open);
      ReduceOrder(orders[id].order.Execute(price, amount), price, Execute(id, amount, price));
      v := Now();
      DropIfFilled(id);
    }

    /** Executes an order at its own price. */
    method ExecuteOrder(id: Id, quantity: nat) returns (ghost v: View)
      requires Ready() && id in orders
      modifies this
      ensures Ready() && Settled()
      ensures ExecutedAt(old(Now()), id, quantity, old(orders[id].order.price), v)
      ensures Ended(v, id, old(trailingBuyPrice), old(trailingSellPrice))
      ensures quantity >= old(orders[id].order.open) ==> id !in orders
    {
      v := ExecuteOrderAt(id, quantity, orders[id].order.price);
    }

    // -------------------------------------------------------------------------------------------
    // What holds whenever the book is in step with the exchange, at every nested call too
    // -------------------------------------------------------------------------------------------

    /** The best buy is below the best sell. */
    lemma NeverCrossedNow(buy: Key, sell: Key)
      requires Rep()
      requires buy in levels && buy.shelf == Shelf(Limits, Buy)
      requires sell in levels && sell.shelf == Shelf(Limits, Sell)
      ensures buy.price < sell.price
    {
      LevelsUncrossed(orders, levels, log, buy, sell);
    }

    /** Every indexed order has executed what the log says; its quantity is what is open plus what is executed
        exactly if the log says so, and always if it was never cancelled in part. */
    lemma AccountedFor(id: Id)
      requires Rep() && id in orders
      ensures orders[id].order.executed == Filled(log, id)
      ensures orders[id].order.quantity == orders[id].order.open + orders[id].order.executed <==> BalancedByLog(log, id)
      ensures (forall e | e in log :: KeepsBalance(e, id)) ==>
                orders[id].order.quantity == orders[id].order.open + orders[id].order.executed
    {
      Standing(id);
      NotInFlight(id);
      ExecutedIsLogged(log, id);
      BalancedExactly(log, id);
      if forall e | e in log :: KeepsBalance(e, id) {
        BalancedUnlessCancelled(log, id);
      }
    }

    /** The last traded price is that of the last trade or reported execution. */
    lemma LastPriceNow()
      requires Rep()
      ensures lastTradedPrice == LastPrice(log)
    {
      LastIsLogged(log);
    }

    /** As written, one lone activation leaves the stop buys quiet exactly if all the others wait above the
        price it traded at: the threshold read before the loop is not read again. */
    method ActivateLoneStopBuy(ghost id: Id, ghost k: Key)
      requires Rep() && Live() && !variant.bothFlags
      requires LoneDue(orders, levels, lastTradedPrice, id, k)
      modifies this
      ensures Nested() && Settled()
      ensures BuysWait(exchange) <==>
              forall j | j in old(levels) && j.shelf == Shelf(Stops, Buy) && j != old(orders[id].at) ::
                j.price > MarketPriceFor(Buy, k.price)
    {
      hide Consistent, Replay, LiveBut, LoneDue, LoneGone, BuysWait, QuietOn;
      ActivateStopOrders();
      LoneLeavesDue(old(orders), old(levels), old(lastTradedPrice), id, k, orders, levels, lastTradedPrice);
      BuysTell(orders, levels, exchange);
    }
  }
}
