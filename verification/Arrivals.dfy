/** What adding an order to the book amounts to. */
module Arrivals {
  import opened BookState
  import opened Exchange
  import opened GreedyFill
  import opened Handling
  import opened Levels
  import opened Options
  import opened Orders
  import opened QuietBook
  import opened Quiescence
  import opened Waiting

  /** The book at one moment. */
  datatype View = View(orders: Index, levels: LevelMap, last: Price, log: seq<Event>, exchange: State)

  /** The book is in step with the reference exchange, and its log is a legal run of that exchange. */
  ghost predicate InStep(v: View) {
    && Consistent(v.orders, v.levels, v.exchange.booked)
    && v.exchange.Last() == v.last
    && Replay(v.log) == Some(v.exchange)
  }

  ghost function StopsOf(orders: Index): set<Id> {
    set id | id in orders && orders[id].order.typ.IsStop()
  }

  /** What taking in an order does: a stop order that is not due is parked; another order is matched to its
      end, exactly as `Handled` says if nothing is activated meanwhile, and simply rests if nothing crosses it. */
  ghost predicate TakenIn(variant: Variant, order: Order, v: View, w: View)
    requires order.id in v.exchange.incoming && v.exchange.incoming[order.id] == ClaimOf(order)
  {
    var o := Arriving(order, v.last);
    if o.typ.IsStop() then
      && w.orders == Added(v.orders, o) && w.levels == AddedLevel(v.levels, o) && w.last == v.last
      && Legal(v.exchange, Park(order.id, TermsOf(o))) && w.exchange == Apply(v.exchange, Park(order.id, TermsOf(o)))
      && w.log == v.log + [Park(order.id, TermsOf(o))]
    else
      && Extends(v.log, w.log) && Concluded(w.log, o, Passes(variant, v.exchange, o)) && StopsOf(w.orders) <= StopsOf(v.orders)
      && (Undisturbed(v.exchange, ClaimOf(o)) ==> Orderly(v.exchange) && w.exchange == Handled(variant, v.exchange, o))
      && (Uncontested(v.exchange, ClaimOf(o)) && Stays(o, o.open) ==>
            w.orders == Added(v.orders, o) && w.levels == AddedLevel(v.levels, o) && w.last == v.last)
  }

  /** What activation does: it comes to its end, changes nothing if nothing is due, and leaves stop buys quiet
      if it begins calm. */
  ghost predicate Activated(bothFlags: bool, v: View, w: View) {
    && Extends(v.log, w.log) && Finished(bothFlags, v.log, w.log) && StopsOf(w.orders) <= StopsOf(v.orders)
    && (Idle(v.levels, v.last) ==> w == v)
    && forall prices: set<Price> :: Calm(v.exchange, prices) ==> BuysWait(w.exchange)
  }

  /** What adding an order does: it enters, is parked or matched to its end, and what is due then is activated.
      If nothing was due before and nothing is activated while it is matched, the outcome is exact. */
  ghost predicate Arrived(variant: Variant, order: Order, v: View, w: View)
    requires Legal(v.exchange, Enter(order.id, ClaimOf(order)))
  {
    var o := Arriving(order, v.last);
    var entered, x := v.log + [Enter(order.id, ClaimOf(order))], Apply(v.exchange, Enter(order.id, ClaimOf(order)));
    if o.typ.IsStop() then
      var parked := entered + [Park(order.id, TermsOf(o))];
      && Extends(parked, w.log) && Finished(variant.bothFlags, parked, w.log)
      && Legal(x, Park(order.id, TermsOf(o)))
      && (forall prices: set<Price> :: Calm(Apply(x, Park(order.id, TermsOf(o))), prices) ==> BuysWait(w.exchange))
      && (Idle(v.levels, v.last) && !o.typ.IsTrailing() ==>
            w == View(Added(v.orders, o), AddedLevel(v.levels, o), v.last, parked, Apply(x, Park(order.id, TermsOf(o)))))
    else
      && Extends(entered, w.log) && Finished(variant.bothFlags, entered, w.log) && StopsOf(w.orders) <= StopsOf(v.orders)
      && (exists n | |entered| <= n <= |w.log| :: Concluded(w.log[..n], o, Passes(variant, x, o)))
      && (forall prices: set<Price> :: Calm(x, prices) ==> BuysWait(w.exchange))
      && (Idle(v.levels, v.last) && Undisturbed(x, ClaimOf(o)) ==> Orderly(x) && w.exchange == Handled(variant, x, o))
      && (Idle(v.levels, v.last) && Uncontested(x, ClaimOf(o)) && Stays(o, o.open) ==>
            w.orders == Added(v.orders, o) && w.levels == AddedLevel(v.levels, o) && w.last == v.last)
  }

  ghost function Entered(v: View, order: Order): View
    requires Legal(v.exchange, Enter(order.id, ClaimOf(order)))
  {
    v.(log := v.log + [Enter(order.id, ClaimOf(order))], exchange := Apply(v.exchange, Enter(order.id, ClaimOf(order))))
  }

  /** Entering changes nothing for the orders in the book. */
  lemma EnteredInStep(v: View, order: Order)
    requires InStep(v) && Legal(v.exchange, Enter(order.id, ClaimOf(order)))
    ensures InStep(Entered(v, order))
  {
    hide Consistent;
    ReplayAppend(v.log, v.exchange, Enter(order.id, ClaimOf(order)));
  }

  lemma StopArrived(variant: Variant, order: Order, v: View, w: View, z: View)
    requires InStep(v) && Legal(v.exchange, Enter(order.id, ClaimOf(order)))
    requires Arriving(order, v.last).typ.IsStop()
    requires TakenIn(variant, order, Entered(v, order), w) && Activated(variant.bothFlags, w, z)
    ensures Arrived(variant, order, v, z)
  {
    var o := Arriving(order, v.last);
    if Idle(v.levels, v.last) && !o.typ.IsTrailing() {
      IdleWithStop(v.levels, v.last, o);
    }
    hide Idle, Consistent, Replay, AddedLevel, Extends, Finished, Calm, BuysWait;
  }

  lemma OrderArrived(variant: Variant, order: Order, v: View, w: View, z: View)
    requires InStep(v) && InStep(w) && Legal(v.exchange, Enter(order.id, ClaimOf(order)))
    requires !Arriving(order, v.last).typ.IsStop()
    requires TakenIn(variant, order, Entered(v, order), w) && Activated(variant.bothFlags, w, z)
    ensures Arrived(variant, order, v, z)
  {
    var o, u := Arriving(order, v.last), Entered(v, order);
    EnteredInStep(v, order);
    OrderAtRest(variant, order, v, w);
    ExtendsFurther(u.log, w.log, z.log);
    FinishedFurther(variant.bothFlags, u.log, w.log, z.log);
    ExtendsIsPrefix(w.log, z.log);
    ExtendsIsPrefix(u.log, w.log);
    forall prices: set<Price> | Calm(u.exchange, prices) ensures Calm(w.exchange, prices) {
      CalmKept(u.log, w.log, prices);
    }
    hide Idle, Consistent, Replay, Extends, Finished, Calm, BuysWait, Handled, Undisturbed, Uncontested, Orderly, Passes, Legal,
         Apply, Concluded, Arriving, AddedLevel;
    assert Concluded(z.log[..|w.log|], o, Passes(variant, u.exchange, o));
  }

  /** An undisturbed order leaves nothing due, and so does one that just rests. */
  lemma OrderAtRest(variant: Variant, order: Order, v: View, w: View)
    requires InStep(v) && InStep(w) && Legal(v.exchange, Enter(order.id, ClaimOf(order)))
    requires !Arriving(order, v.last).typ.IsStop() && TakenIn(variant, order, Entered(v, order), w)
    ensures var o, x := Arriving(order, v.last), Entered(v, order).exchange;
            Idle(v.levels, v.last) && (Undisturbed(x, ClaimOf(o)) || (Uncontested(x, ClaimOf(o)) && Stays(o, o.open))) ==>
              Idle(w.levels, w.last)
  {
    var o, x := Arriving(order, v.last), Entered(v, order).exchange;
    if Idle(v.levels, v.last) {
      if Undisturbed(x, ClaimOf(o)) {
        IdleTells(v.orders, v.levels, v.exchange);
        EnteredAtRest(v, order);
        HandledAtRest(variant, x, o);
        IdleTells(w.orders, w.levels, w.exchange);
      } else if Uncontested(x, ClaimOf(o)) && Stays(o, o.open) {
        IdleWithLimit(v.levels, v.last, o);
      }
    }
    hide Idle, Consistent, Handled, AtRest, Undisturbed;
  }

  lemma EnteredAtRest(v: View, order: Order)
    requires Legal(v.exchange, Enter(order.id, ClaimOf(order))) && AtRest(v.exchange)
    ensures AtRest(Entered(v, order).exchange)
  {
  }

  lemma IdleWithLimit(levels: LevelMap, last: Price, o: Order)
    requires Idle(levels, last) && o.typ.Limit?
    ensures Idle(AddedLevel(levels, o), last)
  {
  }

  /** A limit order that nothing contests just rests. */
  lemma JustRests(variant: Variant, o: Order, v: View, w: View)
    requires Legal(v.exchange, Enter(o.id, ClaimOf(o))) && Arrived(variant, o, v, w) && Idle(v.levels, v.last)
    requires o.typ.Limit? && Stays(o, o.open) && Uncontested(v.exchange, ClaimOf(o))
    ensures w.orders == Added(v.orders, o) && w.levels == AddedLevel(v.levels, o) && w.last == v.last
  {
    assert Uncontested(Entered(v, o).exchange, ClaimOf(o));
    hide Uncontested, Idle, Undisturbed, Extends, Finished, Calm, BuysWait, Concluded, Passes, Handled, Orderly, Added, AddedLevel;
  }

  /** An undisturbed order is handled as the exchange alone would. */
  lemma UndisturbedArrives(variant: Variant, o: Order, v: View, w: View)
    requires Legal(v.exchange, Enter(o.id, ClaimOf(o))) && Arrived(variant, o, v, w) && Idle(v.levels, v.last)
    requires !o.typ.IsStop() && Undisturbed(Entered(v, o).exchange, ClaimOf(o))
    ensures Orderly(Entered(v, o).exchange) && w.exchange == Handled(variant, Entered(v, o).exchange, o)
  {
    hide Uncontested, Idle, Undisturbed, Extends, Finished, Calm, BuysWait, Concluded, Passes, Handled, Orderly, Legal, Apply;
  }

  /** Fill-or-kill in the book itself, if nothing was due before and nothing is activated while the order is
      matched: it keeps its promise with the advancing scan, and as written exactly if enough crosses the order
      or nothing does. */
  lemma FillOrKillArrives(variant: Variant, o: Order, v: View, w: View)
    requires InStep(v) && Legal(v.exchange, Enter(o.id, ClaimOf(o))) && Arrived(variant, o, v, w)
    requires o.tif.FOK? && !o.typ.IsStop() && Idle(v.levels, v.last) && Undisturbed(Entered(v, o).exchange, ClaimOf(o))
    ensures Orderly(Entered(v, o).exchange) && w.exchange == Handled(variant, Entered(v, o).exchange, o)
    ensures var x := Entered(v, o).exchange;
            AllOrNothing(variant, x, o) <==>
              variant.advancing || Volume(x.booked, Crossing(x, ClaimOf(o))) >= o.open || Crossing(x, ClaimOf(o)) == {}
  {
    UndisturbedArrives(variant, o, v, w);
    hide Arrived, Idle, Undisturbed, Handled, AllOrNothing, Consistent, Replay, Crossing, Volume;
    FillOrKill(variant, Entered(v, o).exchange, o);
  }

  /** A plain stop order that is not due just waits. */
  lemma JustWaits(variant: Variant, o: Order, v: View, w: View)
    requires Legal(v.exchange, Enter(o.id, ClaimOf(o))) && Arrived(variant, o, v, w) && Idle(v.levels, v.last)
    requires o.typ.IsStop() && !o.typ.IsTrailing() && !Due(o.side, o.stopPrice, MarketPriceFor(o.side, v.last))
    ensures w.orders == Added(v.orders, o) && w.levels == AddedLevel(v.levels, o) && w.last == v.last
    ensures Idle(w.levels, w.last)
  {
    IdleWithStop(v.levels, v.last, o);
    hide Idle, Extends, Finished, Calm, BuysWait, Added, AddedLevel;
  }

  // ---------------------------------------------------------------------------------------------
  // Other changes of one order
  // ---------------------------------------------------------------------------------------------

  /** Order `id` alone has changed, and lost as much of its open quantity as its level of its volume. */
  ghost predicate OnlyReduced(u: View, id: Id, v: View) {
    && id in u.orders && id in v.orders && v.orders == u.orders[id := v.orders[id]] && v.orders[id].at == u.orders[id].at
    && u.orders[id].at in u.levels
    && var level, less := u.levels[u.orders[id].at], u.orders[id].order.open - v.orders[id].order.open;
    && 0 <= less <= level.volume && v.levels == u.levels[u.orders[id].at := level.(volume := level.volume - less)]
  }

  /** From `u` to `v` order `id` was cancelled down to `quantity`. */
  ghost predicate CancelledDown(u: View, id: Id, quantity: nat, v: View) {
    && OnlyReduced(u, id, v) && InStep(v) && v.last == u.last && v.log == u.log + [Amend(id, quantity)]
    && v.orders[id].order == u.orders[id].order.(quantity := quantity, open := quantity)
  }

  /** From `u` to `v` as much of `quantity` as order `id` had open was executed at `price`. */
  ghost predicate ExecutedAt(u: View, id: Id, quantity: nat, price: Price, v: View) {
    && OnlyReduced(u, id, v) && InStep(v) && v.last == price
    && var o := u.orders[id].order;
    && var amount := if quantity < o.open then quantity else o.open;
    && v.log == u.log + [Execute(id, amount, price)]
    && v.orders[id].order == o.(open := o.open - amount, executed := o.executed + amount,
                                lastExecutedPrice := price % 0x1_0000_0000, lastExecutedQuantity := amount)
  }

  /** The book without an order. */
  ghost function Dropped(v: View, id: Id): View
    requires InStep(v) && id in v.orders
  {
    IndexedIsBooked(v.orders, v.levels, v.exchange.booked, id);
    View(v.orders - {id}, TakenLevel(v.levels, v.orders[id]), v.last, v.log + [Withdraw(id)], Apply(v.exchange, Withdraw(id)))
  }

  lemma TakenKeys(levels: LevelMap, e: Entry)
    requires e.at in levels && e.order.id in levels[e.at].ids && e.order.open <= levels[e.at].volume
    ensures TakenLevel(levels, e).Keys <= levels.Keys
  {
  }

  lemma DroppedInStep(v: View, id: Id)
    requires InStep(v) && id in v.orders
    ensures InStep(Dropped(v, id))
    ensures Idle(v.levels, v.last) ==> Idle(Dropped(v, id).levels, v.last)
  {
    hide Replay, Idle, Consistent, TakenLevel, Placed;
    ConsistentTake(v.orders, v.levels, v.exchange, id, None);
    ReplayAppend(v.log, v.exchange, Withdraw(id));
    TakenKeys(v.levels, v.orders[id]);
    if Idle(v.levels, v.last) {
      IdleWithFewer(v.levels, TakenLevel(v.levels, v.orders[id]), v.last);
    }
  }

  /** Withdrawing an order and entering it anew at another price leaves a calm book calm, if that price belongs. */
  lemma ModifiedCalmly(variant: Variant, x: State, id: Id, base: seq<Event>, mid: View, o: Order, added: View,
                       prices: set<Price>)
    requires Legal(x, Withdraw(id)) && Replay(base) == Some(Apply(x, Withdraw(id))) && Extends(base, mid.log)
    requires InStep(mid) && InStep(added)
    requires Legal(mid.exchange, Enter(o.id, ClaimOf(o))) && Arrived(variant, o, mid, added)
    requires o.typ.IsStop() ==>
               ParkedIn(x, id) && x.booked[id].claim.side == o.side && x.booked[id].phase.terms == TermsOf(o)
    requires Calm(x, prices) && (o.CanRest() ==> o.price in prices)
    ensures Calm(added.exchange, prices)
  {
    hide Consistent, Replay, Legal, Apply, Calm, Extends, Arrived, Fewer;
    CalmStep(x, Withdraw(id), prices);
    CalmKept(base, mid.log, prices);
    ExtendsFewer(base, mid.log);
    CalmEntered(mid.exchange, o, prices);
    if Arriving(o, mid.last).typ.IsStop() {
      StopArrivedLegally(variant, o, mid, added);
      CalmParked(x, id, mid.exchange, o, Arriving(o, mid.last), prices);
    }
    ArrivedCalmly(variant, o, mid, added, prices);
  }

  lemma StopArrivedLegally(variant: Variant, o: Order, mid: View, added: View)
    requires Legal(mid.exchange, Enter(o.id, ClaimOf(o))) && Arrived(variant, o, mid, added)
    requires Arriving(o, mid.last).typ.IsStop()
    ensures o.typ.IsStop()
    ensures Legal(Apply(mid.exchange, Enter(o.id, ClaimOf(o))), Park(o.id, TermsOf(Arriving(o, mid.last))))
  {
    hide Legal, Apply, Extends, Finished, Calm;
  }

  /** The book stays calm while an order is added, if it is calm once the order has entered or been parked. */
  lemma ArrivedCalmly(variant: Variant, o: Order, mid: View, added: View, prices: set<Price>)
    requires InStep(mid) && InStep(added)
    requires Legal(mid.exchange, Enter(o.id, ClaimOf(o))) && Arrived(variant, o, mid, added)
    requires var a, x := Arriving(o, mid.last), Entered(mid, o).exchange;
             Calm(if a.typ.IsStop() then Apply(x, Park(o.id, TermsOf(a))) else x, prices)
    ensures Calm(added.exchange, prices)
  {
    var a, x := Arriving(o, mid.last), Entered(mid, o);
    EnteredInStep(mid, o);
    hide Consistent, Replay, Calm, Extends, Finished, BuysWait, Handled, Undisturbed, Uncontested, Orderly, Concluded, Idle;
    if a.typ.IsStop() {
      ReplayAppend(x.log, x.exchange, Park(o.id, TermsOf(a)));
      CalmKept(x.log + [Park(o.id, TermsOf(a))], added.log, prices);
    } else {
      CalmKept(x.log, added.log, prices);
    }
  }

  lemma CalmEntered(x: State, o: Order, prices: set<Price>)
    requires Calm(x, prices) && Legal(x, Enter(o.id, ClaimOf(o))) && (o.CanRest() ==> o.price in prices)
    ensures Calm(Apply(x, Enter(o.id, ClaimOf(o))), prices)
  {
    var y := Apply(x, Enter(o.id, ClaimOf(o)));
    assert forall id | WaitingBuy(y, id) :: StopAt(x, id, y.booked[id].phase.terms.price);
    FewerStops(x, y);
    CalmAmong(x, y, prices);
  }

  /** Parking an order anew where one like it waited before does not part the stop buys either. */
  lemma CalmParked(x: State, id: Id, mid: State, o: Order, a: Order, prices: set<Price>)
    requires Calm(x, prices) && Calm(mid, prices) && Legal(x, Withdraw(id)) && Fewer(Apply(x, Withdraw(id)), mid)
    requires mid.Last() == x.Last() || mid.Last() in prices
    requires Legal(mid, Enter(o.id, ClaimOf(o))) && (o.CanRest() ==> o.price in prices)
    requires a.typ.IsStop() && a == Arriving(o, mid.Last()) && Legal(Apply(mid, Enter(o.id, ClaimOf(o))), Park(o.id, TermsOf(a)))
    requires ParkedIn(x, id) && x.booked[id].claim.side == o.side && x.booked[id].phase.terms == TermsOf(o)
    ensures Calm(Apply(Apply(mid, Enter(o.id, ClaimOf(o))), Park(o.id, TermsOf(a))), prices)
  {
    var y := Apply(Apply(mid, Enter(o.id, ClaimOf(o))), Park(o.id, TermsOf(a)));
    assert a.typ == o.typ && (!o.typ.IsTrailing() ==> a == o);
    assert Priced(y, prices);
    forall i | ParkedIn(y, i) && y.booked[i].claim.side.Buy?
      ensures WaitingBuy(y, i) && exists j :: StopAt(x, j, y.booked[i].phase.terms.price)
    {
      if i == o.id {
        assert WaitingBuy(x, id) && StopAt(x, id, o.stopPrice);
      } else {
        assert WaitingBuy(mid, i) && StillParked(Apply(x, Withdraw(id)), mid, i);
        assert StopAt(x, i, y.booked[i].phase.terms.price);
      }
    }
    hide PoisedAt, Priced, Legal, Apply;
    CalmAmong(x, y, prices);
  }
}
