/** How the book's index and levels mirror the reference exchange. */
module BookState {
  import opened Exchange
  import opened GreedyFill
  import opened Levels
  import opened Options
  import opened Orders

  function ClaimOf(o: Order): Claim {
    Claim(o.side, o.CanRest(), o.LimitPrice(), o.quantity, o.open, o.executed)
  }

  /** An order with a price is bound by it, another one by nothing: any price there is will do. */
  lemma ClaimIsPrice(o: Order, price: Price)
    ensures o.typ.Limit? || o.typ.StopLimit? || o.typ.TrailingStopLimit? ==> ClaimOf(o).canRest && ClaimOf(o).limit == o.price
    ensures o.typ.Market? || o.typ.Stop? || o.typ.TrailingStop? ==> !ClaimOf(o).canRest && ClaimOf(o).Crosses(price)
    ensures ClaimOf(o).side == o.side && ClaimOf(o).open == o.open && ClaimOf(o).executed == o.executed
  {
  }

  function TermsOf(o: Order): StopTerms {
    StopTerms(o.stopPrice, o.typ.IsTrailing(), o.trail)
  }

  predicate Mirrors(o: Order, t: Ticket) {
    && t.claim == ClaimOf(o)
    && if t.phase.Resting? then o.typ.Limit? else o.typ.IsStop() && t.phase.terms == TermsOf(o)
  }

  /** The exchange has booked exactly the indexed orders; the limit orders among them rest. */
  ghost predicate Mirrored(orders: Index, booked: map<Id, Ticket>) {
    && booked.Keys == orders.Keys
    && forall id | id in orders :: Mirrors(orders[id].order, booked[id])
  }

  function ArrivalOf(booked: map<Id, Ticket>, id: Id): nat {
    if id in booked then booked[id].phase.arrived else 0
  }

  ghost predicate ByArrival(ids: seq<Id>, booked: map<Id, Ticket>) {
    forall i, j | 0 <= i < j < |ids| :: ArrivalOf(booked, ids[i]) < ArrivalOf(booked, ids[j])
  }

  /** Every level of limit orders lists them in the order they came to rest, and every level of stop orders that do
      not trail in the order they were parked. */
  ghost predicate Fifo(levels: LevelMap, booked: map<Id, Ticket>) {
    forall k | k in levels && !k.shelf.kind.Trailings? :: ByArrival(levels[k].ids, booked)
  }

  /** Only orders waiting for a stop may have no open quantity. */
  ghost predicate LiveBut(orders: Index, exempt: set<Id>) {
    forall id | id in orders && id !in exempt && orders[id].order.typ.Limit? :: orders[id].order.open > 0
  }

  ghost predicate Consistent(orders: Index, levels: LevelMap, booked: map<Id, Ticket>) {
    Linked(orders, levels) && Mirrored(orders, booked) && Fifo(levels, booked)
  }

  lemma ConsistentIsLinked(orders: Index, levels: LevelMap, booked: map<Id, Ticket>)
    requires Consistent(orders, levels, booked)
    ensures Linked(orders, levels)
  {
  }

  lemma IndexedIsBooked(orders: Index, levels: LevelMap, booked: map<Id, Ticket>, id: Id)
    requires Consistent(orders, levels, booked) && id in orders
    ensures orders[id].order.id == id && Home(orders[id].order) == orders[id].at
    ensures id in booked && Mirrors(orders[id].order, booked[id])
    ensures Placed(id, orders[id], levels) && orders[id].order.open <= levels[orders[id].at].volume
  {
    VolumeCovers(orders, levels, id);
  }

  // ---------------------------------------------------------------------------------------------
  // The front of the leading level is the order a price-time exchange serves first
  // ---------------------------------------------------------------------------------------------

  lemma FrontIsFirst(orders: Index, levels: LevelMap, x: State, k: Key)
    requires Consistent(orders, levels, x.booked)
    requires Leads(levels, k) && k.shelf.kind.Limits?
    ensures levels[k].ids != [] && levels[k].ids[0] in orders && levels[k].ids[0] in x.booked
    ensures var front := levels[k].ids[0];
            && orders[front].at == k && orders[front].order.id == front
            && Mirrors(orders[front].order, x.booked[front])
            && orders[front].order.typ.Limit? && orders[front].order.side == k.shelf.side
            && orders[front].order.price == k.price
            && x.booked[front].claim.limit == k.price && x.booked[front].RestsOn(k.shelf.side)
            && IsFirst(x, front)
  {
    assert Stocked(k, levels[k], orders);
    var front := levels[k].ids[0];
    assert Placed(front, orders[front], levels) && Mirrors(orders[front].order, x.booked[front]);
    forall id | id in x.booked && id != front && x.booked[id].RestsOn(k.shelf.side)
      ensures x.booked[front].Outranks(x.booked[id])
    {
      var e := orders[id];
      assert Placed(id, e, levels) && Mirrors(e.order, x.booked[id]);
      assert e.at.shelf == k.shelf;
      if e.at == k {
        var i := IndexOf(levels[k].ids, id);
        assert ArrivalOf(x.booked, levels[k].ids[0]) < ArrivalOf(x.booked, levels[k].ids[i]);
      } else {
        assert Ahead(k.shelf, k.price, e.at.price) && k.price != e.at.price;
      }
    }
  }

  /** If the leading opposite level does not cross a claim, no resting order does. */
  lemma LeaderDecides(orders: Index, levels: LevelMap, x: State, claim: Claim)
    requires Consistent(orders, levels, x.booked)
    requires forall k: Key | k.shelf == Shelf(Limits, claim.side.Opposite()) && Leads(levels, k) :: !claim.Crosses(k.price)
    ensures Uncontested(x, claim)
  {
    forall id | id in x.booked && x.booked[id].RestsOn(claim.side.Opposite())
      ensures !claim.Crosses(x.booked[id].claim.limit)
    {
      var e := orders[id];
      assert Placed(id, e, levels) && Mirrors(e.order, x.booked[id]);
      if claim.Crosses(e.at.price) {
        LeaderCrosses(levels, e.at, claim);
      }
    }
  }

  /** If no resting order crosses an order's price, no level is within it. */
  lemma LevelsBeyond(orders: Index, levels: LevelMap, x: State, o: Order, k: Key)
    requires Consistent(orders, levels, x.booked) && o.price == o.LimitPrice() && Uncontested(x, ClaimOf(o))
    requires k in levels && k.shelf == Shelf(Limits, o.side.Opposite())
    ensures if o.side.Buy? then k.price > o.price else k.price < o.price
  {
    assert Stocked(k, levels[k], orders);
    var front := levels[k].ids[0];
    assert Placed(front, orders[front], levels) && Mirrors(orders[front].order, x.booked[front]);
  }

  /** If any level crosses a claim, the leading one does. */
  lemma LeaderCrosses(levels: LevelMap, at: Key, claim: Claim)
    requires at in levels && at.shelf == Shelf(Limits, claim.side.Opposite()) && claim.Crosses(at.price)
    ensures exists k: Key :: k.shelf == at.shelf && Leads(levels, k) && claim.Crosses(k.price)
  {
    LeaderExists(levels, at.shelf);
    var k: Key :| k.shelf == at.shelf && Leads(levels, k);
    assert Ahead(k.shelf, k.price, at.price);
  }

  /** In a consistent book of a reachable exchange every buy level is below every sell level. */
  lemma LevelsUncrossed(orders: Index, levels: LevelMap, log: seq<Event>, buy: Key, sell: Key)
    requires Replay(log).Some? && Consistent(orders, levels, Replay(log).value.booked)
    requires buy in levels && buy.shelf == Shelf(Limits, Buy)
    requires sell in levels && sell.shelf == Shelf(Limits, Sell)
    ensures buy.price < sell.price
  {
    var x := Replay(log).value;
    NeverCrossed(log);
    assert Stocked(buy, levels[buy], orders) && Stocked(sell, levels[sell], orders);
    var b, s := levels[buy].ids[0], levels[sell].ids[0];
    assert Placed(b, orders[b], levels) && Mirrors(orders[b].order, x.booked[b]);
    assert Placed(s, orders[s], levels) && Mirrors(orders[s].order, x.booked[s]);
  }

  // ---------------------------------------------------------------------------------------------
  // Level volumes are volumes of the exchange
  // ---------------------------------------------------------------------------------------------

  function Members(ids: seq<Id>): set<Id> { set id | id in ids }

  lemma {:induction false} TotalIsVolume(ids: seq<Id>, orders: Index, x: State)
    requires Mirrored(orders, x.booked) && NoDup(ids)
    requires forall id | id in ids :: id in orders
    ensures Total(ids, orders) == Volume(x.booked, Members(ids))
  {
    if ids != [] {
      assert Mirrors(orders[ids[0]].order, x.booked[ids[0]]);
      VolumeSplit(x.booked, Members(ids), ids[0]);
      assert Members(ids) - {ids[0]} == Members(ids[1..]);
      TotalIsVolume(ids[1..], orders, x);
    }
  }

  /** The cached volume of a level is the open quantity of its orders in the exchange, and positive. */
  lemma LevelVolume(orders: Index, levels: LevelMap, x: State, k: Key)
    requires Linked(orders, levels) && Mirrored(orders, x.booked)
    requires k in levels && k.shelf.kind.Limits?
    ensures levels[k].volume == Volume(x.booked, Members(levels[k].ids))
    ensures Members(levels[k].ids) != {}
    ensures forall id | id in Members(levels[k].ids) ::
              && id in orders && orders[id].at == k
              && id in x.booked && x.booked[id].RestsOn(k.shelf.side) && x.booked[id].claim.limit == k.price
    ensures LiveBut(orders, {}) ==> levels[k].volume > 0
  {
    var ids := levels[k].ids;
    assert Stocked(k, levels[k], orders);
    TotalIsVolume(ids, orders, x);
    forall id | id in ids
      ensures id in x.booked && x.booked[id].RestsOn(k.shelf.side) && x.booked[id].claim.limit == k.price
    {
      assert Placed(id, orders[id], levels) && Mirrors(orders[id].order, x.booked[id]);
    }
    assert ids[0] in Members(ids);
    assert Placed(ids[0], orders[ids[0]], levels);
  }

  /** A crossing order stands in a level of the opposite side whose price crosses. */
  lemma CrossingIsLevelled(orders: Index, levels: LevelMap, x: State, claim: Claim, id: Id)
    requires Linked(orders, levels) && Mirrored(orders, x.booked)
    requires id in Crossing(x, claim)
    ensures id in orders && orders[id].at in levels && id in Members(levels[orders[id].at].ids)
    ensures orders[id].at.shelf == Shelf(Limits, claim.side.Opposite()) && claim.Crosses(orders[id].at.price)
  {
    assert Placed(id, orders[id], levels) && Mirrors(orders[id].order, x.booked[id]);
  }

  /** A scan of the levels in order has `ahead` still to come and has met the crossing orders `seen`. */
  ghost predicate Scanned(orders: Index, levels: LevelMap, ahead: LevelMap, x: State, claim: Claim, seen: set<Id>) {
    && ahead.Keys <= levels.Keys
    && (forall k | k in ahead :: ahead[k] == levels[k])
    && seen <= Crossing(x, claim)
    && (forall id | id in Crossing(x, claim) :: id in orders && (id in seen <==> orders[id].at !in ahead))
  }

  lemma ScanStart(orders: Index, levels: LevelMap, x: State, claim: Claim)
    requires Linked(orders, levels) && Mirrored(orders, x.booked)
    ensures Scanned(orders, levels, levels, x, claim, {})
  {
    forall id | id in Crossing(x, claim) ensures id in orders && orders[id].at in levels {
      CrossingIsLevelled(orders, levels, x, claim, id);
    }
  }

  lemma ScanVolume(orders: Index, levels: LevelMap, x: State, claim: Claim, seen: set<Id>, k: Key)
    requires Linked(orders, levels) && Mirrored(orders, x.booked) && LiveBut(orders, {})
    requires k in levels && k.shelf == Shelf(Limits, claim.side.Opposite()) && claim.Crosses(k.price)
    requires seen <= Crossing(x, claim) && seen !! Members(levels[k].ids)
    ensures var met := seen + Members(levels[k].ids);
            && met <= Crossing(x, claim)
            && Volume(x.booked, met) == Volume(x.booked, seen) + levels[k].volume
            && Volume(x.booked, met) <= Volume(x.booked, Crossing(x, claim))
    ensures levels[k].volume > 0 && Crossing(x, claim) != {}
  {
    var members := Members(levels[k].ids);
    LevelVolume(orders, levels, x, k);
    assert members <= Crossing(x, claim);
    VolumeUnion(x.booked, seen, members);
    var rest := Crossing(x, claim) - (seen + members);
    VolumeUnion(x.booked, seen + members, rest);
    assert Crossing(x, claim) == (seen + members) + rest;
  }

  /** Meeting a crossing level adds its volume. */
  lemma ScanStep(orders: Index, levels: LevelMap, ahead: LevelMap, x: State, claim: Claim, seen: set<Id>, k: Key)
    requires Linked(orders, levels) && Mirrored(orders, x.booked) && LiveBut(orders, {})
    requires Scanned(orders, levels, ahead, x, claim, seen)
    requires k in ahead && k.shelf == Shelf(Limits, claim.side.Opposite()) && claim.Crosses(k.price)
    ensures k in levels && ahead[k] == levels[k] && levels[k].volume > 0 && Crossing(x, claim) != {}
    ensures var met := seen + Members(levels[k].ids);
            && Scanned(orders, levels, ahead - {k}, x, claim, met)
            && Volume(x.booked, met) == Volume(x.booked, seen) + levels[k].volume
            && Volume(x.booked, met) <= Volume(x.booked, Crossing(x, claim))
  {
    hide Mirrored, LiveBut, Volume, Crossing, Placed;
    var members := Members(levels[k].ids);
    assert forall id | id in members :: id in orders && orders[id].at == k by {
      assert Stocked(k, levels[k], orders);
    }
    hide Linked;
    ScanVolume(orders, levels, x, claim, seen, k);
    forall id | id in Crossing(x, claim) ensures id in seen + members <==> orders[id].at !in ahead - {k} {
      CrossingIsLevelled(orders, levels, x, claim, id);
    }
  }

  /** Once the next level does not cross, every crossing order has been met. */
  lemma ScanEnd(orders: Index, levels: LevelMap, ahead: LevelMap, x: State, claim: Claim, seen: set<Id>)
    requires Linked(orders, levels) && Mirrored(orders, x.booked)
    requires Scanned(orders, levels, ahead, x, claim, seen)
    requires forall k: Key | k.shelf == Shelf(Limits, claim.side.Opposite()) && Leads(ahead, k) :: !claim.Crosses(k.price)
    ensures Crossing(x, claim) == seen
  {
    forall id | id in Crossing(x, claim) ensures id in seen {
      CrossingIsLevelled(orders, levels, x, claim, id);
      var at := orders[id].at;
      if at in ahead {
        LeaderCrosses(ahead, at, claim);
      }
    }
  }

  // ---------------------------------------------------------------------------------------------
  // Each change of the book matches an event of the exchange
  // ---------------------------------------------------------------------------------------------

  lemma ByArrivalFrame(ids: seq<Id>, b0: map<Id, Ticket>, b1: map<Id, Ticket>)
    requires ByArrival(ids, b0)
    requires forall id | id in ids :: ArrivalOf(b0, id) == ArrivalOf(b1, id)
    ensures ByArrival(ids, b1)
  {
  }

  lemma ByArrivalWithout(ids: seq<Id>, booked: map<Id, Ticket>, id: Id)
    requires ByArrival(ids, booked) && id in ids
    ensures ByArrival(Without(ids, id), booked)
  {
  }

  /** The orders of a level all arrived before now. */
  lemma ArrivedBefore(orders: Index, levels: LevelMap, log: seq<Event>, x: State, k: Key, id: Id)
    requires Replay(log) == Some(x) && Linked(orders, levels) && Mirrored(orders, x.booked)
    requires k in levels && id in levels[k].ids
    ensures id in orders && id in x.booked && ArrivalOf(x.booked, id) < x.clock
  {
    assert Stocked(k, levels[k], orders);
    assert Placed(id, orders[id], levels) && Mirrors(orders[id].order, x.booked[id]);
    ArrivalIsLogged(log, id);
  }

  /** What the exchange keeps of an order that is booked now. */
  function TicketOf(o: Order, x: State): Ticket {
    Ticket(ClaimOf(o), if o.typ.Limit? then Resting(x.clock) else Parked(TermsOf(o), |x.quotes|, x.clock))
  }

  lemma FifoAdd(orders: Index, levels: LevelMap, log: seq<Event>, x: State, o: Order, booked: map<Id, Ticket>)
    requires Replay(log) == Some(x) && Consistent(orders, levels, x.booked) && o.id !in orders
    requires booked == x.booked[o.id := TicketOf(o, x)]
    requires !o.typ.Market?
    ensures Fifo(AddedLevel(levels, o), booked)
  {
    var levels' := AddedLevel(levels, o);
    forall k | k in levels' && !k.shelf.kind.Trailings? ensures ByArrival(levels'[k].ids, booked) {
      var ids := LevelAt(levels, k).ids;
      assert ByArrival(ids, x.booked);
      forall id | id in ids
        ensures id in orders && id in x.booked && ArrivalOf(x.booked, id) < x.clock
      {
        ArrivedBefore(orders, levels, log, x, k, id);
      }
      ByArrivalGrow(ids, x, o, booked);
    }
  }

  lemma ByArrivalGrow(ids: seq<Id>, x: State, o: Order, booked: map<Id, Ticket>)
    requires ByArrival(ids, x.booked) && o.id !in ids
    requires forall id | id in ids :: id in x.booked && ArrivalOf(x.booked, id) < x.clock
    requires booked == x.booked[o.id := TicketOf(o, x)]
    ensures ByArrival(ids, booked)
    ensures ByArrival(ids + [o.id], booked)
  {
  }

  lemma MirroredAdd(orders: Index, x: State, o: Order, x': State)
    requires Mirrored(orders, x.booked) && !o.typ.Market?
    requires x'.booked == x.booked[o.id := TicketOf(o, x)]
    ensures Mirrored(Added(orders, o), x'.booked)
  {
    forall id | id in Added(orders, o) ensures Mirrors(Added(orders, o)[id].order, x'.booked[id]) {
      assert id != o.id ==> Mirrors(orders[id].order, x.booked[id]);
    }
  }

  /** Inserting an order is the event `Rest` or `Park`. */
  lemma ConsistentAdd(orders: Index, levels: LevelMap, log: seq<Event>, x: State, o: Order)
    requires Replay(log) == Some(x) && Consistent(orders, levels, x.booked)
    requires o.id in x.incoming && x.incoming[o.id] == ClaimOf(o)
    requires !o.typ.Market? && Legal(x, Booking(o))
    ensures o.id !in orders
    ensures Consistent(Added(orders, o), AddedLevel(levels, o), Apply(x, Booking(o)).booked)
  {
    InOnePlace(log);
    LinkedAdd(orders, levels, o);
    var x' := Apply(x, Booking(o));
    FifoAdd(orders, levels, log, x, o, x'.booked);
    MirroredAdd(orders, x, o, x');
  }

  function Booking(o: Order): Event {
    if o.typ.Limit? then Rest(o.id) else Park(o.id, TermsOf(o))
  }

  /** An order leaves the book because its stop price is due by a quote, or for another reason. */
  function Unbooking(id: Id, quote: Option<nat>): Event {
    if quote.Some? then Trigger(id, quote.value) else Withdraw(id)
  }

  ghost predicate MayLeave(x: State, id: Id, quote: Option<nat>) {
    quote.Some? ==> Legal(x, Trigger(id, quote.value))
  }

  lemma ByArrivalTake(ids: seq<Id>, b0: map<Id, Ticket>, id: Id, b1: map<Id, Ticket>)
    requires ByArrival(ids, b0) && NoDup(ids) && id in ids && b1 == b0 - {id}
    ensures ByArrival(Without(ids, id), b1)
  {
    ByArrivalWithout(ids, b0, id);
    WithoutMembers(ids, id);
    ByArrivalFrame(Without(ids, id), b0, b1);
    hide ByArrival, NoDup;
  }

  lemma FifoTake(orders: Index, levels: LevelMap, x: State, id: Id, booked: map<Id, Ticket>)
    requires Consistent(orders, levels, x.booked) && id in orders
    requires booked == x.booked - {id}
    requires Placed(id, orders[id], levels) && orders[id].order.open <= levels[orders[id].at].volume
    ensures Fifo(TakenLevel(levels, orders[id]), booked)
  {
    var levels' := TakenLevel(levels, orders[id]);
    forall k | k in levels' && !k.shelf.kind.Trailings? ensures ByArrival(levels'[k].ids, booked) {
      assert Stocked(k, levels[k], orders) && ByArrival(levels[k].ids, x.booked);
      if k == orders[id].at {
        ByArrivalTake(levels[k].ids, x.booked, id, booked);
      } else {
        ByArrivalFrame(levels[k].ids, x.booked, booked);
      }
    }
  }

  lemma MirroredTake(orders: Index, x: State, id: Id, x': State)
    requires Mirrored(orders, x.booked)
    requires x'.booked == x.booked - {id}
    ensures Mirrored(orders - {id}, x'.booked)
  {
    forall i | i in orders - {id} ensures Mirrors((orders - {id})[i].order, x'.booked[i]) {
      assert Mirrors(orders[i].order, x.booked[i]);
    }
  }

  /** Taking an order out is the event `Withdraw`, or `Trigger` if its stop is being activated. */
  lemma ConsistentTake(orders: Index, levels: LevelMap, x: State, id: Id,
                       quote: Option<nat>)
    requires Consistent(orders, levels, x.booked) && id in orders && MayLeave(x, id, quote)
    ensures Placed(id, orders[id], levels)
    ensures orders[id].order.open <= levels[orders[id].at].volume
    ensures Mirrors(orders[id].order, x.booked[id])
    ensures Legal(x, Unbooking(id, quote))
    ensures Consistent(orders - {id}, TakenLevel(levels, orders[id]), Apply(x, Unbooking(id, quote)).booked)
  {
    LinkedTake(orders, levels, id);
    assert Mirrors(orders[id].order, x.booked[id]);
    var x' := Apply(x, Unbooking(id, quote));
    FifoTake(orders, levels, x, id, x'.booked);
    MirroredTake(orders, x, id, x');
  }

  lemma FifoReduce(levels: LevelMap, b0: map<Id, Ticket>, b1: map<Id, Ticket>, id: Id, claim: Claim, at: Key, amount: nat)
    requires Fifo(levels, b0) && id in b0
    requires b1 == b0[id := b0[id].(claim := claim)]
    requires at in levels && amount <= levels[at].volume
    ensures Fifo(ReducedLevel(levels, at, amount), b1)
  {
    var levels' := ReducedLevel(levels, at, amount);
    forall k | k in levels' && !k.shelf.kind.Trailings? ensures ByArrival(levels'[k].ids, b1) {
      assert ByArrival(levels[k].ids, b0);
      ByArrivalFrame(levels[k].ids, b0, b1);
    }
  }

  lemma MirroredReduce(orders: Index, x: State, x': State, o: Order)
    requires Mirrored(orders, x.booked) && o.id in orders
    requires o.typ == orders[o.id].order.typ && TermsOf(o) == TermsOf(orders[o.id].order)
    requires x'.booked == x.booked[o.id := x.booked[o.id].(claim := ClaimOf(o))]
    ensures Mirrored(Updated(orders, o), x'.booked)
  {
    forall id | id in Updated(orders, o) ensures Mirrors(Updated(orders, o)[id].order, x'.booked[id]) {
      assert Mirrors(orders[id].order, x.booked[id]);
    }
  }

  /** Updating order `o.id` to `o` where it stands matches any event that gives it the claim of `o`. */
  lemma ConsistentReduce(orders: Index, levels: LevelMap, x: State, x': State, o: Order)
    requires Consistent(orders, levels, x.booked) && o.id in orders
    requires o.typ == orders[o.id].order.typ && TermsOf(o) == TermsOf(orders[o.id].order)
    requires Home(o) == orders[o.id].at && o.open <= orders[o.id].order.open
    requires x'.booked == x.booked[o.id := x.booked[o.id].(claim := ClaimOf(o))]
    ensures Placed(o.id, orders[o.id], levels)
    ensures orders[o.id].order.open - o.open <= levels[orders[o.id].at].volume
    ensures Consistent(Updated(orders, o),
                       ReducedLevel(levels, orders[o.id].at, orders[o.id].order.open - o.open), x'.booked)
  {
    LinkedReduce(orders, levels, o);
    MirroredReduce(orders, x, x', o);
    FifoReduce(levels, x.booked, x'.booked, o.id, ClaimOf(o), orders[o.id].at, orders[o.id].order.open - o.open);
  }
}
