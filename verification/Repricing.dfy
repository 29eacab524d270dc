/** Repricing the trailing stop orders of one side: every order moves to the level of its new stop price,
    and the new levels keep the order in which the old ones were walked. */
module Repricing {
  import opened BookState
  import opened Exchange
  import opened Levels
  import opened Orders

  /** The ids of `list` that `orders` places in level `k`, in the order of the list. */
  ghost function Group(list: seq<Id>, orders: Index, k: Key): seq<Id> {
    if list == [] then []
    else
      var rest, id := Group(list[..|list| - 1], orders, k), list[|list| - 1];
      if id in orders && orders[id].at == k then rest + [id] else rest
  }

  lemma {:induction false} GroupMembers(list: seq<Id>, orders: Index, k: Key)
    ensures forall id :: id in Group(list, orders, k) <==> id in list && id in orders && orders[id].at == k
    ensures NoDup(list) ==> NoDup(Group(list, orders, k))
  {
    if list != [] {
      var init, last := list[..|list| - 1], list[|list| - 1];
      GroupMembers(init, orders, k);
      assert list == init + [last];
    }
  }

  lemma GroupAppend(list: seq<Id>, orders: Index, k: Key, id: Id)
    requires id in orders
    ensures Group(list + [id], orders, k) == Group(list, orders, k) + if orders[id].at == k then [id] else []
  {
    assert (list + [id])[..|list|] == list;
  }

  /** No order comes after one of a higher level. */
  ghost predicate Ascending(list: seq<Id>, orders: Index) {
    forall i, j | 0 <= i < j < |list| && list[i] in orders && list[j] in orders ::
      orders[list[i]].at.price <= orders[list[j]].at.price
  }

  /** `list` walks the levels of `shelf` from the lowest price up, each from its oldest order on. */
  ghost predicate Walks(list: seq<Id>, orders: Index, levels: LevelMap, shelf: Shelf) {
    && NoDup(list)
    && (forall id :: id in list <==> id in orders && orders[id].at.shelf == shelf)
    && Ascending(list, orders)
    && (forall k: Key | k.shelf == shelf :: LevelAt(levels, k).ids == Group(list, orders, k))
  }

  function Moved(e: Entry, stop: Price): Entry {
    var o := e.order.(stopPrice := stop);
    Entry(o, Home(o))
  }

  /** Levels in which the orders of `list` have been put one after the other. */
  ghost predicate Grouped(updated: LevelMap, list: seq<Id>, orders: Index, shelf: Shelf) {
    forall k: Key :: GroupedAt(updated, list, orders, shelf, k)
  }

  ghost predicate GroupedAt(updated: LevelMap, list: seq<Id>, orders: Index, shelf: Shelf, k: Key) {
    && (k in updated ==> k.shelf == shelf && updated[k].ids != [])
    && (k.shelf == shelf ==>
          && LevelAt(updated, k).ids == Group(list, orders, k)
          && LevelAt(updated, k).volume == Total(Group(list, orders, k), orders))
  }

  lemma GroupedLevels(updated: LevelMap, list: seq<Id>, orders: Index, shelf: Shelf)
    requires Grouped(updated, list, orders, shelf)
    ensures forall k | k in updated :: k.shelf == shelf && updated[k].ids != []
    ensures forall k: Key | k.shelf == shelf ::
              && LevelAt(updated, k).ids == Group(list, orders, k)
              && LevelAt(updated, k).volume == Total(Group(list, orders, k), orders)
  {
    forall k | k in updated ensures k.shelf == shelf && updated[k].ids != [] {
      assert GroupedAt(updated, list, orders, shelf, k);
    }
    forall k: Key | k.shelf == shelf
      ensures LevelAt(updated, k).ids == Group(list, orders, k)
      ensures LevelAt(updated, k).volume == Total(Group(list, orders, k), orders)
    {
      assert GroupedAt(updated, list, orders, shelf, k);
    }
  }

  lemma GroupedAppend(updated: LevelMap, list: seq<Id>, orders: Index, shelf: Shelf, id: Id)
    requires Grouped(updated, list, orders, shelf)
    requires id in orders && orders[id].at.shelf == shelf && orders[id].order.id == id
    ensures Grouped(updated[orders[id].at := LevelAt(updated, orders[id].at).AddOrder(orders[id].order)],
                    list + [id], orders, shelf)
  {
    var at := orders[id].at;
    var updated' := updated[at := LevelAt(updated, at).AddOrder(orders[id].order)];
    forall k: Key ensures GroupedAt(updated', list + [id], orders, shelf, k) {
      assert GroupedAt(updated, list, orders, shelf, k);
      if k.shelf == shelf {
        GroupAppend(list, orders, k, id);
        TotalConcat(Group(list, orders, k), [id], orders);
      }
    }
  }

  /** The levels of `shelf` are replaced by `updated`. */
  function Swapped(levels: LevelMap, updated: LevelMap, shelf: Shelf): LevelMap {
    (map k | k in levels && k.shelf != shelf :: levels[k]) + updated
  }

  /** Only trailing orders of `shelf` differ, and only in their stop price and place. */
  ghost predicate OnlyMoved(before: Index, after: Index, shelf: Shelf) {
    && after.Keys == before.Keys
    && forall id | id in before ::
         if before[id].at.shelf == shelf
         then after[id] == Moved(before[id], after[id].order.stopPrice)
         else after[id] == before[id]
  }

  lemma LinkedSwap(before: Index, levels: LevelMap, after: Index, updated: LevelMap, shelf: Shelf, list: seq<Id>)
    requires Linked(before, levels) && shelf.kind.Trailings?
    requires OnlyMoved(before, after, shelf)
    requires Walks(list, before, levels, shelf) && Grouped(updated, list, after, shelf)
    ensures Linked(after, Swapped(levels, updated, shelf))
  {
    var levels' := Swapped(levels, updated, shelf);
    GroupedLevels(updated, list, after, shelf);
    forall id | id in after ensures Placed(id, after[id], levels') {
      assert Placed(id, before[id], levels);
      if before[id].at.shelf == shelf {
        GroupMembers(list, after, after[id].at);
        assert LevelAt(updated, after[id].at).ids == Group(list, after, after[id].at);
      }
    }
    forall k | k in levels' ensures Stocked(k, levels'[k], after) {
      if k.shelf == shelf {
        GroupMembers(list, after, k);
      } else {
        assert Stocked(k, levels[k], before);
        TotalFrame(levels[k].ids, before, after);
      }
    }
  }

  lemma MirroredSwap(before: Index, levels: LevelMap, side: Side, last: Price, booked: map<Id, Ticket>)
    requires Linked(before, levels) && Mirrored(before, booked)
    ensures Mirrored(AllMoved(before, Shelf(Trailings, side), last), RepricedAll(booked, side, last))
  {
    var after := AllMoved(before, Shelf(Trailings, side), last);
    forall id | id in after ensures Mirrors(after[id].order, RepricedAll(booked, side, last)[id]) {
      assert Mirrors(before[id].order, booked[id]) && Placed(id, before[id], levels);
    }
  }

  lemma FifoSwap(levels: LevelMap, updated: LevelMap, side: Side, last: Price, booked: map<Id, Ticket>)
    requires Fifo(levels, booked)
    requires forall k | k in updated :: k.shelf == Shelf(Trailings, side)
    ensures Fifo(Swapped(levels, updated, Shelf(Trailings, side)), RepricedAll(booked, side, last))
  {
    var levels', booked' := Swapped(levels, updated, Shelf(Trailings, side)), RepricedAll(booked, side, last);
    forall k | k in levels' && !k.shelf.kind.Trailings? ensures ByArrival(levels'[k].ids, booked') {
      assert ByArrival(levels[k].ids, booked);
      ByArrivalFrame(levels[k].ids, booked, booked');
    }
  }

  /** Swapping in levels that group the walked orders by their new place is the event `Reprice`. */
  lemma ConsistentSwap(before: Index, levels: LevelMap, updated: LevelMap, side: Side, last: Price,
                       list: seq<Id>, booked: map<Id, Ticket>)
    requires Consistent(before, levels, booked)
    requires Walks(list, before, levels, Shelf(Trailings, side))
    requires Grouped(updated, list, AllMoved(before, Shelf(Trailings, side), last), Shelf(Trailings, side))
    ensures Consistent(AllMoved(before, Shelf(Trailings, side), last),
                       Swapped(levels, updated, Shelf(Trailings, side)), RepricedAll(booked, side, last))
  {
    var shelf := Shelf(Trailings, side);
    AllMovedOnly(before, levels, shelf, last);
    hide Linked, Mirrored, Fifo, OnlyMoved, Walks;
    GroupedLevels(updated, list, AllMoved(before, shelf, last), shelf);
    LinkedSwap(before, levels, AllMoved(before, shelf, last), updated, shelf, list);
    MirroredSwap(before, levels, side, last, booked);
    FifoSwap(levels, updated, side, last, booked);
  }

  // ---------------------------------------------------------------------------------------------
  // Walking the levels
  // ---------------------------------------------------------------------------------------------

  lemma {:induction false} GroupConcat(a: seq<Id>, b: seq<Id>, orders: Index, k: Key)
    ensures Group(a + b, orders, k) == Group(a, orders, k) + Group(b, orders, k)
  {
    if b == [] {
      assert a + b == a;
    } else {
      assert (a + b)[..|a + b| - 1] == a + b[..|b| - 1];
      GroupConcat(a, b[..|b| - 1], orders, k);
    }
  }

  lemma {:induction false} GroupOfLevel(ids: seq<Id>, orders: Index, at: Key, k: Key)
    requires forall id | id in ids :: id in orders && orders[id].at == at
    ensures Group(ids, orders, k) == if k == at then ids else []
  {
    if ids != [] {
      GroupOfLevel(ids[..|ids| - 1], orders, at, k);
    }
  }

  /** The levels of `shelf` outside `pending` have been walked. */
  ghost predicate Walked(walk: seq<Id>, orders: Index, levels: LevelMap, pending: LevelMap, shelf: Shelf) {
    && (forall k | k in pending :: k in levels && pending[k] == levels[k] && k.shelf == shelf)
    && NoDup(walk)
    && (forall id | id in walk :: id in orders && orders[id].at.shelf == shelf && orders[id].at !in pending)
    && Ascending(walk, orders)
    && (forall id, k | id in walk && k in pending :: orders[id].at.price <= k.price)
    && (forall k: Key | k.shelf == shelf ::
          Group(walk, orders, k) == if k in pending then [] else LevelAt(levels, k).ids)
  }

  function LevelsOf(levels: LevelMap, shelf: Shelf): LevelMap {
    map k | k in levels && k.shelf == shelf :: levels[k]
  }

  lemma WalkStart(orders: Index, levels: LevelMap, shelf: Shelf)
    requires Linked(orders, levels)
    ensures Walked([], orders, levels, LevelsOf(levels, shelf), shelf)
  {
  }

  lemma GroupedStart(orders: Index, shelf: Shelf)
    ensures Grouped(map[], [], orders, shelf)
  {
  }

  /** Walking the lowest pending level appends its orders and keeps the list ascending. */
  lemma WalkLevel(walk: seq<Id>, orders: Index, levels: LevelMap, pending: LevelMap, shelf: Shelf, k: Key)
    requires Linked(orders, levels) && Walked(walk, orders, levels, pending, shelf)
    requires k in pending && forall j | j in pending :: k.price <= j.price
    ensures k in levels && k.shelf == shelf && Walked(walk + levels[k].ids, orders, levels, pending - {k}, shelf)
  {
    LevelHolds(orders, levels, k);
    assert NoDup(levels[k].ids) by {
      assert Stocked(k, levels[k], orders);
    }
    hide Linked, Total, NoDup, Ascending, Group;
    WalkLevelOrder(walk, orders, pending, shelf, k, levels[k].ids);
    WalkLevelGroups(walk, orders, levels, pending, shelf, k);
  }

  lemma WalkLevelGroups(walk: seq<Id>, orders: Index, levels: LevelMap, pending: LevelMap, shelf: Shelf, k: Key)
    requires forall j: Key | j.shelf == shelf ::
               Group(walk, orders, j) == if j in pending then [] else LevelAt(levels, j).ids
    requires k in pending && k in levels
    requires forall id | id in levels[k].ids :: id in orders && orders[id].at == k
    ensures forall j: Key | j.shelf == shelf ::
              Group(walk + levels[k].ids, orders, j) == if j in pending - {k} then [] else LevelAt(levels, j).ids
  {
    hide Group;
    forall j: Key | j.shelf == shelf
      ensures Group(walk + levels[k].ids, orders, j) == if j in pending - {k} then [] else LevelAt(levels, j).ids
    {
      GroupConcat(walk, levels[k].ids, orders, j);
      GroupOfLevel(levels[k].ids, orders, k, j);
    }
  }

  lemma WalkLevelOrder(walk: seq<Id>, orders: Index, pending: LevelMap, shelf: Shelf, k: Key, ids: seq<Id>)
    requires NoDup(walk) && Ascending(walk, orders)
    requires forall id | id in walk :: id in orders && orders[id].at.shelf == shelf && orders[id].at !in pending
    requires forall id, j | id in walk && j in pending :: orders[id].at.price <= j.price
    requires k in pending && k.shelf == shelf && forall j | j in pending :: k.price <= j.price
    requires NoDup(ids) && forall id | id in ids :: id in orders && orders[id].at == k
    ensures NoDup(walk + ids) && Ascending(walk + ids, orders)
    ensures forall id | id in walk + ids ::
              id in orders && orders[id].at.shelf == shelf && orders[id].at !in pending - {k}
    ensures forall id, j | id in walk + ids && j in pending - {k} :: orders[id].at.price <= j.price
  {
    assert forall id | id in walk + ids :: id in walk || id in ids;
  }

  lemma WalkDone(walk: seq<Id>, orders: Index, levels: LevelMap, shelf: Shelf)
    requires Linked(orders, levels) && Walked(walk, orders, levels, map[], shelf)
    ensures Walks(walk, orders, levels, shelf)
  {
    forall id | id in orders && orders[id].at.shelf == shelf ensures id in walk {
      assert Placed(id, orders[id], levels);
      GroupMembers(walk, orders, orders[id].at);
      assert Group(walk, orders, orders[id].at) == LevelAt(levels, orders[id].at).ids;
    }
  }

  lemma {:induction false} LowestExists(keys: set<Key>)
    requires keys != {}
    ensures exists k | k in keys :: forall j | j in keys :: k.price <= j.price
  {
    var k :| k in keys;
    if keys != {k} {
      LowestExists(keys - {k});
      var l :| l in keys - {k} && forall j | j in keys - {k} :: l.price <= j.price;
      var low := if k.price <= l.price then k else l;
      assert forall j | j in keys :: j == k || j in keys - {k};
      assert low in keys && forall j | j in keys :: low.price <= j.price;
    }
  }

  /** Every order of `shelf` moved to the stop price that the last price calls for. */
  function AllMoved(orders: Index, shelf: Shelf, last: Price): Index {
    map id | id in orders ::
      if orders[id].at.shelf == shelf
      then Moved(orders[id], TrailedPrice(shelf.side, last, orders[id].order.trail))
      else orders[id]
  }

  /** The orders of `walk` are where `after` puts them, the others where they were. */
  ghost predicate Midway(orders: Index, before: Index, after: Index, walk: seq<Id>) {
    && orders.Keys == before.Keys && after.Keys == before.Keys
    && forall id | id in before :: orders[id] == if id in walk then after[id] else before[id]
  }

  /** From `before` to `after` the trailing orders of `shelf` were moved one by one along `walk`, and the
      new levels hold them in that order. */
  ghost predicate Relisted(before: Index, levels: LevelMap, after: Index, levels': LevelMap, shelf: Shelf, walk: seq<Id>) {
    && OnlyMoved(before, after, shelf)
    && Walks(walk, before, levels, shelf)
    && (forall k: Key | k.shelf == shelf :: LevelAt(levels', k).ids == Group(walk, after, k))
    && (forall k: Key | k.shelf != shelf ::
          (k in levels' <==> k in levels) && (k in levels' ==> levels'[k] == levels[k]))
  }

  lemma RelistedFinally(before: Index, levels: LevelMap, orders: Index, updated: LevelMap, side: Side, last: Price,
                        walk: seq<Id>, booked: map<Id, Ticket>)
    requires Consistent(before, levels, booked)
    requires Walked(walk, before, levels, map[], Shelf(Trailings, side))
    requires Midway(orders, before, AllMoved(before, Shelf(Trailings, side), last), walk)
    requires Grouped(updated, walk, AllMoved(before, Shelf(Trailings, side), last), Shelf(Trailings, side))
    ensures orders == AllMoved(before, Shelf(Trailings, side), last)
    ensures Relisted(before, levels, orders, Swapped(levels, updated, Shelf(Trailings, side)), Shelf(Trailings, side), walk)
    ensures Consistent(orders, Swapped(levels, updated, Shelf(Trailings, side)), RepricedAll(booked, side, last))
  {
    var shelf := Shelf(Trailings, side);
    hide Linked, Mirrored, Fifo, Walked;
    WalkDone(walk, before, levels, shelf);
    AllMovedOnly(before, levels, shelf, last);
    AllWalked(before, levels, orders, side, last, walk);
    hide Walks, OnlyMoved;
    GroupedLevels(updated, walk, orders, shelf);
    ConsistentSwap(before, levels, updated, side, last, walk, booked);
  }

  lemma AllWalked(before: Index, levels: LevelMap, orders: Index, side: Side, last: Price, walk: seq<Id>)
    requires Walks(walk, before, levels, Shelf(Trailings, side))
    requires Midway(orders, before, AllMoved(before, Shelf(Trailings, side), last), walk)
    ensures orders == AllMoved(before, Shelf(Trailings, side), last)
  {
  }

  lemma AllMovedOnly(orders: Index, levels: LevelMap, shelf: Shelf, last: Price)
    requires Linked(orders, levels) && shelf.kind.Trailings?
    ensures OnlyMoved(orders, AllMoved(orders, shelf, last), shelf)
    ensures AllMoved(orders, shelf, last).Keys == orders.Keys
  {
    forall id | id in orders ensures Placed(id, orders[id], levels) {
    }
  }

  lemma OnlyMovedLive(before: Index, after: Index, shelf: Shelf)
    requires OnlyMoved(before, after, shelf) && LiveBut(before, {})
    ensures LiveBut(after, {})
  {
  }

  lemma MidwayStart(before: Index, after: Index)
    requires after.Keys == before.Keys
    ensures Midway(before, before, after, [])
  {
  }

  lemma MidwayStep(orders: Index, before: Index, after: Index, walk: seq<Id>, id: Id)
    requires Midway(orders, before, after, walk) && id in before
    ensures id in orders && id in after && (orders[id] == before[id] || orders[id] == after[id])
    ensures Midway(orders[id := after[id]], before, after, walk + [id])
  {
  }

  /** Moving keeps every order's type. */
  lemma RelistedKinds(before: Index, levels: LevelMap, after: Index, levels': LevelMap, shelf: Shelf, walk: seq<Id>)
    requires Relisted(before, levels, after, levels', shelf, walk)
    ensures after.Keys == before.Keys
    ensures forall k: Key | k.shelf != shelf ::
              (k in levels' <==> k in levels) && (k in levels' ==> levels'[k] == levels[k])
    ensures forall id | id in before :: after[id].order.typ == before[id].order.typ
  {
  }

  // ---------------------------------------------------------------------------------------------
  // Following the last price
  // ---------------------------------------------------------------------------------------------

  /** The stop price is the trail away from the last price, or at the end of the price range. */
  predicate AtDistance(o: Order, last: Price) {
    if o.side.Sell? then o.stopPrice == (if o.trail < last then last - o.trail else 0)
    else o.stopPrice == (if last == 0 || last + o.trail > MAX_PRICE then MAX_PRICE else last + o.trail)
  }

  predicate Trails(orders: Index, id: Id, side: Side) {
    id in orders && orders[id].order.side == side && (orders[id].order.typ.TrailingStop? || orders[id].order.typ.TrailingStopLimit?)
  }

  /** The threshold of one side is the last price, or there are trailing orders, the market is past the threshold
      and they have followed. */
  ghost predicate TrackedIn(orders: Index, side: Side, last: Price, threshold: Price) {
    || threshold == last
    || (&& (exists id :: Trails(orders, id, side))
        && (if side.Sell? then last > threshold else last != 0 && last < threshold)
        && forall id | Trails(orders, id, side) :: AtDistance(orders[id].order, last))
  }

  /** What an update does to a trailing order: past the threshold it gets the stop price at its distance to the last
      price, otherwise it stays as it is. */
  predicate Followed(o: Order, p: Order, last: Price, threshold: Price) {
    if (if o.side.Sell? then last > threshold else last != 0 && last < threshold)
    then p == o.(stopPrice := p.stopPrice) && AtDistance(p, last)
    else p == o
  }

  /** The update moves the stop price against the trader: down for a sell, up for a buy. */
  predicate MovedAgainst(o: Order, p: Order) {
    if o.side.Sell? then p.stopPrice < o.stopPrice else p.stopPrice > o.stopPrice
  }

  /** When exactly that happens to an order whose stop price was made at the price `made`: if and only if the last
      price lies between the threshold and that price (and the range of prices does not end before). */
  lemma MovesAgainstExactly(o: Order, p: Order, made: Price, last: Price, threshold: Price)
    requires AtDistance(o, made) && Followed(o, p, last, threshold)
    ensures MovedAgainst(o, p) <==>
              if o.side.Sell? then threshold < last < made && o.trail < made
              else 0 < made < last < threshold && made + o.trail < MAX_PRICE
  {
  }

  lemma MovedFollows(before: Index, levels: LevelMap, side: Side, last: Price, threshold: Price)
    requires Linked(before, levels) && HasLevel(levels, Shelf(Trailings, side))
    ensures var after := AllMoved(before, Shelf(Trailings, side), last);
            && (forall id | Trails(after, id, side) :: AtDistance(after[id].order, last))
            && (forall id | Trails(before, id, side) :: id in after
                  && after[id].order == before[id].order.(stopPrice := after[id].order.stopPrice)
                  && AtDistance(after[id].order, last))
            && ((if side.Sell? then last > threshold else last != 0 && last < threshold) ==>
                  TrackedIn(after, side, last, threshold))
  {
    var after := AllMoved(before, Shelf(Trailings, side), last);
    forall id | id in before && Trails(before, id, side)
      ensures AtDistance(after[id].order, last) && after[id].order == before[id].order.(stopPrice := after[id].order.stopPrice)
    {
      assert Placed(id, before[id], levels);
    }
    forall id | Trails(after, id, side) ensures Trails(before, id, side) {
      assert Placed(id, before[id], levels);
    }
    var k :| k in levels && k.shelf == Shelf(Trailings, side);
    FrontStands(before, levels, k);
    assert Trails(after, levels[k].ids[0], side);
  }

  lemma MarkTracks(orders: Index, side: Side, last: Price)
    ensures TrackedIn(orders, side, last, last)
  {
  }

  /** Moving one side leaves the other as it is. */
  lemma OthersStay(before: Index, levels: LevelMap, side: Side, last: Price, threshold: Price)
    requires Linked(before, levels)
    ensures TrackedIn(before, side.Opposite(), last, threshold) ==>
              TrackedIn(AllMoved(before, Shelf(Trailings, side), last), side.Opposite(), last, threshold)
  {
    var after := AllMoved(before, Shelf(Trailings, side), last);
    forall id | Trails(after, id, side.Opposite()) ensures Trails(before, id, side.Opposite()) && after[id] == before[id] {
      assert Placed(id, before[id], levels);
    }
    forall id | Trails(before, id, side.Opposite()) ensures Trails(after, id, side.Opposite()) {
      assert Placed(id, before[id], levels);
    }
  }

  method FindLowest(levels: LevelMap) returns (k: Key)
    requires levels != map[]
    ensures k in levels && forall j | j in levels :: k.price <= j.price
  {
    LowestExists(levels.Keys);
    k :| k in levels && forall j | j in levels :: k.price <= j.price;
  }
}
