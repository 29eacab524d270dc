/** Price levels, the id index, and how the two agree. */
module Levels {
  import opened Orders

  datatype Kind = Limits | Stops | Trailings

  /** One of the six price-to-level maps. */
  datatype Shelf = Shelf(kind: Kind, side: Side)

  datatype Key = Key(shelf: Shelf, price: Price)

  /** The cached volume of a level and the ids of its orders, oldest first. */
  datatype Level = Level(volume: nat, ids: seq<Id>) {
    function AddOrder(o: Order): Level {
      Level(volume + o.open, ids + [o.id])
    }

    function DeleteOrder(o: Order): Level
      requires o.id in ids && o.open <= volume
    {
      Level(volume - o.open, Without(ids, o.id))
    }

    function PopFront(o: Order): Level
      requires ids != [] && o.id == ids[0] && o.open <= volume
    {
      Level(volume - o.open, ids[1..])
    }

    /** The precondition is the original's assertion. */
    function ReduceVolume(amount: nat): Level
      requires amount <= volume
    {
      this.(volume := volume - amount)
    }
  }

  const EMPTY_LEVEL := Level(0, [])

  /** What the id index holds: the order and its place in the levels. */
  datatype Entry = Entry(order: Order, at: Key)

  type Index = map<Id, Entry>
  type LevelMap = map<Key, Level>

  function KindOf(typ: OrderType): Kind {
    match typ
    case Market | Limit => Limits
    case Stop | StopLimit => Stops
    case TrailingStop | TrailingStopLimit => Trailings
  }

  function ShelfOf(o: Order): Shelf { Shelf(KindOf(o.typ), o.side) }

  /** Limit orders are kept under their price, stop orders under their stop price. */
  function Home(o: Order): Key {
    Key(ShelfOf(o), if o.typ.IsStop() then o.stopPrice else o.price)
  }

  function LevelAt(levels: LevelMap, k: Key): Level {
    if k in levels then levels[k] else EMPTY_LEVEL
  }

  // ---------------------------------------------------------------------------------------------
  // Lists of ids
  // ---------------------------------------------------------------------------------------------

  ghost predicate NoDup<T>(s: seq<T>) {
    forall i, j | 0 <= i < j < |s| :: s[i] != s[j]
  }

  function IndexOf(ids: seq<Id>, id: Id): (i: nat)
    requires id in ids
    ensures i < |ids| && ids[i] == id
  {
    if ids[0] == id then 0 else 1 + IndexOf(ids[1..], id)
  }

  function Without(ids: seq<Id>, id: Id): seq<Id>
    requires id in ids
  {
    var i := IndexOf(ids, id);
    ids[..i] + ids[i + 1..]
  }

  lemma WithoutMembers(ids: seq<Id>, id: Id)
    requires id in ids && NoDup(ids)
    ensures NoDup(Without(ids, id))
    ensures forall x :: x in Without(ids, id) <==> x in ids && x != id
  {
    var i := IndexOf(ids, id);
    forall x | x in ids && x != id ensures x in Without(ids, id) {
      var j := IndexOf(ids, x);
      assert Without(ids, id)[if j < i then j else j - 1] == x;
    }
  }

  function OpenOf(id: Id, orders: Index): nat {
    if id in orders then orders[id].order.open else 0
  }

  /** Total open quantity of a list of orders. */
  function Total(ids: seq<Id>, orders: Index): nat {
    if ids == [] then 0 else OpenOf(ids[0], orders) + Total(ids[1..], orders)
  }

  lemma {:induction false} TotalFrame(ids: seq<Id>, o0: Index, o1: Index)
    requires forall id | id in ids :: OpenOf(id, o0) == OpenOf(id, o1)
    ensures Total(ids, o0) == Total(ids, o1)
  {
    if ids != [] {
      TotalFrame(ids[1..], o0, o1);
    }
  }

  lemma {:induction false} TotalConcat(a: seq<Id>, b: seq<Id>, orders: Index)
    ensures Total(a + b, orders) == Total(a, orders) + Total(b, orders)
  {
    if a == [] {
      assert a + b == b;
    } else {
      assert (a + b)[1..] == a[1..] + b;
      TotalConcat(a[1..], b, orders);
    }
  }

  lemma TotalWithout(ids: seq<Id>, id: Id, orders: Index)
    requires id in ids
    ensures Total(ids, orders) == OpenOf(id, orders) + Total(Without(ids, id), orders)
  {
    var i := IndexOf(ids, id);
    assert ids == ids[..i] + ([id] + ids[i + 1..]);
    TotalConcat(ids[..i], [id] + ids[i + 1..], orders);
    TotalConcat(ids[..i], ids[i + 1..], orders);
  }

  lemma TotalReduce(ids: seq<Id>, id: Id, o0: Index, o1: Index)
    requires id in ids && NoDup(ids)
    requires forall x | x in ids && x != id :: OpenOf(x, o0) == OpenOf(x, o1)
    ensures Total(ids, o0) - OpenOf(id, o0) == Total(ids, o1) - OpenOf(id, o1)
  {
    TotalWithout(ids, id, o0);
    TotalWithout(ids, id, o1);
    WithoutMembers(ids, id);
    TotalFrame(Without(ids, id), o0, o1);
  }

  // ---------------------------------------------------------------------------------------------
  // The index and the levels agree
  // ---------------------------------------------------------------------------------------------

  /** An indexed order stands in the level its type, side and price call for. */
  ghost predicate Placed(id: Id, e: Entry, levels: LevelMap) {
    && e.order.id == id
    && !e.order.typ.Market?
    && e.at == Home(e.order)
    && e.at in levels
    && id in levels[e.at].ids
  }

  /** A level lists indexed orders once each, is not empty, and caches the right volume. */
  ghost predicate Stocked(k: Key, l: Level, orders: Index) {
    && l.ids != []
    && NoDup(l.ids)
    && (forall id | id in l.ids :: id in orders && orders[id].at == k)
    && l.volume == Total(l.ids, orders)
  }

  ghost predicate Linked(orders: Index, levels: LevelMap) {
    && (forall id | id in orders :: Placed(id, orders[id], levels))
    && (forall k | k in levels :: Stocked(k, levels[k], orders))
  }

  /** A level has a front order, which is indexed there. */
  lemma FrontStands(orders: Index, levels: LevelMap, k: Key)
    requires Linked(orders, levels) && k in levels
    ensures levels[k].ids != [] && levels[k].ids[0] in orders
    ensures var e := orders[levels[k].ids[0]];
            e.order.id == levels[k].ids[0] && e.at == k && Home(e.order) == k && !e.order.typ.Market?
  {
    assert Stocked(k, levels[k], orders);
    assert Placed(levels[k].ids[0], orders[levels[k].ids[0]], levels);
  }

  lemma LevelHolds(orders: Index, levels: LevelMap, k: Key)
    requires Linked(orders, levels) && k in levels
    ensures forall id | id in levels[k].ids ::
              id in orders && orders[id].order.id == id && orders[id].at == k && Home(orders[id].order) == k
    ensures levels[k].volume == Total(levels[k].ids, orders)
  {
    assert Stocked(k, levels[k], orders);
    forall id | id in levels[k].ids
      ensures id in orders && orders[id].order.id == id && orders[id].at == k && Home(orders[id].order) == k
    {
      assert Placed(id, orders[id], levels);
    }
  }

  function Added(orders: Index, o: Order): Index {
    orders[o.id := Entry(o, Home(o))]
  }

  function AddedLevel(levels: LevelMap, o: Order): LevelMap {
    levels[Home(o) := LevelAt(levels, Home(o)).AddOrder(o)]
  }

  /** Emplacing the level if it is missing, indexing the order and appending it keeps everything linked. */
  lemma LinkedAdd(orders: Index, levels: LevelMap, o: Order)
    requires Linked(orders, levels) && o.id !in orders && !o.typ.Market?
    ensures Linked(Added(orders, o), AddedLevel(levels, o))
  {
    var orders', levels', k := Added(orders, o), AddedLevel(levels, o), Home(o);
    forall id | id in orders' ensures Placed(id, orders'[id], levels') {
      if id == o.id {
        assert levels'[k].ids[|levels'[k].ids| - 1] == id;
      } else {
        assert Placed(id, orders[id], levels);
      }
    }
    forall j | j in levels' ensures Stocked(j, levels'[j], orders') {
      if j in levels {
        assert Stocked(j, levels[j], orders);
        TotalFrame(levels[j].ids, orders, orders');
      }
      if j == k {
        TotalConcat(LevelAt(levels, k).ids, [o.id], orders');
      }
    }
  }

  function TakenLevel(levels: LevelMap, e: Entry): LevelMap
    requires e.at in levels && e.order.id in levels[e.at].ids && e.order.open <= levels[e.at].volume
  {
    var level := levels[e.at].DeleteOrder(e.order);
    if level.ids == [] then levels - {e.at} else levels[e.at := level]
  }

  /** The volume of a level covers each of its orders. */
  lemma VolumeCovers(orders: Index, levels: LevelMap, id: Id)
    requires Linked(orders, levels) && id in orders
    ensures Placed(id, orders[id], levels)
    ensures orders[id].order.open <= levels[orders[id].at].volume
  {
    var k := orders[id].at;
    assert Placed(id, orders[id], levels) && Stocked(k, levels[k], orders);
    TotalWithout(levels[k].ids, id, orders);
  }

  /** Taking an order out of its level, and the level out of its map once empty, keeps everything linked. */
  lemma LinkedTake(orders: Index, levels: LevelMap, id: Id)
    requires Linked(orders, levels) && id in orders
    ensures Placed(id, orders[id], levels)
    ensures orders[id].order.open <= levels[orders[id].at].volume
    ensures Linked(orders - {id}, TakenLevel(levels, orders[id]))
  {
    VolumeCovers(orders, levels, id);
    var e := orders[id];
    var orders', levels' := orders - {id}, TakenLevel(levels, e);
    assert Stocked(e.at, levels[e.at], orders);
    WithoutMembers(levels[e.at].ids, id);
    forall i | i in orders' ensures Placed(i, orders'[i], levels') {
      assert Placed(i, orders[i], levels);
    }
    forall k | k in levels' ensures Stocked(k, levels'[k], orders') {
      assert Stocked(k, levels[k], orders);
      TotalFrame(levels'[k].ids, orders, orders');
      if k == e.at {
        TotalWithout(levels[k].ids, id, orders);
      }
    }
  }

  /** The index after order `o` has been updated where it stands. */
  function Updated(orders: Index, o: Order): Index
    requires o.id in orders
  {
    orders[o.id := Entry(o, orders[o.id].at)]
  }

  function ReducedLevel(levels: LevelMap, at: Key, amount: nat): LevelMap
    requires at in levels && amount <= levels[at].volume
  {
    levels[at := levels[at].ReduceVolume(amount)]
  }

  /** Lowering an order's open quantity and its level's volume by the same amount keeps everything linked. */
  lemma LinkedReduce(orders: Index, levels: LevelMap, o: Order)
    requires Linked(orders, levels) && o.id in orders
    requires o.typ == orders[o.id].order.typ && Home(o) == orders[o.id].at && o.open <= orders[o.id].order.open
    ensures Placed(o.id, orders[o.id], levels)
    ensures orders[o.id].order.open - o.open <= levels[orders[o.id].at].volume
    ensures Linked(Updated(orders, o), ReducedLevel(levels, orders[o.id].at, orders[o.id].order.open - o.open))
  {
    VolumeCovers(orders, levels, o.id);
    var orders' := Updated(orders, o);
    var levels' := ReducedLevel(levels, orders[o.id].at, orders[o.id].order.open - o.open);
    forall i | i in orders' ensures Placed(i, orders'[i], levels') {
      assert Placed(i, orders[i], levels);
    }
    forall k | k in levels' ensures Stocked(k, levels'[k], orders') {
      StockedReduce(orders, levels, o, k);
    }
  }

  lemma StockedReduce(orders: Index, levels: LevelMap, o: Order, k: Key)
    requires Linked(orders, levels) && o.id in orders && k in levels
    requires o.open <= orders[o.id].order.open
    requires orders[o.id].order.open - o.open <= levels[orders[o.id].at].volume
    ensures Stocked(k, ReducedLevel(levels, orders[o.id].at, orders[o.id].order.open - o.open)[k], Updated(orders, o))
  {
    assert Stocked(k, levels[k], orders);
    assert Placed(o.id, orders[o.id], levels);
    StockedUpdate(k, levels[k], orders, o);
  }

  lemma StockedUpdate(k: Key, l: Level, orders: Index, o: Order)
    requires Stocked(k, l, orders) && o.id in orders && o.open <= orders[o.id].order.open
    requires orders[o.id].at == k ==> o.id in l.ids && orders[o.id].order.open - o.open <= l.volume
    ensures Stocked(k, if orders[o.id].at == k then l.ReduceVolume(orders[o.id].order.open - o.open) else l,
                    Updated(orders, o))
  {
    if orders[o.id].at == k {
      TotalReduce(l.ids, o.id, orders, Updated(orders, o));
    } else {
      TotalFrame(l.ids, orders, Updated(orders, o));
    }
  }

  // ---------------------------------------------------------------------------------------------
  // The level served first
  // ---------------------------------------------------------------------------------------------

  /** Level price `p` is reached no later than `q`: buys and sell stops from the top, the others from the bottom. */
  predicate Ahead(shelf: Shelf, p: Price, q: Price) {
    if shelf.side.Buy? == shelf.kind.Limits? then p >= q else p <= q
  }

  ghost predicate Leads(levels: LevelMap, k: Key) {
    k in levels && forall j | j in levels && j.shelf == k.shelf :: Ahead(k.shelf, k.price, j.price)
  }

  predicate HasLevel(levels: LevelMap, shelf: Shelf) {
    exists k | k in levels :: k.shelf == shelf
  }

  lemma {:induction false} LeaderExists(levels: LevelMap, shelf: Shelf)
    requires HasLevel(levels, shelf)
    ensures exists k: Key :: k.shelf == shelf && Leads(levels, k)
    decreases |levels|
  {
    var k :| k in levels && k.shelf == shelf;
    if !Leads(levels, k) {
      var j :| j in levels && j.shelf == shelf && !Ahead(shelf, k.price, j.price);
      var rest := levels - {k};
      assert j in rest;
      LeaderExists(rest, shelf);
      var l: Key :| l.shelf == shelf && Leads(rest, l);
      assert Ahead(shelf, l.price, j.price);
      assert Leads(levels, l);
    }
  }

  /** `begin()` or `rbegin()` of one of the maps. */
  method FindLeader(levels: LevelMap, shelf: Shelf) returns (found: bool, k: Key)
    ensures found == HasLevel(levels, shelf)
    ensures found ==> k.shelf == shelf && Leads(levels, k)
  {
    found := HasLevel(levels, shelf);
    k := Key(shelf, 0);
    if found {
      LeaderExists(levels, shelf);
      k :| k in levels && k.shelf == shelf && forall j | j in levels && j.shelf == shelf :: Ahead(shelf, k.price, j.price);
    }
  }
}
