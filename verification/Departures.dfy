/** Runs of the book as written in which it falls short of what its comments promise. */
module Departures {
  import opened Absorption
  import opened Arrivals
  import opened BookState
  import opened Exchange
  import opened GreedyFill
  import opened Handling
  import opened Levels
  import opened Options
  import opened OrderBook
  import opened Orders
  import opened QuietBook
  import opened Quiescence

  // ---------------------------------------------------------------------------------------------
  // A stop buy left due
  // ---------------------------------------------------------------------------------------------

  /** The sell order of the run: five, of which `executed` are executed, the last of them at `last`. */
  function SellOrder(ask: Price, executed: nat, last: Price): Order
    requires executed <= 5
  {
    Order(1, Limit, Sell, GTC, ask, 0, 0, last % 0x1_0000_0000, 5, executed, 5 - executed, if executed > 0 then 1 else 0)
  }

  function StopBuy(id: Id, stop: Price): Order {
    Order(id, Stop, Buy, GTC, 0, stop, 0, 0, 1, 0, 1, 0)
  }

  function SellLevel(ask: Price): Key { Key(Shelf(Limits, Sell), ask) }

  function StopLevel(stop: Price): Key { Key(Shelf(Stops, Buy), stop) }

  /** The book with the sell order alone. */
  ghost predicate WithSell(v: View, ask: Price, executed: nat, last: Price)
    requires executed <= 5
  {
    && v.orders == map[1 := Entry(SellOrder(ask, executed, last), SellLevel(ask))]
    && v.levels == map[SellLevel(ask) := Level(5 - executed, [1])]
    && v.last == last
  }

  /** With both stop buys behind it. */
  ghost predicate WithStops(v: View, ask: Price, executed: nat, last: Price, lower: Price, upper: Price)
    requires executed <= 5
  {
    && v.orders == map[1 := Entry(SellOrder(ask, executed, last), SellLevel(ask)),
                       2 := Entry(StopBuy(2, lower), StopLevel(lower)), 3 := Entry(StopBuy(3, upper), StopLevel(upper))]
    && v.levels == map[SellLevel(ask) := Level(5 - executed, [1]),
                       StopLevel(lower) := Level(1, [2]), StopLevel(upper) := Level(1, [3])]
    && v.last == last
  }

  lemma SellRests(variant: Variant, ask: Price, v: View, w: View)
    requires v.orders == map[] && v.levels == map[] && v.last == 0 && v.exchange == EMPTY
    requires Legal(v.exchange, Enter(1, ClaimOf(SellOrder(ask, 0, 0)))) && Arrived(variant, SellOrder(ask, 0, 0), v, w)
    ensures WithSell(w, ask, 0, 0)
  {
    hide Arrived;
    JustRests(variant, SellOrder(ask, 0, 0), v, w);
    assert [] + [1] == [1];
  }

  lemma SellExecutes(v: View, ask: Price, low: Price, u: View)
    requires WithSell(v, ask, 0, 0) && low > 0 && ExecutedAt(v, 1, 1, low, u)
    ensures WithSell(u, ask, 1, low) && Idle(u.levels, low) && u.last == low && 1 in u.orders && u.orders[1].order.open > 0
  {
    hide InStep;
  }

  lemma StopsWait(variant: Variant, ask: Price, low: Price, lower: Price, upper: Price, v: View, w: View, z: View)
    requires WithSell(v, ask, 1, low) && 0 < low < lower < upper
    requires Legal(v.exchange, Enter(2, ClaimOf(StopBuy(2, lower)))) && Arrived(variant, StopBuy(2, lower), v, w)
    requires Legal(w.exchange, Enter(3, ClaimOf(StopBuy(3, upper)))) && Arrived(variant, StopBuy(3, upper), w, z)
    ensures WithStops(z, ask, 1, low, lower, upper)
  {
    hide Arrived, Legal, WithSell;
    FirstWaits(variant, ask, low, lower, v, w);
    JustWaits(variant, StopBuy(3, upper), w, z);
    hide Idle;
    assert [] + [3] == [3];
  }

  lemma FirstWaits(variant: Variant, ask: Price, low: Price, lower: Price, v: View, w: View)
    requires WithSell(v, ask, 1, low) && 0 < low < lower
    requires Legal(v.exchange, Enter(2, ClaimOf(StopBuy(2, lower)))) && Arrived(variant, StopBuy(2, lower), v, w)
    ensures w.orders == map[1 := Entry(SellOrder(ask, 1, low), SellLevel(ask)), 2 := Entry(StopBuy(2, lower), StopLevel(lower))]
    ensures w.levels == map[SellLevel(ask) := Level(4, [1]), StopLevel(lower) := Level(1, [2])]
    ensures w.last == low && Idle(w.levels, w.last)
  {
    hide Arrived, Legal;
    assert Idle(v.levels, low);
    JustWaits(variant, StopBuy(2, lower), v, w);
    hide Idle;
    assert [] + [2] == [2];
  }

  lemma StopsInReach(v: View, ask: Price, low: Price, lower: Price, market: Price, upper: Price, u: View)
    requires WithStops(v, ask, 1, low, lower, upper) && ExecutedAt(v, 1, 1, market, u)
    requires 0 < low < lower <= market < upper <= ask
    ensures WithStops(u, ask, 2, market, lower, upper) && LoneDue(u.orders, u.levels, market, 2, SellLevel(ask))
    ensures u.last == market && 1 in u.orders && u.orders[1].order.open > 0
  {
    StopsExecute(v, ask, low, lower, market, upper, u);
    hide InStep, ExecutedAt;
    LoneAmongTwo(u, ask, lower, market, upper);
    hide LoneDue;
  }

  lemma StopsExecute(v: View, ask: Price, low: Price, lower: Price, market: Price, upper: Price, u: View)
    requires WithStops(v, ask, 1, low, lower, upper) && ExecutedAt(v, 1, 1, market, u)
    requires low > 0 && market > 0
    ensures WithStops(u, ask, 2, market, lower, upper)
  {
    hide InStep;
  }

  lemma LoneAmongTwo(u: View, ask: Price, lower: Price, market: Price, upper: Price)
    requires WithStops(u, ask, 2, market, lower, upper) && 0 < lower <= market < upper <= ask
    ensures LoneDue(u.orders, u.levels, market, 2, SellLevel(ask))
  {
    assert Idle(u.levels - {StopLevel(lower)}, market);
    assert QuietOn(Sell, u.levels, ask);
    assert Absorbs(u.orders, u.levels, StopBuy(2, lower).Activate(), SellLevel(ask));
    hide Idle, QuietOn, Absorbs;
  }

  /** A sell order of which a part has been executed at `low`. */
  method SellFirst(ask: Price, low: Price) returns (book: PriceLevelOrderBook)
    requires low > 0
    ensures fresh(book) && book.variant == AS_WRITTEN && book.Ready() && book.Settled() && WithSell(book.Now(), ask, 1, low)
  {
    hide Consistent, Replay, LiveBut, Legal, Arrived, BuysWait, WithSell, ExecutedAt, PriceLevelOrderBook.Settled;
    book := new PriceLevelOrderBook(AS_WRITTEN);
    ghost var v := book.Now();
    EmptyRun();
    book.AddOrder(SellOrder(ask, 0, 0));
    SellRests(AS_WRITTEN, ask, v, book.Now());
    v := book.Now();
    SellIs(v, ask, 0, 0);
    ghost var u := book.ExecuteOrderAt(1, 1, low);
    SellExecutes(v, ask, low, u);
  }

  lemma SellIs(v: View, ask: Price, executed: nat, last: Price)
    requires executed <= 5 && WithSell(v, ask, executed, last)
    ensures 1 in v.orders && v.orders[1].order == SellOrder(ask, executed, last)
    ensures forall id :: id in v.orders <==> id == 1
  {
  }

  method StopsNext(book: PriceLevelOrderBook, ask: Price, low: Price, lower: Price, upper: Price)
    requires book.Ready() && WithSell(book.Now(), ask, 1, low) && 0 < low < lower < upper
    modifies book
    ensures book.Ready() && WithStops(book.Now(), ask, 1, low, lower, upper)
  {
    hide Consistent, Replay, LiveBut, Legal, Arrived, BuysWait, WithSell, WithStops, PriceLevelOrderBook.Settled;
    ghost var v := book.Now();
    SellIs(v, ask, 1, low);
    book.AddOrder(StopBuy(2, lower));
    ghost var w := book.Now();
    book.AddOrder(StopBuy(3, upper));
    StopsWait(book.variant, ask, low, lower, upper, v, w, book.Now());
  }

  /** Whenever a price lies between two waiting stop buys and the best sell is not below the upper one, the book
      as written can leave that one due: the lower stop buy, activated at that price, trades at the sell's, and the
      price the activation goes by is not read again. */
  method StopBuyLeftDue(low: Price, lower: Price, market: Price, upper: Price, ask: Price)
    returns (book: PriceLevelOrderBook)
    requires 0 < low < lower <= market < upper <= ask
    ensures fresh(book) && book.variant == AS_WRITTEN && book.Ready() && book.Settled()
    ensures StopLevel(upper) in book.levels && upper <= book.lastTradedPrice
    ensures !BuysWait(book.exchange)
  {
    hide Consistent, Replay, LiveBut, Legal, BuysWait, WithSell, WithStops, ExecutedAt, LoneDue, LoneGone, Idle, QuietOn;
    book := SellFirst(ask, low);
    StopsNext(book, ask, low, lower, upper);
    ghost var v := book.Now();
    StopsAre(v, ask, low, lower, upper);
    ghost var u := book.ExecuteOrderAt(1, 1, market);
    StopsInReach(v, ask, low, lower, market, upper, u);
    UpperIsDue(u, book.Now(), ask, lower, market, upper);
  }

  lemma StopsAre(v: View, ask: Price, low: Price, lower: Price, upper: Price)
    requires WithStops(v, ask, 1, low, lower, upper)
    ensures 1 in v.orders && v.orders[1].order == SellOrder(ask, 1, low)
  {
  }

  /** The lower stop buy is gone, the upper one is due. */
  lemma UpperIsDue(u: View, w: View, ask: Price, lower: Price, market: Price, upper: Price)
    requires InStep(w) && WithStops(u, ask, 2, market, lower, upper) && 0 < lower <= market < upper <= ask
    requires LoneGone(u.orders, u.levels, 2, SellLevel(ask), w.orders, w.levels, w.last)
    ensures w.last == ask && StopLevel(upper) in w.levels && !BuysWait(w.exchange)
  {
    LoneAmongTwo(u, ask, lower, market, upper);
    LoneThenQuiet(u.orders, u.levels, market, 2, SellLevel(ask), w.orders, w.levels, w.last);
    assert StopLevel(upper) in w.levels.Keys;
    BuysTell(w.orders, w.levels, w.exchange);
    hide Consistent, LoneDue, BuysWait;
  }

  // ---------------------------------------------------------------------------------------------
  // Fill-or-kill
  // ---------------------------------------------------------------------------------------------

  function BuyOfSix(ask: Price, tif: TimeInForce): Order {
    Order(2, Limit, Buy, tif, ask, 0, 0, 0, 6, 0, 6, 0)
  }

  function FillOrKillBuy(ask: Price): Order { BuyOfSix(ask, FOK) }

  /** As written, a fill-or-kill buy of six takes the five there are: it is neither filled nor without effect.
      `x` is the exchange when it has entered. */
  method FillOrKillHalf(ask: Price) returns (book: PriceLevelOrderBook, ghost x: State)
    ensures fresh(book) && book.variant == AS_WRITTEN && book.Ready()
    ensures 2 in x.incoming && x.incoming[2] == ClaimOf(FillOrKillBuy(ask)) && Orderly(x)
    ensures book.exchange == Handled(AS_WRITTEN, x, FillOrKillBuy(ask)) && !AllOrNothing(AS_WRITTEN, x, FillOrKillBuy(ask))
  {
    hide Consistent, Replay, LiveBut, Legal, Arrived, BuysWait, PriceLevelOrderBook.Settled, Handled, AllOrNothing, WithSell;
    book := new PriceLevelOrderBook(AS_WRITTEN);
    ghost var v := book.Now();
    EmptyRun();
    book.AddOrder(SellOrder(ask, 0, 0));
    SellRests(AS_WRITTEN, ask, v, book.Now());
    v := book.Now();
    SellIs(v, ask, 0, 0);
    book.AddOrder(FillOrKillBuy(ask));
    x := Apply(v.exchange, Enter(2, ClaimOf(FillOrKillBuy(ask))));
    FiveForSix(ask, v, book.Now());
  }

  lemma FiveForSix(ask: Price, v: View, w: View)
    requires InStep(v) && WithSell(v, ask, 0, 0)
    requires Legal(v.exchange, Enter(2, ClaimOf(FillOrKillBuy(ask)))) && Arrived(AS_WRITTEN, FillOrKillBuy(ask), v, w)
    ensures var o, x := FillOrKillBuy(ask), Apply(v.exchange, Enter(2, ClaimOf(FillOrKillBuy(ask))));
            && 2 in x.incoming && x.incoming[2] == ClaimOf(o) && Orderly(x)
            && w.exchange == Handled(AS_WRITTEN, x, o) && !AllOrNothing(AS_WRITTEN, x, o)
  {
    var o, x := FillOrKillBuy(ask), Entered(v, FillOrKillBuy(ask)).exchange;
    hide Consistent, Replay, Arrived, Handled, AllOrNothing, Idle, Undisturbed, WithSell, Crossing, Orderly;
    OneCrosses(ask, FOK, v);
    UndisturbedArrives(AS_WRITTEN, o, v, w);
    VolumeSplit(x.booked, {1}, 1);
    FillOrKill(AS_WRITTEN, x, o);
  }

  lemma OneCrosses(ask: Price, tif: TimeInForce, v: View)
    requires InStep(v) && WithSell(v, ask, 0, 0) && Legal(v.exchange, Enter(2, ClaimOf(BuyOfSix(ask, tif))))
    ensures Idle(v.levels, v.last)
    ensures var o, x := BuyOfSix(ask, tif), Entered(v, BuyOfSix(ask, tif)).exchange;
            && x.booked.Keys == {1} && x.booked[1].claim.open == 5
            && Crossing(x, ClaimOf(o)) == {1} && Undisturbed(x, ClaimOf(o))
  {
    hide Linked, Fifo, Replay;
    IndexedIsBooked(v.orders, v.levels, v.exchange.booked, 1);
    hide Consistent;
    assert Entered(v, BuyOfSix(ask, tif)).exchange.booked == v.exchange.booked;
  }

  /** As written, an all-or-none buy of six takes the five there are, and waits for the sixth. */
  method AllOrNoneHalf(ask: Price) returns (book: PriceLevelOrderBook)
    ensures fresh(book) && book.variant == AS_WRITTEN && book.Ready()
    ensures 2 in book.orders && book.orders[2].order.executed == 5 && book.orders[2].order.open == 1
  {
    hide Consistent, Replay, LiveBut, Legal, Arrived, BuysWait, PriceLevelOrderBook.Settled, Handled, WithSell;
    book := new PriceLevelOrderBook(AS_WRITTEN);
    ghost var v := book.Now();
    EmptyRun();
    book.AddOrder(SellOrder(ask, 0, 0));
    SellRests(AS_WRITTEN, ask, v, book.Now());
    v := book.Now();
    SellIs(v, ask, 0, 0);
    book.AddOrder(BuyOfSix(ask, AON));
    FiveOfSix(ask, v, book.Now());
  }

  lemma FiveOfSix(ask: Price, v: View, w: View)
    requires InStep(v) && InStep(w) && WithSell(v, ask, 0, 0)
    requires Legal(v.exchange, Enter(2, ClaimOf(BuyOfSix(ask, AON)))) && Arrived(AS_WRITTEN, BuyOfSix(ask, AON), v, w)
    ensures 2 in w.orders && w.orders[2].order.executed == 5 && w.orders[2].order.open == 1
  {
    FiveBooked(ask, v, w);
    assert 2 in w.orders;
    IndexedIsBooked(w.orders, w.levels, w.exchange.booked, 2);
    hide Replay, Arrived, WithSell, Linked, Fifo, Legal;
  }

  lemma FiveBooked(ask: Price, v: View, w: View)
    requires InStep(v) && WithSell(v, ask, 0, 0)
    requires Legal(v.exchange, Enter(2, ClaimOf(BuyOfSix(ask, AON)))) && Arrived(AS_WRITTEN, BuyOfSix(ask, AON), v, w)
    ensures 2 in w.exchange.booked && w.exchange.booked[2].claim == ClaimOf(BuyOfSix(ask, AON)).Fill(5)
  {
    var o, x := BuyOfSix(ask, AON), Entered(v, BuyOfSix(ask, AON)).exchange;
    hide Replay, Arrived, Handled, Idle, Undisturbed, WithSell, Crossing, Orderly, Consistent;
    OneCrosses(ask, AON, v);
    UndisturbedArrives(AS_WRITTEN, o, v, w);
    FiveTaken(ask, x);
  }

  lemma FiveTaken(ask: Price, x: State)
    requires 2 in x.incoming && x.incoming[2] == ClaimOf(BuyOfSix(ask, AON)) && Orderly(x)
    requires 1 in x.booked && x.booked[1].claim.open == 5 && Crossing(x, ClaimOf(BuyOfSix(ask, AON))) == {1}
    ensures 2 in Handled(AS_WRITTEN, x, BuyOfSix(ask, AON)).booked
    ensures Handled(AS_WRITTEN, x, BuyOfSix(ask, AON)).booked[2].claim == ClaimOf(BuyOfSix(ask, AON)).Fill(5)
  {
    hide Handled, Matched, Crossing, Orderly;
    VolumeSplit(x.booked, {1}, 1);
    AllOrNone(AS_WRITTEN, x, BuyOfSix(ask, AON));
  }

  // ---------------------------------------------------------------------------------------------
  // Fill-or-kill while stop orders wait
  // ---------------------------------------------------------------------------------------------

  function Ask(price: Price, open: nat, executed: nat): Claim { Claim(Sell, true, price, open + executed, open, executed) }

  function Stopped(open: nat): Claim
    requires open <= 1
  {
    Claim(Buy, false, MAX_PRICE, 1, open, 1 - open)
  }

  function Patient(open: nat): Claim
    requires open <= 3
  {
    Claim(Buy, true, 11, 3, open, 3 - open)
  }

  /** A sell of one at 10 and one of two at 11, a last price of 5, and a stop buy waiting for 10; then a
      fill-or-kill buy of three at 11 enters, which is exactly what there is. */
  const UNTIL_ENTRY := [Enter(1, Ask(10, 1, 0)), Rest(1), Enter(2, Ask(11, 2, 0)), Rest(2), Execute(1, 0, 5),
                        Enter(3, Stopped(1)), Park(3, StopTerms(10, false, 0)), Enter(4, Patient(3))]

  /** It takes the first sell; the stop buy that this activates takes one of the others; one is left for it. */
  const FROM_ENTRY := [Trade(4, 1, 10, 1), Withdraw(1), Trigger(3, 2), Trade(3, 2, 11, 1), Leave(3), Trade(4, 2, 11, 1),
                       Withdraw(2), Leave(4)]

  ghost function AtEntry(): State {
    State(map[4 := Patient(3)],
          map[1 := Ticket(Ask(10, 1, 0), Resting(1)), 2 := Ticket(Ask(11, 2, 0), Resting(3)),
              3 := Ticket(Stopped(1), Parked(StopTerms(10, false, 0), 1, 6))], 8, [5])
  }

  ghost function TwoSells(): State {
    State(map[], map[1 := Ticket(Ask(10, 1, 0), Resting(1)), 2 := Ticket(Ask(11, 2, 0), Resting(3))], 4, [])
  }

  /** The first sell rests. */
  ghost function OneSell(): State {
    State(map[], map[1 := Ticket(Ask(10, 1, 0), Resting(1))], 2, [])
  }

  lemma OneSellReached()
    ensures Replay(UNTIL_ENTRY[..2]) == Some(OneSell())
  {
    EmptyRun();
    hide Replay;
    var x := State(map[1 := Ask(10, 1, 0)], map[], 1, []);
    NextStep(UNTIL_ENTRY, 0, EMPTY, x);
    NextStep(UNTIL_ENTRY, 1, x, OneSell());
  }

  lemma TwoSellsReached()
    ensures Replay(UNTIL_ENTRY[..4]) == Some(TwoSells())
  {
    hide Replay;
    OneSellReached();
    var x := OneSell().(incoming := map[2 := Ask(11, 2, 0)], clock := 3);
    NextStep(UNTIL_ENTRY, 2, OneSell(), x);
    SecondRests(x);
    NextStep(UNTIL_ENTRY, 3, x, TwoSells());
  }

  /** Nothing contests the second sell, and with it there are two. */
  lemma SecondRests(x: State)
    requires x == OneSell().(incoming := map[2 := Ask(11, 2, 0)], clock := 3)
    ensures Legal(x, Rest(2)) && Apply(x, Rest(2)) == TwoSells()
  {
  }

  lemma EntryReached()
    ensures Replay(UNTIL_ENTRY) == Some(AtEntry())
  {
    hide Replay;
    var x6 := StopEntered();
    var t3 := Ticket(Stopped(1), Parked(StopTerms(10, false, 0), 1, 6));
    var x7 := State(map[], TwoSells().booked[3 := t3], 7, [5]);
    NextStep(UNTIL_ENTRY, 6, x6, x7);
    NextStep(UNTIL_ENTRY, 7, x7, AtEntry());
    assert UNTIL_ENTRY[..8] == UNTIL_ENTRY;
  }

  lemma StopEntered() returns (x: State)
    ensures x == State(map[3 := Stopped(1)], TwoSells().booked, 6, [5]) && Replay(UNTIL_ENTRY[..6]) == Some(x)
  {
    hide Replay;
    var x5 := State(map[], TwoSells().booked, 5, [5]);
    x := State(map[3 := Stopped(1)], TwoSells().booked, 6, [5]);
    TwoSellsReached();
    NextStep(UNTIL_ENTRY, 4, TwoSells(), x5);
    NextStep(UNTIL_ENTRY, 5, x5, x);
  }

  lemma NextStep(log: seq<Event>, n: nat, x: State, y: State)
    requires n < |log| && Replay(log[..n]) == Some(x) && Legal(x, log[n]) && Apply(x, log[n]) == y
    ensures Replay(log[..n + 1]) == Some(y)
  {
    StepTo(log[..n], x, log[n], y);
    assert log[..n + 1] == log[..n] + [log[n]];
  }

  function PatientOrder(): Order { Order(4, Limit, Buy, FOK, 11, 0, 0, 0, 3, 0, 3, 0) }

  /** The advancing check lets it through: enough crosses it. */
  lemma EntryPasses(v: Variant)
    ensures AtEntry().incoming[4] == ClaimOf(PatientOrder()) && Passes(v, AtEntry(), PatientOrder())
  {
    var x, c := AtEntry(), ClaimOf(PatientOrder());
    assert Crossing(x, c) == {1, 2};
    hide Crossing;
    VolumeSplit(x.booked, {1, 2}, 1);
    assert {1, 2} - {1} == {2};
    VolumeSplit(x.booked, {2}, 2);
  }

  const FULL_RUN := UNTIL_ENTRY + FROM_ENTRY

  /** Events 8 to 10: the first sell is taken and gone, the stop buy is triggered. */
  lemma FirstTaken() returns (y: State)
    ensures Replay(FULL_RUN[..10]) == Some(y) && Extends(FULL_RUN[..8], FULL_RUN[..10]) && FULL_RUN[..8] == UNTIL_ENTRY
    ensures y.incoming == map[4 := Patient(2)] && y.quotes == [5, 10]
    ensures y.booked == AtEntry().booked - {1}
  {
    EntryReached();
    hide Replay, Extends;
    assert FULL_RUN[..8] == UNTIL_ENTRY;
    ExtendsSelf(UNTIL_ENTRY);
    y := NextInternally(FULL_RUN, 8, Trade(4, 1, 10, 1), AtEntry());
    assert y.booked[1].claim.open == 0;
    y := NextInternally(FULL_RUN, 9, Withdraw(1), y);
  }

  /** The stop buy comes next. */
  lemma StopTriggered() returns (y: State)
    ensures Replay(FULL_RUN[..11]) == Some(y) && Extends(FULL_RUN[..8], FULL_RUN[..11]) && FULL_RUN[..8] == UNTIL_ENTRY
    ensures y.incoming == map[4 := Patient(2), 3 := Stopped(1)]
    ensures y.booked.Keys == {2} && y.booked[2] == Ticket(Ask(11, 2, 0), Resting(3))
  {
    hide Replay, Extends;
    y := FirstTaken();
    y := NextInternally(FULL_RUN, 10, Trigger(3, 2), y);
  }

  lemma StopTaken() returns (y: State)
    ensures Replay(FULL_RUN[..13]) == Some(y) && Extends(FULL_RUN[..8], FULL_RUN[..13]) && FULL_RUN[..8] == UNTIL_ENTRY
    ensures y.incoming.Keys == {4} && y.incoming[4] == Patient(2)
    ensures y.booked.Keys == {2} && y.booked[2] == Ticket(Ask(11, 1, 1), Resting(3))
  {
    hide Replay, Extends;
    y := StopTriggered();
    y := NextInternally(FULL_RUN, 11, Trade(3, 2, 11, 1), y);
    assert y.booked.Keys == {2} && y.incoming.Keys == {3, 4};
    y := NextInternally(FULL_RUN, 12, Leave(3), y);
  }

  lemma RestTaken() returns (y: State)
    ensures Replay(FULL_RUN[..15]) == Some(y) && FULL_RUN[..8] == UNTIL_ENTRY
    ensures Replay(FULL_RUN).Some? && Extends(UNTIL_ENTRY, FULL_RUN)
    ensures y.incoming.Keys == {4} && y.incoming[4] == Patient(1) && y.booked.Keys == {}
  {
    hide Replay, Extends;
    y := StopTaken();
    y := NextInternally(FULL_RUN, 13, Trade(4, 2, 11, 1), y);
    assert y.booked.Keys == {2} && y.booked[2].claim.open == 0;
    y := NextInternally(FULL_RUN, 14, Withdraw(2), y);
    var z := NextInternally(FULL_RUN, 15, Leave(4), y);
    assert FULL_RUN[..16] == FULL_RUN;
  }

  lemma NextInternally(log: seq<Event>, n: nat, e: Event, x: State) returns (y: State)
    requires 8 <= n < |log| && Replay(log[..n]) == Some(x) && log[n] == e && Legal(x, e)
    requires Extends(log[..8], log[..n]) && Internal(x, e)
    ensures y == Apply(x, e) && Replay(log[..n + 1]) == Some(y) && Extends(log[..8], log[..n + 1])
  {
    y := Apply(x, e);
    StepTo(log[..n], x, e, y);
    ExtendsBy(log[..8], log[..n], x, e);
    assert log[..n + 1] == log[..n] + [log[n]];
  }

  /** A fill-or-kill order that the advancing check lets through ends with one of three unfilled. */
  lemma FillOrKillDisturbed(v: Variant) returns (x: State)
    ensures Replay(UNTIL_ENTRY) == Some(AtEntry()) && Passes(v, AtEntry(), PatientOrder())
    ensures Extends(UNTIL_ENTRY, FULL_RUN) && Concluded(FULL_RUN, PatientOrder(), true)
    ensures Replay(FULL_RUN[..15]) == Some(x) && 4 in x.incoming && x.incoming[4].open == 1 && x.incoming[4].executed == 2
  {
    EntryReached();
    EntryPasses(v);
    x := RestTaken();
    hide Replay, Extends, Passes;
    assert |FULL_RUN| == 16;
  }
}
