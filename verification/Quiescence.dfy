/** When stop orders are quiet after activation, and above all stop buys: as written, the answer of the buy
    pass is overwritten by that of the sell pass, so that a stop buy may stay due. */
module Quiescence {
  import opened Exchange
  import opened Orders
  import opened Waiting

  // ---------------------------------------------------------------------------------------------
  // Quiet stop orders
  // ---------------------------------------------------------------------------------------------

  ghost predicate NoneDue(x: State, side: Side) {
    forall id | ParkedIn(x, id) && x.booked[id].claim.side == side :: !x.booked[id].DueAt(x.Last())
  }

  /** Every stop buy waits above the market; a trailing one need not at the top of the price range. */
  ghost predicate BuysWait(x: State) {
    forall id | ParkedIn(x, id) && x.booked[id].claim.side.Buy? :: BuyWaits(x, x.booked[id].phase.terms)
  }

  predicate BuyWaits(x: State, terms: StopTerms) {
    var market := MarketPriceFor(Buy, x.Last());
    (terms.trailing && market == MAX_PRICE) || terms.price > market
  }

  lemma TrailedAbove(last: Price, trail: Price)
    requires trail > 0 && MarketPriceFor(Buy, last) < MAX_PRICE
    ensures TrailedPrice(Buy, last, trail) > MarketPriceFor(Buy, last)
  {
  }

  /** Trailing orders wait at a distance. */
  ghost predicate TrailApart(x: State) {
    forall id | ParkedIn(x, id) && x.booked[id].phase.terms.trailing :: x.booked[id].phase.terms.trail > 0
  }

  /** An order that trailed by nothing would have been due when it was parked. */
  lemma {:induction false} AllTrailApart(log: seq<Event>)
    requires Replay(log).Some?
    ensures TrailApart(Replay(log).value)
  {
    if log != [] {
      var init := log[..|log| - 1];
      AllTrailApart(init);
      TrailApartStep(Replay(init).value, log[|log| - 1]);
      hide TrailApart, Legal, Apply;
    }
  }

  lemma TrailApartStep(x: State, e: Event)
    requires TrailApart(x) && Legal(x, e)
    ensures TrailApart(Apply(x, e))
  {
    forall id | ParkedIn(Apply(x, e), id) && Apply(x, e).booked[id].phase.terms.trailing
      ensures Apply(x, e).booked[id].phase.terms.trail > 0
    {
      ParkedStep(x, e, id);
    }
  }

  /** Repricing one side makes no stop order of the other side due, and none of its own if none was; it makes no stop
      buy due. */
  lemma RepricingIsQuiet(x: State, side: Side)
    ensures Legal(x, Reprice(side)) && Apply(x, Reprice(side)).Last() == x.Last()
    ensures NoneDue(x, side.Opposite()) ==> NoneDue(Apply(x, Reprice(side)), side.Opposite())
    ensures NoneDue(x, side) && TrailApart(x) ==> NoneDue(Apply(x, Reprice(side)), side)
    ensures BuysWait(x) && TrailApart(x) ==> BuysWait(Apply(x, Reprice(side)))
  {
    if MarketPriceFor(Buy, x.Last()) < MAX_PRICE {
      forall trail: Price | trail > 0 ensures TrailedPrice(Buy, x.Last(), trail) > MarketPriceFor(Buy, x.Last()) {
        TrailedAbove(x.Last(), trail);
      }
    }
  }

  lemma QuietBuysWait(x: State)
    requires NoneDue(x, Buy)
    ensures BuysWait(x)
  {
  }

  ghost predicate WaitingBuy(x: State, id: Id) {
    ParkedIn(x, id) && x.booked[id].claim.side.Buy? && !x.booked[id].phase.terms.trailing
  }

  /** No plain stop buy is left that was due at the last price `last`. */
  ghost predicate Cleared(x: State, last: Price) {
    forall id | WaitingBuy(x, id) :: x.booked[id].phase.terms.price > MarketPriceFor(Buy, last)
  }

  lemma ClearedFurther(before: seq<Event>, after: seq<Event>, last: Price)
    requires Extends(before, after) && Replay(after).Some?
    ensures Replay(before).Some? && (Cleared(Replay(before).value, last) ==> Cleared(Replay(after).value, last))
  {
    ExtendsFewer(before, after);
    var x, y := Replay(before).value, Replay(after).value;
    assert forall id | WaitingBuy(y, id) :: StillParked(x, y, id) && WaitingBuy(x, id);
  }

  // ---------------------------------------------------------------------------------------------
  // When nothing is due, trailing orders are repriced and nothing else happens
  // ---------------------------------------------------------------------------------------------

  predicate OnlyReprices(before: seq<Event>, after: seq<Event>) {
    before <= after && forall i | |before| <= i < |after| :: after[i].Reprice?
  }

  /** The stop prices of trailing orders are all that differs. */
  ghost predicate OnlyRepriced(x: State, y: State) {
    && y.incoming == x.incoming && y.quotes == x.quotes && y.booked.Keys == x.booked.Keys
    && forall id | id in x.booked ::
         if x.booked[id].phase.Parked? && x.booked[id].phase.terms.trailing
         then y.booked[id] == x.booked[id].(phase := x.booked[id].phase.(terms :=
                x.booked[id].phase.terms.(price :=
                  if y.booked[id].phase.Parked? then y.booked[id].phase.terms.price else 0)))
         else y.booked[id] == x.booked[id]
  }

  lemma {:induction false} RepricesMean(before: seq<Event>, after: seq<Event>)
    requires OnlyReprices(before, after) && Replay(after).Some?
    ensures Replay(before).Some? && OnlyRepriced(Replay(before).value, Replay(after).value)
    decreases |after|
  {
    if |before| < |after| {
      var init := after[..|after| - 1];
      LastStep(after);
      RepricesMean(before, init);
      RepricedStep(Replay(before).value, Replay(init).value, after[|after| - 1]);
      hide Replay, Legal, Apply, OnlyRepriced;
    } else {
      assert before == after;
    }
  }

  lemma RepricedStep(x: State, y: State, e: Event)
    requires OnlyRepriced(x, y) && Legal(y, e) && e.Reprice?
    ensures OnlyRepriced(x, Apply(y, e))
  {
  }

  ghost predicate Quiet(x: State) { NoneDue(x, Buy) && NoneDue(x, Sell) }

  lemma {:induction false} RepricesAreQuiet(before: seq<Event>, after: seq<Event>)
    requires OnlyReprices(before, after) && Replay(after).Some?
    ensures Replay(before).Some? && (Quiet(Replay(before).value) ==> Quiet(Replay(after).value))
    decreases |after|
  {
    if |before| < |after| {
      var init, e := after[..|after| - 1], after[|after| - 1];
      LastStep(after);
      RepricesAreQuiet(before, init);
      AllTrailApart(init);
      RepricingIsQuiet(Replay(init).value, e.side);
      assert e == Reprice(e.side);
      hide Replay, Legal, Apply, NoneDue, TrailApart;
    } else {
      assert before == after;
    }
  }

  /** Withdrawing an order makes none due, nor does one that comes in, or is parked. */
  lemma QuietStep(x: State, e: Event)
    requires Quiet(x) && Legal(x, e) && (e.Withdraw? || e.Enter? || e.Park?)
    ensures Quiet(Apply(x, e))
  {
    var y := Apply(x, e);
    forall id | ParkedIn(y, id) ensures !y.booked[id].DueAt(y.Last()) {
      if ParkedIn(x, id) && y.booked[id] == x.booked[id] {
        assert !x.booked[id].DueAt(x.Last());
      }
    }
  }

  // ---------------------------------------------------------------------------------------------
  // How activation ends
  // ---------------------------------------------------------------------------------------------

  /** The last pass began when the log was `start` and had dealt with the buy side at `half`: every stop buy due
      at its start is gone, no stop sell was due after its buy half, and then only trailing orders were repriced.
      If no stop buy was due at its start, which is certain if both flags are kept, none is due now. */
  ghost predicate LastPass(bothFlags: bool, before: seq<Event>, start: seq<Event>, half: seq<Event>, log: seq<Event>) {
    && Extends(before, start) && Extends(start, half) && Extends(half, log)
    && Replay(start).Some? && Replay(half).Some? && Replay(log).Some?
    && Cleared(Replay(log).value, Replay(start).value.Last())
    && NoneDue(Replay(half).value, Sell)
    && OnlyReprices(half, log)
    && (bothFlags ==> NoneDue(Replay(start).value, Buy))
    && (NoneDue(Replay(start).value, Buy) ==> BuysWait(Replay(log).value))
  }

  ghost predicate Finished(bothFlags: bool, before: seq<Event>, log: seq<Event>) {
    exists start, half :: LastPass(bothFlags, before, start, half, log)
  }

  lemma FinishedFurther(bothFlags: bool, a: seq<Event>, b: seq<Event>, log: seq<Event>)
    requires Extends(a, b) && Finished(bothFlags, b, log)
    ensures Finished(bothFlags, a, log)
  {
    var start, half :| LastPass(bothFlags, b, start, half, log);
    ExtendsFurther(a, b, start);
    assert LastPass(bothFlags, a, start, half, log);
  }

  /** With both flags kept, stop buys are quiet whenever activation has come to its end. */
  lemma BothFlagsSuffice(before: seq<Event>, log: seq<Event>)
    requires Finished(true, before, log)
    ensures Replay(log).Some? && BuysWait(Replay(log).value)
  {
  }

  // ---------------------------------------------------------------------------------------------
  // When the code as written leaves no stop buy due
  // ---------------------------------------------------------------------------------------------

  /** All limits in the book and in flight are among `prices`. */
  ghost predicate Priced(x: State, prices: set<Price>) {
    && 0 !in prices
    && (forall id | id in x.incoming && x.incoming[id].canRest :: x.incoming[id].limit in prices)
    && (forall id | id in x.booked && (x.booked[id].claim.canRest || x.booked[id].phase.Resting?) ::
          x.booked[id].claim.limit in prices)
  }

  ghost predicate Beyond(stop: Price, prices: set<Price>) {
    forall p | p in prices :: p < stop
  }

  ghost predicate StopAt(x: State, id: Id, stop: Price) {
    WaitingBuy(x, id) && x.booked[id].phase.terms.price == stop
  }

  /** At this market price no stop buy is due, or all are that any of `prices` can reach. */
  ghost predicate PoisedAt(x: State, prices: set<Price>, market: Price) {
    || (forall id, stop: Price | StopAt(x, id, stop) :: stop > market)
    || (forall id, stop: Price | StopAt(x, id, stop) :: stop <= market || Beyond(stop, prices))
  }

  /** No trailing buy waits, and no price in the book lies between two stop buys that the market can reach. */
  ghost predicate Calm(x: State, prices: set<Price>) {
    && Priced(x, prices)
    && (forall id | ParkedIn(x, id) && x.booked[id].claim.side.Buy? :: WaitingBuy(x, id))
    && (forall p | p in prices :: PoisedAt(x, prices, p))
    && PoisedAt(x, prices, MarketPriceFor(Buy, x.Last()))
  }

  /** Every plain stop buy waiting in `y` waits in `x` at the same price, perhaps under another id. */
  ghost predicate StopsAmong(x: State, y: State) {
    forall id, stop: Price | StopAt(y, id, stop) :: exists i :: StopAt(x, i, stop)
  }

  lemma PoisedAmong(x: State, y: State, prices: set<Price>, market: Price)
    requires PoisedAt(x, prices, market) && StopsAmong(x, y)
    ensures PoisedAt(y, prices, market)
  {
  }

  lemma FewerStops(x: State, y: State)
    requires forall id | WaitingBuy(y, id) :: StopAt(x, id, y.booked[id].phase.terms.price)
    ensures StopsAmong(x, y)
  {
  }

  lemma CalmAmong(x: State, y: State, prices: set<Price>)
    requires Calm(x, prices) && Priced(y, prices) && StopsAmong(x, y)
    requires forall id | ParkedIn(y, id) && y.booked[id].claim.side.Buy? :: WaitingBuy(y, id)
    requires y.Last() == x.Last() || y.Last() in prices
    ensures Calm(y, prices)
  {
    forall p | p in prices ensures PoisedAt(y, prices, p) {
      PoisedAmong(x, y, prices, p);
    }
    PoisedAmong(x, y, prices, MarketPriceFor(Buy, y.Last()));
    hide PoisedAt;
  }

  /** Matching, activation and withdrawals do not disturb that. */
  lemma CalmStep(x: State, e: Event, prices: set<Price>)
    requires Legal(x, e) && (Internal(x, e) || e.Withdraw?) && Calm(x, prices)
    ensures Calm(Apply(x, e), prices)
    ensures Apply(x, e).Last() == x.Last() || Apply(x, e).Last() in prices
  {
    var y := Apply(x, e);
    assert Priced(y, prices) && (y.Last() == x.Last() || y.Last() in prices) by {
      hide PoisedAt;
    }
    forall id | ParkedIn(y, id) ensures StillParked(x, y, id) {
    }
    hide Legal, Apply, PoisedAt, Priced;
    FewerStops(x, y);
    CalmAmong(x, y, prices);
  }

  lemma {:induction false} CalmKept(before: seq<Event>, after: seq<Event>, prices: set<Price>)
    requires Extends(before, after) && Replay(after).Some? && Replay(before).Some? && Calm(Replay(before).value, prices)
    ensures Calm(Replay(after).value, prices)
    ensures Replay(after).value.Last() == Replay(before).value.Last() || Replay(after).value.Last() in prices
    decreases |after|
  {
    if |before| < |after| {
      ExtendsStep(before, after);
      CalmKept(before, after[..|after| - 1], prices);
      CalmStep(Replay(after[..|after| - 1]).value, after[|after| - 1], prices);
      hide Calm, Legal, Apply, Internal;
    } else {
      assert before == after;
    }
  }

  /** As written too: if activation begins calm, stop buys are quiet at its end. */
  lemma CalmIsQuiet(bothFlags: bool, before: seq<Event>, log: seq<Event>, prices: set<Price>)
    requires Finished(bothFlags, before, log) && Replay(before).Some? && Calm(Replay(before).value, prices)
    ensures Replay(log).Some? && BuysWait(Replay(log).value)
  {
    var start, half :| LastPass(bothFlags, before, start, half, log);
    CalmKept(before, start, prices);
    ExtendsFurther(start, half, log);
    CalmKept(start, log, prices);
    ExtendsFewer(start, log);
    hide Extends, Replay;
    CalmEnds(Replay(start).value, Replay(log).value, prices);
  }

  lemma CalmEnds(x: State, y: State, prices: set<Price>)
    requires Calm(x, prices) && Calm(y, prices) && Fewer(x, y) && Cleared(y, x.Last())
    requires y.Last() == x.Last() || y.Last() in prices
    requires NoneDue(x, Buy) ==> BuysWait(y)
    ensures BuysWait(y)
  {
    var market := MarketPriceFor(Buy, x.Last());
    if forall id, stop: Price | StopAt(x, id, stop) :: stop > market {
      assert forall id | ParkedIn(x, id) && x.booked[id].claim.side.Buy? :: StopAt(x, id, x.booked[id].phase.terms.price);
    } else {
      forall id | ParkedIn(y, id) && y.booked[id].claim.side.Buy? ensures BuyWaits(y, y.booked[id].phase.terms) {
        assert WaitingBuy(y, id) && StillParked(x, y, id);
        assert StopAt(x, id, y.booked[id].phase.terms.price);
      }
    }
  }
}
