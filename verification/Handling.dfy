/** What becomes of an incoming order, above all a fill-or-kill order, when nothing is activated meanwhile. */
module Handling {
  import opened BookState
  import opened Exchange
  import opened GreedyFill
  import opened Options
  import opened Orders
  import opened Quiescence
  import opened Waiting

  /** Two places where the code does less than its comments say: the fill-or-kill scan does not move on to
      the next level, and the flag of the buy pass is overwritten by the sell pass. */
  datatype Variant = Variant(advancing: bool, bothFlags: bool)

  const AS_WRITTEN := Variant(false, false)

  /** What the fill-or-kill check answers. */
  ghost predicate GateOpen(v: Variant, x: State, claim: Claim) {
    var crossing := Crossing(x, claim);
    crossing != {} && (v.advancing ==> Volume(x.booked, crossing) >= claim.open)
  }

  ghost predicate Passes(v: Variant, x: State, o: Order) {
    o.tif.FOK? ==> GateOpen(v, x, ClaimOf(o))
  }

  /** The unfilled rest of the order is booked. */
  predicate Stays(o: Order, open: nat) {
    o.typ.Limit? && open != 0 && !o.tif.IOC? && !o.tif.FOK?
  }

  /** No order trails behind the market, and no waiting order is due at a price that `claim` could trade at:
      then nothing is activated while it is matched. */
  ghost predicate Undisturbed(x: State, claim: Claim) {
    && NoneTrails(x)
    && forall id, m | ParkedIn(x, id) && m in Crossing(x, claim) :: !x.booked[id].DueAt(x.booked[m].claim.limit)
  }

  ghost predicate NoneTrails(x: State) {
    forall id | ParkedIn(x, id) :: !x.booked[id].phase.terms.trailing
  }

  /** Nothing is due and nothing trails. */
  ghost predicate AtRest(x: State) {
    NoneDue(x, Buy) && NoneDue(x, Sell) && NoneTrails(x)
  }

  /** Undisturbed, a trade makes nothing due, and matching goes on undisturbed. */
  lemma UndisturbedStep(x: State, taker: Id, maker: Id)
    requires taker in x.incoming && x.incoming[taker].open > 0
    requires Orderly(x) && IsBest(x, x.incoming[taker], maker) && Undisturbed(x, x.incoming[taker])
    ensures AtRest(Apply(x, BestTrade(x, taker, maker)))
    ensures AtRest(TradeOnce(x, taker, maker))
    ensures Undisturbed(TradeOnce(x, taker, maker), TradeOnce(x, taker, maker).incoming[taker])
  {
    CrossingShrinks(x, taker, maker);
  }

  /** The incoming order after matching, when nothing is activated meanwhile. */
  ghost function Matched(v: Variant, x: State, o: Order): (y: State)
    requires o.id in x.incoming && Orderly(x)
    ensures o.id in y.incoming && y.incoming[o.id].canRest == x.incoming[o.id].canRest
    ensures o.tif.FOK? || y.incoming[o.id].open == 0 || Crossing(y, y.incoming[o.id]) == {}
  {
    if Passes(v, x, o) then Fill(x, o.id) else x
  }

  /** What the exchange does with an incoming market or limit order when nothing is activated meanwhile. */
  ghost function Handled(v: Variant, x: State, o: Order): State
    requires o.id in x.incoming && x.incoming[o.id] == ClaimOf(o) && Orderly(x)
  {
    var y := Matched(v, x, o);
    if Stays(o, y.incoming[o.id].open) then
      NothingCrosses(y, y.incoming[o.id]);
      Apply(y, Rest(o.id))
    else Apply(y, Leave(o.id))
  }

  /** If nothing was due before, nothing is afterwards. */
  lemma HandledAtRest(v: Variant, x: State, o: Order)
    requires o.id in x.incoming && x.incoming[o.id] == ClaimOf(o) && Orderly(x)
    requires AtRest(x) && Undisturbed(x, ClaimOf(o))
    ensures AtRest(Handled(v, x, o))
  {
    FilledAtRest(x, o.id);
    SettledAtRest(v, x, o);
    hide AtRest, Handled, Fill;
  }

  lemma SettledAtRest(v: Variant, x: State, o: Order)
    requires o.id in x.incoming && x.incoming[o.id] == ClaimOf(o) && Orderly(x)
    requires AtRest(Matched(v, x, o))
    ensures AtRest(Handled(v, x, o))
  {
    var y, z := Matched(v, x, o), Handled(v, x, o);
    assert z.quotes == y.quotes && forall id | ParkedIn(z, id) :: ParkedIn(y, id) && z.booked[id] == y.booked[id];
    hide Handled, Matched;
  }

  lemma FilledAtRest(x: State, taker: Id)
    requires taker in x.incoming && Orderly(x) && AtRest(x) && Undisturbed(x, x.incoming[taker])
    ensures AtRest(Fill(x, taker))
  {
    var y := Fill(x, taker);
    hide Fill, Crossing, Orderly;
    forall id | ParkedIn(y, id) ensures ParkedIn(x, id) && y.booked[id] == x.booked[id] {
      WaitsThrough(x, taker, id);
    }
    FillLast(x, taker);
  }

  lemma WaitsThrough(x: State, taker: Id, id: Id)
    requires taker in x.incoming && Orderly(x) && ParkedIn(Fill(x, taker), id)
    ensures ParkedIn(x, id) && Fill(x, taker).booked[id] == x.booked[id]
  {
    if x.booked.Keys != {} {
      var some := if id in x.booked then id else var b :| b in x.booked; b;
      FillShrinks(x, taker, some);
    } else {
      FillEmpty(x, taker);
    }
  }

  lemma FillEmpty(x: State, taker: Id)
    requires taker in x.incoming && Orderly(x) && x.booked.Keys == {}
    ensures Fill(x, taker) == x
  {
  }

  /** The order is filled completely, or all that happens is that it leaves. */
  ghost predicate AllOrNothing(v: Variant, x: State, o: Order)
    requires o.id in x.incoming && x.incoming[o.id] == ClaimOf(o) && Orderly(x)
  {
    Matched(v, x, o).incoming[o.id].open == 0 || Handled(v, x, o) == Apply(x, Leave(o.id))
  }

  /** Fill-or-kill, if nothing is activated meanwhile: with the advancing scan the order is filled completely
      or nothing happens, and it is filled whenever enough crosses it; as written it is all or nothing exactly
      if enough crosses it or nothing does. What is left never rests. */
  lemma FillOrKill(v: Variant, x: State, o: Order)
    requires o.id in x.incoming && x.incoming[o.id] == ClaimOf(o) && Orderly(x) && o.tif.FOK?
    ensures o.id !in Handled(v, x, o).incoming && Handled(v, x, o).booked == Matched(v, x, o).booked
    ensures v.advancing ==> AllOrNothing(v, x, o)
    ensures v.advancing && Volume(x.booked, Crossing(x, ClaimOf(o))) >= o.open && Crossing(x, ClaimOf(o)) != {} ==>
              Matched(v, x, o).incoming[o.id].open == 0
    ensures !v.advancing ==>
              (AllOrNothing(v, x, o) <==>
               (Volume(x.booked, Crossing(x, ClaimOf(o))) >= o.open || Crossing(x, ClaimOf(o)) == {}))
  {
    FillIsAllOrNothing(x, o.id);
    FillAmount(x, o.id);
    LeavesTheSame(v, x, o);
    if Crossing(x, ClaimOf(o)) == {} {
      NothingCrosses(x, ClaimOf(o));
      FillDone(x, o.id);
    }
    hide Fill;
  }

  /** All-or-none, if nothing is activated meanwhile: the code matches such an order like one that is good till
      cancelled, so it is executed as a whole or not at all exactly if enough crosses it or nothing does. What is
      left of it rests. */
  lemma AllOrNone(v: Variant, x: State, o: Order)
    requires o.id in x.incoming && x.incoming[o.id] == ClaimOf(o) && Orderly(x) && o.tif.AON? && o.typ.Limit?
    ensures var left, volume := Matched(v, x, o).incoming[o.id].open, Volume(x.booked, Crossing(x, ClaimOf(o)));
            && left == (if volume < o.open then o.open - volume else 0)
            && ((left == 0 || left == o.open) <==> (volume >= o.open || Crossing(x, ClaimOf(o)) == {}))
            && (left > 0 ==> o.id in Handled(v, x, o).booked
                             && Handled(v, x, o).booked[o.id].claim == ClaimOf(o).Fill(o.open - left))
  {
    FillAmount(x, o.id);
    var crossing := Crossing(x, ClaimOf(o));
    if crossing != {} {
      var id :| id in crossing;
      VolumeSplit(x.booked, crossing, id);
    }
    hide Fill, Crossing;
  }

  lemma LeavesTheSame(v: Variant, x: State, o: Order)
    requires o.id in x.incoming && x.incoming[o.id] == ClaimOf(o) && Orderly(x) && o.tif.FOK?
    ensures Matched(v, x, o) == x ==> Handled(v, x, o) == Apply(x, Leave(o.id))
    ensures Handled(v, x, o) == Apply(x, Leave(o.id)) && Matched(v, x, o).incoming[o.id].open != 0 ==> Matched(v, x, o) == x
  {
    FillAmount(x, o.id);
    FillClock(x, o.id);
  }

  /** Filling is no event fewer than nothing. */
  lemma {:induction false} FillClock(x: State, taker: Id)
    requires taker in x.incoming && Orderly(x)
    ensures Fill(x, taker).clock >= x.clock && (Fill(x, taker).clock == x.clock ==> Fill(x, taker) == x)
    decreases x.incoming[taker].open
  {
    var claim := x.incoming[taker];
    if claim.open > 0 && Crossing(x, claim) != {} {
      BestExists(x, claim);
      var maker :| IsBest(x, claim, maker);
      FillStep(x, taker, maker);
      FillClock(TradeOnce(x, taker, maker), taker);
    }
  }

  /** An incoming order once its stop price has been compared with the market: a stop order that is due
      comes in as a market or limit order, and a trailing one gets its stop price first. */
  function Arriving(o: Order, last: Price): Order {
    var p := if o.typ.IsTrailing() then o.(stopPrice := TrailedPrice(o.side, last, o.trail)) else o;
    if o.typ.IsStop() && Due(o.side, p.stopPrice, MarketPriceFor(o.side, last)) then p.Activate() else p
  }

  /** No order resting on the other side could still trade with the order: there is none, or none within its price. */
  ghost predicate NothingLeftFor(x: State, o: Order) {
    forall id | id in x.booked && x.booked[id].RestsOn(o.side.Opposite()) ::
      !o.typ.Market? && if o.side.Buy? then x.booked[id].claim.limit > o.price else x.booked[id].claim.limit < o.price
  }

  /** The last event of the log decides an incoming order that the gate let through or not. A limit order that is
      good till cancelled or all or none rests if some of it is open, and every other order leaves. What is
      left of it could trade with no resting order at that moment. */
  ghost predicate Concluded(log: seq<Event>, o: Order, passed: bool) {
    && log != []
    && var before := Replay(log[..|log| - 1]);
    && before.Some? && o.id in before.value.incoming
    && var claim := before.value.incoming[o.id];
    && claim.open <= o.open && claim == ClaimOf(o).Fill(o.open - claim.open)
    && log[|log| - 1] == (if o.typ.Limit? && claim.open > 0 && (o.tif.GTC? || o.tif.AON?) then Rest(o.id) else Leave(o.id))
    && if passed then claim.open == 0 || NothingLeftFor(before.value, o) else claim.open == o.open
  }

  lemma Concludes(log: seq<Event>, x: State, o: Order, passed: bool)
    requires Replay(log) == Some(x) && o.id in x.incoming && (o.typ.Market? || o.typ.Limit?)
    requires var claim := x.incoming[o.id];
      && claim.open <= o.open && claim == ClaimOf(o).Fill(o.open - claim.open)
      && if passed then claim.open == 0 || Uncontested(x, claim) else claim.open == o.open
    ensures Concluded(log + [if Stays(o, x.incoming[o.id].open) then Rest(o.id) else Leave(o.id)], o, passed)
  {
    var e := if Stays(o, x.incoming[o.id].open) then Rest(o.id) else Leave(o.id);
    assert (log + [e])[..|log|] == log;
    if Uncontested(x, x.incoming[o.id]) {
      UncontestedMeans(x, o, x.incoming[o.id]);
    }
    hide Replay, Uncontested, NothingLeftFor;
  }

  lemma UncontestedMeans(x: State, o: Order, claim: Claim)
    requires o.typ.Market? || o.typ.Limit?
    requires claim.side == o.side && claim.limit == ClaimOf(o).limit && Uncontested(x, claim)
    ensures NothingLeftFor(x, o)
  {
  }

  lemma ConcludedInFlight(log: seq<Event>, o: Order, passed: bool)
    requires Concluded(log, o, passed)
    ensures log != [] && !log[|log| - 1].Trigger?
    ensures Replay(log[..|log| - 1]).Some? && o.id in Replay(log[..|log| - 1]).value.incoming
  {
  }

  /** The order differs at most in what has been executed, and nothing got lost. */
  predicate Progressed(before: Order, after: Order) {
    && after == before.(open := after.open, executed := after.executed,
                        lastExecutedPrice := after.lastExecutedPrice,
                        lastExecutedQuantity := after.lastExecutedQuantity)
    && after.open <= before.open
    && after.open + after.executed == before.open + before.executed
  }
}
