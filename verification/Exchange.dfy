/** The reference exchange: a flat set of orders, one event at a time, no levels, no index and no
    re-entrance. An event is legal only if price-time priority and the price limits allow it, so a log
    that replays is a run a price-time exchange could have made. The order book keeps such a log. */
module Exchange {
  import opened Orders
  import opened Options

  /** What an order asks for; only one with a limit of its own can rest. */
  datatype Claim = Claim(side: Side, canRest: bool, limit: Price, quantity: nat, open: nat, executed: nat) {
    /** The claim may trade at `price`. */
    predicate Crosses(price: Price) {
      if side.Sell? then price >= limit else price <= limit
    }

    function Fill(amount: nat): Claim
      requires amount <= open
    {
      this.(open := open - amount, executed := executed + amount)
    }

    predicate Balanced() { quantity == open + executed }
  }

  /** The stop price an order waits for, which follows the market at a distance `trail` if it is trailing. */
  datatype StopTerms = StopTerms(price: Price, trailing: bool, trail: Price)

  /** A booked order waits for its stop price, since there were `since` quotes, or rests in the book; in both
      cases since event number `arrived`. */
  datatype Phase = Parked(terms: StopTerms, since: nat, arrived: nat) | Resting(arrived: nat)

  datatype Ticket = Ticket(claim: Claim, phase: Phase) {
    predicate RestsOn(side: Side) { phase.Resting? && claim.side == side }

    predicate WaitsOn(side: Side) { phase.Parked? && claim.side == side }

    /** The stop price is reached when the last traded price is `last`. */
    predicate DueAt(last: Price)
      requires phase.Parked?
    {
      Due(claim.side, phase.terms.price, MarketPriceFor(claim.side, last))
    }

    /** A trailing order of this side gets the stop price that the last price calls for. */
    function Repriced(side: Side, last: Price): Ticket {
      if WaitsOn(side) && phase.terms.trailing
      then this.(phase := phase.(terms := phase.terms.(price := TrailedPrice(side, last, phase.terms.trail))))
      else this
    }

    /** This ticket is served before `other`: a better price, or the same price and an earlier arrival. */
    predicate Outranks(other: Ticket)
      requires phase.Resting? && other.phase.Resting?
    {
      || (if claim.side.Buy? then claim.limit > other.claim.limit else claim.limit < other.claim.limit)
      || (claim.limit == other.claim.limit && phase.arrived < other.phase.arrived)
    }

    /** This stop order is triggered before `other`: the market falling reaches its price first, for a sell, or
        rising, for a buy; or they have the same price, and this one was parked earlier unless they trail. */
    predicate TriggersBefore(other: Ticket)
      requires phase.Parked? && other.phase.Parked?
    {
      || (if claim.side.Sell? then phase.terms.price > other.phase.terms.price else phase.terms.price < other.phase.terms.price)
      || (phase.terms.price == other.phase.terms.price && (phase.terms.trailing || phase.arrived < other.phase.arrived))
    }
  }

  /** Orders being matched right now (several when matching is nested), booked orders, the number of
      events so far, and the last traded prices in the order in which they were quoted. */
  datatype State = State(incoming: map<Id, Claim>, booked: map<Id, Ticket>, clock: nat, quotes: seq<Price>) {
    /** The last traded price after `n` quotes. */
    function LastAt(n: nat): Price
      requires n <= |quotes|
    {
      if n == 0 then 0 else quotes[n - 1]
    }

    function Last(): Price { LastAt(|quotes|) }

    /** The claim of a known order, in flight or booked. */
    function Find(id: Id): Option<Claim> {
      if id in incoming then Some(incoming[id])
      else if id in booked then Some(booked[id].claim)
      else None
    }
  }

  datatype Event =
    | Enter(id: Id, claim: Claim)
    | Park(id: Id, terms: StopTerms)
    | Reprice(side: Side)
    | Trigger(id: Id, quote: nat)
    | Rest(id: Id)
    | Leave(id: Id)
    | Withdraw(id: Id)
    | Amend(id: Id, open: nat)
    | Execute(id: Id, quantity: nat, price: Price)
    | Trade(taker: Id, maker: Id, price: Price, quantity: nat)

  const EMPTY := State(map[], map[], 0, [])

  /** `maker` is the first order to be served on its side. */
  ghost predicate IsFirst(x: State, maker: Id) {
    && maker in x.booked
    && x.booked[maker].phase.Resting?
    && forall id | id in x.booked && id != maker && x.booked[id].RestsOn(x.booked[maker].claim.side) ::
         x.booked[maker].Outranks(x.booked[id])
  }

  /** Of the stop orders that wait on its side, trailing or not like itself, this one is the first to be triggered. */
  ghost predicate IsForemost(x: State, id: Id) {
    && id in x.booked && x.booked[id].phase.Parked?
    && forall other | && other in x.booked && other != id && x.booked[other].WaitsOn(x.booked[id].claim.side)
                      && x.booked[other].phase.terms.trailing == x.booked[id].phase.terms.trailing ::
         x.booked[id].TriggersBefore(x.booked[other])
  }

  /** No resting order on the other side could trade with `claim`. */
  ghost predicate Uncontested(x: State, claim: Claim) {
    forall id | id in x.booked && x.booked[id].RestsOn(claim.side.Opposite()) ::
      !claim.Crosses(x.booked[id].claim.limit)
  }

  ghost predicate LegalTrade(x: State, taker: Id, maker: Id, price: Price, quantity: nat) {
    && taker in x.incoming
    && IsFirst(x, maker)
    && x.booked[maker].claim.side == x.incoming[taker].side.Opposite()
    && price == x.booked[maker].claim.limit
    && x.incoming[taker].Crosses(price)
    && quantity == Min(x.incoming[taker].open, x.booked[maker].claim.open)
    && quantity > 0
  }

  /** A stop order waits only if it is not due, and a trailing one waits at its distance to the market. */
  ghost predicate LegalPark(x: State, id: Id, terms: StopTerms) {
    && id in x.incoming
    && !Due(x.incoming[id].side, terms.price, MarketPriceFor(x.incoming[id].side, x.Last()))
    && (terms.trailing ==> terms.price == TrailedPrice(x.incoming[id].side, x.Last(), terms.trail))
  }

  /** A stop order is triggered if it is the foremost of its kind and due at a last price there has been since it
      was parked. */
  ghost predicate LegalTrigger(x: State, id: Id, quote: nat) {
    && IsForemost(x, id)
    && x.booked[id].phase.since <= quote <= |x.quotes|
    && x.booked[id].DueAt(x.LastAt(quote))
  }

  ghost predicate Legal(x: State, e: Event) {
    match e
    case Enter(id, _) => id !in x.incoming && id !in x.booked
    case Park(id, terms) => LegalPark(x, id, terms)
    case Reprice(_) => true
    case Trigger(id, quote) => LegalTrigger(x, id, quote)
    case Rest(id) =>
      id in x.incoming && x.incoming[id].canRest && x.incoming[id].open > 0 && Uncontested(x, x.incoming[id])
    case Leave(id) => id in x.incoming
    case Withdraw(id) => id in x.booked
    case Amend(id, open) => id in x.booked && open <= x.booked[id].claim.open
    case Execute(id, quantity, _) => id in x.booked && quantity <= x.booked[id].claim.open
    case Trade(taker, maker, price, quantity) => LegalTrade(x, taker, maker, price, quantity)
  }

  /** All trailing orders of one side get the stop price that the last price calls for. */
  ghost function RepricedAll(booked: map<Id, Ticket>, side: Side, last: Price): map<Id, Ticket> {
    map id | id in booked :: booked[id].Repriced(side, last)
  }

  ghost function Apply(x: State, e: Event): State
    requires Legal(x, e)
  {
    var y := x.(clock := x.clock + 1);
    match e
    case Enter(id, claim) => y.(incoming := x.incoming[id := claim])
    case Park(id, terms) =>
      y.(incoming := x.incoming - {id}, booked := x.booked[id := Ticket(x.incoming[id], Parked(terms, |x.quotes|, x.clock))])
    case Reprice(side) => y.(booked := RepricedAll(x.booked, side, x.Last()))
    case Trigger(id, _) =>
      y.(incoming := x.incoming[id := x.booked[id].claim], booked := x.booked - {id})
    case Rest(id) =>
      y.(incoming := x.incoming - {id}, booked := x.booked[id := Ticket(x.incoming[id], Resting(x.clock))])
    case Leave(id) => y.(incoming := x.incoming - {id})
    case Withdraw(id) => y.(booked := x.booked - {id})
    case Amend(id, open) =>
      var t := x.booked[id];
      y.(booked := x.booked[id := t.(claim := t.claim.(quantity := open, open := open))])
    case Execute(id, quantity, price) =>
      var t := x.booked[id];
      y.(booked := x.booked[id := t.(claim := t.claim.Fill(quantity))],
         quotes := x.quotes + [price])
    case Trade(taker, maker, price, quantity) =>
      var t := x.booked[maker];
      y.(incoming := x.incoming[taker := x.incoming[taker].Fill(quantity)],
         booked := x.booked[maker := t.(claim := t.claim.Fill(quantity))],
         quotes := x.quotes + [price])
  }

  /** The state a log leads to, if every event of it was legal when it happened. */
  ghost function Replay(log: seq<Event>): Option<State> {
    if log == [] then Some(EMPTY)
    else
      var before := Replay(log[..|log| - 1]);
      if before.Some? && Legal(before.value, log[|log| - 1])
      then Some(Apply(before.value, log[|log| - 1]))
      else None
  }

  /** What matching and activation do on their own: trade, trigger stop orders, reprice trailing ones, rest or
      drop the incoming order, and take filled orders out of the book. */
  ghost predicate Internal(x: State, e: Event) {
    match e
    case Trade(_, _, _, _) => true
    case Trigger(_, _) => true
    case Reprice(_) => true
    case Rest(_) => true
    case Leave(_) => true
    case Withdraw(id) => id in x.booked && x.booked[id].claim.open == 0
    case _ => false
  }

  ghost predicate InternalAt(log: seq<Event>, i: nat)
    requires i < |log|
  {
    Replay(log[..i]).Some? && Internal(Replay(log[..i]).value, log[i])
  }

  /** The longer log continues the shorter one by matching and activation only. */
  ghost predicate Extends(before: seq<Event>, after: seq<Event>) {
    before <= after && forall i | |before| <= i < |after| :: InternalAt(after, i)
  }

  lemma ExtendsSelf(log: seq<Event>)
    ensures Extends(log, log)
  {
  }

  lemma ExtendsIsPrefix(before: seq<Event>, after: seq<Event>)
    requires Extends(before, after)
    ensures |before| <= |after| && after[..|before|] == before
  {
  }

  lemma ExtendsBy(before: seq<Event>, log: seq<Event>, x: State, e: Event)
    requires Extends(before, log) && Replay(log) == Some(x) && Internal(x, e)
    ensures Extends(before, log + [e])
  {
    forall i | |before| <= i < |log + [e]| ensures InternalAt(log + [e], i) {
      assert (log + [e])[..i] == log[..i];
      assert i == |log| ==> log[..i] == log;
      assert i < |log| ==> InternalAt(log, i);
    }
  }

  lemma ExtendsFurther(a: seq<Event>, b: seq<Event>, c: seq<Event>)
    requires Extends(a, b) && Extends(b, c)
    ensures Extends(a, c)
  {
    forall i | |a| <= i < |c| ensures InternalAt(c, i) {
      if i < |b| {
        assert InternalAt(b, i) && c[..i] == b[..i];
      }
    }
  }

  /** The last step of a longer log. */
  lemma ExtendsStep(before: seq<Event>, after: seq<Event>)
    requires Extends(before, after) && Replay(after).Some? && |before| < |after|
    ensures var n := |after| - 1;
            && Extends(before, after[..n]) && Replay(after[..n]).Some?
            && Legal(Replay(after[..n]).value, after[n]) && Internal(Replay(after[..n]).value, after[n])
            && Replay(after).value == Apply(Replay(after[..n]).value, after[n])
  {
    var n := |after| - 1;
    assert InternalAt(after, n);
    LastStep(after);
    hide Replay, Legal, Apply, Internal;
    forall i | |before| <= i < n ensures InternalAt(after[..n], i) {
      assert InternalAt(after, i) && after[..n][..i] == after[..i];
    }
  }

  lemma LastStep(log: seq<Event>)
    requires Replay(log).Some? && log != []
    ensures Replay(log[..|log| - 1]).Some? && Legal(Replay(log[..|log| - 1]).value, log[|log| - 1])
    ensures Replay(log).value == Apply(Replay(log[..|log| - 1]).value, log[|log| - 1])
  {
    hide Legal, Apply;
  }

  lemma ReplayAppend(log: seq<Event>, x: State, e: Event)
    requires Replay(log) == Some(x) && Legal(x, e)
    ensures Replay(log + [e]) == Some(Apply(x, e))
  {
    assert (log + [e])[..|log|] == log;
  }

  /** Every prefix of a log that replays also replays, and its next event was legal. */
  lemma {:induction false} ReplayPrefix(log: seq<Event>, n: nat)
    requires Replay(log).Some? && n <= |log|
    ensures Replay(log[..n]).Some?
    ensures n < |log| ==> Legal(Replay(log[..n]).value, log[n])
  {
    if n == |log| {
      assert log[..n] == log;
    } else if n == |log| - 1 {
    } else {
      ReplayPrefix(log[..|log| - 1], n);
      assert log[..|log| - 1][..n] == log[..n];
    }
  }

  // ---------------------------------------------------------------------------------------------
  // What holds in every state a log can reach
  // ---------------------------------------------------------------------------------------------

  /** Resting buys and sells never cross. */
  ghost predicate Uncrossed(x: State) {
    forall b, s | b in x.booked && s in x.booked && x.booked[b].RestsOn(Buy) && x.booked[s].RestsOn(Sell) ::
      x.booked[b].claim.limit < x.booked[s].claim.limit
  }

  /** Only an order that comes to rest could cross, and it rests only if nothing contests it. */
  lemma StaysUncrossed(x: State, e: Event)
    requires Uncrossed(x) && Legal(x, e)
    ensures Uncrossed(Apply(x, e))
  {
  }

  lemma {:induction false} NeverCrossed(log: seq<Event>)
    requires Replay(log).Some?
    ensures Uncrossed(Replay(log).value)
  {
    if log != [] {
      NeverCrossed(log[..|log| - 1]);
      StaysUncrossed(Replay(log[..|log| - 1]).value, log[|log| - 1]);
      hide Uncrossed, Legal, Apply;
    }
  }

  /** A booked order's arrival is the number of the event that put it to rest or parked it. */
  lemma {:induction false} ArrivalIsLogged(log: seq<Event>, id: Id)
    requires Replay(log).Some? && id in Replay(log).value.booked
    ensures Replay(log).value.clock == |log|
    ensures var phase := Replay(log).value.booked[id].phase;
            phase.arrived < |log| && BooksAs(log[phase.arrived], id, phase)
  {
    ClockIsLength(log);
    var init, e := log[..|log| - 1], log[|log| - 1];
    ClockIsLength(init);
    ArrivalStep(Replay(init).value, e, id);
    hide Legal, Apply;
    if e != Rest(id) && !(e.Park? && e.id == id) {
      ArrivalIsLogged(init, id);
    }
  }

  predicate BooksAs(e: Event, id: Id, phase: Phase) {
    if phase.Resting? then e == Rest(id) else e.Park? && e.id == id
  }

  lemma ArrivalStep(x: State, e: Event, id: Id)
    requires Legal(x, e) && id in Apply(x, e).booked
    ensures var phase := Apply(x, e).booked[id].phase;
            if e == Rest(id) || (e.Park? && e.id == id) then phase.arrived == x.clock && BooksAs(e, id, phase)
            else id in x.booked && phase.arrived == x.booked[id].phase.arrived && (phase.Resting? <==> x.booked[id].phase.Resting?)
  {
  }

  lemma {:induction false} ClockIsLength(log: seq<Event>)
    requires Replay(log).Some?
    ensures Replay(log).value.clock == |log|
  {
    if log != [] {
      ClockIsLength(log[..|log| - 1]);
    }
  }

  /** Price-time priority over a whole run: whenever a trade happened, it was at the maker's own price, within
      the taker's limit, for all that the one or the other had open, and every other order that rested on the
      maker's side at that moment had a strictly worse price, or the same price and a later `Rest` event. */
  lemma PriceTimePriority(log: seq<Event>, i: nat, other: Id)
    requires Replay(log).Some? && i < |log| && log[i].Trade?
    ensures Replay(log[..i]).Some?
    ensures
      var x, e := Replay(log[..i]).value, log[i];
      && e.taker in x.incoming && e.maker in x.booked
      && var maker := x.booked[e.maker];
      && maker.phase.Resting?
      && maker.phase.arrived < i && log[maker.phase.arrived] == Rest(e.maker)
      && e.price == maker.claim.limit && x.incoming[e.taker].side != maker.claim.side
      && (if x.incoming[e.taker].side.Buy? then e.price <= x.incoming[e.taker].limit else e.price >= x.incoming[e.taker].limit)
      && 0 < e.quantity <= x.incoming[e.taker].open && e.quantity <= maker.claim.open
      && (e.quantity == x.incoming[e.taker].open || e.quantity == maker.claim.open)
      && (other in x.booked && other != e.maker && x.booked[other].RestsOn(maker.claim.side) ==>
            var t := x.booked[other];
            && t.phase.arrived < i && log[t.phase.arrived] == Rest(other)
            && (if maker.claim.side.Buy? then t.claim.limit <= e.price else t.claim.limit >= e.price)
            && (t.claim.limit == e.price ==> maker.phase.arrived < t.phase.arrived))
  {
    ReplayPrefix(log, i);
    var x, e := Replay(log[..i]).value, log[i];
    ArrivalIsLogged(log[..i], e.maker);
    if other in x.booked && x.booked[other].phase.Resting? {
      ArrivalIsLogged(log[..i], other);
    }
  }

  /** The side and the limit of an order, wherever it is, are those it entered with at event `m`. */
  lemma {:induction false} LimitIsEntered(log: seq<Event>, id: Id) returns (m: nat)
    requires Replay(log).Some? && Replay(log).value.Find(id).Some?
    ensures m < |log| && log[m].Enter? && log[m].id == id
    ensures var c := Replay(log).value.Find(id).value;
            c.side == log[m].claim.side && c.limit == log[m].claim.limit && c.canRest == log[m].claim.canRest
  {
    var init, e := log[..|log| - 1], log[|log| - 1];
    InOnePlace(init);
    LimitStep(Replay(init).value, e, id);
    hide Legal, Apply;
    if e.Enter? && e.id == id {
      m := |init|;
    } else {
      m := LimitIsEntered(init, id);
    }
  }

  lemma LimitStep(x: State, e: Event, id: Id)
    requires Legal(x, e) && x.incoming.Keys !! x.booked.Keys && Apply(x, e).Find(id).Some?
    ensures if e.Enter? && e.id == id then Apply(x, e).Find(id) == Some(e.claim)
            else
              && x.Find(id).Some?
              && var c, d := x.Find(id).value, Apply(x, e).Find(id).value;
              && d.side == c.side && d.limit == c.limit && d.canRest == c.canRest
  {
  }

  /** Matching and activation lose nothing of a resting order: it rests as before with some of its open
      quantity executed, or it is gone and all of that has been executed. */
  lemma {:induction false} RestsOrIsFilled(before: seq<Event>, after: seq<Event>, id: Id)
    requires Extends(before, after) && Replay(after).Some? && Replay(before).Some?
    requires id in Replay(before).value.booked && Replay(before).value.booked[id].phase.Resting?
    ensures RestsOr(Replay(before).value.booked[id], Replay(after).value, Filled(after, id), id)
    decreases |after|
  {
    if |before| < |after| {
      var init := after[..|after| - 1];
      ExtendsStep(before, after);
      RestsOrIsFilled(before, init, id);
      InOnePlace(init);
      if Replay(init).value.Find(id).Some? {
        ExecutedIsLogged(init, id);
      }
      RestsOrStep(Replay(before).value.booked[id], Replay(init).value, after[|after| - 1], Filled(init, id), id);
      hide Legal, Apply, Internal, Extends, RestsOr;
    } else {
      assert before == after;
      InOnePlace(after);
      ExecutedIsLogged(after, id);
    }
  }

  predicate RestsOr(t: Ticket, y: State, filled: nat, id: Id) {
    if id in y.booked then
      && id !in y.incoming
      && y.booked[id] == t.(claim := t.claim.(open := y.booked[id].claim.open, executed := y.booked[id].claim.executed))
      && y.booked[id].claim.open + y.booked[id].claim.executed == t.claim.open + t.claim.executed
      && filled == y.booked[id].claim.executed
    else
      id !in y.incoming && filled == t.claim.open + t.claim.executed
  }

  /** What one event adds to the executed quantity of an order, by the log. */
  function FilledBy(e: Event, soFar: nat, id: Id): nat {
    match e
    case Enter(i, claim) => if i == id then claim.executed else soFar
    case Execute(i, quantity, _) => if i == id then soFar + quantity else soFar
    case Trade(taker, maker, _, quantity) => if taker == id || maker == id then soFar + quantity else soFar
    case _ => soFar
  }

  lemma RestsOrStep(t: Ticket, x: State, e: Event, filled: nat, id: Id)
    requires t.phase.Resting? && Legal(x, e) && Internal(x, e) && x.incoming.Keys !! x.booked.Keys && RestsOr(t, x, filled, id)
    ensures RestsOr(t, Apply(x, e), FilledBy(e, filled, id), id)
  {
  }

  /** Matching and activation bring in no order. */
  lemma {:induction false} StaysGone(before: seq<Event>, after: seq<Event>, id: Id)
    requires Extends(before, after) && Replay(after).Some? && Replay(before).Some? && Replay(before).value.Find(id).None?
    ensures Replay(after).value.Find(id).None? && Filled(after, id) == Filled(before, id)
    decreases |after|
  {
    if |before| < |after| {
      var init := after[..|after| - 1];
      ExtendsStep(before, after);
      StaysGone(before, init, id);
      GoneStep(Replay(init).value, after[|after| - 1], id, Filled(init, id));
      hide Legal, Apply, Internal, Extends;
    } else {
      assert before == after;
    }
  }

  lemma GoneStep(x: State, e: Event, id: Id, soFar: nat)
    requires Legal(x, e) && Internal(x, e) && x.Find(id).None?
    ensures Apply(x, e).Find(id).None? && FilledBy(e, soFar, id) == soFar
  {
  }

  /** Matching and activation lose no order: a booked order that is gone afterwards was filled, or it was
      a stop order and has been triggered. */
  lemma {:induction false} GoneIsFilledOrTriggered(before: seq<Event>, after: seq<Event>, id: Id)
    requires Replay(after).Some? && Extends(before, after)
    ensures Replay(before).Some?
    ensures id in Replay(before).value.booked && id !in Replay(after).value.booked ==>
              exists i | |before| <= i < |after| ::
                || (after[i].Trigger? && after[i].id == id)
                || (after[i] == Withdraw(id) && Replay(after[..i]).Some?
                    && id in Replay(after[..i]).value.booked && Replay(after[..i]).value.booked[id].claim.open == 0)
    decreases |after|
  {
    if |after| > |before| {
      var n := |after| - 1;
      ExtendsStep(before, after);
      GoneIsFilledOrTriggered(before, after[..n], id);
      assert forall i | |before| <= i < n :: after[..n][..i] == after[..i];
    } else {
      assert before == after;
    }
  }

  // ---------------------------------------------------------------------------------------------
  // Conservation
  // ---------------------------------------------------------------------------------------------

  /** The quantity `id` has executed according to the log: what it entered with, plus its trades and
      the executions reported from outside since then. */
  ghost function Filled(log: seq<Event>, id: Id): nat {
    if log == [] then 0
    else
      FilledBy(log[|log| - 1], Filled(log[..|log| - 1], id), id)
  }

  /** An order in flight is never also booked. */
  lemma {:induction false} InOnePlace(log: seq<Event>)
    requires Replay(log).Some?
    ensures Replay(log).value.incoming.Keys !! Replay(log).value.booked.Keys
  {
    if log != [] {
      InOnePlace(log[..|log| - 1]);
    }
  }

  /** The executed quantity of every order, in flight, parked or resting, is what the log says. */
  lemma {:induction false} ExecutedIsLogged(log: seq<Event>, id: Id)
    requires Replay(log).Some? && Replay(log).value.Find(id).Some?
    ensures Replay(log).value.Find(id).value.executed == Filled(log, id)
  {
    if log != [] {
      var init := log[..|log| - 1];
      InOnePlace(init);
      if Replay(init).value.Find(id).Some? {
        ExecutedIsLogged(init, id);
      }
    }
  }

  /** The event keeps `quantity == open + executed` for `id`: it neither cancels part of it nor enters
      it with other numbers. */
  predicate KeepsBalance(e: Event, id: Id) {
    match e
    case Enter(i, claim) => i == id ==> claim.Balanced()
    case Amend(i, _) => i != id
    case _ => true
  }

  /** An order that was never cancelled satisfies quantity = open + executed, wherever it is. */
  lemma {:induction false} BalancedUnlessCancelled(log: seq<Event>, id: Id)
    requires Replay(log).Some? && Replay(log).value.Find(id).Some?
    requires forall e | e in log :: KeepsBalance(e, id)
    ensures Replay(log).value.Find(id).value.Balanced()
  {
    if log != [] {
      var init := log[..|log| - 1];
      InOnePlace(init);
      assert KeepsBalance(log[|log| - 1], id);
      if Replay(init).value.Find(id).Some? {
        BalancedUnlessCancelled(init, id);
      }
    }
  }

  /** By the log, `id` last entered balanced, or was last cancelled in part before any of it was executed. */
  ghost predicate BalancedByLog(log: seq<Event>, id: Id) {
    if log == [] then true
    else
      var init := log[..|log| - 1];
      match log[|log| - 1]
      case Enter(i, claim) => if i == id then claim.Balanced() else BalancedByLog(init, id)
      case Amend(i, _) => if i == id then Filled(init, id) == 0 else BalancedByLog(init, id)
      case _ => BalancedByLog(init, id)
  }

  /** One event: entering sets the balance, cancelling sets it by what has been executed, the others keep it. */
  lemma BalanceStep(x: State, e: Event, id: Id)
    requires Legal(x, e) && x.incoming.Keys !! x.booked.Keys && Apply(x, e).Find(id).Some?
    ensures e.Enter? && e.id == id ==> Apply(x, e).Find(id) == Some(e.claim)
    ensures !(e.Enter? && e.id == id) ==> x.Find(id).Some?
    ensures e.Amend? && e.id == id ==> (Apply(x, e).Find(id).value.Balanced() <==> x.Find(id).value.executed == 0)
    ensures !((e.Enter? || e.Amend?) && e.id == id) ==>
              (Apply(x, e).Find(id).value.Balanced() <==> x.Find(id).value.Balanced())
  {
  }

  /** Cancelling leaves exactly the given quantity open and what has been executed as it was. */
  lemma CancelledTo(x: State, id: Id, open: nat)
    requires Legal(x, Amend(id, open))
    ensures id in Apply(x, Amend(id, open)).booked
    ensures var c, d := x.booked[id].claim, Apply(x, Amend(id, open)).booked[id].claim;
            d.open == open && d.executed == c.executed && d.side == c.side && d.limit == c.limit
  {
  }

  /** When exactly an order satisfies quantity = open + executed: cancelling part of it sets the quantity to
      what stays open, and forgets what has been executed. */
  lemma {:induction false} BalancedExactly(log: seq<Event>, id: Id)
    requires Replay(log).Some? && Replay(log).value.Find(id).Some?
    ensures Replay(log).value.Find(id).value.Balanced() <==> BalancedByLog(log, id)
  {
    if log != [] {
      var init := log[..|log| - 1];
      InOnePlace(init);
      BalanceStep(Replay(init).value, log[|log| - 1], id);
      hide Legal, Apply;
      if Replay(init).value.Find(id).Some? {
        ExecutedIsLogged(init, id);
        BalancedExactly(init, id);
      }
    }
  }

  /** One step of a run with the state it leads to. */
  lemma StepTo(log: seq<Event>, x: State, e: Event, y: State)
    requires Replay(log) == Some(x) && Legal(x, e) && Apply(x, e) == y
    ensures Replay(log + [e]) == Some(y)
  {
    ReplayAppend(log, x, e);
  }

  /** A run after which an order is not balanced: of five, two are executed and then all but one cancelled. */
  lemma CancelForgets() returns (log: seq<Event>)
    ensures Replay(log).Some? && 1 in Replay(log).value.booked
    ensures log == [Enter(1, Claim(Sell, true, 10, 5, 5, 0)), Rest(1), Execute(1, 2, 10), Amend(1, 1)]
    ensures !Replay(log).value.booked[1].claim.Balanced()
  {
    var c := Claim(Sell, true, 10, 5, 5, 0);
    var x := OneExecuted(c);
    hide Replay;
    StepTo([Enter(1, c), Rest(1), Execute(1, 2, 10)], x, Amend(1, 1), Apply(x, Amend(1, 1)));
    log := [Enter(1, c), Rest(1), Execute(1, 2, 10)] + [Amend(1, 1)];
  }

  lemma OneExecuted(c: Claim) returns (x: State)
    requires c == Claim(Sell, true, 10, 5, 5, 0)
    ensures Replay([Enter(1, c), Rest(1), Execute(1, 2, 10)]) == Some(x)
    ensures 1 in x.booked && x.booked[1].claim == c.Fill(2)
  {
    var y := State(map[], map[1 := Ticket(c, Resting(1))], 2, []);
    x := Apply(y, Execute(1, 2, 10));
    hide Replay;
    OneRests(c, y);
    StepTo([Enter(1, c), Rest(1)], y, Execute(1, 2, 10), x);
    assert [Enter(1, c), Rest(1)] + [Execute(1, 2, 10)] == [Enter(1, c), Rest(1), Execute(1, 2, 10)];
  }

  lemma OneRests(c: Claim, x: State)
    requires c.canRest && c.open > 0 && x == State(map[], map[1 := Ticket(c, Resting(1))], 2, [])
    ensures Replay([Enter(1, c), Rest(1)]) == Some(x)
  {
    var x1 := State(map[1 := c], map[], 1, []);
    hide Replay;
    EmptyRun();
    StepTo([], EMPTY, Enter(1, c), x1);
    assert [] + [Enter(1, c)] == [Enter(1, c)];
    StepTo([Enter(1, c)], x1, Rest(1), x);
    assert [Enter(1, c)] + [Rest(1)] == [Enter(1, c), Rest(1)];
  }

  lemma EmptyRun()
    ensures Replay([]) == Some(EMPTY)
  {
  }

  /** The price of the last trade or reported execution of a log, or 0. */
  ghost function LastPrice(log: seq<Event>): Price {
    if log == [] then 0
    else
      match log[|log| - 1]
      case Trade(_, _, price, _) => price
      case Execute(_, _, price) => price
      case _ => LastPrice(log[..|log| - 1])
  }

  lemma {:induction false} LastIsLogged(log: seq<Event>)
    requires Replay(log).Some?
    ensures Replay(log).value.Last() == LastPrice(log)
  {
    if log != [] {
      LastIsLogged(log[..|log| - 1]);
      hide Legal;
    }
  }

  // ---------------------------------------------------------------------------------------------
  // Bought is sold
  // ---------------------------------------------------------------------------------------------

  /** What `id` has executed, if it is known and on this side. */
  ghost function ExecutedBy(x: State, side: Side, id: Id): nat {
    if x.Find(id).Some? && x.Find(id).value.side == side then x.Find(id).value.executed else 0
  }

  ghost function ExecutedTotal(x: State, side: Side, ids: set<Id>): nat {
    if ids == {} then 0
    else
      var id :| id in ids;
      ExecutedBy(x, side, id) + ExecutedTotal(x, side, ids - {id})
  }

  ghost function Known(x: State): set<Id> { x.incoming.Keys + x.booked.Keys }

  lemma {:induction false} TotalSplit(x: State, side: Side, ids: set<Id>, id: Id)
    requires id in ids
    ensures ExecutedTotal(x, side, ids) == ExecutedBy(x, side, id) + ExecutedTotal(x, side, ids - {id})
    decreases ids
  {
    var first :| && first in ids
                 && ExecutedTotal(x, side, ids) == ExecutedBy(x, side, first) + ExecutedTotal(x, side, ids - {first});
    if first != id {
      TotalSplit(x, side, ids - {first}, id);
      TotalSplit(x, side, ids - {id}, first);
      assert ids - {first} - {id} == ids - {id} - {first};
    }
  }

  lemma {:induction false} TotalSame(x: State, y: State, side: Side, ids: set<Id>)
    requires forall id | id in ids :: ExecutedBy(x, side, id) == ExecutedBy(y, side, id)
    ensures ExecutedTotal(x, side, ids) == ExecutedTotal(y, side, ids)
    decreases ids
  {
    if ids != {} {
      var id :| id in ids;
      TotalSplit(x, side, ids, id);
      TotalSplit(y, side, ids, id);
      TotalSame(x, y, side, ids - {id});
    }
  }

  /** By how much the event raises what the orders of one side have executed. */
  ghost function Growth(x: State, e: Event, side: Side): int
    requires Legal(x, e)
  {
    ExecutedTotal(Apply(x, e), side, Known(x)) - ExecutedTotal(x, side, Known(x))
  }

  /** A trade raises both sides by its quantity. */
  lemma TradeGrowth(x: State, e: Event, side: Side)
    requires Legal(x, e) && e.Trade? && x.incoming.Keys !! x.booked.Keys
    ensures Growth(x, e, side) == e.quantity
  {
    var y, ids := Apply(x, e), Known(x);
    var one := if x.incoming[e.taker].side == side then e.taker else e.maker;
    TotalSplit(x, side, ids, one);
    TotalSplit(y, side, ids, one);
    forall id | id in ids - {one} ensures ExecutedBy(x, side, id) == ExecutedBy(y, side, id) {
    }
    TotalSame(x, y, side, ids - {one});
  }

  /** What the trades of a run have added to the executed quantities of the orders of one side. */
  ghost function MatchedOn(log: seq<Event>, side: Side): int
    requires Replay(log).Some?
  {
    if log == [] then 0
    else
      var init, e := log[..|log| - 1], log[|log| - 1];
      MatchedOn(init, side) + if e.Trade? then Growth(Replay(init).value, e, side) else 0
  }

  /** Over any run, matching raises what the buy orders have executed by as much as what the sell orders have. */
  lemma {:induction false} BoughtIsSold(log: seq<Event>)
    requires Replay(log).Some?
    ensures MatchedOn(log, Buy) == MatchedOn(log, Sell)
  {
    if log != [] {
      var init, e := log[..|log| - 1], log[|log| - 1];
      BoughtIsSold(init);
      InOnePlace(init);
      if e.Trade? {
        TradeGrowth(Replay(init).value, e, Buy);
        TradeGrowth(Replay(init).value, e, Sell);
      }
    }
  }
}
