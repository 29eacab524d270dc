/** Stop orders over a run: how they are parked, repriced and triggered. */
module Waiting {
  import opened Exchange
  import opened Options
  import opened Orders

  // ---------------------------------------------------------------------------------------------
  // What matching and activation do to waiting orders
  // ---------------------------------------------------------------------------------------------

  ghost predicate ParkedIn(x: State, id: Id) {
    id in x.booked && x.booked[id].phase.Parked?
  }

  /** The order has been waiting all along, and only a trailing one may have another stop price. */
  ghost predicate StillParked(x: State, y: State, id: Id)
    requires ParkedIn(y, id)
  {
    && ParkedIn(x, id)
    && y.booked[id].claim == x.booked[id].claim && y.booked[id].phase.since == x.booked[id].phase.since
    && y.booked[id].phase.arrived == x.booked[id].phase.arrived
    && var t, u := x.booked[id].phase.terms, y.booked[id].phase.terms;
    && u.trailing == t.trailing && u.trail == t.trail && (!t.trailing ==> u.price == t.price)
  }

  /** From `x` to `y` no order was parked. */
  ghost predicate Fewer(x: State, y: State) {
    && x.quotes <= y.quotes
    && forall id | ParkedIn(y, id) :: StillParked(x, y, id)
  }

  lemma FewerStep(x: State, e: Event)
    requires Legal(x, e) && Internal(x, e)
    ensures Fewer(x, Apply(x, e))
  {
  }

  lemma {:induction false} ExtendsFewer(before: seq<Event>, after: seq<Event>)
    requires Extends(before, after) && Replay(after).Some?
    ensures Replay(before).Some? && Fewer(Replay(before).value, Replay(after).value)
    decreases |after|
  {
    if |before| < |after| {
      ExtendsStep(before, after);
      var init := after[..|after| - 1];
      ExtendsFewer(before, init);
      FewerStep(Replay(init).value, after[|after| - 1]);
      hide Replay, Legal, Apply, Internal, Extends;
    } else {
      assert before == after;
    }
  }

  /** A slice of a continuation is one. */
  lemma ExtendsSlice(before: seq<Event>, log: seq<Event>, i: nat, n: nat)
    requires Extends(before, log) && |before| <= i <= n <= |log|
    ensures Extends(log[..i], log[..n])
  {
    forall j | i <= j < n ensures InternalAt(log[..n], j) {
      assert InternalAt(log, j) && log[..n][..j] == log[..j];
    }
  }

  /** What one event of any kind can do to a waiting order, and to the quotes. */
  lemma ParkedStep(x: State, e: Event, id: Id)
    requires Legal(x, e)
    ensures x.quotes <= Apply(x, e).quotes && |Apply(x, e).quotes| <= |x.quotes| + 1
    ensures ParkedIn(Apply(x, e), id) ==>
              var t := Apply(x, e).booked[id];
              if e.Park? && e.id == id then
                t.phase == Parked(e.terms, |x.quotes|, x.clock) && id in x.incoming && t.claim.side == x.incoming[id].side
                && (e.terms.trailing ==> e.terms.price == TrailedPrice(t.claim.side, x.Last(), e.terms.trail))
              else
                && ParkedIn(x, id)
                && t.claim.side == x.booked[id].claim.side && t.phase.since == x.booked[id].phase.since
                && t.phase.terms.trailing == x.booked[id].phase.terms.trailing
                && t.phase.terms.trail == x.booked[id].phase.terms.trail
                && t.phase.terms.price ==
                   if e.Reprice? && x.booked[id].WaitsOn(e.side) && t.phase.terms.trailing
                   then TrailedPrice(t.claim.side, x.Last(), t.phase.terms.trail)
                   else x.booked[id].phase.terms.price
  {
  }

  lemma {:induction false} SinceIsPast(log: seq<Event>, id: Id)
    requires Replay(log).Some? && ParkedIn(Replay(log).value, id)
    ensures Replay(log).value.booked[id].phase.since <= |Replay(log).value.quotes|
  {
    var init := log[..|log| - 1];
    ParkedStep(Replay(init).value, log[|log| - 1], id);
    hide Legal, Apply;
    if ParkedIn(Replay(init).value, id) {
      SinceIsPast(init, id);
    }
  }

  /** What is parked now may be triggered by any last price from `before` on at which it is due. */
  lemma MayTriggerAt(before: seq<Event>, log: seq<Event>, id: Id)
    requires Extends(before, log) && Replay(log).Some? && ParkedIn(Replay(log).value, id)
    ensures Replay(before).Some?
    ensures var x, y := Replay(before).value, Replay(log).value;
            && y.booked[id].phase.since <= |x.quotes| <= |y.quotes| && y.LastAt(|x.quotes|) == x.Last()
            && (y.booked[id].DueAt(x.Last()) && IsForemost(y, id) ==> Legal(y, Trigger(id, |x.quotes|)))
  {
    ExtendsFewer(before, log);
    assert StillParked(Replay(before).value, Replay(log).value, id);
    SinceIsPast(before, id);
  }

  // ---------------------------------------------------------------------------------------------
  // A stop order is triggered only when it is due
  // ---------------------------------------------------------------------------------------------

  /** A waiting order was parked at event `m`; its stop price is the one it was parked with or, if it is
      trailing, the one the last price after `n` events called for. */
  lemma {:induction false} ParkedIsLogged(log: seq<Event>, id: Id) returns (m: nat, n: nat)
    requires Replay(log).Some? && ParkedIn(Replay(log).value, id)
    ensures m < |log| && log[m].Park? && log[m].id == id
    ensures Replay(log[..m]).Some? && |Replay(log[..m]).value.quotes| == Replay(log).value.booked[id].phase.since
    ensures m <= n <= |log| && Replay(log[..n]).Some?
    ensures var t := Replay(log).value.booked[id];
            && t.phase.terms.trailing == log[m].terms.trailing && t.phase.terms.trail == log[m].terms.trail
            && t.phase.terms.price ==
               if t.phase.terms.trailing
               then TrailedPrice(t.claim.side, Replay(log[..n]).value.Last(), t.phase.terms.trail)
               else log[m].terms.price
  {
    var init, e := log[..|log| - 1], log[|log| - 1];
    ParkedStep(Replay(init).value, e, id);
    hide Legal, Apply;
    if e.Park? && e.id == id {
      m, n := |init|, |init|;
    } else {
      m, n := ParkedIsLogged(init, id);
      assert init[..m] == log[..m] && init[..n] == log[..n];
      if e.Reprice? && Replay(init).value.booked[id].WaitsOn(e.side) && Replay(init).value.booked[id].phase.terms.trailing {
        n := |init|;
      }
    }
  }

  /** Every number of quotes between two moments of a run was reached, and the last price then is recorded. */
  lemma {:induction false} QuoteReached(log: seq<Event>, m: nat, q: nat) returns (n: nat)
    requires Replay(log).Some? && m <= |log| && Replay(log[..m]).Some?
    requires |Replay(log[..m]).value.quotes| <= q <= |Replay(log).value.quotes|
    ensures m <= n <= |log| && Replay(log[..n]).Some?
    ensures Replay(log[..n]).value.Last() == Replay(log).value.LastAt(q)
  {
    if q == |Replay(log).value.quotes| {
      n := |log|;
      assert log[..n] == log;
    } else {
      var init := log[..|log| - 1];
      assert log[..|log|] == log;
      ParkedStep(Replay(init).value, log[|log| - 1], 0);
      hide Legal, Apply;
      assert init[..m] == log[..m];
      n := QuoteReached(init, m, q);
      assert init[..n] == log[..n];
    }
  }

  lemma TriggerMeans(x: State, id: Id, quote: nat)
    requires Legal(x, Trigger(id, quote))
    ensures ParkedIn(x, id) && x.booked[id].phase.since <= quote <= |x.quotes| && x.booked[id].DueAt(x.LastAt(quote))
  {
  }

  /** Parking is not a quote. */
  lemma AfterPark(log: seq<Event>, m: nat)
    requires Replay(log).Some? && m < |log| && log[m].Park?
    ensures Replay(log[..m]).Some? && Replay(log[..m + 1]).Some?
    ensures Replay(log[..m + 1]).value.quotes == Replay(log[..m]).value.quotes
  {
    ReplayPrefix(log, m);
    ReplayPrefix(log, m + 1);
    assert log[..m + 1][..m] == log[..m];
  }

  /** Over a whole run, a stop order is triggered only if its own stop price was due at a last price there
      was after it had been parked: parked at event `m`, it was due after `n` events. A trailing order has the
      stop price that the last price after `priced` events called for. */
  lemma TriggeredWhenDue(log: seq<Event>, i: nat) returns (m: nat, priced: nat, n: nat)
    requires Replay(log).Some? && i < |log| && log[i].Trigger?
    ensures m < n <= i && log[m].Park? && log[m].id == log[i].id
    ensures Replay(log[..i]).Some? && ParkedIn(Replay(log[..i]).value, log[i].id) && Replay(log[..n]).Some?
    ensures var t := Replay(log[..i]).value.booked[log[i].id];
            && var last := Replay(log[..n]).value.Last();
            && (if t.claim.side.Sell? then t.phase.terms.price >= last else t.phase.terms.price <= last || last == 0)
            && m <= priced <= i && Replay(log[..priced]).Some?
            && t.phase.terms.trailing == log[m].terms.trailing && t.phase.terms.trail == log[m].terms.trail
            && t.phase.terms.price ==
               if t.phase.terms.trailing
               then TrailedPrice(t.claim.side, Replay(log[..priced]).value.Last(), t.phase.terms.trail)
               else log[m].terms.price
  {
    ReplayPrefix(log, i);
    var run, id, quote := log[..i], log[i].id, log[i].quote;
    TriggerMeans(Replay(run).value, id, quote);
    hide Legal, Apply, Replay;
    m, priced := ParkedIsLogged(run, id);
    assert run[..m] == log[..m] && run[m] == log[m] && run[..priced] == log[..priced];
    AfterPark(run, m);
    n := QuoteReached(run, m + 1, quote);
    assert run[..n] == log[..n];
  }

  /** Over a whole run, stop orders are triggered nearest stop price first and, if they do not trail, those with the
      same stop price in the order in which they were parked: whenever a stop order is triggered, any other of its
      side that waits at that moment, trailing or not like itself, has a stop price further from the market, or
      the same one and a later `Park` event. */
  lemma StopPriceTimePriority(log: seq<Event>, i: nat, other: Id)
    requires Replay(log).Some? && i < |log| && log[i].Trigger?
    ensures Replay(log[..i]).Some? && ParkedIn(Replay(log[..i]).value, log[i].id)
    ensures var x, t := Replay(log[..i]).value, Replay(log[..i]).value.booked[log[i].id];
            ParkedIn(x, other) && other != log[i].id && x.booked[other].claim.side == t.claim.side
            && x.booked[other].phase.terms.trailing == t.phase.terms.trailing ==>
              var p, q := t.phase.terms.price, x.booked[other].phase.terms.price;
              var a, b := t.phase.arrived, x.booked[other].phase.arrived;
              && (if t.claim.side.Sell? then q <= p else q >= p)
              && a < i && log[a].Park? && log[a].id == log[i].id && b < i && log[b].Park? && log[b].id == other
              && (p == q && !t.phase.terms.trailing ==> a < b)
  {
    ReplayPrefix(log, i);
    ArrivalIsLogged(log[..i], log[i].id);
    if ParkedIn(Replay(log[..i]).value, other) {
      ArrivalIsLogged(log[..i], other);
    }
  }

  // ---------------------------------------------------------------------------------------------
  // Which triggers belong to one call
  // ---------------------------------------------------------------------------------------------

  /** The event happened while exactly `keys` were in flight: what is nested deeper has more in flight. */
  ghost predicate AtLevel(log: seq<Event>, i: nat, keys: set<Id>)
    requires i < |log|
  {
    Replay(log[..i]).Some? && Replay(log[..i]).value.incoming.Keys == keys
  }

  /** The event triggers a stop order of this side and kind by quote number `quote`. */
  ghost predicate Triggers(log: seq<Event>, i: nat, side: Side, trailing: bool, quote: nat)
    requires i < |log|
  {
    && log[i].Trigger? && log[i].quote == quote
    && Replay(log[..i]).Some? && ParkedIn(Replay(log[..i]).value, log[i].id)
    && var t := Replay(log[..i]).value.booked[log[i].id];
    && t.claim.side == side && t.phase.terms.trailing == trailing
  }

  /** All triggers since `before` that are not nested deeper are of this kind and by this quote. */
  ghost predicate TriggersAt(before: seq<Event>, log: seq<Event>, keys: set<Id>, side: Side, trailing: bool, quote: nat) {
    forall i | |before| <= i < |log| && log[i].Trigger? && AtLevel(log, i, keys) :: Triggers(log, i, side, trailing, quote)
  }

  lemma NoTriggers(log: seq<Event>, keys: set<Id>, side: Side, trailing: bool, quote: nat)
    ensures TriggersAt(log, log, keys, side, trailing, quote)
  {
  }

  lemma TriggersFurther(before: seq<Event>, mid: seq<Event>, log: seq<Event>, keys: set<Id>,
                        side: Side, trailing: bool, quote: nat)
    requires mid <= log
    requires TriggersAt(before, mid, keys, side, trailing, quote) && TriggersAt(mid, log, keys, side, trailing, quote)
    ensures TriggersAt(before, log, keys, side, trailing, quote)
  {
    forall i | |before| <= i < |log| && log[i].Trigger? && AtLevel(log, i, keys)
      ensures Triggers(log, i, side, trailing, quote)
    {
      if i < |mid| {
        assert mid[..i] == log[..i];
        assert AtLevel(mid, i, keys) && Triggers(mid, i, side, trailing, quote);
      }
    }
  }

  /** An order that is neither in flight nor waiting does not come back. */
  lemma {:induction false} StaysAway(before: seq<Event>, after: seq<Event>, id: Id)
    requires Extends(before, after) && Replay(after).Some? && Replay(before).Some?
    requires id !in Replay(before).value.incoming && !ParkedIn(Replay(before).value, id)
    ensures id !in Replay(after).value.incoming && !ParkedIn(Replay(after).value, id)
    decreases |after|
  {
    if |before| < |after| {
      ExtendsStep(before, after);
      StaysAway(before, after[..|after| - 1], id);
    } else {
      assert before == after;
    }
  }

  /** While an activated order is dealt with it stays in flight, so all other triggers are nested deeper. */
  lemma OneTrigger(before: seq<Event>, log: seq<Event>, x: State, id: Id, quote: nat)
    requires Replay(before) == Some(x) && Legal(x, Trigger(id, quote)) && id !in x.incoming
    requires Extends(before + [Trigger(id, quote)], log) && Replay(log).Some?
    requires |log| > |before| + 1 && !log[|log| - 1].Trigger?
    requires Replay(log[..|log| - 1]).Some? && id in Replay(log[..|log| - 1]).value.incoming
    ensures TriggersAt(before, log, x.incoming.Keys, x.booked[id].claim.side, x.booked[id].phase.terms.trailing, quote)
  {
    var begun, n := before + [Trigger(id, quote)], |log| - 1;
    ReplayAppend(before, x, Trigger(id, quote));
    forall i | |before| <= i < |log| && log[i].Trigger? && AtLevel(log, i, x.incoming.Keys)
      ensures Triggers(log, i, x.booked[id].claim.side, x.booked[id].phase.terms.trailing, quote)
    {
      if i == |before| {
        assert log[..i] == before;
      } else {
        ExtendsSlice(begun, log, |begun|, i);
        ExtendsSlice(begun, log, i, n);
        assert log[..|begun|] == begun;
        NotParkedInFlight(begun, log[..i], id);
        StaysAway(log[..i], log[..n], id);
      }
    }
  }

  lemma NotParkedInFlight(before: seq<Event>, after: seq<Event>, id: Id)
    requires Extends(before, after) && Replay(after).Some? && Replay(before).Some? && id in Replay(before).value.incoming
    ensures !ParkedIn(Replay(after).value, id)
  {
    InOnePlace(before);
    ExtendsFewer(before, after);
    assert ParkedIn(Replay(after).value, id) ==> StillParked(Replay(before).value, Replay(after).value, id);
  }
}
