/** The thresholds of trailing stop orders while the book matches and activates: how far they can move, and
    when a trailing order keeps its stop price. */
module Trailing {
  import opened Exchange
  import opened Options
  import opened Orders
  import opened Waiting

  /** A moment of a run, with the last price that trailing sells and the one that trailing buys have followed. */
  datatype Moment = Moment(log: seq<Event>, buy: Price, sell: Price)

  ghost predicate TrailsIn(x: State, id: Id, side: Side) {
    ParkedIn(x, id) && x.booked[id].claim.side == side && x.booked[id].phase.terms.trailing
  }

  /** There was a last price at every moment since the quote number `since`. */
  ghost predicate Quoted(since: nat, y: State) {
    forall i | since <= i <= |y.quotes| :: y.LastAt(i) != 0
  }

  /** While orders trail, their threshold moves against the trader at most: down for sells and, as long as there
      is a last price, up for buys. */
  ghost predicate Ratcheted(x: State, a: Moment, y: State, b: Moment) {
    && (forall id | TrailsIn(y, id, Sell) :: b.buy <= a.buy)
    && (forall id | TrailsIn(y, id, Buy) && Quoted(|x.quotes|, y) :: b.sell >= a.sell)
  }

  /** No trade since quote number `since` moved the market in favour of trailing orders of this side. */
  ghost predicate NeverInFavour(since: nat, y: State, side: Side) {
    forall i | since < i <= |y.quotes| ::
      if side.Sell? then y.LastAt(i) <= y.LastAt(i - 1)
      else MarketPriceFor(Buy, y.LastAt(i - 1)) <= MarketPriceFor(Buy, y.LastAt(i))
  }

  /** The market is not past the threshold of the trailing orders of this side. */
  ghost predicate NotPast(x: State, a: Moment, side: Side) {
    if side.Sell? then x.Last() <= a.buy else MarketPriceFor(Buy, x.Last()) >= a.sell
  }

  /** If the market is not past the threshold and never moves in their favour, trailing orders keep their stop price. */
  ghost predicate StayPut(x: State, a: Moment, y: State, b: Moment, side: Side) {
    NotPast(x, a, side) && NeverInFavour(|x.quotes|, y, side) ==>
      && NotPast(y, b, side)
      && forall id | TrailsIn(y, id, side) :: ParkedIn(x, id) && y.booked[id].phase.terms == x.booked[id].phase.terms
  }

  ghost predicate Follows(x: State, a: Moment, y: State, b: Moment) {
    Ratcheted(x, a, y, b) && StayPut(x, a, y, b, Sell) && StayPut(x, a, y, b, Buy)
  }

  /** From `a` to `b` there was matching and activation only, and the thresholds followed the market. */
  ghost predicate Onward(a: Moment, b: Moment) {
    && Extends(a.log, b.log)
    && (Replay(a.log).Some? && Replay(b.log).Some? ==> Follows(Replay(a.log).value, a, Replay(b.log).value, b))
  }

  lemma OnwardSelf(a: Moment)
    ensures Onward(a, a) && Extends(a.log, a.log)
  {
    ExtendsSelf(a.log);
  }

  lemma OnwardFurther(a: Moment, b: Moment, c: Moment)
    requires Onward(a, b) && Onward(b, c) && Replay(c.log).Some?
    ensures Onward(a, c) && Extends(a.log, c.log)
  {
    ExtendsFurther(a.log, b.log, c.log);
    ExtendsFewer(b.log, c.log);
    ExtendsFewer(a.log, b.log);
    hide Extends, Replay, Follows;
    FollowsFurther(Replay(a.log).value, a, Replay(b.log).value, b, Replay(c.log).value, c);
  }

  lemma FollowsFurther(x: State, a: Moment, y: State, b: Moment, z: State, c: Moment)
    requires Fewer(x, y) && Fewer(y, z) && Follows(x, a, y, b) && Follows(y, b, z, c)
    ensures Follows(x, a, z, c)
  {
    PricesStay(y, z);
    assert Quoted(|x.quotes|, z) ==> Quoted(|x.quotes|, y) && Quoted(|y.quotes|, z);
    forall side | NeverInFavour(|x.quotes|, z, side)
      ensures NeverInFavour(|x.quotes|, y, side) && NeverInFavour(|y.quotes|, z, side)
    {
    }
    forall id, side | TrailsIn(z, id, side) ensures TrailsIn(y, id, side) {
      assert StillParked(y, z, id);
    }
    hide Quoted, NeverInFavour, NotPast, ParkedIn, Fewer;
  }

  lemma PricesStay(y: State, z: State)
    requires y.quotes <= z.quotes
    ensures forall i | 0 <= i <= |y.quotes| :: y.LastAt(i) == z.LastAt(i)
  {
  }

  /** An event other than repricing, with the thresholds as they are. */
  lemma OnwardBy(a: Moment, b: Moment, x: State, e: Event)
    requires Onward(a, b) && Replay(b.log) == Some(x) && Legal(x, e) && Internal(x, e) && !e.Reprice?
    ensures Onward(a, b.(log := b.log + [e])) && Extends(a.log, b.log + [e])
  {
    var c := b.(log := b.log + [e]);
    ExtendsSelf(b.log);
    ExtendsBy(b.log, b.log, x, e);
    ReplayAppend(b.log, x, e);
    FollowsBy(x, e, b, c);
    hide Extends, Replay, Legal, Apply, Internal, Follows;
    OnwardFurther(a, b, c);
  }

  lemma FollowsBy(x: State, e: Event, b: Moment, c: Moment)
    requires Legal(x, e) && Internal(x, e) && !e.Reprice? && b.buy == c.buy && b.sell == c.sell
    ensures Follows(x, b, Apply(x, e), c)
  {
    var y := Apply(x, e);
    FewerStep(x, e);
    assert forall id | ParkedIn(y, id) :: StillParked(x, y, id) && y.booked[id] == x.booked[id];
    forall side | NeverInFavour(|x.quotes|, y, side) && NotPast(x, b, side) ensures NotPast(y, c, side) {
      if |y.quotes| > |x.quotes| {
        assert y.LastAt(|x.quotes|) == x.Last() && y.LastAt(|x.quotes| + 1) == y.Last();
      }
    }
  }

  /** Repricing one side when the market is past its threshold, or setting the threshold otherwise. */
  lemma OnwardReprice(a: Moment, x: State, side: Side)
    requires Replay(a.log) == Some(x) && !NotPast(x, a, side)
    ensures Onward(a, a.(log := a.log + [Reprice(side)]))
  {
    ExtendsSelf(a.log);
    ExtendsBy(a.log, a.log, x, Reprice(side));
    ReplayAppend(a.log, x, Reprice(side));
    var y := Apply(x, Reprice(side));
    assert forall id | ParkedIn(y, id) :: ParkedIn(x, id) && (!TrailsIn(y, id, side) ==> y.booked[id] == x.booked[id]);
  }

  lemma OnwardMark(a: Moment, x: State, side: Side)
    requires Replay(a.log) == Some(x)
    requires NotPast(x, a, side) || forall id | ParkedIn(x, id) :: !TrailsIn(x, id, side)
    ensures Onward(a, if side.Sell? then a.(buy := x.Last()) else a.(sell := x.Last()))
  {
    ExtendsSelf(a.log);
  }
}
