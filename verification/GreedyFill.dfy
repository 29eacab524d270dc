/** What matching one order amounts to when nothing else happens meanwhile: the opposite side is consumed
    greedily in price-time order. */
module GreedyFill {
  import opened Exchange
  import opened Orders

  /** The resting orders `claim` could trade with. */
  ghost function Crossing(x: State, claim: Claim): set<Id> {
    set id | id in x.booked && x.booked[id].RestsOn(claim.side.Opposite()) && claim.Crosses(x.booked[id].claim.limit)
  }

  ghost function OpenOf(booked: map<Id, Ticket>, id: Id): nat {
    if id in booked then booked[id].claim.open else 0
  }

  /** Total open quantity of `ids`. */
  ghost function Volume(booked: map<Id, Ticket>, ids: set<Id>): nat {
    if ids == {} then 0
    else
      var id :| id in ids;
      OpenOf(booked, id) + Volume(booked, ids - {id})
  }

  lemma {:induction false} VolumeSplit(booked: map<Id, Ticket>, ids: set<Id>, id: Id)
    requires id in ids
    ensures Volume(booked, ids) == OpenOf(booked, id) + Volume(booked, ids - {id})
    decreases ids
  {
    var first :| first in ids && Volume(booked, ids) == OpenOf(booked, first) + Volume(booked, ids - {first});
    if first != id {
      VolumeSplit(booked, ids - {first}, id);
      VolumeSplit(booked, ids - {id}, first);
      assert ids - {first} - {id} == ids - {id} - {first};
    }
  }

  lemma {:induction false} VolumeFrame(b0: map<Id, Ticket>, b1: map<Id, Ticket>, ids: set<Id>)
    requires forall id | id in ids :: OpenOf(b0, id) == OpenOf(b1, id)
    ensures Volume(b0, ids) == Volume(b1, ids)
    decreases ids
  {
    if ids != {} {
      var id :| id in ids;
      VolumeSplit(b0, ids, id);
      VolumeSplit(b1, ids, id);
      VolumeFrame(b0, b1, ids - {id});
    }
  }

  lemma {:induction false} VolumeUnion(booked: map<Id, Ticket>, a: set<Id>, b: set<Id>)
    requires a !! b
    ensures Volume(booked, a + b) == Volume(booked, a) + Volume(booked, b)
    decreases a
  {
    if a == {} {
      assert a + b == b;
    } else {
      var id :| id in a;
      VolumeSplit(booked, a, id);
      VolumeSplit(booked, a + b, id);
      VolumeUnion(booked, a - {id}, b);
      assert a + b - {id} == (a - {id}) + b;
    }
  }

  /** No resting order is filled, and no two rest since the same event. */
  ghost predicate Orderly(x: State) {
    && (forall id | id in x.booked && x.booked[id].phase.Resting? :: x.booked[id].claim.open > 0)
    && (forall a, b | a in x.booked && b in x.booked && x.booked[a].phase.Resting? && x.booked[b].phase.Resting? ::
          x.booked[a].phase.arrived == x.booked[b].phase.arrived ==> a == b)
  }

  /** Reachable states never have two orders with the same arrival. */
  lemma ArrivalsDiffer(log: seq<Event>, a: Id, b: Id)
    requires Replay(log).Some?
    requires var x := Replay(log).value;
      a in x.booked && b in x.booked && x.booked[a].phase.Resting? && x.booked[b].phase.Resting? && a != b
    ensures Replay(log).value.booked[a].phase.arrived != Replay(log).value.booked[b].phase.arrived
  {
    ArrivalIsLogged(log, a);
    ArrivalIsLogged(log, b);
  }

  ghost predicate Precedes(x: State, a: Id, b: Id) {
    && a in x.booked && x.booked[a].phase.Resting?
    && b in x.booked && x.booked[b].phase.Resting?
    && x.booked[a].Outranks(x.booked[b])
  }

  /** Among any orders resting on one side, one is served first. */
  lemma {:induction false} FirstExists(x: State, side: Side, ids: set<Id>) returns (first: Id)
    requires Orderly(x) && ids != {}
    requires forall id | id in ids :: id in x.booked && x.booked[id].RestsOn(side)
    ensures first in ids
    ensures forall id | id in ids && id != first :: Precedes(x, first, id)
    decreases ids
  {
    first :| first in ids;
    if ids != {first} {
      var rest := FirstExists(x, side, ids - {first});
      assert x.booked[first].RestsOn(side) && x.booked[rest].RestsOn(side);
      forall id | id in ids && id != first && id != rest
        ensures Precedes(x, rest, id) && x.booked[id].RestsOn(side)
      {
        assert id in ids - {first};
      }
      if !Precedes(x, first, rest) {
        first := rest;
      }
    }
  }

  ghost predicate IsBest(x: State, claim: Claim, maker: Id) {
    IsFirst(x, maker) && maker in Crossing(x, claim)
  }

  lemma BestExists(x: State, claim: Claim)
    requires Orderly(x) && Crossing(x, claim) != {}
    ensures exists maker :: IsBest(x, claim, maker)
  {
    var side := claim.side.Opposite();
    var all := set id | id in x.booked && x.booked[id].RestsOn(side);
    var some :| some in Crossing(x, claim);
    assert some in all;
    var maker := FirstExists(x, side, all);
    assert IsFirst(x, maker) by {
      forall id | id in x.booked && id != maker && x.booked[id].RestsOn(x.booked[maker].claim.side)
        ensures x.booked[maker].Outranks(x.booked[id])
      {
        assert id in all && Precedes(x, maker, id);
      }
    }
    assert some != maker ==> Precedes(x, maker, some);
    assert IsBest(x, claim, maker);
  }

  lemma BestIsUnique(x: State, claim: Claim, a: Id, b: Id)
    requires Orderly(x) && IsBest(x, claim, a) && IsBest(x, claim, b)
    ensures a == b
  {
  }

  /** The trade of an incoming order with the first order to be served. */
  ghost function BestTrade(x: State, taker: Id, maker: Id): (e: Event)
    requires taker in x.incoming && maker in x.booked
  {
    Trade(taker, maker, x.booked[maker].claim.limit, Min(x.incoming[taker].open, x.booked[maker].claim.open))
  }

  /** One trade of `taker`; a maker that is filled leaves the book. */
  ghost function TradeOnce(x: State, taker: Id, maker: Id): (y: State)
    requires taker in x.incoming && x.incoming[taker].open > 0
    requires Orderly(x) && IsBest(x, x.incoming[taker], maker)
    ensures Orderly(y) && taker in y.incoming && y.incoming[taker].canRest == x.incoming[taker].canRest
    ensures y.incoming[taker].open < x.incoming[taker].open
  {
    var y := Apply(x, BestTrade(x, taker, maker));
    if y.booked[maker].claim.open == 0 then Apply(y, Withdraw(maker)) else y
  }

  /** Fills `taker` greedily until it is filled or nothing crosses it any more. */
  ghost function Fill(x: State, taker: Id): (y: State)
    requires taker in x.incoming && Orderly(x)
    ensures taker in y.incoming && y.incoming[taker].canRest == x.incoming[taker].canRest
    ensures y.incoming[taker].open == 0 || Crossing(y, y.incoming[taker]) == {}
    decreases if taker in x.incoming then x.incoming[taker].open else 0
  {
    var claim := x.incoming[taker];
    if claim.open == 0 || Crossing(x, claim) == {} then x
    else
      BestExists(x, claim);
      var maker :| IsBest(x, claim, maker);
      Fill(TradeOnce(x, taker, maker), taker)
  }

  /** One step of `Fill`, with whichever order is found to be first. */
  lemma FillStep(x: State, taker: Id, maker: Id)
    requires taker in x.incoming && Orderly(x)
    requires x.incoming[taker].open > 0 && IsBest(x, x.incoming[taker], maker)
    ensures Fill(x, taker) == Fill(TradeOnce(x, taker, maker), taker)
  {
    assert maker in Crossing(x, x.incoming[taker]);
    hide Crossing, Orderly, IsBest, TradeOnce, Apply, Legal;
    forall m | IsBest(x, x.incoming[taker], m) ensures m == maker {
      BestIsUnique(x, x.incoming[taker], m, maker);
    }
  }

  lemma NothingCrosses(x: State, claim: Claim)
    ensures Crossing(x, claim) == {} <==> Uncontested(x, claim)
  {
    if !Uncontested(x, claim) {
      var id :| id in x.booked && x.booked[id].RestsOn(claim.side.Opposite()) && claim.Crosses(x.booked[id].claim.limit);
      assert id in Crossing(x, claim);
    }
  }

  lemma FillDone(x: State, taker: Id)
    requires taker in x.incoming && Orderly(x)
    requires x.incoming[taker].open == 0 || Uncontested(x, x.incoming[taker])
    ensures Fill(x, taker) == x
  {
    NothingCrosses(x, x.incoming[taker]);
  }

  // ---------------------------------------------------------------------------------------------
  // What greedy filling achieves
  // ---------------------------------------------------------------------------------------------

  /** How the crossing orders change in one trade. */
  lemma TradeOnceVolume(x: State, taker: Id, maker: Id)
    requires taker in x.incoming && x.incoming[taker].open > 0
    requires Orderly(x) && IsBest(x, x.incoming[taker], maker)
    ensures
      var claim, y := x.incoming[taker], TradeOnce(x, taker, maker);
      var amount := Min(claim.open, x.booked[maker].claim.open);
      && y.incoming == x.incoming[taker := claim.Fill(amount)]
      && Volume(y.booked, Crossing(y, y.incoming[taker])) + amount == Volume(x.booked, Crossing(x, claim))
  {
    var claim, y := x.incoming[taker], TradeOnce(x, taker, maker);
    var before, after := Crossing(x, claim), Crossing(y, y.incoming[taker]);
    VolumeSplit(x.booked, before, maker);
    VolumeFrame(x.booked, y.booked, before - {maker});
    if maker in y.booked {
      assert after == before;
      VolumeSplit(y.booked, after, maker);
    } else {
      assert after == before - {maker};
    }
  }

  /** The claim of `taker` filled by the smaller of what it asks for and what crosses it. */
  ghost function TakenBy(x: State, taker: Id): Claim
    requires taker in x.incoming
  {
    var claim := x.incoming[taker];
    claim.Fill(Min(claim.open, Volume(x.booked, Crossing(x, claim))))
  }

  /** The taker ends with max(0, open - crossing volume) open, and no other order in flight changes. */
  lemma {:induction false} FillAmount(x: State, taker: Id)
    requires taker in x.incoming && Orderly(x)
    ensures Fill(x, taker).incoming == x.incoming[taker := TakenBy(x, taker)]
    decreases x.incoming[taker].open
  {
    var claim := x.incoming[taker];
    if claim.open == 0 || Crossing(x, claim) == {} {
      assert x.incoming == x.incoming[taker := claim.Fill(0)];
    } else {
      BestExists(x, claim);
      var maker :| IsBest(x, claim, maker);
      FillStep(x, taker, maker);
      TradeOnceVolume(x, taker, maker);
      var z := TradeOnce(x, taker, maker);
      var amount, volume := Min(claim.open, x.booked[maker].claim.open), Volume(x.booked, Crossing(x, claim));
      FillAdds(claim, amount, volume);
      assert TakenBy(z, taker) == claim.Fill(Min(claim.open, volume));
      FillAmount(z, taker);
      assert z.incoming[taker := TakenBy(z, taker)] == x.incoming[taker := TakenBy(z, taker)];
    }
  }

  lemma FillAdds(claim: Claim, amount: nat, volume: nat)
    requires amount <= claim.open && amount <= volume
    ensures claim.Fill(amount).Fill(Min(claim.open - amount, volume - amount)) == claim.Fill(Min(claim.open, volume))
  {
  }

  /** What one trade does to the book: the maker is partly filled and the taker done, or the maker is gone. */
  lemma TradeOnceBook(x: State, taker: Id, maker: Id)
    requires taker in x.incoming && x.incoming[taker].open > 0
    requires Orderly(x) && IsBest(x, x.incoming[taker], maker)
    ensures
      var claim, z := x.incoming[taker], TradeOnce(x, taker, maker);
      && z.booked - {maker} == x.booked - {maker}
      && (maker in z.booked ==> z.incoming[taker].open == 0 && Remains(x.booked[maker], z.booked[maker]))
      && (maker !in z.booked ==> Crossing(z, z.incoming[taker]) == Crossing(x, claim) - {maker})
  {
  }

  /** `after` is `before`, perhaps partly filled. */
  ghost predicate Remains(before: Ticket, after: Ticket) {
    && after.claim.open <= before.claim.open
    && after == before.(claim := before.claim.Fill(before.claim.open - after.claim.open))
  }

  /** Filling adds no order to the book, leaves alone what does not cross, and only lowers open quantities. */
  lemma {:induction false} FillShrinks(x: State, taker: Id, b: Id)
    requires taker in x.incoming && Orderly(x)
    requires b in x.booked
    ensures Fill(x, taker).booked.Keys <= x.booked.Keys
    ensures b in Fill(x, taker).booked ==> Remains(x.booked[b], Fill(x, taker).booked[b])
    ensures b !in Crossing(x, x.incoming[taker]) ==>
              b in Fill(x, taker).booked && Fill(x, taker).booked[b] == x.booked[b]
    decreases x.incoming[taker].open
  {
    var claim := x.incoming[taker];
    if claim.open > 0 && Crossing(x, claim) != {} {
      BestExists(x, claim);
      var maker :| IsBest(x, claim, maker);
      FillStep(x, taker, maker);
      TradeOnceBook(x, taker, maker);
      var z := TradeOnce(x, taker, maker);
      assert b != maker ==> b in z.booked - {maker} && b in x.booked - {maker} && z.booked[b] == x.booked[b];
      assert z.booked.Keys <= x.booked.Keys by {
        forall id | id in z.booked ensures id in x.booked {
          assert id != maker ==> id in z.booked - {maker};
        }
      }
      if maker !in z.booked && z.booked.Keys != {} {
        var some := if b in z.booked then b else var id :| id in z.booked; id;
        FillShrinks(z, taker, some);
      }
    }
  }

  /** The consumed orders are a prefix of the price-time order: an order is touched only after every
      crossing order before it is gone, so at most one is left partly filled. */
  lemma {:induction false} FillIsPrefix(x: State, taker: Id, a: Id, b: Id)
    requires taker in x.incoming && Orderly(x)
    requires a in Crossing(x, x.incoming[taker]) && b in Crossing(x, x.incoming[taker])
    requires x.booked[a].Outranks(x.booked[b])
    requires b !in Fill(x, taker).booked || Fill(x, taker).booked[b] != x.booked[b]
    ensures a !in Fill(x, taker).booked
    decreases x.incoming[taker].open
  {
    var claim := x.incoming[taker];
    if claim.open > 0 {
      BestExists(x, claim);
      var maker :| IsBest(x, claim, maker);
      FillStep(x, taker, maker);
      TradeOnceBook(x, taker, maker);
      var z := TradeOnce(x, taker, maker);
      assert b != maker;
      assert b in z.booked - {maker} && b in x.booked - {maker} && z.booked[b] == x.booked[b];
      if maker !in z.booked {
        FillShrinks(z, taker, b);
        if a != maker {
          assert a in z.booked - {maker} && a in x.booked - {maker} && z.booked[a] == x.booked[a];
          FillIsPrefix(z, taker, a, b);
        }
      }
    }
  }

  /** The last price stays, or becomes that of an order that crossed. */
  lemma {:induction false} FillLast(x: State, taker: Id)
    requires taker in x.incoming && Orderly(x)
    ensures var y := Fill(x, taker);
            y.Last() == x.Last()
            || exists m :: m in Crossing(x, x.incoming[taker]) && y.Last() == x.booked[m].claim.limit
    decreases x.incoming[taker].open
  {
    var claim := x.incoming[taker];
    if claim.open > 0 && Crossing(x, claim) != {} {
      BestExists(x, claim);
      var maker :| IsBest(x, claim, maker);
      FillStep(x, taker, maker);
      TradeOnceBook(x, taker, maker);
      var z := TradeOnce(x, taker, maker);
      assert z.Last() == x.booked[maker].claim.limit && z.incoming[taker].open < claim.open;
      CrossingShrinks(x, taker, maker);
      FillLast(z, taker);
    }
  }

  /** After one trade the crossing orders are among those before, at the same limits. */
  lemma CrossingShrinks(x: State, taker: Id, maker: Id)
    requires taker in x.incoming && x.incoming[taker].open > 0
    requires Orderly(x) && IsBest(x, x.incoming[taker], maker)
    ensures var z := TradeOnce(x, taker, maker);
            && z.incoming[taker].limit == x.incoming[taker].limit && z.incoming[taker].side == x.incoming[taker].side
            && (forall id | id in z.booked :: id in x.booked && z.booked[id].phase == x.booked[id].phase
                  && z.booked[id].claim.limit == x.booked[id].claim.limit
                  && z.booked[id].claim.side == x.booked[id].claim.side)
            && Crossing(z, z.incoming[taker]) <= Crossing(x, x.incoming[taker])
  {
  }

  /** Fill-or-kill without a gate: filling leaves the order complete, or the exchange untouched, exactly
      when enough crosses it or nothing does. */
  lemma FillIsAllOrNothing(x: State, taker: Id)
    requires taker in x.incoming && Orderly(x)
    ensures taker in Fill(x, taker).incoming
    ensures
      var claim, y := x.incoming[taker], Fill(x, taker);
      (y.incoming[taker].open == 0 || y == x) <==>
      (Volume(x.booked, Crossing(x, claim)) >= claim.open || Crossing(x, claim) == {})
  {
    FillAmount(x, taker);
    var claim := x.incoming[taker];
    if Crossing(x, claim) != {} {
      var id :| id in Crossing(x, claim);
      VolumeSplit(x.booked, Crossing(x, claim), id);
    }
  }
}
