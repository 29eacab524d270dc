/** When info bytes run out: an element can be at most 125 slots behind its home as long as every byte is to
    grow, and whether some element has to be further behind depends on the home slots of the keys alone. */
module Clusters {
  import opened InfoBytes
  import opened Layout

  /** The keys whose home is one of the slots `a` to `h`. */
  ghost function HomesIn(s: Shape, keys: set<nat>, a: nat, h: nat): set<nat> {
    set k | k in keys && a <= s.Home(k) <= h
  }

  /** No stretch of slots is home to 126 keys more than it has slots. */
  ghost predicate Spread(s: Shape, keys: set<nat>) {
    forall a: nat, h: nat | a <= h <= s.mask :: !Crowded(s.(inc := 32, shift := 0), keys, a, h)
  }

  ghost predicate Crowded(s: Shape, keys: set<nat>, a: nat, h: nat)
    requires a <= h
  {
    |HomesIn(s, keys, a, h)| >= h - a + 127
  }

  lemma FewAreSpread(s: Shape, keys: set<nat>)
    requires |keys| < 127
    ensures Spread(s, keys)
  {
    forall a: nat, h: nat | a <= h <= s.mask ensures !Crowded(s.(inc := 32, shift := 0), keys, a, h) {
      SubsetIsSmaller(HomesIn(s.(inc := 32, shift := 0), keys, a, h), keys);
    }
  }

  lemma FewerAreSpread(s: Shape, fewer: set<nat>, keys: set<nat>)
    requires fewer <= keys && Spread(s, keys)
    ensures Spread(s, fewer)
  {
    var t := s.(inc := 32, shift := 0);
    forall a: nat, h: nat | a <= h <= s.mask ensures !Crowded(t, fewer, a, h) {
      assert !Crowded(t, keys, a, h);
      SubsetIsSmaller(HomesIn(t, fewer, a, h), HomesIn(t, keys, a, h));
    }
  }

  /** The first slot of the run that slot `i` belongs to. */
  lemma {:induction false} RunStart(info: seq<Byte>, i: nat) returns (a: nat)
    requires i < |info| && info[i] != 0
    ensures a <= i && (a > 0 ==> info[a - 1] == 0) && forall k | a <= k <= i :: info[k] != 0
  {
    if i == 0 || info[i - 1] == 0 {
      a := i;
    } else {
      a := RunStart(info, i - 1);
    }
  }

  lemma RankTellsHome(s: Shape, k: nat, m: nat)
    requires s.Split() && Rank(s, k) <= Rank(s, m)
    ensures s.Home(k) <= s.Home(m)
  {
    s.BitsFit(k);
    s.BitsFit(m);
    hide Shape.Home, Shape.Bits;
  }

  /** At the smallest step, a byte that cannot grow belongs to an element 126 slots behind its home. */
  lemma FullIsFarBehind<V>(s: Shape, n: nat, info: seq<Byte>, nodes: seq<Node<V>>, slot: map<nat, nat>, j: nat)
    requires Laid(s, n, info, nodes, slot) && s.inc == 2 && j < n && info[j] as int >= 254
    ensures j == s.Home(nodes[j].key) + 126
    ensures forall i | s.Home(nodes[j].key) <= i <= j :: info[i] != 0
  {
    var key := nodes[j].key;
    assert Coded(s, info, nodes, j);
    s.BitsFit(key);
    forall i | s.Home(key) <= i <= j ensures info[i] != 0 {
      PassedAreTaken(s, n, info, nodes, slot, key, j, i);
    }
    hide Shape.Home, Shape.Bits, Laid;
  }

  /** All elements of its run up to there have their homes from the start of the run to its own. */
  lemma FullIsCrowded<V>(s: Shape, n: nat, info: seq<Byte>, nodes: seq<Node<V>>, slot: map<nat, nat>, j: nat)
    requires Laid(s, n, info, nodes, slot) && s.inc == 2 && j < n && info[j] as int >= 254
    ensures !Spread(s, slot.Keys)
  {
    var h := s.Home(nodes[j].key);
    FullIsFarBehind(s, n, info, nodes, slot, j);
    s.CodeRange(nodes[j].key, j);
    var a := RunStart(info, h);
    RunStartsAtHome(s, n, info, nodes, slot, a);
    var keys := KeysIn(n, info, nodes, slot, a, j + 1);
    forall k | k in keys ensures a <= s.Home(k) <= h {
      RunIsOrdered(s, n, info, nodes, slot, a, slot[k]);
      RunIsOrdered(s, n, info, nodes, slot, slot[k], j);
      RankTellsHome(s, nodes[a].key, k);
      RankTellsHome(s, k, nodes[j].key);
    }
    var t := s.(inc := 32, shift := 0);
    assert forall k :: t.Home(k) == s.Home(k);
    hide Laid, Shape.Home;
    assert keys <= HomesIn(t, slot.Keys, a, h);
    SubsetIsSmaller(keys, HomesIn(t, slot.Keys, a, h));
    assert Crowded(t, slot.Keys, a, h);
  }

  /** Different slots between `a` and `b` for all keys: there are no more keys than slots. */
  lemma {:induction false} Pigeonhole(slot: map<nat, nat>, keys: set<nat>, a: nat, b: nat)
    requires keys <= slot.Keys && a <= b && forall k | k in keys :: a <= slot[k] < b
    requires forall k, m | k in keys && m in keys && k != m :: slot[k] != slot[m]
    ensures |keys| <= b - a
    decreases b
  {
    if b > a {
      if k :| k in keys && slot[k] == b - 1 {
        Pigeonhole(slot, keys - {k}, a, b - 1);
      } else {
        Pigeonhole(slot, keys, a, b - 1);
      }
    } else {
      assert keys == {};
    }
  }

  /** Keys that crowd a stretch of homes push one of them out of reach of any larger step. */
  lemma CrowdedIsFull<V>(s: Shape, n: nat, info: seq<Byte>, nodes: seq<Node<V>>, slot: map<nat, nat>)
    requires Laid(s, n, info, nodes, slot) && !Spread(s, slot.Keys)
    ensures s.inc == 2 && !Roomy(s, n, info)
  {
    var t := s.(inc := 32, shift := 0);
    var a: nat, h: nat :| a <= h <= s.mask && Crowded(t, slot.Keys, a, h);
    var keys := HomesIn(t, slot.Keys, a, h);
    assert forall k :: t.Home(k) == s.Home(k);
    forall k | k in keys ensures slot[k] < n && info[slot[k]] != 0 && nodes[slot[k]].key == k && a <= slot[k] {
      assert Coded(s, info, nodes, slot[k]);
    }
    if forall k | k in keys :: slot[k] < h + 126 {
      Pigeonhole(slot, keys, a, h + 126);
      assert false;
    }
    var k :| k in keys && slot[k] >= h + 126;
    FarBehindIsFull(s, n, info, nodes, slot, k);
  }

  lemma FarBehindIsFull<V>(s: Shape, n: nat, info: seq<Byte>, nodes: seq<Node<V>>, slot: map<nat, nat>, key: nat)
    requires Laid(s, n, info, nodes, slot) && key in slot && slot[key] >= s.Home(key) + 126
    ensures s.inc == 2 && slot[key] < n && info[slot[key]] as int >= 254
  {
    assert Coded(s, info, nodes, slot[key]);
    s.BitsFit(key);
    hide Shape.Home, Shape.Bits;
  }

  /** In a table laid out properly, some byte cannot grow at the smallest step exactly if the home slots are crowded. */
  lemma FullExactly<V>(s: Shape, n: nat, info: seq<Byte>, nodes: seq<Node<V>>, slot: map<nat, nat>)
    requires Laid(s, n, info, nodes, slot)
    ensures (s.inc == 2 && !Roomy(s, n, info)) <==> !Spread(s, slot.Keys)
  {
    if !Spread(s, slot.Keys) {
      CrowdedIsFull(s, n, info, nodes, slot);
    } else if s.inc == 2 && !Roomy(s, n, info) {
      var j: nat :| j < n && info[j] as int + s.inc > 255;
      FullIsCrowded(s, n, info, nodes, slot, j);
    }
  }

  // ---------------------------------------------------------------------------------------------
  // Moving to a new table
  // ---------------------------------------------------------------------------------------------

  ghost function KeysBefore(slot: map<nat, nat>, i: nat): set<nat> {
    set k | k in slot && slot[k] < i
  }

  /** Moved slot by slot under the shape `s`, the elements of old slots get in the way of one that follows. */
  ghost predicate Overflows(s: Shape, bytes: seq<Byte>, n: nat, slot: map<nat, nat>)
    requires n <= |bytes|
  {
    exists i: nat | i < n :: OverflowsAt(s, bytes, slot, i)
  }

  ghost predicate OverflowsAt(s: Shape, bytes: seq<Byte>, slot: map<nat, nat>, i: nat)
    requires i < |bytes|
  {
    bytes[i] != 0 && !Spread(s, KeysBefore(slot, i))
  }

  lemma SpreadNeverOverflows(s: Shape, bytes: seq<Byte>, n: nat, slot: map<nat, nat>)
    requires n <= |bytes| && Spread(s, slot.Keys)
    ensures !Overflows(s, bytes, n, slot)
  {
    forall i: nat | i < n ensures !OverflowsAt(s, bytes, slot, i) {
      FewerAreSpread(s, KeysBefore(slot, i), slot.Keys);
    }
  }

  lemma OverflowsHere(s: Shape, bytes: seq<Byte>, n: nat, slot: map<nat, nat>, i: nat)
    requires i < n <= |bytes| && bytes[i] != 0 && !Spread(s, KeysBefore(slot, i))
    ensures Overflows(s, bytes, n, slot)
  {
    assert OverflowsAt(s, bytes, slot, i);
  }

  lemma OverflowsNowhere(s: Shape, bytes: seq<Byte>, n: nat, slot: map<nat, nat>)
    requires n <= |bytes| && forall i: nat | i < n && bytes[i] != 0 :: Spread(s, KeysBefore(slot, i))
    ensures !Overflows(s, bytes, n, slot)
  {
  }

  lemma BeforeKeys<V>(slot: map<nat, nat>, pairs: map<nat, V>, i: nat, part: map<nat, V>)
    requires StoredBefore(slot, pairs, i, part)
    ensures part.Keys == KeysBefore(slot, i)
  {
  }
}
