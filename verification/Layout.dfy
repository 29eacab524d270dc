/** Where the elements of a Robin Hood table lie, and what lookup, insertion, deletion and halving of the
    info bytes rely on and keep. */
module Layout {
  import opened InfoBytes

  datatype Node<V> = Node(key: nat, value: V)

  // ---------------------------------------------------------------------------------------------
  // The invariant
  // ---------------------------------------------------------------------------------------------

  /** The element at an occupied slot is not before its home, and its info byte says how far behind. */
  ghost predicate Coded<V>(s: Shape, info: seq<Byte>, nodes: seq<Node<V>>, j: nat)
    requires s.Split() && j < |info| && j < |nodes|
  {
    s.Home(nodes[j].key) <= j && info[j] as int == s.Code(nodes[j].key, j)
  }

  /** An element away from its home follows one that is at least as close to the front of the order by
      home slot and hash bits: info bytes grow by at most `inc` from slot to slot. */
  ghost predicate Chained(inc: nat, info: seq<Byte>, j: nat)
    requires j < |info|
  {
    info[j] as int < 2 * inc || (j > 0 && info[j] as int <= info[j - 1] as int + inc)
  }

  /** After the slots come the sentinel, missing only while nothing is allocated, and seven zero bytes. */
  ghost predicate Padded(s: Shape, n: nat, info: seq<Byte>) {
    && |info| == n + 8
    && info[n] as int == (if s.mask == 0 then 0 else 1)
    && forall j | n < j < n + 8 :: info[j] == 0
  }

  /** `slot` maps the stored keys one to one to the occupied slots. */
  ghost predicate Located<V>(n: nat, info: seq<Byte>, nodes: seq<Node<V>>, slot: map<nat, nat>)
    requires n <= |info| && n <= |nodes|
  {
    && (forall k | k in slot :: slot[k] < n && info[slot[k]] != 0 && nodes[slot[k]].key == k)
    && (forall j | 0 <= j < n && info[j] != 0 :: nodes[j].key in slot && slot[nodes[j].key] == j)
  }

  ghost predicate Laid<V>(s: Shape, n: nat, info: seq<Byte>, nodes: seq<Node<V>>, slot: map<nat, nat>) {
    && s.Split() && s.mask < n == |nodes|
    && Padded(s, n, info)
    && (forall j | 0 <= j < n && info[j] != 0 :: Coded(s, info, nodes, j))
    && (forall j | 0 <= j < n :: Chained(s.inc, info, j))
    && Located(n, info, nodes, slot)
  }

  /** Every info byte can grow by one step. */
  ghost predicate Roomy(s: Shape, n: nat, info: seq<Byte>)
    requires n <= |info|
  {
    forall j | 0 <= j < n :: info[j] as int + s.inc <= 255
  }

  // ---------------------------------------------------------------------------------------------
  // The order of a run
  // ---------------------------------------------------------------------------------------------

  /** Elements are ordered by home slot and, with the same home, by descending hash bits. */
  function Rank(s: Shape, key: nat): int {
    s.inc * s.Home(key) - s.Bits(key)
  }

  /** Within a run of occupied slots the elements are in that order. */
  lemma {:induction false} RunIsOrdered<V>(s: Shape, n: nat, info: seq<Byte>, nodes: seq<Node<V>>, slot: map<nat, nat>,
                                           i: nat, j: nat)
    requires Laid(s, n, info, nodes, slot) && i <= j < n && forall k | i <= k <= j :: info[k] != 0
    ensures Rank(s, nodes[i].key) <= Rank(s, nodes[j].key)
    decreases j
  {
    if i < j {
      RunIsOrdered(s, n, info, nodes, slot, i, j - 1);
      assert Coded(s, info, nodes, j - 1) && Coded(s, info, nodes, j) && Chained(s.inc, info, j);
      hide Located, Laid;
      CodeIsRank(s, nodes[j - 1].key, j - 1);
      CodeIsRank(s, nodes[j].key, j);
      s.CodeRange(nodes[j].key, j);
    }
  }

  lemma CodeIsRank(s: Shape, key: nat, j: nat)
    requires s.Split()
    ensures s.Code(key, j) == s.inc * (j + 1) - Rank(s, key)
    ensures s.Home(key) <= j ==> Rank(s, key) <= s.inc * j
    ensures s.Home(key) == j ==> Rank(s, key) > s.inc * (j - 1)
  {
    s.BitsFit(key);
    hide Shape.Bits, Shape.Home;
  }

  /** The first element of a run is at its home slot. */
  lemma RunStartsAtHome<V>(s: Shape, n: nat, info: seq<Byte>, nodes: seq<Node<V>>, slot: map<nat, nat>, j: nat)
    requires Laid(s, n, info, nodes, slot) && j < n && info[j] != 0 && (j > 0 ==> info[j - 1] == 0)
    ensures s.Home(nodes[j].key) == j
  {
    assert Coded(s, info, nodes, j) && Chained(s.inc, info, j);
    s.CodeRange(nodes[j].key, j);
    hide Shape.Code, Shape.Home;
  }

  // ---------------------------------------------------------------------------------------------
  // Lookup
  // ---------------------------------------------------------------------------------------------

  /** From its home to its slot, a stored key meets info bytes no smaller than the one it would have. */
  lemma {:induction false} MeetsNoSmaller<V>(s: Shape, n: nat, info: seq<Byte>, nodes: seq<Node<V>>, slot: map<nat, nat>,
                                             key: nat, i: nat)
    requires Laid(s, n, info, nodes, slot) && key in slot
    requires s.Home(key) <= i <= slot[key]
    ensures info[i] as int >= s.Code(key, i)
    decreases slot[key] - i
  {
    hide Shape.Code;
    if i == slot[key] {
      assert Coded(s, info, nodes, i);
    } else {
      MeetsNoSmaller(s, n, info, nodes, slot, key, i + 1);
      s.CodeNext(key, i);
      s.CodeRange(key, i + 1);
      assert Chained(s.inc, info, i + 1);
    }
  }

  /** A probe that meets a smaller info byte has passed the key, if it is stored at all. */
  lemma SmallerEndsSearch<V>(s: Shape, n: nat, info: seq<Byte>, nodes: seq<Node<V>>, slot: map<nat, nat>, key: nat, i: nat)
    requires Laid(s, n, info, nodes, slot) && s.Home(key) <= i < |info|
    requires (info[i] as int) < s.Code(key, i)
    ensures key in slot ==> slot[key] < i
  {
    if key in slot && i <= slot[key] {
      MeetsNoSmaller(s, n, info, nodes, slot, key, i);
    }
  }

  /** An info byte that reaches the probe's is that of a real slot. */
  lemma ReachedIsSlot<V>(s: Shape, n: nat, info: seq<Byte>, nodes: seq<Node<V>>, slot: map<nat, nat>, key: nat, i: nat)
    requires Laid(s, n, info, nodes, slot) && s.Home(key) <= i < |info|
    requires info[i] as int >= s.Code(key, i)
    ensures i < n
  {
    s.CodeRange(key, i);
  }

  /** A key lies at a slot exactly if the slot holds it under the info byte the probe has there. */
  lemma FoundIsThere<V>(s: Shape, n: nat, info: seq<Byte>, nodes: seq<Node<V>>, slot: map<nat, nat>, key: nat, i: nat)
    requires Laid(s, n, info, nodes, slot) && s.Home(key) <= i < n
    ensures (info[i] as int == s.Code(key, i) && nodes[i].key == key) <==> (key in slot && slot[key] == i)
  {
    s.CodeRange(key, i);
    if key in slot && slot[key] == i {
      assert Coded(s, info, nodes, i);
    }
  }

  // ---------------------------------------------------------------------------------------------
  // Room for one more
  // ---------------------------------------------------------------------------------------------

  /** Occupied slots hold different keys. */
  lemma {:induction false} OccupiedAreCounted<V>(n: nat, info: seq<Byte>, nodes: seq<Node<V>>, slot: map<nat, nat>,
                                                 lo: nat, hi: nat)
    requires n <= |info| && n <= |nodes| && Located(n, info, nodes, slot) && lo <= hi <= n
    requires forall j | lo <= j < hi :: info[j] != 0
    ensures |slot| >= hi - lo
  {
    var keys := KeysIn(n, info, nodes, slot, lo, hi);
    assert keys <= slot.Keys;
    SubsetIsSmaller(keys, slot.Keys);
  }

  lemma SubsetIsSmaller<T>(a: set<T>, b: set<T>)
    requires a <= b
    ensures |a| <= |b|
  {
    assert b == a + (b - a);
  }

  lemma {:induction false} KeysIn<V>(n: nat, info: seq<Byte>, nodes: seq<Node<V>>, slot: map<nat, nat>, lo: nat, hi: nat)
    returns (keys: set<nat>)
    requires n <= |info| && n <= |nodes| && Located(n, info, nodes, slot) && lo <= hi <= n
    requires forall j | lo <= j < hi :: info[j] != 0
    ensures |keys| == hi - lo && forall k | k in keys :: k in slot && lo <= slot[k] < hi
    decreases hi - lo
  {
    if lo == hi {
      keys := {};
    } else {
      keys := KeysIn(n, info, nodes, slot, lo, hi - 1);
      keys := keys + {nodes[hi - 1].key};
    }
  }

  /** The run behind a home slot cannot reach the end of the buffer while the table is not full. */
  lemma RunEnds<V>(s: Shape, n: nat, info: seq<Byte>, nodes: seq<Node<V>>, slot: map<nat, nat>, key: nat)
    requires Laid(s, n, info, nodes, slot) && n == WithBuffer(s.mask + 1)
    requires |slot| < MaxAllowed(s.mask + 1)
    ensures exists j | s.Home(key) <= j < n :: info[j] == 0
  {
    var home := s.Home(key);
    if forall j | home <= j < n :: info[j] != 0 {
      OccupiedAreCounted(n, info, nodes, slot, home, n);
      assert Coded(s, info, nodes, n - 1);
      LastIsTooFar(s, nodes[n - 1].key, n);
    }
  }

  lemma LastIsTooFar(s: Shape, key: nat, n: nat)
    requires s.Split() && n >= s.mask + 256
    ensures s.Code(key, n - 1) > 255
  {
  }

  /** After a slot with the probe's byte the next byte is at most the next probe. */
  lemma NextIsNoLarger<V>(s: Shape, n: nat, info: seq<Byte>, nodes: seq<Node<V>>, slot: map<nat, nat>, key: nat, i: nat)
    requires Laid(s, n, info, nodes, slot) && s.Home(key) <= i < n
    requires info[i] as int == s.Code(key, i)
    ensures info[i + 1] as int <= s.Code(key, i + 1)
  {
    s.CodeNext(key, i);
    s.CodeRange(key, i + 1);
    hide Shape.Code, Shape.Home, Located;
    if i + 1 < n {
      assert Chained(s.inc, info, i + 1);
    }
  }

  /** All slots from the home to one with a byte at least the probe's are taken. */
  lemma {:induction false} PassedAreTaken<V>(s: Shape, n: nat, info: seq<Byte>, nodes: seq<Node<V>>, slot: map<nat, nat>,
                                             key: nat, last: nat, j: nat)
    requires Laid(s, n, info, nodes, slot) && s.Home(key) <= j <= last < n
    requires info[last] as int >= s.Code(key, last)
    ensures info[j] as int >= s.Code(key, j) && info[j] != 0
    decreases last - j
  {
    s.CodeRange(key, j);
    hide Shape.Code, Shape.Home, Located;
    if j < last {
      s.CodeRange(key, j + 1);
      s.CodeNext(key, j);
      PassedAreTaken(s, n, info, nodes, slot, key, last, j + 1);
      assert Chained(s.inc, info, j + 1);
    }
  }

  /** While the table is not full and has room, the byte to be inserted fits and a free slot lies ahead. */
  lemma FreeAhead<V>(s: Shape, n: nat, info: seq<Byte>, nodes: seq<Node<V>>, slot: map<nat, nat>, key: nat, ins: nat)
    returns (free: nat)
    requires Laid(s, n, info, nodes, slot) && n == WithBuffer(s.mask + 1) && Roomy(s, n, info)
    requires |slot| < MaxAllowed(s.mask + 1)
    requires s.Home(key) <= ins <= n
    requires ins > s.Home(key) ==> info[ins - 1] as int >= s.Code(key, ins - 1)
    ensures 0 < s.Code(key, ins) <= 255
    ensures ins <= free < n && info[free] == 0
  {
    s.CodeRange(key, ins);
    RunEnds(s, n, info, nodes, slot, key);
    free :| s.Home(key) <= free < n && info[free] == 0;
    hide Shape.Code, Shape.Home, Located;
    if ins > s.Home(key) {
      s.CodeNext(key, ins - 1);
      forall j | s.Home(key) <= j < ins ensures info[j] != 0 {
        PassedAreTaken(s, n, info, nodes, slot, key, ins - 1, j);
      }
    }
  }

  // ---------------------------------------------------------------------------------------------
  // Insertion
  // ---------------------------------------------------------------------------------------------

  /** Slots `ins..start` move up by one, gaining one step each, and slot `ins` gets `code`. */
  ghost predicate MovedUp<V>(s: Shape, info: seq<Byte>, nodes: seq<Node<V>>, ins: nat, start: nat, code: int, key: nat,
                             info': seq<Byte>, nodes': seq<Node<V>>)
    requires ins <= start < |nodes| <= |info|
  {
    && |info'| == |info| && |nodes'| == |nodes|
    && info'[ins] as int == code && nodes'[ins].key == key
    && (forall j {:trigger info'[j]} | ins < j <= start ::
          info'[j] as int == info[j - 1] as int + s.inc)
    && (forall j {:trigger nodes'[j]} | ins < j <= start :: nodes'[j] == nodes[j - 1])
    && (forall j {:trigger info'[j]} | 0 <= j < |info| && (j < ins || j > start) :: info'[j] == info[j])
    && (forall j {:trigger nodes'[j]} | 0 <= j < |nodes| && (j < ins || j > start) :: nodes'[j] == nodes[j])
  }

  ghost function SlotsUp(slot: map<nat, nat>, ins: nat, start: nat): (r: map<nat, nat>)
    ensures r.Keys == slot.Keys
  {
    map k | k in slot :: if ins <= slot[k] < start then slot[k] + 1 else slot[k]
  }

  /** The place the insertion loops stop at: every slot passed shows a byte at least the probe's, this one
      a smaller one, and all slots from here to the first free one are taken. */
  ghost predicate InsertionPoint(s: Shape, n: nat, info: seq<Byte>, key: nat, ins: nat, start: nat)
    requires s.Split() && n <= |info|
  {
    && s.Home(key) <= ins <= start < n
    && (ins > s.Home(key) ==> info[ins - 1] as int >= s.Code(key, ins - 1))
    && (info[ins] as int) < s.Code(key, ins)
    && (forall j | ins <= j < start :: info[j] != 0)
    && info[start] == 0
  }

  lemma ShiftedIsMoved<V>(s: Shape, info: seq<Byte>, nodes: seq<Node<V>>, ins: nat, start: nat, code: int, key: nat,
                          info': seq<Byte>, nodes': seq<Node<V>>)
    requires ins <= start < |nodes| <= |info| == |info'| && |nodes'| == |nodes|
    requires info'[ins] as int == code && nodes'[ins].key == key
    requires forall j {:trigger info'[j]} | ins < j <= start :: info'[j] as int == info[j - 1] as int + s.inc
    requires forall j {:trigger nodes'[j]} | ins < j <= start :: nodes'[j] == nodes[j - 1]
    requires forall j {:trigger info'[j]} | 0 <= j < |info| && (j < ins || j > start) :: info'[j] == info[j]
    requires forall j {:trigger nodes'[j]} | 0 <= j < |nodes| && (j < ins || j > start) :: nodes'[j] == nodes[j]
    ensures MovedUp(s, info, nodes, ins, start, code, key, info', nodes')
  {
  }

  lemma LaidInsert<V>(s: Shape, n: nat, info: seq<Byte>, nodes: seq<Node<V>>, slot: map<nat, nat>,
                      key: nat, ins: nat, start: nat, info': seq<Byte>, nodes': seq<Node<V>>)
    requires Laid(s, n, info, nodes, slot) && key !in slot
    requires InsertionPoint(s, n, info, key, ins, start)
    requires MovedUp(s, info, nodes, ins, start, s.Code(key, ins), key, info', nodes')
    ensures Laid(s, n, info', nodes', SlotsUp(slot, ins, start)[key := ins])
  {
    hide Shape.Code;
    forall j | 0 <= j < n && info'[j] != 0 ensures Coded(s, info', nodes', j) {
      if j == ins {
        s.CodeRange(key, j);
      } else if ins < j <= start {
        assert Coded(s, info, nodes, j - 1);
        s.CodeNext(nodes[j - 1].key, j - 1);
      } else {
        assert Coded(s, info, nodes, j);
      }
    }
    forall j | 0 <= j < n ensures Chained(s.inc, info', j) {
      ChainedInsert(s, n, info, nodes, slot, key, ins, start, info', nodes', j);
    }
    LocatedInsert(s, n, info, nodes, slot, key, ins, start, s.Code(key, ins), info', nodes');
  }

  lemma ChainedInsert<V>(s: Shape, n: nat, info: seq<Byte>, nodes: seq<Node<V>>, slot: map<nat, nat>,
                         key: nat, ins: nat, start: nat, info': seq<Byte>, nodes': seq<Node<V>>, j: nat)
    requires Laid(s, n, info, nodes, slot)
    requires InsertionPoint(s, n, info, key, ins, start)
    requires MovedUp(s, info, nodes, ins, start, s.Code(key, ins), key, info', nodes')
    requires j < n
    ensures Chained(s.inc, info', j)
  {
    hide Shape.Code, Coded;
    assert Chained(s.inc, info, j);
    if j == ins {
      s.CodeRange(key, ins);
      if ins > s.Home(key) {
        s.CodeNext(key, ins - 1);
      }
    } else if ins < j <= start {
      assert Chained(s.inc, info, j - 1);
      if j - 1 > ins {
        SlotByte(s, n, info, nodes, slot, j - 2);
      }
    }
  }

  /** An occupied slot's byte is at least one step. */
  lemma SlotByte<V>(s: Shape, n: nat, info: seq<Byte>, nodes: seq<Node<V>>, slot: map<nat, nat>, j: nat)
    requires Laid(s, n, info, nodes, slot) && j < n && info[j] != 0
    ensures info[j] as int >= s.inc
  {
    assert Coded(s, info, nodes, j);
    s.CodeRange(nodes[j].key, j);
  }

  lemma LocatedInsert<V>(s: Shape, n: nat, info: seq<Byte>, nodes: seq<Node<V>>, slot: map<nat, nat>,
                         key: nat, ins: nat, start: nat, code: int, info': seq<Byte>, nodes': seq<Node<V>>)
    requires n == |nodes| <= |info| && Located(n, info, nodes, slot) && key !in slot
    requires ins <= start < n && info[start] == 0 && forall j | ins <= j < start :: info[j] != 0
    requires code > 0 && MovedUp(s, info, nodes, ins, start, code, key, info', nodes')
    ensures Located(n, info', nodes', SlotsUp(slot, ins, start)[key := ins])
  {
    var slot' := SlotsUp(slot, ins, start)[key := ins];
    forall k | k in slot' ensures slot'[k] < n && info'[slot'[k]] != 0 && nodes'[slot'[k]].key == k {
      if k != key {
        assert slot[k] != start;
      }
    }
    forall j | 0 <= j < n && info'[j] != 0 ensures nodes'[j].key in slot' && slot'[nodes'[j].key] == j {
      if ins < j <= start {
        assert info[j - 1] != 0;
      }
    }
  }

  // ---------------------------------------------------------------------------------------------
  // Deletion by shifting back
  // ---------------------------------------------------------------------------------------------

  /** The elements behind `idx` that are away from their home move back one slot, up to and including `end`,
      and `end` becomes free. */
  ghost predicate MovedDown<V>(s: Shape, info: seq<Byte>, nodes: seq<Node<V>>, idx: nat, end: nat,
                               info': seq<Byte>, nodes': seq<Node<V>>)
    requires idx <= end < |nodes| < |info|
  {
    && |info'| == |info| && |nodes'| == |nodes|
    && (forall j | idx < j <= end :: info[j] as int >= 2 * s.inc)
    && (info[end + 1] as int) < 2 * s.inc
    && (forall j {:trigger info'[j]} | idx <= j < end :: info'[j] as int == info[j + 1] as int - s.inc)
    && (forall j {:trigger nodes'[j]} | idx <= j < end :: nodes'[j] == nodes[j + 1])
    && info'[end] == 0
    && (forall j {:trigger info'[j]} | 0 <= j < |info| && (j < idx || j > end) :: info'[j] == info[j])
    && (forall j {:trigger nodes'[j]} | 0 <= j < |nodes| && (j < idx || j > end) :: nodes'[j] == nodes[j])
  }

  lemma ShiftedIsMovedDown<V>(s: Shape, info: seq<Byte>, nodes: seq<Node<V>>, idx: nat, end: nat,
                              info': seq<Byte>, nodes': seq<Node<V>>)
    requires idx <= end < |nodes| < |info| == |info'| && |nodes'| == |nodes|
    requires forall j | idx < j <= end :: info[j] as int >= 2 * s.inc
    requires (info[end + 1] as int) < 2 * s.inc && info'[end] == 0
    requires forall j {:trigger info'[j]} | idx <= j < end :: info'[j] as int == info[j + 1] as int - s.inc
    requires forall j {:trigger nodes'[j]} | idx <= j < end :: nodes'[j] == nodes[j + 1]
    requires forall j {:trigger info'[j]} | 0 <= j < |info| && (j < idx || j > end) :: info'[j] == info[j]
    requires forall j {:trigger nodes'[j]} | 0 <= j < |nodes| && (j < idx || j > end) :: nodes'[j] == nodes[j]
    ensures MovedDown(s, info, nodes, idx, end, info', nodes')
  {
  }

  ghost function SlotsDown(slot: map<nat, nat>, key: nat, idx: nat, end: nat): (r: map<nat, nat>)
    ensures r.Keys == slot.Keys - {key}
  {
    map k | k in slot && k != key :: if idx < slot[k] <= end then slot[k] - 1 else slot[k]
  }

  lemma LaidErase<V>(s: Shape, n: nat, info: seq<Byte>, nodes: seq<Node<V>>, slot: map<nat, nat>,
                     key: nat, end: nat, info': seq<Byte>, nodes': seq<Node<V>>)
    requires Laid(s, n, info, nodes, slot) && key in slot
    requires slot[key] <= end < n && MovedDown(s, info, nodes, slot[key], end, info', nodes')
    ensures Laid(s, n, info', nodes', SlotsDown(slot, key, slot[key], end))
  {
    hide Shape.Code;
    var idx := slot[key];
    forall j | 0 <= j < n && info'[j] != 0 ensures Coded(s, info', nodes', j) {
      if idx <= j < end {
        assert Coded(s, info, nodes, j + 1);
        s.CodeNext(nodes[j + 1].key, j);
        s.CodeRange(nodes[j + 1].key, j + 1);
      } else {
        assert Coded(s, info, nodes, j);
      }
    }
    forall j | 0 <= j < n ensures Chained(s.inc, info', j) {
      assert Chained(s.inc, info, j);
      if idx <= j < end {
        assert Chained(s.inc, info, j + 1);
      }
    }
    LocatedErase(s, n, info, nodes, slot, key, end, info', nodes');
  }

  lemma LocatedErase<V>(s: Shape, n: nat, info: seq<Byte>, nodes: seq<Node<V>>, slot: map<nat, nat>,
                        key: nat, end: nat, info': seq<Byte>, nodes': seq<Node<V>>)
    requires n == |nodes| < |info| && Located(n, info, nodes, slot) && key in slot && s.inc > 0
    requires slot[key] <= end < n && MovedDown(s, info, nodes, slot[key], end, info', nodes')
    ensures Located(n, info', nodes', SlotsDown(slot, key, slot[key], end))
  {
    var idx, slot' := slot[key], SlotsDown(slot, key, slot[key], end);
    forall k | k in slot' ensures slot'[k] < n && info'[slot'[k]] != 0 && nodes'[slot'[k]].key == k {
      assert slot[k] != idx;
    }
    forall j | 0 <= j < n && info'[j] != 0 ensures nodes'[j].key in slot' && slot'[nodes'[j].key] == j {
      if idx <= j < end {
        assert info[j + 1] != 0;
      }
    }
  }

  // ---------------------------------------------------------------------------------------------
  // Giving up a hash bit, and starting afresh
  // ---------------------------------------------------------------------------------------------

  /** Halving every info byte is laying the same elements under the halved encoding. */
  lemma LaidHalve<V>(s: Shape, n: nat, info: seq<Byte>, nodes: seq<Node<V>>, slot: map<nat, nat>, info': seq<Byte>)
    requires Laid(s, n, info, nodes, slot) && s.inc > 2
    requires Padded(s, n, info') && forall j {:trigger info'[j]} | 0 <= j < n :: info'[j] == info[j] / 2
    ensures Laid(Halved(s), n, info', nodes, slot) && Roomy(Halved(s), n, info')
  {
    hide Shape.Code;
    forall j | 0 <= j < n && info[j] != 0 ensures info'[j] != 0 && Coded(Halved(s), info', nodes, j) {
      assert Coded(s, info, nodes, j);
      HalvedCode(s, nodes[j].key, j);
      SlotByte(s, n, info, nodes, slot, j);
    }
    forall j | 0 <= j < n ensures Chained(Halved(s).inc, info', j) {
      assert Chained(s.inc, info, j);
    }
  }

  lemma LaidEmpty<V>(s: Shape, n: nat, info: seq<Byte>, nodes: seq<Node<V>>)
    requires s.Split() && s.mask < n == |nodes| && Padded(s, n, info)
    requires forall j | 0 <= j < n :: info[j] == 0
    ensures Laid(s, n, info, nodes, map[])
  {
  }

  // ---------------------------------------------------------------------------------------------
  // The stored map
  // ---------------------------------------------------------------------------------------------

  /** The occupied slots hold exactly the pairs of a map. */
  ghost predicate Stored<V>(n: nat, info: seq<Byte>, nodes: seq<Node<V>>, slot: map<nat, nat>, pairs: map<nat, V>)
    requires n == |nodes| <= |info|
  {
    && Located(n, info, nodes, slot)
    && pairs.Keys == slot.Keys
    && forall k | k in pairs :: nodes[slot[k]] == Node(k, pairs[k])
  }

  lemma OneLess(r: map<nat, nat>, slot: map<nat, nat>, key: nat)
    requires r.Keys == slot.Keys - {key} && key in slot
    ensures |r| == |slot| - 1
  {
    assert |r.Keys| == |r| && |slot.Keys| == |slot|;
  }

  lemma OneMore(r: map<nat, nat>, slot: map<nat, nat>, key: nat, i: nat)
    requires r.Keys == slot.Keys && key !in slot
    ensures |r[key := i]| == |slot| + 1
  {
    assert r[key := i].Keys == slot.Keys + {key};
    assert |r[key := i].Keys| == |r[key := i]| && |slot.Keys| == |slot|;
  }

  lemma StoredErase<V>(s: Shape, n: nat, info: seq<Byte>, nodes: seq<Node<V>>, slot: map<nat, nat>, pairs: map<nat, V>,
                       key: nat, end: nat, info': seq<Byte>, nodes': seq<Node<V>>)
    requires n == |nodes| < |info| && Stored(n, info, nodes, slot, pairs) && key in slot && s.inc > 0
    requires slot[key] <= end < n && MovedDown(s, info, nodes, slot[key], end, info', nodes')
    ensures Stored(n, info', nodes', SlotsDown(slot, key, slot[key], end), pairs - {key})
    ensures |SlotsDown(slot, key, slot[key], end)| == |slot| - 1
    ensures Roomy(s, n, info) ==> Roomy(s, n, info')
  {
    OneLess(SlotsDown(slot, key, slot[key], end), slot, key);
    LocatedErase(s, n, info, nodes, slot, key, end, info', nodes');
    ValuesErase(s, n, info, nodes, slot, pairs, key, end, info', nodes');
    hide Located;
  }

  lemma ValuesErase<V>(s: Shape, n: nat, info: seq<Byte>, nodes: seq<Node<V>>, slot: map<nat, nat>, pairs: map<nat, V>,
                       key: nat, end: nat, info': seq<Byte>, nodes': seq<Node<V>>)
    requires n == |nodes| < |info| && key in slot && pairs.Keys == slot.Keys
    requires forall k | k in slot :: slot[k] < n && (k != key ==> slot[k] != slot[key])
    requires forall k | k in pairs :: nodes[slot[k]] == Node(k, pairs[k])
    requires slot[key] <= end < n && MovedDown(s, info, nodes, slot[key], end, info', nodes')
    ensures forall k | k in pairs && k != key :: nodes'[SlotsDown(slot, key, slot[key], end)[k]] == Node(k, pairs[k])
    ensures Roomy(s, n, info) ==> Roomy(s, n, info')
  {
    if Roomy(s, n, info) {
      forall j | 0 <= j < n ensures info'[j] as int + s.inc <= 255 {
        assert info[j] as int + s.inc <= 255;
        if slot[key] <= j < end {
          assert info[j + 1] as int + s.inc <= 255;
        }
      }
    }
  }

  lemma StoredInsert<V>(s: Shape, n: nat, info: seq<Byte>, nodes: seq<Node<V>>, slot: map<nat, nat>, pairs: map<nat, V>,
                        key: nat, value: V, ins: nat, start: nat, code: int, info': seq<Byte>, nodes': seq<Node<V>>)
    requires n == |nodes| < |info| && Stored(n, info, nodes, slot, pairs) && key !in slot
    requires ins <= start < n && info[start] == 0 && forall j | ins <= j < start :: info[j] != 0
    requires code > 0 && MovedUp(s, info, nodes, ins, start, code, key, info', nodes') && nodes'[ins] == Node(key, value)
    ensures Stored(n, info', nodes', SlotsUp(slot, ins, start)[key := ins], pairs[key := value])
    ensures |SlotsUp(slot, ins, start)[key := ins]| == |slot| + 1
  {
    hide MovedUp, SlotsUp;
    OneMore(SlotsUp(slot, ins, start), slot, key, ins);
    LocatedInsert(s, n, info, nodes, slot, key, ins, start, code, info', nodes');
    assert forall k | k in slot :: slot[k] < n && slot[k] != start;
    ValuesInsert(s, n, info, nodes, slot, pairs, key, value, ins, start, code, info', nodes');
  }

  lemma ValuesInsert<V>(s: Shape, n: nat, info: seq<Byte>, nodes: seq<Node<V>>, slot: map<nat, nat>, pairs: map<nat, V>,
                        key: nat, value: V, ins: nat, start: nat, code: int, info': seq<Byte>, nodes': seq<Node<V>>)
    requires n == |nodes| < |info| && key !in slot && pairs.Keys == slot.Keys
    requires ins <= start < n && forall k | k in slot :: slot[k] < n && slot[k] != start
    requires forall k | k in pairs :: nodes[slot[k]] == Node(k, pairs[k])
    requires MovedUp(s, info, nodes, ins, start, code, key, info', nodes') && nodes'[ins] == Node(key, value)
    ensures forall k | k in pairs :: nodes'[SlotsUp(slot, ins, start)[k]] == Node(k, pairs[k])
  {
  }

  /** The slots are laid out properly and hold exactly the pairs of a map. */
  ghost predicate Holds<V>(s: Shape, n: nat, info: seq<Byte>, nodes: seq<Node<V>>, slot: map<nat, nat>, pairs: map<nat, V>) {
    Laid(s, n, info, nodes, slot) && Stored(n, info, nodes, slot, pairs)
  }

  lemma HoldsErase<V>(s: Shape, n: nat, info: seq<Byte>, nodes: seq<Node<V>>, slot: map<nat, nat>, pairs: map<nat, V>,
                      key: nat, end: nat, info': seq<Byte>, nodes': seq<Node<V>>)
    requires Holds(s, n, info, nodes, slot, pairs) && key in slot
    requires n == |nodes| < |info| && slot[key] <= end < n && MovedDown(s, info, nodes, slot[key], end, info', nodes')
    ensures Holds(s, n, info', nodes', SlotsDown(slot, key, slot[key], end), pairs - {key})
    ensures |SlotsDown(slot, key, slot[key], end)| == |slot| - 1
    ensures n <= |info'| && (Roomy(s, n, info) ==> Roomy(s, n, info'))
  {
    LaidErase(s, n, info, nodes, slot, key, end, info', nodes');
    StoredErase(s, n, info, nodes, slot, pairs, key, end, info', nodes');
    hide Laid, Stored, Roomy;
  }

  lemma HoldsInsert<V>(s: Shape, n: nat, info: seq<Byte>, nodes: seq<Node<V>>, slot: map<nat, nat>, pairs: map<nat, V>,
                       key: nat, value: V, ins: nat, start: nat, info': seq<Byte>, nodes': seq<Node<V>>)
    requires Holds(s, n, info, nodes, slot, pairs) && key !in slot
    requires s.Split() && n == |nodes| <= |info| && InsertionPoint(s, n, info, key, ins, start)
    requires MovedUp(s, info, nodes, ins, start, s.Code(key, ins), key, info', nodes') && nodes'[ins] == Node(key, value)
    ensures Holds(s, n, info', nodes', SlotsUp(slot, ins, start)[key := ins], pairs[key := value])
    ensures |SlotsUp(slot, ins, start)[key := ins]| == |slot| + 1
  {
    s.CodeRange(key, ins);
    LaidInsert(s, n, info, nodes, slot, key, ins, start, info', nodes');
    StoredInsert(s, n, info, nodes, slot, pairs, key, value, ins, start, s.Code(key, ins), info', nodes');
    hide Laid, Stored;
  }

  lemma HoldsHalve<V>(s: Shape, n: nat, info: seq<Byte>, nodes: seq<Node<V>>, slot: map<nat, nat>, pairs: map<nat, V>,
                      info': seq<Byte>)
    requires Holds(s, n, info, nodes, slot, pairs) && s.inc > 2
    requires Padded(s, n, info') && n <= |info| && forall j {:trigger info'[j]} | 0 <= j < n :: info'[j] == info[j] / 2
    ensures Holds(Halved(s), n, info', nodes, slot, pairs) && Roomy(Halved(s), n, info')
  {
    LaidHalve(s, n, info, nodes, slot, info');
  }

  lemma HoldsLaid<V>(s: Shape, n: nat, info: seq<Byte>, nodes: seq<Node<V>>, slot: map<nat, nat>, pairs: map<nat, V>)
    requires Holds(s, n, info, nodes, slot, pairs)
    ensures Laid(s, n, info, nodes, slot)
  {
  }

  lemma HoldsEmpty<V>(s: Shape, n: nat, info: seq<Byte>, nodes: seq<Node<V>>)
    requires s.Split() && s.inc <= 32 && s.mask < n == |nodes| && Padded(s, n, info)
    requires forall j | 0 <= j < n :: info[j] == 0
    ensures Holds(s, n, info, nodes, map[], map[]) && Roomy(s, n, info)
  {
    LaidEmpty(s, n, info, nodes);
  }

  // ---------------------------------------------------------------------------------------------
  // Moving to a new table
  // ---------------------------------------------------------------------------------------------

  /** `part` is what the slots before `i` store. */
  ghost predicate StoredBefore<V>(slot: map<nat, nat>, pairs: map<nat, V>, i: nat, part: map<nat, V>) {
    && (forall k | k in part :: k in slot && slot[k] < i && k in pairs && part[k] == pairs[k])
    && (forall k | k in slot && slot[k] < i :: k in part)
  }

  lemma NoneBefore<V>(slot: map<nat, nat>, pairs: map<nat, V>)
    ensures StoredBefore(slot, pairs, 0, map[])
  {
  }

  lemma AllBefore<V>(n: nat, info: seq<Byte>, nodes: seq<Node<V>>, slot: map<nat, nat>, pairs: map<nat, V>, part: map<nat, V>)
    requires n == |nodes| <= |info| && Stored(n, info, nodes, slot, pairs) && StoredBefore(slot, pairs, n, part)
    ensures part == pairs
  {
    assert part.Keys == pairs.Keys;
  }

  /** An occupied slot adds its pair, not met before, to what the slots before it store; a free one adds nothing. */
  lemma BeforeNext<V>(n: nat, info: seq<Byte>, nodes: seq<Node<V>>, slot: map<nat, nat>, pairs: map<nat, V>, i: nat,
                      part: map<nat, V>)
    requires n == |nodes| <= |info| && Stored(n, info, nodes, slot, pairs) && i < n
    requires StoredBefore(slot, pairs, i, part)
    ensures info[i] == 0 ==> StoredBefore(slot, pairs, i + 1, part)
    ensures info[i] != 0 ==> nodes[i].key !in part && |part| < |slot|
    ensures info[i] != 0 ==> StoredBefore(slot, pairs, i + 1, part[nodes[i].key := nodes[i].value])
  {
    if info[i] == 0 {
      assert forall k | k in slot :: slot[k] != i;
    } else {
      var key := nodes[i].key;
      assert slot[key] == i && nodes[slot[key]] == Node(key, pairs[key]);
      assert key in slot && key in pairs && forall k | k in slot && slot[k] == i :: k == key;
      hide Stored;
      assert key !in part;
      PartIsSmaller(slot, part, key);
      OneMoreBefore(slot, pairs, i, part, key);
    }
  }

  lemma OneMoreBefore<V>(slot: map<nat, nat>, pairs: map<nat, V>, i: nat, part: map<nat, V>, key: nat)
    requires StoredBefore(slot, pairs, i, part)
    requires key in slot && key in pairs && forall k | k in slot :: slot[k] == i <==> k == key
    ensures StoredBefore(slot, pairs, i + 1, part[key := pairs[key]])
  {
  }

  lemma PartIsSmaller<V>(slot: map<nat, nat>, part: map<nat, V>, key: nat)
    requires key in slot && key !in part && forall k | k in part :: k in slot
    ensures |part| < |slot|
  {
    assert part.Keys <= slot.Keys - {key};
    SubsetIsSmaller(part.Keys, slot.Keys - {key});
    assert |part| == |part.Keys| && |slot| == |slot.Keys|;
  }
}
