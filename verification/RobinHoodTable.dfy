/** The hash table behind the id index: open addressing without wrap-around, Robin Hood insertion, deletion
    by shifting back, and info bytes that are halved when they run out of room. */
module RobinHoodTable {
  import opened Clusters
  import opened InfoBytes
  import opened KeyMixing
  import opened Layout
  import opened Options

  datatype InsertionState = OverflowError | KeyFound | NewNode | OverwriteNode

  class Table<V(0)> {
    const mix: (nat, nat) -> nat
    var multiplier: nat
    var keyVals: array<Node<V>>
    var info: array<Byte>
    var numElements: nat
    var mask: nat
    var maxAllowed: nat
    var infoInc: nat
    var hashShift: nat
    /** The map the table stands for, and the slot of each of its keys. */
    ghost var contents: map<nat, V>
    ghost var slot: map<nat, nat>

    function CurrentShape(): Shape
      reads this
    {
      Shape(mix, multiplier, mask, infoInc, hashShift)
    }

    /** Number of slots, buffer included. */
    function Slots(): nat
      reads `mask
    {
      WithBuffer(mask + 1)
    }

    /** With `nodes` in the slots, the table stores exactly `pairs`, and the counters fit. */
    ghost predicate ValidWith(nodes: seq<Node<V>>, pairs: map<nat, V>)
      reads this, info
    {
      && |nodes| == Slots() && info.Length == Slots() + 8 && CurrentShape().Split() && pairs.Keys == slot.Keys
      && Holds(CurrentShape(), Slots(), info[..], nodes, slot, pairs)
      && PowerOfTwo(mask + 1) && (mask == 0 || mask >= 7) && multiplier % 2 == 1
      && numElements == |slot| <= MaxAllowed(mask + 1)
      && (maxAllowed == 0 || (maxAllowed == MaxAllowed(mask + 1) && Roomy(CurrentShape(), Slots(), info[..])))
    }

    ghost predicate Valid()
      reads this, info, keyVals
    {
      keyVals.Length == Slots() && ValidWith(keyVals[..], contents)
    }

    /** Insertions are blocked only if some byte really cannot grow; erasing may leave it otherwise. */
    ghost predicate Tight()
      reads this, info
    {
      Slots() <= info.Length && (maxAllowed == 0 ==> !Roomy(CurrentShape(), Slots(), info[..]))
    }

    /** An empty table; nothing is allocated before the first insertion. */
    constructor (mix: (nat, nat) -> nat)
      ensures Valid() && contents == map[] && this.mix == mix
      ensures fresh(info) && fresh(keyVals)
    {
      this.mix := mix;
      multiplier := INITIAL_MULTIPLIER;
      keyVals := new Node<V>[1];
      info := new Byte[9](_ => 0);
      numElements := 0;
      mask := 0;
      maxAllowed := 0;
      infoInc := INITIAL_INC;
      hashShift := 0;
      contents := map[];
      slot := map[];
      new;
      HoldsEmpty(CurrentShape(), 1, info[..], keyVals[..]);
    }

    /** Home slot of a key and the info byte it would have there. */
    method KeyToIdx(key: nat) returns (idx: nat, probe: int)
      requires CurrentShape().Split()
      ensures idx == CurrentShape().Home(key) <= mask && probe == CurrentShape().Code(key, idx)
    {
      var h := mix(key, multiplier);
      probe := infoInc + h % 32 / Pow2(hashShift);
      idx := h / 32 % (mask + 1);
    }

    /** With the integer hash, different keys never have the same hash in any reachable table. */
    lemma HashesApart(a: nat, b: nat)
      requires Valid() && forall k, m :: mix(k, m) == Mixed(k, m)
      requires a < WORD && b < WORD && a != b
      ensures CurrentShape().Hash(a) != CurrentShape().Hash(b)
    {
      MixedKeepsApart(a, b, multiplier);
    }

    /** The slot of a key, or the end of the table if it is not stored. */
    method FindIdx(key: nat) returns (idx: nat)
      requires Valid()
      ensures key in contents ==> idx == slot[key] && idx < Slots() && keyVals[idx] == Node(key, contents[key])
      ensures key !in contents ==> idx == if mask == 0 then 0 else Slots()
    {
      hide Shape.Code, Shape.Home, Shape.Bits, Holds, WithBuffer, MaxAllowed, PowerOfTwo, Roomy;
      var probe;
      idx, probe := KeyToIdx(key);
      StartsAtHome(key);
      var more := true;
      while more
        invariant CurrentShape().Home(key) <= idx && probe == CurrentShape().Code(key, idx)
        invariant if more then idx < Slots() else key !in slot
        invariant key in slot ==> idx <= slot[key]
        decreases Slots() + 2 - idx, more
      {
        Probing(key, idx);
        if probe == info[idx] as int && keyVals[idx].key == key {
          return;
        }
        idx, probe := idx + 1, probe + infoInc;
        Probing(key, idx);
        if probe == info[idx] as int && keyVals[idx].key == key {
          return;
        }
        idx, probe := idx + 1, probe + infoInc;
        Probing(key, idx);
        more := probe <= info[idx] as int;
      }
      idx := if mask == 0 then 0 else Slots();
    }

    lemma StartsAtHome(key: nat)
      requires Valid()
      ensures CurrentShape().Home(key) < Slots()
      ensures key in slot ==> CurrentShape().Home(key) <= slot[key] < Slots()
      ensures key in slot ==> keyVals[slot[key]] == Node(key, contents[key])
    {
      CurrentShape().CodeRange(key, 0);
      if key in slot {
        assert Coded(CurrentShape(), info[..], keyVals[..], slot[key]);
      }
    }

    /** What comparing the probe with the byte at slot `i` tells, sentinel and padding included. */
    lemma Probing(key: nat, i: nat)
      requires Valid() && CurrentShape().Home(key) <= i < Slots() + 8
      ensures info[i] as int >= CurrentShape().Code(key, i) ==> i < Slots()
      ensures (info[i] as int == CurrentShape().Code(key, i) && i < Slots() && keyVals[i].key == key) <==>
              (key in slot && slot[key] == i)
      ensures (info[i] as int) < CurrentShape().Code(key, i) ==> (key in slot ==> slot[key] < i)
      ensures CurrentShape().Code(key, i + 1) == CurrentShape().Code(key, i) + infoInc
    {
      ghost var s, n := CurrentShape(), Slots();
      s.CodeNext(key, i);
      if info[i] as int >= s.Code(key, i) {
        ReachedIsSlot(s, n, info[..], keyVals[..], slot, key, i);
      } else {
        SmallerEndsSearch(s, n, info[..], keyVals[..], slot, key, i);
      }
      if i < n {
        FoundIsThere(s, n, info[..], keyVals[..], slot, key, i);
      }
    }

    /** The value stored under a key. */
    method Find(key: nat) returns (r: Option<V>)
      requires Valid()
      ensures r == if key in contents then Some(contents[key]) else None
    {
      hide Laid;
      var idx := FindIdx(key);
      r := if idx < Slots() && mask != 0 then Some(keyVals[idx].value) else None;
    }

    // -------------------------------------------------------------------------------------------
    // Deletion
    // -------------------------------------------------------------------------------------------

    /** Moves back the elements behind `idx` until one that is free or at its home. */
    method ShiftDown(idx: nat) returns (ghost end: nat)
      requires idx < keyVals.Length && info.Length == keyVals.Length + 8 && infoInc >= 2
      requires info[keyVals.Length] as int <= 1
      modifies info, keyVals
      ensures idx <= end < keyVals.Length
      ensures MovedDown(CurrentShape(), old(info[..]), old(keyVals[..]), idx, end, info[..], keyVals[..])
    {
      ghost var s, infoBefore, nodesBefore := CurrentShape(), info[..], keyVals[..];
      assert s.inc == infoInc;
      hide *;
      var i := idx;
      while info[i + 1] as int >= 2 * infoInc
        invariant idx <= i < keyVals.Length
        invariant forall j | idx < j <= i :: old(info[j]) as int >= 2 * infoInc
        invariant forall j {:trigger info[j]} | idx <= j < i :: info[j] as int == old(info[j + 1]) as int - infoInc
        invariant forall j {:trigger keyVals[j]} | idx <= j < i :: keyVals[j] == old(keyVals[j + 1])
        invariant forall j {:trigger info[j]} | 0 <= j < info.Length && (j < idx || j >= i) :: info[j] == old(info[j])
        invariant forall j {:trigger keyVals[j]} | 0 <= j < keyVals.Length && (j < idx || j >= i) :: keyVals[j] == old(keyVals[j])
        decreases keyVals.Length - i
      {
        info[i] := ((info[i + 1] as int - infoInc) % 256) as Byte;
        keyVals[i] := keyVals[i + 1];
        i := i + 1;
      }
      info[i] := 0;
      end := i;
      ShiftedIsMovedDown(s, infoBefore, nodesBefore, idx, end, info[..], keyVals[..]);
    }

    /** The slot of a key, found by the loop that deletion uses. */
    method Seek(key: nat) returns (found: bool, idx: nat)
      requires Valid()
      ensures found <==> key in contents
      ensures found ==> key in slot && idx == slot[key] && idx < Slots()
    {
      hide Shape.Code, Shape.Home, Shape.Bits, Holds, WithBuffer, MaxAllowed, PowerOfTwo, Roomy;
      var probe;
      idx, probe := KeyToIdx(key);
      StartsAtHome(key);
      found := false;
      var more := true;
      while more
        invariant CurrentShape().Home(key) <= idx && probe == CurrentShape().Code(key, idx)
        invariant if more then idx < Slots() else key !in slot
        invariant key in slot ==> idx <= slot[key]
        decreases Slots() + 1 - idx, more
      {
        Probing(key, idx);
        if probe == info[idx] as int && keyVals[idx].key == key {
          return true, idx;
        }
        idx, probe := idx + 1, probe + infoInc;
        Probing(key, idx);
        more := probe <= info[idx] as int;
      }
    }

    /** Removes a key if it is stored, and tells how many were removed. */
    method Erase(key: nat) returns (count: nat)
      requires Valid()
      modifies this, info, keyVals
      ensures Valid() && info == old(info) && keyVals == old(keyVals)
      ensures contents == old(contents) - {key}
      ensures count == if key in old(contents) then 1 else 0
    {
      hide Holds, WithBuffer, MaxAllowed, PowerOfTwo, Roomy;
      var found, idx := Seek(key);
      if found {
        EraseAt(key, idx);
        return 1;
      } else {
        assert contents - {key} == contents;
        return 0;
      }
    }

    method EraseAt(ghost key: nat, idx: nat)
      requires Valid() && key in slot && idx == slot[key] && idx < Slots()
      modifies this`numElements, this`slot, this`contents, info, keyVals
      ensures Valid() && contents == old(contents) - {key}
    {
      hide Holds, SlotsDown, WithBuffer, MaxAllowed, PowerOfTwo, Roomy, MovedDown;
      ghost var s, infoBefore, nodesBefore := CurrentShape(), info[..], keyVals[..];
      SentinelStops();
      ghost var end := ShiftDown(idx);
      HoldsErase(s, Slots(), infoBefore, nodesBefore, slot, contents, key, end, info[..], keyVals[..]);
      numElements := numElements - 1;
      slot := SlotsDown(slot, key, idx, end);
      contents := contents - {key};
    }

    lemma SentinelStops()
      requires Valid()
      ensures infoInc >= 2 && info[Slots()] as int <= 1
    {
    }

    // -------------------------------------------------------------------------------------------
    // Insertion
    // -------------------------------------------------------------------------------------------

    /** Moves slots `ins..start - 1` up by one, nodes first, then info bytes; a byte that cannot grow any
        further blocks insertions until the bytes have been halved. */
    method ShiftUp(start: nat, ins: nat)
      requires ins < start < keyVals.Length && info.Length == keyVals.Length + 8
      requires forall j | ins <= j < start :: info[j] as int + infoInc <= 255
      modifies this`maxAllowed, info, keyVals
      ensures forall j {:trigger info[j]} | ins < j <= start :: info[j] as int == old(info[j - 1]) as int + infoInc
      ensures forall j {:trigger keyVals[j]} | ins < j <= start :: keyVals[j] == old(keyVals[j - 1])
      ensures forall j {:trigger info[j]} | 0 <= j < info.Length && (j <= ins || j > start) :: info[j] == old(info[j])
      ensures forall j {:trigger keyVals[j]} | 0 <= j < keyVals.Length && (j <= ins || j > start) :: keyVals[j] == old(keyVals[j])
      ensures maxAllowed == 0 || (maxAllowed == old(maxAllowed) && forall j | ins < j <= start :: info[j] as int + infoInc <= 255)
      ensures maxAllowed == 0 && old(maxAllowed) != 0 ==> exists j :: ins < j <= start && info[j] as int + infoInc > 255
    {
      var idx := start;
      while idx != ins
        invariant ins <= idx <= start
        invariant forall j {:trigger keyVals[j]} | idx < j <= start :: keyVals[j] == old(keyVals[j - 1])
        invariant forall j {:trigger keyVals[j]} | 0 <= j < keyVals.Length && (j <= idx || j > start) :: keyVals[j] == old(keyVals[j])
        invariant info[..] == old(info[..]) && maxAllowed == old(maxAllowed)
        decreases idx
      {
        keyVals[idx] := keyVals[idx - 1];
        idx := idx - 1;
      }
      RaiseBytes(start, ins);
    }

    /** Moves the info bytes up, each one step larger. */
    method RaiseBytes(start: nat, ins: nat)
      requires ins < start < info.Length
      requires forall j | ins <= j < start :: info[j] as int + infoInc <= 255
      modifies this`maxAllowed, info
      ensures forall j {:trigger info[j]} | ins < j <= start :: info[j] as int == old(info[j - 1]) as int + infoInc
      ensures forall j {:trigger info[j]} | 0 <= j < info.Length && (j <= ins || j > start) :: info[j] == old(info[j])
      ensures maxAllowed == 0 || (maxAllowed == old(maxAllowed) && forall j | ins < j <= start :: info[j] as int + infoInc <= 255)
      ensures maxAllowed == 0 && old(maxAllowed) != 0 ==> exists j :: ins < j <= start && info[j] as int + infoInc > 255
    {
      var idx := start;
      ghost var full := start;
      while idx != ins
        invariant ins <= idx <= start
        invariant forall j {:trigger info[j]} | idx < j <= start :: info[j] as int == old(info[j - 1]) as int + infoInc
        invariant forall j {:trigger info[j]} | 0 <= j < info.Length && (j <= idx || j > start) :: info[j] == old(info[j])
        invariant maxAllowed == 0 || (maxAllowed == old(maxAllowed) && forall j | idx < j <= start :: info[j] as int + infoInc <= 255)
        invariant maxAllowed == 0 && old(maxAllowed) != 0 ==> idx < full <= start && info[full] as int + infoInc > 255
        decreases idx
      {
        info[idx] := ((info[idx - 1] as int + infoInc) % 256) as Byte;
        if info[idx] as int + infoInc > 0xFF {
          maxAllowed, full := 0, idx;
        }
        idx := idx - 1;
      }
    }

    /** Looks for a key among the slots with the probe's own byte, after those with a larger one; if it is
        not there, gives the slot where it would be inserted. */
    method SeekToInsert(key: nat) returns (found: bool, idx: nat, probe: int)
      requires Valid()
      ensures found <==> key in contents
      ensures found ==> key in slot && idx == slot[key] && idx < Slots()
      ensures !found ==> AtInsertion(key, idx) && probe == CurrentShape().Code(key, idx)
    {
      hide Shape.Code, Shape.Home, Shape.Bits, Holds, Laid, WithBuffer, MaxAllowed, PowerOfTwo, Roomy;
      idx, probe := KeyToIdx(key);
      StartsAtHome(key);
      Probing(key, idx);
      while probe < info[idx] as int
        invariant CurrentShape().Home(key) <= idx <= Slots() && probe == CurrentShape().Code(key, idx)
        invariant idx > CurrentShape().Home(key) ==> info[idx - 1] as int >= CurrentShape().Code(key, idx - 1)
        invariant key in slot ==> idx <= slot[key]
        decreases Slots() - idx
      {
        Probing(key, idx);
        idx, probe := idx + 1, probe + infoInc;
      }
      while probe == info[idx] as int
        invariant CurrentShape().Home(key) <= idx <= Slots() && probe == CurrentShape().Code(key, idx)
        invariant idx > CurrentShape().Home(key) ==> info[idx - 1] as int >= CurrentShape().Code(key, idx - 1)
        invariant info[idx] as int <= probe
        invariant key in slot ==> idx <= slot[key]
        decreases Slots() - idx
      {
        Probing(key, idx);
        if keyVals[idx].key == key {
          return true, idx, probe;
        }
        HoldsLaid(CurrentShape(), Slots(), info[..], keyVals[..], slot, contents);
        NextIsNoLarger(CurrentShape(), Slots(), info[..], keyVals[..], slot, key, idx);
        idx, probe := idx + 1, probe + infoInc;
      }
      Probing(key, idx);
      found := false;
    }

    /** Every slot passed shows a byte at least the probe's, this one a smaller one. */
    ghost predicate AtInsertion(key: nat, ins: nat)
      requires CurrentShape().Split() && info.Length == Slots() + 8
      reads this, info
    {
      var s := CurrentShape();
      && s.Home(key) <= ins <= Slots()
      && (ins > s.Home(key) ==> info[ins - 1] as int >= s.Code(key, ins - 1))
      && (info[ins] as int) < s.Code(key, ins)
    }

    /** The byte to be inserted fits, and there is a free slot for the shift. */
    lemma RoomToInsert(key: nat, ins: nat) returns (free: nat)
      requires Valid() && AtInsertion(key, ins)
      requires maxAllowed != 0 && numElements < MaxAllowed(mask + 1)
      ensures 0 < CurrentShape().Code(key, ins) <= 255
      ensures ins <= free < Slots() && info[free] == 0
    {
      free := FreeAhead(CurrentShape(), Slots(), info[..], keyVals[..], slot, key, ins);
    }

    /** The first free slot from the place of insertion on; it lies before the end of the table. */
    method FirstFree(key: nat, ins: nat) returns (start: nat)
      requires Valid() && AtInsertion(key, ins)
      requires maxAllowed != 0 && numElements < MaxAllowed(mask + 1)
      ensures start < Slots() && InsertionPoint(CurrentShape(), Slots(), info[..], key, ins, start)
      ensures 0 < CurrentShape().Code(key, ins) <= 255
    {
      hide Holds, WithBuffer, MaxAllowed, PowerOfTwo, Shape.Code, Shape.Home, Shape.Bits, Roomy;
      ghost var free := RoomToInsert(key, ins);
      start := ins;
      while info[start] != 0
        invariant ins <= start <= free
        invariant forall j | ins <= j < start :: info[j] != 0
        decreases free - start
      {
        start := start + 1;
      }
    }

    /** Shifts up what lies between the place of insertion and the free slot, and sets the byte. */
    method ShiftAside(ins: nat, start: nat, probe: int, ghost node: Node<V>)
      requires ins <= start < keyVals.Length && info.Length == keyVals.Length + 8
      requires maxAllowed != 0 && 0 < probe <= 255 && Roomy(CurrentShape(), keyVals.Length, info[..])
      modifies this`maxAllowed, info, keyVals
      ensures MovedUp(CurrentShape(), old(info[..]), old(keyVals[..]), ins, start, probe, node.key,
                      info[..], keyVals[..][ins := node])
      ensures maxAllowed == 0 || (maxAllowed == old(maxAllowed) && Roomy(CurrentShape(), keyVals.Length, info[..]))
      ensures maxAllowed == 0 ==> !Roomy(CurrentShape(), keyVals.Length, info[..])
    {
      hide MovedUp;
      ghost var infoBefore, nodesBefore := info[..], keyVals[..];
      if probe + infoInc > 0xFF {
        maxAllowed := 0;
      }
      ghost var full := ins;
      if start != ins {
        ShiftUp(start, ins);
        if maxAllowed == 0 && probe + infoInc <= 0xFF {
          full :| ins < full <= start && info[full] as int + infoInc > 255;
        }
      }
      info[ins] := (probe % 256) as Byte;
      assert maxAllowed == 0 ==> info[full] as int + infoInc > 255;
      ShiftedIsMoved(CurrentShape(), infoBefore, nodesBefore, ins, start, probe, node.key, info[..], keyVals[..][ins := node]);
    }

    /** Makes slot `ins` free for a key. The caller puts the node there: with it the table stores one pair more. */
    method OpenSpot(key: nat, ins: nat, probe: int, ghost value: V) returns (start: nat)
      requires Valid() && key !in contents
      requires AtInsertion(key, ins) && probe == CurrentShape().Code(key, ins)
      requires maxAllowed != 0 && numElements < MaxAllowed(mask + 1)
      modifies this`maxAllowed, this`numElements, this`slot, info, keyVals
      ensures ins <= start < Slots() == keyVals.Length && key in slot && slot[key] == ins
      ensures ValidWith(keyVals[..][ins := Node(key, value)], contents[key := value]) && Tight()
    {
      hide Holds, SlotsUp, WithBuffer, MaxAllowed, PowerOfTwo, Shape.Code, MovedUp, Roomy;
      ghost var s, infoBefore, nodesBefore := CurrentShape(), info[..], keyVals[..];
      start := FirstFree(key, ins);
      ShiftAside(ins, start, probe, Node(key, value));
      numElements := numElements + 1;
      ghost var nodes := keyVals[..][ins := Node(key, value)];
      HoldsInsert(s, Slots(), infoBefore, nodesBefore, slot, contents, key, value, ins, start, info[..], nodes);
      slot := SlotsUp(slot, ins, start)[key := ins];
    }

    // -------------------------------------------------------------------------------------------
    // Making room
    // -------------------------------------------------------------------------------------------

    /** Halves the step and all info bytes, eight bytes at a time, and restores the sentinel. */
    method TryIncreaseInfo() returns (ok: bool)
      requires Valid() && mask != 0
      modifies this`infoInc, this`hashShift, this`maxAllowed, info
      ensures Valid() && ok == (old(infoInc) > 2)
      ensures if ok then maxAllowed == MaxAllowed(mask + 1) && infoInc * 2 == old(infoInc)
              else maxAllowed == old(maxAllowed) && infoInc == old(infoInc) && info[..] == old(info[..])
    {
      hide Holds, WithBuffer, MaxAllowed, PowerOfTwo, Roomy;
      if infoInc <= 2 {
        return false;
      }
      ghost var s, before := CurrentShape(), info[..];
      EndsPadded();
      infoInc := infoInc / 2;
      hashShift := hashShift + 1;
      HalveBytes(Slots());
      maxAllowed := MaxAllowed(mask + 1);
      HoldsHalve(s, Slots(), before, keyVals[..], slot, contents, info[..]);
      return true;
    }

    method HalveBytes(n: nat)
      requires info.Length == n + 8
      modifies info
      ensures forall j {:trigger info[j]} | 0 <= j < n :: info[j] == old(info[j]) / 2
      ensures info[n] == 1
      ensures forall j | n < j < n + 8 :: old(info[j]) == 0 ==> info[j] == 0
    {
      hide *;
      var i := 0;
      while i < n
        invariant 0 <= i <= n + 7
        invariant forall j {:trigger info[j]} | 0 <= j < i :: info[j] == old(info[j]) / 2
        invariant forall j {:trigger info[j]} | i <= j < info.Length :: info[j] == old(info[j])
        decreases n + 7 - i
      {
        HalvesEachByte(info[i..i + 8]);
        var bytes := Store(ClearTops(Load(info[i..i + 8]) / 2, 8), 8);
        forall j | 0 <= j < 8 {
          info[i + j] := bytes[j];
        }
        i := i + 8;
      }
      info[n] := 1;
    }

    lemma EndsPadded()
      requires Valid()
      ensures Padded(CurrentShape(), Slots(), info[..])
    {
    }

    /** Allocates an empty table with the given number of buckets. */
    method InitData(buckets: nat)
      requires PowerOfTwo(buckets) && buckets >= 8 && multiplier % 2 == 1
      modifies this
      ensures Valid() && contents == map[]
      ensures fresh(info) && fresh(keyVals)
      ensures mask == buckets - 1 && maxAllowed == MaxAllowed(buckets) && multiplier == old(multiplier)
      ensures infoInc == 32 && hashShift == 0 && maxAllowed > 0
      ensures Tight() && Target() == Shape(mix, multiplier, buckets - 1, 32, 0)
    {
      StillPositive(buckets);
      hide WithBuffer, MaxAllowed, PowerOfTwo;
      numElements := 0;
      mask := buckets - 1;
      maxAllowed := MaxAllowed(buckets);
      keyVals := new Node<V>[WithBuffer(buckets)];
      info := FreshInfo(WithBuffer(buckets));
      infoInc := INITIAL_INC;
      hashShift := 0;
      contents := map[];
      slot := map[];
      StartsEmpty();
    }

    /** Zero bytes for `n` slots, the sentinel and the padding. */
    static method FreshInfo(n: nat) returns (bytes: array<Byte>)
      ensures fresh(bytes) && bytes.Length == n + 8
      ensures forall j | 0 <= j < n + 8 :: bytes[j] == if j == n then 1 else 0
    {
      bytes := new Byte[n + 8](_ => 0);
      bytes[n] := 1;
    }

    lemma StartsEmpty()
      requires keyVals.Length == Slots() && info.Length == Slots() + 8
      requires forall j | 0 <= j < info.Length :: info[j] == if j == Slots() then 1 else 0
      requires mask >= 7 && infoInc == INITIAL_INC && hashShift == 0 && PowerOfTwo(mask + 1) && multiplier % 2 == 1
      requires contents == map[] && slot == map[] && numElements == 0 && maxAllowed == MaxAllowed(mask + 1)
      ensures Valid()
    {
      hide WithBuffer, MaxAllowed, PowerOfTwo, Roomy, Holds;
      HoldsEmpty(CurrentShape(), Slots(), info[..], keyVals[..]);
    }

    /** Inserts a key known to be absent while rehashing; `threw` says that the bytes could not be halved
        any more, which leaves the table unusable. */
    method InsertMove(node: Node<V>) returns (threw: bool)
      requires Valid() && mask != 0 && node.key !in contents && numElements < MaxAllowed(mask + 1)
      modifies this, info, keyVals
      ensures info == old(info) && keyVals == old(keyVals)
      ensures !threw ==> Valid() && Tight() && contents == old(contents)[node.key := node.value] && Target() == old(Target())
      ensures mask == old(mask) && (!threw ==> multiplier == old(multiplier))
      ensures threw <==> old(maxAllowed) == 0 && old(infoInc) <= 2
    {
      hide Holds, WithBuffer, MaxAllowed, PowerOfTwo, Roomy, Shape.Code, Shape.Home, Shape.Bits;
      if maxAllowed == 0 {
        var ok := TryIncreaseInfo();
        if !ok {
          return true;
        }
      }
      StillPositive(mask + 1);
      var idx, probe := SeekPast(node.key);
      var start := OpenSpot(node.key, idx, probe, node.value);
      keyVals[idx] := node;
      contents := contents[node.key := node.value];
      return false;
    }

    /** The loop of `InsertMove`: passes all slots with a byte at least the probe's. */
    method SeekPast(key: nat) returns (idx: nat, probe: int)
      requires Valid()
      ensures AtInsertion(key, idx) && probe == CurrentShape().Code(key, idx)
    {
      hide Holds, WithBuffer, MaxAllowed, PowerOfTwo, Roomy, Shape.Code, Shape.Home, Shape.Bits;
      idx, probe := KeyToIdx(key);
      StartsAtHome(key);
      while probe <= info[idx] as int
        invariant CurrentShape().Home(key) <= idx <= Slots() && probe == CurrentShape().Code(key, idx)
        invariant idx > CurrentShape().Home(key) ==> info[idx - 1] as int >= CurrentShape().Code(key, idx - 1)
        decreases Slots() - idx
      {
        Probing(key, idx);
        idx, probe := idx + 1, probe + infoInc;
      }
    }

    // -------------------------------------------------------------------------------------------
    // Growing
    // -------------------------------------------------------------------------------------------

    /** The slots hold the contents, laid out properly or not: what is left when the multiplier changes. */
    ghost predicate Populated()
      reads `mask, `info, `keyVals, `numElements, `slot, `contents, info, keyVals
    {
      && keyVals.Length == Slots() && info.Length == Slots() + 8
      && Stored(Slots(), info[..], keyVals[..], slot, contents)
      && numElements == |slot| <= MaxAllowed(mask + 1)
    }

    lemma IsPopulated()
      requires Valid()
      ensures Populated()
    {
    }

    /** The multiplier stays odd, so that multiplying by it loses no information. */
    method NextHashMultiplier()
      requires Valid()
      modifies this`multiplier
      ensures Populated() && multiplier == NextMultiplier(old(multiplier)) && multiplier % 2 == 1
    {
      IsPopulated();
      StaysOdd(multiplier);
      hide *;
      multiplier := NextMultiplier(multiplier);
    }

    /** Moves all elements to a new table with the given number of buckets. It overflows exactly if the home slots
        that some of the elements have in the new table are crowded when another one follows. */
    method RehashPowerOfTwo(buckets: nat) returns (threw: bool)
      requires Populated() && multiplier % 2 == 1
      requires PowerOfTwo(buckets) && buckets >= 8 && numElements <= MaxAllowed(buckets)
      modifies this
      ensures fresh(info) && fresh(keyVals)
      ensures !threw ==> Valid() && contents == old(contents) && mask == buckets - 1 && multiplier == old(multiplier)
      ensures !threw ==> Tight() && numElements == old(numElements)
      ensures threw <==> old(Overflows(Shape(mix, multiplier, buckets - 1, 32, 0), info[..], Slots(), slot))
    {
      SmallestIsEmpty();
      hide *;
      var oldKeyVals, oldInfo := keyVals[..], info[..];
      ghost var home, all, count := slot, contents, numElements;
      InitData(buckets);
      if |oldKeyVals| > 1 {
        threw := MoveAll(oldKeyVals, oldInfo, home, all);
      } else {
        threw := false;
        OverflowsNowhere(Target(), oldInfo, |oldKeyVals|, home);
      }
      if !threw {
        CountsContents();
      }
    }

    /** The shape as far as home slots go. */
    ghost function Target(): Shape
      reads this
    {
      Shape(mix, multiplier, mask, 32, 0)
    }

    /** Inserts the elements that the old slots hold, first to last, into this empty table. */
    method MoveAll(nodes: seq<Node<V>>, bytes: seq<Byte>, ghost home: map<nat, nat>, ghost all: map<nat, V>)
      returns (threw: bool)
      requires Valid() && Tight() && mask != 0 && contents == map[]
      requires |nodes| <= |bytes| && Stored(|nodes|, bytes, nodes, home, all) && |home| <= MaxAllowed(mask + 1)
      modifies this, info, keyVals
      ensures info == old(info) && keyVals == old(keyVals) && mask == old(mask)
      ensures !threw ==> Valid() && Tight() && contents == all && multiplier == old(multiplier)
      ensures threw <==> Overflows(old(Target()), bytes, |nodes|, home)
    {
      NoneBefore(home, all);
      hide *;
      var i := 0;
      while i < |nodes|
        invariant i <= |nodes| && info == old(info) && keyVals == old(keyVals) && mask == old(mask)
        invariant Valid() && Tight() && StoredBefore(home, all, i, contents)
        invariant multiplier == old(multiplier) && Target() == old(Target())
        invariant forall j: nat | j < i && bytes[j] != 0 :: Spread(old(Target()), KeysBefore(home, j))
      {
        BeforeKeys(home, all, i, contents);
        threw := MoveSlot(nodes, bytes, home, all, i);
        if threw {
          OverflowsHere(old(Target()), bytes, |nodes|, home, i);
          return;
        }
        i := i + 1;
      }
      AllBefore(|nodes|, bytes, nodes, home, all, contents);
      OverflowsNowhere(old(Target()), bytes, |nodes|, home);
      return false;
    }

    /** Inserts the node of an old slot unless that is free. */
    method MoveSlot(nodes: seq<Node<V>>, bytes: seq<Byte>, ghost home: map<nat, nat>, ghost all: map<nat, V>, i: nat)
      returns (threw: bool)
      requires Valid() && Tight() && mask != 0 && i < |nodes|
      requires |nodes| <= |bytes| && Stored(|nodes|, bytes, nodes, home, all) && |home| <= MaxAllowed(mask + 1)
      requires StoredBefore(home, all, i, contents)
      modifies this, info, keyVals
      ensures info == old(info) && keyVals == old(keyVals) && mask == old(mask)
      ensures !threw ==> Valid() && Tight() && StoredBefore(home, all, i + 1, contents) && multiplier == old(multiplier)
      ensures !threw ==> Target() == old(Target())
      ensures threw <==> bytes[i] != 0 && !Spread(old(Target()), old(contents.Keys))
    {
      hide *;
      BeforeNext(|nodes|, bytes, nodes, home, all, i, contents);
      FullMeans();
      if bytes[i] != 0 {
        CountsContents();
        threw := InsertMove(nodes[i]);
      } else {
        threw := false;
      }
    }

    /** If insertions are blocked for a reason, then for good exactly if the home slots are crowded. */
    lemma FullMeans()
      requires Valid() && Tight()
      ensures (maxAllowed == 0 && infoInc <= 2) <==> !Spread(Target(), contents.Keys)
    {
      HoldsLaid(CurrentShape(), Slots(), info[..], keyVals[..], slot, contents);
      FullExactly(CurrentShape(), Slots(), info[..], keyVals[..], slot);
      hide Holds, MaxAllowed, WithBuffer, PowerOfTwo, Roomy, Laid;
      assert Spread(Target(), contents.Keys) == Spread(CurrentShape(), slot.Keys);
    }

    lemma SmallestIsEmpty()
      requires Populated()
      ensures Slots() == 1 ==> contents == map[] && info[0] == 0
      ensures numElements == |slot| == |contents| && keyVals.Length == Slots() <= info.Length
      ensures Stored(Slots(), info[..], keyVals[..], slot, contents)
    {
      assert |slot| == |slot.Keys| && |contents| == |contents.Keys|;
      hide Roomy;
    }

    lemma CountsContents()
      requires Valid()
      ensures numElements == |contents| <= MaxAllowed(mask + 1)
    {
      assert |slot| == |slot.Keys| && |contents| == |contents.Keys|;
    }

    /** No more insertion is allowed, and shortening the hash part of the info bytes does not help. */
    predicate MustRehash()
      reads this
    {
      mask != 0 && numElements >= maxAllowed && (infoInc <= 2 || numElements >= MaxAllowed(mask + 1))
    }

    /** The shape, as far as home slots go, that a rehash would give the table now: another multiplier if it is
        less than half full, twice the buckets otherwise. */
    ghost function NextShape(): Shape
      reads this
    {
      if numElements * 2 < MaxAllowed(mask + 1) then Shape(mix, NextMultiplier(multiplier), mask, 32, 0)
      else Shape(mix, multiplier, 2 * (mask + 1) - 1, 32, 0)
    }

    /** Some of the elements, as a rehash would move them now, are in the way of one that follows. */
    ghost predicate WouldOverflow()
      reads this, info
    {
      info.Length >= Slots() && Overflows(NextShape(), info[..], Slots(), slot)
    }

    /** Makes room for insertions: first allocation, shorter hash parts in the info bytes, rehashing with
        another multiplier, or twice the buckets. Only rehashing can overflow, and does so exactly if the new home
        slots of some elements are crowded when another one follows. If they are not crowded at all there is room. */
    method IncreaseSize() returns (threw: bool)
      requires Valid() && numElements >= maxAllowed
      modifies this, info
      ensures (info == old(info) && keyVals == old(keyVals)) || (fresh(info) && fresh(keyVals))
      ensures !threw ==> Valid() && contents == old(contents) && mask != 0
      ensures !old(MustRehash()) ==> !threw && numElements < maxAllowed
      ensures old(mask) == 0 ==> mask == 7
      ensures !old(MustRehash()) && old(mask) != 0 ==> mask == old(mask) && infoInc * 2 == old(infoInc)
      ensures !threw && old(MustRehash()) ==>
                if old(numElements) * 2 < MaxAllowed(old(mask) + 1)
                then mask == old(mask) && multiplier == NextMultiplier(old(multiplier))
                else mask + 1 == 2 * (old(mask) + 1) && multiplier == old(multiplier)
      ensures threw <==> old(MustRehash() && WouldOverflow())
      ensures old(MustRehash()) && old(Spread(NextShape(), contents.Keys)) ==> !threw && !MustRehash()
    {
      hide Holds, MaxAllowed, WithBuffer, PowerOfTwo, Roomy, Populated, Overflows, Spread;
      if mask == 0 {
        NothingYet();
        InitData(INITIAL_ELEMENTS);
        return false;
      }
      if numElements < MaxAllowed(mask + 1) {
        var ok := TryIncreaseInfo();
        if ok {
          return false;
        }
      }
      threw := Rehash();
    }

    /** The end of `IncreaseSize`: less than half full, the hash seems to work badly and gets another multiplier. */
    method Rehash() returns (threw: bool)
      requires Valid() && MustRehash()
      modifies this
      ensures fresh(info) && fresh(keyVals)
      ensures !threw ==> Valid() && contents == old(contents)
      ensures !threw ==>
                if old(numElements) * 2 < MaxAllowed(old(mask) + 1)
                then mask == old(mask) && multiplier == NextMultiplier(old(multiplier))
                else mask + 1 == 2 * (old(mask) + 1) && multiplier == old(multiplier)
      ensures threw <==> old(WouldOverflow())
      ensures old(Spread(NextShape(), contents.Keys)) ==> !threw && !MustRehash()
    {
      hide Holds, MaxAllowed, WithBuffer, PowerOfTwo, Roomy, Populated, Overflows, Spread;
      NextNeverOverflows();
      if numElements * 2 < MaxAllowed(mask + 1) {
        NextHashMultiplier();
        threw := RehashPowerOfTwo(mask + 1);
      } else {
        IsPopulated();
        TwiceAsMany();
        threw := RehashPowerOfTwo(2 * (mask + 1));
      }
      if !threw {
        RoomAfter();
      }
    }

    lemma RoomAfter()
      requires Valid() && Tight() && numElements < MaxAllowed(mask + 1)
      ensures Spread(Target(), contents.Keys) ==> !MustRehash()
    {
      FullMeans();
      hide Holds, WithBuffer, PowerOfTwo, Roomy, Spread;
    }

    lemma NextNeverOverflows()
      requires Valid()
      ensures Spread(NextShape(), contents.Keys) ==> !Overflows(NextShape(), info[..], Slots(), slot)
    {
      if Spread(NextShape(), contents.Keys) {
        SpreadNeverOverflows(NextShape(), info[..], Slots(), slot);
      }
    }

    lemma NothingYet()
      requires Valid() && mask == 0
      ensures contents == map[] && PowerOfTwo(INITIAL_ELEMENTS)
    {
      assert PowerOfTwo(1) && PowerOfTwo(2) && PowerOfTwo(4);
    }

    lemma TwiceAsMany()
      requires Valid()
      ensures PowerOfTwo(2 * (mask + 1)) && numElements <= MaxAllowed(2 * (mask + 1))
      ensures mask != 0 ==> numElements < MaxAllowed(2 * (mask + 1))
    {
      hide MaxAllowed, Holds, PowerOfTwo, WithBuffer, Roomy;
      MoreForMore(mask + 1);
      TwiceIsPower(mask + 1);
    }

    // -------------------------------------------------------------------------------------------
    // Inserting
    // -------------------------------------------------------------------------------------------

    /** Finds a key, or makes a slot free for it, growing the table up to 256 times. Growing overflows at once exactly
        if a rehash would, and fails at all only if the home slots it gives are crowded, which takes 127 keys. */
    method InsertKeyPrepareEmptySpot(key: nat, ghost value: V) returns (idx: nat, state: InsertionState, threw: bool)
      requires Valid()
      modifies this, info, keyVals
      ensures (info == old(info) && keyVals == old(keyVals)) || (fresh(info) && fresh(keyVals))
      ensures !threw ==> contents == old(contents) && (state == KeyFound <==> key in contents)
      ensures !threw && (state == KeyFound || state == OverflowError) ==> Valid()
      ensures !threw && state == KeyFound ==> key in slot && idx == slot[key] && idx < Slots()
      ensures !threw && (state == NewNode || state == OverwriteNode) ==>
                && idx < keyVals.Length == Slots() && key in slot && slot[key] == idx
                && ValidWith(keyVals[..][idx := Node(key, value)], contents[key := value])
      ensures threw || state == OverflowError ==>
                key !in old(contents) && old(MustRehash()) && !old(Spread(NextShape(), contents.Keys))
      ensures |old(contents)| < 127 ==> !threw && state != OverflowError
      ensures key !in old(contents) && old(MustRehash() && WouldOverflow()) ==> threw
    {
      hide Holds, MaxAllowed, WithBuffer, PowerOfTwo, Roomy, Spread, WouldOverflow;
      FewWillDo();
      threw := false;
      for i := 0 to 256
        invariant Valid() && contents == old(contents) && !threw
        invariant (info == old(info) && keyVals == old(keyVals)) || (fresh(info) && fresh(keyVals))
        invariant i > 0 ==> key !in contents && (old(MustRehash()) || (i == 1 && numElements < maxAllowed))
        invariant i == 0 ==> numElements == old(numElements) && maxAllowed == old(maxAllowed) && MustRehash() == old(MustRehash())
        invariant i == 0 ==> WouldOverflow() == old(WouldOverflow()) && NextShape() == old(NextShape())
        invariant i > 0 && old(MustRehash()) ==> !old(WouldOverflow())
        invariant old(MustRehash()) && old(Spread(NextShape(), contents.Keys)) ==>
                    i == 0 || (i == 1 && !MustRehash()) || (i == 2 && numElements < maxAllowed)
      {
        var found, probe;
        found, idx, probe := SeekToInsert(key);
        if found {
          return idx, KeyFound, false;
        }
        if numElements >= maxAllowed {
          threw := IncreaseSize();
          if threw {
            return 0, OverflowError, true;
          }
        } else {
          var start := OpenSpot(key, idx, probe, value);
          return idx, if start == idx then NewNode else OverwriteNode, false;
        }
      }
      return 0, OverflowError, false;
    }

    lemma FewWillDo()
      ensures |contents| < 127 ==> Spread(NextShape(), contents.Keys)
    {
      assert |contents| == |contents.Keys|;
      if |contents| < 127 {
        FewAreSpread(NextShape(), contents.Keys);
      }
    }

    /** Adds a pair unless the key is present. `threw` tells of an overflow, which only a rehash can cause, and only
        if the home slots it gives are crowded; fewer than 127 keys never are. */
    method TryEmplace(key: nat, value: V) returns (inserted: bool, threw: bool)
      requires Valid()
      modifies this, info, keyVals
      ensures !threw ==> Valid() && inserted == (key !in old(contents))
      ensures !threw ==> contents == if key in old(contents) then old(contents) else old(contents)[key := value]
      ensures threw ==> key !in old(contents) && old(MustRehash()) && !old(Spread(NextShape(), contents.Keys))
      ensures |old(contents)| < 127 ==> !threw
      ensures key !in old(contents) && old(MustRehash() && WouldOverflow()) ==> threw
    {
      hide Holds, MaxAllowed, WithBuffer, PowerOfTwo, Roomy, Spread, WouldOverflow;
      var idx, state;
      idx, state, threw := InsertKeyPrepareEmptySpot(key, value);
      if threw || state == OverflowError {
        return false, true;
      }
      if state == NewNode || state == OverwriteNode {
        keyVals[idx] := Node(key, value);
        contents := contents[key := value];
      }
      return state != KeyFound, false;
    }
  }
}
