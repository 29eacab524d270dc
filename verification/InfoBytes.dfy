/** The info byte of a slot: distance from the home slot and a few hash bits, packed into eight bits. */
module InfoBytes {
  newtype Byte = b: int | 0 <= b < 256

  const SIZE_MAX: nat := 0xFFFF_FFFF_FFFF_FFFF
  const INITIAL_ELEMENTS: nat := 8
  const INITIAL_INC: nat := 32

  /** 80 percent of the slots, computed so that the product does not overflow. */
  function MaxAllowed(elements: nat): nat {
    if elements <= SIZE_MAX / 100 then elements * 80 / 100 else elements / 100 * 80
  }

  /** The limit is 80 percent rounded down, or within 80 elements of that for very large tables, and no
      product on the way to it exceeds 64 bits. */
  lemma LoadLimit(elements: nat)
    requires elements <= SIZE_MAX
    ensures elements * 80 - 8000 < MaxAllowed(elements) * 100 <= elements * 80
    ensures elements <= SIZE_MAX / 100 ==> elements * 80 < MaxAllowed(elements) * 100 + 100
    ensures elements <= SIZE_MAX / 100 ==> elements * 80 <= SIZE_MAX
    ensures elements > SIZE_MAX / 100 ==> elements / 100 * 80 <= SIZE_MAX
  {
    assert elements == elements / 100 * 100 + elements % 100;
    assert elements * 80 == elements * 80 / 100 * 100 + elements * 80 % 100;
  }

  lemma StillPositive(elements: nat)
    requires elements >= 8
    ensures MaxAllowed(elements) > 0
  {
  }

  lemma MoreForMore(elements: nat)
    ensures MaxAllowed(elements) <= MaxAllowed(2 * elements)
    ensures elements >= 8 ==> MaxAllowed(elements) < MaxAllowed(2 * elements)
  {
  }

  /** Slots including the overflow buffer at the end. */
  function WithBuffer(elements: nat): (n: nat)
    ensures elements <= n <= elements + 255 && n <= elements + MaxAllowed(elements)
    ensures n == elements + 255 || n == elements + MaxAllowed(elements)
  {
    var allowed := MaxAllowed(elements);
    elements + if allowed < 255 then allowed else 255
  }

  function Pow2(n: nat): (p: nat)
    ensures p > 0
  {
    if n == 0 then 1 else 2 * Pow2(n - 1)
  }

  predicate PowerOfTwo(n: nat) {
    n == 1 || (n > 1 && n % 2 == 0 && PowerOfTwo(n / 2))
  }

  lemma TwiceIsPower(n: nat)
    requires PowerOfTwo(n)
    ensures PowerOfTwo(2 * n)
  {
  }

  /** What decides where a key goes: the hash with its multiplier, the index mask, and how the info byte
      is split between distance (steps of `inc`) and hash bits. */
  datatype Shape = Shape(mix: (nat, nat) -> nat, multiplier: nat, mask: nat, inc: nat, shift: nat) {
    /** Five splits are possible; halving `inc` gives up one hash bit. */
    predicate Split() {
      || (inc == 32 && shift == 0) || (inc == 16 && shift == 1) || (inc == 8 && shift == 2)
      || (inc == 4 && shift == 3) || (inc == 2 && shift == 4)
    }

    function Hash(key: nat): nat { mix(key, multiplier) }

    /** The mask is one less than a power of two, so masking is taking the remainder. */
    function Home(key: nat): nat { Hash(key) / 32 % (mask + 1) }

    function Bits(key: nat): int {
      Hash(key) % 32 / Pow2(shift)
    }

    /** The info byte `key` has, or would have, at slot `j`. */
    function Code(key: nat, j: nat): int
      requires Split()
    {
      inc * (j - Home(key) + 1) + Bits(key)
    }

    /** The hash above its five lowest bits, modulo the number of buckets, is the home slot; of those five bits as
        many as the step has room for are added to the distance in the info byte. */
    lemma CodeIs(key: nat, j: nat)
      requires Split()
      ensures Home(key) == mix(key, multiplier) / 32 % (mask + 1)
      ensures var bits := mix(key, multiplier) % 32;
              Code(key, j) - inc * (j - Home(key) + 1) ==
                if inc == 32 then bits else if inc == 16 then bits / 2 else if inc == 8 then bits / 4
                else if inc == 4 then bits / 8 else bits / 16
    {
      assert Pow2(1) == 2 && Pow2(2) == 4 && Pow2(3) == 8 && Pow2(4) == 16;
      hide Home;
    }

    lemma CodeNext(key: nat, j: nat)
      requires Split()
      ensures Code(key, j + 1) == Code(key, j) + inc
    {
    }

    lemma BitsFit(key: nat)
      requires Split()
      ensures 0 <= Bits(key) < inc
    {
      assert Pow2(1) == 2 && Pow2(2) == 4 && Pow2(3) == 8 && Pow2(4) == 16;
    }

    /** The code tells how the slot lies to the key's home. */
    lemma CodeRange(key: nat, j: nat)
      requires Split()
      ensures Home(key) <= mask
      ensures j < Home(key) ==> Code(key, j) < inc
      ensures j == Home(key) ==> inc <= Code(key, j) < 2 * inc
      ensures j > Home(key) ==> Code(key, j) >= 2 * inc
      ensures Code(key, Home(key)) == inc + Bits(key)
    {
      BitsFit(key);
      hide Bits, Home;
    }
  }

  /** One info bit fewer for the hash. */
  function Halved(s: Shape): Shape {
    s.(inc := s.inc / 2, shift := s.shift + 1)
  }

  /** Halving an info byte gives the byte the halved encoding computes from scratch. */
  lemma HalvedCode(s: Shape, key: nat, j: nat)
    requires s.Split() && s.inc > 2
    ensures Halved(s).Split() && Halved(s).Home(key) == s.Home(key)
    ensures j >= s.Home(key) ==> Halved(s).Code(key, j) == s.Code(key, j) / 2
  {
    HalvedBits(s, key);
    var steps := j - s.Home(key) + 1;
    hide Shape.Bits, Shape.Home;
    assert s.inc * steps == 2 * (Halved(s).inc * steps);
  }

  lemma HalvedBits(s: Shape, key: nat)
    requires s.Split() && s.inc > 2
    ensures Halved(s).Split() && Halved(s).Bits(key) == s.Bits(key) / 2
  {
    var h := s.Hash(key) % 32;
    assert Pow2(1) == 2 && Pow2(2) == 4 && Pow2(3) == 8 && Pow2(4) == 16;
    assert s.inc == 32 ==> h / 2 == h / 1 / 2;
    assert s.inc == 16 ==> h / 4 == h / 2 / 2;
    assert s.inc == 8 ==> h / 8 == h / 4 / 2;
    assert s.inc == 4 ==> h / 16 == h / 8 / 2;
  }

  // ---------------------------------------------------------------------------------------------
  // Halving eight bytes at a time
  // ---------------------------------------------------------------------------------------------

  /** The word that bytes in memory load as, lowest byte first. */
  function Load(b: seq<Byte>): nat {
    if b == [] then 0 else b[0] as int + 256 * Load(b[1..])
  }

  /** The lowest `n` bytes of a word. */
  function Store(word: nat, n: nat): (b: seq<Byte>)
    ensures |b| == n
  {
    if n == 0 then [] else [(word % 256) as Byte] + Store(word / 256, n - 1)
  }

  /** A word with the top bit of each of its lowest `n` bytes cleared. */
  function ClearTops(word: nat, n: nat): nat {
    if n == 0 then 0 else word % 256 % 128 + 256 * ClearTops(word / 256, n - 1)
  }

  lemma Divide(low: int, rest: int, m: int)
    requires 0 <= low < m && (m == 128 || m == 256)
    ensures (low + m * rest) / m == rest && (low + m * rest) % m == low
  {
    if m == 128 {
    } else {
    }
  }

  lemma HalfOfWord(low: nat, rest: nat)
    requires low < 256
    ensures (low + 256 * rest) / 2 % 256 % 128 == low / 2
    ensures (low + 256 * rest) / 2 / 256 == rest / 2
  {
    var half := low / 2 + 128 * (rest % 2);
    assert (low + 256 * rest) / 2 == half + 256 * (rest / 2);
    Divide(half, rest / 2, 256);
    Divide(low / 2, rest % 2, 128);
  }

  /** Shifting the whole word by one and clearing the bits that crossed into the next byte halves each byte. */
  lemma {:induction false} HalvesEachByte(b: seq<Byte>)
    ensures Store(ClearTops(Load(b) / 2, |b|), |b|) == Halves(b)
  {
    if b != [] {
      var half, rest, n := Load(b) / 2, b[1..], |b|;
      HalfOfWord(b[0] as int, Load(rest));
      StoreStep(b[0] as int / 2, ClearTops(Load(rest) / 2, n - 1), n);
      HalvesEachByte(rest);
    }
  }

  lemma StoreStep(low: nat, rest: nat, n: nat)
    requires low < 256 && n > 0
    ensures Store(low + 256 * rest, n) == [low as Byte] + Store(rest, n - 1)
  {
    Divide(low, rest, 256);
  }

  function Halves(b: seq<Byte>): (h: seq<Byte>)
    ensures |h| == |b| && forall i | 0 <= i < |b| :: h[i] == b[i] / 2
  {
    if b == [] then [] else [b[0] / 2] + Halves(b[1..])
  }
}
