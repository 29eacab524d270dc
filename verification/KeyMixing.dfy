/** How a 64-bit key becomes the hash whose bits pick the home slot and the info bits. */
module KeyMixing {
  import opened InfoBytes

  const INITIAL_MULTIPLIER: nat := 0xc4ce_b9fe_1a85_ec53
  const WORD: nat := 0x1_0000_0000_0000_0000

  function Xor(a: nat, b: nat): nat {
    if a == 0 && b == 0 then 0 else (a + b) % 2 + 2 * Xor(a / 2, b / 2)
  }

  function ShiftRight(x: nat, n: nat): nat {
    if n == 0 then x else ShiftRight(x / 2, n - 1)
  }

  function XorShift(x: nat): nat {
    Xor(x, ShiftRight(x, 33))
  }

  /** Multiplication of 64-bit words. */
  function Times(x: nat, m: nat): nat {
    x * m % WORD
  }

  /** The integer hash, without the last two steps of its origin. */
  function HashInt(x: nat): nat {
    XorShift(Times(XorShift(x), 0xff51_afd7_ed55_8ccd))
  }

  /** The hash of a key under the table's multiplier. */
  function Mixed(key: nat, multiplier: nat): nat {
    XorShift(Times(HashInt(key), multiplier))
  }

  /** An even step. */
  function NextMultiplier(m: nat): nat {
    (m + 0xc4ce_b9fe_1a85_ec54) % WORD
  }

  // ---------------------------------------------------------------------------------------------
  // Shifting and xoring loses nothing
  // ---------------------------------------------------------------------------------------------

  lemma {:induction false} XorUndone(a: nat, b: nat)
    ensures Xor(Xor(a, b), b) == a
  {
    if a != 0 || b != 0 {
      hide Xor;
      XorUndone(a / 2, b / 2);
      XorStep(a, b);
      XorUnfolds(Xor(a, b), b);
      ParityUndone(a, b, Xor(a, b));
    }
  }

  lemma ParityUndone(a: nat, b: nat, x: nat)
    requires x % 2 == (a + b) % 2
    ensures (x + b) % 2 == a % 2
  {
  }

  lemma XorStep(a: nat, b: nat)
    ensures Xor(a, b) % 2 == (a + b) % 2 && Xor(a, b) / 2 == Xor(a / 2, b / 2)
  {
    hide Xor;
    XorUnfolds(a, b);
    LowBit((a + b) % 2, Xor(a / 2, b / 2), Xor(a, b));
  }

  lemma XorUnfolds(a: nat, b: nat)
    ensures Xor(a, b) == (a + b) % 2 + 2 * Xor(a / 2, b / 2)
  {
  }

  lemma LowBit(low: nat, rest: nat, x: nat)
    requires low < 2 && x == low + 2 * rest
    ensures x % 2 == low && x / 2 == rest
  {
  }

  lemma {:induction false} XorZero(a: nat)
    ensures Xor(a, 0) == a
  {
    if a != 0 {
      XorZero(a / 2);
    }
  }

  lemma {:induction false} ShiftsXor(a: nat, b: nat, n: nat)
    ensures ShiftRight(Xor(a, b), n) == Xor(ShiftRight(a, n), ShiftRight(b, n))
    decreases n
  {
    if n != 0 {
      XorStep(a, b);
      ShiftsXor(a / 2, b / 2, n - 1);
    }
  }

  lemma {:induction false} ShiftsAdd(x: nat, m: nat, n: nat)
    ensures ShiftRight(ShiftRight(x, m), n) == ShiftRight(x, m + n)
    decreases m
  {
    if m != 0 {
      ShiftsAdd(x / 2, m - 1, n);
    }
  }

  lemma {:induction false} ShiftedOut(x: nat, n: nat)
    requires x < Pow2(n)
    ensures ShiftRight(x, n) == 0
    decreases n
  {
    if n != 0 {
      ShiftedOut(x / 2, n - 1);
    }
  }

  lemma {:induction false} XorFits(a: nat, b: nat, n: nat)
    requires a < Pow2(n) && b < Pow2(n)
    ensures Xor(a, b) < Pow2(n)
    decreases n
  {
    if n != 0 {
      XorFits(a / 2, b / 2, n - 1);
    }
  }

  lemma {:induction false} ShiftIsSmaller(x: nat, n: nat)
    ensures ShiftRight(x, n) <= x
    decreases n
  {
    if n != 0 {
      ShiftIsSmaller(x / 2, n - 1);
    }
  }

  lemma {:induction false} PowersAdd(m: nat, n: nat)
    ensures Pow2(m + n) == Pow2(m) * Pow2(n)
  {
    if m != 0 {
      PowersAdd(m - 1, n);
    }
  }

  lemma WordIsPower()
    ensures Pow2(64) == WORD && WORD <= Pow2(66)
  {
    assert Pow2(2) == 4 && Pow2(4) == 16 && Pow2(8) == 256;
    hide Pow2;
    PowersAdd(8, 8);
    PowersAdd(16, 16);
    PowersAdd(32, 32);
    PowersAdd(64, 2);
  }

  /** Shifting by more than half a word and xoring undoes itself. */
  lemma XorShiftUndone(x: nat)
    requires x < WORD
    ensures XorShift(XorShift(x)) == x && XorShift(x) < WORD
  {
    hide *;
    assert XorShift(x) == Xor(x, ShiftRight(x, 33)) by { XorShiftIs(x); }
    var s := ShiftRight(x, 33);
    WordIsPower();
    ShiftIsSmaller(x, 33);
    XorFits(x, s, 64);
    ShiftsXor(x, s, 33);
    ShiftsAdd(x, 33, 33);
    ShiftedOut(x, 66);
    XorZero(s);
    XorUndone(x, s);
    XorShiftIs(XorShift(x));
  }

  lemma XorShiftIs(x: nat)
    ensures XorShift(x) == Xor(x, ShiftRight(x, 33))
  {
    hide Xor, ShiftRight;
  }

  // ---------------------------------------------------------------------------------------------
  // Multiplying by an odd number loses nothing
  // ---------------------------------------------------------------------------------------------

  lemma OddTimesOdd(d: nat, m: nat)
    requires d % 2 == 1 && m % 2 == 1
    ensures d * m % 2 == 1
  {
    var e, f := d / 2, m / 2;
    assert d * m == 2 * (2 * e * f + e + f) + 1;
  }

  /** An odd factor can be dropped when testing for a power of two. */
  lemma {:induction false} OddCancels(d: nat, m: nat, q: nat, k: nat) returns (r: nat)
    requires m % 2 == 1 && d * m == q * Pow2(k)
    ensures d == r * Pow2(k)
  {
    if k == 0 {
      r := d;
    } else {
      HalfCancels(d, m, q, Pow2(k - 1));
      r := OddCancels(d / 2, m, q, k - 1);
      assert r * (2 * Pow2(k - 1)) == 2 * (r * Pow2(k - 1));
    }
  }

  lemma HalfCancels(d: nat, m: nat, q: nat, p: nat)
    requires m % 2 == 1 && d * m == q * (2 * p)
    ensures d % 2 == 0 && d / 2 * m == q * p
  {
    Regroup(q, p);
    EvenFactor(d, m, q * p);
    Regroup(m, d / 2);
  }

  lemma Regroup(x: nat, y: nat)
    ensures x * (2 * y) == 2 * (x * y)
  {
  }

  lemma EvenFactor(d: nat, m: nat, z: nat)
    requires m % 2 == 1 && d * m == 2 * z
    ensures d % 2 == 0
  {
    if d % 2 == 1 {
      OddTimesOdd(d, m);
    }
  }

  lemma TimesTellsApart(a: nat, b: nat, m: nat)
    requires a <= b < WORD && m % 2 == 1 && Times(a, m) == Times(b, m)
    ensures a == b
  {
    var q := b * m / WORD - a * m / WORD;
    assert (b - a) * m == q * WORD;
    NotNegative(b - a, m, q, WORD);
    WordIsPower();
    hide Pow2;
    var r := OddCancels(b - a, m, q, 64);
    assert r < 1;
  }

  lemma NotNegative(d: nat, m: nat, q: int, w: nat)
    requires d * m == q * w && w > 0
    ensures q >= 0
  {
  }

  /** Different keys have different hashes, whatever odd multiplier the table uses. */
  lemma MixedKeepsApart(a: nat, b: nat, m: nat)
    requires a < WORD && b < WORD && a != b && m % 2 == 1
    ensures Mixed(a, m) != Mixed(b, m) && Mixed(a, m) < WORD
  {
    StepKeepsApart(a, b, 0xff51_afd7_ed55_8ccd);
    var a', b' := Times(XorShift(a), 0xff51_afd7_ed55_8ccd), Times(XorShift(b), 0xff51_afd7_ed55_8ccd);
    StepKeepsApart(a', b', m);
    XorShiftUndone(Times(XorShift(a'), m));
    XorShiftUndone(Times(XorShift(b'), m));
    hide XorShift, Times;
  }

  lemma StepKeepsApart(a: nat, b: nat, m: nat)
    requires a < WORD && b < WORD && a != b && m % 2 == 1
    ensures Times(XorShift(a), m) != Times(XorShift(b), m)
    ensures Times(XorShift(a), m) < WORD && Times(XorShift(b), m) < WORD
  {
    XorShiftUndone(a);
    XorShiftUndone(b);
    hide XorShift;
    if Times(XorShift(a), m) == Times(XorShift(b), m) {
      if XorShift(a) <= XorShift(b) {
        TimesTellsApart(XorShift(a), XorShift(b), m);
      } else {
        TimesTellsApart(XorShift(b), XorShift(a), m);
      }
    }
  }

  // ---------------------------------------------------------------------------------------------
  // The multiplier stays odd
  // ---------------------------------------------------------------------------------------------

  lemma StaysOdd(m: nat)
    requires m % 2 == 1
    ensures NextMultiplier(m) % 2 == 1
  {
    var sum := m + 0xc4ce_b9fe_1a85_ec54;
    assert sum == WORD * (sum / WORD) + NextMultiplier(m);
  }

  /** The multiplier after `n` changes. */
  function MultiplierAfter(n: nat): nat {
    if n == 0 then INITIAL_MULTIPLIER else NextMultiplier(MultiplierAfter(n - 1))
  }

  lemma {:induction false} AlwaysOdd(n: nat)
    ensures MultiplierAfter(n) % 2 == 1
  {
    if n != 0 {
      AlwaysOdd(n - 1);
      StaysOdd(MultiplierAfter(n - 1));
    }
  }
}
