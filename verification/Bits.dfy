/**
  Integer bit operations as the address codec uses them.

  `Shr` is the arithmetic right shift of a two's complement integer of any width, `Low` keeps the low
  bits (a mask of ones), `Shl` shifts left without dropping bits, and `Xor` is exclusive or on
  non-negative integers. Each is defined one bit at a time, so every law below is a plain induction.
 */
module Bits {

  function Shr(x: int, k: nat): int
    decreases k
  {
    if k == 0 then x else Shr(x / 2, k - 1)
  }

  function Low(x: int, k: nat): nat
    decreases k
  {
    if k == 0 then 0 else 2 * Low(x / 2, k - 1) + x % 2
  }

  function Shl(x: int, k: nat): int {
    if k == 0 then x else 2 * Shl(x, k - 1)
  }

  function Xor(a: nat, b: nat): nat
    decreases a + b
  {
    if a == 0 && b == 0 then 0 else 2 * Xor(a / 2, b / 2) + (a + b) % 2
  }

  // ---------------------------------------------------------------- shifts and masks

  lemma {:induction false} ShrNonNegative(x: nat, k: nat)
    ensures 0 <= Shr(x, k) <= x
  {
    if k > 0 { ShrNonNegative(x / 2, k - 1); }
  }

  lemma {:induction false} ShlNonNegative(x: nat, k: nat)
    ensures Shl(x, k) >= x
  {
    if k > 0 { ShlNonNegative(x, k - 1); }
  }

  /** `k` low bits and the rest make up the whole number. */
  lemma {:induction false} Decompose(x: int, k: nat)
    ensures x == Shl(Shr(x, k), k) + Low(x, k)
    decreases k
  {
    if k > 0 { Decompose(x / 2, k - 1); }
  }

  /** A shifted value with `k` fresh low bits shifts back, and its low bits are the fresh ones. */
  lemma {:induction false} Compose(h: int, l: nat, k: nat)
    requires Shr(l, k) == 0
    ensures Shr(Shl(h, k) + l, k) == h
    ensures Low(Shl(h, k) + l, k) == l
  {
    if k > 0 {
      assert (Shl(h, k) + l) / 2 == Shl(h, k - 1) + l / 2;
      Compose(h, l / 2, k - 1);
    }
  }

  lemma {:induction false} ShrAdd(x: int, j: nat, k: nat)
    ensures Shr(x, j + k) == Shr(Shr(x, j), k)
    decreases j
  {
    if j > 0 { ShrAdd(x / 2, j - 1, k); }
  }

  lemma {:induction false} ShrZero(k: nat)
    ensures Shr(0, k) == 0 && Shl(0, k) == 0
  {
    if k > 0 { ShrZero(k - 1); }
  }

  /** A value of `j` bits fits in any larger width. */
  lemma {:induction false} FitsWider(x: int, j: nat, k: nat)
    requires Shr(x, j) == 0 && j <= k
    ensures Shr(x, k) == 0
  {
    ShrAdd(x, j, k - j);
    ShrZero(k - j);
  }

  lemma {:induction false} LowFits(x: int, k: nat)
    ensures Shr(Low(x, k), k) == 0
    decreases k
  {
    if k > 0 { LowFits(x / 2, k - 1); }
  }

  lemma {:induction false} LowOfFit(x: nat, k: nat)
    requires Shr(x, k) == 0
    ensures Low(x, k) == x
  {
    if k > 0 { LowOfFit(x / 2, k - 1); }
  }

  lemma {:induction false} FitsShl(x: nat, j: nat, k: nat)
    requires Shr(x, j) == 0
    ensures Shl(x, k) >= 0 && Shr(Shl(x, k), j + k) == 0
  {
    ShlNonNegative(x, k);
    ShrZero(k);
    Compose(x, 0, k);
    ShrAdd(Shl(x, k), k, j);
  }

  lemma {:induction false} ShlFive(x: int)
    ensures Shl(x, 5) == 32 * x
  {
    assert Shl(x, 5) == 2 * Shl(x, 4) == 2 * (2 * Shl(x, 3));
    assert Shl(x, 3) == 2 * Shl(x, 2) == 2 * (2 * Shl(x, 1));
  }

  lemma {:induction false} ShlAdd(x: int, j: nat, k: nat)
    ensures Shl(x, j + k) == Shl(Shl(x, j), k)
  {
    if k > 0 { ShlAdd(x, j, k - 1); }
  }

  /** Thirty bits hold the numbers below 0x40000000. */
  lemma {:induction false} ThirtyBits(x: nat)
    ensures x < 0x40000000 ==> Shr(x, 30) == 0
  {
    ShlAdd(1, 25, 5);
    ShlAdd(1, 20, 5);
    ShlAdd(1, 15, 5);
    ShlAdd(1, 10, 5);
    ShlAdd(1, 5, 5);
    ShlFive(Shl(1, 25));
    ShlFive(Shl(1, 20));
    ShlFive(Shl(1, 15));
    ShlFive(Shl(1, 10));
    ShlFive(Shl(1, 5));
    ShlFive(1);
    if x < 0x40000000 { BelowPowerFits(x, 30); }
  }

  lemma {:induction false} BelowPowerFits(x: nat, k: nat)
    requires x < Shl(1, k)
    ensures Shr(x, k) == 0
  {
    if k > 0 { BelowPowerFits(x / 2, k - 1); }
  }

  /** Five bits hold exactly the numbers below 32. */
  lemma {:induction false} FiveBits(x: nat)
    ensures Shr(x, 5) == 0 <==> x < 32
  {
    assert Shr(x, 5) == Shr(x / 2, 4) == Shr(x / 2 / 2, 3) == Shr(x / 2 / 2 / 2, 2)
        == Shr(x / 2 / 2 / 2 / 2, 1) == x / 2 / 2 / 2 / 2 / 2;
  }

  // ---------------------------------------------------------------- exclusive or

  lemma {:induction false} XorHalf(a: nat, b: nat)
    ensures Xor(a, b) / 2 == Xor(a / 2, b / 2)
    ensures Xor(a, b) % 2 == (a + b) % 2
  {
  }

  lemma {:induction false} SameHalves(x: int, y: int)
    requires x / 2 == y / 2 && x % 2 == y % 2
    ensures x == y
  {
  }

  lemma {:induction false} XorComm(a: nat, b: nat)
    ensures Xor(a, b) == Xor(b, a)
    decreases a + b
  {
    if a != 0 || b != 0 { XorComm(a / 2, b / 2); }
  }

  lemma {:induction false} XorZero(a: nat)
    ensures Xor(a, 0) == a && Xor(0, a) == a
  {
    if a != 0 { XorZero(a / 2); }
  }

  lemma {:induction false} XorSelf(a: nat)
    ensures Xor(a, a) == 0
  {
    if a != 0 { XorSelf(a / 2); }
  }

  lemma {:induction false} XorAssoc(a: nat, b: nat, c: nat)
    ensures Xor(Xor(a, b), c) == Xor(a, Xor(b, c))
    decreases a + b + c
  {
    if a != 0 || b != 0 || c != 0 {
      XorAssoc(a / 2, b / 2, c / 2);
      XorAssocStep(a, b, c);
    }
  }

  lemma {:induction false} XorAssocStep(a: nat, b: nat, c: nat)
    requires Xor(Xor(a / 2, b / 2), c / 2) == Xor(a / 2, Xor(b / 2, c / 2))
    ensures Xor(Xor(a, b), c) == Xor(a, Xor(b, c))
  {
    var x, y := Xor(a, b), Xor(b, c);
    XorHalf(a, b);
    XorHalf(b, c);
    XorHalf(x, c);
    XorHalf(a, y);
    XorParity(a, b, c, x, y);
    SameHalves(Xor(x, c), Xor(a, y));
  }

  lemma {:induction false} XorParity(a: nat, b: nat, c: nat, x: nat, y: nat)
    requires x % 2 == (a + b) % 2 && y % 2 == (b + c) % 2
    ensures (x + c) % 2 == (a + y) % 2
  {
  }

  lemma {:induction false} XorSwap(a: nat, b: nat, c: nat, d: nat)
    ensures Xor(Xor(a, b), Xor(c, d)) == Xor(Xor(a, c), Xor(b, d))
  {
    XorAssoc(a, b, Xor(c, d));
    XorAssoc(b, c, d);
    XorComm(b, c);
    XorAssoc(c, b, d);
    XorAssoc(a, c, Xor(b, d));
  }

  lemma {:induction false} XorCancel(a: nat, b: nat)
    ensures Xor(a, Xor(a, b)) == b
    ensures Xor(Xor(b, a), a) == b
  {
    XorAssoc(a, a, b);
    XorAssoc(b, a, a);
    XorSelf(a);
    XorZero(b);
  }

  /** Exclusive or is zero exactly on equal numbers. */
  lemma {:induction false} XorEqual(a: nat, b: nat)
    ensures Xor(a, b) == 0 <==> a == b
  {
    XorCancel(a, b);
    XorZero(a);
    XorSelf(a);
  }

  lemma {:induction false} ShrXor(a: nat, b: nat, k: nat)
    ensures Shr(a, k) >= 0 && Shr(b, k) >= 0
    ensures Shr(Xor(a, b), k) == Xor(Shr(a, k), Shr(b, k))
  {
    ShrNonNegative(a, k);
    ShrNonNegative(b, k);
    if k > 0 {
      XorHalf(a, b);
      ShrXor(a / 2, b / 2, k - 1);
    }
  }

  lemma {:induction false} LowHalf(x: int, k: nat)
    requires k > 0
    ensures Low(x, k) / 2 == Low(x / 2, k - 1)
    ensures Low(x, k) % 2 == x % 2
  {
  }

  lemma {:induction false} LowOfLow(x: int, j: nat, k: nat)
    requires k <= j
    ensures Low(Low(x, j), k) == Low(x, k)
    decreases k
  {
    if k > 0 {
      LowHalf(x, j);
      LowOfLow(x / 2, j - 1, k - 1);
    }
  }

  predicate Bit(x: int, i: nat) {
    Shr(x, i) % 2 == 1
  }

  /** Bit `i` of an exclusive or is set exactly when the two bits differ. */
  lemma {:induction false} BitXor(a: nat, b: nat, i: nat)
    ensures Bit(Xor(a, b), i) == (Bit(a, i) != Bit(b, i))
  {
    ShrXor(a, b, i);
    var p, q := Shr(a, i), Shr(b, i);
    XorHalf(p, q);
    OddSum(p, q, Xor(p, q));
  }

  lemma {:induction false} OddSum(p: int, q: int, s: int)
    requires s % 2 == (p + q) % 2
    ensures (s % 2 == 1) == ((p % 2 == 1) != (q % 2 == 1))
  {
  }

  lemma {:induction false} LowXor(a: nat, b: nat, k: nat)
    ensures Low(Xor(a, b), k) == Xor(Low(a, k), Low(b, k))
  {
    if k > 0 {
      LowXor(a / 2, b / 2, k - 1);
      LowXorStep(a, b, k);
    }
  }

  lemma {:induction false} LowXorStep(a: nat, b: nat, k: nat)
    requires k > 0
    requires Low(Xor(a / 2, b / 2), k - 1) == Xor(Low(a / 2, k - 1), Low(b / 2, k - 1))
    ensures Low(Xor(a, b), k) == Xor(Low(a, k), Low(b, k))
  {
    var x, la, lb := Xor(a, b), Low(a, k), Low(b, k);
    XorHalf(a, b);
    LowHalf(x, k);
    LowHalf(a, k);
    LowHalf(b, k);
    XorHalf(la, lb);
    assert (la + lb) % 2 == (a + b) % 2 by { SumParity(a, b, la, lb); }
    SameHalves(Low(x, k), Xor(la, lb));
  }

  lemma {:induction false} SumParity(a: int, b: int, c: int, d: int)
    requires a % 2 == c % 2 && b % 2 == d % 2
    ensures (a + b) % 2 == (c + d) % 2
  {
  }

  lemma {:induction false} ShlHalf(x: int, k: nat)
    requires k > 0
    ensures Shl(x, k) / 2 == Shl(x, k - 1)
    ensures Shl(x, k) % 2 == 0
  {
  }

  lemma {:induction false} ShlXor(a: nat, b: nat, k: nat)
    ensures Shl(a, k) >= 0 && Shl(b, k) >= 0
    ensures Shl(Xor(a, b), k) == Xor(Shl(a, k), Shl(b, k))
  {
    ShlNonNegative(a, k);
    ShlNonNegative(b, k);
    if k > 0 {
      ShlNonNegative(a, k - 1);
      ShlNonNegative(b, k - 1);
      ShlXor(a, b, k - 1);
      ShlXorStep(a, b, k);
    }
  }

  lemma {:induction false} ShlXorStep(a: nat, b: nat, k: nat)
    requires k > 0
    requires Shl(a, k) >= 0 && Shl(b, k) >= 0 && Shl(a, k - 1) >= 0 && Shl(b, k - 1) >= 0
    requires Shl(Xor(a, b), k - 1) == Xor(Shl(a, k - 1), Shl(b, k - 1))
    ensures Shl(Xor(a, b), k) == Xor(Shl(a, k), Shl(b, k))
  {
    hide *;
    var p, q, r := Shl(a, k), Shl(b, k), Shl(Xor(a, b), k);
    ShlHalf(a, k);
    ShlHalf(b, k);
    ShlHalf(Xor(a, b), k);
    XorHalf(p, q);
    SumParity(p, q, 0, 0);
    SameHalves(r, Xor(p, q));
  }

  /** Fresh low bits joined by exclusive or are the same as fresh low bits added. */
  lemma {:induction false} XorIsAdd(h: nat, l: nat, k: nat)
    requires Shr(l, k) == 0
    ensures Shl(h, k) >= 0 && Xor(Shl(h, k), l) == Shl(h, k) + l
  {
    ShlNonNegative(h, k);
    if k == 0 {
      XorZero(h);
    } else {
      ShlNonNegative(h, k - 1);
      XorIsAdd(h, l / 2, k - 1);
      XorHalf(Shl(h, k), l);
      SameHalves(Xor(Shl(h, k), l), Shl(h, k) + l);
    }
  }
}
