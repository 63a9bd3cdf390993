/**
  Symbols of the field of 32 elements as five-bit vectors, with the laws of their product.

  The product is that of `Remainder` bit for bit; on bit vectors its laws can be decided directly and its values computed.
 */
module Vectors {
  import opened Bits
  import opened Bech32
  import opened Remainder

  // ---------------------------------------------------------------- symbols as bit vectors

  function Mask(v: bv5, m: bv5): nat {
    if v & m == m then 1 else 0
  }

  function Value(v: bv5): nat {
    Five(Mask(v, 16), Mask(v, 8), Mask(v, 4), Mask(v, 2), Mask(v, 1))
  }

  function Twice(a: bv5): bv5 {
    (a << 1) ^ (if a & 16 == 16 then 9 else 0)
  }

  function Gate(t: bv5, m: bv5, a: bv5): bv5 {
    if t & m == m then a else 0
  }

  function Sum(a: bv5, b: bv5): bv5 {
    a ^ b
  }

  function Sum5(a: bv5, b: bv5, c: bv5, d: bv5, e: bv5): bv5 {
    a ^ b ^ c ^ d ^ e
  }

  function Mul(t: bv5, a: bv5): bv5 {
    Gate(t, 1, a) ^ Gate(t, 2, Twice(a)) ^ Gate(t, 4, Twice(Twice(a))) ^ Gate(t, 8, Twice(Twice(Twice(a))))
      ^ Gate(t, 16, Twice(Twice(Twice(Twice(a)))))
  }

  predicate Differ(x: nat, y: nat, z: nat) {
    z == if x == y then 0 else 1
  }

  lemma {:induction false} MaskSum(u: bv5, v: bv5)
    ensures Differ(Mask(u, 16), Mask(v, 16), Mask(Sum(u, v), 16))
    ensures Differ(Mask(u, 8), Mask(v, 8), Mask(Sum(u, v), 8))
    ensures Differ(Mask(u, 4), Mask(v, 4), Mask(Sum(u, v), 4))
    ensures Differ(Mask(u, 2), Mask(v, 2), Mask(Sum(u, v), 2))
    ensures Differ(Mask(u, 1), Mask(v, 1), Mask(Sum(u, v), 1))
  {
  }

  /** One more bit on the right. */
  lemma {:induction false} XorBit(a: nat, b: nat, x: nat, y: nat, z: nat)
    requires x < 2 && y < 2 && Differ(x, y, z)
    ensures Xor(2 * a + x, 2 * b + y) == 2 * Xor(a, b) + z
  {
    hide Xor;
    XorBits(a, b, x, y);
  }

  function Five(x4: nat, x3: nat, x2: nat, x1: nat, x0: nat): nat {
    2 * (2 * (2 * (2 * x4 + x3) + x2) + x1) + x0
  }

  lemma {:induction false} XorFive(
    u4: nat, u3: nat, u2: nat, u1: nat, u0: nat, v4: nat, v3: nat, v2: nat, v1: nat, v0: nat,
    w4: nat, w3: nat, w2: nat, w1: nat, w0: nat)
    requires u4 < 2 && u3 < 2 && u2 < 2 && u1 < 2 && u0 < 2 && v4 < 2 && v3 < 2 && v2 < 2 && v1 < 2 && v0 < 2
    requires Differ(u4, v4, w4) && Differ(u3, v3, w3) && Differ(u2, v2, w2) && Differ(u1, v1, w1) && Differ(u0, v0, w0)
    ensures Xor(Five(u4, u3, u2, u1, u0), Five(v4, v3, v2, v1, v0)) == Five(w4, w3, w2, w1, w0)
  {
    hide Xor, Differ;
    XorSelf(0);
    XorBit(0, 0, u4, v4, w4);
    XorBit(u4, v4, u3, v3, w3);
    XorBit(2 * u4 + u3, 2 * v4 + v3, u2, v2, w2);
    XorBit(2 * (2 * u4 + u3) + u2, 2 * (2 * v4 + v3) + v2, u1, v1, w1);
    XorBit(2 * (2 * (2 * u4 + u3) + u2) + u1, 2 * (2 * (2 * v4 + v3) + v2) + v1, u0, v0, w0);
  }

  lemma {:induction false} ValueSum(u: bv5, v: bv5)
    ensures Value(Sum(u, v)) == Xor(Value(u), Value(v))
  {
    hide Xor, Mask, Differ, Sum, Five;
    MaskSum(u, v);
    MaskBelow(u);
    MaskBelow(v);
    var w := Sum(u, v);
    XorFive(Mask(u, 16), Mask(u, 8), Mask(u, 4), Mask(u, 2), Mask(u, 1),
            Mask(v, 16), Mask(v, 8), Mask(v, 4), Mask(v, 2), Mask(v, 1),
            Mask(w, 16), Mask(w, 8), Mask(w, 4), Mask(w, 2), Mask(w, 1));
  }

  lemma {:induction false} MaskBelow(v: bv5)
    ensures forall m :: Mask(v, m) < 2
  {
  }

  lemma {:induction false} ValueBelow(v: bv5)
    ensures Value(v) < 32
  {
    hide Mask;
    MaskBelow(v);
  }

  lemma {:induction false} FiveZero(x4: nat, x3: nat, x2: nat, x1: nat, x0: nat)
    ensures Five(x4, x3, x2, x1, x0) == 0 <==> x4 == 0 && x3 == 0 && x2 == 0 && x1 == 0 && x0 == 0
  {
  }

  lemma {:induction false} NoMask(v: bv5)
    ensures Mask(v, 16) == 0 && Mask(v, 8) == 0 && Mask(v, 4) == 0 && Mask(v, 2) == 0 && Mask(v, 1) == 0 <==> v == 0
  {
  }

  lemma {:induction false} ValueZero(v: bv5)
    ensures Value(v) == 0 <==> v == 0
  {
    hide Mask, Five;
    NoMask(v);
    FiveZero(Mask(v, 16), Mask(v, 8), Mask(v, 4), Mask(v, 2), Mask(v, 1));
  }

  function Vector(b4: bool, b3: bool, b2: bool, b1: bool, b0: bool): bv5 {
    (if b4 then 16 else 0) | (if b3 then 8 else 0) | (if b2 then 4 else 0) | (if b1 then 2 else 0) | (if b0 then 1 else 0)
  }

  lemma {:induction false} VectorMasks(b4: bool, b3: bool, b2: bool, b1: bool, b0: bool)
    ensures var v := Vector(b4, b3, b2, b1, b0);
            && (Mask(v, 16) == 1 <==> b4) && (Mask(v, 8) == 1 <==> b3) && (Mask(v, 4) == 1 <==> b2)
            && (Mask(v, 2) == 1 <==> b1) && (Mask(v, 1) == 1 <==> b0)
  {
  }

  /** Every symbol is the value of a bit vector. */
  lemma {:induction false} SymbolVector(n: nat) returns (v: bv5)
    requires n < 32
    ensures Value(v) == n
  {
    hide Mask, Vector;
    var n1 := n / 2;
    var n2 := n1 / 2;
    var n3 := n2 / 2;
    var n4 := n3 / 2;
    v := Vector(n4 == 1, n3 % 2 == 1, n2 % 2 == 1, n1 % 2 == 1, n % 2 == 1);
    VectorMasks(n4 == 1, n3 % 2 == 1, n2 % 2 == 1, n1 % 2 == 1, n % 2 == 1);
    MaskBelow(v);
  }

  lemma {:induction false} TwiceMasks(v: bv5)
    ensures Mask(Twice(v), 16) == Mask(v, 8)
    ensures Mask(Twice(v), 8) == if Mask(v, 4) == Mask(v, 16) then 0 else 1
    ensures Mask(Twice(v), 4) == Mask(v, 2)
    ensures Mask(Twice(v), 2) == Mask(v, 1)
    ensures Mask(Twice(v), 1) == Mask(v, 16)
  {
  }

  lemma {:induction false} ValueTwice(v: bv5)
    ensures Value(Twice(v)) == Double(Value(v))
  {
    hide Mask, Xor, Twice;
    TwiceMasks(v);
    MaskBelow(v);
    if Mask(v, 16) == 1 {
      Reduction(Mask(v, 8), Mask(v, 4), Mask(v, 2), Mask(v, 1));
    }
  }

  lemma {:induction false} BitsOfValue(v: bv5)
    ensures Bit(Value(v), 0) <==> v & 1 == 1
    ensures Bit(Value(v), 1) <==> v & 2 == 2
    ensures Bit(Value(v), 2) <==> v & 4 == 4
    ensures Bit(Value(v), 3) <==> v & 8 == 8
    ensures Bit(Value(v), 4) <==> v & 16 == 16
  {
    ShrSmall(Value(v));
    hide Shr;
    var x4, x3, x2, x1, x0 := Mask(v, 16), Mask(v, 8), Mask(v, 4), Mask(v, 2), Mask(v, 1);
    Halves(x4, x3, x2, x1, x0);
  }

  lemma {:induction false} Halves(x4: nat, x3: nat, x2: nat, x1: nat, x0: nat)
    requires x4 < 2 && x3 < 2 && x2 < 2 && x1 < 2 && x0 < 2
    ensures var x := 2 * (2 * (2 * (2 * x4 + x3) + x2) + x1) + x0;
            x % 2 == x0 && x / 2 % 2 == x1 && x / 4 % 2 == x2 && x / 8 % 2 == x3 && x / 16 % 2 == x4
  {
  }

  lemma {:induction false} ValueGate(t: bv5, i: nat, m: bv5, a: bv5, d: bv5)
    requires Bit(Value(t), i) <==> t & m == m
    requires Value(d) == Doubled(Value(a), i)
    ensures Value(Gate(t, m, d)) == Term(Value(t), Value(a), i)
  {
    hide Bit, Doubled, Value;
    ValueZero(0);
  }

  lemma {:induction false} DoubledValues(a: bv5)
    ensures Value(a) == Doubled(Value(a), 0)
    ensures Value(Twice(a)) == Doubled(Value(a), 1)
    ensures Value(Twice(Twice(a))) == Doubled(Value(a), 2)
    ensures Value(Twice(Twice(Twice(a)))) == Doubled(Value(a), 3)
    ensures Value(Twice(Twice(Twice(Twice(a))))) == Doubled(Value(a), 4)
  {
    hide Value, Twice, Double;
    ValueTwice(a);
    ValueTwice(Twice(a));
    ValueTwice(Twice(Twice(a)));
    ValueTwice(Twice(Twice(Twice(a))));
    var x := Value(a);
    assert Doubled(x, 1) == Double(Doubled(x, 0));
    assert Doubled(x, 2) == Double(Doubled(x, 1));
    assert Doubled(x, 3) == Double(Doubled(x, 2));
    assert Doubled(x, 4) == Double(Doubled(x, 3));
  }

  lemma {:induction false} ValueSum5(a: bv5, b: bv5, c: bv5, d: bv5, e: bv5)
    ensures Value(Sum5(a, b, c, d, e)) == Xor(Xor(Xor(Xor(Value(a), Value(b)), Value(c)), Value(d)), Value(e))
  {
    hide Value, Xor, Sum, Sum5;
    Sum5Form(a, b, c, d, e);
    ValueSum(a, b);
    ValueSum(Sum(a, b), c);
    ValueSum(Sum(Sum(a, b), c), d);
    ValueSum(Sum(Sum(Sum(a, b), c), d), e);
  }

  lemma {:induction false} Sum5Form(a: bv5, b: bv5, c: bv5, d: bv5, e: bv5)
    ensures Sum5(a, b, c, d, e) == Sum(Sum(Sum(Sum(a, b), c), d), e)
  {
  }

  /** The product of bit vectors is the product of the field. */
  lemma {:induction false} ValueMul(t: bv5, a: bv5)
    ensures Value(Mul(t, a)) == Times(Value(t), Value(a))
  {
    hide Value, Twice, Gate, Bit, Doubled, Term, Xor, Sum5, Times, Mul;
    MulForm(t, a, Twice(a), Twice(Twice(a)), Twice(Twice(Twice(a))), Twice(Twice(Twice(Twice(a)))));
    BitsOfValue(t);
    DoubledValues(a);
    ValueGate(t, 0, 1, a, a);
    ValueGate(t, 1, 2, a, Twice(a));
    ValueGate(t, 2, 4, a, Twice(Twice(a)));
    ValueGate(t, 3, 8, a, Twice(Twice(Twice(a))));
    ValueGate(t, 4, 16, a, Twice(Twice(Twice(Twice(a)))));
    ValueSum5(Gate(t, 1, a), Gate(t, 2, Twice(a)), Gate(t, 4, Twice(Twice(a))), Gate(t, 8, Twice(Twice(Twice(a)))),
              Gate(t, 16, Twice(Twice(Twice(Twice(a))))));
    Unroll(Value(t), Value(a));
  }

  lemma {:induction false} Unroll(t: nat, a: nat)
    ensures Times(t, a) == Xor(Xor(Xor(Xor(Term(t, a, 0), Term(t, a, 1)), Term(t, a, 2)), Term(t, a, 3)), Term(t, a, 4))
  {
    hide Term, Xor;
    XorZero(Term(t, a, 0));
    assert PartialTimes(t, a, 1) == Xor(PartialTimes(t, a, 0), Term(t, a, 0));
    assert PartialTimes(t, a, 2) == Xor(PartialTimes(t, a, 1), Term(t, a, 1));
    assert PartialTimes(t, a, 3) == Xor(PartialTimes(t, a, 2), Term(t, a, 2));
    assert PartialTimes(t, a, 4) == Xor(PartialTimes(t, a, 3), Term(t, a, 3));
  }

  // ---------------------------------------------------------------- laws of the product

  lemma {:induction false} MulComm(a: bv5, b: bv5)
    ensures Mul(a, b) == Mul(b, a)
  {
  }

  lemma {:induction false} MulCancel(a: bv5, b: bv5)
    requires Mul(a, b) == 0
    ensures a == 0 || b == 0
  {
  }

  lemma {:induction false} TwiceSum(a: bv5, b: bv5)
    ensures Twice(Sum(a, b)) == Sum(Twice(a), Twice(b))
  {
  }

  lemma {:induction false} GateSum(t: bv5, m: bv5, a: bv5, b: bv5)
    ensures Gate(t, m, Sum(a, b)) == Sum(Gate(t, m, a), Gate(t, m, b))
  {
  }

  lemma {:induction false} SumSwap(a: bv5, b: bv5, c: bv5, d: bv5)
    ensures Sum(Sum(a, b), Sum(c, d)) == Sum(Sum(a, c), Sum(b, d))
  {
  }

  lemma {:induction false} SumOfSums(a0: bv5, a1: bv5, a2: bv5, a3: bv5, a4: bv5, b0: bv5, b1: bv5, b2: bv5, b3: bv5, b4: bv5)
    ensures Sum5(Sum(a0, b0), Sum(a1, b1), Sum(a2, b2), Sum(a3, b3), Sum(a4, b4))
         == Sum(Sum5(a0, a1, a2, a3, a4), Sum5(b0, b1, b2, b3, b4))
  {
    hide Sum, Sum5;
    Sum5Form(Sum(a0, b0), Sum(a1, b1), Sum(a2, b2), Sum(a3, b3), Sum(a4, b4));
    Sum5Form(a0, a1, a2, a3, a4);
    Sum5Form(b0, b1, b2, b3, b4);
    SumSwap(a0, b0, a1, b1);
    SumSwap(Sum(a0, a1), Sum(b0, b1), a2, b2);
    SumSwap(Sum(Sum(a0, a1), a2), Sum(Sum(b0, b1), b2), a3, b3);
    SumSwap(Sum(Sum(Sum(a0, a1), a2), a3), Sum(Sum(Sum(b0, b1), b2), b3), a4, b4);
  }

  lemma {:induction false} MulForm(t: bv5, a: bv5, a1: bv5, a2: bv5, a3: bv5, a4: bv5)
    requires a1 == Twice(a) && a2 == Twice(a1) && a3 == Twice(a2) && a4 == Twice(a3)
    ensures Mul(t, a) == Sum5(Gate(t, 1, a), Gate(t, 2, a1), Gate(t, 4, a2), Gate(t, 8, a3), Gate(t, 16, a4))
  {
    hide Twice, Gate;
  }

  lemma {:induction false} MulSum(t: bv5, a: bv5, b: bv5)
    ensures Mul(t, Sum(a, b)) == Sum(Mul(t, a), Mul(t, b))
  {
    hide Twice, Gate, Sum, Sum5, Mul;
    var a1, b1 := Twice(a), Twice(b);
    var a2, b2 := Twice(a1), Twice(b1);
    var a3, b3 := Twice(a2), Twice(b2);
    var a4, b4 := Twice(a3), Twice(b3);
    TwiceSum(a, b);
    TwiceSum(a1, b1);
    TwiceSum(a2, b2);
    TwiceSum(a3, b3);
    GateSum(t, 1, a, b);
    GateSum(t, 2, a1, b1);
    GateSum(t, 4, a2, b2);
    GateSum(t, 8, a3, b3);
    GateSum(t, 16, a4, b4);
    MulForm(t, a, a1, a2, a3, a4);
    MulForm(t, b, b1, b2, b3, b4);
    MulForm(t, Sum(a, b), Sum(a1, b1), Sum(a2, b2), Sum(a3, b3), Sum(a4, b4));
    SumOfSums(Gate(t, 1, a), Gate(t, 2, a1), Gate(t, 4, a2), Gate(t, 8, a3), Gate(t, 16, a4),
              Gate(t, 1, b), Gate(t, 2, b1), Gate(t, 4, b2), Gate(t, 8, b3), Gate(t, 16, b4));
  }

  lemma {:induction false} MulTwice(t: bv5, a: bv5)
    ensures Mul(Twice(t), a) == Twice(Mul(t, a))
  {
  }

  lemma {:induction false} MulZero(a: bv5)
    ensures Mul(0, a) == 0 && Mul(a, 0) == 0 && Mul(a, 1) == a
  {
  }

  lemma {:induction false} MulGate(t: bv5, m: bv5, b: bv5, c: bv5)
    ensures Mul(Gate(t, m, b), c) == Gate(t, m, Mul(b, c))
  {
    hide Mul;
    MulZero(c);
  }

  lemma {:induction false} MulSumLeft(a: bv5, b: bv5, c: bv5)
    ensures Mul(Sum(a, b), c) == Sum(Mul(a, c), Mul(b, c))
  {
    hide Mul, Sum;
    MulComm(Sum(a, b), c);
    MulComm(a, c);
    MulComm(b, c);
    MulSum(c, a, b);
  }

  lemma {:induction false} MulSum5(a0: bv5, a1: bv5, a2: bv5, a3: bv5, a4: bv5, c: bv5)
    ensures Mul(Sum5(a0, a1, a2, a3, a4), c) == Sum5(Mul(a0, c), Mul(a1, c), Mul(a2, c), Mul(a3, c), Mul(a4, c))
  {
    hide Mul, Sum, Sum5;
    Sum5Form(a0, a1, a2, a3, a4);
    Sum5Form(Mul(a0, c), Mul(a1, c), Mul(a2, c), Mul(a3, c), Mul(a4, c));
    MulSumLeft(Sum(Sum(Sum(a0, a1), a2), a3), a4, c);
    MulSumLeft(Sum(Sum(a0, a1), a2), a3, c);
    MulSumLeft(Sum(a0, a1), a2, c);
    MulSumLeft(a0, a1, c);
  }

  lemma {:induction false} MulAssoc(a: bv5, b: bv5, c: bv5)
    ensures Mul(Mul(a, b), c) == Mul(a, Mul(b, c))
  {
    hide Mul, Gate, Twice, Sum5;
    var b1 := Twice(b);
    var b2 := Twice(b1);
    var b3 := Twice(b2);
    var b4 := Twice(b3);
    MulTwice(b, c);
    MulTwice(b1, c);
    MulTwice(b2, c);
    MulTwice(b3, c);
    MulForm(a, b, b1, b2, b3, b4);
    MulForm(a, Mul(b, c), Mul(b1, c), Mul(b2, c), Mul(b3, c), Mul(b4, c));
    MulSum5(Gate(a, 1, b), Gate(a, 2, b1), Gate(a, 4, b2), Gate(a, 8, b3), Gate(a, 16, b4), c);
    MulGate(a, 1, b, c);
    MulGate(a, 2, b1, c);
    MulGate(a, 4, b2, c);
    MulGate(a, 8, b3, c);
    MulGate(a, 16, b4, c);
  }

  lemma {:induction false} MulLeftComm(a: bv5, b: bv5, c: bv5)
    ensures Mul(a, Mul(b, c)) == Mul(b, Mul(a, c))
  {
    hide Mul;
    MulAssoc(a, b, c);
    MulAssoc(b, a, c);
    MulComm(a, b);
  }

  lemma {:induction false} SumZero(a: bv5, b: bv5)
    ensures Sum(a, b) == 0 <==> a == b
  {
  }

  lemma {:induction false} MulInjective(a: bv5, b: bv5, c: bv5)
    requires Mul(a, c) == Mul(b, c) && c != 0
    ensures a == b
  {
    hide Mul, Sum;
    MulSumLeft(a, b, c);
    SumZero(Mul(a, c), Mul(b, c));
    SumZero(a, b);
    MulCancel(Sum(a, b), c);
  }
}
