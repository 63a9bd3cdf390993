/**
  What the checksum register means, independently of its bit tricks.

  Symbols are elements of the field of 32 elements with a^5 = a^3 + 1, and a symbol string is a polynomial
  over that field, leading coefficient first. BIP-173 ("Checksum design") fixes the generator polynomial
  g(x) = x^6 + {29}x^5 + {22}x^4 + {20}x^3 + {21}x^2 + {29}x + {18}. The register of `Bech32` is the remainder
  modulo g of the fed string with a leading one, and a string verifies exactly when that polynomial is one
  plus a multiple of g.
 */
module Remainder {
  import opened Bits
  import opened Bech32

  // ---------------------------------------------------------------- the field

  function Double(a: nat): nat {
    if a < 16 then 2 * a else Xor(2 * a, 41)
  }

  function Doubled(a: nat, i: nat): nat {
    if i == 0 then a else Double(Doubled(a, i - 1))
  }

  function Term(t: nat, a: nat, i: nat): nat {
    if Bit(t, i) then Doubled(a, i) else 0
  }

  /** The product of `a` with the low `n` bits of `t`. */
  function PartialTimes(t: nat, a: nat, n: nat): nat {
    if n == 0 then 0 else Xor(PartialTimes(t, a, n - 1), Term(t, a, n - 1))
  }

  function Times(t: nat, a: nat): nat {
    PartialTimes(t, a, 5)
  }

  lemma {:induction false} TermLinear(t: nat, u: nat, a: nat, i: nat)
    ensures Term(Xor(t, u), a, i) == Xor(Term(t, a, i), Term(u, a, i))
  {
    hide Bit, Doubled;
    BitXor(t, u, i);
    XorSelf(Doubled(a, i));
    XorZero(Doubled(a, i));
    XorZero(0);
  }

  lemma {:induction false} PartialLinear(t: nat, u: nat, a: nat, n: nat)
    ensures PartialTimes(Xor(t, u), a, n) == Xor(PartialTimes(t, a, n), PartialTimes(u, a, n))
  {
    hide Term, Xor;
    if n == 0 {
      XorZero(0);
    } else {
      PartialLinear(t, u, a, n - 1);
      TermLinear(t, u, a, n - 1);
      XorSwap(PartialTimes(t, a, n - 1), PartialTimes(u, a, n - 1), Term(t, a, n - 1), Term(u, a, n - 1));
    }
  }

  lemma {:induction false} TimesLinear(t: nat, u: nat, a: nat)
    ensures Times(Xor(t, u), a) == Xor(Times(t, a), Times(u, a))
  {
    hide PartialTimes;
    PartialLinear(t, u, a, 5);
  }

  lemma {:induction false} PartialZero(t: nat, n: nat)
    ensures PartialTimes(t, 0, n) == 0
  {
    hide Bit;
    if n > 0 {
      PartialZero(t, n - 1);
      DoubledZero(n - 1);
      XorZero(0);
    }
  }

  lemma {:induction false} DoubledZero(i: nat)
    ensures Doubled(0, i) == 0
  {
    if i > 0 { DoubledZero(i - 1); }
  }

  lemma {:induction false} LowSnoc(x: int, n: nat)
    ensures Low(x, n + 1) == Shl(if Bit(x, n) then 1 else 0, n) + Low(x, n)
    decreases n
  {
    if n > 0 { LowSnoc(x / 2, n - 1); }
  }

  lemma {:induction false} DoubledOne(i: nat)
    requires i < 5
    ensures Doubled(1, i) == Shl(1, i) && Shl(1, i) <= 16
    ensures i < 4 ==> Shl(1, i) < 16
  {
    if i > 0 { DoubledOne(i - 1); }
  }

  lemma {:induction false} PartialOne(t: nat, n: nat)
    requires n <= 5
    ensures PartialTimes(t, 1, n) == Low(t, n)
  {
    hide Xor, Low, Bit, Doubled, Shl;
    if n == 0 {
      LowNone(t);
    } else {
      PartialOne(t, n - 1);
      DoubledOne(n - 1);
      LowSnoc(t, n - 1);
      LowFits(t, n - 1);
      ShrZero(n - 1);
      XorIsAdd(if Bit(t, n - 1) then 1 else 0, Low(t, n - 1), n - 1);
      XorComm(PartialTimes(t, 1, n - 1), Term(t, 1, n - 1));
    }
  }

  lemma {:induction false} LowNone(t: int)
    ensures Low(t, 0) == 0
  {
  }

  /** One is the unit of the product. */
  lemma {:induction false} TimesOne(t: nat)
    requires t < 32
    ensures Times(t, 1) == t
  {
    hide PartialTimes;
    PartialOne(t, 5);
    FiveBits(t);
    LowOfFit(t, 5);
  }

  lemma {:induction false} TimesZero(t: nat)
    ensures Times(t, 0) == 0 && Times(0, t) == 0
  {
    hide PartialTimes;
    PartialZero(t, 5);
    TimesLinear(0, 0, t);
    XorSelf(Times(0, t));
    XorZero(0);
  }

  // ---------------------------------------------------------------- polynomials

  /** Coefficient `j` of the generator polynomial. */
  function G(j: nat): nat {
    match j
    case 0 => 18
    case 1 => 29
    case 2 => 21
    case 3 => 20
    case 4 => 22
    case 5 => 29
    case 6 => 1
    case _ => 0
  }

  /** Coefficient `j` of the string `v` with a leading one. */
  function MessageAt(v: seq<nat>, j: nat): nat {
    if j < |v| then v[|v| - 1 - j] else if j == |v| then 1 else 0
  }

  /** Coefficient `j` of the product of `q` and g, by Horner's rule. */
  function ProductAt(q: seq<nat>, j: nat): nat
    decreases |q|
  {
    if q == [] then 0
    else Xor(if j == 0 then 0 else ProductAt(q[..|q| - 1], j - 1), Times(q[|q| - 1], G(j)))
  }

  /** Coefficient `j` of the register; six coefficients of five bits. */
  function RegisterAt(p: nat, j: nat): nat {
    if j < 6 then Low(Shr(p, 5 * j), 5) else 0
  }

  /** The symbols shifted out at the top of the register. */
  function Quotient(v: seq<nat>): (q: seq<nat>)
    ensures |q| == |v|
    decreases |v|
  {
    if v == [] then []
    else Quotient(v[..|v| - 1]) + [Top(PolymodFrom(1, v[..|v| - 1]))]
  }

  // ---------------------------------------------------------------- coefficients of the register

  lemma {:induction false} RegisterXor(a: nat, b: nat, j: nat)
    ensures RegisterAt(Xor(a, b), j) == Xor(RegisterAt(a, j), RegisterAt(b, j))
  {
    hide Shr, Low, Xor;
    if j < 6 {
      ShrXor(a, b, 5 * j);
      LowXor(Shr(a, 5 * j), Shr(b, 5 * j), 5);
    } else {
      XorZero(0);
    }
  }

  lemma {:induction false} LowShrLow(x: int, m: nat, k: nat)
    requires k + 5 <= m
    ensures Low(Shr(Low(x, m), k), 5) == Low(Shr(x, k), 5)
    decreases k
  {
    hide Low;
    if k == 0 {
      LowOfLow(x, m, 5);
    } else {
      LowHalf(x, m);
      LowShrLow(x / 2, m - 1, k - 1);
    }
  }

  lemma {:induction false} RegisterRest(chk: nat, j: nat)
    requires j < 6
    ensures RegisterAt(Rest(chk), j) == if j == 0 then 0 else RegisterAt(chk, j - 1)
  {
    hide Shr, Low, Shl;
    var l := Low(chk, 25);
    ShrZero(5);
    Compose(l, 0, 5);
    if j == 0 {
      ShrNone(Rest(chk));
    } else {
      ShrAdd(Rest(chk), 5, 5 * (j - 1));
      LowShrLow(chk, 25, 5 * (j - 1));
    }
  }

  lemma {:induction false} ShrNone(x: int)
    ensures Shr(x, 0) == x
  {
  }

  lemma {:induction false} FiveLow(p: nat)
    ensures Shr(p, 5) == p / 32 && Low(p, 5) == p % 32
  {
    assert Shr(p, 5) == Shr(p / 2, 4) == Shr(p / 2 / 2, 3) == Shr(p / 2 / 2 / 2, 2)
        == Shr(p / 2 / 2 / 2 / 2, 1) == p / 2 / 2 / 2 / 2 / 2;
    Decompose(p, 5);
    ShlFive(Shr(p, 5));
  }

  lemma {:induction false} RegisterPacked(h: nat, l: nat, j: nat)
    requires l < 32 && j < 6
    ensures RegisterAt(32 * h + l, j) == if j == 0 then l else RegisterAt(h, j - 1)
  {
    hide Shr, Low;
    var p := 32 * h + l;
    FiveLow(p);
    if j == 0 {
      ShrNone(p);
    } else {
      ShrAdd(p, 5, 5 * (j - 1));
    }
  }

  ghost predicate Holds(p: nat, a: nat, b: nat, c: nat, d: nat, e: nat, f: nat) {
    && RegisterAt(p, 0) == a && RegisterAt(p, 1) == b && RegisterAt(p, 2) == c
    && RegisterAt(p, 3) == d && RegisterAt(p, 4) == e && RegisterAt(p, 5) == f
  }

  lemma {:induction false} PackedHolds(p: nat, a: nat, b: nat, c: nat, d: nat, e: nat, f: nat)
    requires a < 32 && b < 32 && c < 32 && d < 32 && e < 32 && f < 32
    requires p == 32 * (32 * (32 * (32 * (32 * f + e) + d) + c) + b) + a
    ensures Holds(p, a, b, c, d, e, f)
  {
    hide RegisterAt;
    var p4 := 32 * f + e;
    var p3 := 32 * p4 + d;
    var p2 := 32 * p3 + c;
    var p1 := 32 * p2 + b;
    forall j: nat | j < 6 ensures RegisterAt(p, j) == if j == 0 then a else RegisterAt(p1, j - 1) { RegisterPacked(p1, a, j); }
    forall j: nat | j < 6 ensures RegisterAt(p1, j) == if j == 0 then b else RegisterAt(p2, j - 1) { RegisterPacked(p2, b, j); }
    forall j: nat | j < 6 ensures RegisterAt(p2, j) == if j == 0 then c else RegisterAt(p3, j - 1) { RegisterPacked(p3, c, j); }
    forall j: nat | j < 6 ensures RegisterAt(p3, j) == if j == 0 then d else RegisterAt(p4, j - 1) { RegisterPacked(p4, d, j); }
    forall j: nat | j < 6 ensures RegisterAt(p4, j) == if j == 0 then e else RegisterAt(f, j - 1) { RegisterPacked(f, e, j); }
    RegisterPacked(0, f, 0);
  }

  /** The constants of the code, symbol by symbol; the first packs the generator polynomial. */
  ghost predicate RowRight(i: nat)
    requires i < 5
  {
    var p := Generator(i);
    if i == 0 then Holds(p, 18, 29, 21, 20, 22, 29)
    else if i == 1 then Holds(p, 13, 19, 3, 1, 5, 19)
    else if i == 2 then Holds(p, 26, 15, 6, 2, 10, 15)
    else if i == 3 then Holds(p, 29, 30, 12, 4, 20, 30)
    else Holds(p, 19, 21, 24, 8, 1, 21)
  }

  lemma {:induction false} GeneratorRow(i: nat)
    requires i < 5
    ensures RowRight(i)
  {
    hide Holds;
    var p := Generator(i);
    if i == 0 {
      PackedHolds(p, 18, 29, 21, 20, 22, 29);
    } else if i == 1 {
      PackedHolds(p, 13, 19, 3, 1, 5, 19);
    } else if i == 2 {
      PackedHolds(p, 26, 15, 6, 2, 10, 15);
    } else if i == 3 {
      PackedHolds(p, 29, 30, 12, 4, 20, 30);
    } else {
      PackedHolds(p, 19, 21, 24, 8, 1, 21);
    }
  }

  lemma {:induction false} XorBits(a: nat, b: nat, x: nat, y: nat)
    requires x < 2 && y < 2
    ensures Xor(2 * a + x, 2 * b + y) == 2 * Xor(a, b) + if x == y then 0 else 1
  {
    hide Xor;
    XorHalf(2 * a + x, 2 * b + y);
  }

  /** Reduction by a^5 = a^3 + 1 of the double of the symbol with bits 1, x, y, z, w. */
  lemma {:induction false} Reduction(x: nat, y: nat, z: nat, w: nat)
    requires x < 2 && y < 2 && z < 2 && w < 2
    ensures Double(16 + 8 * x + 4 * y + 2 * z + w) == 16 * x + 8 * (1 - y) + 4 * z + 2 * w + 1
  {
    hide Xor;
    XorSelf(1);
    XorBits(1, 1, x, 0);
    XorBits(2 + x, 2, y, 1);
    XorBits(2 * (2 + x) + y, 5, z, 0);
    XorBits(2 * (2 * (2 + x) + y) + z, 10, w, 0);
    XorBits(2 * (2 * (2 * (2 + x) + y) + z) + w, 20, 0, 1);
  }

  lemma {:induction false} Doubles()
    ensures Double(18) == 13
    ensures Double(19) == 15
    ensures Double(20) == 1
    ensures Double(21) == 3
    ensures Double(22) == 5
    ensures Double(26) == 29
    ensures Double(29) == 19
    ensures Double(30) == 21
  {
    hide Double;
    Reduction(0, 0, 1, 0);
    Reduction(0, 0, 1, 1);
    Reduction(0, 1, 0, 0);
    Reduction(0, 1, 0, 1);
    Reduction(0, 1, 1, 0);
    Reduction(1, 0, 1, 0);
    Reduction(1, 1, 0, 1);
    Reduction(1, 1, 1, 0);
  }

  /** Each further constant is the previous one times a. */
  lemma {:induction false} NextGenerator(i: nat, j: nat)
    requires i < 4 && j < 6
    ensures RegisterAt(Generator(i + 1), j) == Double(RegisterAt(Generator(i), j))
  {
    hide RegisterAt, Xor;
    GeneratorRow(i);
    GeneratorRow(i + 1);
    Doubles();
  }

  lemma {:induction false} GeneratorDoubled(i: nat, j: nat)
    requires i < 5 && j < 6
    ensures RegisterAt(Generator(i), j) == Doubled(G(j), i)
  {
    hide RegisterAt, Generator, Double;
    if i == 0 {
      GeneratorRow(0);
    } else {
      GeneratorDoubled(i - 1, j);
      NextGenerator(i - 1, j);
    }
  }

  lemma {:induction false} RegisterTaps(b: nat, j: nat, n: nat)
    requires n <= 5 && j < 6
    ensures RegisterAt(Taps(b, n), j) == PartialTimes(b, G(j), n)
  {
    hide RegisterAt, Generator, Xor, G, Doubled, Bit;
    RegisterZero(j);
    if n > 0 {
      RegisterTaps(b, j, n - 1);
      GeneratorDoubled(n - 1, j);
      RegisterXor(Taps(b, n - 1), Tap(b, n - 1), j);
    }
  }

  lemma {:induction false} RegisterZero(j: nat)
    ensures RegisterAt(0, j) == 0
  {
    RegisterXor(0, 0, j);
    XorSelf(RegisterAt(0, j));
    XorZero(0);
  }

  /** One register step multiplies by x, adds the symbol and subtracts the multiple of g that was shifted out. */
  lemma {:induction false} FeedRemainder(chk: nat, v: nat, j: nat)
    requires v < 32 && j < 6
    ensures RegisterAt(Feed(chk, v), j)
         == Xor(if j == 0 then v else RegisterAt(chk, j - 1), Times(Top(chk), G(j)))
  {
    hide RegisterAt, Xor, G, Taps, Top, Rest, PartialTimes;
    RegisterXor(Xor(Rest(chk), v), Taps(Top(chk), 5), j);
    RegisterXor(Rest(chk), v, j);
    RegisterTaps(Top(chk), j, 5);
    RegisterRest(chk, j);
    RegisterPacked(0, v, j);
    if j == 0 {
      XorZero(v);
    } else {
      RegisterZero(j - 1);
      XorZero(RegisterAt(chk, j - 1));
    }
  }

  lemma {:induction false} TopIsRegister(chk: nat)
    requires Fits(chk)
    ensures Top(chk) == RegisterAt(chk, 5) && Top(chk) < 32
  {
    hide Shr, Low;
    ShrNonNegative(chk, 25);
    ShrAdd(chk, 25, 5);
    FiveBits(Shr(chk, 25));
    LowOfFit(Shr(chk, 25), 5);
  }

  // ---------------------------------------------------------------- division with remainder

  /** Coefficient by coefficient, `v` with a leading one is `q` times g plus `r`. */
  ghost predicate Divides(v: seq<nat>, q: seq<nat>, r: nat) {
    forall j: nat :: MessageAt(v, j) == Xor(ProductAt(q, j), RegisterAt(r, j))
  }

  lemma {:induction false} DivisionStep(v: seq<nat>, s: nat, q: seq<nat>, r: nat, j: nat)
    requires Divides(v, q, r) && Fits(r) && s < 32
    ensures MessageAt(v + [s], j) == Xor(ProductAt(q + [Top(r)], j), RegisterAt(Feed(r, s), j))
  {
    hide Xor, G, Top, RegisterAt, Feed, Times, ProductAt, Divides;
    var t := Top(r);
    var m := Times(t, G(j));
    var up := if j == 0 then 0 else ProductAt(q, j - 1);
    var low := if j == 0 then s else RegisterAt(r, j - 1);
    ProductSnoc(q, t, j);
    assert MessageAt(v + [s], j) == Xor(up, low) by {
      if j == 0 { XorZero(s); } else { DividesAt(v, q, r, j - 1); }
    }
    TopIsRegister(r);
    if j < 6 {
      FeedRemainder(r, s, j);
    } else {
      HighFeed(r, s, j);
    }
    XorComm(low, m);
    XorAssoc(up, m, Xor(m, low));
    XorCancel(m, low);
  }

  lemma {:induction false} DividesAt(v: seq<nat>, q: seq<nat>, r: nat, j: nat)
    requires Divides(v, q, r)
    ensures MessageAt(v, j) == Xor(ProductAt(q, j), RegisterAt(r, j))
  {
    hide Xor, MessageAt, ProductAt, RegisterAt;
  }

  lemma {:induction false} ProductSnoc(q: seq<nat>, t: nat, j: nat)
    ensures ProductAt(q + [t], j) == Xor(if j == 0 then 0 else ProductAt(q, j - 1), Times(t, G(j)))
  {
    hide Xor, G, Times;
    assert (q + [t])[..|q + [t]| - 1] == q;
  }

  lemma {:induction false} HighFeed(r: nat, s: nat, j: nat)
    requires j >= 6 && Fits(r)
    ensures RegisterAt(Feed(r, s), j) == Xor(RegisterAt(r, j - 1), Times(Top(r), G(j)))
  {
    hide Xor, Top, Feed, Times, Shr, Low;
    TopIsRegister(r);
    if j == 6 {
      TimesOne(Top(r));
      XorSelf(Top(r));
    } else {
      TimesZero(Top(r));
      XorZero(0);
    }
  }

  /** The register after any symbol string is the remainder of its polynomial modulo g. */
  lemma {:induction false} PolymodIsRemainder(v: seq<nat>)
    requires Symbols(v)
    ensures Divides(v, Quotient(v), PolymodFrom(1, v)) && Symbols(Quotient(v))
    decreases |v|
  {
    hide Feed, RegisterAt, Xor, Top, Fits, ProductAt;
    if v == [] {
      forall j: nat ensures MessageAt(v, j) == Xor(ProductAt([], j), RegisterAt(1, j)) {
        StartRegister(j);
      }
    } else {
      var n := |v| - 1;
      var w, s := v[..n], v[n];
      var r := PolymodFrom(1, w);
      PolymodIsRemainder(w);
      assert v == w + [s];
      ThirtyBits(1);
      SymbolsFit(w);
      StartFits();
      PolymodFits(1, w);
      TopIsRegister(r);
      forall j: nat ensures MessageAt(v, j) == Xor(ProductAt(Quotient(v), j), RegisterAt(Feed(r, s), j)) {
        DivisionStep(w, s, Quotient(w), r, j);
      }
    }
  }

  lemma {:induction false} StartFits()
    ensures Fits(1)
  {
    ThirtyBits(1);
  }

  lemma {:induction false} StartRegister(j: nat)
    ensures MessageAt([], j) == Xor(ProductAt([], j), RegisterAt(1, j))
  {
    hide Xor;
    if j < 6 { RegisterPacked(0, 1, j); }
    if 0 < j < 6 { RegisterZero(j - 1); }
    XorZero(RegisterAt(1, j));
  }

  // ---------------------------------------------------------------- uniqueness

  lemma {:induction false} ProductLinear(p: seq<nat>, q: seq<nat>, j: nat)
    requires |p| == |q|
    ensures ProductAt(XorSeq(p, q), j) == Xor(ProductAt(p, j), ProductAt(q, j))
    decreases |p|
  {
    hide Xor, G, Times;
    if p == [] {
      XorZero(0);
    } else {
      var n := |p| - 1;
      assert XorSeq(p, q)[..n] == XorSeq(p[..n], q[..n]);
      TimesLinear(p[n], q[n], G(j));
      var a := if j == 0 then 0 else ProductAt(p[..n], j - 1);
      var b := if j == 0 then 0 else ProductAt(q[..n], j - 1);
      if j > 0 { ProductLinear(p[..n], q[..n], j - 1); } else { XorZero(0); }
      XorSwap(a, b, Times(p[n], G(j)), Times(q[n], G(j)));
    }
  }

  ghost predicate LowDegree(q: seq<nat>) {
    forall j: nat :: j >= 6 ==> ProductAt(q, j) == 0
  }

  lemma {:induction false} LowDegreeAt(q: seq<nat>, j: nat)
    requires LowDegree(q) && j >= 6
    ensures ProductAt(q, j) == 0
  {
    hide ProductAt;
  }

  /** A multiple of g of degree below six is zero. */
  lemma {:induction false} SmallMultiple(q: seq<nat>, j: nat)
    requires Symbols(q) && LowDegree(q)
    ensures AllZero(q) && ProductAt(q, j) == 0
    decreases |q|
  {
    hide Xor, Times, LowDegree, ProductAt;
    if q == [] {
      EmptyProduct(j);
    } else {
      var n := |q| - 1;
      var p, t := q[..n], q[n];
      assert q == p + [t];
      LowDegreePrefix(p, t);
      SmallMultiple(p, 5);
      LowDegreeAt(q, 6);
      ProductSnoc(p, t, 6);
      XorZero(Times(t, 1));
      TimesOne(t);
      assert t == 0;
      ProductSnoc(p, t, j);
      if j > 0 { SmallMultiple(p, j - 1); }
      TimesZero(G(j));
      XorZero(0);
    }
  }

  lemma {:induction false} EmptyProduct(j: nat)
    ensures ProductAt([], j) == 0
  {
  }

  lemma {:induction false} LowDegreePrefix(p: seq<nat>, t: nat)
    requires LowDegree(p + [t])
    ensures LowDegree(p)
  {
    hide Xor, Times, ProductAt;
    forall j: nat | j >= 6 ensures ProductAt(p, j) == 0 {
      LowDegreeAt(p + [t], j + 1);
      ProductSnoc(p, t, j + 1);
      TimesZero(t);
      XorZero(ProductAt(p, j));
    }
  }

  /** Quotient and remainder are determined by the string. */
  lemma {:induction false} DivisionUnique(v: seq<nat>, p: seq<nat>, q: seq<nat>, r: nat, s: nat)
    requires Divides(v, p, r) && Divides(v, q, s)
    requires |p| == |q| && Symbols(p) && Symbols(q)
    ensures p == q && forall j: nat :: RegisterAt(r, j) == RegisterAt(s, j)
  {
    hide Xor, ProductAt, RegisterAt, LowDegree, Divides;
    var d := XorSeq(p, q);
    XorSymbols(p, q);
    forall j: nat ensures Xor(RegisterAt(r, j), RegisterAt(s, j)) == ProductAt(d, j) {
      DividesAt(v, p, r, j);
      DividesAt(v, q, s, j);
      ProductLinear(p, q, j);
      Balance(ProductAt(p, j), RegisterAt(r, j), ProductAt(q, j), RegisterAt(s, j));
    }
    DifferenceLow(d, r, s);
    SmallMultiple(d, 0);
    forall i | 0 <= i < |p| ensures p[i] == q[i] {
      assert d[i] == 0;
      XorEqual(p[i], q[i]);
    }
    forall j: nat ensures RegisterAt(r, j) == RegisterAt(s, j) {
      SmallMultiple(d, j);
      XorEqual(RegisterAt(r, j), RegisterAt(s, j));
    }
  }

  lemma {:induction false} DifferenceLow(d: seq<nat>, r: nat, s: nat)
    requires forall j: nat :: Xor(RegisterAt(r, j), RegisterAt(s, j)) == ProductAt(d, j)
    ensures LowDegree(d)
  {
    hide ProductAt, Xor;
    XorZero(0);
    forall j: nat | j >= 6 ensures ProductAt(d, j) == 0 {
      assert Xor(RegisterAt(r, j), RegisterAt(s, j)) == ProductAt(d, j);
    }
  }

  lemma {:induction false} Balance(a: nat, r: nat, b: nat, s: nat)
    requires Xor(a, r) == Xor(b, s)
    ensures Xor(r, s) == Xor(a, b)
  {
    hide Xor;
    XorSwap(a, r, b, s);
    XorSelf(Xor(a, r));
    XorEqual(Xor(a, b), Xor(r, s));
  }

  /** Equal symbols, equal 30-bit registers. */
  lemma {:induction false} SameRegister(r: nat, s: nat)
    requires Fits(r) && Fits(s)
    requires forall j: nat :: RegisterAt(r, j) == RegisterAt(s, j)
    ensures r == s
  {
    hide Xor, RegisterAt, Fits;
    var x := Xor(r, s);
    XorFits(r, s);
    forall j: nat ensures RegisterAt(x, j) == 0 {
      RegisterXor(r, s, j);
      XorSelf(RegisterAt(r, j));
    }
    NoSymbols(x);
    XorEqual(r, s);
  }

  lemma {:induction false} NoSymbols(x: nat)
    requires Fits(x) && forall j: nat :: RegisterAt(x, j) == 0
    ensures x == 0
  {
    Peel(x, 0);
    ShrNone(x);
  }

  lemma {:induction false} Peel(x: nat, j: nat)
    requires Fits(x) && j <= 6 && forall k: nat :: RegisterAt(x, k) == 0
    ensures Shr(x, 5 * j) == 0
    decreases 6 - j
  {
    hide Shr, Low;
    if j < 6 {
      Peel(x, j + 1);
      var y := Shr(x, 5 * j);
      ShrAdd(x, 5 * j, 5);
      assert RegisterAt(x, j) == 0;
      Decompose(y, 5);
      ShrZero(5);
    }
  }

  // ---------------------------------------------------------------- verification

  /** Every string over bytes, as the program's prefix is. */
  predicate ByteString(s: string) {
    forall i :: 0 <= i < |s| ==> s[i] as int < 256
  }

  lemma {:induction false} HrpSymbols(hrp: string)
    requires ByteString(hrp)
    ensures Symbols(HrpHigh(hrp)) && Symbols(HrpLow(hrp))
  {
    if hrp != "" { HrpSymbols(hrp[..|hrp| - 1]); }
  }

  /** Verification is divisibility: the expanded string with a leading one is one plus a multiple of g. */
  lemma {:induction false} VerifiesIffDivides(hrp: string, data: seq<nat>)
    requires ByteString(hrp) && Symbols(data)
    ensures Verifies(hrp, data)
       <==> exists q :: |q| == |HrpExpand(hrp) + data| && Symbols(q) && Divides(HrpExpand(hrp) + data, q, 1)
  {
    hide Divides, PolymodFrom, Quotient, HrpHigh, HrpLow, Fits;
    HrpSymbols(hrp);
    var v := HrpExpand(hrp) + data;
    PolymodIsRemainder(v);
    var r := PolymodFrom(1, v);
    if Verifies(hrp, data) {
      assert Divides(v, Quotient(v), 1);
    }
    if q :| |q| == |v| && Symbols(q) && Divides(v, q, 1) {
      DivisionUnique(v, q, Quotient(v), 1, r);
      StartFits();
      SymbolsFit(v);
      PolymodFits(1, v);
      SameRegister(r, 1);
    }
  }
}
