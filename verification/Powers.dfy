/**
  The powers of x modulo the generator polynomial, up to the 57th, and that no two of them are proportional up to a
  constant.

  The slopes s3/s4 and s5/s4 of the coefficients tell the powers apart; `Rank` names the power with given slopes. Four
  small powers have no slopes and are told apart by hand.
 */
module Powers {
  import opened Vectors

  // ---------------------------------------------------------------- registers and powers of x

  datatype Reg = R(s5: bv5, s4: bv5, s3: bv5, s2: bv5, s1: bv5, s0: bv5)

  function At(r: Reg, j: nat): bv5 {
    match j
    case 0 => r.s0
    case 1 => r.s1
    case 2 => r.s2
    case 3 => r.s3
    case 4 => r.s4
    case 5 => r.s5
    case _ => 0
  }

  /** The product with a constant whose doubles are given. */
  function Row(t: bv5, c0: bv5, c1: bv5, c2: bv5, c3: bv5, c4: bv5): bv5 {
    Gate(t, 1, c0) ^ Gate(t, 2, c1) ^ Gate(t, 4, c2) ^ Gate(t, 8, c3) ^ Gate(t, 16, c4)
  }

  lemma {:induction false} RowIsMul(t: bv5, c0: bv5, c1: bv5, c2: bv5, c3: bv5, c4: bv5)
    requires c1 == Twice(c0) && c2 == Twice(c1) && c3 == Twice(c2) && c4 == Twice(c3)
    ensures Row(t, c0, c1, c2, c3, c4) == Mul(t, c0)
  {
    hide Gate, Twice;
  }

  lemma {:induction false} Rows(t: bv5)
    ensures Row(t, 29, 19, 15, 30, 21) == Mul(t, 29)
    ensures Row(t, 22, 5, 10, 20, 1) == Mul(t, 22)
    ensures Row(t, 20, 1, 2, 4, 8) == Mul(t, 20)
    ensures Row(t, 21, 3, 6, 12, 24) == Mul(t, 21)
    ensures Row(t, 18, 13, 26, 29, 19) == Mul(t, 18)
  {
    hide Row, Mul;
    RowIsMul(t, 29, 19, 15, 30, 21);
    RowIsMul(t, 22, 5, 10, 20, 1);
    RowIsMul(t, 20, 1, 2, 4, 8);
    RowIsMul(t, 21, 3, 6, 12, 24);
    RowIsMul(t, 18, 13, 26, 29, 19);
  }

  /** Multiplication by x modulo g. */
  function Shift(r: Reg): Reg {
    var t := r.s5;
    R(r.s4 ^ Row(t, 29, 19, 15, 30, 21), r.s3 ^ Row(t, 22, 5, 10, 20, 1), r.s2 ^ Row(t, 20, 1, 2, 4, 8),
      r.s1 ^ Row(t, 21, 3, 6, 12, 24), r.s0 ^ Row(t, 29, 19, 15, 30, 21), Row(t, 18, 13, 26, 29, 19))
  }

  lemma {:induction false} ShiftForm(r: Reg)
    ensures Shift(r) == R(Sum(r.s4, Mul(r.s5, 29)), Sum(r.s3, Mul(r.s5, 22)), Sum(r.s2, Mul(r.s5, 20)),
                          Sum(r.s1, Mul(r.s5, 21)), Sum(r.s0, Mul(r.s5, 29)), Mul(r.s5, 18))
  {
    hide Mul, Row;
    Rows(r.s5);
  }

  function Scale(e: bv5, r: Reg): Reg {
    R(Mul(e, r.s5), Mul(e, r.s4), Mul(e, r.s3), Mul(e, r.s2), Mul(e, r.s1), Mul(e, r.s0))
  }

  function Add(r: Reg, s: Reg): Reg {
    R(Sum(r.s5, s.s5), Sum(r.s4, s.s4), Sum(r.s3, s.s3), Sum(r.s2, s.s2), Sum(r.s1, s.s1), Sum(r.s0, s.s0))
  }

  function Constant(e: bv5): Reg {
    R(0, 0, 0, 0, 0, e)
  }

  /** x to the power `k`, modulo g. */
  function Pow(k: nat): Reg {
    if k == 0 then Constant(1) else Shift(Pow(k - 1))
  }

  lemma {:induction false} ScaleTerm(e: bv5, lower: bv5, top: bv5, g: bv5)
    ensures Sum(Mul(e, lower), Mul(Mul(e, top), g)) == Mul(e, Sum(lower, Mul(top, g)))
  {
    hide Mul, Sum;
    MulAssoc(e, top, g);
    MulSum(e, lower, Mul(top, g));
  }

  lemma {:induction false} ScaleShift(e: bv5, r: Reg)
    ensures Shift(Scale(e, r)) == Scale(e, Shift(r))
  {
    hide Mul, Sum, Row, Shift;
    ShiftForm(r);
    ShiftForm(Scale(e, r));
    ScaleTerm(e, r.s4, r.s5, 29);
    ScaleTerm(e, r.s3, r.s5, 22);
    ScaleTerm(e, r.s2, r.s5, 20);
    ScaleTerm(e, r.s1, r.s5, 21);
    ScaleTerm(e, r.s0, r.s5, 29);
    MulAssoc(e, r.s5, 18);
  }

  lemma {:induction false} ScaleOne(e: bv5)
    ensures Scale(e, Constant(1)) == Constant(e)
  {
    hide Mul;
    MulZero(e);
  }

  /** The slopes of a register: `s3` and `s5` as multiples of `s4`. */
  predicate HasSlopes(r: Reg, a: bv5, b: bv5) {
    r.s4 != 0 && Mul(a, r.s4) == r.s3 && Mul(b, r.s4) == r.s5
  }

  ghost predicate Sloped(k: nat) {
    exists a, b :: HasSlopes(Pow(k), a, b) && Rank(a, b) == k
  }

  lemma {:induction false} Advance(k: nat, r: Reg, r': Reg, a: bv5, b: bv5)
    requires Pow(k) == r && Shift(r) == r' && HasSlopes(r', a, b) && Rank(a, b) == k + 1
    ensures Pow(k + 1) == r' && Sloped(k + 1)
  {
    hide Shift, HasSlopes, Rank;
  }

  lemma {:induction false} ShiftSmall(r: Reg)
    requires r.s5 == 0
    ensures Shift(r) == R(r.s4, r.s3, r.s2, r.s1, r.s0, 0)
  {
  }

  lemma {:induction false} SmallPowers()
    ensures Pow(1) == R(0, 0, 0, 0, 1, 0) && Pow(2) == R(0, 0, 0, 1, 0, 0) && Pow(3) == R(0, 0, 1, 0, 0, 0)
    ensures Pow(4) == R(0, 1, 0, 0, 0, 0) && Pow(5) == R(1, 0, 0, 0, 0, 0)
    ensures Sloped(4)
  {
    hide Mul, Shift;
    ShiftSmall(R(0, 0, 0, 0, 0, 1));
    ShiftSmall(R(0, 0, 0, 0, 1, 0));
    ShiftSmall(R(0, 0, 0, 1, 0, 0));
    ShiftSmall(R(0, 0, 1, 0, 0, 0));
    ShiftSmall(R(0, 1, 0, 0, 0, 0));
    MulZero(1);
    assert Pow(0) == R(0, 0, 0, 0, 0, 1);
    assert Pow(1) == Shift(Pow(0));
    assert Pow(2) == Shift(Pow(1));
    assert Pow(3) == Shift(Pow(2));
    assert Pow(4) == Shift(Pow(3));
    assert Pow(5) == Shift(Pow(4));
    assert HasSlopes(Pow(4), 0, 0) && Rank(0, 0) == 4;
  }

  // ---------------------------------------------------------------- the first 57 powers

  /** The power whose slopes these are. */
  function Rank(a: bv5, b: bv5): nat {
    if (a == 0 && b == 0) then 4 else if (a == 8 && b == 21) then 6 else if (a == 4 && b == 4) then 7 else if (a == 16 && b == 1) then 8
    else if (a == 15 && b == 29) then 9 else if (a == 6 && b == 4) then 10 else if (a == 24 && b == 13) then 11 else if (a == 21 && b == 8) then 12
    else if (a == 0 && b == 31) then 13 else if (a == 23 && b == 19) then 14 else if (a == 3 && b == 15) then 15 else if (a == 29 && b == 31) then 16
    else if (a == 3 && b == 2) then 17 else if (a == 18 && b == 7) then 18 else if (a == 29 && b == 0) then 19 else if (a == 19 && b == 7) then 20
    else if (a == 19 && b == 0) then 21 else if (a == 26 && b == 23) then 22 else if (a == 28 && b == 30) then 23 else if (a == 31 && b == 30) then 24
    else if (a == 14 && b == 20) then 25 else if (a == 5 && b == 7) then 26 else if (a == 6 && b == 0) then 27 else if (a == 18 && b == 12) then 28
    else if (a == 31 && b == 27) then 29 else if (a == 18 && b == 6) then 30 else if (a == 21 && b == 1) then 31 else if (a == 10 && b == 19) then 32
    else if (a == 23 && b == 7) then 33 else if (a == 14 && b == 0) then 34 else if (a == 1 && b == 26) then 35 else if (a == 5 && b == 28) then 36
    else if (a == 18 && b == 31) then 37 else if (a == 29 && b == 3) then 38 else if (a == 16 && b == 27) then 39 else if (a == 16 && b == 18) then 40
    else if (a == 31 && b == 14) then 41 else if (a == 6 && b == 30) then 42 else if (a == 13 && b == 8) then 43 else if (a == 31 && b == 4) then 44
    else if (a == 26 && b == 19) then 45 else if (a == 28 && b == 9) then 46 else if (a == 6 && b == 31) then 47 else if (a == 10 && b == 5) then 48
    else if (a == 12 && b == 3) then 49 else if (a == 7 && b == 7) then 50 else if (a == 10 && b == 0) then 51 else if (a == 23 && b == 4) then 52
    else if (a == 14 && b == 3) then 53 else if (a == 20 && b == 4) then 54 else if (a == 19 && b == 15) then 55 else if (a == 31 && b == 1) then 56
    else if (a == 28 && b == 27) then 57
    else 0
  }

  lemma {:induction false} PowersFrom6()
    ensures Pow(7) == R(15, 29, 15, 26, 11, 6)
    ensures Sloped(6) && Sloped(7)
  {
    hide Pow, Sloped;
    SmallPowers();
    assert Pow(6) == R(29, 22, 20, 21, 29, 18) && Sloped(6) by { Advance(5, R(1, 0, 0, 0, 0, 0), R(29, 22, 20, 21, 29, 18), 8, 21); }
    assert Pow(7) == R(15, 29, 15, 26, 11, 6) && Sloped(7) by { Advance(6, R(29, 22, 20, 21, 29, 18), R(15, 29, 15, 26, 11, 6), 4, 4); }
  }

  lemma {:induction false} PowersFrom8()
    ensures Pow(9) == R(17, 12, 22, 26, 11, 13)
    ensures Sloped(8) && Sloped(9)
  {
    hide Pow, Sloped;
    PowersFrom6();
    assert Pow(8) == R(2, 2, 9, 23, 25, 24) && Sloped(8) by { Advance(7, R(15, 29, 15, 26, 11, 6), R(2, 2, 9, 23, 25, 24), 16, 1); }
    assert Pow(9) == R(17, 12, 22, 26, 11, 13) && Sloped(9) by { Advance(8, R(2, 2, 9, 23, 25, 24), R(17, 12, 22, 26, 11, 13), 15, 29); }
  }

  lemma {:induction false} PowersFrom10()
    ensures Pow(11) == R(14, 12, 4, 3, 14, 26)
    ensures Sloped(10) && Sloped(11)
  {
    hide Pow, Sloped;
    PowersFrom8();
    assert Pow(10) == R(4, 1, 6, 6, 5, 1) && Sloped(10) by { Advance(9, R(17, 12, 22, 26, 11, 13), R(4, 1, 6, 6, 5, 1), 6, 4); }
    assert Pow(11) == R(14, 12, 4, 3, 14, 26) && Sloped(11) by { Advance(10, R(4, 1, 6, 6, 5, 1), R(14, 12, 4, 3, 14, 26), 24, 13); }
  }

  lemma {:induction false} PowersFrom12()
    ensures Pow(13) == R(29, 31, 0, 17, 8, 10)
    ensures Sloped(12) && Sloped(13)
  {
    hide Pow, Sloped;
    PowersFrom10();
    assert Pow(12) == R(14, 31, 4, 7, 24, 10) && Sloped(12) by { Advance(11, R(14, 12, 4, 3, 14, 26), R(14, 31, 4, 7, 24, 10), 21, 8); }
    assert Pow(13) == R(29, 31, 0, 17, 8, 10) && Sloped(13) by { Advance(12, R(14, 31, 4, 7, 24, 10), R(29, 31, 0, 17, 8, 10), 0, 31); }
  }

  lemma {:induction false} PowersFrom14()
    ensures Pow(15) == R(21, 4, 12, 22, 26, 23)
    ensures Sloped(14) && Sloped(15)
  {
    hide Pow, Sloped;
    PowersFrom12();
    assert Pow(14) == R(6, 9, 11, 15, 19, 6) && Sloped(14) by { Advance(13, R(29, 31, 0, 17, 8, 10), R(6, 9, 11, 15, 19, 6), 23, 19); }
    assert Pow(15) == R(21, 4, 12, 22, 26, 23) && Sloped(15) by { Advance(14, R(6, 9, 11, 15, 19, 6), R(21, 4, 12, 22, 26, 23), 3, 15); }
  }

  lemma {:induction false} PowersFrom16()
    ensures Pow(17) == R(31, 27, 4, 6, 21, 31)
    ensures Sloped(16) && Sloped(17)
  {
    hide Pow, Sloped;
    PowersFrom14();
    assert Pow(16) == R(3, 17, 8, 17, 16, 27) && Sloped(16) by { Advance(15, R(21, 4, 12, 22, 26, 23), R(3, 17, 8, 17, 16, 27), 29, 31); }
    assert Pow(17) == R(31, 27, 4, 6, 21, 31) && Sloped(17) by { Advance(16, R(3, 17, 8, 17, 16, 27), R(31, 27, 4, 6, 21, 31), 3, 2); }
  }

  lemma {:induction false} PowersFrom18()
    ensures Pow(19) == R(0, 10, 13, 24, 3, 1)
    ensures Sloped(18) && Sloped(19)
  {
    hide Pow, Sloped;
    PowersFrom16();
    assert Pow(18) == R(17, 8, 29, 17, 21, 11) && Sloped(18) by { Advance(17, R(31, 27, 4, 6, 21, 31), R(17, 8, 29, 17, 21, 11), 18, 7); }
    assert Pow(19) == R(0, 10, 13, 24, 3, 1) && Sloped(19) by { Advance(18, R(17, 8, 29, 17, 21, 11), R(0, 10, 13, 24, 3, 1), 29, 0); }
  }

  lemma {:induction false} PowersFrom20()
    ensures Pow(21) == R(0, 9, 6, 14, 13, 16)
    ensures Sloped(20) && Sloped(21)
  {
    hide Pow, Sloped;
    PowersFrom18();
    assert Pow(20) == R(10, 13, 24, 3, 1, 0) && Sloped(20) by { Advance(19, R(0, 10, 13, 24, 3, 1), R(10, 13, 24, 3, 1, 0), 19, 7); }
    assert Pow(21) == R(0, 9, 6, 14, 13, 16) && Sloped(21) by { Advance(20, R(10, 13, 24, 3, 1, 0), R(0, 9, 6, 14, 13, 16), 19, 0); }
  }

  lemma {:induction false} PowersFrom22()
    ensures Pow(23) == R(5, 12, 29, 9, 3, 15)
    ensures Sloped(22) && Sloped(23)
  {
    hide Pow, Sloped;
    PowersFrom20();
    assert Pow(22) == R(9, 6, 14, 13, 16, 0) && Sloped(22) by { Advance(21, R(0, 9, 6, 14, 13, 16), R(9, 6, 14, 13, 16, 0), 26, 23); }
    assert Pow(23) == R(5, 12, 29, 9, 3, 15) && Sloped(23) by { Advance(22, R(9, 6, 14, 13, 16, 0), R(5, 12, 29, 9, 3, 15), 28, 30); }
  }

  lemma {:induction false} PowersFrom24()
    ensures Pow(25) == R(22, 5, 31, 12, 31, 25)
    ensures Sloped(24) && Sloped(25)
  {
    hide Pow, Sloped;
    PowersFrom22();
    assert Pow(24) == R(30, 1, 31, 16, 29, 8) && Sloped(24) by { Advance(23, R(5, 12, 29, 9, 3, 15), R(30, 1, 31, 16, 29, 8), 31, 30); }
    assert Pow(25) == R(22, 5, 31, 12, 31, 25) && Sloped(25) by { Advance(24, R(30, 1, 31, 16, 29, 8), R(22, 5, 31, 12, 31, 25), 14, 20); }
  }

  lemma {:induction false} PowersFrom26()
    ensures Pow(27) == R(0, 25, 4, 26, 21, 7)
    ensures Sloped(26) && Sloped(27)
  {
    hide Pow, Sloped;
    PowersFrom24();
    assert Pow(26) == R(12, 17, 7, 2, 16, 4) && Sloped(26) by { Advance(25, R(22, 5, 31, 12, 31, 25), R(12, 17, 7, 2, 16, 4), 5, 7); }
    assert Pow(27) == R(0, 25, 4, 26, 21, 7) && Sloped(27) by { Advance(26, R(12, 17, 7, 2, 16, 4), R(0, 25, 4, 26, 21, 7), 6, 0); }
  }

  lemma {:induction false} PowersFrom28()
    ensures Pow(29) == R(18, 25, 13, 6, 22, 28)
    ensures Sloped(28) && Sloped(29)
  {
    hide Pow, Sloped;
    PowersFrom26();
    assert Pow(28) == R(25, 4, 26, 21, 7, 0) && Sloped(28) by { Advance(27, R(0, 25, 4, 26, 21, 7), R(25, 4, 26, 21, 7, 0), 18, 12); }
    assert Pow(29) == R(18, 25, 13, 6, 22, 28) && Sloped(29) by { Advance(28, R(25, 4, 26, 21, 7, 0), R(18, 25, 13, 6, 22, 28), 31, 27); }
  }

  lemma {:induction false} PowersFrom30()
    ensures Pow(31) == R(3, 3, 22, 30, 20, 11)
    ensures Sloped(30) && Sloped(31)
  {
    hide Pow, Sloped;
    PowersFrom28();
    assert Pow(30) == R(31, 9, 15, 13, 26, 30) && Sloped(30) by { Advance(29, R(18, 25, 13, 6, 22, 28), R(31, 9, 15, 13, 26, 30), 18, 6); }
    assert Pow(31) == R(3, 3, 22, 30, 20, 11) && Sloped(31) by { Advance(30, R(31, 9, 15, 13, 26, 30), R(3, 3, 22, 30, 20, 11), 21, 1); }
  }

  lemma {:induction false} PowersFrom32()
    ensures Pow(33) == R(9, 3, 16, 26, 19, 21)
    ensures Sloped(32) && Sloped(33)
  {
    hide Pow, Sloped;
    PowersFrom30();
    assert Pow(32) == R(13, 5, 11, 2, 5, 31) && Sloped(32) by { Advance(31, R(3, 3, 22, 30, 20, 11), R(13, 5, 11, 2, 5, 31), 10, 19); }
    assert Pow(33) == R(9, 3, 16, 26, 19, 21) && Sloped(33) by { Advance(32, R(13, 5, 11, 2, 5, 31), R(9, 3, 16, 26, 19, 21), 23, 7); }
  }

  lemma {:induction false} PowersFrom34()
    ensures Pow(35) == R(18, 10, 10, 22, 15, 0)
    ensures Sloped(34) && Sloped(35)
  {
    hide Pow, Sloped;
    PowersFrom32();
    assert Pow(34) == R(0, 18, 10, 10, 22, 15) && Sloped(34) by { Advance(33, R(9, 3, 16, 26, 19, 21), R(0, 18, 10, 10, 22, 15), 14, 0); }
    assert Pow(35) == R(18, 10, 10, 22, 15, 0) && Sloped(35) by { Advance(34, R(0, 18, 10, 10, 22, 15), R(18, 10, 10, 22, 15, 0), 1, 26); }
  }

  lemma {:induction false} PowersFrom36()
    ensures Pow(37) == R(31, 1, 18, 12, 15, 7)
    ensures Sloped(36) && Sloped(37)
  {
    hide Pow, Sloped;
    PowersFrom34();
    assert Pow(36) == R(12, 14, 31, 20, 6, 30) && Sloped(36) by { Advance(35, R(18, 10, 10, 22, 15, 0), R(12, 14, 31, 20, 6, 30), 5, 28); }
    assert Pow(37) == R(31, 1, 18, 12, 15, 7) && Sloped(37) by { Advance(36, R(12, 14, 31, 20, 6, 30), R(31, 1, 18, 12, 15, 7), 18, 31); }
  }

  lemma {:induction false} PowersFrom38()
    ensures Pow(39) == R(14, 16, 26, 23, 27, 2)
    ensures Sloped(38) && Sloped(39)
  {
    hide Pow, Sloped;
    PowersFrom36();
    assert Pow(38) == R(11, 30, 23, 11, 13, 11) && Sloped(38) by { Advance(37, R(31, 1, 18, 12, 15, 7), R(11, 30, 23, 11, 13, 11), 29, 3); }
    assert Pow(39) == R(14, 16, 26, 23, 27, 2) && Sloped(39) by { Advance(38, R(11, 30, 23, 11, 13, 11), R(14, 16, 26, 23, 27, 2), 16, 27); }
  }

  lemma {:induction false} PowersFrom40()
    ensures Pow(41) == R(7, 20, 27, 27, 12, 30)
    ensures Sloped(40) && Sloped(41)
  {
    hide Pow, Sloped;
    PowersFrom38();
    assert Pow(40) == R(18, 1, 16, 18, 0, 10) && Sloped(40) by { Advance(39, R(14, 16, 26, 23, 27, 2), R(18, 1, 16, 18, 0, 10), 16, 18); }
    assert Pow(41) == R(7, 20, 27, 27, 12, 30) && Sloped(41) by { Advance(40, R(18, 1, 16, 18, 0, 10), R(7, 20, 27, 27, 12, 30), 31, 14); }
  }

  lemma {:induction false} PowersFrom42()
    ensures Pow(43) == R(5, 17, 2, 20, 2, 27)
    ensures Sloped(42) && Sloped(43)
  {
    hide Pow, Sloped;
    PowersFrom40();
    assert Pow(42) == R(21, 2, 12, 28, 31, 5) && Sloped(42) by { Advance(41, R(7, 20, 27, 27, 12, 30), R(21, 2, 12, 28, 31, 5), 6, 30); }
    assert Pow(43) == R(5, 17, 2, 20, 2, 27) && Sloped(43) by { Advance(42, R(21, 2, 12, 28, 31, 5), R(5, 17, 2, 20, 2, 27), 13, 8); }
  }

  lemma {:induction false} PowersFrom44()
    ensures Pow(45) == R(16, 17, 4, 31, 6, 31)
    ensures Sloped(44) && Sloped(45)
  {
    hide Pow, Sloped;
    PowersFrom42();
    assert Pow(44) == R(3, 30, 2, 17, 9, 8) && Sloped(44) by { Advance(43, R(5, 17, 2, 20, 2, 27), R(3, 30, 2, 17, 9, 8), 31, 4); }
    assert Pow(45) == R(16, 17, 4, 31, 6, 31) && Sloped(45) by { Advance(44, R(3, 30, 2, 17, 9, 8), R(16, 17, 4, 31, 6, 31), 26, 19); }
  }

  lemma {:induction false} PowersFrom46()
    ensures Pow(47) == R(10, 29, 28, 12, 28, 26)
    ensures Sloped(46) && Sloped(47)
  {
    hide Pow, Sloped;
    PowersFrom44();
    assert Pow(46) == R(4, 5, 23, 30, 10, 19) && Sloped(46) by { Advance(45, R(16, 17, 4, 31, 6, 31), R(4, 5, 23, 30, 10, 19), 28, 9); }
    assert Pow(47) == R(10, 29, 28, 12, 28, 26) && Sloped(47) by { Advance(46, R(4, 5, 23, 30, 10, 19), R(10, 29, 28, 12, 28, 26), 6, 31); }
  }

  lemma {:induction false} PowersFrom48()
    ensures Pow(49) == R(24, 8, 27, 15, 5, 19)
    ensures Sloped(48) && Sloped(49)
  {
    hide Pow, Sloped;
    PowersFrom46();
    assert Pow(48) == R(16, 13, 9, 19, 23, 16) && Sloped(48) by { Advance(47, R(10, 29, 28, 12, 28, 26), R(16, 13, 9, 19, 23, 16), 10, 5); }
    assert Pow(49) == R(24, 8, 27, 15, 5, 19) && Sloped(49) by { Advance(48, R(16, 13, 9, 19, 23, 16), R(24, 8, 27, 15, 5, 19), 12, 3); }
  }

  lemma {:induction false} PowersFrom50()
    ensures Pow(51) == R(0, 16, 4, 14, 0, 31)
    ensures Sloped(50) && Sloped(51)
  {
    hide Pow, Sloped;
    PowersFrom48();
    assert Pow(50) == R(3, 14, 3, 17, 24, 14) && Sloped(50) by { Advance(49, R(24, 8, 27, 15, 5, 19), R(3, 14, 3, 17, 24, 14), 7, 7); }
    assert Pow(51) == R(0, 16, 4, 14, 0, 31) && Sloped(51) by { Advance(50, R(3, 14, 3, 17, 24, 14), R(0, 16, 4, 14, 0, 31), 10, 0); }
  }

  lemma {:induction false} PowersFrom52()
    ensures Pow(53) == R(17, 15, 8, 7, 21, 19)
    ensures Sloped(52) && Sloped(53)
  {
    hide Pow, Sloped;
    PowersFrom50();
    assert Pow(52) == R(16, 4, 14, 0, 31, 0) && Sloped(52) by { Advance(51, R(0, 16, 4, 14, 0, 31), R(16, 4, 14, 0, 31, 0), 23, 4); }
    assert Pow(53) == R(17, 15, 8, 7, 21, 19) && Sloped(53) by { Advance(52, R(16, 4, 14, 0, 31, 0), R(17, 15, 8, 7, 21, 19), 14, 3); }
  }

  lemma {:induction false} PowersFrom54()
    ensures Pow(55) == R(30, 2, 15, 11, 0, 5)
    ensures Sloped(54) && Sloped(55)
  {
    hide Pow, Sloped;
    PowersFrom52();
    assert Pow(54) == R(7, 31, 27, 24, 27, 1) && Sloped(54) by { Advance(53, R(17, 15, 8, 7, 21, 19), R(7, 31, 27, 24, 27, 1), 20, 4); }
    assert Pow(55) == R(30, 2, 15, 11, 0, 5) && Sloped(55) by { Advance(54, R(7, 31, 27, 24, 27, 1), R(30, 2, 15, 11, 0, 5), 19, 15); }
  }

  lemma {:induction false} PowersFrom56()
    ensures Pow(57) == R(18, 25, 15, 25, 30, 27)
    ensures Sloped(56) && Sloped(57)
  {
    hide Pow, Sloped;
    PowersFrom54();
    assert Pow(56) == R(21, 21, 4, 17, 18, 25) && Sloped(56) by { Advance(55, R(30, 2, 15, 11, 0, 5), R(21, 21, 4, 17, 18, 25), 31, 1); }
    assert Pow(57) == R(18, 25, 15, 25, 30, 27) && Sloped(57) by { Advance(56, R(21, 21, 4, 17, 18, 25), R(18, 25, 15, 25, 30, 27), 28, 27); }
  }

  /** Every power from 6 to 57 has slopes of its own. */
  lemma {:induction false} PowersSloped(k: nat)
    requires 6 <= k <= 57
    ensures Sloped(k)
  {
    hide Sloped, Shift, Pow;
    SmallPowers();
    PowersFrom6();
    PowersFrom8();
    PowersFrom10();
    PowersFrom12();
    PowersFrom14();
    PowersFrom16();
    PowersFrom18();
    PowersFrom20();
    PowersFrom22();
    PowersFrom24();
    PowersFrom26();
    PowersFrom28();
    PowersFrom30();
    PowersFrom32();
    PowersFrom34();
    PowersFrom36();
    PowersFrom38();
    PowersFrom40();
    PowersFrom42();
    PowersFrom44();
    PowersFrom46();
    PowersFrom48();
    PowersFrom50();
    PowersFrom52();
    PowersFrom54();
    PowersFrom56();
  }

  // ---------------------------------------------------------------- no two powers are proportional

  /** The coefficients of x and above, scaled by `e` and by `f`, agree. */
  predicate Proportional(e: bv5, r: Reg, f: bv5, s: Reg) {
    && Mul(e, r.s1) == Mul(f, s.s1) && Mul(e, r.s2) == Mul(f, s.s2) && Mul(e, r.s3) == Mul(f, s.s3)
    && Mul(e, r.s4) == Mul(f, s.s4) && Mul(e, r.s5) == Mul(f, s.s5)
  }

  /** Proportional registers have the same slopes. */
  lemma {:induction false} SameSlope(e: bv5, r4: bv5, x: bv5, a: bv5, f: bv5, s4: bv5, y: bv5, b: bv5)
    requires e != 0 && r4 != 0 && Mul(a, r4) == x && Mul(b, s4) == y
    requires Mul(e, r4) == Mul(f, s4) && Mul(e, x) == Mul(f, y)
    ensures a == b
  {
    hide Mul;
    MulLeftComm(e, a, r4);
    MulLeftComm(f, b, s4);
    if Mul(e, r4) == 0 {
      MulCancel(e, r4);
    } else {
      MulInjective(a, b, Mul(e, r4));
    }
  }

  lemma {:induction false} SlopedDiffer(i: nat, j: nat, e: bv5, f: bv5)
    requires Sloped(i) && Sloped(j) && i != j && e != 0
    ensures !Proportional(e, Pow(j), f, Pow(i))
  {
    hide Mul, Pow, Rank;
    var a, b :| HasSlopes(Pow(j), a, b) && Rank(a, b) == j;
    var c, d :| HasSlopes(Pow(i), c, d) && Rank(c, d) == i;
    if Proportional(e, Pow(j), f, Pow(i)) {
      SameSlope(e, Pow(j).s4, Pow(j).s3, a, f, Pow(i).s4, Pow(i).s3, c);
      SameSlope(e, Pow(j).s4, Pow(j).s5, b, f, Pow(i).s4, Pow(i).s5, d);
    }
  }

  predicate Flat(k: nat) {
    k == 1 || k == 2 || k == 3 || k == 5
  }

  lemma {:induction false} SlopedOrFlat(k: nat)
    requires 1 <= k <= 57 && !Flat(k)
    ensures Sloped(k)
  {
    hide Sloped, Pow;
    SmallPowers();
    if k != 4 { PowersSloped(k); }
  }

  lemma {:induction false} SlopedSteep(k: nat)
    requires Sloped(k)
    ensures Pow(k).s4 != 0
  {
    hide Mul, Rank, Pow;
  }

  /** A flat power is a unit vector. */
  lemma {:induction false} FlatDiffers(i: nat, j: nat, e: bv5, f: bv5)
    requires 1 <= i <= 57 && 1 <= j <= 57 && i != j && e != 0 && f != 0 && (Flat(i) || Flat(j))
    ensures !Proportional(e, Pow(j), f, Pow(i))
  {
    hide Mul, Pow, Sloped;
    SmallPowers();
    MulZero(e);
    MulZero(f);
    if !Flat(i) {
      SlopedOrFlat(i);
      SlopedSteep(i);
      if Mul(f, Pow(i).s4) == 0 { MulCancel(f, Pow(i).s4); }
    } else if !Flat(j) {
      SlopedOrFlat(j);
      SlopedSteep(j);
      if Mul(e, Pow(j).s4) == 0 { MulCancel(e, Pow(j).s4); }
    }
  }

  lemma {:induction false} PowersIndependent(i: nat, j: nat, e: bv5, f: bv5)
    requires 1 <= i <= 57 && 1 <= j <= 57 && i != j && e != 0 && f != 0
    ensures !Proportional(e, Pow(j), f, Pow(i))
  {
    hide Mul, Pow, Sloped, Proportional, Flat;
    if Flat(i) || Flat(j) {
      FlatDiffers(i, j, e, f);
    } else {
      SlopedOrFlat(i);
      SlopedOrFlat(j);
      SlopedDiffer(i, j, e, f);
    }
  }

  /** No power below 58 is a constant. */
  lemma {:induction false} PowerNotConstant(k: nat, e: bv5)
    requires 1 <= k <= 57 && e != 0
    ensures !Proportional(e, Pow(k), 0, Pow(0))
  {
    hide Mul, Pow, Sloped;
    MulZero(Pow(0).s1);
    MulZero(Pow(0).s2);
    MulZero(Pow(0).s3);
    MulZero(Pow(0).s4);
    MulZero(Pow(0).s5);
    MulZero(e);
    SmallPowers();
    if !Flat(k) {
      SlopedOrFlat(k);
      SlopedSteep(k);
      if Mul(e, Pow(k).s4) == 0 { MulCancel(e, Pow(k).s4); }
    }
  }
}
