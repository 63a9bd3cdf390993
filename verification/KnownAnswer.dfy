/**
  A known address: that of the key of 32 zero bytes.

  Every other theorem about addresses holds for any prefix expansion and any starting register; this one says which they
  are. The register is followed symbol by symbol with the bit vectors of `Powers`.
 */
module KnownAnswer {
  import opened Wrappers
  import opened Bits
  import opened Bech32
  import opened Remainder
  import opened Vectors
  import opened Powers
  import opened ErrorDetection
  import opened ConvertBits
  import opened Address

  /** The register after the given values. */
  ghost predicate After(values: seq<nat>, r: Reg) {
    Shows(PolymodFrom(1, values), r)
  }

  /** Feeding a symbol is multiplication by x and addition of the symbol. */
  lemma {:induction false} ShowsFeed(chk: nat, r: Reg, v: bv5)
    requires Shows(chk, r)
    ensures Shows(Feed(chk, Value(v)), Add(Shift(r), Constant(v)))
  {
    hide Shows, Value, Shift, Add, Constant, Feed, Xor;
    ValueBelow(v);
    FeedLinear(chk, 0, 0, Value(v));
    XorZero(chk);
    XorZero(Value(v));
    FeedIntoEmpty(Value(v));
    ShowsShift(chk, r);
    ShowsConstant(v);
    ShowsAdd(Feed(chk, 0), Shift(r), Value(v), Constant(v));
  }

  lemma {:induction false} FeedSymbol(values: seq<nat>, r: Reg, v: bv5, n: nat, r': Reg)
    requires After(values, r) && Add(Shift(r), Constant(v)) == r' && Value(v) == n
    ensures After(values + [n], r')
  {
    hide Shows, Shift, Add, Constant, Value, PolymodFrom, Feed;
    PolymodSnoc(1, values, n);
    ShowsFeed(PolymodFrom(1, values), r, v);
  }

  lemma {:induction false} FeedZero(prefix: seq<nat>, k: nat, r: Reg, r': Reg)
    requires After(prefix + Nil(k), r) && Shift(r) == r'
    ensures After(prefix + Nil(k + 1), r')
  {
    hide Shows, Shift, PolymodFrom, Feed;
    PolymodSnoc(1, prefix + Nil(k), 0);
    assert prefix + Nil(k) + [0] == prefix + Nil(k + 1);
    ShowsShift(PolymodFrom(1, prefix + Nil(k)), r);
  }

  // ---------------------------------------------------------------- the prefix

  /** The prefix of addresses, expanded. */
  const EXPANDED: seq<nat> := [3, 3, 3, 3, 3, 3, 1, 0, 24, 12, 5, 1, 11, 19, 17]

  lemma {:induction false} PrefixExpanded(hrp: string)
    requires hrp == "xleaks1"
    ensures HrpExpand(hrp) == EXPANDED
  {
    hide HrpExpand;
    var e := HrpExpand(hrp);
    assert |hrp| == 7;
    HrpExpandAt(hrp, 0);
    HrpExpandAt(hrp, 1);
    HrpExpandAt(hrp, 2);
    HrpExpandAt(hrp, 3);
    HrpExpandAt(hrp, 4);
    HrpExpandAt(hrp, 5);
    HrpExpandAt(hrp, 6);
    assert e[0..7] == [3, 3, 3, 3, 3, 3, 1] && e[7] == 0 && e[8..15] == [24, 12, 5, 1, 11, 19, 17];
    assert e == e[0..7] + [e[7]] + e[8..15];
  }

  lemma {:induction false} ValueVector(b4: bool, b3: bool, b2: bool, b1: bool, b0: bool)
    ensures Value(Vector(b4, b3, b2, b1, b0))
         == Five(if b4 then 1 else 0, if b3 then 1 else 0, if b2 then 1 else 0, if b1 then 1 else 0, if b0 then 1 else 0)
  {
    hide Mask, Vector;
    VectorMasks(b4, b3, b2, b1, b0);
    MaskBelow(Vector(b4, b3, b2, b1, b0));
  }

  lemma {:induction false} Values()
    ensures Value(0) == 0
    ensures Value(1) == 1
    ensures Value(3) == 3
    ensures Value(5) == 5
    ensures Value(11) == 11
    ensures Value(12) == 12
    ensures Value(15) == 15
    ensures Value(17) == 17
    ensures Value(19) == 19
    ensures Value(20) == 20
    ensures Value(24) == 24
  {
    hide Value;
    ValueVector(false, false, false, false, false);
    ValueVector(false, false, false, false, true);
    ValueVector(false, false, false, true, true);
    ValueVector(false, false, true, false, true);
    ValueVector(false, true, false, true, true);
    ValueVector(false, true, true, false, false);
    ValueVector(false, true, true, true, true);
    ValueVector(true, false, false, false, true);
    ValueVector(true, false, false, true, true);
    ValueVector(true, false, true, false, false);
    ValueVector(true, true, false, false, false);
  }

  lemma {:induction false} AfterNothing()
    ensures After(EXPANDED[..0], R(0, 0, 0, 0, 0, 1))
  {
    hide Shows;
    Values();
    ShowsConstant(1);
  }

  lemma {:induction false} FeedPrefix(i: nat, r: Reg, v: bv5, r': Reg)
    requires i < 15 && After(EXPANDED[..i], r) && Add(Shift(r), Constant(v)) == r' && Value(v) == EXPANDED[i]
    ensures After(EXPANDED[..i + 1], r')
  {
    hide After, Shift, Add, Constant, Value;
    FeedSymbol(EXPANDED[..i], r, v, EXPANDED[i], r');
    assert EXPANDED[..i] + [EXPANDED[i]] == EXPANDED[..i + 1];
  }

  lemma {:induction false} ExpandedSymbols()
    ensures |EXPANDED| == 15
    ensures EXPANDED[0] == 3
    ensures EXPANDED[1] == 3
    ensures EXPANDED[2] == 3
    ensures EXPANDED[3] == 3
    ensures EXPANDED[4] == 3
    ensures EXPANDED[5] == 3
    ensures EXPANDED[6] == 1
    ensures EXPANDED[7] == 0
    ensures EXPANDED[8] == 24
    ensures EXPANDED[9] == 12
    ensures EXPANDED[10] == 5
    ensures EXPANDED[11] == 1
    ensures EXPANDED[12] == 11
    ensures EXPANDED[13] == 19
    ensures EXPANDED[14] == 17
  {
  }

  lemma {:induction false} Prefix3()
    ensures |EXPANDED| == 15 && After(EXPANDED[..3], R(0, 0, 1, 3, 3, 3))
  {
    hide After, Value, EXPANDED;
    ExpandedSymbols();
    Values();
    AfterNothing();
    assert After(EXPANDED[..1], R(0, 0, 0, 0, 1, 3)) by { FeedPrefix(0, R(0, 0, 0, 0, 0, 1), 3, R(0, 0, 0, 0, 1, 3)); }
    assert After(EXPANDED[..2], R(0, 0, 0, 1, 3, 3)) by { FeedPrefix(1, R(0, 0, 0, 0, 1, 3), 3, R(0, 0, 0, 1, 3, 3)); }
    assert After(EXPANDED[..3], R(0, 0, 1, 3, 3, 3)) by { FeedPrefix(2, R(0, 0, 0, 1, 3, 3), 3, R(0, 0, 1, 3, 3, 3)); }
  }

  lemma {:induction false} Prefix6()
    ensures |EXPANDED| == 15 && After(EXPANDED[..6], R(30, 21, 23, 22, 30, 17))
  {
    hide After, Value, EXPANDED;
    ExpandedSymbols();
    Values();
    Prefix3();
    assert After(EXPANDED[..4], R(0, 1, 3, 3, 3, 3)) by { FeedPrefix(3, R(0, 0, 1, 3, 3, 3), 3, R(0, 1, 3, 3, 3, 3)); }
    assert After(EXPANDED[..5], R(1, 3, 3, 3, 3, 3)) by { FeedPrefix(4, R(0, 1, 3, 3, 3, 3), 3, R(1, 3, 3, 3, 3, 3)); }
    assert After(EXPANDED[..6], R(30, 21, 23, 22, 30, 17)) by { FeedPrefix(5, R(1, 3, 3, 3, 3, 3), 3, R(30, 21, 23, 22, 30, 17)); }
  }

  lemma {:induction false} Prefix9()
    ensures |EXPANDED| == 15 && After(EXPANDED[..9], R(11, 20, 10, 26, 26, 1))
  {
    hide After, Value, EXPANDED;
    ExpandedSymbols();
    Values();
    Prefix6();
    assert After(EXPANDED[..7], R(2, 13, 25, 15, 6, 24)) by { FeedPrefix(6, R(30, 21, 23, 22, 30, 17), 1, R(2, 13, 25, 15, 6, 24)); }
    assert After(EXPANDED[..8], R(30, 28, 14, 5, 11, 13)) by { FeedPrefix(7, R(2, 13, 25, 15, 6, 24), 0, R(30, 28, 14, 5, 11, 13)); }
    assert After(EXPANDED[..9], R(11, 20, 10, 26, 26, 1)) by { FeedPrefix(8, R(30, 28, 14, 5, 11, 13), 24, R(11, 20, 10, 26, 26, 1)); }
  }

  lemma {:induction false} Prefix12()
    ensures |EXPANDED| == 15 && After(EXPANDED[..12], R(18, 7, 22, 2, 12, 12))
  {
    hide After, Value, EXPANDED;
    ExpandedSymbols();
    Values();
    Prefix9();
    assert After(EXPANDED[..10], R(4, 13, 11, 0, 17, 14)) by { FeedPrefix(9, R(11, 20, 10, 26, 26, 1), 12, R(4, 13, 11, 0, 17, 14)); }
    assert After(EXPANDED[..11], R(2, 1, 2, 23, 1, 31)) by { FeedPrefix(10, R(4, 13, 11, 0, 17, 14), 5, R(2, 1, 2, 23, 1, 31)); }
    assert After(EXPANDED[..12], R(18, 7, 22, 2, 12, 12)) by { FeedPrefix(11, R(2, 1, 2, 23, 1, 31), 1, R(18, 7, 22, 2, 12, 12)); }
  }

  lemma {:induction false} Prefix15()
    ensures |EXPANDED| == 15 && After(EXPANDED[..15], R(2, 14, 12, 20, 30, 9))
  {
    hide After, Value, EXPANDED;
    ExpandedSymbols();
    Values();
    Prefix12();
    assert After(EXPANDED[..13], R(1, 18, 11, 23, 10, 21)) by { FeedPrefix(12, R(18, 7, 22, 2, 12, 12), 11, R(1, 18, 11, 23, 10, 21)); }
    assert After(EXPANDED[..14], R(15, 29, 3, 31, 8, 1)) by { FeedPrefix(13, R(1, 18, 11, 23, 10, 21), 19, R(15, 29, 3, 31, 8, 1)); }
    assert After(EXPANDED[..15], R(2, 14, 12, 20, 30, 9)) by { FeedPrefix(14, R(15, 29, 3, 31, 8, 1), 17, R(2, 14, 12, 20, 30, 9)); }
  }

  // ---------------------------------------------------------------- 58 zeros

  lemma {:induction false} Zeros0()
    ensures After(EXPANDED + Nil(0), R(2, 14, 12, 20, 30, 9))
  {
    hide After;
    Prefix15();
    assert EXPANDED + Nil(0) == EXPANDED[..15];
  }

  lemma {:induction false} Zeros6()
    ensures After(EXPANDED + Nil(6), R(18, 0, 21, 14, 26, 8))
  {
    hide After, Nil, EXPANDED;
    Zeros0();
    assert After(EXPANDED + Nil(1), R(29, 9, 21, 29, 26, 13)) by { FeedZero(EXPANDED, 0, R(2, 14, 12, 20, 30, 9), R(29, 9, 21, 29, 26, 13)); }
    assert After(EXPANDED + Nil(2), R(16, 28, 7, 29, 20, 6)) by { FeedZero(EXPANDED, 1, R(29, 9, 21, 29, 26, 13), R(16, 28, 7, 29, 20, 6)); }
    assert After(EXPANDED + Nil(3), R(9, 6, 21, 12, 19, 19)) by { FeedZero(EXPANDED, 2, R(16, 28, 7, 29, 20, 6), R(9, 6, 21, 12, 19, 19)); }
    assert After(EXPANDED + Nil(4), R(5, 23, 28, 10, 16, 15)) by { FeedZero(EXPANDED, 3, R(9, 6, 21, 12, 19, 19), R(5, 23, 28, 10, 16, 15)); }
    assert After(EXPANDED + Nil(5), R(5, 0, 28, 3, 29, 8)) by { FeedZero(EXPANDED, 4, R(5, 23, 28, 10, 16, 15), R(5, 0, 28, 3, 29, 8)); }
    assert After(EXPANDED + Nil(6), R(18, 0, 21, 14, 26, 8)) by { FeedZero(EXPANDED, 5, R(5, 0, 28, 3, 29, 8), R(18, 0, 21, 14, 26, 8)); }
  }

  lemma {:induction false} Zeros12()
    ensures After(EXPANDED + Nil(12), R(30, 29, 29, 29, 21, 18))
  {
    hide After, Nil, EXPANDED;
    Zeros6();
    assert After(EXPANDED + Nil(7), R(6, 17, 7, 1, 14, 30)) by { FeedZero(EXPANDED, 6, R(18, 0, 21, 14, 26, 8), R(6, 17, 7, 1, 14, 30)); }
    assert After(EXPANDED + Nil(8), R(13, 8, 2, 11, 2, 23)) by { FeedZero(EXPANDED, 7, R(6, 17, 7, 1, 14, 30), R(13, 8, 2, 11, 2, 23)); }
    assert After(EXPANDED + Nil(9), R(4, 10, 25, 29, 27, 21)) by { FeedZero(EXPANDED, 8, R(13, 8, 2, 11, 2, 23), R(4, 10, 25, 29, 27, 21)); }
    assert After(EXPANDED + Nil(10), R(5, 19, 31, 29, 26, 26)) by { FeedZero(EXPANDED, 9, R(4, 10, 25, 29, 27, 21), R(5, 19, 31, 29, 26, 26)); }
    assert After(EXPANDED + Nil(11), R(1, 3, 11, 9, 8, 8)) by { FeedZero(EXPANDED, 10, R(5, 19, 31, 29, 26, 26), R(1, 3, 11, 9, 8, 8)); }
    assert After(EXPANDED + Nil(12), R(30, 29, 29, 29, 21, 18)) by { FeedZero(EXPANDED, 11, R(1, 3, 11, 9, 8, 8), R(30, 29, 29, 29, 21, 18)); }
  }

  lemma {:induction false} Zeros18()
    ensures After(EXPANDED + Nil(18), R(30, 25, 0, 23, 24, 30))
  {
    hide After, Nil, EXPANDED;
    Zeros12();
    assert After(EXPANDED + Nil(13), R(10, 7, 18, 4, 5, 25)) by { FeedZero(EXPANDED, 12, R(30, 29, 29, 29, 21, 18), R(10, 7, 18, 4, 5, 25)); }
    assert After(EXPANDED + Nil(14), R(10, 3, 1, 10, 20, 16)) by { FeedZero(EXPANDED, 13, R(10, 7, 18, 4, 5, 25), R(10, 3, 1, 10, 20, 16)); }
    assert After(EXPANDED + Nil(15), R(14, 16, 15, 27, 29, 16)) by { FeedZero(EXPANDED, 14, R(10, 3, 1, 10, 20, 16), R(14, 16, 15, 27, 29, 16)); }
    assert After(EXPANDED + Nil(16), R(18, 20, 28, 20, 18, 10)) by { FeedZero(EXPANDED, 15, R(14, 16, 15, 27, 29, 16), R(18, 20, 28, 20, 18, 10)); }
    assert After(EXPANDED + Nil(17), R(18, 24, 29, 9, 12, 30)) by { FeedZero(EXPANDED, 16, R(18, 20, 28, 20, 18, 10), R(18, 24, 29, 9, 12, 30)); }
    assert After(EXPANDED + Nil(18), R(30, 25, 0, 23, 24, 30)) by { FeedZero(EXPANDED, 17, R(18, 24, 29, 9, 12, 30), R(30, 25, 0, 23, 24, 30)); }
  }

  lemma {:induction false} Zeros24()
    ensures After(EXPANDED + Nil(24), R(26, 10, 6, 0, 5, 16))
  {
    hide After, Nil, EXPANDED;
    Zeros18();
    assert After(EXPANDED + Nil(19), R(14, 26, 24, 9, 9, 25)) by { FeedZero(EXPANDED, 18, R(30, 25, 0, 23, 24, 30), R(14, 26, 24, 9, 9, 25)); }
    assert After(EXPANDED + Nil(20), R(24, 3, 14, 0, 27, 10)) by { FeedZero(EXPANDED, 19, R(14, 26, 24, 9, 9, 25), R(24, 3, 14, 0, 27, 10)); }
    assert After(EXPANDED + Nil(21), R(8, 27, 12, 15, 1, 14)) by { FeedZero(EXPANDED, 20, R(24, 3, 14, 0, 27, 10), R(8, 27, 12, 15, 1, 14)); }
    assert After(EXPANDED + Nil(22), R(5, 24, 11, 13, 16, 29)) by { FeedZero(EXPANDED, 21, R(8, 27, 12, 15, 1, 14), R(5, 24, 11, 13, 16, 29)); }
    assert After(EXPANDED + Nil(23), R(10, 23, 27, 3, 15, 8)) by { FeedZero(EXPANDED, 22, R(5, 24, 11, 13, 16, 29), R(10, 23, 27, 3, 15, 8)); }
    assert After(EXPANDED + Nil(24), R(26, 10, 6, 0, 5, 16)) by { FeedZero(EXPANDED, 23, R(10, 23, 27, 3, 15, 8), R(26, 10, 6, 0, 5, 16)); }
  }

  lemma {:induction false} Zeros30()
    ensures After(EXPANDED + Nil(30), R(18, 4, 27, 13, 2, 12))
  {
    hide After, Nil, EXPANDED;
    Zeros24();
    assert After(EXPANDED + Nil(25), R(18, 22, 13, 18, 8, 3)) by { FeedZero(EXPANDED, 24, R(26, 10, 6, 0, 5, 16), R(18, 22, 13, 18, 8, 3)); }
    assert After(EXPANDED + Nil(26), R(16, 9, 27, 19, 5, 30)) by { FeedZero(EXPANDED, 25, R(18, 22, 13, 18, 8, 3), R(16, 9, 27, 19, 5, 30)); }
    assert After(EXPANDED + Nil(27), R(28, 26, 27, 29, 11, 19)) by { FeedZero(EXPANDED, 26, R(16, 9, 27, 19, 5, 30), R(28, 26, 27, 29, 11, 19)); }
    assert After(EXPANDED + Nil(28), R(30, 4, 19, 25, 23, 20)) by { FeedZero(EXPANDED, 27, R(28, 26, 27, 29, 11, 19), R(30, 4, 19, 25, 23, 20)); }
    assert After(EXPANDED + Nil(29), R(19, 9, 22, 6, 3, 25)) by { FeedZero(EXPANDED, 28, R(30, 4, 19, 25, 23, 20), R(19, 9, 22, 6, 3, 25)); }
    assert After(EXPANDED + Nil(30), R(18, 4, 27, 13, 2, 12)) by { FeedZero(EXPANDED, 29, R(19, 9, 22, 6, 3, 25), R(18, 4, 27, 13, 2, 12)); }
  }

  lemma {:induction false} Zeros36()
    ensures After(EXPANDED + Nil(36), R(26, 4, 2, 3, 11, 27))
  {
    hide After, Nil, EXPANDED;
    Zeros30();
    assert After(EXPANDED + Nil(31), R(2, 31, 4, 25, 10, 30)) by { FeedZero(EXPANDED, 30, R(18, 4, 27, 13, 2, 12), R(2, 31, 4, 25, 10, 30)); }
    assert After(EXPANDED + Nil(32), R(12, 1, 24, 9, 13, 13)) by { FeedZero(EXPANDED, 31, R(2, 31, 4, 25, 10, 30), R(12, 1, 24, 9, 13, 13)); }
    assert After(EXPANDED + Nil(33), R(16, 6, 15, 7, 28, 7)) by { FeedZero(EXPANDED, 32, R(12, 1, 24, 9, 13, 13), R(16, 6, 15, 7, 28, 7)); }
    assert After(EXPANDED + Nil(34), R(19, 14, 15, 4, 18, 19)) by { FeedZero(EXPANDED, 33, R(16, 6, 15, 7, 28, 7), R(19, 14, 15, 4, 18, 19)); }
    assert After(EXPANDED + Nil(35), R(21, 29, 25, 28, 8, 12)) by { FeedZero(EXPANDED, 34, R(19, 14, 15, 4, 18, 19), R(21, 29, 25, 28, 8, 12)); }
    assert After(EXPANDED + Nil(36), R(26, 4, 2, 3, 11, 27)) by { FeedZero(EXPANDED, 35, R(21, 29, 25, 28, 8, 12), R(26, 4, 2, 3, 11, 27)); }
  }

  lemma {:induction false} Zeros42()
    ensures After(EXPANDED + Nil(42), R(11, 16, 30, 24, 19, 17))
  {
    hide After, Nil, EXPANDED;
    Zeros36();
    assert After(EXPANDED + Nil(37), R(28, 18, 14, 28, 3, 3)) by { FeedZero(EXPANDED, 36, R(26, 4, 2, 3, 11, 27), R(28, 18, 14, 28, 3, 3)); }
    assert After(EXPANDED + Nil(38), R(22, 17, 18, 17, 7, 20)) by { FeedZero(EXPANDED, 37, R(28, 18, 14, 28, 3, 3), R(22, 17, 18, 17, 7, 20)); }
    assert After(EXPANDED + Nil(39), R(24, 28, 26, 26, 29, 4)) by { FeedZero(EXPANDED, 38, R(22, 17, 18, 17, 7, 20), R(24, 28, 26, 26, 29, 4)); }
    assert After(EXPANDED + Nil(40), R(23, 15, 22, 9, 15, 14)) by { FeedZero(EXPANDED, 39, R(24, 28, 26, 26, 29, 4), R(23, 15, 22, 9, 15, 14)); }
    assert After(EXPANDED + Nil(41), R(27, 14, 22, 7, 26, 22)) by { FeedZero(EXPANDED, 40, R(23, 15, 22, 9, 15, 14), R(27, 14, 22, 7, 26, 22)); }
    assert After(EXPANDED + Nil(42), R(11, 16, 30, 24, 19, 17)) by { FeedZero(EXPANDED, 41, R(27, 14, 22, 7, 26, 22), R(11, 16, 30, 24, 19, 17)); }
  }

  lemma {:induction false} Zeros48()
    ensures After(EXPANDED + Nil(48), R(31, 15, 8, 0, 7, 27))
  {
    hide After, Nil, EXPANDED;
    Zeros42();
    assert After(EXPANDED + Nil(43), R(0, 25, 9, 9, 1, 2)) by { FeedZero(EXPANDED, 42, R(11, 16, 30, 24, 19, 17), R(0, 25, 9, 9, 1, 2)); }
    assert After(EXPANDED + Nil(44), R(25, 9, 9, 1, 2, 0)) by { FeedZero(EXPANDED, 43, R(0, 25, 9, 9, 1, 2), R(25, 9, 9, 1, 2, 0)); }
    assert After(EXPANDED + Nil(45), R(31, 10, 25, 3, 22, 28)) by { FeedZero(EXPANDED, 44, R(25, 9, 9, 1, 2, 0), R(31, 10, 25, 3, 22, 28)); }
    assert After(EXPANDED + Nil(46), R(0, 21, 24, 18, 22, 11)) by { FeedZero(EXPANDED, 45, R(31, 10, 25, 3, 22, 28), R(0, 21, 24, 18, 22, 11)); }
    assert After(EXPANDED + Nil(47), R(21, 24, 18, 22, 11, 0)) by { FeedZero(EXPANDED, 46, R(0, 21, 24, 18, 22, 11), R(21, 24, 18, 22, 11, 0)); }
    assert After(EXPANDED + Nil(48), R(31, 15, 8, 0, 7, 27)) by { FeedZero(EXPANDED, 47, R(21, 24, 18, 22, 11, 0), R(31, 15, 8, 0, 7, 27)); }
  }

  lemma {:induction false} Zeros54()
    ensures After(EXPANDED + Nil(54), R(15, 26, 5, 26, 19, 26))
  {
    hide After, Nil, EXPANDED;
    Zeros48();
    assert After(EXPANDED + Nil(49), R(5, 4, 27, 3, 17, 11)) by { FeedZero(EXPANDED, 48, R(31, 15, 8, 0, 7, 27), R(5, 4, 27, 3, 17, 11)); }
    assert After(EXPANDED + Nil(50), R(22, 7, 21, 2, 25, 8)) by { FeedZero(EXPANDED, 49, R(5, 4, 27, 3, 17, 11), R(22, 7, 21, 2, 25, 8)); }
    assert After(EXPANDED + Nil(51), R(14, 27, 9, 4, 1, 4)) by { FeedZero(EXPANDED, 50, R(22, 7, 21, 2, 25, 8), R(14, 27, 9, 4, 1, 4)); }
    assert After(EXPANDED + Nil(52), R(25, 18, 3, 8, 6, 10)) by { FeedZero(EXPANDED, 51, R(14, 27, 9, 4, 1, 4), R(25, 18, 3, 8, 6, 10)); }
    assert After(EXPANDED + Nil(53), R(4, 0, 16, 7, 28, 28)) by { FeedZero(EXPANDED, 52, R(25, 18, 3, 8, 6, 10), R(4, 0, 16, 7, 28, 28)); }
    assert After(EXPANDED + Nil(54), R(15, 26, 5, 26, 19, 26)) by { FeedZero(EXPANDED, 53, R(4, 0, 16, 7, 28, 28), R(15, 26, 5, 26, 19, 26)); }
  }

  lemma {:induction false} Zeros58()
    ensures After(EXPANDED + Nil(58), R(5, 19, 15, 15, 15, 21))
  {
    hide After, Nil, EXPANDED;
    Zeros54();
    assert After(EXPANDED + Nil(55), R(5, 8, 9, 15, 5, 24)) by { FeedZero(EXPANDED, 54, R(15, 26, 5, 26, 19, 26), R(5, 8, 9, 15, 5, 24)); }
    assert After(EXPANDED + Nil(56), R(26, 21, 25, 22, 10, 8)) by { FeedZero(EXPANDED, 55, R(5, 8, 9, 15, 5, 24), R(26, 21, 25, 22, 10, 8)); }
    assert After(EXPANDED + Nil(57), R(13, 9, 27, 29, 16, 3)) by { FeedZero(EXPANDED, 56, R(26, 21, 25, 22, 10, 8), R(13, 9, 27, 29, 16, 3)); }
    assert After(EXPANDED + Nil(58), R(5, 19, 15, 15, 15, 21)) by { FeedZero(EXPANDED, 57, R(13, 9, 27, 29, 16, 3), R(5, 19, 15, 15, 15, 21)); }
  }

  // ---------------------------------------------------------------- the address

  /** The checksum of 52 zeros under the prefix of addresses. */
  lemma {:induction false} ChecksumOfZeros(hrp: string)
    requires hrp == "xleaks1"
    ensures Checksum(hrp, Nil(52)) == [5, 19, 15, 15, 15, 20]
  {
    hide PolymodFrom, HrpExpand, Xor, Shows, Digit, Nil, EXPANDED, Value, Add;
    PrefixExpanded(hrp);
    Zeros58();
    SixMore();
    assert EXPANDED + Nil(52) + SIX_ZEROS == EXPANDED + Nil(58);
    var m := PolymodFrom(1, EXPANDED + Nil(58));
    var r := R(5, 19, 15, 15, 15, 21);
    Values();
    ShowsConstant(1);
    ShowsAdd(m, r, 1, Constant(1));
    var p := Xor(m, 1);
    FinalRegister();
    DigitsShown(p, R(5, 19, 15, 15, 15, 20));
    SixDigits(p);
  }

  lemma {:induction false} SixMore()
    ensures Nil(58) == Nil(52) + SIX_ZEROS
  {
    assert |Nil(58)| == |Nil(52) + SIX_ZEROS|;
  }

  lemma {:induction false} FinalRegister()
    ensures Add(R(5, 19, 15, 15, 15, 21), Constant(1)) == R(5, 19, 15, 15, 15, 20)
  {
  }

  lemma {:induction false} DigitsShown(p: nat, r: Reg)
    requires Shows(p, r)
    ensures Digit(p, 0) == Value(r.s5) && Digit(p, 1) == Value(r.s4) && Digit(p, 2) == Value(r.s3)
    ensures Digit(p, 3) == Value(r.s2) && Digit(p, 4) == Value(r.s1) && Digit(p, 5) == Value(r.s0)
  {
    hide Value, Shr, Low, Fits;
    assert RegisterAt(p, 5) == Value(At(r, 5)) && RegisterAt(p, 4) == Value(At(r, 4)) && RegisterAt(p, 3) == Value(At(r, 3));
    assert RegisterAt(p, 2) == Value(At(r, 2)) && RegisterAt(p, 1) == Value(At(r, 1)) && RegisterAt(p, 0) == Value(At(r, 0));
  }

  lemma {:induction false} SixDigits(p: nat)
    ensures Digits(p, 6) == [Digit(p, 0), Digit(p, 1), Digit(p, 2), Digit(p, 3), Digit(p, 4), Digit(p, 5)]
  {
    hide Digit;
    assert Digits(p, 1) == [Digit(p, 0)];
    assert Digits(p, 2) == [Digit(p, 0), Digit(p, 1)];
    assert Digits(p, 3) == [Digit(p, 0), Digit(p, 1), Digit(p, 2)];
    assert Digits(p, 4) == [Digit(p, 0), Digit(p, 1), Digit(p, 2), Digit(p, 3)];
    assert Digits(p, 5) == [Digit(p, 0), Digit(p, 1), Digit(p, 2), Digit(p, 3), Digit(p, 4)];
  }

  ghost predicate NoBits(data: seq<int>, w: nat) {
    true !in BitString(data, w)
  }

  lemma {:induction false} ZerosHaveNoBits(data: seq<int>, w: nat)
    requires forall i :: 0 <= i < |data| ==> data[i] == 0
    ensures NoBits(data, w)
    decreases |data|
  {
    hide BitsOf;
    if data != [] {
      ZerosHaveNoBits(data[1..], w);
      ZeroHasNoBits(w);
    }
  }

  lemma {:induction false} ZeroHasNoBits(w: nat)
    ensures true !in BitsOf(0, w)
  {
    if w > 0 { ZeroHasNoBits(w - 1); }
  }

  lemma {:induction false} NoBitsAreZeros(data: seq<int>, w: nat)
    requires NoBits(data, w) && AllWide(data, w) && forall i :: 0 <= i < |data| ==> data[i] >= 0
    ensures forall i :: 0 <= i < |data| ==> data[i] == 0
    decreases |data|
  {
    hide BitsOf, Shr, FromBits, Low;
    if data != [] {
      NoBitsAreZeros(data[1..], w);
      FromBitsZero(BitsOf(data[0], w));
      FromBitsOf(data[0], w);
      LowOfFit(data[0], w);
      assert data == [data[0]] + data[1..];
    }
  }

  lemma {:induction false} ZeroKeySymbols(key: seq<Byte>)
    requires |key| == 32 && forall i :: 0 <= i < |key| ==> key[i] == 0
    ensures KeySymbols(key) == Nil(52)
  {
    hide BitString, Leftover, Whole, Padded, Zeros, Shr;
    var data := KeySymbols(key);
    var s := BitString(key, 8);
    PaddedBits(s, 5);
    var k: nat :| k < 5 && BitString(Padded(s, 5), 5) == s + Zeros(k);
    ZerosHaveNoBits(key, 8);
    NoTrueInZeros(k);
    assert NoBits(data, 5);
    NoBitsAreZeros(data, 5);
  }

  /** The address of the key of 32 zero bytes. */
  lemma {:induction false} ZeroKeyAddress(key: seq<Byte>)
    requires |key| == 32 && forall i :: 0 <= i < |key| ==> key[i] == 0
    ensures ToAddress(key) == Ok("xleaks1" + seq(52, i => 'q') + "9n0005")
  {
    hide ToAddress, Checksum, KeySymbols, Symbols;
    AddressShape(key);
    ZeroKeySymbols(key);
    ChecksumOfZeros(HRP);
    var d := Nil(52) + [5, 19, 15, 15, 15, 20];
    TextOfZeros(d);
    assert HRP + (seq(52, i => 'q') + "9n0005") == "xleaks1" + seq(52, i => 'q') + "9n0005";
  }

  lemma {:induction false} TextOfZeros(d: seq<nat>)
    requires d == Nil(52) + [5, 19, 15, 15, 15, 20]
    ensures Symbols(d) && Chars(d) == seq(52, i => 'q') + "9n0005"
  {
    var t := seq(52, i => 'q') + "9n0005";
    assert |d| == 58 && |t| == 58;
    forall i | 0 <= i < 58 ensures d[i] < 32 && CharOf(d[i]) == t[i] {
      if i < 52 {
        assert d[i] == 0;
      } else {
        assert d[i] == [5, 19, 15, 15, 15, 20][i - 52] && t[i] == "9n0005"[i - 52];
      }
    }
  }

  /** The whole alphabet, in order. */
  lemma {:induction false} Alphabet(d: seq<nat>)
    requires |d| == 32 && forall i :: 0 <= i < 32 ==> d[i] == i
    ensures Symbols(d) && Chars(d) == "qpzry9x8gf2tvdw0s3jn54khce6mua7l"
  {
    assert |CHARSET| == 32;
  }
}
