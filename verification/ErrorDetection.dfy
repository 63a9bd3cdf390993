/**
  Scattered errors: two accepted addresses that differ in at most three characters, wherever they are, are equal.

  With the register proved to be a remainder modulo g, an undetected error in three places is a multiple of g with three
  terms. Without the zeros at its end it says that two powers x^i and x^j, with 0 < i < j < 58, are proportional up to a
  constant, and `Powers` says that no two are.
 */
module ErrorDetection {
  import opened Wrappers
  import opened Sets
  import opened Bits
  import opened Bech32
  import opened Remainder
  import opened Vectors
  import opened Powers
  import opened Address

  // ---------------------------------------------------------------- registers of the code

  /** The register `chk` of the code holds the coefficients of `r`. */
  ghost predicate Shows(chk: nat, r: Reg) {
    Fits(chk) && forall j: nat :: j < 6 ==> RegisterAt(chk, j) == Value(At(r, j))
  }

  function Gv(j: nat): bv5 {
    match j
    case 0 => 18
    case 1 => 29
    case 2 => 21
    case 3 => 20
    case 4 => 22
    case 5 => 29
    case _ => 0
  }

  lemma {:induction false} GeneratorVector(j: nat)
    requires j < 6
    ensures Value(Gv(j)) == G(j)
  {
  }

  lemma {:induction false} ShiftAt(r: Reg, j: nat)
    requires j < 6
    ensures At(Shift(r), j) == if j == 0 then Mul(r.s5, Gv(0)) else Sum(At(r, j - 1), Mul(r.s5, Gv(j)))
  {
    hide Mul, Sum, Shift;
    ShiftForm(r);
  }

  lemma {:induction false} ShowsShift(chk: nat, r: Reg)
    requires Shows(chk, r)
    ensures Shows(Feed(chk, 0), Shift(r))
  {
    hide Value, Mul, Sum, RegisterAt, Fits, Feed, Times, G, Gv, Xor, Shift, Top;
    SymbolFits(0);
    FeedFits(chk, 0);
    TopIsRegister(chk);
    forall j: nat | j < 6 ensures RegisterAt(Feed(chk, 0), j) == Value(At(Shift(r), j)) {
      FeedRemainder(chk, 0, j);
      ShiftAt(r, j);
      GeneratorVector(j);
      ValueMul(r.s5, Gv(j));
      assert RegisterAt(chk, 5) == Value(At(r, 5));
      if j == 0 {
        XorZero(Times(Top(chk), G(0)));
      } else {
        assert RegisterAt(chk, j - 1) == Value(At(r, j - 1));
        ValueSum(At(r, j - 1), Mul(r.s5, Gv(j)));
      }
    }
  }

  lemma {:induction false} AddAt(r: Reg, s: Reg, j: nat)
    requires j < 6
    ensures At(Add(r, s), j) == Sum(At(r, j), At(s, j))
  {
    hide Sum;
  }

  lemma {:induction false} ShowsAdd(chk: nat, r: Reg, chk': nat, s: Reg)
    requires Shows(chk, r) && Shows(chk', s)
    ensures Shows(Xor(chk, chk'), Add(r, s))
  {
    hide Value, Sum, RegisterAt, Fits, Xor, At, Add;
    XorFits(chk, chk');
    forall j: nat | j < 6 ensures RegisterAt(Xor(chk, chk'), j) == Value(At(Add(r, s), j)) {
      RegisterXor(chk, chk', j);
      AddAt(r, s, j);
      ValueSum(At(r, j), At(s, j));
    }
  }

  lemma {:induction false} ShowsConstant(v: bv5)
    ensures Shows(Value(v), Constant(v))
  {
    hide Value, RegisterAt, Fits;
    ValueBelow(v);
    ValueZero(0);
    SymbolFits(Value(v));
    forall j: nat | j < 6 ensures RegisterAt(Value(v), j) == Value(At(Constant(v), j)) {
      RegisterPacked(0, Value(v), j);
      if j > 0 { RegisterZero(j - 1); }
    }
  }

  /** An empty register shows zero coefficients and nothing else. */
  lemma {:induction false} ShowsZero(r: Reg)
    requires Shows(0, r)
    ensures r == Constant(0)
  {
    hide Value, RegisterAt, Fits;
    forall j: nat | j < 6 ensures At(r, j) == 0 {
      assert RegisterAt(0, j) == Value(At(r, j));
      RegisterZero(j);
      ValueZero(At(r, j));
    }
    assert At(r, 0) == 0 && At(r, 1) == 0 && At(r, 2) == 0 && At(r, 3) == 0 && At(r, 4) == 0 && At(r, 5) == 0;
  }

  function Nil(n: nat): (s: seq<nat>)
    ensures |s| == n && forall i :: 0 <= i < n ==> s[i] == 0
  {
    if n == 0 then [] else Nil(n - 1) + [0]
  }

  /** A symbol followed by `k` zeros leaves the symbol times x^k. */
  lemma {:induction false} ShowsPower(e: bv5, k: nat)
    ensures Shows(PolymodFrom(Value(e), Nil(k)), Scale(e, Pow(k)))
  {
    hide Shows, Value, Scale, Shift, Feed;
    if k == 0 {
      ScaleOne(e);
      ShowsConstant(e);
    } else {
      ShowsPower(e, k - 1);
      ScaleShift(e, Pow(k - 1));
      PolymodSnoc(Value(e), Nil(k - 1), 0);
      ShowsShift(PolymodFrom(Value(e), Nil(k - 1)), Scale(e, Pow(k - 1)));
    }
  }

  // ---------------------------------------------------------------- single errors

  function Single(n: nat, i: nat, v: nat): (s: seq<nat>)
    requires i < n
    ensures |s| == n && s[i] == v && forall k :: 0 <= k < n && k != i ==> s[k] == 0
  {
    Nil(i) + [v] + Nil(n - 1 - i)
  }

  lemma {:induction false} FeedIntoEmpty(v: nat)
    requires v < 32
    ensures Feed(0, v) == v
  {
    ShrZero(25);
    FeedAppends(0, v);
    ShrZero(5);
  }

  lemma {:induction false} NilRun(n: nat)
    ensures PolymodFrom(0, Nil(n)) == 0
  {
    hide Feed;
    if n > 0 {
      NilRun(n - 1);
      PolymodSnoc(0, Nil(n - 1), 0);
      FeedIntoEmpty(0);
    }
  }

  lemma {:induction false} SingleRun(n: nat, i: nat, v: nat)
    requires i < n && v < 32
    ensures PolymodFrom(0, Single(n, i, v)) == PolymodFrom(v, Nil(n - 1 - i))
  {
    hide PolymodFrom, Feed;
    PolymodConcat(0, Nil(i) + [v], Nil(n - 1 - i));
    NilRun(i);
    PolymodSnoc(0, Nil(i), v);
    FeedIntoEmpty(v);
  }

  // ---------------------------------------------------------------- three errors

  /** Zero outside three positions, the last of which ends the string. */
  ghost predicate ErrorsAt(e: seq<nat>, a: nat, b: nat) {
    && a < b < |e| - 1 && Symbols(e)
    && forall i :: 0 <= i < |e| - 1 && i != a && i != b ==> e[i] == 0
  }

  lemma {:induction false} ErrorSplit(e: seq<nat>, a: nat, b: nat)
    requires ErrorsAt(e, a, b)
    ensures var n := |e|;
            e == XorSeq(XorSeq(Single(n, a, e[a]), Single(n, b, e[b])), Single(n, n - 1, e[n - 1]))
  {
    hide Xor, Single;
    var n := |e|;
    var s, t, u := Single(n, a, e[a]), Single(n, b, e[b]), Single(n, n - 1, e[n - 1]);
    var w := XorSeq(XorSeq(s, t), u);
    forall i | 0 <= i < n ensures e[i] == w[i] {
      assert w[i] == Xor(Xor(s[i], t[i]), u[i]);
      XorZero(0);
      XorZero(e[i]);
    }
  }

  lemma {:induction false} ErrorRun(e: seq<nat>, a: nat, b: nat)
    requires ErrorsAt(e, a, b)
    ensures var n := |e| - 1;
            PolymodFrom(0, e) == Xor(Xor(PolymodFrom(e[a], Nil(n - a)), PolymodFrom(e[b], Nil(n - b))), PolymodFrom(e[n], Nil(0)))
  {
    hide PolymodFrom, Xor, Single, XorSeq;
    var n := |e|;
    ErrorSplit(e, a, b);
    var s, t, u := Single(n, a, e[a]), Single(n, b, e[b]), Single(n, n - 1, e[n - 1]);
    XorZero(0);
    XorSeqLength(s, t);
    PolymodLinear(0, 0, s, t);
    PolymodLinear(0, 0, XorSeq(s, t), u);
    SingleRun(n, a, e[a]);
    SingleRun(n, b, e[b]);
    SingleRun(n, n - 1, e[n - 1]);
  }

  lemma {:induction false} XorSeqLength(u: seq<nat>, v: seq<nat>)
    requires |u| == |v|
    ensures |XorSeq(u, v)| == |u|
  {
  }

  lemma {:induction false} ZeroSum(r: Reg, s: Reg, u: bv5)
    requires Add(Add(r, s), Constant(u)) == Constant(0)
    ensures r.s1 == s.s1 && r.s2 == s.s2 && r.s3 == s.s3 && r.s4 == s.s4 && r.s5 == s.s5
    ensures r.s0 == 0 && s.s0 == 0 ==> u == 0
  {
  }

  /** Three scaled powers that cancel, the last of them a constant, are all zero. */
  lemma {:induction false} TermsVanish(x: bv5, j: nat, y: bv5, i: nat, z: bv5)
    requires 1 <= i < j <= 57
    requires Add(Add(Scale(x, Pow(j)), Scale(y, Pow(i))), Constant(z)) == Constant(0)
    ensures x == 0 && y == 0 && z == 0
  {
    hide Mul, Pow, Add, Constant;
    ZeroSum(Scale(x, Pow(j)), Scale(y, Pow(i)), z);
    assert Proportional(x, Pow(j), y, Pow(i));
    if x != 0 && y != 0 {
      PowersIndependent(i, j, x, y);
    } else if x != 0 {
      VanishingScale(Pow(i), Pow(0));
      PowerNotConstant(j, x);
    } else if y != 0 {
      VanishingScale(Pow(j), Pow(0));
      PowerNotConstant(i, y);
    }
    MulZero(Pow(j).s0);
    MulZero(Pow(i).s0);
  }

  lemma {:induction false} VanishingScale(r: Reg, s: Reg)
    ensures Scale(0, r) == Scale(0, s)
  {
    hide Mul;
    MulZero(r.s5); MulZero(r.s4); MulZero(r.s3); MulZero(r.s2); MulZero(r.s1); MulZero(r.s0);
    MulZero(s.s5); MulZero(s.s4); MulZero(s.s3); MulZero(s.s2); MulZero(s.s1); MulZero(s.s0);
  }

  lemma {:induction false} ErrorsVanish(e: seq<nat>, a: nat, b: nat)
    requires ErrorsAt(e, a, b) && |e| <= 58 && PolymodFrom(0, e) == 0
    ensures e[a] == 0 && e[b] == 0 && e[|e| - 1] == 0
  {
    hide PolymodFrom, Xor, Value, Scale, Pow, Add, Shows;
    var n := |e| - 1;
    var x := SymbolVector(e[a]);
    var y := SymbolVector(e[b]);
    var z := SymbolVector(e[n]);
    ErrorRun(e, a, b);
    ShowsPower(x, n - a);
    ShowsPower(y, n - b);
    ShowsPower(z, 0);
    PowerZero(z);
    ShowsAdd(PolymodFrom(e[a], Nil(n - a)), Scale(x, Pow(n - a)), PolymodFrom(e[b], Nil(n - b)), Scale(y, Pow(n - b)));
    ShowsAdd(Xor(PolymodFrom(e[a], Nil(n - a)), PolymodFrom(e[b], Nil(n - b))),
             Add(Scale(x, Pow(n - a)), Scale(y, Pow(n - b))), PolymodFrom(e[n], Nil(0)), Constant(z));
    ShowsZero(Add(Add(Scale(x, Pow(n - a)), Scale(y, Pow(n - b))), Constant(z)));
    TermsVanish(x, n - a, y, n - b, z);
    ValueZero(0);
  }

  lemma {:induction false} PowerZero(z: bv5)
    ensures Scale(z, Pow(0)) == Constant(z)
  {
    hide Mul, Constant, Scale;
    ScaleOne(z);
  }

  // ---------------------------------------------------------------- accepted strings

  /** The difference of two accepted strings runs to an empty register. */
  lemma {:induction false} DifferenceRun(hrp: string, d: seq<nat>, d': seq<nat>)
    requires |d| == |d'| && Verifies(hrp, d) && Verifies(hrp, d')
    ensures PolymodFrom(0, XorSeq(d, d')) == 0
  {
    hide PolymodFrom, HrpExpand, Xor;
    var h := HrpExpand(hrp);
    var s := PolymodFrom(1, h);
    PolymodConcat(1, h, d);
    PolymodConcat(1, h, d');
    PolymodLinear(s, s, d, d');
    XorSelf(s);
    XorSelf(1);
  }

  /** Zeros at the end can be dropped. */
  lemma {:induction false} DropZeros(e: seq<nat>, n: nat)
    requires n <= |e| && Symbols(e) && PolymodFrom(0, e) == 0
    requires forall i :: n <= i < |e| ==> e[i] == 0
    ensures PolymodFrom(0, e[..n]) == 0
  {
    hide PolymodFrom, Fits;
    var z := Nil(|e| - n);
    assert e == e[..n] + z;
    PolymodConcat(0, e[..n], z);
    NilRun(|e| - n);
    SymbolsFit(e[..n]);
    SymbolsFit(z);
    SymbolFits(0);
    PolymodFits(0, e[..n]);
    PolymodInjective(PolymodFrom(0, e[..n]), 0, z);
  }

  lemma {:induction false} ThreeOrdered(hrp: string, d: seq<nat>, d': seq<nat>, a: nat, b: nat, c: nat)
    requires |d| == |d'| <= 58 && Symbols(d) && Symbols(d') && a < b < c < |d|
    requires forall i :: 0 <= i < |d| && i != a && i != b && i != c ==> d[i] == d'[i]
    requires Verifies(hrp, d) && Verifies(hrp, d')
    ensures d == d'
  {
    hide PolymodFrom, Xor, Verifies;
    var e := XorSeq(d, d');
    DifferenceRun(hrp, d, d');
    XorSymbols(d, d');
    forall i | 0 <= i < |d| && i != a && i != b && i != c ensures e[i] == 0 { XorEqual(d[i], d'[i]); }
    DropZeros(e, c + 1);
    ErrorsVanish(e[..c + 1], a, b);
    forall i | 0 <= i < |d| ensures d[i] == d'[i] {
      XorEqual(d[i], d'[i]);
      assert i == a || i == b || i == c ==> e[..c + 1][i] == e[i];
    }
  }

  function Differences(d: seq<nat>, d': seq<nat>): set<nat>
    requires |d| == |d'|
  {
    set i: nat | i < |d| && d[i] != d'[i]
  }

  lemma {:induction false} ThreeElements(s: set<nat>) returns (x: nat, y: nat, z: nat)
    requires |s| == 3
    ensures x != y && y != z && x != z && s == {x, y, z}
  {
    x :| x in s;
    var t := s - {x};
    assert |t| == 2;
    y :| y in t;
    var u := t - {y};
    assert |u| == 1;
    z :| z in u;
    assert |u - {z}| == 0;
    assert s == {x} + t && t == {y} + u && u == {z} + (u - {z});
  }

  /** Three positions that include the given ones, in order. */
  lemma {:induction false} ThreePositions(s: set<nat>, n: nat) returns (a: nat, b: nat, c: nat)
    requires n >= 3 && |s| <= 3 && forall i :: i in s ==> i < n
    ensures a < b < c < n && s <= {a, b, c}
    decreases 3 - |s|
  {
    if |s| < 3 {
      OneMissing(s);
      var x: nat :| x < 3 && x !in s;
      a, b, c := ThreePositions(s + {x}, n);
    } else {
      var x, y, z := ThreeElements(s);
      assert x in s && y in s && z in s;
      a := if x < y then (if x < z then x else z) else if y < z then y else z;
      c := if x > y then (if x > z then x else z) else if y > z then y else z;
      b := if x != a && x != c then x else if y != a && y != c then y else z;
    }
  }

  lemma {:induction false} OneMissing(s: set<nat>)
    requires |s| < 3
    ensures exists x: nat :: x < 3 && x !in s
  {
    var t: set<nat> := {0, 1, 2};
    if t <= s {
      SubsetSize(t, s);
    } else {
      var x :| x in t && x !in s;
    }
  }

  /**
    Up to 58 symbols, which is what an address has: two accepted strings that differ in at most three positions,
    wherever they are, are equal.
   */
  lemma {:induction false} ThreeErrorsDetected(hrp: string, d: seq<nat>, d': seq<nat>)
    requires |d| == |d'| <= 58 && Symbols(d) && Symbols(d')
    requires Verifies(hrp, d) && Verifies(hrp, d') && |Differences(d, d')| <= 3
    ensures d == d'
  {
    hide Verifies;
    if |d| <= 6 {
      BurstDetected(hrp, d, d', 0);
    } else {
      var a, b, c := ThreePositions(Differences(d, d'), |d|);
      forall i | 0 <= i < |d| && i != a && i != b && i != c ensures d[i] == d'[i] {
        assert i in Differences(d, d') <==> d[i] != d'[i];
      }
      ThreeOrdered(hrp, d, d', a, b, c);
    }
  }

  // ---------------------------------------------------------------- addresses

  /** The positions in which two texts differ, letter case aside. */
  function TextDifferences(a: string, b: string): set<nat>
    requires |a| == |b|
  {
    set i: nat | i < |a| && LowerChar(a[i]) != LowerChar(b[i])
  }

  lemma {:induction false} SymbolDifferences(h: string, v: seq<nat>, v': seq<nat>, a: string, b: string)
    requires |v| == |v'| && Symbols(v) && Symbols(v') && |a| == |b|
    requires Lower(a) == h + Chars(v) && Lower(b) == h + Chars(v')
    ensures |Differences(v, v')| == |TextDifferences(a, b)|
  {
    hide CharOf, CharsetRev, LowerChar;
    var f := (i: nat) => i + |h|;
    var s, t := Differences(v, v'), TextDifferences(a, b);
    forall i: nat | i < |v| ensures i in s <==> i + |h| in t {
      assert Lower(a)[i + |h|] == CharOf(v[i]) && Lower(b)[i + |h|] == CharOf(v'[i]);
      CharsetInverse(v[i]);
      CharsetInverse(v'[i]);
    }
    forall k: nat | k < |h| ensures k !in t {
      assert Lower(a)[k] == h[k] && Lower(b)[k] == h[k];
    }
    forall k | k in t ensures exists i :: i in s && f(i) == k {
      var i: nat := k - |h|;
      assert i in s && f(i) == k;
    }
    ImageSize(s, t, f);
  }

  /** Two accepted addresses that differ, letter case aside, in at most three characters name the same key. */
  lemma {:induction false} AddressErrorsDetected(a: string, b: string)
    requires ToKey(a).Ok? && ToKey(b).Ok? && |a| == |b| && |TextDifferences(a, b)| <= 3
    ensures Lower(a) == Lower(b) && ToKey(a) == ToKey(b)
  {
    hide ToKey, ToAddress, Checksum, Verifies, Chars, Symbols, LowerChar, Differences, TextDifferences;
    var k, k' := ToKey(a).value, ToKey(b).value;
    Canonical(a, k);
    Canonical(b, k');
    AddressShape(k);
    AddressShape(k');
    var d, d' := KeySymbols(k), KeySymbols(k');
    var v, v' := d + Checksum(HRP, d), d' + Checksum(HRP, d');
    VerifiesText(d);
    VerifiesText(d');
    SymbolsJoin(d, Checksum(HRP, d));
    SymbolsJoin(d', Checksum(HRP, d'));
    SymbolDifferences(HRP, v, v', a, b);
    ThreeErrorsDetected(HRP, v, v');
    assert d == v[..52] && d' == v'[..52];
    SameSymbols(k, k');
  }
}
