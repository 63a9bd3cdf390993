/**
  The Bech32 checksum of `pkg/identity/address.go`: a 30-bit register fed one value at a time.

  The loops are methods proved equal to the recursive `PolymodFrom`, `HrpExpand` and `Checksum`; the
  theorems are about those functions. They rest on two facts about one register step: it is linear
  for exclusive or, and on 30-bit registers it loses no information.
 */
module Bech32 {
  import opened Bits

  // ---------------------------------------------------------------- the register

  function Generator(i: nat): nat
    requires i < 5
  {
    if i == 0 then 0x3b6a57b2
    else if i == 1 then 0x26508e6d
    else if i == 2 then 0x1ea119fa
    else if i == 3 then 0x3d4233dd
    else 0x2a1462b3
  }

  function Tap(b: nat, i: nat): nat
    requires i < 5
  {
    if Bit(b, i) then Generator(i) else 0
  }

  /** The generators selected by the first `n` bits of `b`, combined. */
  function Taps(b: nat, n: nat): nat
    requires n <= 5
  {
    if n == 0 then 0 else Xor(Taps(b, n - 1), Tap(b, n - 1))
  }

  function Top(chk: nat): nat {
    ShrNonNegative(chk, 25);
    Shr(chk, 25)
  }

  function Rest(chk: nat): nat {
    ShlNonNegative(Low(chk, 25), 5);
    Shl(Low(chk, 25), 5)
  }

  function Feed(chk: nat, v: nat): nat {
    Xor(Xor(Rest(chk), v), Taps(Top(chk), 5))
  }

  function PolymodFrom(chk: nat, values: seq<nat>): nat
    decreases |values|
  {
    if values == [] then chk
    else Feed(PolymodFrom(chk, values[..|values| - 1]), values[|values| - 1])
  }

  method Polymod(values: seq<nat>) returns (chk: nat)
    ensures chk == PolymodFrom(1, values)
  {
    chk := 1;
    for k := 0 to |values|
      invariant chk == PolymodFrom(1, values[..k])
    {
      var b := Top(chk);
      ghost var before := chk;
      chk := Xor(Rest(chk), values[k]);
      ghost var shifted := chk;
      XorZero(shifted);
      for i := 0 to 5
        invariant chk == Xor(shifted, Taps(b, i))
      {
        XorAssoc(shifted, Taps(b, i), Tap(b, i));
        XorZero(chk);
        if Bit(b, i) {
          chk := Xor(chk, Generator(i));
        }
      }
      assert chk == Feed(before, values[k]);
      assert values[..k + 1][..k] == values[..k];
    }
    assert values[..|values|] == values;
  }

  // ---------------------------------------------------------------- prefix, checksum, verification

  function HrpHigh(hrp: string): (r: seq<nat>)
    ensures |r| == |hrp|
  {
    if hrp == "" then []
    else HrpHigh(hrp[..|hrp| - 1]) + [hrp[|hrp| - 1] as int / 32]
  }

  function HrpLow(hrp: string): (r: seq<nat>)
    ensures |r| == |hrp|
  {
    if hrp == "" then []
    else HrpLow(hrp[..|hrp| - 1]) + [hrp[|hrp| - 1] as int % 32]
  }

  function HrpExpand(hrp: string): seq<nat> {
    HrpHigh(hrp) + [0] + HrpLow(hrp)
  }

  /** All high parts, a zero, all low parts. */
  lemma {:induction false} HrpExpandAt(hrp: string, i: nat)
    requires i < |hrp|
    ensures |HrpExpand(hrp)| == 2 * |hrp| + 1 && HrpExpand(hrp)[|hrp|] == 0
    ensures HrpExpand(hrp)[i] == hrp[i] as int / 32 && HrpExpand(hrp)[|hrp| + 1 + i] == hrp[i] as int % 32
  {
    HrpPartsAt(hrp, i);
  }

  lemma {:induction false} HrpPartsAt(hrp: string, i: nat)
    requires i < |hrp|
    ensures HrpHigh(hrp)[i] == hrp[i] as int / 32 && HrpLow(hrp)[i] == hrp[i] as int % 32
  {
    if i < |hrp| - 1 { HrpPartsAt(hrp[..|hrp| - 1], i); }
  }

  method HRPExpand(hrp: string) returns (ret: seq<nat>)
    ensures ret == HrpExpand(hrp)
    ensures |ret| == 2 * |hrp| + 1 && ret[|hrp|] == 0
    ensures forall i :: 0 <= i < |hrp| ==> ret[i] == hrp[i] as int / 32 && ret[|hrp| + 1 + i] == hrp[i] as int % 32
  {
    forall i | 0 <= i < |hrp|
      ensures HrpExpand(hrp)[i] == hrp[i] as int / 32 && HrpExpand(hrp)[|hrp| + 1 + i] == hrp[i] as int % 32
    {
      HrpExpandAt(hrp, i);
    }
    ret := [];
    for k := 0 to |hrp|
      invariant ret == HrpHigh(hrp[..k])
    {
      ret := ret + [hrp[k] as int / 32];
      assert hrp[..k + 1][..k] == hrp[..k];
    }
    assert hrp[..|hrp|] == hrp;
    ret := ret + [0];
    for k := 0 to |hrp|
      invariant ret == HrpHigh(hrp) + [0] + HrpLow(hrp[..k])
    {
      ret := ret + [hrp[k] as int % 32];
      assert hrp[..k + 1][..k] == hrp[..k];
    }
  }

  const SIX_ZEROS: seq<nat> := [0, 0, 0, 0, 0, 0]

  /** Symbol `i` of the 30-bit number `p`, most significant first. */
  function Digit(p: nat, i: nat): nat
    requires i < 6
  {
    Low(Shr(p, 5 * (5 - i)), 5)
  }

  function Digits(p: nat, n: nat): (r: seq<nat>)
    requires n <= 6
    ensures |r| == n
  {
    if n == 0 then [] else Digits(p, n - 1) + [Digit(p, n - 1)]
  }

  function Checksum(hrp: string, data: seq<nat>): seq<nat> {
    Digits(Xor(PolymodFrom(1, HrpExpand(hrp) + data + SIX_ZEROS), 1), 6)
  }

  predicate Verifies(hrp: string, data: seq<nat>) {
    PolymodFrom(1, HrpExpand(hrp) + data) == 1
  }

  method CreateChecksum(hrp: string, data: seq<nat>) returns (checksum: seq<nat>)
    ensures checksum == Checksum(hrp, data)
  {
    var expanded := HRPExpand(hrp);
    var values := expanded + data;
    values := values + SIX_ZEROS;
    var m := Polymod(values);
    var polymod := Xor(m, 1);
    checksum := [];
    for i := 0 to 6
      invariant checksum == Digits(polymod, i)
    {
      checksum := checksum + [Low(Shr(polymod, 5 * (5 - i)), 5)];
    }
  }

  method VerifyChecksum(hrp: string, data: seq<nat>) returns (ok: bool)
    ensures ok <==> Verifies(hrp, data)
  {
    var expanded := HRPExpand(hrp);
    var m := Polymod(expanded + data);
    ok := m == 1;
  }

  // ---------------------------------------------------------------- widths

  ghost predicate Fits(x: nat) {
    Shr(x, 30) == 0
  }

  ghost predicate AllFit(s: seq<nat>) {
    forall i :: 0 <= i < |s| ==> Fits(s[i])
  }

  predicate Symbols(s: seq<nat>) {
    forall i :: 0 <= i < |s| ==> s[i] < 32
  }

  lemma {:induction false} SymbolFits(x: nat)
    requires x < 32
    ensures Shr(x, 5) == 0 && Fits(x)
  {
    FiveBits(x);
    FitsWider(x, 5, 30);
  }

  lemma {:induction false} SymbolsFit(s: seq<nat>)
    requires Symbols(s)
    ensures AllFit(s)
  {
    forall i | 0 <= i < |s| ensures Fits(s[i]) { SymbolFits(s[i]); }
  }

  lemma {:induction false} HrpFits(hrp: string)
    ensures AllFit(HrpExpand(hrp)) && AllFit(HrpHigh(hrp)) && AllFit(HrpLow(hrp))
  {
    if hrp != "" {
      var n := |hrp| - 1;
      HrpFits(hrp[..n]);
      ThirtyBits(hrp[n] as int / 32);
      ThirtyBits(hrp[n] as int % 32);
    }
    ThirtyBits(0);
  }

  lemma {:induction false} XorFits(a: nat, b: nat)
    requires Fits(a) && Fits(b)
    ensures Fits(Xor(a, b))
  {
    ShrXor(a, b, 30);
  }

  lemma {:induction false} TapsFit(b: nat, n: nat)
    requires n <= 5
    ensures Fits(Taps(b, n))
  {
    ShrZero(30);
    if n > 0 {
      TapsFit(b, n - 1);
      ThirtyBits(Generator(n - 1));
      XorFits(Taps(b, n - 1), Tap(b, n - 1));
    }
  }

  lemma {:induction false} FeedFits(chk: nat, v: nat)
    requires Fits(v)
    ensures Fits(Feed(chk, v))
  {
    LowFits(chk, 25);
    FitsShl(Low(chk, 25), 25, 5);
    TapsFit(Top(chk), 5);
    XorFits(Rest(chk), v);
    XorFits(Xor(Rest(chk), v), Taps(Top(chk), 5));
  }

  lemma {:induction false} PolymodFits(chk: nat, values: seq<nat>)
    requires Fits(chk) && AllFit(values)
    ensures Fits(PolymodFrom(chk, values))
    decreases |values|
  {
    if values != [] {
      var n := |values| - 1;
      PolymodFits(chk, values[..n]);
      FeedFits(PolymodFrom(chk, values[..n]), values[n]);
    }
  }

  // ---------------------------------------------------------------- one step is linear and injective

  lemma {:induction false} TapXor(a: nat, b: nat, i: nat)
    requires i < 5
    ensures Tap(Xor(a, b), i) == Xor(Tap(a, i), Tap(b, i))
  {
    BitXor(a, b, i);
    XorSelf(Generator(i));
    XorZero(Generator(i));
    XorZero(0);
  }

  lemma {:induction false} TapsXor(a: nat, b: nat, n: nat)
    requires n <= 5
    ensures Taps(Xor(a, b), n) == Xor(Taps(a, n), Taps(b, n))
  {
    if n == 0 {
      XorZero(0);
    } else {
      TapsXor(a, b, n - 1);
      TapXor(a, b, n - 1);
      XorSwap(Taps(a, n - 1), Taps(b, n - 1), Tap(a, n - 1), Tap(b, n - 1));
    }
  }

  lemma {:induction false} FeedLinear(a: nat, b: nat, u: nat, v: nat)
    ensures Feed(Xor(a, b), Xor(u, v)) == Xor(Feed(a, u), Feed(b, v))
  {
    LowXor(a, b, 25);
    ShlXor(Low(a, 25), Low(b, 25), 5);
    ShrXor(a, b, 25);
    TapsXor(Top(a), Top(b), 5);
    XorSwap(Rest(a), Rest(b), u, v);
    XorSwap(Xor(Rest(a), u), Xor(Rest(b), v), Taps(Top(a), 5), Taps(Top(b), 5));
  }

  lemma {:induction false} ShrSmall(b: int)
    ensures Shr(b, 0) == b && Shr(b, 1) == b / 2 && Shr(b, 2) == b / 4 && Shr(b, 3) == b / 8 && Shr(b, 4) == b / 16
  {
    assert Shr(b, 4) == Shr(b / 2, 3) == Shr(b / 2 / 2, 2) == Shr(b / 2 / 2 / 2, 1) == b / 2 / 2 / 2 / 2;
    assert Shr(b, 3) == Shr(b / 2, 2) == Shr(b / 2 / 2, 1) == b / 2 / 2 / 2;
    assert Shr(b, 2) == Shr(b / 2, 1) == b / 2 / 2;
  }

  function TapBit(b: nat, i: nat, j: nat): bool
    requires i < 5
  {
    Bit(b, i) && Bit(Generator(i), j)
  }

  lemma {:induction false} TapsBitStep(b: nat, j: nat, n: nat)
    requires 1 <= n <= 5
    ensures Bit(Taps(b, n), j) == (Bit(Taps(b, n - 1), j) != TapBit(b, n - 1, j))
  {
    ShrZero(j);
    BitXor(Taps(b, n - 1), Tap(b, n - 1), j);
  }

  /** Bit `j` of the selected generators is the parity of their bits `j`. */
  lemma {:induction false} TapsBit(b: nat, j: nat)
    ensures Bit(Taps(b, 5), j)
         == (TapBit(b, 0, j) != (TapBit(b, 1, j) != (TapBit(b, 2, j) != (TapBit(b, 3, j) != TapBit(b, 4, j)))))
  {
    ShrZero(j);
    TapsBitStep(b, j, 1);
    TapsBitStep(b, j, 2);
    TapsBitStep(b, j, 3);
    TapsBitStep(b, j, 4);
    TapsBitStep(b, j, 5);
  }

  ghost predicate Row(i: nat, b0: bool, b1: bool, b2: bool, b3: bool, b4: bool)
    requires i < 5
  {
    && Bit(Generator(i), 0) == b0
    && Bit(Generator(i), 1) == b1
    && Bit(Generator(i), 2) == b2
    && Bit(Generator(i), 3) == b3
    && Bit(Generator(i), 4) == b4
  }

  lemma {:induction false} GeneratorBits()
    ensures Row(0, false, true, false, false, true)
    ensures Row(1, true, false, true, true, false)
    ensures Row(2, false, true, false, true, true)
    ensures Row(3, true, false, true, true, true)
    ensures Row(4, true, true, false, false, true)
  {
    ShrSmall(Generator(0));
    ShrSmall(Generator(1));
    ShrSmall(Generator(2));
    ShrSmall(Generator(3));
    ShrSmall(Generator(4));
  }

  lemma {:induction false} Independent(x0: bool, x1: bool, x2: bool, x3: bool, x4: bool)
    requires x1 == (x3 != x4)
    requires x0 == (x2 != x4)
    requires x1 == x3
    requires x1 == (x2 != x3)
    requires x0 == (x2 != (x3 != x4))
    ensures !x0 && !x1 && !x2 && !x3 && !x4
  {
  }

  /** The low symbols of the five generators are linearly independent. */
  lemma {:induction false} LowTaps(b: nat)
    requires b < 32
    requires forall j :: 0 <= j < 5 ==> !Bit(Taps(b, 5), j)
    ensures b == 0
  {
    var x0, x1, x2, x3, x4 := Bit(b, 0), Bit(b, 1), Bit(b, 2), Bit(b, 3), Bit(b, 4);
    assert x1 == (x3 != x4) by { GeneratorBits(); TapsBit(b, 0); }
    assert x0 == (x2 != x4) by { GeneratorBits(); TapsBit(b, 1); }
    assert x1 == x3 by { GeneratorBits(); TapsBit(b, 2); }
    assert x1 == (x2 != x3) by { GeneratorBits(); TapsBit(b, 3); }
    assert x0 == (x2 != (x3 != x4)) by { GeneratorBits(); TapsBit(b, 4); }
    Independent(x0, x1, x2, x3, x4);
    NoBits(b);
  }

  lemma {:induction false} NoBits(b: nat)
    requires b < 32
    requires !Bit(b, 0) && !Bit(b, 1) && !Bit(b, 2) && !Bit(b, 3) && !Bit(b, 4)
    ensures b == 0
  {
    ShrSmall(b);
  }

  lemma {:induction false} ShlBit(x: int, k: nat, j: nat)
    requires j < k
    ensures !Bit(Shl(x, k), j)
  {
    assert Shl(x, k) / 2 == Shl(x, k - 1);
    if j > 0 { ShlBit(x, k - 1, j - 1); }
  }

  lemma {:induction false} NoTaps(n: nat)
    requires n <= 5
    ensures Taps(0, n) == 0
  {
    if n > 0 {
      NoTaps(n - 1);
      ShrZero(n - 1);
    }
  }

  lemma {:induction false} FeedKernel(c: nat)
    requires Fits(c) && Feed(c, 0) == 0
    ensures c == 0
  {
    var b := Top(c);
    assert Rest(c) == Taps(b, 5) by {
      XorZero(Rest(c));
      XorEqual(Rest(c), Taps(b, 5));
    }
    forall j | 0 <= j < 5 ensures !Bit(Taps(b, 5), j) { ShlBit(Low(c, 25), 5, j); }
    assert b < 32 by {
      ShrAdd(c, 25, 5);
      FiveBits(b);
    }
    LowTaps(b);
    NoTaps(5);
    ShlFive(Low(c, 25));
    Decompose(c, 25);
    ShrZero(25);
  }

  lemma {:induction false} FeedInjective(a: nat, b: nat, v: nat)
    requires Fits(a) && Fits(b) && Feed(a, v) == Feed(b, v)
    ensures a == b
  {
    FeedLinear(a, b, v, v);
    XorSelf(v);
    XorEqual(Feed(a, v), Feed(b, v));
    XorFits(a, b);
    FeedKernel(Xor(a, b));
    XorEqual(a, b);
  }

  // ---------------------------------------------------------------- whole runs

  lemma {:induction false} PolymodSnoc(chk: nat, a: seq<nat>, v: nat)
    ensures PolymodFrom(chk, a + [v]) == Feed(PolymodFrom(chk, a), v)
  {
    hide Feed;
    assert (a + [v])[..|a + [v]| - 1] == a;
  }

  lemma {:induction false} PolymodConcat(chk: nat, a: seq<nat>, b: seq<nat>)
    ensures PolymodFrom(chk, a + b) == PolymodFrom(PolymodFrom(chk, a), b)
    decreases |b|
  {
    hide Feed;
    if b == [] {
      assert a + b == a;
    } else {
      var n := |b| - 1;
      PolymodConcat(chk, a, b[..n]);
      assert a + b == a + b[..n] + [b[n]];
      PolymodSnoc(chk, a + b[..n], b[n]);
    }
  }

  lemma {:induction false} PolymodInjective(a: nat, b: nat, values: seq<nat>)
    requires Fits(a) && Fits(b) && AllFit(values)
    requires PolymodFrom(a, values) == PolymodFrom(b, values)
    ensures a == b
    decreases |values|
  {
    if values != [] {
      var n := |values| - 1;
      PolymodFits(a, values[..n]);
      PolymodFits(b, values[..n]);
      FeedInjective(PolymodFrom(a, values[..n]), PolymodFrom(b, values[..n]), values[n]);
      PolymodInjective(a, b, values[..n]);
    }
  }

  function XorSeq(u: seq<nat>, v: seq<nat>): (r: seq<nat>)
    requires |u| == |v|
    ensures |r| == |u|
    ensures forall i :: 0 <= i < |r| ==> r[i] == Xor(u[i], v[i])
  {
    seq(|u|, i requires 0 <= i < |u| => Xor(u[i], v[i]))
  }

  /** The register of a difference is the difference of the registers. */
  lemma {:induction false} PolymodLinear(a: nat, b: nat, u: seq<nat>, v: seq<nat>)
    requires |u| == |v|
    ensures PolymodFrom(Xor(a, b), XorSeq(u, v)) == Xor(PolymodFrom(a, u), PolymodFrom(b, v))
    decreases |u|
  {
    if u != [] {
      var n := |u| - 1;
      PolymodLinear(a, b, u[..n], v[..n]);
      assert XorSeq(u, v)[..n] == XorSeq(u[..n], v[..n]);
      FeedLinear(PolymodFrom(a, u[..n]), PolymodFrom(b, v[..n]), u[n], v[n]);
    }
  }

  /** While the register holds at most 25 bits, a step only appends a symbol. */
  lemma {:induction false} FeedAppends(chk: nat, v: nat)
    requires Shr(chk, 25) == 0 && v < 32
    ensures Shl(chk, 5) >= 0 && Feed(chk, v) == Shl(chk, 5) + v
    ensures Shr(Feed(chk, v), 5) == chk
    ensures Feed(chk, v) == 0 <==> chk == 0 && v == 0
  {
    LowOfFit(chk, 25);
    NoTaps(5);
    XorZero(Xor(Rest(chk), v));
    FiveBits(v);
    XorIsAdd(chk, v, 5);
    Compose(chk, v, 5);
    ShlFive(chk);
  }

  ghost predicate AllZero(e: seq<nat>) {
    forall i :: 0 <= i < |e| ==> e[i] == 0
  }

  /** From an empty register, up to six symbols are simply stored. */
  lemma {:induction false} ShortRun(e: seq<nat>)
    requires |e| <= 6 && Symbols(e)
    ensures Shr(PolymodFrom(0, e), 5 * |e|) == 0
    ensures PolymodFrom(0, e) == 0 ==> AllZero(e)
    decreases |e|
  {
    hide Feed, Shr;
    if e == [] {
      ShrZero(0);
    } else {
      var n := |e| - 1;
      ShortRun(e[..n]);
      var c := PolymodFrom(0, e[..n]);
      FitsWider(c, 5 * n, 25);
      FeedAppends(c, e[n]);
      ShrAdd(Feed(c, e[n]), 5, 5 * n);
      assert e == e[..n] + [e[n]];
    }
  }

  lemma {:induction false} XorSymbols(u: seq<nat>, v: seq<nat>)
    requires |u| == |v| && Symbols(u) && Symbols(v)
    ensures Symbols(XorSeq(u, v))
  {
    forall i | 0 <= i < |u| ensures Xor(u[i], v[i]) < 32 {
      FiveBits(u[i]);
      FiveBits(v[i]);
      ShrXor(u[i], v[i], 5);
      XorZero(0);
      FiveBits(Xor(u[i], v[i]));
    }
  }

  /** Two windows of at most six symbols leave the same register only if they are equal. */
  lemma {:induction false} WindowInjective(chk: nat, u: seq<nat>, v: seq<nat>)
    requires |u| == |v| <= 6 && Symbols(u) && Symbols(v)
    requires PolymodFrom(chk, u) == PolymodFrom(chk, v)
    ensures u == v
  {
    hide Feed, Xor, PolymodFrom;
    PolymodLinear(chk, chk, u, v);
    XorSelf(chk);
    XorEqual(PolymodFrom(chk, u), PolymodFrom(chk, v));
    XorSymbols(u, v);
    ShortRun(XorSeq(u, v));
    forall i | 0 <= i < |u| ensures u[i] == v[i] {
      assert XorSeq(u, v)[i] == 0;
      XorEqual(u[i], v[i]);
    }
  }

  // ---------------------------------------------------------------- theorems

  /**
    Burst detection, for every prefix and every length: two accepted symbol strings of equal length
    that agree outside six consecutive positions are the same string.
   */
  lemma {:induction false} BurstDetected(hrp: string, d: seq<nat>, d': seq<nat>, at: nat)
    requires |d| == |d'| && Symbols(d) && Symbols(d')
    requires forall i :: 0 <= i < |d| && !(at <= i < at + 6) ==> d[i] == d'[i]
    requires Verifies(hrp, d) && Verifies(hrp, d')
    ensures d == d'
  {
    var from := if at <= |d| then at else |d|;
    var to := if at + 6 <= |d| then at + 6 else |d|;
    assert d'[..from] == d[..from] && d'[to..] == d[to..];
    Split(d, from, to);
    Split(d', from, to);
    MiddleUnique(hrp, d[..from], d[from..to], d'[from..to], d[to..]);
  }

  lemma {:induction false} Split(d: seq<nat>, from: nat, to: nat)
    requires from <= to <= |d|
    ensures d == d[..from] + d[from..to] + d[to..]
  {
  }

  lemma {:induction false} MiddleUnique(hrp: string, p: seq<nat>, w: seq<nat>, w': seq<nat>, t: seq<nat>)
    requires |w| == |w'| <= 6 && Symbols(w) && Symbols(w') && Symbols(p) && Symbols(t)
    requires Verifies(hrp, p + w + t) && Verifies(hrp, p + w' + t)
    ensures w == w'
  {
    hide PolymodFrom, HrpExpand, Symbols;
    var h := HrpExpand(hrp);
    var s := PolymodFrom(1, h + p);
    assert PolymodFrom(PolymodFrom(s, w), t) == 1 by { ThreeParts(h, p, w, t); }
    assert PolymodFrom(PolymodFrom(s, w'), t) == 1 by { ThreeParts(h, p, w', t); }
    SymbolsFit(p);
    SymbolsFit(w);
    SymbolsFit(w');
    SymbolsFit(t);
    HrpFits(hrp);
    ThirtyBits(1);
    PolymodFits(1, h + p);
    PolymodFits(s, w);
    PolymodFits(s, w');
    PolymodInjective(PolymodFrom(s, w), PolymodFrom(s, w'), t);
    WindowInjective(s, w, w');
  }

  lemma {:induction false} ThreeParts(h: seq<nat>, p: seq<nat>, w: seq<nat>, t: seq<nat>)
    ensures PolymodFrom(1, h + (p + w + t)) == PolymodFrom(PolymodFrom(PolymodFrom(1, h + p), w), t)
  {
    hide PolymodFrom;
    assert h + (p + w + t) == h + p + w + t;
    PolymodConcat(1, h + p + w, t);
    PolymodConcat(1, h + p, w);
  }

  /** Feeding the six digits of a 30-bit number into an empty register stores that number. */
  lemma {:induction false} DigitsRun(p: nat, n: nat)
    requires Fits(p) && n <= 6
    ensures Symbols(Digits(p, n))
    ensures PolymodFrom(0, Digits(p, n)) == Shr(p, 30 - 5 * n)
  {
    hide Shr, Low, Feed;
    if n == 0 {
    } else {
      DigitsRun(p, n - 1);
      var k := 30 - 5 * n;
      ShrNonNegative(p, k);
      var q := Shr(p, k);
      ShrAdd(p, k, 5);
      DigitFeeds(p, k);
      PolymodSnoc(0, Digits(p, n - 1), Low(q, 5));
    }
  }

  lemma {:induction false} DigitFeeds(p: nat, k: nat)
    requires Fits(p)
    ensures Shr(p, k) >= 0 && Shr(Shr(p, k), 5) >= 0
    ensures Low(Shr(p, k), 5) < 32
    ensures Feed(Shr(Shr(p, k), 5), Low(Shr(p, k), 5)) == Shr(p, k)
  {
    hide Shr, Low, Feed, Shl;
    ShrNonNegative(p, k);
    var q := Shr(p, k);
    ShrNonNegative(q, 5);
    ShrAdd(q, 5, 25);
    ShrAdd(p, k, 30);
    ShrAdd(p, 30, k);
    ShrZero(k);
    LowFits(q, 5);
    FiveBits(Low(q, 5));
    FeedAppends(Shr(q, 5), Low(q, 5));
    Decompose(q, 5);
  }

  /** A checksum verifies exactly when it is the one `Checksum` computes. */
  lemma {:induction false} ChecksumUnique(hrp: string, data: seq<nat>, c: seq<nat>)
    requires |c| == 6 && Symbols(c) && AllFit(data)
    ensures |Checksum(hrp, data)| == 6 && Symbols(Checksum(hrp, data))
    ensures Verifies(hrp, data + c) <==> c == Checksum(hrp, data)
  {
    hide PolymodFrom, HrpExpand, Digits, Xor;
    var h := HrpExpand(hrp);
    var m := PolymodFrom(1, h + data + SIX_ZEROS);
    var p := Xor(m, 1);
    HrpFits(hrp);
    ThirtyBits(0);
    ThirtyBits(1);
    PolymodFits(1, h + data + SIX_ZEROS);
    XorFits(m, 1);
    DigitsRun(p, 6);
    VerifiesByRun(hrp, data, c);
    VerifiesByRun(hrp, data, Digits(p, 6));
    if PolymodFrom(0, c) == p {
      WindowInjective(0, c, Digits(p, 6));
    }
  }

  lemma {:induction false} VerifiesByRun(hrp: string, data: seq<nat>, c: seq<nat>)
    requires |c| == 6
    ensures Verifies(hrp, data + c)
       <==> PolymodFrom(0, c) == Xor(PolymodFrom(1, HrpExpand(hrp) + data + SIX_ZEROS), 1)
  {
    hide PolymodFrom, HrpExpand, Xor;
    var v := HrpExpand(hrp) + data;
    var s := PolymodFrom(1, v);
    PolymodConcat(1, v, SIX_ZEROS);
    PolymodConcat(1, v, c);
    assert HrpExpand(hrp) + (data + c) == v + c;
    PolymodLinear(s, 0, SIX_ZEROS, c);
    XorZero(s);
    forall i | 0 <= i < 6 ensures Xor(0, c[i]) == c[i] { XorZero(c[i]); }
    assert XorSeq(SIX_ZEROS, c) == c;
    XorSolve(PolymodFrom(s, SIX_ZEROS), PolymodFrom(0, c));
  }

  lemma {:induction false} XorSolve(m: nat, r: nat)
    ensures Xor(m, r) == 1 <==> r == Xor(m, 1)
  {
    XorCancel(m, r);
    XorCancel(m, 1);
  }
}
