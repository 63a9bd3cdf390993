/**
  `convertBits` of `pkg/identity/address.go`: regrouping a byte string into symbols of another width.

  The method keeps the source's 64-bit accumulator, which overflows on every real input. It is proved
  to compute `Regroup`, which cuts the big-endian bit string of the input into groups and knows no
  accumulator.
 */
module ConvertBits {
  import opened Wrappers
  import opened Bits

  datatype Error = InvalidValue | InvalidPadding | NonZeroPadding

  // ---------------------------------------------------------------- bit strings

  /** The `w` low bits of `x`, most significant first. */
  function BitsOf(x: int, w: nat): (r: seq<bool>)
    ensures |r| == w
    decreases w
  {
    if w == 0 then [] else BitsOf(x / 2, w - 1) + [x % 2 == 1]
  }

  function FromBits(s: seq<bool>): nat {
    if s == [] then 0 else 2 * FromBits(s[..|s| - 1]) + if s[|s| - 1] then 1 else 0
  }

  function BitString(data: seq<int>, w: nat): seq<bool> {
    if data == [] then [] else BitsOf(data[0], w) + BitString(data[1..], w)
  }

  function Zeros(n: nat): (r: seq<bool>)
    ensures |r| == n
  {
    if n == 0 then [] else Zeros(n - 1) + [false]
  }

  /** The numbers formed by the complete groups of `to` bits, and the incomplete rest. */
  function Whole(s: seq<bool>, to: nat): seq<nat>
    requires to > 0
  {
    if |s| < to then [] else [FromBits(s[..to])] + Whole(s[to..], to)
  }

  function Leftover(s: seq<bool>, to: nat): (r: seq<bool>)
    requires to > 0
    ensures |r| < to
  {
    if |s| < to then s else Leftover(s[to..], to)
  }

  predicate AllWide(data: seq<int>, w: nat) {
    forall i :: 0 <= i < |data| ==> Shr(data[i], w) == 0
  }

  function Padded(s: seq<bool>, to: nat): seq<nat>
    requires to > 0
  {
    var rest := Leftover(s, to);
    Whole(s, to) + if rest == [] then [] else [FromBits(rest + Zeros(to - |rest|))]
  }

  function Regroup(data: seq<int>, from: nat, to: nat, pad: bool): Result<seq<nat>, Error>
    requires to > 0
  {
    if !AllWide(data, from) then Err(InvalidValue)
    else
      var s := BitString(data, from);
      var rest := Leftover(s, to);
      if pad then Ok(Padded(s, to))
      else if |rest| >= from then Err(InvalidPadding)
      else if true in rest then Err(NonZeroPadding)
      else Ok(Whole(s, to))
  }

  // ---------------------------------------------------------------- laws of bit strings

  lemma {:induction false} BitsSplit(x: int, a: nat, b: nat)
    ensures BitsOf(x, a + b) == BitsOf(Shr(x, b), a) + BitsOf(x, b)
    decreases b
  {
    if b > 0 { BitsSplit(x / 2, a, b - 1); }
  }

  lemma {:induction false} BitsOfLow(x: int, y: int, w: nat)
    requires Low(x, w) == Low(y, w)
    ensures BitsOf(x, w) == BitsOf(y, w)
    decreases w
  {
    if w > 0 {
      LowHalf(x, w);
      LowHalf(y, w);
      BitsOfLow(x / 2, y / 2, w - 1);
    }
  }

  lemma {:induction false} FromBitsOf(x: int, w: nat)
    ensures FromBits(BitsOf(x, w)) == Low(x, w)
    decreases w
  {
    if w > 0 {
      FromBitsOf(x / 2, w - 1);
      assert BitsOf(x, w)[..w - 1] == BitsOf(x / 2, w - 1);
    }
  }

  lemma {:induction false} BitsOfFrom(s: seq<bool>)
    ensures BitsOf(FromBits(s), |s|) == s
    ensures Shr(FromBits(s), |s|) == 0
  {
    if s != [] {
      var n := |s| - 1;
      BitsOfFrom(s[..n]);
      assert FromBits(s) / 2 == FromBits(s[..n]);
      assert s == s[..n] + [s[n]];
    }
  }

  lemma {:induction false} FromBitsZero(s: seq<bool>)
    ensures FromBits(s) == 0 <==> true !in s
  {
    if s != [] {
      var n := |s| - 1;
      FromBitsZero(s[..n]);
      assert s == s[..n] + [s[n]];
    }
  }

  lemma {:induction false} NoTrue(s: seq<bool>)
    requires true !in s
    ensures s == Zeros(|s|)
  {
    if s != [] {
      var n := |s| - 1;
      assert s == s[..n] + [s[n]];
      assert !s[n] by { assert s[n] in s; }
      NoTrue(s[..n]);
    }
  }

  lemma {:induction false} NoTrueInZeros(n: nat)
    ensures true !in Zeros(n)
  {
    if n > 0 { NoTrueInZeros(n - 1); }
  }

  lemma {:induction false} BitsOfShl(x: int, j: nat, k: nat)
    ensures BitsOf(Shl(x, k), j + k) == BitsOf(x, j) + Zeros(k)
    decreases k
  {
    if k > 0 {
      ShlHalf(x, k);
      BitsOfShl(x, j, k - 1);
    }
  }

  lemma {:induction false} BitStringSnoc(data: seq<int>, x: int, w: nat)
    ensures BitString(data + [x], w) == BitString(data, w) + BitsOf(x, w)
    decreases |data|
  {
    hide BitsOf;
    if data == [] {
      assert [x][1..] == [];
      assert data + [x] == [x];
    } else {
      BitStringSnoc(data[1..], x, w);
      assert (data + [x])[1..] == data[1..] + [x];
    }
  }

  /** Cutting a bit string built from groups gives the groups back. */
  lemma {:induction false} WholeOf(r: seq<int>, tail: seq<bool>, w: nat)
    requires w > 0 && |tail| < w && AllWide(r, w)
    requires forall i :: 0 <= i < |r| ==> r[i] >= 0
    ensures Whole(BitString(r, w) + tail, w) == r
    ensures Leftover(BitString(r, w) + tail, w) == tail
    decreases |r|
  {
    hide BitsOf, FromBits, Low, Shr;
    var s := BitString(r, w) + tail;
    if r == [] {
      assert s == tail;
    } else {
      WholeOf(r[1..], tail, w);
      assert s[..w] == BitsOf(r[0], w);
      assert s[w..] == BitString(r[1..], w) + tail;
      FromBitsOf(r[0], w);
      LowOfFit(r[0], w);
    }
  }

  // ---------------------------------------------------------------- the wrapping accumulator

  /** The 64-bit two's complement integer with the low 64 bits of `x`. */
  function Wrap64(x: int): int {
    var l := Low(x, 64);
    if Bit(x, 63) then l - 0x1_0000_0000_0000_0000 else l
  }

  lemma {:induction false} LowSubPower(x: int, j: nat, k: nat)
    requires k <= j
    ensures Low(x - Shl(1, j), k) == Low(x, k)
    decreases k
  {
    if k > 0 {
      ShlHalf(1, j);
      assert (x - Shl(1, j)) / 2 == x / 2 - Shl(1, j - 1);
      LowSubPower(x / 2, j - 1, k - 1);
    }
  }

  lemma {:induction false} SixtyFour()
    ensures Shl(1, 64) == 0x1_0000_0000_0000_0000
  {
    ShlFive(1);
    ShlAdd(1, 5, 5);
    ShlFive(Shl(1, 5));
    ShlAdd(1, 10, 10);
    ShlTen(Shl(1, 10));
    ShlAdd(1, 20, 10);
    ShlTen(Shl(1, 20));
    ShlAdd(1, 30, 10);
    ShlTen(Shl(1, 30));
    ShlAdd(1, 40, 10);
    ShlTen(Shl(1, 40));
    ShlAdd(1, 50, 10);
    ShlTen(Shl(1, 50));
    assert Shl(1, 64) == 2 * Shl(1, 63) == 4 * Shl(1, 62);
    assert Shl(1, 62) == 2 * Shl(1, 61) == 4 * Shl(1, 60);
  }

  lemma {:induction false} ShlTen(x: int)
    ensures Shl(x, 10) == 1024 * x
  {
    ShlAdd(x, 5, 5);
    ShlFive(x);
    ShlFive(Shl(x, 5));
  }

  /** Wrapping does not change the low bits, which are all the algorithm reads. */
  lemma {:induction false} WrapLow(x: int, k: nat)
    requires k <= 64
    ensures Low(Wrap64(x), k) == Low(x, k)
  {
    hide Low, Shr, Shl;
    SixtyFour();
    LowOfLow(x, 64, k);
    LowSubPower(Low(x, 64), 64, k);
  }

  lemma {:induction false} WrapBits(x: int, k: nat)
    requires k <= 64
    ensures BitsOf(Wrap64(x), k) == BitsOf(x, k)
  {
    hide *;
    WrapLow(x, k);
    BitsOfLow(Wrap64(x), x, k);
  }

  // ---------------------------------------------------------------- the loop

  /** Shifting a byte into the accumulator appends its bits. */
  lemma {:induction false} PushBits(acc: int, b: Byte, from: nat, bits: nat)
    requires Shr(b, from) == 0 && bits + from <= 64
    ensures BitsOf(Wrap64(Shl(acc, from) + b), bits + from) == BitsOf(acc, bits) + BitsOf(b, from)
  {
    hide *;
    var x := Shl(acc, from) + b;
    WrapBits(x, bits + from);
    BitsSplit(x, bits, from);
    Compose(acc, b, from);
    LowOfFit(b, from);
    BitsOfLow(x, b, from);
  }

  /** Reading the next group takes the leading bits and leaves the others. */
  lemma {:induction false} PopBits(acc: int, to: nat, bits: nat)
    ensures BitsOf(acc, to + bits) == BitsOf(Low(Shr(acc, bits), to), to) + BitsOf(acc, bits)
    ensures Shr(Low(Shr(acc, bits), to), to) == 0
  {
    hide *;
    BitsSplit(acc, to, bits);
    LowOfLow(Shr(acc, bits), to, to);
    BitsOfLow(Shr(acc, bits), Low(Shr(acc, bits), to), to);
    LowFits(Shr(acc, bits), to);
  }

  /** The last, incomplete group. */
  lemma {:induction false} LastBits(acc: int, to: nat, bits: nat)
    requires bits <= to <= 8
    ensures Low(Wrap64(Shl(acc, to - bits)), to) == FromBits(BitsOf(acc, bits) + Zeros(to - bits))
    ensures Low(Wrap64(Shl(acc, to - bits)), to) == 0 <==> true !in BitsOf(acc, bits)
  {
    hide *;
    var x := Shl(acc, to - bits);
    WrapLow(x, to);
    FromBitsOf(x, to);
    BitsOfShl(acc, bits, to - bits);
    FromBitsZero(BitsOf(acc, bits) + Zeros(to - bits));
    NoTrueInZeros(to - bits);
  }

  lemma {:induction false} LowIsByte(x: int, to: nat)
    requires to <= 8
    ensures Low(x, to) < 256
  {
    hide Shl;
    LowBelow(x, to);
    assert 256 == 2 * 128;
    PowerMono(to);
  }

  lemma {:induction false} LowBelow(x: int, k: nat)
    ensures Low(x, k) < Shl(1, k)
    decreases k
  {
    if k > 0 { LowBelow(x / 2, k - 1); }
  }

  lemma {:induction false} PowerMono(to: nat)
    requires to <= 8
    ensures Shl(1, to) <= 256
  {
    ShlFive(1);
    assert Shl(1, 8) == 2 * Shl(1, 7) == 4 * Shl(1, 6) == 8 * Shl(1, 5);
    assert Shl(1, 4) == 2 * Shl(1, 3) == 4 * Shl(1, 2) == 8 * Shl(1, 1);
  }

  lemma {:induction false} WideSnoc(data: seq<int>, x: int, w: nat)
    requires AllWide(data, w) && Shr(x, w) == 0
    ensures AllWide(data + [x], w)
  {
  }

  lemma {:induction false} NotWide(data: seq<int>, i: nat, from: nat, to: nat, pad: bool)
    requires to > 0 && i < |data| && Shr(data[i], from) != 0
    ensures Regroup(data, from, to, pad) == Err(InvalidValue)
  {
  }

  lemma {:induction false} Nothing(from: nat, to: nat)
    ensures AllWide([], from) && BitString([], from) == BitString([], to) + BitsOf(0, 0)
  {
  }

  /** What the groups read so far and the bits still held say about the result. */
  lemma {:induction false} RegroupBy(data: seq<Byte>, from: nat, to: nat, ret: seq<Byte>, rest: seq<bool>)
    requires to > 0 && AllWide(data, from) && AllWide(ret, to) && |rest| < to
    requires BitString(data, from) == BitString(ret, to) + rest
    ensures Regroup(data, from, to, true)
         == Ok(ret + if rest == [] then [] else [FromBits(rest + Zeros(to - |rest|))])
    ensures Regroup(data, from, to, false)
         == if |rest| >= from then Err(InvalidPadding) else if true in rest then Err(NonZeroPadding) else Ok(ret)
  {
    hide BitString, FromBits, Whole, Leftover, Shr;
    WholeOf(ret, rest, to);
  }

  method Convert(data: seq<Byte>, from: nat, to: nat, pad: bool) returns (r: Result<seq<Byte>, Error>)
    requires 1 <= from <= 8 && 1 <= to <= 8
    ensures r == Regroup(data, from, to, pad)
  {
    hide *;
    Nothing(from, to);
    Nothing(to, to);
    assert data[..0] == [];
    var acc := 0;
    var bits := 0;
    var ret: seq<Byte> := [];
    for i := 0 to |data|
      invariant 0 <= bits < to
      invariant AllWide(data[..i], from)
      invariant AllWide(ret, to)
      invariant BitString(ret, to) + BitsOf(acc, bits) == BitString(data[..i], from)
    {
      var b := data[i];
      if Shr(b, from) != 0 {
        NotWide(data, i, from, to, pad);
        return Err(InvalidValue);
      }
      ghost var seen := BitString(data[..i], from);
      PushBits(acc, b, from, bits);
      acc := Wrap64(Shl(acc, from) + b);
      bits := bits + from;
      assert data[..i + 1] == data[..i] + [b];
      BitStringSnoc(data[..i], b, from);
      WideSnoc(data[..i], b, from);
      while bits >= to
        invariant 0 <= bits < to + from
        invariant AllWide(ret, to)
        invariant BitString(ret, to) + BitsOf(acc, bits) == seen + BitsOf(b, from)
      {
        bits := bits - to;
        PopBits(acc, to, bits);
        LowIsByte(Shr(acc, bits), to);
        BitStringSnoc(ret, Low(Shr(acc, bits), to), to);
        WideSnoc(ret, Low(Shr(acc, bits), to), to);
        ret := ret + [Low(Shr(acc, bits), to)];
      }
    }
    assert data[..|data|] == data;
    RegroupBy(data, from, to, ret, BitsOf(acc, bits));
    LastBits(acc, to, bits);
    LowIsByte(Wrap64(Shl(acc, to - bits)), to);
    assert ret + [] == ret;
    if pad {
      if bits > 0 {
        ret := ret + [Low(Wrap64(Shl(acc, to - bits)), to)];
      }
    } else {
      if bits >= from {
        return Err(InvalidPadding);
      }
      if Low(Wrap64(Shl(acc, to - bits)), to) != 0 {
        return Err(NonZeroPadding);
      }
    }
    return Ok(ret);
  }

  // ---------------------------------------------------------------- theorems

  ghost predicate IsByteSeq(r: seq<int>) {
    forall i :: 0 <= i < |r| ==> 0 <= r[i] < 256
  }

  /** The padded regrouping spells the input bits followed by fewer than `to` zeros. */
  lemma {:induction false} PaddedBits(s: seq<bool>, to: nat)
    requires to > 0
    ensures AllWide(Padded(s, to), to)
    ensures exists k: nat :: k < to && BitString(Padded(s, to), to) == s + Zeros(k)
    decreases |s|
  {
    hide BitsOf, FromBits, Shr, Zeros;
    if |s| >= to {
      PaddedBits(s[to..], to);
      var k: nat :| k < to && BitString(Padded(s[to..], to), to) == s[to..] + Zeros(k);
      BitsOfFrom(s[..to]);
      assert Padded(s, to) == [FromBits(s[..to])] + Padded(s[to..], to);
      assert BitString(Padded(s, to), to) == s[..to] + (s[to..] + Zeros(k)) == s + Zeros(k);
    } else if s == [] {
      NoZeros();
      assert BitString(Padded(s, to), to) == s + Zeros(0);
    } else {
      var t := s + Zeros(to - |s|);
      BitsOfFrom(t);
      assert BitString([FromBits(t)], to) == t;
    }
  }

  lemma {:induction false} NoZeros()
    ensures Zeros(0) == []
  {
  }

  /** Regrouping to a narrower width with padding and back without it is the identity. */
  lemma {:induction false} RegroupInverse(d: seq<Byte>, a: nat, b: nat)
    requires 1 <= b <= a && AllWide(d, a)
    ensures Regroup(d, a, b, true).Ok?
    ensures Regroup(Regroup(d, a, b, true).value, b, a, false) == Ok(d)
  {
    hide BitString, Whole, Leftover, Padded, Zeros, Shr;
    var s := BitString(d, a);
    PaddedBits(s, b);
    var k: nat :| k < b && BitString(Padded(s, b), b) == s + Zeros(k);
    WholeOf(d, Zeros(k), a);
    NoTrueInZeros(k);
  }

  /** What regroups to a wider width without padding is the padded regrouping of its result. */
  lemma {:induction false} RegroupCanonical(d: seq<Byte>, a: nat, b: nat)
    requires 1 <= b <= a
    requires Regroup(d, b, a, false).Ok?
    ensures Regroup(Regroup(d, b, a, false).value, a, b, true) == Ok(d)
  {
    hide BitString, Whole, Leftover, Padded, Zeros, Shr;
    var s := BitString(d, b);
    var r := Whole(s, a);
    var rest := Leftover(s, a);
    WholeAndLeftover(s, a);
    NoTrue(rest);
    CutTail(d, BitString(r, a), |rest|, b);
  }

  lemma {:induction false} WholeAndLeftover(s: seq<bool>, to: nat)
    requires to > 0
    ensures s == BitString(Whole(s, to), to) + Leftover(s, to)
    ensures AllWide(Whole(s, to), to)
    decreases |s|
  {
    hide BitsOf, FromBits, Shr;
    if |s| >= to {
      WholeAndLeftover(s[to..], to);
      BitsOfFrom(s[..to]);
      var x, r := FromBits(s[..to]), Whole(s[to..], to);
      assert ([x] + r)[1..] == r;
      assert BitString([x] + r, to) == s[..to] + BitString(r, to);
      assert s == s[..to] + (BitString(r, to) + Leftover(s[to..], to));
    }
  }

  /** Dropping fewer than `b` trailing zeros from grouped bits is undone by padding. */
  lemma {:induction false} CutTail(d: seq<Byte>, p: seq<bool>, k: nat, b: nat)
    requires 1 <= b && k < b && AllWide(d, b)
    requires BitString(d, b) == p + Zeros(k)
    ensures Padded(p, b) == d
  {
    hide BitString, Whole, Leftover, Shr, FromBits;
    if k == 0 {
      assert p == p + Zeros(k);
      WholeOf(d, [], b);
      assert BitString(d, b) + [] == p;
      assert Padded(p, b) == d + [];
    } else {
      assert d != [] by { EmptyBits(b); }
      var n := |d| - 1;
      var init, last := d[..n], d[n];
      assert d == init + [last];
      BitStringSnoc(init, last, b);
      var bs := BitsOf(last, b);
      var head := bs[..b - k];
      assert p == BitString(init, b) + head && bs == head + Zeros(k) by {
        var q := BitString(init, b);
        assert q + bs == p + Zeros(k);
        assert |p| == |q| + b - k;
        assert p == (q + bs)[..|q| + b - k];
        assert Zeros(k) == (q + bs)[|q| + b - k..];
      }
      WholeOf(init, head, b);
      FromBitsOf(last, b);
      LowOfFit(last, b);
    }
  }

  lemma {:induction false} EmptyBits(b: nat)
    ensures BitString([], b) == []
  {
  }

  // ---------------------------------------------------------------- the number behind the groups

  /** The number whose digits of `w` bits are `d`, most significant first. */
  function Number(d: seq<int>, w: nat): int {
    if d == [] then 0 else Shl(Number(d[..|d| - 1], w), w) + d[|d| - 1]
  }

  lemma {:induction false} FromBitsConcat(a: seq<bool>, b: seq<bool>)
    ensures FromBits(a + b) == Shl(FromBits(a), |b|) + FromBits(b)
    decreases |b|
  {
    if b == [] {
      assert a + b == a;
    } else {
      var n := |b| - 1;
      FromBitsConcat(a, b[..n]);
      assert (a + b)[..|a + b| - 1] == a + b[..n];
    }
  }

  lemma {:induction false} NumberBits(d: seq<int>, w: nat)
    requires AllWide(d, w) && forall i :: 0 <= i < |d| ==> d[i] >= 0
    ensures FromBits(BitString(d, w)) == Number(d, w)
    decreases |d|
  {
    hide BitsOf, Shr, Shl, Low, BitString;
    if d == [] {
      EmptyBits(w);
    } else {
      var n := |d| - 1;
      NumberBits(d[..n], w);
      assert d == d[..n] + [d[n]];
      BitStringSnoc(d[..n], d[n], w);
      FromBitsConcat(BitString(d[..n], w), BitsOf(d[n], w));
      FromBitsOf(d[n], w);
      LowOfFit(d[n], w);
    }
  }

  lemma {:induction false} ZerosValue(k: nat)
    ensures FromBits(Zeros(k)) == 0
  {
    NoTrueInZeros(k);
    FromBitsZero(Zeros(k));
  }

  /** Padded regrouping writes the same number, shifted by fewer bits than one group. */
  lemma {:induction false} RegroupNumber(d: seq<Byte>, from: nat, to: nat)
    requires to > 0 && AllWide(d, from)
    ensures Regroup(d, from, to, true).Ok?
    ensures exists k: nat :: k < to && Number(Regroup(d, from, to, true).value, to) == Shl(Number(d, from), k)
  {
    hide BitString, Padded, Zeros, Shr, Shl, FromBits, Number, Leftover, Whole;
    var s := BitString(d, from);
    PaddedBits(s, to);
    var k: nat :| k < to && BitString(Padded(s, to), to) == s + Zeros(k);
    NumberBits(d, from);
    NumberBits(Padded(s, to), to);
    FromBitsConcat(s, Zeros(k));
    ZerosValue(k);
    assert Number(Padded(s, to), to) == Shl(Number(d, from), k);
  }
}
