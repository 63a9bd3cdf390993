/**
  Addresses of `pkg/identity/address.go`: a 32-byte public key written as `xleaks1` followed by 52 data
  symbols and a six-symbol checksum. Unlike BIP-173, the separator `1` is part of the checksummed prefix.

  A text is a string of bytes, one character of the model for each byte. A byte beyond ASCII is refused like any other
  that is not printable, whatever character it is a part of.

  `ToAddress` and `ToKey` give the meaning; the methods with the source's names and loops compute them.
 */
module Address {
  import opened Wrappers
  import opened Bits
  import opened Bech32
  import opened ConvertBits

  const HRP := "xleaks1"
  const CHARSET := "qpzry9x8gf2tvdw0s3jn54khce6mua7l"

  datatype AddressError =
    | KeyLength | DataValue | TooLong | BadCharacter | MixedCase | BadSeparator
    | NotInCharset | BadChecksum | BadPrefix | BadGrouping(cause: Error)

  // ---------------------------------------------------------------- characters

  function IndexOf(s: string, c: char): int {
    if s == "" then -1
    else if s[0] == c then 0
    else
      var k := IndexOf(s[1..], c);
      if k == -1 then -1 else k + 1
  }

  function CharsetRev(c: char): int {
    IndexOf(CHARSET, c)
  }

  lemma {:induction false} IndexOfSound(s: string, c: char)
    ensures -1 <= IndexOf(s, c) < |s|
    ensures IndexOf(s, c) != -1 ==> s[IndexOf(s, c)] == c
    ensures IndexOf(s, c) == -1 <==> c !in s
    ensures forall j :: 0 <= j < IndexOf(s, c) ==> s[j] != c
    decreases |s|
  {
    if s != "" {
      IndexOfSound(s[1..], c);
      assert s == [s[0]] + s[1..];
    }
  }

  lemma {:induction false} CharsetDistinct(i: nat, j: nat)
    requires i < j < 32
    ensures |CHARSET| == 32 && CHARSET[i] != CHARSET[j]
  {
  }

  function CharOf(d: nat): char
    requires d < 32
  {
    CHARSET[d]
  }

  lemma {:induction false} CharsetInverse(d: nat)
    requires d < 32
    ensures CharsetRev(CharOf(d)) == d
  {
    hide IndexOf;
    IndexOfSound(CHARSET, CHARSET[d]);
    var k := IndexOf(CHARSET, CHARSET[d]);
    if k < d { CharsetDistinct(k, d); }
  }

  function LowerChar(c: char): char {
    if 'A' <= c <= 'Z' then (c as int + 32) as char else c
  }

  function UpperChar(c: char): char {
    if 'a' <= c <= 'z' then (c as int - 32) as char else c
  }

  function Lower(s: string): (r: string)
    ensures |r| == |s| && forall i :: 0 <= i < |r| ==> r[i] == LowerChar(s[i])
  {
    seq(|s|, i requires 0 <= i < |s| => LowerChar(s[i]))
  }

  function Upper(s: string): (r: string)
    ensures |r| == |s| && forall i :: 0 <= i < |r| ==> r[i] == UpperChar(s[i])
  {
    seq(|s|, i requires 0 <= i < |s| => UpperChar(s[i]))
  }

  predicate Printable(s: string) {
    forall i :: 0 <= i < |s| ==> 33 <= s[i] as int <= 126
  }

  function LastOne(s: string): (r: int)
    ensures -1 <= r < |s|
    ensures r >= 0 ==> s[r] == '1'
    ensures forall j :: r < j < |s| ==> s[j] != '1'
  {
    if s == "" then -1
    else if s[|s| - 1] == '1' then |s| - 1
    else LastOne(s[..|s| - 1])
  }

  function Chars(d: seq<nat>): (r: string)
    requires Symbols(d)
    ensures |r| == |d| && forall i :: 0 <= i < |d| ==> r[i] == CharOf(d[i])
  {
    seq(|d|, i requires 0 <= i < |d| => CharOf(d[i]))
  }

  predicate InCharset(s: string) {
    forall i :: 0 <= i < |s| ==> CharsetRev(s[i]) != -1
  }

  function Values(s: string): (r: seq<nat>)
    requires InCharset(s)
    ensures |r| == |s| && forall i :: 0 <= i < |s| ==> r[i] == CharsetRev(s[i])
    ensures Symbols(r)
  {
    CharsetIndices(s);
    seq(|s|, i requires 0 <= i < |s| => CharsetRev(s[i]))
  }

  lemma {:induction false} CharsetIndices(s: string)
    requires InCharset(s)
    ensures forall i :: 0 <= i < |s| ==> 0 <= CharsetRev(s[i]) < 32 && CharOf(CharsetRev(s[i])) == s[i]
  {
    hide IndexOf;
    forall i | 0 <= i < |s| ensures 0 <= CharsetRev(s[i]) < 32 && CharOf(CharsetRev(s[i])) == s[i] {
      IndexOfSound(CHARSET, s[i]);
    }
  }

  lemma {:induction false} ValuesOfChars(d: seq<nat>)
    requires Symbols(d)
    ensures InCharset(Chars(d)) && Values(Chars(d)) == d
  {
    hide CharsetRev;
    forall i | 0 <= i < |d| ensures CharsetRev(Chars(d)[i]) == d[i] { CharsetInverse(d[i]); }
  }

  lemma {:induction false} CharsOfValues(s: string)
    requires InCharset(s)
    ensures Chars(Values(s)) == s
  {
    hide CharsetRev;
    CharsetIndices(s);
  }

  // ---------------------------------------------------------------- meaning

  function Encode(hrp: string, data: seq<Byte>): Result<string, AddressError> {
    if !Symbols(data) then Err(DataValue)
    else
      ChecksumSymbols(hrp, data);
      Ok(hrp + Chars(data + Checksum(hrp, data)))
  }

  lemma {:induction false} ChecksumSymbols(hrp: string, data: seq<Byte>)
    ensures |Checksum(hrp, data)| == 6 && Symbols(Checksum(hrp, data))
  {
    hide Checksum;
    BytesFit(data);
    ChecksumUnique(hrp, data, SIX_ZEROS);
  }

  lemma {:induction false} BytesFit(data: seq<Byte>)
    ensures AllFit(data)
  {
    hide Shr;
    forall i | 0 <= i < |data| ensures Fits(data[i]) { ThirtyBits(data[i]); }
  }

  datatype Decoded = Decoded(hrp: string, data: seq<nat>)

  function DecodeParts(hrp: string, chars: string): Result<Decoded, AddressError>
    requires |chars| >= 6
  {
    if !InCharset(chars) then Err(NotInCharset)
    else
      var values := Values(chars);
      if !Verifies(hrp, values) then Err(BadChecksum)
      else Ok(Decoded(hrp, values[..|values| - 6]))
  }

  function Decode(bech: string): Result<Decoded, AddressError> {
    if |bech| > 90 then Err(TooLong)
    else if !Printable(bech) then Err(BadCharacter)
    else
      var low := Lower(bech);
      if low != bech && Upper(bech) != bech then Err(MixedCase)
      else
        var pos := LastOne(low);
        if pos < 1 || pos + 7 > |low| then Err(BadSeparator)
        else DecodeParts(low[..pos + 1], low[pos + 1..])
  }

  function ToAddress(key: seq<Byte>): Result<string, AddressError> {
    if |key| != 32 then Err(KeyLength)
    else match Regroup(key, 8, 5, true)
      case Err(e) => Err(BadGrouping(e))
      case Ok(data) => GroupsAreBytes(key, 8, 5, true); Encode(HRP, data)
  }

  function ToKey(address: string): Result<seq<Byte>, AddressError> {
    match Decode(address)
    case Err(e) => Err(e)
    case Ok(d) =>
      if d.hrp != HRP then Err(BadPrefix)
      else match Regroup(d.data, 5, 8, false)
        case Err(e) => Err(BadGrouping(e))
        case Ok(key) =>
          GroupsAreBytes(d.data, 5, 8, false);
          if |key| != 32 then Err(KeyLength) else Ok(key)
  }

  // ---------------------------------------------------------------- lengths and widths

  lemma {:induction false} GroupsAreBytes(data: seq<int>, from: nat, to: nat, pad: bool)
    requires 1 <= to <= 8 && Regroup(data, from, to, pad).Ok?
    ensures IsByteSeq(Regroup(data, from, to, pad).value)
    ensures AllWide(Regroup(data, from, to, pad).value, to)
  {
    hide Whole, Padded, BitString, Leftover, Shr;
    var r := Regroup(data, from, to, pad).value;
    PaddedBits(BitString(data, from), to);
    WholeAndLeftover(BitString(data, from), to);
    forall i | 0 <= i < |r| ensures 0 <= r[i] < 256 {
      LowOfFit(r[i], to);
      LowIsByte(r[i], to);
    }
  }

  lemma {:induction false} BitStringLength(r: seq<int>, w: nat)
    ensures |BitString(r, w)| == |r| * w
    decreases |r|
  {
    hide BitsOf;
    if r != [] { BitStringLength(r[1..], w); }
  }

  lemma {:induction false} BytesAreWide(key: seq<Byte>)
    ensures AllWide(key, 8)
  {
    forall i | 0 <= i < |key| ensures Shr(key[i], 8) == 0 {
      ShlFive(1);
      assert Shl(1, 8) == 2 * Shl(1, 7) == 4 * Shl(1, 6) == 8 * Shl(1, 5);
      BelowPowerFits(key[i], 8);
    }
  }

  lemma {:induction false} WideAreSymbols(data: seq<Byte>)
    ensures AllWide(data, 5) <==> Symbols(data)
  {
    hide Shr;
    forall i | 0 <= i < |data| ensures Shr(data[i], 5) == 0 <==> data[i] < 32 { FiveBits(data[i]); }
  }

  function KeySymbols(key: seq<Byte>): (data: seq<Byte>)
    requires |key| == 32
    ensures Regroup(key, 8, 5, true) == Ok(data)
    ensures |data| == 52 && Symbols(data)
  {
    BytesAreWide(key);
    GroupsAreBytes(key, 8, 5, true);
    KeySymbolsLength(key);
    WideAreSymbols(Regroup(key, 8, 5, true).value);
    Regroup(key, 8, 5, true).value
  }

  lemma {:induction false} KeySymbolsLength(key: seq<Byte>)
    requires |key| == 32 && AllWide(key, 8)
    ensures |Regroup(key, 8, 5, true).value| == 52
  {
    hide BitString, Whole, Leftover, Padded, Zeros, Shr;
    var s := BitString(key, 8);
    BitStringLength(key, 8);
    PaddedBits(s, 5);
    var k: nat :| k < 5 && BitString(Padded(s, 5), 5) == s + Zeros(k);
    BitStringLength(Padded(s, 5), 5);
  }

  predicate Plain(c: char) {
    33 <= c as int <= 126 && LowerChar(c) == c
  }

  /** Charset symbols are lower case, printable and never the separator. */
  lemma {:induction false} CharsetPlain(d: nat)
    requires d < 32
    ensures Plain(CharOf(d)) && CharOf(d) != '1'
  {
  }

  lemma {:induction false} CharsPlain(d: seq<nat>)
    requires Symbols(d)
    ensures forall i :: 0 <= i < |d| ==> Plain(Chars(d)[i]) && Chars(d)[i] != '1'
  {
    hide Plain, CharOf;
    forall i | 0 <= i < |d| ensures Plain(Chars(d)[i]) && Chars(d)[i] != '1' { CharsetPlain(d[i]); }
  }

  lemma {:induction false} PrefixPlain(h: string)
    requires h == HRP
    ensures |h| == 7 && h[6] == '1' && forall i :: 0 <= i < |h| ==> Plain(h[i])
  {
  }

  lemma {:induction false} PlainText(a: string)
    requires forall i :: 0 <= i < |a| ==> Plain(a[i])
    ensures Printable(a) && Lower(a) == a
  {
  }

  lemma {:induction false} AddressText(h: string, d: seq<nat>)
    requires Symbols(d) && h == HRP
    ensures |h| == 7 && Printable(h + Chars(d)) && Lower(h + Chars(d)) == h + Chars(d)
    ensures LastOne(h + Chars(d)) == 6
  {
    hide Plain, Chars, LastOne, Lower, Printable;
    PrefixPlain(h);
    CharsPlain(d);
    var t := Chars(d);
    var a := h + t;
    forall i | 0 <= i < |a| ensures Plain(a[i]) && (i >= 7 ==> a[i] != '1') {
      if i < 7 { assert a[i] == h[i]; } else { assert a[i] == t[i - 7]; }
    }
    PlainText(a);
    assert a[6] == '1';
  }

  // ---------------------------------------------------------------- theorems

  /** What an address looks like. */
  lemma {:induction false} AddressShape(key: seq<Byte>)
    requires |key| == 32
    ensures |Checksum(HRP, KeySymbols(key))| == 6 && Symbols(Checksum(HRP, KeySymbols(key)))
    ensures ToAddress(key) == Ok(HRP + Chars(KeySymbols(key) + Checksum(HRP, KeySymbols(key))))
  {
    hide Regroup, Checksum, Symbols;
    ChecksumSymbols(HRP, KeySymbols(key));
  }

  /** Decoding a well-formed text gives the symbols before the checksum. */
  lemma {:induction false} DecodeText(data: seq<Byte>)
    requires |data| == 52 && Symbols(data)
    ensures |Checksum(HRP, data)| == 6 && Symbols(Checksum(HRP, data))
    ensures Decode(HRP + Chars(data + Checksum(HRP, data))) == Ok(Decoded(HRP, data))
  {
    hide Checksum, Verifies, CharsetRev, LastOne, AllFit, Printable, Lower, Upper;
    BytesFit(data);
    ChecksumUnique(HRP, data, SIX_ZEROS);
    var c := Checksum(HRP, data);
    ChecksumUnique(HRP, data, c);
    var v := data + c;
    var a := HRP + Chars(v);
    AddressText(HRP, v);
    ValuesOfChars(v);
    assert a[..7] == HRP && a[7..] == Chars(v);
    assert v[..52] == data;
  }

  /** Reading back the address of a key gives the key. */
  lemma {:induction false} KeyRoundTrip(key: seq<Byte>)
    requires |key| == 32
    ensures ToAddress(key).Ok?
    ensures ToKey(ToAddress(key).value) == Ok(key)
  {
    hide Regroup, Checksum, Symbols, Decode, AllWide;
    AddressShape(key);
    var data := KeySymbols(key);
    DecodeText(data);
    BytesAreWide(key);
    RegroupInverse(key, 8, 5);
  }

  lemma {:induction false} ValuesBytes(s: string)
    requires InCharset(s)
    ensures IsByteSeq(Values(s)) && Symbols(Values(s))
  {
  }

  /** A prefix and a verified symbol string whose last six symbols are the checksum. */
  ghost predicate Spells(low: string, d: Decoded, chars: string) {
    && |chars| >= 6 && InCharset(chars)
    && low == d.hrp + chars
    && Verifies(d.hrp, Values(chars))
    && d.data == Values(chars)[..|chars| - 6]
  }

  /** What a successful decoding says about the text. */
  lemma {:induction false} DecodeInverse(address: string, d: Decoded) returns (chars: string)
    requires Decode(address) == Ok(d)
    ensures Spells(Lower(address), d, chars)
    ensures Lower(address) == address || Upper(address) == address
  {
    hide Verifies, InCharset, Values, LastOne, Printable, Lower, Upper, DecodeParts, Spells;
    var low := Lower(address);
    var pos := LastOne(low);
    chars := low[pos + 1..];
    PartsInverse(low, pos + 1, d);
  }

  lemma {:induction false} PartsInverse(low: string, n: nat, d: Decoded)
    requires n + 6 <= |low| && DecodeParts(low[..n], low[n..]) == Ok(d)
    ensures Spells(low, d, low[n..])
  {
    hide Verifies, InCharset, Values;
  }

  /** Every accepted address is, up to letter case, the address of the key it decodes to. */
  lemma {:induction false} Canonical(address: string, key: seq<Byte>)
    requires ToKey(address) == Ok(key)
    ensures |key| == 32 && ToAddress(key) == Ok(Lower(address))
    ensures Lower(address) == address || Upper(address) == address
  {
    hide Regroup, Checksum, Verifies, InCharset, Values, Decode, AllFit, Lower, Upper, Chars, Symbols;
    var chars := DecodeInverse(address, Decode(address).value);
    ValuesBytes(chars);
    var values: seq<Byte> := Values(chars);
    var data, c := values[..|chars| - 6], values[|chars| - 6..];
    assert values == data + c;
    assert c == Checksum(HRP, data) && Symbols(data) by {
      SymbolsParts(values, |chars| - 6);
      BytesFit(data);
      ChecksumUnique(HRP, data, c);
    }
    CharsOfValues(chars);
    RegroupCanonical(data, 8, 5);
  }

  lemma {:induction false} SymbolsParts(v: seq<nat>, n: nat)
    requires Symbols(v) && n <= |v|
    ensures Symbols(v[..n]) && Symbols(v[n..])
  {
  }

  /** The accepted texts are exactly the addresses of keys, in lower or in upper case. */
  lemma {:induction false} AcceptedExactly(address: string, key: seq<Byte>)
    ensures ToKey(address) == Ok(key)
       <==> |key| == 32 && ToAddress(key) == Ok(Lower(address)) && (Lower(address) == address || Upper(address) == address)
  {
    if ToKey(address) == Ok(key) {
      Canonical(address, key);
    }
    if |key| == 32 && ToAddress(key) == Ok(Lower(address)) && (Lower(address) == address || Upper(address) == address) {
      KeyRoundTrip(key);
      SameDecode(address);
    }
  }

  lemma {:induction false} SameDecode(address: string)
    requires Lower(address) == address || Upper(address) == address
    requires Decode(Lower(address)).Ok?
    ensures Decode(address) == Decode(Lower(address))
  {
    hide DecodeParts, LastOne;
    var low := Lower(address);
    assert Lower(low) == low;
    forall i | 0 <= i < |address| ensures 33 <= address[i] as int <= 126 {
      assert 33 <= low[i] as int <= 126;
    }
  }

  predicate HasUpper(s: string) {
    exists i :: 0 <= i < |s| && 'A' <= s[i] <= 'Z'
  }

  predicate HasLower(s: string) {
    exists i :: 0 <= i < |s| && 'a' <= s[i] <= 'z'
  }

  lemma {:induction false} CaseChanges(s: string)
    ensures Lower(s) == s <==> !HasUpper(s)
    ensures Upper(s) == s <==> !HasLower(s)
  {
    if Lower(s) == s {
      forall i | 0 <= i < |s| ensures !('A' <= s[i] <= 'Z') { assert Lower(s)[i] == s[i]; }
    }
    if Upper(s) == s {
      forall i | 0 <= i < |s| ensures !('a' <= s[i] <= 'z') { assert Upper(s)[i] == s[i]; }
    }
  }

  /** Which texts are refused before anything is decoded, and why. */
  lemma {:induction false} Refusals(bech: string)
    ensures Decode(bech) == Err(TooLong) <==> |bech| > 90
    ensures Decode(bech) == Err(BadCharacter) <==> |bech| <= 90 && exists i :: 0 <= i < |bech| && !('!' <= bech[i] <= '~')
    ensures Decode(bech) == Err(MixedCase)
       <==> |bech| <= 90 && (forall i :: 0 <= i < |bech| ==> '!' <= bech[i] <= '~') && HasUpper(bech) && HasLower(bech)
  {
    hide LastOne, DecodeParts, Lower, Upper;
    CaseChanges(bech);
    if |bech| <= 90 && Printable(bech) {
      LaterErrors(Lower(bech));
    }
  }

  lemma {:induction false} LaterErrors(low: string)
    ensures var pos := LastOne(low);
            0 <= pos && pos + 7 <= |low| ==>
              var r := DecodeParts(low[..pos + 1], low[pos + 1..]);
              r.Err? ==> r.error == NotInCharset || r.error == BadChecksum
  {
    hide LastOne, InCharset, Values, Verifies;
  }

  /** Two accepted addresses that agree, up to case, outside six consecutive characters name the same key. */
  lemma {:induction false} AddressBurstDetected(a: string, b: string, at: nat)
    requires ToKey(a).Ok? && ToKey(b).Ok?
    requires |a| == |b|
    requires forall i :: 0 <= i < |a| && !(at <= i < at + 6) ==> LowerChar(a[i]) == LowerChar(b[i])
    ensures Lower(a) == Lower(b) && ToKey(a) == ToKey(b)
  {
    hide ToKey, ToAddress, Checksum, Verifies, Chars, Symbols, LowerChar;
    var k, k' := ToKey(a).value, ToKey(b).value;
    Canonical(a, k);
    Canonical(b, k');
    AddressShape(k);
    AddressShape(k');
    var d, d' := KeySymbols(k), KeySymbols(k');
    var v, v' := d + Checksum(HRP, d), d' + Checksum(HRP, d');
    VerifiesText(d);
    VerifiesText(d');
    SymbolsJoin(d, Checksum(HRP, d));
    SymbolsJoin(d', Checksum(HRP, d'));
    var from := if at < 7 then 0 else at - 7;
    TextAgrees(HRP, v, v', at);
    BurstDetected(HRP, v, v', from);
    assert d == v[..52] && d' == v'[..52];
    SameSymbols(k, k');
  }

  lemma {:induction false} SymbolsJoin(u: seq<nat>, v: seq<nat>)
    requires Symbols(u) && Symbols(v)
    ensures Symbols(u + v)
  {
  }

  /** Texts that agree outside a window have symbols that agree outside the shifted window. */
  lemma {:induction false} TextAgrees(h: string, v: seq<nat>, v': seq<nat>, at: nat)
    requires |h| == 7 && |v| == |v'| && Symbols(v) && Symbols(v')
    requires forall i :: 0 <= i < 7 + |v| && !(at <= i < at + 6) ==> (h + Chars(v))[i] == (h + Chars(v'))[i]
    ensures var from := if at < 7 then 0 else at - 7;
            forall i :: 0 <= i < |v| && !(from <= i < from + 6) ==> v[i] == v'[i]
  {
    hide CharOf, CharsetRev;
    var from := if at < 7 then 0 else at - 7;
    forall i | 0 <= i < |v| && !(from <= i < from + 6) ensures v[i] == v'[i] {
      assert (h + Chars(v))[7 + i] == CharOf(v[i]) && (h + Chars(v'))[7 + i] == CharOf(v'[i]);
      CharsetInverse(v[i]);
      CharsetInverse(v'[i]);
    }
  }

  lemma {:induction false} VerifiesText(data: seq<Byte>)
    requires Symbols(data)
    ensures |Checksum(HRP, data)| == 6 && Symbols(Checksum(HRP, data))
    ensures Verifies(HRP, data + Checksum(HRP, data))
  {
    hide Checksum, Verifies, AllFit;
    BytesFit(data);
    ChecksumUnique(HRP, data, SIX_ZEROS);
    ChecksumUnique(HRP, data, Checksum(HRP, data));
  }

  lemma {:induction false} SameSymbols(k: seq<Byte>, k': seq<Byte>)
    requires |k| == 32 && |k'| == 32 && KeySymbols(k) == KeySymbols(k')
    ensures k == k'
  {
    hide Regroup, AllWide;
    BytesAreWide(k);
    BytesAreWide(k');
    RegroupInverse(k, 8, 5);
    RegroupInverse(k', 8, 5);
  }

  // ---------------------------------------------------------------- the source's functions

  method Bech32Encode(hrp: string, data: seq<Byte>) returns (r: Result<string, AddressError>)
    ensures r == Encode(hrp, data)
  {
    hide Checksum, CharOf;
    ChecksumSymbols(hrp, data);
    var checksum := CreateChecksum(hrp, data);
    var combined: seq<nat> := data + checksum;
    var sb := hrp;
    for i := 0 to |combined|
      invariant Symbols(combined[..i])
      invariant sb == hrp + Chars(combined[..i])
    {
      var d := combined[i];
      if d >= 32 {
        assert i < |data| && data[i] == d;
        return Err(DataValue);
      }
      assert combined[..i + 1] == combined[..i] + [d];
      sb := sb + [CharOf(d)];
    }
    assert combined[..|combined|] == combined;
    assert Symbols(data) by {
      forall i | 0 <= i < |data| ensures data[i] < 32 { assert data[i] == combined[i]; }
    }
    return Ok(sb);
  }

  method LastIndexOne(s: string) returns (pos: int)
    ensures pos == LastOne(s)
  {
    pos := |s| - 1;
    while pos >= 0 && s[pos] != '1'
      invariant -1 <= pos < |s|
      invariant forall j :: pos < j < |s| ==> s[j] != '1'
    {
      pos := pos - 1;
    }
    if pos >= 0 { assert s[pos] == '1'; }
  }

  method DecodeSymbols(chars: string) returns (r: Result<seq<nat>, AddressError>)
    ensures r == if InCharset(chars) then Ok(Values(chars)) else Err(NotInCharset)
  {
    hide CharsetRev;
    var values: seq<nat> := [];
    for i := 0 to |chars|
      invariant InCharset(chars[..i])
      invariant values == Values(chars[..i])
    {
      if CharsetRev(chars[i]) == -1 {
        return Err(NotInCharset);
      }
      assert chars[..i + 1] == chars[..i] + [chars[i]];
      CharsetIndices(chars[..i + 1]);
      assert chars[..i + 1][i] == chars[i];
      values := values + [CharsetRev(chars[i])];
    }
    assert chars[..|chars|] == chars;
    return Ok(values);
  }

  method CheckPrintable(bech: string) returns (ok: bool)
    ensures ok == Printable(bech)
  {
    for i := 0 to |bech|
      invariant forall j :: 0 <= j < i ==> 33 <= bech[j] as int <= 126
    {
      if bech[i] as int < 33 || bech[i] as int > 126 {
        return false;
      }
    }
    return true;
  }

  method DecodeData(hrp: string, chars: string) returns (r: Result<Decoded, AddressError>)
    requires |chars| >= 6
    ensures r == DecodeParts(hrp, chars)
  {
    hide InCharset, Values, Verifies;
    var intData := DecodeSymbols(chars);
    if intData.Err? {
      return Err(NotInCharset);
    }
    var ok := VerifyChecksum(hrp, intData.value);
    if !ok {
      return Err(BadChecksum);
    }
    return Ok(Decoded(hrp, intData.value[..|intData.value| - 6]));
  }

  method Bech32Decode(bech: string) returns (r: Result<Decoded, AddressError>)
    ensures r == Decode(bech)
  {
    hide LastOne, DecodeParts, Lower, Upper, Printable;
    if |bech| > 90 {
      return Err(TooLong);
    }
    var printable := CheckPrintable(bech);
    if !printable {
      return Err(BadCharacter);
    }
    var lower := Lower(bech);
    if lower != bech && Upper(bech) != bech {
      return Err(MixedCase);
    }
    var pos := LastIndexOne(lower);
    if pos < 1 || pos + 7 > |lower| {
      return Err(BadSeparator);
    }
    r := DecodeData(lower[..pos + 1], lower[pos + 1..]);
  }

  method PubKeyToAddress(key: seq<Byte>) returns (r: Result<string, AddressError>)
    ensures r == ToAddress(key)
    ensures r.Ok? <==> |key| == 32
    ensures r.Ok? ==> ToKey(r.value) == Ok(key)
  {
    hide Regroup, Encode;
    if |key| != 32 {
      return Err(KeyLength);
    }
    KeyRoundTrip(key);
    var data := Convert(key, 8, 5, true);
    match data
    case Err(e) => return Err(BadGrouping(e));
    case Ok(d) => r := Bech32Encode(HRP, d);
  }

  method AddressToPubKey(address: string) returns (r: Result<seq<Byte>, AddressError>)
    ensures r == ToKey(address)
    ensures r.Ok? ==> |r.value| == 32 && ToAddress(r.value) == Ok(Lower(address))
  {
    hide Regroup, Decode, Lower, Upper;
    var d := Bech32Decode(address);
    if d.Err? {
      return Err(d.error);
    }
    if d.value.hrp != HRP {
      return Err(BadPrefix);
    }
    assert IsByteSeq(d.value.data) by {
      var chars := DecodeInverse(address, d.value);
      ValuesBytes(chars);
    }
    var decoded := Convert(d.value.data, 5, 8, false);
    if decoded.Err? {
      return Err(BadGrouping(decoded.error));
    }
    if |decoded.value| != 32 {
      return Err(KeyLength);
    }
    r := Ok(decoded.value);
    Canonical(address, decoded.value);
  }
}
