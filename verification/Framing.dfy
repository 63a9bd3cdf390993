/**
  The content exchange on the wire: length-prefixed requests and responses of
  `pkg/p2p/bitswap_serve.go` and `pkg/p2p/bitswap_fetch.go`, and the two ways of receiving content,
  buffered in memory or streamed to a file.

  The multihash library is two arbitrary functions: `decode` reads the hash code and length out of a
  content id, `sum` hashes data for them; either may fail.
 */
module Framing {
  import opened Wrappers
  import opened Streams

  const MAX_CONTENT_SIZE: nat := 104857600
  const MAX_CID_SIZE: nat := 1024

  type Cid = Bytes
  datatype HashSpec = HashSpec(code: int, length: int)

  datatype FrameError =
    | ShortHeader | NotFound | TooLarge | ShortContent | BadMultihash | HashFailed | HashMismatch | BadCidLength

  // ---------------------------------------------------------------- length prefixes

  /** The four big-endian bytes of `n` taken as a 32-bit unsigned integer. */
  function Header(n: nat): (h: Bytes)
    ensures |h| == 4
  {
    var u := n % 0x1_0000_0000;
    [u / 0x100_0000, u / 0x1_0000 % 0x100, u / 0x100 % 0x100, u % 0x100]
  }

  function FromHeader(h: Bytes): nat
    requires |h| == 4
  {
    h[0] as int * 0x100_0000 + h[1] as int * 0x1_0000 + h[2] as int * 0x100 + h[3] as int
  }

  /** The length is written with its most significant byte first. */
  lemma {:induction false} NetworkOrder()
    ensures Header(0x01020304) == [1, 2, 3, 4] && FromHeader([1, 2, 3, 4]) == 0x01020304
  {
  }

  lemma {:induction false} HeaderRoundTrip(n: nat)
    ensures FromHeader(Header(n)) == n % 0x1_0000_0000
  {
    var u := n % 0x1_0000_0000;
    assert u / 0x1_0000 == u / 0x100_0000 * 0x100 + u / 0x1_0000 % 0x100 by { Digits(u / 0x1_0000, u / 0x100_0000); }
    assert u / 0x100 == u / 0x1_0000 * 0x100 + u / 0x100 % 0x100 by { Digits(u / 0x100, u / 0x1_0000); }
  }

  lemma {:induction false} Digits(x: nat, y: nat)
    requires y == x / 0x100
    ensures x == y * 0x100 + x % 0x100
  {
  }

  // ---------------------------------------------------------------- meaning of the frames

  function ResponseLength(bytes: Bytes): Result<nat, FrameError> {
    if |bytes| < 4 then Err(ShortHeader)
    else
      var n := FromHeader(bytes[..4]);
      if n == 0 then Err(NotFound) else if n > MAX_CONTENT_SIZE then Err(TooLarge) else Ok(n)
  }

  function Response(bytes: Bytes): Result<Bytes, FrameError> {
    match ResponseLength(bytes)
    case Err(e) => Err(e)
    case Ok(n) => if |bytes| < 4 + n then Err(ShortContent) else Ok(bytes[4..4 + n])
  }

  function HashCheck(
    data: Bytes, cid: Cid, decode: Cid -> Option<HashSpec>, sum: (Bytes, HashSpec) -> Option<Cid>): Option<FrameError>
  {
    match decode(cid)
    case None => Some(BadMultihash)
    case Some(spec) =>
      match sum(data, spec)
      case None => Some(HashFailed)
      case Some(computed) => if computed == cid then None else Some(HashMismatch)
  }

  /** Receiving into memory and then validating, as `fetchFromPeer` does. */
  function Buffered(
    bytes: Bytes, cid: Cid, decode: Cid -> Option<HashSpec>, sum: (Bytes, HashSpec) -> Option<Cid>): Result<Bytes, FrameError>
  {
    match Response(bytes)
    case Err(e) => Err(e)
    case Ok(data) =>
      match HashCheck(data, cid, decode, sum)
      case Some(e) => Err(e)
      case None => Ok(data)
  }

  function CidRequest(bytes: Bytes): Result<Cid, FrameError> {
    if |bytes| < 4 then Err(ShortHeader)
    else
      var n := FromHeader(bytes[..4]);
      if n == 0 || n > MAX_CID_SIZE then Err(BadCidLength)
      else if |bytes| < 4 + n then Err(ShortContent)
      else Ok(bytes[4..4 + n])
  }

  // ---------------------------------------------------------------- receiving

  method ReadContentResponseLength(r: Reader) returns (res: Result<nat, FrameError>)
    modifies r
    ensures res == ResponseLength(old(r.Rest()))
    ensures res.Ok? ==> r.Rest() == old(r.Rest())[4..]
  {
    hide FromHeader;
    var header, status := r.ReadFull(4);
    if status != Full {
      return Err(ShortHeader);
    }
    var n := FromHeader(header);
    if n == 0 {
      return Err(NotFound);
    }
    if n > MAX_CONTENT_SIZE {
      return Err(TooLarge);
    }
    return Ok(n);
  }

  method ReadContentResponse(r: Reader) returns (res: Result<Bytes, FrameError>)
    modifies r
    ensures res == Response(old(r.Rest()))
  {
    hide ResponseLength;
    var len := ReadContentResponseLength(r);
    if len.Err? {
      return Err(len.error);
    }
    LengthNeedsHeader(old(r.Rest()));
    var data, status := r.ReadFull(len.value);
    if status != Full {
      return Err(ShortContent);
    }
    assert old(r.Rest())[4..][..len.value] == old(r.Rest())[4..4 + len.value];
    return Ok(data);
  }

  lemma {:induction false} LengthNeedsHeader(bytes: Bytes)
    ensures ResponseLength(bytes).Ok? ==> |bytes| >= 4
  {
  }

  method ValidateContentHash(
    data: Bytes, cid: Cid, decode: Cid -> Option<HashSpec>, sum: (Bytes, HashSpec) -> Option<Cid>)
    returns (err: Option<FrameError>)
    ensures err == HashCheck(data, cid, decode, sum)
    ensures err.None? <==> decode(cid).Some? && sum(data, decode(cid).value) == Some(cid)
  {
    var decoded := decode(cid);
    if decoded.None? {
      return Some(BadMultihash);
    }
    var computed := sum(data, decoded.value);
    if computed.None? {
      return Some(HashFailed);
    }
    if computed.value != cid {
      return Some(HashMismatch);
    }
    return None;
  }

  method FetchBuffered(r: Reader, cid: Cid, decode: Cid -> Option<HashSpec>, sum: (Bytes, HashSpec) -> Option<Cid>)
    returns (res: Result<Bytes, FrameError>)
    modifies r
    ensures res == Buffered(old(r.Rest()), cid, decode, sum)
  {
    hide Response, HashCheck;
    var data := ReadContentResponse(r);
    if data.Err? {
      return Err(data.error);
    }
    var err := ValidateContentHash(data.value, cid, decode, sum);
    if err.Some? {
      return Err(err.value);
    }
    return Ok(data.value);
  }

  /** The limited, teed copy under `SumStream`: reads of any size go to the file and the hash alike. */
  method CopyLimited(r: Reader, limit: nat, file: Writer) returns (copied: Bytes, broke: bool)
    requires |file.out| <= file.room
    modifies r, file
    ensures |file.out| <= file.room
    ensures copied <= old(r.Rest())[..Min(limit, |old(r.Rest())|)]
    ensures broke <==> (r.broken && |old(r.Rest())| < limit) || |old(file.out)| + Min(limit, |old(r.Rest())|) > file.room
    ensures !broke ==> copied == old(r.Rest())[..Min(limit, |old(r.Rest())|)] && file.out == old(file.out) + copied
  {
    copied := [];
    var end := false;
    ghost var all := old(r.Rest());
    while |copied| < limit && !end
      invariant |copied| <= limit && all == copied + r.Rest()
      invariant file.out == old(file.out) + copied && |file.out| <= file.room
      invariant end ==> r.Rest() == []
      decreases !end, |r.Rest()| + |r.frags|
    {
      var k: nat :| 0 < k <= limit - |copied|;
      var more;
      more, end := r.Read(k);
      var ok := file.Write(more);
      if !ok {
        assert all == (copied + more) + r.Rest();
        assert copied + more <= all && |copied + more| <= limit;
        return copied, true;
      }
      copied := copied + more;
    }
    broke := r.broken && |copied| < limit;
  }

  /**
    Streaming to an empty file succeeds exactly when buffering and validating does and the file takes the bytes; then
    the file holds the same bytes, for every byte stream, fragmentation and content id.
   */
  method ReadContentResponseToFile(
    r: Reader, file: Writer, cid: Cid, decode: Cid -> Option<HashSpec>, sum: (Bytes, HashSpec) -> Option<Cid>)
    returns (res: Result<nat, FrameError>)
    requires file.out == []
    modifies r, file
    ensures var buffered := Buffered(old(r.Rest()), cid, decode, sum);
            && (res.Ok? <==> buffered.Ok? && |buffered.value| <= file.room)
            && (res.Ok? ==> buffered == Ok(file.out) && res.value == |file.out|)
  {
    hide ResponseLength;
    var len := ReadContentResponseLength(r);
    if len.Err? {
      return Err(len.error);
    }
    ghost var bytes := old(r.Rest());
    LengthNeedsHeader(bytes);
    var decoded := decode(cid);
    if decoded.None? {
      return Err(BadMultihash);
    }
    var copied, broke := CopyLimited(r, len.value, file);
    if broke {
      return Err(ShortContent);
    }
    var computed := sum(copied, decoded.value);
    PartOf(bytes, copied, len.value);
    if computed.None? {
      return Err(HashFailed);
    }
    if |copied| != len.value {
      return Err(ShortContent);
    }
    if computed.value != cid {
      return Err(HashMismatch);
    }
    assert [] + copied == copied;
    return Ok(len.value);
  }

  lemma {:induction false} PartOf(bytes: Bytes, file: Bytes, n: nat)
    requires |bytes| >= 4 && file == bytes[4..][..Min(n, |bytes| - 4)]
    ensures |bytes| >= 4 + n ==> file == bytes[4..4 + n]
  {
  }

  // ---------------------------------------------------------------- sending

  /** Succeeds exactly for an acceptable size that the source delivers and the stream takes. */
  method WriteContentResponse(w: Writer, source: Reader, size: int) returns (ok: bool)
    requires |w.out| <= w.room
    modifies w, source
    ensures ok <==> 0 < size <= MAX_CONTENT_SIZE && |old(source.Rest())| >= size && |old(w.out)| + 4 + size <= w.room
    ensures ok ==> w.out == old(w.out) + (Header(size) + old(source.Rest())[..size])
    ensures size <= 0 || size > MAX_CONTENT_SIZE ==> w.out == old(w.out)
  {
    if size <= 0 || size > MAX_CONTENT_SIZE {
      return false;
    }
    ok := w.Write(Header(size));
    if !ok {
      return false;
    }
    var data, broke := CopyLimited(source, size, w);
    return !broke && |data| == size;
  }

  method WriteCIDRequest(w: Writer, cid: Cid) returns (ok: bool)
    requires |w.out| <= w.room
    modifies w
    ensures ok <==> |old(w.out)| + 4 + |cid| <= w.room
    ensures ok ==> w.out == old(w.out) + (Header(|cid|) + cid)
  {
    ok := w.Write(Header(|cid|));
    if !ok {
      return false;
    }
    ok := w.Write(cid);
  }

  method ReadCIDFromStream(r: Reader) returns (res: Result<Cid, FrameError>)
    modifies r
    ensures res == CidRequest(old(r.Rest()))
  {
    hide FromHeader;
    var header, status := r.ReadFull(4);
    if status != Full {
      return Err(ShortHeader);
    }
    var n := FromHeader(header);
    if n == 0 || n > MAX_CID_SIZE {
      return Err(BadCidLength);
    }
    ghost var bytes := old(r.Rest());
    var cid;
    cid, status := r.ReadFull(n);
    if status != Full {
      return Err(ShortContent);
    }
    assert bytes[4..][..n] == bytes[4..4 + n];
    return Ok(cid);
  }

  // ---------------------------------------------------------------- round trips

  /** Why a response is refused: too short for the length, a length of zero, too long, or cut off. */
  lemma {:induction false} ResponseErrors(bytes: Bytes)
    ensures Response(bytes) == Err(ShortHeader) <==> |bytes| < 4
    ensures Response(bytes) == Err(NotFound) <==> |bytes| >= 4 && bytes[..4] == [0, 0, 0, 0]
    ensures Response(bytes) == Err(TooLarge) <==> |bytes| >= 4 && FromHeader(bytes[..4]) > 104857600
    ensures Response(bytes) == Err(ShortContent)
       <==> |bytes| >= 4 && 0 < FromHeader(bytes[..4]) <= 104857600 && |bytes| < 4 + FromHeader(bytes[..4])
  {
    if |bytes| >= 4 { ZeroLength(bytes[..4]); }
  }

  lemma {:induction false} ZeroLength(h: Bytes)
    requires |h| == 4
    ensures FromHeader(h) == 0 <==> h == [0, 0, 0, 0]
  {
    assert h == [h[0], h[1], h[2], h[3]];
  }

  /** Why a request is refused: too short for the length, a length out of range, or cut off. */
  lemma {:induction false} RequestErrors(bytes: Bytes)
    ensures CidRequest(bytes) == Err(ShortHeader) <==> |bytes| < 4
    ensures CidRequest(bytes) == Err(BadCidLength) <==> |bytes| >= 4 && !(1 <= FromHeader(bytes[..4]) <= 1024)
    ensures CidRequest(bytes) == Err(ShortContent)
       <==> |bytes| >= 4 && 1 <= FromHeader(bytes[..4]) <= 1024 && |bytes| < 4 + FromHeader(bytes[..4])
  {
    hide FromHeader;
  }

  /** A framed response is read back, whatever follows on the stream, exactly for the sizes the writer accepts. */
  lemma {:induction false} ResponseRoundTrip(data: Bytes, more: Bytes)
    ensures Response(Header(|data|) + data + more) == Ok(data) <==> 0 < |data| <= 104857600
  {
    hide Header, FromHeader;
    var bytes := Header(|data|) + data + more;
    HeaderRoundTrip(|data|);
    assert bytes[..4] == Header(|data|);
    assert bytes[4..4 + |data|] == data;
    var n := FromHeader(bytes[..4]);
    if Response(bytes) == Ok(data) {
      assert |bytes[4..4 + n]| == n;
    }
  }

  /** A request is read back exactly when its length is between 1 and 1024, wrapped prefixes included. */
  lemma {:induction false} RequestRoundTrip(cid: Cid)
    ensures CidRequest(Header(|cid|) + cid) == Ok(cid) <==> 1 <= |cid| <= 1024
  {
    hide Header, FromHeader;
    var bytes := Header(|cid|) + cid;
    HeaderRoundTrip(|cid|);
    assert bytes[..4] == Header(|cid|);
    var n := FromHeader(bytes[..4]);
    if n <= |cid| {
      assert |bytes[4..4 + n]| == n;
      assert n == |cid| ==> bytes[4..4 + n] == cid;
    }
  }
}
