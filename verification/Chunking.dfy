/**
  Cutting media into chunks and putting them together again: `pkg/content/chunker.go` and
  `pkg/content/assembler.go`. The multihash is an arbitrary function of the data.
 */
module Chunking {
  import opened Wrappers
  import opened Streams
  import opened Sequences

  const CHUNK_SIZE: nat := 262144
  const MAX_MEDIA_SIZE: nat := 104857600

  type Cid = seq<int>

  datatype Chunk = Chunk(cid: Cid, index: int, data: Bytes)
  datatype ChunkError = EmptyData | TooLarge | ReadFailed | NoChunks | MissingChunk

  function ChunksFrom(data: Bytes, index: nat, hash: Bytes -> Cid): seq<Chunk> {
    if data == [] then []
    else if |data| <= CHUNK_SIZE then [Chunk(hash(data), index, data)]
    else [Chunk(hash(data[..CHUNK_SIZE]), index, data[..CHUNK_SIZE])] + ChunksFrom(data[CHUNK_SIZE..], index + 1, hash)
  }

  function Chunked(data: Bytes, hash: Bytes -> Cid): Result<seq<Chunk>, ChunkError> {
    if data == [] then Err(EmptyData)
    else if |data| > MAX_MEDIA_SIZE then Err(TooLarge)
    else Ok(ChunksFrom(data, 0, hash))
  }

  method ChunkFile(data: Bytes, hash: Bytes -> Cid) returns (r: Result<seq<Chunk>, ChunkError>)
    ensures r == Chunked(data, hash)
  {
    if |data| == 0 {
      return Err(EmptyData);
    }
    if |data| > MAX_MEDIA_SIZE {
      return Err(TooLarge);
    }
    hide ChunksFrom, Tail;
    var chunks: seq<Chunk> := [];
    var i := 0;
    TailEnds(data);
    while i < |data|
      invariant 0 <= i
      invariant chunks + ChunksFrom(Tail(data, i), |chunks|, hash) == ChunksFrom(data, 0, hash)
    {
      var end := i + CHUNK_SIZE;
      if end > |data| {
        end := |data|;
      }
      var chunkData := data[i..end];
      TailStep(data, i, |chunks|, hash);
      var c := Chunk(hash(chunkData), |chunks|, chunkData);
      Regroup(chunks, c, ChunksFrom(Tail(data, i + CHUNK_SIZE), |chunks| + 1, hash));
      chunks := chunks + [c];
      i := i + CHUNK_SIZE;
    }
    NoChunksLeft(|chunks|, hash);
    assert chunks + [] == chunks;
    return Ok(chunks);
  }

  function Tail(data: Bytes, i: nat): Bytes {
    if i <= |data| then data[i..] else []
  }

  lemma {:induction false} TailEnds(data: Bytes)
    ensures Tail(data, 0) == data
    ensures forall i: nat :: i >= |data| ==> Tail(data, i) == []
  {
  }

  lemma {:induction false} Regroup(chunks: seq<Chunk>, c: Chunk, rest: seq<Chunk>)
    ensures chunks + ([c] + rest) == chunks + [c] + rest
  {
  }

  lemma {:induction false} NoChunksLeft(index: nat, hash: Bytes -> Cid)
    ensures ChunksFrom([], index, hash) == []
  {
  }

  lemma {:induction false} TailStep(data: Bytes, i: nat, index: nat, hash: Bytes -> Cid)
    requires i < |data|
    ensures var end := Min(i + CHUNK_SIZE, |data|);
            ChunksFrom(Tail(data, i), index, hash)
            == [Chunk(hash(data[i..end]), index, data[i..end])] + ChunksFrom(Tail(data, i + CHUNK_SIZE), index + 1, hash)
  {
    hide ChunksFrom;
    var end := Min(i + CHUNK_SIZE, |data|);
    ChunksStep(data[i..], index, hash);
    assert data[i..][..end - i] == data[i..end];
    assert data[i..][end - i..] == Tail(data, i + CHUNK_SIZE);
  }

  /** The first chunk and the rest, also when the data ends exactly at a chunk border. */
  lemma {:induction false} ChunksStep(data: Bytes, index: nat, hash: Bytes -> Cid)
    requires data != []
    ensures var n := Min(CHUNK_SIZE, |data|);
            ChunksFrom(data, index, hash) == [Chunk(hash(data[..n]), index, data[..n])] + ChunksFrom(data[n..], index + 1, hash)
  {
    if |data| <= CHUNK_SIZE {
      assert data[..|data|] == data && data[|data|..] == [];
    }
  }

  /** Reading the same bytes from a stream: same chunks, and failure on the same inputs. */
  method ChunkReader(r: Reader, hash: Bytes -> Cid) returns (res: Result<seq<Chunk>, ChunkError>)
    modifies r
    ensures !r.broken ==> res == Chunked(old(r.Rest()), hash)
    ensures r.broken ==> res.Err?
  {
    hide ChunksFrom, Concat;
    ghost var all := r.Rest();
    var chunks: seq<Chunk> := [];
    var totalRead := 0;
    var index := 0;
    while true
      invariant 0 <= totalRead <= |all| && r.Rest() == all[totalRead..]
      invariant index == |chunks| && totalRead <= MAX_MEDIA_SIZE
      invariant chunks + ChunksFrom(r.Rest(), |chunks|, hash) == ChunksFrom(all, 0, hash)
      invariant chunks == [] <==> totalRead == 0
      decreases |r.Rest()|
    {
      ghost var rest := r.Rest();
      var chunkData, status := r.ReadFull(CHUNK_SIZE);
      if |chunkData| > 0 {
        assert all[totalRead..][|chunkData|..] == all[totalRead + |chunkData|..];
        totalRead := totalRead + |chunkData|;
        if totalRead > MAX_MEDIA_SIZE {
          return Err(TooLarge);
        }
        ChunksStep(rest, |chunks|, hash);
        var c := Chunk(hash(chunkData), index, chunkData);
        Regroup(chunks, c, ChunksFrom(rest[|chunkData|..], |chunks| + 1, hash));
        chunks := chunks + [c];
        index := index + 1;
      }
      assert chunks + ChunksFrom(r.Rest(), |chunks|, hash) == ChunksFrom(all, 0, hash);
      if status == EOF || status == UnexpectedEOF {
        assert r.Rest() == [] && totalRead == |all|;
        break;
      }
      if status == Broken {
        return Err(ReadFailed);
      }
    }
    NoChunksLeft(|chunks|, hash);
    assert chunks + [] == chunks;
    if |chunks| == 0 {
      return Err(EmptyData);
    }
    return Ok(chunks);
  }

  // ---------------------------------------------------------------- assembling

  function Joined(chunks: seq<Chunk>): Bytes {
    if chunks == [] then [] else chunks[0].data + Joined(chunks[1..])
  }

  predicate Contiguous(chunks: seq<Chunk>, from: int) {
    forall i :: 0 <= i < |chunks| ==> chunks[i].index == from + i
  }

  /** `p` is the given chunks in index order without a gap. */
  ghost predicate Arranged(chunks: seq<Chunk>, p: seq<Chunk>) {
    multiset(p) == multiset(chunks) && Contiguous(p, 0)
  }

  ghost predicate CanArrange(chunks: seq<Chunk>) {
    exists p :: Arranged(chunks, p)
  }

  ghost function Arrangement(chunks: seq<Chunk>): (p: seq<Chunk>)
    requires CanArrange(chunks)
    ensures Arranged(chunks, p)
  {
    var p :| Arranged(chunks, p); p
  }

  ghost function Assembled(chunks: seq<Chunk>): Result<Bytes, ChunkError> {
    if chunks == [] then Err(NoChunks)
    else if CanArrange(chunks) then Ok(Joined(Arrangement(chunks)))
    else Err(MissingChunk)
  }

  predicate IndexSorted(s: seq<Chunk>) {
    forall i, j :: 0 <= i < j < |s| ==> s[i].index <= s[j].index
  }

  /** A sorted permutation of contiguous chunks is those chunks in order. */
  lemma {:induction false} SortedIsContiguous(s: seq<Chunk>, p: seq<Chunk>, from: int)
    requires multiset(s) == multiset(p) && Contiguous(p, from) && IndexSorted(s)
    ensures s == p
    decreases |p|
  {
    hide Contiguous, IndexSorted;
    assert |multiset(s)| == |s| && |multiset(p)| == |p|;
    if p != [] {
      FirstIsLeast(s, p, from);
      TailMultiset(s);
      TailMultiset(p);
      TailOrder(s, p, from);
      SortedIsContiguous(s[1..], p[1..], from + 1);
      SameHeadAndTail(s, p);
    }
  }

  lemma {:induction false} TailMultiset(s: seq<Chunk>)
    requires s != []
    ensures multiset(s[1..]) == multiset(s) - multiset{s[0]}
  {
    assert s == [s[0]] + s[1..];
  }

  lemma {:induction false} SameHeadAndTail(s: seq<Chunk>, p: seq<Chunk>)
    requires s != [] && p != [] && s[0] == p[0] && s[1..] == p[1..]
    ensures s == p
  {
    assert s == [s[0]] + s[1..] && p == [p[0]] + p[1..];
  }

  lemma {:induction false} TailOrder(s: seq<Chunk>, p: seq<Chunk>, from: int)
    requires s != [] && p != [] && IndexSorted(s) && Contiguous(p, from)
    ensures IndexSorted(s[1..]) && Contiguous(p[1..], from + 1)
  {
  }

  lemma {:induction false} FirstIsLeast(s: seq<Chunk>, p: seq<Chunk>, from: int)
    requires multiset(s) == multiset(p) && Contiguous(p, from) && IndexSorted(s)
    requires p != [] && |s| == |p|
    ensures s[0] == p[0]
  {
    assert s[0] in multiset(s) && p[0] in multiset(p);
    assert s[0] in multiset(p) && p[0] in multiset(s);
    assert s[0] in p && p[0] in s;
    var j :| 0 <= j < |p| && p[j] == s[0];
    var k :| 0 <= k < |s| && s[k] == p[0];
    assert s[0].index <= s[k].index;
  }

  lemma {:induction false} AssembledBy(chunks: seq<Chunk>, p: seq<Chunk>)
    requires chunks != [] && Arranged(chunks, p)
    ensures Assembled(chunks) == Ok(Joined(p))
  {
    hide Joined;
    assert CanArrange(chunks);
    SortedIsContiguous(Arrangement(chunks), p, 0);
  }

  /** Sorting decides whether the chunks can be arranged. */
  lemma {:induction false} SortedDecides(chunks: seq<Chunk>, sorted: seq<Chunk>)
    requires multiset(sorted) == multiset(chunks) && IndexSorted(sorted)
    ensures CanArrange(chunks) <==> Contiguous(sorted, 0)
  {
    if CanArrange(chunks) {
      SortedIsContiguous(sorted, Arrangement(chunks), 0);
    }
    if Contiguous(sorted, 0) {
      assert Arranged(chunks, sorted);
    }
  }

  method JoinChunks(sorted: seq<Chunk>) returns (result: Bytes)
    ensures result == Joined(sorted)
  {
    result := [];
    for i := 0 to |sorted|
      invariant result + Joined(sorted[i..]) == Joined(sorted)
    {
      assert sorted[i..][0] == sorted[i] && sorted[i..][1..] == sorted[i + 1..];
      result := result + sorted[i].data;
    }
    assert sorted[|sorted|..] == [];
  }

  method AssembleChunks(chunks: seq<Chunk>) returns (r: Result<Bytes, ChunkError>)
    ensures r == Assembled(chunks)
  {
    if |chunks| == 0 {
      return Err(NoChunks);
    }
    hide Joined, CanArrange;
    var sorted := SortBy(chunks, (c: Chunk) => c.index);
    assert IndexSorted(sorted);
    SortedDecides(chunks, sorted);
    for i := 0 to |sorted|
      invariant forall j :: 0 <= j < i ==> sorted[j].index == j
    {
      if sorted[i].index != i {
        return Err(MissingChunk);
      }
    }
    AssembledBy(chunks, sorted);
    var result := JoinChunks(sorted);
    return Ok(result);
  }

  method ValidateChunks(chunks: seq<Chunk>, hash: Bytes -> Cid) returns (ok: bool)
    ensures ok <==> forall i :: 0 <= i < |chunks| ==> chunks[i].cid == hash(chunks[i].data)
  {
    for i := 0 to |chunks|
      invariant forall j :: 0 <= j < i ==> chunks[j].cid == hash(chunks[j].data)
    {
      if chunks[i].cid != hash(chunks[i].data) {
        return false;
      }
    }
    return true;
  }

  // ---------------------------------------------------------------- theorems

  lemma {:induction false} ChunksRight(data: Bytes, index: nat, hash: Bytes -> Cid)
    ensures Joined(ChunksFrom(data, index, hash)) == data
    ensures Contiguous(ChunksFrom(data, index, hash), index)
    ensures forall i :: 0 <= i < |ChunksFrom(data, index, hash)| ==>
      && ChunksFrom(data, index, hash)[i].cid == hash(ChunksFrom(data, index, hash)[i].data)
      && 0 < |ChunksFrom(data, index, hash)[i].data| <= CHUNK_SIZE
    ensures data != [] ==> ChunksFrom(data, index, hash) != []
    decreases |data|
  {
    if data != [] {
      var n := Min(CHUNK_SIZE, |data|);
      ChunksStep(data, index, hash);
      ChunksRight(data[n..], index + 1, hash);
      var c, rest := Chunk(hash(data[..n]), index, data[..n]), ChunksFrom(data[n..], index + 1, hash);
      assert ([c] + rest)[1..] == rest;
      assert data == data[..n] + data[n..];
    }
  }

  /** Any permutation of the chunks of a file assembles to the file, and every chunk validates. */
  lemma {:induction false} ReassembleAny(data: Bytes, hash: Bytes -> Cid, chunks: seq<Chunk>, shuffled: seq<Chunk>)
    requires Chunked(data, hash) == Ok(chunks) && multiset(shuffled) == multiset(chunks)
    ensures Assembled(shuffled) == Ok(data)
    ensures forall i :: 0 <= i < |shuffled| ==> shuffled[i].cid == hash(shuffled[i].data)
  {
    hide ChunksFrom, Joined;
    ChunksRight(data, 0, hash);
    assert |multiset(shuffled)| == |shuffled| && |multiset(chunks)| == |chunks|;
    AssembledBy(shuffled, chunks);
    forall i | 0 <= i < |shuffled| ensures shuffled[i].cid == hash(shuffled[i].data) {
      assert shuffled[i] in multiset(shuffled);
      assert shuffled[i] in multiset(chunks);
    }
  }

  /** Where a piece of 262144 bytes starts and ends. */
  function PieceEnd(data: Bytes, i: nat): nat {
    Min((i + 1) * 262144, |data|)
  }

  lemma {:induction false} PieceAt(data: Bytes, index: nat, hash: Bytes -> Cid, i: nat)
    requires i * 262144 < |data|
    ensures i < |ChunksFrom(data, index, hash)|
    ensures i * 262144 <= PieceEnd(data, i)
    ensures var piece := data[i * 262144..PieceEnd(data, i)];
            ChunksFrom(data, index, hash)[i] == Chunk(hash(piece), index + i, piece)
    decreases i
  {
    hide ChunksFrom;
    ChunksStep(data, index, hash);
    var n := Min(262144, |data|);
    if i > 0 {
      PieceAt(data[n..], index + 1, hash, i - 1);
      assert data[n..][(i - 1) * 262144..PieceEnd(data[n..], i - 1)] == data[i * 262144..PieceEnd(data, i)];
    }
  }

  lemma {:induction false} PieceCount(data: Bytes, index: nat, hash: Bytes -> Cid)
    ensures |ChunksFrom(data, index, hash)| == (|data| + 262143) / 262144
    decreases |data|
  {
    hide ChunksFrom;
    if data == [] {
      NoChunksLeft(index, hash);
    } else {
      ChunksStep(data, index, hash);
      var n := Min(262144, |data|);
      PieceCount(data[n..], index + 1, hash);
    }
  }

  /** The chunks of a file: 262144 bytes each but the last, numbered from zero; errors exactly for empty and oversized data. */
  lemma {:induction false} ChunkedExactly(data: Bytes, hash: Bytes -> Cid)
    ensures Chunked(data, hash).Ok? <==> 0 < |data| <= 104857600
    ensures |data| == 0 ==> Chunked(data, hash) == Err(EmptyData)
    ensures |data| > 104857600 ==> Chunked(data, hash) == Err(TooLarge)
    ensures Chunked(data, hash).Ok? ==> |Chunked(data, hash).value| == (|data| + 262143) / 262144
    ensures Chunked(data, hash).Ok? ==> forall i :: 0 <= i < |Chunked(data, hash).value| ==>
      IsPiece(data, hash, i, Chunked(data, hash).value[i])
  {
    hide ChunksFrom;
    PieceCount(data, 0, hash);
    if Chunked(data, hash).Ok? {
      var chunks := Chunked(data, hash).value;
      forall i | 0 <= i < |chunks| ensures IsPiece(data, hash, i, chunks[i]) {
        PieceAt(data, 0, hash, i);
      }
    }
  }

  predicate IsPiece(data: Bytes, hash: Bytes -> Cid, i: nat, c: Chunk) {
    i * 262144 <= PieceEnd(data, i) && c.data == data[i * 262144..PieceEnd(data, i)] && c.index == i && c.cid == hash(c.data)
  }
}
