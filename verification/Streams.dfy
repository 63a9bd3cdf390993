/**
  Byte streams as the repository reads them: an `io.Reader` that hands out its bytes in arbitrary
  fragments, some of them empty, and then reports end of file or, if the connection broke, an error.
 */
module Streams {
  import opened Wrappers

  type Bytes = seq<Byte>

  datatype ReadStatus = Full | EOF | UnexpectedEOF | Broken

  function Concat(frags: seq<Bytes>): Bytes {
    if frags == [] then [] else frags[0] + Concat(frags[1..])
  }

  function Min(a: nat, b: nat): nat {
    if a < b then a else b
  }

  class Reader {
    var frags: seq<Bytes>
    const broken: bool

    constructor (frags: seq<Bytes>, broken: bool)
      ensures this.frags == frags && this.broken == broken
    {
      this.frags, this.broken := frags, broken;
    }

    ghost function Rest(): Bytes
      reads this
    {
      Concat(frags)
    }

    /** One `Read` call: at most `max` bytes of the next fragment; `end` when there is none. */
    method Read(max: nat) returns (data: Bytes, end: bool)
      modifies this
      ensures end <==> old(frags) == []
      ensures |data| <= max && old(Rest()) == data + Rest()
      ensures end ==> data == [] && frags == []
      ensures !end && max > 0 ==> |Rest()| + |frags| < |old(Rest())| + |old(frags)|
    {
      if frags == [] {
        return [], true;
      }
      var head := frags[0];
      if |head| <= max {
        data := head;
        frags := frags[1..];
      } else {
        data := head[..max];
        frags := [head[max..]] + frags[1..];
        assert frags[1..] == old(frags)[1..];
        assert head == data + head[max..];
      }
      return data, false;
    }

    /** `io.ReadFull`: the next `n` bytes, whatever the fragmentation. */
    method ReadFull(n: nat) returns (data: Bytes, status: ReadStatus)
      modifies this
      ensures data == old(Rest())[..Min(n, |old(Rest())|)]
      ensures Rest() == old(Rest())[|data|..]
      ensures status == Full <==> |old(Rest())| >= n
      ensures status == Broken <==> |old(Rest())| < n && broken
      ensures status == EOF <==> |old(Rest())| == 0 < n && !broken
    {
      data := [];
      var end := false;
      while |data| < n && !end
        invariant |data| <= n && old(Rest()) == data + Rest()
        invariant end ==> Rest() == []
        decreases !end, |Rest()| + |frags|
      {
        var more;
        more, end := Read(n - |data|);
        data := data + more;
      }
      if |data| == n {
        status := Full;
      } else if broken {
        status := Broken;
      } else {
        status := if |data| == 0 then EOF else UnexpectedEOF;
      }
    }
  }

  /** A destination that takes `room` bytes in all and fails from then on. */
  class Writer {
    var out: Bytes
    const room: nat

    constructor (room: nat)
      ensures out == [] && this.room == room
    {
      this.room := room;
      out := [];
    }

    /** One `Write` call: everything, or an error after as much as fits. */
    method Write(data: Bytes) returns (ok: bool)
      requires |out| <= room
      modifies this
      ensures |out| <= room
      ensures ok <==> |old(out)| + |data| <= room
      ensures out == old(out) + data[..Min(|data|, room - |old(out)|)]
    {
      ok := |out| + |data| <= room;
      out := out + data[..Min(|data|, room - |out|)];
    }
  }
}
