/** The byte stream with an end mark of pkg/stream/audio.go, without filters. */
module AudioStreams {
  import opened ChainBuffers
  import opened Common

  datatype PushResult = Pushed | BufferFull

  datatype PullResult = Pulled(n: nat) | StreamEnded

  class AudioStream {
    const buffer: ChainBuffer
    /** Capacity in bytes; 0 means no limit. */
    const maxSize: int
    var eof: bool
    /** All bytes accepted by Push, and all bytes handed out by Pull. */
    ghost var pushed: seq<byte>
    ghost var pulled: seq<byte>

    ghost predicate Valid()
      reads this, buffer, buffer.chunks
    {
      buffer.Valid() && pushed == buffer.written && pulled == buffer.consumed
    }

    constructor (maxSize: int)
      ensures Valid() && fresh(buffer) && buffer.chunks == [] && !eof && pushed == [] && this.maxSize == maxSize
    {
      buffer := new ChainBuffer();
      this.maxSize := maxSize;
      eof, pushed, pulled := false, [], [];
    }

    method Push(data: seq<byte>, end: bool) returns (r: PushResult)
      requires Valid()
      modifies this, buffer, buffer.tail
      ensures Valid() && forall c :: c in buffer.chunks ==> c in old(buffer.chunks) || fresh(c)
      ensures pulled == old(pulled)
      ensures r.BufferFull? <==> maxSize > 0 && |old(buffer.Contents())| >= maxSize
      ensures r.BufferFull? ==> pushed == old(pushed) && eof == old(eof)
      ensures r.Pushed? ==> pushed == old(pushed) + data && eof == (old(eof) || end)
    {
      if maxSize > 0 && buffer.Len() >= maxSize {
        return BufferFull;
      }
      if |data| > 0 {
        var n := buffer.Write(data);
      }
      pushed := pushed + data;
      if end {
        eof := true;
      }
      return Pushed;
    }

    /** Hands out the oldest bytes; reports the end only when the end is marked and every pushed byte was pulled. */
    method Pull(sample: array<byte>) returns (r: PullResult)
      requires Valid()
      modifies this, buffer, sample
      ensures Valid() && forall c :: c in buffer.chunks ==> c in old(buffer.chunks)
      ensures pushed == old(pushed) && eof == old(eof)
      ensures r.StreamEnded? <==> eof && old(pulled) == pushed
      ensures r.StreamEnded? ==> pulled == old(pulled) && sample[..] == old(sample[..])
      ensures r.Pulled? ==>
        && r.n <= sample.Length && pulled == old(pulled) + sample[..r.n] && sample[r.n..] == old(sample[..])[r.n..]
        && (r.n < sample.Length ==> pulled == pushed)
    {
      if eof && buffer.Len() == 0 {
        return StreamEnded;
      }
      ghost var rest := buffer.Contents();
      var n := buffer.Read(sample);
      assert sample[..n] == rest[..n];
      pulled := pulled + sample[..n];
      return Pulled(n);
    }

    /** Marks the end; a full buffer refuses even that. */
    method Close()
      requires Valid()
      modifies this, buffer, buffer.tail
      ensures Valid() && forall c :: c in buffer.chunks ==> c in old(buffer.chunks) || fresh(c)
      ensures pushed == old(pushed) && pulled == old(pulled)
      ensures eof == (old(eof) || !(maxSize > 0 && |old(buffer.Contents())| >= maxSize))
    {
      var r := Push([], true);
    }
  }
}
