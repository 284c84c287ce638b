/** The linked chunk buffer of pkg/stream/chain_buffer.go. */
module ChainBuffers {
  import opened Common

  class Chunk {
    const data: seq<byte>
    var next: Chunk?

    constructor (data: seq<byte>)
      ensures this.data == data && next == null
    {
      this.data := data;
      next := null;
    }
  }

  ghost function First(chunks: seq<Chunk>): Chunk? {
    if chunks == [] then null else chunks[0]
  }

  /** chunks[i] points to the chunk after it. */
  ghost predicate LinkOk(chunks: seq<Chunk>, i: nat)
    requires i < |chunks|
    reads chunks[i]
  {
    chunks[i].next == First(chunks[i + 1..])
  }

  /** The bytes of a list of chunks. */
  function Joined(chunks: seq<Chunk>): seq<byte> {
    if chunks == [] then [] else chunks[0].data + Joined(chunks[1..])
  }

  lemma {:induction false} JoinedSnoc(chunks: seq<Chunk>, c: Chunk)
    ensures Joined(chunks + [c]) == Joined(chunks) + c.data
  {
    if chunks == [] {
      assert chunks + [c] == [c] && [c][1..] == [];
    } else {
      assert (chunks + [c])[1..] == chunks[1..] + [c];
      JoinedSnoc(chunks[1..], c);
      assert chunks[0].data + (Joined(chunks[1..]) + c.data) == (chunks[0].data + Joined(chunks[1..])) + c.data;
    }
  }

  lemma NoBytes(chunks: seq<Chunk>)
    ensures chunks == [] ==> Joined(chunks) == []
  {}

  /** k more bytes of the first chunk, from position at on. */
  lemma JoinedPiece(chunks: seq<Chunk>, at: nat, k: nat)
    requires chunks != [] && at + k <= |chunks[0].data|
    ensures at + k <= |Joined(chunks)|
    ensures Joined(chunks)[at..] == chunks[0].data[at..at + k] + Joined(chunks)[at + k..]
    ensures at + k == |chunks[0].data| ==> Joined(chunks)[at + k..] == Joined(chunks[1..])
  {}

  class ChainBuffer {
    var head: Chunk?
    var tail: Chunk?
    var offset: nat
    var length: nat
    /** The chunks from head to tail. */
    ghost var chunks: seq<Chunk>
    /** All bytes written, and all bytes read, since the last reset. */
    ghost var written: seq<byte>
    ghost var consumed: seq<byte>

    ghost predicate Linked()
      reads this, chunks
    {
      && (forall i, j :: 0 <= i < j < |chunks| ==> chunks[i] != chunks[j])
      && (forall i :: 0 <= i < |chunks| ==> LinkOk(chunks, i))
      && head == First(chunks)
      && tail == (if chunks == [] then null else chunks[|chunks| - 1])
      && offset <= (if chunks == [] then 0 else |chunks[0].data|)
    }

    /** The bytes still to be read. */
    ghost function Contents(): seq<byte>
      requires offset <= |Joined(chunks)|
      reads this
    {
      Joined(chunks)[offset..]
    }

    ghost predicate Valid()
      reads this, chunks
    {
      && Linked() && offset <= |Joined(chunks)|
      && length == |Contents()|
      && written == consumed + Contents()
    }

    constructor ()
      ensures Valid() && chunks == [] && Contents() == [] && written == []
    {
      head, tail, offset, length := null, null, 0, 0;
      chunks, written, consumed := [], [], [];
      new;
      hide Joined;
      NoBytes(chunks);
    }

    method Write(p: seq<byte>) returns (n: nat)
      requires Valid()
      modifies this, tail
      ensures Valid() && forall c :: c in chunks ==> c in old(chunks) || fresh(c)
      ensures n == |p| && Contents() == old(Contents()) + p
      ensures written == old(written) + p && consumed == old(consumed)
    {
      hide Joined, LinkOk;
      if |p| == 0 {
        return 0;
      }
      Append(p);
      written := written + p;
      length := length + |p|;
      return |p|;
    }

    /** Links a new chunk behind the last one. */
    method Append(p: seq<byte>)
      requires Linked() && offset <= |Joined(chunks)|
      modifies `head, `tail, `chunks, tail
      ensures Linked() && forall c :: c in chunks ==> c in old(chunks) || fresh(c)
      ensures offset <= |Joined(chunks)| && Contents() == old(Contents()) + p
    {
      hide Joined;
      var newChunk := new Chunk(p);
      ghost var cs := chunks;
      JoinedSnoc(cs, newChunk);
      if tail == null {
        head := newChunk;
        tail := newChunk;
      } else {
        tail.next := newChunk;
        tail := newChunk;
      }
      chunks := cs + [newChunk];
      forall i | 0 <= i < |chunks| ensures LinkOk(chunks, i) {
        if i < |cs| {
          assert old(LinkOk(cs, i));
          assert chunks[i + 1..] == cs[i + 1..] + [newChunk];
        } else {
          assert chunks[i + 1..] == [];
        }
      }
    }

    /** Moves to the next chunk; the current one is used up. */
    method Advance()
      requires Linked() && head != null && offset == |head.data|
      modifies `head, `tail, `offset, `chunks
      ensures Linked() && chunks == old(chunks)[1..] && offset == 0
    {
      ghost var cs := chunks;
      assert LinkOk(cs, 0);
      head := head.next;
      offset := 0;
      if head == null {
        tail := null;
      }
      chunks := cs[1..];
      forall i | 0 <= i < |chunks| ensures LinkOk(chunks, i) {
        assert LinkOk(cs, i + 1) && chunks[i + 1..] == cs[i + 2..];
      }
    }

    method Read(dst: array<byte>) returns (n: nat)
      requires Valid()
      modifies this, dst
      ensures Valid() && forall c :: c in chunks ==> c in old(chunks)
      ensures n == if dst.Length < |old(Contents())| then dst.Length else |old(Contents())|
      ensures dst[..] == old(Contents())[..n] + old(dst[..])[n..]
      ensures Contents() == old(Contents())[n..]
      ensures written == old(written) && consumed == old(consumed) + old(Contents())[..n]
    {
      hide Joined, LinkOk;
      NoBytes(chunks);
      n := 0;
      if dst.Length == 0 || head == null {
        return;
      }
      n := ReadLoop(dst);
      consumed := consumed + old(Contents())[..n];
    }

    /** The loop of Read. */
    method ReadLoop(dst: array<byte>) returns (totalRead: nat)
      requires Linked() && offset <= |Joined(chunks)| && length == |Contents()|
      modifies `head, `tail, `offset, `length, `chunks, dst
      ensures Linked() && offset <= |Joined(chunks)| && (forall c :: c in chunks ==> c in old(chunks))
      ensures totalRead == if dst.Length < |old(Contents())| then dst.Length else |old(Contents())|
      ensures dst[..] == old(Contents())[..totalRead] + old(dst[..])[totalRead..]
      ensures Contents() == old(Contents())[totalRead..] && length == |Contents()|
    {
      ghost var c0, d0 := Contents(), dst[..];
      totalRead := 0;
      var remaining: nat := dst.Length;
      while remaining > 0 && head != null
        invariant Linked() && offset <= |Joined(chunks)| && (forall c :: c in chunks ==> c in old(chunks))
        invariant totalRead <= |c0| && totalRead + remaining == dst.Length
        invariant Contents() == c0[totalRead..] && length == |Contents()|
        invariant dst[..] == c0[..totalRead] + d0[totalRead..]
        decreases |chunks|, remaining
      {
        var available := |head.data| - offset;
        if available == 0 {
          JoinedPiece(chunks, offset, 0);
          Advance();
          continue;
        }
        var toRead := available;
        if toRead > remaining {
          toRead := remaining;
        }
        totalRead := ReadChunk(dst, totalRead, toRead, c0, d0);
        remaining := remaining - toRead;
        if offset >= |head.data| {
          JoinedPiece(chunks, offset, 0);
          Advance();
        }
      }
    }

    /** Copies toRead bytes of the head chunk. */
    method ReadChunk(dst: array<byte>, totalRead: nat, toRead: nat, ghost c0: seq<byte>, ghost d0: seq<byte>)
      returns (n: nat)
      requires Linked() && offset <= |Joined(chunks)| && head != null && offset + toRead <= |head.data|
      requires totalRead <= |c0| && |d0| == dst.Length && totalRead + toRead <= dst.Length
      requires Contents() == c0[totalRead..] && length == |Contents()|
      requires dst[..] == c0[..totalRead] + d0[totalRead..]
      modifies `offset, `length, dst
      ensures Linked() && offset == old(offset) + toRead <= |Joined(chunks)|
      ensures n == totalRead + toRead <= |c0|
      ensures Contents() == c0[n..] && length == |Contents()|
      ensures dst[..] == c0[..n] + d0[n..]
    {
      var src := head.data[offset..offset + toRead];
      assert src == Contents()[..toRead] == c0[totalRead..totalRead + toRead];
      forall i | 0 <= i < toRead {
        dst[totalRead + i] := src[i];
      }
      n := totalRead + toRead;
      offset := offset + toRead;
      length := length - toRead;
      assert Contents() == old(Contents())[toRead..];
    }

    /** The first n bytes, without consuming them. */
    method Peek(n: int) returns (result: seq<byte>)
      requires Valid()
      ensures result == if n <= 0 then [] else if n <= |Contents()| then Contents()[..n] else Contents()
    {
      if n <= 0 || head == null {
        return [];
      }
      result := PeekLoop(n);
    }

    method PeekLoop(n: nat) returns (result: seq<byte>)
      requires Linked() && offset <= |Joined(chunks)|
      ensures result <= Contents() && |result| <= n && (|result| == n || result == Contents())
    {
      hide Joined;
      result := [];
      var remaining: nat := n;
      var current: Chunk?, at: nat := head, offset;
      ghost var k := 0;
      assert chunks[0..] == chunks;
      NoBytes([]);
      while remaining > 0 && current != null
        invariant |result| + remaining == n
        invariant k <= |chunks| && current == First(chunks[k..])
        invariant at <= if k == |chunks| then 0 else |chunks[k].data|
        invariant at <= |Joined(chunks[k..])| && Contents() == result + Joined(chunks[k..])[at..]
        decreases |chunks| - k, remaining
      {
        assert LinkOk(chunks, k) && chunks[k..][1..] == chunks[k + 1..];
        var available := |current.data| - at;
        if available == 0 {
          JoinedPiece(chunks[k..], at, 0);
          current := current.next;
          at := 0;
          k := k + 1;
          continue;
        }
        var toPeek := available;
        if toPeek > remaining {
          toPeek := remaining;
        }
        JoinedPiece(chunks[k..], at, toPeek);
        result := result + current.data[at..at + toPeek];
        remaining := remaining - toPeek;
        at := at + toPeek;
        if at >= |current.data| {
          current := current.next;
          at := 0;
          k := k + 1;
        }
      }
    }

    method Reset()
      requires Valid()
      modifies this
      ensures Valid() && chunks == [] && Contents() == [] && written == [] && consumed == []
    {
      head, tail, offset, length := null, null, 0, 0;
      chunks, written, consumed := [], [], [];
    }

    function Len(): nat
      reads this
    {
      length
    }
  }
}
