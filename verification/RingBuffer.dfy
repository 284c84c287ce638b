/** The fixed-size overwriting ring buffer of pkg/audio/ringbuffer.go. */
module RingBuffers {
  import opened Common

  lemma LastSnoc<T>(s: seq<T>, x: T, n: nat)
    requires n > 0
    ensures Last(s + [x], n) == (if |Last(s, n)| < n then Last(s, n) else Last(s, n)[1..]) + [x]
  {}

  lemma {:induction false} Wraps(x: nat, size: nat)
    requires x < size
    ensures (x + 1) % size == if x + 1 == size then 0 else x + 1
  {
    if x + 1 < size {
      SmallMod(x + 1, size);
    }
  }

  lemma SmallMod(x: nat, m: nat)
    requires x < m
    ensures x % m == x
  {}

  /** Index x counted round a ring of the given size, for x below twice that size. */
  function Wrap(x: nat, size: nat): nat {
    if x < size then x else x - size
  }

  /** n elements of the ring b from index r on. */
  function Window<T>(b: seq<T>, r: nat, n: nat): seq<T>
    requires r < |b| && n <= |b|
  {
    seq(n, i requires 0 <= i < n => b[Wrap(r + i, |b|)])
  }

  lemma {:induction false} WindowPut<T>(b: seq<T>, r: nat, n: nat, v: T)
    requires r < |b| && n <= |b|
    ensures var w := Wrap(r + n, |b|);
      w < |b| &&
      if n < |b| then Window(b[w := v], r, n + 1) == Window(b, r, n) + [v]
      else Window(b[w := v], Wrap(r + 1, |b|), n) == Window(b, r, n)[1..] + [v]
  {
    var w := Wrap(r + n, |b|);
    if n < |b| {
      var x, y := Window(b[w := v], r, n + 1), Window(b, r, n) + [v];
      forall i | 0 <= i <= n ensures x[i] == y[i] {
        assert i < n ==> Wrap(r + i, |b|) != w;
      }
    } else {
      var x, y := Window(b[w := v], Wrap(r + 1, |b|), n), Window(b, r, n)[1..] + [v];
      forall i | 0 <= i < n ensures x[i] == y[i] {
        assert Wrap(Wrap(r + 1, |b|) + i, |b|) == if i == n - 1 then r else Wrap(r + i + 1, |b|);
      }
    }
  }

  lemma {:induction false} WindowDrop<T>(b: seq<T>, r: nat, n: nat, k: nat)
    requires r < |b| && k <= n <= |b|
    ensures Wrap(r + k, |b|) < |b| && Window(b, Wrap(r + k, |b|), n - k) == Window(b, r, n)[k..]
  {
    var x, y := Window(b, Wrap(r + k, |b|), n - k), Window(b, r, n)[k..];
    forall i | 0 <= i < n - k ensures x[i] == y[i] {
      assert Wrap(Wrap(r + k, |b|) + i, |b|) == Wrap(r + (k + i), |b|);
    }
  }

  class RingBuffer<T(0)> {
    const buf: array<T>
    const size: nat
    var write: nat
    var read: nat
    var count: nat

    ghost predicate Valid()
      reads this
    {
      && 0 < size == buf.Length && read < size && count <= size
      && write == Wrap(read + count, size)
    }

    /** The readable elements, oldest first. */
    ghost function Contents(): (s: seq<T>)
      requires Valid()
      reads this, buf
    {
      Window(buf[..], read, count)
    }

    constructor (size: nat)
      requires size > 0
      ensures Valid() && fresh(buf) && this.size == size && Contents() == []
    {
      this.buf := new T[size];
      this.size := size;
      write, read, count := 0, 0, 0;
    }

    method Put(v: T)
      requires Valid()
      modifies this, buf
      ensures Valid()
      ensures Contents() == (if |old(Contents())| < size then old(Contents()) else old(Contents())[1..]) + [v]
    {
      Wraps(write, size);
      Wraps(read, size);
      WindowPut(buf[..], read, count, v);
      buf[write] := v;
      assert buf[..] == old(buf[..])[old(write) := v];
      write := (write + 1) % size;
      if count < size {
        count := count + 1;
      } else {
        read := (read + 1) % size;
      }
    }

    /** Keeps the newest `size` elements of what was there followed by data. */
    method Write(data: seq<T>)
      requires Valid()
      modifies this, buf
      ensures Valid() && Contents() == Last(old(Contents()) + data, size)
    {
      ghost var c := Contents();
      assert c + data[..0] == c;
      for i := 0 to |data|
        invariant Valid() && Contents() == Last(c + data[..i], size)
      {
        LastSnoc(c + data[..i], data[i], size);
        assert c + data[..i + 1] == c + data[..i] + [data[i]];
        Put(data[i]);
      }
      assert data[..|data|] == data;
    }

    /** Moves the oldest elements to dst, as many as fit. */
    method Read(dst: array<T>) returns (n: nat)
      requires Valid() && dst != buf
      modifies this, dst
      ensures Valid() && n == if dst.Length < |old(Contents())| then dst.Length else |old(Contents())|
      ensures dst[..] == old(Contents())[..n] + old(dst[..])[n..]
      ensures Contents() == old(Contents())[n..]
    {
      n := if dst.Length > count then count else dst.Length;
      WindowDrop(buf[..], read, count, n);
      CopyAndAdvance(dst, n);
      count := count - n;
    }

    /** The loop of Read: copies n elements and moves the read position past them. */
    method CopyAndAdvance(dst: array<T>, n: nat)
      requires Valid() && dst != buf && n <= count && n <= dst.Length
      modifies this`read, dst
      ensures read == Wrap(old(read) + n, size) < size
      ensures dst[..] == old(Contents())[..n] + old(dst[..])[n..]
    {
      ghost var c, read0, d0 := Contents(), read, dst[..];
      assert forall j :: 0 <= j < n ==> c[j] == buf[..][Wrap(read0 + j, size)];
      hide Window;
      for i := 0 to n
        invariant read == Wrap(read0 + i, size) < size
        invariant forall j :: 0 <= j < dst.Length ==> dst[j] == if j < i then c[j] else d0[j]
      {
        Wraps(read, size);
        assert c[i] == buf[..][read];
        dst[i] := buf[read];
        read := (read + 1) % size;
      }
      assert dst[..] == c[..n] + d0[n..];
    }

    /** Like Read, but nothing is removed. */
    method Peek(dst: array<T>) returns (n: nat)
      requires Valid() && dst != buf
      modifies dst
      ensures n == if dst.Length < |Contents()| then dst.Length else |Contents()|
      ensures dst[..] == Contents()[..n] + old(dst[..])[n..]
    {
      n := if dst.Length > count then count else dst.Length;
      var readPos := read;
      ghost var c, d0 := Contents(), dst[..];
      for i := 0 to n
        invariant readPos == Wrap(read + i, size) < size
        invariant Contents() == c
        invariant forall j :: 0 <= j < dst.Length ==> dst[j] == if j < i then c[j] else d0[j]
      {
        Wraps(readPos, size);
        assert c[i] == buf[..][readPos];
        dst[i] := buf[readPos];
        readPos := (readPos + 1) % size;
      }
      assert dst[..] == c[..n] + d0[n..];
    }

    method Reset()
      requires Valid()
      modifies this
      ensures Valid() && Contents() == []
    {
      write, read, count := 0, 0, 0;
    }

    function Len(): nat
      requires Valid()
      reads this, buf
      ensures Len() == |Contents()|
    {
      count
    }
  }
}
