/** The byte ring buffer between the network task and the audio reader
    (jbuf_init, jbuf_write, jbuf_read, jbuf_count). One byte of the storage
    always stays free, so equal indexes mean "empty". */
module JitterRing {
  import opened Words

  /** The bytes from index r up to index w, going around the end of the storage. */
  function Span(s: seq<byte>, r: nat, w: nat): (c: seq<byte>)
    requires r < |s| && w < |s|
    ensures |c| == Fill(|s|, r, w) < |s|
  {
    if r <= w then s[r..w] else s[r..] + s[..w]
  }

  /** The arithmetic of jbuf_count on the two indexes. */
  function Fill(size: nat, r: nat, w: nat): nat
    requires r < size && w < size
  {
    if r == w then 0 else if r < w then w - r else size - (r - w)
  }

  function Next(size: nat, p: nat): (q: nat)
    requires p < size
    ensures q < size
  {
    if p + 1 >= size then 0 else p + 1
  }

  /** Storing a byte at w and then moving w appends that byte to the queue. */
  lemma SpanPush(s: seq<byte>, r: nat, w: nat, x: byte)
    requires r < |s| && w < |s| && Fill(|s|, r, w) < |s| - 1
    ensures Span(s[w := x], r, w) == Span(s, r, w)
    ensures Span(s[w := x], r, Next(|s|, w)) == Span(s, r, w) + [x]
  {
    var t := s[w := x];
    assert t[w] == x;
  }

  /** Moving r removes the first byte of the queue, which is the byte at r. */
  lemma SpanPop(s: seq<byte>, r: nat, w: nat)
    requires r < |s| && w < |s| && r != w
    ensures Span(s, r, w) == [s[r]] + Span(s, Next(|s|, r), w)
  {
  }

  lemma EmptyWhenEqual(s: seq<byte>, r: nat, w: nat)
    requires r < |s| && w < |s|
    ensures r == w <==> Span(s, r, w) == []
  {
  }

  class Ring {
    const buf: array<byte>
    var w: nat
    var r: nat

    ghost predicate Valid()
      reads this
    {
      buf.Length > 0 && w < buf.Length && r < buf.Length
    }

    ghost function Contents(): seq<byte>
      reads this, buf
      requires Valid()
    {
      Span(buf[..], r, w)
    }

    /** jbuf_init: a zeroed buffer, nothing queued. */
    constructor (size: nat)
      requires size > 0
      ensures Valid() && Contents() == [] && buf.Length == size && fresh(buf)
    {
      buf := new byte[size](i => 0);
      w, r := 0, 0;
    }

    method Clear()
      requires Valid()
      modifies this
      ensures Valid() && Contents() == []
    {
      r := 0;
      w := 0;
    }

    method Count() returns (n: nat)
      requires Valid()
      ensures n == |Contents()|
    {
      n := if r == w then 0 else if r < w then w - r else buf.Length - (r - w);
    }

    /** jbuf_write: the whole block or nothing, told by the returned count. */
    method Write(src: array<byte>, off: nat, size: nat) returns (n: nat)
      requires Valid() && src != buf && off + size <= src.Length
      modifies this, buf
      ensures Valid()
      ensures n == if size > buf.Length - 1 - |old(Contents())| then 0 else size
      ensures Contents() == old(Contents()) + src[off..off + n]
    {
      hide Span;
      var used := Count();
      var free := buf.Length - 1 - used;
      if size > free {
        return 0;
      }
      for i := 0 to size
        invariant Valid()
        invariant Contents() == old(Contents()) + src[off..off + i]
      {
        assert Fill(buf.Length, r, w) == |Contents()|;
        SpanPush(buf[..], r, w, src[off + i]);
        ghost var before := buf[..];
        buf[w] := src[off + i];
        assert buf[..] == before[w := src[off + i]];
        w := if w + 1 >= buf.Length then 0 else w + 1;
        assert src[off..off + i + 1] == src[off..off + i] + [src[off + i]];
      }
      n := size;
    }

    /** One turn of the loop of jbuf_read. */
    method PopByte() returns (x: byte)
      requires Valid() && r != w
      modifies this`r
      ensures Valid()
      ensures old(Contents()) == [x] + Contents()
    {
      SpanPop(buf[..], r, w);
      x := buf[r];
      r := if r + 1 >= buf.Length then 0 else r + 1;
    }

    /** jbuf_read: at most size bytes from the front of the queue, in order. */
    method Read(dst: array<byte>, size: nat) returns (n: nat)
      requires Valid() && dst != buf && size <= dst.Length
      modifies this, dst
      ensures Valid()
      ensures n == if size <= |old(Contents())| then size else |old(Contents())|
      ensures old(Contents()) == dst[..n] + Contents()
      ensures dst[n..] == old(dst[n..])
    {
      hide Span, Fill, Next;
      ghost var queued := Contents();
      n := 0;
      while n < size
        invariant Valid() && n <= size && n <= |queued|
        invariant dst[..n] == queued[..n] && Contents() == queued[n..]
        invariant dst[n..] == old(dst[n..])
      {
        EmptyWhenEqual(buf[..], r, w);
        if r == w {
          break;
        }
        ghost var head, tail := dst[..n], dst[n..];
        var x := PopByte();
        assert queued[n..] == [x] + queued[n + 1..];
        dst[n] := x;
        assert dst[..n] == head && dst[n + 1..] == tail[1..];
        n := n + 1;
      }
    }
  }
}
