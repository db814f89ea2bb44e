/** Loops over byte arrays: memcpy and the exchange of neighbouring bytes. */
module ByteArrays {
  import opened Words

  /** memcpy(dst + at, src + off, n), the areas being in different arrays. */
  method CopyInto(dst: array<byte>, at: nat, src: array<byte>, off: nat, n: nat)
    requires dst != src && at + n <= dst.Length && off + n <= src.Length
    modifies dst
    ensures dst[at..at + n] == src[off..off + n]
    ensures forall k :: 0 <= k < dst.Length && !(at <= k < at + n) ==> dst[..][k] == old(dst[..])[k]
  {
    forall k | at <= k < at + n {
      dst[k] := src[off + (k - at)];
    }
  }

  /** Exchanging the bytes of every pair from `from` up to `to`. */
  method SwapPairs(buf: array<byte>, from: nat, to: nat)
    requires from <= to <= buf.Length && from % 2 == 0 && to % 2 == 0
    modifies buf
    ensures buf[..from] == old(buf[..from])
    ensures buf[from..to] == Swapped(old(buf[from..to]))
  {
    ghost var was := buf[..];
    var i := from;
    while i < to
      invariant from <= i <= to && i % 2 == 0
      invariant forall k :: from <= k < i ==> buf[k] == if k % 2 == 0 then was[k + 1] else was[k - 1]
      invariant forall k :: i <= k < to ==> buf[k] == was[k]
      invariant buf[..from] == was[..from]
    {
      buf[i], buf[i + 1] := buf[i + 1], buf[i];
      i := i + 2;
    }
    PairsSwapped(was, buf[..], from, to);
  }

  /** The two bytes of every 16-bit sample exchanged. */
  function Swapped(p: seq<byte>): (s: seq<byte>)
    requires |p| % 2 == 0
    ensures |s| == |p|
  {
    seq(|p|, i requires 0 <= i < |p| => if i % 2 == 0 then p[i + 1] else p[i - 1])
  }

  lemma PairsSwapped(before: seq<byte>, after: seq<byte>, from: nat, to: nat)
    requires from <= to <= |before| == |after| && from % 2 == 0 && to % 2 == 0
    requires forall k :: from <= k < to ==> after[k] == if k % 2 == 0 then before[k + 1] else before[k - 1]
    ensures after[from..to] == Swapped(before[from..to])
  {
    forall k | 0 <= k < to - from
      ensures after[from..to][k] == Swapped(before[from..to])[k]
    {
      assert after[from..to][k] == after[from + k] && (from + k) % 2 == k % 2;
    }
  }
}
