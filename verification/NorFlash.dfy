/** NOR flash as the partition calls show it: erasing sets every bit of a range,
    writing can only clear bits. */
module NorFlash {
  import opened Crc32

  const SECTOR := 4096

  function Cleared(n: nat): (s: seq<octet>)
    ensures |s| == n
  {
    seq(n, i => 0xFF)
  }

  function Anded(a: octet, b: octet): octet {
    a & b
  }

  function Masked(a: seq<octet>, b: seq<octet>): (s: seq<octet>)
    requires |a| == |b|
    ensures |s| == |a|
  {
    seq(|a|, i requires 0 <= i < |a| => Anded(a[i], b[i]))
  }

  /** A memory with one range replaced. */
  function Spliced(m: seq<octet>, addr: nat, data: seq<octet>): (s: seq<octet>)
    requires addr + |data| <= |m|
    ensures |s| == |m|
  {
    m[..addr] + data + m[addr + |data|..]
  }

  lemma FullBits(b: octet)
    ensures Anded(0xFF, b) == b
  {
  }

  /** What is written over erased cells is what was asked for. */
  lemma MaskedOverErased(b: seq<octet>)
    ensures Masked(Cleared(|b|), b) == b
  {
    hide Anded;
    forall i | 0 <= i < |b|
      ensures Masked(Cleared(|b|), b)[i] == b[i]
    {
      FullBits(b[i]);
    }
  }

  lemma SplicedTwice(m: seq<octet>, addr: nat, a: seq<octet>, b: seq<octet>)
    requires |a| == |b| && addr + |a| <= |m|
    ensures Spliced(Spliced(m, addr, a), addr, b) == Spliced(m, addr, b)
    ensures Spliced(m, addr, a)[addr..addr + |a|] == a
  {
  }

  class Flash {
    const cells: array<octet>

    constructor (size: nat)
      ensures fresh(cells) && cells[..] == Cleared(size)
    {
      cells := new octet[size](i => 0xFF);
      new;
      assert cells[..] == Cleared(size);
    }

    /** esp_partition_erase_range. */
    method Erase(addr: nat, len: nat)
      requires addr + len <= cells.Length
      modifies cells
      ensures cells[..] == Spliced(old(cells[..]), addr, Cleared(len))
    {
      forall k | addr <= k < addr + len {
        cells[k] := 0xFF;
      }
    }

    /** esp_partition_write. */
    method Write(addr: nat, src: array<octet>, len: nat)
      requires addr + len <= cells.Length && len <= src.Length && src != cells
      modifies cells
      ensures cells[..] == Spliced(old(cells[..]), addr, Masked(old(cells[addr..addr + len]), src[..len]))
    {
      hide Anded;
      ghost var want := Spliced(cells[..], addr, Masked(cells[addr..addr + len], src[..len]));
      ghost var before := cells[..];
      forall k | addr <= k < addr + len {
        cells[k] := Anded(cells[k], src[k - addr]);
      }
      forall k | 0 <= k < |want|
        ensures cells[k] == want[k]
      {
        if addr <= k < addr + len {
          assert want[k] == Anded(before[k], src[k - addr]);
        }
      }
      assert cells[..] == want;
    }

    /** esp_partition_read. */
    method Read(addr: nat, dst: array<octet>, at: nat, len: nat)
      requires addr + len <= cells.Length && at + len <= dst.Length && dst != cells
      modifies dst
      ensures dst[..] == Spliced(old(dst[..]), at, cells[addr..addr + len])
    {
      forall k | at <= k < at + len {
        dst[k] := cells[addr + (k - at)];
      }
    }

    /** Erase, then write: the range holds the data. */
    method Replace(addr: nat, src: array<octet>, len: nat)
      requires addr + len <= cells.Length && len <= src.Length && src != cells
      modifies cells
      ensures cells[..] == Spliced(old(cells[..]), addr, src[..len])
    {
      ghost var before := cells[..];
      Erase(addr, len);
      assert cells[addr..addr + len] == Cleared(len) by {
        SplicedTwice(before, addr, Cleared(len), src[..len]);
      }
      Write(addr, src, len);
      MaskedOverErased(src[..len]);
      SplicedTwice(before, addr, Cleared(len), src[..len]);
    }
  }
}
