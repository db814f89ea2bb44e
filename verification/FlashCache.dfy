/** The one-line write-back cache of the loader's flash driver
    (bootld/boards/board_flash.c): 64 KiB of RAM over NOR flash. */
module FlashCache {
  import opened Crc32
  import opened NorFlash

  const LINE := 0x1_0000
  const VERIFY := 4096
  const INVALID := 0xFFFF_FFFF

  /** Where a raw read and the cached view agree: exactly where no octet of the
      range lies in the cached line with another value. */
  lemma RawReadAgrees(m: seq<octet>, line: nat, buf: seq<octet>, a: nat, n: nat)
    requires line + |buf| <= |m| && a + n <= |m|
    ensures Spliced(m, line, buf)[a..a + n] == m[a..a + n] <==>
            forall k :: a <= k < a + n && line <= k < line + |buf| ==> m[k] == buf[k - line]
  {
    var v := Spliced(m, line, buf);
    assert forall k :: 0 <= k < |m| ==> v[k] == if line <= k < line + |buf| then buf[k - line] else m[k];
    if v[a..a + n] == m[a..a + n] {
      forall k | a <= k < a + n && line <= k < line + |buf|
        ensures m[k] == buf[k - line]
      {
        assert v[a..a + n][k - a] == m[a..a + n][k - a];
      }
    }
  }

  /** Writing into the line buffer is writing into the view. */
  lemma WriteThrough(m: seq<octet>, line: nat, buf: seq<octet>, off: nat, data: seq<octet>)
    requires line + |buf| <= |m| && off + |data| <= |buf|
    ensures Spliced(m, line, Spliced(buf, off, data)) == Spliced(Spliced(m, line, buf), line + off, data)
  {
  }

  lemma SplicedSame(m: seq<octet>, addr: nat, data: seq<octet>)
    requires addr + |data| <= |m| && m[addr..addr + |data|] == data
    ensures Spliced(m, addr, data) == m
  {
  }

  lemma LineStart(addr: nat, size: nat)
    requires addr < size && size % LINE == 0
    ensures addr - addr % LINE + LINE <= size && (addr - addr % LINE) % LINE == 0
  {
  }

  class Cache {
    const flash: Flash
    const buf: array<octet>
    var line: nat

    ghost predicate Valid()
      reads this
    {
      && buf.Length == LINE && buf != flash.cells
      && flash.cells.Length % LINE == 0 && flash.cells.Length < INVALID
      && (line != INVALID ==> line % LINE == 0 && line + LINE <= flash.cells.Length)
    }

    /** What the memory is meant to hold: flash, overlaid by the cached line. */
    ghost function View(): seq<octet>
      reads this, buf, flash.cells
      requires Valid()
    {
      if line == INVALID then flash.cells[..] else Spliced(flash.cells[..], line, buf[..])
    }

    /** board_flash_init. */
    constructor (f: Flash)
      requires f.cells.Length % LINE == 0 && f.cells.Length < INVALID
      ensures Valid() && flash == f && fresh(buf) && View() == f.cells[..]
    {
      flash := f;
      buf := new octet[LINE](i => 0);
      line := INVALID;
    }

    /** board_flash_read goes to the flash, past the cache. */
    method Read(addr: nat, dst: array<octet>, at: nat, len: nat)
      requires Valid() && addr + len <= flash.cells.Length
      requires at + len <= dst.Length && dst != flash.cells
      modifies dst
      ensures dst[..] == Spliced(old(dst[..]), at, flash.cells[addr..addr + len])
    {
      flash.Read(addr, dst, at, len);
    }

    /** One turn of the verify loop: a read and a memcmp. */
    method ChunkMatches(count: nat, verify: array<octet>) returns (same: bool)
      requires Valid() && line != INVALID && count + VERIFY <= LINE
      requires verify.Length == VERIFY && verify != buf && verify != flash.cells
      modifies verify
      ensures same == (flash.cells[line + count..line + count + VERIFY] == buf[count..count + VERIFY])
    {
      Read(line + count, verify, 0, VERIFY);
      assert verify[..] == flash.cells[line + count..line + count + VERIFY];
      same := buf[count..count + VERIFY] == verify[..];
    }

    /** The verify loop of the flush: does the flash hold the line already? */
    method LineMatches() returns (same: bool)
      requires Valid() && line != INVALID
      ensures same == (flash.cells[line..line + LINE] == buf[..])
    {
      ghost var cached, stored := buf[..], flash.cells[line..line + LINE];
      var verify := new octet[VERIFY];
      var count := 0;
      same := true;
      while count < LINE
        invariant 0 <= count <= LINE && count % VERIFY == 0
        invariant cached == buf[..] && stored == flash.cells[line..line + LINE]
        invariant stored[..count] == cached[..count]
      {
        same := ChunkMatches(count, verify);
        assert stored[count..count + VERIFY] == flash.cells[line + count..line + count + VERIFY];
        assert cached[count..count + VERIFY] == buf[count..count + VERIFY];
        if !same {
          return;
        }
        assert stored[..count + VERIFY] == stored[..count] + stored[count..count + VERIFY];
        assert cached[..count + VERIFY] == cached[..count] + cached[count..count + VERIFY];
        count := count + VERIFY;
      }
    }

    /** board_flash_flush: the flash becomes what the view was; the view stays. */
    method Flush()
      requires Valid()
      modifies this`line, flash.cells
      ensures Valid() && line == INVALID
      ensures View() == old(View()) && flash.cells[..] == View()
    {
      if line == INVALID {
        return;
      }
      var same := LineMatches();
      if same {
        SplicedSame(flash.cells[..], line, buf[..]);
        assert flash.cells[..][line..line + LINE] == flash.cells[line..line + LINE];
      } else {
        assert buf[..LINE] == buf[..];
        flash.Replace(line, buf, LINE);
      }
      line := INVALID;
    }

    /** Making a line the cached one: flush, then fill the buffer from flash. */
    method Load(newLine: nat)
      requires Valid() && newLine != line
      requires newLine % LINE == 0 && newLine + LINE <= flash.cells.Length
      modifies this`line, buf, flash.cells
      ensures Valid() && line == newLine && View() == old(View())
    {
      Flush();
      Read(newLine, buf, 0, LINE);
      line := newLine;
      assert buf[..] == flash.cells[..][line..line + LINE];
      SplicedSame(flash.cells[..], line, buf[..]);
    }

    /** board_flash_write, for data inside one line: the view changes on
        [addr, addr + len) and nowhere else. */
    method Write(addr: nat, src: array<octet>, len: nat)
      requires Valid() && addr < flash.cells.Length && addr % LINE + len <= LINE
      requires len <= src.Length && src != buf && src != flash.cells
      modifies this`line, buf, flash.cells
      ensures Valid()
      ensures addr + len <= flash.cells.Length
      ensures View() == Spliced(old(View()), addr, src[..len])
    {
      hide Spliced;
      LineStart(addr, flash.cells.Length);
      var newLine := addr - addr % LINE;
      if newLine != line {
        Load(newLine);
      }
      WriteThrough(flash.cells[..], line, buf[..], addr % LINE, src[..len]);
      CopyIn(addr % LINE, src, len);
    }

    /** memcpy into the line buffer. */
    method CopyIn(off: nat, src: array<octet>, len: nat)
      requires off + len <= buf.Length && len <= src.Length && src != buf
      modifies buf
      ensures buf[..] == Spliced(old(buf[..]), off, src[..len])
    {
      forall k | off <= k < off + len {
        buf[k] := src[k - off];
      }
    }
  }
}
