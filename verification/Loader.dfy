/** The firmware loader (bootld/src/main.c): the checked file goes into the
    program partition, one sector at a time. */
module Loader {
  import opened Crc32
  import opened NorFlash
  import opened UpdateFile

  /** The flash taken by n octets, in whole sectors. */
  function RoundUp(n: nat): (r: nat)
    ensures n <= r < n + SECTOR && r % SECTOR == 0
  {
    (n + SECTOR - 1) / SECTOR * SECTOR
  }

  /** The sector of the image that is written next, filled up by the buffer's rest. */
  function SectorData(image: seq<octet>, k: nat, pad: seq<octet>): (s: seq<octet>)
    requires k * SECTOR < |image| && |pad| == SECTOR
    ensures |s| == SECTOR
  {
    if (k + 1) * SECTOR <= |image| then image[k * SECTOR..(k + 1) * SECTOR]
    else image[k * SECTOR..] + pad[|image| - k * SECTOR..]
  }

  function Overwrite(prog: seq<octet>, k: nat, data: seq<octet>): (p: seq<octet>)
    ensures |p| == |prog|
  {
    if |data| == SECTOR && (k + 1) * SECTOR <= |prog| then Spliced(prog, k * SECTOR, data) else prog
  }

  /** The partition after the first sectors of the image were written over prog, the
      buffer holding pads[k] when sector k was read into it. */
  function Written(prog: seq<octet>, image: seq<octet>, pads: seq<seq<octet>>): (p: seq<octet>)
    ensures |p| == |prog|
  {
    if pads == [] then prog
    else
      var k := |pads| - 1;
      var p := Written(prog, image, pads[..k]);
      if k * SECTOR < |image| && |pads[k]| == SECTOR then Overwrite(p, k, SectorData(image, k, pads[k])) else p
  }

  /** One buffer state per sector. */
  ghost predicate Sectors(pads: seq<seq<octet>>, n: nat) {
    && |pads| * SECTOR == RoundUp(n)
    && forall k :: 0 <= k < |pads| ==> |pads[k]| == SECTOR
  }

  /** fread into the front of a buffer whose rest keeps its old contents. */
  method ReadChunk(file: seq<octet>, pos: nat, buff: array<octet>) returns (rd: nat)
    requires pos <= |file| && buff.Length == SECTOR
    modifies buff
    ensures rd == (if |file| - pos > SECTOR then SECTOR else |file| - pos)
    ensures buff[..rd] == file[pos..pos + rd] && buff[rd..] == old(buff[rd..])
  {
    rd := if |file| - pos > SECTOR then SECTOR else |file| - pos;
    forall i | 0 <= i < rd {
      buff[i] := file[pos + i];
    }
  }

  /** A buffer whose front was read from the file. */
  lemma SectorFromRead(file: seq<octet>, k: nat, buff: seq<octet>, pad: seq<octet>, rd: nat)
    requires HEAD_SIZE + k * SECTOR < |file| && |buff| == |pad| == SECTOR
    requires rd == (if |file| - HEAD_SIZE - k * SECTOR > SECTOR then SECTOR else |file| - HEAD_SIZE - k * SECTOR)
    requires buff[..rd] == file[HEAD_SIZE + k * SECTOR..HEAD_SIZE + k * SECTOR + rd] && buff[rd..] == pad[rd..]
    ensures buff == SectorData(Image(file), k, pad)
  {
    var image, at := Image(file), k * SECTOR;
    assert buff == buff[..rd] + buff[rd..];
    SliceOfTail(file, HEAD_SIZE, at, at + rd);
    assert buff[..rd] == image[at..at + rd];
    if at + SECTOR > |image| {
      assert at + rd == |image| && image[at..] == image[at..|image|];
    }
  }

  lemma SliceOfTail(s: seq<octet>, head: nat, a: nat, b: nat)
    requires a <= b && head + b <= |s|
    ensures s[head..][a..b] == s[head + a..head + b]
  {
  }

  /** One turn of the loop of update_appy, for sector k. */
  method ApplySector(file: seq<octet>, k: nat, buff: array<octet>, flash: Flash) returns (rd: nat)
    requires HEAD_SIZE + k * SECTOR < |file| && buff.Length == SECTOR && buff != flash.cells
    requires (k + 1) * SECTOR <= flash.cells.Length
    modifies buff, flash.cells
    ensures rd == (if |file| - HEAD_SIZE - k * SECTOR > SECTOR then SECTOR else |file| - HEAD_SIZE - k * SECTOR)
    ensures flash.cells[..] == Overwrite(old(flash.cells[..]), k, SectorData(Image(file), k, old(buff[..])))
  {
    ghost var pad := buff[..];
    rd := ReadChunk(file, HEAD_SIZE + k * SECTOR, buff);
    SectorFromRead(file, k, buff[..], pad, rd);
    assert buff[..SECTOR] == buff[..];
    flash.Replace(k * SECTOR, buff, SECTOR);
  }

  lemma WrittenSnoc(prog: seq<octet>, image: seq<octet>, pads: seq<seq<octet>>, pad: seq<octet>)
    requires |pads| * SECTOR < |image| && |pad| == SECTOR
    ensures Written(prog, image, pads + [pad])
         == Overwrite(Written(prog, image, pads), |pads|, SectorData(image, |pads|, pad))
  {
    assert (pads + [pad])[..|pads|] == pads;
  }

  /** What is written so far is the front of the image, and the rest is as before. */
  ghost predicate FrontWritten(p: seq<octet>, prog: seq<octet>, image: seq<octet>, k: nat)
    requires |p| == |prog|
  {
    && (if k * SECTOR <= |image| then k * SECTOR <= |p| && p[..k * SECTOR] == image[..k * SECTOR] else image <= p)
    && (k * SECTOR <= |p| ==> p[k * SECTOR..] == prog[k * SECTOR..])
  }

  lemma SectorAdvances(p: seq<octet>, prog: seq<octet>, image: seq<octet>, k: nat, pad: seq<octet>)
    requires |p| == |prog| && FrontWritten(p, prog, image, k) && k * SECTOR < |image| && |pad| == SECTOR
    requires (k + 1) * SECTOR <= |p|
    ensures FrontWritten(Overwrite(p, k, SectorData(image, k, pad)), prog, image, k + 1)
  {
    var data := SectorData(image, k, pad);
    var q := Overwrite(p, k, data);
    assert q == p[..k * SECTOR] + data + p[k * SECTOR + SECTOR..];
    assert q[(k + 1) * SECTOR..] == p[k * SECTOR..][SECTOR..];
    assert prog[(k + 1) * SECTOR..] == prog[k * SECTOR..][SECTOR..];
    if (k + 1) * SECTOR <= |image| {
      assert image[..(k + 1) * SECTOR] == image[..k * SECTOR] + data;
    } else {
      assert image == image[..k * SECTOR] + image[k * SECTOR..];
      assert image[k * SECTOR..] <= data;
    }
  }

  lemma {:induction false} WrittenFront(prog: seq<octet>, image: seq<octet>, pads: seq<seq<octet>>)
    requires |image| <= |prog| && |prog| % SECTOR == 0 && |pads| * SECTOR <= RoundUp(|image|)
    requires forall k :: 0 <= k < |pads| ==> |pads[k]| == SECTOR
    ensures FrontWritten(Written(prog, image, pads), prog, image, |pads|)
  {
    if pads != [] {
      hide FrontWritten, Overwrite, SectorData;
      var k := |pads| - 1;
      WrittenFront(prog, image, pads[..k]);
      SectorsFit(|image|, |prog|);
      SectorAdvances(Written(prog, image, pads[..k]), prog, image, k, pads[k]);
    } else {
      assert prog[..0] == image[..0];
    }
  }

  /** update_appy: whole sectors are erased and written, so the last one also gets
      what the buffer still held behind the end of the file. */
  method UpdateApply(file: seq<octet>, flash: Flash) returns (ghost pads: seq<seq<octet>>)
    requires |file| >= HEAD_SIZE && flash.cells.Length % SECTOR == 0
    requires |file| - HEAD_SIZE <= flash.cells.Length
    modifies flash.cells
    ensures Sectors(pads, |file| - HEAD_SIZE)
    ensures flash.cells[..] == Written(old(flash.cells[..]), Image(file), pads)
    ensures var n := |file| - HEAD_SIZE;
            && RoundUp(n) <= flash.cells.Length
            && flash.cells[..n] == Image(file)
            && flash.cells[RoundUp(n)..] == old(flash.cells[RoundUp(n)..])
  {
    hide Overwrite, SectorData, Written, FrontWritten;
    ghost var prog, n := flash.cells[..], |file| - HEAD_SIZE;
    SectorsFit(n, flash.cells.Length);
    var buff := new octet[SECTOR];
    var addr := 0;
    pads := [];
    NothingWritten(prog, Image(file));
    while HEAD_SIZE + addr < |file|
      invariant |pads| * SECTOR <= RoundUp(n) && addr == (if |pads| * SECTOR < n then |pads| * SECTOR else n)
      invariant |pads| * SECTOR >= n ==> |pads| * SECTOR == RoundUp(n)
      invariant forall k :: 0 <= k < |pads| ==> |pads[k]| == SECTOR
      invariant flash.cells[..] == Written(prog, Image(file), pads)
      decreases |file| - addr
    {
      SectorFits(addr, n);
      WrittenSnoc(prog, Image(file), pads, buff[..]);
      ghost var pad := buff[..];
      var rd := ApplySector(file, addr / SECTOR, buff, flash);
      pads := pads + [pad];
      addr := addr + rd;
    }
    WrittenFront(prog, Image(file), pads);
    FrontIsImage(flash.cells[..], prog, Image(file), |pads|);
  }

  lemma NothingWritten(prog: seq<octet>, image: seq<octet>)
    ensures Written(prog, image, []) == prog
  {
  }

  lemma FrontIsImage(p: seq<octet>, prog: seq<octet>, image: seq<octet>, k: nat)
    requires |p| == |prog| && FrontWritten(p, prog, image, k) && |image| <= k * SECTOR <= |p|
    ensures p[..|image|] == image && p[k * SECTOR..] == prog[k * SECTOR..]
  {
  }

  lemma SectorsFit(n: nat, size: nat)
    requires n <= size && size % SECTOR == 0
    ensures RoundUp(n) <= size
  {
  }

  lemma SectorFits(addr: nat, n: nat)
    requires addr < n && addr % SECTOR == 0
    ensures addr + SECTOR <= RoundUp(n)
  {
  }

  /** check_update_available up to the restart: true when an image was put in. */
  method CheckAndApply(file: seq<octet>, flash: Flash) returns (applied: bool, ghost pads: seq<seq<octet>>)
    requires flash.cells.Length % SECTOR == 0
    requires Accepted(file) ==> |file| - HEAD_SIZE <= flash.cells.Length
    modifies flash.cells
    ensures applied == Accepted(file)
    ensures applied ==> flash.cells[..|file| - HEAD_SIZE] == Image(file)
    ensures !applied ==> flash.cells[..] == old(flash.cells[..])
    ensures applied ==> Sectors(pads, |file| - HEAD_SIZE)
    ensures applied ==> flash.cells[..] == Written(old(flash.cells[..]), Image(file), pads)
  {
    pads := [];
    applied := UpdateCheck(file);
    if applied {
      pads := UpdateApply(file, flash);
    }
  }

  /** From the packer to the partition: the image arrives. */
  method DeliverImage(image: seq<octet>, flash: Flash) returns (applied: bool)
    requires flash.cells.Length % SECTOR == 0 && |image| <= flash.cells.Length
    modifies flash.cells
    ensures applied && flash.cells[..|image|] == image
  {
    hide Accepted;
    PackedIsAccepted(image);
    var file := Pack(image);
    ghost var pads;
    applied, pads := CheckAndApply(file, flash);
  }
}
