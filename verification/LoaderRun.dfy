/** The loader as it runs once (main and check_update_available in bootld/src/main.c):
    its code is a run of the update protocol. */
module LoaderRun {
  import opened Words
  import opened Crc32
  import opened NorFlash
  import opened UpdateFile
  import opened Loader
  import opened BootSelector
  import opened UpdateProtocol

  /** The check, then the sectors written so far. */
  function Writes(pads: seq<seq<octet>>): seq<Event> {
    if pads == [] then [Check] else Writes(pads[..|pads| - 1]) + [WriteSector(pads[|pads| - 1])]
  }

  lemma CheckStep(d: Device)
    requires d.mode == Checking
    ensures Step(d, Check)
         == d.(mode := if d.store.Present? && Accepted(d.store.data) then Applying(0) else LoaderDone)
  {
    hide Accepted;
  }

  lemma WriteStep(d: Device, k: nat, pad: seq<octet>)
    requires d.mode == Applying(k) && d.store.Present? && |d.store.data| >= HEAD_SIZE && |pad| == SECTOR
    ensures Step(d, WriteSector(pad))
         == if k * SECTOR < |Image(d.store.data)|
            then d.(prog := Overwrite(d.prog, k, SectorData(Image(d.store.data), k, pad)), mode := Applying(k + 1))
            else d.(mode := Applied)
  {
    hide Overwrite, SectorData;
  }

  /** The loop of update_appy, sector by sector. */
  lemma {:induction false} WritesRun(d: Device, pads: seq<seq<octet>>)
    requires d.mode == Checking && d.store.Present? && Accepted(d.store.data)
    requires forall k :: 0 <= k < |pads| ==> |pads[k]| == SECTOR && k * SECTOR < |Image(d.store.data)|
    ensures Run(d, Writes(pads))
         == d.(prog := Written(d.prog, Image(d.store.data), pads), mode := Applying(|pads|))
  {
    hide Run, Step, Overwrite, SectorData, Accepted;
    assert Accepted(d.store.data);
    if pads == [] {
      RunOne(d, Check);
      CheckStep(d);
    } else {
      var k := |pads| - 1;
      WritesRun(d, pads[..k]);
      RunSnoc(d, Writes(pads[..k]), WriteSector(pads[k]));
      WriteStep(Run(d, Writes(pads[..k])), k, pads[k]);
    }
  }

  lemma SectorsBelow(pads: seq<seq<octet>>, n: nat)
    requires Sectors(pads, n)
    ensures forall k :: 0 <= k < |pads| ==> k * SECTOR < n
    ensures |pads| * SECTOR >= n
  {
  }

  /** From a good file to the restart. */
  function Installing(pads: seq<seq<octet>>, pad: seq<octet>): seq<Event> {
    Writes(pads) + [WriteSector(pad)] + [RemoveUpdate] + [LoaderRestart]
  }

  lemma InstallRun(d: Device, pads: seq<seq<octet>>, pad: seq<octet>)
    requires d.mode == Checking && d.store.Present? && Accepted(d.store.data) && |pad| == SECTOR
    requires Sectors(pads, |Image(d.store.data)|)
    ensures Run(d, Installing(pads, pad))
         == d.(store := Absent, prog := Written(d.prog, Image(d.store.data), pads), mode := Off(CoreSoftware))
  {
    hide Accepted, Written, Overwrite, SectorData, Sectors, Run, Writes;
    SectorsBelow(pads, |Image(d.store.data)|);
    SectorSizes(pads, |Image(d.store.data)|);
    WritesRun(d, pads);
    var d1 := Run(d, Writes(pads));
    RunSnoc(d, Writes(pads), WriteSector(pad));
    RunSnoc(d, Writes(pads) + [WriteSector(pad)], RemoveUpdate);
    RunSnoc(d, Writes(pads) + [WriteSector(pad)] + [RemoveUpdate], LoaderRestart);
    WriteStep(d1, |pads|, pad);
    LastSteps(d1.(mode := Applied));
    hide Step;
  }

  lemma LastSteps(d: Device)
    requires d.mode == Applied
    ensures Step(Step(d, RemoveUpdate), LoaderRestart) == d.(store := Absent, mode := Off(CoreSoftware))
  {
  }

  lemma SectorSizes(pads: seq<seq<octet>>, n: nat)
    requires Sectors(pads, n)
    ensures forall k :: 0 <= k < |pads| ==> |pads[k]| == SECTOR
  {
  }

  lemma RefusedRun(d: Device)
    requires d.mode == Checking && !(d.store.Present? && Accepted(d.store.data))
    ensures Run(d, [Check] + [LoaderRestart]) == d.(mode := Off(CoreSoftware))
  {
    hide Accepted, Run;
    RunOne(d, Check);
    CheckStep(d);
    RunSnoc(d, [Check], LoaderRestart);
  }

  // ----- a software reset of the loader -----

  /** k sectors of the image were written over a program and the next one was left with
      `torn` in it, and no harm was done: nothing has changed yet, or everything that
      belongs to the image is there already. */
  ghost predicate Harmless(former: seq<octet>, image: seq<octet>, k: nat, torn: seq<octet>)
    requires |image| <= |former| && |former| % SECTOR == 0 && |torn| == SECTOR
  {
    k * SECTOR < |image| ==>
      var n := k * SECTOR;
      var m := if n + SECTOR <= |image| then n + SECTOR else |image|;
      || (former[..n] == image[..n] && former[n..n + SECTOR] == torn)
      || (torn[..m - n] == image[n..m] && former[m..|image|] == image[m..])
  }

  /** The sector whose turn it is left with `torn` in it: what was there before if the
      reset came between two sectors. Behind the last one there is none. */
  function Torn(prog: seq<octet>, k: nat, size: nat, torn: seq<octet>): (p: seq<octet>)
    ensures |p| == |prog|
  {
    if k * SECTOR < size && |torn| == SECTOR then Overwrite(prog, k, torn) else prog
  }

  lemma PartlyWritten(p: seq<octet>, former: seq<octet>, image: seq<octet>, k: nat, torn: seq<octet>)
    requires |image| <= |former| == |p| && |former| % SECTOR == 0 && |torn| == SECTOR
    requires FrontWritten(p, former, image, k)
    ensures var q := Torn(p, k, |image|, torn);
            q == former || image <= q <==> Harmless(former, image, k, torn)
  {
    if k * SECTOR < |image| {
      SectorsFit(|image|, |former|);
      var n := k * SECTOR;
      var m := if n + SECTOR <= |image| then n + SECTOR else |image|;
      Pieces(p, former, k, torn);
      hide FrontWritten, Overwrite;
      var q := Torn(p, k, |image|, torn);
      assert q == image[..n] + torn + former[n + SECTOR..];
      IsFormer(image[..n], torn, former, n);
      IsImage(q, former, image, torn, n, m);
    }
  }

  lemma Pieces(p: seq<octet>, former: seq<octet>, k: nat, torn: seq<octet>)
    requires |p| == |former| && (k + 1) * SECTOR <= |p| && |torn| == SECTOR
    requires p[k * SECTOR..] == former[k * SECTOR..]
    ensures Overwrite(p, k, torn) == p[..k * SECTOR] + torn + former[k * SECTOR + SECTOR..]
  {
    assert p[k * SECTOR..][SECTOR..] == former[k * SECTOR..][SECTOR..];
  }

  lemma IsFormer(front: seq<octet>, torn: seq<octet>, former: seq<octet>, n: nat)
    requires |front| == n && n + |torn| <= |former|
    ensures front + torn + former[n + |torn|..] == former <==> front == former[..n] && torn == former[n..n + |torn|]
  {
    var q := front + torn + former[n + |torn|..];
    assert q[..n] == front && q[n..n + |torn|] == torn;
    assert former == former[..n] + former[n..n + |torn|] + former[n + |torn|..];
  }

  lemma IsImage(q: seq<octet>, former: seq<octet>, image: seq<octet>, torn: seq<octet>, n: nat, m: nat)
    requires n <= m <= |image| <= |former| && m - n <= |torn| && n + |torn| <= |former|
    requires m == n + |torn| || m == |image|
    requires q == image[..n] + torn + former[n + |torn|..]
    ensures image <= q <==> torn[..m - n] == image[n..m] && former[m..|image|] == image[m..]
  {
    assert image == image[..n] + image[n..m] + image[m..];
    assert q[..|image|] == image[..n] + torn[..m - n] + former[m..|image|];
    assert q[..|image|][n..m] == torn[..m - n] && q[..|image|][m..] == former[m..|image|];
  }

  /** The loader after the check and k sectors. */
  function Interrupted(former: seq<octet>, f: seq<octet>, card: File, hint: u32, pads: seq<seq<octet>>): Device {
    Run(Device(card, Present(f), former, hint, Checking), Writes(pads))
  }

  /** The device as a software reset leaves it. */
  function Panicked(d: Device, k: nat, size: nat, torn: seq<octet>): Device {
    d.(prog := Torn(d.prog, k, size, torn), mode := Off(CpuSoftware))
  }

  /** The protection covers power failures only. After a software reset of the loader,
      in the middle of a sector as well as between two, the program starts at once, and
      what starts is the old or the new program exactly if no harm was done. */
  lemma LoaderPanic(former: seq<octet>, f: seq<octet>, card: File, hint: u32, pads: seq<seq<octet>>, torn: seq<octet>)
    requires |former| % SECTOR == 0 && Accepted(f) && |Image(f)| <= |former| && hint != HINT && |torn| == SECTOR
    requires forall k :: 0 <= k < |pads| ==> |pads[k]| == SECTOR && k * SECTOR < |Image(f)|
    ensures var d := Interrupted(former, f, card, hint, pads);
            d.mode == Applying(|pads|)
            && var d' := Step(Panicked(d, |pads|, |Image(f)|, torn), Boot);
               d'.mode == Working && (Whole(d'.prog, former, f, Absent) <==> Harmless(former, Image(f), |pads|, torn))
  {
    hide Accepted, Written, Torn, Overwrite, SectorData, Run, Writes, Harmless, FrontWritten, Image;
    WritesRun(Device(card, Present(f), former, hint, Checking), pads);
    SectorCount(pads, Image(f), former);
    WrittenFront(former, Image(f), pads);
    PartlyWritten(Written(former, Image(f), pads), former, Image(f), |pads|, torn);
  }

  lemma SectorCount(pads: seq<seq<octet>>, image: seq<octet>, former: seq<octet>)
    requires |image| <= |former| && |former| % SECTOR == 0
    requires forall k :: 0 <= k < |pads| ==> |pads[k]| == SECTOR && k * SECTOR < |image|
    ensures forall k :: 0 <= k < |pads| ==> |pads[k]| == SECTOR
    ensures |pads| * SECTOR <= RoundUp(|image|) <= |former|
  {
    SectorsFit(|image|, |former|);
    if |pads| > 0 {
      assert (|pads| - 1) * SECTOR < |image|;
    }
  }

  /** The witness: one sector written, nothing of the second, the first two different. */
  lemma LoaderPanicTears(former: seq<octet>, f: seq<octet>, pad: seq<octet>)
    requires |former| % SECTOR == 0 && Accepted(f) && |Image(f)| <= |former| && |pad| == SECTOR
    requires |Image(f)| >= 2 * SECTOR
    requires Image(f)[..SECTOR] != former[..SECTOR] && Image(f)[SECTOR..2 * SECTOR] != former[SECTOR..2 * SECTOR]
    ensures var d := Interrupted(former, f, Absent, 0, [pad]);
            var d' := Step(Panicked(d, 1, |Image(f)|, former[SECTOR..2 * SECTOR]), Boot);
            d'.mode == Working && !Whole(d'.prog, former, f, Absent)
  {
    hide Accepted, Image, Run, Writes, Step, Torn;
    LoaderPanic(former, f, Absent, 0, [pad], former[SECTOR..2 * SECTOR]);
  }

  /** The boot selector as it runs, on a sound table with a loader: a device that is off
      boots as the protocol says, hint register included. */
  method BootUp(register: RtcRegister, rr: Reset, loaderSize: nat, ghost d: Device) returns (p: Partition)
    requires d.mode == Off(rr) && d.hint == register.value && loaderSize > 0
    modifies register
    ensures Step(d, Boot) == d.(hint := register.value, mode := if p == FirmwareLoader then Checking else Working)
    ensures p == FirmwareLoader || p == Program
  {
    p := register.SelectedBootPartition(true, rr, loaderSize);
  }

  /** The loader's view of the device: the mounted store and the partition. */
  class Board {
    const flash: Flash
    var store: File

    constructor (f: Flash, s: File)
      ensures flash == f && store == s
    {
      flash, store := f, s;
    }

    /** From start to restart. Card and hint are not the loader's business. */
    method Start(ghost card: File, ghost hint: u32) returns (ghost events: seq<Event>)
      requires flash.cells.Length % SECTOR == 0
      requires store.Present? && Accepted(store.data) ==> |Image(store.data)| <= flash.cells.Length
      modifies this, flash.cells
      ensures Run(Device(card, old(store), old(flash.cells[..]), hint, Checking), events)
           == Device(card, store, flash.cells[..], hint, Off(CoreSoftware))
      ensures store == if old(store).Present? && Accepted(old(store).data) then Absent else old(store)
    {
      hide Accepted, Written, Sectors, Run, Installing;
      ghost var d := Device(card, store, flash.cells[..], hint, Checking);
      var applied := false;
      ghost var pads := [];
      if store.Present? {
        applied, pads := CheckAndApply(store.data, flash);
      }
      if applied {
        store := Absent;
        ghost var pad := seq(SECTOR, i => 0 as octet);
        InstallRun(d, pads, pad);
        events := Installing(pads, pad);
      } else {
        RefusedRun(d);
        events := [Check] + [LoaderRestart];
      }
    }
  }
}
