/** A firmware update across restarts: the program copies UPDATE.FW from the card
    to the internal store and asks for the loader; the loader checks it, writes
    the program partition and removes it. Power may fail between any two steps
    and in the middle of writing a sector or a file. */
module UpdateProtocol {
  import opened Words
  import opened Crc32
  import opened NorFlash
  import opened UpdateFile
  import opened Loader
  import opened BootSelector

  datatype File = Absent | Present(data: seq<octet>)

  datatype Mode =
    | Off(reset: Reset)
    // the program (moveUpdateToTheInternalStorage and safeRestart)
    | Working | Copying(done: nat) | CopyFailed | Copied | CardCleared | Leaving
    // the loader (update_check, update_appy, update_remove)
    | Checking | Applying(sectors: nat) | Applied | LoaderDone

  /** Card file, file in the internal store, program partition, hint register. */
  datatype Device = Device(card: File, store: File, prog: seq<octet>, hint: u32, mode: Mode)

  datatype Event =
    | StartMove | CopyChunk(n: nat) | WriteError | RemoveCopy | CloseCopy | RemoveFromCard | SetHint | Restart
    | Panic
    | Boot | Check | WriteSector(pad: seq<octet>) | RemoveUpdate | LoaderRestart
    | PowerLoss(reset: HardReset, hint: u32, kept: nat, torn: seq<octet>)

  function Started(d: Device, rr: Reset): Device {
    var hint := if d.hint == HINT && rr != DeepSleep then 0 else d.hint;
    match Starts(rr, d.hint)
    case FirmwareLoader => d.(hint := hint, mode := Checking)
    case _ => d.(hint := hint, mode := Working)
  }

  /** A power failure: hardware reset, hint register kept or lost, a file being
      copied cut anywhere, a sector being written left with anything in it. */
  function Interrupted(d: Device, e: Event): Device
    requires e.PowerLoss?
  {
    var store := if d.mode.Copying? && d.store.Present? && e.kept <= |d.store.data|
                 then Present(d.store.data[..e.kept]) else d.store;
    var prog := if d.mode.Applying? then Overwrite(d.prog, d.mode.sectors, e.torn) else d.prog;
    d.(store := store, prog := prog,
       hint := if e.hint == d.hint then d.hint else 0,
       mode := Off(e.reset))
  }

  /** One event; an event that does not belong to the current mode changes nothing. */
  function Step(d: Device, e: Event): Device {
    match (d.mode, e)
    case (_, PowerLoss(_, _, _, _)) => Interrupted(d, e)
    case (Off(rr), Boot) => Started(d, rr)
    case (Working, StartMove) =>
      if d.card.Absent? then d.(mode := Leaving) else d.(store := Present([]), mode := Copying(0))
    case (Working, Restart) => d.(mode := Off(CoreSoftware))
    case (Copying(done), CopyChunk(n)) =>
      if d.card.Present? && d.store.Present? && done + n <= |d.card.data|
      then d.(store := Present(d.store.data + d.card.data[done..done + n]), mode := Copying(done + n))
      else d
    case (Copying(done), WriteError) => d.(mode := CopyFailed)
    case (CopyFailed, RemoveCopy) => d.(store := Absent, mode := Leaving)
    case (Copying(done), CloseCopy) =>
      if d.card.Present? && done == |d.card.data| then d.(mode := Copied) else d
    case (Copied, RemoveFromCard) => d.(card := Absent, mode := CardCleared)
    case (CardCleared, SetHint) => d.(hint := HINT, mode := Leaving)
    case (Leaving, Restart) => d.(mode := Off(CoreSoftware))
    case (_, Panic) => if InProgram(d.mode) then d.(mode := Off(CpuSoftware)) else d
    case (Checking, Check) =>
      if d.store.Present? && Accepted(d.store.data) then d.(mode := Applying(0)) else d.(mode := LoaderDone)
    case (Applying(k), WriteSector(pad)) =>
      if d.store.Absent? || |d.store.data| < HEAD_SIZE || |pad| != SECTOR then d
      else
        var image := Image(d.store.data);
        if k * SECTOR >= |image| then d.(mode := Applied)
        else d.(prog := Overwrite(d.prog, k, SectorData(image, k, pad)), mode := Applying(k + 1))
    case (Applied, RemoveUpdate) => d.(store := Absent, mode := LoaderDone)
    case (LoaderDone, LoaderRestart) => d.(mode := Off(CoreSoftware))
    case _ => d
  }

  predicate InProgram(mode: Mode) {
    mode.Working? || mode.Copying? || mode.CopyFailed? || mode.Copied? || mode.CardCleared? || mode.Leaving?
  }

  // ----- what every step keeps -----

  /** An upload: whole, or so damaged that no part of it is accepted either. */
  ghost predicate Upload(f: seq<octet>, size: nat) {
    && (forall n :: 0 <= n < |f| ==> !Accepted(f[..n]))
    && (Accepted(f) ==> |f| - HEAD_SIZE <= size)
  }

  /** A file the loader takes. */
  predicate Takes(file: File) {
    file.Present? && Accepted(file.data)
  }

  /** What an earlier upload may have left in the store: nothing, a file the loader
      refuses, or a whole upload that still waits for it. */
  predicate Leftover(stale: File, size: nat) {
    Takes(stale) ==> |stale.data| - HEAD_SIZE <= size
  }

  predicate Holds(prog: seq<octet>, f: seq<octet>) {
    Accepted(f) && Image(f) <= prog
  }

  predicate HoldsFile(prog: seq<octet>, file: File) {
    file.Present? && Holds(prog, file.data)
  }

  /** The partition holds the old program or a whole new one. */
  predicate Whole(prog: seq<octet>, former: seq<octet>, f: seq<octet>, stale: File) {
    prog == former || Holds(prog, f) || HoldsFile(prog, stale)
  }

  /** What the store may hold: the upload, what was there before, or something the
      loader does not take. As long as it is not the upload, the card has that. */
  predicate Unmistakable(d: Device, f: seq<octet>, stale: File) {
    Takes(d.store) ==> d.store == Present(f) || (d.store == stale && d.card == Present(f))
  }

  /** The program never runs, nor is about to run, on a half-written partition:
      the loader is running or comes next, and its file is there. */
  ghost predicate InHand(d: Device) {
    && Takes(d.store)
    && (d.mode.Checking? || d.mode.Applying?
        || (d.mode.Off? && Starts(d.mode.reset, d.hint) == FirmwareLoader))
  }

  ghost predicate ModeFits(d: Device, f: seq<octet>) {
    match d.mode
    case Copying(done) => done <= |f| && d.card == Present(f) && d.store == Present(f[..done])
    case CopyFailed => d.card == Present(f)
    case Copied => d.card == Present(f) && d.store == Present(f)
    case CardCleared => d.store == Present(f)
    case Applying(k) => Takes(d.store) && FrontIs(d.prog, Image(d.store.data), k)
    case Applied => HoldsFile(d.prog, d.store)
    case LoaderDone => !Takes(d.store)
    case Off(rr) => rr != DeepSleep
    case _ => true
  }

  /** The first k sectors, or all if there are no more, are those of the image. */
  predicate FrontIs(prog: seq<octet>, image: seq<octet>, k: nat) {
    if k * SECTOR >= |image| then image <= prog else image[..k * SECTOR] <= prog
  }

  ghost predicate Kept(d: Device, f: seq<octet>) {
    d.card == Present(f) || d.store == Present(f) || Holds(d.prog, f)
  }

  ghost predicate Inv(d: Device, former: seq<octet>, f: seq<octet>, stale: File) {
    && |d.prog| == |former| && |former| % SECTOR == 0 && Upload(f, |former|) && Leftover(stale, |former|)
    && (d.card.Absent? || d.card == Present(f)) && Unmistakable(d, f, stale)
    && Kept(d, f) && ModeFits(d, f)
    && (Whole(d.prog, former, f, stale) || InHand(d))
  }

  // ----- one step -----

  lemma PackedUpload(image: seq<octet>, size: nat)
    requires |image| < 0x1_0000_0000 && |image| <= size
    ensures Upload(Container(image), size) && Accepted(Container(image))
  {
    hide Accepted;
    PackedIsAccepted(image);
    forall n | 0 <= n < |Container(image)|
      ensures !Accepted(Container(image)[..n])
    {
      PrefixIsRefused(image, n);
    }
  }

  lemma PowerLossKeeps(d: Device, e: Event, former: seq<octet>, f: seq<octet>, stale: File)
    requires Inv(d, former, f, stale) && e.PowerLoss?
    ensures Inv(Step(d, e), former, f, stale)
  {
    hide Accepted, Image;
    var d' := Step(d, e);
    if d.mode.Copying? && e.kept <= |d.store.data| {
      assert f[..d.mode.done][..e.kept] == f[..e.kept];
    }
    if d.mode.Applying? {
      assert InHand(d');
    }
  }

  lemma WriteSectorFits(image: seq<octet>, k: nat, pad: seq<octet>, prog: seq<octet>)
    requires k * SECTOR < |image| <= |prog| && |pad| == SECTOR && |prog| % SECTOR == 0
    requires image[..k * SECTOR] <= prog
    ensures (k + 1) * SECTOR <= |prog|
    ensures var p := Overwrite(prog, k, SectorData(image, k, pad));
            if (k + 1) * SECTOR <= |image| then image[..(k + 1) * SECTOR] <= p else image <= p
  {
    var data := SectorData(image, k, pad);
    var p := Overwrite(prog, k, data);
    assert (k + 1) * SECTOR <= |prog|;
    assert p == prog[..k * SECTOR] + data + prog[k * SECTOR + |data|..];
    if (k + 1) * SECTOR <= |image| {
      assert image[..(k + 1) * SECTOR] == image[..k * SECTOR] + data;
    } else {
      assert image == image[..k * SECTOR] + data[..|image| - k * SECTOR];
    }
  }

  lemma WriteSectorKeeps(d: Device, pad: seq<octet>, former: seq<octet>, f: seq<octet>, stale: File)
    requires Inv(d, former, f, stale) && d.mode.Applying?
    ensures Inv(Step(d, WriteSector(pad)), former, f, stale)
  {
    hide Accepted, Overwrite, SectorData;
    var k := d.mode.sectors;
    StoreInLoader(d, former, f, stale);
    var image := Image(d.store.data);
    if |pad| == SECTOR && k * SECTOR < |image| {
      WriteSectorFits(image, k, pad, d.prog);
    }
  }

  lemma ProgramKeeps(d: Device, e: Event, former: seq<octet>, f: seq<octet>, stale: File)
    requires Inv(d, former, f, stale) && InProgram(d.mode) && !e.PowerLoss?
    ensures Inv(Step(d, e), former, f, stale)
  {
    hide Accepted, Image;
    if d.mode.Copying? && e.CopyChunk? && d.mode.done + e.n <= |f| {
      assert f[..d.mode.done] + f[d.mode.done..d.mode.done + e.n] == f[..d.mode.done + e.n];
    }
    if d.mode.Copying? && d.mode.done == |f| {
      assert f[..|f|] == f;
    }
  }

  lemma CheckKeeps(d: Device, former: seq<octet>, f: seq<octet>, stale: File)
    requires Inv(d, former, f, stale) && d.mode.Checking?
    ensures Inv(Step(d, Check), former, f, stale)
    ensures Step(d, Check).mode.Applying? <==> Takes(d.store)
  {
    hide Accepted, Image;
  }

  lemma LoaderKeeps(d: Device, e: Event, former: seq<octet>, f: seq<octet>, stale: File)
    requires Inv(d, former, f, stale) && !InProgram(d.mode) && !e.PowerLoss?
    ensures Inv(Step(d, e), former, f, stale)
  {
    hide Accepted, Image;
    if d.mode.Applying? && e.WriteSector? {
      WriteSectorKeeps(d, e.pad, former, f, stale);
    } else if d.mode.Checking? && e.Check? {
      CheckKeeps(d, former, f, stale);
    }
  }

  lemma StepKeeps(d: Device, e: Event, former: seq<octet>, f: seq<octet>, stale: File)
    requires Inv(d, former, f, stale)
    ensures Inv(Step(d, e), former, f, stale)
  {
    hide Inv, Step;
    if e.PowerLoss? {
      PowerLossKeeps(d, e, former, f, stale);
    } else if InProgram(d.mode) {
      ProgramKeeps(d, e, former, f, stale);
    } else {
      LoaderKeeps(d, e, former, f, stale);
    }
  }

  // ----- every run -----

  function Run(d: Device, events: seq<Event>): Device {
    if events == [] then d else Step(Run(d, events[..|events| - 1]), events[|events| - 1])
  }

  lemma RunSnoc(d: Device, events: seq<Event>, e: Event)
    ensures Run(d, events + [e]) == Step(Run(d, events), e)
  {
    assert (events + [e])[..|events|] == events;
  }

  lemma RunOne(d: Device, e: Event)
    ensures Run(d, [e]) == Step(d, e)
  {
    hide Step;
    assert [e][..0] == [];
  }

  lemma {:induction false} RunKeeps(d: Device, events: seq<Event>, former: seq<octet>, f: seq<octet>, stale: File)
    requires Inv(d, former, f, stale)
    ensures Inv(Run(d, events), former, f, stale)
    decreases |events|
  {
    if events != [] {
      hide Inv, Step;
      RunKeeps(d, events[..|events| - 1], former, f, stale);
      StepKeeps(Run(d, events[..|events| - 1]), events[|events| - 1], former, f, stale);
    }
  }

  /** Before the move: the upload on the card, the old program running, and in the
      store whatever an earlier upload left. */
  function Before(former: seq<octet>, f: seq<octet>, stale: File): Device {
    Device(Present(f), stale, former, 0, Working)
  }

  /** Whatever happens, wherever the power fails: the new image is never lost, and
      whenever the program runs, the partition holds a whole program: the old one, the
      new one, or the one of an earlier upload that still waited in the store. */
  lemma {:induction false} CrashSafe(former: seq<octet>, image: seq<octet>, stale: File, events: seq<Event>)
    requires |former| % SECTOR == 0 && |image| <= |former| && |image| < 0x1_0000_0000
    requires Leftover(stale, |former|)
    ensures var d := Run(Before(former, Container(image), stale), events);
            && (d.card == Present(Container(image)) || d.store == Present(Container(image)) || image <= d.prog)
            && (InProgram(d.mode) ==> d.prog == former || image <= d.prog || HoldsFile(d.prog, stale))
  {
    hide Accepted, Container, Run;
    PackedUpload(image, |former|);
    PackedIsAccepted(image);
    RunKeeps(Before(former, Container(image), stale), events, former, Container(image), stale);
  }

  // ----- once the crashes stop -----

  /** The one event the loader comes to in each of its modes. */
  function LoaderEvent(mode: Mode, pad: seq<octet>): Event {
    match mode
    case Checking => Check
    case Applying(_) => WriteSector(pad)
    case Applied => RemoveUpdate
    case _ => LoaderRestart
  }

  ghost predicate InLoader(mode: Mode) {
    mode.Checking? || mode.Applying? || mode.Applied? || mode.LoaderDone?
  }

  function FileSize(file: File): nat {
    if file.Present? then |file.data| else 0
  }

  function Remaining(d: Device): nat {
    match d.mode
    case Checking => FileSize(d.store) + 4
    case Applying(k) => 3 + if k < FileSize(d.store) then FileSize(d.store) - k else 0
    case Applied => 2
    case LoaderDone => 1
    case _ => 0
  }

  lemma LoaderAdvances(d: Device, former: seq<octet>, f: seq<octet>, stale: File, pad: seq<octet>)
    requires Inv(d, former, f, stale) && InLoader(d.mode) && |pad| == SECTOR
    ensures var d' := Step(d, LoaderEvent(d.mode, pad));
            && Inv(d', former, f, stale) && Remaining(d') < Remaining(d)
            && (InLoader(d'.mode) || d'.mode == Off(CoreSoftware)) && d'.hint == d.hint
  {
    hide Accepted, Overwrite, SectorData;
    StepKeeps(d, LoaderEvent(d.mode, pad), former, f, stale);
    if d.mode.Applying? {
      StoreInLoader(d, former, f, stale);
    }
    hide Inv;
  }

  lemma StoreInLoader(d: Device, former: seq<octet>, f: seq<octet>, stale: File)
    requires Inv(d, former, f, stale) && (d.mode.Applying? || d.mode.Applied?)
    ensures Takes(d.store) && |Image(d.store.data)| <= |d.prog|
    ensures d.mode.Applied? ==> HoldsFile(d.prog, d.store)
  {
    hide Accepted;
  }

  /** The loader left alone. */
  ghost function RunLoader(d: Device, former: seq<octet>, f: seq<octet>, stale: File, pad: seq<octet>): (r: Device)
    requires Inv(d, former, f, stale) && |pad| == SECTOR && (InLoader(d.mode) || d.mode == Off(CoreSoftware))
    ensures Inv(r, former, f, stale) && r.mode == Off(CoreSoftware) && r.hint == d.hint
    decreases Remaining(d)
  {
    if d.mode.Off? then d
    else
      LoaderAdvances(d, former, f, stale, pad);
      RunLoader(Step(d, LoaderEvent(d.mode, pad)), former, f, stale, pad)
  }

  /** Without further crashes the program runs, whole, after one boot or after a
      boot into the loader and one more. */
  lemma TwoBoots(d: Device, former: seq<octet>, f: seq<octet>, stale: File, pad: seq<octet>)
    requires Inv(d, former, f, stale) && d.mode.Off? && |pad| == SECTOR
    ensures var d1 := Step(d, Boot);
            && Inv(d1, former, f, stale)
            && if d1.mode.Working? then Whole(d1.prog, former, f, stale)
               else d1.mode.Checking? &&
                    var d2 := Step(RunLoader(d1, former, f, stale, pad), Boot);
                    d2.mode.Working? && Whole(d2.prog, former, f, stale)
  {
    hide Accepted, Image;
    StepKeeps(d, Boot, former, f, stale);
    var d1 := Step(d, Boot);
    if d1.mode.Checking? {
      StepKeeps(RunLoader(d1, former, f, stale, pad), Boot, former, f, stale);
    }
  }

  /** A loader that finds an acceptable file x leaves it in the partition, and gone
      from the store. */
  lemma {:induction false} LoaderInstalls(d: Device, former: seq<octet>, f: seq<octet>, stale: File, pad: seq<octet>,
                                          x: seq<octet>)
    requires Inv(d, former, f, stale) && |pad| == SECTOR && Accepted(x)
    requires ((d.mode.Checking? || d.mode.Applying? || d.mode.Applied?) && d.store == Present(x))
             || ((d.mode.LoaderDone? || d.mode == Off(CoreSoftware)) && d.store.Absent? && Holds(d.prog, x))
    ensures Holds(RunLoader(d, former, f, stale, pad).prog, x)
    ensures RunLoader(d, former, f, stale, pad).store.Absent?
    decreases Remaining(d)
  {
    hide Accepted, Image, Overwrite, SectorData, Inv;
    if InLoader(d.mode) {
      LoaderAdvances(d, former, f, stale, pad);
      if d.mode.Applying? || d.mode.Applied? {
        StoreInLoader(d, former, f, stale);
      }
      LoaderInstalls(Step(d, LoaderEvent(d.mode, pad)), former, f, stale, pad, x);
    }
  }

  /** A device that is off, with the whole upload in its store and the loader next, runs
      the new image two boots later. */
  lemma NewImageRuns(d: Device, former: seq<octet>, f: seq<octet>, stale: File, pad: seq<octet>)
    requires Inv(d, former, f, stale) && Accepted(f) && |pad| == SECTOR
    requires d.mode.Off? && d.store == Present(f) && Starts(d.mode.reset, d.hint) == FirmwareLoader
    ensures var d1 := Step(d, Boot);
            && Inv(d1, former, f, stale) && d1.mode == Checking
            && var d2 := Step(RunLoader(d1, former, f, stale, pad), Boot);
               d2.mode == Working && Holds(d2.prog, f) && d2.store == Absent
  {
    hide Accepted, Image, RunLoader;
    StepKeeps(d, Boot, former, f, stale);
    var d1 := Step(d, Boot);
    hide Inv;
    LoaderInstalls(d1, former, f, stale, pad, f);
    ProgramNext(RunLoader(d1, former, f, stale, pad));
  }

  lemma ProgramNext(d: Device)
    requires d.mode == Off(CoreSoftware) && d.hint != HINT
    ensures Step(d, Boot) == d.(mode := Working)
  {
  }

  /** A power failure at any time from the end of the copy to the end of the loader's
      work, the file still being there, ends with the new image running. */
  lemma {:induction false} CrashEndsInNewImage(d: Device, e: Event, former: seq<octet>, f: seq<octet>, stale: File, pad: seq<octet>)
    requires Inv(d, former, f, stale) && Accepted(f) && |pad| == SECTOR && e.PowerLoss?
    requires d.store == Present(f) && !d.mode.Copying?
    ensures var d1 := Step(Step(d, e), Boot);
            && Inv(d1, former, f, stale) && d1.mode == Checking
            && var d2 := Step(RunLoader(d1, former, f, stale, pad), Boot);
               d2.mode == Working && Holds(d2.prog, f) && d2.store == Absent
  {
    hide Accepted, Image, RunLoader;
    StepKeeps(d, e, former, f, stale);
    assert Step(d, e).store == Present(f) && Starts(Step(d, e).mode.reset, Step(d, e).hint) == FirmwareLoader;
    hide Inv, Step;
    NewImageRuns(Step(d, e), former, f, stale, pad);
  }

  /** The good case, from the end of the move: two boots later the program runs on the
      new image, and no update file is left. */
  lemma UpdateSucceeds(former: seq<octet>, image: seq<octet>, pad: seq<octet>)
    requires |former| % SECTOR == 0 && |image| <= |former| && |image| < 0x1_0000_0000 && |pad| == SECTOR
    ensures var f := Container(image);
            var d := Step(Step(Device(Absent, Present(f), former, HINT, Leaving), Restart), Boot);
            && Inv(d, former, f, Absent) && d.mode == Checking
            && var d' := Step(RunLoader(d, former, f, Absent, pad), Boot);
               d'.mode == Working && image <= d'.prog && d'.card == Absent && d'.store == Absent && d'.hint == 0
  {
    hide Accepted, Container, Image, RunLoader, Step, Inv;
    PackedUpload(image, |former|);
    PackedIsAccepted(image);
    var f := Container(image);
    var d := Device(Absent, Present(f), former, 0, Checking);
    LoaderComes(former, f);
    InvAtLoader(former, f);
    LoaderInstalls(d, former, f, Absent, pad, f);
    NoCard(d, former, f, Absent, pad);
    ProgramNext(RunLoader(d, former, f, Absent, pad));
  }

  lemma LoaderComes(former: seq<octet>, f: seq<octet>)
    ensures Step(Step(Device(Absent, Present(f), former, HINT, Leaving), Restart), Boot)
         == Device(Absent, Present(f), former, 0, Checking)
  {
  }

  lemma InvAtLoader(former: seq<octet>, f: seq<octet>)
    requires |former| % SECTOR == 0 && Upload(f, |former|) && Accepted(f)
    ensures Inv(Device(Absent, Present(f), former, 0, Checking), former, f, Absent)
  {
    hide Accepted, Image, Upload;
  }

  lemma {:induction false} NoCard(d: Device, former: seq<octet>, f: seq<octet>, stale: File, pad: seq<octet>)
    requires Inv(d, former, f, stale) && |pad| == SECTOR && (InLoader(d.mode) || d.mode == Off(CoreSoftware))
    ensures RunLoader(d, former, f, stale, pad).card == d.card
    decreases Remaining(d)
  {
    hide Inv, Accepted, Overwrite, SectorData;
    if InLoader(d.mode) {
      LoaderAdvances(d, former, f, stale, pad);
      NoCard(Step(d, LoaderEvent(d.mode, pad)), former, f, stale, pad);
    }
  }
}
