/** Clock-drift correction of the audio reader: the sender's timestamps against
    the local clock give a rate, the rate accumulates a debt, and a whole sample
    of debt drops or repeats one stereo frame of a block. 16-bit stereo, so a
    frame is four bytes. */
module DriftClock {
  import opened Arithmetic
  import opened Words

  const FRAME := 4
  const SETTLE_US := 15_000_000
  const WINDOW_US := 30_000_000
  const MIN_RATE := 300
  const COOLDOWN_US := 100_000
  const MAX_RATE := 25_000
  const MAX_DEBT := 5_000

  /** The drift fields of the stream. `returned` (bytes handed out since tracking
      was anchored) and `fixes` (the times of all corrections) are history. */
  datatype Drift = Drift(firstTs: u32, lastTs: u32, total: int, corrected: int, startUs: int,
                         windowValid: bool, windowRaw: i32, windowStartUs: int,
                         rate: i32, debt: i32, lastFixUs: int,
                         returned: int, fixes: seq<int>)

  datatype Action = Keep | DropFrame | RepeatFrame

  // ----- changes made by packets -----

  /** Tracking starts with the first packet of a stream. */
  function Begin(d: Drift, ts: u32, now: int): Drift {
    d.(firstTs := ts, lastTs := ts, total := 0, corrected := 0, startUs := now,
       windowValid := false, windowRaw := 0, windowStartUs := 0, rate := 0, debt := 0,
       lastFixUs := now, returned := 0)
  }

  /** The sync point, or a timestamp jump of the sender, re-anchors the count. */
  function Anchor(d: Drift, ts: u32, now: int): Drift {
    d.(firstTs := ts, total := 0, corrected := 0, startUs := now, windowValid := false,
       debt := 0, returned := 0)
  }

  /** A gap between packets or an underrun throws the measurement away. */
  function Gap(d: Drift, now: int): Drift {
    d.(windowValid := false, debt := 0, rate := 0, startUs := now)
  }

  /** The part of a full reset that concerns drift; the rate survives it. */
  function Forget(d: Drift): Drift {
    d.(windowValid := false, debt := 0)
  }

  // ----- the reader's step -----

  /** How far the sender's clock ran ahead of the local one, in samples. */
  function RawDrift(d: Drift, sampleRate: nat, now: int): i32 {
    ToI32(ToU32(d.lastTs - d.firstTs) - TruncDiv((now - d.startUs) * sampleRate, 1_000_000))
  }

  /** The slope over one window, in thousandths of a sample per second. */
  function Slope(delta: i32, windowUs: int): i32
    requires windowUs > 0
  {
    ToI32(TruncDiv(delta * 1_000_000_000, windowUs))
  }

  function OpenWindow(d: Drift, raw: i32, now: int): Drift {
    if !d.windowValid && now - d.startUs >= SETTLE_US
    then d.(windowRaw := raw, windowStartUs := now, windowValid := true, debt := 0)
    else d
  }

  function Remeasure(d: Drift, raw: i32, now: int): Drift {
    if now - d.windowStartUs < WINDOW_US then d
    else
      var rate := Slope(ToI32(raw - d.windowRaw), now - d.windowStartUs);
      if Abs32(rate) > MAX_RATE then
        d.(rate := 0, debt := 0, windowValid := false, startUs := now - SETTLE_US)
      else
        d.(rate := rate, windowRaw := raw, windowStartUs := now,
           debt := if Abs32(rate) < MIN_RATE then 0 else d.debt)
  }

  function Clamp(debt: int): (r: i32)
    ensures -MAX_DEBT <= r <= MAX_DEBT
  {
    if debt > MAX_DEBT then MAX_DEBT else if debt < -MAX_DEBT then -MAX_DEBT else debt
  }

  function Accrue(d: Drift, frames: nat, sampleRate: nat): Drift
    requires sampleRate > 0
  {
    if Abs32(d.rate) < MIN_RATE then d
    else d.(debt := Clamp(ToI32(d.debt + ToI32(TruncDiv(d.rate * frames, sampleRate)))))
  }

  /** Dropping needs a ring filled above a fifth, repeating needs room in the block. */
  function Choose(d: Drift, wr: nat, len: nat, fill: nat, bufsize: nat, now: int): (a: Action)
    ensures a != Keep ==> wr >= 4 * FRAME
    ensures a == RepeatFrame ==> wr + FRAME <= len
  {
    if now - d.lastFixUs <= COOLDOWN_US || wr < 4 * FRAME then Keep
    else if d.debt >= 1000 && fill > bufsize / 5 then DropFrame
    else if d.debt <= -1000 && wr + FRAME <= len then RepeatFrame
    else Keep
  }

  function Pay(d: Drift, action: Action, now: int): Drift {
    match action
    case Keep => d
    case DropFrame =>
      d.(corrected := d.corrected - 1, debt := ToI32(d.debt - 1000), lastFixUs := now,
         fixes := d.fixes + [now])
    case RepeatFrame =>
      d.(corrected := d.corrected + 1, debt := ToI32(d.debt + 1000), lastFixUs := now,
         fixes := d.fixes + [now])
  }

  /** The measurement part of one read of wr bytes. */
  function Measure(d: Drift, raw: i32, wr: nat, sampleRate: nat, now: int): Drift
    requires sampleRate > 0
  {
    var d1 := OpenWindow(d.(total := d.total + wr / FRAME), raw, now);
    if d1.windowValid then Accrue(Remeasure(d1, raw, now), wr / FRAME, sampleRate) else d1
  }

  function Decide(d: Drift, raw: i32, wr: nat, len: nat, fill: nat, bufsize: nat, sampleRate: nat, now: int): (a: Action)
    requires sampleRate > 0
    ensures a != Keep ==> wr >= 4 * FRAME
    ensures a == RepeatFrame ==> wr + FRAME <= len
  {
    if OpenWindow(d, raw, now).windowValid
    then Choose(Measure(d, raw, wr, sampleRate, now), wr, len, fill, bufsize, now) else Keep
  }

  /** One whole read: measure, decide, pay, and count the bytes handed out. */
  function OnRead(d: Drift, raw: i32, wr: nat, len: nat, fill: nat, bufsize: nat, sampleRate: nat, now: int): Drift
    requires sampleRate > 0
  {
    var action := Decide(d, raw, wr, len, fill, bufsize, sampleRate, now);
    var d' := Pay(Measure(d, raw, wr, sampleRate, now), action, now);
    d'.(returned := d'.returned + BlockLength(wr, action))
  }

  // ----- what happens to the block -----

  function BlockLength(wr: int, action: Action): int {
    wr + match action case Keep => 0 case DropFrame => -FRAME case RepeatFrame => FRAME
  }

  /** The frame in the middle of the block. */
  function Middle(wr: nat): nat {
    wr / 2 / FRAME * FRAME
  }

  function Edited(block: seq<byte>, action: Action): (out: seq<byte>)
    requires |block| % FRAME == 0
    requires action != Keep ==> |block| >= 4 * FRAME
    ensures |out| == BlockLength(|block|, action)
  {
    var p := Middle(|block|);
    match action
    case Keep => block
    case DropFrame => block[..p] + block[p + FRAME..]
    case RepeatFrame => block[..p + FRAME] + block[p..]
  }

  // ----- properties -----

  ghost predicate Spaced(fixes: seq<int>) {
    forall i, j :: 0 <= i < j < |fixes| ==> fixes[j] - fixes[i] > COOLDOWN_US
  }

  ghost predicate Bounded(d: Drift) {
    && -MAX_DEBT <= d.debt <= MAX_DEBT
    && (-MAX_RATE <= d.rate <= MAX_RATE || d.rate == -0x8000_0000)
  }

  ghost predicate SameBooks(d: Drift, e: Drift) {
    && d.total == e.total && d.corrected == e.corrected && d.returned == e.returned
    && d.lastFixUs == e.lastFixUs && d.fixes == e.fixes
  }

  /** What holds at every moment up to time t. */
  ghost predicate Steady(d: Drift, t: int) {
    && Bounded(d)
    && d.returned == FRAME * (d.total + d.corrected)
    && Spaced(d.fixes) && d.lastFixUs <= t
    && (forall i :: 0 <= i < |d.fixes| ==> d.fixes[i] <= d.lastFixUs)
  }

  lemma PacketsKeepSteady(d: Drift, ts: u32, t: int, now: int)
    requires Steady(d, t) && t <= now
    ensures Steady(d, now)
    ensures Steady(Begin(d, ts, now), now)
    ensures Steady(Anchor(d, ts, now), now)
    ensures Steady(Gap(d, now), now)
    ensures Steady(Forget(d), now)
    ensures Steady(d.(lastTs := ts), now)
  {
  }

  /** The stored rate is plausible after every measurement, except exactly when
      the 32-bit slope is the most negative number, whose abs() is itself. */
  lemma RateBound(d: Drift, raw: i32, now: int)
    requires -MAX_RATE <= d.rate <= MAX_RATE && now - d.windowStartUs >= WINDOW_US
    ensures -MAX_RATE <= Remeasure(d, raw, now).rate <= MAX_RATE <==>
            Slope(ToI32(raw - d.windowRaw), now - d.windowStartUs) != -0x8000_0000
  {
    hide Slope;
  }

  /** A window of 31.25 s in which the sender fell 67108864 samples behind, or ran
      as far ahead, stores a rate of -2147483648. */
  lemma RateBoundFails(d: Drift, raw: i32, now: int)
    requires Size(ToI32(raw - d.windowRaw)) == 67_108_864 && now == d.windowStartUs + 31_250_000
    ensures Remeasure(d, raw, now).rate == -0x8000_0000
  {
    var delta: i32, span := ToI32(raw - d.windowRaw), now - d.windowStartUs;
    hide ToI32;
    Overflowing(delta, span);
  }

  lemma Overflowing(delta: i32, span: int)
    requires Size(delta) == 67_108_864 && span == 31_250_000
    ensures Slope(delta, span) == -0x8000_0000 && Abs32(-0x8000_0000) == -0x8000_0000
  {
  }

  /** No such accident while the raw drift moves by less than 64424509 samples
      (22 minutes of audio at 48 kHz) within a window. */
  lemma PlausibleDelta(delta: i32, windowUs: int)
    requires windowUs >= WINDOW_US && -64_424_509 <= delta <= 64_424_509
    ensures Slope(delta, windowUs) != -0x8000_0000
  {
    var n := delta as int * 1_000_000_000;
    QuotientBound(if n >= 0 then n else -n, windowUs);
  }

  lemma QuotientBound(n: nat, w: int)
    requires w >= WINDOW_US && n <= 64_424_509 * 1_000_000_000
    ensures 0 <= n / w < 0x8000_0000
  {
    MulLe(WINDOW_US, w, 0x7FFF_FFFF);
    DivAtMost(n, w, 0x7FFF_FFFF);
  }

  lemma RemeasureBounded(d: Drift, raw: i32, now: int)
    requires Bounded(d)
    ensures Bounded(Remeasure(d, raw, now)) && SameBooks(d, Remeasure(d, raw, now))
  {
    hide Slope;
  }

  lemma AccrueBounded(d: Drift, frames: nat, sampleRate: nat)
    requires Bounded(d) && sampleRate > 0
    ensures Bounded(Accrue(d, frames, sampleRate)) && SameBooks(d, Accrue(d, frames, sampleRate))
  {
    if Abs32(d.rate) >= MIN_RATE {
      var debt := Clamp(ToI32(d.debt + ToI32(TruncDiv(d.rate * frames, sampleRate))));
      assert Accrue(d, frames, sampleRate) == d.(debt := debt);
    }
  }

  lemma MeasureBounded(d: Drift, raw: i32, wr: nat, sampleRate: nat, now: int)
    requires Bounded(d) && sampleRate > 0
    ensures var m := Measure(d, raw, wr, sampleRate, now);
            Bounded(m) && SameBooks(d.(total := d.total + wr / FRAME), m)
  {
    hide Accrue;
    hide Remeasure;
    var d1 := OpenWindow(d.(total := d.total + wr / FRAME), raw, now);
    if d1.windowValid {
      RemeasureBounded(d1, raw, now);
      AccrueBounded(Remeasure(d1, raw, now), wr / FRAME, sampleRate);
    }
  }

  lemma PaySteady(d: Drift, action: Action, t: int, now: int)
    requires Steady(d, t) && t <= now
    requires action != Keep ==> now - d.lastFixUs > COOLDOWN_US
    requires (action == DropFrame ==> d.debt >= 1000) && (action == RepeatFrame ==> d.debt <= -1000)
    ensures Steady(Pay(d, action, now).(returned := d.returned + BlockLength(0, action)), now)
  {
  }

  /** Every read keeps the debt and the rate bounded, keeps corrections more than
      100 ms apart, and keeps the books: bytes handed out are bytes read plus one
      frame per net correction. */
  lemma OnReadSteady(d: Drift, raw: i32, wr: nat, len: nat, fill: nat, bufsize: nat,
                     sampleRate: nat, t: int, now: int)
    requires Steady(d, t) && t <= now && sampleRate > 0 && wr % FRAME == 0
    ensures Steady(OnRead(d, raw, wr, len, fill, bufsize, sampleRate, now), now)
  {
    hide Measure;
    MeasureBounded(d, raw, wr, sampleRate, now);
    var m := Measure(d, raw, wr, sampleRate, now).(returned := d.returned + wr);
    PaySteady(m, Decide(d, raw, wr, len, fill, bufsize, sampleRate, now), now, now);
  }

  /** Nothing stands in the way of a correction of the due kind. */
  predicate Unhindered(d: Drift, wr: nat, len: nat, fill: nat, bufsize: nat, now: int) {
    && now - d.lastFixUs > COOLDOWN_US && wr >= 4 * FRAME
    && fill > bufsize / 5 && wr + FRAME <= len
  }

  function Size(x: int): nat {
    if x < 0 then -x else x
  }

  /** A debt is paid a whole sample at a time as soon as it may be: what is left is
      less than a sample, or a sample less than it was. No correction is made without
      a debt of its kind, and the books of debt and corrections agree. */
  lemma DebtIsPaid(d: Drift, raw: i32, wr: nat, len: nat, fill: nat, bufsize: nat, sampleRate: nat, now: int)
    requires Bounded(d) && sampleRate > 0
    ensures var m := Measure(d, raw, wr, sampleRate, now);
            var d' := OnRead(d, raw, wr, len, fill, bufsize, sampleRate, now);
            && d'.debt as int - m.debt as int == 1000 * (d'.corrected - d.corrected)
            && Size(d'.debt) <= Size(m.debt)
            && (m.windowValid && Unhindered(d, wr, len, fill, bufsize, now)
                ==> Size(d'.debt) < 1000 || Size(d'.debt) == Size(m.debt) - 1000)
  {
    hide Accrue, Remeasure, Choose, Pay, BlockLength;
    MeasureBounded(d, raw, wr, sampleRate, now);
    MeasureKeepsWindow(d, raw, wr, sampleRate, now);
    hide Measure, OpenWindow;
    var m := Measure(d, raw, wr, sampleRate, now);
    PayLeaves(m, wr, len, fill, bufsize, now);
  }

  lemma PayLeaves(m: Drift, wr: nat, len: nat, fill: nat, bufsize: nat, now: int)
    requires Bounded(m)
    ensures Pay(m, Keep, now) == m
    ensures var d' := Pay(m, Choose(m, wr, len, fill, bufsize, now), now);
            && d'.debt as int - m.debt as int == 1000 * (d'.corrected - m.corrected)
            && Size(d'.debt) <= Size(m.debt)
            && (Unhindered(m, wr, len, fill, bufsize, now)
                ==> Size(d'.debt) < 1000 || Size(d'.debt) == Size(m.debt) - 1000)
  {
    hide ToI32;
    Exact(m.debt as int - 1000);
    Exact(m.debt as int + 1000);
  }

  /** The window is open at the end of a measurement only if it was when it began. */
  lemma MeasureKeepsWindow(d: Drift, raw: i32, wr: nat, sampleRate: nat, now: int)
    requires sampleRate > 0
    ensures Measure(d, raw, wr, sampleRate, now).windowValid ==> OpenWindow(d, raw, now).windowValid
  {
    hide Slope;
  }

  // ----- which way a drift is corrected -----

  /** The sign of the slope is the sign of the drift change. */
  lemma SlopeSign(delta: i32, windowUs: int)
    requires windowUs >= WINDOW_US && -64_424_509 <= delta <= 64_424_509
    ensures delta >= 0 ==> Slope(delta, windowUs) >= 0
    ensures delta <= 0 ==> Slope(delta, windowUs) <= 0
  {
    var n := delta as int * 1_000_000_000;
    QuotientBound(if n >= 0 then n else -n, windowUs);
  }

  /** Measurements in which the sender never falls behind. */
  ghost predicate Faster(d: Drift, raw: i32) {
    d.rate >= 0 && d.debt >= 0 && (d.windowValid ==> 0 <= raw as int - d.windowRaw as int <= 64_424_509)
  }

  ghost predicate Slower(d: Drift, raw: i32) {
    d.rate <= 0 && d.debt <= 0 && (d.windowValid ==> -64_424_509 <= raw as int - d.windowRaw as int <= 0)
  }

  lemma Exact(x: int)
    requires -0x8000_0000 <= x < 0x8000_0000
    ensures ToI32(x) == x
  {
  }

  lemma AccrueSign(d: Drift, frames: nat, sampleRate: nat)
    requires Bounded(d) && -MAX_RATE <= d.rate <= MAX_RATE && sampleRate > 0 && frames <= sampleRate
    ensures d.rate >= 0 && d.debt >= 0 ==> Accrue(d, frames, sampleRate).debt >= 0
    ensures d.rate <= 0 && d.debt <= 0 ==> Accrue(d, frames, sampleRate).debt <= 0
    ensures Accrue(d, frames, sampleRate).rate == d.rate
  {
    hide ToI32, TruncDiv;
    ShareOfRate(d.rate, frames, sampleRate);
    var q := TruncDiv(d.rate * frames, sampleRate);
    Exact(q);
    Exact(d.debt as int + q);
    assert Accrue(d, frames, sampleRate).debt == if Abs32(d.rate) < MIN_RATE then d.debt else Clamp(d.debt as int + q);
  }

  lemma ShareOfRate(rate: int, frames: nat, sampleRate: nat)
    requires -MAX_RATE <= rate <= MAX_RATE && sampleRate > 0 && frames <= sampleRate
    ensures rate >= 0 ==> 0 <= TruncDiv(rate * frames, sampleRate) <= MAX_RATE
    ensures rate <= 0 ==> -MAX_RATE <= TruncDiv(rate * frames, sampleRate) <= 0
  {
    var size := Size(rate);
    MulLeBoth(size, MAX_RATE, frames, sampleRate);
    var n := size * frames;
    assert n >= 0;
    assert rate * frames == if rate >= 0 then n else -n;
    DivAtMost(n, sampleRate, MAX_RATE);
  }

  /** A sender that is not slower only ever gets frames dropped, one that is not
      faster only ever gets frames repeated. */
  lemma RightDirection(d: Drift, raw: i32, wr: nat, len: nat, fill: nat, bufsize: nat, sampleRate: nat, now: int)
    requires Bounded(d) && d.rate >= -MAX_RATE && 0 < sampleRate && wr / FRAME <= sampleRate
    ensures Faster(d, raw) ==>
              && Decide(d, raw, wr, len, fill, bufsize, sampleRate, now) != RepeatFrame
              && OnRead(d, raw, wr, len, fill, bufsize, sampleRate, now).debt >= 0
              && OnRead(d, raw, wr, len, fill, bufsize, sampleRate, now).rate >= 0
    ensures Slower(d, raw) ==>
              && Decide(d, raw, wr, len, fill, bufsize, sampleRate, now) != DropFrame
              && OnRead(d, raw, wr, len, fill, bufsize, sampleRate, now).debt <= 0
              && -MAX_RATE <= OnRead(d, raw, wr, len, fill, bufsize, sampleRate, now).rate <= 0
  {
    hide Measure, OpenWindow, Choose, Pay, BlockLength;
    MeasureSign(d, raw, wr, sampleRate, now);
    PaySign(Measure(d, raw, wr, sampleRate, now), wr, len, fill, bufsize, now);
  }

  lemma PaySign(m: Drift, wr: nat, len: nat, fill: nat, bufsize: nat, now: int)
    requires -MAX_DEBT <= m.debt <= MAX_DEBT
    ensures Pay(m, Keep, now) == m
    ensures var action := Choose(m, wr, len, fill, bufsize, now);
            && Pay(m, action, now).rate == m.rate
            && (m.debt >= 0 ==> action != RepeatFrame && Pay(m, action, now).debt >= 0)
            && (m.debt <= 0 ==> action != DropFrame && Pay(m, action, now).debt <= 0)
  {
    hide ToI32;
    Exact(m.debt as int - 1000);
    Exact(m.debt as int + 1000);
  }

  lemma MeasureSign(d: Drift, raw: i32, wr: nat, sampleRate: nat, now: int)
    requires Bounded(d) && d.rate >= -MAX_RATE && 0 < sampleRate && wr / FRAME <= sampleRate
    ensures var m := Measure(d, raw, wr, sampleRate, now);
            && -MAX_DEBT <= m.debt <= MAX_DEBT
            && (Faster(d, raw) ==> m.rate >= 0 && m.debt >= 0)
            && (Slower(d, raw) ==> -MAX_RATE <= m.rate <= 0 && m.debt <= 0)
  {
    MeasureBounded(d, raw, wr, sampleRate, now);
    if Faster(d, raw) || Slower(d, raw) {
      var d1 := OpenWindow(d.(total := d.total + wr / FRAME), raw, now);
      if d1.windowValid {
        RemeasureSign(d1, raw, now);
        hide Remeasure, Accrue;
        AccrueSign(Remeasure(d1, raw, now), wr / FRAME, sampleRate);
      }
    }
  }

  lemma RemeasureSign(d: Drift, raw: i32, now: int)
    requires Bounded(d) && d.rate >= -MAX_RATE && d.windowValid && (Faster(d, raw) || Slower(d, raw))
    ensures var r := Remeasure(d, raw, now);
            && Bounded(r) && r.rate >= -MAX_RATE
            && (Faster(d, raw) ==> r.rate >= 0 && r.debt >= 0)
            && (Slower(d, raw) ==> r.rate <= 0 && r.debt <= 0)
  {
    RemeasureBounded(d, raw, now);
    if now - d.windowStartUs >= WINDOW_US {
      hide ToI32, Slope;
      var delta := raw as int - d.windowRaw as int;
      Exact(delta);
      SlopeSign(delta, now - d.windowStartUs);
      PlausibleDelta(delta, now - d.windowStartUs);
    }
  }

  // ----- runs of reads -----

  /** One read and what it sees. */
  datatype Fetch = Fetch(raw: i32, wr: nat, len: nat, fill: nat, bufsize: nat, now: int)

  function AfterReads(d: Drift, passes: seq<Fetch>, sampleRate: nat): Drift
    requires sampleRate > 0
  {
    if passes == [] then d
    else
      var r := passes[|passes| - 1];
      OnRead(AfterReads(d, passes[..|passes| - 1], sampleRate), r.raw, r.wr, r.len, r.fill, r.bufsize, sampleRate, r.now)
  }

  /** The raw drift never falls, or never rises, and the reads are short. */
  ghost predicate Rising(passes: seq<Fetch>) {
    forall i, j :: 0 <= i <= j < |passes| ==> 0 <= passes[j].raw as int - passes[i].raw as int <= 64_424_509
  }

  ghost predicate Falling(passes: seq<Fetch>) {
    forall i, j :: 0 <= i <= j < |passes| ==> 0 <= passes[i].raw as int - passes[j].raw as int <= 64_424_509
  }

  ghost predicate Short(passes: seq<Fetch>, sampleRate: nat) {
    forall i :: 0 <= i < |passes| ==> passes[i].wr / FRAME <= sampleRate
  }

  /** The open window began at one of the reads. */
  ghost predicate Based(d: Drift, passes: seq<Fetch>) {
    d.windowValid ==> exists i :: 0 <= i < |passes| && d.windowRaw == passes[i].raw
  }

  lemma BasedGrows(d: Drift, passes: seq<Fetch>, r: Fetch, sampleRate: nat)
    requires sampleRate > 0 && Based(d, passes)
    ensures Based(OnRead(d, r.raw, r.wr, r.len, r.fill, r.bufsize, sampleRate, r.now), passes + [r])
  {
    hide Slope, Choose, Clamp, ToI32;
    var d' := OnRead(d, r.raw, r.wr, r.len, r.fill, r.bufsize, sampleRate, r.now);
    assert (passes + [r])[|passes|] == r;
    assert d'.windowValid ==> d'.windowRaw == r.raw || (d.windowValid && d'.windowRaw == d.windowRaw);
    if d.windowValid {
      var i :| 0 <= i < |passes| && d.windowRaw == passes[i].raw;
      assert (passes + [r])[i] == passes[i];
    }
  }

  /** All corrections since d were drops, or repeats. */
  ghost predicate OnlyDrops(d: Drift, d': Drift) {
    d.corrected - d'.corrected == |d'.fixes| - |d.fixes| >= 0
  }

  ghost predicate OnlyRepeats(d: Drift, d': Drift) {
    d'.corrected - d.corrected == |d'.fixes| - |d.fixes| >= 0
  }

  lemma ReadCounts(d: Drift, raw: i32, wr: nat, len: nat, fill: nat, bufsize: nat, sampleRate: nat, now: int)
    requires sampleRate > 0
    ensures var action := Decide(d, raw, wr, len, fill, bufsize, sampleRate, now);
            var d' := OnRead(d, raw, wr, len, fill, bufsize, sampleRate, now);
            && (action != RepeatFrame ==> OnlyDrops(d, d'))
            && (action != DropFrame ==> OnlyRepeats(d, d'))
  {
    hide Slope, Choose, Clamp, ToI32, Abs32, TruncDiv;
  }

  lemma ReadBounded(d: Drift, raw: i32, wr: nat, len: nat, fill: nat, bufsize: nat, sampleRate: nat, now: int)
    requires Bounded(d) && sampleRate > 0
    ensures Bounded(OnRead(d, raw, wr, len, fill, bufsize, sampleRate, now))
  {
    DebtIsPaid(d, raw, wr, len, fill, bufsize, sampleRate, now);
    MeasureBounded(d, raw, wr, sampleRate, now);
    hide Measure, Decide;
  }

  lemma LastRead(d: Drift, before: seq<Fetch>, r: Fetch, sampleRate: nat)
    requires sampleRate > 0
    ensures AfterReads(d, before + [r], sampleRate)
         == OnRead(AfterReads(d, before, sampleRate), r.raw, r.wr, r.len, r.fill, r.bufsize, sampleRate, r.now)
  {
    assert (before + [r])[..|before|] == before;
  }

  lemma {:induction false} ReadsBased(d: Drift, passes: seq<Fetch>, sampleRate: nat)
    requires Bounded(d) && !d.windowValid && sampleRate > 0
    ensures Bounded(AfterReads(d, passes, sampleRate)) && Based(AfterReads(d, passes, sampleRate), passes)
    decreases |passes|
  {
    if passes != [] {
      hide OnRead, Bounded, Based;
      var before, r := passes[..|passes| - 1], passes[|passes| - 1];
      ReadsBased(d, before, sampleRate);
      var p := AfterReads(d, before, sampleRate);
      BasedGrows(p, before, r, sampleRate);
      ReadBounded(p, r.raw, r.wr, r.len, r.fill, r.bufsize, sampleRate, r.now);
      assert passes == before + [r];
    }
  }

  /** One more read of a sender that is not slower, or not faster. */
  lemma RisingStep(d: Drift, p: Drift, before: seq<Fetch>, r: Fetch, sampleRate: nat)
    requires sampleRate > 0 && Bounded(p) && Based(p, before) && Rising(before + [r]) && r.wr / FRAME <= sampleRate
    requires OnlyDrops(d, p) && p.rate >= 0 && p.debt >= 0
    ensures var d' := OnRead(p, r.raw, r.wr, r.len, r.fill, r.bufsize, sampleRate, r.now);
            OnlyDrops(d, d') && d'.rate >= 0 && d'.debt >= 0
  {
    hide OnRead, Decide, Based, Rising;
    FasterThan(p, before, r);
    RightDirection(p, r.raw, r.wr, r.len, r.fill, r.bufsize, sampleRate, r.now);
    ReadCounts(p, r.raw, r.wr, r.len, r.fill, r.bufsize, sampleRate, r.now);
  }

  lemma FallingStep(d: Drift, p: Drift, before: seq<Fetch>, r: Fetch, sampleRate: nat)
    requires sampleRate > 0 && Bounded(p) && Based(p, before) && Falling(before + [r]) && r.wr / FRAME <= sampleRate
    requires OnlyRepeats(d, p) && -MAX_RATE <= p.rate <= 0 && p.debt <= 0
    ensures var d' := OnRead(p, r.raw, r.wr, r.len, r.fill, r.bufsize, sampleRate, r.now);
            OnlyRepeats(d, d') && -MAX_RATE <= d'.rate <= 0 && d'.debt <= 0
  {
    hide OnRead, Decide, Based, Falling;
    SlowerThan(p, before, r);
    RightDirection(p, r.raw, r.wr, r.len, r.fill, r.bufsize, sampleRate, r.now);
    ReadCounts(p, r.raw, r.wr, r.len, r.fill, r.bufsize, sampleRate, r.now);
  }

  /** Over every run of reads that begins with no window open: while the sender never
      falls behind the local clock, every correction drops a frame. */
  lemma {:induction false} OnlyDropsWhenRising(d: Drift, passes: seq<Fetch>, sampleRate: nat)
    requires Bounded(d) && !d.windowValid && sampleRate > 0 && Short(passes, sampleRate) && Rising(passes)
    requires d.rate >= 0 && d.debt >= 0
    ensures var d' := AfterReads(d, passes, sampleRate); OnlyDrops(d, d') && d'.rate >= 0 && d'.debt >= 0
    decreases |passes|
  {
    if passes != [] {
      hide OnRead, Bounded, Based, AfterReads, OnlyDrops;
      var before, r := passes[..|passes| - 1], passes[|passes| - 1];
      OnlyDropsWhenRising(d, before, sampleRate);
      ReadsBased(d, before, sampleRate);
      assert passes == before + [r];
      RisingStep(d, AfterReads(d, before, sampleRate), before, r, sampleRate);
      LastRead(d, before, r, sampleRate);
    }
  }

  /** And while it never gets ahead, every correction repeats one. */
  lemma {:induction false} OnlyRepeatsWhenFalling(d: Drift, passes: seq<Fetch>, sampleRate: nat)
    requires Bounded(d) && !d.windowValid && sampleRate > 0 && Short(passes, sampleRate) && Falling(passes)
    requires -MAX_RATE <= d.rate <= 0 && d.debt <= 0
    ensures var d' := AfterReads(d, passes, sampleRate); OnlyRepeats(d, d') && -MAX_RATE <= d'.rate <= 0 && d'.debt <= 0
    decreases |passes|
  {
    if passes != [] {
      hide OnRead, Bounded, Based, AfterReads, OnlyRepeats;
      var before, r := passes[..|passes| - 1], passes[|passes| - 1];
      OnlyRepeatsWhenFalling(d, before, sampleRate);
      ReadsBased(d, before, sampleRate);
      assert passes == before + [r];
      FallingStep(d, AfterReads(d, before, sampleRate), before, r, sampleRate);
      LastRead(d, before, r, sampleRate);
    }
  }

  lemma FasterThan(p: Drift, before: seq<Fetch>, r: Fetch)
    requires Rising(before + [r]) && Based(p, before) && p.rate >= 0 && p.debt >= 0
    ensures Faster(p, r.raw) && Rising(before)
  {
    var passes := before + [r];
    assert forall i :: 0 <= i < |before| ==> before[i] == passes[i];
    assert passes[|before|] == r;
  }

  lemma SlowerThan(p: Drift, before: seq<Fetch>, r: Fetch)
    requires Falling(before + [r]) && Based(p, before) && p.rate <= 0 && p.debt <= 0
    ensures Slower(p, r.raw) && Falling(before)
  {
    var passes := before + [r];
    assert forall i :: 0 <= i < |before| ==> before[i] == passes[i];
    assert passes[|before|] == r;
  }

  /** One frame is missing, or one frame is there twice; all others are as read. */
  lemma EditedFrames(block: seq<byte>, action: Action)
    requires |block| % FRAME == 0 && |block| >= 4 * FRAME
    ensures var p := Middle(|block|);
            && p % FRAME == 0 && p + FRAME <= |block| && p <= |block| / 2 < p + FRAME
            && (action == DropFrame ==>
                  block == Edited(block, action)[..p] + block[p..p + FRAME] + Edited(block, action)[p..])
            && (action == RepeatFrame ==>
                  && Edited(block, action) == block[..p] + block[p..p + FRAME] + block[p..p + FRAME] + block[p + FRAME..]
                  && block == block[..p] + block[p..p + FRAME] + block[p + FRAME..])
  {
  }

  /** The block handed out has a positive whole number of frames and fits. */
  lemma BlockFits(d: Drift, raw: i32, wr: nat, len: nat, fill: nat, bufsize: nat, sampleRate: nat, now: int)
    requires sampleRate > 0 && 0 < wr <= len && wr % FRAME == 0
    ensures var n := BlockLength(wr, Decide(d, raw, wr, len, fill, bufsize, sampleRate, now));
            0 < n <= len && n % FRAME == 0
  {
    hide Decide;
  }

  // ----- the reader's code -----

  /** memmove(buffer + to, buffer + from, n) within one buffer. */
  method Move(buffer: array<byte>, to: nat, from: nat, n: nat)
    requires to + n <= buffer.Length && from + n <= buffer.Length
    modifies buffer
    ensures buffer[..] == old(buffer[..to] + buffer[from..from + n] + buffer[to + n..])
  {
    forall i | 0 <= i < n {
      buffer[to + i] := buffer[from + i];
    }
  }

  /** The drift fields as the reader and the packet task update them. */
  class Clock {
    var firstTs: u32
    var lastTs: u32
    var total: int
    var corrected: int
    var startUs: int
    var windowValid: bool
    var windowRaw: i32
    var windowStartUs: int
    var rate: i32
    var debt: i32
    var lastFixUs: int
    ghost var returned: int
    ghost var fixes: seq<int>

    ghost function Value(): Drift
      reads this
    {
      Drift(firstTs, lastTs, total, corrected, startUs, windowValid, windowRaw, windowStartUs,
            rate, debt, lastFixUs, returned, fixes)
    }

    constructor ()
      ensures Value() == Drift(0, 0, 0, 0, 0, false, 0, 0, 0, 0, 0, 0, [])
    {
      firstTs, lastTs, total, corrected, startUs := 0, 0, 0, 0, 0;
      windowValid, windowRaw, windowStartUs := false, 0, 0;
      rate, debt, lastFixUs := 0, 0, 0;
      returned, fixes := 0, [];
    }

    method ReAnchor(ts: u32, now: int)
      modifies this
      ensures Value() == Anchor(old(Value()), ts, now)
    {
      firstTs := ts;
      total := 0;
      corrected := 0;
      startUs := now;
      windowValid := false;
      debt := 0;
      returned := 0;
    }

    method StartTracking(ts: u32, now: int)
      modifies this
      ensures Value() == Begin(old(Value()), ts, now)
    {
      ReAnchor(ts, now);
      lastTs := ts;
      windowRaw := 0;
      windowStartUs := 0;
      rate := 0;
      lastFixUs := now;
    }

    method ResetWindow(now: int)
      modifies this
      ensures Value() == Gap(old(Value()), now)
    {
      windowValid := false;
      debt := 0;
      rate := 0;
      startUs := now;
    }

    method Abandon()
      modifies this
      ensures Value() == Forget(old(Value()))
    {
      windowValid := false;
      debt := 0;
    }

    method ReadDrift(sampleRate: nat, now: int) returns (raw: i32)
      ensures raw == RawDrift(Value(), sampleRate, now)
    {
      var rtpElapsed := ToU32(lastTs - firstTs);
      var expected := TruncDiv((now - startUs) * sampleRate, 1_000_000);
      raw := ToI32(rtpElapsed - expected);
    }

    method UpdateRate(raw: i32, now: int)
      modifies this
      ensures Value() == Remeasure(old(Value()), raw, now)
    {
      var windowElapsed := now - windowStartUs;
      if windowElapsed >= WINDOW_US {
        var delta := ToI32(raw - windowRaw);
        rate := Slope(delta, windowElapsed);
        if Abs32(rate) > MAX_RATE {
          rate := 0;
          debt := 0;
          windowValid := false;
          startUs := now - SETTLE_US;
        } else {
          windowRaw := raw;
          windowStartUs := now;
          if Abs32(rate) < MIN_RATE {
            debt := 0;
          }
        }
      }
    }

    method UpdateDebt(frames: nat, sampleRate: nat)
      requires sampleRate > 0
      modifies this`debt
      ensures Value() == Accrue(old(Value()), frames, sampleRate)
    {
      if Abs32(rate) >= MIN_RATE {
        debt := ToI32(debt + ToI32(TruncDiv(rate * frames, sampleRate)));
        if debt > MAX_DEBT {
          debt := MAX_DEBT;
        }
        if debt < -MAX_DEBT {
          debt := -MAX_DEBT;
        }
      }
    }

    method DropOne(buffer: array<byte>, wr: nat, now: int) returns (n: nat)
      requires 4 * FRAME <= wr <= buffer.Length && wr % FRAME == 0 && debt >= 1000
      modifies this, buffer
      ensures n == wr - FRAME && buffer[..n] == Edited(old(buffer[..wr]), DropFrame)
      ensures Value() == Pay(old(Value()), DropFrame, now)
    {
      var p := wr / 2 / FRAME * FRAME;
      Move(buffer, p, p + FRAME, wr - p - FRAME);
      n := wr - FRAME;
      corrected := corrected - 1;
      debt := debt - 1000;
      lastFixUs := now;
      fixes := fixes + [now];
    }

    method RepeatOne(buffer: array<byte>, wr: nat, now: int) returns (n: nat)
      requires 4 * FRAME <= wr <= buffer.Length - FRAME && wr % FRAME == 0 && debt <= -1000
      modifies this, buffer
      ensures n == wr + FRAME && buffer[..n] == Edited(old(buffer[..wr]), RepeatFrame)
      ensures Value() == Pay(old(Value()), RepeatFrame, now)
    {
      var p := wr / 2 / FRAME * FRAME;
      Move(buffer, p + FRAME, p, wr - p);
      n := wr + FRAME;
      corrected := corrected + 1;
      debt := debt + 1000;
      lastFixUs := now;
      fixes := fixes + [now];
    }

    /** Dropping or repeating one frame in place; the new length is returned. */
    method EditBlock(buffer: array<byte>, wr: nat, len: nat, fill: nat, bufsize: nat, now: int) returns (n: nat)
      requires wr <= len <= buffer.Length && wr % FRAME == 0
      modifies this, buffer
      ensures var action := Choose(old(Value()), wr, len, fill, bufsize, now);
              && n == BlockLength(wr, action) && n <= len
              && buffer[..n] == Edited(old(buffer[..wr]), action)
              && Value() == Pay(old(Value()), action, now)
    {
      n := wr;
      var cooldownOk := now - lastFixUs > COOLDOWN_US;
      if cooldownOk && wr >= FRAME * 4 {
        if debt >= 1000 && fill > bufsize / 5 {
          n := DropOne(buffer, wr, now);
        } else if debt <= -1000 {
          if wr + FRAME <= len {
            n := RepeatOne(buffer, wr, now);
          }
        }
      }
    }

    method MeasureNow(raw: i32, wr: nat, sampleRate: nat, now: int) returns (armed: bool)
      requires sampleRate > 0
      modifies this
      ensures Value() == Measure(old(Value()), raw, wr, sampleRate, now)
      ensures armed == OpenWindow(old(Value()), raw, now).windowValid
    {
      hide Accrue;
      hide Remeasure;
      total := total + wr / FRAME;
      if !windowValid && now - startUs >= SETTLE_US {
        windowRaw := raw;
        windowStartUs := now;
        windowValid := true;
        debt := 0;
      }
      armed := windowValid;
      if armed {
        UpdateRate(raw, now);
        UpdateDebt(wr / FRAME, sampleRate);
      }
    }

    /** The drift part of a read that took wr bytes into the buffer. */
    method AfterRead(buffer: array<byte>, wr: nat, len: nat, fill: nat, bufsize: nat, sampleRate: nat, now: int)
        returns (n: nat)
      requires 0 < wr <= len <= buffer.Length && wr % FRAME == 0 && sampleRate > 0
      modifies this, buffer
      ensures var raw := RawDrift(old(Value()), sampleRate, now);
              var action := Decide(old(Value()), raw, wr, len, fill, bufsize, sampleRate, now);
              && n == BlockLength(wr, action) && n <= len
              && buffer[..n] == Edited(old(buffer[..wr]), action)
              && Value() == OnRead(old(Value()), raw, wr, len, fill, bufsize, sampleRate, now)
    {
      hide Measure, OpenWindow, RawDrift, Choose;
      var raw := ReadDrift(sampleRate, now);
      var armed := MeasureNow(raw, wr, sampleRate, now);
      n := wr;
      if armed {
        n := EditBlock(buffer, wr, len, fill, bufsize, now);
      }
      returned := returned + n;
    }
  }
}
