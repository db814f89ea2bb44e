/** How the debt of the drift correction grows and is paid over runs of reads within one
    measurement window, and how a window measures the rate. */
module DebtRuns {
  import opened Arithmetic
  import opened Words
  import opened DriftClock

  /** What a read of so many frames owes at this rate, in thousandths of a sample. */
  function Due(rate: int, frames: nat, sampleRate: nat): int
    requires sampleRate > 0
  {
    if rate >= 0 then rate * frames / sampleRate else -(-rate * frames / sampleRate)
  }

  /** The debt at the start and what all the reads owe together. */
  function Owed(d: Drift, passes: seq<Fetch>, sampleRate: nat): int
    requires sampleRate > 0
  {
    if passes == [] then d.debt
    else Owed(d, passes[..|passes| - 1], sampleRate) + Due(d.rate, passes[|passes| - 1].wr / 4, sampleRate)
  }

  /** A rate that is acted on, an open window that none of the reads closes, and reads
      of at most a second. */
  ghost predicate InWindow(d: Drift, passes: seq<Fetch>, sampleRate: nat) {
    && (300 <= d.rate <= 25_000 || -25_000 <= d.rate <= -300) && -5000 <= d.debt <= 5000 && d.windowValid
    && forall i :: 0 <= i < |passes| ==> Inside(d, passes[i], sampleRate)
  }

  ghost predicate Inside(d: Drift, r: Fetch, sampleRate: nat) {
    r.now - d.windowStartUs < 30_000_000 && r.wr / 4 <= sampleRate
  }

  /** What no read within the window changes. */
  ghost predicate SameWindow(d: Drift, p: Drift) {
    p.rate == d.rate && p.windowValid && p.windowStartUs == d.windowStartUs && -5000 <= p.debt <= 5000
  }

  function Read(d: Drift, r: Fetch, sampleRate: nat): Drift
    requires sampleRate > 0
  {
    OnRead(d, r.raw, r.wr, r.len, r.fill, r.bufsize, sampleRate, r.now)
  }

  lemma DueIsSmall(rate: int, frames: nat, sampleRate: nat)
    requires -25_000 <= rate <= 25_000 && 0 < sampleRate && frames <= sampleRate
    ensures -25_000 <= Due(rate, frames, sampleRate) <= 25_000
    ensures rate >= 0 ==> Due(rate, frames, sampleRate) >= 0
    ensures rate <= 0 ==> Due(rate, frames, sampleRate) <= 0
  {
    var size: nat := if rate >= 0 then rate else -rate;
    MulLeBoth(size, 25_000, frames, sampleRate);
    DivAtMost(size * frames, sampleRate, 25_000);
  }

  lemma DueIsTruncDiv(rate: int, frames: nat, sampleRate: nat)
    requires sampleRate > 0
    ensures TruncDiv(rate * frames, sampleRate) == Due(rate, frames, sampleRate)
  {
    if rate >= 0 {
      MulLeBoth(0, rate, 0, frames);
    } else {
      MulLeBoth(0, -rate, 0, frames);
      assert -(rate * frames) == -rate * frames;
      if frames == 0 || rate * frames == 0 {
        DivisionIs(0, sampleRate, 0, 0);
      }
    }
  }

  lemma AccrueIs(d: Drift, frames: nat, sampleRate: nat)
    requires sampleRate > 0 && InWindow(d, [], sampleRate) && frames <= sampleRate
    ensures Accrue(d, frames, sampleRate) == d.(debt := Clamp(d.debt as int + Due(d.rate, frames, sampleRate)))
  {
    var due := Due(d.rate, frames, sampleRate);
    DueIsSmall(d.rate, frames, sampleRate);
    DueIsTruncDiv(d.rate, frames, sampleRate);
    RateSize(d.rate);
    hide ToI32, TruncDiv, Due, Clamp, Abs32;
    Exact(due);
    Exact(d.debt as int + due);
  }

  lemma MeasureAccrues(d: Drift, r: Fetch, sampleRate: nat)
    requires sampleRate > 0 && d.windowValid && r.now - d.windowStartUs < 30_000_000
    ensures Measure(d, r.raw, r.wr, sampleRate, r.now) == Accrue(d.(total := d.total + r.wr / 4), r.wr / 4, sampleRate)
  {
    hide Accrue, Slope;
  }

  /** What one read within the window does to the debt: it grows by what is due, within
      the bounds, and what is corrected is paid. */
  lemma MeasureInside(d: Drift, r: Fetch, sampleRate: nat)
    requires sampleRate > 0 && InWindow(d, [], sampleRate) && Inside(d, r, sampleRate)
    ensures Measure(d, r.raw, r.wr, sampleRate, r.now)
         == d.(total := d.total + r.wr / 4, debt := Clamp(d.debt as int + Due(d.rate, r.wr / 4, sampleRate)))
  {
    MeasureAccrues(d, r, sampleRate);
    hide Accrue, Measure, Due, Clamp;
    AccrueIs(d.(total := d.total + r.wr / 4), r.wr / 4, sampleRate);
  }

  /** Between -1000 and 1000 no sample is due. */
  ghost predicate LessThanOne(debt: int) {
    -1000 < debt < 1000
  }

  /** Nothing stands in the way of dropping a frame: the last correction is over 100 ms
      ago, four frames were read, and the ring is filled above a fifth. */
  ghost predicate MayDrop(d: Drift, r: Fetch) {
    r.now - d.lastFixUs > 100_000 && r.wr >= 16 && r.fill > r.bufsize / 5
  }

  /** Nor of repeating one: here the block needs room, the fill does not matter. */
  ghost predicate MayRepeat(d: Drift, r: Fetch) {
    r.now - d.lastFixUs > 100_000 && r.wr >= 16 && r.wr + 4 <= r.len
  }

  /** What is owed when the read decides: the debt and what became due, within 5000. */
  function OwedNow(d: Drift, r: Fetch, sampleRate: nat): (owed: int)
    requires sampleRate > 0
    ensures -5000 <= owed <= 5000
  {
    var sum := d.debt as int + Due(d.rate, r.wr / 4, sampleRate);
    if sum > 5000 then 5000 else if sum < -5000 then -5000 else sum
  }

  /** One read within the window: a whole sample owed drops a frame, or repeats one, as
      soon as it may, and nothing else does; the rest stays owed. */
  lemma ReadInside(d: Drift, r: Fetch, sampleRate: nat)
    requires sampleRate > 0 && InWindow(d, [], sampleRate) && Inside(d, r, sampleRate)
    ensures var d', owed := Read(d, r, sampleRate), OwedNow(d, r, sampleRate);
            && SameWindow(d, d')
            && d'.debt == owed + 1000 * (d'.corrected - d.corrected)
            && d'.corrected == (if owed >= 1000 && MayDrop(d, r) then d.corrected - 1
                                else if owed <= -1000 && MayRepeat(d, r) then d.corrected + 1 else d.corrected)
            && (if d'.corrected == d.corrected then d'.fixes == d.fixes && d'.lastFixUs == d.lastFixUs
                else d'.fixes == d.fixes + [r.now] && d'.lastFixUs == r.now)
  {
    hide Measure, Due, ToI32;
    MeasureInside(d, r, sampleRate);
    var owed := OwedNow(d, r, sampleRate);
    assert Clamp(d.debt as int + Due(d.rate, r.wr / 4, sampleRate)) == owed;
    assert OpenWindow(d, r.raw, r.now) == d;
    Exact(owed as int - 1000);
    Exact(owed as int + 1000);
  }

  // ----- the books of the debt -----

  /** The debt never runs into its bounds. */
  ghost predicate Unclamped(d: Drift, passes: seq<Fetch>, sampleRate: nat)
    requires sampleRate > 0
  {
    forall k :: 0 <= k < |passes| ==>
      -5000 <= AfterReads(d, passes[..k], sampleRate).debt as int + Due(d.rate, passes[k].wr / 4, sampleRate) <= 5000
  }

  lemma Fewer(d: Drift, passes: seq<Fetch>, sampleRate: nat)
    requires sampleRate > 0 && passes != [] && InWindow(d, passes, sampleRate)
    ensures var before, r := passes[..|passes| - 1], passes[|passes| - 1];
            && passes == before + [r] && InWindow(d, before, sampleRate) && Inside(d, r, sampleRate)
            && AfterReads(d, passes, sampleRate) == Read(AfterReads(d, before, sampleRate), r, sampleRate)
            && (Unclamped(d, passes, sampleRate) ==> Unclamped(d, before, sampleRate))
  {
    hide Due, OnRead;
    var before := passes[..|passes| - 1];
    assert forall k :: 0 <= k < |before| ==> before[..k] == passes[..k] && before[k] == passes[k];
  }

  lemma SameInside(d: Drift, p: Drift, r: Fetch, sampleRate: nat)
    requires InWindow(d, [], sampleRate) && SameWindow(d, p) && Inside(d, r, sampleRate)
    ensures InWindow(p, [], sampleRate) && Inside(p, r, sampleRate)
  {
  }

  lemma {:induction false} ReadsInside(d: Drift, passes: seq<Fetch>, sampleRate: nat)
    requires sampleRate > 0 && InWindow(d, passes, sampleRate)
    ensures SameWindow(d, AfterReads(d, passes, sampleRate))
    decreases |passes|
  {
    if passes != [] {
      hide Read, AfterReads;
      Fewer(d, passes, sampleRate);
      var before, r := passes[..|passes| - 1], passes[|passes| - 1];
      ReadsInside(d, before, sampleRate);
      SameInside(d, AfterReads(d, before, sampleRate), r, sampleRate);
      ReadInside(AfterReads(d, before, sampleRate), r, sampleRate);
    }
  }

  /** Over every run of reads within a window, as long as the bounds are not met: what
      was owed and what became due is the debt that is left and 1000 for each sample
      dropped, less 1000 for each repeated. */
  lemma {:induction false} DebtBooks(d: Drift, passes: seq<Fetch>, sampleRate: nat)
    requires sampleRate > 0 && InWindow(d, passes, sampleRate) && Unclamped(d, passes, sampleRate)
    ensures var d' := AfterReads(d, passes, sampleRate);
            d'.debt as int + 1000 * (d.corrected - d'.corrected) == Owed(d, passes, sampleRate)
    decreases |passes|
  {
    if passes != [] {
      hide Read, AfterReads, Due;
      Fewer(d, passes, sampleRate);
      var before, r := passes[..|passes| - 1], passes[|passes| - 1];
      DebtBooks(d, before, sampleRate);
      ReadsInside(d, before, sampleRate);
      var p := AfterReads(d, before, sampleRate);
      SameInside(d, p, r, sampleRate);
      ReadInside(p, r, sampleRate);
      assert passes[..|before|] == before;
      hide SameWindow, InWindow;
    }
  }

  // ----- when the first correction comes -----

  /** Each read could drop and could repeat, as long as none has done so. */
  ghost predicate Free(d: Drift, passes: seq<Fetch>) {
    forall i :: 0 <= i < |passes| ==> MayDrop(d, passes[i]) && MayRepeat(d, passes[i])
  }

  /** Never has a whole sample been owed. */
  ghost predicate NeverOne(d: Drift, passes: seq<Fetch>, sampleRate: nat)
    requires sampleRate > 0
  {
    forall k :: 0 <= k <= |passes| ==> -1000 < Owed(d, passes[..k], sampleRate) < 1000
  }

  lemma NeverOneFewer(d: Drift, passes: seq<Fetch>, sampleRate: nat)
    requires sampleRate > 0 && passes != []
    ensures var before := passes[..|passes| - 1];
            NeverOne(d, passes, sampleRate) <==>
              NeverOne(d, before, sampleRate) && -1000 < Owed(d, passes, sampleRate) < 1000
  {
    hide Owed;
    var before := passes[..|passes| - 1];
    assert forall k :: 0 <= k <= |before| ==> before[..k] == passes[..k];
    assert passes[..|passes|] == passes;
  }

  lemma {:induction false} FixesGrow(d: Drift, passes: seq<Fetch>, sampleRate: nat)
    requires sampleRate > 0 && InWindow(d, passes, sampleRate)
    ensures d.fixes <= AfterReads(d, passes, sampleRate).fixes
    decreases |passes|
  {
    if passes != [] {
      hide Read, AfterReads, OwedNow;
      Fewer(d, passes, sampleRate);
      var before, r := passes[..|passes| - 1], passes[|passes| - 1];
      FixesGrow(d, before, sampleRate);
      ReadsInside(d, before, sampleRate);
      SameInside(d, AfterReads(d, before, sampleRate), r, sampleRate);
      ReadInside(AfterReads(d, before, sampleRate), r, sampleRate);
    }
  }

  /** No correction since d, and the whole sum still owed. */
  ghost predicate Untouched(d: Drift, p: Drift, sum: int) {
    p.fixes == d.fixes && p.debt == sum && p.corrected == d.corrected && p.lastFixUs == d.lastFixUs
  }

  lemma UntouchedStep(d: Drift, p: Drift, before: seq<Fetch>, r: Fetch, sampleRate: nat)
    requires sampleRate > 0 && InWindow(d, [], sampleRate) && Inside(d, r, sampleRate) && SameWindow(d, p)
    requires Untouched(d, p, Owed(d, before, sampleRate)) && MayDrop(d, r) && MayRepeat(d, r)
    ensures var q, sum := Read(p, r, sampleRate), Owed(d, before + [r], sampleRate);
            if LessThanOne(sum) then Untouched(d, q, sum) else q.fixes == d.fixes + [r.now]
  {
    hide Read, Due, Owed, OwedNow;
    SameInside(d, p, r, sampleRate);
    ReadInside(p, r, sampleRate);
    LastOwed(d, p, before, r, sampleRate);
  }

  /** Over every run of reads within a window that could correct: none has corrected
      exactly if the debt and what became due never came to a whole sample. */
  lemma {:induction false} CorrectsWhenOwed(d: Drift, passes: seq<Fetch>, sampleRate: nat)
    requires sampleRate > 0 && InWindow(d, passes, sampleRate) && Free(d, passes) && LessThanOne(d.debt)
    ensures var d' := AfterReads(d, passes, sampleRate);
            if NeverOne(d, passes, sampleRate) then Untouched(d, d', Owed(d, passes, sampleRate))
            else d'.fixes != d.fixes
    decreases |passes|
  {
    if passes != [] {
      hide Read, AfterReads, Owed, NeverOne, MayDrop, MayRepeat, OwedNow;
      Fewer(d, passes, sampleRate);
      NeverOneFewer(d, passes, sampleRate);
      var before, r := passes[..|passes| - 1], passes[|passes| - 1];
      CorrectsWhenOwed(d, before, sampleRate);
      ReadsInside(d, before, sampleRate);
      var p := AfterReads(d, before, sampleRate);
      hide InWindow;
      if NeverOne(d, before, sampleRate) {
        UntouchedStep(d, p, before, r, sampleRate);
      } else {
        FixesGrow(d, before, sampleRate);
        SameInside(d, p, r, sampleRate);
        ReadInside(p, r, sampleRate);
        assert |p.fixes| > |d.fixes|;
      }
    } else {
      assert passes[..0] == passes;
    }
  }

  lemma LastOwed(d: Drift, p: Drift, before: seq<Fetch>, r: Fetch, sampleRate: nat)
    requires sampleRate > 0 && InWindow(d, [], sampleRate) && Inside(d, r, sampleRate) && SameWindow(d, p)
    requires p.debt == Owed(d, before, sampleRate)
    ensures var sum := Owed(d, before + [r], sampleRate);
            OwedNow(p, r, sampleRate) == if sum > 5000 then 5000 else if sum < -5000 then -5000 else sum
  {
    assert (before + [r])[..|before|] == before;
    hide Due;
  }

  /** Each read makes at least this much due. */
  ghost predicate AtLeast(d: Drift, passes: seq<Fetch>, sampleRate: nat, step: nat)
    requires sampleRate > 0
  {
    forall i :: 0 <= i < |passes| ==>
      var due := Due(d.rate, passes[i].wr / 4, sampleRate); if d.rate > 0 then due >= step else due + step <= 0
  }

  lemma {:induction false} OwedGrows(d: Drift, passes: seq<Fetch>, sampleRate: nat, step: nat)
    requires sampleRate > 0 && AtLeast(d, passes, sampleRate, step)
    ensures var grown := |passes| * step;
            if d.rate > 0 then Owed(d, passes, sampleRate) >= d.debt as int + grown
            else Owed(d, passes, sampleRate) <= d.debt as int - grown
    decreases |passes|
  {
    if passes != [] {
      hide Due;
      OwedGrows(d, passes[..|passes| - 1], sampleRate, step);
      assert (|passes| - 1) * step + step == |passes| * step;
    }
  }

  /** All corrections are of the kind the rate calls for. */
  ghost predicate RightKind(d: Drift, p: Drift) {
    if d.rate > 0 then OnlyDrops(d, p) && p.debt > -1000 else OnlyRepeats(d, p) && p.debt < 1000
  }

  lemma RightKindStep(d: Drift, p: Drift, r: Fetch, sampleRate: nat)
    requires sampleRate > 0 && InWindow(d, [], sampleRate) && Inside(d, r, sampleRate) && SameWindow(d, p)
    requires RightKind(d, p)
    ensures RightKind(d, Read(p, r, sampleRate))
  {
    hide Read, Due;
    SameInside(d, p, r, sampleRate);
    DueIsSmall(d.rate, r.wr / 4, sampleRate);
    ReadInside(p, r, sampleRate);
  }

  lemma {:induction false} AllRightKind(d: Drift, passes: seq<Fetch>, sampleRate: nat)
    requires sampleRate > 0 && InWindow(d, passes, sampleRate) && LessThanOne(d.debt)
    ensures RightKind(d, AfterReads(d, passes, sampleRate))
    decreases |passes|
  {
    if passes != [] {
      hide Read, AfterReads, RightKind;
      Fewer(d, passes, sampleRate);
      var before, r := passes[..|passes| - 1], passes[|passes| - 1];
      AllRightKind(d, before, sampleRate);
      ReadsInside(d, before, sampleRate);
      RightKindStep(d, AfterReads(d, before, sampleRate), r, sampleRate);
    }
  }

  /** A drift that is acted on is corrected, in its own direction: after n reads that
      could correct and each make at least `step` due, with n * step the sample that is
      missing, a frame has been dropped, or repeated. */
  lemma {:induction false} CorrectionComes(d: Drift, passes: seq<Fetch>, sampleRate: nat, step: nat)
    requires sampleRate > 0 && InWindow(d, passes, sampleRate) && Free(d, passes) && LessThanOne(d.debt)
    requires AtLeast(d, passes, sampleRate, step)
    requires |passes| * step >= 1000 - if d.rate > 0 then d.debt as int else -(d.debt as int)
    ensures var d' := AfterReads(d, passes, sampleRate);
            if d.rate > 0 then OnlyDrops(d, d') && d'.corrected < d.corrected
            else OnlyRepeats(d, d') && d'.corrected > d.corrected
  {
    hide AfterReads, Owed, AtLeast, Free;
    OwedGrows(d, passes, sampleRate, step);
    AllRightKind(d, passes, sampleRate);
    CorrectsWhenOwed(d, passes, sampleRate);
    FixesGrow(d, passes, sampleRate);
    hide InWindow;
    assert passes[..|passes|] == passes;
    assert !NeverOne(d, passes, sampleRate);
  }

  /** Rate and frames together come to less than a thousandth of a sample. */
  predicate Tiny(rate: int, frames: nat, sampleRate: nat) {
    (if rate >= 0 then rate else -rate) * frames < sampleRate
  }

  /** And one that makes less than a thousandth due per read never is: the division
      drops it every time. */
  lemma {:induction false} TooSlowForItsReads(d: Drift, passes: seq<Fetch>, sampleRate: nat)
    requires sampleRate > 0 && InWindow(d, passes, sampleRate) && LessThanOne(d.debt)
    requires forall i :: 0 <= i < |passes| ==> Tiny(d.rate, passes[i].wr / 4, sampleRate)
    ensures var d' := AfterReads(d, passes, sampleRate); d'.debt == d.debt && d'.fixes == d.fixes
    decreases |passes|
  {
    if passes != [] {
      hide Read, AfterReads, Tiny, Due;
      Fewer(d, passes, sampleRate);
      var before, r := passes[..|passes| - 1], passes[|passes| - 1];
      TooSlowForItsReads(d, before, sampleRate);
      ReadsInside(d, before, sampleRate);
      var p := AfterReads(d, before, sampleRate);
      SameInside(d, p, r, sampleRate);
      NothingDue(d.rate, r.wr / 4, sampleRate);
      ReadInside(p, r, sampleRate);
    }
  }

  lemma NothingDue(rate: int, frames: nat, sampleRate: nat)
    requires 0 < sampleRate && Tiny(rate, frames, sampleRate)
    ensures Due(rate, frames, sampleRate) == 0
  {
    var size: nat := if rate >= 0 then rate else -rate;
    MulLeBoth(0, size, 0, frames);
    DivisionIs(size * frames, sampleRate, 0, size * frames);
  }

  /** Corrections come at most ten a second, while rates of up to 25 samples a second
      are accepted. */
  lemma {:induction false} AtMostTenASecond(fixes: seq<int>, i: nat, j: nat)
    requires Spaced(fixes) && i <= j < |fixes|
    ensures fixes[j] - fixes[i] >= 100_000 * (j - i)
    decreases j - i
  {
    if i < j {
      AtMostTenASecond(fixes, i, j - 1);
    }
  }

  // ----- how a rate is measured -----

  /** s is the slope in thousandths of a sample per second, cut off toward zero. */
  predicate IsSlope(s: int, delta: int, elapsedUs: int) {
    if delta >= 0 then s >= 0 && s * elapsedUs <= delta * 1_000_000_000 < s * elapsedUs + elapsedUs
    else s <= 0 && -s * elapsedUs <= -delta * 1_000_000_000 < -s * elapsedUs + elapsedUs
  }

  lemma SlopeIsSlope(delta: i32, elapsedUs: int)
    requires elapsedUs >= 30_000_000 && -64_424_509 <= delta <= 64_424_509
    ensures IsSlope(Slope(delta, elapsedUs), delta, elapsedUs)
    ensures Slope(delta, elapsedUs) > -0x8000_0000
  {
    var size: nat := if delta >= 0 then delta as int else -(delta as int);
    var n := size * 1_000_000_000;
    QuotientBound(n, elapsedUs);
    Division(n, elapsedUs);
    var q := n / elapsedUs;
    assert q * elapsedUs <= n < q * elapsedUs + elapsedUs;
    SlopeFrom(delta, elapsedUs, q);
  }

  lemma SlopeFrom(delta: i32, elapsedUs: int, q: int)
    requires elapsedUs > 0 && 0 <= q < 0x8000_0000
    requires q == (if delta >= 0 then delta as int else -(delta as int)) * 1_000_000_000 / elapsedUs
    ensures Slope(delta, elapsedUs) == if delta >= 0 then q else -q
  {
    assert -(delta as int * 1_000_000_000) == -(delta as int) * 1_000_000_000;
    Exact(q);
    Exact(-q);
    hide ToI32;
  }

  /** No window is open: one opens at the first read 15 s after tracking began, with the
      drift of that read and no debt but what it makes due itself. Until then a read
      corrects nothing. */
  lemma WindowOpens(d: Drift, r: Fetch, sampleRate: nat)
    requires sampleRate > 0 && !d.windowValid && -5000 <= d.debt <= 5000
    requires -25_000 <= d.rate <= 25_000 && r.wr / 4 <= sampleRate
    ensures var d' := Read(d, r, sampleRate);
            && d'.rate == d.rate && d'.startUs == d.startUs
            && (r.now - d.startUs < 15_000_000 ==>
                  !d'.windowValid && d'.debt == d.debt && d'.fixes == d.fixes && d'.corrected == d.corrected)
            && (r.now - d.startUs >= 15_000_000 ==>
                  && d'.windowValid && d'.windowRaw == r.raw && d'.windowStartUs == r.now
                  && (if -300 < d.rate < 300 then d'.debt == 0 && d'.fixes == d.fixes
                      else d'.debt == OwedNow(d.(debt := 0), r, sampleRate) + 1000 * (d'.corrected - d.corrected)))
  {
    if r.now - d.startUs >= 15_000_000 {
      var d1 := d.(windowValid := true, windowRaw := r.raw, windowStartUs := r.now, debt := 0);
      OpenedReads(d, d1, r, sampleRate);
      if d.rate <= -300 || d.rate >= 300 {
        hide Read, OwedNow;
        ReadInside(d1, r, sampleRate);
        OwedAlike(d1, d.(debt := 0), r, sampleRate);
      } else {
        hide Read;
        QuietRate(d1, r, sampleRate);
      }
    }
  }

  lemma OwedAlike(d: Drift, e: Drift, r: Fetch, sampleRate: nat)
    requires sampleRate > 0 && d.debt == e.debt && d.rate == e.rate
    ensures OwedNow(d, r, sampleRate) == OwedNow(e, r, sampleRate)
  {
  }

  /** A read that opens the window goes on as if it had been open. */
  lemma OpenedReads(d: Drift, d1: Drift, r: Fetch, sampleRate: nat)
    requires sampleRate > 0 && !d.windowValid && r.now - d.startUs >= 15_000_000
    requires d1 == d.(windowValid := true, windowRaw := r.raw, windowStartUs := r.now, debt := 0)
    ensures Read(d, r, sampleRate) == Read(d1, r, sampleRate)
  {
    hide Accrue, Choose, Pay, Slope;
  }

  /** A rate below 0.3 samples a second makes nothing due. */
  lemma QuietRate(d: Drift, r: Fetch, sampleRate: nat)
    requires sampleRate > 0 && d.windowValid && r.now - d.windowStartUs < 30_000_000
    requires -5000 <= d.debt <= 5000 && -300 < d.rate < 300
    ensures var d' := Read(d, r, sampleRate);
            && d'.rate == d.rate && d'.windowValid && d'.windowRaw == d.windowRaw
            && d'.windowStartUs == d.windowStartUs && d'.startUs == d.startUs
            && d'.debt == d.debt as int + 1000 * (d'.corrected - d.corrected)
            && (-1000 < d.debt < 1000 ==> d'.fixes == d.fixes && d'.corrected == d.corrected)
  {
    hide Slope, ToI32;
    Exact(d.rate);
    Exact(-(d.rate as int));
    Exact(d.debt as int - 1000);
    Exact(d.debt as int + 1000);
  }

  /** A window is measured by the first read 30 s after it began. Its slope is the new
      rate, and the next window begins there; a slope beyond 25 samples a second is
      thrown away, and the next read begins anew. A slope below 0.3 clears the debt. */
  lemma WindowMeasures(d: Drift, r: Fetch, sampleRate: nat) returns (s: int)
    requires sampleRate > 0 && d.windowValid && r.now - d.windowStartUs >= 30_000_000
    requires -64_424_509 <= r.raw as int - d.windowRaw as int <= 64_424_509
    ensures IsSlope(s, r.raw as int - d.windowRaw as int, r.now - d.windowStartUs)
    ensures var d' := Read(d, r, sampleRate);
            if -25_000 <= s <= 25_000 then
              && d'.rate == s && d'.windowValid && d'.windowRaw == r.raw && d'.windowStartUs == r.now
              && (-300 < s < 300 ==> d'.debt == 0 && d'.fixes == d.fixes)
            else
              && d'.rate == 0 && d'.debt == 0 && !d'.windowValid && d'.startUs == r.now - 15_000_000
              && d'.fixes == d.fixes
  {
    var delta: i32, elapsed := r.raw as int - d.windowRaw as int, r.now - d.windowStartUs;
    SlopeIsSlope(delta, elapsed);
    s := Slope(delta, elapsed);
    Exact(delta);
    RateSize(s);
    hide Slope, ToI32, Clamp;
  }

  lemma RateSize(s: i32)
    requires s > -0x8000_0000
    ensures Abs32(s) == if s >= 0 then s else 0 - s
  {
  }

  /** The debt of one window goes over into the next, at the new rate. */
  lemma DebtGoesOver(d: Drift, r: Fetch, sampleRate: nat, s: int)
    requires sampleRate > 0 && d.windowValid && r.now - d.windowStartUs >= 30_000_000
    requires -64_424_509 <= r.raw as int - d.windowRaw as int <= 64_424_509
    requires IsSlope(s, r.raw as int - d.windowRaw as int, r.now - d.windowStartUs)
    requires (300 <= s <= 25_000 || -25_000 <= s <= -300) && -5000 <= d.debt <= 5000 && r.wr / 4 <= sampleRate
    ensures var d' := Read(d, r, sampleRate);
            d'.debt == OwedNow(d.(rate := s), r, sampleRate) + 1000 * (d'.corrected - d.corrected)
  {
    var delta: i32, elapsed := r.raw as int - d.windowRaw as int, r.now - d.windowStartUs;
    SlopeIsSlope(delta, elapsed);
    OneSlope(s, Slope(delta, elapsed), delta, elapsed);
    Exact(delta);
    RateSize(s);
    hide Slope, ToI32;
    var d1 := d.(rate := s, windowRaw := r.raw, windowStartUs := r.now);
    MeasuredReads(d, d1, r, sampleRate);
    hide Read, OwedNow, IsSlope;
    ReadInside(d1, r, sampleRate);
    OwedAlike(d1, d.(rate := s), r, sampleRate);
  }

  lemma MeasuredReads(d: Drift, d1: Drift, r: Fetch, sampleRate: nat)
    requires sampleRate > 0 && d.windowValid && r.now - d.windowStartUs >= 30_000_000
    requires var s := Slope(ToI32(r.raw - d.windowRaw), r.now - d.windowStartUs);
             300 <= Abs32(s) <= 25_000 && d1 == d.(rate := s, windowRaw := r.raw, windowStartUs := r.now)
    ensures Read(d, r, sampleRate) == Read(d1, r, sampleRate)
  {
    hide Accrue, Choose, Pay, Slope, ToI32;
  }

  lemma OneSlope(s: int, s': int, delta: int, elapsedUs: int)
    requires elapsedUs > 0 && IsSlope(s, delta, elapsedUs) && IsSlope(s', delta, elapsedUs)
    ensures s == s'
  {
    var size: nat := if delta >= 0 then delta else -delta;
    var n := size * 1_000_000_000;
    var a, b := if delta >= 0 then s else -s, if delta >= 0 then s' else -s';
    DivisionIs(n, elapsedUs, a, n - a * elapsedUs);
    DivisionIs(n, elapsedUs, b, n - b * elapsedUs);
  }

  // ----- what the drift is a difference of -----

  lemma Narrowed(a: int, sent: nat)
    requires sent < 0x1_0000_0000
    ensures ToU32(ToU32(a + sent) - ToU32(a)) == sent
  {
  }

  /** The raw drift is the samples the sender counted since the anchor, less those the
      local clock counts in that time; the timestamps may wrap. */
  lemma RawDriftIs(d: Drift, a: int, sent: nat, local: nat, sampleRate: nat, now: int)
    requires d.firstTs == ToU32(a) && d.lastTs == ToU32(a + sent) && sent < 0x1_0000_0000
    requires now >= d.startUs && local * 1_000_000 <= (now - d.startUs) * sampleRate < local * 1_000_000 + 1_000_000
    requires -0x8000_0000 <= sent - local < 0x8000_0000
    ensures RawDrift(d, sampleRate, now) == sent - local
  {
    Narrowed(a, sent);
    LocalSamples((now - d.startUs) * sampleRate, local);
    Exact(sent - local);
    hide ToU32, ToI32, TruncDiv;
  }

  lemma LocalSamples(n: int, local: nat)
    requires local * 1_000_000 <= n < local * 1_000_000 + 1_000_000
    ensures TruncDiv(n, 1_000_000) == local
  {
  }
}
