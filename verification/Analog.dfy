/** The threshold automaton of an analog input (components/adc/analog.c): two levels
    with hysteresis, and a lag for which the value has to stay beyond its level. */
module Analog {
  import opened Words

  datatype Config = Config(threshold: nat, hyst: nat, riseLag: nat, fallLag: nat)

  function Rise(c: Config): int {
    c.threshold + c.hyst / 2
  }

  function Fall(c: Config): int {
    c.threshold - c.hyst / 2
  }

  function Lag(c: Config, target: int): nat {
    if target == 1 then c.riseLag else c.fallLag
  }

  /** state is 0 or 1, pending the state waited for or -1, since the tick at which
      the wait began. */
  datatype Auto = Auto(state: int, pending: int, since: u32)

  ghost predicate Formed(a: Auto) {
    0 <= a.state <= 1 && (a.pending == -1 || a.pending == 1 - a.state)
  }

  /** The value is beyond the level that leads to the target state. */
  predicate Beyond(c: Config, target: int, value: int) {
    if target == 1 then value >= Rise(c) else value < Fall(c)
  }

  /** One sample, one reading of the tick counter. */
  function Step(c: Config, a: Auto, value: int, now: u32): (a': Auto)
    requires Formed(a)
    ensures Formed(a')
  {
    var target := 1 - a.state;
    if !Beyond(c, target, value) then a.(pending := -1)
    else if Lag(c, target) == 0 then Auto(target, -1, a.since)
    else
      var since := if a.pending == target then a.since else now;
      if ToU32(now as int - since as int) as int >= Lag(c, target) then Auto(target, -1, since)
      else Auto(a.state, target, since)
  }

  /** The channel of the source: its fields and the threshold branch for a sample. */
  class Channel {
    const config: Config
    var threshState: int
    var threshPendingTarget: int
    var threshPendingTick: u32

    ghost function View(): Auto
      reads this
    {
      Auto(threshState, threshPendingTarget, threshPendingTick)
    }

    /** The first sample decides the state by the rise level alone. */
    constructor (c: Config, first: int)
      ensures config == c && View() == Auto(if first >= Rise(c) then 1 else 0, -1, 0) && Formed(View())
    {
      config := c;
      threshState := if first >= Rise(c) then 1 else 0;
      threshPendingTarget := -1;
      threshPendingTick := 0;
    }

    /** What is reported is exactly a change of state. The check just before a delayed
        change never fails: its else-branch is dead. */
    method ProcessSample(result: int, now: u32) returns (reports: seq<int>)
      requires Formed(View())
      modifies this
      ensures View() == Step(config, old(View()), result, now) && Formed(View())
      ensures reports == if threshState != old(threshState) then [threshState] else []
    {
      reports := [];
      var newState := threshState;
      if threshState == 0 && result >= Rise(config) {
        newState := 1;
      } else if threshState == 1 && result < Fall(config) {
        newState := 0;
      }
      if newState != threshState {
        if Lag(config, newState) <= 0 {
          threshState := newState;
          threshPendingTarget := -1;
          reports := reports + [threshState];
        } else if threshPendingTarget != newState {
          threshPendingTarget := newState;
          threshPendingTick := now;
        }
      } else {
        threshPendingTarget := -1;
      }
      if threshPendingTarget >= 0 {
        if ToU32(now as int - threshPendingTick as int) as int >= Lag(config, threshPendingTarget) {
          var stillMet := false;
          if threshPendingTarget == 1 && result >= Rise(config) {
            stillMet := true;
          }
          if threshPendingTarget == 0 && result < Fall(config) {
            stillMet := true;
          }
          assert stillMet;
          if stillMet {
            threshState := threshPendingTarget;
            reports := reports + [threshState];
          }
          threshPendingTarget := -1;
        }
      }
    }
  }

  // ----- runs -----

  /** A sample and its true time in ticks, which never wraps. */
  datatype Sample = Sample(value: int, at: nat)

  function Start(c: Config, first: int): (a: Auto)
    ensures Formed(a)
  {
    Auto(if first >= Rise(c) then 1 else 0, -1, 0)
  }

  function Run(c: Config, first: int, samples: seq<Sample>): (a: Auto)
    ensures Formed(a)
  {
    if samples == [] then Start(c, first)
    else
      var s := samples[|samples| - 1];
      Step(c, Run(c, first, samples[..|samples| - 1]), s.value, ToU32(s.at))
  }

  /** Time does not run backwards, and samples come often enough for the 32-bit tick
      difference to tell a lag. */
  ghost predicate Timely(c: Config, samples: seq<Sample>) {
    forall k :: 0 < k < |samples| ==>
                  0 <= samples[k].at - samples[k - 1].at < 0x1_0000_0000 - c.riseLag - c.fallLag
  }

  /** From sample m on, every value is beyond the level of the target. */
  ghost predicate Streak(c: Config, target: int, samples: seq<Sample>, m: nat) {
    m < |samples| && forall k :: m <= k < |samples| ==> Beyond(c, target, samples[k].value)
  }

  /** The streak has lasted its lag when the last sample is taken. */
  ghost predicate Lasting(c: Config, target: int, samples: seq<Sample>, m: nat) {
    Streak(c, target, samples, m) && samples[|samples| - 1].at - samples[m].at >= Lag(c, target)
  }

  // ----- the same automaton on true times -----

  datatype Timed = Timed(state: int, pending: int, since: nat)

  function TimedStep(c: Config, t: Timed, s: Sample): Timed {
    var target := 1 - t.state;
    if !Beyond(c, target, s.value) then t.(pending := -1)
    else if Lag(c, target) == 0 then Timed(target, -1, t.since)
    else
      var since := if t.pending == target then t.since else s.at;
      if s.at - since >= Lag(c, target) then Timed(target, -1, since) else Timed(t.state, target, since)
  }

  function TimedRun(c: Config, first: int, samples: seq<Sample>): Timed {
    if samples == [] then Timed(if first >= Rise(c) then 1 else 0, -1, 0)
    else TimedStep(c, TimedRun(c, first, samples[..|samples| - 1]), samples[|samples| - 1])
  }

  function Ticks(t: Timed): Auto {
    Auto(t.state, t.pending, ToU32(t.since))
  }

  lemma TickSpan(later: nat, earlier: nat)
    requires 0 <= later - earlier < 0x1_0000_0000
    ensures ToU32(ToU32(later) as int - ToU32(earlier) as int) as int == later - earlier
  {
  }

  lemma TicksStep(c: Config, t: Timed, s: Sample)
    requires Formed(Ticks(t)) && (t.pending != -1 ==> 0 <= s.at - t.since < 0x1_0000_0000)
    ensures Step(c, Ticks(t), s.value, ToU32(s.at)) == Ticks(TimedStep(c, t, s))
  {
    hide ToU32;
    TickSpan(s.at, s.at);
    if t.pending != -1 {
      TickSpan(s.at, t.since);
    }
  }

  /** A change that waits: its streak began at sample m and is still too short. */
  ghost predicate Waiting(c: Config, samples: seq<Sample>, t: Timed, m: nat) {
    && Streak(c, t.pending, samples, m) && t.since == samples[m].at
    && 0 <= samples[|samples| - 1].at - samples[m].at < Lag(c, t.pending)
  }

  lemma {:induction false} TimedFormed(c: Config, first: int, samples: seq<Sample>)
    ensures Formed(Ticks(TimedRun(c, first, samples)))
  {
    if samples != [] {
      TimedFormed(c, first, samples[..|samples| - 1]);
    }
  }

  /** One more sample, and the sample from which a wait or a change dates. */
  lemma WaitStep(c: Config, t: Timed, prior: seq<Sample>, s: Sample, m: nat) returns (m': nat)
    requires Formed(Ticks(t)) && (prior != [] ==> s.at >= prior[|prior| - 1].at)
    requires t.pending != -1 ==> Waiting(c, prior, t, m)
    ensures TimedStep(c, t, s).pending != -1 ==> Waiting(c, prior + [s], TimedStep(c, t, s), m')
    ensures TimedStep(c, t, s).state != t.state ==> Lasting(c, TimedStep(c, t, s).state, prior + [s], m')
  {
    m' := if t.pending == -1 then |prior| else m;
    assert (prior + [s])[m'] == if t.pending == -1 then s else prior[m];
  }

  lemma {:induction false} Waits(c: Config, first: int, samples: seq<Sample>) returns (m: nat)
    requires Timely(c, samples)
    ensures TimedRun(c, first, samples).pending != -1 ==> Waiting(c, samples, TimedRun(c, first, samples), m)
    ensures samples != [] && TimedRun(c, first, samples).state != TimedRun(c, first, samples[..|samples| - 1]).state
            ==> Lasting(c, TimedRun(c, first, samples).state, samples, m)
    decreases |samples|
  {
    m := 0;
    if samples != [] {
      hide Waiting, Lasting, TimedStep, Formed, Ticks;
      var prior, s := samples[..|samples| - 1], samples[|samples| - 1];
      assert samples == prior + [s];
      m := Waits(c, first, prior);
      TimedFormed(c, first, prior);
      m := WaitStep(c, TimedRun(c, first, prior), prior, s, m);
    }
  }

  /** The 32-bit tick counter, wrap-around included, makes no difference. */
  lemma {:induction false} TicksSuffice(c: Config, first: int, samples: seq<Sample>)
    requires Timely(c, samples)
    ensures Run(c, first, samples).state == TimedRun(c, first, samples).state
    ensures Run(c, first, samples) == Ticks(TimedRun(c, first, samples))
    decreases |samples|
  {
    if samples != [] {
      hide Step, TimedStep;
      var prior, s := samples[..|samples| - 1], samples[|samples| - 1];
      var t := TimedRun(c, first, prior);
      TicksSuffice(c, first, prior);
      var m := Waits(c, first, prior);
      TimedFormed(c, first, prior);
      if t.pending != -1 {
        assert s.at - prior[|prior| - 1].at < 0x1_0000_0000 - c.riseLag - c.fallLag;
      }
      TicksStep(c, t, s);
    }
  }

  /** The state changes only after an unbroken streak beyond the level that spans at
      least the lag. */
  lemma {:induction false} ChangeIsConfirmed(c: Config, first: int, samples: seq<Sample>)
    requires Timely(c, samples) && samples != []
    requires Run(c, first, samples).state != Run(c, first, samples[..|samples| - 1]).state
    ensures exists m :: Lasting(c, Run(c, first, samples).state, samples, m)
  {
    hide Run, TimedRun, Lasting;
    TicksSuffice(c, first, samples);
    TicksSuffice(c, first, samples[..|samples| - 1]);
    var m := Waits(c, first, samples);
  }

  /** And after any such streak the state is the one it leads to. */
  lemma {:induction false} StreakDecides(c: Config, first: int, samples: seq<Sample>, target: int, m: nat)
    requires Timely(c, samples) && 0 <= target <= 1 && Lasting(c, target, samples, m)
    ensures Run(c, first, samples).state == target
  {
    hide Run, TimedRun;
    TicksSuffice(c, first, samples);
    StreakHolds(c, first, samples, target, m);
  }

  /** Somewhere in a streak: the state is already the target, or the change waits since
      the streak's start or longer. */
  ghost predicate UnderWay(c: Config, t: Timed, target: int, samples: seq<Sample>, m: nat)
    requires m < |samples|
  {
    t.state == target || (t.pending == target && t.since <= samples[m].at
                          && samples[|samples| - 1].at - t.since < Lag(c, target))
  }

  function Prior(samples: seq<Sample>): seq<Sample>
    requires samples != []
  {
    samples[..|samples| - 1]
  }

  function Last(samples: seq<Sample>): Sample
    requires samples != []
  {
    samples[|samples| - 1]
  }

  lemma UnderWayStart(c: Config, t: Timed, samples: seq<Sample>, target: int)
    requires samples != [] && Formed(Ticks(t)) && 0 <= target <= 1 && Beyond(c, target, Last(samples).value)
    requires t.pending != -1 ==> t.since <= Last(samples).at
    ensures UnderWay(c, TimedStep(c, t, Last(samples)), target, samples, |samples| - 1)
  {
  }

  lemma UnderWayStep(c: Config, t: Timed, samples: seq<Sample>, target: int, m: nat)
    requires samples != [] && Formed(Ticks(t)) && 0 <= target <= 1 && Beyond(c, target, Last(samples).value)
    requires m < |Prior(samples)| && Last(samples).at >= Last(Prior(samples)).at
    requires UnderWay(c, t, target, Prior(samples), m)
    ensures UnderWay(c, TimedStep(c, t, Last(samples)), target, samples, m)
  {
  }

  lemma Shorter(c: Config, target: int, samples: seq<Sample>, m: nat)
    requires Timely(c, samples) && Streak(c, target, samples, m)
    ensures samples != [] && Timely(c, Prior(samples)) && Beyond(c, target, Last(samples).value)
    ensures m < |Prior(samples)| ==> Streak(c, target, Prior(samples), m)
    ensures Prior(samples) != [] ==> Last(samples).at >= Last(Prior(samples)).at
    ensures m <= |Prior(samples)|
  {
  }

  /** A wait began no later than the last sample. */
  lemma WaitBegan(c: Config, prior: seq<Sample>, t: Timed, m: nat)
    requires Waiting(c, prior, t, m)
    ensures prior != [] && t.since <= Last(prior).at
  {
  }

  lemma RunOn(c: Config, first: int, samples: seq<Sample>)
    requires samples != []
    ensures TimedRun(c, first, samples) == TimedStep(c, TimedRun(c, first, Prior(samples)), Last(samples))
  {
  }

  lemma {:induction false} StreakHolds(c: Config, first: int, samples: seq<Sample>, target: int, m: nat)
    requires Timely(c, samples) && 0 <= target <= 1 && Streak(c, target, samples, m)
    ensures m < |samples| && UnderWay(c, TimedRun(c, first, samples), target, samples, m)
    decreases |samples|
  {
    hide UnderWay, TimedStep, TimedRun, Formed, Ticks, Beyond, Streak, Timely, Waiting, Lasting, Last;
    Shorter(c, target, samples, m);
    var prior := Prior(samples);
    var t := TimedRun(c, first, prior);
    TimedFormed(c, first, prior);
    if m < |prior| {
      StreakHolds(c, first, prior, target, m);
      UnderWayStep(c, t, samples, target, m);
    } else {
      var i := Waits(c, first, prior);
      if t.pending != -1 {
        WaitBegan(c, prior, t, i);
      }
      UnderWayStart(c, t, samples, target);
    }
    RunOn(c, first, samples);
  }

  /** All reports of a run, the first sample's included. */
  function Reports(c: Config, first: int, samples: seq<Sample>): seq<int> {
    if samples == [] then [Start(c, first).state]
    else
      var before, after := Run(c, first, samples[..|samples| - 1]).state, Run(c, first, samples).state;
      Reports(c, first, samples[..|samples| - 1]) + if after != before then [after] else []
  }

  /** Reported values alternate, and the last one is the state. */
  lemma {:induction false} ReportsAlternate(c: Config, first: int, samples: seq<Sample>)
    ensures var r := Reports(c, first, samples);
            && r != [] && r[|r| - 1] == Run(c, first, samples).state
            && forall k :: 0 < k < |r| ==> r[k] == 1 - r[k - 1]
    decreases |samples|
  {
    if samples != [] {
      ReportsAlternate(c, first, samples[..|samples| - 1]);
    }
  }

  // ----- the states of a run, in the words of the options -----

  /** From sample m on the value stood at or above the threshold and half the
      hysteresis, and that for the rise lag when the last sample was taken. */
  ghost predicate StoodAbove(c: Config, samples: seq<Sample>, m: nat) {
    && m < |samples| && (forall k :: m <= k < |samples| ==> samples[k].value >= c.threshold + c.hyst / 2)
    && samples[|samples| - 1].at - samples[m].at >= c.riseLag
  }

  /** Or below the threshold less half the hysteresis, for the fall lag. */
  ghost predicate StoodBelow(c: Config, samples: seq<Sample>, m: nat) {
    && m < |samples| && (forall k :: m <= k < |samples| ==> samples[k].value < c.threshold - c.hyst / 2)
    && samples[|samples| - 1].at - samples[m].at >= c.fallLag
  }

  lemma StoodIsLasting(c: Config, samples: seq<Sample>, m: nat)
    ensures StoodAbove(c, samples, m) <==> Lasting(c, 1, samples, m)
    ensures StoodBelow(c, samples, m) <==> Lasting(c, 0, samples, m)
  {
  }

  /** After every sample of every run: the state is 1 exactly if the value has just stood
      high for the rise lag, or the state was 1 and the value has not just stood low for
      the fall lag. The first value decides by the rise level alone. */
  lemma {:induction false} StateExactly(c: Config, first: int, samples: seq<Sample>)
    requires Timely(c, samples) && samples != []
    ensures Run(c, first, samples).state == 1 <==>
              || (exists m :: StoodAbove(c, samples, m))
              || (Run(c, first, samples[..|samples| - 1]).state == 1 && !exists m :: StoodBelow(c, samples, m))
    ensures Run(c, first, []).state == 1 <==> first >= c.threshold + c.hyst / 2
  {
    var s, was := Run(c, first, samples).state, Run(c, first, samples[..|samples| - 1]).state;
    assert Formed(Run(c, first, samples)) && Formed(Run(c, first, samples[..|samples| - 1]));
    forall m: nat
      ensures StoodAbove(c, samples, m) ==> s == 1
      ensures StoodBelow(c, samples, m) ==> s == 0
    {
      StoodIsLasting(c, samples, m);
      hide Run, StoodAbove, StoodBelow, Lasting, Timely;
      if Lasting(c, 1, samples, m) {
        StreakDecides(c, first, samples, 1, m);
      }
      if Lasting(c, 0, samples, m) {
        StreakDecides(c, first, samples, 0, m);
      }
    }
    if s != was {
      hide Run, StoodAbove, StoodBelow, Timely;
      ChangeIsConfirmed(c, first, samples);
      var m :| Lasting(c, s, samples, m);
      StoodIsLasting(c, samples, m);
    }
  }

  /** The code over a run of samples, with the tick counter it reads. */
  method Follow(c: Config, first: int, samples: seq<Sample>) returns (reports: seq<int>)
    ensures reports == Reports(c, first, samples)
  {
    hide Step;
    var channel := new Channel(c, first);
    reports := [channel.threshState];
    for i := 0 to |samples|
      invariant channel.config == c && channel.View() == Run(c, first, samples[..i])
      invariant reports == Reports(c, first, samples[..i])
    {
      assert samples[..i + 1][..i] == samples[..i];
      var more := channel.ProcessSample(samples[i].value, ToU32(samples[i].at));
      reports := reports + more;
    }
    assert samples[..|samples|] == samples;
  }
}
