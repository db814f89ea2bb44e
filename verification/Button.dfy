/** A button (components/buttonLeds/button_logic.c): the filter against bouncing and
    the machine that tells short presses from long ones, double clicks switched off.
    Levels are true while the button is pressed. */
module Button {
  import opened Words

  // ----- the filter -----

  /** A raw level and its time in microseconds. */
  datatype Raw = Raw(level: bool, at: int)

  /** The level seen last, the level let through, and since when the former stands. */
  datatype Filter = Filter(cand: bool, stable: bool, since: int)

  function FilterStep(gap: int, f: Filter, r: Raw): Filter {
    var since := if r.level != f.cand then r.at else f.since;
    if r.level != f.stable && r.at - since >= gap * 1000 then Filter(r.level, r.level, since)
    else Filter(r.level, f.stable, since)
  }

  /** The filter after these levels, the first of which it takes over as it is. */
  function Filtered(gap: int, raws: seq<Raw>): Filter
    requires raws != []
  {
    if |raws| == 1 then Filter(raws[0].level, raws[0].level, raws[0].at)
    else FilterStep(gap, Filtered(gap, raws[..|raws| - 1]), raws[|raws| - 1])
  }

  /** Where the unbroken stretch of the last level begins. */
  function StretchStart(raws: seq<Raw>): (m: nat)
    requires raws != []
    ensures m < |raws|
    ensures forall k :: m <= k < |raws| ==> raws[k].level == raws[|raws| - 1].level
    ensures m > 0 ==> raws[m - 1].level != raws[|raws| - 1].level
  {
    var n := |raws| - 1;
    if n == 0 || raws[n - 1].level != raws[n].level then n else StretchStart(raws[..n])
  }

  /** The stretch of the last level has lasted the gap. */
  ghost predicate Settled(gap: int, raws: seq<Raw>)
    requires raws != []
  {
    raws[|raws| - 1].at - raws[StretchStart(raws)].at >= gap * 1000
  }

  /** A level is let through exactly when it stood for the whole gap; until then the
      level before stays. */
  lemma {:induction false} SettledLevels(gap: int, raws: seq<Raw>)
    requires |raws| >= 2 && gap > 0
    ensures Filtered(gap, raws).stable
         == if Settled(gap, raws) then raws[|raws| - 1].level else Filtered(gap, raws[..|raws| - 1]).stable
  {
    FilterRemembers(gap, raws);
    FilterRemembers(gap, raws[..|raws| - 1]);
  }

  lemma {:induction false} FilterRemembers(gap: int, raws: seq<Raw>)
    requires raws != []
    ensures Filtered(gap, raws).cand == raws[|raws| - 1].level
    ensures Filtered(gap, raws).since == raws[StretchStart(raws)].at
    decreases |raws|
  {
    if |raws| > 1 {
      FilterRemembers(gap, raws[..|raws| - 1]);
    }
  }

  class Debouncer {
    const gap: int
    var inited: bool
    var cand: bool
    var stable: bool
    var since: int

    ghost function View(): Filter
      reads this
    {
      Filter(cand, stable, since)
    }

    constructor (gap: int)
      ensures this.gap == gap && !inited
    {
      this.gap := gap;
      inited, cand, stable, since := false, false, false, 0;
    }

    /** button_logic_debounce; a gap of zero or less lets every level through. */
    method Debounce(level: bool, now: int) returns (out: bool)
      modifies this
      ensures out == stable
      ensures gap <= 0 ==> out == level && inited == old(inited)
      ensures gap > 0 && !old(inited) ==> inited && View() == Filtered(gap, [Raw(level, now)])
      ensures gap > 0 && old(inited) ==> inited && View() == FilterStep(gap, old(View()), Raw(level, now))
    {
      if gap <= 0 {
        cand, stable := level, level;
        return level;
      }
      if !inited {
        inited, cand, stable, since := true, level, level, now;
        return level;
      }
      if level != cand {
        cand, since := level, now;
      }
      if cand != stable && now - since >= gap * 1000 {
        stable := cand;
      }
      return stable;
    }
  }

  // ----- short and long presses -----

  datatype Report = Short(pressed: bool) | Long(pressed: bool)

  datatype Config = Config(longPressTime: nat, filter: bool)

  datatype Machine = Machine(prev: bool, pressBegin: u32, longSignaled: bool)

  class PressLogic {
    const config: Config
    var prev: bool
    var pressTimeBegin: u32
    var longPressSignaled: bool

    ghost function View(): Machine
      reads this
    {
      Machine(prev, pressTimeBegin, longPressSignaled)
    }

    constructor (c: Config)
      ensures config == c && View() == Machine(false, 0, false)
    {
      config := c;
      prev, pressTimeBegin, longPressSignaled := false, 0, false;
    }

    /** button_logic_update */
    method Update(level: bool, now: u32) returns (reports: seq<Report>)
      modifies this
      ensures View() == MachineStep(config, old(View()), level, now).0
      ensures reports == MachineStep(config, old(View()), level, now).1
    {
      reports := [];
      if config.longPressTime > 0 {
        if level != prev {
          if level {
            pressTimeBegin := now;
            if !config.filter {
              reports := reports + [Short(true)];
            }
          } else {
            if longPressSignaled {
              if !config.filter {
                reports := reports + [Short(false)];
              }
              reports := reports + [Long(false)];
              longPressSignaled := false;
            } else {
              if config.filter {
                reports := reports + [Short(true)];
              }
              reports := reports + [Short(false)];
            }
            pressTimeBegin := 0;
          }
          prev := level;
        } else if pressTimeBegin != 0 && !longPressSignaled {
          if ToU32(now as int - pressTimeBegin as int) as int >= config.longPressTime {
            reports := reports + [Long(true)];
            longPressSignaled := true;
          }
        }
      } else if level != prev {
        prev := level;
        reports := reports + [Short(level)];
      }
    }
  }

  /** What one level does to the machine, and what is reported. */
  function MachineStep(c: Config, m: Machine, level: bool, now: u32): (Machine, seq<Report>) {
    if c.longPressTime == 0 then
      (m.(prev := level), if level != m.prev then [Short(level)] else [])
    else if level && !m.prev then
      (m.(prev := true, pressBegin := now), if c.filter then [] else [Short(true)])
    else if m.prev && !level then
      (Machine(false, 0, false),
       if m.longSignaled then (if c.filter then [Long(false)] else [Short(false), Long(false)])
       else if c.filter then [Short(true), Short(false)] else [Short(false)])
    else if m.pressBegin != 0 && !m.longSignaled
            && ToU32(now as int - m.pressBegin as int) as int >= c.longPressTime then
      (m.(longSignaled := true), [Long(true)])
    else (m, [])
  }

  datatype Sample = Sample(level: bool, at: u32)

  function Run(c: Config, samples: seq<Sample>): (Machine, seq<Report>) {
    if samples == [] then (Machine(false, 0, false), [])
    else
      var (m, told) := Run(c, samples[..|samples| - 1]);
      var (m', more) := MachineStep(c, m, samples[|samples| - 1].level, samples[|samples| - 1].at);
      (m', told + more)
  }

  // ----- the presses in a run of samples -----

  /** One press: the tick of its first sample, the samples while it is held, and the
      tick it is let go, then the samples until the next. */
  datatype Press = Press(begin: u32, held: seq<u32>, released: u32, idle: seq<u32>)

  datatype Pending = None | Down(begin: u32, held: seq<u32>)

  /** A run of samples read as presses, the last one perhaps not let go yet. */
  datatype Story = Story(idle: seq<u32>, presses: seq<Press>, last: Pending)

  function At(level: bool, ticks: seq<u32>): seq<Sample> {
    if ticks == [] then [] else At(level, ticks[..|ticks| - 1]) + [Sample(level, ticks[|ticks| - 1])]
  }

  /** The samples of one press but for its last idle ones. */
  function Stroke(p: Press): seq<Sample> {
    [Sample(true, p.begin)] + At(true, p.held) + [Sample(false, p.released)]
  }

  function PressSamples(presses: seq<Press>): seq<Sample> {
    if presses == [] then []
    else
      var p := presses[|presses| - 1];
      PressSamples(presses[..|presses| - 1]) + (Stroke(p) + At(false, p.idle))
  }

  function StorySamples(s: Story): seq<Sample> {
    At(false, s.idle) + PressSamples(s.presses)
    + match s.last
      case None => []
      case Down(begin, held) => [Sample(true, begin)] + At(true, held)
  }

  function Extended(s: Story, x: Sample): Story {
    match s.last
    case Down(begin, held) =>
      if x.level then s.(last := Down(begin, held + [x.at]))
      else Story(s.idle, s.presses + [Press(begin, held, x.at, [])], None)
    case None =>
      if x.level then s.(last := Down(x.at, []))
      else if s.presses == [] then s.(idle := s.idle + [x.at])
      else
        var p := s.presses[|s.presses| - 1];
        s.(presses := s.presses[..|s.presses| - 1] + [p.(idle := p.idle + [x.at])])
  }

  function Read(samples: seq<Sample>): Story {
    if samples == [] then Story([], [], None)
    else Extended(Read(samples[..|samples| - 1]), samples[|samples| - 1])
  }

  lemma AtSnoc(level: bool, ticks: seq<u32>, t: u32)
    ensures At(level, ticks + [t]) == At(level, ticks) + [Sample(level, t)]
  {
    assert (ticks + [t])[..|ticks|] == ticks;
  }

  lemma PressesSnoc(presses: seq<Press>, p: Press)
    ensures PressSamples(presses + [p]) == PressSamples(presses) + (Stroke(p) + At(false, p.idle))
  {
    assert (presses + [p])[..|presses|] == presses;
  }

  lemma ReleaseSamples(s: Story, t: u32)
    requires s.last.Down?
    ensures StorySamples(Extended(s, Sample(false, t))) == StorySamples(s) + [Sample(false, t)]
  {
    hide At, PressSamples;
    var p := Press(s.last.begin, s.last.held, t, []);
    PressesSnoc(s.presses, p);
    NoneAt();
  }

  lemma NoneAt()
    ensures At(false, []) == [] && At(true, []) == []
  {
  }

  lemma IdleSamples(s: Story, t: u32)
    requires s.last.None? && s.presses != []
    ensures StorySamples(Extended(s, Sample(false, t))) == StorySamples(s) + [Sample(false, t)]
  {
    hide At, PressSamples;
    var n := |s.presses| - 1;
    var p := s.presses[n];
    var p' := p.(idle := p.idle + [t]);
    assert s.presses == s.presses[..n] + [p];
    PressesSnoc(s.presses[..n], p);
    PressesSnoc(s.presses[..n], p');
    AtSnoc(false, p.idle, t);
  }

  lemma ExtendedSamples(s: Story, x: Sample)
    ensures StorySamples(Extended(s, x)) == StorySamples(s) + [x]
  {
    hide At, PressSamples;
    if x.level {
      NoneAt();
      if s.last.Down? {
        AtSnoc(true, s.last.held, x.at);
      }
    } else if s.last.Down? {
      ReleaseSamples(s, x.at);
    } else if s.presses == [] {
      AtSnoc(false, s.idle, x.at);
      NoPresses();
    } else {
      IdleSamples(s, x.at);
    }
  }

  lemma NoPresses()
    ensures PressSamples([]) == []
  {
  }

  /** The story of a run is the whole run. */
  lemma {:induction false} StoryIsFaithful(samples: seq<Sample>)
    ensures StorySamples(Read(samples)) == samples
  {
    if samples != [] {
      var n := |samples| - 1;
      StoryIsFaithful(samples[..n]);
      ExtendedSamples(Read(samples[..n]), samples[n]);
      assert samples == samples[..n] + [samples[n]];
    }
  }

  // ----- what each press is to be told as -----

  /** A long press: some sample, while it is held, finds the long press time gone by.
      A press that begins at tick zero is never long. */
  ghost predicate IsLong(c: Config, begin: u32, held: seq<u32>) {
    && c.longPressTime > 0 && begin != 0
    && exists k :: 0 <= k < |held| && ToU32(held[k] as int - begin as int) as int >= c.longPressTime
  }

  ghost function Told(c: Config, p: Press): seq<Report> {
    if !IsLong(c, p.begin, p.held) then [Short(true), Short(false)]
    else if c.filter then [Long(true), Long(false)]
    else [Short(true), Long(true), Short(false), Long(false)]
  }

  ghost function AllTold(c: Config, presses: seq<Press>): seq<Report> {
    if presses == [] then [] else AllTold(c, presses[..|presses| - 1]) + Told(c, presses[|presses| - 1])
  }

  /** With the event filter a press is told when its kind is known. */
  ghost function SoFar(c: Config, last: Pending): seq<Report> {
    match last
    case None => []
    case Down(begin, held) =>
      (if c.filter && c.longPressTime > 0 then [] else [Short(true)])
      + if IsLong(c, begin, held) then [Long(true)] else []
  }

  lemma LongSoFar(c: Config, begin: u32, held: seq<u32>, t: u32)
    ensures IsLong(c, begin, held + [t]) <==>
              IsLong(c, begin, held)
              || (c.longPressTime > 0 && begin != 0 && ToU32(t as int - begin as int) as int >= c.longPressTime)
  {
    var after := held + [t];
    if IsLong(c, begin, held) {
      var k :| 0 <= k < |held| && ToU32(held[k] as int - begin as int) as int >= c.longPressTime;
      assert after[k] == held[k];
    }
    assert after[|held|] == t;
  }

  ghost predicate Matches(c: Config, m: Machine, last: Pending) {
    match last
    case None => !m.prev && (c.longPressTime > 0 ==> m.pressBegin == 0 && !m.longSignaled)
    case Down(begin, held) =>
      m.prev && (c.longPressTime > 0 ==> m.pressBegin == begin && m.longSignaled == IsLong(c, begin, held))
  }

  lemma ToldSnoc(c: Config, presses: seq<Press>, p: Press)
    ensures AllTold(c, presses + [p]) == AllTold(c, presses) + Told(c, p)
  {
    assert (presses + [p])[..|presses|] == presses;
  }

  /** Idle samples are no part of what is told. */
  lemma ToldIdle(c: Config, presses: seq<Press>, idle: seq<u32>)
    requires presses != []
    ensures var n := |presses| - 1;
            AllTold(c, presses[..n] + [presses[n].(idle := idle)]) == AllTold(c, presses)
  {
    var n := |presses| - 1;
    ToldSnoc(c, presses[..n], presses[n].(idle := idle));
  }

  ghost predicate Fits(c: Config, s: Story, m: Machine, x: Sample)
  {
    && Matches(c, MachineStep(c, m, x.level, x.at).0, Extended(s, x).last)
    && AllTold(c, Extended(s, x).presses) + SoFar(c, Extended(s, x).last)
         == AllTold(c, s.presses) + SoFar(c, s.last) + MachineStep(c, m, x.level, x.at).1
  }

  lemma HeldOn(c: Config, s: Story, m: Machine, t: u32)
    requires Matches(c, m, s.last) && s.last.Down?
    ensures Fits(c, s, m, Sample(true, t))
  {
    hide ToU32, AllTold;
    LongSoFar(c, s.last.begin, s.last.held, t);
    hide IsLong;
  }

  lemma LetGo(c: Config, s: Story, m: Machine, t: u32)
    requires Matches(c, m, s.last) && s.last.Down?
    ensures Fits(c, s, m, Sample(false, t))
  {
    hide ToU32, AllTold;
    ToldSnoc(c, s.presses, Press(s.last.begin, s.last.held, t, []));
    assert IsLong(c, s.last.begin, s.last.held) ==> c.longPressTime > 0;
    hide IsLong;
  }

  lemma NotDown(c: Config, s: Story, m: Machine, x: Sample)
    requires Matches(c, m, s.last) && s.last.None?
    ensures Fits(c, s, m, x)
  {
    hide ToU32, AllTold;
    assert !IsLong(c, x.at, []);
    hide IsLong;
    if !x.level && s.presses != [] {
      ToldIdle(c, s.presses, s.presses[|s.presses| - 1].idle + [x.at]);
    }
  }

  /** For every run of samples, both filter settings and every long press time: the
      reports are those of its presses, one kind each, in order. */
  lemma {:induction false} PressesAreTold(c: Config, samples: seq<Sample>)
    ensures Run(c, samples).1 == AllTold(c, Read(samples).presses) + SoFar(c, Read(samples).last)
    ensures Matches(c, Run(c, samples).0, Read(samples).last)
  {
    if samples != [] {
      var n := |samples| - 1;
      PressesAreTold(c, samples[..n]);
      var s, m, x := Read(samples[..n]), Run(c, samples[..n]).0, samples[n];
      if s.last.None? {
        NotDown(c, s, m, x);
      } else if x.level {
        HeldOn(c, s, m, x.at);
      } else {
        LetGo(c, s, m, x.at);
      }
    }
  }

  // ----- the code over runs -----

  /** The filter over levels that come one after the other. */
  method FilterAll(gap: int, raws: seq<Raw>) returns (levels: seq<bool>)
    requires gap > 0
    ensures |levels| == |raws|
    ensures forall k :: 0 <= k < |raws| ==> levels[k] == Filtered(gap, raws[..k + 1]).stable
  {
    var d := new Debouncer(gap);
    levels := [];
    for i := 0 to |raws|
      invariant |levels| == i && d.gap == gap && d.inited == (i > 0)
      invariant i > 0 ==> d.View() == Filtered(gap, raws[..i])
      invariant forall k :: 0 <= k < i ==> levels[k] == Filtered(gap, raws[..k + 1]).stable
    {
      assert raws[..i + 1][..i] == raws[..i];
      assert i == 0 ==> raws[..1] == [raws[0]];
      var level := d.Debounce(raws[i].level, raws[i].at);
      levels := levels + [level];
    }
  }

  /** The machine over samples: it reports what the presses in them are to be told as. */
  method WatchAll(c: Config, samples: seq<Sample>) returns (reports: seq<Report>)
    ensures reports == AllTold(c, Read(samples).presses) + SoFar(c, Read(samples).last)
  {
    hide MachineStep, Read, AllTold, SoFar;
    var logic := new PressLogic(c);
    reports := [];
    for i := 0 to |samples|
      invariant logic.config == c && (logic.View(), reports) == Run(c, samples[..i])
    {
      assert samples[..i + 1][..i] == samples[..i];
      var more := logic.Update(samples[i].level, samples[i].at);
      reports := reports + more;
    }
    assert samples[..|samples|] == samples;
    PressesAreTold(c, samples);
  }
}
