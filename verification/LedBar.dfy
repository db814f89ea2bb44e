/** The LED bar and its commands (update_led_bar and the command loop in
    components/buttonLeds/button_ledBar.c). */
module LedBar {
  import opened Words
  import opened Arithmetic
  import opened LedFronts

  /** Number of LEDs and positions, brightness limits; positions and increments
      are clamped by the commands. */
  datatype Config = Config(leds: nat, positions: nat, lo: byte, hi: byte)

  datatype Bar = Bar(cur: seq<byte>, tgt: seq<byte>, on: bool, seenOn: int, pos: int, seenPos: int, increment: nat)

  datatype Command = Enable(on: bool) | Toggle | SetPos(pos: int) | SetIncrement(step: i32) | Tick

  ghost predicate Sane(c: Config) {
    c.leds > 0 && c.positions > 0
  }

  /** Brightness wanted of LED i at position pos: full, partial at the edge, low. */
  function Wanted(c: Config, pos: nat, i: nat): (b: byte)
    requires c.positions > 0
  {
    var whole := c.leds * pos / c.positions;
    if i < whole then c.hi
    else if i == whole then
      var b := c.hi * (c.leds * pos % c.positions) / c.positions;
      Partial(c.hi, c.leds * pos % c.positions, c.positions);
      if b < c.lo then c.lo else b
    else c.lo
  }

  lemma Partial(hi: nat, part: nat, all: nat)
    requires part < all
    ensures 0 <= hi * part / all <= hi
  {
    MulLeBoth(hi, hi, part, all);
    DivAtMost(hi * part, all, hi);
  }

  function Target(c: Config, pos: nat): (t: seq<byte>)
    requires c.positions > 0
    ensures |t| == c.leds
  {
    seq(c.leds, i requires 0 <= i < c.leds => Wanted(c, pos, i))
  }

  /** The target falls along the bar exactly when the limits are the right way
      round, or the edge lies at one of the ends. */
  lemma TargetShape(c: Config, pos: nat)
    requires Sane(c)
    ensures var whole := c.leds * pos / c.positions;
            NonIncreasing(Target(c, pos)) <==> c.lo <= c.hi || whole == 0 || whole >= c.leds
  {
    var whole := c.leds * pos / c.positions;
    var t := Target(c, pos);
    var edge: byte := if whole < c.leds then t[whole] else c.lo;
    WholeNotNegative(c, pos);
    EdgeLevel(c, pos, whole);
    assert forall i :: 0 <= i < c.leds ==> t[i] == if i < whole then c.hi else if i == whole then edge else c.lo;
    hide Target, Wanted;
    if c.lo > c.hi && 0 < whole < c.leds {
      assert t[whole - 1] < t[whole];
    }
  }

  lemma WholeNotNegative(c: Config, pos: nat)
    requires Sane(c)
    ensures c.leds * pos / c.positions >= 0
  {
    MulLeBoth(0, c.leds, 0, pos);
    DivisionIs(0, c.positions, 0, 0);
    DivLe(0, c.leds * pos, c.positions);
  }

  lemma EdgeLevel(c: Config, pos: nat, whole: nat)
    requires Sane(c) && whole == c.leds * pos / c.positions
    ensures c.lo <= c.hi ==> c.lo <= Wanted(c, pos, whole) <= c.hi
    ensures c.lo > c.hi ==> Wanted(c, pos, whole) == c.lo
  {
    Division(c.leds * pos, c.positions);
    Partial(c.hi, c.leds * pos % c.positions, c.positions);
  }

  /** How much of LED i a bar filled up to pos covers, in parts of one LED, of which an
      LED has `positions`: covered whole it shows the upper limit, not at all the lower,
      and in part that part of the upper limit, but no less than the lower. */
  lemma WantedIsCoverage(c: Config, pos: nat, i: nat)
    requires Sane(c)
    ensures var covered := c.leds * pos - i * c.positions;
            if covered >= c.positions then Wanted(c, pos, i) == c.hi
            else if covered <= 0 then Wanted(c, pos, i) == c.lo
            else
              var part := c.hi * covered / c.positions;
              Wanted(c, pos, i) == if part < c.lo then c.lo else part
  {
    var whole, rest := c.leds * pos / c.positions, c.leds * pos % c.positions;
    Division(c.leds * pos, c.positions);
    WholeNotNegative(c, pos);
    assert c.leds * pos - i * c.positions == (whole - i) * c.positions + rest;
    if i < whole {
      MulLe(1, whole - i, c.positions);
    } else if i > whole {
      MulLe(whole - i, -1, c.positions);
    } else {
      Partial(c.hi, rest, c.positions);
      assert (whole - i) * c.positions == 0;
      if rest == 0 {
        DivisionIs(0, c.positions, 0, 0);
      }
    }
  }

  /** A higher position darkens no LED. */
  lemma TargetGrows(c: Config, p: nat, q: nat, i: nat)
    requires Sane(c) && c.lo <= c.hi && p <= q && i < c.leds
    ensures Wanted(c, p, i) <= Wanted(c, q, i)
  {
    MulLeBoth(c.leds, c.leds, p, q);
    DivLe(c.leds * p, c.leds * q, c.positions);
    Partial(c.hi, c.leds * p % c.positions, c.positions);
    Partial(c.hi, c.leds * q % c.positions, c.positions);
    if c.leds * p / c.positions == c.leds * q / c.positions {
      MulLeBoth(c.hi, c.hi, c.leds * p % c.positions, c.leds * q % c.positions);
      DivLe(c.hi * (c.leds * p % c.positions), c.hi * (c.leds * q % c.positions), c.positions);
    }
  }

  /** The lowest position lights no LED, the highest all. */
  lemma TargetEnds(c: Config, i: nat)
    requires Sane(c) && i < c.leds
    ensures Wanted(c, 0, i) == c.lo && Wanted(c, c.positions, i) == c.hi
  {
    WholeParts(c.leds, c.positions);
    WholeParts(c.hi, c.positions);
  }

  lemma WholeParts(n: nat, parts: nat)
    requires parts > 0
    ensures n * 0 / parts == 0 && n * 0 % parts == 0
    ensures n * parts / parts == n && n * parts % parts == 0
  {
    DivisionIs(n * 0, parts, 0, 0);
    DivisionIs(n * parts, parts, n, 0);
  }

  function Clamp(x: int, lo: int, hi: int): int {
    if x < lo then lo else if x > hi then hi else x
  }

  function Faded(b: byte, lo: byte, dec: nat): byte {
    if b > lo then if b as int - dec < lo then lo else b - dec else lo
  }

  function FadedAll(cur: seq<byte>, lo: byte, dec: nat): (r: seq<byte>)
    ensures |r| == |cur|
  {
    seq(|cur|, i requires 0 <= i < |cur| => Faded(cur[i], lo, dec))
  }

  function Uniform(n: nat, b: byte): (r: seq<byte>)
    ensures |r| == n
  {
    seq(n, i => b)
  }

  /** One refresh: fade out together when off, move the fronts when on. */
  function Refreshed(c: Config, b: Bar): Bar
    requires Sane(c) && b.pos >= 0 && b.increment > 0 && |b.cur| == |b.tgt| == c.leds
  {
    var changed := b.seenOn != (if b.on then 1 else 0);
    var seen := if b.on then 1 else 0;
    if !b.on then
      b.(seenOn := seen, tgt := if changed then Uniform(c.leds, c.lo) else b.tgt,
         cur := FadedAll(b.cur, c.lo, b.increment))
    else
      var recalc := changed || b.pos != b.seenPos;
      var tgt := if recalc then Target(c, b.pos) else b.tgt;
      b.(seenOn := seen, seenPos := if recalc then b.pos else b.seenPos, tgt := tgt,
         cur := Cycle(b.cur, tgt, b.increment))
  }

  /** One command or refresh; the increment goes through a 16-bit field before it is
      clamped. */
  function Do(c: Config, b: Bar, cmd: Command): Bar
    requires Sane(c) && b.pos >= 0 && b.increment > 0 && |b.cur| == |b.tgt| == c.leds
  {
    match cmd
    case Enable(on) => b.(on := on)
    case Toggle => b.(on := !b.on)
    case SetPos(p) => b.(pos := Clamp(p, 0, c.positions))
    case SetIncrement(k) => b.(increment := Clamp(ToI16(k), 1, 255))
    case Tick => Refreshed(c, b)
  }

  /** Dark, off or on, nothing computed yet. */
  function Dark(c: Config, on: bool, increment: nat): Bar {
    Bar(Uniform(c.leds, 0), Uniform(c.leds, 0), on, 255, 0, -1, increment)
  }

  // ----- what every run keeps -----

  function Top(c: Config): byte {
    if c.lo < c.hi then c.hi else c.lo
  }

  /** The shape of the state; no LED is brighter than the higher limit. */
  ghost predicate BarOk(c: Config, b: Bar) {
    && Sane(c)
    && |b.cur| == |b.tgt| == c.leds && 0 <= b.pos <= c.positions && 1 <= b.increment <= 255
    && (forall k :: 0 <= k < |b.cur| ==> b.cur[k] <= Top(c))
    && (b.seenOn == 1 ==> b.seenPos >= 0 && b.tgt == Target(c, b.seenPos))
  }

  lemma TargetBelowTop(c: Config, pos: nat)
    requires Sane(c)
    ensures forall k :: 0 <= k < c.leds ==> Target(c, pos)[k] <= Top(c)
    ensures c.lo <= c.hi ==> forall k :: 0 <= k < c.leds ==> c.lo <= Target(c, pos)[k]
  {
    Partial(c.hi, c.leds * pos % c.positions, c.positions);
  }

  lemma DoKeepsOk(c: Config, b: Bar, cmd: Command)
    requires BarOk(c, b)
    ensures BarOk(c, Do(c, b, cmd))
  {
    if cmd.Tick? && b.on {
      hide Target, Cycle;
      TargetBelowTop(c, b.pos);
      if b.seenOn == 1 {
        TargetBelowTop(c, b.seenPos);
      }
      CycleBetween(b.cur, Refreshed(c, b).tgt, b.increment);
    }
  }

  ghost function Run(c: Config, b: Bar, cmds: seq<Command>): (r: Bar)
    requires BarOk(c, b)
    ensures BarOk(c, r)
    decreases |cmds|
  {
    if cmds == [] then b
    else
      DoKeepsOk(c, Run(c, b, cmds[..|cmds| - 1]), cmds[|cmds| - 1]);
      Do(c, Run(c, b, cmds[..|cmds| - 1]), cmds[|cmds| - 1])
  }

  lemma RunSnoc(c: Config, b: Bar, cmds: seq<Command>, cmd: Command)
    requires BarOk(c, b)
    ensures Run(c, b, cmds + [cmd]) == Do(c, Run(c, b, cmds), cmd)
  {
    assert (cmds + [cmd])[..|cmds|] == cmds;
  }

  lemma {:induction false} RunAppend(c: Config, b: Bar, first: seq<Command>, second: seq<Command>)
    requires BarOk(c, b)
    ensures Run(c, b, first + second) == Run(c, Run(c, b, first), second)
    decreases |second|
  {
    if second == [] {
      assert first + second == first;
    } else {
      hide BarOk, Do;
      var n := |second| - 1;
      RunAppend(c, b, first, second[..n]);
      assert first + second == (first + second[..n]) + [second[n]];
      RunSnoc(c, b, first + second[..n], second[n]);
    }
  }

  lemma DarkOk(c: Config, on: bool, increment: nat)
    requires Sane(c) && 1 <= increment <= 255
    ensures BarOk(c, Dark(c, on, increment))
  {
  }

  // ----- the shape of the bar over runs -----

  ghost predicate Shaped(b: Bar) {
    NonIncreasing(b.cur) && NonIncreasing(b.tgt)
  }

  /** The configurations in which no position has its edge inside an inverted bar. */
  predicate Orderly(c: Config) {
    c.lo <= c.hi || c.leds == 1 || c.positions == 1
  }

  lemma OrderlyTarget(c: Config, pos: nat)
    requires Sane(c) && Orderly(c) && pos <= c.positions
    ensures NonIncreasing(Target(c, pos))
  {
    if c.leds > 1 {
      hide NonIncreasing, Target;
      TargetShape(c, pos);
      if c.lo > c.hi {
        assert pos == 0 || pos == 1;
        WholeParts(c.leds, c.positions);
      }
    }
  }

  lemma DoKeepsShape(c: Config, b: Bar, cmd: Command)
    requires Orderly(c) && BarOk(c, b) && Shaped(b)
    ensures Shaped(Do(c, b, cmd))
  {
    hide NonIncreasing, Target, Cycle;
    if cmd.Tick? {
      OrderlyTarget(c, b.pos);
      if b.on {
        CycleKeepsShape(b.cur, Refreshed(c, b).tgt, b.increment);
      } else {
        FadeKeepsShape(c, b.cur, b.increment);
      }
    }
  }

  lemma FadeKeepsShape(c: Config, cur: seq<byte>, dec: nat)
    requires |cur| == c.leds && NonIncreasing(cur)
    ensures NonIncreasing(FadedAll(cur, c.lo, dec))
    ensures NonIncreasing(Uniform(c.leds, c.lo))
  {
  }

  lemma {:induction false} RunKeepsShape(c: Config, on: bool, increment: nat, cmds: seq<Command>)
    requires Sane(c) && Orderly(c) && 1 <= increment <= 255
    ensures BarOk(c, Dark(c, on, increment)) && Shaped(Run(c, Dark(c, on, increment), cmds))
    decreases |cmds|
  {
    DarkOk(c, on, increment);
    if cmds == [] {
    } else {
      hide BarOk, Do, Shaped, Dark, Orderly;
      var n := |cmds| - 1;
      RunKeepsShape(c, on, increment, cmds[..n]);
      DoKeepsShape(c, Run(c, Dark(c, on, increment), cmds[..n]), cmds[n]);
    }
  }

  // ----- left alone -----

  function Ticks(n: nat): seq<Command> {
    seq(n, i => Tick)
  }

  lemma TickOn(c: Config, b: Bar)
    requires BarOk(c, b) && b.on
    ensures var r := Do(c, b, Tick);
            && r.cur == Cycle(b.cur, Target(c, b.pos), b.increment)
            && r.on && r.pos == b.pos && r.increment == b.increment
  {
    hide Target, Cycle;
  }

  lemma {:induction false} TicksAreCycles(c: Config, b: Bar, n: nat)
    requires BarOk(c, b) && b.on
    ensures var r := Run(c, b, Ticks(n));
            && r.cur == Cycles(b.cur, Target(c, b.pos), b.increment, n)
            && r.on && r.pos == b.pos && r.increment == b.increment
  {
    if n > 0 {
      hide Cycle, Target, BarOk, Do;
      TicksAreCycles(c, b, n - 1);
      assert Ticks(n) == Ticks(n - 1) + [Tick];
      RunSnoc(c, b, Ticks(n - 1), Tick);
      TickOn(c, Run(c, b, Ticks(n - 1)));
    }
  }

  /** A bar switched on and left alone shows its position after n refreshes exactly
      when no falling LED stands before a rising one and n is at least
      max(ceil(rise / increment), ceil(fall / increment)). */
  lemma SettlesOnTime(c: Config, b: Bar, n: nat)
    requires BarOk(c, b) && b.on
    ensures var tgt := Target(c, b.pos);
            Run(c, b, Ticks(n)).cur == tgt <==>
            && FrontsApart(b.cur, tgt)
            && n >= CeilDiv(Rise(b.cur, tgt), b.increment) && n >= CeilDiv(Fall(b.cur, tgt), b.increment)
  {
    TicksAreCycles(c, b, n);
    hide Run, Cycles, Target;
    ConvergesExactly(b.cur, Target(c, b.pos), b.increment, n);
  }

  ghost predicate Settles(c: Config, b: Bar)
    requires BarOk(c, b)
  {
    exists n: nat :: Run(c, b, Ticks(n)).cur == Target(c, b.pos)
  }

  lemma {:induction false} SettlesExactly(c: Config, b: Bar)
    requires BarOk(c, b) && b.on
    ensures Settles(c, b) <==> FrontsApart(b.cur, Target(c, b.pos))
  {
    hide Run, Cycles, Target, FrontsApart, CeilDiv, Rise, Fall;
    var tgt := Target(c, b.pos);
    var rise, fall := CeilDiv(Rise(b.cur, tgt), b.increment), CeilDiv(Fall(b.cur, tgt), b.increment);
    SettlesOnTime(c, b, if rise < fall then fall else rise);
    forall n: nat | Run(c, b, Ticks(n)).cur == tgt
      ensures FrontsApart(b.cur, tgt)
    {
      SettlesOnTime(c, b, n);
    }
  }

  // ----- brightness within the limits -----

  ghost predicate InLimits(c: Config, b: Bar) {
    forall k :: 0 <= k < |b.cur| ==> c.lo <= b.cur[k] <= c.hi
  }

  /** Once within the limits, always within the limits. */
  lemma DoKeepsLimits(c: Config, b: Bar, cmd: Command)
    requires c.lo <= c.hi && BarOk(c, b) && InLimits(c, b)
    ensures InLimits(c, Do(c, b, cmd))
  {
    if cmd.Tick? && b.on {
      hide Target, Cycle;
      TargetBelowTop(c, b.pos);
      if b.seenOn == 1 {
        TargetBelowTop(c, b.seenPos);
      }
      CycleBetween(b.cur, Refreshed(c, b).tgt, b.increment);
    }
  }

  /** Within the limits, the two fronts never block each other. */
  lemma LimitsKeepFrontsApart(c: Config, pos: nat, cur: seq<byte>)
    requires Sane(c) && |cur| == c.leds && forall k :: 0 <= k < |cur| ==> c.lo <= cur[k] <= c.hi
    ensures FrontsApart(cur, Target(c, pos))
  {
    Partial(c.hi, c.leds * pos % c.positions, c.positions);
  }

  /** So a bar that is within its limits settles after every run of commands. */
  lemma {:induction false} LimitsSettle(c: Config, b: Bar, cmds: seq<Command>)
    requires c.lo <= c.hi && BarOk(c, b) && InLimits(c, b)
    ensures InLimits(c, Run(c, b, cmds))
    ensures Run(c, b, cmds).on ==> Settles(c, Run(c, b, cmds))
    decreases |cmds|
  {
    if cmds != [] {
      hide BarOk, Do, InLimits, Settles;
      var n := |cmds| - 1;
      LimitsSettle(c, b, cmds[..n]);
      DoKeepsLimits(c, Run(c, b, cmds[..n]), cmds[n]);
    }
    SettlesInLimits(c, Run(c, b, cmds));
  }

  lemma SettlesInLimits(c: Config, b: Bar)
    requires BarOk(c, b) && InLimits(c, b)
    ensures b.on ==> Settles(c, b)
  {
    hide Settles;
    LimitsKeepFrontsApart(c, b.pos, b.cur);
    if b.on {
      SettlesExactly(c, b);
    }
  }

  // ----- which bars always settle -----

  /** If a run from power-on leaves the bar switched on, it shows its position in the end. */
  ghost predicate SettlesAfter(c: Config, on: bool, increment: nat, cmds: seq<Command>)
    requires Sane(c) && 1 <= increment <= 255
  {
    DarkOk(c, on, increment);
    var b := Run(c, Dark(c, on, increment), cmds);
    b.on ==> Settles(c, b)
  }

  ghost predicate AlwaysSettles(c: Config)
    requires Sane(c)
  {
    forall on: bool, increment: nat, cmds: seq<Command> | 1 <= increment <= 255 ::
      SettlesAfter(c, on, increment, cmds)
  }

  /** The configurations in which the fronts cannot block each other. */
  predicate Unblockable(c: Config) {
    c.leds == 1 || c.lo == 0 || c.lo == c.hi || (c.hi == 0 && c.positions == 1)
  }

  lemma UnblockableFronts(c: Config, b: Bar)
    requires BarOk(c, b) && Unblockable(c)
    ensures FrontsApart(b.cur, Target(c, b.pos))
  {
    if c.hi == 0 && c.positions == 1 && c.leds > 1 {
      WholeParts(c.leds, 1);
      assert b.pos == 0 || b.pos == 1;
    }
    TargetBelowTop(c, b.pos);
    if c.lo == 0 {
      LimitsKeepFrontsApart(c, b.pos, b.cur);
    }
  }

  /** From dark, with the smallest increment, the first LED alone has risen. */
  lemma {:induction false} FirstLedFirst(tgt: seq<byte>, x: byte)
    requires |tgt| > 0 && x <= tgt[0]
    ensures Cycles(Uniform(|tgt|, 0), tgt, 1, x) == Uniform(|tgt|, 0)[0 := x]
  {
    if x > 0 {
      FirstLedFirst(tgt, x - 1);
      var cur := Uniform(|tgt|, 0)[0 := x - 1];
      var r := cur[0 := x];
      assert RisePass(cur, tgt, 0, 1) == r;
      FallPassBetween(r, tgt, |tgt|, 1);
      assert FallPass(r, tgt, |tgt|, 1) == r;
    }
  }

  /** Position p, a few refreshes with increment 1, position q. */
  function Detour(p: int, x: nat, q: int): seq<Command> {
    [SetPos(p)] + Ticks(x) + [SetPos(q)]
  }

  lemma DetourRuns(c: Config, p: nat, x: byte, q: nat)
    requires Sane(c) && p <= c.positions && q <= c.positions && x <= Target(c, p)[0]
    ensures BarOk(c, Dark(c, true, 1))
    ensures var b := Run(c, Dark(c, true, 1), Detour(p, x, q));
            b.on && b.pos == q && b.increment == 1 && b.cur == Uniform(c.leds, 0)[0 := x]
  {
    DarkOk(c, true, 1);
    var b := Dark(c, true, 1);
    hide Target, BarOk, Cycles;
    assert [] + [SetPos(p)] == [SetPos(p)];
    RunSnoc(c, b, [], SetPos(p));
    RunSnoc(c, b, [SetPos(p)] + Ticks(x), SetPos(q));
    RunAppend(c, b, [SetPos(p)], Ticks(x));
    var b1 := Run(c, b, [SetPos(p)]);
    TicksAreCycles(c, b1, x);
    FirstLedFirst(Target(c, p), x);
  }

  /** The detour that freezes the bar: the first LED above its target, the last below. */
  function FreezingDetour(c: Config): (nat, byte, nat)
    requires Sane(c) && !Unblockable(c)
  {
    if c.hi == 0 then (0, 1, c.positions - 1)
    else if c.lo < c.hi then (c.positions, c.lo + 1, 0)
    else (0, c.hi + 1, c.positions)
  }

  lemma DetourBlocks(c: Config)
    requires Sane(c) && !Unblockable(c)
    ensures var (p, x, q) := FreezingDetour(c);
            && p <= c.positions && q <= c.positions && x <= Target(c, p)[0]
            && Target(c, q)[0] < x && Target(c, q)[c.leds - 1] > 0
  {
    TargetEnds(c, 0);
    TargetEnds(c, c.leds - 1);
    if c.hi == 0 {
      var n := c.leds * (c.positions - 1);
      MulLeBoth(2, c.leds, c.positions - 1, c.positions - 1);
      assert c.leds * c.positions == n + c.leds;
      Division(n, c.positions);
      EdgeInside(c.leds, c.positions, n / c.positions, n % c.positions);
      assert 0 < n / c.positions < c.leds;
    }
  }

  lemma EdgeInside(leds: nat, positions: nat, whole: int, part: nat)
    requires leds >= 2 && positions >= 2 && part < positions
    requires leds * (positions - 1) == positions * whole + part
    ensures 0 < whole < leds
  {
    MulLeBoth(2, leds, positions - 1, positions - 1);
    assert leds * (positions - 1) == positions * leds - leds;
    if whole <= 0 {
      MulLe(whole, 0, positions);
    } else if whole >= leds {
      MulLe(leds, whole, positions);
    }
  }

  /** Every run settles exactly in those configurations. In every other one, the bar
      freezes on a detour: an LED that is too bright stands before one that has not
      reached the lower limit since power-on. */
  lemma {:induction false} AlwaysSettlesExactly(c: Config)
    requires Sane(c)
    ensures AlwaysSettles(c) <==> Unblockable(c)
  {
    hide BarOk, Run, Target, Settles, FrontsApart;
    if Unblockable(c) {
      forall on: bool, increment: nat, cmds: seq<Command> | 1 <= increment <= 255
        ensures SettlesAfter(c, on, increment, cmds)
      {
        DarkOk(c, on, increment);
        SettlesUnblocked(c, Run(c, Dark(c, on, increment), cmds));
      }
    } else {
      var (p, x, q) := FreezingDetour(c);
      DetourBlocks(c);
      DetourRuns(c, p, x, q);
      FreezesAfter(c, Run(c, Dark(c, true, 1), Detour(p, x, q)), x);
      assert !SettlesAfter(c, true, 1, Detour(p, x, q));
    }
  }

  lemma SettlesUnblocked(c: Config, b: Bar)
    requires BarOk(c, b) && Unblockable(c)
    ensures b.on ==> Settles(c, b)
  {
    hide Settles;
    UnblockableFronts(c, b);
    if b.on {
      SettlesExactly(c, b);
    }
  }

  lemma FreezesAfter(c: Config, b: Bar, x: byte)
    requires BarOk(c, b) && b.on && c.leds > 1 && b.cur == Uniform(c.leds, 0)[0 := x]
    requires Target(c, b.pos)[0] < x && Target(c, b.pos)[c.leds - 1] > 0
    ensures !Settles(c, b)
  {
    hide Settles, Target;
    SettlesExactly(c, b);
  }

  /** With the usual increment: four LEDs, limits 10 and 255. The bar shows
      255, 255, 0, 0 for good and not 255, 10, 10, 10. */
  lemma FrozenBar(c: Config)
    requires c == Config(4, 4, 10, 255)
    ensures BarOk(c, Dark(c, true, 255))
    ensures var b := Run(c, Dark(c, true, 255), [SetPos(4)] + [Tick] + [Tick] + [SetPos(1)]);
            && b.on && b.cur == [255, 255, 0, 0] && Target(c, b.pos) == [255, 10, 10, 10] && !Settles(c, b)
  {
    DarkOk(c, true, 255);
    var b := Dark(c, true, 255);
    hide BarOk, Run, Settles;
    FourLeds(c);
    assert [] + [SetPos(4)] == [SetPos(4)];
    RunSnoc(c, b, [], SetPos(4));
    RunSnoc(c, b, [SetPos(4)], Tick);
    RunSnoc(c, b, [SetPos(4)] + [Tick], Tick);
    RunSnoc(c, b, [SetPos(4)] + [Tick] + [Tick], SetPos(1));
    RunNothing(c, b);
    var b1 := Run(c, b, [SetPos(4)]);
    TickOn(c, b1);
    var b2 := Run(c, b, [SetPos(4)] + [Tick]);
    TickOn(c, b2);
    hide Target, Cycle;
    TwoLedsUp(b.cur, Target(c, 4));
    var b4 := Run(c, b, [SetPos(4)] + [Tick] + [Tick] + [SetPos(1)]);
    assert b4.cur[1] > Target(c, 1)[1] && b4.cur[2] < Target(c, 1)[2];
    SettlesExactly(c, b4);
  }

  lemma RunNothing(c: Config, b: Bar)
    requires BarOk(c, b)
    ensures Run(c, b, []) == b
  {
  }

  lemma FourLeds(c: Config)
    requires c == Config(4, 4, 10, 255)
    ensures Target(c, 4) == [255, 255, 255, 255] && Target(c, 1) == [255, 10, 10, 10]
  {
  }

  lemma TwoLedsUp(cur: seq<byte>, tgt: seq<byte>)
    requires cur == [0, 0, 0, 0] && tgt == [255, 255, 255, 255]
    ensures Cycle(Cycle(cur, tgt, 255), tgt, 255) == [255, 255, 0, 0]
  {
    OneLedUp(cur, tgt, 0);
    OneLedUp(cur[0 := 255], tgt, 1);
  }

  lemma OneLedUp(cur: seq<byte>, tgt: seq<byte>, i: nat)
    requires |cur| == |tgt| == 4 && i < 3 && forall k :: 0 <= k < 4 ==> tgt[k] == 255
    requires forall k :: 0 <= k < 4 ==> cur[k] == if k < i then 255 else 0
    ensures Cycle(cur, tgt, 255) == cur[i := 255]
  {
    var r := cur[i := 255];
    assert RisePass(cur, tgt, i, 255) == RisePass(r, tgt, i + 1, 0) == r;
    assert i == 1 ==> RisePass(cur, tgt, 0, 255) == RisePass(cur, tgt, 1, 255);
    assert i == 2 ==> RisePass(cur, tgt, 0, 255) == RisePass(cur, tgt, 1, 255) == RisePass(cur, tgt, 2, 255);
  }

  // ----- which bars stay bars -----

  /** After this run from power-on, brightness does not rise along the bar. */
  ghost predicate BarAfter(c: Config, on: bool, increment: nat, cmds: seq<Command>)
    requires Sane(c) && 1 <= increment <= 255
  {
    DarkOk(c, on, increment);
    NonIncreasing(Run(c, Dark(c, on, increment), cmds).cur)
  }

  ghost predicate AlwaysBar(c: Config)
    requires Sane(c)
  {
    forall on: bool, increment: nat, cmds: seq<Command> | 1 <= increment <= 255 ::
      BarAfter(c, on, increment, cmds)
  }

  /** Before the last position the edge is inside the bar, and stands upside down. */
  lemma EdgeUpsideDown(c: Config)
    requires Sane(c) && !Orderly(c)
    ensures !NonIncreasing(Target(c, c.positions - 1))
  {
    hide NonIncreasing, Target;
    var n := c.leds * (c.positions - 1);
    MulLeBoth(2, c.leds, c.positions - 1, c.positions - 1);
    Division(n, c.positions);
    EdgeInside(c.leds, c.positions, n / c.positions, n % c.positions);
    TargetShape(c, c.positions - 1);
  }

  lemma NothingFalls(c: Config, pos: nat)
    requires Sane(c)
    ensures FrontsApart(Uniform(c.leds, 0), Target(c, pos))
  {
  }

  /** From dark to a position, and left alone until it is shown. */
  lemma ShowsPosition(c: Config, p: nat) returns (cmds: seq<Command>)
    requires Sane(c) && p <= c.positions
    ensures BarOk(c, Dark(c, true, 1)) && Run(c, Dark(c, true, 1), cmds).cur == Target(c, p)
  {
    DarkOk(c, true, 1);
    var b := Dark(c, true, 1);
    RunNothing(c, b);
    assert [] + [SetPos(p)] == [SetPos(p)];
    RunSnoc(c, b, [], SetPos(p));
    var b1 := Run(c, b, [SetPos(p)]);
    assert b1 == b.(pos := p);
    NothingFalls(c, p);
    hide Run, FrontsApart, Target, BarOk;
    SettlesExactly(c, b1);
    var n: nat :| Run(c, b1, Ticks(n)).cur == Target(c, p);
    RunAppend(c, b, [SetPos(p)], Ticks(n));
    cmds := [SetPos(p)] + Ticks(n);
  }

  /** Over every run of commands the lit part stays at the front exactly in the orderly
      configurations. In every other one the position before the last shows an LED
      darker than the next. */
  lemma {:induction false} AlwaysABar(c: Config)
    requires Sane(c)
    ensures AlwaysBar(c) <==> Orderly(c)
  {
    hide BarOk, Run, NonIncreasing, Orderly;
    if Orderly(c) {
      forall on: bool, increment: nat, cmds: seq<Command> | 1 <= increment <= 255
        ensures BarAfter(c, on, increment, cmds)
      {
        RunKeepsShape(c, on, increment, cmds);
      }
    } else {
      EdgeUpsideDown(c);
      var cmds := ShowsPosition(c, c.positions - 1);
      assert !BarAfter(c, true, 1, cmds);
    }
  }

  // ----- what commands leave behind -----

  function Toggles(cmds: seq<Command>): nat {
    if cmds == [] then 0 else Toggles(cmds[..|cmds| - 1]) + if cmds[|cmds| - 1].Toggle? then 1 else 0
  }

  lemma {:induction false} TogglesTell(c: Config, b: Bar, cmds: seq<Command>)
    requires BarOk(c, b) && forall i :: 0 <= i < |cmds| ==> !cmds[i].Enable?
    ensures Run(c, b, cmds).on == (b.on != (Toggles(cmds) % 2 == 1))
    decreases |cmds|
  {
    if cmds != [] {
      hide Refreshed, BarOk, ToI16;
      TogglesTell(c, b, cmds[..|cmds| - 1]);
    }
  }

  lemma {:induction false} PositionStays(c: Config, b: Bar, cmds: seq<Command>)
    requires BarOk(c, b)
    ensures (forall i :: 0 <= i < |cmds| ==> !cmds[i].SetPos?) ==> Run(c, b, cmds).pos == b.pos
    ensures (forall i :: 0 <= i < |cmds| ==> !cmds[i].SetIncrement?) ==> Run(c, b, cmds).increment == b.increment
    decreases |cmds|
  {
    if cmds != [] {
      hide BarOk, Target, Cycle, FadedAll;
      PositionStays(c, b, cmds[..|cmds| - 1]);
    }
  }

  lemma RunWith(c: Config, b: Bar, before: seq<Command>, cmd: Command, rest: seq<Command>)
    requires BarOk(c, b)
    ensures BarOk(c, Do(c, Run(c, b, before), cmd))
    ensures Run(c, b, before + [cmd] + rest) == Run(c, Do(c, Run(c, b, before), cmd), rest)
  {
    hide BarOk, Do;
    RunSnoc(c, b, before, cmd);
    RunAppend(c, b, before + [cmd], rest);
  }

  /** After every run of commands the bar is on as the last Enable said, turned over once
      for each Toggle since. */
  lemma {:induction false} LastEnableTells(c: Config, b: Bar, before: seq<Command>, on: bool, rest: seq<Command>)
    requires BarOk(c, b) && forall i :: 0 <= i < |rest| ==> !rest[i].Enable?
    ensures Run(c, b, before + [Enable(on)] + rest).on == (on != (Toggles(rest) % 2 == 1))
  {
    RunWith(c, b, before, Enable(on), rest);
    hide BarOk, Run;
    TogglesTell(c, Do(c, Run(c, b, before), Enable(on)), rest);
  }

  /** And it is at the position that was asked for last, held between 0 and the highest. */
  lemma {:induction false} LastPositionTells(c: Config, b: Bar, before: seq<Command>, pos: int, rest: seq<Command>)
    requires BarOk(c, b) && forall i :: 0 <= i < |rest| ==> !rest[i].SetPos?
    ensures Run(c, b, before + [SetPos(pos)] + rest).pos
         == if pos < 0 then 0 else if pos > c.positions then c.positions else pos
  {
    RunWith(c, b, before, SetPos(pos), rest);
    hide BarOk, Run;
    PositionStays(c, Do(c, Run(c, b, before), SetPos(pos)), rest);
  }

  /** The increment is the one asked for last, from 1 to 255; of a larger number the
      lower 16 bits count, as a signed number. */
  lemma {:induction false} LastIncrementTells(c: Config, b: Bar, before: seq<Command>, step: i32, rest: seq<Command>, low: int)
    requires BarOk(c, b) && forall i :: 0 <= i < |rest| ==> !rest[i].SetIncrement?
    requires -0x8000 <= low < 0x8000 && (step - low) % 0x1_0000 == 0
    ensures Run(c, b, before + [SetIncrement(step)] + rest).increment
         == if low < 1 then 1 else if low > 255 then 255 else low
  {
    RunWith(c, b, before, SetIncrement(step), rest);
    LowBits(step, low);
    hide BarOk, Run, ToI16;
    PositionStays(c, Do(c, Run(c, b, before), SetIncrement(step)), rest);
  }

  lemma LowBits(x: int, low: int)
    requires -0x8000 <= low < 0x8000 && (x - low) % 0x1_0000 == 0
    ensures ToI16(x) == low
  {
  }

  lemma TickOff(c: Config, b: Bar, i: nat)
    requires BarOk(c, b) && !b.on && i < c.leds
    ensures var r := Do(c, b, Tick);
            && |r.cur| == c.leds && r.cur[i] == Faded(b.cur[i], c.lo, b.increment)
            && !r.on && r.increment == b.increment
  {
    hide Uniform;
  }

  /** A bar switched off and left alone: after n refreshes every LED is n increments
      darker, but not below the lower limit. */
  lemma {:induction false} OffFades(c: Config, b: Bar, n: nat, i: nat)
    requires BarOk(c, b) && !b.on && n > 0 && i < c.leds
    ensures var r, faded := Run(c, b, Ticks(n)), b.cur[i] as int - n * b.increment;
            && r.cur[i] as int == (if faded < c.lo then c.lo as int else faded)
            && !r.on && r.increment == b.increment
  {
    hide Do;
    assert Ticks(n) == Ticks(n - 1) + [Tick];
    RunSnoc(c, b, Ticks(n - 1), Tick);
    if n > 1 {
      OffFades(c, b, n - 1, i);
      MulLeBoth(1, n - 1, 1, b.increment);
      assert n * b.increment == (n - 1) * b.increment + b.increment;
    } else {
      RunNothing(c, b);
      assert Ticks(0) == [];
    }
    hide Run;
    TickOff(c, if n > 1 then Run(c, b, Ticks(n - 1)) else b, i);
  }

  // ----- where LED i is on the strip -----

  /** The strip position of LED i, for either direction and an offset of 0 to n. */
  function Place(n: nat, reversed: bool, offset: nat, i: nat): (p: nat)
    requires i < n && offset <= n
    ensures p < n
  {
    (if reversed then n - 1 - i + offset else i + offset) % n
  }

  lemma OnceAround(x: nat, n: nat)
    requires n > 0 && x < 2 * n
    ensures x % n == if x < n then x else x - n
  {
    if x < n {
      DivisionIs(x, n, 0, x);
    } else {
      DivisionIs(x, n, 1, x - n);
    }
  }

  /** Every LED has its own place. */
  lemma PlacesDiffer(n: nat, reversed: bool, offset: nat, i: nat, j: nat)
    requires i < j < n && offset <= n
    ensures Place(n, reversed, offset, i) != Place(n, reversed, offset, j)
  {
    OnceAround(if reversed then n - 1 - i + offset else i + offset, n);
    OnceAround(if reversed then n - 1 - j + offset else j + offset, n);
  }

  /** LED 0 is at the offset, or reversed just before it, and the others follow around
      the ring, forward or backward. */
  lemma PlacesInOrder(n: nat, reversed: bool, offset: nat, i: nat)
    requires i < n && offset < n
    ensures var p := Place(n, reversed, offset, i);
            && (i == 0 ==> p == if reversed then (if offset == 0 then n - 1 else offset - 1) else offset)
            && (i + 1 < n ==>
                  Place(n, reversed, offset, i + 1) == if reversed then (if p == 0 then n - 1 else p - 1)
                                                       else if p == n - 1 then 0 else p + 1)
  {
    OnceAround(if reversed then n - 1 - i + offset else i + offset, n);
    if i + 1 < n {
      OnceAround(if reversed then n - 1 - (i + 1) + offset else i + 1 + offset, n);
    }
  }
}
