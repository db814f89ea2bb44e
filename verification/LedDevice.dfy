/** The LED bar as it runs: brightness arrays changed in place. */
module LedDevice {
  import opened Words
  import opened Arithmetic
  import opened LedFronts
  import opened LedBar

  class Device {
    const config: Config
    const cur: array<byte>
    const tgt: array<byte>
    var on: bool
    var seenOn: int
    var pos: int
    var seenPos: int
    var increment: nat

    ghost predicate Valid()
      reads this
    {
      && Sane(config) && cur.Length == tgt.Length == config.leds && cur != tgt
      && 0 <= pos <= config.positions && 1 <= increment <= 255
    }

    ghost function Value(): Bar
      reads this, cur, tgt
    {
      Bar(cur[..], tgt[..], on, seenOn, pos, seenPos, increment)
    }

    constructor (c: Config, startOn: bool, step: nat)
      requires Sane(c) && 1 <= step <= 255
      ensures Valid() && Value() == Dark(c, startOn, step) && fresh(cur) && fresh(tgt) && config == c
    {
      config := c;
      cur := new byte[c.leds](i => 0);
      tgt := new byte[c.leds](i => 0);
      on, seenOn, pos, seenPos, increment := startOn, 255, 0, -1, step;
    }

    /** The first loop of ledBarStep: the budget from the start of the bar. */
    method StepUp() returns (changed: bool)
      requires Valid()
      modifies cur
      ensures cur[..] == RisePass(old(cur[..]), tgt[..], 0, increment)
      ensures !changed ==> cur[..] == old(cur[..])
    {
      changed := false;
      var budget: nat := increment;
      var i := 0;
      while i < config.leds && budget > 0
        invariant 0 <= i <= config.leds
        invariant RisePass(cur[..], tgt[..], i, budget) == RisePass(old(cur[..]), tgt[..], 0, increment)
        invariant !changed ==> cur[..] == old(cur[..])
      {
        if cur[i] < tgt[i] {
          var step := tgt[i] as int - cur[i] as int;
          if step > budget {
            step := budget;
          }
          ghost var before := cur[..];
          cur[i] := cur[i] + step;
          assert cur[..] == before[i := cur[i]];
          budget := budget - step;
          changed := true;
          if cur[i] != tgt[i] {
            return;
          }
        } else if cur[i] > tgt[i] {
          return;
        }
        i := i + 1;
      }
    }

    /** The second loop of ledBarStep: the same budget from the end of the bar. */
    method StepDown() returns (changed: bool)
      requires Valid()
      modifies cur
      ensures cur[..] == FallPass(old(cur[..]), tgt[..], config.leds, increment)
      ensures !changed ==> cur[..] == old(cur[..])
    {
      changed := false;
      var budget: nat := increment;
      var n := config.leds;
      while n > 0 && budget > 0
        invariant 0 <= n <= config.leds
        invariant FallPass(cur[..], tgt[..], n, budget) == FallPass(old(cur[..]), tgt[..], config.leds, increment)
        invariant !changed ==> cur[..] == old(cur[..])
      {
        var i := n - 1;
        if cur[i] > tgt[i] {
          var step := cur[i] as int - tgt[i] as int;
          if step > budget {
            step := budget;
          }
          ghost var before := cur[..];
          cur[i] := cur[i] - step;
          assert cur[..] == before[i := cur[i]];
          budget := budget - step;
          changed := true;
          if cur[i] != tgt[i] {
            return;
          }
        } else if cur[i] < tgt[i] {
          return;
        }
        n := i;
      }
    }

    /** ledBarStep: true if some LED changed. */
    method LedBarStep() returns (changed: bool)
      requires Valid()
      modifies cur
      ensures cur[..] == Cycle(old(cur[..]), tgt[..], increment)
      ensures !changed ==> cur[..] == old(cur[..])
    {
      var up := StepUp();
      var down := StepDown();
      changed := up || down;
    }

    method FadeOut() returns (changed: bool)
      requires Valid()
      modifies cur
      ensures cur[..] == FadedAll(old(cur[..]), config.lo, increment)
      ensures !changed ==> cur[..] == old(cur[..])
    {
      changed := false;
      ghost var before := cur[..];
      for i := 0 to config.leds
        invariant forall k :: 0 <= k < i ==> cur[k] == Faded(before[k], config.lo, increment)
        invariant forall k :: i <= k < config.leds ==> cur[k] == before[k]
        invariant !changed ==> cur[..] == before
      {
        if cur[i] > config.lo {
          var b := cur[i] as int - increment;
          cur[i] := if b < config.lo then config.lo else b;
          changed := true;
        } else if cur[i] < config.lo {
          cur[i] := config.lo;
          changed := true;
        }
      }
    }

    /** The target loop, the edge of the bar in exact arithmetic. */
    method Recalculate()
      requires Valid()
      modifies tgt
      ensures tgt[..] == Target(config, pos)
    {
      var filled := config.leds * pos;
      var whole, part := filled / config.positions, filled % config.positions;
      Partial(config.hi, part, config.positions);
      for i := 0 to config.leds
        invariant forall k :: 0 <= k < i ==> tgt[k] == Wanted(config, pos, k)
      {
        if i < whole {
          tgt[i] := config.hi;
        } else if i == whole {
          var b := config.hi * part / config.positions;
          tgt[i] := if b < config.lo then config.lo else b;
        } else {
          tgt[i] := config.lo;
        }
      }
    }

    /** The brightness part of update_led_bar. */
    method Update() returns (changed: bool)
      requires Valid()
      modifies this`seenOn, this`seenPos, cur, tgt
      ensures Valid() && Value() == Refreshed(config, old(Value()))
      ensures !changed ==> cur[..] == old(cur[..])
    {
      hide Cycle, Target, FadedAll, Uniform;
      ghost var was := Value();
      var recalc := false;
      var state := if on then 1 else 0;
      if state != seenOn {
        seenOn := state;
        recalc := true;
      }
      if !on {
        if recalc {
          AllLow();
        }
        assert tgt[..] == Refreshed(config, was).tgt;
        changed := FadeOut();
      } else {
        if recalc || pos != seenPos {
          seenPos := pos;
          Recalculate();
        }
        assert tgt[..] == Refreshed(config, was).tgt;
        changed := LedBarStep();
      }
    }

    method AllLow()
      requires Valid()
      modifies tgt
      ensures tgt[..] == Uniform(config.leds, config.lo)
    {
      forall i | 0 <= i < config.leds {
        tgt[i] := config.lo;
      }
    }

    /** The commands of the loop. */
    method Execute(cmd: Command)
      requires Valid() && !cmd.Tick?
      modifies this`on, this`pos, this`increment
      ensures Valid() && Value() == Do(config, old(Value()), cmd)
    {
      match cmd
      case Enable(state) => on := state;
      case Toggle => on := !on;
      case SetPos(p) =>
        pos := p;
        if pos < 0 {
          pos := 0;
        }
        if pos > config.positions {
          pos := config.positions;
        }
      case SetIncrement(k) =>
        var step := ToI16(k);
        if step < 1 {
          step := 1;
        }
        if step > 255 {
          step := 255;
        }
        increment := step;
    }

    /** The rendering loop: every LED's three octets, green first, after gamma. */
    method Render(pixels: array<byte>, reversed: bool, offset: nat, colour: Rgb, gamma: byte -> byte)
      requires Valid() && pixels.Length == 3 * config.leds && pixels != cur && offset <= config.leds
      modifies pixels
      ensures forall i :: 0 <= i < config.leds ==>
                Shown(pixels[..], Place(config.leds, reversed, offset, i), colour, cur[i], gamma)
    {
      for i := 0 to config.leds
        invariant forall k :: 0 <= k < i ==>
                    Shown(pixels[..], Place(config.leds, reversed, offset, k), colour, cur[k], gamma)
      {
        var p := Place(config.leds, reversed, offset, i);
        forall k | 0 <= k < i
          ensures Place(config.leds, reversed, offset, k) != p
        {
          PlacesDiffer(config.leds, reversed, offset, k, i);
        }
        hide Place, Scaled;
        pixels[3 * p] := gamma(Scaled(colour.g, cur[i]));
        pixels[3 * p + 1] := gamma(Scaled(colour.r, cur[i]));
        pixels[3 * p + 2] := gamma(Scaled(colour.b, cur[i]));
      }
    }
  }

  /** The command loop: commands and refreshes as they come. */
  method Perform(d: Device, cmds: seq<Command>)
    requires d.Valid() && BarOk(d.config, d.Value())
    modifies d, d.cur, d.tgt
    ensures d.Valid() && BarOk(d.config, old(d.Value())) && d.Value() == Run(d.config, old(d.Value()), cmds)
  {
    hide BarOk, Do;
    ghost var was := d.Value();
    RunNothing(d.config, was);
    assert cmds[..0] == [];
    for i := 0 to |cmds|
      invariant d.Valid() && d.Value() == Run(d.config, was, cmds[..i])
    {
      assert cmds[..i + 1] == cmds[..i] + [cmds[i]];
      RunSnoc(d.config, was, cmds[..i], cmds[i]);
      if cmds[i].Tick? {
        TickIsRefresh(d.config, d.Value());
        var _ := d.Update();
      } else {
        d.Execute(cmds[i]);
      }
    }
    assert cmds[..|cmds|] == cmds;
  }

  lemma TickIsRefresh(c: Config, b: Bar)
    requires BarOk(c, b)
    ensures Do(c, b, Tick) == Refreshed(c, b)
  {
  }

  datatype Rgb = Rgb(r: byte, g: byte, b: byte)

  /** Pixel p of the strip shows the colour at a brightness. */
  predicate Shown(pixels: seq<byte>, p: nat, colour: Rgb, bright: byte, gamma: byte -> byte) {
    && 3 * p + 3 <= |pixels|
    && pixels[3 * p] == gamma(Scaled(colour.g, bright))
    && pixels[3 * p + 1] == gamma(Scaled(colour.r, bright))
    && pixels[3 * p + 2] == gamma(Scaled(colour.b, bright))
  }

  /** A colour component at a brightness: its share of 255, cut off. */
  function Scaled(colour: byte, bright: byte): (v: byte)
    ensures v <= colour
    ensures 255 * v <= colour as int * bright as int < 255 * v + 255
  {
    MulLeBoth(colour, colour, bright, 255);
    DivAtMost(colour as int * bright as int, 255, colour);
    colour as int * bright as int / 255
  }
}
