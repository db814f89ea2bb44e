/** The brightness fronts of the LED bar (ledBarStep in
    components/buttonLeds/button_ledBar.c): rising from the start of the bar, falling
    from its end, each with a budget per cycle. */
module LedFronts {
  import opened Words
  import opened Arithmetic

  // ----- how far there is to go -----

  function Gap(a: int, b: int): nat {
    if a < b then b - a else 0
  }

  /** The rise still to make, over the LEDs from i on. */
  function RiseFrom(cur: seq<byte>, tgt: seq<byte>, i: nat): nat
    requires |cur| == |tgt| && i <= |cur|
    decreases |cur| - i
  {
    if i == |cur| then 0 else Gap(cur[i], tgt[i]) + RiseFrom(cur, tgt, i + 1)
  }

  /** The fall still to make, over the LEDs before n. */
  function FallTo(cur: seq<byte>, tgt: seq<byte>, n: nat): nat
    requires |cur| == |tgt| && n <= |cur|
  {
    if n == 0 then 0 else Gap(tgt[n - 1], cur[n - 1]) + FallTo(cur, tgt, n - 1)
  }

  function Rise(cur: seq<byte>, tgt: seq<byte>): nat
    requires |cur| == |tgt|
  {
    RiseFrom(cur, tgt, 0)
  }

  function Fall(cur: seq<byte>, tgt: seq<byte>): nat
    requires |cur| == |tgt|
  {
    FallTo(cur, tgt, |cur|)
  }

  function Min(a: int, b: int): int {
    if a < b then a else b
  }

  // ----- one cycle -----

  function RisePass(cur: seq<byte>, tgt: seq<byte>, i: nat, budget: nat): (r: seq<byte>)
    requires |cur| == |tgt| && i <= |cur|
    ensures |r| == |cur|
    decreases |cur| - i
  {
    if i == |cur| || budget == 0 || cur[i] > tgt[i] then cur
    else if cur[i] == tgt[i] then RisePass(cur, tgt, i + 1, budget)
    else
      var step := Min(tgt[i] - cur[i], budget);
      var r := cur[i := cur[i] + step];
      if r[i] != tgt[i] then r else RisePass(r, tgt, i + 1, budget - step)
  }

  /** The pass from the end; n LEDs are left to look at. */
  function FallPass(cur: seq<byte>, tgt: seq<byte>, n: nat, budget: nat): (r: seq<byte>)
    requires |cur| == |tgt| && n <= |cur|
    ensures |r| == |cur|
    decreases n
  {
    if n == 0 || budget == 0 || cur[n - 1] < tgt[n - 1] then cur
    else if cur[n - 1] == tgt[n - 1] then FallPass(cur, tgt, n - 1, budget)
    else
      var step := Min(cur[n - 1] - tgt[n - 1], budget);
      var r := cur[n - 1 := cur[n - 1] - step];
      if r[n - 1] != tgt[n - 1] then r else FallPass(r, tgt, n - 1, budget - step)
  }

  function Cycle(cur: seq<byte>, tgt: seq<byte>, increment: nat): (r: seq<byte>)
    requires |cur| == |tgt|
    ensures |r| == |cur|
  {
    FallPass(RisePass(cur, tgt, 0, increment), tgt, |cur|, increment)
  }

  // ----- the fronts do not block each other -----

  /** No falling LED stands before a rising one. */
  ghost predicate FrontsApart(cur: seq<byte>, tgt: seq<byte>) {
    && |cur| == |tgt|
    && forall i, j :: 0 <= i < j < |cur| && cur[i] > tgt[i] ==> cur[j] >= tgt[j]
  }

  /** r lies, LED by LED, between cur and tgt: no overshoot, no retreat. */
  ghost predicate Between(cur: seq<byte>, r: seq<byte>, tgt: seq<byte>) {
    && |cur| == |r| == |tgt|
    && forall k :: 0 <= k < |cur| ==> cur[k] <= r[k] <= tgt[k] || tgt[k] <= r[k] <= cur[k]
  }

  lemma {:induction false} RiseFromFrame(cur: seq<byte>, r: seq<byte>, tgt: seq<byte>, i: nat)
    requires |cur| == |r| == |tgt| && i <= |cur|
    requires forall k :: i <= k < |cur| ==> Gap(r[k], tgt[k]) == Gap(cur[k], tgt[k])
    ensures RiseFrom(r, tgt, i) == RiseFrom(cur, tgt, i)
    decreases |cur| - i
  {
    if i < |cur| {
      RiseFromFrame(cur, r, tgt, i + 1);
    }
  }

  lemma {:induction false} FallToFrame(cur: seq<byte>, r: seq<byte>, tgt: seq<byte>, n: nat)
    requires |cur| == |r| == |tgt| && n <= |cur|
    requires forall k :: 0 <= k < n ==> Gap(tgt[k], r[k]) == Gap(tgt[k], cur[k])
    ensures FallTo(r, tgt, n) == FallTo(cur, tgt, n)
  {
    if n > 0 {
      FallToFrame(cur, r, tgt, n - 1);
    }
  }

  lemma {:induction false} NothingRises(cur: seq<byte>, tgt: seq<byte>, i: nat)
    requires |cur| == |tgt| && i <= |cur| && forall k :: i <= k < |cur| ==> cur[k] >= tgt[k]
    ensures RiseFrom(cur, tgt, i) == 0
    decreases |cur| - i
  {
    if i < |cur| {
      NothingRises(cur, tgt, i + 1);
    }
  }

  lemma {:induction false} NothingFalls(cur: seq<byte>, tgt: seq<byte>, n: nat)
    requires |cur| == |tgt| && n <= |cur| && forall k :: 0 <= k < n ==> cur[k] <= tgt[k]
    ensures FallTo(cur, tgt, n) == 0
  {
    if n > 0 {
      NothingFalls(cur, tgt, n - 1);
    }
  }

  /** One cycle goes from where the bar is towards the target, whatever the fronts do. */
  lemma CycleBetween(cur: seq<byte>, tgt: seq<byte>, increment: nat)
    requires |cur| == |tgt|
    ensures Between(cur, Cycle(cur, tgt, increment), tgt)
  {
    RisePassBetween(cur, tgt, 0, increment);
    FallPassBetween(RisePass(cur, tgt, 0, increment), tgt, |cur|, increment);
  }

  lemma {:induction false} RisePassBetween(cur: seq<byte>, tgt: seq<byte>, i: nat, budget: nat)
    requires |cur| == |tgt| && i <= |cur|
    ensures var r := RisePass(cur, tgt, i, budget);
            forall k :: 0 <= k < |cur| ==> if cur[k] < tgt[k] then cur[k] <= r[k] <= tgt[k] else r[k] == cur[k]
    decreases |cur| - i
  {
    if i == |cur| || budget == 0 || cur[i] > tgt[i] {
    } else if cur[i] == tgt[i] {
      RisePassBetween(cur, tgt, i + 1, budget);
    } else {
      var step := Min(tgt[i] - cur[i], budget);
      var r := cur[i := cur[i] + step];
      if r[i] == tgt[i] {
        RisePassBetween(r, tgt, i + 1, budget - step);
      }
    }
  }

  lemma {:induction false} FallPassBetween(cur: seq<byte>, tgt: seq<byte>, n: nat, budget: nat)
    requires |cur| == |tgt| && n <= |cur|
    ensures var r := FallPass(cur, tgt, n, budget);
            forall k :: 0 <= k < |cur| ==> if cur[k] > tgt[k] then tgt[k] <= r[k] <= cur[k] else r[k] == cur[k]
    decreases n
  {
    if n == 0 || budget == 0 || cur[n - 1] < tgt[n - 1] {
    } else if cur[n - 1] == tgt[n - 1] {
      FallPassBetween(cur, tgt, n - 1, budget);
    } else {
      var step := Min(cur[n - 1] - tgt[n - 1], budget);
      var r := cur[n - 1 := cur[n - 1] - step];
      if r[n - 1] == tgt[n - 1] {
        FallPassBetween(r, tgt, n - 1, budget - step);
      }
    }
  }

  /** The rising pass spends its whole budget as long as there is a rise to make. */
  lemma {:induction false} RisePassSpends(cur: seq<byte>, tgt: seq<byte>, i: nat, budget: nat)
    requires FrontsApart(cur, tgt) && i <= |cur|
    ensures var r := RisePass(cur, tgt, i, budget);
            && RiseFrom(r, tgt, i) == RiseFrom(cur, tgt, i) - Min(budget, RiseFrom(cur, tgt, i))
            && (forall k :: 0 <= k < i ==> r[k] == cur[k])
    decreases |cur| - i
  {
    if i == |cur| || budget == 0 {
    } else if cur[i] > tgt[i] {
      NothingRises(cur, tgt, i);
    } else if cur[i] == tgt[i] {
      RisePassSpends(cur, tgt, i + 1, budget);
    } else {
      var step := Min(tgt[i] - cur[i], budget);
      var r := cur[i := cur[i] + step];
      RiseFromFrame(cur, r, tgt, i + 1);
      assert FrontsApart(r, tgt);
      hide FrontsApart;
      if r[i] == tgt[i] {
        RisePassSpends(r, tgt, i + 1, budget - step);
      }
    }
  }

  lemma {:induction false} FallPassSpends(cur: seq<byte>, tgt: seq<byte>, n: nat, budget: nat)
    requires FrontsApart(cur, tgt) && n <= |cur|
    ensures var r := FallPass(cur, tgt, n, budget);
            && FallTo(r, tgt, n) == FallTo(cur, tgt, n) - Min(budget, FallTo(cur, tgt, n))
            && (forall k :: n <= k < |cur| ==> r[k] == cur[k])
    decreases n
  {
    if n == 0 || budget == 0 {
    } else if cur[n - 1] < tgt[n - 1] {
      NothingFalls(cur, tgt, n);
    } else if cur[n - 1] == tgt[n - 1] {
      FallPassSpends(cur, tgt, n - 1, budget);
    } else {
      var step := Min(cur[n - 1] - tgt[n - 1], budget);
      var r := cur[n - 1 := cur[n - 1] - step];
      FallToFrame(cur, r, tgt, n - 1);
      assert FrontsApart(r, tgt);
      hide FrontsApart;
      if r[n - 1] == tgt[n - 1] {
        FallPassSpends(r, tgt, n - 1, budget - step);
      }
    }
  }

  /** One cycle spends the increment on each front and never overshoots. */
  lemma CycleSpends(cur: seq<byte>, tgt: seq<byte>, increment: nat)
    requires FrontsApart(cur, tgt)
    ensures var r := Cycle(cur, tgt, increment);
            && FrontsApart(r, tgt) && Between(cur, r, tgt)
            && Rise(r, tgt) == Rise(cur, tgt) - Min(increment, Rise(cur, tgt))
            && Fall(r, tgt) == Fall(cur, tgt) - Min(increment, Fall(cur, tgt))
  {
    RisePassSpends(cur, tgt, 0, increment);
    RisePassBetween(cur, tgt, 0, increment);
    var m := RisePass(cur, tgt, 0, increment);
    FallToFrame(cur, m, tgt, |cur|);
    FallPassSpends(m, tgt, |cur|, increment);
    FallPassBetween(m, tgt, |cur|, increment);
    RiseFromFrame(m, FallPass(m, tgt, |cur|, increment), tgt, 0);
  }

  // ----- many cycles -----

  function Cycles(cur: seq<byte>, tgt: seq<byte>, increment: nat, n: nat): (r: seq<byte>)
    requires |cur| == |tgt|
    ensures |r| == |cur|
  {
    if n == 0 then cur else Cycle(Cycles(cur, tgt, increment, n - 1), tgt, increment)
  }

  lemma {:induction false} CyclesSpend(cur: seq<byte>, tgt: seq<byte>, increment: nat, n: nat)
    requires FrontsApart(cur, tgt)
    ensures var r := Cycles(cur, tgt, increment, n);
            && FrontsApart(r, tgt) && Between(cur, r, tgt)
            && Rise(r, tgt) == Rise(cur, tgt) - Min(n * increment, Rise(cur, tgt))
            && Fall(r, tgt) == Fall(cur, tgt) - Min(n * increment, Fall(cur, tgt))
  {
    if n > 0 {
      CyclesSpend(cur, tgt, increment, n - 1);
      CycleSpends(Cycles(cur, tgt, increment, n - 1), tgt, increment);
      assert n * increment == (n - 1) * increment + increment;
    }
  }

  lemma {:induction false} RiseLeft(cur: seq<byte>, tgt: seq<byte>, i: nat, k: nat)
    requires |cur| == |tgt| && i <= k < |cur| && RiseFrom(cur, tgt, i) == 0
    ensures cur[k] >= tgt[k]
    decreases k - i
  {
    if i < k {
      RiseLeft(cur, tgt, i + 1, k);
    }
  }

  lemma {:induction false} FallLeft(cur: seq<byte>, tgt: seq<byte>, n: nat, k: nat)
    requires |cur| == |tgt| && k < n <= |cur| && FallTo(cur, tgt, n) == 0
    ensures cur[k] <= tgt[k]
  {
    if k < n - 1 {
      FallLeft(cur, tgt, n - 1, k);
    }
  }

  lemma AtTarget(cur: seq<byte>, tgt: seq<byte>)
    requires |cur| == |tgt|
    ensures cur == tgt <==> Rise(cur, tgt) == 0 && Fall(cur, tgt) == 0
  {
    if cur == tgt {
      NothingRises(cur, tgt, 0);
      NothingFalls(cur, tgt, |cur|);
    }
    if Rise(cur, tgt) == 0 && Fall(cur, tgt) == 0 {
      forall k | 0 <= k < |cur|
        ensures cur[k] == tgt[k]
      {
        RiseLeft(cur, tgt, 0, k);
        FallLeft(cur, tgt, |cur|, k);
      }
    }
  }

  function CeilDiv(a: nat, b: nat): nat
    requires b > 0
  {
    (a + b - 1) / b
  }

  lemma CeilDivIs(a: nat, b: nat, n: nat)
    requires b > 0
    ensures n * b >= a <==> n >= CeilDiv(a, b)
  {
    var q := CeilDiv(a, b);
    Division(a + b - 1, b);
    if n >= q {
      MulLe(q, n, b);
    } else {
      MulLe(n, q - 1, b);
    }
  }

  // ----- fronts that block each other -----

  /** A falling LED stops the rising pass: it and all behind it stay as they are. */
  lemma {:induction false} RisePassBlocked(cur: seq<byte>, tgt: seq<byte>, i: nat, budget: nat, stop: nat)
    requires |cur| == |tgt| && i <= stop < |cur| && cur[stop] > tgt[stop]
    ensures forall k :: stop <= k < |cur| ==> RisePass(cur, tgt, i, budget)[k] == cur[k]
    decreases |cur| - i
  {
    if budget == 0 || cur[i] > tgt[i] {
    } else if cur[i] == tgt[i] {
      RisePassBlocked(cur, tgt, i + 1, budget, stop);
    } else {
      var step := Min(tgt[i] - cur[i], budget);
      var r := cur[i := cur[i] + step];
      if r[i] == tgt[i] {
        RisePassBlocked(r, tgt, i + 1, budget - step, stop);
      }
    }
  }

  /** A rising LED stops the falling pass: it and all before it stay as they are. */
  lemma {:induction false} FallPassBlocked(cur: seq<byte>, tgt: seq<byte>, n: nat, budget: nat, stop: nat)
    requires |cur| == |tgt| && stop < n <= |cur| && cur[stop] < tgt[stop]
    ensures forall k :: 0 <= k <= stop ==> FallPass(cur, tgt, n, budget)[k] == cur[k]
    decreases n
  {
    if budget == 0 || cur[n - 1] < tgt[n - 1] {
    } else if cur[n - 1] == tgt[n - 1] {
      FallPassBlocked(cur, tgt, n - 1, budget, stop);
    } else {
      var step := Min(cur[n - 1] - tgt[n - 1], budget);
      var r := cur[n - 1 := cur[n - 1] - step];
      if r[n - 1] == tgt[n - 1] {
        FallPassBlocked(r, tgt, n - 1, budget - step, stop);
      }
    }
  }

  /** LED i falls, a later LED j rises: neither ever moves again. */
  lemma {:induction false} Frozen(cur: seq<byte>, tgt: seq<byte>, increment: nat, n: nat, i: nat, j: nat)
    requires |cur| == |tgt| && i < j < |cur| && cur[i] > tgt[i] && cur[j] < tgt[j]
    ensures Cycles(cur, tgt, increment, n)[i] == cur[i] && Cycles(cur, tgt, increment, n)[j] == cur[j]
  {
    if n > 0 {
      Frozen(cur, tgt, increment, n - 1, i, j);
      var r := Cycles(cur, tgt, increment, n - 1);
      RisePassBlocked(r, tgt, 0, increment, i);
      FallPassBlocked(RisePass(r, tgt, 0, increment), tgt, |r|, increment, j);
    }
  }

  // ----- exactly when, and after how many cycles, the target is reached -----

  /** The bar is at its target after n cycles exactly when no falling LED stands
      before a rising one and n is at least the larger of the two front times. */
  lemma ConvergesExactly(cur: seq<byte>, tgt: seq<byte>, increment: nat, n: nat)
    requires |cur| == |tgt| && increment > 0
    ensures Cycles(cur, tgt, increment, n) == tgt <==>
            && FrontsApart(cur, tgt)
            && n >= CeilDiv(Rise(cur, tgt), increment) && n >= CeilDiv(Fall(cur, tgt), increment)
  {
    hide Cycles, Rise, Fall, CeilDiv;
    if FrontsApart(cur, tgt) {
      CyclesSpend(cur, tgt, increment, n);
      AtTarget(Cycles(cur, tgt, increment, n), tgt);
      CeilDivIs(Rise(cur, tgt), increment, n);
      CeilDivIs(Fall(cur, tgt), increment, n);
    } else {
      var i, j :| 0 <= i < j < |cur| && cur[i] > tgt[i] && cur[j] < tgt[j];
      Frozen(cur, tgt, increment, n, i, j);
    }
  }

  /** The bar ever reaches its target exactly when no falling LED stands before a
      rising one. */
  lemma {:induction false} EverConverges(cur: seq<byte>, tgt: seq<byte>, increment: nat)
    requires |cur| == |tgt| && increment > 0
    ensures (exists n: nat :: Cycles(cur, tgt, increment, n) == tgt) <==> FrontsApart(cur, tgt)
  {
    hide Cycles, Rise, Fall, CeilDiv, FrontsApart;
    var rise, fall := CeilDiv(Rise(cur, tgt), increment), CeilDiv(Fall(cur, tgt), increment);
    ConvergesExactly(cur, tgt, increment, if rise < fall then fall else rise);
    forall n: nat | Cycles(cur, tgt, increment, n) == tgt
      ensures FrontsApart(cur, tgt)
    {
      ConvergesExactly(cur, tgt, increment, n);
    }
  }

  // ----- the shape of the bar -----

  predicate NonIncreasing(s: seq<byte>) {
    forall i, j :: 0 <= i < j < |s| ==> s[i] >= s[j]
  }

  lemma {:induction false} RisePassKeepsShape(cur: seq<byte>, tgt: seq<byte>, i: nat, budget: nat)
    requires |cur| == |tgt| && i <= |cur| && NonIncreasing(cur) && NonIncreasing(tgt)
    requires forall k :: 0 <= k < i ==> cur[k] == tgt[k]
    ensures NonIncreasing(RisePass(cur, tgt, i, budget))
    decreases |cur| - i
  {
    if i == |cur| || budget == 0 || cur[i] > tgt[i] {
    } else if cur[i] == tgt[i] {
      RisePassKeepsShape(cur, tgt, i + 1, budget);
    } else {
      var step := Min(tgt[i] - cur[i], budget);
      var r := cur[i := cur[i] + step];
      assert NonIncreasing(r);
      if r[i] == tgt[i] {
        RisePassKeepsShape(r, tgt, i + 1, budget - step);
      }
    }
  }

  lemma {:induction false} FallPassKeepsShape(cur: seq<byte>, tgt: seq<byte>, n: nat, budget: nat)
    requires |cur| == |tgt| && n <= |cur| && NonIncreasing(cur) && NonIncreasing(tgt)
    requires forall k :: n <= k < |cur| ==> cur[k] == tgt[k]
    ensures NonIncreasing(FallPass(cur, tgt, n, budget))
    decreases n
  {
    if n == 0 || budget == 0 || cur[n - 1] < tgt[n - 1] {
    } else if cur[n - 1] == tgt[n - 1] {
      FallPassKeepsShape(cur, tgt, n - 1, budget);
    } else {
      var step := Min(cur[n - 1] - tgt[n - 1], budget);
      var r := cur[n - 1 := cur[n - 1] - step];
      assert NonIncreasing(r);
      if r[n - 1] == tgt[n - 1] {
        FallPassKeepsShape(r, tgt, n - 1, budget - step);
      }
    }
  }

  lemma CycleKeepsShape(cur: seq<byte>, tgt: seq<byte>, increment: nat)
    requires |cur| == |tgt| && NonIncreasing(cur) && NonIncreasing(tgt)
    ensures NonIncreasing(Cycle(cur, tgt, increment))
  {
    RisePassKeepsShape(cur, tgt, 0, increment);
    FallPassKeepsShape(RisePass(cur, tgt, 0, increment), tgt, |cur|, increment);
  }
}
