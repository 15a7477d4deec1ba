/**
 From sensor readings to a brightness target: a moving average over the last three accepted
 readings, then a clamped straight line.
*/
module Ambient {
  import opened Basics
  import opened Rounding

  /** moving_ave_period */
  const PERIOD: nat := 3

  /** brightness_map: the clamped line through the calibration points. */
  function BrightnessMap(ambient: real): (level: int)
    ensures 5 <= level <= 4015
  {
    var b := RoundHalfEven(4.70 * ambient + 25.0);
    if b >= 4015 then 4015 else if b <= 5 then 5 else b
  }

  /** The readings the average is taken over: the last three, or all of them if fewer. */
  function Window(history: seq<int>): (w: seq<int>)
    ensures |w| == if |history| < PERIOD then |history| else PERIOD
  {
    if |history| < PERIOD then history else history[|history| - PERIOD..]
  }

  function Sum(s: seq<int>): int {
    if s == [] then 0 else Sum(s[..|s| - 1]) + s[|s| - 1]
  }

  /** current_ambient_average after the given accepted readings; the sum is kept in 32 bits. */
  function Average(history: seq<int>): real
    requires history != []
  {
    Mean(U32(Sum(Window(history))), |Window(history)|)
  }

  /** sum / count for the counts a window can have. */
  function Mean(sum: int, count: nat): (m: real)
    requires 1 <= count <= PERIOD
    ensures m * count as real == sum as real
  {
    if count == 1 then sum as real
    else if count == 2 then sum as real / 2.0
    else sum as real / 3.0
  }

  /** The division as the code writes it. */
  function Quotient(sum: int, count: nat): real
    requires count > 0
  {
    sum as real / count as real
  }

  /** brightness_target after the given accepted readings in dynamic mode. */
  function Target(history: seq<int>): int
    requires history != []
  {
    BrightnessMap(Average(history))
  }

  /** Readings as the daemon prints them. */
  predicate Counts(history: seq<int>) {
    forall i :: 0 <= i < |history| ==> 0 <= history[i] < 0x1_0000
  }

  predicate PointwiseAtMost(a: seq<int>, b: seq<int>) {
    |a| == |b| && forall i :: 0 <= i < |a| ==> a[i] <= b[i]
  }

  // -------------------------------------------------------------- the ring

  /** The slot written before slot p. */
  function Previous(p: nat): nat
    requires p < PERIOD
  {
    if p == 0 then PERIOD - 1 else p - 1
  }

  /** Going back from the slot written last, the ring holds the last readings in turn. */
  ghost predicate HoldsWindow(slots: seq<int>, position: int, history: seq<int>)
    requires |slots| == PERIOD
  {
    var n := |history|;
    if n < PERIOD then
      position == n - 1 && slots[..n] == history
    else
      && 0 <= position < PERIOD
      && slots[position] == history[n - 1]
      && slots[Previous(position)] == history[n - 2]
      && slots[Previous(Previous(position))] == history[n - 3]
  }

  /** brightness_buffer, brightness_samples, current_position and current_ambient_average. */
  class AmbientFilter {
    const buffer: array<int>
    var position: int
    var samples: nat
    var average: real
    ghost var history: seq<int>

    ghost predicate Valid()
      reads this, buffer
    {
      && buffer.Length == PERIOD
      && samples == |Window(history)|
      && HoldsWindow(buffer[..], position, history)
    }

    constructor ()
      ensures Valid() && fresh(buffer) && history == []
    {
      buffer := new int[PERIOD];
      position := -1;
      samples := 0;
      average := 0.0;
      history := [];
    }

    method AddBrightnessToBuffer(cb: int)
      requires Valid()
      modifies this, buffer
      ensures Valid() && history == old(history) + [cb] && average == old(average)
    {
      hide HoldsWindow, Window;
      ghost var slots, last := buffer[..], position;
      position := (position + 1) % 3;
      buffer[position] := cb;
      samples := samples + 1;
      if samples > PERIOD {
        samples := PERIOD;
      }
      NextSlotHoldsWindow(slots, last, history, cb);
      assert buffer[..] == slots[position := cb];
      history := history + [cb];
    }

    method UpdateAverageBrightness()
      requires Valid() && history != []
      modifies this`average
      ensures Valid() && average == Average(history)
    {
      hide Quotient, Average, HoldsWindow, Window;
      ghost var slots := buffer[..];
      var sum := 0;
      var x := 0;
      while x < samples
        invariant 0 <= x <= samples
        invariant sum == U32(Sum(slots[..x]))
      {
        SumNext(slots, x);
        sum := U32(sum + buffer[x]);
        x := x + 1;
      }
      average := Quotient(sum, samples);
      AverageFromSlots(slots, position, history, sum);
    }

    /** brightness_map of the current average. */
    method MapAverage() returns (level: int)
      requires Valid() && history != [] && average == Average(history)
      ensures level == Target(history)
    {
      level := BrightnessMap(average);
    }
  }

  lemma NextSlotHoldsWindow(slots: seq<int>, position: int, history: seq<int>, cb: int)
    requires |slots| == PERIOD && HoldsWindow(slots, position, history)
    ensures var next := (position + 1) % 3;
            HoldsWindow(slots[next := cb], next, history + [cb])
  {
    var next, h := (position + 1) % 3, history + [cb];
    assert next == if position == PERIOD - 1 then 0 else position + 1;
    if |h| < PERIOD {
      assert slots[next := cb][..|h|] == slots[..|history|] + [cb];
    } else if |history| < PERIOD {
      assert next == 2 && slots[0] == slots[..2][0] && slots[1] == slots[..2][1];
    } else {
      assert h[|h| - 1] == cb && h[|h| - 2] == history[|history| - 1] && h[|h| - 3] == history[|history| - 2];
    }
  }

  /** Whatever the rotation of the ring, its slots add up to the window. */
  lemma SlotsSumToWindow(slots: seq<int>, position: int, history: seq<int>)
    requires |slots| == PERIOD && HoldsWindow(slots, position, history)
    ensures Sum(slots[..|Window(history)|]) == Sum(Window(history))
  {
    if |history| >= PERIOD {
      assert slots[..3] == slots;
      SumOfThree(slots);
      SumOfThree(Window(history));
    }
  }

  lemma SumNext(slots: seq<int>, x: nat)
    requires x < |slots|
    ensures Sum(slots[..x + 1]) == Sum(slots[..x]) + slots[x]
  {
    assert slots[..x + 1][..x] == slots[..x];
  }

  lemma AverageFromSlots(slots: seq<int>, position: int, history: seq<int>, sum: int)
    requires |slots| == PERIOD && history != [] && HoldsWindow(slots, position, history)
    requires sum == U32(Sum(slots[..|Window(history)|]))
    ensures Quotient(sum, |Window(history)|) == Average(history)
  {
    hide Quotient, Mean, HoldsWindow;
    SlotsSumToWindow(slots, position, history);
    QuotientIsMean(sum, |Window(history)|);
  }

  lemma QuotientIsMean(sum: int, count: nat)
    requires 1 <= count <= PERIOD
    ensures Quotient(sum, count) == Mean(sum, count)
  {
    if count == 1 {
    } else if count == 2 {
    } else {
      assert count == 3;
    }
  }

  lemma SumOfThree(s: seq<int>)
    requires |s| == 3
    ensures Sum(s) == s[0] + s[1] + s[2]
  {
    assert s[..2][..1] == s[..1] && s[..1][..0] == [];
    assert Sum(s[..1]) == s[0];
    assert Sum(s[..2]) == s[0] + s[1];
  }

  // ------------------------------------------------------------ properties

  lemma {:induction false} SumBounds(s: seq<int>)
    requires Counts(s)
    ensures 0 <= Sum(s) <= 65535 * |s|
  {
    if s != [] {
      SumBounds(s[..|s| - 1]);
    }
  }

  /** For 16-bit readings the sum never wraps: the average is the mean of the window. */
  lemma AverageIsMean(history: seq<int>)
    requires history != [] && Counts(history)
    ensures Sum(Window(history)) < WORD
    ensures Average(history) * |Window(history)| as real == Sum(Window(history)) as real
    ensures 0.0 <= Average(history) <= 65535.0
  {
    SumBounds(Window(history));
  }

  /** After any accepted 16-bit readings the target is a level of the calibrated range. */
  lemma TargetRange(history: seq<int>)
    requires history != [] && Counts(history)
    ensures 25 <= Target(history) <= 4015
  {
    AverageIsMean(history);
  }

  /** Three equal readings settle the target, whatever came before them. */
  lemma ThreeEqualReadings(past: seq<int>, a: uint16)
    ensures Target(past + [a, a, a]) == BrightnessMap(a as real)
  {
    var w := Window(past + [a, a, a]);
    assert w == [a, a, a];
    SumOfThree(w);
  }

  /** The map goes through both calibration points and saturates at 849 counts. */
  lemma MapCalibration()
    ensures BrightnessMap(1.0) == 30 && BrightnessMap(133.0) == 650
    ensures BrightnessMap(848.0) < 4015 && BrightnessMap(849.0) == 4015
  {
  }

  /** In between it is the nearest level to the line 4.70 x + 25, and outside 5..4015 the nearer end. */
  lemma MapNearestToLine(x: real)
    ensures var y, level := 4.70 * x + 25.0, BrightnessMap(x) as real;
            && (5.0 <= y <= 4015.0 ==> level - 0.5 <= y <= level + 0.5)
            && (y <= 5.0 ==> level == 5.0) && (y >= 4015.0 ==> level == 4015.0)
  {
    var y := 4.70 * x + 25.0;
    if y <= 5.0 { RoundHalfEvenMonotone(y, 5.0); }
    if y >= 4015.0 { RoundHalfEvenMonotone(4015.0, y); }
    RoundInteger(5);
    RoundInteger(4015);
  }

  lemma MapMonotone(a: real, b: real)
    requires a <= b
    ensures BrightnessMap(a) <= BrightnessMap(b)
  {
    RoundHalfEvenMonotone(4.70 * a + 25.0, 4.70 * b + 25.0);
  }

  /** On whole counts the map is strictly increasing up to 849, where it saturates. */
  lemma MapOnCounts(a: nat, b: nat)
    ensures BrightnessMap(a as real) < BrightnessMap(b as real) <==> a < b && a < 849
  {
    if a < b {
      MapMonotone((a + 1) as real, b as real);
    } else {
      MapMonotone(b as real, a as real);
    }
  }

  lemma {:induction false} SumMonotone(a: seq<int>, b: seq<int>)
    requires PointwiseAtMost(a, b)
    ensures Sum(a) <= Sum(b)
  {
    if a != [] {
      SumMonotone(a[..|a| - 1], b[..|b| - 1]);
    }
  }

  /** Pointwise brighter histories have a no smaller average and a no smaller target. */
  lemma TargetMonotone(a: seq<int>, b: seq<int>)
    requires a != [] && PointwiseAtMost(a, b) && Counts(a) && Counts(b)
    ensures Average(a) <= Average(b) && Target(a) <= Target(b)
  {
    AverageIsMean(a);
    AverageIsMean(b);
    SumMonotone(Window(a), Window(b));
    MapMonotone(Average(a), Average(b));
  }
}
