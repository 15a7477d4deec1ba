/**
 The brightness ramp: every tick moves the driven level one constant-ratio step towards
 its target. Levels are reals; the programs use single-precision floats.
*/
module Ramp {
  import opened Arithmetic
  import opened Rounding

  /** BRIGHTNESS_FACTOR_UP and BRIGHTNESS_FACTOR_DOWN. */
  const FACTOR: real := 1.0596

  function Min(a: real, b: real): real {
    if a <= b then a else b
  }

  function Max(a: real, b: real): real {
    if a >= b then a else b
  }

  /** One call of step_brightness_ramp in dynamic mode with a target established. */
  function Step(g: real, target: real): real {
    if target < g then
      Max(target, g / FACTOR)
    else if target > g then
      Min(target, (if g <= 0.0 then 1.0 else g) * FACTOR)
    else
      g
  }

  /** n ticks with an unchanged target. */
  function StepN(g: real, target: real, n: nat): real {
    if n == 0 then g else Step(StepN(g, target, n - 1), target)
  }

  function Pow(x: real, n: nat): real {
    if n == 0 then 1.0 else x * Pow(x, n - 1)
  }

  /** brightness_ramping in dynamic mode: the loop chooses the fast tick. */
  predicate Ramping(g: real, target: int) {
    RoundHalfAway(g) != target
  }

  // ---------------------------------------------------------------- powers

  lemma {:induction false} PowPositive(n: nat)
    ensures Pow(FACTOR, n) >= 1.0
    ensures n > 0 ==> Pow(FACTOR, n) >= FACTOR
  {
    if n > 0 {
      PowPositive(n - 1);
      ProductAtLeast(FACTOR, Pow(FACTOR, n - 1), FACTOR, 1.0);
    }
  }

  lemma {:induction false} PowSum(m: nat, n: nat)
    ensures Pow(FACTOR, m + n) == Pow(FACTOR, m) * Pow(FACTOR, n)
  {
    if m > 0 {
      PowSum(m - 1, n);
      ProductAssociate(FACTOR, Pow(FACTOR, m - 1), Pow(FACTOR, n));
    }
  }

  lemma PowMonotone(m: nat, n: nat)
    requires m <= n
    ensures Pow(FACTOR, m) <= Pow(FACTOR, n)
  {
    PowSum(m, n - m);
    PowPositive(m);
    PowPositive(n - m);
    ProductAtLeast(Pow(FACTOR, m), Pow(FACTOR, n - m), Pow(FACTOR, m), 1.0);
  }

  ghost predicate PowIn(n: nat, lo: real, hi: real) {
    0.0 < lo <= Pow(FACTOR, n) <= hi
  }

  /** Interval arithmetic on powers: the bounds of a sum of exponents. */
  lemma PowInSum(m: nat, mlo: real, mhi: real, n: nat, nlo: real, nhi: real, lo: real, hi: real)
    requires PowIn(m, mlo, mhi) && PowIn(n, nlo, nhi)
    requires 0.0 < lo <= mlo * nlo && mhi * nhi <= hi
    ensures PowIn(m + n, lo, hi)
  {
    PowSum(m, n);
    ProductAtLeast(Pow(FACTOR, m), Pow(FACTOR, n), mlo, nlo);
    ProductAtLeast(mhi, nhi, Pow(FACTOR, m), Pow(FACTOR, n));
  }

  // ------------------------------------------------------------ closed form

  /** Where a rising ramp effectively starts: a level of zero or less is bumped to one. */
  function Base(g: real): real {
    if g <= 0.0 then 1.0 else g
  }

  /** The level a rising ramp would have after n steps without a target. */
  function Unbounded(g: real, n: nat): real {
    Base(g) * Pow(FACTOR, n)
  }

  lemma UnboundedNext(g: real, n: nat)
    ensures Unbounded(g, 0) == Base(g)
    ensures Unbounded(g, n) > 0.0
    ensures Unbounded(g, n + 1) == Unbounded(g, n) * FACTOR
  {
    BasePositive(g, n);
    Regroup(Base(g), FACTOR, Pow(FACTOR, n));
  }

  /** n rising steps multiply by FACTOR^n and stop at the target. */
  lemma {:induction false} RisingClosedForm(g: real, target: real, n: nat)
    requires g < target && n > 0
    ensures StepN(g, target, n) == Min(target, Unbounded(g, n))
  {
    UnboundedNext(g, n - 1);
    if n > 1 {
      RisingClosedForm(g, target, n - 1);
      RisingStep(Unbounded(g, n - 1), target);
    } else {
      FirstStep(g, target);
    }
  }

  lemma FirstStep(g: real, target: real)
    ensures StepN(g, target, 1) == Step(g, target)
    ensures g < target ==> Step(g, target) == Min(target, Base(g) * FACTOR)
  {
    assert StepN(g, target, 0) == g;
  }

  /** A rising ramp never reverses and never overshoots. */
  lemma {:induction false} RisingMonotone(g: real, target: real, n: nat)
    requires g <= target
    ensures g <= StepN(g, target, n) <= StepN(g, target, n + 1) <= target
  {
    if n > 0 {
      RisingMonotone(g, target, n - 1);
    }
    RisingStepBounds(StepN(g, target, n), target);
  }

  lemma BasePositive(g: real, n: nat)
    ensures Base(g) * Pow(FACTOR, n) >= Base(g) > 0.0
  {
    PowPositive(n);
    ProductAtLeast(Base(g), Pow(FACTOR, n), Base(g), 1.0);
  }

  lemma RisingStep(q: real, target: real)
    requires q > 0.0
    ensures Step(Min(target, q), target) == Min(target, q * FACTOR)
  {
  }

  lemma RisingStepBounds(g: real, target: real)
    requires g <= target
    ensures g <= Step(g, target) <= target
  {
  }

  /** The level a falling ramp would have after n steps without a target. */
  function Shrunk(g: real, n: nat): real {
    PowPositive(n);
    g / Pow(FACTOR, n)
  }

  lemma ShrunkNext(g: real, n: nat)
    ensures Shrunk(g, 0) == g
    ensures g >= 0.0 ==> Shrunk(g, n) >= 0.0
    ensures Shrunk(g, n + 1) == Shrunk(g, n) / FACTOR
  {
    PowPositive(n);
    DivideTwice(g, Pow(FACTOR, n), FACTOR);
  }

  /** n falling steps divide by FACTOR^n and stop at the target. */
  lemma {:induction false} FallingClosedForm(g: real, target: real, n: nat)
    requires 0.0 <= target <= g
    ensures StepN(g, target, n) == Max(target, Shrunk(g, n))
  {
    if n == 0 {
      ShrunkNext(g, 0);
    } else {
      FallingClosedForm(g, target, n - 1);
      ShrunkNext(g, n - 1);
      FallingStep(Shrunk(g, n - 1), target);
    }
  }

  lemma FallingStep(q: real, target: real)
    requires 0.0 <= target && 0.0 <= q
    ensures Step(Max(target, q), target) == Max(target, q / FACTOR)
  {
    DivideShrinks(q, FACTOR);
  }

  /** A falling ramp never reverses and never undershoots. */
  lemma {:induction false} FallingMonotone(g: real, target: real, n: nat)
    requires 0.0 <= target <= g
    ensures target <= StepN(g, target, n + 1) <= StepN(g, target, n) <= g
  {
    if n > 0 {
      FallingMonotone(g, target, n - 1);
    }
    DivideShrinks(StepN(g, target, n), FACTOR);
  }

  // ----------------------------------------------------------- step counts

  lemma RisingSettles(g: real, target: real, n: nat)
    requires g < target && n > 0
    ensures StepN(g, target, n) == target <==> Base(g) * Pow(FACTOR, n) >= target
  {
    hide Pow, StepN;
    RisingClosedForm(g, target, n);
  }

  lemma TimesPower(x: real, n: nat, lo: real, k: nat, p: real)
    requires k <= n && x >= lo > 0.0 && Pow(FACTOR, k) >= p > 0.0
    ensures x * Pow(FACTOR, n) >= lo * p
  {
    PowMonotone(k, n);
    ProductAtLeast(x, Pow(FACTOR, n), lo, p);
  }

  lemma FallingSettles(g: real, target: real, n: nat)
    requires 0.0 < target < g
    ensures StepN(g, target, n) == target <==> g <= target * Pow(FACTOR, n)
  {
    FallingClosedForm(g, target, n);
    ShrunkAtMost(g, n, target);
  }

  lemma ShrunkAtMost(g: real, n: nat, bound: real)
    ensures Shrunk(g, n) <= bound <==> g <= bound * Pow(FACTOR, n)
  {
    PowPositive(n);
    CrossMultiply(g, Pow(FACTOR, n), bound);
  }

  lemma Power1()
    ensures PowIn(1, 1.0596, 1.0596)
  {
    assert Pow(FACTOR, 0) == 1.0;
  }

  lemma Power2()
    ensures PowIn(2, 1.12275216, 1.12275216)
  {
    hide PowIn;
    Power1();
    PowInSum(1, 1.0596, 1.0596, 1, 1.0596, 1.0596, 1.12275216, 1.12275216);
  }

  lemma Power4()
    ensures PowIn(4, 1.26057241, 1.26057242)
  {
    hide PowIn;
    Power2();
    PowInSum(2, 1.12275216, 1.12275216, 2, 1.12275216, 1.12275216, 1.26057241, 1.26057242);
  }

  lemma Power8()
    ensures PowIn(8, 1.58904280, 1.58904283)
  {
    hide PowIn;
    Power4();
    PowInSum(4, 1.26057241, 1.26057242, 4, 1.26057241, 1.26057242, 1.58904280, 1.58904283);
  }

  lemma Power16()
    ensures PowIn(16, 2.52505702, 2.52505712)
  {
    hide PowIn;
    Power8();
    PowInSum(8, 1.58904280, 1.58904283, 8, 1.58904280, 1.58904283, 2.52505702, 2.52505712);
  }

  lemma Power32()
    ensures PowIn(32, 6.37591295, 6.37591346)
  {
    hide PowIn;
    Power16();
    PowInSum(16, 2.52505702, 2.52505712, 16, 2.52505702, 2.52505712, 6.37591295, 6.37591346);
  }

  lemma Power64()
    ensures PowIn(64, 40.6522659, 40.6522725)
  {
    hide PowIn;
    Power32();
    PowInSum(32, 6.37591295, 6.37591346, 32, 6.37591295, 6.37591346, 40.6522659, 40.6522725);
  }

  lemma Power72()
    ensures PowIn(72, 64.5981904, 64.5982022)
  {
    hide PowIn;
    Power64();
    Power8();
    PowInSum(64, 40.6522659, 40.6522725, 8, 1.58904280, 1.58904283, 64.5981904, 64.5982022);
  }

  lemma Power76()
    ensures PowIn(76, 81.4306965, 81.4307121)
  {
    hide PowIn;
    Power72();
    Power4();
    PowInSum(72, 64.5981904, 64.5982022, 4, 1.26057241, 1.26057242, 81.4306965, 81.4307121);
  }

  lemma Power88()
    ensures PowIn(88, 163.114114, 163.114151)
  {
    hide PowIn;
    Power72();
    Power16();
    PowInSum(72, 64.5981904, 64.5982022, 16, 2.52505702, 2.52505712, 163.114114, 163.114151);
  }

  lemma Power144()
    ensures PowIn(144, 4172.92620, 4172.92773)
  {
    hide PowIn;
    Power72();
    PowInSum(72, 64.5981904, 64.5982022, 72, 64.5981904, 64.5982022, 4172.92620, 4172.92773);
  }

  /** The power before one that is just past a bound is not past it. */
  lemma FirstPast(n: nat, lo: real, hi: real, bound: real)
    requires PowIn(n + 1, lo, hi) && bound <= lo && hi < bound * FACTOR
    ensures Pow(FACTOR, n) < bound <= Pow(FACTOR, n + 1)
  {
  }

  /** The three powers the step counts rest on. */
  lemma Powers()
    ensures Pow(FACTOR, 75) < 80.3 <= Pow(FACTOR, 76)
    ensures Pow(FACTOR, 87) < 160.6 <= Pow(FACTOR, 88)
    ensures Pow(FACTOR, 143) < 4015.0 <= Pow(FACTOR, 144)
  {
    hide Pow, PowIn;
    Power76();
    FirstPast(75, 81.4306965, 81.4307121, 80.3);
    Power88();
    FirstPast(87, 163.114114, 163.114151, 160.6);
    Power144();
    FirstPast(143, 4172.92620, 4172.92773, 4015.0);
  }

  /** The documented full-range brighten, 50 to 4015, takes exactly 76 steps. */
  lemma FullRangeSweep(n: nat)
    ensures StepN(50.0, 4015.0, n) == 4015.0 <==> n >= 76
  {
    Powers();
    if n > 0 {
      RisingSettles(50.0, 4015.0, n);
      if n >= 76 { PowMonotone(76, n); } else { PowMonotone(n, 75); }
    }
  }

  lemma AnyRiseSettles(g: real, target: real, n: nat)
    requires 25.0 <= g < target <= 4015.0 && n >= 88
    ensures StepN(g, target, n) == target
  {
    Powers();
    TimesPower(Base(g), n, 25.0, 88, 160.6);
    RisingSettles(g, target, n);
  }

  lemma AnyFallSettles(g: real, target: real, n: nat)
    requires 25.0 <= target < g <= 4015.0 && n >= 88
    ensures StepN(g, target, n) == target
  {
    Powers();
    TimesPower(target, n, 25.0, 88, 160.6);
    FallingSettles(g, target, n);
  }

  /** Any move within [25, 4015], up or down, is over after at most 88 steps. */
  lemma AnyMoveSettles(g: real, target: real, n: nat)
    requires 25.0 <= g <= 4015.0 && 25.0 <= target <= 4015.0 && n >= 88
    ensures StepN(g, target, n) == target
  {
    if g < target {
      AnyRiseSettles(g, target, n);
    } else if target < g {
      AnyFallSettles(g, target, n);
    } else {
      RisingMonotone(g, target, n);
    }
  }

  /** Any level the loop can hold reaches any target after at most 144 steps. */
  lemma AnyTargetFromBoot(g: real, target: real, n: nat)
    requires g == 0.0 || 1.0 <= g <= 4015.0
    requires 25.0 <= target <= 4015.0 && n >= 144
    ensures StepN(g, target, n) == target
  {
    hide Pow, StepN;
    if g < target {
      Powers();
      TimesPower(Base(g), n, 1.0, 144, 4015.0);
      RisingSettles(g, target, n);
    } else {
      AnyMoveSettles(g, target, n);
    }
  }

  /** Both bounds are attained. */
  lemma StepBoundsAttained()
    ensures StepN(25.0, 4015.0, 87) != 4015.0 && StepN(0.0, 4015.0, 143) != 4015.0
  {
    Powers();
    RisingSettles(25.0, 4015.0, 87);
    RisingSettles(0.0, 4015.0, 143);
  }

  // ------------------------------------------------------------ comparison

  /** The levels the loop can be at: zero before the first step, at least FACTOR after it. */
  predicate Attainable(g: real) {
    g == 0.0 || FACTOR <= g <= 4015.0
  }

  lemma StepAttainable(g: real, target: real)
    requires Attainable(g) && 25.0 <= target <= 4015.0
    ensures FACTOR <= Step(g, target) <= 4015.0
  {
  }

  /**
   A brighter level chasing a higher target stays brighter, except in one case: the
   lower level is at most zero, so it is bumped to one, and the higher one lies in (0,1).
  */
  lemma StepMonotoneIff(g: real, h: real, s: real, t: real)
    requires g <= h && FACTOR <= s <= t
    ensures Step(g, s) <= Step(h, t) <==> !(g <= 0.0 < h < 1.0)
  {
  }

  // --------------------------------------------------------------- cadence

  /** The loop idles exactly while the level is within half a unit of the target, and the next step then lands on it. */
  lemma IdleMeansSettled(g: real, target: int)
    requires 25 <= target <= 4015
    ensures !Ramping(g, target) <==> target as real - 0.5 <= g < target as real + 0.5
    ensures !Ramping(g, target) ==> Step(g, target as real) == target as real
  {
    var t := target as real;
    if t < g {
      ProductAtLeast(t, FACTOR, t, FACTOR);
      CrossMultiply(g, FACTOR, t);
    }
  }

  /** How many of the first n steps towards a fixed target end with the fast tick. */
  ghost function FastTicks(g: real, target: int, n: nat): nat {
    if n == 0 then 0
    else FastTicks(g, target, n - 1) + if Ramping(StepN(g, target as real, n), target) then 1 else 0
  }

  /** With a fixed target the loop ticks fast at most 143 times, however long it runs. */
  lemma {:induction false} FastTicksBounded(g: real, target: int, n: nat)
    requires g == 0.0 || 1.0 <= g <= 4015.0
    requires 25 <= target <= 4015
    ensures FastTicks(g, target, n) <= if n < 144 then n else 143
  {
    if n > 0 {
      FastTicksBounded(g, target, n - 1);
      if n >= 144 {
        AnyTargetFromBoot(g, target as real, n);
        RoundInteger(target);
      }
    }
  }
}
