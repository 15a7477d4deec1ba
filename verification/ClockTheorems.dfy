/**
 Theorems about whole runs of the render loop: the reachable levels and frames, the comparison of
 two runs, the cadence, unblanking and self-healing.
*/
module ClockTheorems {
  import opened Basics
  import opened Rounding
  import opened Ambient
  import opened Ramp
  import opened Display
  import opened DisplayTheorems
  import opened Clock
  import opened Wire

  /** The bytes, when accepted, carry a 16-bit count, as every line of the daemon does. */
  predicate CountEvent(e: Event) {
    e.Tick? && Accepted(e.recv).Some? ==> 0 <= Accepted(e.recv).value < 0x1_0000
  }

  predicate CountEvents(events: seq<Event>) {
    forall i :: 0 <= i < |events| ==> CountEvent(events[i])
  }

  /** Of a line with any three integers the clock takes the first, unless it is negative. */
  lemma AcceptsBroadband(broadband: int, ir: int, lux: int, rest: string)
    requires rest == "" || !IsDigit(rest[0])
    ensures Accepted(Some(SignedLine(broadband, ir, lux, rest))) == if broadband < 0 then None else Some(broadband)
    ensures Accepted(None) == None
  {
    hide ParseLine, SignedLine;
    SignedFieldsIff(broadband, ir, lux, rest);
  }

  // ---------------------------------------------------------- reachable states

  predicate Settled(s: State) {
    if s.history == [] then
      s.g == 0.0 && s.target == 0
    else
      FACTOR <= s.g <= 4015.0 && 25 <= s.target <= 4015 && s.target == Target(s.history)
  }

  /** What holds in every state of a dynamic-mode run between ticks. */
  ghost predicate Reachable(s: State) {
    s.dynamic && Counts(s.history) && Settled(s) && UndrivenDark(s.buf)
  }

  lemma RampKeepsLevels(s: State, recv: Option<string>)
    requires Reachable(s)
    requires Accepted(recv).Some? ==> 0 <= Accepted(recv).value < 0x1_0000
    ensures var r := AfterRamp(AfterPoll(s, recv));
            Reachable(r) && r.buf == s.buf && r.latch == s.latch && r.unblanked == s.unblanked && r.first == s.first
  {
    hide Accepted, Average, BrightnessMap;
    var p := AfterPoll(s, recv);
    if p.history != [] {
      TargetRange(p.history);
      StepAttainable(p.g, p.target as real);
    }
  }

  lemma LevelInRange(s: State)
    requires Reachable(s)
    ensures Level(s.g) == RoundHalfAway(s.g) <= 4015
  {
    RoundHalfAwayMonotone(0.0, s.g);
    RoundHalfAwayMonotone(s.g, 4015.0);
    RoundInteger(0);
    RoundInteger(4015);
  }

  /** One tick from a reachable state: the frame is the one of the tick's time and level. */
  lemma TickRenders(trims: Trims, s: State, e: Event)
    requires Reachable(s) && e.Tick? && CountEvent(e)
    ensures var r := After(trims, s, e);
            Reachable(r) && Level(r.g) <= 4015 && r.buf == FrameOf(trims, e.t, Level(r.g))
            && (e.writeOk ==> r.latch == r.buf)
  {
    RampKeepsLevels(s, e.recv);
    var s1 := AfterRamp(AfterPoll(s, e.recv));
    LevelInRange(s1);
    RenderForgets(trims, e.t, Level(s1.g), s1.buf);
  }

  /**
   A reading counts at once: the tick that accepts it sets the target of the readings so far and takes the first step
   towards it, as any tick does after the first reading; before it the level stays at zero.
  */
  lemma TickChasesTarget(trims: Trims, s: State, e: Event)
    requires Reachable(s) && e.Tick? && CountEvent(e)
    ensures var r := After(trims, s, e);
            && r.history == s.history + (if Brings(e) then [Accepted(e.recv).value] else [])
            && (r.history == [] ==> r.g == 0.0 && r.target == 0)
            && (r.history != [] ==> r.target == Target(r.history) && r.g == Step(s.g, Target(r.history) as real))
  {
    hide Accepted, Target, Step, Render;
    assert s.history + [] == s.history;
  }

  /** The frame invariant: in every reachable state every channel is within 0..4015 and undriven ones are 0. */
  lemma {:induction false} ReachableFromBoot(trims: Trims, garbage: Frame, events: seq<Event>)
    requires CountEvents(events)
    ensures var s := Run(trims, Boot(garbage), events);
            && Reachable(s)
            && forall c: nat :: c < CHANNELS ==> 0 <= s.buf[c] <= 4015
  {
    if events != [] {
      var init, e := events[..|events| - 1], events[|events| - 1];
      ReachableFromBoot(trims, garbage, init);
      var s := Run(trims, Boot(garbage), init);
      if e.Tick? {
        TickRenders(trims, s, e);
        var r := After(trims, s, e);
        forall c: nat | c < CHANNELS
          ensures 0 <= r.buf[c] <= 4015
        {
          FrameBounded(trims, e.t, Level(r.g), c);
        }
      }
    }
  }

  /** Reachable states only lead to reachable states. */
  lemma {:induction false} RunFromReachable(trims: Trims, s: State, events: seq<Event>)
    requires Reachable(s) && CountEvents(events)
    ensures Reachable(Run(trims, s, events))
  {
    if events != [] {
      var n := |events| - 1;
      RunFromReachable(trims, s, events[..n]);
      if events[n].Tick? {
        TickRenders(trims, Run(trims, s, events[..n]), events[n]);
      }
    }
  }

  // ------------------------------------------------------ comparison of runs

  /** The same event of two runs, but for the bytes received: both accept a reading or neither does. */
  predicate SameSchedule(e: Event, f: Event) {
    match (e, f)
    case (Tick(r, t, w, u), Tick(r', t', w', u')) =>
      t == t' && w == w' && u == u' && Accepted(r).Some? == Accepted(r').Some?
    case (Glitch(l), Glitch(l')) => l == l'
    case _ => false
  }

  /** The event brings a reading. */
  predicate Brings(e: Event) {
    e.Tick? && Accepted(e.recv).Some?
  }

  /** Where readings are accepted the second is no smaller. */
  predicate NoBrighter(e: Event, f: Event) {
    SameSchedule(e, f) && (Brings(e) ==> Accepted(e.recv).value <= Accepted(f.recv).value)
  }

  predicate NoBrighterEvents(e: seq<Event>, f: seq<Event>) {
    |e| == |f| && forall i :: 0 <= i < |e| ==> NoBrighter(e[i], f[i])
  }

  ghost predicate Darker(s: State, r: State) {
    && PointwiseAtMost(s.history, r.history)
    && s.target <= r.target
    && s.g <= r.g
    && PointwiseAtMost(s.buf, r.buf)
    && PointwiseAtMost(s.latch, r.latch)
  }

  lemma AppendKeepsOrder(h: seq<int>, k: seq<int>, a: int, b: int)
    requires Counts(h) && Counts(k) && PointwiseAtMost(h, k) && 0 <= a <= b < 0x1_0000
    ensures PointwiseAtMost(h + [a], k + [b]) && Counts(h + [a]) && Counts(k + [b])
  {
  }

  lemma UpdateKeepsOrder(s: State, r: State, h: seq<int>, k: seq<int>, t: int, u: int)
    requires Darker(s, r) && PointwiseAtMost(h, k) && t <= u
    ensures Darker(s.(history := h, target := t), r.(history := k, target := u))
  {
  }

  lemma ReadingKeepsOrder(s: State, r: State, a: int, b: int)
    requires s.dynamic && r.dynamic && Counts(s.history) && Counts(r.history) && Darker(s, r)
    requires 0 <= a <= b < 0x1_0000
    ensures Darker(AfterReading(s, a), AfterReading(r, b))
    ensures Counts(AfterReading(s, a).history) && Counts(AfterReading(r, b).history)
  {
    var h, k := s.history + [a], r.history + [b];
    AppendKeepsOrder(s.history, r.history, a, b);
    var t, u := Target(h), Target(k);
    assert t <= u by { TargetMonotone(h, k); }
    UpdateKeepsOrder(s, r, h, k, t, u);
  }

  lemma PollKeepsOrder(s: State, r: State, recv: Option<string>, recv': Option<string>)
    requires Reachable(s) && Reachable(r) && Darker(s, r)
    requires Accepted(recv).Some? == Accepted(recv').Some?
    requires Accepted(recv).Some? ==> 0 <= Accepted(recv).value <= Accepted(recv').value < 0x1_0000
    ensures Darker(AfterPoll(s, recv), AfterPoll(r, recv'))
    ensures Counts(AfterPoll(s, recv).history) && Counts(AfterPoll(r, recv').history)
  {
    if Accepted(recv).Some? {
      ReadingKeepsOrder(s, r, Accepted(recv).value, Accepted(recv').value);
    }
  }

  lemma RampKeepsOrder(s: State, r: State)
    requires s.dynamic && r.dynamic && Counts(s.history) && Counts(r.history) && Darker(s, r)
    requires s.history != [] ==> s.target == Target(s.history) && r.target == Target(r.history)
    requires Attainable(s.g) && Attainable(r.g)
    ensures Darker(AfterRamp(s), AfterRamp(r))
  {
    if s.history != [] {
      TargetRange(s.history);
      TargetRange(r.history);
      StepMonotoneIff(s.g, r.g, s.target as real, r.target as real);
    }
  }

  lemma LevelMonotone(s: State, r: State)
    requires Reachable(s) && Reachable(r) && s.g <= r.g
    ensures Level(s.g) <= Level(r.g) <= 4015
  {
    LevelInRange(s);
    LevelInRange(r);
    RoundHalfAwayMonotone(s.g, r.g);
  }

  lemma LevelsKeepOrder(s: State, r: State, recv: Option<string>, recv': Option<string>)
    requires Reachable(s) && Reachable(r) && Darker(s, r)
    requires Accepted(recv).Some? == Accepted(recv').Some?
    requires Accepted(recv).Some? ==> 0 <= Accepted(recv).value <= Accepted(recv').value < 0x1_0000
    ensures var s2, r2 := AfterRamp(AfterPoll(s, recv)), AfterRamp(AfterPoll(r, recv'));
            Reachable(s2) && Reachable(r2) && Darker(s2, r2)
  {
    hide Accepted, Step, Target, Average, BrightnessMap;
    PollKeepsOrder(s, r, recv, recv');
    RampKeepsOrder(AfterPoll(s, recv), AfterPoll(r, recv'));
    RampKeepsLevels(s, recv);
    RampKeepsLevels(r, recv');
  }

  lemma TickKeepsOrder(trims: Trims, s: State, r: State, e: Event, f: Event)
    requires Reachable(s) && Reachable(r) && Darker(s, r)
    requires e.Tick? && CountEvent(e) && CountEvent(f) && NoBrighter(e, f)
    ensures Darker(After(trims, s, e), After(trims, r, f))
  {
    hide Reachable, Darker, AfterFrame, AfterRamp, AfterPoll, Accepted;
    LevelsKeepOrder(s, r, e.recv, f.recv);
    var s2, r2 := AfterRamp(AfterPoll(s, e.recv)), AfterRamp(AfterPoll(r, f.recv));
    FrameKeepsOrder(trims, s2, r2, e.t, e.writeOk, e.unblankOk);
  }

  lemma FrameKeepsOrder(trims: Trims, s: State, r: State, t: Time, writeOk: bool, unblankOk: bool)
    requires Reachable(s) && Reachable(r) && Darker(s, r)
    ensures Darker(AfterFrame(trims, s, t, writeOk, unblankOk), AfterFrame(trims, r, t, writeOk, unblankOk))
  {
    LevelMonotone(s, r);
    FramesKeepOrder(trims, s, r, t);
  }

  lemma FramesKeepOrder(trims: Trims, s: State, r: State, t: Time)
    requires Reachable(s) && Reachable(r) && Level(s.g) <= Level(r.g) <= 4015
    ensures PointwiseAtMost(Render(trims, t, Level(s.g), s.buf), Render(trims, t, Level(r.g), r.buf))
  {
    RenderForgets(trims, t, Level(s.g), s.buf);
    RenderForgets(trims, t, Level(r.g), r.buf);
    forall c: nat | c < CHANNELS
      ensures FrameOf(trims, t, Level(s.g))[c] <= FrameOf(trims, t, Level(r.g))[c]
    {
      FrameMonotone(trims, t, Level(s.g), Level(r.g), c);
    }
  }

  lemma {:induction false} RunsKeepOrder(trims: Trims, garbage: Frame, e: seq<Event>, f: seq<Event>)
    requires CountEvents(e) && CountEvents(f) && NoBrighterEvents(e, f)
    ensures Darker(Run(trims, Boot(garbage), e), Run(trims, Boot(garbage), f))
  {
    if e != [] {
      var n := |e| - 1;
      RunsKeepOrder(trims, garbage, e[..n], f[..n]);
      var s, r := Run(trims, Boot(garbage), e[..n]), Run(trims, Boot(garbage), f[..n]);
      ReachableFromBoot(trims, garbage, e[..n]);
      ReachableFromBoot(trims, garbage, f[..n]);
      assert NoBrighter(e[n], f[n]);
      if e[n].Tick? {
        TickKeepsOrder(trims, s, r, e[n], f[n]);
      }
    }
  }

  /**
   The comparison principle: two runs from boot with the same times, acceptances and write outcomes; if
   the second one's readings are pointwise no smaller, then after every event its average, target, level
   and every channel of its frame and its latch are no smaller.
  */
  lemma ComparisonPrinciple(trims: Trims, garbage: Frame, e: seq<Event>, f: seq<Event>)
    requires CountEvents(e) && CountEvents(f) && NoBrighterEvents(e, f)
    ensures var s, r := Run(trims, Boot(garbage), e), Run(trims, Boot(garbage), f);
            && Darker(s, r)
            && (s.history != [] ==> Average(s.history) <= Average(r.history))
  {
    RunsKeepOrder(trims, garbage, e, f);
    ReachableFromBoot(trims, garbage, e);
    ReachableFromBoot(trims, garbage, f);
    var h, k := Run(trims, Boot(garbage), e).history, Run(trims, Boot(garbage), f).history;
    if h != [] {
      TargetMonotone(h, k);
    }
  }

  // ---------------------------------------------------------------- cadence

  /** Whatever the run brings, readings included, the target is the same after every event as before the first. */
  ghost predicate TargetStands(trims: Trims, s: State, events: seq<Event>) {
    forall n: nat :: n <= |events| ==> Run(trims, s, events[..n]).target == s.target
  }

  function Ticks(events: seq<Event>): nat {
    if events == [] then 0
    else Ticks(events[..|events| - 1]) + if events[|events| - 1].Tick? then 1 else 0
  }

  lemma StandsInPrefix(trims: Trims, s: State, events: seq<Event>, n: nat)
    requires TargetStands(trims, s, events) && n <= |events|
    ensures TargetStands(trims, s, events[..n])
    ensures Run(trims, s, events[..n]).target == s.target
  {
    forall k: nat | k <= n
      ensures Run(trims, s, events[..n][..k]).target == s.target
    {
      assert events[..n][..k] == events[..k];
    }
  }

  /** While the target stands the level moves by the ramp alone, whatever readings and glitches come. */
  lemma {:induction false} StandingRunIsRamp(trims: Trims, s: State, events: seq<Event>)
    requires s.dynamic && s.history != [] && TargetStands(trims, s, events)
    ensures var r := Run(trims, s, events);
            r.dynamic && r.history != [] && r.target == s.target
            && r.g == StepN(s.g, s.target as real, Ticks(events))
  {
    hide TargetStands, Step, Accepted, Target;
    if events != [] {
      var n := |events| - 1;
      StandsInPrefix(trims, s, events, n);
      StandsInPrefix(trims, s, events, n + 1);
      assert events[..n + 1] == events;
      StandingRunIsRamp(trims, s, events[..n]);
    }
  }

  /** The loop idles before the first reading, and once a target has stood for 144 ticks. */
  lemma StandingLoopIdles(trims: Trims, s: State, events: seq<Event>)
    requires Reachable(s) && TargetStands(trims, s, events)
    ensures s.history == [] ==> !FastTick(s)
    ensures s.history != [] && Ticks(events) >= 144 ==>
              var r := Run(trims, s, events); r.g == r.target as real && !FastTick(r)
  {
    hide TargetStands, Run;
    if s.history != [] && Ticks(events) >= 144 {
      StandingRunIsRamp(trims, s, events);
      AnyTargetFromBoot(s.g, s.target as real, Ticks(events));
      RoundInteger(s.target);
    }
  }

  /** How many ticks of the run end with the fast sleep. */
  ghost function FastTicksIn(trims: Trims, s: State, events: seq<Event>): nat {
    if events == [] then 0
    else
      FastTicksIn(trims, s, events[..|events| - 1])
      + if events[|events| - 1].Tick? && FastTick(Run(trims, s, events)) then 1 else 0
  }

  lemma {:induction false} FastTicksOfRamp(trims: Trims, s: State, events: seq<Event>)
    requires s.dynamic && s.history != [] && TargetStands(trims, s, events)
    ensures FastTicksIn(trims, s, events) == FastTicks(s.g, s.target, Ticks(events))
  {
    hide TargetStands, After, StepN, Step;
    if events != [] {
      var n := |events| - 1;
      StandsInPrefix(trims, s, events, n);
      FastTicksOfRamp(trims, s, events[..n]);
      StandingRunIsRamp(trims, s, events);
    }
  }

  /** However long a target stands and however many readings confirm it, at most 143 ticks are fast. */
  lemma StandingRunIsRarelyFast(trims: Trims, s: State, events: seq<Event>)
    requires Reachable(s) && s.history != [] && TargetStands(trims, s, events)
    ensures FastTicksIn(trims, s, events) <= 143
  {
    hide TargetStands;
    FastTicksOfRamp(trims, s, events);
    FastTicksBounded(s.g, s.target, Ticks(events));
  }

  /** No event of the run brings a reading. */
  predicate Quiet(events: seq<Event>) {
    forall i :: 0 <= i < |events| ==> events[i].Tick? ==> Accepted(events[i].recv).None?
  }

  lemma {:induction false} QuietKeepsTarget(trims: Trims, s: State, events: seq<Event>)
    requires Quiet(events)
    ensures Run(trims, s, events).target == s.target && Run(trims, s, events).history == s.history
  {
    if events != [] {
      QuietKeepsTarget(trims, s, events[..|events| - 1]);
    }
  }

  /** A run without new readings is one case of a standing target. */
  lemma QuietTargetStands(trims: Trims, s: State, events: seq<Event>)
    requires Quiet(events)
    ensures TargetStands(trims, s, events)
  {
    forall n: nat | n <= |events|
      ensures Run(trims, s, events[..n]).target == s.target
    {
      QuietKeepsTarget(trims, s, events[..n]);
    }
  }

  // -------------------------------------------------------- equal readings

  /** Every reading the run accepts is the same count. */
  predicate Repeats(events: seq<Event>, count: int) {
    forall i :: 0 <= i < |events| ==> events[i].Tick? ==>
      Accepted(events[i].recv) == None || Accepted(events[i].recv) == Some(count)
  }

  function Readings(events: seq<Event>): nat {
    if events == [] then 0
    else
      var e := events[|events| - 1];
      Readings(events[..|events| - 1]) + if e.Tick? && Accepted(e.recv).Some? then 1 else 0
  }

  function Copies(count: int, n: nat): seq<int> {
    if n == 0 then [] else Copies(count, n - 1) + [count]
  }

  lemma {:induction false} HistoryRepeats(trims: Trims, s: State, events: seq<Event>, count: int)
    requires Repeats(events, count)
    ensures Run(trims, s, events).history == s.history + Copies(count, Readings(events))
  {
    hide Accepted, Target, Step, Render;
    if events != [] {
      HistoryRepeats(trims, s, events[..|events| - 1], count);
    }
  }

  lemma CopiesSettle(past: seq<int>, count: uint16, n: nat)
    requires n >= 3
    ensures Target(past + Copies(count, n)) == BrightnessMap(count as real)
  {
    hide Target;
    var early := past + Copies(count, n - 3);
    assert Copies(count, n) == Copies(count, n - 1) + [count];
    assert Copies(count, n - 1) == Copies(count, n - 2) + [count];
    assert Copies(count, n - 2) == Copies(count, n - 3) + [count];
    assert past + Copies(count, n) == early + [count, count, count];
    ThreeEqualReadings(early, count);
  }

  lemma {:induction false} TargetIsOfHistory(trims: Trims, s: State, events: seq<Event>)
    requires s.dynamic && (s.history != [] ==> s.target == Target(s.history))
    ensures var r := Run(trims, s, events); r.dynamic && (r.history != [] ==> r.target == Target(r.history))
  {
    hide Accepted, Target, Step, Render;
    if events != [] {
      TargetIsOfHistory(trims, s, events[..|events| - 1]);
    }
  }

  /** From the third equal reading on the target is the map of that count. */
  lemma EqualReadingsFixTarget(trims: Trims, s: State, events: seq<Event>, count: uint16)
    requires Reachable(s) && Repeats(events, count) && Readings(events) >= 3
    ensures var r := Run(trims, s, events); r.history != [] && r.target == BrightnessMap(count as real)
  {
    hide Target, BrightnessMap, Run;
    HistoryRepeats(trims, s, events, count);
    TargetIsOfHistory(trims, s, events);
    CopiesSettle(s.history, count, Readings(events));
  }

  lemma {:induction false} RunInTwo(trims: Trims, s: State, pre: seq<Event>, post: seq<Event>)
    ensures Run(trims, Run(trims, s, pre), post) == Run(trims, s, pre + post)
    ensures Readings(pre + post) == Readings(pre) + Readings(post)
  {
    hide After;
    if post == [] {
      assert pre + post == pre;
    } else {
      assert (pre + post)[..|pre + post| - 1] == pre + post[..|post| - 1];
      RunInTwo(trims, s, pre, post[..|post| - 1]);
    }
  }

  /** After three equal readings more of the same leave the target alone. */
  lemma EqualReadingsKeepTarget(trims: Trims, s: State, pre: seq<Event>, post: seq<Event>, count: uint16)
    requires Reachable(s) && Repeats(pre, count) && Repeats(post, count) && Readings(pre) >= 3
    ensures TargetStands(trims, Run(trims, s, pre), post)
  {
    hide Run, BrightnessMap, Readings, Reachable;
    forall n: nat | n <= |post|
      ensures Run(trims, Run(trims, s, pre), post[..n]).target == Run(trims, s, pre).target
    {
      RunInTwo(trims, s, pre, post[..n]);
      EqualReadingsFixTarget(trims, s, pre, count);
      EqualReadingsFixTarget(trims, s, pre + post[..n], count);
    }
  }

  /**
   Three equal readings and 144 more ticks, with any losses and glitches and any further readings of the same
   count in between: the next frame written is the one of the count's target, and the loop idles.
  */
  lemma EqualReadingsSettle(trims: Trims, s: State, pre: seq<Event>, post: seq<Event>, last: Event, count: uint16)
    requires Reachable(s) && Repeats(pre, count) && Readings(pre) >= 3
    requires Repeats(post + [last], count) && Ticks(post) >= 144 && last.Tick? && last.writeOk
    ensures var shown := After(trims, Run(trims, Run(trims, s, pre), post), last);
            var target := BrightnessMap(count as real);
            && 25 <= target <= 4015 && shown.g == target as real
            && shown.latch == FrameOf(trims, last.t, target) && !FastTick(shown)
  {
    hide Run, After, BrightnessMap, Readings, Reachable, TargetStands, FrameOf, FastTick, Ticks;
    assert Repeats(post, count) by { assert forall i :: 0 <= i < |post| ==> (post + [last])[i] == post[i]; }
    var r := Run(trims, s, pre);
    EqualReadingsFixTarget(trims, s, pre, count);
    EqualReadingsKeepTarget(trims, s, pre, post, count);
    EqualReadingsKeepTarget(trims, s, pre, post + [last], count);
    StandsInPrefix(trims, r, post + [last], |post| + 1);
    assert (post + [last])[..|post| + 1] == post + [last];
    RunOneMore(trims, r, post, last);
    CountsRepeat(pre, count);
    CountsRepeat(post + [last], count);
    assert CountEvents(post) by { assert forall i :: 0 <= i < |post| ==> (post + [last])[i] == post[i]; }
    assert CountEvent(last) by { assert (post + [last])[|post|] == last; }
    RunFromReachable(trims, s, pre);
    RunFromReachable(trims, r, post);
    StandingLoopIdles(trims, r, post);
    StandsInPrefix(trims, r, post, |post|);
    assert post[..|post|] == post;
    StandingRunIsRamp(trims, r, post);
    ShowsTarget(trims, Run(trims, r, post), last);
  }

  lemma CountsRepeat(events: seq<Event>, count: uint16)
    requires Repeats(events, count)
    ensures CountEvents(events)
  {
  }

  lemma RunOneMore(trims: Trims, s: State, events: seq<Event>, e: Event)
    ensures Run(trims, s, events + [e]) == After(trims, Run(trims, s, events), e)
  {
    assert (events + [e])[..|events + [e]| - 1] == events;
  }

  /** A state at its target shows it with the next write, if the target stays. */
  lemma ShowsTarget(trims: Trims, q: State, last: Event)
    requires Reachable(q) && q.history != [] && q.g == q.target as real
    requires last.Tick? && last.writeOk && CountEvent(last) && After(trims, q, last).target == q.target
    ensures var shown := After(trims, q, last);
            && 25 <= q.target <= 4015 && shown.g == q.target as real
            && shown.latch == FrameOf(trims, last.t, q.target) && !FastTick(shown)
  {
    hide Accepted, Target, Render, FrameOf, UndrivenDark;
    TickRenders(trims, q, last);
    RoundInteger(q.target);
  }

  /**
   After a reading the loop idles exactly while the level is within half a unit of its target, and is then one step
   from exact.
  */
  lemma IdleIsSettled(s: State)
    requires Reachable(s) && s.history != []
    ensures !FastTick(s) <==> s.target as real - 0.5 <= s.g < s.target as real + 0.5
    ensures !FastTick(s) ==> Step(s.g, s.target as real) == s.target as real
  {
    IdleMeansSettled(s.g, s.target);
  }

  // ------------------------------------------------------------- fixed levels

  /** `clock -t -g` after spi_init: a level given once and for all. */
  function Fixed(level: int, garbage: Frame): State {
    State(false, [], level as real, 0, Dark(), garbage, false, true)
  }

  /** A fixed level stays: whatever is received, nothing ramps it, nothing sets a target, and the loop idles. */
  lemma {:induction false} FixedLevelStays(trims: Trims, s: State, events: seq<Event>)
    requires !s.dynamic
    ensures var r := Run(trims, s, events);
            !r.dynamic && r.g == s.g && r.target == s.target && !FastTick(r)
  {
    hide Accepted, Target, Step, Render;
    if events != [] {
      FixedLevelStays(trims, s, events[..|events| - 1]);
    }
  }

  lemma {:induction false} UndrivenStaysDark(trims: Trims, s: State, events: seq<Event>)
    requires UndrivenDark(s.buf)
    ensures UndrivenDark(Run(trims, s, events).buf)
  {
    hide Accepted, Target, Step, Render, UndrivenDark;
    if events != [] {
      var n := |events| - 1;
      var r := Run(trims, s, events[..n]);
      UndrivenStaysDark(trims, s, events[..n]);
      if events[n].Tick? {
        var p := AfterRamp(AfterPoll(r, events[n].recv));
        RenderForgets(trims, events[n].t, Level(p.g), p.buf);
      }
    }
  }

  /** Every frame a run at a fixed level writes is the one of its time and that level. */
  lemma FixedFrames(trims: Trims, level: uint16, garbage: Frame, events: seq<Event>, e: Event)
    requires e.Tick? && e.writeOk
    ensures var r := After(trims, Run(trims, Fixed(level, garbage), events), e);
            r.latch == r.buf == FrameOf(trims, e.t, level)
  {
    hide Run, Accepted, Target, Step, Render, FrameOf, UndrivenDark;
    var s := Fixed(level, garbage);
    var r := Run(trims, s, events);
    FixedLevelStays(trims, s, events);
    assert UndrivenDark(s.buf) by { DarkIsDark(); }
    UndrivenStaysDark(trims, s, events);
    RoundInteger(level);
    RenderForgets(trims, e.t, level, r.buf);
  }

  lemma DarkIsDark()
    ensures UndrivenDark(Dark())
  {
  }

  // ------------------------------------------------- glitches and self-healing

  /** The same run without its glitches. */
  function Calm(events: seq<Event>): seq<Event> {
    if events == [] then []
    else
      Calm(events[..|events| - 1]) + if events[|events| - 1].Tick? then [events[|events| - 1]] else []
  }

  lemma EventIgnoresLatch(trims: Trims, s: State, latch: Frame, e: Event)
    requires e.Tick?
    ensures After(trims, s.(latch := latch), e)
         == After(trims, s, e).(latch := After(trims, s.(latch := latch), e).latch)
  {
    hide Accepted, Target, Step, Render;
  }

  /** Glitches and the power-up contents of the latch never reach anything but the latch. */
  lemma {:induction false} OnlyTheLatch(trims: Trims, garbage: Frame, other: Frame, events: seq<Event>)
    ensures Run(trims, Boot(garbage), events)
         == Run(trims, Boot(other), Calm(events)).(latch := Run(trims, Boot(garbage), events).latch)
  {
    hide AfterTick;
    if events != [] {
      var init, e := events[..|events| - 1], events[|events| - 1];
      OnlyTheLatch(trims, garbage, other, init);
      var s := Run(trims, Boot(other), Calm(init));
      if e.Tick? {
        assert Calm(events)[..|Calm(events)| - 1] == Calm(init);
        EventIgnoresLatch(trims, s, Run(trims, Boot(garbage), init).latch, e);
      } else {
        assert Calm(events) == Calm(init);
      }
    }
  }

  /**
   Self-healing: after any run with any glitches, a tick that writes leaves the latch with the frame of that
   tick's time and of the level the run would have had without a single glitch.
  */
  lemma SelfHealing(trims: Trims, garbage: Frame, other: Frame, events: seq<Event>, e: Event)
    requires CountEvents(events) && CountEvent(e) && e.Tick? && e.writeOk
    ensures var healed := Run(trims, Boot(garbage), events + [e]);
            var calm := Run(trims, Boot(other), Calm(events) + [e]);
            healed.latch == FrameOf(trims, e.t, Level(calm.g)) && healed == calm
  {
    var s := Run(trims, Boot(garbage), events);
    assert (events + [e])[..|events|] == events;
    assert (Calm(events) + [e])[..|Calm(events)|] == Calm(events);
    ReachableFromBoot(trims, garbage, events);
    TickRenders(trims, s, e);
    OnlyTheLatch(trims, garbage, other, events);
  }

  // ------------------------------------------------------------- unblanking

  /** Some earlier tick of the run rendered this frame. */
  ghost predicate RenderedIn(trims: Trims, garbage: Frame, events: seq<Event>, frame: Frame) {
    exists k: nat :: k < |events| && events[k].Tick? && Run(trims, Boot(garbage), events[..k + 1]).buf == frame
  }

  /** A glitch has hit the latch and no write has got through since. */
  predicate Glitched(events: seq<Event>) {
    if events == [] then false
    else
      var e := events[|events| - 1];
      e.Glitch? || (!e.writeOk && Glitched(events[..|events| - 1]))
  }

  /** A write has got through and no glitch has come after it. */
  predicate WrittenSinceGlitch(events: seq<Event>) {
    if events == [] then false
    else
      var e := events[|events| - 1];
      e.Tick? && (e.writeOk || WrittenSinceGlitch(events[..|events| - 1]))
  }

  function FirstTick(events: seq<Event>): Option<Event> {
    if events == [] then None
    else
      match FirstTick(events[..|events| - 1])
      case Some(e) => Some(e)
      case None => if events[|events| - 1].Tick? then Some(events[|events| - 1]) else None
  }

  /** Except between a glitch and the next write, an unblanked display never shows anything but a rendered frame. */
  ghost predicate NeverShowsGarbage(trims: Trims, garbage: Frame, events: seq<Event>) {
    forall k: nat :: k <= |events| ==>
      var s := Run(trims, Boot(garbage), events[..k]);
      s.unblanked && !Glitched(events[..k]) ==> RenderedIn(trims, garbage, events[..k], s.latch)
  }

  /** The display is unblanked only by the first tick, after its write attempt, whatever glitches come. */
  lemma {:induction false} UnblankedByFirstTick(trims: Trims, garbage: Frame, events: seq<Event>)
    ensures var s, first := Run(trims, Boot(garbage), events), FirstTick(events);
            && (first.Some? ==> first.value.Tick?)
            && (s.first <==> first.None?)
            && (s.unblanked <==> first.Some? && first.value.unblankOk)
  {
    hide Accepted, Target, Step, Render;
    if events != [] {
      UnblankedByFirstTick(trims, garbage, events[..|events| - 1]);
    }
  }

  lemma RenderedStays(trims: Trims, garbage: Frame, events: seq<Event>, n: nat, frame: Frame)
    requires n <= |events| && RenderedIn(trims, garbage, events[..n], frame)
    ensures RenderedIn(trims, garbage, events, frame)
  {
    var k: nat :| k < n && events[..n][k].Tick? && Run(trims, Boot(garbage), events[..n][..k + 1]).buf == frame;
    assert events[..n][..k + 1] == events[..k + 1];
  }

  /** Once a write has got through, and until the next glitch, the latch holds a frame the run rendered. */
  lemma {:induction false} LatchIsRendered(trims: Trims, garbage: Frame, events: seq<Event>)
    requires WrittenSinceGlitch(events)
    ensures RenderedIn(trims, garbage, events, Run(trims, Boot(garbage), events).latch)
  {
    hide AfterPoll, AfterRamp, Render, RenderedIn;
    var n := |events| - 1;
    if events[n].writeOk {
      assert events[..n + 1] == events;
      LastRendered(trims, garbage, events);
    } else {
      LatchIsRendered(trims, garbage, events[..n]);
      RenderedStays(trims, garbage, events, n, Run(trims, Boot(garbage), events[..n]).latch);
      FailedWrite(trims, Run(trims, Boot(garbage), events[..n]), events[n]);
    }
  }

  lemma LastRendered(trims: Trims, garbage: Frame, events: seq<Event>)
    requires events != [] && events[|events| - 1].Tick?
    ensures RenderedIn(trims, garbage, events, Run(trims, Boot(garbage), events).buf)
  {
    assert events[..|events| - 1 + 1] == events;
  }

  /** A run that is neither glitched nor written since has only seen ticks whose write failed. */
  lemma {:induction false} NothingWrittenYet(events: seq<Event>)
    requires !Glitched(events) && !WrittenSinceGlitch(events)
    ensures events != [] ==> events[0].Tick? && !events[0].writeOk && FirstTick(events) == Some(events[0])
    ensures events == [] ==> FirstTick(events) == None
  {
    if |events| > 1 {
      NothingWrittenYet(events[..|events| - 1]);
    }
  }

  predicate TwelveBit(frame: Frame) {
    forall c :: 0 <= c < CHANNELS ==> 0 <= frame[c] <= 4095
  }

  /** A latch that powered up with every bit set: no frame of the loop lights the undriven channel 40. */
  function AllOn(): (frame: Frame)
    ensures TwelveBit(frame) && frame[40] == 4095
  {
    seq(CHANNELS, _ => 4095)
  }

  /**
   The code unblanks after the first write attempt without looking at its outcome. So, whatever glitches come,
   an unblanked display never shows what the 12-bit latches powered up with if and only if it is not the case
   that the run starts with a tick whose write fails and whose unblanking succeeds.
  */
  lemma UnblankSafeIff(trims: Trims, events: seq<Event>)
    requires CountEvents(events)
    ensures (forall garbage: Frame :: TwelveBit(garbage) ==> NeverShowsGarbage(trims, garbage, events))
       <==> !(events != [] && events[0].Tick? && !events[0].writeOk && events[0].unblankOk)
  {
    hide Run, RenderedIn, Glitched, WrittenSinceGlitch, FirstTick;
    if events != [] && events[0].Tick? && !events[0].writeOk && events[0].unblankOk {
      FirstWriteLost(trims, events);
      assert !NeverShowsGarbage(trims, AllOn(), events);
    } else {
      forall garbage: Frame
        ensures NeverShowsGarbage(trims, garbage, events)
      {
        forall k: nat | k <= |events|
          ensures var s := Run(trims, Boot(garbage), events[..k]);
                  s.unblanked && !Glitched(events[..k]) ==> RenderedIn(trims, garbage, events[..k], s.latch)
        {
          ShownIsRendered(trims, garbage, events, k);
        }
      }
    }
  }

  lemma ShownIsRendered(trims: Trims, garbage: Frame, events: seq<Event>, k: nat)
    requires !(events != [] && events[0].Tick? && !events[0].writeOk && events[0].unblankOk) && k <= |events|
    ensures var s := Run(trims, Boot(garbage), events[..k]);
            s.unblanked && !Glitched(events[..k]) ==> RenderedIn(trims, garbage, events[..k], s.latch)
  {
    hide Run, RenderedIn, Glitched, WrittenSinceGlitch, FirstTick;
    UnblankedByFirstTick(trims, garbage, events[..k]);
    if WrittenSinceGlitch(events[..k]) {
      LatchIsRendered(trims, garbage, events[..k]);
    } else if !Glitched(events[..k]) {
      NothingWrittenYet(events[..k]);
    }
  }

  lemma FirstWriteLost(trims: Trims, events: seq<Event>)
    requires events != [] && CountEvents(events)
    requires events[0].Tick? && !events[0].writeOk && events[0].unblankOk
    ensures var s := Run(trims, Boot(AllOn()), events[..1]);
            s.unblanked && !Glitched(events[..1]) && !RenderedIn(trims, AllOn(), events[..1], s.latch)
  {
    var one, boot := events[..1], Boot(AllOn());
    assert one == [events[0]];
    OneEvent(trims, boot, events[0]);
    FailedWrite(trims, boot, events[0]);
    ReachableFromBoot(trims, AllOn(), one);
    var s := Run(trims, boot, one);
    assert s.buf[40] == 0 && s.latch[40] == 4095;
    assert one[..1] == one && one[..0] == [];
  }

  lemma OneEvent(trims: Trims, s: State, e: Event)
    ensures Run(trims, s, [e]) == After(trims, s, e)
  {
    assert [e][..0] == [];
  }

  lemma FailedWrite(trims: Trims, s: State, e: Event)
    requires e.Tick? && !e.writeOk
    ensures After(trims, s, e).latch == s.latch
    ensures After(trims, s, e).unblanked == (s.unblanked || (s.first && e.unblankOk))
  {
  }
}
