/**
 When does more light show less? The clock maps raw counts, whatever gain they were taken with, so the display can
 get darker with more light. These theorems say exactly when, for settled light and for whole runs.
*/
module LightTheorems {
  import opened Basics
  import opened Lux
  import opened Driver
  import opened DriverTheorems
  import opened Daemon
  import opened Ambient
  import opened Display
  import opened Pipeline
  import opened Telemetry
  import opened Wire
  import C = Clock
  import CT = ClockTheorems

  // ------------------------------------------------ the gain over many samples

  /** The light at the first reading of the sample taken next, three transactions after the time is set. */
  function NextLight(w: World, s: Cache): (nat, nat) {
    (w.light0(s.device.step + 5), w.light1(s.device.step + 5))
  }

  /** One clean sample, however the light moves meanwhile, decides its gain on its first reading. */
  lemma CleanSampleGain(w: World, strerror: int -> string, c: Cache)
    requires DaemonAt(c.device, c.device.gain) && Clean(w, 0, Sample(w, strerror, c).device.step)
    ensures var d := Sample(w, strerror, c).device;
            && d.time == Ms402 && Shadowed(d) && d.gain == Verdict(Ms402, c.device.gain, NextLight(w, c).0)
            && c.device.step + 9 <= d.step
  {
    hide SenseLight, SetIntegrationTime, Line, ChipCount, Verdict, Clean;
    var d1 := SetIntegrationTime(w, c.device, Ms402).0;
    var end := Sample(w, strerror, c).device.step;
    SampleFollows(w, strerror, c);
    CleanPart(w, 0, end, c.device.step, d1.step);
    CleanSetTime(w, c.device);
    CleanPart(w, 0, end, d1.step, end);
    CleanCallGain(w, d1);
  }

  /** The lights that decide the gains of the samples after number n, up to number p. */
  function DecidingLights(w: World, strerror: int -> string, timing: nat, n: nat, p: nat): (lights: seq<(nat, nat)>)
    requires n <= p
    ensures |lights| == p - n
  {
    if n == p then []
    else
      DecidingLights(w, strerror, timing, n, p - 1) + [NextLight(w, Sampled(w, strerror, Started(w, timing), p - 1))]
  }

  lemma CleanEarlier(w: World, strerror: int -> string, timing: nat, n: nat, p: nat)
    requires n <= p && Clean(w, 0, Sampled(w, strerror, Started(w, timing), p).device.step)
    ensures Clean(w, 0, Sampled(w, strerror, Started(w, timing), n).device.step)
  {
    hide Sampled, Started;
    StepsGrow(w, strerror, timing, n, p);
  }

  lemma CleanStart(w: World, timing: nat)
    requires Clean(w, 0, Started(w, timing).device.step)
    ensures var d := Started(w, timing).device; DaemonAt(d, X1) && d.step == 9
  {
    hide SetGain, SetIntegrationTime, Clean;
    var end, d0 := Started(w, timing).device.step, Init(timing).(isOpen := true);
    var d1 := SetIntegrationTime(w, d0, Ms402).0;
    var d2 := SetGain(w, d1, X16).0;
    SetTimeFollows(w, d0, Ms402);
    SetGainFollows(w, d1, X16);
    SetGainFollows(w, d2, X1);
    CleanPart(w, 0, end, d0.step, d1.step);
    CleanSetTime(w, d0);
    CleanPart(w, 0, end, d1.step, d2.step);
    SteadyGainChange(w, d1, X16);
    CleanPart(w, 0, end, d2.step, end);
    SteadyGainChange(w, d2, X1);
  }

  /** As long as nothing fails, the gain follows the hysteresis band over the samples, under any light. */
  lemma {:induction false} GainAfterSamples(w: World, strerror: int -> string, timing: nat, n: nat, p: nat)
    requires n <= p && Clean(w, 0, Sampled(w, strerror, Started(w, timing), p).device.step)
    ensures Sampled(w, strerror, Started(w, timing), p).device.gain ==
            LastVerdict(Ms402, Sampled(w, strerror, Started(w, timing), n).device.gain,
                        DecidingLights(w, strerror, timing, n, p))
    decreases p
  {
    hide Sample, Started, Clean, Verdict, DaemonAt, NextLight;
    if n < p {
      var c := Sampled(w, strerror, Started(w, timing), p - 1);
      CleanEarlier(w, strerror, timing, p - 1, p);
      GainAfterSamples(w, strerror, timing, n, p - 1);
      AlwaysAt402(w, strerror, timing, p - 1);
      CleanSampleGain(w, strerror, c);
      var lights := DecidingLights(w, strerror, timing, n, p);
      assert lights[..|lights| - 1] == DecidingLights(w, strerror, timing, n, p - 1);
    }
  }

  predicate LightsWithin(lights: seq<(nat, nat)>, less: nat, more: nat) {
    forall i :: 0 <= i < |lights| ==> less <= lights[i].0 <= more
  }

  /** 16X is only left above the high threshold, 1X only below sixteen times the low one. */
  lemma {:induction false} GainIsKept(lights: seq<(nat, nat)>, less: nat, more: nat)
    requires LightsWithin(lights, less, more)
    ensures more <= 63000 ==> LastVerdict(Ms402, X16, lights) == X16
    ensures less >= 8000 ==> LastVerdict(Ms402, X1, lights) == X1
  {
    if lights != [] {
      GainIsKept(lights[..|lights| - 1], less, more);
    }
  }

  /** Steady light on a working bus takes the gain to the band's verdict, in particular to 16X below 8000. */
  lemma GainAfterSteadyLight(w: World, strerror: int -> string, timing: nat, m: nat, n: nat, light: (nat, nat))
    requires m < n && SteadySince(w, strerror, timing, m, n, light)
    requires Clean(w, 0, Sampled(w, strerror, Started(w, timing), n).device.step)
    ensures var before := Sampled(w, strerror, Started(w, timing), m).device.gain;
            var after := Sampled(w, strerror, Started(w, timing), n).device.gain;
            after == Verdict(Ms402, before, light.0) && (light.0 < 8000 ==> after == X16)
  {
    hide Sample, Started, Clean, SteadySince, SettledCount;
    SteadySamples(w, strerror, timing, m, n, light);
  }

  /**
   Under steady light the line of every later sample tells both readers the settled counts of both channels and
   their lux, until something fails.
  */
  lemma SteadyLux(w: World, strerror: int -> string, timing: nat, m: nat, n: nat, light: (nat, nat))
    requires ErrorTable(strerror) && m < n && SteadySince(w, strerror, timing, m, n, light)
    requires Clean(w, 0, Sampled(w, strerror, Started(w, timing), n).device.step)
    ensures var gain := Sampled(w, strerror, Started(w, timing), m).device.gain;
            var line := Sampled(w, strerror, Started(w, timing), n).line;
            && ParseLux(line) == Some(SettledLux(gain, light))
            && ParseLine(line) == Some(Parsed(SettledCount(gain, light.0),
                                              ChipCount(TimingCode(Ms402, Verdict(Ms402, gain, light.0)), light.1),
                                              SettledLux(gain, light)))
  {
    hide Sample, Started, Clean, ParseLine, ParseLux, Line, ChipCount, CalculateLux, Verdict, NoLabel;
    var s, c := Sampled(w, strerror, Started(w, timing), n), Sampled(w, strerror, Started(w, timing), n - 1);
    assert s == Sample(w, strerror, c);
    StepsGrow(w, strerror, timing, m, n - 1);
    SteadySamples(w, strerror, timing, m, n, light);
    ServedLux(w, strerror, timing, n);
    AlwaysAt402(w, strerror, timing, n - 1);
    CleanSampleGain(w, strerror, c);
    TimingOf402(s.device);
    assert w.light1(s.device.step - 2) == light.1;
  }

  /** For example, light 7000 without infrared is 213 lux, whichever gain it is met at. */
  lemma SettledLuxOf7000(gain: Gain)
    ensures SettledLux(gain, (7000, 0)) == 213
  {
    hide CalculateLux;
    StaleLux();
  }

  // -------------------------------------------------------- settled light

  /**
   Of two settled lights, met at any two gains, the brighter has the lower target exactly if the dimmer is read at 16X
   and the brighter at 1X, and the sixteenth of the brighter is smaller than the dimmer and below the 849 counts that
   saturate the map.
  */
  lemma DarkerIff(g: Gain, less: nat, h: Gain, more: nat)
    requires less <= more
    ensures SettledTarget(g, less) > SettledTarget(h, more) <==>
              && Verdict(Ms402, g, less) == X16 && Verdict(Ms402, h, more) == X1
              && more / 16 < less && more / 16 < 849
  {
    hide BrightnessMap;
    MapOnCounts(SettledCount(h, more), SettledCount(g, less));
  }

  /**
   Two phases of steady light in one run, in either order and with anything in between: the brighter one settles on
   the lower target exactly if the dimmer phase ends at 16X and the brighter at 1X, with the counts that differ.
  */
  lemma BrighterPhaseDarkerIff(w: World, strerror: int -> string, timing: nat,
                               m: nat, n: nat, less: (nat, nat), p: nat, q: nat, more: (nat, nat))
    requires m < n && SteadySince(w, strerror, timing, m, n, less)
    requires p < q && SteadySince(w, strerror, timing, p, q, more) && less.0 <= more.0
    requires Clean(w, 0, Sampled(w, strerror, Started(w, timing), n).device.step)
    requires Clean(w, 0, Sampled(w, strerror, Started(w, timing), q).device.step)
    ensures var dimmer := SettledTarget(Sampled(w, strerror, Started(w, timing), m).device.gain, less.0);
            var brighter := SettledTarget(Sampled(w, strerror, Started(w, timing), p).device.gain, more.0);
            dimmer > brighter <==>
              && Sampled(w, strerror, Started(w, timing), n).device.gain == X16
              && Sampled(w, strerror, Started(w, timing), q).device.gain == X1
              && more.0 / 16 < less.0 && more.0 / 16 < 849
  {
    hide Sampled, Started, Clean, SteadySince, SettledTarget, Verdict;
    GainAfterSteadyLight(w, strerror, timing, m, n, less);
    GainAfterSteadyLight(w, strerror, timing, p, q, more);
    DarkerIff(Sampled(w, strerror, Started(w, timing), m).device.gain, less.0,
              Sampled(w, strerror, Started(w, timing), p).device.gain, more.0);
  }

  /**
   Light that rises from one steady value to another, at once or over any samples whose light stays between the
   two, never lowers the target: where the gain goes down the map is already saturated.
  */
  lemma RisingLightNeverDarkens(w: World, strerror: int -> string, timing: nat,
                                m: nat, n: nat, less: (nat, nat), p: nat, more: nat)
    requires m < n <= p && SteadySince(w, strerror, timing, m, n, less) && less.0 <= more
    requires LightsWithin(DecidingLights(w, strerror, timing, n, p), less.0, more)
    requires Clean(w, 0, Sampled(w, strerror, Started(w, timing), p).device.step)
    ensures SettledTarget(Sampled(w, strerror, Started(w, timing), m).device.gain, less.0)
         <= SettledTarget(Sampled(w, strerror, Started(w, timing), p).device.gain, more)
  {
    hide Sampled, Started, Clean, SteadySince, SettledTarget, DecidingLights, LastVerdict;
    CleanEarlier(w, strerror, timing, n, p);
    GainAfterSteadyLight(w, strerror, timing, m, n, less);
    GainAfterSamples(w, strerror, timing, n, p);
    GainIsKept(DecidingLights(w, strerror, timing, n, p), less.0, more);
    DarkerIff(Sampled(w, strerror, Started(w, timing), m).device.gain, less.0,
              Sampled(w, strerror, Started(w, timing), p).device.gain, more);
  }

  /**
   Light that falls from one steady value to another, at once or over any samples whose light stays between the two,
   raises the target exactly if it was read at 1X, falls below the raise threshold of 8000, and its sixteenth was
   smaller than the new light and below the 849 counts that saturate the map.
  */
  lemma FallingLightBrightensIff(w: World, strerror: int -> string, timing: nat,
                                 m: nat, n: nat, more: (nat, nat), p: nat, less: nat)
    requires m < n <= p && SteadySince(w, strerror, timing, m, n, more) && less <= more.0
    requires LightsWithin(DecidingLights(w, strerror, timing, n, p), less, more.0)
    requires Clean(w, 0, Sampled(w, strerror, Started(w, timing), p).device.step)
    ensures var before := SettledTarget(Sampled(w, strerror, Started(w, timing), m).device.gain, more.0);
            var after := SettledTarget(Sampled(w, strerror, Started(w, timing), p).device.gain, less);
            after > before <==>
              && Sampled(w, strerror, Started(w, timing), n).device.gain == X1
              && less < 8000 <= more.0 && more.0 / 16 < less && more.0 / 16 < 849
  {
    hide Sampled, Started, Clean, SteadySince, SettledTarget, DecidingLights, LastVerdict;
    CleanEarlier(w, strerror, timing, n, p);
    GainAfterSteadyLight(w, strerror, timing, m, n, more);
    GainAfterSamples(w, strerror, timing, n, p);
    GainIsKept(DecidingLights(w, strerror, timing, n, p), less, more.0);
    DarkerIff(Sampled(w, strerror, Started(w, timing), p).device.gain, less,
              Sampled(w, strerror, Started(w, timing), m).device.gain, more.0);
  }

  /** From 16X, more light never lowers the target: where the gain drops, the map is saturated. */
  lemma BrighterFrom16X(less: nat, more: nat)
    requires less <= more
    ensures SettledTarget(X16, less) <= SettledTarget(X16, more)
  {
    MapOnCounts(SettledCount(X16, more), SettledCount(X16, less));
  }

  /**
   From 1X, the gain the daemon starts with, more light lowers the target exactly in this family: the dimmer
   light is below the raise threshold of 8000, the brighter one is not, and its sixteenth is both smaller
   than the dimmer light and below the 849 counts that saturate the map.
  */
  lemma DimmerFrom1XIff(less: nat, more: nat)
    requires less <= more
    ensures SettledTarget(X1, less) > SettledTarget(X1, more)
       <==> less < 8000 <= more && more / 16 < less && more / 16 < 849
  {
    MapOnCounts(SettledCount(X1, more), SettledCount(X1, less));
  }

  /** For example, light 7999 drives the display at full brightness and light 8000 at 2375. */
  lemma HysteresisJump()
    ensures SettledTarget(X1, 7999) == 4015 && SettledTarget(X1, 8000) == 2375
  {
    assert SettledCount(X1, 7999) == 7999 && SettledCount(X1, 8000) == 500;
  }

  // ------------------------------------------------------------ concrete runs

  /** A working bus in front of a given light. */
  function FaultFree(light: nat -> nat): World {
    World(_ => 0, light, _ => 0, Conversion(0, 0, 0))
  }

  lemma NothingFails(light: nat -> nat, from: nat, to: nat)
    ensures Clean(FaultFree(light), from, to)
  {
  }

  lemma StartedStep(light: nat -> nat, timing: nat)
    ensures var d := Started(FaultFree(light), timing).device; DaemonAt(d, X1) && d.step == 9
  {
    hide Started;
    var w := FaultFree(light);
    NothingFails(light, 0, Started(w, timing).device.step);
    CleanStart(w, timing);
  }

  ghost predicate LightFrom(light: nat -> nat, from: nat, to: nat, value: nat) {
    forall k: nat :: from <= k < to ==> light(k) == value
  }

  /** One sample of such a run: how long it takes, its gain and its count. */
  lemma NextSample(light: nat -> nat, strerror: int -> string, c: Cache, value: nat)
    requires DaemonAt(c.device, c.device.gain)
    requires LightFrom(light, c.device.step, c.device.step + 3 + Duration(Ms402, c.device.gain, value), value)
    ensures var s := Sample(FaultFree(light), strerror, c);
            && SettledFrom(s, c.device.gain, value)
            && s.device.step == c.device.step + 3 + Duration(Ms402, c.device.gain, value)
  {
    hide SenseLight, SetIntegrationTime, Line, ChipCount, Clean, Duration;
    var w, n := FaultFree(light), Duration(Ms402, c.device.gain, value);
    var d1 := SetIntegrationTime(w, c.device, Ms402).0;
    NothingFails(light, c.device.step, d1.step);
    CleanSetTime(w, c.device);
    NothingFails(light, d1.step, d1.step + n);
    assert Steady(w, d1.step, d1.step + n, value, 0);
    SteadyLongEnough(w, d1, (value, 0));
    NothingFails(light, 0, Sample(w, strerror, c).device.step);
    SteadySample(w, strerror, c, c.device.gain, (value, 0));
  }

  /** 12000 in the first sample, 7000 in the second, 9000 from the third on. */
  function DipLight(k: nat): nat {
    if k < 18 then 12000 else if k < 36 then 7000 else 9000
  }

  lemma DipSamples(strerror: int -> string, timing: nat)
    ensures var w := FaultFree(DipLight);
            var c0, c1 := Sampled(w, strerror, Started(w, timing), 0), Sampled(w, strerror, Started(w, timing), 1);
            var c2 := Sampled(w, strerror, Started(w, timing), 2);
            && c0.device.gain == X1 && c0.device.step == 9 && c1.device.step == 18
            && c2.device.gain == X16 && c2.device.step == 36
  {
    hide Sample, Started, SettledCount;
    var w := FaultFree(DipLight);
    StartedStep(DipLight, timing);
    var c0 := Sampled(w, strerror, Started(w, timing), 0);
    NextSample(DipLight, strerror, c0, 12000);
    var c1 := Sampled(w, strerror, Started(w, timing), 1);
    assert c1 == Sample(w, strerror, c0);
    NextSample(DipLight, strerror, c1, 7000);
    assert Sampled(w, strerror, Started(w, timing), 2) == Sample(w, strerror, c1);
  }

  /**
   A dip in between is enough: light that goes from 12000 over 7000 to 9000 raises the target from 3550 to 4015,
   although neither steady light is below the raise threshold.
  */
  lemma DipBrightens(strerror: int -> string, timing: nat, n: nat)
    requires n > 2
    ensures var w := FaultFree(DipLight);
            && SteadySince(w, strerror, timing, 0, 1, (12000, 0)) && SteadySince(w, strerror, timing, 2, n, (9000, 0))
            && SettledTarget(Sampled(w, strerror, Started(w, timing), 0).device.gain, 12000) == 3550
            && SettledTarget(Sampled(w, strerror, Started(w, timing), 2).device.gain, 9000) == 4015
  {
    hide Sampled, Started;
    DipSamples(strerror, timing);
    assert SettledCount(X1, 12000) == 750 && SettledCount(X16, 9000) == 9000;
  }

  /** 7000 in the first sample, 10000 in the second, 64000 in the third, 12000 from the fourth on. */
  function SpikeLight(k: nat): nat {
    if k < 27 then 7000 else if k < 36 then 10000 else if k < 54 then 64000 else 12000
  }

  lemma SpikeSamples(strerror: int -> string, timing: nat)
    ensures var w := FaultFree(SpikeLight);
            var c1, c2 := Sampled(w, strerror, Started(w, timing), 1), Sampled(w, strerror, Started(w, timing), 2);
            var c3 := Sampled(w, strerror, Started(w, timing), 3);
            && c1.device.gain == X16 && c1.device.step == 27 && c2.device.step == 36
            && c3.device.gain == X1 && c3.device.step == 54
  {
    hide Sample, Started, SettledCount;
    var w := FaultFree(SpikeLight);
    StartedStep(SpikeLight, timing);
    var c0 := Sampled(w, strerror, Started(w, timing), 0);
    NextSample(SpikeLight, strerror, c0, 7000);
    var c1 := Sampled(w, strerror, Started(w, timing), 1);
    assert c1 == Sample(w, strerror, c0);
    NextSample(SpikeLight, strerror, c1, 10000);
    var c2 := Sampled(w, strerror, Started(w, timing), 2);
    assert c2 == Sample(w, strerror, c1);
    NextSample(SpikeLight, strerror, c2, 64000);
    assert Sampled(w, strerror, Started(w, timing), 3) == Sample(w, strerror, c2);
  }

  /** And a spike: light that goes from 10000 over 64000 to 12000 lowers the target from 4015 to 3550. */
  lemma SpikeDarkens(strerror: int -> string, timing: nat, n: nat)
    requires n > 3
    ensures var w := FaultFree(SpikeLight);
            && SteadySince(w, strerror, timing, 1, 2, (10000, 0)) && SteadySince(w, strerror, timing, 3, n, (12000, 0))
            && SettledTarget(Sampled(w, strerror, Started(w, timing), 1).device.gain, 10000) == 4015
            && SettledTarget(Sampled(w, strerror, Started(w, timing), 3).device.gain, 12000) == 3550
  {
    hide Sampled, Started;
    SpikeSamples(strerror, timing);
    assert SettledCount(X16, 10000) == 10000 && SettledCount(X1, 12000) == 750;
  }

  /** A run that holds 16X: the daemon in a dim room. */
  lemma DimRoomIsAt16X(strerror: int -> string, timing: nat, n: nat)
    requires n > 0
    ensures Sampled(FaultFree(_ => 7000), strerror, Started(FaultFree(_ => 7000), timing), n).device.gain == X16
  {
    hide Sampled, Started, Clean;
    var w := FaultFree(_ => 7000);
    NothingFails(_ => 7000, 0, Sampled(w, strerror, Started(w, timing), n).device.step);
    GainAfterSteadyLight(w, strerror, timing, 0, n, (7000, 0));
  }

  // ------------------------------------------------- comparison from the light

  /** The light at the reading that a sample reports. */
  function ReadLight(w: World, s: Cache): nat {
    if s.device.step < 4 then 0 else w.light0(s.device.step - 4)
  }

  /** The dimmer light was read at 16X, the brighter one at 1X, where it counts less. */
  predicate Crossed(w: World, s: Cache, v: World, r: Cache) {
    && s.device.gain == X16 && r.device.gain == X1
    && ReadLight(v, r) / 16 < ReadLight(w, s) && ReadLight(v, r) / 16 < 65535
  }

  /** A sample whose count is the chip's of the light it reports, at the gain it leaves. */
  predicate Sound(w: World, s: Cache) {
    CountIsTrue(w, s) && s.device.timing == TimingCode(Ms402, s.device.gain)
  }

  /** Two readings, the second of no less light, are in the wrong order exactly if they are crossed. */
  lemma CountsOrderedIff(w: World, s: Cache, v: World, r: Cache)
    requires Sound(w, s) && Sound(v, r) && ReadLight(w, s) <= ReadLight(v, r)
    ensures s.broadband <= r.broadband <==> !Crossed(w, s, v, r)
  {
  }

  /** The gains that cross two samples are those the lights so far decide: a run starts at 1X. */
  lemma CrossedByLightIff(w: World, timing: nat, v: World, timing': nat, strerror: int -> string, k: nat)
    requires Clean(w, 0, Sampled(w, strerror, Started(w, timing), k).device.step)
    requires Clean(v, 0, Sampled(v, strerror, Started(v, timing'), k).device.step)
    ensures CrossedAt(w, timing, v, timing', strerror, k) <==>
              var light := ReadLight(w, Sampled(w, strerror, Started(w, timing), k));
              var sixteenth := ReadLight(v, Sampled(v, strerror, Started(v, timing'), k)) / 16;
              && LastVerdict(Ms402, X1, DecidingLights(w, strerror, timing, 0, k)) == X16
              && LastVerdict(Ms402, X1, DecidingLights(v, strerror, timing', 0, k)) == X1
              && sixteenth < light && sixteenth < 65535
  {
    hide Sample, Started, Clean, LastVerdict, DecidingLights;
    GainFromStart(w, strerror, timing, k);
    GainFromStart(v, strerror, timing', k);
  }

  lemma GainFromStart(w: World, strerror: int -> string, timing: nat, k: nat)
    requires Clean(w, 0, Sampled(w, strerror, Started(w, timing), k).device.step)
    ensures Sampled(w, strerror, Started(w, timing), k).device.gain ==
            LastVerdict(Ms402, X1, DecidingLights(w, strerror, timing, 0, k))
  {
    hide Sample, Started, Clean, LastVerdict, DecidingLights;
    CleanEarlier(w, strerror, timing, 0, k);
    CleanStart(w, timing);
    GainAfterSamples(w, strerror, timing, 0, k);
  }

  /** What an event delivers, if anything, is the beginning of the line served after the k-th sample. */
  ghost predicate Served(w: World, strerror: int -> string, timing: nat, e: C.Event, k: nat) {
    e.Tick? && e.recv.Some? ==> k > 0 && e.recv.value <= Sampled(w, strerror, Started(w, timing), k).line
  }

  lemma AcceptedSample(w: World, strerror: int -> string, timing: nat, e: C.Event, k: nat)
    requires ErrorTable(strerror) && Served(w, strerror, timing, e, k) && CT.Brings(e)
    ensures var s := Sampled(w, strerror, Started(w, timing), k);
            Sound(w, s) && C.Accepted(e.recv) == Some(s.broadband)
  {
    hide Sample, Started, Clean, CountIsTrue, ParseLine, DaemonAt, Line;
    var s, c := Sampled(w, strerror, Started(w, timing), k), Sampled(w, strerror, Started(w, timing), k - 1);
    AcceptedPrefixIsExact(w, strerror, timing, k, e.recv.value);
    AcceptedIffNothingFailed(w, strerror, timing, k);
    AcceptedCountIsTrue(w, strerror, timing, k);
    AlwaysAt402(w, strerror, timing, k - 1);
    assert s == Sample(w, strerror, c);
    CleanSampleGain(w, strerror, c);
    TimingOf402(s.device);
  }

  lemma TimingOf402(d: Device)
    requires d.time == Ms402 && Shadowed(d)
    ensures d.timing == TimingCode(Ms402, d.gain)
  {
  }

  /**
   One event of two runs on one clock schedule: both clocks get their lines of the same sample, and where they accept
   them the second daemon read no less light.
  */
  ghost predicate Paired(w: World, timing: nat, e: C.Event, v: World, timing': nat, f: C.Event,
                         strerror: int -> string, k: nat) {
    && CT.SameSchedule(e, f)
    && Served(w, strerror, timing, e, k) && Served(v, strerror, timing', f, k)
    && (CT.Brings(e) ==>
          ReadLight(w, Sampled(w, strerror, Started(w, timing), k))
          <= ReadLight(v, Sampled(v, strerror, Started(v, timing'), k)))
  }

  ghost predicate PairedRuns(w: World, timing: nat, e: seq<C.Event>, v: World, timing': nat, f: seq<C.Event>,
                             strerror: int -> string, samples: seq<nat>) {
    && |e| == |f| == |samples|
    && forall i :: 0 <= i < |e| ==> Paired(w, timing, e[i], v, timing', f[i], strerror, samples[i])
  }

  ghost predicate CrossedAt(w: World, timing: nat, v: World, timing': nat, strerror: int -> string, k: nat) {
    Crossed(w, Sampled(w, strerror, Started(w, timing), k), v, Sampled(v, strerror, Started(v, timing'), k))
  }

  ghost predicate NeverCrossed(w: World, timing: nat, e: seq<C.Event>, v: World, timing': nat,
                               strerror: int -> string, samples: seq<nat>)
    requires |e| == |samples|
  {
    forall i :: 0 <= i < |e| ==> CT.Brings(e[i]) ==> !CrossedAt(w, timing, v, timing', strerror, samples[i])
  }

  lemma EventOrderedIff(w: World, timing: nat, e: C.Event, v: World, timing': nat, f: C.Event,
                        strerror: int -> string, k: nat)
    requires ErrorTable(strerror) && Paired(w, timing, e, v, timing', f, strerror, k)
    ensures CT.CountEvent(e) && CT.CountEvent(f)
    ensures CT.NoBrighter(e, f) <==> (CT.Brings(e) ==> !CrossedAt(w, timing, v, timing', strerror, k))
  {
    hide Sampled, Started, C.Accepted, Crossed, Sound;
    if CT.Brings(e) {
      AcceptedSample(w, strerror, timing, e, k);
      AcceptedSample(v, strerror, timing', f, k);
      CountsOrderedIff(w, Sampled(w, strerror, Started(w, timing), k), v, Sampled(v, strerror, Started(v, timing'), k));
    }
  }

  /** The readings of a run, in order. */
  lemma ReadingsOrdered(h: seq<int>, k: seq<int>, a: int, b: int)
    requires |h| == |k|
    ensures PointwiseAtMost(h + [a], k + [b]) <==> PointwiseAtMost(h, k) && a <= b
  {
    if PointwiseAtMost(h + [a], k + [b]) {
      assert (h + [a])[|h|] <= (k + [b])[|k|];
      forall i | 0 <= i < |h|
        ensures h[i] <= k[i]
      {
        assert (h + [a])[i] <= (k + [b])[i];
      }
    }
  }

  lemma {:induction false} HistoriesOrderedIff(trims: Trims, s: C.State, r: C.State, e: seq<C.Event>, f: seq<C.Event>)
    requires s.history == r.history && |e| == |f|
    requires forall i :: 0 <= i < |e| ==> CT.SameSchedule(e[i], f[i])
    ensures |C.Run(trims, s, e).history| == |C.Run(trims, r, f).history|
    ensures PointwiseAtMost(C.Run(trims, s, e).history, C.Run(trims, r, f).history) <==> CT.NoBrighterEvents(e, f)
  {
    hide C.After, C.Accepted;
    if e != [] {
      var n := |e| - 1;
      var s1, r1 := C.Run(trims, s, e[..n]), C.Run(trims, r, f[..n]);
      HistoriesOrderedIff(trims, s, r, e[..n], f[..n]);
      LastEvent(e, f);
      assert CT.SameSchedule(e[n], f[n]);
      HistoryGrows(trims, s1, e[n]);
      HistoryGrows(trims, r1, f[n]);
      assert CT.Brings(f[n]) == CT.Brings(e[n]);
      assert s1.history + [] == s1.history && r1.history + [] == r1.history;
      if CT.Brings(e[n]) {
        ReadingsOrdered(s1.history, r1.history, C.Accepted(e[n].recv).value, C.Accepted(f[n].recv).value);
      }
    }
  }

  lemma LastEvent(e: seq<C.Event>, f: seq<C.Event>)
    requires |e| == |f| > 0
    ensures var n := |e| - 1;
            CT.NoBrighterEvents(e, f) <==> CT.NoBrighterEvents(e[..n], f[..n]) && CT.NoBrighter(e[n], f[n])
  {
    hide CT.NoBrighter;
    var n := |e| - 1;
    if CT.NoBrighterEvents(e, f) {
      forall i | 0 <= i < n
        ensures CT.NoBrighter(e[..n][i], f[..n][i])
      {
        assert CT.NoBrighter(e[i], f[i]);
      }
    } else if CT.NoBrighterEvents(e[..n], f[..n]) && CT.NoBrighter(e[n], f[n]) {
      forall i | 0 <= i < |e|
        ensures CT.NoBrighter(e[i], f[i])
      {
        if i < n { assert CT.NoBrighter(e[..n][i], f[..n][i]); }
      }
    }
  }

  /**
   Comparison from the light: two daemons and two clocks on one schedule, with any failures, cuts and glitches, the
   second one reading no less light in every accepted sample. The accepted readings are pointwise no smaller if and
   only if no accepted sample is crossed; and then average, target, level and every channel of frame and latch are
   no smaller at the end of the run.
  */
  lemma BrighterRoomIff(w: World, timing: nat, e: seq<C.Event>, v: World, timing': nat, f: seq<C.Event>,
                        strerror: int -> string, samples: seq<nat>, trims: Trims, garbage: Frame)
    requires ErrorTable(strerror) && PairedRuns(w, timing, e, v, timing', f, strerror, samples)
    ensures var s, r := C.Run(trims, C.Boot(garbage), e), C.Run(trims, C.Boot(garbage), f);
            && (PointwiseAtMost(s.history, r.history) <==> NeverCrossed(w, timing, e, v, timing', strerror, samples))
            && (NeverCrossed(w, timing, e, v, timing', strerror, samples) ==>
                  CT.Darker(s, r) && (s.history != [] ==> Average(s.history) <= Average(r.history)))
  {
    hide CT.NoBrighter, CT.SameSchedule, CT.Brings, CT.CountEvent, CT.Darker, C.Run, CrossedAt, Served;
    forall i | 0 <= i < |e|
      ensures CT.SameSchedule(e[i], f[i]) && CT.CountEvent(e[i]) && CT.CountEvent(f[i])
      ensures CT.NoBrighter(e[i], f[i]) <==>
                (CT.Brings(e[i]) ==> !CrossedAt(w, timing, v, timing', strerror, samples[i]))
    {
      assert Paired(w, timing, e[i], v, timing', f[i], strerror, samples[i]);
      EventOrderedIff(w, timing, e[i], v, timing', f[i], strerror, samples[i]);
    }
    HistoriesOrderedIff(trims, C.Boot(garbage), C.Boot(garbage), e, f);
    assert CT.NoBrighterEvents(e, f) <==> NeverCrossed(w, timing, e, v, timing', strerror, samples);
    if CT.NoBrighterEvents(e, f) {
      CT.ComparisonPrinciple(trims, garbage, e, f);
    }
  }

  // ------------------------------------- a crossing counts even above saturation

  /** 7000, 12000, then darkness. */
  function DimRoom(k: nat): nat {
    if k < 27 then 7000 else if k < 36 then 12000 else 0
  }

  /** 70000, 14000, then darkness. */
  function BrightRoom(k: nat): nat {
    if k < 18 then 70000 else if k < 27 then 14000 else 0
  }

  /** The light a sample reports, and its count. */
  predicate ReportsAt(w: World, strerror: int -> string, timing: nat, k: nat, light: nat, count: uint16) {
    var s := Sampled(w, strerror, Started(w, timing), k);
    ReadLight(w, s) == light && s.broadband == count
  }

  lemma DimRoomSamples(strerror: int -> string, timing: nat)
    ensures ReportsAt(FaultFree(DimRoom), strerror, timing, 2, 12000, 12000)
    ensures ReportsAt(FaultFree(DimRoom), strerror, timing, 3, 0, 0)
    ensures ReportsAt(FaultFree(DimRoom), strerror, timing, 4, 0, 0)
  {
    hide Sample, Started;
    var w := FaultFree(DimRoom);
    StartedStep(DimRoom, timing);
    var c0 := Sampled(w, strerror, Started(w, timing), 0);
    NextSample(DimRoom, strerror, c0, 7000);
    var c1 := Sampled(w, strerror, Started(w, timing), 1);
    assert c1 == Sample(w, strerror, c0);
    NextSample(DimRoom, strerror, c1, 12000);
    var c2 := Sampled(w, strerror, Started(w, timing), 2);
    assert c2 == Sample(w, strerror, c1);
    NextSample(DimRoom, strerror, c2, 0);
    var c3 := Sampled(w, strerror, Started(w, timing), 3);
    assert c3 == Sample(w, strerror, c2);
    NextSample(DimRoom, strerror, c3, 0);
    assert Sampled(w, strerror, Started(w, timing), 4) == Sample(w, strerror, c3);
  }

  lemma BrightRoomSamples(strerror: int -> string, timing: nat)
    ensures ReportsAt(FaultFree(BrightRoom), strerror, timing, 2, 14000, 875)
    ensures ReportsAt(FaultFree(BrightRoom), strerror, timing, 3, 0, 0)
    ensures ReportsAt(FaultFree(BrightRoom), strerror, timing, 4, 0, 0)
  {
    hide Sample, Started;
    var w := FaultFree(BrightRoom);
    StartedStep(BrightRoom, timing);
    var c0 := Sampled(w, strerror, Started(w, timing), 0);
    NextSample(BrightRoom, strerror, c0, 70000);
    var c1 := Sampled(w, strerror, Started(w, timing), 1);
    assert c1 == Sample(w, strerror, c0);
    NextSample(BrightRoom, strerror, c1, 14000);
    var c2 := Sampled(w, strerror, Started(w, timing), 2);
    assert c2 == Sample(w, strerror, c1);
    NextSample(BrightRoom, strerror, c2, 0);
    var c3 := Sampled(w, strerror, Started(w, timing), 3);
    assert c3 == Sample(w, strerror, c2);
    NextSample(BrightRoom, strerror, c3, 0);
    assert Sampled(w, strerror, Started(w, timing), 4) == Sample(w, strerror, c3);
  }

  lemma TargetOfThree(past: seq<int>, a: uint16, b: uint16, c: uint16)
    ensures Target(past + [a, b, c]) == BrightnessMap((a + b + c) as real / 3.0)
  {
    var window := Window(past + [a, b, c]);
    assert window == [a, b, c];
    SumOfThree(window);
  }

  /**
   In a run it does not help that the brighter room's count is above saturation, because readings are averaged before
   they are mapped. In three samples the second room is never dimmer than the first, and whatever came before it shows
   1396 where the first shows 4015: the crossed sample counts 875, the sixteenth of its light, instead of 12000.
  */
  lemma AverageFeelsCrossing(strerror: int -> string, timing: nat, past: seq<int>, past': seq<int>)
    ensures var w := FaultFree(DimRoom);
            && ReportsAt(w, strerror, timing, 2, 12000, 12000)
            && ReportsAt(w, strerror, timing, 3, 0, 0) && ReportsAt(w, strerror, timing, 4, 0, 0)
    ensures var v := FaultFree(BrightRoom);
            && ReportsAt(v, strerror, timing, 2, 14000, 875)
            && ReportsAt(v, strerror, timing, 3, 0, 0) && ReportsAt(v, strerror, timing, 4, 0, 0)
    ensures Target(past + [12000, 0, 0]) == 4015 && Target(past' + [875, 0, 0]) == 1396
  {
    hide ReportsAt;
    DimRoomSamples(strerror, timing);
    BrightRoomSamples(strerror, timing);
    TargetOfThree(past, 12000, 0, 0);
    TargetOfThree(past', 875, 0, 0);
  }
}
