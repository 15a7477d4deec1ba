/**
 Theorems that span the whole pipeline, from the light on the chip to the display.
*/
module Pipeline {
  import opened Basics
  import opened Rounding
  import opened Lux
  import opened Driver
  import opened DriverTheorems
  import opened Telemetry
  import opened Wire
  import opened Daemon
  import opened Ambient
  import opened Ramp
  import opened Display
  import opened DisplayTheorems
  import C = Clock
  import CT = ClockTheorems

  // -------------------------------------------------- no bad count is accepted

  /** An open driver whose lasterr is zero exactly if nothing has failed since start-up. */
  ghost predicate Tracks(w: World, d: Device) {
    d.isOpen && (d.lastErr == 0 <==> Clean(w, 0, d.step))
  }

  lemma TracksOn(w: World, d: Device, e: Device)
    requires Tracks(w, d) && Follows(w, d, e)
    ensures Tracks(w, e)
  {
    if Clean(w, 0, d.step) && Clean(w, d.step, e.step) {
      assert Clean(w, 0, e.step);
    }
  }

  lemma StartedTracks(w: World, timing: nat)
    ensures Tracks(w, Started(w, timing).device)
  {
    var d0 := Init(timing).(isOpen := true);
    var d1 := SetIntegrationTime(w, d0, Ms402).0;
    var d2 := SetGain(w, d1, X16).0;
    SetTimeFollows(w, d0, Ms402);
    TracksOn(w, d0, d1);
    SetGainFollows(w, d1, X16);
    TracksOn(w, d1, d2);
    SetGainFollows(w, d2, X1);
    TracksOn(w, d2, SetGain(w, d2, X1).0);
  }

  /** One sample keeps track of failures and serves a line about its own reading. */
  ghost predicate Serves(strerror: int -> string, s: Cache) {
    s.line == Cached(Line(0, strerror(s.device.lastErr), s.broadband, s.ir, s.lux)) && s.lux < 0x4_0000
  }

  lemma SampleTracks(w: World, strerror: int -> string, c: Cache)
    requires Tracks(w, c.device)
    ensures Tracks(w, Sample(w, strerror, c).device) && Serves(strerror, Sample(w, strerror, c))
  {
    var d1 := SetIntegrationTime(w, c.device, Ms402).0;
    SetTimeFollows(w, c.device, Ms402);
    TracksOn(w, c.device, d1);
    SenseFollows(w, d1, true);
    TracksOn(w, d1, SenseLight(w, d1, true).device);
  }

  lemma {:induction false} SampledTracks(w: World, strerror: int -> string, c: Cache, n: nat)
    requires Tracks(w, c.device)
    ensures Tracks(w, Sampled(w, strerror, c, n).device)
    ensures n > 0 ==> Serves(strerror, Sampled(w, strerror, c, n))
  {
    hide Tracks, Serves, Sample;
    if n > 0 {
      SampledTracks(w, strerror, c, n - 1);
      SampleTracks(w, strerror, Sampled(w, strerror, c, n - 1));
    }
  }

  /** Lines with an error text of up to 974 characters fit the daemon's buffer, success lines in particular. */
  lemma ShortLineFits(error: string, broadband: uint16, ir: uint16, lux: nat)
    requires lux < 0x4_0000 && |error| <= 974
    ensures Cached(Line(0, error, broadband, ir, lux)) == Line(0, error, broadband, ir, lux)
  {
    hide Dec;
    assert PowerOfTen(6) == 1_000_000 by {
      assert PowerOfTen(1) == 10 && PowerOfTen(2) == 100 && PowerOfTen(3) == 1000;
      assert PowerOfTen(4) == 10_000 && PowerOfTen(5) == 100_000;
    }
    DecLength(broadband, 5);
    DecLength(ir, 5);
    DecLength(lux, 6);
    LineLength(error, broadband, ir, lux);
  }

  lemma LineLength(error: string, broadband: nat, ir: nat, lux: nat)
    ensures |Line(0, error, broadband, ir, lux)| == 34 + |error| + |Dec(broadband)| + |Dec(ir)| + |Dec(lux)|
  {
    hide Dec;
    assert |BROADBAND| == 14 && |IR| == 6 && |LUX| == 7;
    assert |Fields(broadband, ir, Printed(lux) + "\n")| == |Dec(broadband)| + 6 + |Dec(ir)| + 7 + |Dec(lux)| + 1;
    DecLength(0, 1);
  }

  /**
   No bad count reaches the average. Whatever fails and however often, after any number n > 0 of samples
   the clock accepts the served line if and only if no bus transaction has failed since the daemon
   started, and then with the exact reading.
  */
  lemma AcceptedIffNothingFailed(w: World, strerror: int -> string, timing: nat, n: nat)
    requires n > 0 && ErrorTable(strerror)
    ensures var s := Sampled(w, strerror, Started(w, timing), n);
            && (ParseLine(s.line).Some? <==> Clean(w, 0, s.device.step))
            && (ParseLine(s.line).Some? ==> ParseLine(s.line).value == Parsed(s.broadband, s.ir, s.lux))
  {
    StartedTracks(w, timing);
    SampledTracks(w, strerror, Started(w, timing), n);
    ServedLineAccepted(w, strerror, Sampled(w, strerror, Started(w, timing), n));
  }

  lemma ServedLineAccepted(w: World, strerror: int -> string, s: Cache)
    requires ErrorTable(strerror) && Tracks(w, s.device) && Serves(strerror, s)
    ensures ParseLine(s.line).Some? <==> Clean(w, 0, s.device.step)
    ensures ParseLine(s.line).Some? ==> ParseLine(s.line).value == Parsed(s.broadband, s.ir, s.lux)
  {
    hide ParseLine, Line, Clean;
    var error := strerror(s.device.lastErr);
    if s.device.lastErr == 0 {
      ShortLineFits("Success", s.broadband, s.ir, s.lux);
      WireRoundTrip(s.broadband, s.ir, s.lux, "");
      assert s.line + "" == s.line;
    } else {
      assert s.line <= Line(0, error, s.broadband, s.ir, s.lux);
      PrefixRejectedOrExact(0, error, s.broadband, s.ir, s.lux, s.line);
    }
  }

  /**
   The telemetry service does not look at the error text: from every line that fits the buffer, it takes the lux. So it
   reports a reading the clock rejects if and only if some transaction has failed since the daemon started.
  */
  lemma TelemetryIgnoresErrors(w: World, strerror: int -> string, timing: nat, n: nat)
    requires n > 0 && ErrorTable(strerror)
    requires var error := strerror(Sampled(w, strerror, Started(w, timing), n).device.lastErr);
             NoLabel(error) && |error| <= 974
    ensures var s := Sampled(w, strerror, Started(w, timing), n);
            && ParseLux(s.line) == Some(s.lux)
            && (ParseLine(s.line).None? <==> !Clean(w, 0, s.device.step))
  {
    hide Sample, Started, Clean, ParseLine, ParseLux, NoLabel, Line, Cached;
    var s := Sampled(w, strerror, Started(w, timing), n);
    StartedTracks(w, timing);
    SampledTracks(w, strerror, Started(w, timing), n);
    AcceptedIffNothingFailed(w, strerror, timing, n);
    ShortLineFits(strerror(s.device.lastErr), s.broadband, s.ir, s.lux);
    LuxRoundTrip(0, strerror(s.device.lastErr), s.broadband, s.ir, s.lux);
  }

  /** A partial read is no loophole: an accepted prefix of a served line also proves that nothing had failed. */
  lemma AcceptedPrefixIsExact(w: World, strerror: int -> string, timing: nat, n: nat, prefix: string)
    requires n > 0 && ErrorTable(strerror)
    requires prefix <= Sampled(w, strerror, Started(w, timing), n).line
    requires C.Accepted(Some(prefix)).Some?
    ensures var s := Sampled(w, strerror, Started(w, timing), n);
            Clean(w, 0, s.device.step) && C.Accepted(Some(prefix)) == Some(s.broadband)
  {
    var line := Sampled(w, strerror, Started(w, timing), n).line;
    AcceptedIffNothingFailed(w, strerror, timing, n);
    SplitAt(line, prefix);
    ParseExtends(prefix, line[|prefix|..]);
  }

  /**
   The broadband count the clock accepts after a sample is the one the chip took in it, and so is the infrared one, of
   the light of that moment and under the gain and time in its TIMING register.
  */
  lemma AcceptedCountIsTrue(w: World, strerror: int -> string, timing: nat, n: nat)
    requires n > 0 && ErrorTable(strerror)
    ensures var s := Sampled(w, strerror, Started(w, timing), n);
            C.Accepted(Some(s.line)).Some? ==>
              C.Accepted(Some(s.line)) == Some(s.broadband) && CountIsTrue(w, s)
  {
    hide Sample, Started, Clean, CountIsTrue, Tracks, Serves, ParseLine;
    var c := Sampled(w, strerror, Started(w, timing), n - 1);
    StartedTracks(w, timing);
    SampledTracks(w, strerror, Started(w, timing), n - 1);
    AcceptedIffNothingFailed(w, strerror, timing, n);
    if C.Accepted(Some(Sampled(w, strerror, Started(w, timing), n).line)).Some? {
      SampleCountIsTrue(w, strerror, c);
    }
  }

  predicate CountIsTrue(w: World, s: Cache) {
    && s.device.step >= 6
    && s.broadband == ChipCount(s.device.timing, w.light0(s.device.step - 4))
    && s.ir == ChipCount(s.device.timing, w.light1(s.device.step - 2))
  }

  lemma SampleCountIsTrue(w: World, strerror: int -> string, c: Cache)
    requires Tracks(w, c.device) && Clean(w, 0, Sample(w, strerror, c).device.step)
    ensures CountIsTrue(w, Sample(w, strerror, c))
  {
    hide SenseLight, SetIntegrationTime, Clean, ChipCount, Line;
    var d1 := SetIntegrationTime(w, c.device, Ms402).0;
    SetTimeFollows(w, c.device, Ms402);
    CleanSense(w, d1, true);
  }

  /** Before the first sample there is no line to accept; one of a closed sensor keeps its reading and is rejected. */
  lemma NoLineWithoutReading(w: World, strerror: int -> string, timing: nat, c: Cache)
    requires ErrorTable(strerror) && !c.device.isOpen
    ensures var line := Sampled(w, strerror, Started(w, timing), 0).line; ParseLine(line).None? && ParseLux(line).None?
    ensures var s := Sample(w, strerror, c);
            && s.broadband == c.broadband && s.ir == c.ir && s.lux == c.lux && s.device == c.device.(lastErr := -1)
            && ParseLine(s.line) == None
  {
    hide Line, ParseLine, SetGain;
    assert ParseLine("") == None by { EmptyLine(); }
    var line := Line(-1, strerror(-1), c.broadband, c.ir, c.lux);
    CachedIsPrefix(line);
    PrefixRejectedOrExact(-1, strerror(-1), c.broadband, c.ir, c.lux, Cached(line));
  }

  lemma EmptyLine()
    ensures ParseLine("") == None
  {
  }

  // -------------------------------------------------------------- the lux served

  /** The lux of a sample is that of its own counts, under the settings it left. */
  predicate LuxOfCounts(s: Cache) {
    s.lux == CalculateLux(s.device.time, s.device.gain, s.broadband, s.ir).value
  }

  /** Whatever failed, a sample of an open driver computes its lux from the counts it serves. */
  lemma SampleLux(w: World, strerror: int -> string, c: Cache)
    requires c.device.isOpen
    ensures LuxOfCounts(Sample(w, strerror, c))
  {
    hide SetIntegrationTime, GetData, LastReading, CalculateLux, Line, Clean;
    var d1 := SetIntegrationTime(w, c.device, Ms402).0;
    SetTimeFollows(w, c.device, Ms402);
    SenseIsLastReading(w, d1, true);
  }

  lemma SampledLux(w: World, strerror: int -> string, timing: nat, n: nat)
    requires n > 0
    ensures LuxOfCounts(Sampled(w, strerror, Started(w, timing), n))
  {
    hide Sample, Started, LuxOfCounts;
    SampledOpen(w, strerror, timing, n - 1);
    SampleLux(w, strerror, Sampled(w, strerror, Started(w, timing), n - 1));
  }

  /**
   What both readers of a served line learn. If nothing has failed: the chip's two counts of the light of that moment,
   and their lux. If something has failed, telemetry still gets the lux of the counts in the line, unless the error
   text hides it.
  */
  lemma ServedLux(w: World, strerror: int -> string, timing: nat, n: nat)
    requires n > 0 && ErrorTable(strerror)
    ensures var s := Sampled(w, strerror, Started(w, timing), n);
            var lux := CalculateLux(Ms402, s.device.gain, s.broadband, s.ir).value;
            && (Clean(w, 0, s.device.step) ==>
                  && CountIsTrue(w, s)
                  && ParseLine(s.line) == Some(Parsed(s.broadband, s.ir, lux)) && ParseLux(s.line) == Some(lux))
            && (NoLabel(strerror(s.device.lastErr)) && |strerror(s.device.lastErr)| <= 974 ==>
                  ParseLux(s.line) == Some(lux))
  {
    hide Sample, Started, Clean, CountIsTrue, ParseLine, ParseLux, NoLabel, Line, Cached, CalculateLux;
    var s := Sampled(w, strerror, Started(w, timing), n);
    SampledLux(w, strerror, timing, n);
    AlwaysAt402(w, strerror, timing, n);
    StartedTracks(w, timing);
    SampledTracks(w, strerror, Started(w, timing), n);
    AcceptedIffNothingFailed(w, strerror, timing, n);
    if Clean(w, 0, s.device.step) {
      AcceptedCountIsTrue(w, strerror, timing, n);
      SuccessHasNoLabel();
    }
    if NoLabel(strerror(s.device.lastErr)) && |strerror(s.device.lastErr)| <= 974 {
      TelemetryIgnoresErrors(w, strerror, timing, n);
    }
  }

  lemma SuccessHasNoLabel()
    ensures NoLabel("Success")
  {
    var word := "Success";
    forall i | 0 <= i <= |word|
      ensures !(LABEL <= word[i..])
    {
      if i < |word| { assert word[i..][0] == word[i] != LABEL[0]; }
    }
  }

  /** A tick that received nothing, or the beginning of a line the daemon served after some sample. */
  ghost predicate FromDaemon(w: World, strerror: int -> string, timing: nat, e: C.Event) {
    e.Tick? && e.recv.Some? ==>
      exists n: nat :: n > 0 && e.recv.value <= Sampled(w, strerror, Started(w, timing), n).line
  }

  /** x is the true count of some sample before which, and in which, nothing had failed. */
  ghost predicate TrueReading(w: World, strerror: int -> string, timing: nat, x: int) {
    exists n: nat :: n > 0 && IsReading(w, Sampled(w, strerror, Started(w, timing), n), x)
  }

  ghost predicate IsReading(w: World, s: Cache, x: int) {
    Clean(w, 0, s.device.step) && CountIsTrue(w, s) && x == s.broadband
  }

  lemma AcceptedFromDaemon(w: World, strerror: int -> string, timing: nat, e: C.Event)
    requires ErrorTable(strerror) && FromDaemon(w, strerror, timing, e)
    requires e.Tick? && C.Accepted(e.recv).Some?
    ensures TrueReading(w, strerror, timing, C.Accepted(e.recv).value)
    ensures CT.CountEvent(e)
  {
    hide Sample, Started, Clean, CountIsTrue, ParseLine;
    var n: nat :| n > 0 && e.recv.value <= Sampled(w, strerror, Started(w, timing), n).line;
    var s := Sampled(w, strerror, Started(w, timing), n);
    AcceptedPrefixIsExact(w, strerror, timing, n, e.recv.value);
    AcceptedIffNothingFailed(w, strerror, timing, n);
    AcceptedCountIsTrue(w, strerror, timing, n);
    assert IsReading(w, s, s.broadband);
  }

  /**
   Over all runs of both programs, with any failures, cuts, losses and glitches: every reading in the clock's
   history is a true count of a sample up to which no transaction had failed.
  */
  lemma {:induction false} NoBadCountEver(w: World, strerror: int -> string, timing: nat,
                                          trims: Trims, garbage: Frame, events: seq<C.Event>)
    requires ErrorTable(strerror) && forall i :: 0 <= i < |events| ==> FromDaemon(w, strerror, timing, events[i])
    ensures forall x :: x in C.Run(trims, C.Boot(garbage), events).history ==> TrueReading(w, strerror, timing, x)
    ensures CT.CountEvents(events)
  {
    hide TrueReading, FromDaemon, C.AfterFrame, C.AfterRamp, Target, C.Accepted;
    if events != [] {
      var k := |events| - 1;
      NoBadCountEver(w, strerror, timing, trims, garbage, events[..k]);
      assert forall i :: 0 <= i < k ==> events[..k][i] == events[i];
      HistoryGrows(trims, C.Run(trims, C.Boot(garbage), events[..k]), events[k]);
      if events[k].Tick? && C.Accepted(events[k].recv).Some? {
        AcceptedFromDaemon(w, strerror, timing, events[k]);
      }
    }
  }

  lemma HistoryGrows(trims: Trims, s: C.State, e: C.Event)
    ensures C.After(trims, s, e).history == s.history +
            if e.Tick? && C.Accepted(e.recv).Some? then [C.Accepted(e.recv).value] else []
  {
    assert s.history + [] == s.history;
  }

  // ------------------------------------------------------- steady light, end to end

  /** The light does not change from transaction `from` up to `to`. */
  ghost predicate LightOver(w: World, from: nat, to: nat, light: (nat, nat)) {
    forall k: nat :: from <= k < to ==> w.light0(k) == light.0 && w.light1(k) == light.1
  }

  /** The count the daemon reports under steady light, from the gain it starts the reading with. */
  function SettledCount(gain: Gain, light: nat): uint16 {
    ChipCount(TimingCode(Ms402, Verdict(Ms402, gain, light)), light)
  }

  /** The brightness target the clock settles on under steady light. */
  function SettledTarget(gain: Gain, light: nat): int {
    BrightnessMap(SettledCount(gain, light) as real)
  }

  lemma CleanSetTime(w: World, d: Device)
    requires d.isOpen && Clean(w, d.step, SetIntegrationTime(w, d, Ms402).0.step)
    ensures SetIntegrationTime(w, d, Ms402).0 ==
            d.(step := d.step + 3, powered := false, time := Ms402,
               timing := TimingCode(Ms402, d.gain), accepted := d.accepted + 1)
  {
    assert w.fault(d.step) == 0 && w.fault(d.step + 1) == 0 && w.fault(d.step + 2) == 0;
  }

  ghost predicate DaemonAt(d: Device, gain: Gain) {
    d.isOpen && d.time == Ms402 && d.gain == gain
  }

  lemma SetKeeps402(w: World, d: Device, gain: Gain)
    requires d.time == Ms402
    ensures SetGain(w, d, gain).0.time == Ms402 && SetIntegrationTime(w, d, Ms402).0.time == Ms402
  {
  }

  lemma SampleKeeps402(w: World, strerror: int -> string, c: Cache)
    requires c.device.isOpen && c.device.time == Ms402
    ensures Sample(w, strerror, c).device.time == Ms402
  {
    hide SetGain, SetIntegrationTime, GetData, Clean, CalculateLux, Line;
    var d1 := SetIntegrationTime(w, c.device, Ms402).0;
    SetKeeps402(w, c.device, X1);
    SetTimeFollows(w, c.device, Ms402);
    SenseIsLastReading(w, d1, true);
    GetDataKeepsSettings(w, d1);
    SetKeeps402(w, GetData(w, d1).0, X1);
    SetKeeps402(w, GetData(w, d1).0, X16);
    GetDataKeepsSettings(w, LastReading(w, d1, true));
  }

  lemma StartedAt402(w: World, timing: nat)
    ensures Started(w, timing).device.time == Ms402
  {
    hide SetGain, SetIntegrationTime;
    var d0 := Init(timing).(isOpen := true);
    var d1 := SetIntegrationTime(w, d0, Ms402).0;
    SetKeeps402(w, d0, X1);
    SetKeeps402(w, d1, X16);
    SetKeeps402(w, SetGain(w, d1, X16).0, X1);
  }

  lemma SampledOpen(w: World, strerror: int -> string, timing: nat, n: nat)
    ensures Sampled(w, strerror, Started(w, timing), n).device.isOpen
  {
    hide Sampled, Started, Serves, Clean;
    StartedTracks(w, timing);
    SampledTracks(w, strerror, Started(w, timing), n);
  }

  /** Whatever fails, the daemon's driver is open and its integration time is 402 ms. */
  lemma {:induction false} AlwaysAt402(w: World, strerror: int -> string, timing: nat, n: nat)
    ensures var d := Sampled(w, strerror, Started(w, timing), n).device; DaemonAt(d, d.gain)
  {
    hide Sample, Started;
    SampledOpen(w, strerror, timing, n);
    if n == 0 {
      StartedAt402(w, timing);
    } else {
      SampledOpen(w, strerror, timing, n - 1);
      AlwaysAt402(w, strerror, timing, n - 1);
      SampleKeeps402(w, strerror, Sampled(w, strerror, Started(w, timing), n - 1));
    }
  }

  lemma {:induction false} StepsGrow(w: World, strerror: int -> string, timing: nat, m: nat, n: nat)
    requires m <= n
    ensures Sampled(w, strerror, Started(w, timing), m).device.step
         <= Sampled(w, strerror, Started(w, timing), n).device.step
    decreases n
  {
    hide Sample, Started, Clean;
    if m < n {
      StepsGrow(w, strerror, timing, m, n - 1);
      var c := Sampled(w, strerror, Started(w, timing), n - 1);
      SampledOpen(w, strerror, timing, n - 1);
      SampleFollows(w, strerror, c);
    }
  }

  lemma SampleFollows(w: World, strerror: int -> string, c: Cache)
    requires c.device.isOpen
    ensures var d1 := SetIntegrationTime(w, c.device, Ms402).0;
            d1.isOpen && Follows(w, c.device, d1) && Follows(w, d1, Sample(w, strerror, c).device)
  {
    hide SetIntegrationTime, SenseLight, Follows, Line;
    var d1 := SetIntegrationTime(w, c.device, Ms402).0;
    SetTimeFollows(w, c.device, Ms402);
    assert d1.isOpen by { OpenAfter(w, c.device, d1); }
    SenseFollows(w, d1, true);
  }

  /** A sample taken from the given gain leaves the settled gain and count. */
  ghost predicate SettledFrom(s: Cache, gain: Gain, light: nat) {
    DaemonAt(s.device, Verdict(Ms402, gain, light)) && s.broadband == SettledCount(gain, light)
  }

  /** The lux the daemon reports under steady light. */
  function SettledLux(gain: Gain, light: (nat, nat)): nat {
    var settled := Verdict(Ms402, gain, light.0);
    CalculateLux(Ms402, settled, ChipCount(TimingCode(Ms402, settled), light.0),
                 ChipCount(TimingCode(Ms402, settled), light.1)).value
  }

  lemma SteadySample(w: World, strerror: int -> string, c: Cache, gain: Gain, light: (nat, nat))
    requires DaemonAt(c.device, gain)
    requires Clean(w, 0, Sample(w, strerror, c).device.step)
    requires LightOver(w, c.device.step, Sample(w, strerror, c).device.step, light)
    ensures SettledFrom(Sample(w, strerror, c), gain, light.0)
  {
    hide SenseLight, SetIntegrationTime, Line, ChipCount, Verdict, Clean, LightOver;
    var d1 := SetIntegrationTime(w, c.device, Ms402).0;
    var end := Sample(w, strerror, c).device.step;
    SampleFollows(w, strerror, c);
    CleanPart(w, 0, end, c.device.step, d1.step);
    CleanSetTime(w, c.device);
    CleanPart(w, 0, end, d1.step, end);
    assert Steady(w, d1.step, end, light.0, light.1) by { LightPart(w, c.device.step, end, d1.step, light); }
    SteadyCall(w, d1, light);
  }

  lemma LightPart(w: World, from: nat, to: nat, start: nat, light: (nat, nat))
    requires LightOver(w, from, to, light) && from <= start
    ensures forall k: nat :: start <= k < to ==> w.light0(k) == light.0 && w.light1(k) == light.1
  {
  }

  lemma VerdictRests(gain: Gain, light: nat)
    ensures Verdict(Ms402, Verdict(Ms402, gain, light), light) == Verdict(Ms402, gain, light)
  {
  }

  /** From some sample m to a later sample n the light is steady. */
  ghost predicate SteadySince(w: World, strerror: int -> string, timing: nat, m: nat, n: nat, light: (nat, nat)) {
    LightOver(w, Sampled(w, strerror, Started(w, timing), m).device.step,
              Sampled(w, strerror, Started(w, timing), n).device.step, light)
  }

  lemma SteadyUntilEarlier(w: World, strerror: int -> string, timing: nat, m: nat, n: nat, p: nat, light: (nat, nat))
    requires m <= n <= p && SteadySince(w, strerror, timing, m, p, light)
    ensures SteadySince(w, strerror, timing, m, n, light)
    ensures SteadySince(w, strerror, timing, n, p, light)
  {
    hide Sampled, Started;
    StepsGrow(w, strerror, timing, m, n);
    StepsGrow(w, strerror, timing, n, p);
  }

  /**
   Once the light has been steady for a whole sample, and as long as nothing has failed, every sample has the gain
   the hysteresis band gives from the gain at the start and the chip's count at that gain.
  */
  lemma {:induction false} SteadySamples(w: World, strerror: int -> string, timing: nat, m: nat, n: nat,
                                         light: (nat, nat))
    requires m < n && SteadySince(w, strerror, timing, m, n, light)
    requires Clean(w, 0, Sampled(w, strerror, Started(w, timing), n).device.step)
    ensures SettledFrom(Sampled(w, strerror, Started(w, timing), n),
                        Sampled(w, strerror, Started(w, timing), m).device.gain, light.0)
    decreases n
  {
    hide Sample, Started, DaemonAt, Verdict, Clean, ChipCount, LightOver;
    var c := Sampled(w, strerror, Started(w, timing), n - 1);
    var gain := Sampled(w, strerror, Started(w, timing), m).device.gain;
    SteadyUntilEarlier(w, strerror, timing, m, n - 1, n, light);
    if n - 1 == m {
      AlwaysAt402(w, strerror, timing, m);
      SteadySample(w, strerror, c, gain, light);
    } else {
      StepsGrow(w, strerror, timing, n - 1, n);
      CleanPart(w, 0, Sampled(w, strerror, Started(w, timing), n).device.step, 0, c.device.step);
      SteadySamples(w, strerror, timing, m, n - 1, light);
      SteadySample(w, strerror, c, Verdict(Ms402, gain, light.0), light);
      VerdictRests(gain, light.0);
    }
  }

  /**
   Under steady light every line the clock accepts, whole or cut, carries the same count. It depends on the light
   and on the gain at which the steady light was met.
  */
  lemma SteadyLineAccepted(w: World, strerror: int -> string, timing: nat, m: nat, n: nat, light: (nat, nat),
                           received: string)
    requires ErrorTable(strerror) && m < n && SteadySince(w, strerror, timing, m, n, light)
    requires received <= Sampled(w, strerror, Started(w, timing), n).line
    ensures C.Accepted(Some(received)).Some? ==>
              C.Accepted(Some(received)) ==
              Some(SettledCount(Sampled(w, strerror, Started(w, timing), m).device.gain, light.0))
  {
    hide Sample, Started, Clean, SettledCount, DaemonAt, ParseLine;
    if C.Accepted(Some(received)).Some? {
      AcceptedPrefixIsExact(w, strerror, timing, n, received);
      SteadySamples(w, strerror, timing, m, n, light);
    }
  }

  /** A tick that received nothing, or the beginning of a line served after a sample in (m, n]; or a glitch. */
  ghost predicate FromSamples(w: World, strerror: int -> string, timing: nat, m: nat, n: nat, e: C.Event) {
    e.Tick? && e.recv.Some? ==>
      exists k: nat :: m < k <= n && e.recv.value <= Sampled(w, strerror, Started(w, timing), k).line
  }

  ghost predicate AllFromSamples(w: World, strerror: int -> string, timing: nat, m: nat, n: nat,
                                 events: seq<C.Event>) {
    forall i :: 0 <= i < |events| ==> FromSamples(w, strerror, timing, m, n, events[i])
  }

  lemma SteadyReadingsRepeat(w: World, strerror: int -> string, timing: nat, m: nat, n: nat, light: (nat, nat),
                             events: seq<C.Event>)
    requires ErrorTable(strerror) && m <= n && SteadySince(w, strerror, timing, m, n, light)
    requires AllFromSamples(w, strerror, timing, m, n, events)
    ensures CT.Repeats(events, SettledCount(Sampled(w, strerror, Started(w, timing), m).device.gain, light.0))
  {
    hide Sampled, Started, SettledCount, SteadySince, C.Accepted;
    var count := SettledCount(Sampled(w, strerror, Started(w, timing), m).device.gain, light.0);
    forall i | 0 <= i < |events| && events[i].Tick?
      ensures C.Accepted(events[i].recv) == None || C.Accepted(events[i].recv) == Some(count)
    {
      if events[i].recv.Some? {
        assert FromSamples(w, strerror, timing, m, n, events[i]);
        var k: nat :| m < k <= n && events[i].recv.value <= Sampled(w, strerror, Started(w, timing), k).line;
        SteadyUntilEarlier(w, strerror, timing, m, k, n, light);
        SteadyLineAccepted(w, strerror, timing, m, k, light, events[i].recv.value);
      } else {
        assert C.Accepted(events[i].recv) == None by { NothingAccepted(events[i].recv); }
      }
    }
  }

  lemma NothingAccepted(recv: Option<string>)
    requires recv.None?
    ensures C.Accepted(recv).None?
  {
  }

  /**
   End to end. The light may have done anything before and is steady from sample m to sample n, at whatever gain
   it is met. A clock in any reachable state gets lines of these samples, cut, lost or not, in any order and
   mixed with glitches and failing writes. After three accepted readings and 144 more ticks, readings included,
   the next written frame is the one of its time of day at the level the light settles on, and the loop idles.
  */
  lemma SteadyLightSteadyDisplay(w: World, strerror: int -> string, timing: nat, m: nat, n: nat, light: (nat, nat),
                                 trims: Trims, s: C.State,
                                 pre: seq<C.Event>, post: seq<C.Event>, last: C.Event)
    requires ErrorTable(strerror) && m <= n && SteadySince(w, strerror, timing, m, n, light) && CT.Reachable(s)
    requires AllFromSamples(w, strerror, timing, m, n, pre) && CT.Readings(pre) >= 3
    requires AllFromSamples(w, strerror, timing, m, n, post + [last]) && CT.Ticks(post) >= 144
    requires last.Tick? && last.writeOk
    ensures var shown := C.After(trims, C.Run(trims, C.Run(trims, s, pre), post), last);
            var target := SettledTarget(Sampled(w, strerror, Started(w, timing), m).device.gain, light.0);
            && 25 <= target <= 4015
            && shown.g == target as real
            && shown.latch == FrameOf(trims, last.t, target)
            && !C.FastTick(shown)
  {
    hide Sampled, Started, SteadySince, AllFromSamples, CT.Reachable, CT.Readings, CT.Repeats, CT.Ticks, C.Run, C.After;
    hide SettledCount, BrightnessMap, FrameOf, C.FastTick;
    SteadyReadingsRepeat(w, strerror, timing, m, n, light, pre);
    SteadyReadingsRepeat(w, strerror, timing, m, n, light, post + [last]);
    CT.EqualReadingsSettle(trims, s, pre, post, last,
                           SettledCount(Sampled(w, strerror, Started(w, timing), m).device.gain, light.0));
  }
}
