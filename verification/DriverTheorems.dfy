/**
 What holds over every run of the driver, whatever transactions fail: errors stick, the shadow
 of the TIMING register is right, lux uses the settings its counts were taken with, and the
 automatic gain settles with hysteresis.
*/
module DriverTheorems {
  import opened Arithmetic
  import opened Basics
  import opened Lux
  import opened Driver

  datatype Op = SetTimeTo(time: IntegrationTime) | SetGainTo(gain: Gain) | Sense(autogain: bool)

  function Apply(w: World, d: Device, op: Op): Device {
    match op
    case SetTimeTo(time) => SetIntegrationTime(w, d, time).0
    case SetGainTo(gain) => SetGain(w, d, gain).0
    case Sense(autogain) => SenseLight(w, d, autogain).device
  }

  function Run(w: World, d: Device, ops: seq<Op>): Device {
    if ops == [] then d else Apply(w, Run(w, d, ops[..|ops| - 1]), ops[|ops| - 1])
  }

  // ---------------------------------------------------------- sticky errors

  /** No transaction from number `from` up to `to` failed. */
  ghost predicate Clean(w: World, from: nat, to: nat) {
    forall k: nat :: from <= k < to ==> w.fault(k) == 0
  }

  /** The errno of the last transaction from number `from` up to `end` that failed, or what was there before. */
  function LatestFault(w: World, from: nat, end: nat, before: int): int {
    if end <= from then before
    else if w.fault(end - 1) != 0 then w.fault(end - 1)
    else LatestFault(w, from, end - 1, before)
  }

  lemma {:induction false} LatestInTwo(w: World, from: nat, middle: nat, end: nat, before: int)
    requires from <= middle <= end
    ensures LatestFault(w, from, end, before) == LatestFault(w, middle, end, LatestFault(w, from, middle, before))
    decreases end
  {
    if middle < end {
      LatestInTwo(w, from, middle, end - 1, before);
    }
  }

  /**
   From d to e the driver stayed open; lasterr is the errno of the last failure since, and zero exactly if it was and
   nothing failed.
  */
  ghost predicate Follows(w: World, d: Device, e: Device) {
    && e.isOpen
    && d.step <= e.step
    && e.lastErr == LatestFault(w, d.step, e.step, d.lastErr)
    && (e.lastErr == 0 <==> d.lastErr == 0 && Clean(w, d.step, e.step))
  }

  lemma Write8Follows(w: World, d: Device, reg: Register, value: nat)
    requires d.isOpen
    ensures Follows(w, d, Write8(w, d, reg, value).0)
  {
    assert LatestFault(w, d.step, d.step, d.lastErr) == d.lastErr;
  }

  lemma Read16Follows(w: World, d: Device, infrared: bool)
    requires d.isOpen
    ensures Follows(w, d, Read16(w, d, infrared).0)
  {
    assert LatestFault(w, d.step, d.step, d.lastErr) == d.lastErr;
    assert w.fault(d.step) == 0 ==> LatestFault(w, d.step, d.step + 1, d.lastErr) == d.lastErr;
    if w.fault(d.step) == 0 && w.fault(d.step + 1) == 0 {
      assert Clean(w, d.step, d.step + 2);
    }
  }

  lemma FollowsTransitive(w: World, d: Device, e: Device, f: Device)
    requires Follows(w, d, e) && Follows(w, e, f)
    ensures Follows(w, d, f)
  {
    LatestInTwo(w, d.step, e.step, f.step, d.lastErr);
  }

  lemma GetDataFollows(w: World, d: Device)
    requires d.isOpen
    ensures Follows(w, d, GetData(w, d).0)
  {
    var on := PowerOn(w, d);
    var d0 := Read16(w, on, false).0;
    var d1 := Read16(w, d0, true).0;
    Write8Follows(w, d, Control, 0x03);
    Read16Follows(w, on, false);
    FollowsTransitive(w, d, on, d0);
    Read16Follows(w, d0, true);
    FollowsTransitive(w, d, d0, d1);
    Write8Follows(w, d1, Control, 0x00);
    FollowsTransitive(w, d, d1, PowerOff(w, d1));
  }

  lemma TimingWriteFollows(w: World, d: Device, code: nat)
    requires d.isOpen
    ensures Follows(w, d, PowerOff(w, Write8(w, PowerOn(w, d), Timing, code).0))
  {
    var on := PowerOn(w, d);
    var written := Write8(w, on, Timing, code).0;
    Write8Follows(w, d, Control, 0x03);
    Write8Follows(w, on, Timing, code);
    FollowsTransitive(w, d, on, written);
    Write8Follows(w, written, Control, 0x00);
    FollowsTransitive(w, d, written, PowerOff(w, written));
  }

  lemma SetTimeFollows(w: World, d: Device, time: IntegrationTime)
    requires d.isOpen
    ensures Follows(w, d, SetIntegrationTime(w, d, time).0)
  {
    TimingWriteFollows(w, d, TimingCode(time, d.gain));
  }

  lemma SetGainFollows(w: World, d: Device, gain: Gain)
    requires d.isOpen
    ensures Follows(w, d, SetGain(w, d, gain).0)
  {
    TimingWriteFollows(w, d, TimingCode(d.time, gain));
  }

  lemma SenseFollows(w: World, d: Device, autogain: bool)
    requires d.isOpen
    ensures Follows(w, d, SenseLight(w, d, autogain).device)
  {
    var d1 := GetData(w, d).0;
    GetDataFollows(w, d);
    forall gain: Gain
      ensures Follows(w, d, GetData(w, SetGain(w, d1, gain).0).0)
    {
      var set1 := SetGain(w, d1, gain).0;
      SetGainFollows(w, d1, gain);
      FollowsTransitive(w, d, d1, set1);
      GetDataFollows(w, set1);
      FollowsTransitive(w, d, set1, GetData(w, set1).0);
    }
  }

  lemma FollowsSelf(w: World, d: Device)
    requires d.isOpen
    ensures Follows(w, d, d)
  {
    assert LatestFault(w, d.step, d.step, d.lastErr) == d.lastErr;
  }

  lemma OpenAfter(w: World, d: Device, e: Device)
    requires Follows(w, d, e)
    ensures e.isOpen
  {
  }

  /** Over any run of an open driver, lasterr is the errno of the last failure, zero as long as nothing has failed. */
  lemma {:induction false} ErrorsStick(w: World, d: Device, ops: seq<Op>)
    requires d.isOpen
    ensures Follows(w, d, Run(w, d, ops))
  {
    hide Follows, SetIntegrationTime, SetGain, SenseLight;
    if ops == [] {
      FollowsSelf(w, d);
      assert Run(w, d, ops) == d;
    } else {
      var init, last := ops[..|ops| - 1], ops[|ops| - 1];
      ErrorsStick(w, d, init);
      var e := Run(w, d, init);
      assert e.isOpen by { OpenAfter(w, d, e); }
      match last {
        case SetTimeTo(time) => SetTimeFollows(w, e, time);
        case SetGainTo(gain) => SetGainFollows(w, e, gain);
        case Sense(autogain) => SenseFollows(w, e, autogain);
      }
      FollowsTransitive(w, d, e, Run(w, d, ops));
    }
  }

  // --------------------------------------------------- the shadowed register

  predicate Shadowed(d: Device) {
    d.timing == TimingCode(d.time, d.gain)
  }

  /**
   An operation that got a TIMING write through leaves the shadow right; one that did not leaves
   both the shadow and the register alone.
  */
  ghost predicate ShadowKept(d: Device, e: Device) {
    if e.accepted > d.accepted then Shadowed(e)
    else e.accepted == d.accepted && e.timing == d.timing && e.time == d.time && e.gain == d.gain
  }

  /** A read moves only the step, lasterr and the data registers. */
  lemma ReadKeepsRest(w: World, d: Device, infrared: bool)
    ensures var e := Read16(w, d, infrared).0; e == d.(lastErr := e.lastErr, step := e.step, held := e.held)
  {
    hide ConversionAt;
  }

  lemma GetDataKeepsShadow(w: World, d: Device)
    ensures ShadowKept(d, GetData(w, d).0) && GetData(w, d).0.accepted == d.accepted
  {
    hide Read16;
    var on := PowerOn(w, d);
    ReadKeepsRest(w, on, false);
    ReadKeepsRest(w, Read16(w, on, false).0, true);
  }

  /** A TIMING write between power-on and power-off either reaches the register or changes nothing. */
  lemma TimingWriteLands(w: World, d: Device, code: nat)
    requires code < 0x100
    ensures var (written, rc) := Write8(w, PowerOn(w, d), Timing, code);
            var off := PowerOff(w, written);
            && off.time == d.time && off.gain == d.gain
            && off.timing == (if rc == 0 then code else d.timing)
            && off.accepted == d.accepted + if rc == 0 then 1 else 0
  {
  }

  lemma SetKeepsShadow(w: World, d: Device, time: IntegrationTime, gain: Gain)
    ensures ShadowKept(d, SetIntegrationTime(w, d, time).0)
    ensures ShadowKept(d, SetGain(w, d, gain).0)
  {
    TimingWriteLands(w, d, TimingCode(time, d.gain));
    TimingWriteLands(w, d, TimingCode(d.time, gain));
  }

  lemma SenseKeepsShadow(w: World, d: Device, autogain: bool)
    ensures ShadowKept(d, SenseLight(w, d, autogain).device)
  {
    hide GetData, SetGain, CalculateLux, TimingCode;
    var d1 := GetData(w, d).0;
    GetDataKeepsShadow(w, d);
    SetKeepsShadow(w, d1, d.time, X1);
    SetKeepsShadow(w, d1, d.time, X16);
    GetDataKeepsShadow(w, SetGain(w, d1, X1).0);
    GetDataKeepsShadow(w, SetGain(w, d1, X16).0);
  }

  lemma {:induction false} RunKeepsShadow(w: World, d: Device, ops: seq<Op>)
    ensures ShadowKept(d, Run(w, d, ops))
  {
    if ops != [] {
      var init, last := ops[..|ops| - 1], ops[|ops| - 1];
      RunKeepsShadow(w, d, init);
      var e := Run(w, d, init);
      match last
      case SetTimeTo(time) => SetKeepsShadow(w, e, time, X1);
      case SetGainTo(gain) => SetKeepsShadow(w, e, Ms402, gain);
      case Sense(autogain) => SenseKeepsShadow(w, e, autogain);
    }
  }

  /**
   From start-up, in every later state and for every interleaving of failures, the struct agrees with
   the chip exactly if some TIMING write got through or the chip happened to start at 0x12.
  */
  lemma ShadowAgreesIff(w: World, timing: nat, ops: seq<Op>)
    ensures var d := Run(w, Open(w, Init(timing), 0, 0).0, ops);
            Shadowed(d) <==> d.accepted > 0 || timing == 0x12
  {
    var d0 := Init(timing).(isOpen := true);
    var d1 := SetIntegrationTime(w, d0, Ms402).0;
    var d2 := SetGain(w, d1, X16).0;
    SetKeepsShadow(w, d0, Ms402, X16);
    SetKeepsShadow(w, d1, Ms402, X16);
    RunKeepsShadow(w, d2, ops);
  }

  // ------------------------------------------------- the last reading of a call

  /** The gain change a call makes after its first reading, if any. */
  function Change(d: Device, fs: uint16, autogain: bool): Option<Gain> {
    if autogain && fs < AgcLow(d.time) && d.gain == X1 then Some(X16)
    else if autogain && fs > AgcHigh(d.time) && d.gain == X16 then Some(X1)
    else None
  }

  /** The device at the start of the reading a call reports. */
  function LastReading(w: World, d: Device, autogain: bool): Device {
    var (d1, c1) := GetData(w, d);
    match Change(d, c1.fs, autogain)
    case None => d
    case Some(gain) => SetGain(w, d1, gain).0
  }

  lemma GetDataKeepsSettings(w: World, d: Device)
    requires d.isOpen
    ensures var e := GetData(w, d).0; e.time == d.time && e.gain == d.gain && e.timing == d.timing
  {
    hide Read16;
    var on := PowerOn(w, d);
    ReadKeepsRest(w, on, false);
    ReadKeepsRest(w, Read16(w, on, false).0, true);
  }

  /** Every call of an open driver reports its last reading, evaluated with the settings it left. */
  lemma SenseIsLastReading(w: World, d: Device, autogain: bool)
    requires d.isOpen
    ensures var e := LastReading(w, d, autogain);
            && e.isOpen && d.step <= e.step
            && SenseLight(w, d, autogain) == Evaluate(GetData(w, e).0, GetData(w, e).1)
            && (Shadowed(d) ==> Shadowed(e))
  {
    hide GetData, SetGain, Shadowed, Clean, CalculateLux;
    var (d1, c1) := GetData(w, d);
    GetDataFollows(w, d);
    GetDataKeepsSettings(w, d);
    var change := Change(d, c1.fs, autogain);
    if change.Some? {
      SetGainFollows(w, d1, change.value);
      GainChangeKeepsShadow(w, d, d1, change.value);
    }
  }

  lemma GainChangeKeepsShadow(w: World, d: Device, d1: Device, gain: Gain)
    requires d1.time == d.time && d1.gain == d.gain && d1.timing == d.timing
    ensures Shadowed(d) ==> Shadowed(SetGain(w, d1, gain).0)
  {
    SetKeepsShadow(w, d1, d.time, gain);
  }

  // ----------------------------------------------------- settings in force

  /** The chip is on in the reading that starts here: power-on succeeds, or it was on already. */
  predicate IsOn(w: World, d: Device) {
    w.fault(d.step) == 0 || d.powered
  }

  predicate TransfersSucceed(w: World, d: Device) {
    && w.fault(d.step + 1) == 0 && w.fault(d.step + 2) == 0
    && w.fault(d.step + 3) == 0 && w.fault(d.step + 4) == 0
  }

  /** The counts of the light at the reading that starts with device d, under the given settings. */
  predicate CountedAt(w: World, d: Device, c: Counts, timing: nat) {
    && c.taken == Some(timing)
    && c.fs == ChipCount(timing, w.light0(d.step + 2))
    && c.ir == ChipCount(timing, w.light1(d.step + 4))
  }

  /** The counts are the ones an earlier conversion left in the registers. */
  predicate CountedBefore(data: Conversion, c: Counts) {
    c == Counts(data.count0, data.count1, Some(data.timing))
  }

  /** A reading gets counts of the present light from a chip that is on, and the retained ones from one that is off. */
  lemma DataTaken(w: World, d: Device)
    requires d.isOpen
    ensures var c := GetData(w, d).1;
            if !TransfersSucceed(w, d) then c.taken == None
            else if IsOn(w, d) then CountedAt(w, d, c, d.timing)
            else CountedBefore(DataRegisters(w, d), c)
  {
    hide ChipCount;
  }

  /** The lux of a call is computed with the gain and time its counts were taken under. */
  predicate InForce(r: Sensed) {
    r.Reading? && r.counts.taken == Some(TimingCode(r.device.time, r.device.gain))
  }

  /** What was in the data registers before the reading was converted under the present TIMING as well. */
  predicate SameSettings(w: World, d: Device) {
    DataRegisters(w, d).timing == d.timing
  }

  /**
   Once the struct agrees with the chip, the lux of a call is computed with the gain and time in force when its
   counts were taken if and only if the four transfers of the last reading succeeded and the chip was on, or was off
   with data of the same settings; also when the gain change in mid-call failed. The counts of a chip that is on are
   of the light of that moment.
  */
  lemma LuxUsesSettingsInForceIff(w: World, d: Device, autogain: bool)
    requires d.isOpen && Shadowed(d)
    ensures var r, e := SenseLight(w, d, autogain), LastReading(w, d, autogain);
            && r.Reading?
            && r.lux == CalculateLux(r.device.time, r.device.gain, r.counts.fs, r.counts.ir).value
            && (InForce(r) <==> TransfersSucceed(w, e) && (IsOn(w, e) || SameSettings(w, e)))
            && (TransfersSucceed(w, e) ==>
                  if IsOn(w, e) then CountedAt(w, e, r.counts, TimingCode(r.device.time, r.device.gain))
                  else CountedBefore(DataRegisters(w, e), r.counts))
  {
    hide GetData, LastReading, SenseLight, TransfersSucceed, IsOn, ChipCount, CalculateLux;
    var e := LastReading(w, d, autogain);
    SenseIsLastReading(w, d, autogain);
    GetDataKeepsSettings(w, e);
    DataTaken(w, e);
  }

  // ------------------------------------------------- where the counts come from

  /** What the chip has converted since the start is a count of the light at some moment, under the TIMING noted. */
  ghost predicate Genuine(w: World, d: Device) {
    d.held.Some? ==> exists k: nat :: k < d.step && d.held.value == ConversionAt(w, d.held.value.timing, k)
  }

  lemma GenuineKept(w: World, d: Device, e: Device)
    requires Genuine(w, d) && e.held == d.held && d.step <= e.step
    ensures Genuine(w, e)
  {
  }

  lemma ReadKeepsGenuine(w: World, d: Device, infrared: bool)
    requires Genuine(w, d)
    ensures Genuine(w, Read16(w, d, infrared).0)
  {
    hide ConversionAt;
    var e := Read16(w, d, infrared).0;
    if e.held == d.held {
      GenuineKept(w, d, e);
    } else {
      assert e.held == Some(ConversionAt(w, d.timing, d.step + 1)) && d.step + 1 < e.step;
      TimingOfConversion(w, d.timing, d.step + 1);
    }
  }

  lemma TimingOfConversion(w: World, timing: nat, k: nat)
    ensures ConversionAt(w, timing, k).timing == timing
  {
  }

  lemma GetDataKeepsGenuine(w: World, d: Device)
    requires Genuine(w, d)
    ensures Genuine(w, GetData(w, d).0)
  {
    hide Read16, Genuine;
    var on := PowerOn(w, d);
    var d0 := Read16(w, on, false).0;
    var d1 := Read16(w, d0, true).0;
    GenuineKept(w, d, on);
    ReadKeepsGenuine(w, on, false);
    ReadKeepsGenuine(w, d0, true);
    GenuineKept(w, d1, PowerOff(w, d1));
  }

  lemma SetKeepsGenuine(w: World, d: Device, time: IntegrationTime, gain: Gain)
    requires Genuine(w, d)
    ensures Genuine(w, SetIntegrationTime(w, d, time).0) && Genuine(w, SetGain(w, d, gain).0)
  {
    hide Genuine, SetIntegrationTime, SetGain;
    SetKeepsHeld(w, d, time, gain);
    GenuineKept(w, d, SetIntegrationTime(w, d, time).0);
    GenuineKept(w, d, SetGain(w, d, gain).0);
  }

  lemma SetKeepsHeld(w: World, d: Device, time: IntegrationTime, gain: Gain)
    ensures var e := SetIntegrationTime(w, d, time).0; e.held == d.held && e.step >= d.step
    ensures var e := SetGain(w, d, gain).0; e.held == d.held && e.step >= d.step
  {
    WriteKeepsHeld(w, d, TimingCode(time, d.gain));
    WriteKeepsHeld(w, d, TimingCode(d.time, gain));
  }

  lemma WriteKeepsHeld(w: World, d: Device, code: nat)
    ensures var e := PowerOff(w, Write8(w, PowerOn(w, d), Timing, code).0); e.held == d.held && e.step >= d.step
  {
  }

  lemma SenseKeepsGenuine(w: World, d: Device, autogain: bool)
    requires Genuine(w, d)
    ensures Genuine(w, SenseLight(w, d, autogain).device)
  {
    hide GetData, SetGain, Genuine, CalculateLux;
    var d1 := GetData(w, d).0;
    GenuineKept(w, d, d.(lastErr := -1));
    GetDataKeepsGenuine(w, d);
    SetKeepsGenuine(w, d1, d.time, X1);
    SetKeepsGenuine(w, d1, d.time, X16);
    GetDataKeepsGenuine(w, SetGain(w, d1, X1).0);
    GetDataKeepsGenuine(w, SetGain(w, d1, X16).0);
  }

  /** Over any run, whatever fails, the data registers keep a count of some earlier light. */
  lemma {:induction false} RunKeepsGenuine(w: World, d: Device, ops: seq<Op>)
    requires Genuine(w, d)
    ensures Genuine(w, Run(w, d, ops))
  {
    hide Genuine, SetGain, SetIntegrationTime, SenseLight;
    if ops != [] {
      var init, last := ops[..|ops| - 1], ops[|ops| - 1];
      RunKeepsGenuine(w, d, init);
      var e := Run(w, d, init);
      match last
      case SetTimeTo(time) => SetKeepsGenuine(w, e, time, X1);
      case SetGainTo(gain) => SetKeepsGenuine(w, e, Ms402, gain);
      case Sense(autogain) => SenseKeepsGenuine(w, e, autogain);
    }
  }

  /** A run in which only the power-on after a successful raise of the gain fails. */
  function LostPowerOn(): World {
    World(k => if k == 9 then 5 else 0, _ => 7000, _ => 0, Conversion(0, 0, 0))
  }

  /** An open driver at 402 ms whose shadow is right, after the given number of transactions. */
  function Idling(gain: Gain, step: nat, lastErr: int, accepted: nat, held: Option<Conversion>): Device {
    Device(Ms402, gain, true, lastErr, TimingCode(Ms402, gain), false, step, accepted, held)
  }

  lemma StaleFirst()
    ensures GetData(LostPowerOn(), Idling(X1, 0, 0, 0, None)) ==
            (Idling(X1, 6, 0, 0, Some(Conversion(437, 0, 0x02))), Counts(437, 0, Some(0x02)))
  {
  }

  lemma StaleRaise(held: Option<Conversion>)
    ensures SetGain(LostPowerOn(), Idling(X1, 6, 0, 0, held), X16).0 == Idling(X16, 9, 0, 1, held)
  {
  }

  lemma StaleSecond(held: Option<Conversion>)
    requires held == Some(Conversion(437, 0, 0x02))
    ensures GetData(LostPowerOn(), Idling(X16, 9, 0, 1, held)) ==
            (Idling(X16, 15, 5, 1, held), Counts(437, 0, Some(0x02)))
  {
  }

  lemma StaleLux()
    ensures CalculateLux(Ms402, X16, 437, 0).value == 13
    ensures CalculateLux(Ms402, X1, 437, 0).value == 213 && CalculateLux(Ms402, X16, 7000, 0).value == 213
  {
    hide LuxOfChannels;
    LuxWithoutInfrared(437);
    LuxWithoutInfrared(6992);
    LuxWithoutInfrared(7000);
  }

  lemma LuxWithoutInfrared(channel0: nat)
    requires 0 < channel0 < 0x1_0000
    ensures LuxOfChannels(channel0, 0) == Some((498 * channel0 + 0x2000) / 0x4000)
  {
    hide LuxOnLine;
    QuotientBelow(0, channel0, 1);
    assert Ratio32(channel0, 0) == 0;
    assert SelectSegment(0) == Some(1);
    FirstLine(channel0);
  }

  lemma FirstLine(channel0: nat)
    requires channel0 < 0x1_0000
    ensures LuxOnLine(Some(1), channel0, 0) == Some((498 * channel0 + 0x2000) / 0x4000)
  {
    assert B(1) == 498 && M(1) == 446;
    assert channel0 * B(1) == 498 * channel0;
  }

  /**
   It can go wrong: the unpowered chip still returns the count of 437 it took at 1X, and the
   lux is computed at 16X. The driver reports 13 lux where both counts of this light mean 213.
  */
  lemma StaleCountsMisread()
    ensures var r := SenseLight(LostPowerOn(), Idling(X1, 0, 0, 0, None), true);
            && r == Reading(Idling(X16, 15, 5, 1, Some(Conversion(437, 0, 0x02))), Counts(437, 0, Some(0x02)), 13)
            && Shadowed(r.device) && !InForce(r)
    ensures CalculateLux(Ms402, X1, 437, 0).value == 213 && CalculateLux(Ms402, X16, 7000, 0).value == 213
  {
    hide GetData, SetGain, CalculateLux, LostPowerOn;
    var held := Some(Conversion(437, 0, 0x02));
    StaleFirst();
    StaleRaise(held);
    StaleSecond(held);
    StaleLux();
  }

  /** The counts are those of the light at the moments of the last reading, as the chip counted it. */
  predicate TrueCounts(w: World, d: Device, c: Counts) {
    && d.step >= 6
    && c.fs == ChipCount(d.timing, w.light0(d.step - 4))
    && c.ir == ChipCount(d.timing, w.light1(d.step - 2))
  }

  lemma CleanPart(w: World, from: nat, to: nat, start: nat, end: nat)
    requires Clean(w, from, to) && from <= start && end <= to
    ensures Clean(w, start, end)
  {
  }

  /** A reading none of whose transactions failed makes six of them and leaves the chip off. */
  lemma CleanData(w: World, d: Device)
    requires d.isOpen && Clean(w, d.step, GetData(w, d).0.step)
    ensures GetData(w, d).0 == d.(step := d.step + 6, powered := false, held := GetData(w, d).0.held)
    ensures CountedAt(w, d, GetData(w, d).1, d.timing)
  {
    hide GetData;
    CleanDataDevice(w, d);
    assert w.fault(d.step) == 0 && w.fault(d.step + 1) == 0 && w.fault(d.step + 2) == 0
        && w.fault(d.step + 3) == 0 && w.fault(d.step + 4) == 0;
    DataTaken(w, d);
  }

  lemma CleanDataDevice(w: World, d: Device)
    requires d.isOpen && Clean(w, d.step, GetData(w, d).0.step)
    ensures GetData(w, d).0 == d.(step := d.step + 6, powered := false, held := GetData(w, d).0.held)
  {
    hide Read16;
    var on := PowerOn(w, d);
    var d0 := Read16(w, on, false).0;
    var d1 := Read16(w, d0, true).0;
    GetDataFollows(w, d);
    ReadKeepsRest(w, on, false);
    ReadKeepsRest(w, d0, true);
    Read16Follows(w, on, false);
    Read16Follows(w, d0, true);
    assert w.fault(d.step) == 0;
    CleanPart(w, d.step, GetData(w, d).0.step, on.step, d0.step);
    CleanRead(w, on, false);
    CleanPart(w, d.step, GetData(w, d).0.step, d0.step, d1.step);
    CleanRead(w, d0, true);
    assert w.fault(d1.step) == 0;
  }

  lemma CleanRead(w: World, d: Device, infrared: bool)
    requires d.isOpen && Clean(w, d.step, Read16(w, d, infrared).0.step)
    ensures Read16(w, d, infrared).0.step == d.step + 2 && Read16(w, d, infrared).0.lastErr == d.lastErr
  {
    hide ConversionAt;
    assert w.fault(d.step) == 0 && w.fault(d.step + 1) == 0;
  }

  /** As long as nothing has failed, what a call reports is what the chip counted in its last reading. */
  lemma CleanSense(w: World, d: Device, autogain: bool)
    requires d.isOpen && Clean(w, 0, SenseLight(w, d, autogain).device.step)
    ensures var r := SenseLight(w, d, autogain); r.Reading? && TrueCounts(w, r.device, r.counts)
  {
    hide GetData, LastReading, SenseLight, Clean, CalculateLux, ChipCount;
    var e := LastReading(w, d, autogain);
    SenseIsLastReading(w, d, autogain);
    CleanPart(w, 0, GetData(w, e).0.step, e.step, GetData(w, e).0.step);
    CleanData(w, e);
  }

  // ---------------------------------------------------------------- autogain

  /** The gain after one call under light L, as the driver decides it from its first count. */
  function NextGain(time: IntegrationTime, gain: Gain, light: nat): Gain {
    var fs := ChipCount(TimingCode(time, gain), light);
    if fs < AgcLow(time) && gain == X1 then X16
    else if fs > AgcHigh(time) && gain == X16 then X1
    else gain
  }

  /** The hysteresis band: below 16 times the low threshold 16X, above the high one 1X. */
  function Verdict(time: IntegrationTime, gain: Gain, light: nat): Gain {
    if light < 16 * AgcLow(time) then X16
    else if light > AgcHigh(time) then X1
    else gain
  }

  lemma GainVerdict(time: IntegrationTime, gain: Gain, light: nat)
    ensures NextGain(time, gain, light) == Verdict(time, gain, light)
  {
  }

  /** Where the converter stops: at 5047, 37177 and 65535 counts. */
  function FullScale(time: IntegrationTime): uint16 {
    match time case Ms13 => 5047 case Ms101 => 37177 case Ms402 => 65535
  }

  /** What a count means: the light at 16X, a sixteenth of it at 1X, each up to full scale. */
  lemma CountMeansLight(time: IntegrationTime, gain: Gain, light: nat)
    ensures var count := ChipCount(TimingCode(time, gain), light);
            var unit := if gain == X1 then 16 else 1;
            && (count == FullScale(time) <==> light >= FullScale(time) * unit)
            && (count < FullScale(time) ==> count * unit <= light < count * unit + unit)
            && count <= FullScale(time)
  {
  }

  /**
   The band in numbers: at 13.7 ms a call goes to 16X below 1600 and to 1X above 4850, at 101 ms below 3200 and above
   36000, at 402 ms below 8000 and above 63000, and keeps its gain in between.
  */
  lemma BandInNumbers(gain: Gain, light: nat)
    ensures NextGain(Ms13, gain, light) == if light < 1600 then X16 else if light > 4850 then X1 else gain
    ensures NextGain(Ms101, gain, light) == if light < 3200 then X16 else if light > 36000 then X1 else gain
    ensures NextGain(Ms402, gain, light) == if light < 8000 then X16 else if light > 63000 then X1 else gain
  {
    GainVerdict(Ms13, gain, light);
    GainVerdict(Ms101, gain, light);
    GainVerdict(Ms402, gain, light);
  }

  /** No fault, and steady light on both channels, from transaction `from` up to `to`. */
  ghost predicate Steady(w: World, from: nat, to: nat, light0: nat, light1: nat) {
    && Clean(w, from, to)
    && forall k: nat :: from <= k < to ==> w.light0(k) == light0 && w.light1(k) == light1
  }

  lemma SteadyPart(w: World, from: nat, to: nat, start: nat, end: nat, light0: nat, light1: nat)
    requires Steady(w, from, to, light0, light1) && from <= start && end <= to
    ensures Steady(w, start, end, light0, light1)
  {
  }

  /** A reading under steady light, from its first transaction to its last. */
  lemma SteadyData(w: World, d: Device, light0: nat, light1: nat)
    requires d.isOpen && Steady(w, d.step, GetData(w, d).0.step, light0, light1)
    ensures GetData(w, d).0 == d.(step := d.step + 6, powered := false, held := GetData(w, d).0.held)
    ensures GetData(w, d).1 == Counts(ChipCount(d.timing, light0), ChipCount(d.timing, light1), Some(d.timing))
  {
    hide GetData, ChipCount;
    CleanData(w, d);
    assert w.light0(d.step + 2) == light0 && w.light1(d.step + 4) == light1;
  }

  lemma SteadyGainChange(w: World, d: Device, gain: Gain)
    requires d.isOpen && Clean(w, d.step, SetGain(w, d, gain).0.step)
    ensures SetGain(w, d, gain).0 ==
            d.(step := d.step + 3, powered := false, gain := gain,
               timing := TimingCode(d.time, gain), accepted := d.accepted + 1)
  {
    assert w.fault(d.step) == 0 && w.fault(d.step + 1) == 0 && w.fault(d.step + 2) == 0;
  }

  /** A call makes at most 15 transactions: two readings of six and a gain change of three. */
  ghost predicate AfterCall(d: Device, e: Device, gain: Gain, calls: nat) {
    e.isOpen && Shadowed(e) && d.step <= e.step <= d.step + 15 * calls && e.time == d.time && e.gain == gain
  }

  /** One call on a working bus under steady light, from its first transaction to its last. */
  ghost predicate SteadyCallAt(w: World, d: Device, light: (nat, nat)) {
    Steady(w, d.step, SenseLight(w, d, true).device.step, light.0, light.1)
  }

  /** The counts of a light under the settings a call left behind. */
  predicate CountsOf(r: Sensed, light: (nat, nat)) {
    && r.Reading?
    && r.counts == Counts(ChipCount(r.device.timing, light.0), ChipCount(r.device.timing, light.1),
                          Some(r.device.timing))
  }

  /** A call none of whose transactions fails: every driver call so far, and this one. */
  ghost predicate CleanCall(w: World, d: Device) {
    d.isOpen && Shadowed(d) && Clean(w, d.step, SenseLight(w, d, true).device.step)
  }

  /** The gain a call decides on, from the light of its first reading alone. */
  function Decision(w: World, d: Device): Gain {
    Verdict(d.time, d.gain, w.light0(d.step + 2))
  }

  lemma FirstReading(w: World, d: Device)
    requires CleanCall(w, d)
    ensures var (d1, c1) := GetData(w, d);
            && d1 == d.(step := d.step + 6, powered := false, held := d1.held)
            && Change(d, c1.fs, true) == if Decision(w, d) == d.gain then None else Some(Decision(w, d))
  {
    hide GetData, Clean, SetGain;
    var (d1, c1) := GetData(w, d);
    GetDataFollows(w, d);
    FirstReadingEnds(w, d);
    CleanPart(w, d.step, SenseLight(w, d, true).device.step, d.step, d1.step);
    CleanData(w, d);
    GainVerdict(d.time, d.gain, w.light0(d.step + 2));
  }

  lemma FirstReadingEnds(w: World, d: Device)
    requires d.isOpen
    ensures GetData(w, d).0.step <= SenseLight(w, d, true).device.step
  {
    hide GetData, SetGain, Clean;
    var (d1, c1) := GetData(w, d);
    GetDataFollows(w, d);
    forall gain: Gain
      ensures d1.step <= GetData(w, SetGain(w, d1, gain).0).0.step
    {
      SetGainFollows(w, d1, gain);
      GetDataFollows(w, SetGain(w, d1, gain).0);
    }
  }

  /** The reading a clean call reports starts from a device with the gain decided on. */
  lemma CleanLastReading(w: World, d: Device)
    requires CleanCall(w, d)
    ensures var e, g := LastReading(w, d, true), Decision(w, d);
            && e.isOpen && Shadowed(e) && e.time == d.time && e.gain == g
            && e.step == d.step + if g == d.gain then 0 else 9
  {
    hide GetData, Clean, SenseLight, Verdict;
    FirstReading(w, d);
    SenseIsLastReading(w, d, true);
    var d1, g := GetData(w, d).0, Decision(w, d);
    if g != d.gain {
      SetGainFollows(w, d1, g);
      var e := SetGain(w, d1, g).0;
      GetDataFollows(w, e);
      CleanPart(w, d.step, SenseLight(w, d, true).device.step, d1.step, e.step);
      SteadyGainChange(w, d1, g);
    }
  }

  lemma SteadyClean(w: World, from: nat, to: nat, light0: nat, light1: nat)
    requires Steady(w, from, to, light0, light1)
    ensures Clean(w, from, to)
  {
  }

  /** A clean call, however the light moves meanwhile, leaves the gain its first reading decided on. */
  lemma CleanCallGain(w: World, d: Device)
    requires CleanCall(w, d)
    ensures AfterCall(d, SenseLight(w, d, true).device, Decision(w, d), 1)
    ensures d.step + 6 <= SenseLight(w, d, true).device.step
  {
    hide GetData, Clean, SenseLight, LastReading, Verdict;
    var e := LastReading(w, d, true);
    CleanLastReading(w, d);
    SenseIsLastReading(w, d, true);
    GetDataFollows(w, e);
    CleanPart(w, d.step, SenseLight(w, d, true).device.step, e.step, GetData(w, e).0.step);
    CleanData(w, e);
  }

  /** One call on a working bus: the gain goes to the verdict, the counts are the chip's at that gain. */
  lemma SteadyCall(w: World, d: Device, light: (nat, nat))
    requires d.isOpen && Shadowed(d) && SteadyCallAt(w, d, light)
    ensures var r := SenseLight(w, d, true);
            AfterCall(d, r.device, Verdict(d.time, d.gain, light.0), 1) && CountsOf(r, light)
  {
    hide GetData, Clean, SenseLight, LastReading, ChipCount, Verdict;
    var e, end := LastReading(w, d, true), SenseLight(w, d, true).device.step;
    SteadyClean(w, d.step, end, light.0, light.1);
    CleanCallGain(w, d);
    assert w.light0(d.step + 2) == light.0;
    CleanLastReading(w, d);
    SenseIsLastReading(w, d, true);
    SteadyPart(w, d.step, end, e.step, GetData(w, e).0.step, light.0, light.1);
    SteadyData(w, e, light.0, light.1);
  }

  /** How long a call takes: six transactions, or fifteen if it changes the gain. */
  function Duration(time: IntegrationTime, gain: Gain, light: nat): nat {
    if Verdict(time, gain, light) == gain then 6 else 15
  }

  /** Light that is steady for that long is steady for the whole call. */
  lemma SteadyLongEnough(w: World, d: Device, light: (nat, nat))
    requires d.isOpen && Shadowed(d)
    requires Steady(w, d.step, d.step + Duration(d.time, d.gain, light.0), light.0, light.1)
    ensures SteadyCallAt(w, d, light)
    ensures SenseLight(w, d, true).device.step == d.step + Duration(d.time, d.gain, light.0)
  {
    hide GetData, SetGain, Steady, CalculateLux, ChipCount;
    var n, g := Duration(d.time, d.gain, light.0), Verdict(d.time, d.gain, light.0);
    SteadyClean(w, d.step, d.step + n, light.0, light.1);
    SteadyPart(w, d.step, d.step + n, d.step, d.step + 6, light.0, light.1);
    SixTransactions(w, d);
    SteadyData(w, d, light.0, light.1);
    GainVerdict(d.time, d.gain, light.0);
    if g != d.gain {
      var d1 := GetData(w, d).0;
      ThreeTransactions(w, d1, g);
      SixTransactions(w, SetGain(w, d1, g).0);
    }
  }

  lemma SixTransactions(w: World, d: Device)
    requires d.isOpen && Clean(w, d.step, d.step + 6)
    ensures GetData(w, d).0.step == d.step + 6 && GetData(w, d).0.isOpen
  {
    assert w.fault(d.step) == 0 && w.fault(d.step + 1) == 0 && w.fault(d.step + 2) == 0
        && w.fault(d.step + 3) == 0 && w.fault(d.step + 4) == 0 && w.fault(d.step + 5) == 0;
  }

  lemma ThreeTransactions(w: World, d: Device, gain: Gain)
    requires d.isOpen && Clean(w, d.step, d.step + 3)
    ensures SetGain(w, d, gain).0.step == d.step + 3 && SetGain(w, d, gain).0.isOpen
  {
    assert w.fault(d.step) == 0 && w.fault(d.step + 1) == 0 && w.fault(d.step + 2) == 0;
  }

  /** n calls in a row. */
  function Calls(w: World, d: Device, n: nat): Device {
    if n == 0 then d else SenseLight(w, Calls(w, d, n - 1), true).device
  }

  /** After a call, a broadband count above the clipping threshold means the gain is already 1X. */
  lemma ClippedOnlyAtLowGain(w: World, d: Device, light: (nat, nat))
    requires d.isOpen && Shadowed(d) && SteadyCallAt(w, d, light)
    ensures var r := SenseLight(w, d, true);
            r.counts.fs > ClipThreshold(d.time) <==>
              r.device.gain == X1 && light.0 >= 16 * (ClipThreshold(d.time) + 1)
  {
    SteadyCall(w, d, light);
    CountAboveClip(d.time, Verdict(d.time, d.gain, light.0), light.0);
  }

  lemma CountAboveClip(time: IntegrationTime, gain: Gain, light: nat)
    ensures ChipCount(TimingCode(time, gain), light) > ClipThreshold(time) <==>
            light >= (if gain == X1 then 16 * (ClipThreshold(time) + 1) else ClipThreshold(time) + 1)
  {
  }

  /** The i-th call, however long it takes, runs on a working bus under the i-th light. */
  ghost predicate SteadyPerCall(w: World, d: Device, lights: seq<(nat, nat)>) {
    forall i: nat :: i < |lights| ==> SteadyCallAt(w, Calls(w, d, i), lights[i])
  }

  /** The gain after the given lights, by the hysteresis band alone. */
  function LastVerdict(time: IntegrationTime, gain: Gain, lights: seq<(nat, nat)>): Gain {
    if lights == [] then gain
    else
      Verdict(time, LastVerdict(time, gain, lights[..|lights| - 1]), lights[|lights| - 1].0)
  }

  /** Only the last light outside the band [16 lo, hi] matters. */
  lemma {:induction false} LightInBandIsIgnored(time: IntegrationTime, gain: Gain, lights: seq<(nat, nat)>, k: nat)
    requires k <= |lights|
    requires forall i :: k <= i < |lights| ==> 16 * AgcLow(time) <= lights[i].0 <= AgcHigh(time)
    ensures LastVerdict(time, gain, lights) == LastVerdict(time, gain, lights[..k])
  {
    if k < |lights| {
      var init := lights[..|lights| - 1];
      assert init[..k] == lights[..k];
      LightInBandIsIgnored(time, gain, init, k);
    } else {
      assert lights[..k] == lights;
    }
  }

  /** Under light that changes from call to call the gain follows the band. */
  lemma {:induction false} GainFollowsLastVerdict(w: World, d: Device, lights: seq<(nat, nat)>)
    requires d.isOpen && Shadowed(d) && SteadyPerCall(w, d, lights)
    ensures AfterCall(d, Calls(w, d, |lights|), LastVerdict(d.time, d.gain, lights), |lights|)
  {
    hide SteadyCallAt, SenseLight, Verdict;
    if lights != [] {
      var n := |lights| - 1;
      assert forall i: nat :: i < n ==> lights[..n][i] == lights[i];
      GainFollowsLastVerdict(w, d, lights[..n]);
      NextCall(w, d, n, LastVerdict(d.time, d.gain, lights[..n]), lights[n]);
    }
  }

  lemma NextCall(w: World, d: Device, n: nat, gain: Gain, light: (nat, nat))
    requires AfterCall(d, Calls(w, d, n), gain, n) && SteadyCallAt(w, Calls(w, d, n), light)
    ensures AfterCall(d, Calls(w, d, n + 1), Verdict(d.time, gain, light.0), n + 1)
  {
    hide SteadyCallAt, SenseLight, Verdict;
    SteadyCall(w, Calls(w, d, n), light);
  }

  /** While the light stays inside the band, however it moves there, no call changes the gain. */
  lemma GainRestsInBand(w: World, d: Device, lights: seq<(nat, nat)>, k: nat)
    requires d.isOpen && Shadowed(d) && SteadyPerCall(w, d, lights) && k <= |lights|
    requires forall i :: k <= i < |lights| ==> 16 * AgcLow(d.time) <= lights[i].0 <= AgcHigh(d.time)
    ensures Calls(w, d, |lights|).gain == Calls(w, d, k).gain
  {
    hide SteadyCallAt, Calls, LastVerdict;
    assert forall i: nat :: i < k ==> lights[..k][i] == lights[i];
    GainFollowsLastVerdict(w, d, lights);
    GainFollowsLastVerdict(w, d, lights[..k]);
    LightInBandIsIgnored(d.time, d.gain, lights, k);
  }

  /** Hysteresis: a raise in one call and a later lowering mean the light crossed the whole band. */
  lemma RaiseThenLowerCrossesBand(w: World, d: Device, lights: seq<(nat, nat)>, i: nat, j: nat)
    requires d.isOpen && Shadowed(d) && SteadyPerCall(w, d, lights)
    requires i < j < |lights|
    requires Calls(w, d, i).gain == X1 && Calls(w, d, i + 1).gain == X16
    requires Calls(w, d, j).gain == X16 && Calls(w, d, j + 1).gain == X1
    ensures lights[i].0 < 16 * AgcLow(d.time) && lights[j].0 > AgcHigh(d.time)
    ensures 16 * AgcLow(d.time) < AgcHigh(d.time)
  {
    hide Calls, SteadyPerCall;
    assert Verdict(d.time, X1, lights[i].0) == X16 by { CallMovesByVerdict(w, d, lights, i); }
    assert Verdict(d.time, X16, lights[j].0) == X1 by { CallMovesByVerdict(w, d, lights, j); }
  }

  lemma CallMovesByVerdict(w: World, d: Device, lights: seq<(nat, nat)>, i: nat)
    requires d.isOpen && Shadowed(d) && SteadyPerCall(w, d, lights) && i < |lights|
    ensures Calls(w, d, i + 1).gain == Verdict(d.time, Calls(w, d, i).gain, lights[i].0)
  {
    hide SteadyCallAt, SenseLight, Verdict;
    assert forall k: nat :: k < i ==> lights[..i][k] == lights[k];
    GainFollowsLastVerdict(w, d, lights[..i]);
    NextCall(w, d, i, Calls(w, d, i).gain, lights[i]);
  }

  /** Light that rises through the band in three calls: raised, left alone, lowered. */
  function RisingLight(): World {
    World(_ => 0, k => if k < 15 then 7000 else if k < 21 then 30000 else 64000, _ => 0,
          Conversion(0, 0, 0))
  }

  lemma GradualRise()
    ensures var d := Idling(X1, 0, 0, 0, None);
            && SteadyPerCall(RisingLight(), d, [(7000, 0), (30000, 0), (64000, 0)])
            && Calls(RisingLight(), d, 1).gain == X16
            && Calls(RisingLight(), d, 2).gain == X16
            && Calls(RisingLight(), d, 3).gain == X1
  {
    hide SenseLight;
    var w, d := RisingLight(), Idling(X1, 0, 0, 0, None);
    var lights := [(7000, 0), (30000, 0), (64000, 0)];
    assert Calls(w, d, 0) == d;
    SteadyLongEnough(w, d, lights[0]);
    SteadyCall(w, d, lights[0]);
    var d1 := Calls(w, d, 1);
    SteadyLongEnough(w, d1, lights[1]);
    SteadyCall(w, d1, lights[1]);
    var d2 := Calls(w, d, 2);
    SteadyLongEnough(w, d2, lights[2]);
    SteadyCall(w, d2, lights[2]);
    assert Calls(w, d, 3) == SenseLight(w, d2, true).device;
  }

  // --------------------------------------------------------- constant light

  /** Transactions only go forward. */
  lemma {:induction false} CallsGoForward(w: World, d: Device, i: nat, n: nat)
    requires d.isOpen && i <= n
    ensures Calls(w, d, i).isOpen && d.step <= Calls(w, d, i).step <= Calls(w, d, n).step
    decreases n
  {
    hide SenseLight, Clean;
    if i < n {
      CallsGoForward(w, d, i, n - 1);
      CallsGoForward(w, d, n - 1, n - 1);
      SenseFollows(w, Calls(w, d, n - 1), true);
    } else if n > 0 {
      CallsGoForward(w, d, n - 1, n - 1);
      SenseFollows(w, Calls(w, d, n - 1), true);
    }
  }

  /** The same light for n calls. */
  function Constant(light: (nat, nat), n: nat): (lights: seq<(nat, nat)>)
    ensures |lights| == n && forall i: nat :: i < n ==> lights[i] == light
  {
    seq(n, _ => light)
  }

  lemma SteadyEveryCall(w: World, d: Device, n: nat, light: (nat, nat))
    requires d.isOpen && Steady(w, d.step, Calls(w, d, n).step, light.0, light.1)
    ensures SteadyPerCall(w, d, Constant(light, n))
  {
    hide SenseLight, Steady;
    forall i: nat | i < n
      ensures SteadyCallAt(w, Calls(w, d, i), light)
    {
      CallsGoForward(w, d, i, n);
      CallsGoForward(w, d, i + 1, n);
      assert Calls(w, d, i + 1) == SenseLight(w, Calls(w, d, i), true).device;
      SteadyPart(w, d.step, Calls(w, d, n).step, Calls(w, d, i).step, Calls(w, d, i + 1).step, light.0, light.1);
    }
  }

  lemma {:induction false} ConstantVerdict(time: IntegrationTime, gain: Gain, light: (nat, nat), n: nat)
    ensures LastVerdict(time, gain, Constant(light, n)) == if n == 0 then gain else Verdict(time, gain, light.0)
  {
    if n > 0 {
      ConstantVerdict(time, gain, light, n - 1);
      assert Constant(light, n)[..n - 1] == Constant(light, n - 1);
    }
  }

  /**
   Under constant light on a working bus the gain changes at most once over any number of calls,
   and only in the first one.
  */
  lemma AutogainSettles(w: World, d: Device, n: nat, light: (nat, nat))
    requires d.isOpen && Shadowed(d) && Steady(w, d.step, Calls(w, d, n).step, light.0, light.1)
    ensures AfterCall(d, Calls(w, d, n), if n == 0 then d.gain else Verdict(d.time, d.gain, light.0), n)
  {
    hide Calls, Steady, Verdict;
    SteadyEveryCall(w, d, n, light);
    GainFollowsLastVerdict(w, d, Constant(light, n));
    ConstantVerdict(d.time, d.gain, light, n);
  }
}
