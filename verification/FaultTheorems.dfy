/**
 What failing transactions do to the driver, told from the fault schedule alone: what each operation returns and
 leaves behind, what a failed read reports, and how it moves the gain.
*/
module FaultTheorems {
  import opened Basics
  import opened Lux
  import opened Driver
  import opened DriverTheorems

  // -------------------------------------------------------- a closed driver

  /** A closed driver makes no transaction: every operation records the error -1 and changes nothing else. */
  lemma {:induction false} ClosedDriverIsInert(w: World, d: Device, ops: seq<Op>)
    requires !d.isOpen
    ensures Run(w, d, ops) == if ops == [] then d else d.(lastErr := -1)
    ensures SetGain(w, d, X1).1 == SetGain(w, d, X16).1 == -1
    ensures forall time: IntegrationTime :: SetIntegrationTime(w, d, time).1 == -1
    ensures forall autogain: bool :: SenseLight(w, d, autogain).Failed?
    ensures GetData(w, d) == (d.(lastErr := -1), Counts(0, 0, None))
  {
    if ops != [] {
      ClosedDriverIsInert(w, d, ops[..|ops| - 1]);
    }
  }

  /**
   Opening makes no transaction when it fails, and says why. When it succeeds it makes the six of the two settings,
   each of which is in the struct exactly if its TIMING write, the second of its three, got through.
  */
  lemma OpenOutcome(w: World, d: Device, openErr: int, slaveErr: int)
    ensures var (e, rc) := Open(w, d, openErr, slaveErr);
            && (rc == 0 <==> !d.isOpen && openErr == 0 && slaveErr == 0)
            && (rc == 0 ==>
                  && e.isOpen && e.step == d.step + 6
                  && e.time == (if w.fault(d.step + 1) == 0 then Ms402 else d.time)
                  && e.gain == (if w.fault(d.step + 4) == 0 then X16 else d.gain))
            && (rc != 0 ==>
                  && rc == -1
                  && e == d.(lastErr := if d.isOpen then -1 else if openErr != 0 then openErr else slaveErr))
  {
    hide SetIntegrationTime, SetGain;
    var d0 := d.(isOpen := true);
    SetOutcome(w, d0, Ms402, X16);
    SetOutcome(w, SetIntegrationTime(w, d0, Ms402).0, Ms402, X16);
  }

  // ------------------------------------------------------------ the settings

  /** Whether the chip is on after a power-off at transaction k. */
  function OnAfterOff(w: World, on: bool, k: nat): bool {
    on && w.fault(k) != 0
  }

  /** Setting the time or the gain takes three transactions, and succeeds exactly if the second one does. */
  lemma SetOutcome(w: World, d: Device, time: IntegrationTime, gain: Gain)
    requires d.isOpen
    ensures var (e, rc) := SetIntegrationTime(w, d, time);
            && rc == (if w.fault(d.step + 1) == 0 then 0 else -1)
            && e.isOpen && e.step == d.step + 3 && e.gain == d.gain && e.held == d.held
            && e.time == (if rc == 0 then time else d.time)
            && e.timing == (if rc == 0 then TimingCode(time, d.gain) else d.timing)
            && e.powered == OnAfterOff(w, IsOn(w, d), d.step + 2)
    ensures var (e, rc) := SetGain(w, d, gain);
            && rc == (if w.fault(d.step + 1) == 0 then 0 else -1)
            && e.isOpen && e.step == d.step + 3 && e.time == d.time && e.held == d.held
            && e.gain == (if rc == 0 then gain else d.gain)
            && e.timing == (if rc == 0 then TimingCode(d.time, gain) else d.timing)
            && e.powered == OnAfterOff(w, IsOn(w, d), d.step + 2)
  {
    TimingWriteOutcome(w, d, TimingCode(time, d.gain));
    TimingWriteOutcome(w, d, TimingCode(d.time, gain));
  }

  lemma TimingWriteOutcome(w: World, d: Device, code: nat)
    requires d.isOpen && code < 0x100
    ensures var (written, rc) := Write8(w, PowerOn(w, d), Timing, code);
            var e := PowerOff(w, written);
            && rc == (if w.fault(d.step + 1) == 0 then 0 else -1)
            && e.isOpen && e.step == d.step + 3 && e.time == d.time && e.gain == d.gain && e.held == d.held
            && e.timing == (if rc == 0 then code else d.timing)
            && e.powered == OnAfterOff(w, IsOn(w, d), d.step + 2)
  {
  }

  // ---------------------------------------------------------------- a reading

  /** What a read reports from the two transactions k and k + 1: -1 as a 16-bit number if the select fails. */
  function Reported(w: World, k: nat, count: uint16): uint16 {
    if w.fault(k) != 0 then 65535 else if w.fault(k + 1) != 0 then 0 else count
  }

  /** The transaction that selects channel 1: a failed select of channel 0 is not followed by a fetch. */
  function SecondSelect(w: World, d: Device): nat {
    d.step + if w.fault(d.step + 1) != 0 then 2 else 3
  }

  /** The whole reading from the schedule: both reported counts, how long it takes, and whether the chip stays on. */
  lemma ReadingOutcome(w: World, d: Device)
    requires d.isOpen
    ensures var (e, c) := GetData(w, d);
            var k := SecondSelect(w, d);
            var data := DataRegisters(w, d);
            && c.fs == Reported(w, d.step + 1,
                                if IsOn(w, d) then ChipCount(d.timing, w.light0(d.step + 2)) else data.count0)
            && c.ir == Reported(w, k, if IsOn(w, d) then ChipCount(d.timing, w.light1(k + 1)) else data.count1)
            && e.isOpen && e.step == k + (if w.fault(k) != 0 then 2 else 3)
            && e.time == d.time && e.gain == d.gain && e.timing == d.timing
            && e.powered == OnAfterOff(w, IsOn(w, d), e.step - 1)
  {
    hide ChipCount, Read16, DataRegisters;
    var on := PowerOn(w, d);
    var d0 := Read16(w, on, false).0;
    ReadOutcome(w, on, false);
    ReadOutcome(w, d0, true);
    assert DataRegisters(w, on) == DataRegisters(w, d) by { SameRegisters(w, d, on); }
    assert !on.powered ==> DataRegisters(w, d0) == DataRegisters(w, on) by {
      if !on.powered { SameRegisters(w, on, d0); }
    }
  }

  lemma SameRegisters(w: World, d: Device, e: Device)
    requires e.held == d.held
    ensures DataRegisters(w, e) == DataRegisters(w, d)
  {
  }

  lemma ReadOutcome(w: World, d: Device, infrared: bool)
    requires d.isOpen
    ensures var (e, x, _) := Read16(w, d, infrared);
            var data := DataRegisters(w, d);
            && x == Reported(w, d.step,
                             if d.powered then ChipCount(d.timing, if infrared then w.light1(d.step + 1)
                                                                   else w.light0(d.step + 1))
                             else if infrared then data.count1 else data.count0)
            && e == d.(lastErr := e.lastErr, step := d.step + (if w.fault(d.step) != 0 then 1 else 2), held := e.held)
            && (!d.powered ==> e.held == d.held)
  {
    hide ChipCount;
  }

  // ------------------------------------------------------- a call, and its gain

  /** The gain change a call attempts, and whether it gets through. */
  lemma CallGain(w: World, d: Device, autogain: bool)
    requires d.isOpen
    ensures var (d1, c1) := GetData(w, d);
            var r := SenseLight(w, d, autogain);
            r.Reading? && r.device.isOpen && r.device.time == d.time
            && r.device.gain == match Change(d, c1.fs, autogain)
                                case None => d.gain
                                case Some(gain) => if w.fault(d1.step + 1) == 0 then gain else d.gain
  {
    hide GetData, SetGain, CalculateLux;
    var (d1, c1) := GetData(w, d);
    ReadingOutcome(w, d);
    SenseIsLastReading(w, d, autogain);
    var e := LastReading(w, d, autogain);
    ReadingOutcome(w, e);
    var change := Change(d, c1.fs, autogain);
    if change.Some? {
      SetOutcome(w, d1, d.time, change.value);
    }
  }

  /** A single reading never changes the gain, and nor does a call without the automatic one. */
  lemma ManualCallKeepsGain(w: World, d: Device)
    requires d.isOpen
    ensures SenseLight(w, d, false).device.gain == d.gain
    ensures SenseLight(w, d, false) == Evaluate(GetData(w, d).0, GetData(w, d).1)
  {
    hide GetData, CalculateLux;
    CallGain(w, d, false);
  }

  /** A reading whose select of channel 0 fails looks like too much light, one whose fetch fails like too little. */
  lemma FailedReadDecides(w: World, d: Device)
    requires d.isOpen
    ensures w.fault(d.step + 1) != 0 ==>
              Change(d, GetData(w, d).1.fs, true) == if d.gain == X16 then Some(X1) else None
    ensures w.fault(d.step + 1) == 0 && w.fault(d.step + 2) != 0 ==>
              Change(d, GetData(w, d).1.fs, true) == if d.gain == X1 then Some(X16) else None
  {
    hide GetData;
    ReadingOutcome(w, d);
  }

  /** In the transactions of this call only number k fails. */
  ghost predicate OnlyFault(w: World, d: Device, k: nat) {
    && d.step <= k < SenseLight(w, d, true).device.step
    && forall j: nat :: d.step <= j < SenseLight(w, d, true).device.step ==> (w.fault(j) != 0 <==> j == k)
  }

  /**
   Whatever the light and the gain before: a call of which only the select of channel 0 in its first reading fails
   ends at 1X, and one of which only the fetch of channel 0 fails ends at 16X.
  */
  lemma FaultMovesGain(w: World, d: Device)
    requires d.isOpen
    ensures OnlyFault(w, d, d.step + 1) ==> SenseLight(w, d, true).device.gain == X1
    ensures OnlyFault(w, d, d.step + 2) ==> SenseLight(w, d, true).device.gain == X16
  {
    hide GetData, SenseLight;
    var d1 := GetData(w, d).0;
    ReadingOutcome(w, d);
    FailedReadDecides(w, d);
    CallGain(w, d, true);
    CallEnds(w, d);
  }

  /** A call whose first reading asks for a change makes the three transactions of the change. */
  lemma CallEnds(w: World, d: Device)
    requires d.isOpen
    ensures var (d1, c1) := GetData(w, d);
            SenseLight(w, d, true).device.step >= d1.step + if Change(d, c1.fs, true).Some? then 3 else 0
  {
    hide GetData, SetGain, CalculateLux;
    var (d1, c1) := GetData(w, d);
    ReadingOutcome(w, d);
    SenseIsLastReading(w, d, true);
    ReadingOutcome(w, LastReading(w, d, true));
    var change := Change(d, c1.fs, true);
    if change.Some? {
      SetOutcome(w, d1, d.time, change.value);
    }
  }

  /** The gain a fault leaves outlives the call: light inside the band never corrects it. */
  lemma FaultOutlivesCall(w: World, d: Device, lights: seq<(nat, nat)>)
    requires d.isOpen && Shadowed(d) && SteadyPerCall(w, Calls(w, d, 1), lights)
    requires forall i :: 0 <= i < |lights| ==> 16 * AgcLow(d.time) <= lights[i].0 <= AgcHigh(d.time)
    ensures OnlyFault(w, d, d.step + 1) ==> Calls(w, Calls(w, d, 1), |lights|).gain == X1
    ensures OnlyFault(w, d, d.step + 2) ==> Calls(w, Calls(w, d, 1), |lights|).gain == X16
  {
    hide SenseLight, OnlyFault, SteadyPerCall;
    var e := Calls(w, d, 1);
    assert e == SenseLight(w, d, true).device by { assert Calls(w, d, 0) == d; }
    FaultMovesGain(w, d);
    CallGain(w, d, true);
    SenseKeepsShadow(w, d, true);
    assert Shadowed(e);
    GainRestsInBand(w, e, lights, 0);
    assert Calls(w, e, 0) == e;
  }

  /** What a call reports when a transfer of its last reading fails, whatever the light. */
  lemma FailedCallReports(w: World, d: Device, autogain: bool)
    requires d.isOpen
    ensures var r, e := SenseLight(w, d, autogain), LastReading(w, d, autogain);
            && r.Reading?
            && (w.fault(e.step + 1) != 0 ==> r.counts.fs == 65535)
            && (w.fault(e.step + 1) == 0 && w.fault(e.step + 2) != 0 ==> r.counts.fs == 0)
            && (w.fault(SecondSelect(w, e)) != 0 ==> r.counts.ir == 65535)
            && (w.fault(SecondSelect(w, e)) == 0 && w.fault(SecondSelect(w, e) + 1) != 0 ==> r.counts.ir == 0)
            && (!TransfersSucceed(w, e) ==> r.counts.taken == None)
  {
    hide GetData, SenseLight, LastReading, CalculateLux, ChipCount;
    SenseIsLastReading(w, d, autogain);
    ReadingOutcome(w, LastReading(w, d, autogain));
    DataTaken(w, LastReading(w, d, autogain));
  }

  /** For example: at 402 ms and 16X under light 30000, losing one select ends the call at 1X with the count 1875. */
  lemma LostSelectAt16X(w: World, d: Device)
    requires d.isOpen && Shadowed(d) && d.time == Ms402 && d.gain == X16 && OnlyFault(w, d, d.step + 1)
    requires w.light0(LastReading(w, d, true).step + 2) == 30000
    ensures var r := SenseLight(w, d, true); r.device.gain == X1 && r.counts.fs == 1875
  {
    hide GetData, SenseLight, LastReading, CalculateLux, Change;
    FaultMovesGain(w, d);
    LastReadingAfterSelect(w, d);
    SenseIsLastReading(w, d, true);
    ReadingOutcome(w, LastReading(w, d, true));
  }

  lemma LastReadingAfterSelect(w: World, d: Device)
    requires d.isOpen && Shadowed(d) && d.time == Ms402 && d.gain == X16 && OnlyFault(w, d, d.step + 1)
    ensures var e := LastReading(w, d, true);
            e.step == d.step + 8 && e.isOpen && e.timing == TimingCode(Ms402, X1) && w.fault(e.step) == 0
            && w.fault(e.step + 1) == 0 && w.fault(e.step + 2) == 0
  {
    hide GetData, SetGain, SenseLight, CalculateLux;
    ReadingOutcome(w, d);
    FailedReadDecides(w, d);
    CallEnds(w, d);
    var d1 := GetData(w, d).0;
    SetOutcome(w, d1, d.time, X1);
    var e := LastReading(w, d, true);
    SenseIsLastReading(w, d, true);
    ReadingOutcome(w, e);
    assert SenseLight(w, d, true).device.step >= e.step + 4;
  }
}
