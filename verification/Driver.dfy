/**
 The TSL2561 driver and the chip behind it. The chip keeps a TIMING register that the driver
 shadows in its struct; every bus transaction may fail, as an arbitrary schedule decides.
*/
module Driver {
  import opened Basics
  import opened Lux

  // ------------------------------------------------------------------ codes

  function TimeCode(time: IntegrationTime): nat {
    match time case Ms13 => 0x00 case Ms101 => 0x01 case Ms402 => 0x02
  }

  function GainCode(gain: Gain): nat {
    match gain case X1 => 0x00 case X16 => 0x10
  }

  /** `integration_time | gain`: the two fields share no bit. */
  function TimingCode(time: IntegrationTime, gain: Gain): (code: nat)
    ensures code < 0x100
  {
    TimeCode(time) + GainCode(gain)
  }

  function AgcHigh(time: IntegrationTime): uint16 {
    match time case Ms13 => 4850 case Ms101 => 36000 case Ms402 => 63000
  }

  function AgcLow(time: IntegrationTime): uint16 {
    match time case Ms13 => 100 case Ms101 => 200 case Ms402 => 500
  }

  // --------------------------------------------------------- chip and world

  /** The count the converter stops at, from the integration field of TIMING. */
  function Cap(timing: nat): uint16 {
    match timing % 4 case 0 => 5047 case 1 => 37177 case _ => 65535
  }

  /** What the converter counts under a light given in 16X counts. */
  function ChipCount(timing: nat, light: nat): uint16 {
    var raw := if timing / 16 % 2 == 1 then light else light / 16;
    if raw < Cap(timing) then raw else Cap(timing)
  }

  /** What the chip's data registers hold: a count of each channel, and the TIMING they were converted under. */
  datatype Conversion = Conversion(count0: uint16, count1: uint16, timing: nat)

  /**
   What the run of the program does not decide: per bus transaction the errno it fails with (0 when it succeeds)
   and the light on both channels; and what the chip's data registers held before the program started.
  */
  datatype World = World(fault: nat -> int, light0: nat -> nat, light1: nat -> nat, before: Conversion)

  datatype Register = Control | Timing

  /**
   The driver's struct (time, gain, isOpen for adapter_fd, lastErr), the chip (timing, powered, and held for what it
   converted since the start), the number of bus transactions so far and of TIMING writes the chip has accepted.
  */
  datatype Device = Device(time: IntegrationTime, gain: Gain, isOpen: bool, lastErr: int,
                           timing: nat, powered: bool, step: nat, accepted: nat, held: Option<Conversion>)

  // ---------------------------------------------------- the driver as functions

  function Write8(w: World, d: Device, reg: Register, value: nat): (r: (Device, int)) {
    if !d.isOpen then
      (d.(lastErr := -1), -1)
    else if w.fault(d.step) != 0 then
      (d.(lastErr := w.fault(d.step), step := d.step + 1), -1)
    else
      match reg
      case Control => (d.(powered := value == 0x03, step := d.step + 1), 0)
      case Timing => (d.(timing := value % 0x100, step := d.step + 1, accepted := d.accepted + 1), 0)
  }

  function PowerOn(w: World, d: Device): Device {
    Write8(w, d, Control, 0x03).0
  }

  function PowerOff(w: World, d: Device): Device {
    Write8(w, d, Control, 0x00).0
  }

  /** What the converter makes of the light at transaction k. */
  function ConversionAt(w: World, timing: nat, k: nat): Conversion {
    Conversion(ChipCount(timing, w.light0(k)), ChipCount(timing, w.light1(k)), timing)
  }

  /** A chip that is on has converted the present light by the time it is read; one that is off keeps its data. */
  function Convert(w: World, d: Device): Device {
    if d.powered then d.(held := Some(ConversionAt(w, d.timing, d.step))) else d
  }

  function DataRegisters(w: World, d: Device): Conversion {
    match d.held case None => w.before case Some(conversion) => conversion
  }

  /**
   The register address is written, then two bytes are read; failures return -1 and 0. The last
   component is the TIMING the value was converted under, if both transfers succeeded.
  */
  function Read16(w: World, d: Device, infrared: bool): (r: (Device, uint16, Option<nat>)) {
    if !d.isOpen then
      (d.(lastErr := -1), 0, None)
    else if w.fault(d.step) != 0 then
      (d.(lastErr := w.fault(d.step), step := d.step + 1), 0xFFFF, None)
    else
      var on := Convert(w, d.(step := d.step + 1));
      var data := DataRegisters(w, on);
      if w.fault(on.step) != 0 then
        (on.(lastErr := w.fault(on.step), step := on.step + 1), 0, None)
      else
        (on.(step := on.step + 1), if infrared then data.count1 else data.count0, Some(data.timing))
  }

  /** Both channels, and the TIMING both were converted under, if all transfers succeeded. */
  datatype Counts = Counts(fs: uint16, ir: uint16, taken: Option<nat>)

  function GetData(w: World, d: Device): (Device, Counts) {
    var (d0, fs, taken0) := Read16(w, PowerOn(w, d), false);
    var (d1, ir, taken1) := Read16(w, d0, true);
    (PowerOff(w, d1), Counts(fs, ir, if taken0 == taken1 then taken0 else None))
  }

  function SetIntegrationTime(w: World, d: Device, time: IntegrationTime): (Device, int) {
    if !d.isOpen then
      (d.(lastErr := -1), -1)
    else
      var (written, rc) := Write8(w, PowerOn(w, d), Timing, TimingCode(time, d.gain));
      var off := PowerOff(w, written);
      if rc == 0 then (off.(time := time), 0) else (off, -1)
  }

  function SetGain(w: World, d: Device, gain: Gain): (Device, int) {
    if !d.isOpen then
      (d.(lastErr := -1), -1)
    else
      var (written, rc) := Write8(w, PowerOn(w, d), Timing, TimingCode(d.time, gain));
      var off := PowerOff(w, written);
      if rc == 0 then (off.(gain := gain), 0) else (off, -1)
  }

  /** The struct as TSL2561_INIT fills it, over a chip in any state. */
  function Init(timing: nat): Device {
    Device(Ms402, X16, false, 0, timing, false, 0, 0, None)
  }

  /** The errors of open() and of the I2C_SLAVE ioctl are given; 0 is success. */
  function Open(w: World, d: Device, openErr: int, slaveErr: int): (Device, int) {
    if d.isOpen then (d.(lastErr := -1), -1)
    else if openErr != 0 then (d.(lastErr := openErr), -1)
    else if slaveErr != 0 then (d.(lastErr := slaveErr), -1)
    else (SetGain(w, SetIntegrationTime(w, d.(isOpen := true), Ms402).0, X16).0, 0)
  }

  /** One call of TSL2561_SENSELIGHT: what it returns and what it leaves behind. */
  datatype Sensed = Failed(device: Device) | Reading(device: Device, counts: Counts, lux: nat)

  function Evaluate(d: Device, c: Counts): Sensed {
    Reading(d, c, CalculateLux(d.time, d.gain, c.fs, c.ir).value)
  }

  function SenseLight(w: World, d: Device, autogain: bool): Sensed {
    if !d.isOpen then Failed(d.(lastErr := -1))
    else
      var (d1, c1) := GetData(w, d);
      if !autogain then Evaluate(d1, c1)
      else if c1.fs < AgcLow(d.time) && d1.gain == X1 then
        var (d2, c2) := GetData(w, SetGain(w, d1, X16).0);
        Evaluate(d2, c2)
      else if c1.fs > AgcHigh(d.time) && d1.gain == X16 then
        var (d2, c2) := GetData(w, SetGain(w, d1, X1).0);
        Evaluate(d2, c2)
      else Evaluate(d1, c1)
  }
}
