/**
 The driver as the C code runs it: a struct and a chip updated in place, each operation proved
 to do exactly what its function in module Driver says.
*/
module Tsl2561 {
  import opened Basics
  import opened Lux
  import opened Driver

  /** The chip on the bus. */
  class Chip {
    const world: World
    var timing: nat
    var powered: bool
    var step: nat
    var accepted: nat
    var held: Option<Conversion>

    constructor (world: World, timing: nat)
      ensures this.world == world && this.timing == timing
      ensures !powered && step == 0 && accepted == 0 && held == None
    {
      this.world, this.timing := world, timing;
      powered, step, accepted, held := false, 0, 0, None;
    }

    /** One bus write; err is the errno of a failed one, which leaves the registers alone. */
    method Write(reg: Register, value: nat) returns (err: int)
      modifies this
      ensures err == world.fault(old(step)) && step == old(step) + 1
      ensures timing == if err == 0 && reg == Timing then value % 0x100 else old(timing)
      ensures accepted == old(accepted) + if err == 0 && reg == Timing then 1 else 0
      ensures powered == if err == 0 && reg == Control then value == 0x03 else old(powered)
      ensures held == old(held)
    {
      err := world.fault(step);
      step := step + 1;
      if err == 0 {
        match reg
        case Control => powered := value == 0x03;
        case Timing => timing, accepted := value % 0x100, accepted + 1;
      }
    }

    /** A transaction that selects a register changes none. */
    method Transfer() returns (err: int)
      modifies this`step
      ensures err == world.fault(old(step)) && step == old(step) + 1
    {
      err := world.fault(step);
      step := step + 1;
    }

    /** While it is on, the chip has converted the present light by the time its data are fetched. */
    method Fetch() returns (err: int, data: Conversion)
      modifies this`step, this`held
      ensures err == world.fault(old(step)) && step == old(step) + 1
      ensures held == if powered
                      then Some(ConversionAt(world, timing, old(step)))
                      else old(held)
      ensures data == match held case None => world.before case Some(conversion) => conversion
    {
      if powered {
        held := Some(ConversionAt(world, timing, step));
      }
      data := match held case None => world.before case Some(conversion) => conversion;
      err := world.fault(step);
      step := step + 1;
    }
  }

  class Sensor {
    const chip: Chip
    var time: IntegrationTime
    var gain: Gain
    var isOpen: bool
    var lastErr: int

    ghost function Model(): Device
      reads this, chip
    {
      Device(time, gain, isOpen, lastErr, chip.timing, chip.powered, chip.step, chip.accepted, chip.held)
    }

    constructor (chip: Chip)
      requires chip.step == 0 && chip.accepted == 0 && !chip.powered && chip.held == None
      ensures this.chip == chip && Model() == Init(chip.timing)
    {
      this.chip := chip;
      time, gain, isOpen, lastErr := Ms402, X16, false, 0;
    }

    method Write8(reg: Register, value: nat) returns (rc: int)
      modifies this, chip
      ensures (Model(), rc) == Driver.Write8(chip.world, old(Model()), reg, value)
    {
      if !isOpen {
        lastErr := -1;
        return -1;
      }
      var err := chip.Write(reg, value);
      if err != 0 {
        lastErr := err;
        return -1;
      }
      return 0;
    }

    method Read16(infrared: bool) returns (x: uint16, ghost taken: Option<nat>)
      modifies this, chip
      ensures (Model(), x, taken) == Driver.Read16(chip.world, old(Model()), infrared)
    {
      if !isOpen {
        lastErr := -1;
        return 0, None;
      }
      var err := chip.Transfer();
      if err != 0 {
        lastErr := err;
        return 0xFFFF, None;
      }
      var data;
      err, data := chip.Fetch();
      if err != 0 {
        lastErr := err;
        return 0, None;
      }
      // the chip sends the low byte first
      var word := if infrared then data.count1 else data.count0;
      var low, high := word % 0x100, word / 0x100;
      x, taken := high * 0x100 + low, Some(data.timing);
    }

    method GetData() returns (fs: uint16, ir: uint16, ghost taken: Option<nat>)
      modifies this, chip
      ensures (Model(), Counts(fs, ir, taken)) == Driver.GetData(chip.world, old(Model()))
    {
      var rc := Write8(Control, 0x03);
      ghost var taken0, taken1;
      fs, taken0 := Read16(false);
      ir, taken1 := Read16(true);
      taken := if taken0 == taken1 then taken0 else None;
      rc := Write8(Control, 0x00);
    }

    method SetIntegrationTime(newTime: IntegrationTime) returns (rc: int)
      modifies this, chip
      ensures (Model(), rc) == Driver.SetIntegrationTime(chip.world, old(Model()), newTime)
    {
      if !isOpen {
        lastErr := -1;
        return -1;
      }
      var ignored := Write8(Control, 0x03);
      rc := Write8(Timing, TimingCode(newTime, gain));
      ignored := Write8(Control, 0x00);
      if rc == 0 {
        time := newTime;
      } else {
        rc := -1;
      }
    }

    method SetGain(newGain: Gain) returns (rc: int)
      modifies this, chip
      ensures (Model(), rc) == Driver.SetGain(chip.world, old(Model()), newGain)
    {
      if !isOpen {
        lastErr := -1;
        return -1;
      }
      var ignored := Write8(Control, 0x03);
      rc := Write8(Timing, TimingCode(time, newGain));
      ignored := Write8(Control, 0x00);
      if rc == 0 {
        gain := newGain;
      } else {
        rc := -1;
      }
    }

    method Open(openErr: int, slaveErr: int) returns (rc: int)
      modifies this, chip
      ensures (Model(), rc) == Driver.Open(chip.world, old(Model()), openErr, slaveErr)
    {
      if isOpen {
        lastErr := -1;
        return -1;
      }
      if openErr != 0 {
        lastErr := openErr;
        return -1;
      }
      if slaveErr != 0 {
        lastErr := slaveErr;
        return -1;
      }
      isOpen := true;
      var ignored := SetIntegrationTime(Ms402);
      ignored := SetGain(X16);
      rc := 0;
    }

    /** The out-parameters are left alone when the call fails. */
    method SenseLight(autogain: bool, fs0: uint16, ir0: uint16, lux0: nat)
      returns (rc: int, fs: uint16, ir: uint16, lux: nat, ghost taken: Option<nat>)
      modifies this, chip
      ensures match Driver.SenseLight(chip.world, old(Model()), autogain)
              case Failed(d) => Model() == d && rc == -1 && fs == fs0 && ir == ir0 && lux == lux0
              case Reading(d, c, l) => Model() == d && rc == 0 && Counts(fs, ir, taken) == c && lux == l
    {
      rc, fs, ir, lux, taken := -1, fs0, ir0, lux0, None;
      if !isOpen {
        lastErr := -1;
        return;
      }
      if !autogain {
        fs, ir, taken := GetData();
        lux := CalculateLux(time, gain, fs, ir).value;
        rc := 0;
        return;
      }
      var hi, lo := AgcHigh(time), AgcLow(time);
      fs, ir, taken := GetData();
      if fs < lo && gain == X1 {
        var ignored := SetGain(X16);
        fs, ir, taken := GetData();
      } else if fs > hi && gain == X16 {
        var ignored := SetGain(X1);
        fs, ir, taken := GetData();
      }
      lux := CalculateLux(time, gain, fs, ir).value;
      rc := 0;
    }
  }
}
