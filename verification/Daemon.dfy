/**
 The daemon's sampling: it opens the sensor, then keeps a cached text line with the latest reading, which
 is what every client gets.
*/
module Daemon {
  import opened Basics
  import opened Lux
  import opened Driver
  import opened Tsl2561
  import opened Wire

  /** The driver, the globals broadband, ir and lux, and cachedBuff. */
  datatype Cache = Cache(device: Device, broadband: uint16, ir: uint16, lux: nat, line: string)

  /** init_tsl2561 with the device file opened: the driver sets 402 ms and 16X, the daemon then asks for 1X. */
  function Started(w: World, timing: nat): Cache {
    Cache(SetGain(w, Open(w, Init(timing), 0, 0).0, X1).0, 0, 0, 0, "")
  }

  /** sample_sensor; strerror is the C library's table. */
  function Sample(w: World, strerror: int -> string, c: Cache): Cache {
    match SenseLight(w, SetIntegrationTime(w, c.device, Ms402).0, true)
    case Failed(d) =>
      Cache(d, c.broadband, c.ir, c.lux, Cached(Line(-1, strerror(d.lastErr), c.broadband, c.ir, c.lux)))
    case Reading(d, counts, lux) =>
      Cache(d, counts.fs, counts.ir, lux, Cached(Line(0, strerror(d.lastErr), counts.fs, counts.ir, lux)))
  }

  function Sampled(w: World, strerror: int -> string, c: Cache, n: nat): Cache {
    if n == 0 then c else Sample(w, strerror, Sampled(w, strerror, c, n - 1))
  }

  /** The daemon's globals, updated in place. */
  class LightDaemon {
    const sensor: Sensor
    const strerror: int -> string
    var broadband: uint16
    var ir: uint16
    var lux: nat
    var cachedBuff: string

    ghost function Model(): Cache
      reads this, sensor, sensor.chip
    {
      Cache(sensor.Model(), broadband, ir, lux, cachedBuff)
    }

    constructor (sensor: Sensor, strerror: int -> string)
      ensures this.sensor == sensor && this.strerror == strerror
      ensures Model() == Cache(sensor.Model(), 0, 0, 0, "")
    {
      this.sensor, this.strerror := sensor, strerror;
      broadband, ir, lux, cachedBuff := 0, 0, 0, "";
    }

    /** rc is 1 where the daemon exits because the sensor could not be opened. */
    method InitTsl2561(openErr: int, slaveErr: int) returns (rc: int)
      requires !sensor.isOpen
      modifies sensor, sensor.chip
      ensures rc == if openErr == 0 && slaveErr == 0 then 0 else 1
      ensures rc == 0 ==>
        Model() == old(Model()).(device := SetGain(sensor.chip.world,
                                                   Open(sensor.chip.world, old(sensor.Model()), 0, 0).0, X1).0)
    {
      rc := sensor.Open(openErr, slaveErr);
      if rc != 0 {
        return 1;
      }
      var ignored := sensor.SetGain(X1);
    }

    method SampleSensor()
      modifies this, sensor, sensor.chip
      ensures Model() == Sample(sensor.chip.world, strerror, old(Model()))
    {
      var rc := sensor.SetIntegrationTime(Ms402);
      ghost var taken;
      rc, broadband, ir, lux, taken := sensor.SenseLight(true, broadband, ir, lux);
      cachedBuff := Cached(Line(rc, strerror(sensor.lastErr), broadband, ir, lux));
    }
  }
}
