/**
 The clock's render loop as a state machine: one tick polls the sensor, steps the ramp, renders,
 writes the buffer to the chips and, the first time only, unblanks the display.
*/
module Clock {
  import opened Basics
  import opened Rounding
  import opened Wire
  import opened Ambient
  import opened Ramp
  import opened Display

  /**
   What happens to the loop: a tick, with the bytes received (if any), the wall-clock time and whether the
   SPI write and the unblanking succeed, or a glitch that puts arbitrary values in the chips' latch.
  */
  datatype Event =
    | Tick(recv: Option<string>, t: Time, writeOk: bool, unblankOk: bool)
    | Glitch(latched: Frame)

  /** The program's state, and the latch and the blanking of the display behind it. */
  datatype State = State(dynamic: bool, history: seq<int>, g: real, target: int, buf: Frame,
                         latch: Frame, unblanked: bool, first: bool)

  /** `clock -t` after spi_init, in front of chips that powered up with any latch contents. */
  function Boot(garbage: Frame): State {
    State(true, [], 0.0, 0, Dark(), garbage, false, true)
  }

  /** The reading get_brightness accepts from what it received. */
  function Accepted(recv: Option<string>): Option<int> {
    match recv
    case None => None
    case Some(bytes) =>
      match ParseLine(bytes)
      case None => None
      case Some(p) => Some(p.broadband)
  }

  function AfterReading(s: State, cb: int): State {
    var history := s.history + [cb];
    s.(history := history, target := if s.dynamic then Target(history) else s.target)
  }

  function AfterPoll(s: State, recv: Option<string>): State {
    match Accepted(recv)
    case None => s
    case Some(cb) => AfterReading(s, cb)
  }

  function AfterRamp(s: State): State {
    if !s.dynamic || s.history == [] then s else s.(g := Step(s.g, s.target as real))
  }

  /** The level a frame is rendered at; levels of the dynamic mode always fit 16 bits. */
  function Level(g: real): uint16 {
    RoundHalfAway(g) % 0x1_0000
  }

  function AfterTick(trims: Trims, s: State, recv: Option<string>, t: Time, writeOk: bool, unblankOk: bool): State {
    AfterFrame(trims, AfterRamp(AfterPoll(s, recv)), t, writeOk, unblankOk)
  }

  /** The part of a tick that follows the ramp: render, write, and unblank the first time. */
  function AfterFrame(trims: Trims, s1: State, t: Time, writeOk: bool, unblankOk: bool): State {
    var buf := Render(trims, t, Level(s1.g), s1.buf);
    s1.(buf := buf,
        latch := if writeOk then buf else s1.latch,
        unblanked := s1.unblanked || (s1.first && unblankOk),
        first := false)
  }

  function After(trims: Trims, s: State, e: Event): State {
    match e
    case Tick(recv, t, writeOk, unblankOk) => AfterTick(trims, s, recv, t, writeOk, unblankOk)
    case Glitch(latched) => s.(latch := latched)
  }

  function Run(trims: Trims, s: State, events: seq<Event>): State {
    if events == [] then s
    else After(trims, Run(trims, s, events[..|events| - 1]), events[|events| - 1])
  }

  /** The loop sleeps for the fast tick; otherwise it sleeps for the idle one. */
  predicate FastTick(s: State) {
    s.dynamic && Ramping(s.g, s.target)
  }

  // ---------------------------------------------------- the loop in place

  class RenderLoop {
    const ambient: AmbientFilter
    const leds: LedBuffer
    var dynamic: bool
    var gvaluef: real
    var target: int
    var latch: Frame
    var unblanked: bool
    var firstFrame: bool

    ghost predicate Valid()
      reads this, ambient, ambient.buffer, leds
    {
      ambient.Valid() && leds.buf.Length == CHANNELS && ambient.buffer != leds.buf
    }

    ghost function Model(): State
      requires Valid()
      reads this, ambient, ambient.buffer, leds, leds.buf
    {
      State(dynamic, ambient.history, gvaluef, target, leds.buf[..], latch, unblanked, firstFrame)
    }

    constructor (trims: Trims, garbage: Frame)
      ensures Valid() && Model() == Boot(garbage) && leds.trims == trims
      ensures fresh(ambient) && fresh(ambient.buffer) && fresh(leds) && fresh(leds.buf)
    {
      ambient := new AmbientFilter();
      leds := new LedBuffer(trims);
      dynamic, gvaluef, target := true, 0.0, 0;
      latch, unblanked, firstFrame := garbage, false, true;
    }

    /** What get_brightness does with a reading it accepts. */
    method Accept(cb: int)
      requires Valid()
      modifies this`target, ambient, ambient.buffer
      ensures Valid() && Model() == AfterReading(old(Model()), cb)
    {
      ambient.AddBrightnessToBuffer(cb);
      ambient.UpdateAverageBrightness();
      if dynamic {
        target := ambient.MapAverage();
      }
    }

    /** get_brightness, given what recv_to delivered. */
    method Poll(recv: Option<string>)
      requires Valid()
      modifies this`target, ambient, ambient.buffer
      ensures Valid() && Model() == AfterPoll(old(Model()), recv)
    {
      var reading := Accepted(recv);
      if reading.Some? {
        Accept(reading.value);
      }
    }

    /** step_brightness_ramp */
    method StepBrightnessRamp()
      requires Valid()
      modifies this`gvaluef
      ensures Valid() && Model() == AfterRamp(old(Model()))
    {
      if !dynamic || ambient.samples == 0 {
        return;
      }
      var goal := target as real;
      if goal < gvaluef {
        var ngval := gvaluef / FACTOR;
        gvaluef := Max(goal, ngval);
      } else if goal > gvaluef {
        if gvaluef <= 0.0 {
          gvaluef := 1.0;
        }
        var ngval := gvaluef * FACTOR;
        gvaluef := Min(goal, ngval);
      }
    }

    /** One pass of the loop in clockfn: the level it publishes and which sleep ends it. */
    method Tick(recv: Option<string>, t: Time, writeOk: bool, unblankOk: bool) returns (level: int, fast: bool)
      requires Valid()
      modifies this, ambient, ambient.buffer, leds.buf
      ensures Valid() && Model() == AfterTick(leds.trims, old(Model()), recv, t, writeOk, unblankOk)
      ensures level == RoundHalfAway(gvaluef)
      ensures fast == FastTick(Model())
    {
      Poll(recv);
      StepBrightnessRamp();
      level := RoundHalfAway(gvaluef);
      ShowFrame(t, writeOk, unblankOk);
      fast := dynamic && RoundHalfAway(gvaluef) != target;
    }

    /** The rest of the pass: render, write the buffer, unblank after the first frame. */
    method ShowFrame(t: Time, writeOk: bool, unblankOk: bool)
      requires Valid()
      modifies this`latch, this`unblanked, this`firstFrame, leds.buf
      ensures Valid() && Model() == AfterFrame(leds.trims, old(Model()), t, writeOk, unblankOk)
    {
      leds.RenderTime(t, Level(gvaluef));
      if writeOk {
        latch := leds.buf[..];
      }
      if firstFrame {
        if unblankOk {
          unblanked := true;
        }
        firstFrame := false;
      }
    }
  }
}
