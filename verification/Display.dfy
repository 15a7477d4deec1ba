/**
 Rendering: the 48-channel buffer of the two LED drivers, the scrambled channel tables, the
 per-digit trims, and what can be read back from the lit channels.
*/
module Display {
  import opened Basics
  import opened Rounding

  const CHANNELS: nat := 48
  const DIGITS: nat := 4
  const SEGMENTS: nat := 7
  const BLANK: nat := 10

  /** segments: the channel of each segment A..G of each digit. */
  function SegmentChannel(digit: nat, index: nat): (c: nat)
    requires digit < DIGITS && index < SEGMENTS
    ensures c < CHANNELS
  {
    match digit
    case 0 => (match index case 0 => 13 case 1 => 12 case 2 => 10 case 3 => 9 case 4 => 8 case 5 => 14 case _ => 15)
    case 1 => (match index case 0 => 17 case 1 => 16 case 2 => 6 case 3 => 5 case 4 => 4 case 5 => 18 case _ => 19)
    case 2 => (match index case 0 => 21 case 1 => 20 case 2 => 2 case 3 => 1 case 4 => 0 case 5 => 22 case _ => 23)
    case _ => (match index case 0 => 45 case 1 => 44 case 2 => 26 case 3 => 25 case 4 => 24 case 5 => 46 case _ => 47)
  }

  /** colon: the PM dot and the two separator dots the clock drives; channel 40 is never written. */
  const PM_CHANNEL: nat := 39
  const COLON_TOP: nat := 43
  const COLON_BOTTOM: nat := 41

  /** f: which segments A..G a value lights; the masks are all ones or all zeros. */
  function Glyph(value: nat): (g: seq<bool>)
    requires value <= BLANK
    ensures |g| == SEGMENTS
  {
    match value
    case 0 => [true, true, true, true, true, true, false]
    case 1 => [false, true, true, false, false, false, false]
    case 2 => [true, true, false, true, true, false, true]
    case 3 => [true, true, true, true, false, false, true]
    case 4 => [false, true, true, false, false, true, true]
    case 5 => [true, false, true, true, false, true, true]
    case 6 => [true, false, true, true, true, true, true]
    case 7 => [true, true, true, false, false, false, false]
    case 8 => [true, true, true, true, true, true, true]
    case 9 => [true, true, true, true, false, true, true]
    case _ => [false, false, false, false, false, false, false]
  }

  /** What each channel is wired to. */
  datatype Owner = Segment(digit: nat, index: nat) | PmDot | ColonDot | Undriven

  function OwnerOf(c: nat): Owner {
    match c
    case 0 => Segment(2, 4) case 1 => Segment(2, 3) case 2 => Segment(2, 2) case 4 => Segment(1, 4)
    case 5 => Segment(1, 3) case 6 => Segment(1, 2) case 8 => Segment(0, 4) case 9 => Segment(0, 3)
    case 10 => Segment(0, 2) case 12 => Segment(0, 1) case 13 => Segment(0, 0) case 14 => Segment(0, 5)
    case 15 => Segment(0, 6) case 16 => Segment(1, 1) case 17 => Segment(1, 0) case 18 => Segment(1, 5)
    case 19 => Segment(1, 6) case 20 => Segment(2, 1) case 21 => Segment(2, 0) case 22 => Segment(2, 5)
    case 23 => Segment(2, 6) case 24 => Segment(3, 4) case 25 => Segment(3, 3) case 26 => Segment(3, 2)
    case 39 => PmDot case 41 => ColonDot case 43 => ColonDot case 44 => Segment(3, 1)
    case 45 => Segment(3, 0) case 46 => Segment(3, 5) case 47 => Segment(3, 6)
    case _ => Undriven
  }

  /** The wiring read backwards, first half: each table entry owns its channel. */
  lemma OwnerOfSegment(d: nat, i: nat)
    requires d < DIGITS && i < SEGMENTS
    ensures OwnerOf(SegmentChannel(d, i)) == Segment(d, i)
  {
  }

  /** Second half: no channel is claimed by a table entry that does not name it. */
  lemma SegmentOfOwner(c: nat)
    ensures OwnerOf(c).Segment? ==>
              && OwnerOf(c).digit < DIGITS && OwnerOf(c).index < SEGMENTS
              && SegmentChannel(OwnerOf(c).digit, OwnerOf(c).index) == c
    ensures OwnerOf(c) == PmDot <==> c == PM_CHANNEL
    ensures OwnerOf(c) == ColonDot <==> c == COLON_TOP || c == COLON_BOTTOM
  {
  }

  // -------------------------------------------------------------- rendering

  /** digit_trim and colon_trim as load_config leaves them. */
  datatype TrimSet = TrimSet(digits: seq<real>, colon: real)

  predicate ValidTrims(t: TrimSet) {
    |t.digits| == DIGITS && (forall d :: 0 <= d < DIGITS ==> 0.0 <= t.digits[d] <= 1.0) && 0.0 <= t.colon <= 1.0
  }

  type Trims = t: TrimSet | ValidTrims(t) witness TrimSet([1.0, 1.0, 1.0, 1.0], 1.0)

  datatype TimeOfDay = TimeOfDay(hour: nat, minute: nat)

  /** A wall-clock time as localtime delivers it. */
  type Time = t: TimeOfDay | t.hour < 24 && t.minute < 60 witness TimeOfDay(0, 0)

  /** A level after its trim, to the nearest unit: it can only shrink, so 12-bit levels stay 12-bit levels. */
  function Trimmed(level: uint16, trim: real): (r: uint16)
    requires 0.0 <= trim <= 1.0
    ensures r <= level
    ensures r as real - 0.5 <= level as real * trim <= r as real + 0.5
  {
    TrimmedInRange(level, trim);
    RoundHalfEven(level as real * trim)
  }

  lemma TrimmedInRange(level: uint16, trim: real)
    requires 0.0 <= trim <= 1.0
    ensures 0 <= RoundHalfEven(level as real * trim) <= level
  {
    var x, y := level as real, level as real * trim;
    assert 0.0 <= y <= x by { TrimShrinks(x, trim); }
    RoundHalfEvenMonotone(0.0, y);
    RoundHalfEvenMonotone(y, x);
    RoundInteger(level);
  }

  lemma TrimShrinks(x: real, trim: real)
    requires x >= 0.0 && 0.0 <= trim <= 1.0
    ensures 0.0 <= x * trim <= x
  {
  }

  lemma TrimmedMonotone(a: uint16, b: uint16, trim: real)
    requires a <= b && 0.0 <= trim <= 1.0
    ensures Trimmed(a, trim) <= Trimmed(b, trim)
  {
    TrimShrinks(b as real - a as real, trim);
    RoundHalfEvenMonotone(a as real * trim, b as real * trim);
  }

  /** `0xFFF & level` for a lit segment, `0x000 & level` for a dark one. */
  function Masked(lit: bool, level: uint16): uint16 {
    if lit then level % 0x1000 else 0
  }

  function NthDigit(x: nat, n: nat): nat
    requires n < 4
  {
    x / [1, 10, 100, 1000][n] % 10
  }

  function TwelveHour(hour: nat): nat {
    (hour + 11) % 12 + 1
  }

  /** The value digit d shows: a leading zero of the hour is blanked. */
  function Shown(t: Time, d: nat): (value: nat)
    requires d < DIGITS
    ensures value <= BLANK
  {
    match d
    case 0 => NthDigit(t.minute, 0)
    case 1 => NthDigit(t.minute, 1)
    case 2 => NthDigit(TwelveHour(t.hour), 0)
    case _ => if NthDigit(TwelveHour(t.hour), 1) == 0 then BLANK else NthDigit(TwelveHour(t.hour), 1)
  }

  /** The value of one channel after rendering; channels of no lamp in use keep theirs. */
  function ChannelValue(trims: Trims, t: Time, level: uint16, c: nat, before: int): int {
    SegmentOfOwner(c);
    match OwnerOf(c)
    case Segment(d, i) => Masked(Glyph(Shown(t, d))[i], Trimmed(level, trims.digits[d]))
    case PmDot => if t.hour >= 12 then Trimmed(level, trims.colon) else 0
    case ColonDot => Trimmed(level, trims.colon)
    case Undriven => before
  }

  type Frame = s: seq<int> | |s| == CHANNELS witness seq(CHANNELS, i => 0)

  /** All channels off, as spi_init leaves the buffer. */
  function Dark(): Frame {
    seq(CHANNELS, i => 0)
  }

  /** The buffer after one pass of the render loop. */
  function Render(trims: Trims, t: Time, level: uint16, before: Frame): Frame {
    seq(CHANNELS, c requires 0 <= c < CHANNELS => ChannelValue(trims, t, level, c, before[c]))
  }

  /** The buffer after one set_digit. */
  function DigitSet(trims: Trims, digit: nat, value: nat, level: uint16, before: Frame): Frame
    requires digit < DIGITS && value <= BLANK
  {
    seq(CHANNELS, c requires 0 <= c < CHANNELS =>
      SegmentOfOwner(c);
      if OwnerOf(c).Segment? && OwnerOf(c).digit == digit
      then Masked(Glyph(value)[OwnerOf(c).index], Trimmed(level, trims.digits[digit]))
      else before[c])
  }

  /** The buffer after the four digits, written from the left. */
  function FourDigits(trims: Trims, t: Time, level: uint16, before: Frame): Frame {
    var b3 := DigitSet(trims, 3, Shown(t, 3), level, before);
    var b2 := DigitSet(trims, 2, Shown(t, 2), level, b3);
    var b1 := DigitSet(trims, 1, Shown(t, 1), level, b2);
    DigitSet(trims, 0, Shown(t, 0), level, b1)
  }

  /** The buffer after the colon and the PM dot. */
  function WithDots(trims: Trims, t: Time, level: uint16, before: Frame): Frame {
    var colon := Trimmed(level, trims.colon);
    before[COLON_TOP := colon][COLON_BOTTOM := colon][PM_CHANNEL := if t.hour >= 12 then colon else 0]
  }

  /** The loop's writes, in their order and through the tables, give the frame described channel by channel. */
  lemma DigitsAndDots(trims: Trims, t: Time, level: uint16, before: Frame)
    ensures WithDots(trims, t, level, FourDigits(trims, t, level, before)) == Render(trims, t, level, before)
  {
    var after := WithDots(trims, t, level, FourDigits(trims, t, level, before));
    forall c | 0 <= c < CHANNELS
      ensures after[c] == ChannelValue(trims, t, level, c, before[c])
    {
      SegmentOfOwner(c);
    }
  }

  /** buf and the trims. */
  class LedBuffer {
    const buf: array<int>
    const trims: Trims

    constructor (trims: Trims)
      ensures this.trims == trims && fresh(buf) && buf.Length == CHANNELS && buf[..] == Dark()
    {
      this.trims := trims;
      buf := new int[CHANNELS](_ => 0);
    }

    /** ok is false where the program exits: a digit or a value out of range. */
    method SetDigit(digit: int, val: int, greyscale: uint16) returns (ok: bool)
      requires buf.Length == CHANNELS
      modifies buf
      ensures ok <==> 0 <= digit < DIGITS && 0 <= val <= BLANK
      ensures buf[..] == if ok then DigitSet(trims, digit, val, greyscale, old(buf[..])) else old(buf[..])
    {
      if val < 0 || val > BLANK {
        return false;
      }
      if digit < 0 || digit > DIGITS - 1 {
        return false;
      }
      var trimmed := Trimmed(greyscale, trims.digits[digit]);
      var i := 0;
      while i < SEGMENTS
        invariant 0 <= i <= SEGMENTS
        invariant forall c :: 0 <= c < CHANNELS ==>
          buf[c] == if OwnerOf(c).Segment? && OwnerOf(c).digit == digit && OwnerOf(c).index < i
                    then Masked(Glyph(val)[OwnerOf(c).index], trimmed)
                    else old(buf[c])
      {
        OwnerOfSegment(digit, i);
        buf[SegmentChannel(digit, i)] := Masked(Glyph(val)[i], trimmed);
        forall c | 0 <= c < CHANNELS && OwnerOf(c) == Segment(digit, i)
          ensures c == SegmentChannel(digit, i)
        {
          SegmentOfOwner(c);
        }
        i := i + 1;
      }
      forall c | 0 <= c < CHANNELS
        ensures OwnerOf(c).Segment? ==> OwnerOf(c).index < SEGMENTS
      {
        SegmentOfOwner(c);
      }
      ok := true;
    }

    /** The rendering part of the clock's loop. */
    method RenderTime(t: Time, level: uint16)
      requires buf.Length == CHANNELS
      modifies buf
      ensures buf[..] == Render(trims, t, level, old(buf[..]))
    {
      hide DigitSet, Render;
      ghost var before := buf[..];
      var hour := TwelveHour(t.hour);
      var ok;
      if NthDigit(hour, 1) == 0 {
        ok := SetDigit(3, BLANK, level);
      } else {
        ok := SetDigit(3, NthDigit(hour, 1), level);
      }
      ok := SetDigit(2, NthDigit(hour, 0), level);
      ok := SetDigit(1, NthDigit(t.minute, 1), level);
      ok := SetDigit(0, NthDigit(t.minute, 0), level);
      var colon := Trimmed(level, trims.colon);
      buf[COLON_TOP] := colon;
      buf[COLON_BOTTOM] := colon;
      if t.hour >= 12 {
        buf[PM_CHANNEL] := colon;
      } else {
        buf[PM_CHANNEL] := 0;
      }
      assert buf[..] == WithDots(trims, t, level, FourDigits(trims, t, level, before));
      DigitsAndDots(trims, t, level, before);
    }
  }
}
