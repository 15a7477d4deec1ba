/**
 What a rendered frame says: the time can be read back from the lit channels, exactly when
 every trimmed level is visible; and a frame depends on time, level and trims only.
*/
module DisplayTheorems {
  import opened Basics
  import opened Display

  // ---------------------------------------------------------- reading back

  function LitSegments(frame: Frame, d: nat): (p: seq<bool>)
    requires d < DIGITS
    ensures |p| == SEGMENTS
  {
    seq(SEGMENTS, i requires 0 <= i < SEGMENTS => frame[SegmentChannel(d, i)] != 0)
  }

  /** The first value from v on whose glyph is the given pattern. */
  function ValueOf(pattern: seq<bool>, v: nat): Option<nat>
    decreases BLANK + 1 - v
  {
    if v > BLANK then None
    else if Glyph(v) == pattern then Some(v)
    else ValueOf(pattern, v + 1)
  }

  /** What an onlooker reads: four digits and the PM dot, as a 24-hour time. */
  function ReadTime(frame: Frame): Option<TimeOfDay> {
    var m0, m1 := ValueOf(LitSegments(frame, 0), 0), ValueOf(LitSegments(frame, 1), 0);
    var h0, h1 := ValueOf(LitSegments(frame, 2), 0), ValueOf(LitSegments(frame, 3), 0);
    if m0.None? || m1.None? || h0.None? || h1.None? then None
    else Some(TimeFrom(m0.value, m1.value, h0.value, h1.value, frame[PM_CHANNEL] != 0))
  }

  function TimeFrom(m0: nat, m1: nat, h0: nat, h1: nat, afternoon: bool): TimeOfDay {
    var twelve := (if h1 == BLANK then 0 else h1) * 10 + h0;
    TimeOfDay(twelve % 12 + (if afternoon then 12 else 0), m1 * 10 + m0)
  }

  predicate DigitVisible(trims: Trims, level: uint16, d: nat)
    requires d < DIGITS
  {
    Trimmed(level, trims.digits[d]) % 0x1000 != 0
  }

  predicate ColonVisible(trims: Trims, level: uint16) {
    Trimmed(level, trims.colon) != 0
  }

  predicate Visible(trims: Trims, level: uint16) {
    (forall d: nat :: d < DIGITS ==> DigitVisible(trims, level, d)) && ColonVisible(trims, level)
  }

  /** On 12-bit levels a digit is visible as soon as its trimmed level is not zero. */
  lemma TwelveBitVisible(trims: Trims, level: uint16, d: nat)
    requires level <= 4095 && d < DIGITS
    ensures DigitVisible(trims, level, d) <==> Trimmed(level, trims.digits[d]) != 0
  {
  }

  lemma GlyphsDistinct(v: nat, w: nat)
    requires v <= BLANK && w <= BLANK && Glyph(v) == Glyph(w)
    ensures v == w
  {
    var g, h := Glyph(v), Glyph(w);
    assert g[0] == h[0] && g[1] == h[1] && g[2] == h[2] && g[3] == h[3]
        && g[4] == h[4] && g[5] == h[5] && g[6] == h[6];
  }

  lemma {:induction false} ValueOfGlyph(v: nat, from: nat)
    requires from <= v <= BLANK
    ensures ValueOf(Glyph(v), from) == Some(v)
    decreases v - from
  {
    if from < v {
      if Glyph(from) == Glyph(v) { GlyphsDistinct(from, v); }
      ValueOfGlyph(v, from + 1);
    }
  }

  lemma LitSegmentsOfRender(trims: Trims, t: Time, level: uint16, before: Frame, d: nat)
    requires d < DIGITS && DigitVisible(trims, level, d)
    ensures LitSegments(Render(trims, t, level, before), d) == Glyph(Shown(t, d))
  {
    var p := LitSegments(Render(trims, t, level, before), d);
    forall i | 0 <= i < SEGMENTS
      ensures p[i] == Glyph(Shown(t, d))[i]
    {
      OwnerOfSegment(d, i);
    }
  }

  lemma ShownHour(hour: nat)
    requires hour < 24
    ensures var twelve := TwelveHour(hour);
            (twelve / 10 * 10 + twelve % 10) % 12 + (if hour >= 12 then 12 else 0) == hour
            && twelve / 10 % 10 == twelve / 10 && twelve / 10 != BLANK
  {
  }

  /** The four decimal digits of a number make it up again. */
  lemma DigitsCompose(x: nat)
    requires x < 10_000
    ensures NthDigit(x, 3) * 1000 + NthDigit(x, 2) * 100 + NthDigit(x, 1) * 10 + NthDigit(x, 0) == x
  {
    hide NthDigit;
    DigitsByTens(x);
    assert x / 10 / 10 == x / 100 && x / 10 / 10 / 10 == x / 1000;
  }

  lemma DigitsByTens(x: nat)
    ensures NthDigit(x, 0) == x % 10 && NthDigit(x, 1) == x / 10 % 10
    ensures NthDigit(x, 2) == x / 100 % 10 && NthDigit(x, 3) == x / 1000 % 10
  {
  }

  lemma ShownMinute(minute: nat)
    requires minute < 60
    ensures minute / 10 % 10 * 10 + minute % 10 == minute
  {
  }

  lemma ShownTime(t: Time)
    ensures TimeFrom(Shown(t, 0), Shown(t, 1), Shown(t, 2), Shown(t, 3), t.hour >= 12) == t
  {
    ShownHour(t.hour);
    ShownMinute(t.minute);
    assert NthDigit(t.minute, 0) == t.minute % 10 && NthDigit(t.minute, 1) == t.minute / 10 % 10;
    var twelve := TwelveHour(t.hour);
    assert NthDigit(twelve, 0) == twelve % 10 && NthDigit(twelve, 1) == twelve / 10 % 10;
  }

  lemma PmDotOfRender(trims: Trims, t: Time, level: uint16, before: Frame)
    requires ColonVisible(trims, level)
    ensures Render(trims, t, level, before)[PM_CHANNEL] != 0 <==> t.hour >= 12
  {
  }

  /**
   The display round trip: through the 12-hour conversion, the blanked leading digit, the PM dot
   and the scrambled wiring, the 24-hour time comes back whatever the buffer held before.
  */
  lemma DisplayRoundTrip(trims: Trims, t: Time, level: uint16, before: Frame)
    requires Visible(trims, level)
    ensures ReadTime(Render(trims, t, level, before)) == Some(t)
  {
    ReadDigit(trims, t, level, before, 0);
    ReadDigit(trims, t, level, before, 1);
    ReadDigit(trims, t, level, before, 2);
    ReadDigit(trims, t, level, before, 3);
    PmDotOfRender(trims, t, level, before);
    ShownTime(t);
  }

  lemma ReadDigit(trims: Trims, t: Time, level: uint16, before: Frame, d: nat)
    requires d < DIGITS && DigitVisible(trims, level, d)
    ensures ValueOf(LitSegments(Render(trims, t, level, before), d), 0) == Some(Shown(t, d))
  {
    LitSegmentsOfRender(trims, t, level, before, d);
    ValueOfGlyph(Shown(t, d), 0);
  }

  // ------------------------------------------------------- stroke by stroke

  /** Which of the strokes A to G each numeral leaves dark; 10 is a blank. */
  predicate Unlit(stroke: nat, value: nat) {
    match stroke
    case 0 => value in {1, 4, 10}
    case 1 => value in {5, 6, 10}
    case 2 => value in {2, 10}
    case 3 => value in {1, 4, 7, 10}
    case 4 => value in {1, 3, 4, 5, 7, 9, 10}
    case 5 => value in {1, 2, 3, 7, 10}
    case _ => value in {0, 1, 7, 10}
  }

  /** The channels of the four digits as the board is wired, minute units first, each from stroke A to G. */
  function Wire(d: nat, stroke: nat): (c: nat)
    requires d < DIGITS && stroke < SEGMENTS
    ensures c < CHANNELS
  {
    [[13, 12, 10, 9, 8, 14, 15], [17, 16, 6, 5, 4, 18, 19], [21, 20, 2, 1, 0, 22, 23], [45, 44, 26, 25, 24, 46, 47]]
    [d][stroke]
  }

  /** Digit d of the frame shows the numeral, lit at the given level. */
  predicate Draws(frame: Frame, d: nat, value: nat, level: int)
    requires d < DIGITS
  {
    forall stroke: nat :: stroke < SEGMENTS ==> frame[Wire(d, stroke)] == if Unlit(stroke, value) then 0 else level
  }

  lemma GlyphDrawsNumeral(stroke: nat, value: nat)
    requires stroke < SEGMENTS && value <= BLANK
    ensures Glyph(value)[stroke] <==> !Unlit(stroke, value)
  {
  }

  lemma WireIsSegment(d: nat, stroke: nat)
    requires d < DIGITS && stroke < SEGMENTS
    ensures OwnerOf(Wire(d, stroke)) == Segment(d, stroke)
  {
  }

  /** One set_digit draws the numeral, at the trimmed level's low twelve bits, or blanks the digit. */
  lemma DigitIsDrawn(trims: Trims, d: nat, value: nat, level: uint16, before: Frame)
    requires d < DIGITS && value <= BLANK
    ensures Draws(DigitSet(trims, d, value, level, before), d, value, Trimmed(level, trims.digits[d]) % 4096)
  {
    hide Trimmed, Glyph, Unlit, Wire, OwnerOf;
    forall stroke: nat | stroke < SEGMENTS
      ensures DigitSet(trims, d, value, level, before)[Wire(d, stroke)] ==
              if Unlit(stroke, value) then 0 else Trimmed(level, trims.digits[d]) % 4096
    {
      GlyphDrawsNumeral(stroke, value);
      WireIsSegment(d, stroke);
    }
  }

  /** The hour as the twelve-hour clock says it: midnight and noon are 12. */
  function Twelve(hour: nat): nat {
    if hour == 0 then 12 else if hour > 12 then hour - 12 else hour
  }

  /** The value each digit stands for, 10 for a blank: minute units and tens, hour units and tens. */
  function ValueAt(t: Time, d: nat): nat {
    match d
    case 0 => t.minute % 10
    case 1 => t.minute / 10
    case 2 => Twelve(t.hour) % 10
    case _ => if Twelve(t.hour) < 10 then 10 else 1
  }

  lemma ShownIsValue(t: Time, d: nat)
    requires d < DIGITS
    ensures Shown(t, d) == ValueAt(t, d)
  {
    assert t.minute / 10 < 6;
    assert TwelveHour(t.hour) == Twelve(t.hour);
  }

  lemma NumeralIsDrawn(trims: Trims, t: Time, level: uint16, before: Frame, d: nat)
    requires d < DIGITS
    ensures Draws(Render(trims, t, level, before), d, ValueAt(t, d), Trimmed(level, trims.digits[d]) % 4096)
  {
    hide Trimmed, Glyph, Unlit, Wire, OwnerOf, Shown, ValueAt;
    ShownIsValue(t, d);
    forall stroke: nat | stroke < SEGMENTS
      ensures Render(trims, t, level, before)[Wire(d, stroke)] ==
              if Unlit(stroke, ValueAt(t, d)) then 0 else Trimmed(level, trims.digits[d]) % 4096
    {
      GlyphDrawsNumeral(stroke, Shown(t, d));
      WireIsSegment(d, stroke);
    }
  }

  lemma DotsAreDrawn(trims: Trims, t: Time, level: uint16, before: Frame)
    ensures var frame := Render(trims, t, level, before);
            && frame[43] == frame[41] == Trimmed(level, trims.colon)
            && frame[39] == (if t.hour >= 12 then Trimmed(level, trims.colon) else 0)
            && (forall c: nat :: c in {3, 7, 11, 40} || 27 <= c < 39 || c == 42 ==> frame[c] == before[c])
  {
    hide Trimmed, Glyph, Shown;
  }

  /**
   The whole frame, channel by channel: four numerals at their own trims, two separator dots, a dot from noon to
   midnight, and every other channel as it was.
  */
  lemma FrameSpelledOut(trims: Trims, t: Time, level: uint16, before: Frame)
    ensures var frame := Render(trims, t, level, before);
            && (forall d: nat :: d < DIGITS ==>
                  Draws(frame, d, ValueAt(t, d), Trimmed(level, trims.digits[d]) % 4096))
            && frame[43] == frame[41] == Trimmed(level, trims.colon)
            && frame[39] == (if t.hour >= 12 then Trimmed(level, trims.colon) else 0)
            && (forall c: nat :: c in {3, 7, 11, 40} || 27 <= c < 39 || c == 42 ==> frame[c] == before[c])
  {
    hide Render, Trimmed, ValueAt, Draws;
    forall d: nat | d < DIGITS
      ensures Draws(Render(trims, t, level, before), d, ValueAt(t, d), Trimmed(level, trims.digits[d]) % 4096)
    {
      NumeralIsDrawn(trims, t, level, before, d);
    }
    DotsAreDrawn(trims, t, level, before);
  }

  // ----------------------------------------------- exactly when it is legible

  ghost predicate Distinguishes(trims: Trims, level: uint16, before: Frame) {
    forall s: Time, t: Time :: Render(trims, s, level, before) == Render(trims, t, level, before) ==> s == t
  }

  /** Two different times that differ on nothing but digit d. */
  function Witness(d: nat): (st: (Time, Time))
    requires d < DIGITS
    ensures st.0 != st.1
  {
    match d
    case 0 => (TimeOfDay(0, 0), TimeOfDay(0, 1))
    case 1 => (TimeOfDay(0, 0), TimeOfDay(0, 10))
    case 2 => (TimeOfDay(1, 0), TimeOfDay(2, 0))
    case _ => (TimeOfDay(1, 0), TimeOfDay(11, 0))
  }

  lemma WitnessDiffersOnlyAt(d: nat)
    requires d < DIGITS
    ensures forall e: nat :: e < DIGITS && e != d ==> Shown(Witness(d).0, e) == Shown(Witness(d).1, e)
  {
  }

  lemma DarkDigitHidesTime(trims: Trims, level: uint16, before: Frame, d: nat)
    requires d < DIGITS && !DigitVisible(trims, level, d)
    ensures Render(trims, Witness(d).0, level, before) == Render(trims, Witness(d).1, level, before)
  {
    var (s, t) := Witness(d);
    WitnessDiffersOnlyAt(d);
    assert s.hour < 12 && t.hour < 12;
    forall c: nat | c < CHANNELS
      ensures ChannelValue(trims, s, level, c, before[c]) == ChannelValue(trims, t, level, c, before[c])
    {
      SegmentOfOwner(c);
    }
  }

  lemma DarkColonHidesTime(trims: Trims, level: uint16, before: Frame)
    requires !ColonVisible(trims, level)
    ensures Render(trims, TimeOfDay(0, 0), level, before) == Render(trims, TimeOfDay(12, 0), level, before)
  {
    forall c: nat | c < CHANNELS
      ensures ChannelValue(trims, TimeOfDay(0, 0), level, c, before[c])
           == ChannelValue(trims, TimeOfDay(12, 0), level, c, before[c])
    {
      SegmentOfOwner(c);
    }
  }

  /** Frames of different times differ if and only if all five trimmed levels are visible. */
  lemma LegibleIff(trims: Trims, level: uint16, before: Frame)
    ensures Distinguishes(trims, level, before) <==> Visible(trims, level)
  {
    if Visible(trims, level) {
      forall s: Time, t: Time | Render(trims, s, level, before) == Render(trims, t, level, before)
        ensures s == t
      {
        DisplayRoundTrip(trims, s, level, before);
        DisplayRoundTrip(trims, t, level, before);
      }
    } else if !ColonVisible(trims, level) {
      DarkColonHidesTime(trims, level, before);
    } else {
      var d: nat :| d < DIGITS && !DigitVisible(trims, level, d);
      DarkDigitHidesTime(trims, level, before, d);
    }
  }

  // ------------------------------------------------------ frames as functions

  ghost predicate UndrivenDark(frame: Frame) {
    forall c: nat :: c < CHANNELS && OwnerOf(c).Undriven? ==> frame[c] == 0
  }

  /** The frame the loop shows for a time and a level. */
  function FrameOf(trims: Trims, t: Time, level: uint16): Frame {
    Render(trims, t, level, Dark())
  }

  /** Rendering overwrites every channel in use: the old contents do not matter. */
  lemma RenderForgets(trims: Trims, t: Time, level: uint16, before: Frame)
    requires UndrivenDark(before)
    ensures Render(trims, t, level, before) == FrameOf(trims, t, level)
    ensures UndrivenDark(Render(trims, t, level, before))
  {
  }

  /** Every channel of a frame stays within the 12-bit level it was rendered at. */
  lemma FrameBounded(trims: Trims, t: Time, level: uint16, c: nat)
    requires c < CHANNELS && level <= 4095
    ensures 0 <= FrameOf(trims, t, level)[c] <= level
  {
    SegmentOfOwner(c);
  }

  /** A brighter level is no darker on any channel. */
  lemma FrameMonotone(trims: Trims, t: Time, less: uint16, more: uint16, c: nat)
    requires c < CHANNELS && less <= more <= 4095
    ensures FrameOf(trims, t, less)[c] <= FrameOf(trims, t, more)[c]
  {
    SegmentOfOwner(c);
    if OwnerOf(c).Segment? {
      TrimmedMonotone(less, more, trims.digits[OwnerOf(c).digit]);
    } else {
      TrimmedMonotone(less, more, trims.colon);
    }
  }

  /** Writing one digit shows the value there and leaves every other digit and the dots alone. */
  lemma DigitSetIsLocal(trims: Trims, d: nat, value: nat, level: uint16, before: Frame)
    requires d < DIGITS && value <= BLANK
    ensures var after := DigitSet(trims, d, value, level, before);
            && (DigitVisible(trims, level, d) ==> ValueOf(LitSegments(after, d), 0) == Some(value))
            && (forall e: nat :: e < DIGITS && e != d ==> LitSegments(after, e) == LitSegments(before, e))
            && (forall c: nat :: c < CHANNELS && !OwnerOf(c).Segment? ==> after[c] == before[c])
  {
    var after := DigitSet(trims, d, value, level, before);
    forall e: nat, i: nat | e < DIGITS && i < SEGMENTS
      ensures OwnerOf(SegmentChannel(e, i)) == Segment(e, i)
    {
      OwnerOfSegment(e, i);
    }
    if DigitVisible(trims, level, d) {
      assert LitSegments(after, d) == Glyph(value);
      ValueOfGlyph(value, 0);
    }
  }
}
