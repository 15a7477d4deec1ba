/**
 The lux arithmetic of the TSL2561 driver (T, FN and CL packages): an eight-segment
 piecewise-linear formula computed with shifts on 32-bit unsigned integers.
*/
module Lux {
  import opened Arithmetic
  import opened Basics

  datatype IntegrationTime = Ms13 | Ms101 | Ms402

  datatype Gain = X1 | X16

  // ---------------------------------------------------------------- tables

  function ClipThreshold(time: IntegrationTime): uint16 {
    match time case Ms13 => 4900 case Ms101 => 37000 case Ms402 => 65000
  }

  /** The channel scale, in units of 2^-10, before the gain is taken into account. */
  function TimeScale(time: IntegrationTime): nat {
    match time case Ms13 => 0x7517 case Ms101 => 0x0FE7 case Ms402 => 0x400
  }

  /** Upper ratio limit of segments 1..7, in units of 2^-9; segment 8 has none. */
  function K(segment: nat): nat
    requires 1 <= segment <= 7
  {
    [0x40, 0x80, 0xc0, 0x100, 0x138, 0x19a, 0x29a][segment - 1]
  }

  function B(segment: nat): nat
    requires 1 <= segment <= 8
  {
    [0x1f2, 0x214, 0x23f, 0x270, 0x16f, 0xd2, 0x18, 0][segment - 1]
  }

  function M(segment: nat): nat
    requires 1 <= segment <= 8
  {
    [0x1be, 0x2d1, 0x37b, 0x3fe, 0x1fc, 0xfb, 0x12, 0][segment - 1]
  }

  const K8: nat := 0x29a

  // ------------------------------------------------------------- the driver

  /**
   The chain of comparisons; None would leave the driver's `b` and `m` uninitialised, and
   cannot happen because the last two limits are equal.
  */
  function SelectSegment(ratio: nat): (segment: Option<nat>)
    ensures segment.Some? && 1 <= segment.value <= 8
  {
    if 0 <= ratio && ratio <= K(1) then Some(1)
    else if ratio <= K(2) then Some(2)
    else if ratio <= K(3) then Some(3)
    else if ratio <= K(4) then Some(4)
    else if ratio <= K(5) then Some(5)
    else if ratio <= K(6) then Some(6)
    else if ratio <= K(7) then Some(7)
    else if ratio > K8 then Some(8)
    else None
  }

  /** TSL2561_CALCULATE_LUX with every operation reduced to 32 bits. */
  function CalculateLux(time: IntegrationTime, gain: Gain, broadband: uint16, ir: uint16): (lux: Option<nat>)
    ensures lux.Some? && lux.value < 0x4_0000
  {
    if broadband > ClipThreshold(time) || ir > ClipThreshold(time) then
      Some(0)
    else
      var chScale := if gain == X1 then U32(TimeScale(time) * 16) else TimeScale(time);
      LuxOfChannels(U32(broadband * chScale) / 0x400, U32(ir * chScale) / 0x400)
  }

  /** The same function from the scaled channels on: the rounded ratio picks the line. */
  function LuxOfChannels(channel0: nat, channel1: nat): (lux: Option<nat>)
    ensures lux.Some? && lux.value < 0x4_0000
  {
    LuxOnLine(SelectSegment(Ratio32(channel0, channel1)), channel0, channel1)
  }

  function Ratio32(channel0: nat, channel1: nat): nat {
    var ratio1 := if channel0 != 0 then U32(channel1 * 0x400) / channel0 else 0;
    U32(ratio1 + 1) / 2
  }

  function LuxOnLine(segment: Option<nat>, channel0: nat, channel1: nat): (lux: Option<nat>)
    requires segment.Some? ==> 1 <= segment.value <= 8
    ensures segment.Some? ==> lux.Some? && lux.value < 0x4_0000
  {
    match segment
    case None => None
    case Some(i) =>
      var temp := U32(U32(channel0 * B(i)) - U32(channel1 * M(i)));
      var floored := if temp < 0 then 0 else temp;
      Some(U32(floored + 0x2000) / 0x4000)
  }

  // -------------------------------------------------- the intended arithmetic

  predicate Clipped(time: IntegrationTime, broadband: uint16, ir: uint16) {
    broadband > ClipThreshold(time) || ir > ClipThreshold(time)
  }

  function GainScale(gain: Gain): nat {
    if gain == X1 then 16 else 1
  }

  /** A count brought to the 402 ms, 16X scale. */
  function Channel(time: IntegrationTime, gain: Gain, count: nat): nat {
    count * (TimeScale(time) * GainScale(gain)) / 0x400
  }

  /** channel1/channel0 in units of 2^-9, rounded to the nearest unit. */
  function Ratio(channel0: nat, channel1: nat): nat {
    if channel0 == 0 then 0 else (channel1 * 0x400 / channel0 + 1) / 2
  }

  function Segment(channel0: nat, channel1: nat): (i: nat)
    ensures 1 <= i <= 8
  {
    SelectSegment(Ratio(channel0, channel1)).value
  }

  /** The value before rounding, in units of 2^-14 lux, over the unbounded integers. */
  function PreLux(channel0: nat, channel1: nat): int {
    var i := Segment(channel0, channel1);
    channel0 * B(i) - channel1 * M(i)
  }

  function RoundLux(pre: int): nat {
    ((if pre < 0 then 0 else pre) + 0x2000) / 0x4000
  }

  /** What the driver means to return: clipped readings give 0, negative values are floored. */
  function IntendedLux(time: IntegrationTime, gain: Gain, broadband: uint16, ir: uint16): nat {
    if Clipped(time, broadband, ir) then 0
    else RoundLux(PreLux(Channel(time, gain, broadband), Channel(time, gain, ir)))
  }

  // ------------------------------------------------------------ segment edges

  /** The rounded ratio is at most k exactly left of the half-unit boundary (2k+1)/1024. */
  lemma RatioAtMost(channel0: nat, channel1: nat, k: nat)
    requires channel0 > 0
    ensures Ratio(channel0, channel1) <= k <==> 0x400 * channel1 < (2 * k + 1) * channel0
  {
    QuotientBelow(channel1 * 0x400, channel0, 2 * k + 1);
  }

  /** The join between segments i and i+1, in units of 2^-10 of channel0. */
  function Edge(i: nat): nat
    requires 1 <= i <= 7
  {
    2 * K(i) + 1
  }

  /** Segment i covers exactly the ratios from the join before it up to the join after it. */
  lemma SegmentInterval(channel0: nat, channel1: nat, i: nat)
    requires channel0 > 0 && 1 <= i <= 8
    ensures Segment(channel0, channel1) == i <==>
      && (i > 1 ==> Edge(i - 1) * channel0 <= 0x400 * channel1)
      && (i < 8 ==> 0x400 * channel1 < Edge(i) * channel0)
  {
    if i > 1 { RatioAtMost(channel0, channel1, K(i - 1)); }
    if i < 8 { RatioAtMost(channel0, channel1, K(i)); }
  }
}
