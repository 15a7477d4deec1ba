/**
 What the lux arithmetic guarantees: when it is exact, how large it gets, how it reacts
 to more infrared, and that it does not depend on the gain the counts were taken with.
*/
module LuxTheorems {
  import opened Arithmetic
  import opened Basics
  import opened Lux

  /** The largest channel value an unclipped count can reach (37000 counts at 101 ms, 1X). */
  const MAX_CHANNEL: nat := 2353547

  /** The scales bring 13.7 ms and 101 ms counts to 402 ms: the nearest integers to 1024*322/11 and 1024*322/81. */
  lemma ScaleIsNearest()
    ensures -11 < 2 * (11 * TimeScale(Ms13) - 1024 * 322) < 11
    ensures -81 < 2 * (81 * TimeScale(Ms101) - 1024 * 322) < 81
    ensures TimeScale(Ms402) == 1024
  {
  }

  lemma ChannelRange(time: IntegrationTime, gain: Gain, count: uint16)
    requires count <= ClipThreshold(time)
    ensures Channel(time, gain, count) <= MAX_CHANNEL
    ensures count > 0 ==> Channel(time, gain, count) > 0
    ensures count * (TimeScale(time) * GainScale(gain)) < WORD
  {
  }

  /** The table spelt out: segment i, its line and the ratios it covers, all linear. */
  predicate OnSegment(i: nat, c0: nat, c1: nat, p: int) {
    match i
    case 1 => p == 498 * c0 - 446 * c1 && 1024 * c1 < 129 * c0
    case 2 => p == 532 * c0 - 721 * c1 && 129 * c0 <= 1024 * c1 && 1024 * c1 < 257 * c0
    case 3 => p == 575 * c0 - 891 * c1 && 257 * c0 <= 1024 * c1 && 1024 * c1 < 385 * c0
    case 4 => p == 624 * c0 - 1022 * c1 && 385 * c0 <= 1024 * c1 && 1024 * c1 < 513 * c0
    case 5 => p == 367 * c0 - 508 * c1 && 513 * c0 <= 1024 * c1 && 1024 * c1 < 625 * c0
    case 6 => p == 210 * c0 - 251 * c1 && 625 * c0 <= 1024 * c1 && 1024 * c1 < 821 * c0
    case 7 => p == 24 * c0 - 18 * c1 && 821 * c0 <= 1024 * c1 && 1024 * c1 < 1333 * c0
    case _ => p == 0 && 1333 * c0 <= 1024 * c1
  }

  lemma PreLuxOnSegment(c0: nat, c1: nat)
    requires c0 > 0
    ensures OnSegment(Segment(c0, c1), c0, c1, PreLux(c0, c1))
  {
    SegmentInterval(c0, c1, Segment(c0, c1));
  }

  /** The table never goes negative and never exceeds the first segment's slope. */
  lemma {:induction false} PreLuxBounds(channel0: nat, channel1: nat)
    requires channel0 > 0
    ensures 0 <= PreLux(channel0, channel1) <= B(1) * channel0
    ensures channel1 * M(Segment(channel0, channel1)) <= channel0 * B(Segment(channel0, channel1))
  {
    SegmentInterval(channel0, channel1, Segment(channel0, channel1));
  }

  lemma SmallProduct(channel: nat, factor: nat)
    requires channel <= MAX_CHANNEL && factor <= 0x400
    ensures channel * factor < WORD - 0x2000
  {
    MulMonotone(channel, MAX_CHANNEL, factor);
  }

  lemma NothingWraps(gained: nat, lost: nat)
    requires lost <= gained < WORD - 0x2000
    ensures U32(U32(U32(gained) - U32(lost)) + 0x2000) / 0x4000 == RoundLux(gained - lost)
  {
  }

  lemma RatioUnwrapped(c0: nat, c1: nat)
    requires c1 <= MAX_CHANNEL
    ensures Ratio32(c0, c1) == Ratio(c0, c1)
  {
    if c0 > 0 {
      SmallProduct(c1, 0x400);
      QuotientBelow(c1 * 0x400, c0, WORD - 1);
    }
  }

  lemma LineExact(i: nat, c0: nat, c1: nat)
    requires 1 <= i <= 8 && c1 * M(i) <= c0 * B(i) < WORD - 0x2000
    ensures LuxOnLine(Some(i), c0, c1) == Some(RoundLux(c0 * B(i) - c1 * M(i)))
  {
    NothingWraps(c0 * B(i), c1 * M(i));
  }

  /** From the channels on, nothing wraps when there is broadband light. */
  lemma ChannelsExact(c0: nat, c1: nat)
    requires 0 < c0 <= MAX_CHANNEL && c1 <= MAX_CHANNEL
    ensures LuxOfChannels(c0, c1) == Some(RoundLux(PreLux(c0, c1)))
  {
    RatioUnwrapped(c0, c1);
    PreLuxBounds(c0, c1);
    var i := Segment(c0, c1);
    SmallProduct(c0, B(i));
    LineExact(i, c0, c1);
  }

  lemma LuxBounded(c0: nat, c1: nat)
    requires c0 <= MAX_CHANNEL
    ensures RoundLux(PreLux(c0, c1)) <= 71537
  {
    if c0 > 0 {
      PreLuxBounds(c0, c1);
      RoundLuxMonotone(PreLux(c0, c1), B(1) * MAX_CHANNEL);
    }
  }

  lemma RoundLuxMonotone(p: int, q: int)
    requires p <= q
    ensures RoundLux(p) <= RoundLux(q)
  {
  }

  /** Infrared without broadband: the difference wraps, unless the rounding constant absorbs it. */
  lemma DarkChannels(c1: nat)
    requires c1 <= MAX_CHANNEL
    ensures LuxOfChannels(0, c1) == Some(RoundLux(PreLux(0, c1))) <==> c1 <= 18
  {
    hide LuxOnLine, RoundLux;
    assert Ratio(0, c1) == 0 && Ratio32(0, c1) == 0;
    assert PreLux(0, c1) == -(c1 * 0x1be);
    DarkLine(c1);
  }

  lemma DarkLine(c1: nat)
    requires c1 <= MAX_CHANNEL
    ensures LuxOnLine(Some(1), 0, c1) == Some(RoundLux(-(c1 * 0x1be))) <==> c1 <= 18
  {
    assert B(1) == 0x1f2 && M(1) == 0x1be;
  }

  lemma ScaledChannels(time: IntegrationTime, gain: Gain, broadband: uint16, ir: uint16)
    requires !Clipped(time, broadband, ir)
    ensures CalculateLux(time, gain, broadband, ir)
         == LuxOfChannels(Channel(time, gain, broadband), Channel(time, gain, ir))
  {
    ChannelRange(time, gain, broadband);
    ChannelRange(time, gain, ir);
  }

  /**
   With some broadband light, or no light at all, the 32-bit code computes the intended
   value: nothing wraps, a segment is always chosen and the result is at most 71537 lux.
  */
  lemma LuxExactAndBounded(time: IntegrationTime, gain: Gain, broadband: uint16, ir: uint16)
    requires broadband > 0 || ir == 0 || Clipped(time, broadband, ir)
    ensures CalculateLux(time, gain, broadband, ir) == Some(IntendedLux(time, gain, broadband, ir))
    ensures IntendedLux(time, gain, broadband, ir) <= 71537
  {
    hide CalculateLux, IntendedLux;
    if Clipped(time, broadband, ir) {
      ClippedIsZero(time, gain, broadband, ir);
    } else {
      UnclippedExact(time, gain, broadband, ir);
    }
  }

  lemma ClippedIsZero(time: IntegrationTime, gain: Gain, broadband: uint16, ir: uint16)
    requires Clipped(time, broadband, ir)
    ensures CalculateLux(time, gain, broadband, ir) == Some(0) && IntendedLux(time, gain, broadband, ir) == 0
  {
    hide LuxOfChannels, PreLux;
  }

  lemma UnclippedExact(time: IntegrationTime, gain: Gain, broadband: uint16, ir: uint16)
    requires !Clipped(time, broadband, ir) && (broadband > 0 || ir == 0)
    ensures CalculateLux(time, gain, broadband, ir) == Some(IntendedLux(time, gain, broadband, ir))
    ensures IntendedLux(time, gain, broadband, ir) <= 71537
  {
    hide CalculateLux, LuxOfChannels, Channel, PreLux, RoundLux;
    var c0, c1 := Channel(time, gain, broadband), Channel(time, gain, ir);
    ScaledChannels(time, gain, broadband, ir);
    ChannelRange(time, gain, broadband);
    ChannelRange(time, gain, ir);
    LuxBounded(c0, c1);
    if broadband > 0 {
      ChannelsExact(c0, c1);
    } else {
      NoCountNoChannel(time, gain);
      DarkChannels(c1);
    }
  }

  lemma NoCountNoChannel(time: IntegrationTime, gain: Gain)
    ensures Channel(time, gain, 0) == 0
  {
  }

  /** Clipping starts exactly above 4900, 37000 and 65000 counts, on either channel. */
  function ClipEdge(time: IntegrationTime): uint16 {
    match time case Ms13 => 4900 case Ms101 => 37000 case Ms402 => 65000
  }

  lemma ClippedAboveEdge(time: IntegrationTime, gain: Gain, broadband: uint16, ir: uint16)
    ensures broadband > ClipEdge(time) || ir > ClipEdge(time) ==> CalculateLux(time, gain, broadband, ir) == Some(0)
    ensures CalculateLux(time, gain, ClipEdge(time), ir).value > 0 <==> ir <= ClipEdge(time)
  {
    hide CalculateLux;
    if broadband > ClipEdge(time) || ir > ClipEdge(time) {
      ClippedIsZero(time, gain, broadband, ir);
    }
    if ir <= ClipEdge(time) {
      EdgeIsLit(time, gain, ir);
    } else {
      ClippedIsZero(time, gain, ClipEdge(time), ir);
    }
  }

  lemma EdgeIsLit(time: IntegrationTime, gain: Gain, ir: uint16)
    requires ir <= ClipEdge(time)
    ensures CalculateLux(time, gain, ClipEdge(time), ir).value > 0
  {
    hide CalculateLux, Channel, PreLux, Segment, RoundLux, OnSegment;
    var c0, c1 := Channel(time, gain, ClipEdge(time)), Channel(time, gain, ir);
    UnclippedExact(time, gain, ClipEdge(time), ir);
    EdgeChannel(time, gain);
    ChannelMonotone(time, gain, ir, ClipEdge(time));
    PreLuxOnSegment(c0, c1);
    NoMoreInfrared(Segment(c0, c1), c0, c1, PreLux(c0, c1));
    RoundLuxMonotone(0x2000, PreLux(c0, c1));
    OneLux();
  }

  lemma OneLux()
    ensures RoundLux(0x2000) == 1
  {
  }

  lemma EdgeChannel(time: IntegrationTime, gain: Gain)
    ensures Channel(time, gain, ClipEdge(time)) >= 65000
  {
  }

  /** As long as infrared does not exceed channel 0, the table stays above 6 per unit of channel 0. */
  lemma NoMoreInfrared(i: nat, c0: nat, c1: nat, p: int)
    requires 1 <= i <= 8 && c1 <= c0 && c0 > 0 && OnSegment(i, c0, c1, p)
    ensures p >= 6 * c0
  {
  }

  /** Every intermediate of the computation, from the scaled counts to the difference, fits. */
  lemma IntermediatesFit(time: IntegrationTime, gain: Gain, broadband: uint16, ir: uint16)
    requires broadband > 0 && !Clipped(time, broadband, ir)
    ensures var scale := TimeScale(time) * GainScale(gain);
            broadband * scale < WORD && ir * scale < WORD
    ensures var c0, c1 := Channel(time, gain, broadband), Channel(time, gain, ir);
            var i := Segment(c0, c1);
            0x400 * c1 < WORD && c0 * B(i) < WORD && c1 * M(i) <= c0 * B(i)
            && PreLux(c0, c1) + 0x2000 < WORD
  {
    ChannelRange(time, gain, broadband);
    ChannelRange(time, gain, ir);
    var c0, c1 := Channel(time, gain, broadband), Channel(time, gain, ir);
    PreLuxBounds(c0, c1);
    SmallProduct(c0, B(Segment(c0, c1)));
    SmallProduct(c1, 0x400);
  }

  /**
   The subtraction is unsigned, so the floor at zero never acts. The code still returns the
   intended lux on exactly these inputs: 18 is the largest infrared channel value
   whose product with the first slope is swallowed by the rounding constant.
  */
  lemma LuxCorrectIff(time: IntegrationTime, gain: Gain, broadband: uint16, ir: uint16)
    ensures CalculateLux(time, gain, broadband, ir) == Some(IntendedLux(time, gain, broadband, ir))
      <==> Clipped(time, broadband, ir) || broadband > 0 || Channel(time, gain, ir) <= 18
  {
    if broadband > 0 || Clipped(time, broadband, ir) {
      LuxExactAndBounded(time, gain, broadband, ir);
    } else {
      ScaledChannels(time, gain, broadband, ir);
      ChannelRange(time, gain, ir);
      DarkChannels(Channel(time, gain, ir));
    }
  }

  /** In the dark with a strong infrared source the driver reports an absurd lux. */
  lemma InfraredOnlyWraps()
    ensures CalculateLux(Ms402, X16, 0, 100) == Some(262141)
    ensures IntendedLux(Ms402, X16, 0, 100) == 0
  {
    hide CalculateLux, LuxOnLine;
    ScaledChannels(Ms402, X16, 0, 100);
    assert Channel(Ms402, X16, 0) == 0 && Channel(Ms402, X16, 100) == 100;
    assert Ratio(0, 100) == 0 && Ratio32(0, 100) == 0;
    assert PreLux(0, 100) == -44600;
    DarkHundred();
  }

  lemma DarkHundred()
    ensures LuxOnLine(Some(1), 0, 100) == Some(262141)
  {
    assert LuxOnLine(Some(1), 0, 100) == Some((WORD - 44600 + 0x2000) / 0x4000);
  }

  // ------------------------------------------------------ reaction to infrared

  /** Two points of the table, the second no further left, in any two segments. */
  lemma AlmostAntitoneLines(i: nat, j: nat, c0: nat, less: nat, more: nat, p: int, q: int)
    requires c0 > 0 && less <= more && 1 <= i <= j <= 8
    requires OnSegment(i, c0, less, p) && OnSegment(j, c0, more, q)
    ensures 1024 * (q - p) <= 829 * c0
    ensures !(j == i + 1 && i in {2, 4, 6}) ==> q <= p
  {
  }

  /**
   At fixed broadband, more infrared raises the pre-rounding value by at most 829/1024 of
   channel0. The excess comes from the table's upward steps; going further right never adds
   two of them up, because each segment between them falls by much more.
  */
  lemma PreLuxAlmostAntitone(channel0: nat, less: nat, more: nat)
    requires channel0 > 0 && less <= more
    ensures 1024 * (PreLux(channel0, more) - PreLux(channel0, less)) <= 829 * channel0
  {
    PreLuxOnSegment(channel0, less);
    PreLuxOnSegment(channel0, more);
    SegmentsOrdered(channel0, less, more);
    AlmostAntitoneLines(Segment(channel0, less), Segment(channel0, more), channel0, less, more,
                        PreLux(channel0, less), PreLux(channel0, more));
  }

  lemma SegmentsOrdered(channel0: nat, less: nat, more: nat)
    requires channel0 > 0 && less <= more
    ensures Segment(channel0, less) <= Segment(channel0, more)
  {
    SegmentInterval(channel0, less, Segment(channel0, less));
    SegmentInterval(channel0, more, Segment(channel0, more));
  }

  /** In lux: the rise is at most channel0/2^14 + 1. */
  lemma LuxAlmostAntitone(time: IntegrationTime, gain: Gain, broadband: uint16, less: uint16, more: uint16)
    requires broadband > 0 && less <= more && !Clipped(time, broadband, more)
    ensures CalculateLux(time, gain, broadband, less).Some? && CalculateLux(time, gain, broadband, more).Some?
    ensures CalculateLux(time, gain, broadband, more).value
         <= CalculateLux(time, gain, broadband, less).value + Channel(time, gain, broadband) / 0x4000 + 1
  {
    LuxExactAndBounded(time, gain, broadband, less);
    LuxExactAndBounded(time, gain, broadband, more);
    ChannelRange(time, gain, broadband);
    ChannelMonotone(time, gain, less, more);
    PreLuxAlmostAntitone(Channel(time, gain, broadband), Channel(time, gain, less), Channel(time, gain, more));
  }

  lemma ChannelMonotone(time: IntegrationTime, gain: Gain, less: nat, more: nat)
    requires less <= more
    ensures Channel(time, gain, less) <= Channel(time, gain, more)
  {
    MulMonotone(less, more, TimeScale(time) * GainScale(gain));
  }

  /** No real reading rises from segment i to segment j: more infrared counts never give more lux. */
  ghost predicate NeverRises(i: nat, j: nat)
    requires 1 <= i <= j <= 8
  {
    forall time: IntegrationTime, gain: Gain, broadband: uint16, less: uint16, more: uint16 ::
      broadband > 0 && less <= more && !Clipped(time, broadband, more)
      && SegmentOf(time, gain, broadband, less) == i && SegmentOf(time, gain, broadband, more) == j
      ==> CalculateLux(time, gain, broadband, more).value <= CalculateLux(time, gain, broadband, less).value
  }

  function SegmentOf(time: IntegrationTime, gain: Gain, broadband: uint16, ir: uint16): nat {
    Segment(Channel(time, gain, broadband), Channel(time, gain, ir))
  }

  /** The infrared count just left of a join, for the largest unclipped broadband at 402 ms and 16X. */
  function LeftOfJoin(i: nat): uint16 {
    match i case 2 => 16313 case 4 => 32563 case _ => 52114
  }

  /** At each of the three joins one more infrared count makes the returned lux rise. */
  lemma LuxRisesAtJoin(i: nat)
    requires i in {2, 4, 6}
    ensures SegmentOf(Ms402, X16, 65000, LeftOfJoin(i)) == i
    ensures SegmentOf(Ms402, X16, 65000, LeftOfJoin(i) + 1) == i + 1
    ensures var before := CalculateLux(Ms402, X16, 65000, LeftOfJoin(i));
            var after := CalculateLux(Ms402, X16, 65000, LeftOfJoin(i) + 1);
            && before == Some(if i == 2 then 1393 else if i == 4 then 444 else 35)
            && after == Some(if i == 2 then 1394 else if i == 4 then 446 else 38)
  {
    hide CalculateLux, Segment, Channel, PreLux;
    var less := LeftOfJoin(i);
    CoarseChannel(X16, 65000);
    CoarseChannel(X16, less);
    CoarseChannel(X16, less + 1);
    SegmentInterval(65000, less, i);
    SegmentInterval(65000, less + 1, i + 1);
    LuxExactAndBounded(Ms402, X16, 65000, less);
    LuxExactAndBounded(Ms402, X16, 65000, less + 1);
    PreLuxOnSegment(65000, less);
    PreLuxOnSegment(65000, less + 1);
  }

  lemma NoRiseElsewhere(time: IntegrationTime, gain: Gain, broadband: uint16, less: uint16, more: uint16)
    requires broadband > 0 && less <= more && !Clipped(time, broadband, more)
    requires var i, j := SegmentOf(time, gain, broadband, less), SegmentOf(time, gain, broadband, more);
             !(j == i + 1 && i in {2, 4, 6})
    ensures CalculateLux(time, gain, broadband, more).value <= CalculateLux(time, gain, broadband, less).value
  {
    hide CalculateLux, Channel, Segment, OnSegment;
    LuxExactAndBounded(time, gain, broadband, less);
    LuxExactAndBounded(time, gain, broadband, more);
    ChannelRange(time, gain, broadband);
    ChannelMonotone(time, gain, less, more);
    var c0, c1, d1 := Channel(time, gain, broadband), Channel(time, gain, less), Channel(time, gain, more);
    PreLuxOnSegment(c0, c1);
    PreLuxOnSegment(c0, d1);
    SegmentsOrdered(c0, c1, d1);
    AlmostAntitoneLines(Segment(c0, c1), Segment(c0, d1), c0, c1, d1, PreLux(c0, c1), PreLux(c0, d1));
    RoundLuxMonotone(PreLux(c0, d1), PreLux(c0, c1));
  }

  /** The returned lux of real readings can rise at exactly three joins of the table: 2-3, 4-5 and 6-7. */
  lemma {:induction false} RisesOnlyAtThreeJoins(i: nat, j: nat)
    requires 1 <= i <= j <= 8
    ensures NeverRises(i, j) <==> !(j == i + 1 && i in {2, 4, 6})
  {
    hide CalculateLux, SegmentOf;
    if j == i + 1 && i in {2, 4, 6} {
      LuxRisesAtJoin(i);
    } else {
      forall time: IntegrationTime, gain: Gain, broadband: uint16, less: uint16, more: uint16 |
        broadband > 0 && less <= more && !Clipped(time, broadband, more)
        && SegmentOf(time, gain, broadband, less) == i && SegmentOf(time, gain, broadband, more) == j
        ensures CalculateLux(time, gain, broadband, more).value <= CalculateLux(time, gain, broadband, less).value
      {
        NoRiseElsewhere(time, gain, broadband, less, more);
      }
    }
  }

  // ------------------------------------------------- homogeneity and the gain

  /** Two channel pairs of the same ratio fall in the same segment. */
  lemma SameSpectrumSameSegment(c0: nat, c1: nat, d0: nat, d1: nat)
    requires c0 > 0 && d0 > 0 && c0 * d1 == d0 * c1
    ensures Segment(c0, c1) == Segment(d0, d1)
  {
    var i := Segment(c0, c1);
    SegmentInterval(c0, c1, i);
    SegmentInterval(d0, d1, i);
    if i > 1 { ScaleComparison(c0, c1, d0, d1, Edge(i - 1)); }
    if i < 8 { ScaleComparison(c0, c1, d0, d1, Edge(i)); }
  }

  /** Being left of a boundary depends on the ratio only. */
  lemma ScaleComparison(c0: nat, c1: nat, d0: nat, d1: nat, e: nat)
    requires c0 > 0 && d0 > 0 && c0 * d1 == d0 * c1
    ensures 0x400 * c1 < e * c0 <==> 0x400 * d1 < e * d0
  {
    // c0 * (e*d0 - 1024*d1) == d0 * (e*c0 - 1024*c1)
    var x, y := e * d0 - 0x400 * d1, e * c0 - 0x400 * c1;
    assert c0 * x == e * (c0 * d0) - 0x400 * (c0 * d1);
    assert d0 * y == e * (c0 * d0) - 0x400 * (d0 * c1);
    SameSign(c0, x, d0, y);
  }

  lemma SameSign(a: nat, x: int, b: nat, y: int)
    requires a > 0 && b > 0 && a * x == b * y
    ensures x > 0 <==> y > 0
  {
  }

  /** The pre-rounding value scales exactly with the light. */
  lemma PreLuxHomogeneous(c0: nat, c1: nat, d0: nat, d1: nat)
    requires c0 > 0 && d0 > 0 && c0 * d1 == d0 * c1
    ensures c0 * PreLux(d0, d1) == d0 * PreLux(c0, c1)
  {
    SameSpectrumSameSegment(c0, c1, d0, d1);
    ScaledLine(c0, c1, d0, d1, B(Segment(c0, c1)), M(Segment(c0, c1)));
  }

  lemma ScaledLine(c0: int, c1: int, d0: int, d1: int, b: int, m: int)
    requires c0 * d1 == d0 * c1
    ensures c0 * (d0 * b - d1 * m) == d0 * (c0 * b - c1 * m)
  {
    assert c0 * (d0 * b - d1 * m) == (c0 * d0) * b - (c0 * d1) * m;
    assert d0 * (c0 * b - c1 * m) == (c0 * d0) * b - (d0 * c1) * m;
  }

  /** Brighter light of the same spectrum never reads a lower lux. */
  lemma BrighterNeverReadsLower(c0: nat, c1: nat, d0: nat, d1: nat)
    requires 0 < c0 <= d0 && c0 * d1 == d0 * c1
    ensures RoundLux(PreLux(c0, c1)) <= RoundLux(PreLux(d0, d1))
  {
    PreLuxHomogeneous(c0, c1, d0, d1);
    PreLuxBounds(c0, c1);
    ScaledUp(c0, PreLux(c0, c1), d0, PreLux(d0, d1));
  }

  lemma ScaledUp(a: nat, p: int, b: nat, q: int)
    requires 0 < a <= b && 0 <= p && a * q == b * p
    ensures p <= q
  {
    MulMonotone(a, b, p);
    if q < p { MulMonotone(q + 1, p, a); }
  }

  /** Counts taken at 1X give the same lux as sixteen-fold counts taken at 16X. */
  lemma GainIndependent(time: IntegrationTime, x: nat, y: nat)
    requires 16 * x <= ClipThreshold(time) && 16 * y <= ClipThreshold(time)
    ensures CalculateLux(time, X1, x, y) == CalculateLux(time, X16, 16 * x, 16 * y)
  {
    ScaledChannels(time, X1, x, y);
    ScaledChannels(time, X16, 16 * x, 16 * y);
    SameChannel(time, x);
    SameChannel(time, y);
  }

  lemma SameChannel(time: IntegrationTime, count: nat)
    ensures Channel(time, X1, count) == Channel(time, X16, 16 * count)
  {
    assert count * (TimeScale(time) * 16) == 16 * count * (TimeScale(time) * 1);
  }

  /**
   At 402 ms, the daemon's setting, counts of one spectrum in brighter light never read a lower lux, whatever
   gains the two readings were taken with.
  */
  lemma BrighterCountsReadHigher(gain: Gain, x: uint16, y: uint16, brighter: Gain, x': uint16, y': uint16)
    requires x > 0 && x' > 0 && x * y' == x' * y && x * GainScale(gain) <= x' * GainScale(brighter)
    requires !Clipped(Ms402, x, y) && !Clipped(Ms402, x', y')
    ensures CalculateLux(Ms402, gain, x, y).value <= CalculateLux(Ms402, brighter, x', y').value
  {
    hide CalculateLux, PreLux, RoundLux, Channel;
    LuxExactAndBounded(Ms402, gain, x, y);
    LuxExactAndBounded(Ms402, brighter, x', y');
    var g, h := GainScale(gain), GainScale(brighter);
    CoarseChannel(gain, x);
    CoarseChannel(gain, y);
    CoarseChannel(brighter, x');
    CoarseChannel(brighter, y');
    SameRatio(x, y, g, x', y', h);
    BrighterNeverReadsLower(x * g, y * g, x' * h, y' * h);
  }

  lemma CoarseChannel(gain: Gain, count: nat)
    ensures Channel(Ms402, gain, count) == count * GainScale(gain)
  {
  }

  lemma SameRatio(x: nat, y: nat, g: nat, x': nat, y': nat, h: nat)
    requires x * y' == x' * y
    ensures (x * g) * (y' * h) == (x' * h) * (y * g)
  {
    assert (x * g) * (y' * h) == (x * y') * (g * h);
    assert (x' * h) * (y * g) == (x' * y) * (g * h);
  }
}
