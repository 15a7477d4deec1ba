# bbb-clock: verified model of the light-to-display pipeline

A BeagleBone clock dims its LED display with the room. A TSL2561 sensor counts light on two channels; a
driver reads it over I2C, switches its gain and computes lux; a daemon samples it every 600 ms and serves
one text line; the clock parses that line, averages three readings, maps the average to a target level, ramps
the driven level towards it and renders the time into a 48-channel buffer that two LED driver chips latch.
A telemetry service reads the same line and a small file the clock publishes. This project models every
stage and proves what each of them, and the whole, keeps over any run.

| file | models |
|---|---|
| `Basics.dfy`, `Arithmetic.dfy`, `Rounding.dfy` | 16- and 32-bit ranges; laws of products and quotients; `lrint` and `round` |
| `Lux.dfy`, `LuxTheorems.dfy` | the 32-bit, eight-segment lux formula |
| `Driver.dfy`, `Sensor.dfy`, `DriverTheorems.dfy`, `FaultTheorems.dfy` | the driver and the chip, with any transaction failing |
| `Wire.dfy`, `Telemetry.dfy` | the text line, the clock's `sscanf`, the service's regular expression and file reader |
| `Daemon.dfy`, `Schedule.dfy` | taking a sample and scheduling the next one |
| `Ambient.dfy`, `Ramp.dfy` | the moving average, the brightness map, the ramp |
| `Display.dfy`, `DisplayTheorems.dfy` | rendering through the channel tables, and reading the time back |
| `Clock.dfy`, `ClockTheorems.dfy` | the render loop with the chips' latch, over whole runs |
| `Publish.dfy` | the brightness file, system call by system call, with a concurrent reader |
| `Pipeline.dfy` | theorems from the light on the chip to the accepted count, the target and the display |
| `LightTheorems.dfy` | when more light shows less: settled lights, phases of a run, and two runs compared from the light |

Code that changes state is a class whose methods are proved equal to a function on values (`Tsl2561.Sensor`,
`Daemon.LightDaemon`, `Ambient.AmbientFilter`, `Display.LedBuffer`, `Clock.RenderLoop`, `Schedule.Deadline`);
the theorems are about those functions. What the programs do not decide is a parameter: `Driver.World` gives
the errno and the light of every bus transaction, `Clock.Event` the bytes received, the time and the outcome
of each write, `Publish.Action` the order and outcome of system calls, and `strerror` the C library's table.

Five promises of the code or its comments turn out false, and the model states exactly when they hold:

- The floor at zero in the lux formula (TSL2561.c:270-271) tests an unsigned value and never acts.
  `LuxCorrectIff`: the result is still the intended one unless broadband is 0, infrared is not and its channel exceeds 18.
- More infrared should never raise the lux. `RisesOnlyAtThreeJoins`: the table steps upwards at three joins, for the
  readings of `LuxRisesAtJoin`; `LuxAlmostAntitone` bounds the rise.
- Lux should be computed with the settings its counts were taken under. `LuxUsesSettingsInForceIff`: if and only if the transfers
  of the last reading succeeded and the chip was on, or off with data of the same settings, which the driver does not test;
  `StaleCountsMisread` is a run where they differ.
- The display is said to be unblanked only after a valid frame is on the chips (clock.c:767-768), but the outcome of
  the write is ignored. `UnblankSafeIff`: power-up garbage is never shown if and only if it is not the case that the run
  starts with a tick whose write fails and whose unblanking succeeds.
- More light should never darken the display and less light never brighten it (clock.c:269-287), but the clock maps raw counts
  whatever gain they were taken with. `DarkerIff`: for settled lights the promise breaks if and only if the dimmer is read at 16X
  and the brighter at 1X, where its sixteenth is smaller and below saturation; `BrighterPhaseDarkerIff` says so of any two phases of
  a run, and `BrighterRoomIff` when the readings of two whole runs are in order. While light moves between two steady values without leaving their range, rising
  light keeps the promise (`RisingLightNeverDarkens`) and `FallingLightBrightensIff` is the exact family of falls that break it, for
  example from 8000 to 7999. Outside that range a single sample can break it either way (`DipBrightens`, `SpikeDarkens`).
  (A comment at tsl2561-daemon.c:73-74 puts the saturation of the map at 1640 counts; clock.c:287 and `MapCalibration` put it at 849.)

## Model

| member | source | states |
|---|---|---|
| Rounding.RoundHalfEven | clock.c:300 | `lrint`: nearest integer, ties to even |
| Rounding.RoundHalfAway | clock.c:719 | `round`: nearest integer, ties away from zero |
| Lux.SelectSegment | tsl2561-daemon/tsl2561/TSL2561.c:250-265 | one of the eight segments is chosen for every ratio, so `b` and `m` are never uninitialised |
| LuxTheorems.ScaleIsNearest | tsl2561-daemon/tsl2561/TSL2561.h:84-86 | the channel scales are the nearest integers to their nominal values |
| Lux.SegmentInterval | tsl2561-daemon/tsl2561/TSL2561.c:226-265 | the shifted, divided and rounded ratio selects segment i exactly between the joins (2K+1)/1024 |
| LuxTheorems.PreLuxOnSegment | tsl2561-daemon/tsl2561/TSL2561.h:89-112 | the whole table as linear pieces with their numbers |
| LuxTheorems.PreLuxBounds | tsl2561-daemon/tsl2561/TSL2561.c:268 | with light on channel 0 the difference is never negative and at most the first slope times channel 0 |
| LuxTheorems.LuxExactAndBounded | tsl2561-daemon/tsl2561/TSL2561.c:171-281 | for every time, gain and 16-bit reading with broadband > 0 (or both 0, or clipped) the 32-bit code equals the unbounded formula and is at most 71537 |
| LuxTheorems.IntermediatesFit | tsl2561-daemon/tsl2561/TSL2561.c:219-277 | every intermediate of an unclipped computation with broadband > 0 fits 32 bits |
| LuxTheorems.LuxCorrectIff | tsl2561-daemon/tsl2561/TSL2561.c:268-277 | the code returns the intended lux if and only if clipped, broadband > 0, or the infrared channel is at most 18 |
| LuxTheorems.ClippedAboveEdge | tsl2561-daemon/tsl2561/TSL2561.c:188-218 | clipping in numbers: above 4900, 37000 and 65000 counts on either channel the lux is 0, and at the edge it is not as long as infrared is unclipped |
| LuxTheorems.InfraredOnlyWraps | tsl2561-daemon/tsl2561/TSL2561.c:268-277 | a concrete reading, 0 broadband and 100 infrared, for which the result is 262141 instead of 0 |
| LuxTheorems.PreLuxAlmostAntitone | tsl2561-daemon/tsl2561/TSL2561.c:226-268 | at fixed broadband more infrared raises the pre-rounding value by at most 829/1024 of channel 0, over any number of segments |
| LuxTheorems.LuxAlmostAntitone | tsl2561-daemon/tsl2561/TSL2561.c:203-277 | the same for the returned lux: a rise of at most channel0/2^14 + 1 |
| LuxTheorems.RisesOnlyAtThreeJoins | tsl2561-daemon/tsl2561/TSL2561.h:89-112 | the lux returned for real readings can rise with infrared from one segment to another if and only if they meet at one of the joins 2-3, 4-5, 6-7 |
| LuxTheorems.LuxRisesAtJoin | tsl2561-daemon/tsl2561/TSL2561.c:226-277 | at each of these joins a reading of 65000 broadband counts whose lux rises with one more infrared count: 1393 to 1394, 444 to 446, 35 to 38 |
| LuxTheorems.SameSpectrumSameSegment | tsl2561-daemon/tsl2561/TSL2561.c:226-265 | channel pairs of the same ratio select the same segment |
| LuxTheorems.PreLuxHomogeneous | tsl2561-daemon/tsl2561/TSL2561.c:226-268 | the pre-rounding value scales exactly with the light |
| LuxTheorems.BrighterNeverReadsLower | tsl2561-daemon/tsl2561/TSL2561.c:222-277 | brighter light of the same spectrum never reads a lower lux |
| LuxTheorems.GainIndependent | tsl2561-daemon/tsl2561/TSL2561.c:219-224 | counts x, y at 1X give the same lux as 16x, 16y at 16X |
| LuxTheorems.BrighterCountsReadHigher | tsl2561-daemon/tsl2561/TSL2561.c:203-277 | at 402 ms any two unclipped counts of one spectrum, also across gains: the brighter never reads a lower lux |
| Tsl2561.Chip.Write | tsl2561-daemon/tsl2561/TSL2561.c:102-105 | a failed bus write yields its errno and leaves the registers alone |
| Tsl2561.Sensor.constructor | tsl2561-daemon/tsl2561/TSL2561.h:201-209 | the initial struct: 402 ms, 16X, not open, no error |
| Tsl2561.Sensor.Write8 | tsl2561-daemon/tsl2561/TSL2561.c:92-107 | one register write, its error recorded in lasterr |
| Tsl2561.Sensor.Read16 | tsl2561-daemon/tsl2561/TSL2561.c:32-61 | register select, two-byte read, and what either failure returns |
| Tsl2561.Sensor.GetData | tsl2561-daemon/tsl2561/TSL2561.c:136-165 | power on, both channels, power off; failures do not stop it |
| Tsl2561.Sensor.SetIntegrationTime | tsl2561-daemon/tsl2561/TSL2561.c:284-305 | the struct's time changes only if the TIMING write succeeded |
| Tsl2561.Sensor.SetGain | tsl2561-daemon/tsl2561/TSL2561.c:306-327 | the struct's gain changes only if the TIMING write succeeded |
| Tsl2561.Sensor.Open | tsl2561-daemon/tsl2561/TSL2561.c:328-359 | opening, its error returns, and the two initial settings |
| Tsl2561.Sensor.SenseLight | tsl2561-daemon/tsl2561/TSL2561.c:374-458 | single and automatic-gain readings with their thresholds; outputs untouched on failure |
| DriverTheorems.ErrorsStick | tsl2561-daemon/tsl2561/TSL2561.c:32-107 | over any run of driver calls lasterr is the errno of the last transaction that failed, and zero if and only if none has |
| FaultTheorems.ClosedDriverIsInert | tsl2561-daemon/tsl2561/TSL2561.c:379-383 | every operation of a closed driver fails with the error -1, makes no transaction and changes nothing else, over any run |
| FaultTheorems.OpenOutcome | tsl2561-daemon/tsl2561/TSL2561.c:328-359 | what opening returns and leaves for every cause of failure, and which of its two settings a fault can lose |
| FaultTheorems.SetOutcome | tsl2561-daemon/tsl2561/TSL2561.c:284-327 | setting the time or the gain makes three transactions and succeeds if and only if the second one does; what struct, register and power then are |
| FaultTheorems.ReadingOutcome | tsl2561-daemon/tsl2561/TSL2561.c:32-165 | a whole reading from the fault schedule: both counts, 65535 after a failed select and 0 after a failed fetch, the transactions it makes, and whether the chip stays on |
| FaultTheorems.CallGain | tsl2561-daemon/tsl2561/TSL2561.c:413-440 | the gain after any call: changed exactly if the first count asks for it and the TIMING write gets through |
| FaultTheorems.ManualCallKeepsGain | tsl2561-daemon/tsl2561/TSL2561.c:384-388 | a call without automatic gain is one reading and leaves the gain alone |
| FaultTheorems.FaultMovesGain | tsl2561-daemon/tsl2561/TSL2561.c:43-51 | whatever the light and the gain: a call that loses only the select of channel 0 ends at 1X, one that loses only the fetch ends at 16X |
| FaultTheorems.FaultOutlivesCall | tsl2561-daemon/tsl2561/TSL2561.c:413-457 | light inside the band never corrects the gain such a fault leaves, over any number of calls |
| FaultTheorems.FailedCallReports | tsl2561-daemon/tsl2561/TSL2561.c:43-51 | what a call reports when a transfer of its last reading fails: 65535 or 0 on the channel concerned |
| FaultTheorems.LostSelectAt16X | tsl2561-daemon/tsl2561/TSL2561.c:43-51 | for example, light 30000 at 16X with one lost select is reported as 1875 at 1X |
| DriverTheorems.RunKeepsShadow | tsl2561-daemon/tsl2561/TSL2561.c:284-327 | over any run either some TIMING write got through and the struct agrees with the chip, or neither changed |
| DriverTheorems.ShadowAgreesIff | tsl2561-daemon/tsl2561/TSL2561.c:284-359 | from start-up, for every interleaving of failures, `integration_time \| gain` equals TIMING if and only if a write got through or TIMING started at 0x12 |
| DriverTheorems.SenseIsLastReading | tsl2561-daemon/tsl2561/TSL2561.c:390-457 | every call of an open driver reports its last reading, evaluated with the settings the call leaves |
| DriverTheorems.LuxUsesSettingsInForceIff | tsl2561-daemon/tsl2561/TSL2561.c:413-457 | once the struct agrees with the chip, a lux is computed with the gain and time its counts were taken under if and only if the transfers of the last reading succeeded and the chip was on, or off with data of the same settings, also when the gain change in mid-call fails; the counts of a chip that is on are of the light of that moment, of one that is off the retained ones |
| DriverTheorems.RunKeepsGenuine | tsl2561-daemon/tsl2561/TSL2561.c:136-165 | over any run, whatever fails, the data the chip retains are its counts of some earlier light under the TIMING noted with them |
| DriverTheorems.StaleCountsMisread | tsl2561-daemon/tsl2561/TSL2561.c:418-428 | a run in which only one power-on fails: the retained counts, taken at 1X, are evaluated at 16X, 13 lux instead of 213 |
| DriverTheorems.CleanSense | tsl2561-daemon/tsl2561/TSL2561.c:136-165 | as long as nothing has failed, the reported counts are the chip's, of the light at the last reading |
| DriverTheorems.GainVerdict | tsl2561-daemon/tsl2561/TSL2561.c:418-435 | what the count thresholds mean in light: below 16 lo the gain becomes 16X, above hi 1X, in between it stays |
| DriverTheorems.BandInNumbers | tsl2561-daemon/tsl2561/TSL2561.h:140-151 | the band in numbers, for each integration time: 1600 to 4850, 3200 to 36000, 8000 to 63000 |
| DriverTheorems.CountMeansLight | tsl2561-daemon/tsl2561/TSL2561.h:140-151 | what a count says about the light at each gain, up to full scale at 5047, 37177 and 65535 |
| DriverTheorems.CleanCallGain | tsl2561-daemon/tsl2561/TSL2561.c:413-440 | one call without failures, however the light moves meanwhile, leaves the gain that the light of its first reading decides |
| DriverTheorems.SteadyCall | tsl2561-daemon/tsl2561/TSL2561.c:390-457 | one call on a working bus, under light that is steady from its first transaction to its last, leaves the verdict gain, the agreeing register and the counts of that gain |
| DriverTheorems.SteadyLongEnough | tsl2561-daemon/tsl2561/TSL2561.c:390-457 | six transactions of steady light are enough for a call that leaves the gain alone, fifteen for one that changes it |
| DriverTheorems.GainFollowsLastVerdict | tsl2561-daemon/tsl2561/TSL2561.c:390-457 | under light that changes from call to call the gain follows the hysteresis band alone |
| DriverTheorems.GainRestsInBand | tsl2561-daemon/tsl2561/TSL2561.h:140-146 | while the light stays inside the band, however it moves there, no call changes the gain |
| DriverTheorems.AutogainSettles | tsl2561-daemon/tsl2561/TSL2561.c:374-458 | under constant light the gain changes at most once over any number of calls, in the first one |
| DriverTheorems.ClippedOnlyAtLowGain | tsl2561-daemon/tsl2561/TSL2561.h:140-151 | after a call broadband is clipped if and only if the gain is 1X and the light at least 16 times the threshold plus one |
| DriverTheorems.RaiseThenLowerCrossesBand | tsl2561-daemon/tsl2561/TSL2561.c:418-440 | in a run under changing light a raise and a later lowering mean the light went from below 16 lo to above hi |
| DriverTheorems.GradualRise | tsl2561-daemon/tsl2561/TSL2561.c:418-440 | such a run: light rising through the band in three calls is raised, left alone and lowered |
| Wire.Dec | tsl2561-daemon/tsl2561-daemon.c:85 | `%i` on a count: digits only, no leading zero, denoting the number |
| Wire.LineLayout | tsl2561-daemon/tsl2561-daemon.c:85 | the format in full, for every return code, error text and reading |
| Wire.CachedIsPrefix | tsl2561-daemon/tsl2561-daemon.c:85 | the 1025-byte buffer keeps the longest beginning of the line that fits |
| Wire.SpacesDoNotMatter | clock.c:615 | white space before a number, or where the format has some, may be of any length, also none |
| Wire.PlusDoesNotMatter | clock.c:615 | `%d` accepts a plus sign |
| Wire.SignedFieldsIff | clock.c:615-616 | three signed numbers scan back, and the line is rejected if and only if broadband is negative |
| Wire.WireRoundTrip | clock.c:615-616 | a full success line followed by any bytes parses back to its broadband, ir and lux |
| Wire.ErrorLineRejected | clock.c:610-616 | a line with another return code or error text is rejected, whatever follows it |
| Wire.ScanPrinted | clock.c:615-616 | `%d` scans back every printed integer, negative ones included |
| Wire.NegativeBroadbandRejected | clock.c:616 | a success line with a negative broadband is rejected |
| Wire.ParseExtends | clock.c:607-616 | what was accepted stays accepted when more bytes arrive, with the same broadband and ir |
| Wire.PrefixRejectedOrExact | clock.c:610-616 | every prefix of every line is rejected or comes from a success line and gives its exact broadband and ir |
| Wire.PrefixAcceptedIff | clock.c:610-616 | a cut success line is accepted if and only if at least one lux digit arrived |
| Wire.TruncatedLux | clock.c:610-616 | the lux of a cut line is the value of the digits that arrived |
| Wire.DroppedDigits | clock.c:610-616 | that value is the lux divided by the power of ten of the missing digits |
| Telemetry.LuxRoundTrip | telemetry-service/telemetry_service/sources.py:18-27 | `parse_lux` recovers the exact lux from every full line, error lines included |
| Telemetry.SignedLux | telemetry-service/telemetry_service/sources.py:18-27 | a labelled integer of either sign is recovered |
| Telemetry.FirstLabelWins | telemetry-service/telemetry_service/sources.py:18-27 | any white space, also none, after the label; the first labelled number is taken, with its sign, whatever follows it |
| Telemetry.EmptyLabelSkipped | telemetry-service/telemetry_service/sources.py:18-27 | a label without a number is passed over |
| Telemetry.ReadersAgree | telemetry-service/telemetry_service/sources.py:18-27 | however a success line is cut, `parse_lux` gives the lux the clock parses, or both give nothing |
| Telemetry.LevelRoundTrip | telemetry-service/telemetry_service/sources.py:41-47 | the text the clock writes is read back as its level |
| Telemetry.PaddedLevel | telemetry-service/telemetry_service/sources.py:41-47 | white space around the level and a sign before it are accepted |
| Telemetry.NotALevel | telemetry-service/telemetry_service/sources.py:41-47 | no file, an empty or blank one, and a text with anything inside its digits give nothing |
| Telemetry.PercentSomeIff | telemetry-service/telemetry_service/sources.py:50-55 | there is a percentage if and only if there is a level and the maximum is positive |
| Telemetry.PercentNearest | telemetry-service/telemetry_service/sources.py:50-55 | within range the percentage is the nearest whole one, ties to even; 0 and the maximum give 0 and 100 |
| Telemetry.PercentOrdered | telemetry-service/telemetry_service/sources.py:50-55 | for every level and maximum the percentage is within 0..100 and order-preserving |
| Ambient.AmbientFilter.AddBrightnessToBuffer | clock.c:557-566 | the ring holds the last three readings in turn |
| Ambient.AmbientFilter.UpdateAverageBrightness | clock.c:311-326 | the loop over the ring computes the average of the last readings |
| Ambient.AverageIsMean | clock.c:313-323 | for 16-bit readings the 32-bit sum never wraps and the average is the mean of the last min(n,3) |
| Ambient.TargetRange | clock.c:299-307 | after any accepted readings the target is within 25..4015 |
| Ambient.ThreeEqualReadings | clock.c:76-89 | three equal readings make the target their map, whatever came before |
| Ambient.MapCalibration | clock.c:280-287 | the map goes through both calibration points and saturates at 849 |
| Ambient.MapNearestToLine | clock.c:280-307 | everywhere the map is the nearest level to the line 4.70 x + 25, cut off at 5 and 4015 |
| Ambient.MapOnCounts | clock.c:299-307 | on whole counts the map rises strictly exactly up to 849 |
| Ambient.TargetMonotone | clock.c:272-326 | pointwise brighter histories have a no smaller average and target |
| Ramp.RisingClosedForm | clock.c:706-713 | n rising steps give min(target, max(g,1) F^n), with the bump from 0 to 1 |
| Ramp.FallingClosedForm | clock.c:702-705 | n falling steps give max(target, g / F^n) |
| Ramp.RisingMonotone | clock.c:706-713 | a rising ramp never reverses and never overshoots |
| Ramp.FallingMonotone | clock.c:702-705 | a falling ramp never reverses and never undershoots |
| Ramp.Powers | clock.c:47-63 | exact bounds on F^75, F^76, F^87, F^88, F^143, F^144 |
| Ramp.FullRangeSweep | clock.c:47-63 | from 50 to 4015 takes exactly 76 steps |
| Ramp.AnyMoveSettles | clock.c:700-714 | any move within 25..4015 is over after 88 steps |
| Ramp.AnyTargetFromBoot | clock.c:700-714 | any target is reached from boot after 144 steps |
| Ramp.StepBoundsAttained | clock.c:700-714 | 87 and 143 steps are not enough |
| Ramp.StepMonotoneIff | clock.c:700-714 | a brighter level chasing a higher target stays brighter if and only if the bump to one does not lift the lower one past it |
| Ramp.StepAttainable | clock.c:700-714 | after a step the level is at least 1.0596 and at most 4015 |
| Ramp.IdleMeansSettled | clock.c:716-720 | the loop idles if and only if the level is within half a unit of the target, and then the next step lands on it |
| Ramp.FastTicksBounded | clock.c:776 | with a fixed target at most 143 fast ticks, however long the loop runs |
| Display.OwnerOfSegment | clock.c:131-134 | the digit table is inverted by the channel map: no two entries share a channel |
| Display.SegmentOfOwner | clock.c:131-204 | every channel belongs to exactly the table entry that names it |
| Display.Trimmed | clock.c:461-463 | the trimmed level is the nearest to level times trim and never larger than the level, so no 12-bit overflow is possible |
| Display.TrimmedMonotone | clock.c:463 | trimming preserves order |
| Display.LedBuffer.constructor | clock.c:411-414 | the buffer starts dark |
| Display.LedBuffer.SetDigit | clock.c:452-472 | the loop through the scrambled table sets exactly the digit's channels; out-of-range arguments end the program |
| Display.LedBuffer.RenderTime | clock.c:740-765 | the loop's writes give the frame described channel by channel |
| DisplayTheorems.DigitIsDrawn | clock.c:131-231 | a digit written draws its numeral stroke by stroke on the channels it is wired to: which numerals leave each stroke dark, and the level of the others |
| DisplayTheorems.FrameSpelledOut | clock.c:740-765 | the whole frame channel by channel, from the time of day alone: four numerals in twelve-hour form, the separator dots, the dot from noon on, and the channels left alone |
| DisplayTheorems.DigitsCompose | clock.c:329-333 | the four decimal digits of a number make it up again |
| DisplayTheorems.DisplayRoundTrip | clock.c:740-765 | with all trimmed levels visible the 24-hour time is read back from the lit channels, for every prior buffer |
| DisplayTheorems.LegibleIff | clock.c:452-472 | frames of different times differ if and only if all five trimmed levels are visible |
| DisplayTheorems.TwelveBitVisible | clock.c:466 | up to 4095 a digit is visible as soon as its trimmed level is not zero |
| DisplayTheorems.DigitSetIsLocal | clock.c:452-472 | writing one digit shows its value and leaves the other digits and the dots alone |
| DisplayTheorems.RenderForgets | clock.c:746-765 | the buffer is a function of time, level and trims only |
| DisplayTheorems.FrameBounded | clock.c:463-466 | every channel is at most the level |
| DisplayTheorems.FrameMonotone | clock.c:452-472 | a brighter level is no darker on any channel |
| Clock.RenderLoop.constructor | clock.c:722-730 | the state `clock -t` starts from |
| Clock.RenderLoop.Accept | clock.c:618-626 | buffer, average and, in dynamic mode, target after an accepted reading |
| Clock.RenderLoop.Poll | clock.c:607-650 | only fully parsed success lines are accepted |
| ClockTheorems.AcceptsBroadband | clock.c:610-619 | of a line with any three integers the clock takes the first, unless it is negative, whatever the other two are |
| Clock.RenderLoop.StepBrightnessRamp | clock.c:700-714 | one ramp step; none with a fixed level or before the first reading |
| Clock.RenderLoop.ShowFrame | clock.c:740-772 | render, write, unblank the first time |
| Clock.RenderLoop.Tick | clock.c:731-777 | one pass of the loop, the level it publishes and the sleep it chooses |
| ClockTheorems.ReachableFromBoot | clock.c:411-414 | in every reachable state the level is 0 or at least 1.0596, the target in range, every channel within 0..4015 and undriven channels 0 |
| ClockTheorems.TickRenders | clock.c:746-766 | a tick's frame, and the latch if the write succeeds, is the frame of its time and level |
| ClockTheorems.TickChasesTarget | clock.c:618-714 | the tick that accepts a reading sets the target of all readings so far and takes its first step towards it; before the first reading the level stays at zero |
| ClockTheorems.ComparisonPrinciple | clock.c:557-714 | two runs with the same schedule: pointwise no smaller readings give no smaller average, target, level, channels and latch after every event |
| ClockTheorems.StandingRunIsRamp | clock.c:697-714 | while the target stands, whatever readings and glitches come, the level over a run is the ramp's |
| ClockTheorems.StandingLoopIdles | clock.c:716-720 | the loop idles before the first reading and once a target has stood for 144 ticks, readings included |
| ClockTheorems.StandingRunIsRarelyFast | clock.c:716-776 | however long a target stands and however many readings confirm it, at most 143 ticks are fast |
| ClockTheorems.QuietTargetStands | clock.c:697-714 | a run without new readings is one in which the target stands |
| ClockTheorems.EqualReadingsFixTarget | clock.c:607-626 | in any run whose accepted readings are one count, from the third on the target is the map of that count |
| ClockTheorems.EqualReadingsSettle | clock.c:731-777 | 144 ticks later, with more such readings, losses and glitches in between, the next frame written is the one of that target and the loop idles |
| ClockTheorems.IdleIsSettled | clock.c:716-776 | in every reachable state after a reading the loop idles if and only if the level is within half a unit of the target, which is then one step away |
| ClockTheorems.FixedLevelStays | clock.c:700-720 | with a level fixed by `-g`, whatever is received: the level and the target stay and the loop idles, over any run |
| ClockTheorems.FixedFrames | clock.c:740-766 | every frame such a run writes is the one of its time and that level |
| ClockTheorems.OnlyTheLatch | clock.c:362-374 | glitches and power-up contents never reach anything but the latch |
| ClockTheorems.SelfHealing | clock.c:773-776 | after any glitches a tick that writes restores the frame of the glitch-free run |
| ClockTheorems.UnblankedByFirstTick | clock.c:767-772 | in every run, glitches included, the display is unblanked only by the first tick, after its write attempt |
| ClockTheorems.LatchIsRendered | clock.c:362-374 | once a write has got through, and until the next glitch, the latch holds a frame of the run, also after later writes that fail |
| ClockTheorems.UnblankSafeIff | clock.c:766-772 | in every run, glitches included: except between a glitch and the next write, no 12-bit power-up contents are ever shown, if and only if the run does not start with a tick whose write fails and whose unblanking succeeds |
| Publish.DoConsistent | clock.c:666-683 | each system call of either side keeps the final file whole, out of the publisher's reach, and equal to last |
| Publish.PublishedAtomically | clock.c:659-683 | for every interleaving and failure: the final file is absent or a whole level, equals last after a success; the bytes a reader has, in however many reads, are the beginning of one such file, and it ends with nothing or the level that was last when it opened the file |
| Publish.ReaderGetsLevel | telemetry-service/telemetry_service/sources.py:41-47 | in any run of both sides and with reads of any size: a reader that opens the file, goes on and reads once past its text gets the level in it, which was last when it opened, if there was one |
| Publish.ReaderGetsNothing | telemetry-service/telemetry_service/sources.py:41-47 | it gets nothing without a file or when a read fails |
| Publish.WholeReads | telemetry-service/telemetry_service/sources.py:41-47 | reading a whole file gives the level it holds |
| Publish.ReplacedIffLevelChanges | clock.c:659-664 | in every run the final file is replaced exactly when last changes and keeps its contents otherwise; after the first publish each replacement changes the text |
| Publish.PublishSucceedsIff | clock.c:666-683 | a new level becomes last and the contents of the file if and only if its text fits the buffer and open, whole write and rename succeed; otherwise both stay |
| Publish.WriteLeavesBeginning | clock.c:666-671 | a write leaves the beginning of the text in the temporary file, as much as got out, and nothing of an older one |
| Publish.LevelFits | clock.c:678-680 | every 16-bit level fits the text buffer |
| Publish.UndisturbedPublishSucceeds | clock.c:675-683 | a publish without failures makes its level last and the contents of the final file |
| Schedule.MsUntilExact | tsl2561-daemon/tsl2561-daemon.c:88-94 | truncated milliseconds are within 1 ms of the exact difference, with the sign that matters |
| Schedule.MsUntilAntisymmetric | tsl2561-daemon/tsl2561-daemon.c:88-94 | the division truncates towards zero: exchanging the instants negates the result |
| Schedule.DueWindow | tsl2561-daemon/tsl2561-daemon.c:164-168 | a sample is due from its deadline on, and not until a millisecond before it |
| Schedule.Deadline.Advance | tsl2561-daemon/tsl2561-daemon.c:96-102 | the timespec in place moves by 600 ms |
| Schedule.LaterExact | tsl2561-daemon/tsl2561-daemon.c:96-102 | exactly 600 ms, and it stays normalised |
| Schedule.Deadline.RunPass | tsl2561-daemon/tsl2561-daemon.c:166-185 | one pass of the loop: due, sample, advance, resync |
| Schedule.SampleReschedules | tsl2561-daemon/tsl2561-daemon.c:170-185 | the new deadline is at least 600 ms after the old one, strictly after the sample's end and less than 601 ms ahead of it |
| Schedule.ResyncWindow | tsl2561-daemon/tsl2561-daemon.c:176-183 | no resync up to 599 ms past the deadline, always from 600 ms on |
| Schedule.DeadlinesSpread | tsl2561-daemon/tsl2561-daemon.c:164-185 | over any run with a monotonic clock k samples move the deadline by at least k times 600 ms |
| Schedule.NeverBursts | tsl2561-daemon/tsl2561-daemon.c:176-183 | k samples need more than k times 600 - 601 ms, whatever stalls happen |
| Schedule.PromptIsExact | tsl2561-daemon/tsl2561-daemon.c:164-185 | while every sample ends within 599 ms of its deadline, the k-th deadline is exactly the first plus k times 600 ms |
| Daemon.LightDaemon.InitTsl2561 | tsl2561-daemon/tsl2561-daemon.c:48-61 | opens the sensor and sets 1X, or makes the program exit |
| Daemon.LightDaemon.SampleSensor | tsl2561-daemon/tsl2561-daemon.c:66-86 | sets 402 ms, senses with automatic gain and rewrites the cached line |
| Pipeline.AcceptedIffNothingFailed | tsl2561-daemon/tsl2561-daemon.c:80-85 | after any number of samples the clock accepts the served line if and only if no transaction has failed since the daemon started |
| Pipeline.AcceptedPrefixIsExact | clock.c:610-619 | an accepted partial read also proves that nothing had failed, and carries the exact count |
| Pipeline.AcceptedCountIsTrue | clock.c:615-619 | the accepted counts of both channels are the ones the chip took of the light of that moment |
| Pipeline.NoLineWithoutReading | tsl2561-daemon/tsl2561-daemon.c:66-86 | no reader gets anything before the first sample; a sample of a sensor that is not open keeps the old reading and is rejected |
| Pipeline.ServedLux | tsl2561-daemon/tsl2561-daemon.c:80-86 | the lux of every served line is computed from the counts in it: both readers get it, with the chip's true counts of both channels while nothing has failed, and telemetry gets it after failures too |
| Pipeline.NoBadCountEver | clock.c:610-619 | over all runs of daemon and clock, with any failures, cut lines and glitches, every reading in the clock's history is a true count of a sample up to which nothing had failed |
| Pipeline.TelemetryIgnoresErrors | telemetry-service/telemetry_service/sources.py:18-27 | from every served line with an error text of up to 974 characters and no label in it telemetry takes the lux, also when the clock rejects the line because a transaction has failed |
| Pipeline.AlwaysAt402 | tsl2561-daemon/tsl2561-daemon.c:66-79 | whatever fails, the driver stays open and its integration time is 402 ms |
| Pipeline.SteadySamples | tsl2561-daemon/tsl2561-daemon.c:66-86 | once the light has been steady for a sample, and until something fails, every sample has the gain and the count the hysteresis band gives from the gain at the start |
| Pipeline.SteadyLineAccepted | tsl2561-daemon/tsl2561-daemon.c:66-86 | every line the clock accepts of the samples under steady light, whole or cut, carries that one count, whatever light came before |
| Pipeline.SteadyLightSteadyDisplay | clock.c:731-777 | light steady from some sample on, met at either gain: after three accepted readings and 144 ticks, with readings still arriving and with cut lines, losses, failing writes and glitches, the next frame written is the one of the settled target, from any reachable state |
| LightTheorems.GainAfterSamples | tsl2561-daemon/tsl2561-daemon.c:66-79 | as long as nothing fails the gain follows the hysteresis band over any number of samples, under light that moves at any time |
| LightTheorems.GainAfterSteadyLight | tsl2561-daemon/tsl2561-daemon.c:70-79 | on a working bus steady light takes the gain to the verdict of the band, to 16X below 8000 |
| LightTheorems.SteadyLux | tsl2561-daemon/tsl2561-daemon.c:66-86 | under steady light both readers get the settled counts of both channels and their lux from every line |
| LightTheorems.SettledLuxOf7000 | tsl2561-daemon/tsl2561-daemon.c:66-86 | for example, light 7000 without infrared is 213 lux at either gain |
| LightTheorems.DarkerIff | clock.c:269-307 | of two settled lights, met at any two gains, the brighter has the lower target if and only if the dimmer is read at 16X, the brighter at 1X, and its sixteenth is smaller and below saturation |
| LightTheorems.BrighterPhaseDarkerIff | tsl2561-daemon/tsl2561-daemon.c:66-86 | the same for any two phases of steady light in one run, in either order and with anything in between |
| LightTheorems.RisingLightNeverDarkens | tsl2561-daemon/tsl2561-daemon.c:70-79 | in one run, light that rises from one steady value to another, at once or over any samples whose light stays between the two, never lowers the target |
| LightTheorems.FallingLightBrightensIff | tsl2561-daemon/tsl2561-daemon.c:70-79 | light that falls in this way raises the target if and only if it was read at 1X, falls below the raise threshold, and its sixteenth was below the new light and below saturation |
| LightTheorems.DipBrightens | tsl2561-daemon/tsl2561-daemon.c:70-79 | without the bounds in between: a daemon run from 12000 over one sample at 7000 to 9000, in which the target rises from 3550 to 4015 |
| LightTheorems.SpikeDarkens | tsl2561-daemon/tsl2561-daemon.c:70-79 | and one from 10000 over one sample at 64000 to 12000, in which it drops from 4015 to 3550 |
| LightTheorems.DimRoomIsAt16X | tsl2561-daemon/tsl2561-daemon.c:70-79 | a run that reaches 16X: the daemon in a dim room |
| LightTheorems.BrighterFrom16X | tsl2561-daemon/tsl2561-daemon.c:70-77 | of two steady lights met at 16X, as after a dim room, the brighter never has the lower target |
| LightTheorems.DimmerFrom1XIff | tsl2561-daemon/tsl2561-daemon.c:70-77 | of two steady lights met at 1X the brighter has the lower target if and only if it crosses the raise threshold with its sixteenth below the dimmer count and below saturation |
| LightTheorems.HysteresisJump | tsl2561-daemon/tsl2561-daemon.c:70-77 | lights 7999 and 8000 give targets 4015 and 2375 |
| LightTheorems.CountsOrderedIff | tsl2561-daemon/tsl2561/TSL2561.c:413-457 | of two readings of ordered lights, at any gains, the counts are in order if and only if the dimmer light was not read at 16X with the sixteenth of the brighter, read at 1X, below it |
| LightTheorems.CrossedByLightIff | tsl2561-daemon/tsl2561-daemon.c:66-86 | which samples of two runs are crossed like that, from the lights of the two runs alone |
| LightTheorems.BrighterRoomIff | clock.c:557-714 | two daemons and two clocks on one schedule, any failures, cuts and glitches, the second reading no less light in every accepted sample: the readings are pointwise no smaller if and only if no accepted sample is crossed, and then neither are average, target, level, channels and latch |
| LightTheorems.AverageFeelsCrossing | clock.c:299-326 | in a run a crossed count above saturation matters too, as readings are averaged before they are mapped: targets 1396 and 4015 in two rooms of which the first is never dimmer |

## Left out

- IEEE rounding: `float` values (level, average, trims) are reals.
- Ramp.Step: no single-precision rounding, so the step counts are those of exact arithmetic.
- Wire.ScanNumber: integers are unbounded; the overflow of `%d`, which the daemon's values never reach, is not modelled.
- Telemetry.PyInt: underscores and non-ASCII digits that Python's `int` also accepts are not modelled; the clock never writes them.
- Telemetry.Percent: the quotient is exact, Python divides in double precision.
- Schedule.MsUntil: differences beyond the 32-bit range of milliseconds (24 days) are not modelled.
- Clock.Level: conversion of levels outside 0..65535, which only a fixed `-g` level can reach, is undefined in C and taken modulo 2^16 here.
- Driver.World: a failing transfer has a nonzero errno; a short transfer that leaves errno at 0 is not modelled.
- Driver.ChipCount: the converter is ideal (the light, divided by 16 at 1X, stopped at its cap); its conversion delay and the waits before reading are not modelled.
- Driver.Convert: a chip that is off returns the data of its last conversion; what it really returns then is not specified by the driver.
- Clock.Boot: a restart of the clock is not an event: a run starts blanked and with no reading, so a clock that starts on a display an earlier one left unblanked is not covered.
- Publish.Initial: a run starts with no reader; one that has the file open across a restart of the clock is not covered.
- Clock.Event: sockets, `select`, reconnecting and the gpio files are outcomes of an event; a failed SPI write leaves the latch alone.
- Publish.Do: a step machine on values, because reader and publisher interleave; the version file works the same way and is not repeated.
- Configuration: trims are given numbers within 0..1; the parsing of clock.conf is not modelled.
- The command-line modes `-w`, `-c`, `-d`, `-b` and the CS-package lux tables, which are not compiled.
- The MQTT service, discovery, the other telemetry readers, the stress harness, demo programs and scripts: no algorithm to state anything hard about.
