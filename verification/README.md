# Verified model of the bench runner, the PicoScope driver, the run supervisor and the diagram layout

Four parts of the repository carry properties that the code decides by itself, with no instrument
needed to check them. Each is modelled here with the branches, constants and error exits of its
source, and its properties are proved for every input, every run or every interleaving.

* **Measurements on a sample record** (`Histogram`, `Crossings`, `EdgeTime`, `Timing`, `Rescaling`).
  The 256-bin histogram that finds base and top, the hysteresis crossing detector that walks back and
  interpolates, the edge-time finder, and period, frequency, widths, rise and fall time on top of
  them. The loops are methods over arrays and sequences, each equal to a declarative function of the
  record; what the functions promise is proved beside them. Samples are exact reals.
* **The PicoScope capture engine** (`Timebase`, `Capture`, `ScopeUnit`, `ScopeSession`, `ScopeCalls`,
  `ScopeFailures`). The doubling-then-bisection search for a timebase, the planning of a capture window, the two conversions
  between volts and ADC counts, and the Setup/Arm/Await/Measure session of two faces sharing one unit
  that either may close. The SDK is an oracle: any call may answer anything. A unit keeps what it was
  told, and a block what the unit had been told when it was run, so a record is compared with what
  scripts asked for through the hardware, not through the driver's own books. Failures have causes: a
  verb throws only after an answer that was not OK, a range too large, no timebase or no channel on.
* **The run and its supervisor** (`RunTrace`, `RunParts`, `RunVerdict`, `RunLifecycle`; `RunSession`,
  `LineSplitter`, `CommandLine`). The runner's nested brackets emit a trace. `RunTrace` says which traces
  are legal, independently of the code, and what legality means; `RunLifecycle` is the code, and every run
  of it, whatever hooks, scripts and stop requests do, is legal; `RunVerdict` says what a run's tests, its
  passes and its verdict come to in terms of the selection and the options themselves. The supervisor is a
  state machine of interleaved atomic steps of request threads, two reader threads per child, and the
  children.
* **The diagram layout engine** (`Diagram`, `DiagramLayout`, `DiagramCheck`, `FrameBrackets`,
  `RowPictures`, `FrameWidening`, `FrameEnclosure`, `ReturnCheck`, `FaultCount`). The row loop, the two
  widening passes, and the geometry and return checks, with theorems about what each row becomes on the
  page and which complaints the layout can still draw.

The functions that say what the code computes are stated against what they mean as well: in volts, in
samples, in selected names, in rows and pixels, without naming the functions themselves.

## What the code does that its comments or the obvious reading do not say

* Quoting a program name by the rule for arguments is not always read back: the name is parsed by a
  different rule. The vector survives exactly when the name holds no quote and does not end, quoted,
  in a backslash (`CommandLine.VectorSurvivesExactly`, with one that does in
  `CommandLine.NameGainsABackslash`).
* The reader threads never deliver an unterminated last line: it stays in the partial buffer
  (`LineSplitter.LinesAndTailAreTheText`).
* The record of a capture starts within half a sample of the start asked for exactly when the clamp
  that keeps one post-trigger sample does not bind by more than that (`Capture.OriginIsNearestExactly`).
* A record is not always of the settings in force. One awaited with nothing in between is of what the
  unit was last told; that is what is set up exactly when, for each channel or resolution whose `Setup`
  threw, the last push answered OK asked the same (`ScopeCalls.DriveBox`). A `Setup` that throws leaves
  its request behind, so a record meant for 5 V is taken at 1 V (`ScopeFailures.FailedSetUp`).
* Nor is it always read by what the unit was told. `SetChannel` may be answered OK and the bandwidth filter
  then refused: the unit runs at 5 V, and the trigger level is set and the samples are read at 1 V
  (`ScopeFailures.FilterRefused`). A record awaited with nothing in between is read as it was run exactly
  when the last push that succeeded whole gave, for each channel whose `Setup` threw, the last conversion
  told (`ScopeCalls.DriveBox`, `ScopeSession.RecordReadExactly`).
* A `Setup` between `Arm` and `Await` drops the record in hand, not the block in flight. The record that
  comes of it is of the settings in force exactly when nothing asked for has changed, and read as it was
  run exactly when the conversions told for it are still in use
  (`ScopeSession.Oscilloscope.AwaitAcquisition`, `ScopeSession.StillReadExactly`; the inputs are
  `ScopeFailures.SetUpBetween` and, with volts five times too large, `ScopeFailures.RangeBetween`).
* A `Measure` between `Arm` and `Await`, or a reopening, leaves the `Await` a record of no block of its own.
  It is of the armed block exactly when that is still the unit's last one, into the buffers last
  registered (`ScopeSession.Oscilloscope.AwaitAcquisition`, `ScopeFailures.MeasuredBetween`,
  `ScopeFailures.ClosedBetween`).
* Reading the scale of a channel whose display was switched off in between is undefined: once the samples
  are there, exactly when an enabled channel has no conversion left
  (`ScopeSession.Oscilloscope.FinishCapture`, with the input in `ScopeFailures.SwitchedOffBetween`).
* More than one handle can be open. A power status that `ChangePowerSource` then refuses comes with a handle
  that is forgotten and never closed; the open handles are exactly those and the unit's own
  (`ScopeUnit.Box.OpenedUnit`, `ScopeCalls.DriveBox`, with the input in `ScopeFailures.HandleAbandoned`).
* Settling after a switch to AC is owed by the `Setup` that switches, not by the unit. The block kept is
  settled exactly when that debt was open or no input set up for AC still had to be switched; after a
  close and reopening it is not (`ScopeSession.Oscilloscope.ArmSingle`, `ScopeFailures.ReopenedOnAc`).
* A viewer of a run session misses nothing within one run; the next `start` clears the lines, so the
  theorem is about viewers whose run is still the current one (`RunSession.ViewerMissesNothing`).
* The layout's comment says the surviving canvas check is about a frame that has to grow past the
  canvas. A frame that grows stops at the margin instead. The check fires only for a frame that
  encloses nothing and was authored off the canvas (`FrameEnclosure.FrameOffCanvasExactly`); what does
  happen at the margin is that the frame stops enclosing (`FrameEnclosure.ItemsEnclosedExactly`).
* The padding between nested frames is not kept at depth: of three frames authored alike the two outer
  ones are drawn on top of each other (`FrameEnclosure.PaddingIsLostAtDepth`). Edge by edge, it is kept
  exactly where, by the spans the first pass leaves, the page has room and the outer frame, or some frame
  in it, is that wide (`FrameEnclosure.PaddingIsKeptExactly`).
* The forgiving return check is exact about whether there is a fault (`ReturnCheck.NoFaultExactly`), not
  about how many (`FaultCount.FaultCountIsNotLeast`). It counts at most one too many for each call it
  dropped and whose return it then missed, so where no return drops an open call the count is the least
  of any choice of answers (`FaultCount.FaultCountIsBounded`, `FaultCount.FaultCountIsLeast`). A call
  dropped and missed need not cost anything, so that is sufficient and not necessary
  (`FaultCount.WasteMayCostNothing`).

## Model

| member | source | states |
|---|---|---|
| `Histogram.TalliesConserve` | instruments/pico_5244d/src/measurements.cpp:229-238 | over any binning of a record, the bin counts add up to its length and the bin sums to its sum |
| `Histogram.HalvesOccupied` | instruments/pico_5244d/src/measurements.cpp:227-277 | of a record that is neither empty nor flat, each half of the histogram holds at least one sample |
| `Histogram.FullestIsNonEmpty` | instruments/pico_5244d/src/measurements.cpp:252-275 | the fullest bin of a half that holds a sample is not empty, so its mean divides by no zero |
| `Histogram.LevelsStraddleTheMiddle` | instruments/pico_5244d/src/measurements.cpp:211-293 | levels exist exactly for records neither empty nor flat; least <= base < middle <= top <= most, so 0 < amplitude <= peak-to-peak |
| `Histogram.BinsAreSlices` | instruments/pico_5244d/src/measurements.cpp:227-238 | a sample's bin is the slice of 256 even ones, from the least sample to the greatest, that it lies in |
| `Histogram.HalfLevelExactly` | instruments/pico_5244d/src/measurements.cpp:252-275 | a half with no bin of five times its even share is read at its extreme sample, and one with such a bin at the mean of its fullest |
| `Histogram.Fullest` | instruments/pico_5244d/src/measurements.cpp:252-275 | the loop over one half returns the mean of its fullest bin, ties and all as the half-level function says, from tallies that match the record |
| `Histogram.Tally` | instruments/pico_5244d/src/measurements.cpp:227-238 | the filled arrays hold, bin by bin, the count and the sum of exactly the samples that fall there |
| `Histogram.FindLevels` | instruments/pico_5244d/src/measurements.cpp:211-278 | the whole loop equals the levels function on every record, both errors included |
| `Crossings.FractionWithin` | instruments/pico_5244d/src/measurements.cpp:41-51 | the interpolation fraction of a straddling pair lies in [0, 1) |
| `Crossings.WalkBackStops` | instruments/pico_5244d/src/measurements.cpp:76-95 | the walk back from a completed crossing stops at k >= 1, after the opposite sample it came from, at a pair that straddles the level |
| `Crossings.CrossingsAlternateInTime` | instruments/pico_5244d/src/measurements.cpp:57-101 | with band and interval above 0, crossings alternate rising and falling and their times strictly increase |
| `Crossings.CrossingsLieInStraddlingPairs` | instruments/pico_5244d/src/measurements.cpp:41-101 | every crossing lies between two samples of the record that straddle the level in its direction, and is timed where the straight line between them is at the level |
| `Crossings.EveryTraverseIsCounted` | instruments/pico_5244d/src/measurements.cpp:57-101 | whenever the signal is on one side of the band and later on the other, a crossing in that direction is placed between the two |
| `Crossings.TraverseIsCrossed` | instruments/pico_5244d/src/measurements.cpp:57-101 | from a sample at or below level - band to a later one at or above level + band there is a rising crossing timed between the two, and a falling one the other way round |
| `Crossings.CrossingIsTraverse` | instruments/pico_5244d/src/measurements.cpp:57-101 | no crossing is found but within such a pair of samples |
| `Crossings.WalkBack` | instruments/pico_5244d/src/measurements.cpp:84-91 | the backward loop finds the last straddling pair at or before the sample that completed the crossing |
| `Crossings.FindCrossings` | instruments/pico_5244d/src/measurements.cpp:57-101 | the detector loop equals the crossing list defined by sides of the band, on every record |
| `EdgeTime.EdgeExistsExactly` | instruments/pico_5244d/src/measurements.cpp:110-153 | with low < high an edge time exists exactly when some sample at or above high follows one at or below low |
| `EdgeTime.TraverseStaysBetween` | instruments/pico_5244d/src/measurements.cpp:121-141 | between its two ends a traverse stays strictly between the levels, so the two inner rescans never move and the past-the-end exit is dead |
| `EdgeTime.EdgeBeginsBeforeItEnds` | instruments/pico_5244d/src/measurements.cpp:110-153 | the interpolated low crossing comes strictly before the interpolated high one |
| `EdgeTime.EdgeTimeIsPositive` | instruments/pico_5244d/src/measurements.cpp:110-153 | the edge time is strictly positive |
| `EdgeTime.EdgeEndsOnTheLine` | instruments/pico_5244d/src/measurements.cpp:110-153 | the edge time is that of the first complete rise, from where the straight line between two samples is at low to where another is at high |
| `EdgeTime.RampIsTimedExactly` | instruments/pico_5244d/src/measurements.cpp:110-153 | on a record that rises by the same step each sample it is (high - low) / step sample intervals |
| `EdgeTime.FallEndsOnTheLine` | instruments/pico_5244d/src/measurements.cpp:354-375 | the falling edge time is that of the first complete fall, between the same two levels |
| `EdgeTime.LastOfRun` | instruments/pico_5244d/src/measurements.cpp:124-129 | the inner rescan returns the end of the run of low samples it started in |
| `EdgeTime.FindEdgeTime` | instruments/pico_5244d/src/measurements.cpp:110-153 | the loop with its rescans equals the simple form: first sample at or above high after a low one, measured from the last such low one |
| `EdgeTime.NegatedEdgeIsFallingEdge` | instruments/pico_5244d/src/measurements.cpp:354-375 | the edge finder on the negated record with negated levels equals a direct high-to-low edge finder |
| `Timing.MiddleCrossingsAlternate` | instruments/pico_5244d/src/measurements.cpp:304-306 | the levels of any measurable record give the detector a positive band, so its crossings alternate in increasing time |
| `Timing.SwingIsCrossed` | instruments/pico_5244d/src/measurements.cpp:303-306 | every swing of a measurable record from 40 % of its amplitude to 60 %, or back, has a crossing timed between its two samples |
| `Timing.MiddleIsCrossed` | instruments/pico_5244d/src/measurements.cpp:303-306 | and every crossing is where the line between two samples is halfway from base to top |
| `Timing.TimesOfAlternating` | instruments/pico_5244d/src/measurements.cpp:316-324 | one direction's edges are every second crossing, in order |
| `Timing.PeriodIsEdgeSpacing` | instruments/pico_5244d/src/measurements.cpp:295-332 | a period is read exactly for three crossings or more, and is the spacing of the majority direction's first and last edge over the gaps between |
| `Timing.PeriodIsPositive` | instruments/pico_5244d/src/measurements.cpp:295-332 | a period is strictly positive, so the frequency divides by no zero |
| `Timing.PeriodIsMeanOfGaps` | instruments/pico_5244d/src/measurements.cpp:324-331 | it is the mean of the gaps between consecutive edges |
| `Timing.WidthIsFirstPulse` | instruments/pico_5244d/src/measurements.cpp:380-409 | a width is read exactly when the wanted pulse is complete, is the first such pulse, and is positive |
| `Timing.WidthsSpanThreeCrossings` | instruments/pico_5244d/src/measurements.cpp:295-419 | positive plus negative width is the time from first to third crossing, and with exactly three crossings the period |
| `Timing.EdgeTimesArePositive` | instruments/pico_5244d/src/measurements.cpp:339-375 | rise and fall times, where there are any, are positive |
| `Timing.RiseIsBetweenFractions` | instruments/pico_5244d/src/measurements.cpp:339-352 | a rise time is that of the first complete rise between the two fractions of the way from base to top |
| `Timing.FallIsBetweenFractions` | instruments/pico_5244d/src/measurements.cpp:354-375 | a fall time is that of the first complete fall between them |
| `Timing.FrequencyIsOfPeriod` | instruments/pico_5244d/src/measurements.cpp:334-337 | there is a frequency exactly where there is a period, and their product is one |
| `Timing.Period` | instruments/pico_5244d/src/measurements.cpp:295-332 | the loop equals the period function on every record, errors included |
| `Timing.Frequency` | instruments/pico_5244d/src/measurements.cpp:334-337 | one over the period, which is never zero |
| `Timing.RiseTime` | instruments/pico_5244d/src/measurements.cpp:339-352 | the edge time between the two threshold levels of the record |
| `Timing.FallTime` | instruments/pico_5244d/src/measurements.cpp:354-375 | the direct falling edge time, though computed on the negated record |
| `Timing.PulseWidth` | instruments/pico_5244d/src/measurements.cpp:380-409 | the loop equals the width function on every record, errors included |
| `Rescaling.LevelsFollow` | instruments/pico_5244d/src/measurements.cpp:211-293 | for every record v, a > 0 and b: the levels of a*v+b are a times those of v plus b, with the same errors |
| `Rescaling.CrossingsScaled` | instruments/pico_5244d/src/measurements.cpp:57-101 | the crossings of a*v+b at the scaled level and band are those of v, times included |
| `Rescaling.EdgeTimeScaled` | instruments/pico_5244d/src/measurements.cpp:110-153 | the edge time of a*v+b between scaled levels is that of v |
| `Rescaling.FallTimeScaled` | instruments/pico_5244d/src/measurements.cpp:354-375 | so is the falling one |
| `Rescaling.TimingIgnoresScale` | instruments/pico_5244d/src/measurements.cpp:295-419 | period, both widths, rise time and fall time of a*v+b equal those of v, successes and errors alike |
| `Rescaling.FrequencyIgnoresScale` | instruments/pico_5244d/src/measurements.cpp:334-337 | so does the frequency |
| `Timebase.FindTimebase` | instruments/pico_5244d/src/oscilloscope.cpp:469-554 | under the documented assumption the result is the coarsest timebase below the ceiling that fits the target, or the first valid one when that is already too coarse; without it the result still fits whenever the first valid one does; at most 33 + 30 + 30 probes |
| `Timebase.Grow` | instruments/pico_5244d/src/oscilloscope.cpp:517-536 | doubling ends within the ceiling after at most 30 probes, with a fitting number below a non-fitting one or the ceiling |
| `Timebase.Bisect` | instruments/pico_5244d/src/oscilloscope.cpp:538-553 | bisection ends within 30 probes at a fitting number whose successor does not fit |
| `Timebase.BestIsCoarsestFitting` | instruments/pico_5244d/src/oscilloscope.cpp:456-467 | with intervals that never decrease, that boundary is the global optimum |
| `Timebase.ChosenIsUnique` | instruments/pico_5244d/src/oscilloscope.cpp:469-554 | under the documented assumption there is only one timebase the search may choose |
| `Capture.RangeIndexFor` | instruments/pico_5244d/src/oscilloscope.cpp:89-104 | the smallest range that holds the voltage within the tolerance, refused exactly beyond the largest |
| `Capture.ShapeIsWellFormed` | instruments/pico_5244d/src/oscilloscope.cpp:593-623 | pre >= 0, post >= 1, at least two samples, never both pre-trigger samples and a delay, and the samples cover the window to within half of one |
| `Capture.StartIsNearestExactly` | instruments/pico_5244d/src/oscilloscope.cpp:603-623 | in samples, the record starts at the nearest whole sample exactly when the pre-trigger clamp does not bind by more than half a sample |
| `Capture.OriginIsNearestExactly` | instruments/pico_5244d/src/oscilloscope.cpp:603-623 | the same in seconds, for every interval above 0 |
| `Capture.EnoughPoints` | instruments/pico_5244d/src/oscilloscope.cpp:588-593 | an interval fine enough for the requested points gives at least that many samples |
| `Capture.PlanCapture` | instruments/pico_5244d/src/oscilloscope.cpp:581-643 | each refusal exactly when its cause holds: no timebase set, none valid, the memory not told, more samples than it holds; otherwise the plan is that of the timebase the search chose, the coarsest whose interval is at most the window over the points under the documented assumption, and has too few points only on the first valid one; it covers a window of ten divisions that begins, is centred or ends at the position, as the reference says |
| `Capture.PlanPlaces` | instruments/pico_5244d/src/oscilloscope.cpp:593-623 | for any window and start: as long as the window to half a sample, beginning with it to half a sample exactly where the clamp allows, with samples before the trigger or a delay after it and never both |
| `Capture.ErrorIsRounding` | instruments/pico_5244d/src/oscilloscope.cpp:713-715 | a level taken to counts and back is off by the counts' rounding times one ADC step |
| `Capture.CountsWithinSpan` | instruments/pico_5244d/src/oscilloscope.cpp:713-723 | the counts handed to the unit lie within its ADC's span |
| `Capture.LevelSurvivesExactly` | instruments/pico_5244d/src/oscilloscope.cpp:713-723 | a trigger level comes back through the record's formula to within half a step exactly when it is inside the range or less than half a step beyond |
| `Capture.LevelInRangeSurvives` | instruments/pico_5244d/src/oscilloscope.cpp:799-805 | so does every level within the range around the channel's offset, in tip volts |
| `ScopeUnit.Box.OpenedUnit` | instruments/pico_5244d/src/unit.cpp:88-172 | opens at most one unit per box under a fresh generation; fails only after an answer that was not OK, and succeeds when every answer is OK; it leaves a handle open and forgotten exactly when a power status was answered and then refused, and none but those when it fails |
| `ScopeUnit.Box.CloseUnit` | instruments/pico_5244d/src/unit.cpp:44-79 | after it no unit of the box is open, and no handle but the forgotten ones |
| `ScopeUnit.CalledForServes` | instruments/pico_5244d/src/oscilloscope.cpp:265-308 | what a channel is told serves its Setup: the display, the coupling and the probe ratio are as set up, its offset is read in the middle of the ADC's span, every voltage within its range of that inside the span, and no smaller range of the unit would do |
| `ScopeUnit.LevelServed` | instruments/pico_5244d/src/oscilloscope.cpp:713-723 | on such a scale every trigger level within the unit's range of the channel's offset comes back from counts to within half a step |
| `ScopeSession.Oscilloscope.ServedAsSetUp` | instruments/pico_5244d/src/oscilloscope.cpp:252-313 | at any time each channel whose last Setup did not throw is so served by what the unit has been told |
| `ScopeSession.Oscilloscope.Session` | instruments/pico_5244d/src/oscilloscope.cpp:149-181 | returns only with the unit's generation equal to the one applied; a unit this face had not set up has had resolution and every channel applied and its old capture dropped; it fails only for an answer that was not OK or a range too large, and then closes the unit; with every answer OK on a closed box it succeeds |
| `ScopeSession.Oscilloscope.PushChannel` | instruments/pico_5244d/src/oscilloscope.cpp:252-313 | every way out by the SDK's answers: what the unit was told, which is range, offset, probe ratio, coupling, display and, by a call of its own, the bandwidth filter; what it was told serves the channel as set up; what conversion the face keeps, and how many calls it took; other channels are untouched |
| `ScopeSession.Oscilloscope.ConfigureChannel` | instruments/pico_5244d/src/oscilloscope.cpp:356-398 | each setting named is in force and each one not named as it was, drops the record in hand and, thrown or not, leaves the block in flight on a unit already set up; on success the unit was told what serves the channel, and it throws only for a cause, leaving what was told and what is read by as far as the push got; a refused value changes nothing; settling is owed exactly after a switch to AC |
| `ScopeSession.Oscilloscope.ConfigureTrigger` | instruments/pico_5244d/src/oscilloscope.cpp:400-408 | each setting named is in force and each one not named as it was; drops the record in hand |
| `ScopeSession.Oscilloscope.ConfigureTimebase` | instruments/pico_5244d/src/oscilloscope.cpp:410-428 | the same, refusing exactly a span that is not positive or fewer than two points, without effect |
| `ScopeSession.Oscilloscope.ConfigureAcquisition` | instruments/pico_5244d/src/oscilloscope.cpp:430-451 | on success the unit runs at the resolution asked for, and if that changed it every channel has been pushed again |
| `ScopeSession.Oscilloscope.BeginCapture` | instruments/pico_5244d/src/oscilloscope.cpp:645-741 | on success the unit's last block and its buffers are this capture's, run with the trigger and window set up and on channels as the unit was told them, for exactly the channels applied; the block is settled exactly when settling was owed or no input still had to be switched to AC; it fails only for a cause |
| `ScopeSession.Oscilloscope.FinishCapture` | instruments/pico_5244d/src/oscilloscope.cpp:743-817 | a record is of the block last run into this capture's buffers, with the scales now applied; once the samples are there, a scale is missing exactly when an enabled channel has none; any other end has an answer that was not OK or yes |
| `ScopeSession.Oscilloscope.ArmSingle` | instruments/pico_5244d/src/oscilloscope.cpp:846-892 | armed exactly on success, and then the unit's last block is this face's, run as the unit was told and triggered on the channel named or else the first that is on, at a level set by the conversion in use for it; it is settled exactly when settling was owed or no input set up for AC had yet to be switched; it throws only for a cause |
| `ScopeSession.Oscilloscope.AwaitAcquisition` | instruments/pico_5244d/src/oscilloscope.cpp:894-931 | disarms; whatever came in between, a completed capture is of the armed block exactly when that is still the last one of a unit still set up, into the buffers last registered, which it is without a Measure or a reopening; if it was run as Arm asked, it is of the settings in force exactly when nothing asked for has changed since, and in any case read as it was run exactly when the conversions told for it are still in use; an undefined read happens exactly when an enabled channel has lost its conversion by then, and never without a Setup |
| `ScopeSession.Oscilloscope.Measure` | instruments/pico_5244d/src/oscilloscope.cpp:819-844 | reads the record in hand, or a fresh one that is not kept, of a block just run as the unit was told; that is as set up, and read as it was run, exactly where the pushes that a throwing Setup left behind asked and gave the same; the buffers of a capture in flight are no longer in use; it throws only for a cause |
| `ScopeSession.Oscilloscope.Safe` | instruments/pico_5244d/src/oscilloscope.cpp:227-250 | leaves nothing armed, in flight or in hand, and opens nothing |
| `ScopeFailures.FailedSetUp` | instruments/pico_5244d/src/oscilloscope.cpp:356-398 | a channel set up for 1 V, then for 5 V with one call refused, captured with nothing in between: the record in hand was taken at 1 V |
| `ScopeFailures.FilterRefused` | instruments/pico_5244d/src/oscilloscope.cpp:292-308 | a channel set up for 1 V and a bandwidth limit, then for 5 V with the filter's call refused, captured with nothing in between: the block was run as set up, at 5 V, its trigger level set and its samples read at 1 V |
| `ScopeFailures.SwitchedOffBetween` | instruments/pico_5244d/src/oscilloscope.cpp:783-814 | a channel's display switched off between Arm and Await, every call answered OK: the Await reads a scale that is not there |
| `ScopeFailures.SetUpBetween` | instruments/pico_5244d/src/oscilloscope.cpp:221-225 | a timebase set up between Arm and Await, every call answered OK: a record is in hand and is not of the settings in force |
| `ScopeFailures.RangeBetween` | instruments/pico_5244d/src/oscilloscope.cpp:790-805 | a range of 5 V set up between Arm and Await, every call answered OK: a block run at 1 V is read at 5 V |
| `ScopeFailures.MeasuredBetween` | instruments/pico_5244d/src/oscilloscope.cpp:819-844 | a Measure between Arm and Await, every call answered OK: the Await completes with a record of no block of its own |
| `ScopeFailures.ClosedBetween` | instruments/pico_5244d/src/oscilloscope.cpp:894-931 | the generator closing the unit between Arm and Await, every call answered OK: the same |
| `ScopeFailures.HandleAbandoned` | instruments/pico_5244d/src/unit.cpp:121-136 | a power status answered and then refused, and the unit opened again: two handles are open |
| `ScopeFailures.ReopenedOnAc` | instruments/pico_5244d/src/oscilloscope.cpp:645-656 | a channel set up for AC, closed and armed again: the first block kept before was settled, the first one after is not |
| `ScopeUnit.TakenAsOthersExactly` | instruments/pico_5244d/src/oscilloscope.cpp:221-225 | a block run as one set of settings asked is of another's exactly when that asks the same trigger, window, resolution and channels |
| `ScopeSession.TakenAsAskedExactly` | instruments/pico_5244d/src/oscilloscope.cpp:252-313 | a block run as the unit was last told is of the settings exactly when each channel's last push, where a Setup of it threw since, asked the same |
| `ScopeSession.RecordReadExactly` | instruments/pico_5244d/src/oscilloscope.cpp:790-805 | a record of a block run as the unit was last told is read as it was run, trigger level included, exactly when each channel's last push that succeeded whole, where a Setup of it threw since, gave the last conversion told |
| `ScopeSession.StillReadExactly` | instruments/pico_5244d/src/oscilloscope.cpp:790-805 | a block read by the conversions in use at the time is read as it was run exactly when these are the ones told for it |
| `ScopeCalls.DriveBox` | instruments/pico_5244d/src/oscilloscope.cpp:149-931 | over every sequence of calls to both faces and every answer of the SDK: the settings are those the calls named, whichever of them threw; the open handles are the forgotten ones and that of at most one unit, live and armed implies a block in flight, completed if and only if a record is in hand; a record undisturbed until awaited is of its own block, run as the unit was last told, on each channel whose last Setup did not throw as serves that Setup; it is of the settings in force exactly where each push that a throwing Setup left behind asked the same, and read as it was run exactly where the last one that succeeded whole gave the same conversion |
| `LineSplitter.SplitResumes` | framework/webui/src/child_stream.cpp:558-576 | splitting may stop anywhere and go on from the tail |
| `LineSplitter.LinesAndTailAreTheText` | framework/webui/src/child_stream.cpp:558-576 | the lines with their newlines and the tail are exactly the bytes, and none of them holds a newline |
| `LineSplitter.SplittingIsUnique` | framework/webui/src/child_stream.cpp:558-576 | they are the only lines and tail that make up those bytes |
| `LineSplitter.Reader.Deliver` | framework/webui/src/child_stream.cpp:567-575 | the append-and-erase loop delivers exactly the complete lines and keeps the tail |
| `LineSplitter.Reader.Feed` | framework/webui/src/child_stream.cpp:260-284 | for any chunking, what has been delivered depends only on the bytes so far, less one carriage return a line on Windows |
| `LineSplitter.Reader.DeliveredIsTheText` | framework/webui/src/child_stream.cpp:260-284 | off Windows the delivered lines with their newlines and the partial line are the bytes received; on Windows each delivered line is one of the bytes' less the carriage return it may end in |
| `CommandLine.QuoteArg` | framework/webui/src/child_stream.cpp:78-116 | the iterator loop produces the declarative quoting of the argument |
| `CommandLine.BuildCommandLine` | framework/webui/src/child_stream.cpp:134-146 | the loop joins the quoted arguments with single spaces |
| `CommandLine.QuotedParses` | framework/webui/src/child_stream.cpp:78-116 | any argument, empty ones, quotes and trailing backslashes included, is read back whole by the runtime's rules and leaves what follows it alone |
| `CommandLine.QuotedOnlyWhereNeeded` | framework/webui/src/child_stream.cpp:78-116 | an argument that is not empty and has no blank, tab, newline, vertical tab or quote goes bare, and every other inside quotes |
| `CommandLine.LineGrows` | framework/webui/src/child_stream.cpp:134-146 | one more argument adds one space and its quoting |
| `CommandLine.ArgumentsSurvive` | framework/webui/src/child_stream.cpp:134-146 | every argument list is read back exactly, under either reading of a doubled quote |
| `CommandLine.VectorSurvivesExactly` | framework/webui/src/child_stream.cpp:134-146 | with the program name the whole vector is read back exactly when the name survives the rule for program names |
| `CommandLine.NameGainsABackslash` | framework/webui/src/child_stream.cpp:134-146 | a name with a blank and a backslash at its end comes back with one more backslash |
| `RunSession.StepKeeps` | framework/webui/src/run_session.cpp:49-154 | every enabled step of every thread keeps the joint invariant of session, children and viewers |
| `RunSession.EveryInterleavingIsOk` | framework/webui/src/run_session.cpp:49-154 | so it holds after any interleaving |
| `RunSession.AtMostOneChildUnreaped` | framework/webui/src/run_session.cpp:49-96 | at no moment are two children not yet waited for |
| `RunSession.SignalNeverHitsReapedPid` | framework/webui/src/child_stream.cpp:593-685 | a kill that signals hits the active run's own child, whose pid nobody has collected |
| `RunSession.ExitIsLastAndOnce` | framework/webui/src/child_stream.cpp:558-645 | the exit is reported at most once, and only after every line of both streams has been delivered |
| `RunSession.StartJoinsAFinishedReader` | framework/webui/src/run_session.cpp:49-96 | the join inside start, with the session mutex held, meets only a reader that has nothing left to wait for |
| `RunSession.WaitsDescend` | framework/webui/src/child_stream.cpp:578-685 | each wait for a lock, a join or the condition variable is for a thread of lower rank |
| `RunSession.NoCycleOfWaits` | framework/webui/src/run_session.cpp:49-127 | so no reachable state has a cycle of waits |
| `RunSession.EveryThreadMovesOrWaits` | framework/webui/src/run_session.cpp:49-154 | every thread can take its next step, or waits for the child itself, or waits for a thread that is or holds what it wants |
| `RunSession.WaitEndsAtAMover` | framework/webui/src/run_session.cpp:49-154 | so whoever waits, waits in the end for a thread that can move or that waits for the child alone |
| `RunSession.PhaseIsOfItsCall` | framework/webui/src/run_session.cpp:98-127 | over every history, a thread about to signal or waiting for the exit came in for a kill, one about to ask came in for a stop, and one joining or spawning for a start |
| `RunSession.AcquiringEnters` | framework/webui/src/run_session.cpp:49-127 | a stop or a kill on an active run with a child goes for that child's lock and on any other does nothing; a start on an active run does nothing and on any other clears the lines |
| `RunSession.SignalledExactly` | framework/webui/src/child_stream.cpp:675-685 | a kill whose signal finds the child uncollected waits for the exit, and one that does not is over |
| `RunSession.AwaitsWhatItSignalled` | framework/webui/src/run_session.cpp:111-127 | over every history, a kill waits for the exit only after a signal of its own to a child nobody had collected |
| `RunSession.PollCatchesUp` | framework/webui/src/run_session.cpp:129-154 | in every reachable state a poll gives a viewer of the current run every line there is, and tells it the run is over exactly when it is |
| `RunSession.ViewerMissesNothing` | framework/webui/src/run_session.cpp:129-154 | a viewer that follows one run has exactly its lines before its position, in order, and all of them once told the run is over |
| `RunTrace.PhasesNeverOverlap` | framework/runner/src/main.cpp:719-771 | in a legal run at most one phase is open at any point, and every end closes a begin |
| `RunTrace.RunTeardownOnce` | framework/runner/src/main.cpp:1143-1193 | a declared RUN_TEARDOWN runs exactly once in a run that reached its safing |
| `RunTrace.RunTeardownLast` | framework/runner/src/main.cpp:1143-1193 | nothing but notes, the end of its phase, the safing and the verdict follows it |
| `RunTrace.SafedMeansTornDown` | framework/runner/src/main.cpp:1877-1918 | safing comes after the run's teardown, with no phase open |
| `RunTrace.GroupTeardownsPaid` | framework/runner/src/main.cpp:893-970 | the groups' teardowns that ran are those of the opened groups that declare one, in order, once each, but for the one still open |
| `RunTrace.GroupTeardownLast` | framework/runner/src/main.cpp:911-966 | no setup or test of a group follows its teardown before a group is opened again |
| `RunTrace.WorkIsCleared` | framework/runner/src/main.cpp:899-993 | no test or group begins except right after a poll that said carry on, and none once a poll has said stop |
| `RunTrace.ThrownEndsNothing` | framework/runner/src/main.cpp:995-1041 | once a script or setup threw, its test and group are never ended and only teardowns follow |
| `RunParts.CleanRunRanEverything` | framework/runner/src/main.cpp:1111-1269 | a run in which nothing failed and no stop was honoured ran the whole catalog-ordered selection, as often as passes were asked for |
| `RunLifecycle.Runner.StopNow` | framework/core/include/core/control/stop_request.hpp:96-105 | answers whether a stop was requested, and remembers having honoured it |
| `RunLifecycle.Runner.RunSetup` | framework/runner/src/main.cpp:762-771 | an absent setup succeeds without a phase; a declared one leaves exactly its bracketed call, thrown or not |
| `RunLifecycle.Runner.TearDown` | framework/runner/src/main.cpp:798-857 | an absent teardown leaves nothing; a declared one leaves its bracketed call, fails the run unless it succeeded, and lets nothing escape |
| `RunLifecycle.Runner.RunTest` | framework/runner/src/main.cpp:990-1043 | one test's events on each of its four ways out, and where each leaves the run |
| `RunLifecycle.Runner.RunSelectedTests` | framework/runner/src/main.cpp:976-1045 | runs the selected tests in catalog order, or as many as go before a throw or a stop; the verdict stands exactly if all passed |
| `RunLifecycle.Runner.RunGroup` | framework/runner/src/main.cpp:893-970 | setup, tests unless it refused, teardown on every way out, and endGroup unless something threw |
| `RunLifecycle.Runner.RunOnePass` | framework/runner/src/main.cpp:893-970 | runs the catalog-ordered selection less groups whose setup refused, unless thrown or stopped; passes exactly if every hook and test of the pass did |
| `RunLifecycle.Runner.RunPasses` | framework/runner/src/main.cpp:1200-1269 | as many full passes as asked for, or up to and including the first failing one under until-failure, unless thrown or stopped; a stop honoured is noted once and never a pass; nothing else is posted between or after the passes |
| `RunLifecycle.Runner.FindUnmatched` | framework/runner/src/main.cpp:1065-1083 | every selected id the catalog does not have, in order |
| `RunLifecycle.Runner.RunTests` | framework/runner/src/main.cpp:1111-1193 | true exactly when no id is unmatched, every hook succeeded, every test passed and no stop was honoured; the tests of the trace are those of its passes, which are stretches of it; a true verdict means the whole selection ran once per pass; an unmatched id runs nothing |
| `RunLifecycle.Runner.GuardedRun` | framework/runner/src/main.cpp:1877-1925 | every run, whatever hooks, scripts and stops do, is legal, ends safed with its verdict, tears the run down exactly once and each opened group once per opening, with balanced phases; an exception is noted right before the safing; nothing runs that the selection does not name, nor in more passes than asked for; the verdict passes exactly if every hook succeeded, every script's checks passed, no stop was honoured, every id named is a test and the readings were written, and then every test named, or with none named every test, has run, in as many passes as asked for |
| `RunVerdict.OnlyWhatWasAsked` | framework/runner/src/main.cpp:480-483 | no legal trace begins a test that a non-empty selection does not name, nor one that is not in the catalog |
| `RunVerdict.SelectedInOrder` | framework/runner/src/main.cpp:976-993 | the selected tests of a list are those of its parts in turn |
| `RunVerdict.OneSelected` | framework/runner/src/main.cpp:480-483 | one test is selected exactly if the selection names it or names none |
| `RunVerdict.SelectionIsAll` | framework/runner/src/main.cpp:480-483 | a run of the selection once or more has begun every test the selection names, or with none named every test of every group |
| `RunVerdict.PassesAreCounted` | framework/runner/src/main.cpp:1091-1097 | never more passes than the repeat option gives, or one with neither option; just as many unless a throw, a stop, a failed RUN_SETUP or a failing pass under until-failure ended them |
| `RunVerdict.RefusedGroupRunsNothing` | framework/runner/src/main.cpp:899-960 | after a group's setup refused, with no skeleton to be written, no test begins until a group is opened again |
| `RunVerdict.HookEventsAre` | framework/runner/src/main.cpp:719-857 | a hook is called between the two ends of its phase, and a teardown that did anything but succeed is noted before its phase ends |
| `DiagramLayout.LayRows` | tools/make_diagrams.py:128-191 | the row loop equals the walk over the rows, and raises exactly what the first offending row raises |
| `DiagramLayout.LaidOutExactly` | tools/make_diagrams.py:128-191 | a table is laid out exactly when every row names known lanes and non-empty notes and its frames are balanced |
| `DiagramLayout.EverySheetIsTidy` | tools/make_diagrams.py:137-186 | after any row, items stay apart by their own height and a row, clear of every frame edge, and frames nest or stand apart |
| `FrameBrackets.FrameHoldsItsRows` | tools/make_diagrams.py:142-186 | what lies vertically inside a drawn frame is exactly what was written between its two rows |
| `FrameBrackets.FramesNestAsBracketed` | tools/make_diagrams.py:142-161 | one drawn frame lies inside another exactly when its two rows lie between the other's |
| `RowPictures.ItemsShowTheirRows` | tools/make_diagrams.py:163-186 | each item drawn is the picture of its row: an arrow from the lane of its source to the lane of its target with its text, or a box as wide as its longest line, as high as its lines and centred on its lane unless the margins push it; at the height the rows before it add up to |
| `RowPictures.FramesShowTheirRows` | tools/make_diagrams.py:142-161 | each frame has the title and the span of its frame row, and reaches from just below that row's height to just below its endframe row's |
| `RowPictures.EveryRowIsShown` | tools/make_diagrams.py:137-186 | no message, note or closed frame of the table is missing |
| `RowPictures.PictureShowsItsRows` | tools/make_diagrams.py:121-250 | the same of the finished drawing, with its foot |
| `RowPictures.FailureHasItsRow` | tools/make_diagrams.py:137-186 | what the row loop raises is what its first impossible row raises: a frame ended that was not begun, a note with no lines, a lane there is not |
| `DiagramCheck.Layout` | tools/make_diagrams.py:121-250 | rows and both widening passes together give the drawing the functions describe, or the exception |
| `DiagramCheck.CheckBoxes` | tools/make_diagrams.py:277-291 | a note is reported off the canvas, or crowding the label below, exactly when it is |
| `DiagramCheck.CheckGeometry` | tools/make_diagrams.py:351-383 | arrows nearly overlapping, frames off the canvas, labels on a frame's edge and tabs hit are reported exactly when the drawing has them, beside what the notes' checks report |
| `DiagramCheck.StrikesExactly` | tools/make_diagrams.py:374-380 | an edge strikes a label from 23 to 2 pixels above its arrow |
| `DiagramCheck.ArrowsInOrder` | tools/make_diagrams.py:355-358 | the arrows compared are all the arrows of the page, in order |
| `DiagramCheck.OnlyTheCanvasIsLeft` | tools/make_diagrams.py:277-383 | for every table that can be laid out, no label is crowded, no arrows overlap, none sits on a frame's edge and none hits a tab |
| `DiagramCheck.BoxOffCanvasExactly` | tools/make_diagrams.py:182-185 | a note runs off the canvas exactly when its box is wider than the canvas less 32 |
| `FrameWidening.Rounded` | tools/make_diagrams.py:223-223 | the nearest whole number, and the even one of two equally near |
| `FrameWidening.PulledIsLeast` | tools/make_diagrams.py:220-221 | an edge pulled by any list of extents ends at the least of what it had to clear, stopped at the margin, whatever the order |
| `FrameWidening.FirstPass` | tools/make_diagrams.py:208-223 | every frame is widened by everything drawn inside it and rounded |
| `FrameWidening.TallestFirstIsAll` | tools/make_diagrams.py:238-238 | the tallest-first order names every frame once |
| `FrameWidening.SecondPass` | tools/make_diagrams.py:238-248 | rewriting spans in place, tallest first, gives each frame what it would get from the first pass's spans alone |
| `FrameEnclosure.FramesNestOrStandApart` | tools/make_diagrams.py:142-161 | any two frames of a laid-out table are strictly nested or apart |
| `FrameEnclosure.ItemsEnclosedExactly` | tools/make_diagrams.py:208-248 | a drawn frame's edge encloses what is drawn in it exactly where that keeps to the 10 pixel margin |
| `FrameEnclosure.EndsEnclosedExactly` | tools/make_diagrams.py:208-248 | in the drawing's own terms: both ends of an arrow and both sides of a box between a frame's top and bottom are inside it exactly as far as they are 10 pixels from the page's edges |
| `FrameEnclosure.EndsArePadded` | tools/make_diagrams.py:208-223 | and 12 pixels inside but for the rounding wherever they are 22 from the page's edge |
| `FrameEnclosure.FramesEnclosedExactly` | tools/make_diagrams.py:225-248 | and each frame nested in it at any depth, exactly where that frame does |
| `FrameEnclosure.FrameOffCanvasExactly` | tools/make_diagrams.py:367-369 | a frame runs off the canvas exactly when it encloses nothing and its authored span, rounded, does |
| `FrameEnclosure.EverythingIsEnclosed` | tools/make_diagrams.py:193-250 | where spans, lanes and boxes keep to the margins, every frame encloses every frame, note and arrow in it |
| `FrameEnclosure.PaddingIsKeptExactly` | tools/make_diagrams.py:225-248 | over every table that can be laid out, on both edges: a frame keeps the padding to one nested in it at any depth exactly where, by the first pass's spans alone, the page has room for it and the frame, or some frame in it, is wide enough |
| `FrameEnclosure.InnermostIsPadded` | tools/make_diagrams.py:225-248 | around a frame that holds no frame the padding is kept exactly where the page has room for it |
| `FrameEnclosure.PaddingIsLostAtDepth` | tools/make_diagrams.py:238-248 | every table of three nested frames authored alike is drawn with the outer two on the same edges |
| `ReturnCheck.CheckReturns` | tools/make_diagrams.py:332-349 | the stack loop reports exactly the returns that find no open call, and none exactly when every dashed arrow can be explained |
| `ReturnCheck.GreedyNeverCrosses` | tools/make_diagrams.py:332-349 | what the stack answers never crosses, and no open call lies under an answer given |
| `ReturnCheck.GreedyKeepsMoreOpen` | tools/make_diagrams.py:332-349 | any call that some non-crossing choice of answers leaves open is open on the greedy stack too |
| `ReturnCheck.NoFaultExactly` | tools/make_diagrams.py:306-349 | no fault is reported exactly when some non-crossing assignment answers every return by an earlier unused call the other way round |
| `ReturnCheck.PassesExactly` | tools/make_diagrams.py:306-349 | in the rows' own terms: no fault exactly when every dashed arrow goes back along a solid arrow above it that no other goes back along, and whatever goes back from between the two does so before |
| `FaultCount.FaultCountIsBounded` | tools/make_diagrams.py:332-349 | for all rows and every non-crossing choice of answers: no more faults than returns it leaves unanswered plus calls the stack dropped and whose returns then found nobody waiting |
| `FaultCount.FaultCountIsLeast` | tools/make_diagrams.py:332-349 | where no return drops an open call, no non-crossing choice of answers leaves fewer returns unanswered than there are faults |
| `FaultCount.FaultsAreWhatItLeaves` | tools/make_diagrams.py:332-349 | the count of faults is that of a real non-crossing choice, the stack's own |
| `FaultCount.FaultCountIsNotLeast` | tools/make_diagrams.py:332-349 | a table on which the check reports two faults where one unanswered return would do |
| `FaultCount.WasteMayCostNothing` | tools/make_diagrams.py:332-349 | a table on which a call is dropped and missed and the count is the least all the same |

## Left out

- IEEE arithmetic: samples, times and voltages are exact reals, so rounding, overflow and NaN in the measurements and the plan are not modelled, nor are the 32-bit narrowings of sample counts.
- The plain readings (maximum, minimum, peak-to-peak, RMS, average): one fold each, with no branch or error path beyond the empty record.
- The SCPI drivers, the switch unit's simulation, the dynamic loading of the SDK and the waveform shapes: command sequences and tables with little to state.
- Real time: sleeps, deadlines and polling periods; a wait ends ready, not ready or failing, as the SDK answers.
- The SDK's memory: which addresses it writes through is not modelled, only which capture's buffers were registered last.
- ScopeSession.Oscilloscope.PushChannel: the offset limits are one answer of the SDK, and a filter never asked for is the unit's own.
- ScopeCalls.DriveBox: `useAddress`, which moves a face to another box, is left out, and whether a face is simulated is fixed for its lifetime.
- ScopeSession.Oscilloscope.Measure: the reading computed from the record is in the measurement modules, not joined to the session; clipping is left out.
- RunSession.ExitIsLastAndOnce: lines travel whole, as LineSplitter delivers them, and the JSON envelope around a stderr line is a flag on the entry.
- RunSession.SignalNeverHitsReapedPid: the POSIX stream is modelled, not the Windows one, and the write of a stop line does not block.
- RunSession.NoCycleOfWaits: absence of deadlock and of a thread stuck for good, not progress of a child that never closes its pipes.
- RunSession.PhaseIsOfItsCall: what a child does with a stop line or a signal is left to it, and what `start`, `stop` and `kill` answer their callers is not modelled.
- CommandLine.ArgumentsSurvive: text is a sequence of characters; the conversion from UTF-8 is left out.
- RunLifecycle.Runner.GuardedRun: hooks, scripts and stop requests are any functions of time in which a stop is never withdrawn and a verb abandons a script only once one was requested; exceptions that are not standard ones, which escape the handler, are left out, and so are the log files, replay, recording and preflight around the guarded block.
- The runner's option parser, the web server's routes, the launcher, and the test suites and reference checker: input and output around the parts above.
- The drawing itself: SVG emission and colours.
- DiagramCheck.CheckGeometry: label widths, labels off the canvas or over a lifeline, and the participants' boxes are not modelled, nor how often a fault is reported.
- FaultCount.FaultCountIsLeast: one way only; which tables with dropped calls still have the least count is a question of the best non-crossing choice itself.
- DiagramLayout.LayRows: a row of unknown kind cannot be written in the model, and a row with the wrong number of fields neither.
