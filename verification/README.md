# CyBot perception and navigation core, in Dafny

This project models the part of the CyBot firmware that decides where the
robot goes. It covers:

- **The sensor sweep.** `scanAngle` and `scanField` take an ultrasonic
  and an infrared reading every 2 degrees from 0 to 180.
- **The IR lookup.** `adc_calculateIRDistance` turns the raw IR ADC value
  into centimetres using a 21-entry calibration table.
- **The noise filter.** `rollingAverageFilter`, `updateBuffer` and `mean`
  smooth the ultrasonic channel in place.
- **Object detection.** `findSmallestObject` splits the IR channel into
  objects and returns the midpoint angle of the narrowest one.
- **Keyboard commands.** `executeBotCommand` runs one command key, and
  `engageManualMode` runs the manual-driving loop.
- **The main loop.** The `while (1)` loop of `main` in
  `lab_10/betterMain.c` has three checkpoints, each waiting for `h` to go
  on or `t` to switch to manual driving.
- **Dead reckoning.** From `FinalProject/main.c`, `updateCyBotPosition`
  tracks the robot's pose and `findTableLocation` projects where a table
  stands.
- **Visited tables.** `isVisitedTable` checks whether a table is already
  in the list of served tables.
- **Buttons.** `button_getButton` reads the four push buttons.

The modules follow the source files:

| module | models |
|---|---|
| `Ints` | `uint8_t`, `uint16_t` and `int16_t`; the C narrowing conversions; `isWithinTolerance` |
| `Outcomes` | `Option`, `Result` and the three hazards (undefined behaviour) the source can reach |
| `IrLookup` | `lab_10/adc.c` |
| `Scan`, `Filter`, `Objects`, `Commands`, `Controller` | `lab_10/betterMain.c` |
| `Pose`, `Landmarks` | `FinalProject/main.c` |
| `Button` | `lab_10/button.c` |

How the C code is represented:

- **Integer widths.** Every C integer keeps its width. Where a value is
  narrowed (an `int` sum stored in a `uint8_t`, a coordinate passed as a
  `uint8_t`, a heading stored in an `int16_t`), the model narrows it
  explicitly with `ToByte` or `ToInt16`.
- **Sensors.** What the sensors would report comes in as data. One sweep
  is a `Sensors` value: the ultrasonic distance and the IR ADC value at
  each sample number. For the main loop, each key read from the serial
  link arrives as an event, together with the sweep readings and bumper
  states the robot would then see.
- **Effects.** What the robot does (wheel speeds, turns, servo moves,
  messages over the serial link) is a sequence of `Action`s, in the order
  the firmware causes them.
- **Floating point.** `calculateObjectWidth` and the rounded
  cosine/sine offsets are function parameters (`WidthFn`, `Trig`). Every
  property proved here holds for any such function.

## Hazards

Undefined behaviour in the firmware's own logic is never silently
repaired. Undefined conversions of sensor and floating-point values to
integers are not modelled; "## Left out" names each of them. The hazards
the model does state:

- **Object table overflow** (`lab_10/betterMain.c:329-346`).
  `findSmallestObject` records object starts and ends in two 15-slot
  arrays without a bound check.
  - `Objects.SmallestObject` and `Objects.FindSmallestObject` return
    `Failure(ObjectTableOverflow)` exactly when a sixteenth object opens.
  - The main loop then enters the absorbing mode `Fault(ObjectTableOverflow)`.
- **Sentinel used as an index** (`lab_10/betterMain.c:173-177`). When no
  closed object measures narrower than 255, in particular when no object
  is found, `findSmallestObject` returns 255. The main loop still
  moves the servo to 255 and reads `measuredVectors[127]` of a 91-entry
  array.
  - The model enters `Fault(SentinelIndex)` right after the servo move.
  - `Controller.ScanPhaseOutcome` proves this happens exactly when
    `findSmallestObject` returns 255: when no closed object measures
    narrower than 255, in particular when none was found.
- **Slot read past the end** (`FinalProject/main.c:120`). The loop
  condition of `isVisitedTable` reads `tablePositions[tableCursor]`
  before it tests `tableCursor < MAX_TABLES`. With all five slots
  occupied and no match, it reads a sixth slot. The as-written model
  returns `Failure(TableSlotPastEnd)` there (see the findings).
- **Filter sizes.** `rollingAverageFilter` is only defined for
  `1 <= bufferSize <= BUFFER_SIZE` and `bufferSize <= numValues`. These
  are preconditions of `Filter.RollingAverageFilter`. The one caller
  passes 10 and 91.

## Where the model follows the code over its descriptions

- **Filter window.** A rolling average is often read as causal, each
  output averaging the readings before it. The code averages the window
  that starts at the sample: output i is the mean of raw readings
  i .. i+b-1. The last b outputs average shrinking prefixes of the final
  window. `Filter.Filtered` states what the code does.
- **Heading normalisation.** The "Wrap around logic" comment at
  `FinalProject/main.c:77` suggests the heading is kept in [0, 360) after
  every update. The code corrects by 360 once, so only
  turns of at most a full circle keep it in range (`Pose.NewHeading`,
  `Pose.LargeTurnNotNormalised`).
- **IR lookup in the sweep.** `scanAngle` calls the lookup as written,
  so `Scan.ScanAngle` and everything built on it (the filter's input,
  object detection, the main loop) use `IrLookup.IrDistance`. The
  nearest-entry lookup of the findings, `IrLookup.NearestIrDistance`, is
  stated and proved on its own and is not wired into the sweep.
- **Button order.** The doc comment of `button_getButton` says it returns
  the rightmost pressed button. The code tests button 1 (the leftmost)
  first and returns the lowest-numbered pressed button
  (`Button.GetButton`, `Button.LeftmostWins`).

## Model

| member | source | states |
|---|---|---|
| Ints.ToleranceIsStrictAndSymmetric | lab_10/betterMain.c:278-280 | the tolerance test fails at a distance equal to the tolerance, and gives the same answer with the operands swapped |
| IrLookup.TableDistancesAreEven | lab_10/adc.c:85-86 | the distances the lookup can return are exactly the even centimetres from 10 to 50 |
| IrLookup.TableStrictlyDecreasing | lab_10/adc.c:86 | the calibration table has 21 entries, each reading higher than the next |
| IrLookup.TableOrdered | lab_10/adc.c:86 | any earlier entry of the table reads higher than any later one |
| IrLookup.TableIsCalibration | lab_10/adc.c:86 | the firmware's table satisfies the ordering the binary search relies on |
| IrLookup.SearchStepUp | lab_10/adc.c:98-101 | a probe reading above the input moves the lower bound past it, keeps the search invariant, and ends the loop in a state from which the corrections can bracket the input |
| IrLookup.SearchStepDown | lab_10/adc.c:102-104 | a probe reading at or below the input moves the upper bound below it, keeps the search invariant, and ends the loop in a state from which the corrections can bracket the input |
| IrLookup.Search | lab_10/adc.c:97-105 | the binary search ends with its bounds met or crossed and its last probe between entries 1 and 19, next to the bound that probe moved |
| IrLookup.Adjust | lab_10/adc.c:107-119 | the two corrections after the search pick one of the two table entries that bracket the input |
| IrLookup.BracketAfterAdjustment | lab_10/adc.c:107-119 | whatever state the search ends in, stepping back and then forward by the half-gap rule lands on a bracketing entry |
| IrLookup.IrDistance | lab_10/adc.c:84-122 | as written: readings above the first entry give 10 cm, below the last give 50 cm, and every other reading gives the distance of an entry bracketing it |
| IrLookup.FirstAtOrBelow | lab_10/adc.c:115-121 | the index of the first table entry at or below the reading, or 21 when there is none |
| IrLookup.FirstAtOrBelowIsFirst | lab_10/adc.c:115-121 | every entry before that index reads above the reading |
| IrLookup.NearestIndex | lab_10/adc.c:115-121 | the nearer of the two entries around the reading is a valid table index |
| IrLookup.NearestIndexIsNearest | lab_10/adc.c:115-121 | in any calibration table that entry brackets the reading and is at least as close to it as every one of the 21 entries |
| IrLookup.NearestIrDistance | lab_10/adc.c:115-121 | the corrected lookup returns one of the 21 table distances |
| IrLookup.NearestIrDistanceIsNearest | lab_10/adc.c:115-121 | the corrected lookup's entry brackets the reading and is nearest of all entries in the firmware's table |
| IrLookup.MisreadSearch | lab_10/adc.c:97-105 | the binary search for the reading 1098 ends with both bounds at 17 and its last probe at 16, two entries short of the 46 cm entry |
| IrLookup.ExactEntryMisread | lab_10/adc.c:107-121 | the reading 1098, the 46 cm entry itself, is reported as 44 cm by the lookup as written |
| IrLookup.ExactEntryRecovered | lab_10/adc.c:115-121 | the corrected lookup maps every table entry back to its own distance |
| IrLookup.NearestOfEntry | lab_10/adc.c:115-121 | in any calibration table the nearest entry to an entry's reading is that entry |
| Scan.ScanAngle | lab_10/betterMain.c:229-243 | a sample keeps its angle, clamps the ultrasonic distance to 250 and changes it only when it exceeds 250, and carries the IR distance the as-written lookup gives: the distance of a table entry bracketing the ADC reading, an even number from 10 to 50 |
| Scan.ScanField | lab_10/betterMain.c:262-276 | a sweep has one sample per loop iteration, sample k taken from the k-th readings |
| Scan.AngleShift | lab_10/betterMain.c:274 | starting one increment later shifts every sweep angle by one sample |
| Scan.ScanFieldAngles | lab_10/betterMain.c:264-275 | sample k of a sweep is at start + k increments, every angle is within the end angle, and the next angle is past it |
| Scan.EvenAngles | lab_10/betterMain.c:35-37 | the k-th angle of the standard sweep is 2k degrees |
| Scan.SweepCountIs | lab_10/betterMain.c:35-38 | from an even angle the standard sweep takes (182 - angle) / 2 samples, so NUM_SCANS from 0 |
| Scan.StandardSweep | lab_10/betterMain.c:169 | any sweep from 0 to 180 in steps of 2 has 91 samples, sample k at 2k degrees |
| Scan.StandardScan | lab_10/betterMain.c:169 | the robot's sweep has NUM_SCANS samples with sample k at 2k degrees |
| Scan.StandardScanIsScanField | lab_10/betterMain.c:169 | the robot's sweep is exactly what scanField(0, 180, 2) records from the first 91 readings |
| Scan.SamplesAtEvenAngles | lab_10/betterMain.c:169 | a 91-sample sweep whose sample k is taken at 2k degrees from the k-th readings is the robot's standard sweep |
| Filter.SumBounded | lab_10/betterMain.c:284-287 | the sum of n readings within [lo, hi] lies within [n * lo, n * hi] |
| Filter.MeanIsFloor | lab_10/betterMain.c:288 | the mean is the truncating quotient: the largest m with m times the count at most the sum |
| Filter.MeanWithin | lab_10/betterMain.c:282-289 | a mean never leaves the range of the readings it averages |
| Filter.UpdateBuffer | lab_10/betterMain.c:291-297 | every element moves one place to the front and the new value goes last |
| Filter.Mean | lab_10/betterMain.c:282-289 | the loop's uint16_t total never wraps for up to 255 readings, so the result is the mean of the first `length` values |
| Filter.PrimeBuffer | lab_10/betterMain.c:305-308 | after the first loop the buffer holds the first b raw readings, whatever it held before |
| Filter.SlideWindow | lab_10/betterMain.c:310-314 | the second loop sets reading i to the mean of raw readings i .. i+b-1, leaves all other fields alone, and leaves the last b raw readings in the buffer |
| Filter.DrainTail | lab_10/betterMain.c:316-320 | the third loop sets the j-th of the last b readings to the mean of the first b - j buffered values and changes nothing else |
| Filter.BufferPrefix | lab_10/betterMain.c:316-320 | the first m values of a buffer holding a stretch of the readings are the first m readings of that stretch |
| Filter.TailWindows | lab_10/betterMain.c:316-320 | with the last b raw readings left in the buffer, the third loop's values are means of shrinking prefixes of the final window |
| Filter.RollingAverageFilter | lab_10/betterMain.c:299-321 | the filter changes only the ultrasonic field of the first numValues samples, which become the filtered channel; on a whole sweep the result is the smoothed sweep |
| Filter.Smoothed | lab_10/betterMain.c:170 | a smoothed sweep keeps every angle and IR distance and carries the filtered ultrasonic channel |
| Filter.SmoothedIsFilterOutput | lab_10/betterMain.c:299-321 | a sweep filtered in place whose ultrasonic channel is the filtered channel is the smoothed sweep |
| Filter.WindowsGiveFiltered | lab_10/betterMain.c:310-320 | the values the two writing loops leave are exactly the filtered channel |
| Filter.FilterWithinRange | lab_10/betterMain.c:299-321 | no filtered value lies outside the range of the raw readings |
| Filter.FilterKeepsConstant | lab_10/betterMain.c:299-321 | a constant channel passes through the filter unchanged |
| Filter.TailEndsAtWindowStart | lab_10/betterMain.c:316-320 | the last filtered value is the raw reading b - 1 places before the end, since the tail averages shrinking prefixes of the final window |
| Objects.SpanOkGrows | lab_10/betterMain.c:333-348 | an object once recorded stays correctly recorded as later indices are visited and more objects are closed |
| Objects.SegmentStepKeeps | lab_10/betterMain.c:333-348 | one iteration of the segmentation loop keeps the characterisation of the recorded objects, one index further on |
| Objects.SegmentFrom | lab_10/betterMain.c:333-348 | running the loop on never forgets an opened object |
| Objects.SegmentFromKeeps | lab_10/betterMain.c:333-348 | running the loop to the end from a characterised state yields a characterised segmentation of the whole sweep |
| Objects.Segment | lab_10/betterMain.c:333-348 | each object opens at the first in-range index whose neighbour is within tolerance past the previous close, and closes at the first in-range index before an out-of-range neighbour; every closed object opens before it closes, within the indices visited |
| Objects.Select | lab_10/betterMain.c:351-365 | the selection is 255 or the midpoint of one of the objects |
| Objects.SelectIsFirstNarrowest | lab_10/betterMain.c:351-365 | the selection is 255 when every width is 255, and the midpoint of the first narrowest object when that width is below 255 |
| Objects.SelectFromAllBest | lab_10/betterMain.c:353-365 | from any entry on, the selection keeps the best so far unless a strictly narrower object follows, and then yields the first narrowest one |
| Objects.SelectFromIsCandidate | lab_10/betterMain.c:361-364 | the selection from any entry on is the best so far or one of the remaining midpoints |
| Objects.SmallestObject | lab_10/betterMain.c:325-369 | the result is the object table overflow exactly when a sixteenth object opens, and a found angle otherwise |
| Objects.SmallestObjectIsFirstNarrowest | lab_10/betterMain.c:350-368 | without overflow the result is 255 or a closed object's midpoint: the midpoint of the first narrowest object, and 255 when no width is below 255 |
| Objects.FoundAngleInSweep | lab_10/betterMain.c:363 | a found midpoint angle indexes a sample of the sweep when halved |
| Objects.RecordObjects | lab_10/betterMain.c:329-348 | the first loop reports overflow exactly when a sixteenth object opens, and otherwise leaves the start and end angle of every closed object, in order, in the 15-slot arrays |
| Objects.NarrowestObject | lab_10/betterMain.c:350-368 | the second loop over the recorded angles yields the selection over the objects' widths and midpoints |
| Objects.FindSmallestObject | lab_10/betterMain.c:325-369 | both loops over fixed 15-slot arrays compute the same result as the specification of findSmallestObject, overflow included |
| Commands.KeyOf | lab_10/betterMain.c:379-389 | every command has a key among the ten recognised ones |
| Commands.ParseCommand | lab_10/betterMain.c:379-393 | a key selects a command exactly when it is one of the ten, and then the command is the one that key selects |
| Commands.ParseKeyOf | lab_10/betterMain.c:379-393 | each command is selected by its own key, so keys and commands correspond one to one |
| Commands.ExecuteBotCommand | lab_10/betterMain.c:375-400 | status 1 exactly for the ten command keys, with the command's effects followed by a newline; status 0 and no effect at all for any other key |
| Commands.OppositeKeys | lab_10/betterMain.c:380-389 | `s` reverses `w`, `d` reverses `a` and `e` reverses `q` |
| Commands.WheelKeys | lab_10/betterMain.c:380-383 | `w` and `s` drive both wheels alike; `a` and `d` turn on the spot with the wheels opposed |
| Commands.ManualKey | lab_10/betterMain.c:411-421 | a key leaves manual mode exactly when it is `t`, and leaving stops the wheels and announces automatic mode |
| Commands.ManualLoopFrom | lab_10/betterMain.c:411-422 | the loop returns exactly when a `t` follows; it consumes inputs up to and including the first `t` and no further, and all inputs when there is none |
| Commands.ManualLoop | lab_10/betterMain.c:411-422 | the loop returns exactly when the inputs contain a `t` |
| Commands.ManualLoopStopsWheels | lab_10/betterMain.c:414-418 | whenever the loop returns, its last two effects are stopping the wheels and announcing automatic mode |
| Commands.EngageManualMode | lab_10/betterMain.c:402-425 | manual mode first announces itself, and every later effect is the loop's on the same inputs; it consumes and exits as the loop does |
| Commands.LoopShift | lab_10/betterMain.c:411-422 | the loop does the same on two input runs that agree from some point on |
| Commands.DroppedKeyFrom | lab_10/betterMain.c:390-392 | dropping an unrecognised key before the first `t` changes neither the effects nor the exit of the loop from any earlier input |
| Commands.UnknownKeyIgnored | lab_10/betterMain.c:390-392 | unrecognised keys leave no trace in manual mode: removing one changes nothing the robot does |
| Controller.SmoothedScan | lab_10/betterMain.c:169-170 | the filtered sweep has NUM_SCANS samples at 2k degrees |
| Controller.ScanPhase | lab_10/betterMain.c:166-181 | a scan either faults or moves on to wait for the approach |
| Controller.ScanPhaseOutcome | lab_10/betterMain.c:169-181 | overflow fault exactly when a sixteenth object opens; sentinel fault exactly when no closed object measures narrower than 255 (in particular when none was found); otherwise the robot reports and waits to approach the first narrowest object at its filtered ultrasonic distance |
| Controller.ApproachPhase | lab_10/betterMain.c:191-209 | the robot turns by 90 minus the angle and drives to 10 cm short of the object; it waits to detour exactly when a bumper was hit, turning -90 for the left bumper and 90 otherwise; without a bump it starts over |
| Controller.DetourPhase | lab_10/betterMain.c:219-224 | after the detour the robot starts over with a new scan |
| Controller.TotalTurnAppend | lab_10/betterMain.c:221-224 | the degrees turned over consecutive runs of effects add up |
| Controller.DetourKeepsHeading | lab_10/betterMain.c:221-224 | a detour ends with the robot facing the way it faced before: its first half turns by the detour angle, its second half back |
| Controller.Step | lab_10/betterMain.c:156-225 | a fault is final; at a checkpoint `t` enters manual mode and any key but `h` and `t` is dropped without effect; in manual mode only `t` returns to the first checkpoint; only a scan can fault |
| Controller.RunWithAppend | lab_10/betterMain.c:156-225 | for any step function, running two batches of events in turn is running them together: the final mode of the second, and the actions of both in order |
| Controller.RunAppend | lab_10/betterMain.c:156-225 | running two batches of events through the main loop in turn is running them together |
| Controller.CheckpointManualIsEngage | lab_10/betterMain.c:160-163 | a `t` at any checkpoint, followed by events up to the `t` that ends manual mode, does exactly what engageManualMode does on those keys, greeting included, and then waits at the first checkpoint |
| Controller.FaultIsFinal | lab_10/betterMain.c:173-177 | after a fault no event has any effect |
| Controller.CheckpointWaits | lab_10/betterMain.c:160 | at a checkpoint, any number of keys other than `h` and `t` leave the robot still and silent |
| Controller.ManualRunIsManualLoop | lab_10/betterMain.c:161-163 | in manual mode the step machine does exactly what the loop of engageManualMode does up to the first `t`, and then waits at the first checkpoint |
| Pose.NewHeading | FinalProject/main.c:74-79 | the new heading lies in [0, 360) exactly when the int16 sum lies in [-360, 720), and without int16 overflow it is congruent to the sum modulo 360 |
| Pose.SmallTurnNormalised | FinalProject/main.c:77-79 | from a heading in range, a turn of at most a full circle either way keeps the heading in range |
| Pose.LargeTurnNotNormalised | FinalProject/main.c:77-79 | larger turns are not normalised: 720 from 0 gives 360, and -400 from 0 gives -40 |
| Pose.TurnsCompose | FinalProject/main.c:75-79 | two small turns from a heading in range give a heading in range, congruent to the sum of both turns |
| Pose.UpdateCyBotPosition | FinalProject/main.c:72-86 | the robot turns first and then moves along its new heading; each coordinate is the old one plus the rounded offset, narrowed to int16 |
| Pose.TurnOnSpot | FinalProject/main.c:83-84 | a move of zero cm only turns the robot |
| Pose.RadiusWrapsAt250 | FinalProject/main.c:100 | as written, the range handed on lies beyond the seen edge only for distances below 250; from 250 on it wraps to 0 .. 5 cm |
| Pose.TableRange | FinalProject/main.c:100 | the unnarrowed range equals the range handed on as written exactly for distances below 250, and agrees with it modulo 256 |
| Pose.FindTableLocationAsWritten | FinalProject/main.c:91-110 | as written, the table lies where the robot would arrive by turning by the bearing and driving the wrapped range, up to int16 wrap-around; the robot's pose on return is its pose on entry |
| Pose.TableAtRobotAsWritten | FinalProject/main.c:100 | as written, a table seen 250 cm straight ahead is placed at the robot's own position |
| Pose.FindTableLocation | FinalProject/main.c:91-110 | corrected: the table lies where the robot would arrive by turning by the bearing and driving TABLE_RADIUS beyond the seen edge, up to int16 wrap-around; the pose on return is the pose on entry |
| Pose.FindTableLocationAgrees | FinalProject/main.c:100 | below 250 cm both versions place the table at the same point |
| Landmarks.Occupied | FinalProject/main.c:119-120 | the occupied slots are those before the first (0, 0) slot |
| Landmarks.VisitedFromIs | FinalProject/main.c:120-126 | from any occupied slot on, the loop reports a match exactly when a later occupied slot matches, and reads past the end exactly when all five are occupied without a match |
| Landmarks.IsVisitedTableAsWritten | FinalProject/main.c:113-129 | as written: visited exactly when an occupied slot matches after narrowing to uint8_t, and a read past the end exactly when all five slots are occupied with no match |
| Landmarks.IsVisitedTable | FinalProject/main.c:113-129 | corrected, with the bound checked first and the int16 coordinates compared as they are: visited exactly when an occupied slot lies within 50 cm in both axes |
| Landmarks.SlotsAfterEmptyIgnored | FinalProject/main.c:120 | slots after the first empty one never change the answer |
| Landmarks.OccupiedFromPrefix | FinalProject/main.c:120 | two slot lists that agree up to and including the first empty slot have the same number of occupied slots |
| Landmarks.OriginTableInvisible | FinalProject/main.c:119-120 | a table stored at (0, 0) is taken for an empty slot, so a list starting with it matches nothing |
| Landmarks.SlotPastEndRead | FinalProject/main.c:120 | five occupied slots that do not match make the loop read a sixth slot |
| Landmarks.TruncationFalseMatch | FinalProject/main.c:122 | narrowing to uint8_t makes tables at x = 300 and x = 44 the same table |
| Landmarks.TruncationFalseMiss | FinalProject/main.c:122 | narrowing to uint8_t makes tables at x = -1 and x = 1 different tables |
| Landmarks.ComparisonsAgreeInRange | FinalProject/main.c:65-67 | where every coordinate is within [0, 256), the narrowed and the direct comparisons agree |
| Button.GetButton | lab_10/button.c:111-118 | the result is 0 exactly when no button is pressed, and otherwise the lowest-numbered pressed button |
| Button.NoneOfFour | lab_10/button.c:112-117 | no button is reported exactly when all four button pins read high (the buttons pull their pins low) |
| Button.OnlyButtonPinsRead | lab_10/button.c:112-115 | only the four low bits of the port are read |
| Button.LeftmostWins | lab_10/button.c:107-115 | button 4 is reported exactly when it alone is pressed |

## Left out

- The bodies of the movement routines (`bot_turnDegrees`,
  `bot_driveDistance`, `bot_driveDistancePrecise`, `bot_driveSquare`,
  `bot_driveObstacles`) are not modelled. They are odometry loops over the
  Open Interface sensor feed, and appear only as the effects they are
  asked to perform.
- `oi_update`, the UART, the servo's PWM calibration, timers and the
  ultrasonic and ADC drivers are hardware I/O. Their readings are inputs
  (`Sensors`, and each event's bumper states).
- `ping_read` returns a `double` computed from a 24-bit timer count, so
  readings of 256 cm or more can occur. `scanAngle` converts it to
  `uint8_t`, which is undefined in C for those readings. `Sensors.ping`
  is an unconstrained byte, so every property holds whatever that
  conversion yields. The 250 cm clamp that follows therefore only changes
  readings from 251 to 255.
- `calculateObjectWidth` is floating point (`sqrt`, `pow`, `cos`). It is
  a parameter (`WidthFn`), and every property holds for any width
  function.
- `calculateObjectWidth` converts its double result to `uint8_t`, which
  is undefined in C for widths of 256 cm or more (a 200 cm ping over a
  90 degree span gives about 283). `WidthFn` returns some byte for every
  object and is otherwise unconstrained, so that undefined conversion is
  not named as a hazard of its own.
- `round`, `cos` and `sin` in `updateCyBotPosition` are a parameter
  (`Trig`).
- Converting an out-of-range double to `int16_t` is undefined in C. The
  model narrows the sum with two's-complement wrap-around instead.
- `printScanData` and the `snprintf` formatting are not modelled. Each
  message is a `Message` value with its fields, not its text.
- The double `nextTurnDegrees` and `smallestObjectDistance` are integers
  in the model, since both only ever hold whole numbers.
- `main` in `FinalProject/main.c` is a demonstration that prints two
  projections. It is not modelled.
- Scan.ScanField: requires `inc >= 1` and `end + inc <= 255`. Without
  them the `uint8_t` angle may wrap before it passes `end`, and then the
  C loop does not terminate, which a terminating function cannot express.
  The requires also excludes some sweeps that do terminate, such as
  start 5, end 250 and increment 10, which stops at 255 without
  wrapping. The firmware only calls it with 0, 180 and 2.
- Filter.Mean: requires `length >= 1` and at least `length` values,
  since the C code divides by `length` and reads that many values.
- Filter.RollingAverageFilter: requires
  `1 <= bufferSize <= BUFFER_SIZE`, `bufferSize <= numValues`, and at
  least `numValues` samples in the sweep; the stale buffer has
  `BUFFER_SIZE` entries. Outside these bounds the C code reads or writes
  outside its arrays.
- Objects.SmallestObject: requires that sample k of the sweep is at 2k
  degrees, as `scanField` leaves it. The width lookup in the C code
  converts angles to indices under that assumption.

## Findings

| source | as written | input that shows it | evidently intended | confidence | as-written member | corrected member |
|---|---|---|---|---|---|---|
| lab_10/adc.c:107-121 | after the binary search, the two corrections return an entry bracketing the reading, but not always the nearer one | millivolts = 1098, exactly the 46 cm entry, gives 44 cm | the distance of the table entry nearest to the reading, as the comment on line 115 says | high (proved; not executed) | IrLookup.ExactEntryMisread | IrLookup.NearestIrDistanceIsNearest |
| FinalProject/main.c:100 | `tableDistance + TABLE_RADIUS` is passed to a `uint8_t` parameter and wraps | tableDistance = 250 at bearing 0 places the table on the robot itself | the table centre 6 cm beyond the seen edge | high (proved; not executed) | Pose.TableAtRobotAsWritten | Pose.FindTableLocation |
| FinalProject/main.c:122 | the `int16_t` coordinates are passed to `isWithinTolerance`, which takes `uint8_t`, and are truncated | a stored table at (300, 10) matches (44, 10); a stored table at (-1, 10) does not match (1, 10) | compare the coordinates themselves | high (proved; not executed) | Landmarks.TruncationFalseMatch | Landmarks.IsVisitedTable |
| FinalProject/main.c:120 | the loop reads `tablePositions[tableCursor]` before it tests `tableCursor < MAX_TABLES` | five occupied slots at (100, 100) and the location (-100, -100) make it read a sixth slot | check the bound first | high (proved; not executed) | Landmarks.SlotPastEndRead | Landmarks.IsVisitedTable |
