# Arm robot firmware core, modelled in Dafny

This project models the sequential state-keeping of the Arduino Mega
firmware of a four-axis robot arm (three joints plus a slider axis "E"):

- **`RampsStepper`** (`stepper.dfy`, module `Stepper`): the per-axis
  stepper controller. Targets are set relatively, absolutely or in radians.
  The position can be overridden. Each `update()` call emits at most one step
  pulse, once the step delay has elapsed since the previous pulse. A
  limit-switch interlock halts the axis instead of driving it into an active
  switch. The class methods are proved against the pure transition function
  `NextState`. The properties of the direction-pin polarity, the interlock
  and multi-call runs are lemmas about that function.
- **`Interpolation`** (`interpolation.dfy`, module `Interp`): the
  one-segment, constant-feed-rate trajectory interpolator. It works in
  (x, y, z, e) space, with floats modelled as reals. The methods are
  proved against `Begin`, `Advance` and `Reseed` on a `Segment` value. The
  invariant `Coherent` says the current pose stays on the segment.
- **`Queue<T>`** (`queue.dfy`, module `CommandQueue`): the fixed-capacity
  circular buffer of commands. The `Valid` ring invariant ties the array,
  `head`, `tail` and `count` to a ghost sequence `Contents`. Push and pop are
  proved to behave first-in, first-out.
- **`Command`** (`command.dfy`, module `Gcode`): the motion-command line
  parser. A line is accepted on its first character 'G' or 'M'. The rest is
  scanned into letter+text tokens, and the six optional values X, Y, Z, E, F
  and T are filled from them. The token scan is the function `TokensFrom`.
  The value chosen for a letter is the text of its last token (`LastText`,
  `Fill`). The parser's while loop is proved to compute `Parse`.
- `common.dfy` (module `Platform`) holds what the modules share. That is
  `Option` (which stands for a float field holding NAN), the AVR widths
  `uint16` and `uint32`, and `WrapSub`, the unsigned 32-bit subtraction the
  firmware applies to `micros()`/`millis()` readings.

Outside calls become parameters:
- the clock readings `micros()` and `millis()`, and the limit-switch reading `isLimitActive()`, are method parameters;
- the maths library's `sqrt` is a constructor parameter of `Interpolation`, constrained by `SqrtLaws` (non-negative on non-negative inputs, zero at zero);
- the Arduino `String::toInt` and `String::toFloat` conversions are function parameters of the parser.

## Model

| member | source | states |
|---|---|---|
| Platform.WrapSub | arm_robot_mega/RampsStepper.cpp:113 | The elapsed time between two unsigned 32-bit clock readings: the plain difference when the clock did not roll over, the difference plus 2^32 when it did, and in every case adding it to the earlier reading gives the later one modulo 2^32 |
| Stepper.DirPinLevel | arm_robot_mega/RampsStepper.cpp:115-136 | The direction-pin level equals `dirHighToHome` exactly when the step goes toward smaller step counts (homing direction), and the reverse flag flips this |
| Stepper.LimitBlocks | arm_robot_mega/RampsStepper.cpp:128-142 | The interlock condition (actual pin level == `dirHighToHome`) holds iff (stepping toward smaller counts) XOR `reverseDirection`, independently of `dirHighToHome` |
| Stepper.NextState | arm_robot_mega/RampsStepper.cpp:108-174 | One `update()` never overshoots: the position is unchanged or moves one step toward the target. A step keeps the target, keeps `moving`, records `lastStepTime = now` and shrinks the distance to the target by exactly 1. A call without a step leaves `lastStepTime` alone. A stopped axis stays on its target |
| Stepper.UpdateNoOpPaths | arm_robot_mega/RampsStepper.cpp:109-113 | `update()` changes nothing when not moving. When moving and on target, it only clears `moving`. When the step delay has not elapsed, it changes nothing |
| Stepper.LimitInterlockHalts | arm_robot_mega/RampsStepper.cpp:141-151 | An eligible call whose step drives toward an active limit switch clears `moving` and sets target := current, leaving the position unchanged |
| Stepper.EligibleCallSteps | arm_robot_mega/RampsStepper.cpp:141-169 | An eligible call with the limit released, or stepping away from the limit, takes exactly one step toward the target and records the time, in either direction |
| Stepper.HomingAxisAtSwitch | arm_robot_mega/RampsStepper.cpp:115-169 | With the default wiring (HIGH toward home, not reversed) and the switch pressed, a step toward home is refused and halts the axis, and a step away from home is taken |
| Stepper.RunWhenStopped | arm_robot_mega/RampsStepper.cpp:109 | Any number of `update()` calls on a stopped axis change nothing |
| Stepper.RunSteps | arm_robot_mega/RampsStepper.cpp:108-174 | N calls spaced at least one step delay apart, with the limit released, move the axis exactly min(N, \|target − current\|) steps toward the target and leave the target unchanged. Once N exceeds that distance, the axis has stopped |
| Stepper.TruncateTowardZero | arm_robot_mega/RampsStepper.cpp:53 | The C `(long)` cast of a float: the integer part, truncated toward zero for both signs |
| Stepper.RadToStepFactor | arm_robot_mega/RampsStepper.cpp:91-95 | Steps per radian is zero exactly when the raw steps per revolution or the gear ratio is zero, is positive for a positive step count exactly when the ratio is positive (a negative ratio reverses direction), and times 2π gives the steps of one output revolution |
| Stepper.StepToRadFactor | arm_robot_mega/RampsStepper.cpp:98-100 | Radians per step is absent exactly when the steps per revolution or the gear ratio is zero (the float division by zero). Otherwise it is the reciprocal of `getRadToStepFactor` (lines 91-95) |
| Stepper.RampsStepper.constructor | arm_robot_mega/RampsStepper.cpp:11-26 | A new controller stores its pins and wiring flags and starts with current = target = 0, not moving, step delay 100, last step time 0, reduction ratio 1 and 3200 raw steps per revolution |
| Stepper.RampsStepper.StepRelative | arm_robot_mega/RampsStepper.cpp:39-42 | target := current + n and `moving` is set; the position is not touched |
| Stepper.RampsStepper.StepToPosition | arm_robot_mega/RampsStepper.cpp:45-48 | target := n and `moving` is set; the position is not touched |
| Stepper.RampsStepper.StepToPositionRad | arm_robot_mega/RampsStepper.cpp:51-55 | target := the truncation toward zero of rad × steps-per-radian, and `moving` is set |
| Stepper.RampsStepper.SetReductionRatio | arm_robot_mega/RampsStepper.cpp:58-61 | Stores the gear ratio and raw steps per revolution and touches nothing else |
| Stepper.RampsStepper.SetStepDelay | arm_robot_mega/RampsStepper.cpp:64-66 | Stores the 16-bit step delay and touches nothing else |
| Stepper.RampsStepper.SetPosition | arm_robot_mega/RampsStepper.cpp:74-78 | current = target = n and `moving` cleared, so the axis is on target afterwards |
| Stepper.RampsStepper.IsOnTarget | arm_robot_mega/RampsStepper.cpp:86-88 | A stopped controller in its invariant state is always on target |
| Stepper.RampsStepper.Update | arm_robot_mega/RampsStepper.cpp:108-174 | The in-place `update()` leaves exactly the state `NextState` describes for the old state, the wiring and the readings, and keeps the invariant that a stopped axis is on target |
| Interp.SquaredDistance | arm_robot_mega/interpolation.cpp:30-35 | The sum of squared component differences under the square root is non-negative, and zero between equal poses |
| Interp.Lerp | arm_robot_mega/interpolation.cpp:67-70 | The component-wise interpolation is the start pose at ratio 0, the target at ratio 1, and constant on a zero-length segment |
| Interp.DistanceMoved | arm_robot_mega/interpolation.cpp:54-55 | The distance `feedRate / 60000 × elapsed` is zero at elapsed time 0, never negative for a non-negative feed rate, and positive once time has passed at a positive feed rate |
| Interp.DistanceMovedMonotone | arm_robot_mega/interpolation.cpp:54-55 | For a non-negative feed rate, the distance moved is non-negative and never decreases with elapsed time |
| Interp.Begin | arm_robot_mega/interpolation.cpp:16-48 | The pre-call pose becomes the start, and the target, feed rate and start time are recorded. The length is the square root of the 4-D squared distance. The segment is finished iff the length is below 0.001, in which case current snaps to the target. The segment invariant holds afterwards |
| Interp.ZeroLengthMoveFinishes | arm_robot_mega/interpolation.cpp:38-47 | A move to the pose the interpolator is already at finishes at once, in place |
| Interp.Advance | arm_robot_mega/interpolation.cpp:51-72 | Only the current pose and the finished flag change, and a finished segment is left as it is. The segment is finished afterwards iff it already was or the distance moved since the start time reaches its length, and a segment that finishes lands exactly on its target. Otherwise current is start + (target − start)·(distance moved / length), and at a non-negative feed rate that fraction lies in [0, 1). The segment invariant is preserved |
| Interp.RatioBelowOne | arm_robot_mega/interpolation.cpp:64-66 | On the lerp branch (distance moved < total) the ratio lies in [0, 1) |
| Interp.ArrivalSnapsToTarget | arm_robot_mega/interpolation.cpp:54-63 | Once the elapsed time reaches length × 60000 / feed rate, an update finishes the segment exactly on its target |
| Interp.ProgressMonotone | arm_robot_mega/interpolation.cpp:51-71 | For two updates of a running segment at a non-negative feed rate, the second no earlier than the first: if the first finishes so does the second, and while the second is still running the two reported poses are start + (target − start)·k1 and ·k2 with 0 ≤ k1 ≤ k2 < 1, so the interpolator never moves backwards |
| Interp.TravelTimeCoversLength | arm_robot_mega/interpolation.cpp:55-57 | At a positive feed rate, an elapsed time of at least length × 60000 / feed rate gives a distance moved of at least the length |
| Interp.Reseed | arm_robot_mega/interpolation.cpp:80-86 | Overwrites the current pose and marks the segment finished, leaving start, target and the rest untouched; the segment invariant is preserved |
| Interp.Interpolation.constructor | arm_robot_mega/interpolation.cpp:5-13 | A new interpolator is finished, with all poses at the origin, feed rate 0, start time 0 and length 0 |
| Interp.Interpolation.SetInterpolation | arm_robot_mega/interpolation.cpp:16-48 | The in-place fields become `Begin` of the old state, with the component-wise distance computed as in the firmware |
| Interp.Interpolation.UpdateActualPosition | arm_robot_mega/interpolation.cpp:51-72 | The in-place fields become `Advance` of the old state at the given `millis()` reading; only `current` and `finished` are written |
| Interp.Interpolation.IsFinished | arm_robot_mega/interpolation.cpp:75-77 | While a move runs at a non-negative feed rate, the reported pose lies on the start–target segment |
| Interp.Interpolation.SetCurrentPos | arm_robot_mega/interpolation.cpp:80-86 | The in-place fields become `Reseed` of the old state |
| CommandQueue.Slot | arm_robot_mega/queue.h:28 | Advancing an index on the ring of `cap` slots always yields a valid slot below `cap` |
| CommandQueue.SlotIsMod | arm_robot_mega/queue.h:28 | The ring slot k places after h is the firmware's `(h + k) % cap` |
| CommandQueue.Queue.constructor | arm_robot_mega/queue.h:15-17 | A new queue has the requested capacity, is empty, and has head = tail = 0 |
| CommandQueue.Queue.Push | arm_robot_mega/queue.h:25-31 | Succeeds iff the queue was not full. On success the item is appended to the contents, tail advances one slot modulo cap and count grows by 1. On failure nothing changes. The ring invariant is preserved |
| CommandQueue.Queue.Pop | arm_robot_mega/queue.h:33-38 | On a non-empty queue it returns the oldest item, drops it from the contents, advances head one slot modulo cap and decrements count, keeping the ring invariant |
| CommandQueue.Queue.IsEmpty | arm_robot_mega/queue.h:40-42 | True iff the contents are empty |
| CommandQueue.Queue.IsFull | arm_robot_mega/queue.h:44-46 | True iff the contents fill the capacity |
| CommandQueue.Queue.Size | arm_robot_mega/queue.h:48-50 | The number of queued items, never above the capacity |
| CommandQueue.FifoScenario | arm_robot_mega/queue.h:25-38 | Through a capacity-2 queue, three items pushed around a refused push come out in the order they went in |
| Gcode.IndexOf | arm_robot_mega/command.cpp:64 | `String::indexOf(' ', from)`: either -1 with no space at or after `from`, or the first position at or after `from` holding a space |
| Gcode.SuffixFrom | arm_robot_mega/command.cpp:53 | `String::substring(from)`: the part of the string after its first `from` characters, so the two put back together give the string; empty when `from` is at or past the end |
| Gcode.TokensFrom | arm_robot_mega/command.cpp:59-72 | The scan from `idx` is empty exactly at or past the end of the line, its first token carries the character at `idx`, and it has at most as many tokens as characters remain |
| Gcode.TokensRoundTrip | arm_robot_mega/command.cpp:59-72 | The scan loses and invents nothing: writing each token back as its letter, its text and a space gives the rest of the line, with at most one extra trailing space |
| Gcode.LastText | arm_robot_mega/command.cpp:74-80 | A letter's value text is absent iff no token carries that letter. Otherwise it is the text of a token with that letter after which no token carries it, so the last occurrence wins |
| Gcode.Assign | arm_robot_mega/command.cpp:74-82 | One step of the switch sets the value of its own letter to the converted text and leaves the other five values, the id and the number alone; a letter other than X, Y, Z, E, F, T changes nothing |
| Gcode.TokenLettersFromLine | arm_robot_mega/command.cpp:60-62 | Every scanned token's letter is a character of the line at or after the scan start |
| Gcode.TokenTextsHaveNoSpace | arm_robot_mega/command.cpp:64-72 | No token's value text contains a space: a value runs up to the next space or the end of the line |
| Gcode.AbsentLetterStaysAbsent | arm_robot_mega/command.cpp:56-57 | A letter that does not occur after the first character leaves its value absent (NAN) |
| Gcode.OtherLettersIgnored | arm_robot_mega/command.cpp:74-82 | Tokens whose letters are none of X, Y, Z, E, F, T set no value |
| Gcode.FieldValueAppend | arm_robot_mega/command.cpp:74-80 | Scanning one more token overrides the value of its own letter and of no other |
| Gcode.FillNone | arm_robot_mega/command.cpp:56-57 | Before any token, all six values are absent |
| Gcode.FillAppend | arm_robot_mega/command.cpp:73-82 | Choosing values from one more token is one more step of the switch |
| Gcode.ReplayFill | arm_robot_mega/command.cpp:56-83 | Running the switch over the tokens one by one, from the reset values, yields for each letter the value of its last token |
| Gcode.TokensStep | arm_robot_mega/command.cpp:60-72 | One loop iteration consumes one token: the letter at `idx`, the text up to the next space or the end, and the scan resumes after the space |
| Gcode.ReplayStep | arm_robot_mega/command.cpp:60-82 | Replaying the tokens from `idx` is one switch step on the token at `idx`, then the tokens from where the loop resumes |
| Gcode.FillChoosesLast | arm_robot_mega/command.cpp:56-82 | In the command filled from a token sequence, each of the six values is absent iff no token carries its letter, and otherwise is the conversion of the text of the last token that does |
| Gcode.FirstChar | arm_robot_mega/command.cpp:51 | `charAt(0)` as a C `char`: the code of the first character, and 0 exactly for an empty line or one starting with NUL |
| Gcode.Parse | arm_robot_mega/command.cpp:49-84 | The parse of a line has the first character as id, `toInt` of the text after it as number, and each of the six values absent iff no scanned token carries its letter, otherwise the conversion of the text of the last token that does |
| Gcode.Accepted | arm_robot_mega/command.cpp:36 | A line is accepted exactly when the code of its first character (NUL for an empty line) is that of 'G' or 'M' |
| Gcode.ExampleTokens | arm_robot_mega/command.cpp:59-72 | The scan of "G1 X10 Y-5" yields the tokens ('1', ""), ('X', "10"), ('Y', "-5"): the code digit is a token of its own |
| Gcode.ExampleLine | arm_robot_mega/command.cpp:49-83 | Parsing "G1 X10 Y-5" gives id 'G', num toInt("1 X10 Y-5"), X and Y from their texts, and the other four values absent |
| Gcode.Command.constructor | arm_robot_mega/command.cpp:3-8 | A new command has id −1, num 0 and all six values absent |
| Gcode.Command.HandleGcodeLine | arm_robot_mega/command.cpp:34-42 | Returns true iff the line is non-empty and starts with 'G' or 'M'. Then the command is the parse of the line, with id the first character. Otherwise only the id changes, to 0 |
| Gcode.Command.ParseLine | arm_robot_mega/command.cpp:49-84 | The in-place loop leaves exactly `Parse(line)`: id the first character, num `toInt` of the rest, and each of the six values from its last token or absent |

## Left out

- Pin I/O is not modelled. That covers `pinMode`, `digitalWrite` of the step and direction pins, `digitalRead` in `isLimitActive`, the `delayMicroseconds` pulse in `update()` and `enable`/`disable`, because they only drive hardware. The limit reading and the clock are parameters of `Update`, and the pin numbers are only stored.
- The `Serial` warning printed when the interlock fires is left out, since it is output only.
- The getters `isMoving`, `getPosition` and `getCmd` are not separate members. They return a field, and the model reads the field directly.
- Floating point is modelled as exact reals: positions, feed rates, distances, the gear ratio, `M_PI`, and the parsed values. Rounding, infinities and NAN arithmetic are not captured. A NAN field is `None`, and a division by zero in `getStepToRadFactor` is `None`.
- Stepper.RampsStepper.StepRelative: the 32-bit `long` step counts are unbounded integers, so overflow of `currentStep + steps` is not modelled.
- Stepper.RampsStepper.StepToPositionRad: the float-to-`long` cast is modelled as truncation toward zero, and values outside the `long` range are not modelled.
- Gcode.Command.ParseLine: `num` is the value `toInt` returns, not truncated to the 16-bit `int` of the `Cmd` record. `id` is the code of the first character, not wrapped to a signed 8-bit `char`. The two agree for the accepted 'G' and 'M' lines.
- Strings are sequences of characters. `String::toInt` and `String::toFloat` are uninterpreted function parameters, so the model does not fix how a text is converted, only which text is converted.
- `Command::handleGcode` (command.cpp:11-31) is left out, because it reads `Serial` into a function-static buffer. It does the same accept test as `handleGcodeLine` but leaves the id alone on rejection.
- `malloc`/`free` and the destructor in queue.h are left out: the buffer is a Dafny array. A negative capacity is impossible in the model (`nat`). With capacity 0, every push is refused.
- CommandQueue.Queue.Pop: a pop of an empty queue reads a stale slot in the firmware and corrupts `count`. The model requires a non-empty queue instead.
- The inverse and forward kinematics in robotGeometry.cpp are not part of this model: they are single-precision trigonometry. Neither are fanControl (single pin writes), pinout.h (constants) or the Python host tools (user interface, camera and serial I/O).
- Interp.Advance states "on the segment" only for non-negative feed rates. With a negative feed rate the firmware extrapolates behind the start pose, and the model computes that same pose without further claims.
