# Goalkeeper robot core, modelled in Dafny

The robot is a Raspberry Pi goalkeeper. A camera or two ultrasonic sensors
spot the ball, and an Arduino leg-controller board moves the legs to block
it. The Arduino is driven over a serial line with one-line ASCII commands.
This project models the parts of the Python code base that decide what is
sent to the board, when, and what is made of the board's answers:

- **PK serial controller** (`PKSerial`). This is the host side of the board protocol:
  - connect and disconnect;
  - initialise ("I");
  - distance reads ("DL"/"DR", answered "Dnnnnn" in millimetres);
  - canned block motions ("BL"/"BR", with a 10 s read timeout);
  - servo frames ("S" + 2-digit id + 3-digit PWM).
- **Ball blocker** (`BallBlocker`). The sequential coordinator:
  - classifies the ball's x position as LEFT, CENTER or RIGHT;
  - sends a high-speed monitoring command ("HL"/"HR");
  - scans the board's stream until "BALL_DETECTED", "OK", a failed read or the deadline;
  - keeps detection and success counters.
- **Goalkeeper scripts.** Both share the `blocking_state`/`total_blocks` globals, the block worker and the 6-second cooldown gate (`BlockCoordination`).
  - The camera-driven script (`FrameBlocking`) counts detections, picks the first ball (COCO class 36, or 73 as a stand-in) and triggers toward the ball's half of the frame.
  - The ultrasonic script (`UltrasonicBlocking`) reads both sensors every iteration and triggers when a reading lies strictly between 0 and 30 cm. The left sensor takes precedence.
- **Ultrasonic data logger** (`UltrasonicLog`). This covers:
  - parsing of the board's "D:<cm>,T:<ms>,N:<seq>" lines;
  - valid and error tallies;
  - the packet-loss count from sequence gaps;
  - the measured rate over a 10-entry window.
- **Finger mapper** (`FingerMapper`). This covers:
  - the table from (hand, finger) to a servo channel;
  - the per-channel clamped linear map from finger bend to servo angle;
  - the text report of a set of servo commands.
- **Configuration store** (`ConfigTree`). This covers:
  - nested maps addressed by dotted keys ("camera.framerate");
  - the set walk that creates missing levels;
  - the recursive merge of a loaded file over the defaults.

`Text` holds the string functions the modules share. It models Python's `strip`,
`split`/`join` on one character, `in`, `int()`/`float()` on plain decimal
text, `str(int)` and zero-padded formatting. `strip()` removes the 29
characters `str.isspace()` accepts; `int()` and `float()` ignore the same
set around a number except the four ASCII separators `\x1c`-`\x1f`. `Wrappers` holds `Option` and
`Result`, which stand for Python's `None` and for raised exceptions.

Everything is an immutable value. Each operation returns its new state together with its
result. The serial port is a value too: an open flag, a timeout, the log of
everything written, and the queue of replies the board will send. An empty
queue is a read that times out, which pyserial reports as an empty line.
Threads are modelled as interleaved atomic steps. Clock readings are
parameters.

The ball blocker classifies with strict comparisons on both sides, so the
boundary pixels 192 and 448 of a 640-pixel frame are CENTER
(`BallBlocker.DefaultBoundaries`). `tests/test_ball_blocking_simple.py`
(lines 127 and 129) expects LEFT and RIGHT there. The model follows the code.

## Model

| member | source | states |
|---|---|---|
| PKSerial.NewController | src/arduino/pk_serial_controller.py:51-70 | a new controller has no port, is not connected and keeps the timeout it was given |
| PKSerial.Exchange | src/arduino/pk_serial_controller.py:149-152 | writing a command appends exactly that command to the port's log and reads one reply; a missing or closed port raises (None) with nothing changed, and the stripped line comes back only when the read does not raise |
| PKSerial.Connect | src/arduino/pk_serial_controller.py:72-102 | connect succeeds exactly when the port opens and the first waiting line reads without error; on success the controller is connected to a fresh open port with nothing written; the connected-implies-open invariant is kept |
| PKSerial.Disconnect | src/arduino/pk_serial_controller.py:104-109 | with a port object, the port is closed and the flag cleared; without one nothing changes; the written log is untouched |
| PKSerial.ParseServoCommand | src/arduino/pk_serial_controller.py:257 | a frame reads as a servo command exactly when it is seven characters: 'S', five digits, newline; the id read is below 100 and the PWM below 1000 |
| PKSerial.ServoCommandRoundTrip | src/arduino/pk_serial_controller.py:257 | every servo frame for an id in 0..15 and a PWM in 100..600 is seven characters and decodes back to that id and PWM |
| PKSerial.DecodeDistance | src/arduino/pk_serial_controller.py:154-161 | a reply yields a distance exactly when it is six characters, starts with 'D' and int() accepts the other five (surrounding whitespace allowed); the distance is that integer divided by ten |
| PKSerial.DecodeDigits | src/arduino/pk_serial_controller.py:154-156 | "D" followed by five digits decodes to the digits' value divided by ten |
| PKSerial.DistanceReplyRoundTrip | src/arduino/pk_serial_controller.py:154-161 | every five-digit millimetre reply decodes to millimetres / 10, i.e. centimetres |
| PKSerial.InitializeLegs | src/arduino/pk_serial_controller.py:111-128 | not connected: nothing sent and False; connected: "I\n" is written and the result is True exactly when the next reply strips to "OK" |
| PKSerial.ReadDistance | src/arduino/pk_serial_controller.py:130-165 | a connected controller sends "D<side>\n" for "L" and "R" only; otherwise nothing is sent and None returned; when the reply line is read, the result is exactly the decoding of the stripped line, and a read that raises gives None |
| PKSerial.ReadDistanceReply | src/arduino/pk_serial_controller.py:130-161 | when the board answers "D" and five digits, read_distance returns that many millimetres in centimetres |
| PKSerial.BlockBall | src/arduino/pk_serial_controller.py:167-231 | a connected controller writes "BL\n"/"BR\n" and succeeds exactly on "OK"; the configured timeout is restored afterwards, except when the read raised, which leaves the 10 s block timeout in place |
| PKSerial.SetServoPwm | src/arduino/pk_serial_controller.py:233-271 | out-of-range id or PWM, or no connection: nothing sent and False; otherwise exactly one frame is appended, it decodes to (id, pwm), and the result is True exactly on "OK" |
| BallBlocker.NewBlocker | src/blocking/ball_blocker.py:52-81 | a new coordinator keeps the given port, thresholds and window length, is neither monitoring nor blocking, remembers no side and has counted nothing |
| BallBlocker.DetermineBallSide | src/blocking/ball_blocker.py:83-106 | LEFT exactly when x / width is strictly below the left threshold; RIGHT exactly when it is not and is strictly above the right threshold; otherwise CENTER; never NONE |
| BallBlocker.ClassifierMonotone | src/blocking/ball_blocker.py:99-106 | with ordered thresholds and a positive width, moving the ball rightwards never moves its side leftwards |
| BallBlocker.DefaultBoundaries | src/blocking/ball_blocker.py:99-106 | with the default 0.3/0.7 thresholds on a 640-pixel frame, 150 is LEFT, 192, 320 and 448 are CENTER, 500 is RIGHT |
| BallBlocker.ItemOutcome | src/blocking/ball_blocker.py:196-222 | a read that raises fails the window; a stripped line containing "BALL_DETECTED" confirms a crossing; otherwise a stripped line equal to "OK" completes the window; every other line (distance samples included) lets the scan go on; nothing received is a timeout |
| BallBlocker.ScanOutcomes | src/blocking/ball_blocker.py:194-224 | the read loop stops at the first item that ends the window, having passed over only items that do not; with no such item it consumes everything and ends by the deadline |
| BallBlocker.DetectedIffFirstStop | src/blocking/ball_blocker.py:194-224 | a crossing is confirmed if and only if some item contains "BALL_DETECTED" and no earlier item was "OK" or a failed read |
| BallBlocker.IgnoresNonStopLine | src/blocking/ball_blocker.py:204-214 | a distance sample (or any line that neither reports a crossing nor is "OK") inserted anywhere in the window does not change how the window ends |
| BallBlocker.MonitorCommand | src/blocking/ball_blocker.py:181 | the monitoring command is "HL\n" for LEFT and "HR\n" for RIGHT |
| BallBlocker.Window | src/blocking/ball_blocker.py:190-196 | the window is the port's queued replies in order, cut off after as many as arrive before the deadline |
| BallBlocker.TriggerBlocking | src/blocking/ball_blocker.py:156-251 | any side other than LEFT/RIGHT is refused with nothing changed; otherwise the side is remembered, the command is written once if the port is usable, the result is True exactly when the scan of the window confirms a crossing, monitoring ends, blocking_active is false again unless a read raised, and no counter changes |
| BallBlocker.ProcessBallDetection | src/blocking/ball_blocker.py:108-154 | ignored while monitoring or blocking and for CENTER; otherwise one detection is counted, the side's command is sent, and it is settled as exactly one success or one failure; it returns True exactly when it was not busy, the side is not CENTER, the port is usable and the window confirms a crossing |
| BallBlocker.GetStatistics | src/blocking/ball_blocker.py:253-272 | the counters and flags are reported unchanged; the success rate is 0 with no detections and otherwise successes as a percentage of detections, within 0..100 when the counters are consistent |
| BallBlocker.ResetStatistics | src/blocking/ball_blocker.py:274-279 | the three counters become zero and nothing else changes |
| BallBlocker.Cleanup | src/blocking/ball_blocker.py:281-286 | both session flags are cleared and nothing else changes |
| BlockCoordination.WorkerStart | tests/test_ball_blocking.py:447-448 | once the worker holds the lock, the state names the side being blocked and the counter is unchanged |
| BlockCoordination.WorkerFinish | tests/test_ball_blocking.py:451-457 | the board receives the side's block command, the counter grows by one whatever the board answered, and the state is idle again |
| BlockCoordination.BlockBallWorker | tests/test_ultrasonic_blocking.py:41-62 | a whole worker run sends the side's block command once, counts one block and leaves the state idle |
| BlockCoordination.Gate | tests/test_ball_blocking.py:537-558 | a trigger fires exactly when something asks for a block, the worker is idle and strictly more than 6 s passed since the last firing; only a firing moves last_block_time, to now |
| BlockCoordination.GateRun | tests/test_ball_blocking.py:476-558 | across loop iterations, the first firing is more than the cooldown after the initial time, each firing is more than the cooldown after the previous one, and the final last_block_time is the last firing |
| BlockCoordination.FiringsSpaced | tests/test_ball_blocking.py:476-558 | any two firings of a run, not only consecutive ones, are more than 6 s apart |
| FrameBlocking.UpdateDetectionStats | tests/test_ball_blocking.py:310-317 | every detection is added to the total; the ball count grows by at most that many, and it stays unchanged exactly when the frame holds no ball |
| FrameBlocking.UpdateDetectionStatsTwice | tests/test_ball_blocking.py:310-317 | updating with two frames in turn is updating once with both frames' detections |
| FrameBlocking.FindBallDetection | tests/test_ball_blocking.py:320-347 | None exactly when no detection is a ball; otherwise the first ball in list order, its box center scaled from model size to frame size |
| FrameBlocking.FrameTrigger | tests/test_ball_blocking.py:537-558 | a block fires exactly when a ball is present, the worker is idle and the cooldown has passed; it goes left exactly when the center is strictly left of the middle, and only a firing records the time |
| FrameBlocking.MiddleGoesRight | tests/test_ball_blocking.py:540-553 | a ball exactly at x = 320 of the 640-pixel frame triggers to the right |
| FrameBlocking.ProcessFrame | tests/test_ball_blocking.py:514-558 | per frame the counters are updated with every detection, and a block fires exactly when some detection is a ball, the worker is idle and the cooldown has passed |
| FrameBlocking.FrameRunIsGateRun | tests/test_ball_blocking.py:476-558 | frame after frame, the camera loop fires at exactly the times of the cooldown gate fed "a ball is present" |
| FrameBlocking.FrameFiringsSpaced | tests/test_ball_blocking.py:476-558 | any two blocks the camera loop starts are more than 6 s apart, whatever the workers did meanwhile |
| UltrasonicBlocking.UltrasonicTrigger | tests/test_ultrasonic_blocking.py:77-117 | left fires exactly when idle, cooled down and the left reading is strictly inside (0, 30); right fires exactly when the same holds for the right reading and the left one is not in range |
| UltrasonicBlocking.ReadBoth | tests/test_ultrasonic_blocking.py:89-91 | each iteration reads left then right, sending "DL\n" then "DR\n"; with no connection both readings are missing |
| UltrasonicBlocking.MonitorStep | tests/test_ultrasonic_blocking.py:84-119 | every iteration counts one sample; it crashes exactly when it is a tenth sample and a reading is missing (the log format raises), leaving the board disconnected; otherwise it applies the trigger rule to the two readings |
| UltrasonicBlocking.DisconnectedCrashesOnTenth | tests/test_ultrasonic_blocking.py:89-97 | with no board connected, an iteration crashes exactly on every tenth sample and never fires |
| UltrasonicBlocking.TimeoutOnTenthCrashes | tests/test_ultrasonic_blocking.py:89-97 | with the board connected, a tenth iteration whose left read times out ends the loop |
| UltrasonicBlocking.TimeoutReadsNothing | src/arduino/pk_serial_controller.py:152-161 | a read that times out (an empty line) yields no distance |
| UltrasonicBlocking.TolerantMonitorStep | tests/test_ultrasonic_blocking.py:84-117 | the iteration with the log made safe: it always counts one sample, keeps the board, and applies the trigger rule to the two readings, missing ones included |
| UltrasonicBlocking.TolerantAgreesUnlessCrashed | tests/test_ultrasonic_blocking.py:84-117 | the corrected iteration agrees with the one as written on every iteration that does not crash |
| UltrasonicBlocking.SensorRunIsGateRun | tests/test_ultrasonic_blocking.py:65-119 | the sensor loop fires at exactly the times of the cooldown gate fed "either reading in range" |
| UltrasonicBlocking.SensorFiringsSpaced | tests/test_ultrasonic_blocking.py:65-119 | any two blocks the sensor loop starts are more than 6 s apart |
| UltrasonicLog.Segment | tests/test_ultrasonic.py:63-68 | a piece is used exactly when it contains ':'; it splits at the first ':' into a colon-free key and the rest |
| UltrasonicLog.Fields | tests/test_ultrasonic.py:63-68 | every used piece's key is in the dictionary, and each key maps to the value of the last piece carrying it |
| UltrasonicLog.FromFields | tests/test_ultrasonic.py:70-79 | a sample exists exactly when D is present and float() accepts it and T, N (when present) are accepted by int(); T and N default to 0 |
| UltrasonicLog.ParseData | tests/test_ultrasonic.py:57-79 | a line with no "D" segment gives no sample; a sample's distance is float() of the last "D" segment's value |
| UltrasonicLog.SampleLineRoundTrip | tests/test_ultrasonic.py:57-79 | a board line built from a comma-free distance text, a clock value and a sequence number parses back to exactly that sample |
| UltrasonicLog.PushWindow | tests/test_ultrasonic.py:84 | the bounded deque keeps at most 10 entries, the new time last, and the most recent earlier times in order |
| UltrasonicLog.LogMeasurement | tests/test_ultrasonic.py:81-104 | each logged sample is counted once, as valid exactly when it is within 2..400 cm (then its distance and time are kept); the loss count moves by the sequence gap minus one; the last sequence becomes this one |
| UltrasonicLog.LostPacketsTelescope | tests/test_ultrasonic.py:87-92 | from a fresh logger, the lost-packet count is the span of sequence numbers minus the samples that arrived in between |
| UltrasonicLog.CountsOverRun | tests/test_ultrasonic.py:81-104 | from a fresh logger, valid plus errors is the number of samples, and the valid ones (and kept distances) are exactly the in-range ones |
| UltrasonicLog.GetMeasurementRate | tests/test_ultrasonic.py:106-115 | 0 with fewer than two times or a zero span; otherwise the number of intervals divided by the span, positive for a positive span |
| UltrasonicLog.SteadyRate | tests/test_ultrasonic.py:106-115 | a window of measurements arriving a fixed gap apart reports one measurement per gap |
| UltrasonicLog.SuccessRate | tests/test_ultrasonic.py:117-124 | undefined (the division raises) exactly when nothing was logged; otherwise valid as a percentage of all samples, within 0..100 |
| UltrasonicLog.ProcessLine | tests/test_ultrasonic.py:185-195 | the received line is stripped; lines not then starting with "D:" or not parsing are skipped with nothing changed; a parsed data line counts exactly one sample |
| UltrasonicLog.ProcessSampleLine | tests/test_ultrasonic.py:185-195 | a well-formed board line is logged as the sample it carries |
| FingerMapper.FingerIndex | src/hand_control/finger_mapper.py:31-44 | a finger has a table row exactly when it is thumb, index, middle or ring, and the row is that finger's |
| FingerMapper.GetServoChannel | src/hand_control/finger_mapper.py:173-186 | a channel exists exactly for a known hand and a mapped finger (never the pinky), and it is always a configured channel |
| FingerMapper.ChannelsInjective | src/hand_control/finger_mapper.py:31-44 | no two (hand, finger) pairs share a channel |
| FingerMapper.MappingCoversConfig | src/hand_control/finger_mapper.py:31-63 | every configured channel belongs to some finger of the table |
| FingerMapper.Interpolate | src/hand_control/finger_mapper.py:110-128 | the truncated interpolation stays between its two ends and hits them at 0 and 1 |
| FingerMapper.MapFingerToServo | src/hand_control/finger_mapper.py:88-128 | a configured channel's angle lies between its open and close angles; any other channel, or none, yields an angle between servo_min and servo_max |
| FingerMapper.ConfiguredEndpoints | src/hand_control/finger_mapper.py:102-117 | a bend at or below angle_min gives the open angle, at or above angle_max the close angle |
| FingerMapper.DefaultEndpoints | src/hand_control/finger_mapper.py:49-117 | with the default range, a straight finger (0°) gives every configured channel its open angle and a fully bent one (180°) its close angle |
| FingerMapper.ConfiguredMonotone | src/hand_control/finger_mapper.py:102-117 | bending a finger further moves its servo monotonically from the open toward the close angle |
| FingerMapper.LegacyEndpoints | src/hand_control/finger_mapper.py:119-128 | without a channel, angle_min and angle_max map to servo_min and servo_max, swapped when inverted |
| FingerMapper.HandServos | src/hand_control/finger_mapper.py:152-169 | each mapped finger with an angle gets its channel set to its mapped angle, and no other channel appears |
| FingerMapper.MapHandToServos | src/hand_control/finger_mapper.py:130-171 | left fingers set hip channels and right fingers knee channels, each to map_finger_to_servo of its angle; every result channel is configured and comes from a finger present in its hand |
| FingerMapper.Sorted | src/hand_control/finger_mapper.py:199 | the channels are listed once each, in strictly ascending order |
| FingerMapper.ReportLineRoundTrip | src/hand_control/finger_mapper.py:200 | every "Channel c: a°" line reads back as c and a |
| FingerMapper.FormatServoCommands | src/hand_control/finger_mapper.py:188-202 | the report is empty exactly when there are no commands |
| FingerMapper.FormatReadsBack | src/hand_control/finger_mapper.py:188-202 | splitting the report at newlines gives exactly one line per command, in ascending channel order |
| FingerMapper.FormatRecoversCommands | src/hand_control/finger_mapper.py:188-202 | line i of the report reads back as the i-th smallest channel and its angle, so the report loses no command |
| ConfigTree.GetPathAppend | src/utils/config.py:83-92 | looking up a path in two parts is looking up the first part and then the second from where it led |
| ConfigTree.GetSingle | src/utils/config.py:72-92 | a key without a dot gives the top-level value under it, or the caller's default when it is absent |
| ConfigTree.GetSegment | src/utils/config.py:83-92 | a dotted key reads its first segment, which must hold a map, and then the rest of the key inside that map; otherwise the caller's default |
| ConfigTree.SetPath | src/utils/config.py:102-110 | the walk fails exactly when an existing node on the way to the leaf is not a map; otherwise the value can be read at the path |
| ConfigTree.Set | src/utils/config.py:94-110 | set succeeds unless an existing node on the way is not a map, in which case nothing changes; after success, get of the same key returns the value |
| ConfigTree.SetLeavesOthers | src/utils/config.py:102-110 | set changes nothing at any path that parts ways with the key |
| ConfigTree.SetSubtree | src/utils/config.py:102-110 | below the key, the tree after set is the assigned value |
| ConfigTree.DeepUpdate | src/utils/config.py:112-119 | the result has the keys of both sides; base-only keys keep their value; update keys win unless both sides hold maps, which are merged; a map in the update stays a map |
| ConfigTree.DeepUpdateLeaf | src/utils/config.py:112-119 | every non-map value of the update is found at the same path after the merge |
| ConfigTree.DeepUpdateKeepsBase | src/utils/config.py:112-119 | any value of the base at a path the update does not reach (it lacks a segment, holding maps on the way) is read unchanged after the merge |
| ConfigTree.DeepUpdateSelf | src/utils/config.py:112-119 | merging a tree into itself changes nothing |
| ConfigTree.DeepUpdateIdempotent | src/utils/config.py:62-70 | loading the same file over the result a second time changes nothing |
| ConfigTree.DefaultsFramerate | src/utils/config.py:15-20 | get("camera.framerate") on the defaults is 30 |
| ConfigTree.DefaultsMissing | src/utils/config.py:83-92 | a key missing from the defaults returns the caller's default |
| ConfigTree.DefaultsBelowLeaf | src/utils/config.py:83-92 | a path that continues below a leaf value finds nothing |
| Text.JoinSplit | tests/test_ultrasonic.py:63 | joining split pieces with the separator gives the text back |
| Text.SplitJoin | src/hand_control/finger_mapper.py:202 | joining separator-free pieces and splitting again gives the pieces back |
| Text.StripTrims | src/blocking/ball_blocker.py:197 | a stripped line has no surrounding whitespace, as Python's str.isspace() defines it, and is the part of the original that only whitespace surrounded |
| Text.IntToStringParses | tests/test_ultrasonic.py:70-75 | int() reads back what str() printed |

## Left out

- Serial I/O, `time.sleep`, threads and locks are not executed. The port is a value. A worker's locked section is two atomic steps (`WorkerStart`, `WorkerFinish`). Each trigger loop hands the gate the worker state it observed under any interleaving.
- pyserial's `in_waiting` polling and the wall-clock deadline of `trigger_blocking` are not modelled. They are replaced by the number of queued replies that arrive in time (`BallBlocker.Window`).
- BallBlocker.TriggerBlocking: the transient `blocking_active = True` during the 2.5 s post-detection hold is not shown. The flag is raised and cleared within the same call, so only its final value is modelled.
- The `distance_readings` list of `trigger_blocking` and its statistics log line are not modelled. They only feed the log.
- BallBlocker.DetermineBallSide: it requires a non-zero frame width. With width 0 the source raises ZeroDivisionError (ball_blocker.py:99), which `process_ball_detection` does not catch; the model excludes that input instead of modelling the exception.
- Real arithmetic is exact. Python's floats round, so a result that lands within rounding error of an integer or a threshold can differ.
- FingerMapper.MapFingerToServo: computes with exact reals, so `int()` truncates the exact value. With the default table, 26° on channel 0 gives 13 here, while Python's float arithmetic gives 12.
- UltrasonicLog.FromFields: `float()` is read exactly, so "400.00000000000001" is out of the 2-400 cm range here, while Python rounds it to 400.0 and keeps it.
- The UTF-8 `errors='ignore'` decoding in `trigger_blocking` is not modelled. A read that raises is a `Fault` reply, and the text of a line is taken as already decoded.
- A write that raises (a port that vanishes mid-session) is not modelled. Writes to an open port always succeed.
- PKSerial.Connect: the start-up banner read is modelled as one line read and discarded. The delay before it and the flushing of the buffers are left out.
- FingerMapper.MapFingerToServo: it requires angle_max != angle_min. With equal angles the source raises ZeroDivisionError, which the model excludes instead of modelling it as an error.
- FingerMapper.MapHandToServos: a hand that is absent, None or an empty dict is modelled as an absent hand. In the source all three contribute nothing, which is the same result.
- ConfigTree: YAML loading (`load_from_file`) and the file system are not modelled. `DeepUpdate` is the merge it performs.
- ConfigTree: `DEFAULTS.copy()` is shallow in the source, so `set` on a nested key, and the `_deep_update` that `load_from_file` runs (which recurses into the nested maps), also change the class-level defaults shared by every later instance. The model's trees are immutable values, so this aliasing cannot arise and is not represented.
- Text: `int()` and `float()` are modelled on optionally signed plain decimal text only. Underscores, exponents, `inf`/`nan` and non-ASCII digits are not accepted, although Python accepts them.
- The CSV file, console output, the standard deviation helper and the min/max/average distance statistics of the ultrasonic logger are not modelled. They only report.
- Camera capture, TPU inference, resizing, drawing, the HTTP stream, the pan/tilt tracker and the PID controller of the camera script are not modelled. Each frame is its list of detections and its clock reading.
- UltrasonicBlocking.MonitorStep: the `time.sleep(0.1)` between the left and right reads, the `time.sleep(0.2)` at the end of each iteration and the log text are not modelled. Only the crash that the `:.1f` format of a missing reading causes is kept.

## Findings

| source | as written | input that shows it | evidently intended | confidence | as-written member | corrected member |
|---|---|---|---|---|---|---|
| tests/test_ultrasonic_blocking.py:96-97 | every tenth iteration formats both readings with `:.1f`, and a missing reading (None) raises TypeError, which ends the monitoring loop and disconnects the board | a tenth iteration whose left read times out, so read_distance returns None | log the missing reading and keep monitoring; the trigger rule already skips None | high; not executed | UltrasonicBlocking.MonitorStep, shown by UltrasonicBlocking.TimeoutOnTenthCrashes | UltrasonicBlocking.TolerantMonitorStep |
