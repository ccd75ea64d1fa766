/** The ball-blocking coordinator (src/blocking/ball_blocker.py).

    A camera detection on the left or right of the frame starts a monitoring
    window on the board ("HL"/"HR"); the board streams distance samples and
    ends the window with "BALL_DETECTED" or "OK". The coordinator is
    sequential: it has no lock, no cooldown and no worker, and the whole
    exchange happens inside one call. Clock readings and sleeps are not
    modelled: the window is the finite list of replies that arrive before the
    deadline, given as a count of the port's queued replies. */
module BallBlocker {

  import opened Wrappers
  import opened Text
  import PKSerial

  datatype BallSide = Left | Right | Center | NoSide

  /** The enum's string value, as reported by get_statistics. */
  function SideValue(side: BallSide): (v: string)
    ensures |v| > 0
  {
    match side
    case Left => "left"
    case Right => "right"
    case Center => "center"
    case NoSide => "none"
  }

  datatype Blocker = Blocker(
    serial: PKSerial.Controller,
    leftThreshold: real,
    rightThreshold: real,
    monitoringDuration: real,
    isMonitoring: bool,
    blockingActive: bool,
    lastBallSide: BallSide,
    totalDetections: nat,
    successfulBlocks: nat,
    failedBlocks: nat)

  /** Every counted detection ended as exactly one success or one failure. */
  predicate Consistent(b: Blocker) {
    b.successfulBlocks + b.failedBlocks == b.totalDetections
  }

  /** The constructor's defaults: thresholds 0.3 and 0.7 of the frame
      width, a 4 s monitoring window. */
  const DEFAULT_LEFT_THRESHOLD: real := 0.3
  const DEFAULT_RIGHT_THRESHOLD: real := 0.7
  const DEFAULT_MONITORING_DURATION: real := 4.0

  /** A fresh coordinator: the given settings, no session running, no side
      seen yet, all counters zero. */
  function NewBlocker(serial: PKSerial.Controller, leftThreshold: real, rightThreshold: real,
                      monitoringDuration: real): (b: Blocker)
    ensures b.serial == serial && b.leftThreshold == leftThreshold && b.rightThreshold == rightThreshold
    ensures b.monitoringDuration == monitoringDuration
    ensures Consistent(b) && b.totalDetections == 0
    ensures !b.isMonitoring && !b.blockingActive && b.lastBallSide == NoSide
  {
    Blocker(serial, leftThreshold, rightThreshold, monitoringDuration, false, false, NoSide, 0, 0, 0)
  }

  // ----- side classifier -----

  /** determine_ball_side: LEFT below the left threshold, RIGHT above the
      right one, CENTER in between (both comparisons strict); never NONE. */
  function DetermineBallSide(b: Blocker, x: real, frameWidth: int): (side: BallSide)
    requires frameWidth != 0
    ensures side != NoSide
    ensures side == Left <==> x / frameWidth as real < b.leftThreshold
    ensures side == Right <==> !(x / frameWidth as real < b.leftThreshold) &&
                               x / frameWidth as real > b.rightThreshold
  {
    var normalized := x / frameWidth as real;
    if normalized < b.leftThreshold then Left
    else if normalized > b.rightThreshold then Right
    else Center
  }

  function SideRank(side: BallSide): nat {
    match side
    case Left => 0
    case Center => 1
    case Right => 2
    case NoSide => 3
  }

  /** Moving the ball rightwards in a frame of positive width never moves
      its classification leftwards. */
  lemma ClassifierMonotone(b: Blocker, x1: real, x2: real, frameWidth: int)
    requires frameWidth > 0 && b.leftThreshold <= b.rightThreshold && x1 <= x2
    ensures SideRank(DetermineBallSide(b, x1, frameWidth)) <= SideRank(DetermineBallSide(b, x2, frameWidth))
  {
    var w := frameWidth as real;
    assert x1 / w <= x2 / w by {
      assert x2 / w - x1 / w == (x2 - x1) / w;
    }
  }

  /** The default thresholds on a 640-pixel frame: the boundary pixels 192
      and 448 are CENTER, because both comparisons are strict. */
  lemma DefaultBoundaries(serial: PKSerial.Controller)
    ensures var b := NewBlocker(serial, DEFAULT_LEFT_THRESHOLD, DEFAULT_RIGHT_THRESHOLD,
                                DEFAULT_MONITORING_DURATION);
      && DetermineBallSide(b, 50.0, 640) == Left
      && DetermineBallSide(b, 150.0, 640) == Left
      && DetermineBallSide(b, 192.0, 640) == Center
      && DetermineBallSide(b, 320.0, 640) == Center
      && DetermineBallSide(b, 448.0, 640) == Center
      && DetermineBallSide(b, 500.0, 640) == Right
      && DetermineBallSide(b, 590.0, 640) == Right
  {
  }

  // ----- the monitoring window -----

  datatype Outcome = Detected | Completed | ReadFailed | TimedOut

  /** How one received item ends the window, if it does: a read that raised
      fails it, a stripped line containing "BALL_DETECTED" confirms a
      crossing, a stripped line that is exactly "OK" completes it, and every
      other line (distance samples among them) lets the scan go on. */
  function ItemOutcome(item: PKSerial.Reply): (r: Option<Outcome>)
    ensures r == Some(ReadFailed) <==> item.Fault?
    ensures r == Some(Detected) <==> item.Line? && Contains(Strip(item.text), "BALL_DETECTED")
    ensures r == Some(Completed) <==>
              item.Line? && !Contains(Strip(item.text), "BALL_DETECTED") && Strip(item.text) == "OK"
    ensures r.None? <==>
              item.Line? && !Contains(Strip(item.text), "BALL_DETECTED") && Strip(item.text) != "OK"
    ensures r != Some(TimedOut)
  {
    match item
    case Fault => Some(ReadFailed)
    case Line(text) =>
      var line := Strip(text);
      if Contains(line, "BALL_DETECTED") then Some(Detected)
      else if line == "OK" then Some(Completed)
      else None
  }

  /** A way of classifying received items that never reports a timeout
      (only the deadline does). */
  type Classifier = PKSerial.Reply -> Option<Outcome>

  /** Each received item's effect on the window, in arrival order. */
  function ClassifyWith(f: Classifier, window: seq<PKSerial.Reply>): (c: seq<Option<Outcome>>)
    ensures |c| == |window|
    ensures forall i :: 0 <= i < |window| ==> c[i] == f(window[i])
  {
    seq(|window|, i requires 0 <= i < |window| => f(window[i]))
  }

  predicate NoTimeout(f: Classifier, window: seq<PKSerial.Reply>) {
    forall j :: 0 <= j < |window| ==> f(window[j]) != Some(TimedOut)
  }

  /** An item never classifies as a timeout. */
  lemma ItemOutcomeNoTimeout(window: seq<PKSerial.Reply>)
    ensures NoTimeout(ItemOutcome, window)
  {
  }

  function Classify(window: seq<PKSerial.Reply>): (c: seq<Option<Outcome>>)
    ensures |c| == |window|
    ensures forall i :: 0 <= i < |window| ==> c[i] == ItemOutcome(window[i])
    ensures forall i :: 0 <= i < |window| ==> c[i] != Some(TimedOut)
  {
    ClassifyWith(ItemOutcome, window)
  }

  datatype Scan = Scan(end: Outcome, consumed: nat)

  /** The read loop of trigger_blocking over the classified items that
      arrive before the deadline: it stops at the first item that ends the
      window and passes over every other line (distance samples, malformed
      ones, noise). */
  function ScanOutcomes(outcomes: seq<Option<Outcome>>): (s: Scan)
    requires forall j :: 0 <= j < |outcomes| ==> outcomes[j] != Some(TimedOut)
    ensures s.consumed <= |outcomes|
    ensures s.end == TimedOut ==>
              s.consumed == |outcomes| &&
              forall j :: 0 <= j < |outcomes| ==> outcomes[j].None?
    ensures s.end != TimedOut ==>
              1 <= s.consumed &&
              outcomes[s.consumed - 1] == Some(s.end) &&
              forall j :: 0 <= j < s.consumed - 1 ==> outcomes[j].None?
  {
    if |outcomes| == 0 then Scan(TimedOut, 0)
    else if outcomes[0].Some? then Scan(outcomes[0].value, 1)
    else
      var rest := ScanOutcomes(outcomes[1..]);
      Scan(rest.end, rest.consumed + 1)
  }

  function ScanWindow(window: seq<PKSerial.Reply>): Scan {
    ScanOutcomes(Classify(window))
  }

  /** Item i ends the window with `end` under f, and no earlier item ends it. */
  predicate StopsFirstWith(f: Classifier, window: seq<PKSerial.Reply>, i: int, end: Outcome) {
    0 <= i < |window| && f(window[i]) == Some(end) &&
    forall j :: 0 <= j < i ==> f(window[j]).None?
  }

  /** The scan stops at the first item that ends the window... */
  lemma ScanStopsFirstWith(f: Classifier, window: seq<PKSerial.Reply>)
    requires NoTimeout(f, window)
    requires ScanOutcomes(ClassifyWith(f, window)).end != TimedOut
    ensures StopsFirstWith(f, window, ScanOutcomes(ClassifyWith(f, window)).consumed - 1,
                           ScanOutcomes(ClassifyWith(f, window)).end)
  {
    var c := ClassifyWith(f, window);
    var s := ScanOutcomes(c);
    assert c[s.consumed - 1] == Some(s.end);
    forall j | 0 <= j < s.consumed - 1 ensures f(window[j]).None? {
      assert c[j].None?;
    }
  }

  /** ...and an item that ends the window with nothing before it is where
      the scan stops. */
  lemma FirstStopEndsScanWith(f: Classifier, window: seq<PKSerial.Reply>, i: int, end: Outcome)
    requires NoTimeout(f, window)
    requires StopsFirstWith(f, window, i, end)
    ensures ScanOutcomes(ClassifyWith(f, window)).end == end
  {
    var c := ClassifyWith(f, window);
    var s := ScanOutcomes(c);
    assert c[i] == Some(end);
    forall j | 0 <= j < i ensures c[j].None? {
      assert f(window[j]).None?;
    }
    assert s.end != TimedOut;
    assert !(s.consumed - 1 < i);
    assert !(s.consumed - 1 > i);
  }

  /** Item i is the first whose ItemOutcome ends the window, with `end`. */
  predicate StopsFirstAt(window: seq<PKSerial.Reply>, i: int, end: Outcome) {
    StopsFirstWith(ItemOutcome, window, i, end)
  }

  /** Under any classifier, the scan ends with `end` exactly when some item
      ends the window with `end` and no earlier item ends it. */
  lemma StopsFirstIffWith(f: Classifier, window: seq<PKSerial.Reply>, end: Outcome)
    requires NoTimeout(f, window) && end != TimedOut
    ensures ScanOutcomes(ClassifyWith(f, window)).end == end <==> exists i :: StopsFirstWith(f, window, i, end)
  {
    var s := ScanOutcomes(ClassifyWith(f, window));
    if s.end == end {
      ScanStopsFirstWith(f, window);
      assert StopsFirstWith(f, window, s.consumed - 1, end);
    }
    forall i | StopsFirstWith(f, window, i, end) ensures s.end == end {
      FirstStopEndsScanWith(f, window, i, end);
    }
  }

  /** A crossing is confirmed exactly when some item reports it and every
      item before it neither completes the window nor fails. */
  lemma DetectedIffFirstStop(window: seq<PKSerial.Reply>)
    ensures ScanWindow(window).end == Detected <==> exists i :: StopsFirstAt(window, i, Detected)
  {
    ItemOutcomeNoTimeout(window);
    StopsFirstIffWith(ItemOutcome, window, Detected);
    assert ScanWindow(window) == ScanOutcomes(ClassifyWith(ItemOutcome, window));
    assert forall i :: StopsFirstAt(window, i, Detected) == StopsFirstWith(ItemOutcome, window, i, Detected);
  }

  /** An outcome sequence with one more non-stopping item inserted anywhere
      ends the same way. */
  lemma {:induction false} ScanIgnoresNonStop(outcomes: seq<Option<Outcome>>, i: nat)
    requires forall j :: 0 <= j < |outcomes| ==> outcomes[j] != Some(TimedOut)
    requires i <= |outcomes|
    ensures ScanOutcomes(outcomes[..i] + [None] + outcomes[i..]).end == ScanOutcomes(outcomes).end
  {
    var o' := outcomes[..i] + [None] + outcomes[i..];
    if i == 0 {
      assert o'[1..] == outcomes;
    } else {
      assert o'[0] == outcomes[0];
      if outcomes[0].None? {
        ScanIgnoresNonStop(outcomes[1..], i - 1);
        assert o'[1..] == outcomes[1..][..i - 1] + [None] + outcomes[1..][i - 1..];
      }
    }
  }

  /** Classifying a window with one item inserted inserts its outcome. */
  lemma ClassifyInsertWith(f: Classifier, window: seq<PKSerial.Reply>, i: nat, item: PKSerial.Reply)
    requires i <= |window|
    ensures ClassifyWith(f, window[..i] + [item] + window[i..]) ==
            ClassifyWith(f, window)[..i] + [f(item)] + ClassifyWith(f, window)[i..]
  {
    var w' := window[..i] + [item] + window[i..];
    var c := ClassifyWith(f, window);
    var c' := ClassifyWith(f, w');
    forall k | 0 <= k < |c'| ensures c'[k] == (c[..i] + [f(item)] + c[i..])[k] {
      if k < i {
        assert w'[k] == window[k];
      } else if k > i {
        assert w'[k] == window[k - 1];
      }
    }
  }

  /** A line that does not end the window (a distance sample, a malformed
      "D:" line, anything else) can be added anywhere in the window without
      changing how the window ends. */
  lemma IgnoresNonStopLine(window: seq<PKSerial.Reply>, i: nat, item: PKSerial.Reply)
    requires i <= |window|
    requires ItemOutcome(item).None?
    ensures ScanWindow(window[..i] + [item] + window[i..]).end == ScanWindow(window).end
  {
    ClassifyInsertWith(ItemOutcome, window, i, item);
    ScanIgnoresNonStop(Classify(window), i);
  }

  // ----- trigger and detection processing -----

  /** "H" + the upper-cased first letter of the side's value + newline. */
  function MonitorCommand(side: BallSide): (cmd: string)
    requires side == Left || side == Right
    ensures side == Left ==> cmd == "HL\n"
    ensures side == Right ==> cmd == "HR\n"
  {
    var letter := SideValue(side)[0];
    var upper := if 'a' <= letter <= 'z' then (letter as int - 32) as char else letter;
    "H" + [upper] + "\n"
  }

  /** The port the coordinator writes to directly, bypassing the
      controller's connected flag. */
  predicate PortUsable(b: Blocker) {
    PKSerial.Usable(b.serial)
  }

  function Written(b: Blocker): seq<string> {
    PKSerial.Written(b.serial)
  }

  /** The window a trigger would see: the replies queued on the port, cut
      off after the first `inTime` of them (those arriving before the
      deadline). */
  function Window(b: Blocker, inTime: nat): (w: seq<PKSerial.Reply>)
    requires PortUsable(b)
    ensures |w| == if inTime <= |b.serial.serial.value.replies| then inTime else |b.serial.serial.value.replies|
    ensures w == b.serial.serial.value.replies[..|w|]
  {
    var replies := b.serial.serial.value.replies;
    if inTime <= |replies| then replies[..inTime] else replies
  }

  /** trigger_blocking(side): for LEFT/RIGHT, write the monitor command once,
      scan the window, and report whether a crossing was confirmed. A raised
      write or read returns false and leaves blocking_active as it was. */
  function TriggerBlocking(b: Blocker, side: BallSide, inTime: nat): (r: (Blocker, bool))
    ensures side != Left && side != Right ==> r == (b, false)
    ensures side == Left || side == Right ==>
              && r.0.lastBallSide == side
              && !r.0.isMonitoring
              && (PortUsable(b) ==> Written(r.0) == Written(b) + [MonitorCommand(side)])
              && (!PortUsable(b) ==> Written(r.0) == Written(b))
    ensures r.1 <==> (side == Left || side == Right) && PortUsable(b) &&
                     ScanWindow(Window(b, inTime)).end == Detected
    ensures ((side == Left || side == Right) && PortUsable(b) &&
             ScanWindow(Window(b, inTime)).end != ReadFailed) ==> !r.0.blockingActive
    ensures r.0.blockingActive ==> b.blockingActive
    ensures r.0.totalDetections == b.totalDetections && r.0.successfulBlocks == b.successfulBlocks
    ensures r.0.failedBlocks == b.failedBlocks
    ensures r.0.serial.isConnected == b.serial.isConnected
  {
    if side != Left && side != Right then (b, false)
    else
      var b := b.(isMonitoring := true, lastBallSide := side);
      if !PortUsable(b) then (b.(isMonitoring := false), false)
      else
        var port := b.serial.serial.value;
        var scan := ScanWindow(Window(b, inTime));
        var port' := port.(written := port.written + [MonitorCommand(side)],
                           replies := port.replies[scan.consumed..]);
        var b := b.(serial := b.serial.(serial := Some(port')));
        if scan.end == ReadFailed then (b.(isMonitoring := false), false)
        else
          var detected := scan.end == Detected;
          // blocking_active is raised for the post-detection hold and cleared
          // again before the call returns.
          (b.(blockingActive := false, isMonitoring := false), detected)
  }

  /** process_ball_detection: ignored while a session is monitoring or
      blocking and for CENTER; otherwise one detection is counted and settled
      as exactly one success or failure according to the trigger's result. */
  function ProcessBallDetection(b: Blocker, x: real, y: real, frameWidth: int, frameHeight: int,
                                confidence: real, inTime: nat): (r: (Blocker, bool))
    requires b.isMonitoring || b.blockingActive || frameWidth != 0
    ensures b.isMonitoring || b.blockingActive ==> r == (b, false)
    ensures !(b.isMonitoring || b.blockingActive) && DetermineBallSide(b, x, frameWidth) == Center ==>
              r == (b, false)
    ensures !(b.isMonitoring || b.blockingActive) && DetermineBallSide(b, x, frameWidth) != Center ==>
              && r.0.totalDetections == b.totalDetections + 1
              && r.0.successfulBlocks == b.successfulBlocks + (if r.1 then 1 else 0)
              && r.0.failedBlocks == b.failedBlocks + (if r.1 then 0 else 1)
              && r.0.lastBallSide == DetermineBallSide(b, x, frameWidth)
              && !r.0.isMonitoring
              && (PortUsable(b) ==>
                    Written(r.0) == Written(b) + [MonitorCommand(DetermineBallSide(b, x, frameWidth))])
    ensures r.1 <==>
              && !(b.isMonitoring || b.blockingActive)
              && DetermineBallSide(b, x, frameWidth) != Center
              && PortUsable(b)
              && ScanWindow(Window(b, inTime)).end == Detected
    ensures Consistent(b) ==> Consistent(r.0)
    ensures !r.0.blockingActive || r == (b, false)
  {
    if b.isMonitoring || b.blockingActive then (b, false)
    else
      var side := DetermineBallSide(b, x, frameWidth);
      if side == Center || side == NoSide then (b, false)
      else
        var b1 := b.(totalDetections := b.totalDetections + 1);
        var (b2, success) := TriggerBlocking(b1, side, inTime);
        if success then (b2.(successfulBlocks := b2.successfulBlocks + 1), true)
        else (b2.(failedBlocks := b2.failedBlocks + 1), false)
  }

  datatype Statistics = Statistics(
    totalDetections: nat,
    successfulBlocks: nat,
    failedBlocks: nat,
    successRate: real,
    isMonitoring: bool,
    blockingActive: bool,
    lastSide: string)

  /** get_statistics: the success rate is a percentage of the detections,
      and 0 while nothing has been detected. */
  function GetStatistics(b: Blocker): (s: Statistics)
    ensures s.totalDetections == b.totalDetections && s.successfulBlocks == b.successfulBlocks
    ensures s.failedBlocks == b.failedBlocks && s.lastSide == SideValue(b.lastBallSide)
    ensures s.isMonitoring == b.isMonitoring && s.blockingActive == b.blockingActive
    ensures b.totalDetections == 0 ==> s.successRate == 0.0
    ensures b.totalDetections > 0 ==> s.successRate * b.totalDetections as real == 100.0 * b.successfulBlocks as real
    ensures Consistent(b) ==> 0.0 <= s.successRate <= 100.0
  {
    var rate := if b.totalDetections > 0
      then (b.successfulBlocks as real / b.totalDetections as real) * 100.0
      else 0.0;
    Statistics(b.totalDetections, b.successfulBlocks, b.failedBlocks, rate,
               b.isMonitoring, b.blockingActive, SideValue(b.lastBallSide))
  }

  /** reset_statistics zeroes the three counters and nothing else. */
  function ResetStatistics(b: Blocker): (r: Blocker)
    ensures r.totalDetections == 0 && r.successfulBlocks == 0 && r.failedBlocks == 0
    ensures Consistent(r)
    ensures r == b.(totalDetections := r.totalDetections, successfulBlocks := r.successfulBlocks,
                    failedBlocks := r.failedBlocks)
  {
    b.(totalDetections := 0, successfulBlocks := 0, failedBlocks := 0)
  }

  /** cleanup clears both session flags and nothing else. */
  function Cleanup(b: Blocker): (r: Blocker)
    ensures !r.isMonitoring && !r.blockingActive
    ensures r == b.(isMonitoring := r.isMonitoring, blockingActive := r.blockingActive)
  {
    b.(isMonitoring := false, blockingActive := false)
  }
}
