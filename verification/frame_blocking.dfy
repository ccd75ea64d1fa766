/** The per-frame rules of the camera-driven goalkeeper script
    (tests/test_ball_blocking.py): detection counters, selection of the ball
    among the detector's results, and the left/right trigger behind the
    cooldown gate. Frames, inference and streaming are outside the model:
    each frame is its list of detections and its clock reading. */
module FrameBlocking {

  import opened Wrappers
  import opened BlockCoordination

  /** One detector result: class id, score and box in model-input pixels. */
  datatype Detection = Detection(id: int, score: real, xmin: real, ymin: real, xmax: real, ymax: real)

  /** Class 36 is "sports ball"; 73 ("mouse") is accepted as a stand-in. */
  predicate IsBall(d: Detection) {
    d.id == 36 || d.id == 73
  }

  function CountBalls(dets: seq<Detection>): (n: nat)
    ensures n <= |dets|
    ensures n == 0 <==> forall i :: 0 <= i < |dets| ==> !IsBall(dets[i])
  {
    if |dets| == 0 then 0 else (if IsBall(dets[0]) then 1 else 0) + CountBalls(dets[1..])
  }

  /** Counting balls over two frames is counting over their concatenation. */
  lemma {:induction false} CountBallsAppend(a: seq<Detection>, b: seq<Detection>)
    ensures CountBalls(a + b) == CountBalls(a) + CountBalls(b)
  {
    if |a| > 0 {
      CountBallsAppend(a[1..], b);
      assert (a + b)[1..] == a[1..] + b;
    } else {
      assert a + b == b;
    }
  }

  /** The total_detections / ball_detections globals. */
  datatype DetectionStats = DetectionStats(totalDetections: nat, ballDetections: nat)

  /** update_detection_stats: every detection is counted, and the balls
      among them are counted again. */
  function UpdateDetectionStats(st: DetectionStats, dets: seq<Detection>): (r: DetectionStats)
    ensures r.totalDetections == st.totalDetections + |dets|
    ensures st.ballDetections <= r.ballDetections <= st.ballDetections + |dets|
    ensures r.ballDetections == st.ballDetections <==> forall i :: 0 <= i < |dets| ==> !IsBall(dets[i])
    ensures st.ballDetections <= st.totalDetections ==> r.ballDetections <= r.totalDetections
  {
    DetectionStats(st.totalDetections + |dets|, st.ballDetections + CountBalls(dets))
  }

  /** Two successive updates are one update with both frames' detections. */
  lemma UpdateDetectionStatsTwice(st: DetectionStats, a: seq<Detection>, b: seq<Detection>)
    ensures UpdateDetectionStats(UpdateDetectionStats(st, a), b) == UpdateDetectionStats(st, a + b)
  {
    CountBallsAppend(a, b);
  }

  /** A ball's position in frame pixels. */
  datatype BallPosition = BallPosition(centerX: real, centerY: real, score: real)

  /** The box center scaled from model-input size to frame size. */
  function FramePosition(d: Detection, frameWidth: int, frameHeight: int, modelWidth: int, modelHeight: int): BallPosition
    requires modelWidth != 0 && modelHeight != 0
  {
    BallPosition(((d.xmin + d.xmax) / 2.0) * (frameWidth as real / modelWidth as real),
                 ((d.ymin + d.ymax) / 2.0) * (frameHeight as real / modelHeight as real),
                 d.score)
  }

  /** i is the first ball in list order. */
  predicate FirstBall(dets: seq<Detection>, i: int) {
    0 <= i < |dets| && IsBall(dets[i]) && forall j :: 0 <= j < i ==> !IsBall(dets[j])
  }

  /** find_ball_detection: the first ball in list order, rescaled; None when
      the frame holds no ball. The model size is divided by only once a ball
      is found. */
  function FindBallDetection(dets: seq<Detection>, frameWidth: int, frameHeight: int,
                             modelWidth: int, modelHeight: int): (r: Option<BallPosition>)
    requires (modelWidth != 0 && modelHeight != 0) || CountBalls(dets) == 0
    ensures r.None? <==> CountBalls(dets) == 0
    ensures r.Some? ==>
              modelWidth != 0 && modelHeight != 0 &&
              exists i :: FirstBall(dets, i) &&
                r.value == FramePosition(dets[i], frameWidth, frameHeight, modelWidth, modelHeight)
  {
    if |dets| == 0 then None
    else if IsBall(dets[0]) then
      var p := FramePosition(dets[0], frameWidth, frameHeight, modelWidth, modelHeight);
      assert FirstBall(dets, 0);
      Some(p)
    else
      var r := FindBallDetection(dets[1..], frameWidth, frameHeight, modelWidth, modelHeight);
      if r.Some? then
        var i :| FirstBall(dets[1..], i) &&
                 r.value == FramePosition(dets[1..][i], frameWidth, frameHeight, modelWidth, modelHeight);
        assert FirstBall(dets, i + 1);
        r
      else r
  }

  /** The trigger rule of process_frames: a ball, an idle worker and an
      elapsed cooldown fire a block toward the ball's half of the frame
      (left strictly below the middle, otherwise right: there is no dead
      zone). The returned time is the new last_block_time. */
  function FrameTrigger(lastBlockTime: real, state: BlockingState, now: real,
                        ball: Option<BallPosition>, frameWidth: int): (r: (real, Option<Side>))
    ensures r.1.Some? <==> ball.Some? && state == Idle && now - lastBlockTime > BLOCK_COOLDOWN
    ensures r.1.Some? ==> r.0 == now && (r.1.value == LeftSide <==> ball.value.centerX < frameWidth as real / 2.0)
    ensures r.1.None? ==> r.0 == lastBlockTime
  {
    var (last', fired) := Gate(lastBlockTime, state, now, ball.Some?);
    if fired then
      (last', Some(if ball.value.centerX < frameWidth as real / 2.0 then LeftSide else RightSide))
    else (last', None)
  }

  /** With the script's 640-pixel frame, the exact middle x = 320 goes right. */
  lemma MiddleGoesRight(lastBlockTime: real, now: real, y: real, score: real)
    requires now - lastBlockTime > BLOCK_COOLDOWN
    ensures FrameTrigger(lastBlockTime, Idle, now, Some(BallPosition(320.0, y, score)), 640).1 == Some(RightSide)
  {
  }

  /** The state process_frames keeps across frames. */
  datatype FrameLoop = FrameLoop(lastBlockTime: real, stats: DetectionStats)

  /** The script's fixed sizes: a 640x480 frame and the detector's input. */
  const FRAME_WIDTH: int := 640
  const FRAME_HEIGHT: int := 480

  /** One iteration of process_frames after inference: count the
      detections, pick the ball, and decide whether to spawn a worker. */
  function ProcessFrame(loop: FrameLoop, state: BlockingState, now: real, dets: seq<Detection>,
                        modelWidth: int, modelHeight: int): (r: (FrameLoop, Option<Side>))
    requires modelWidth > 0 && modelHeight > 0
    ensures r.0.stats == UpdateDetectionStats(loop.stats, dets)
    ensures r.1.Some? <==> CountBalls(dets) > 0 && state == Idle && now - loop.lastBlockTime > BLOCK_COOLDOWN
    ensures r.0.lastBlockTime == (if r.1.Some? then now else loop.lastBlockTime)
  {
    var stats := UpdateDetectionStats(loop.stats, dets);
    var ball := FindBallDetection(dets, FRAME_WIDTH, FRAME_HEIGHT, modelWidth, modelHeight);
    var (last', fire) := FrameTrigger(loop.lastBlockTime, state, now, ball, FRAME_WIDTH);
    (FrameLoop(last', stats), fire)
  }

  /** What the trigger rule sees in one frame. */
  datatype FrameInput = FrameInput(now: real, state: BlockingState, ball: Option<BallPosition>)

  /** The trigger rule applied frame after frame: the firings in order, and
      the final last_block_time. */
  function FrameRun(lastBlockTime: real, frames: seq<FrameInput>, frameWidth: int): (r: (real, seq<Firing>))
    ensures |r.1| <= |frames|
    decreases |frames|
  {
    if |frames| == 0 then (lastBlockTime, [])
    else
      var f := frames[0];
      var (last', fire) := FrameTrigger(lastBlockTime, f.state, f.now, f.ball, frameWidth);
      var (final, rest) := FrameRun(last', frames[1..], frameWidth);
      if fire.Some? then (final, [Firing(f.now, fire.value)] + rest) else (final, rest)
  }

  function Requests(frames: seq<FrameInput>): (q: seq<Request>)
    ensures |q| == |frames|
  {
    if |frames| == 0 then []
    else [Request(frames[0].now, frames[0].state, frames[0].ball.Some?)] + Requests(frames[1..])
  }

  /** Frame triggering is the cooldown gate with "a ball is present" as the
      request: a run of frames fires at exactly the gate's times. */
  lemma {:induction false} FrameRunIsGateRun(lastBlockTime: real, frames: seq<FrameInput>, frameWidth: int)
    ensures FrameRun(lastBlockTime, frames, frameWidth).0 == GateRun(lastBlockTime, Requests(frames)).0
    ensures Times(FrameRun(lastBlockTime, frames, frameWidth).1) == GateRun(lastBlockTime, Requests(frames)).1
    decreases |frames|
  {
    if |frames| > 0 {
      var f := frames[0];
      var (last', fire) := FrameTrigger(lastBlockTime, f.state, f.now, f.ball, frameWidth);
      FrameRunIsGateRun(last', frames[1..], frameWidth);
      assert Requests(frames)[1..] == Requests(frames[1..]);
      var rest := FrameRun(last', frames[1..], frameWidth).1;
      if fire.Some? {
        assert Times([Firing(f.now, fire.value)] + rest) == [f.now] + Times(rest);
      }
    }
  }

  /** Any two blocks the camera loop fires are more than 6 s apart, whatever
      the workers did meanwhile. */
  lemma FrameFiringsSpaced(lastBlockTime: real, frames: seq<FrameInput>, frameWidth: int, i: nat, j: nat)
    requires i < j < |FrameRun(lastBlockTime, frames, frameWidth).1|
    ensures FrameRun(lastBlockTime, frames, frameWidth).1[j].time -
            FrameRun(lastBlockTime, frames, frameWidth).1[i].time > BLOCK_COOLDOWN
  {
    FrameRunIsGateRun(lastBlockTime, frames, frameWidth);
    FiringsSpaced(lastBlockTime, Requests(frames), i, j);
  }
}
