/** What the two goalkeeper test scripts (tests/test_ball_blocking.py and
    tests/test_ultrasonic_blocking.py) share: the global blocking state and
    block counter, the worker that performs one canned block on the board,
    and the 6-second cooldown gate in front of every trigger.

    Threads are modelled as interleaved atomic steps: the per-frame loop
    takes one step per frame, and a spawned worker takes its two steps
    (start, finish) whenever the scheduler lets it. Clock readings are
    parameters. */
module BlockCoordination {

  import opened Wrappers
  import PKSerial

  datatype Side = LeftSide | RightSide

  /** The 'left'/'right' argument passed to the worker. */
  function SideName(side: Side): string {
    match side
    case LeftSide => "left"
    case RightSide => "right"
  }

  /** The blocking_state global: "idle" or "blocking_<side>". */
  datatype BlockingState = Idle | Blocking(side: Side)

  function StateName(state: BlockingState): string {
    match state
    case Idle => "idle"
    case Blocking(side) => "blocking_" + SideName(side)
  }

  /** The module-level globals the frame loop and the workers share. */
  datatype Shared = Shared(blockingState: BlockingState, totalBlocks: nat)

  const INITIAL_SHARED: Shared := Shared(Idle, 0)

  function BoardSide(side: Side): PKSerial.BlockSide {
    match side
    case LeftSide => PKSerial.BlockLeft
    case RightSide => PKSerial.BlockRight
  }

  /** First step of block_ball_worker, once it holds the lock: the state
      shows which side is being blocked. */
  function WorkerStart(shared: Shared, side: Side): (r: Shared)
    ensures r.blockingState == Blocking(side) && r.totalBlocks == shared.totalBlocks
  {
    shared.(blockingState := Blocking(side))
  }

  /** Second step: the canned block on the board ("BL"/"BR"), then the
      counter is incremented whatever the board answered, and the state is
      back to idle. */
  function WorkerFinish(shared: Shared, ctrl: PKSerial.Controller, side: Side): (r: (Shared, PKSerial.Controller))
    ensures r.0.totalBlocks == shared.totalBlocks + 1
    ensures r.0.blockingState == Idle
    ensures ctrl.isConnected && PKSerial.Usable(ctrl) ==>
              PKSerial.Written(r.1) == PKSerial.Written(ctrl) + [PKSerial.BlockCommand(BoardSide(side))]
    ensures !ctrl.isConnected ==> r.1 == ctrl
    ensures PKSerial.Valid(ctrl) ==> PKSerial.Valid(r.1)
  {
    var (ctrl', _) := PKSerial.BlockBall(ctrl, BoardSide(side));
    (Shared(Idle, shared.totalBlocks + 1), ctrl')
  }

  /** block_ball_worker run without interruption. */
  function BlockBallWorker(shared: Shared, ctrl: PKSerial.Controller, side: Side): (r: (Shared, PKSerial.Controller))
    ensures r.0.totalBlocks == shared.totalBlocks + 1 && r.0.blockingState == Idle
    ensures ctrl.isConnected && PKSerial.Usable(ctrl) ==>
              PKSerial.Written(r.1) == PKSerial.Written(ctrl) + [PKSerial.BlockCommand(BoardSide(side))]
  {
    WorkerFinish(WorkerStart(shared, side), ctrl, side)
  }

  // ----- the cooldown gate -----

  /** Seconds that must pass, strictly, between two triggers. */
  const BLOCK_COOLDOWN: real := 6.0

  /** One trigger decision: fire when something asks for a block, the
      worker state is idle and strictly more than the cooldown has passed
      since the last firing; a firing records `now`. */
  function Gate(lastBlockTime: real, state: BlockingState, now: real, wanted: bool): (r: (real, bool))
    ensures r.1 <==> wanted && state == Idle && now - lastBlockTime > BLOCK_COOLDOWN
    ensures r.0 == (if r.1 then now else lastBlockTime)
  {
    if wanted && state == Idle && now - lastBlockTime > BLOCK_COOLDOWN then (now, true)
    else (lastBlockTime, false)
  }

  /** What one loop iteration hands the gate: its clock reading, the worker
      state it observed (whatever interleaving produced it), and whether it
      saw something to block. */
  datatype Request = Request(now: real, state: BlockingState, wanted: bool)

  /** The times at which a sequence of loop iterations fired, and the final
      last_block_time. */
  function GateRun(lastBlockTime: real, requests: seq<Request>): (r: (real, seq<real>))
    ensures |r.1| == 0 ==> r.0 == lastBlockTime
    ensures |r.1| > 0 ==> r.0 == r.1[|r.1| - 1] && r.1[0] - lastBlockTime > BLOCK_COOLDOWN
    ensures forall k :: 0 <= k < |r.1| - 1 ==> r.1[k + 1] - r.1[k] > BLOCK_COOLDOWN
    decreases |requests|
  {
    if |requests| == 0 then (lastBlockTime, [])
    else
      var q := requests[0];
      var (last', fired) := Gate(lastBlockTime, q.state, q.now, q.wanted);
      var (final, rest) := GateRun(last', requests[1..]);
      if fired then (final, [q.now] + rest) else (final, rest)
  }

  /** A block a trigger loop fired: when, and toward which side. */
  datatype Firing = Firing(time: real, side: Side)

  /** The clock readings of a run of firings. */
  function Times(firings: seq<Firing>): (t: seq<real>)
    ensures |t| == |firings|
    ensures forall i :: 0 <= i < |firings| ==> t[i] == firings[i].time
  {
    seq(|firings|, i requires 0 <= i < |firings| => firings[i].time)
  }

  /** Any two firings are more than the cooldown apart, whatever the worker
      did in between and whether or not the clock is monotone. */
  lemma {:induction false} FiringsSpaced(lastBlockTime: real, requests: seq<Request>, i: nat, j: nat)
    requires i < j < |GateRun(lastBlockTime, requests).1|
    ensures GateRun(lastBlockTime, requests).1[j] - GateRun(lastBlockTime, requests).1[i] > BLOCK_COOLDOWN
    decreases j - i
  {
    var fires := GateRun(lastBlockTime, requests).1;
    if j > i + 1 {
      FiringsSpaced(lastBlockTime, requests, i, j - 1);
      assert fires[j] - fires[j - 1] > BLOCK_COOLDOWN;
    }
  }
}
