/** The trigger loop of the ultrasonic goalkeeper script
    (tests/test_ultrasonic_blocking.py): every iteration reads the left and
    then the right distance sensor through the board, and a reading strictly
    between 0 and 30 cm asks for a block toward that side, the left sensor
    taking precedence. The cooldown gate and the worker are the ones in
    BlockCoordination; sleeps are left out and the clock is a parameter. */
module UltrasonicBlocking {

  import opened Wrappers
  import opened BlockCoordination
  import PKSerial
  import Text

  /** Detection threshold in centimetres. */
  const DETECTION_THRESHOLD: real := 30.0

  /** A reading that asks for a block: present and strictly inside
      (0, DETECTION_THRESHOLD). */
  predicate InRange(d: Option<real>) {
    d.Some? && 0.0 < d.value < DETECTION_THRESHOLD
  }

  /** The trigger rule: an idle worker and an elapsed cooldown let a block
      fire toward the left when the left reading is in range, otherwise toward
      the right when the right one is. The returned time is the new
      last_block_time (the clock sampled before the two reads). */
  function UltrasonicTrigger(lastBlockTime: real, state: BlockingState, now: real,
                             left: Option<real>, right: Option<real>): (r: (real, Option<Side>))
    ensures r.1 == Some(LeftSide) <==>
              state == Idle && now - lastBlockTime > BLOCK_COOLDOWN && InRange(left)
    ensures r.1 == Some(RightSide) <==>
              state == Idle && now - lastBlockTime > BLOCK_COOLDOWN && !InRange(left) && InRange(right)
    ensures r.0 == (if r.1.Some? then now else lastBlockTime)
  {
    var (last', fired) := Gate(lastBlockTime, state, now, InRange(left) || InRange(right));
    if fired then (last', Some(if InRange(left) then LeftSide else RightSide))
    else (last', None)
  }

  /** What monitor_ultrasonic_sensors keeps across iterations. */
  datatype Monitor = Monitor(lastBlockTime: real, sampleCount: nat)

  const INITIAL_MONITOR: Monitor := Monitor(0.0, 0)

  /** How one iteration ended: it fired a block (or not), or the every-tenth
      log line formatted a missing reading with ":.1f", which raises and ends
      the loop; the script then disconnects the board on its way out. */
  datatype StepResult = Continue(fire: Option<Side>) | Crashed

  /** Every tenth iteration logs both readings. */
  predicate LogsThisSample(count: nat) {
    count % 10 == 0
  }

  /** The two reads at the top of each iteration, left then right. */
  function ReadBoth(ctrl: PKSerial.Controller): (r: (PKSerial.Controller, Option<real>, Option<real>))
    ensures r.1 == PKSerial.ReadDistance(ctrl, "L").1
    ensures r.2 == PKSerial.ReadDistance(PKSerial.ReadDistance(ctrl, "L").0, "R").1
    ensures ctrl.isConnected && PKSerial.Usable(ctrl) ==>
              PKSerial.Written(r.0) ==
              PKSerial.Written(ctrl) + [PKSerial.DistanceCommand("L"), PKSerial.DistanceCommand("R")]
    ensures !ctrl.isConnected ==> r == (ctrl, None, None)
    ensures PKSerial.Valid(ctrl) ==> PKSerial.Valid(r.0)
  {
    var (c1, left) := PKSerial.ReadDistance(ctrl, "L");
    var (c2, right) := PKSerial.ReadDistance(c1, "R");
    (c2, left, right)
  }

  /** One loop iteration: read both sensors, count the sample, maybe log,
      then apply the trigger rule. */
  function MonitorStep(m: Monitor, state: BlockingState, ctrl: PKSerial.Controller, now: real)
    : (r: (Monitor, PKSerial.Controller, StepResult))
    ensures r.0.sampleCount == m.sampleCount + 1
    ensures r.2.Crashed? <==>
              LogsThisSample(m.sampleCount + 1) && (ReadBoth(ctrl).1.None? || ReadBoth(ctrl).2.None?)
    ensures r.2.Crashed? ==> r.0.lastBlockTime == m.lastBlockTime
    ensures r.2.Crashed? && PKSerial.Valid(ctrl) ==> !r.1.isConnected
    ensures r.2.Continue? ==> r.1 == ReadBoth(ctrl).0
    ensures r.2.Continue? ==>
              (r.0.lastBlockTime, r.2.fire) ==
              UltrasonicTrigger(m.lastBlockTime, state, now, ReadBoth(ctrl).1, ReadBoth(ctrl).2)
  {
    var (c, left, right) := ReadBoth(ctrl);
    var count := m.sampleCount + 1;
    if LogsThisSample(count) && (left.None? || right.None?) then
      (m.(sampleCount := count), PKSerial.Disconnect(c), Crashed)
    else
      var (last', fire) := UltrasonicTrigger(m.lastBlockTime, state, now, left, right);
      (Monitor(last', count), c, Continue(fire))
  }

  /** With no board connected every reading is missing, so the loop can only
      survive nine iterations: the tenth crashes. */
  lemma DisconnectedCrashesOnTenth(m: Monitor, state: BlockingState, ctrl: PKSerial.Controller, now: real)
    requires !ctrl.isConnected
    ensures MonitorStep(m, state, ctrl, now).2.Crashed? <==> LogsThisSample(m.sampleCount + 1)
    ensures MonitorStep(m, state, ctrl, now).2.Continue? ==> MonitorStep(m, state, ctrl, now).2.fire.None?
  {
  }

  /** With the board connected, a single read that times out on a tenth
      iteration ends the whole loop: the timeout reads as an empty line,
      read_distance returns None, and the log line cannot format it. */
  lemma TimeoutOnTenthCrashes(m: Monitor, state: BlockingState, ctrl: PKSerial.Controller, now: real)
    requires ctrl.isConnected && PKSerial.Usable(ctrl) && |ctrl.serial.value.replies| == 0
    requires LogsThisSample(m.sampleCount + 1)
    ensures MonitorStep(m, state, ctrl, now).2.Crashed?
  {
    TimeoutReadsNothing(ctrl);
    MissingLeftCrashes(m, state, ctrl, now);
  }

  /** On a tenth iteration a missing left reading alone ends the loop. */
  lemma MissingLeftCrashes(m: Monitor, state: BlockingState, ctrl: PKSerial.Controller, now: real)
    requires LogsThisSample(m.sampleCount + 1) && PKSerial.ReadDistance(ctrl, "L").1.None?
    ensures MonitorStep(m, state, ctrl, now).2.Crashed?
  {
    assert ReadBoth(ctrl).1.None?;
  }

  /** A read that times out yields no distance. */
  lemma TimeoutReadsNothing(ctrl: PKSerial.Controller)
    requires PKSerial.Usable(ctrl) && |ctrl.serial.value.replies| == 0
    ensures PKSerial.ReadDistance(ctrl, "L").1.None?
  {
    assert PKSerial.NextReply(ctrl.serial.value) == PKSerial.Line("");
    assert Text.Strip("") == "";
  }

  /** The iteration as evidently intended: a missing reading is logged as
      such and the loop goes on; the trigger rule already skips it. */
  function TolerantMonitorStep(m: Monitor, state: BlockingState, ctrl: PKSerial.Controller, now: real)
    : (r: (Monitor, PKSerial.Controller, Option<Side>))
    ensures r.0.sampleCount == m.sampleCount + 1
    ensures r.1 == ReadBoth(ctrl).0
    ensures (r.0.lastBlockTime, r.2) ==
            UltrasonicTrigger(m.lastBlockTime, state, now, ReadBoth(ctrl).1, ReadBoth(ctrl).2)
  {
    var (c, left, right) := ReadBoth(ctrl);
    var (last', fire) := UltrasonicTrigger(m.lastBlockTime, state, now, left, right);
    (Monitor(last', m.sampleCount + 1), c, fire)
  }

  /** The corrected iteration differs from the one as written only where
      that one crashes. */
  lemma TolerantAgreesUnlessCrashed(m: Monitor, state: BlockingState, ctrl: PKSerial.Controller, now: real)
    ensures var w := MonitorStep(m, state, ctrl, now);
            var t := TolerantMonitorStep(m, state, ctrl, now);
            w.2.Continue? ==> w.0 == t.0 && w.1 == t.1 && w.2.fire == t.2
  {
  }

  /** The readings of one iteration as the trigger rule sees them. */
  datatype SensorInput = SensorInput(now: real, state: BlockingState, left: Option<real>, right: Option<real>)

  /** The trigger rule applied iteration after iteration: the firings in
      order, and the final last_block_time. */
  function SensorRun(lastBlockTime: real, inputs: seq<SensorInput>): (r: (real, seq<Firing>))
    ensures |r.1| <= |inputs|
    decreases |inputs|
  {
    if |inputs| == 0 then (lastBlockTime, [])
    else
      var q := inputs[0];
      var (last', fire) := UltrasonicTrigger(lastBlockTime, q.state, q.now, q.left, q.right);
      var (final, rest) := SensorRun(last', inputs[1..]);
      if fire.Some? then (final, [Firing(q.now, fire.value)] + rest) else (final, rest)
  }

  function SensorRequests(inputs: seq<SensorInput>): (q: seq<Request>)
    ensures |q| == |inputs|
  {
    if |inputs| == 0 then []
    else [Request(inputs[0].now, inputs[0].state, InRange(inputs[0].left) || InRange(inputs[0].right))]
         + SensorRequests(inputs[1..])
  }

  /** Sensor triggering is the cooldown gate with "either reading in range"
      as the request. */
  lemma {:induction false} SensorRunIsGateRun(lastBlockTime: real, inputs: seq<SensorInput>)
    ensures SensorRun(lastBlockTime, inputs).0 == GateRun(lastBlockTime, SensorRequests(inputs)).0
    ensures Times(SensorRun(lastBlockTime, inputs).1) == GateRun(lastBlockTime, SensorRequests(inputs)).1
    decreases |inputs|
  {
    if |inputs| > 0 {
      var q := inputs[0];
      var (last', fire) := UltrasonicTrigger(lastBlockTime, q.state, q.now, q.left, q.right);
      SensorHeadIsGate(lastBlockTime, inputs);
      SensorRunIsGateRun(last', inputs[1..]);
      var rest := SensorRun(last', inputs[1..]).1;
      if fire.Some? {
        assert Times([Firing(q.now, fire.value)] + rest) == [q.now] + Times(rest);
      }
    }
  }

  /** The first iteration of a run is one gate step on its request. */
  lemma SensorHeadIsGate(lastBlockTime: real, inputs: seq<SensorInput>)
    requires |inputs| > 0
    ensures var q := inputs[0];
            var wanted := InRange(q.left) || InRange(q.right);
            && SensorRequests(inputs) == [Request(q.now, q.state, wanted)] + SensorRequests(inputs[1..])
            && Gate(lastBlockTime, q.state, q.now, wanted) ==
               (UltrasonicTrigger(lastBlockTime, q.state, q.now, q.left, q.right).0,
                UltrasonicTrigger(lastBlockTime, q.state, q.now, q.left, q.right).1.Some?)
  {
  }

  /** Any two blocks the sensor loop fires are more than 6 s apart. */
  lemma SensorFiringsSpaced(lastBlockTime: real, inputs: seq<SensorInput>, i: nat, j: nat)
    requires i < j < |SensorRun(lastBlockTime, inputs).1|
    ensures SensorRun(lastBlockTime, inputs).1[j].time - SensorRun(lastBlockTime, inputs).1[i].time > BLOCK_COOLDOWN
  {
    SensorRunIsGateRun(lastBlockTime, inputs);
    FiringsSpaced(lastBlockTime, SensorRequests(inputs), i, j);
  }
}
