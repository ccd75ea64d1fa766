/** Host side of the line-oriented micro-protocol spoken with the leg
    controller board (src/arduino/pk_serial_controller.py).

    The serial port is a value: an open flag, the read timeout, the log of
    every string written, and the queue of replies the board will send. A
    reply is a received line or a read that raises; an empty queue is a read
    that times out, which pyserial reports as an empty line. Every command
    returns the new controller together with its result. */
module PKSerial {

  import opened Wrappers
  import opened Text

  /** What one readline().decode() yields: a line, or a raised error (a
      transport failure or a strict UTF-8 decode failure). */
  datatype Reply = Line(text: string) | Fault

  datatype Port = Port(isOpen: bool, timeout: real, written: seq<string>, replies: seq<Reply>)

  /** `serial` is None until the first successful open. */
  datatype Controller = Controller(timeout: real, serial: Option<Port>, isConnected: bool)

  /** Read timeout used while the board performs a canned block motion. */
  const BLOCK_TIMEOUT: real := 10.0

  /** Default configuration of a fresh controller: 1.0 s timeout, no port. */
  function NewController(timeout: real): (c: Controller)
    ensures !c.isConnected && c.serial.None? && c.timeout == timeout
  {
    Controller(timeout, None, false)
  }

  /** A connected controller always has an open port. */
  predicate Valid(c: Controller) {
    c.isConnected ==> c.serial.Some? && c.serial.value.isOpen
  }

  /** Everything written to the controller's current port so far. */
  function Written(c: Controller): seq<string> {
    if c.serial.Some? then c.serial.value.written else []
  }

  /** The reply the next readline() produces: an exhausted queue is the
      timeout, which reads as an empty line. */
  function NextReply(p: Port): Reply {
    if |p.replies| == 0 then Line("") else p.replies[0]
  }

  function Consume(p: Port): Port {
    if |p.replies| == 0 then p else p.(replies := p.replies[1..])
  }

  /** The port can be written: it exists and is open (otherwise write raises). */
  predicate Usable(c: Controller) {
    c.serial.Some? && c.serial.value.isOpen
  }

  /** The board's next reply, stripped, is exactly "OK". */
  predicate AnswersOk(c: Controller) {
    Usable(c) && NextReply(c.serial.value).Line? && Strip(NextReply(c.serial.value).text) == "OK"
  }

  /** One request-response exchange: write `cmd`, read one line and strip it.
      None is an exception raised by the write or the read. */
  function Exchange(c: Controller, cmd: string): (r: (Controller, Option<string>))
    ensures Usable(c) ==> Usable(r.0) && Written(r.0) == Written(c) + [cmd]
    ensures !Usable(c) ==> r == (c, None)
    ensures r.0.isConnected == c.isConnected && r.0.timeout == c.timeout
    ensures r.1.Some? <==> Usable(c) && NextReply(c.serial.value).Line?
    ensures r.1.Some? ==> r.1.value == Strip(NextReply(c.serial.value).text)
  {
    if !Usable(c) then (c, None)
    else
      var p := c.serial.value.(written := c.serial.value.written + [cmd]);
      var reply := NextReply(p);
      var c' := c.(serial := Some(Consume(p)));
      if reply.Fault? then (c', None) else (c', Some(Strip(reply.text)))
  }

  // ----- connection lifecycle -----

  /** connect(): `opens` says whether the OS opened the port; `arriving` is
      what the board sends after the buffers were flushed. One waiting line
      (the start-up banner) is read and discarded; a failure there leaves the
      new port installed but the controller not marked connected. */
  function Connect(c: Controller, opens: bool, arriving: seq<Reply>): (r: (Controller, bool))
    ensures !opens ==> r == (c, false)
    ensures r.1 <==> opens && (|arriving| == 0 || arriving[0].Line?)
    ensures r.1 ==> r.0.isConnected && Usable(r.0) && Written(r.0) == []
    ensures !r.1 ==> r.0.isConnected == c.isConnected
    ensures r.0.timeout == c.timeout
    ensures Valid(c) ==> Valid(r.0)
  {
    if !opens then (c, false)
    else
      var p := Port(true, c.timeout, [], arriving);
      if |arriving| > 0 && arriving[0].Fault? then (c.(serial := Some(Consume(p))), false)
      else (Controller(c.timeout, Some(Consume(p)), true), true)
  }

  /** disconnect(): closes and clears the flag only when a port object exists. */
  function Disconnect(c: Controller): (r: Controller)
    ensures c.serial.None? ==> r == c
    ensures c.serial.Some? ==> !r.isConnected && r.serial.Some? && !r.serial.value.isOpen
    ensures Written(r) == Written(c)
    ensures Valid(c) ==> Valid(r)
  {
    if c.serial.Some? then c.(serial := Some(c.serial.value.(isOpen := false)), isConnected := false)
    else c
  }

  // ----- command encoders and decoders -----

  const INIT_COMMAND: string := "I\n"

  /** "S" + two-digit id + three-digit PWM + newline. */
  function ServoCommand(id: nat, pwm: nat): string {
    "S" + ZeroPadded(id, 2) + ZeroPadded(pwm, 3) + "\n"
  }

  /** How the board reads a servo frame: exactly seven characters, 'S', five
      digits, newline. */
  function ParseServoCommand(cmd: string): (r: Option<(nat, nat)>)
    ensures r.Some? <==> |cmd| == 7 && cmd[0] == 'S' && cmd[6] == '\n' && AllDigits(cmd[1..6])
    ensures r.Some? ==> r.value.0 < 100 && r.value.1 < 1000
  {
    if |cmd| == 7 && cmd[0] == 'S' && cmd[6] == '\n' && AllDigits(cmd[1..6]) then
      assert cmd[1..3] == cmd[1..6][..2] && cmd[3..6] == cmd[1..6][2..];
      DigitsValueBound(cmd[1..3]);
      DigitsValueBound(cmd[3..6]);
      Some((DigitsValue(cmd[1..3]), DigitsValue(cmd[3..6])))
    else None
  }

  /** Every servo frame the controller accepts to send is seven characters
      long and decodes back to the id and PWM value it was built from. */
  lemma ServoCommandRoundTrip(id: nat, pwm: nat)
    requires id <= 15 && 100 <= pwm <= 600
    ensures |ServoCommand(id, pwm)| == 7
    ensures ParseServoCommand(ServoCommand(id, pwm)) == Some((id, pwm))
  {
    var a := ZeroPadded(id, 2);
    var b := ZeroPadded(pwm, 3);
    ZeroPaddedLength(id, 2);
    ZeroPaddedLength(pwm, 3);
    ZeroPaddedValue(id, 2);
    ZeroPaddedValue(pwm, 3);
    var cmd := ServoCommand(id, pwm);
    assert cmd[1..3] == a;
    assert cmd[3..6] == b;
    assert cmd[1..6] == a + b;
  }

  /** "D" + the side letter + newline. */
  function DistanceCommand(side: string): string {
    "D" + side + "\n"
  }

  /** The board's distance reply: "D" followed by five millimetre digits. */
  function DistanceReply(mm: nat): string {
    "D" + ZeroPadded(mm, 5)
  }

  /** The host's reading of a distance reply: six characters starting with
      'D', the rest an integer count of millimetres (int() ignores
      surrounding whitespace), reported in centimetres. */
  function DecodeDistance(resp: string): (r: Option<real>)
    ensures r.Some? <==> |resp| == 6 && resp[0] == 'D' && ParseInt(StripNumber(resp[1..])).Some?
    ensures r.Some? ==> r.value == ParseInt(StripNumber(resp[1..])).value as real / 10.0
  {
    if |resp| == 6 && StartsWith(resp, "D") then
      assert StartsWith(resp, "D") <==> resp[0] == 'D';
      match ParseInt(StripNumber(resp[1..]))
      case Some(mm) => Some(mm as real / 10.0)
      case None => None
    else
      assert |resp| == 6 ==> (StartsWith(resp, "D") <==> resp[0] == 'D');
      None
  }

  /** A 'D' followed by five digits decodes to their value over ten. */
  lemma DecodeDigits(resp: string, mm: nat)
    requires |resp| == 6 && resp[0] == 'D' && AllDigits(resp[1..]) && DigitsValue(resp[1..]) == mm
    ensures DecodeDistance(resp) == Some(mm as real / 10.0)
  {
    var digits := resp[1..];
    DigitsStripped(digits);
    assert ParseInt(StripNumber(digits)) == Some(mm);
  }

  /** Every five-digit reply decodes to its millimetre count over ten. */
  lemma DistanceReplyRoundTrip(mm: nat)
    requires mm < 100000
    ensures DecodeDistance(DistanceReply(mm)) == Some(mm as real / 10.0)
  {
    DistanceReplyShape(mm);
    DecodeDigits(DistanceReply(mm), mm);
  }

  /** A distance reply is 'D' and five digits worth mm. */
  lemma DistanceReplyShape(mm: nat)
    requires mm < 100000
    ensures |DistanceReply(mm)| == 6 && DistanceReply(mm)[0] == 'D'
    ensures AllDigits(DistanceReply(mm)[1..]) && DigitsValue(DistanceReply(mm)[1..]) == mm
  {
    ZeroPaddedLength(mm, 5);
    ZeroPaddedValue(mm, 5);
    assert DistanceReply(mm)[1..] == ZeroPadded(mm, 5);
  }

  // ----- commands -----

  /** initialize_legs(): sends "I\n"; succeeds iff the reply is "OK". */
  function InitializeLegs(c: Controller): (r: (Controller, bool))
    ensures !c.isConnected ==> r == (c, false)
    ensures c.isConnected && Usable(c) ==> Written(r.0) == Written(c) + [INIT_COMMAND]
    ensures r.1 <==> c.isConnected && AnswersOk(c)
    ensures Valid(c) ==> Valid(r.0)
  {
    if !c.isConnected then (c, false)
    else
      var (c', resp) := Exchange(c, INIT_COMMAND);
      (c', resp == Some("OK"))
  }

  /** read_distance(side): only "L" and "R" are sent; the reply must be
      "D" plus five characters that int() accepts. */
  function ReadDistance(c: Controller, side: string): (r: (Controller, Option<real>))
    ensures !c.isConnected || (side != "L" && side != "R") ==> r == (c, None)
    ensures c.isConnected && (side == "L" || side == "R") && Usable(c) ==>
              Written(r.0) == Written(c) + [DistanceCommand(side)]
    ensures r.1.Some? ==> c.isConnected && (side == "L" || side == "R") && Usable(c)
    ensures r.1.Some? ==> NextReply(c.serial.value).Line?
    ensures c.isConnected && (side == "L" || side == "R") && Usable(c) && NextReply(c.serial.value).Line? ==>
              r.1 == DecodeDistance(Strip(NextReply(c.serial.value).text))
    ensures Valid(c) ==> Valid(r.0)
  {
    if !c.isConnected then (c, None)
    else if side != "L" && side != "R" then (c, None)
    else
      var (c', resp) := Exchange(c, DistanceCommand(side));
      match resp
      case None => (c', None)
      case Some(line) => (c', DecodeDistance(line))
  }

  /** When the board answers a distance request with "D" and five digits, the
      host reports that many millimetres in centimetres. */
  lemma ReadDistanceReply(c: Controller, side: string, mm: nat)
    requires c.isConnected && Usable(c) && (side == "L" || side == "R") && mm < 100000
    requires NextReply(c.serial.value) == Line(DistanceReply(mm))
    ensures ReadDistance(c, side).1 == Some(mm as real / 10.0)
  {
    ZeroPaddedLength(mm, 5);
    var s := DistanceReply(mm);
    assert forall i :: 1 <= i < |s| ==> IsDigit(s[i]) by {
      forall i | 1 <= i < |s| ensures IsDigit(s[i]) {
        assert s[i] == ZeroPadded(mm, 5)[i - 1];
      }
    }
    StripNoSpace(s);
    DistanceReplyRoundTrip(mm);
  }

  datatype BlockSide = BlockLeft | BlockRight

  function BlockCommand(side: BlockSide): string {
    match side
    case BlockLeft => "BL\n"
    case BlockRight => "BR\n"
  }

  /** block_ball_left()/block_ball_right(): send "BL\n"/"BR\n", wait up to
      10 s for "OK", then restore the configured timeout. A raised read skips
      the restore, so the port keeps the 10 s timeout. */
  function BlockBall(c: Controller, side: BlockSide): (r: (Controller, bool))
    ensures !c.isConnected ==> r == (c, false)
    ensures c.isConnected && Usable(c) ==> Written(r.0) == Written(c) + [BlockCommand(side)]
    ensures r.1 <==> c.isConnected && AnswersOk(c)
    ensures c.isConnected && Usable(c) ==>
              r.0.serial.Some? &&
              r.0.serial.value.timeout ==
                (if NextReply(c.serial.value).Fault? then BLOCK_TIMEOUT else c.timeout)
    ensures Valid(c) ==> Valid(r.0)
  {
    if !c.isConnected then (c, false)
    else if !Usable(c) then (c, false)
    else
      var p := c.serial.value.(written := c.serial.value.written + [BlockCommand(side)]);
      var p := p.(timeout := BLOCK_TIMEOUT);
      var reply := NextReply(p);
      if reply.Fault? then (c.(serial := Some(Consume(p))), false)
      else
        var p := Consume(p).(timeout := c.timeout);
        (c.(serial := Some(p)), Strip(reply.text) == "OK")
  }

  /** set_servo_pwm(id, pwm): id must lie in [0, 15] and pwm in [100, 600];
      the frame is "S" + 2 + 3 digits + newline and succeeds on "OK". */
  function SetServoPwm(c: Controller, id: int, pwm: int): (r: (Controller, bool))
    ensures !c.isConnected || !(0 <= id <= 15) || !(100 <= pwm <= 600) ==> r == (c, false)
    ensures c.isConnected && 0 <= id <= 15 && 100 <= pwm <= 600 && Usable(c) ==>
              |Written(r.0)| == |Written(c)| + 1 &&
              Written(r.0)[..|Written(c)|] == Written(c) &&
              ParseServoCommand(Written(r.0)[|Written(c)|]) == Some((id as nat, pwm as nat))
    ensures r.1 <==> c.isConnected && 0 <= id <= 15 && 100 <= pwm <= 600 && AnswersOk(c)
    ensures Valid(c) ==> Valid(r.0)
  {
    if !c.isConnected then (c, false)
    else if id < 0 || id > 15 then (c, false)
    else if pwm < 100 || pwm > 600 then (c, false)
    else
      ServoCommandRoundTrip(id, pwm);
      var (c', resp) := Exchange(c, ServoCommand(id, pwm));
      (c', resp == Some("OK"))
  }
}
