/** The hand-control mapping (src/hand_control/finger_mapper.py): a fixed
    table from (hand, finger) to a PCA9685 channel, a per-channel clamped
    linear interpolation from finger bend to servo angle, and the text
    report of a set of servo commands. */
module FingerMapper {

  import opened Wrappers
  import opened Text

  /** The constructor arguments. servo_min, servo_max and invert_mapping only
      matter on the legacy path (no channel, or an unconfigured one). */
  datatype Mapper = Mapper(servoMin: int, servoMax: int, angleMin: real, angleMax: real, invert: bool)

  const DEFAULT_MAPPER: Mapper := Mapper(0, 180, 0.0, 180.0, false)

  /** The mapped fingers, in table order; the pinky has no servo. */
  const FINGERS: seq<string> := ["thumb", "index", "middle", "ring"]

  /** Channel of FINGERS[k]: left-hand fingers drive the hips (front-left,
      front-right, back-left, back-right), right-hand fingers the knees. */
  const LEFT_CHANNELS: seq<int> := [0, 2, 8, 6]
  const RIGHT_CHANNELS: seq<int> := [1, 3, 5, 7]

  /** Position of a finger name in FINGERS. */
  function FingerIndex(finger: string): (r: Option<nat>)
    ensures r.Some? <==> finger in FINGERS
    ensures r.Some? ==> r.value < |FINGERS| && FINGERS[r.value] == finger
  {
    if finger == "thumb" then Some(0)
    else if finger == "index" then Some(1)
    else if finger == "middle" then Some(2)
    else if finger == "ring" then Some(3)
    else None
  }

  /** The SERVO_MAPPING row of a hand name. */
  function HandChannels(hand: string): (r: Option<seq<int>>)
    ensures r.Some? <==> hand == "left_hand" || hand == "right_hand"
    ensures r.Some? ==> |r.value| == |FINGERS|
  {
    if hand == "left_hand" then Some(LEFT_CHANNELS)
    else if hand == "right_hand" then Some(RIGHT_CHANNELS)
    else None
  }

  /** The servo angle for an open finger and for a closed one. */
  datatype ServoSetting = ServoSetting(kind: string, open: int, close: int)

  const SERVO_CONFIG: map<int, ServoSetting> := map[
    0 := ServoSetting("left_hip", 0, 90),
    8 := ServoSetting("left_hip", 0, 90),
    2 := ServoSetting("right_hip", 90, 0),
    6 := ServoSetting("right_hip", 90, 0),
    1 := ServoSetting("left_knee", 0, 80),
    5 := ServoSetting("left_knee", 0, 80),
    3 := ServoSetting("right_knee", 80, 0),
    7 := ServoSetting("right_knee", 80, 0)]

  function Min(a: int, b: int): int { if a <= b then a else b }
  function Max(a: int, b: int): int { if a <= b then b else a }

  /** np.clip(x, 0.0, 1.0). */
  function Clip01(x: real): (r: real)
    ensures 0.0 <= r <= 1.0
    ensures 0.0 <= x <= 1.0 ==> r == x
    ensures x <= 0.0 ==> r == 0.0
    ensures x >= 1.0 ==> r == 1.0
  {
    if x < 0.0 then 0.0 else if x > 1.0 then 1.0 else x
  }

  /** Python's int() on a float: truncation toward zero. */
  function Trunc(x: real): (r: int)
    ensures x >= 0.0 ==> r == x.Floor
    ensures -1.0 < x - r as real < 1.0
  {
    if x >= 0.0 then x.Floor else -((-x).Floor)
  }

  /** A real between two integers truncates to an integer between them. */
  lemma TruncBetween(x: real, lo: int, hi: int)
    requires lo as real <= x <= hi as real
    ensures lo <= Trunc(x) <= hi
  {
    if x < 0.0 {
      assert -x <= -lo as real;
      assert (-x).Floor <= -lo;
    }
  }

  /** Division by a positive span keeps the side of 0 and of 1. */
  lemma DivideBySpan(x: real, d: real)
    requires d > 0.0
    ensures x <= 0.0 ==> x / d <= 0.0
    ensures x >= d ==> x / d >= 1.0
  {
    assert (x / d) * d == x;
  }

  /** The bend normalised over [angle_min, angle_max] and clipped to [0, 1]. */
  function Normalized(m: Mapper, fingerAngle: real): (n: real)
    requires m.angleMax != m.angleMin
    ensures 0.0 <= n <= 1.0
  {
    Clip01((fingerAngle - m.angleMin) / (m.angleMax - m.angleMin))
  }

  /** The line through (0, lo) and (1, hi) at n in [0, 1] stays between lo
      and hi, so its truncation does too. */
  lemma InterpolateBetween(lo: int, hi: int, n: real)
    requires 0.0 <= n <= 1.0
    ensures Min(lo, hi) <= Trunc(lo as real + n * (hi - lo) as real) <= Max(lo, hi)
  {
    var x := lo as real + n * (hi - lo) as real;
    if lo <= hi {
      assert n * (hi - lo) as real <= (hi - lo) as real;
      TruncBetween(x, lo, hi);
    } else {
      assert n * (lo - hi) as real <= (lo - hi) as real;
      TruncBetween(x, hi, lo);
    }
  }

  /** int(lo + n * (hi - lo)) for n in [0, 1]: the servo angle at the
      normalised bend n, from lo (n = 0) to hi (n = 1). */
  function Interpolate(lo: int, hi: int, n: real): (r: int)
    requires 0.0 <= n <= 1.0
    ensures Min(lo, hi) <= r <= Max(lo, hi)
    ensures n == 0.0 ==> r == lo
    ensures n == 1.0 ==> r == hi
  {
    InterpolateBetween(lo, hi, n);
    Trunc(lo as real + n * (hi - lo) as real)
  }

  /** The legacy normalised bend: reversed when invert_mapping is set. */
  function LegacyBend(m: Mapper, n: real): (n': real)
    requires 0.0 <= n <= 1.0
    ensures 0.0 <= n' <= 1.0
    ensures n' == (if m.invert then 1.0 - n else n)
  {
    if m.invert then 1.0 - n else n
  }

  /** map_finger_to_servo. A configured channel interpolates from its open
      angle (finger straight, bend at angle_min) to its close angle (finger
      bent, bend at angle_max); any other channel, or none, uses the legacy
      servo_min..servo_max range, reversed when invert_mapping is set. The
      division by angle_max - angle_min raises when they are equal. */
  function MapFingerToServo(m: Mapper, fingerAngle: real, channel: Option<int>): (r: int)
    requires m.angleMax != m.angleMin
    ensures channel.Some? && channel.value in SERVO_CONFIG ==>
              var cfg := SERVO_CONFIG[channel.value];
              Min(cfg.open, cfg.close) <= r <= Max(cfg.open, cfg.close)
    ensures !(channel.Some? && channel.value in SERVO_CONFIG) ==>
              Min(m.servoMin, m.servoMax) <= r <= Max(m.servoMin, m.servoMax)
  {
    var n := Normalized(m, fingerAngle);
    if channel.Some? && channel.value in SERVO_CONFIG then
      Interpolate(SERVO_CONFIG[channel.value].open, SERVO_CONFIG[channel.value].close, n)
    else
      Interpolate(m.servoMin, m.servoMax, LegacyBend(m, n))
  }

  /** A bend at or beyond angle_min (on the side away from angle_max) gives
      the open angle; at or beyond angle_max, the close angle. */
  lemma ConfiguredEndpoints(m: Mapper, fingerAngle: real, channel: int)
    requires m.angleMin < m.angleMax && channel in SERVO_CONFIG
    ensures fingerAngle <= m.angleMin ==> MapFingerToServo(m, fingerAngle, Some(channel)) == SERVO_CONFIG[channel].open
    ensures fingerAngle >= m.angleMax ==> MapFingerToServo(m, fingerAngle, Some(channel)) == SERVO_CONFIG[channel].close
  {
    DivideBySpan(fingerAngle - m.angleMin, m.angleMax - m.angleMin);
  }

  /** With the default range a straight finger (0°) gives every configured
      channel its open angle and a fully bent one (180°) its close angle. */
  lemma DefaultEndpoints(channel: int)
    requires channel in SERVO_CONFIG
    ensures MapFingerToServo(DEFAULT_MAPPER, 0.0, Some(channel)) == SERVO_CONFIG[channel].open
    ensures MapFingerToServo(DEFAULT_MAPPER, 180.0, Some(channel)) == SERVO_CONFIG[channel].close
  {
    ConfiguredEndpoints(DEFAULT_MAPPER, 0.0, channel);
    ConfiguredEndpoints(DEFAULT_MAPPER, 180.0, channel);
  }

  /** Bending the finger further moves the servo monotonically from the open
      angle toward the close angle. */
  lemma ConfiguredMonotone(m: Mapper, a1: real, a2: real, channel: int)
    requires m.angleMin < m.angleMax && channel in SERVO_CONFIG && a1 <= a2
    ensures var cfg := SERVO_CONFIG[channel];
            var r1 := MapFingerToServo(m, a1, Some(channel));
            var r2 := MapFingerToServo(m, a2, Some(channel));
            if cfg.open <= cfg.close then r1 <= r2 else r2 <= r1
  {
    var cfg := SERVO_CONFIG[channel];
    var d := m.angleMax - m.angleMin;
    var n1 := Normalized(m, a1);
    var n2 := Normalized(m, a2);
    assert (a1 - m.angleMin) / d <= (a2 - m.angleMin) / d;
    assert n1 <= n2;
    var x1 := cfg.open as real + n1 * (cfg.close - cfg.open) as real;
    var x2 := cfg.open as real + n2 * (cfg.close - cfg.open) as real;
    if cfg.open <= cfg.close {
      assert x1 <= x2;
      assert x1 >= 0.0;
    } else {
      assert x2 <= x1;
      assert x2 >= 0.0;
    }
  }

  /** The legacy path: no channel maps bend angle_min..angle_max onto
      servo_min..servo_max, or onto servo_max..servo_min when inverted. */
  lemma LegacyEndpoints(m: Mapper, fingerAngle: real)
    requires m.angleMin < m.angleMax
    ensures fingerAngle <= m.angleMin ==>
              MapFingerToServo(m, fingerAngle, None) == (if m.invert then m.servoMax else m.servoMin)
    ensures fingerAngle >= m.angleMax ==>
              MapFingerToServo(m, fingerAngle, None) == (if m.invert then m.servoMin else m.servoMax)
  {
    DivideBySpan(fingerAngle - m.angleMin, m.angleMax - m.angleMin);
  }

  // ----- whole hands -----

  /** The finger angles of each hand; None when the hand is missing, None or
      empty, all of which contribute nothing. A present hand without
      finger_angles is Some of the empty map. */
  datatype HandData = HandData(left: Option<map<string, real>>, right: Option<map<string, real>>)

  /** No mapped finger of a present hand has an angle. */
  predicate NoMappedFinger(h: HandData) {
    forall k :: 0 <= k < |FINGERS| ==>
      (h.left.None? || FINGERS[k] !in h.left.value) && (h.right.None? || FINGERS[k] !in h.right.value)
  }

  predicate IsChannelTable(channels: seq<int>) {
    channels == LEFT_CHANNELS || channels == RIGHT_CHANNELS
  }

  /** The loop over one hand's table rows k, k+1, ...: an entry per mapped
      finger the hand has an angle for. */
  function HandServos(m: Mapper, channels: seq<int>, fingers: map<string, real>, k: nat): (r: map<int, int>)
    requires IsChannelTable(channels) && k <= |FINGERS|
    requires m.angleMax != m.angleMin || forall j :: k <= j < |FINGERS| ==> FINGERS[j] !in fingers
    ensures forall j :: k <= j < |FINGERS| && FINGERS[j] in fingers ==>
              channels[j] in r && r[channels[j]] == MapFingerToServo(m, fingers[FINGERS[j]], Some(channels[j]))
    ensures forall c :: c in r ==> c in channels
    ensures forall c :: c in r ==> exists j :: k <= j < |FINGERS| && FINGERS[j] in fingers && channels[j] == c
    decreases |FINGERS| - k
  {
    if k == |FINGERS| then map[]
    else
      var rest := HandServos(m, channels, fingers, k + 1);
      if FINGERS[k] in fingers then
        rest[channels[k] := MapFingerToServo(m, fingers[FINGERS[k]], Some(channels[k]))]
      else rest
  }

  /** map_hand_to_servos: the left hand drives the hip channels, the right
      hand the knee channels; pinkies and unknown fingers are dropped. Every
      angle the result holds comes from map_finger_to_servo, and the two
      hands never write the same channel. */
  function MapHandToServos(m: Mapper, h: HandData): (r: map<int, int>)
    requires m.angleMax != m.angleMin || NoMappedFinger(h)
    ensures r.Keys <= SERVO_CONFIG.Keys
    ensures h.left.Some? ==> forall k :: 0 <= k < |FINGERS| && FINGERS[k] in h.left.value ==>
              LEFT_CHANNELS[k] in r &&
              r[LEFT_CHANNELS[k]] == MapFingerToServo(m, h.left.value[FINGERS[k]], Some(LEFT_CHANNELS[k]))
    ensures h.right.Some? ==> forall k :: 0 <= k < |FINGERS| && FINGERS[k] in h.right.value ==>
              RIGHT_CHANNELS[k] in r &&
              r[RIGHT_CHANNELS[k]] == MapFingerToServo(m, h.right.value[FINGERS[k]], Some(RIGHT_CHANNELS[k]))
    ensures forall c :: c in r ==>
              (h.left.Some? && exists k :: 0 <= k < |FINGERS| && FINGERS[k] in h.left.value && LEFT_CHANNELS[k] == c) ||
              (h.right.Some? && exists k :: 0 <= k < |FINGERS| && FINGERS[k] in h.right.value && RIGHT_CHANNELS[k] == c)
  {
    var left := if h.left.Some? then HandServos(m, LEFT_CHANNELS, h.left.value, 0) else map[];
    var right := if h.right.Some? then HandServos(m, RIGHT_CHANNELS, h.right.value, 0) else map[];
    assert forall c :: c in LEFT_CHANNELS ==> c !in RIGHT_CHANNELS && c in SERVO_CONFIG;
    assert forall c :: c in RIGHT_CHANNELS ==> c in SERVO_CONFIG;
    left + right
  }

  /** get_servo_channel: the table entry, or None for an unknown hand or
      finger (the pinky included). */
  function GetServoChannel(hand: string, finger: string): (r: Option<int>)
    ensures r.Some? <==> (hand == "left_hand" || hand == "right_hand") && finger in FINGERS
    ensures r.Some? ==> r.value in SERVO_CONFIG
  {
    match (HandChannels(hand), FingerIndex(finger))
    case (Some(channels), Some(k)) => Some(channels[k])
    case _ => None
  }

  /** No two (hand, finger) pairs share a channel. */
  lemma ChannelsInjective(h1: string, f1: string, h2: string, f2: string)
    requires GetServoChannel(h1, f1).Some? && GetServoChannel(h1, f1) == GetServoChannel(h2, f2)
    ensures h1 == h2 && f1 == f2
  {
  }

  /** Every configured channel has a finger. */
  lemma MappingCoversConfig(c: int)
    requires c in SERVO_CONFIG
    ensures c in LEFT_CHANNELS || c in RIGHT_CHANNELS
  {
  }

  // ----- the text report -----

  /** A non-empty set has an element. */
  lemma HasElement(s: set<int>)
    requires s != {}
    ensures exists y :: y in s
  {
    if forall y :: y !in s {
      assert false;
    }
  }

  /** A finite non-empty set of ints has a least element. */
  lemma {:induction false} HasMin(s: set<int>)
    requires s != {}
    ensures exists m :: m in s && forall x :: x in s ==> m <= x
    decreases |s|
  {
    HasElement(s);
    var y :| y in s;
    var t := s - {y};
    if t == {} {
      forall x | x in s ensures y <= x {
        assert x !in t;
      }
    } else {
      HasMin(t);
      var m :| m in t && forall x :: x in t ==> m <= x;
      var least := if y < m then y else m;
      forall x | x in s ensures least <= x {
        if x != y {
          assert x in t;
        }
      }
      assert least in s;
    }
  }

  /** The least element of a finite non-empty set. */
  function SetMin(s: set<int>): (m: int)
    requires s != {}
    ensures m in s && forall x :: x in s ==> m <= x
  {
    HasMin(s);
    var m :| m in s && forall x :: x in s ==> m <= x;
    m
  }

  /** r lists the elements of s in strictly increasing order. */
  predicate ListsInOrder(r: seq<int>, s: set<int>) {
    |r| == |s| &&
    (forall i :: 0 <= i < |r| ==> r[i] in s) &&
    (forall x :: x in s ==> x in r) &&
    (forall i, j :: 0 <= i < j < |r| ==> r[i] < r[j])
  }

  /** The least element followed by the others in order lists the set in
      order. */
  lemma ListsInOrderCons(s: set<int>, m: int, rest: seq<int>)
    requires m in s && forall x :: x in s ==> m <= x
    requires ListsInOrder(rest, s - {m})
    ensures ListsInOrder([m] + rest, s)
  {
    var r := [m] + rest;
    assert |s - {m}| == |s| - 1;
    forall x | x in s ensures x in r {
      if x != m {
        assert x in s - {m};
      }
    }
    forall i | 0 <= i < |r| ensures r[i] in s {
      if i > 0 {
        assert r[i] == rest[i - 1];
      }
    }
    forall i, j | 0 <= i < j < |r| ensures r[i] < r[j] {
      assert r[j] == rest[j - 1] && r[j] in s - {m};
      if i > 0 {
        assert r[i] == rest[i - 1];
      }
    }
  }

  /** Python's sorted() on a set of ints. */
  function Sorted(s: set<int>): (r: seq<int>)
    ensures ListsInOrder(r, s)
    decreases |s|
  {
    if s == {} then []
    else
      var m := SetMin(s);
      var rest := Sorted(s - {m});
      ListsInOrderCons(s, m, rest);
      [m] + rest
  }

  const REPORT_PREFIX: string := "Channel "
  const DEGREE_SIGN: char := '\U{B0}'

  /** "Channel {channel}: {angle}°". */
  function ReportLine(channel: int, angle: int): (line: string)
    ensures '\n' !in line
  {
    IntToStringChars(channel, '\n');
    IntToStringChars(angle, '\n');
    REPORT_PREFIX + IntToString(channel) + ": " + IntToString(angle) + [DEGREE_SIGN]
  }

  /** Reads one report line back into its channel and angle. */
  function ParseReportLine(line: string): (r: Option<(int, int)>)
    ensures r.Some? ==> StartsWith(line, REPORT_PREFIX) && line[|line| - 1] == DEGREE_SIGN
  {
    if !StartsWith(line, REPORT_PREFIX) || |line| == |REPORT_PREFIX| || line[|line| - 1] != DEGREE_SIGN then None
    else
      var body := line[|REPORT_PREFIX|..|line| - 1];
      if ':' !in body then None
      else
        var (c, rest) := SplitOnce(body, ':');
        if |rest| == 0 || rest[0] != ' ' then None
        else
          match (ParseInt(c), ParseInt(rest[1..]))
          case (Some(channel), Some(angle)) => Some((channel, angle))
          case _ => None
  }

  /** A line assembled from a colon-free channel text and an angle text that
      both parse reads back as those two numbers. */
  lemma ParseAssembledLine(channelText: string, angleText: string, channel: int, angle: int)
    requires ':' !in channelText
    requires ParseInt(channelText) == Some(channel) && ParseInt(angleText) == Some(angle)
    ensures ParseReportLine(REPORT_PREFIX + channelText + ": " + angleText + [DEGREE_SIGN]) == Some((channel, angle))
  {
    var line := REPORT_PREFIX + channelText + ": " + angleText + [DEGREE_SIGN];
    var body := channelText + [':'] + (" " + angleText);
    assert line == REPORT_PREFIX + body + [DEGREE_SIGN];
    assert line[..|REPORT_PREFIX|] == REPORT_PREFIX;
    assert line[|REPORT_PREFIX|..|line| - 1] == body;
    assert body[|channelText|] == ':';
    SplitOnceFirst(channelText, ':', " " + angleText);
    assert (" " + angleText)[1..] == angleText;
  }

  /** Every report line reads back as the channel and angle it was made from. */
  lemma ReportLineRoundTrip(channel: int, angle: int)
    ensures ParseReportLine(ReportLine(channel, angle)) == Some((channel, angle))
  {
    IntToStringChars(channel, ':');
    IntToStringParses(channel);
    IntToStringParses(angle);
    ParseAssembledLine(IntToString(channel), IntToString(angle), channel, angle);
  }

  function ReportLines(cmds: map<int, int>, keys: seq<int>): (lines: seq<string>)
    requires forall i :: 0 <= i < |keys| ==> keys[i] in cmds
    ensures |lines| == |keys|
    ensures forall i :: 0 <= i < |keys| ==> lines[i] == ReportLine(keys[i], cmds[keys[i]])
    ensures forall i :: 0 <= i < |keys| ==> '\n' !in lines[i]
  {
    seq(|keys|, i requires 0 <= i < |keys| => ReportLine(keys[i], cmds[keys[i]]))
  }

  /** format_servo_commands: one line per channel, in ascending channel
      order, joined with newlines. */
  function FormatServoCommands(cmds: map<int, int>): (text: string)
    ensures |cmds| == 0 <==> text == ""
  {
    var keys := Sorted(cmds.Keys);
    var lines := ReportLines(cmds, keys);
    if |lines| == 0 then ""
    else
      JoinLength(lines, "\n");
      Join(lines, "\n")
  }

  /** A join is at least as long as its first piece. */
  lemma JoinLength(pieces: seq<string>, sep: string)
    requires |pieces| > 0
    ensures |Join(pieces, sep)| >= |pieces[0]|
  {
  }

  /** Reading the report back: splitting it at newlines gives exactly the
      report lines, one per command, in ascending channel order. */
  lemma FormatReadsBack(cmds: map<int, int>)
    requires |cmds| > 0
    ensures Split(FormatServoCommands(cmds), '\n') == ReportLines(cmds, Sorted(cmds.Keys))
  {
    var keys := Sorted(cmds.Keys);
    assert |keys| == |cmds| > 0 && forall i :: 0 <= i < |keys| ==> keys[i] in cmds;
    var lines := ReportLines(cmds, keys);
    assert FormatServoCommands(cmds) == Join(lines, "\n");
    SplitJoin(lines, '\n');
  }

  /** Line i of the report reads back as the i-th smallest channel and its
      angle; with FormatReadsBack, the report loses no command. */
  lemma FormatRecoversCommands(cmds: map<int, int>, i: nat)
    requires i < |cmds|
    ensures var lines := Split(FormatServoCommands(cmds), '\n');
            var keys := Sorted(cmds.Keys);
            i < |lines| && ParseReportLine(lines[i]) == Some((keys[i], cmds[keys[i]]))
  {
    FormatReadsBack(cmds);
    var keys := Sorted(cmds.Keys);
    ReportLineRoundTrip(keys[i], cmds[keys[i]]);
  }
}
