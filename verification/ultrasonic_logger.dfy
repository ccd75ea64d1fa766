/** The high-rate ultrasonic sensor logger (tests/test_ultrasonic.py,
    UltrasonicDataLogger): parsing of the board's "D:<cm>,T:<ms>,N:<seq>"
    lines, the valid/error tallies, sequence-gap loss accounting and the
    measured sample rate. The wall clock is a parameter; the CSV file and the
    console output are outside the model. */
module UltrasonicLog {

  import opened Wrappers
  import opened Text

  // ----- parse_data -----

  /** A "key:value" segment split at its first ':'; None for a segment
      without ':', which parse_data skips. */
  function Segment(part: string): (r: Option<(string, string)>)
    ensures r.Some? <==> ':' in part
    ensures r.Some? ==> ':' !in r.value.0 && part == r.value.0 + [':'] + r.value.1
  {
    if ':' in part then Some(SplitOnce(part, ':')) else None
  }

  function Segments(parts: seq<string>): (r: seq<Option<(string, string)>>)
    ensures |r| == |parts|
    ensures forall i :: 0 <= i < |parts| ==> r[i] == Segment(parts[i])
  {
    seq(|parts|, i requires 0 <= i < |parts| => Segment(parts[i]))
  }

  /** segs[i] is the last segment that carries key k. */
  predicate LastWithKey(segs: seq<Option<(string, string)>>, k: string, i: int) {
    0 <= i < |segs| && segs[i].Some? && segs[i].value.0 == k &&
    forall j :: i < j < |segs| && segs[j].Some? ==> segs[j].value.0 != k
  }

  /** The key/value dictionary built from the segments in order: skipped
      segments add nothing and a later segment overwrites an earlier one with
      the same key. */
  function Fields(segs: seq<Option<(string, string)>>): (m: map<string, string>)
    ensures forall k :: k in m ==> exists i :: LastWithKey(segs, k, i) && m[k] == segs[i].value.1
    ensures forall i :: 0 <= i < |segs| && segs[i].Some? ==> segs[i].value.0 in m
    decreases |segs|
  {
    if |segs| == 0 then map[]
    else
      var init := segs[..|segs| - 1];
      var last := segs[|segs| - 1];
      var m := Fields(init);
      assert forall i :: 0 <= i < |init| ==> segs[i] == init[i];
      if last.Some? then
        var r := m[last.value.0 := last.value.1];
        assert LastWithKey(segs, last.value.0, |segs| - 1);
        forall k | k in m && k != last.value.0
          ensures exists i :: LastWithKey(segs, k, i) && r[k] == segs[i].value.1
        {
          var i :| LastWithKey(init, k, i) && m[k] == init[i].value.1;
          assert LastWithKey(segs, k, i);
        }
        r
      else
        forall k | k in m ensures exists i :: LastWithKey(segs, k, i) && m[k] == segs[i].value.1 {
          var i :| LastWithKey(init, k, i) && m[k] == init[i].value.1;
          assert LastWithKey(segs, k, i);
        }
        m
  }

  /** The dictionary parse_data builds from a line. */
  function LineFields(line: string): map<string, string> {
    Fields(Segments(Split(line, ',')))
  }

  /** Python's float() and int(), which ignore surrounding whitespace. */
  function FloatOf(s: string): Option<real> {
    ParseDecimal(StripNumber(s))
  }

  function IntOf(s: string): Option<int> {
    ParseInt(StripNumber(s))
  }

  /** One decoded sample: distance in cm, the board's clock in ms and its
      sequence number. */
  datatype Sample = Sample(distance: real, arduinoTime: int, sequence: int)

  /** The conversions of parse_data on the dictionary: the sample when a
      "D" field is present and every field used converts; T and N default to
      0 when absent. */
  function FromFields(f: map<string, string>): (r: Option<Sample>)
    ensures r.Some? <==>
              "D" in f && FloatOf(f["D"]).Some? &&
              ("T" in f ==> IntOf(f["T"]).Some?) && ("N" in f ==> IntOf(f["N"]).Some?)
    ensures r.Some? ==>
              Some(r.value.distance) == FloatOf(f["D"]) &&
              r.value.arduinoTime == (if "T" in f then IntOf(f["T"]).value else 0) &&
              r.value.sequence == (if "N" in f then IntOf(f["N"]).value else 0)
  {
    if "D" !in f then None
    else
      var d := FloatOf(f["D"]);
      var t := if "T" in f then IntOf(f["T"]) else Some(0);
      var n := if "N" in f then IntOf(f["N"]) else Some(0);
      if d.Some? && t.Some? && n.Some? then Some(Sample(d.value, t.value, n.value)) else None
  }

  /** parse_data. None stands for the (None, None, None) the source returns
      on a missing D field or a conversion error. */
  function ParseData(line: string): (r: Option<Sample>)
    ensures (forall i :: 0 <= i < |Segments(Split(line, ','))| ==>
               Segments(Split(line, ','))[i].None? || Segments(Split(line, ','))[i].value.0 != "D") ==>
            r.None?
    ensures r.Some? ==>
              exists i :: LastWithKey(Segments(Split(line, ',')), "D", i) &&
                          FloatOf(Segments(Split(line, ','))[i].value.1) == Some(r.value.distance)
  {
    FromFields(LineFields(line))
  }

  /** A board data line from the printed texts of its three fields. */
  function BoardLine(dText: string, tText: string, nText: string): string {
    "D:" + dText + ",T:" + tText + ",N:" + nText
  }

  /** The board's line for a sample whose distance is printed as dText. */
  function SampleLine(dText: string, arduinoTime: int, sequence: int): string {
    BoardLine(dText, IntToString(arduinoTime), IntToString(sequence))
  }

  /** A segment k + ":" + v splits into k and v when k holds no ':'. */
  lemma SegmentOf(k: string, v: string)
    requires ':' !in k
    ensures Segment(k + ":" + v) == Some((k, v))
  {
    assert k + ":" + v == k + [':'] + v;
    assert (k + ":" + v)[|k|] == ':';
    SplitOnceFirst(k, ':', v);
  }

  /** A segment appended at the end sets its key, whatever came before. */
  lemma FieldsSnoc(segs: seq<Option<(string, string)>>, k: string, v: string)
    ensures Fields(segs + [Some((k, v))]) == Fields(segs)[k := v]
  {
    assert (segs + [Some((k, v))])[..|segs|] == segs;
  }

  /** The three pieces of a board line split into their keys and texts. */
  lemma BoardSegments(a: string, b: string, c: string)
    ensures Segments(["D:" + a, "T:" + b, "N:" + c]) == [Some(("D", a)), Some(("T", b)), Some(("N", c))]
  {
    assert "D:" + a == "D" + ":" + a && "T:" + b == "T" + ":" + b && "N:" + c == "N" + ":" + c;
    SegmentOf("D", a);
    SegmentOf("T", b);
    SegmentOf("N", c);
  }

  /** Three segments become their keys' fields, a later key overwriting an
      earlier one. */
  lemma {:induction false} ThreeFields(k1: string, v1: string, k2: string, v2: string, k3: string, v3: string)
    ensures Fields([Some((k1, v1)), Some((k2, v2)), Some((k3, v3))]) == map[k1 := v1, k2 := v2, k3 := v3]
  {
    var x, y, z := Some((k1, v1)), Some((k2, v2)), Some((k3, v3));
    assert Fields([x]) == map[k1 := v1] by {
      FieldsSnoc([], k1, v1);
      assert [] + [x] == [x];
    }
    assert Fields([x, y]) == map[k1 := v1, k2 := v2] by {
      FieldsSnoc([x], k2, v2);
      assert [x] + [y] == [x, y];
    }
    FieldsSnoc([x, y], k3, v3);
    assert [x, y] + [z] == [x, y, z];
  }

  /** A board line of comma-free texts splits at ',' into its three
      "key:text" pieces. */
  lemma BoardLinePieces(dText: string, tText: string, nText: string)
    requires ',' !in dText && ',' !in tText && ',' !in nText
    ensures Split(BoardLine(dText, tText, nText), ',') == ["D:" + dText, "T:" + tText, "N:" + nText]
  {
    var a, b, c := "D:" + dText, "T:" + tText, "N:" + nText;
    assert ',' !in a && ',' !in b && ',' !in c;
    assert BoardLine(dText, tText, nText) == a + [','] + b + [','] + c;
    SplitThree(a, b, c, ',');
  }

  /** A comma-free distance, clock and sequence text joined into a board
      line come back as the three fields. */
  lemma BoardLineFields(dText: string, tText: string, nText: string)
    requires ',' !in dText && ',' !in tText && ',' !in nText
    ensures LineFields(BoardLine(dText, tText, nText)) == map["D" := dText, "T" := tText, "N" := nText]
  {
    BoardLinePieces(dText, tText, nText);
    BoardSegments(dText, tText, nText);
    ThreeFields("D", dText, "T", tText, "N", nText);
  }

  /** The fields of a board line are its three printed texts. */
  lemma SampleLineFields(dText: string, arduinoTime: int, sequence: int)
    requires ',' !in dText
    ensures LineFields(SampleLine(dText, arduinoTime, sequence)) ==
            map["D" := dText, "T" := IntToString(arduinoTime), "N" := IntToString(sequence)]
  {
    IntToStringChars(arduinoTime, ',');
    IntToStringChars(sequence, ',');
    BoardLineFields(dText, IntToString(arduinoTime), IntToString(sequence));
  }

  /** str(i) has no surrounding whitespace. */
  lemma IntToStringStripped(i: int)
    ensures Strip(IntToString(i)) == IntToString(i) && StripNumber(IntToString(i)) == IntToString(i)
  {
    var s := IntToString(i);
    if i < 0 {
      assert s[|s| - 1] == s[1..][|s| - 2];
    }
    StripNoSpace(s);
  }

  /** int(str(i)) == i. */
  lemma IntOfIntToString(i: int)
    ensures IntOf(IntToString(i)) == Some(i)
  {
    IntToStringStripped(i);
    IntToStringParses(i);
  }

  /** Three fields that convert give the sample they denote. */
  lemma FromThreeFields(dText: string, tText: string, nText: string, d: real, t: int, n: int)
    requires FloatOf(dText) == Some(d) && IntOf(tText) == Some(t) && IntOf(nText) == Some(n)
    ensures FromFields(map["D" := dText, "T" := tText, "N" := nText]) == Some(Sample(d, t, n))
  {
  }

  /** A board line built from a distance text that float() reads, a clock
      reading and a sequence number parses back into exactly that sample. */
  lemma SampleLineRoundTrip(dText: string, d: real, arduinoTime: int, sequence: int)
    requires ',' !in dText && FloatOf(dText) == Some(d)
    ensures ParseData(SampleLine(dText, arduinoTime, sequence)) == Some(Sample(d, arduinoTime, sequence))
  {
    SampleLineFields(dText, arduinoTime, sequence);
    IntOfIntToString(arduinoTime);
    IntOfIntToString(sequence);
    FromThreeFields(dText, IntToString(arduinoTime), IntToString(sequence), d, arduinoTime, sequence);
  }

  // ----- log_measurement -----

  /** The logger's counters and buffers. */
  datatype Logger = Logger(
    distances: seq<real>,
    timestamps: seq<real>,
    validCount: nat,
    errorCount: nat,
    lastSequence: Option<int>,
    lostPackets: int,
    measurementTimes: seq<real>)

  /** measurement_times is a deque holding at most this many entries. */
  const RATE_WINDOW: nat := 10

  const NEW_LOGGER: Logger := Logger([], [], 0, 0, None, 0, [])

  /** The logger's standing invariant: one distance and one timestamp per
      valid reading, and the rate window within its bound. */
  predicate Good(l: Logger) {
    |l.distances| == |l.timestamps| == l.validCount && |l.measurementTimes| <= RATE_WINDOW
  }

  /** A reading the logger keeps: within the sensor's 2-400 cm range. */
  predicate InSensorRange(d: real) {
    2.0 <= d <= 400.0
  }

  /** deque(maxlen=10).append: the new entry goes last and the oldest one
      falls out once the window is full. */
  function PushWindow(window: seq<real>, t: real): (r: seq<real>)
    requires |window| <= RATE_WINDOW
    ensures |r| == if |window| < RATE_WINDOW then |window| + 1 else RATE_WINDOW
    ensures r[|r| - 1] == t
    ensures forall i :: 0 <= i < |r| - 1 ==> r[i] == window[|window| - |r| + 1 + i]
  {
    if |window| < RATE_WINDOW then window + [t] else window[1..] + [t]
  }

  /** log_measurement at wall-clock time `now`. The gap since the previous
      sequence number is added to the loss count (a backwards jump adds a
      negative amount); the reading counts as valid or as an error. */
  function LogMeasurement(l: Logger, now: real, s: Sample): (r: Logger)
    requires Good(l)
    ensures Good(r)
    ensures r.validCount + r.errorCount == l.validCount + l.errorCount + 1
    ensures r.validCount == l.validCount + 1 <==> InSensorRange(s.distance)
    ensures InSensorRange(s.distance) ==>
              r.distances == l.distances + [s.distance] && r.timestamps == l.timestamps + [now]
    ensures !InSensorRange(s.distance) ==>
              r.distances == l.distances && r.timestamps == l.timestamps && r.errorCount == l.errorCount + 1
    ensures r.lastSequence == Some(s.sequence)
    ensures l.lastSequence.None? ==> r.lostPackets == l.lostPackets
    ensures l.lastSequence.Some? ==> r.lostPackets - l.lostPackets == s.sequence - l.lastSequence.value - 1
    ensures r.measurementTimes == PushWindow(l.measurementTimes, now)
  {
    var times := PushWindow(l.measurementTimes, now);
    var lost :=
      if l.lastSequence.Some? && s.sequence != l.lastSequence.value + 1
      then l.lostPackets + (s.sequence - l.lastSequence.value - 1)
      else l.lostPackets;
    var l' := l.(measurementTimes := times, lostPackets := lost, lastSequence := Some(s.sequence));
    if s.distance > 0.0 && InSensorRange(s.distance) then
      l'.(validCount := l.validCount + 1, distances := l.distances + [s.distance],
          timestamps := l.timestamps + [now])
    else
      l'.(errorCount := l.errorCount + 1)
  }

  /** A timed sample as the loop hands it to log_measurement. */
  datatype Timed = Timed(now: real, sample: Sample)

  /** Logging a run of samples in order. */
  function LogAll(l: Logger, run: seq<Timed>): (r: Logger)
    requires Good(l)
    ensures Good(r)
    decreases |run|
  {
    if |run| == 0 then l
    else LogMeasurement(LogAll(l, run[..|run| - 1]), run[|run| - 1].now, run[|run| - 1].sample)
  }

  function CountInRange(run: seq<Timed>): nat {
    if |run| == 0 then 0
    else CountInRange(run[..|run| - 1]) + (if InSensorRange(run[|run| - 1].sample.distance) then 1 else 0)
  }

  /** Over a run from a fresh logger, the losses telescope: they are the
      distance between the first and last sequence numbers minus the
      samples in between that arrived. */
  lemma {:induction false} LostPacketsTelescope(run: seq<Timed>)
    requires |run| > 0
    ensures LogAll(NEW_LOGGER, run).lastSequence == Some(run[|run| - 1].sample.sequence)
    ensures LogAll(NEW_LOGGER, run).lostPackets ==
            run[|run| - 1].sample.sequence - run[0].sample.sequence - (|run| - 1)
  {
    if |run| > 1 {
      var init := run[..|run| - 1];
      LostPacketsTelescope(init);
      assert init[0] == run[0];
    }
  }

  /** Over a run from a fresh logger every sample is counted once, and the
      valid ones are exactly the in-range ones, each kept in order. */
  lemma {:induction false} CountsOverRun(run: seq<Timed>)
    ensures LogAll(NEW_LOGGER, run).validCount + LogAll(NEW_LOGGER, run).errorCount == |run|
    ensures LogAll(NEW_LOGGER, run).validCount == CountInRange(run)
    ensures |LogAll(NEW_LOGGER, run).distances| == CountInRange(run)
  {
    if |run| > 0 {
      CountsOverRun(run[..|run| - 1]);
    }
  }

  // ----- rates -----

  /** get_measurement_rate: intervals per second over the window; 0 with
      fewer than two entries or a zero span. */
  function GetMeasurementRate(l: Logger): (rate: real)
    ensures |l.measurementTimes| < 2 ==> rate == 0.0
    ensures |l.measurementTimes| >= 2 ==>
              var span := l.measurementTimes[|l.measurementTimes| - 1] - l.measurementTimes[0];
              (span == 0.0 ==> rate == 0.0) &&
              (span != 0.0 ==> rate * span == (|l.measurementTimes| - 1) as real) &&
              (span > 0.0 ==> rate > 0.0)
  {
    var n := |l.measurementTimes|;
    if n < 2 then 0.0
    else
      var span := l.measurementTimes[n - 1] - l.measurementTimes[0];
      if span == 0.0 then 0.0 else (n - 1) as real / span
  }

  /** Times spaced `gap` apart span (count - 1) gaps. */
  lemma {:induction false} SteadySpan(times: seq<real>, gap: real)
    requires |times| >= 1
    requires forall i :: 0 < i < |times| ==> times[i] - times[i - 1] == gap
    ensures times[|times| - 1] - times[0] == (|times| - 1) as real * gap
  {
    if |times| > 1 {
      var init := times[..|times| - 1];
      SteadySpan(init, gap);
      assert init[|init| - 1] == times[|times| - 2];
    }
  }

  /** A window of measurements arriving every `gap` seconds reports a rate
      of one per gap. */
  lemma SteadyRate(l: Logger, gap: real)
    requires |l.measurementTimes| >= 2 && gap > 0.0
    requires forall i :: 0 < i < |l.measurementTimes| ==>
               l.measurementTimes[i] - l.measurementTimes[i - 1] == gap
    ensures GetMeasurementRate(l) == 1.0 / gap
  {
    SteadySpan(l.measurementTimes, gap);
  }

  /** The success percentage print_statistics shows; None when nothing has
      been logged, where the division raises. */
  function SuccessRate(l: Logger): (r: Option<real>)
    ensures r.None? <==> l.validCount + l.errorCount == 0
    ensures r.Some? ==> 0.0 <= r.value <= 100.0
    ensures r.Some? ==> r.value * (l.validCount + l.errorCount) as real == 100.0 * l.validCount as real
  {
    var total := l.validCount + l.errorCount;
    if total == 0 then None
    else Some(l.validCount as real / total as real * 100.0)
  }

  // ----- the read loop -----

  /** One line of the read loop: the received line is stripped, only lines
      then starting with "D:" are parsed, and only a successfully parsed
      sample is logged. */
  function ProcessLine(l: Logger, now: real, received: string): (r: Logger)
    requires Good(l)
    ensures Good(r)
    ensures !StartsWith(Strip(received), "D:") || ParseData(Strip(received)).None? ==> r == l
    ensures StartsWith(Strip(received), "D:") && ParseData(Strip(received)).Some? ==>
              r.validCount + r.errorCount == l.validCount + l.errorCount + 1
  {
    var line := Strip(received);
    if StartsWith(line, "D:") then
      match ParseData(line)
      case Some(s) => LogMeasurement(l, now, s)
      case None => l
    else l
  }

  /** A received line whose strip is a data line that parses is logged as
      its sample. */
  lemma ProcessParsedLine(l: Logger, now: real, received: string, s: Sample)
    requires Good(l) && StartsWith(Strip(received), "D:") && ParseData(Strip(received)) == Some(s)
    ensures ProcessLine(l, now, received) == LogMeasurement(l, now, s)
  {
  }

  /** A board line starts with 'D' and ends in a digit, so strip keeps it
      whole. */
  lemma SampleLineStripped(dText: string, arduinoTime: int, sequence: int)
    ensures Strip(SampleLine(dText, arduinoTime, sequence)) == SampleLine(dText, arduinoTime, sequence)
  {
    var s := SampleLine(dText, arduinoTime, sequence);
    var n := IntToString(sequence);
    if sequence < 0 {
      assert n[|n| - 1] == n[1..][|n| - 2];
    }
    assert s[|s| - 1] == n[|n| - 1];
    assert s[0] == 'D';
    StripNoSpace(s);
  }

  /** Every board line is a data line. */
  lemma BoardLinePrefix(dText: string, tText: string, nText: string)
    ensures StartsWith(BoardLine(dText, tText, nText), "D:")
  {
    assert BoardLine(dText, tText, nText)[..2] == "D:";
  }

  /** A well-formed board line is logged as the sample it carries. */
  lemma ProcessSampleLine(l: Logger, now: real, dText: string, d: real, arduinoTime: int, sequence: int)
    requires Good(l) && ',' !in dText && FloatOf(dText) == Some(d)
    ensures ProcessLine(l, now, SampleLine(dText, arduinoTime, sequence)) ==
            LogMeasurement(l, now, Sample(d, arduinoTime, sequence))
  {
    SampleLineRoundTrip(dText, d, arduinoTime, sequence);
    SampleLineStripped(dText, arduinoTime, sequence);
    BoardLinePrefix(dText, IntToString(arduinoTime), IntToString(sequence));
    ProcessParsedLine(l, now, SampleLine(dText, arduinoTime, sequence), Sample(d, arduinoTime, sequence));
  }
}
