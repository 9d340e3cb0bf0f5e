/** The first loop of `process()`. Every line after the reference line is
    blank, a header (`<type> <name>`) that selects the current sensor, or a
    reading (`<timestamp> <value>`) appended to the current sensor's list when
    that sensor was accepted. Rejected headers may add their message to the
    report. The loop is modelled in two layers: what a line is, judged on its
    own, and the fold of those judgements over the log. */
module Accumulator {
  import opened Results
  import opened Text
  import opened Assoc
  import opened Timestamp
  import opened Sensors
  import opened Decimal
  import opened Seqs

  /** One line, judged on its own. The sensor check and `float` are
      evaluated here, but the loop only looks at them where the source
      evaluates them: a reading's value matters only under a supported
      sensor. */
  datatype Line =
    | Blank
      /** A header with a name: the lower-cased name and the verdict of
          `isSensorTypeAndNameSupported` on the lower-cased tokens. */
    | Header(name: string, check: Check)
      /** A header with a single token: `sLine[1]` raises. */
    | NamelessHeader(text: string)
      /** A reading: `float(sLine[1])`, or the failure computing it raises
          (`sLine[1]` for a single token, `float` for a bad number). */
    | Reading(value: Result<real>)

  /** The blank test `re.match(r'^\s*$', line)`, then `line.split()` and
      `isHeader` on the first token. */
  function Classify(line: string): Line {
    var ws := Words(line);
    if |ws| == 0 then Blank
    else if IsHeader(ws[0]) then
      if |ws| < 2 then NamelessHeader(line)
      else Header(Lower(ws[1]), CheckSensor(Lower(ws[0]), Lower(ws[1])))
    else if |ws| < 2 then Reading(Err(ReadingWithoutValue(line)))
    else Reading(Float(ws[1]))
  }

  /** Every line of a log, classified on its own. */
  function Classified(lines: seq<string>): (ls: seq<Line>)
    ensures |ls| == |lines|
  {
    MapSeq(Classify, lines)
  }

  lemma ClassifiedAt(lines: seq<string>, i: nat)
    requires i < |lines|
    ensures Classified(lines)[i] == Classify(lines[i])
  {
    MapSeqAt(Classify, lines, i);
  }

  /** `current_sensor_name` together with `isSensorSupported`. Before the
      first header there is no current sensor and nothing is supported. */
  datatype Cursor = NoSensor | Sensor(name: string, supported: bool)

  /** The loop's variables: the cursor, `dict_data` (a `defaultdict(list)`)
      and the rejected-header part of `dict_final_output`. */
  datatype State = State(cursor: Cursor, readings: seq<(string, seq<real>)>, report: seq<(string, string)>)

  const Start: State := State(NoSensor, [], [])

  predicate Supported(c: Cursor) {
    c.Sensor? && c.supported
  }

  /** A name a supported sensor can carry. */
  predicate SensorName(name: string) {
    StartsWith(name, ThermometerPrefix) || StartsWith(name, HumidityPrefix)
  }

  /** `dict_data[name]` of a `defaultdict(list)`: an absent key reads as the
      empty list. */
  function ReadingsOf(m: seq<(string, seq<real>)>, name: string): seq<real> {
    match Lookup(m, name)
    case Some(vs) => vs
    case None => []
  }

  /** The cursor a named header selects. */
  function HeaderCursor(name: string, check: Check): Cursor {
    Sensor(name, check.Accepted?)
  }

  /** One pass of the loop body. */
  function Step(st: State, line: Line, displayErrors: bool): Result<State> {
    match line
    case Blank => Ok(st)
    case NamelessHeader(text) => Err(HeaderWithoutName(text))
    case Header(name, check) =>
      if check.Rejected? && displayErrors then
        Ok(State(HeaderCursor(name, check), st.readings, Put(st.report, name, check.message)))
      else Ok(st.(cursor := HeaderCursor(name, check)))
    case Reading(value) =>
      if Supported(st.cursor) then
        var v :- value;
        var name := st.cursor.name;
        Ok(st.(readings := Put(st.readings, name, ReadingsOf(st.readings, name) + [v])))
      else Ok(st)
  }

  /** The loop over the classified lines; the first failing line aborts. */
  function Accumulate(lines: seq<Line>, displayErrors: bool): Result<State>
    decreases |lines|
  {
    if |lines| == 0 then Ok(Start)
    else
      var st :- Accumulate(lines[..|lines| - 1], displayErrors);
      Step(st, lines[|lines| - 1], displayErrors)
  }

  lemma AccumulateSnoc(lines: seq<Line>, displayErrors: bool)
    requires |lines| > 0
    ensures var prefix := Accumulate(lines[..|lines| - 1], displayErrors);
            Accumulate(lines, displayErrors) ==
              if prefix.Ok? then Step(prefix.value, lines[|lines| - 1], displayErrors) else Err(prefix.error)
  {
  }

  // ---------------------------------------------------------------------
  // What a line is.

  /** `line.split()` is empty exactly for the lines `^\s*$` matches, so the
      blank test and the split agree on what to skip. */
  lemma ClassifyBlank(line: string)
    ensures Classify(line) == Blank <==> IsBlank(line)
  {
    BlankIffNoWords(line);
  }

  /** A header line `<type> <name>` is read back as the lower-cased name
      with the check of the lower-cased tokens. */
  lemma ClassifyHeaderLine(sensorType: string, name: string)
    requires |sensorType| > 0 && SpaceFree(sensorType) && |name| > 0 && SpaceFree(name)
    requires IsHeader(sensorType)
    ensures Classify(sensorType + " " + name) ==
              Header(Lower(name), CheckSensor(Lower(sensorType), Lower(name)))
  {
    TwoWords(sensorType, name);
  }

  /** A reading line `<timestamp> <value>` is read back as `float(value)`. */
  lemma ClassifyReadingLine(timestamp: string, value: string)
    requires |timestamp| > 0 && SpaceFree(timestamp) && |value| > 0 && SpaceFree(value)
    requires !IsHeader(timestamp)
    ensures Classify(timestamp + " " + value) == Reading(Float(value))
  {
    TwoWords(timestamp, value);
  }

  lemma TwoWords(a: string, b: string)
    requires |a| > 0 && SpaceFree(a) && |b| > 0 && SpaceFree(b)
    ensures Words(a + " " + b) == [a, b]
  {
    var ws := [a, b];
    assert ws[1..] == [b];
    assert Join(ws, ' ') == a + " " + b;
    WordsOfJoin(ws);
  }

  /** What classification guarantees of a line: an accepted header names a
      sensor. */
  predicate WellFormed(l: Line) {
    l.Header? && l.check.Accepted? ==> SensorName(l.name)
  }

  lemma ClassifyWellFormed(line: string)
    ensures WellFormed(Classify(line))
  {
    var ws := Words(line);
    if |ws| >= 2 && IsHeader(ws[0]) {
      CheckSensorSpec(Lower(ws[0]), Lower(ws[1]));
    }
  }

  lemma ClassifiedWellFormed(lines: seq<string>)
    ensures forall i :: 0 <= i < |lines| ==> WellFormed(Classified(lines)[i])
  {
    forall i | 0 <= i < |lines|
      ensures WellFormed(Classified(lines)[i])
    {
      ClassifiedAt(lines, i);
      ClassifyWellFormed(lines[i]);
    }
  }

  /** Classifying a log line by line commutes with joining logs. */
  lemma ClassifiedAppend(a: seq<string>, b: seq<string>)
    ensures Classified(a + b) == Classified(a) + Classified(b)
  {
    MapSeqAppend(Classify, a, b);
  }

  // ---------------------------------------------------------------------
  // What the loop keeps true.

  /** Only a sensor name is ever current and supported, `dict_data` only
      ever holds non-empty lists under sensor names, and both dictionaries
      have distinct keys. */
  predicate Valid(st: State) {
    && (Supported(st.cursor) ==> SensorName(st.cursor.name))
    && Distinct(Keys(st.readings))
    && Distinct(Keys(st.report))
    && (forall i :: 0 <= i < |st.readings| ==> SensorName(st.readings[i].0) && |st.readings[i].1| > 0)
  }

  /** Lists only grow: a pass adds keys only at the end of either
      dictionary and values only at the end of a sensor's list. */
  lemma StepGrows(st: State, line: Line, displayErrors: bool)
    requires Step(st, line, displayErrors).Ok?
    ensures var r := Step(st, line, displayErrors).value;
            && Keys(st.readings) <= Keys(r.readings)
            && Keys(st.report) <= Keys(r.report)
            && forall k :: k in Keys(st.readings) ==> ReadingsOf(st.readings, k) <= ReadingsOf(r.readings, k)
  {
    match line
    case Header(name, check) =>
      if check.Rejected? && displayErrors {
        PutExtendsKeys(st.report, name, check.message);
      }
    case Reading(value) =>
      if Supported(st.cursor) {
        var name := st.cursor.name;
        var vs := ReadingsOf(st.readings, name) + [value.value];
        PutExtendsKeys(st.readings, name, vs);
        assert ReadingsOf(st.readings, name) <= vs;
      }
    case _ =>
  }

  lemma PutExtendsKeys<V>(m: seq<(string, V)>, k: string, v: V)
    ensures Keys(m) <= Keys(Put(m, k, v))
  {
    assert (Keys(m) + [k])[..|Keys(m)|] == Keys(m);
  }

  /** Each pass over a well-formed line keeps the invariant. */
  lemma StepKeepsValid(st: State, line: Line, displayErrors: bool)
    requires Valid(st) && WellFormed(line) && Step(st, line, displayErrors).Ok?
    ensures Valid(Step(st, line, displayErrors).value)
  {
    match line
    case Header(name, check) =>
      if check.Rejected? && displayErrors {
        PutKeepsKeysDistinct(st.report, name, check.message);
      }
    case Reading(value) =>
      if Supported(st.cursor) {
        var name := st.cursor.name;
        var vs := ReadingsOf(st.readings, name) + [value.value];
        PutKeepsKeysDistinct(st.readings, name, vs);
        PutKeepsSensorNames(st.readings, name, vs);
      }
    case _ =>
  }

  /** Every successful run over well-formed lines ends in a state that
      satisfies the invariant. */
  lemma {:induction false} AccumulateValid(lines: seq<Line>, displayErrors: bool)
    requires forall i :: 0 <= i < |lines| ==> WellFormed(lines[i])
    requires Accumulate(lines, displayErrors).Ok?
    ensures Valid(Accumulate(lines, displayErrors).value)
    decreases |lines|
  {
    if |lines| > 0 {
      var prefix := lines[..|lines| - 1];
      AccumulateSnoc(lines, displayErrors);
      AccumulateValid(prefix, displayErrors);
      StepKeepsValid(Accumulate(prefix, displayErrors).value, lines[|lines| - 1], displayErrors);
    }
  }

  lemma {:induction false} PutKeepsSensorNames(m: seq<(string, seq<real>)>, k: string, v: seq<real>)
    requires SensorName(k) && |v| > 0
    requires forall i :: 0 <= i < |m| ==> SensorName(m[i].0) && |m[i].1| > 0
    ensures forall i :: 0 <= i < |Put(m, k, v)| ==> SensorName(Put(m, k, v)[i].0) && |Put(m, k, v)[i].1| > 0
    decreases |m|
  {
    if |m| > 0 && m[0].0 != k {
      PutKeepsSensorNames(m[1..], k, v);
      assert Put(m, k, v) == [m[0]] + Put(m[1..], k, v);
    }
  }

  // ---------------------------------------------------------------------
  // Reference definitions, each stated over the whole list of lines.

  /** The current sensor after `lines`: the one selected by the most recent
      named header, whatever readings follow it. */
  function CursorOf(lines: seq<Line>): Cursor
    decreases |lines|
  {
    if |lines| == 0 then NoSensor
    else
      match lines[|lines| - 1]
      case Header(name, check) => HeaderCursor(name, check)
      case _ => CursorOf(lines[..|lines| - 1])
  }

  /** The `(sensor, value)` pairs contributed by the readings of `lines`, in
      document order: a reading counts when its most recent header was
      accepted. */
  function Contributions(lines: seq<Line>): seq<(string, real)>
    decreases |lines|
  {
    if |lines| == 0 then []
    else
      var prefix := lines[..|lines| - 1];
      var rest := Contributions(prefix);
      match lines[|lines| - 1]
      case Reading(Ok(v)) =>
        if Supported(CursorOf(prefix)) then rest + [(CursorOf(prefix).name, v)] else rest
      case _ => rest
  }

  /** The values contributed under `name`, in order. */
  function ValuesFor(cs: seq<(string, real)>, name: string): seq<real>
    decreases |cs|
  {
    if |cs| == 0 then []
    else
      var rest := ValuesFor(cs[..|cs| - 1], name);
      if cs[|cs| - 1].0 == name then rest + [cs[|cs| - 1].1] else rest
  }

  /** The `(name, message)` pair of every rejected header, in order. */
  function RejectedHeaders(lines: seq<Line>): seq<(string, string)>
    decreases |lines|
  {
    if |lines| == 0 then []
    else
      var rest := RejectedHeaders(lines[..|lines| - 1]);
      match lines[|lines| - 1]
      case Header(name, Rejected(msg)) => rest + [(name, msg)]
      case _ => rest
  }

  /** The line after `prefix` raises: a header without a name, or a reading
      under a supported sensor without a value or with one `float()`
      refuses. */
  predicate LineFails(prefix: seq<Line>, line: Line) {
    line.NamelessHeader? || (line.Reading? && line.value.Err? && Supported(CursorOf(prefix)))
  }

  // ---------------------------------------------------------------------
  // The loop agrees with the reference definitions.

  lemma {:induction false} CursorFollowsLastHeader(lines: seq<Line>, displayErrors: bool)
    requires Accumulate(lines, displayErrors).Ok?
    ensures Accumulate(lines, displayErrors).value.cursor == CursorOf(lines)
    decreases |lines|
  {
    if |lines| > 0 {
      AccumulateSnoc(lines, displayErrors);
      CursorFollowsLastHeader(lines[..|lines| - 1], displayErrors);
    }
  }

  /** The first failure aborts the run: once a prefix of the lines has
      failed, the whole run fails with that failure. */
  lemma {:induction false} FailureAborts(lines: seq<Line>, j: nat, displayErrors: bool)
    requires j <= |lines| && Accumulate(lines[..j], displayErrors).Err?
    ensures Accumulate(lines, displayErrors) == Accumulate(lines[..j], displayErrors)
    decreases |lines| - j
  {
    if j < |lines| {
      assert lines[..j + 1][..j] == lines[..j];
      AccumulateSnoc(lines[..j + 1], displayErrors);
      FailureAborts(lines, j + 1, displayErrors);
    } else {
      assert lines[..j] == lines;
    }
  }

  /** No line of `lines` fails after the lines before it. */
  predicate NoLineFails(lines: seq<Line>) {
    forall i :: 0 <= i < |lines| ==> !LineFails(lines[..i], lines[i])
  }

  /** The run succeeds exactly when no line fails. */
  lemma {:induction false} SucceedsIffNoLineFails(lines: seq<Line>, displayErrors: bool)
    ensures Accumulate(lines, displayErrors).Ok? <==> NoLineFails(lines)
    decreases |lines|
  {
    if |lines| > 0 {
      var n := |lines| - 1;
      var prefix := lines[..n];
      SucceedsIffNoLineFails(prefix, displayErrors);
      AccumulateSnoc(lines, displayErrors);
      assert forall i :: 0 <= i < n ==> prefix[..i] == lines[..i] && prefix[i] == lines[i];
      if Accumulate(prefix, displayErrors).Ok? {
        CursorFollowsLastHeader(prefix, displayErrors);
      }
    }
  }

  /** `dict_data` after the loop: its keys are the sensors in order of their
      first contributed reading, and each holds exactly the values
      contributed under its name, in document order, across every header
      that named it. */
  lemma ReadingsAreContributions(lines: seq<Line>, displayErrors: bool)
    requires Accumulate(lines, displayErrors).Ok?
    ensures Keys(Accumulate(lines, displayErrors).value.readings) == Dedup(Keys(Contributions(lines)))
    ensures forall name :: ReadingsOf(Accumulate(lines, displayErrors).value.readings, name) ==
                             ValuesFor(Contributions(lines), name)
  {
    ReadingKeys(lines, displayErrors);
    ReadingValues(lines, displayErrors);
  }

  lemma {:induction false} ReadingKeys(lines: seq<Line>, displayErrors: bool)
    requires Accumulate(lines, displayErrors).Ok?
    ensures Keys(Accumulate(lines, displayErrors).value.readings) == Dedup(Keys(Contributions(lines)))
    decreases |lines|
  {
    if |lines| > 0 {
      var prefix := lines[..|lines| - 1];
      ReadingsSnoc(lines, displayErrors);
      ReadingKeys(prefix, displayErrors);
      var cs := Contributions(lines);
      if cs != Contributions(prefix) {
        AppendReadingKeys(Accumulate(prefix, displayErrors).value.readings, Contributions(prefix), cs[|cs| - 1]);
      }
    }
  }

  lemma {:induction false} ReadingValues(lines: seq<Line>, displayErrors: bool)
    requires Accumulate(lines, displayErrors).Ok?
    ensures forall name :: ReadingsOf(Accumulate(lines, displayErrors).value.readings, name) ==
                             ValuesFor(Contributions(lines), name)
    decreases |lines|
  {
    if |lines| > 0 {
      var prefix := lines[..|lines| - 1];
      ReadingsSnoc(lines, displayErrors);
      ReadingValues(prefix, displayErrors);
      var cs := Contributions(lines);
      if cs != Contributions(prefix) {
        AppendReading(Accumulate(prefix, displayErrors).value.readings, Contributions(prefix), cs[|cs| - 1]);
      }
    }
  }

  /** One more line either leaves `dict_data` and the contributions alone,
      or appends one contributed value to both. */
  lemma ReadingsSnoc(lines: seq<Line>, displayErrors: bool)
    requires |lines| > 0 && Accumulate(lines, displayErrors).Ok?
    ensures Accumulate(lines[..|lines| - 1], displayErrors).Ok?
    ensures var prefix := lines[..|lines| - 1];
            var m := Accumulate(prefix, displayErrors).value.readings;
            var m2 := Accumulate(lines, displayErrors).value.readings;
            var cs := Contributions(lines);
            || (cs == Contributions(prefix) && m2 == m)
            || (&& |cs| > 0
                && cs == Contributions(prefix) + [cs[|cs| - 1]]
                && m2 == Put(m, cs[|cs| - 1].0, ReadingsOf(m, cs[|cs| - 1].0) + [cs[|cs| - 1].1]))
  {
    var prefix := lines[..|lines| - 1];
    AccumulateSnoc(lines, displayErrors);
    CursorFollowsLastHeader(prefix, displayErrors);
    StepReadings(Accumulate(prefix, displayErrors).value, lines, displayErrors);
  }

  /** One pass after the lines before the last either leaves `dict_data`
      alone and contributes nothing, or appends the one value it
      contributes. */
  lemma StepReadings(st: State, lines: seq<Line>, displayErrors: bool)
    requires |lines| > 0 && st.cursor == CursorOf(lines[..|lines| - 1])
    requires Step(st, lines[|lines| - 1], displayErrors).Ok?
    ensures var cs := Contributions(lines);
            var r := Step(st, lines[|lines| - 1], displayErrors).value.readings;
            || (cs == Contributions(lines[..|lines| - 1]) && r == st.readings)
            || (&& |cs| > 0
                && cs == Contributions(lines[..|lines| - 1]) + [cs[|cs| - 1]]
                && r == Put(st.readings, cs[|cs| - 1].0, ReadingsOf(st.readings, cs[|cs| - 1].0) + [cs[|cs| - 1].1]))
  {
    var prefix := lines[..|lines| - 1];
    match lines[|lines| - 1]
    case Reading(value) =>
      if Supported(st.cursor) {
        var x := (st.cursor.name, value.value);
        assert Contributions(lines) == Contributions(prefix) + [x];
      } else {
        assert Contributions(lines) == Contributions(prefix);
      }
    case NamelessHeader(_) =>
      assert false;
    case _ =>
      assert Contributions(lines) == Contributions(prefix);
  }

  lemma AppendReadingKeys(m: seq<(string, seq<real>)>, cs: seq<(string, real)>, x: (string, real))
    requires Keys(m) == Dedup(Keys(cs))
    ensures Keys(Put(m, x.0, ReadingsOf(m, x.0) + [x.1])) == Dedup(Keys(cs + [x]))
  {
    var cs2 := cs + [x];
    KeysLast(cs2);
    assert cs2[..|cs2| - 1] == cs;
    DedupSnoc(Keys(cs), x.0);
  }

  /** Appending one contributed reading to `dict_data` keeps it in step with
      the contributions. */
  lemma AppendReading(m: seq<(string, seq<real>)>, cs: seq<(string, real)>, x: (string, real))
    requires forall name :: ReadingsOf(m, name) == ValuesFor(cs, name)
    ensures forall name :: ReadingsOf(Put(m, x.0, ReadingsOf(m, x.0) + [x.1]), name) == ValuesFor(cs + [x], name)
  {
    var cs2 := cs + [x];
    var m2 := Put(m, x.0, ReadingsOf(m, x.0) + [x.1]);
    forall name
      ensures ReadingsOf(m2, name) == ValuesFor(cs2, name)
    {
      ValuesForSnoc(cs, x, name);
      if name != x.0 {
        assert Lookup(m2, name) == Lookup(m, name);
      }
    }
  }

  lemma ValuesForSnoc(cs: seq<(string, real)>, x: (string, real), name: string)
    ensures ValuesFor(cs + [x], name) == ValuesFor(cs, name) + if x.0 == name then [x.1] else []
  {
    assert (cs + [x])[..|cs|] == cs;
  }

  /** The report after the loop: empty unless errors are displayed, and
      then every rejected header assigned in order, so a name rejected
      twice keeps its first position and its last message. */
  lemma {:induction false} ReportIsRejectedHeaders(lines: seq<Line>, displayErrors: bool)
    requires Accumulate(lines, displayErrors).Ok?
    ensures Accumulate(lines, displayErrors).value.report ==
              if displayErrors then PutAll([], RejectedHeaders(lines)) else []
    decreases |lines|
  {
    if |lines| > 0 {
      var prefix := lines[..|lines| - 1];
      AccumulateSnoc(lines, displayErrors);
      ReportIsRejectedHeaders(prefix, displayErrors);
      match lines[|lines| - 1]
      case Header(name, Rejected(msg)) =>
        assert RejectedHeaders(lines) == RejectedHeaders(prefix) + [(name, msg)];
        PutAllSnoc([], RejectedHeaders(prefix), (name, msg));
      case NamelessHeader(_) =>
        assert false;
      case _ =>
        assert RejectedHeaders(lines) == RejectedHeaders(prefix);
    }
  }

  /** A blank line anywhere among the classified lines changes nothing. */
  lemma {:induction false} BlankIgnored(a: seq<Line>, c: seq<Line>, displayErrors: bool)
    ensures Accumulate(a + [Blank] + c, displayErrors) == Accumulate(a + c, displayErrors)
    decreases |c|
  {
    if |c| == 0 {
      assert a + [Blank] + c == a + [Blank];
      assert a + c == a;
      assert (a + [Blank])[..|a|] == a;
      AccumulateSnoc(a + [Blank], displayErrors);
    } else {
      var c' := c[..|c| - 1];
      BlankIgnored(a, c', displayErrors);
      assert (a + [Blank] + c)[..|a + [Blank] + c| - 1] == a + [Blank] + c';
      assert (a + c)[..|a + c| - 1] == a + c';
      AccumulateSnoc(a + [Blank] + c, displayErrors);
      AccumulateSnoc(a + c, displayErrors);
    }
  }

  /** A blank line anywhere in a log changes nothing. */
  lemma BlankLineIgnored(a: seq<string>, b: string, c: seq<string>, displayErrors: bool)
    requires IsBlank(b)
    ensures Accumulate(Classified(a + [b] + c), displayErrors) == Accumulate(Classified(a + c), displayErrors)
  {
    ClassifyBlank(b);
    ClassifiedAppend(a + [b], c);
    ClassifiedAppend(a, [b]);
    ClassifiedAppend(a, c);
    BlankIgnored(Classified(a), Classified(c), displayErrors);
  }
}
