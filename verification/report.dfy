/** The end of `process()`: every sensor that collected readings is
    classified against the reference line, and its verdict is assigned into
    the report after the rejected headers. */
module Report {
  import opened Results
  import opened Text
  import opened Assoc
  import opened Decimal
  import opened Timestamp
  import opened Sensors
  import opened Reference
  import opened Quality
  import opened Accumulator
  import opened Seqs

  /** The verdict on one sensor: `References.from_string(data[0])` is
      evaluated first, then `getQCResult` on the sensor's readings. */
  function Verdict(name: string, readings: seq<real>, refLine: string): Result<string> {
    var ref :- FromString(refLine);
    QCResult(name, readings, ref)
  }

  function VerdictOf(refLine: string): (string, seq<real>) -> Result<string> {
    (name: string, readings: seq<real>) => Verdict(name, readings, refLine)
  }

  /** `for sensor in dict_data: dict_final_output[sensor] =
      getQCResult(sensor, dict_data[sensor], References.from_string(data[0]))`:
      the reference line is parsed again for every sensor, before that
      sensor is classified, and the first failure aborts. */
  function Verdicts(report: seq<(string, string)>, entries: seq<(string, seq<real>)>, refLine: string): Result<seq<(string, string)>> {
    TryPutAll(report, entries, VerdictOf(refLine))
  }

  /** The report for a log given as its lines, the first being the
      reference line. An empty log yields an empty report. */
  function Process(lines: seq<string>, displayErrors: bool): Result<seq<(string, string)>> {
    if |lines| == 0 then Ok([])
    else
      var st :- Accumulate(Classified(lines[1..]), displayErrors);
      Verdicts(st.report, st.readings, lines[0])
  }

  /** The reference line is parsed only for a sensor with readings: with
      none it is never looked at, and with some a bad one aborts before any
      sensor is classified. */
  lemma ReferenceParsedOnlyWithReadings(report: seq<(string, string)>, entries: seq<(string, seq<real>)>, refLine: string)
    ensures |entries| == 0 ==> Verdicts(report, entries, refLine) == Ok(report)
    ensures |entries| > 0 && FromString(refLine).Err? ==>
              Verdicts(report, entries, refLine) == Err(FromString(refLine).error)
  {
    if |entries| > 0 && FromString(refLine).Err? {
      var f := VerdictOf(refLine);
      assert |entries[..1][..0]| == 0;
      TryPutAllSnoc(report, entries[..1], f);
      assert f(entries[0].0, entries[0].1) == Err(FromString(refLine).error);
      TryPutAllAborts(report, entries, f, 1);
    }
  }

  /** Every sensor of `entries` can be classified against `ref`. */
  predicate AllClassified(entries: seq<(string, seq<real>)>, ref: References) {
    forall i :: 0 <= i < |entries| ==> HasVerdict(entries[i], ref)
  }

  predicate HasVerdict(e: (string, seq<real>), ref: References) {
    QCResult(e.0, e.1, ref).Ok?
  }

  /** The verdict loop succeeds exactly when the reference line parses and
      every sensor can be classified, or when there is no sensor at all. */
  lemma VerdictsSucceed(report: seq<(string, string)>, entries: seq<(string, seq<real>)>, refLine: string)
    ensures Verdicts(report, entries, refLine).Ok? <==>
              |entries| == 0 || (FromString(refLine).Ok? && AllClassified(entries, FromString(refLine).value))
  {
    var f := VerdictOf(refLine);
    TryPutAllSucceeds(report, entries, f);
    if |entries| > 0 {
      assert f(entries[0].0, entries[0].1) == Verdict(entries[0].0, entries[0].1, refLine);
      if FromString(refLine).Ok? {
        var ref := FromString(refLine).value;
        assert forall i :: 0 <= i < |entries| ==>
                 f(entries[i].0, entries[i].1) == QCResult(entries[i].0, entries[i].1, ref);
      }
    }
  }

  /** The keys after the verdict loop: the report's keys, then every new
      sensor in `dict_data` order; a sensor already in the report keeps its
      position. */
  lemma VerdictKeys(report: seq<(string, string)>, entries: seq<(string, seq<real>)>, refLine: string)
    requires Distinct(Keys(report))
    requires Verdicts(report, entries, refLine).Ok?
    ensures Keys(Verdicts(report, entries, refLine).value) == Dedup(Keys(report) + Keys(entries))
  {
    TryPutAllKeys(report, entries, VerdictOf(refLine));
  }

  /** After the verdict loop each sensor of `entries` holds its verdict and
      every other key keeps the value the report gave it. */
  lemma VerdictValues(report: seq<(string, string)>, entries: seq<(string, seq<real>)>, refLine: string)
    requires Distinct(Keys(entries))
    requires Verdicts(report, entries, refLine).Ok?
    ensures forall i :: 0 <= i < |entries| ==>
              var out := Verdicts(report, entries, refLine).value;
              && FromString(refLine).Ok?
              && Lookup(out, entries[i].0).Some?
              && QCResult(entries[i].0, entries[i].1, FromString(refLine).value) == Ok(Lookup(out, entries[i].0).value)
    ensures forall k :: k !in Keys(entries) ==> Lookup(Verdicts(report, entries, refLine).value, k) == Lookup(report, k)
  {
    var f := VerdictOf(refLine);
    forall i | 0 <= i < |entries|
      ensures var out := Verdicts(report, entries, refLine).value;
              && FromString(refLine).Ok?
              && Lookup(out, entries[i].0).Some?
              && QCResult(entries[i].0, entries[i].1, FromString(refLine).value) == Ok(Lookup(out, entries[i].0).value)
    {
      TryPutAllAt(report, entries, f, i);
      assert f(entries[i].0, entries[i].1) == Verdict(entries[i].0, entries[i].1, refLine);
    }
    TryPutAllOthers(report, entries, f);
  }

  /** The report's keys: the rejected headers (when errors are displayed)
      then the sensors with readings, each once, at its first position; no
      other key is ever added. */
  lemma ProcessKeys(lines: seq<string>, displayErrors: bool)
    requires |lines| > 0 && Process(lines, displayErrors).Ok?
    ensures Keys(Process(lines, displayErrors).value) ==
              Dedup((if displayErrors then Keys(RejectedHeaders(Classified(lines[1..]))) else []) + Keys(Contributions(Classified(lines[1..]))))
  {
    var body := Classified(lines[1..]);
    ClassifiedWellFormed(lines[1..]);
    var st := Accumulate(body, displayErrors).value;
    var rs := RejectedHeaders(body);
    var kc := Keys(Contributions(body));
    AccumulateValid(body, displayErrors);
    ReportIsRejectedHeaders(body, displayErrors);
    ReadingKeys(body, displayErrors);
    VerdictKeys(st.report, st.readings, lines[0]);
    DedupOfDedupedTail(Keys(st.report), kc);
    if displayErrors {
      PutAllOrder([], rs);
      assert Keys<string>([]) + Keys(rs) == Keys(rs);
      DedupOfDedupedHead(Keys(rs), kc);
    } else {
      assert Keys(st.report) + kc == kc;
    }
  }

  /** The report's values: each sensor with readings holds the verdict on
      all of its readings, and is a thermometer or humidity verdict by its
      prefix, never the no-type-logic text; any other key holds the message
      of the last rejected header with that name. */
  lemma ProcessValues(lines: seq<string>, displayErrors: bool)
    requires |lines| > 0 && Process(lines, displayErrors).Ok?
    ensures var cs := Contributions(Classified(lines[1..]));
            var out := Process(lines, displayErrors).value;
            forall k :: k in Keys(cs) ==>
              && FromString(lines[0]).Ok?
              && Lookup(out, k).Some?
              && QCResult(k, ValuesFor(cs, k), FromString(lines[0]).value) == Ok(Lookup(out, k).value)
              && (StartsWith(k, ThermometerPrefix) ==> Lookup(out, k).value in {UltraPrecise, VeryPrecise, Precise})
              && (!StartsWith(k, ThermometerPrefix) ==> Lookup(out, k).value in {Keep, Discard})
    ensures var cs := Contributions(Classified(lines[1..]));
            var out := Process(lines, displayErrors).value;
            forall k :: k !in Keys(cs) ==>
              Lookup(out, k) == if displayErrors then LastValue(RejectedHeaders(Classified(lines[1..])), k) else None
  {
    var body := Classified(lines[1..]);
    ClassifiedWellFormed(lines[1..]);
    var st := Accumulate(body, displayErrors).value;
    var cs := Contributions(body);
    var out := Process(lines, displayErrors).value;
    AccumulateValid(body, displayErrors);
    ReportIsRejectedHeaders(body, displayErrors);
    ReadingsAreContributions(body, displayErrors);
    VerdictValues(st.report, st.readings, lines[0]);
    forall k | k in Keys(cs)
      ensures && FromString(lines[0]).Ok?
              && Lookup(out, k).Some?
              && QCResult(k, ValuesFor(cs, k), FromString(lines[0]).value) == Ok(Lookup(out, k).value)
              && (StartsWith(k, ThermometerPrefix) ==> Lookup(out, k).value in {UltraPrecise, VeryPrecise, Precise})
              && (!StartsWith(k, ThermometerPrefix) ==> Lookup(out, k).value in {Keep, Discard})
    {
      assert k in Keys(st.readings);
      var i :| 0 <= i < |st.readings| && Keys(st.readings)[i] == k;
      LookupAt(st.readings, i);
      assert st.readings[i].1 == ValuesFor(cs, k);
      assert SensorName(st.readings[i].0);
    }
    forall k | k !in Keys(cs)
      ensures Lookup(out, k) == if displayErrors then LastValue(RejectedHeaders(body), k) else None
    {
      if displayErrors {
        PutAllValues([], RejectedHeaders(body), k);
      }
    }
  }

  /** Every sensor that contributed readings can be classified. */
  predicate SensorsClassified(cs: seq<(string, real)>, ref: References) {
    forall k :: k in Keys(cs) ==> QCResult(k, ValuesFor(cs, k), ref).Ok?
  }

  /** A log is processed without an exception exactly when no line after
      the reference line fails and, if any sensor collected readings, the
      reference line parses and every such sensor can be classified. */
  lemma ProcessSucceeds(lines: seq<string>, displayErrors: bool)
    requires |lines| > 0
    ensures Process(lines, displayErrors).Ok? <==>
              var cs := Contributions(Classified(lines[1..]));
              && NoLineFails(Classified(lines[1..]))
              && (|cs| == 0 || (FromString(lines[0]).Ok? && SensorsClassified(cs, FromString(lines[0]).value)))
  {
    var body := Classified(lines[1..]);
    ClassifiedWellFormed(lines[1..]);
    SucceedsIffNoLineFails(body, displayErrors);
    if Accumulate(body, displayErrors).Ok? {
      var st := Accumulate(body, displayErrors).value;
      var cs := Contributions(body);
      AccumulateValid(body, displayErrors);
      ReadingsAreContributions(body, displayErrors);
      VerdictsSucceed(st.report, st.readings, lines[0]);
      if |cs| > 0 {
        assert cs[0].0 in Keys(cs);
        assert cs[0].0 in Keys(st.readings);
      }
      if FromString(lines[0]).Ok? {
        ClassifiedReadings(st.readings, cs, FromString(lines[0]).value);
      }
    }
  }

  lemma ClassifiedReadings(m: seq<(string, seq<real>)>, cs: seq<(string, real)>, ref: References)
    requires Distinct(Keys(m)) && Keys(m) == Dedup(Keys(cs))
    requires forall name :: ReadingsOf(m, name) == ValuesFor(cs, name)
    ensures AllClassified(m, ref) <==> SensorsClassified(cs, ref)
  {
    if AllClassified(m, ref) {
      forall k | k in Keys(cs)
        ensures QCResult(k, ValuesFor(cs, k), ref).Ok?
      {
        assert k in Keys(m);
        var i :| 0 <= i < |m| && Keys(m)[i] == k;
        LookupAt(m, i);
        assert HasVerdict(m[i], ref);
      }
    }
    if SensorsClassified(cs, ref) {
      forall i | 0 <= i < |m|
        ensures HasVerdict(m[i], ref)
      {
        LookupAt(m, i);
        assert Keys(m)[i] in Keys(cs);
        assert ReadingsOf(m, m[i].0) == m[i].1;
      }
    }
  }

  /** An empty log, or one holding only the reference line, gives an empty
      report: the reference line is never parsed. */
  lemma EmptyLogs(refLine: string, displayErrors: bool)
    ensures Process([], displayErrors) == Ok([])
    ensures Process([refLine], displayErrors) == Ok([])
  {
    assert [refLine][1..] == [];
  }

  /** `process()` as the source writes it: one loop over the lines after
      the reference line, then one loop over `dict_data`. */
  method RunProcess(lines: seq<string>, displayErrors: bool) returns (r: Result<seq<(string, string)>>)
    ensures r == Process(lines, displayErrors)
  {
    if |lines| == 0 {
      return Ok([]);
    }
    var st := ReadLines(lines[1..], displayErrors);
    if st.Err? {
      return Err(st.error);
    }
    r := AssignVerdicts(st.value.report, st.value.readings, lines[0]);
  }

  /** The loop over the lines, stopping at the first one that raises. */
  method ReadLines(body: seq<string>, displayErrors: bool) returns (r: Result<State>)
    ensures r == Accumulate(Classified(body), displayErrors)
  {
    var st := Start;
    var i := 0;
    while i < |body|
      invariant i <= |body|
      invariant Accumulate(Classified(body[..i]), displayErrors) == Ok(st)
    {
      NextLine(body, i, st, displayErrors);
      var next := ReadLine(st, body[i], displayErrors);
      if next.Err? {
        LineAborts(body, i + 1, displayErrors);
        return next;
      }
      st := next.value;
      i := i + 1;
    }
    assert body[..|body|] == body;
    return Ok(st);
  }

  /** One more line of the log is one more pass over its classification. */
  lemma NextLine(body: seq<string>, i: nat, st: State, displayErrors: bool)
    requires i < |body| && Accumulate(Classified(body[..i]), displayErrors) == Ok(st)
    ensures Accumulate(Classified(body[..i + 1]), displayErrors) == Step(st, Classify(body[i]), displayErrors)
  {
    var ls := Classified(body[..i + 1]);
    assert body[..i + 1][..i] == body[..i];
    assert ls == Classified(body[..i]) + [Classify(body[i])];
    assert ls[..|ls| - 1] == Classified(body[..i]);
    AccumulateSnoc(ls, displayErrors);
  }

  /** A line that raises ends the run over the whole log. */
  lemma LineAborts(body: seq<string>, j: nat, displayErrors: bool)
    requires j <= |body| && Accumulate(Classified(body[..j]), displayErrors).Err?
    ensures Accumulate(Classified(body), displayErrors) == Accumulate(Classified(body[..j]), displayErrors)
  {
    MapSeqPrefix(Classify, body, j);
    FailureAborts(Classified(body), j, displayErrors);
  }

  /** The loop body, statement by statement. */
  method ReadLine(st: State, line: string, displayErrors: bool) returns (r: Result<State>)
    ensures r == Step(st, Classify(line), displayErrors)
  {
    var cursor := st.cursor;
    var dictData := st.readings;
    var output := st.report;
    BlankIffNoWords(line);
    if IsBlank(line) {
      return Ok(st);
    }
    var ws := Words(line);
    if IsHeader(ws[0]) {
      if |ws| < 2 {
        return Err(HeaderWithoutName(line));
      }
      var sensorType := Lower(ws[0]);
      var name := Lower(ws[1]);
      var check := CheckSensor(sensorType, name);
      if check.Accepted? {
        cursor := Sensor(name, true);
      } else {
        cursor := Sensor(name, false);
        if displayErrors {
          output := Put(output, name, check.message);
        }
      }
    } else if cursor.Sensor? && cursor.supported {
      if |ws| < 2 {
        return Err(ReadingWithoutValue(line));
      }
      var value := Float(ws[1]);
      if value.Err? {
        return Err(value.error);
      }
      dictData := Put(dictData, cursor.name, ReadingsOf(dictData, cursor.name) + [value.value]);
    }
    return Ok(State(cursor, dictData, output));
  }

  /** One more sensor of the verdict loop. */
  lemma NextVerdict(report: seq<(string, string)>, entries: seq<(string, seq<real>)>, refLine: string, j: nat, output: seq<(string, string)>)
    requires j < |entries| && Verdicts(report, entries[..j], refLine) == Ok(output)
    ensures var v := Verdict(entries[j].0, entries[j].1, refLine);
            Verdicts(report, entries[..j + 1], refLine) ==
              if v.Err? then Err(v.error) else Ok(Put(output, entries[j].0, v.value))
  {
    assert entries[..j + 1][..j] == entries[..j];
    TryPutAllSnoc(report, entries[..j + 1], VerdictOf(refLine));
  }

  /** The loop over `dict_data`, parsing the reference line anew for every
      sensor as the source does. */
  method AssignVerdicts(report: seq<(string, string)>, entries: seq<(string, seq<real>)>, refLine: string)
    returns (r: Result<seq<(string, string)>>)
    ensures r == Verdicts(report, entries, refLine)
  {
    var output := report;
    var j := 0;
    while j < |entries|
      invariant j <= |entries|
      invariant Verdicts(report, entries[..j], refLine) == Ok(output)
    {
      NextVerdict(report, entries, refLine, j, output);
      var reference := FromString(refLine);
      if reference.Err? {
        TryPutAllAborts(report, entries, VerdictOf(refLine), j + 1);
        return Err(reference.error);
      }
      var verdict := QCResult(entries[j].0, entries[j].1, reference.value);
      if verdict.Err? {
        TryPutAllAborts(report, entries, VerdictOf(refLine), j + 1);
        return Err(verdict.error);
      }
      output := Put(output, entries[j].0, verdict.value);
      j := j + 1;
    }
    assert entries[..|entries|] == entries;
    return Ok(output);
  }
}
