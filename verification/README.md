# Sensor log quality control, modelled in Dafny

The service reads a plain-text calibration log and grades every sensor in it.
The first line of a log is the reference line, `reference <temp> <humidity>`.
The lines after it are of three kinds:

- a header, `<type> <name>`, which selects the current sensor;
- a reading, `<timestamp> <value>`, which belongs to the current sensor;
- a blank line, which is skipped.

A header is accepted only for a `thermometer` named `temp-...` or a `humidity`
sensor named `hum-...`. Readings under an accepted header are collected per
sensor. At the end, each sensor that collected readings is graded against the
reference values:

- a thermometer gets `ultra precise`, `very precise` or `precise`, from its
  mean and its standard deviation;
- a humidity sensor gets `keep` or `discard`, from its standard deviation
  compared with 1% of the reference humidity.

The result is an ordered report from sensor name to text. When errors are
displayed, a rejected header adds its message to the report.

The model follows `process()` in `app/sensorsqc.py`, one module per concern:

- `Timestamp` is `isHeader`, the timestamp regular expression;
- `Sensors` is `isSensorTypeAndNameSupported`, the two-entry whitelist;
- `Reference` is `References.from_string`;
- `Decimal` is Python's `float()` on decimal text, as exact reals;
- `Stats` holds `mean` and the sample variance;
- `Quality` is `getQCResult`;
- `Accumulator` is the loop over the log's lines. It works in two steps.
  `Classify` decides what one line is. `Accumulate` is the fold of the loop
  body over the classified lines. Reference definitions (`CursorOf`,
  `Contributions`, `ValuesFor`, `RejectedHeaders`, `LineFails`) state over
  the whole log what the fold computes;
- `Report` holds the verdict loop and `Process`, the whole computation. The
  methods `RunProcess`, `ReadLines`, `ReadLine` and `AssignVerdicts` follow
  the source's two loops statement by statement and are proved equal to the
  functional definitions;
- `Assoc` holds insertion-ordered dictionaries. It models `dict`,
  `defaultdict(list)` and `OrderedDict`: a new key goes to the end, and
  re-assigning a key keeps its position;
- `Text` holds Python's `str.split()`, `str.split(' ', n)`, `lower()`,
  `startswith` and `strip`.

Every exception the code can raise on the way becomes a `Failure` value that
aborts the whole computation, as an uncaught exception aborts the request:

- a header with a single token (`sLine[1]` raises `IndexError`);
- a reading without a value under a supported sensor;
- a reading under a supported sensor whose value `float()` refuses;
- a reference line that does not split into three pieces, or whose first
  piece is not `reference`;
- a reference value that `float()` refuses;
- a graded sensor with fewer than two readings (`statistics.stdev` raises).

Behaviour of the code worth knowing:

- The timestamp pattern checks digit ranges. So `2099-13-40T25:99` is a
  header, not a reading (`Timestamp.Examples`).
- The reference line is cut at single spaces with `split(' ', 3)`, not at
  arbitrary whitespace. A line with other than two spaces is rejected. A line
  with exactly two spaces that starts with `reference ` is accepted even when
  the spaces are adjacent: `reference  20` gives an empty temperature, which
  fails only when a thermometer is graded (`Reference.AdjacentSpaces`).
- Rejected headers go into a dictionary. A name rejected twice appears once,
  at its first position, with the last message (`ReportIsRejectedHeaders`).
- A sensor's verdict overwrites an error message stored under the same name,
  in that message's position (`ProcessKeys`, `ProcessValues`).
- The verdict order is the order of each sensor's first contributed reading.
  A header that is followed by no reading leaves no verdict entry.
- A thermometer with fewer than two readings fails even when its mean is far
  from the reference. `stdev` is computed before the comparison.
- A single-token header, and a single-token reading under a supported
  sensor, abort the computation.

## Model

| member | source | states |
|---|---|---|
| Timestamp.ReadingIffTimestampFields | app/sensorsqc.py:54-65 | a token is a reading's timestamp exactly when its first 16 characters spell `YYYY-MM-DDThh:mm` with month 01-12, day 01-31, hour 00-23 and minute 00-59, with no other calendar check |
| Timestamp.TrailingCharactersIgnored | app/sensorsqc.py:60-62 | `re.match` anchors only at the start, so characters after the first 16 never change whether a token is a header |
| Timestamp.Examples | app/sensorsqc.py:57-65 | the timestamps in the source's comment are readings; an out-of-range `2099-13-40T25:99`, a lower-case `t` separator and a sensor type are headers |
| Sensors.CheckSensorSpec | app/sensorsqc.py:68-86 | a header is accepted exactly for `thermometer` with a `temp-` name or `humidity` with a `hum-` name; any other type is rejected with the unsupported-type message; a listed type with the wrong name is rejected with the pattern message naming the required prefix |
| Sensors.ListedTypes | app/sensorsqc.py:70-75 | the `any(...)` test on the table holds for exactly the two types `thermometer` and `humidity` |
| Sensors.PrefixOfListedType | app/sensorsqc.py:75-77 | for a listed type, the first table entry whose type contains it is that type's own entry, so the prefix picked by `[...][0]` is the right one |
| Sensors.ExampleAccepted | app/sensorsqc.py:68-83 | `thermometer temp-1` is accepted |
| Sensors.ExampleBadName | app/sensorsqc.py:77-81 | `thermometer foo-1` is rejected for not starting with `temp-` |
| Sensors.ExampleBadType | app/sensorsqc.py:84-86 | `barometer baro-1` is rejected as an unsupported type |
| Reference.FromStringAccepts | app/sensorsqc.py:34-39 | a reference line is accepted exactly when it holds exactly two spaces and starts with `reference ` |
| Reference.FromStringInverse | app/sensorsqc.py:34-39 | an accepted line is its three fields joined by single spaces; the name is `reference` and the temperature holds no space |
| Reference.FromStringRoundTrip | app/sensorsqc.py:34-39 | the line built from space-free temperature and humidity texts reads back as exactly those texts |
| Reference.FromStringRejects | app/sensorsqc.py:35-37 | a line without exactly two spaces fails with the piece count `split(' ', 3)` made; a line with two spaces but another first field fails naming that field |
| Reference.AdjacentSpaces | app/sensorsqc.py:35-39 | `reference  20`, with two adjacent spaces, splits into three pieces and is accepted with an empty temperature and humidity `20` |
| Decimal.NumeralRoundTrip | app/sensorsqc.py:187 | a whole number written in decimal, with or without a minus sign, is read by `float()` as that number, in exact reals |
| Decimal.FixedPointRoundTrip | app/sensorsqc.py:187 | `w.f` with `d` fraction digits is read by `float()` as `w + f / 10^d` in exact reals, with or without a minus sign |
| Decimal.Refusals | app/sensorsqc.py:187 | `float()` refuses the empty text, a lone `.` and a lone `-` |
| Stats.StdevBelowIsExact | app/sensorsqc.py:100-110 | for the true standard deviation `s` (non-negative, squaring to the variance), `s < k` holds exactly when the variance is below `k * k` with `k` positive, so the thresholds may be checked on the variance |
| Stats.MeanBounds | app/sensorsqc.py:95 | the mean of the readings lies between any lower and upper bound of them |
| Stats.VarianceZeroIffConstant | app/sensorsqc.py:96 | the standard deviation is zero exactly when all readings are equal |
| Quality.QCResult | app/sensorsqc.py:89-117 | a thermometer verdict is one of the three precision labels and a humidity verdict is `keep` or `discard`; the classification fails exactly for a `temp-` or `hum-` sensor with fewer than two readings or an unreadable reference value |
| Quality.QCResultFailures | app/sensorsqc.py:94-117 | which failure is reported: for a thermometer the count of readings is checked before the reference temperature is read, for a humidity sensor the reference humidity is read first; any other name gets the no-type-logic text |
| Quality.QCResultOnStdev | app/sensorsqc.py:94-113 | in terms of the true standard deviation `s`: `precise` when the mean is more than 0.5 from the reference, otherwise `ultra precise` for `s < 3`, `very precise` for `3 <= s < 5` and `precise` beyond; `keep` exactly when `s` is below 1% of the reference humidity |
| Quality.ThermometerOnStdev | app/sensorsqc.py:99-104 | the source's default-then-two-overwrites code picks the same label as the variance-based table |
| Quality.HumidityOnStdev | app/sensorsqc.py:110-113 | the source's humidity comparison on the standard deviation picks the same label as the variance-based table |
| Quality.ThermometerMonotone | app/sensorsqc.py:99-104 | a smaller mean deviation and a smaller spread never give a worse thermometer label |
| Quality.HumidityMonotone | app/sensorsqc.py:108-113 | a kept humidity sensor stays kept with a smaller spread or a larger allowed deviation |
| Quality.PrefixesExclusive | app/sensorsqc.py:94-106 | no name starts with both `temp-` and `hum-`, so testing the thermometer prefix first never hides a humidity sensor |
| Quality.ExampleUltraPrecise | app/sensorsqc.py:94-104 | readings 20.0, 20.2, 19.8 against a reference of 20 are `ultra precise` |
| Quality.ExamplePrecise | app/sensorsqc.py:94-104 | readings 20.0, 25.0, 15.0 against 20 have a deviation of exactly 5 and are `precise` |
| Quality.ExampleKeep | app/sensorsqc.py:106-113 | humidity readings 50.0, 50.1, 49.9 against 50 are `keep` |
| Assoc.Put | app/sensorsqc.py:183 | assigning a key adds it at the end when it is new and otherwise keeps every key in place; the key then holds the new value and every other key keeps its value |
| Assoc.PutAllOrder | app/sensorsqc.py:145 | after a run of assignments the keys are the old keys followed by the new keys in order of first assignment, each once |
| Assoc.TryPutAllKeys | app/sensorsqc.py:192-193 | a loop of assignments that can fail leaves, when it succeeds, the old keys followed by the new ones in order of first assignment, each once |
| Assoc.TryPutAllSucceeds | app/sensorsqc.py:192-193 | a loop of assignments that can fail succeeds exactly when every computed value succeeds |
| Text.WordsKeepEveryOtherCharacter | app/sensorsqc.py:164 | `line.split()` loses exactly the whitespace: its words, glued back together, are the line's non-whitespace characters in order |
| Accumulator.ClassifyBlank | app/sensorsqc.py:160-164 | a line is skipped as blank exactly when it is all whitespace, so the blank test and `split()` agree |
| Accumulator.ClassifyHeaderLine | app/sensorsqc.py:164-171 | the header line `<type> <name>` selects the lower-cased name, checked with both tokens lower-cased |
| Accumulator.ClassifyReadingLine | app/sensorsqc.py:164-187 | the reading line `<timestamp> <value>` carries `float(value)` |
| Accumulator.ClassifyWellFormed | app/sensorsqc.py:166-174 | every accepted header names a `temp-` or `hum-` sensor |
| Accumulator.ClassifiedAppend | app/sensorsqc.py:158-164 | each line is judged on its own: classifying two joined logs gives the two classifications joined |
| Accumulator.StepGrows | app/sensorsqc.py:183-187 | one pass of the loop only adds keys at the end of either dictionary and only adds values at the end of a sensor's list |
| Accumulator.StepKeepsValid | app/sensorsqc.py:166-187 | one pass keeps the loop invariant: a supported cursor names a sensor; both dictionaries have distinct keys; `dict_data` holds only non-empty lists under sensor names |
| Accumulator.AccumulateValid | app/sensorsqc.py:154-189 | the loop invariant holds after every successful run |
| Accumulator.CursorFollowsLastHeader | app/sensorsqc.py:166-177 | the current sensor after the loop is the one named by the last named header, whatever readings follow it |
| Accumulator.FailureAborts | app/sensorsqc.py:164-187 | once a prefix of the log has failed, the whole run fails with that same failure |
| Accumulator.SucceedsIffNoLineFails | app/sensorsqc.py:164-187 | the loop succeeds exactly when no line fails: no header without a name, and no reading under a supported sensor whose value is missing or unreadable |
| Accumulator.ReadingsAreContributions | app/sensorsqc.py:185-187 | after the loop, `dict_data`'s keys are the sensors in order of their first contributed reading, and each holds exactly the values contributed under its name, in order, across every header naming it |
| Accumulator.ReportIsRejectedHeaders | app/sensorsqc.py:175-183 | after the loop the report is empty unless errors are displayed; then it holds every rejected header's message, assigned in order |
| Accumulator.BlankIgnored | app/sensorsqc.py:158-161 | a blank line anywhere among the classified lines leaves the run's result unchanged |
| Accumulator.BlankLineIgnored | app/sensorsqc.py:158-161 | a whitespace-only line anywhere in a log leaves the loop's result unchanged |
| Report.ReferenceParsedOnlyWithReadings | app/sensorsqc.py:192-193 | with no sensor readings the reference line is never parsed and the report is unchanged; with some, a bad reference line aborts with its own failure |
| Report.VerdictsSucceed | app/sensorsqc.py:192-193 | the verdict loop succeeds exactly when there is no sensor, or when the reference line parses and every sensor can be graded |
| Report.VerdictKeys | app/sensorsqc.py:192-193 | the verdict loop appends the new sensors after the report's keys, in `dict_data` order; a sensor already in the report keeps its position |
| Report.VerdictValues | app/sensorsqc.py:192-193 | after the verdict loop each sensor holds the verdict on its readings against the parsed reference, and every other key keeps its value |
| Report.ProcessKeys | app/sensorsqc.py:145-193 | the report's keys are the rejected headers (when errors are displayed), then the sensors with readings, each once at its first position; nothing else |
| Report.ProcessValues | app/sensorsqc.py:154-193 | each sensor with readings holds the verdict on all of its readings: a precision label for `temp-`, `keep` or `discard` otherwise; any other key holds the last message of a rejected header with that name |
| Report.ProcessSucceeds | app/sensorsqc.py:151-193 | a log is processed without an exception exactly when no line fails and, if any sensor has readings, the reference line parses and every such sensor can be graded |
| Report.ClassifiedReadings | app/sensorsqc.py:192-193 | grading every entry of `dict_data` succeeds exactly when grading every sensor's contributed values succeeds |
| Report.EmptyLogs | app/sensorsqc.py:151-158 | an empty log and a log holding only the reference line give an empty report |
| Report.RunProcess | app/sensorsqc.py:151-193 | the source's two loops compute `Process` |
| Report.ReadLines | app/sensorsqc.py:154-189 | the first loop, run line by line, computes the fold `Accumulate` over the classified lines |
| Report.ReadLine | app/sensorsqc.py:159-189 | the loop body, statement by statement, is one `Step` on the classified line |
| Report.AssignVerdicts | app/sensorsqc.py:192-193 | the second loop, which parses the reference line once per sensor before grading it, computes `Verdicts` |

## Left out

- The Flask application: routes, the upload form, `before_request` timing and the HTTP error responses. A failure is returned as a value instead.
- `isFileValid` and the upload checks on the file name and content type. These are wrapper checks that run before the core.
- `f.read().decode('utf8').strip().splitlines()`. The log is given as its sequence of lines.
- `GetExtraArgsValue` and the case-insensitive `"true"` test. `displayErrors` is a `bool` parameter.
- The `time` entry added under `displaytime`, and the printed processing time. Both need a clock.
- `logging.warning` calls. They have no effect on the result.
- Quality.QCResult: computes on exact reals, not IEEE-754 doubles. A verdict whose standard deviation sits within rounding error of a threshold may differ from the program's.
- `statistics.mean` raising on an empty list. `dict_data` never holds an empty list (`Accumulator.Valid`), so only the `stdev` failure for fewer than two readings is modelled.
- Decimal.Float: accepts only surrounding whitespace, an optional sign, ASCII digits and one optional decimal point. Python's `float()` also accepts exponents, `inf`, `nan`, underscores and non-ASCII decimal digits such as `٣` or `２０`; the model refuses all of these.
- Decimal.Float: returns the exact decimal value. Python returns the nearest double, so `float('0.1')` is not exactly one tenth.
- Text.Lower: lower-cases ASCII letters only, not the full Unicode mapping of `str.lower()`.
- The failure messages carry the failing text and the kind of failure, not the exact wording of Python's exceptions.
