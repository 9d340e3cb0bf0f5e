/** `getQCResult`: the verdict for one sensor's readings against the
    reference line, chosen by the sensor's name prefix. Thresholds on the
    standard deviation are applied to the variance (see `Stats.StdevBelow`). */
module Quality {
  import opened Results
  import opened Text
  import opened Decimal
  import opened Reference
  import opened Stats
  import opened Sensors

  const UltraPrecise: string := "ultra precise"
  const VeryPrecise: string := "very precise"
  const Precise: string := "precise"
  const Keep: string := "keep"
  const Discard: string := "discard"
  const NoTypeLogic: string := "currently not supported due to no type logic"

  function Abs(x: real): real {
    if x < 0.0 then -x else x
  }

  /** The thermometer table: `precise` unless the mean is within 0.5 of the
      reference, then `ultra precise` below a deviation of 3 and `very
      precise` below 5. */
  function ThermometerVerdict(meanDeviation: real, variance: real): string {
    if meanDeviation <= 0.5 then
      if StdevBelow(variance, 3.0) then UltraPrecise
      else if StdevBelow(variance, 5.0) then VeryPrecise
      else Precise
    else Precise
  }

  /** The humidity table: keep a sensor whose deviation is below the allowed
      one, which is 1% of the reference humidity. */
  function HumidityVerdict(allowedDeviation: real, variance: real): string {
    if StdevBelow(variance, allowedDeviation) then Keep else Discard
  }

  /** The thermometer branch as the source writes it, on the standard
      deviation itself: start from `precise` and overwrite it in two
      independent `if`s. It picks the label the variance-based table picks. */
  method ThermometerOnStdev(meanDeviation: real, stdev: real, variance: real) returns (result: string)
    requires stdev >= 0.0 && stdev * stdev == variance
    ensures result == ThermometerVerdict(meanDeviation, variance)
  {
    StdevBelowIsExact(stdev, variance, 3.0);
    StdevBelowIsExact(stdev, variance, 5.0);
    result := Precise;
    if meanDeviation <= 0.5 {
      if stdev < 3.0 {
        result := UltraPrecise;
      }
      if stdev >= 3.0 && stdev < 5.0 {
        result := VeryPrecise;
      }
    }
  }

  /** The humidity branch as the source writes it, on the standard
      deviation itself. */
  method HumidityOnStdev(allowedDeviation: real, stdev: real, variance: real) returns (result: string)
    requires stdev >= 0.0 && stdev * stdev == variance
    ensures result == HumidityVerdict(allowedDeviation, variance)
  {
    StdevBelowIsExact(stdev, variance, allowedDeviation);
    if stdev < allowedDeviation {
      result := Keep;
    } else {
      result := Discard;
    }
  }

  /** How good a thermometer label is: `ultra precise` over `very precise`
      over `precise`. */
  function Rank(verdict: string): nat {
    if verdict == UltraPrecise then 2 else if verdict == VeryPrecise then 1 else 0
  }

  /** Readings that sit closer to the reference and scatter less never get a
      worse thermometer label. */
  lemma ThermometerMonotone(d1: real, v1: real, d2: real, v2: real)
    requires d1 <= d2 && v1 <= v2
    ensures Rank(ThermometerVerdict(d1, v1)) >= Rank(ThermometerVerdict(d2, v2))
  {
  }

  lemma LessChain(a: real, b: real, c: real, d: real)
    requires a <= b && b < c && c <= d
    ensures a < d
  {
  }

  /** A humidity sensor that is kept stays kept with less scatter or a
      larger allowed deviation. */
  lemma HumidityMonotone(a1: real, v1: real, a2: real, v2: real)
    requires a1 <= a2 && v2 <= v1
    requires HumidityVerdict(a1, v1) == Keep
    ensures HumidityVerdict(a2, v2) == Keep
  {
    SquareMonotone(a1, a2);
    LessChain(v2, v1, a1 * a1, a2 * a2);
  }

  /** `getQCResult(sensor, readings, reference)`. `statistics.stdev` raises
      for fewer than two readings and `float` for a reference value that is
      not a number; the order of the two checks follows the order in which
      the source evaluates them in each branch. */
  function QCResult(sensor: string, readings: seq<real>, ref: References): (r: Result<string>)
    ensures StartsWith(sensor, ThermometerPrefix) && r.Ok? ==>
              r.value == UltraPrecise || r.value == VeryPrecise || r.value == Precise
    ensures !StartsWith(sensor, ThermometerPrefix) && StartsWith(sensor, HumidityPrefix) && r.Ok? ==>
              r.value == Keep || r.value == Discard
    ensures r.Err? <==>
              if StartsWith(sensor, ThermometerPrefix) then |readings| < 2 || ParseFloat(ref.temp).None?
              else StartsWith(sensor, HumidityPrefix) && (|readings| < 2 || ParseFloat(ref.humidity).None?)
  {
    if StartsWith(sensor, ThermometerPrefix) then
      if |readings| < 2 then Err(TooFewReadings(sensor, |readings|))
      else
        var t :- Float(ref.temp);
        Ok(ThermometerVerdict(Abs(t - Mean(readings)), Variance(readings)))
    else if StartsWith(sensor, HumidityPrefix) then
      var h :- Float(ref.humidity);
      if |readings| < 2 then Err(TooFewReadings(sensor, |readings|))
      else Ok(HumidityVerdict(0.01 * h, Variance(readings)))
    else Ok(NoTypeLogic)
  }

  /** Which failure wins when several apply: for a thermometer the count of
      readings is checked before the reference temperature is read, for a
      humidity sensor the reference humidity is read first. */
  lemma QCResultFailures(sensor: string, readings: seq<real>, ref: References)
    ensures StartsWith(sensor, ThermometerPrefix) && |readings| < 2 ==>
              QCResult(sensor, readings, ref) == Err(TooFewReadings(sensor, |readings|))
    ensures StartsWith(sensor, ThermometerPrefix) && |readings| >= 2 && ParseFloat(ref.temp).None? ==>
              QCResult(sensor, readings, ref) == Err(NotANumber(ref.temp))
    ensures !StartsWith(sensor, ThermometerPrefix) && StartsWith(sensor, HumidityPrefix)
              && ParseFloat(ref.humidity).None? ==>
              QCResult(sensor, readings, ref) == Err(NotANumber(ref.humidity))
    ensures !StartsWith(sensor, ThermometerPrefix) && StartsWith(sensor, HumidityPrefix)
              && ParseFloat(ref.humidity).Some? && |readings| < 2 ==>
              QCResult(sensor, readings, ref) == Err(TooFewReadings(sensor, |readings|))
    ensures !StartsWith(sensor, ThermometerPrefix) && !StartsWith(sensor, HumidityPrefix) ==>
              QCResult(sensor, readings, ref) == Ok(NoTypeLogic)
  {
  }

  /** With at least two readings and a readable reference, the verdict is the
      one the source's code computes from the true standard deviation `s`
      and the mean: for a thermometer `precise` when the mean is more than
      0.5 away from the reference temperature, otherwise `ultra precise` for
      `s < 3`, `very precise` for `3 <= s < 5` and `precise` for `s >= 5`;
      for a humidity sensor `keep` exactly when `s` is below 1% of the
      reference humidity. */
  lemma QCResultOnStdev(sensor: string, readings: seq<real>, ref: References, s: real)
    requires |readings| >= 2 && s >= 0.0 && s * s == Variance(readings)
    ensures StartsWith(sensor, ThermometerPrefix) && ParseFloat(ref.temp).Some? ==>
              var dev := Abs(ParseFloat(ref.temp).value - Mean(readings));
              QCResult(sensor, readings, ref) ==
                Ok(if dev > 0.5 then Precise
                   else if s < 3.0 then UltraPrecise
                   else if s < 5.0 then VeryPrecise
                   else Precise)
    ensures !StartsWith(sensor, ThermometerPrefix) && StartsWith(sensor, HumidityPrefix)
              && ParseFloat(ref.humidity).Some? ==>
              QCResult(sensor, readings, ref) ==
                Ok(if s < 0.01 * ParseFloat(ref.humidity).value then Keep else Discard)
  {
    StdevBelowIsExact(s, Variance(readings), 3.0);
    StdevBelowIsExact(s, Variance(readings), 5.0);
    if ParseFloat(ref.humidity).Some? {
      StdevBelowIsExact(s, Variance(readings), 0.01 * ParseFloat(ref.humidity).value);
    }
  }

  /** No sensor name starts with both prefixes, so the thermometer branch
      taking precedence never hides a humidity sensor. */
  lemma PrefixesExclusive(sensor: string)
    ensures StartsWith(sensor, ThermometerPrefix) ==> !StartsWith(sensor, HumidityPrefix)
  {
    if StartsWith(sensor, ThermometerPrefix) {
      assert sensor[0] == 't';
    }
  }

  /** `20` and `50` read as the numbers they write. */
  lemma ExampleReferenceValues()
    ensures ParseFloat("20") == Some(20.0)
    ensures ParseFloat("50") == Some(50.0)
  {
    NumeralTwentyAndFifty();
    NumeralRoundTrip(20);
    NumeralRoundTrip(50);
  }

  lemma NumeralTwentyAndFifty()
    ensures Numeral(20) == "20" && Numeral(50) == "50"
  {
    assert Numeral(2) == "2";
    assert Numeral(5) == "5";
    assert DigitChar(0) == '0';
  }

  lemma SumOfThree(a: real, b: real, c: real)
    ensures Sum([a, b, c]) == a + b + c
  {
    assert [a][..0] == [];
    assert Sum([a]) == a;
    assert [a, b][..1] == [a];
    assert Sum([a, b]) == a + b;
    assert [a, b, c][..2] == [a, b];
  }

  lemma DeviationsOfThree(a: real, b: real, c: real, m: real)
    ensures SquaredDeviations([a, b, c], m) == (a - m) * (a - m) + (b - m) * (b - m) + (c - m) * (c - m)
  {
    assert [a][..0] == [];
    assert SquaredDeviations([a], m) == (a - m) * (a - m);
    assert [a, b][..1] == [a];
    assert SquaredDeviations([a, b], m) == (a - m) * (a - m) + (b - m) * (b - m);
    assert [a, b, c][..2] == [a, b];
  }

  lemma StatsOfThree(a: real, b: real, c: real, m: real, v: real)
    requires a + b + c == 3.0 * m
    requires (a - m) * (a - m) + (b - m) * (b - m) + (c - m) * (c - m) == 2.0 * v
    ensures Mean([a, b, c]) == m && Variance([a, b, c]) == v
  {
    SumOfThree(a, b, c);
    DeviationsOfThree(a, b, c, m);
  }

  lemma ThermometerCase(sensor: string, readings: seq<real>, ref: References, t: real, m: real, v: real)
    requires StartsWith(sensor, ThermometerPrefix) && |readings| >= 2 && ParseFloat(ref.temp) == Some(t)
    requires Mean(readings) == m && Variance(readings) == v
    ensures QCResult(sensor, readings, ref) == Ok(ThermometerVerdict(Abs(t - m), v))
  {
  }

  lemma HumidityCase(sensor: string, readings: seq<real>, ref: References, h: real, v: real)
    requires !StartsWith(sensor, ThermometerPrefix) && StartsWith(sensor, HumidityPrefix)
    requires |readings| >= 2 && ParseFloat(ref.humidity) == Some(h) && Variance(readings) == v
    ensures QCResult(sensor, readings, ref) == Ok(HumidityVerdict(0.01 * h, v))
  {
  }

  lemma StatsUltraPrecise()
    ensures Mean([20.0, 20.2, 19.8]) == 20.0 && Variance([20.0, 20.2, 19.8]) == 0.04
  {
    StatsOfThree(20.0, 20.2, 19.8, 20.0, 0.04);
  }

  lemma StatsPrecise()
    ensures Mean([20.0, 25.0, 15.0]) == 20.0 && Variance([20.0, 25.0, 15.0]) == 25.0
  {
    StatsOfThree(20.0, 25.0, 15.0, 20.0, 25.0);
  }

  lemma StatsKeep()
    ensures Mean([50.0, 50.1, 49.9]) == 50.0 && Variance([50.0, 50.1, 49.9]) == 0.01
  {
    StatsOfThree(50.0, 50.1, 49.9, 50.0, 0.01);
  }

  /** Readings 20.0, 20.2, 19.8 against 20.0: mean 20, deviation 0.2. */
  lemma ExampleUltraPrecise()
    ensures QCResult("temp-1", [20.0, 20.2, 19.8], References(Tag, "20", "50")) == Ok(UltraPrecise)
  {
    ExampleReferenceValues();
    StatsUltraPrecise();
    assert "temp-1"[..5] == ThermometerPrefix;
    assert ThermometerVerdict(Abs(20.0 - 20.0), 0.04) == UltraPrecise;
    ThermometerCase("temp-1", [20.0, 20.2, 19.8], References(Tag, "20", "50"), 20.0, 20.0, 0.04);
  }

  /** Readings 20.0, 25.0, 15.0 against 20.0: mean 20, deviation exactly 5,
      which is in neither precision bucket. */
  lemma ExamplePrecise()
    ensures QCResult("temp-1", [20.0, 25.0, 15.0], References(Tag, "20", "50")) == Ok(Precise)
  {
    ExampleReferenceValues();
    StatsPrecise();
    assert "temp-1"[..5] == ThermometerPrefix;
    assert ThermometerVerdict(Abs(20.0 - 20.0), 25.0) == Precise;
    ThermometerCase("temp-1", [20.0, 25.0, 15.0], References(Tag, "20", "50"), 20.0, 20.0, 25.0);
  }

  /** Humidity readings 50.0, 50.1, 49.9 against 50.0: allowed deviation 0.5,
      deviation 0.1. */
  lemma ExampleKeep()
    ensures QCResult("hum-1", [50.0, 50.1, 49.9], References(Tag, "20", "50")) == Ok(Keep)
  {
    ExampleReferenceValues();
    StatsKeep();
    assert "hum-1"[..5][0] != ThermometerPrefix[0];
    assert "hum-1"[..4] == HumidityPrefix;
    assert 0.01 * 50.0 == 0.5;
    assert HumidityVerdict(0.5, 0.01) == Keep;
    HumidityCase("hum-1", [50.0, 50.1, 49.9], References(Tag, "20", "50"), 50.0, 0.01);
  }
}
