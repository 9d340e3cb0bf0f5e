/** `isSensorTypeAndNameSupported`: the whitelist of sensor types and the
    name prefix each type demands. */
module Sensors {
  import opened Text

  datatype Rule = Rule(sensorType: string, namePrefix: string)

  /** The name prefix of a thermometer and of a humidity sensor. */
  const ThermometerPrefix: string := "temp-"
  const HumidityPrefix: string := "hum-"

  /** The supported types, in the order the source lists them. */
  const AllowedSensors: seq<Rule> := [Rule("thermometer", ThermometerPrefix), Rule("humidity", HumidityPrefix)]

  /** The outcome of the check: accepted, or rejected with the message that
      is logged and, on request, shown in the report. */
  datatype Check = Accepted | Rejected(message: string)

  function UnsupportedTypeMessage(sensorType: string): string {
    "The sensor type " + sensorType + " is not supported. Skipping readings!"
  }

  function BadNameMessage(name: string, prefix: string): string {
    "The sensor name " + name + " does not conform to the pattern " + prefix + ". Skipping readings!"
  }

  /** `any(d['type'].lower() == type for d in rules)` */
  predicate IsListed(rules: seq<Rule>, sensorType: string) {
    exists i :: 0 <= i < |rules| && Lower(rules[i].sensorType) == sensorType
  }

  /** `[d['name'].lower() for d in rules if type in d['type']]`: the prefixes
      of every rule whose type CONTAINS the given text. */
  function PrefixesContaining(rules: seq<Rule>, sensorType: string): (ps: seq<string>)
    ensures |ps| <= |rules|
  {
    if |rules| == 0 then []
    else
      (if Contains(rules[0].sensorType, sensorType) then [Lower(rules[0].namePrefix)] else [])
      + PrefixesContaining(rules[1..], sensorType)
  }

  lemma {:induction false} ListedTypeHasAPrefix(rules: seq<Rule>, sensorType: string)
    requires forall i :: 0 <= i < |rules| ==> Lower(rules[i].sensorType) == rules[i].sensorType
    requires IsListed(rules, sensorType)
    ensures |PrefixesContaining(rules, sensorType)| > 0
    decreases |rules|
  {
    if Lower(rules[0].sensorType) == sensorType {
      assert OccursAt(rules[0].sensorType, sensorType, 0);
    } else {
      var i :| 0 <= i < |rules| && Lower(rules[i].sensorType) == sensorType;
      assert rules[1..][i - 1] == rules[i];
      ListedTypeHasAPrefix(rules[1..], sensorType);
    }
  }

  lemma AllowedTypesAreLowercase()
    ensures forall i :: 0 <= i < |AllowedSensors| ==>
                          Lower(AllowedSensors[i].sensorType) == AllowedSensors[i].sensorType
  {
    LowerOfLowercase("thermometer");
    LowerOfLowercase("humidity");
  }

  /** `isSensorTypeAndNameSupported(type, name)`, with `type` and `name`
      already lower-cased by the caller. */
  function CheckSensor(sensorType: string, name: string): Check {
    if IsListed(AllowedSensors, sensorType) then
      AllowedTypesAreLowercase();
      ListedTypeHasAPrefix(AllowedSensors, sensorType);
      var prefix := PrefixesContaining(AllowedSensors, sensorType)[0];
      if !StartsWith(name, prefix) then Rejected(BadNameMessage(name, prefix))
      else Accepted
    else Rejected(UnsupportedTypeMessage(sensorType))
  }

  /** The table's prefix for each type that may carry readings. */
  function PrefixFor(sensorType: string): string {
    if sensorType == "thermometer" then ThermometerPrefix else HumidityPrefix
  }

  lemma HumidityIsNotInThermometer()
    ensures !Contains("thermometer", "humidity")
  {
    forall i | 0 <= i <= 3
      ensures !OccursAt("thermometer", "humidity", i)
    {
      var w := "thermometer"[i..i + 8];
      assert w[0] != 'h' || w[1] != 'u';
    }
  }

  lemma ThermometerIsNotInHumidity()
    ensures !Contains("humidity", "thermometer")
  {
  }

  /** Exactly the two table types are listed. */
  lemma ListedTypes(sensorType: string)
    ensures IsListed(AllowedSensors, sensorType) <==> sensorType == "thermometer" || sensorType == "humidity"
  {
    AllowedTypesAreLowercase();
    if sensorType == "thermometer" {
      assert Lower(AllowedSensors[0].sensorType) == sensorType;
    } else if sensorType == "humidity" {
      assert Lower(AllowedSensors[1].sensorType) == sensorType;
    }
  }

  /** The lookup by containment agrees with the table: the first rule whose
      type contains a listed type is that type's own rule. */
  lemma {:induction false} PrefixOfListedType(sensorType: string)
    requires IsListed(AllowedSensors, sensorType)
    ensures |PrefixesContaining(AllowedSensors, sensorType)| > 0
    ensures PrefixesContaining(AllowedSensors, sensorType)[0] == PrefixFor(sensorType)
  {
    AllowedTypesAreLowercase();
    ListedTypeHasAPrefix(AllowedSensors, sensorType);
    assert AllowedSensors[1..] == [Rule("humidity", HumidityPrefix)];
    assert OccursAt("thermometer", "thermometer", 0);
    assert OccursAt("humidity", "humidity", 0);
    HumidityIsNotInThermometer();
    ThermometerIsNotInHumidity();
    LowerOfLowercase(ThermometerPrefix);
    LowerOfLowercase(HumidityPrefix);
  }

  /** A header is accepted exactly for a thermometer named `temp-...` or a
      humidity sensor named `hum-...`; an unknown type and a badly named
      sensor are rejected with their own messages. */
  lemma {:induction false} CheckSensorSpec(sensorType: string, name: string)
    ensures CheckSensor(sensorType, name).Accepted? <==>
              || (sensorType == "thermometer" && StartsWith(name, ThermometerPrefix))
              || (sensorType == "humidity" && StartsWith(name, HumidityPrefix))
    ensures sensorType != "thermometer" && sensorType != "humidity" ==>
              CheckSensor(sensorType, name) == Rejected(UnsupportedTypeMessage(sensorType))
    ensures sensorType == "thermometer" && !StartsWith(name, ThermometerPrefix) ==>
              CheckSensor(sensorType, name) == Rejected(BadNameMessage(name, ThermometerPrefix))
    ensures sensorType == "humidity" && !StartsWith(name, HumidityPrefix) ==>
              CheckSensor(sensorType, name) == Rejected(BadNameMessage(name, HumidityPrefix))
  {
    ListedTypes(sensorType);
    if IsListed(AllowedSensors, sensorType) {
      PrefixOfListedType(sensorType);
    }
  }

  /** The three sample headers: one accepted, one rejected for its name,
      one rejected for its type. */
  lemma ExampleAccepted()
    ensures CheckSensor("thermometer", "temp-1") == Accepted
  {
    CheckSensorSpec("thermometer", "temp-1");
  }

  lemma ExampleBadName()
    ensures CheckSensor("thermometer", "foo-1") == Rejected(BadNameMessage("foo-1", ThermometerPrefix))
  {
    assert "foo-1"[..5][0] != ThermometerPrefix[0];
    CheckSensorSpec("thermometer", "foo-1");
  }

  lemma ExampleBadType()
    ensures CheckSensor("barometer", "baro-1") == Rejected(UnsupportedTypeMessage("barometer"))
  {
    CheckSensorSpec("barometer", "baro-1");
  }
}
