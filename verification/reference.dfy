/** `References.from_string`: the first line of a log, `reference <temp>
    <humidity>`, cut with `line.split(' ', 3)` on single spaces. The two
    values stay text here; they are read as numbers only when a sensor is
    classified. */
module Reference {
  import opened Results
  import opened Text

  datatype References = References(name: string, temp: string, humidity: string)

  const Tag: string := "reference"

  /** Unpacking the pieces into three names fails unless there are exactly
      three (Python's ValueError); then the first must be `reference`. */
  function FromString(line: string): Result<References> {
    var fields := SplitOn(line, ' ', 3);
    if |fields| != 3 then Err(ReferenceFieldCount(|fields|))
    else if fields[0] != Tag then Err(ReferenceNotValid(fields[0]))
    else Ok(References(fields[0], fields[1], fields[2]))
  }

  lemma TagHasNoSpace()
    ensures ' ' !in Tag
  {
  }

  /** The first piece of a split with at least one cut is the text before
      the first separator. */
  lemma FirstField(line: string)
    requires ' ' in line
    ensures FindFirst(line, ' ') < |line|
    ensures SplitOn(line, ' ', 3)[0] == line[..FindFirst(line, ' ')]
  {
    assert line[..|line|] == line;
  }

  /** A reference line is accepted exactly when it has two single spaces
      and starts with `reference` followed by a space. */
  lemma {:induction false} FromStringAccepts(line: string)
    ensures FromString(line).Ok? <==>
              Occurrences(line, ' ') == 2 && StartsWith(line, Tag + " ")
  {
    SplitOnRoundTrip(line, ' ', 3);
    var fields := SplitOn(line, ' ', 3);
    if Occurrences(line, ' ') == 2 {
      assert |fields| == 3;
      assert ' ' in line by {
        if ' ' !in line {
          NoOccurrences(line, ' ');
        }
      }
      FirstField(line);
      var i := FindFirst(line, ' ');
      TagHasNoSpace();
      if StartsWith(line, Tag + " ") {
        assert line[..10][9] == ' ';
        assert line[..9] == line[..10][..9] == Tag;
        FindFirstAt(line, ' ', 9);
      }
      if fields[0] == Tag {
        assert i == 9;
        assert line[..10] == line[..9] + [line[9]];
      }
    }
  }

  /** An accepted line is rebuilt by joining its fields with single spaces,
      and the temperature field holds no space. */
  lemma {:induction false} FromStringInverse(line: string)
    requires FromString(line).Ok?
    ensures var r := FromString(line).value;
            && r.name == Tag
            && line == r.name + " " + r.temp + " " + r.humidity
            && ' ' !in r.temp
  {
    SplitOnRoundTrip(line, ' ', 3);
    var f := SplitOn(line, ' ', 3);
    assert f[1..][1..] == [f[2]];
    assert Join(f[1..], ' ') == f[1] + [' '] + f[2];
    assert Join(f, ' ') == f[0] + [' '] + (f[1] + [' '] + f[2]);
  }

  /** For values without spaces, the reference line they make reads back
      as those values. */
  lemma {:induction false} FromStringRoundTrip(temp: string, humidity: string)
    requires ' ' !in temp && ' ' !in humidity
    ensures FromString(Tag + " " + temp + " " + humidity) == Ok(References(Tag, temp, humidity))
  {
    var parts := [Tag, temp, humidity];
    assert parts[1..][1..] == [humidity];
    assert Join(parts[1..], ' ') == temp + [' '] + humidity;
    assert Join(parts, ' ') == Tag + [' '] + (temp + [' '] + humidity);
    assert Join(parts, ' ') == Tag + " " + temp + " " + humidity;
    TagHasNoSpace();
    SplitOnOfJoin(parts, ' ', 3);
  }

  /** Two adjacent spaces still make three pieces, the middle one empty: such
      a line is accepted with an empty temperature, which fails only when a
      thermometer is graded. */
  lemma AdjacentSpaces()
    ensures FromString("reference  20") == Ok(References(Tag, "", "20"))
  {
    FromStringRoundTrip("", "20");
    assert Tag + " " + "" + " " + "20" == "reference  20";
  }

  /** A line without exactly two spaces fails with the number of pieces
      `split(' ', 3)` made; a line with two spaces but another first field
      fails naming that field. */
  lemma {:induction false} FromStringRejects(line: string)
    ensures Occurrences(line, ' ') != 2 ==>
              FromString(line) == Err(ReferenceFieldCount(Min(Occurrences(line, ' '), 3) + 1))
    ensures Occurrences(line, ' ') == 2 && !StartsWith(line, Tag + " ") ==>
              FromString(line) == Err(ReferenceNotValid(line[..FindFirst(line, ' ')]))
  {
    SplitOnRoundTrip(line, ' ', 3);
    FromStringAccepts(line);
    if Occurrences(line, ' ') == 2 {
      assert ' ' in line by {
        if ' ' !in line {
          NoOccurrences(line, ' ');
        }
      }
      FirstField(line);
    }
  }
}
