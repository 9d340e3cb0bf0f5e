/** `isHeader`: a line's first token is a timestamp (the line is a reading)
    when it starts with the shape `YYYY-MM-DDThh:mm` of the regular expression
    `[0-9]{4}-(0[1-9]|1[0-2])-(0[1-9]|[1-2][0-9]|3[0-1])T(2[0-3]|[01][0-9]):[0-5][0-9]`
    applied with `re.match`, which anchors at the start only. Anything else is
    a header. */
module Timestamp {
  import opened Text

  /** `0[1-9]|1[0-2]` */
  predicate MonthPattern(a: char, b: char) {
    (a == '0' && '1' <= b <= '9') || (a == '1' && '0' <= b <= '2')
  }

  /** `0[1-9]|[1-2][0-9]|3[0-1]` */
  predicate DayPattern(a: char, b: char) {
    (a == '0' && '1' <= b <= '9') || ('1' <= a <= '2' && IsDigit(b)) || (a == '3' && '0' <= b <= '1')
  }

  /** `2[0-3]|[01][0-9]` */
  predicate HourPattern(a: char, b: char) {
    (a == '2' && '0' <= b <= '3') || ('0' <= a <= '1' && IsDigit(b))
  }

  /** `[0-5][0-9]` */
  predicate MinutePattern(a: char, b: char) {
    '0' <= a <= '5' && IsDigit(b)
  }

  /** `re.match` of the timestamp pattern succeeds on `t`. The pattern has
      a fixed length of 16 characters, so it matches exactly when the first
      16 characters have the right shape. */
  predicate MatchesTimestamp(t: string) {
    && |t| >= 16
    && IsDigit(t[0]) && IsDigit(t[1]) && IsDigit(t[2]) && IsDigit(t[3])
    && t[4] == '-'
    && MonthPattern(t[5], t[6])
    && t[7] == '-'
    && DayPattern(t[8], t[9])
    && t[10] == 'T'
    && HourPattern(t[11], t[12])
    && t[13] == ':'
    && MinutePattern(t[14], t[15])
  }

  /** `isHeader(txt)`. */
  predicate IsHeader(t: string) {
    !MatchesTimestamp(t)
  }

  /** The number written by two decimal digits. */
  function TwoDigits(a: char, b: char): nat
    requires IsDigit(a) && IsDigit(b)
  {
    10 * DigitValue(a) + DigitValue(b)
  }

  /** The timestamp shape stated with numbers instead of character classes:
      four digits, a dash, a month 01-12, a dash, a day 01-31, `T`, an hour
      00-23, a colon and a minute 00-59, each field written with two digits. */
  predicate HasTimestampFields(t: string) {
    && |t| >= 16
    && (forall i | i in {0, 1, 2, 3, 5, 6, 8, 9, 11, 12, 14, 15} :: 0 <= i < |t| && IsDigit(t[i]))
    && t[4] == '-' && t[7] == '-' && t[10] == 'T' && t[13] == ':'
    && 1 <= TwoDigits(t[5], t[6]) <= 12
    && 1 <= TwoDigits(t[8], t[9]) <= 31
    && TwoDigits(t[11], t[12]) <= 23
    && TwoDigits(t[14], t[15]) <= 59
  }

  lemma MonthRange(a: char, b: char)
    ensures MonthPattern(a, b) <==> IsDigit(a) && IsDigit(b) && 1 <= TwoDigits(a, b) <= 12
  {
  }

  lemma DayRange(a: char, b: char)
    ensures DayPattern(a, b) <==> IsDigit(a) && IsDigit(b) && 1 <= TwoDigits(a, b) <= 31
  {
  }

  lemma HourRange(a: char, b: char)
    ensures HourPattern(a, b) <==> IsDigit(a) && IsDigit(b) && TwoDigits(a, b) <= 23
  {
  }

  lemma MinuteRange(a: char, b: char)
    ensures MinutePattern(a, b) <==> IsDigit(a) && IsDigit(b) && TwoDigits(a, b) <= 59
  {
  }

  /** A token is a reading's timestamp exactly when its first 16 characters
      spell a month 01-12, a day 01-31, an hour 00-23 and a minute 00-59 in
      the `YYYY-MM-DDThh:mm` layout; there is no calendar check beyond that. */
  lemma ReadingIffTimestampFields(t: string)
    ensures !IsHeader(t) <==> HasTimestampFields(t)
  {
    if |t| >= 16 {
      MonthRange(t[5], t[6]);
      DayRange(t[8], t[9]);
      HourRange(t[11], t[12]);
      MinuteRange(t[14], t[15]);
      if HasTimestampFields(t) {
        assert 0 in {0, 1, 2, 3, 5, 6, 8, 9, 11, 12, 14, 15};
        assert 1 in {0, 1, 2, 3, 5, 6, 8, 9, 11, 12, 14, 15};
        assert 2 in {0, 1, 2, 3, 5, 6, 8, 9, 11, 12, 14, 15};
        assert 3 in {0, 1, 2, 3, 5, 6, 8, 9, 11, 12, 14, 15};
      }
    }
  }

  /** The match is a prefix match: what follows the first 16 characters
      never changes the classification. */
  lemma TrailingCharactersIgnored(t: string, rest: string)
    requires |t| >= 16
    ensures IsHeader(t + rest) == IsHeader(t)
  {
    assert (t + rest)[..16] == t[..16];
  }

  /** The timestamps from the source's own comment are readings; a token
      with the right digit count but a month 13, day 40, hour 25 and minute
      99 is a header, and so is a sensor type. */
  lemma Examples()
    ensures !IsHeader("2007-04-05T22:00")
    ensures !IsHeader("2017-01-05T22:00")
    ensures !IsHeader("2007-04-05T22:00:30Z")
    ensures IsHeader("2099-13-40T25:99")
    ensures IsHeader("2007-04-05t22:00")
    ensures IsHeader("thermometer")
  {
  }
}
