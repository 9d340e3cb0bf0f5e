/** The handful of Python string operations the log parser relies on:
    `str.isspace`, `str.split()`, `str.split(sep, maxsplit)`, `str.strip`,
    `str.lower` (ASCII letters only), `str.startswith` and the substring test
    `needle in haystack`. */
module Text {

  /** Python's `str.isspace` for one character: the characters `str.split()`
      splits on and `\s` matches in a `re` pattern. */
  predicate IsSpace(c: char) {
    || ('\t' <= c <= '\r')
    || ('\U{1C}' <= c <= ' ')
    || c == '\U{85}' || c == '\U{A0}' || c == '\U{1680}'
    || ('\U{2000}' <= c <= '\U{200A}')
    || c == '\U{2028}' || c == '\U{2029}' || c == '\U{202F}'
    || c == '\U{205F}' || c == '\U{3000}'
  }

  /** The line matches `^\s*$`: it is empty or holds only whitespace. */
  predicate IsBlank(s: string) {
    forall i :: 0 <= i < |s| ==> IsSpace(s[i])
  }

  predicate SpaceFree(s: string) {
    forall i :: 0 <= i < |s| ==> !IsSpace(s[i])
  }

  /** Length of the run of non-whitespace characters that starts `s`. */
  function TokenLength(s: string): (n: nat)
    ensures n <= |s|
    ensures SpaceFree(s[..n])
    ensures n < |s| ==> IsSpace(s[n])
  {
    if |s| == 0 || IsSpace(s[0]) then 0 else 1 + TokenLength(s[1..])
  }

  /** Python's `s.split()`: the maximal runs of non-whitespace characters,
      in order; leading, trailing and repeated whitespace produce nothing. */
  function Words(s: string): (ws: seq<string>)
    ensures forall i :: 0 <= i < |ws| ==> |ws[i]| > 0 && SpaceFree(ws[i])
    decreases |s|
  {
    if |s| == 0 then []
    else if IsSpace(s[0]) then Words(s[1..])
    else
      var n := TokenLength(s);
      [s[..n]] + Words(s[n..])
  }

  /** The characters of `s` that are not whitespace, in order. */
  function NonSpace(s: string): string {
    if |s| == 0 then []
    else if IsSpace(s[0]) then NonSpace(s[1..])
    else [s[0]] + NonSpace(s[1..])
  }

  function Concat(ws: seq<string>): string {
    if |ws| == 0 then [] else ws[0] + Concat(ws[1..])
  }

  /** Python's `sep.join(ws)` for a one-character separator. */
  function Join(ws: seq<string>, sep: char): string {
    if |ws| == 0 then []
    else if |ws| == 1 then ws[0]
    else ws[0] + [sep] + Join(ws[1..], sep)
  }

  lemma {:induction false} NonSpaceAppend(a: string, b: string)
    ensures NonSpace(a + b) == NonSpace(a) + NonSpace(b)
    decreases |a|
  {
    if |a| == 0 {
      assert a + b == b;
    } else {
      assert (a + b)[1..] == a[1..] + b;
      NonSpaceAppend(a[1..], b);
    }
  }

  lemma {:induction false} NonSpaceOfSpaceFree(s: string)
    requires SpaceFree(s)
    ensures NonSpace(s) == s
    decreases |s|
  {
    if |s| > 0 {
      NonSpaceOfSpaceFree(s[1..]);
    }
  }

  /** Splitting loses exactly the whitespace: gluing the words back together
      gives the line with its whitespace removed. */
  lemma {:induction false} WordsKeepEveryOtherCharacter(s: string)
    ensures Concat(Words(s)) == NonSpace(s)
    decreases |s|
  {
    if |s| == 0 {
    } else if IsSpace(s[0]) {
      WordsKeepEveryOtherCharacter(s[1..]);
    } else {
      var n := TokenLength(s);
      WordsKeepEveryOtherCharacter(s[n..]);
      assert s == s[..n] + s[n..];
      NonSpaceAppend(s[..n], s[n..]);
      NonSpaceOfSpaceFree(s[..n]);
    }
  }

  /** `s.split()` is empty exactly for the lines `^\s*$` matches. */
  lemma {:induction false} BlankIffNoWords(s: string)
    ensures IsBlank(s) <==> Words(s) == []
    decreases |s|
  {
    if |s| > 0 {
      BlankIffNoWords(s[1..]);
      if IsSpace(s[0]) {
        assert IsBlank(s) <==> IsBlank(s[1..]);
      }
    }
  }

  lemma {:induction false} TokenLengthOfWord(w: string, rest: string)
    requires SpaceFree(w)
    requires |rest| == 0 || IsSpace(rest[0])
    ensures TokenLength(w + rest) == |w|
    decreases |w|
  {
    if |w| > 0 {
      assert (w + rest)[1..] == w[1..] + rest;
      TokenLengthOfWord(w[1..], rest);
    } else {
      assert w + rest == rest;
    }
  }

  /** Splitting undoes joining with a single space: `" ".join(ws).split() == ws`
      for non-empty words without whitespace. */
  lemma {:induction false} WordsOfJoin(ws: seq<string>)
    requires forall i :: 0 <= i < |ws| ==> |ws[i]| > 0 && SpaceFree(ws[i])
    ensures Words(Join(ws, ' ')) == ws
    decreases |ws|
  {
    if |ws| == 1 {
      TokenLengthOfWord(ws[0], []);
      assert ws[0] + [] == ws[0];
      assert Join(ws, ' ')[|ws[0]|..] == [];
    } else if |ws| > 1 {
      var tail := Join(ws[1..], ' ');
      var s := ws[0] + ([' '] + tail);
      assert Join(ws, ' ') == s;
      TokenLengthOfWord(ws[0], [' '] + tail);
      assert s[..|ws[0]|] == ws[0];
      assert s[|ws[0]|..] == [' '] + tail;
      assert ([' '] + tail)[1..] == tail;
      WordsOfJoin(ws[1..]);
      assert ws == [ws[0]] + ws[1..];
    }
  }

  /** Index of the first `c` in `s`, or `|s|` when there is none. */
  function FindFirst(s: string, c: char): (i: nat)
    ensures i <= |s|
    ensures c !in s[..i]
    ensures i < |s| ==> s[i] == c
  {
    if |s| == 0 then 0
    else if s[0] == c then 0
    else
      var j := FindFirst(s[1..], c);
      assert s[..j + 1] == [s[0]] + s[1..][..j];
      1 + j
  }

  /** Number of occurrences of `c` in `s`. */
  function Occurrences(s: string, c: char): nat {
    if |s| == 0 then 0 else (if s[0] == c then 1 else 0) + Occurrences(s[1..], c)
  }

  function Min(a: nat, b: nat): nat {
    if a <= b then a else b
  }

  /** Python's `s.split(sep, maxsplit)` for a one-character separator: cut at
      the first `maxsplit` occurrences of `sep`, keeping empty pieces. */
  function SplitOn(s: string, sep: char, maxsplit: nat): (parts: seq<string>)
    ensures |parts| >= 1
    ensures forall i :: 0 <= i < |parts| - 1 ==> sep !in parts[i]
    decreases |s|
  {
    var i := FindFirst(s, sep);
    if maxsplit == 0 || i == |s| then [s]
    else [s[..i]] + SplitOn(s[i + 1..], sep, maxsplit - 1)
  }

  lemma {:induction false} OccurrencesSplit(s: string, c: char, i: nat)
    requires i < |s| && s[i] == c && c !in s[..i]
    ensures Occurrences(s, c) == 1 + Occurrences(s[i + 1..], c)
    decreases i
  {
    if i > 0 {
      assert s[1..][..i - 1] == s[1..i];
      assert s[1..][i - 1 + 1..] == s[i + 1..];
      OccurrencesSplit(s[1..], c, i - 1);
    }
  }

  lemma {:induction false} NoOccurrences(s: string, c: char)
    requires c !in s
    ensures Occurrences(s, c) == 0
    decreases |s|
  {
    if |s| > 0 {
      assert c !in s[1..];
      NoOccurrences(s[1..], c);
    }
  }

  /** Gluing the pieces back with the separator gives the original text, and
      there are as many cuts as separators, up to `maxsplit`. */
  lemma SplitOnRoundTrip(s: string, sep: char, maxsplit: nat)
    ensures Join(SplitOn(s, sep, maxsplit), sep) == s
    ensures |SplitOn(s, sep, maxsplit)| == Min(Occurrences(s, sep), maxsplit) + 1
  {
    SplitOnJoin(s, sep, maxsplit);
    SplitOnCount(s, sep, maxsplit);
  }

  /** One cut: the text before the first separator, then the split of the rest. */
  lemma SplitOnCut(s: string, sep: char, maxsplit: nat)
    requires maxsplit > 0 && FindFirst(s, sep) < |s|
    ensures SplitOn(s, sep, maxsplit) ==
              [s[..FindFirst(s, sep)]] + SplitOn(s[FindFirst(s, sep) + 1..], sep, maxsplit - 1)
  {
  }

  lemma {:induction false} SplitOnJoin(s: string, sep: char, maxsplit: nat)
    ensures Join(SplitOn(s, sep, maxsplit), sep) == s
    decreases |s|
  {
    var i := FindFirst(s, sep);
    if maxsplit > 0 && i < |s| {
      var rest := SplitOn(s[i + 1..], sep, maxsplit - 1);
      SplitOnJoin(s[i + 1..], sep, maxsplit - 1);
      SplitOnCut(s, sep, maxsplit);
      JoinCons(s[..i], rest, sep);
      CutAt(s, i);
    } else {
      assert SplitOn(s, sep, maxsplit) == [s];
    }
  }

  lemma {:induction false} SplitOnCount(s: string, sep: char, maxsplit: nat)
    ensures |SplitOn(s, sep, maxsplit)| == Min(Occurrences(s, sep), maxsplit) + 1
    decreases |s|
  {
    var i := FindFirst(s, sep);
    if maxsplit > 0 && i < |s| {
      var rest := SplitOn(s[i + 1..], sep, maxsplit - 1);
      var n := Occurrences(s[i + 1..], sep);
      SplitOnCount(s[i + 1..], sep, maxsplit - 1);
      SplitOnCut(s, sep, maxsplit);
      OccurrencesSplit(s, sep, i);
      assert |SplitOn(s, sep, maxsplit)| == 1 + |rest|;
      assert Min(1 + n, maxsplit) == 1 + Min(n, maxsplit - 1);
    } else {
      assert SplitOn(s, sep, maxsplit) == [s];
      if i == |s| {
        assert s[..i] == s;
        NoOccurrences(s, sep);
      }
    }
  }

  lemma CutAt(s: string, i: nat)
    requires i < |s|
    ensures s == s[..i] + [s[i]] + s[i + 1..]
  {
  }

  lemma JoinCons(p: string, rest: seq<string>, sep: char)
    requires |rest| >= 1
    ensures Join([p] + rest, sep) == p + [sep] + Join(rest, sep)
  {
    assert ([p] + rest)[1..] == rest;
  }

  /** `FindFirst` finds the first separator: any index holding `c` with no
      `c` before it. */
  lemma {:induction false} FindFirstAt(s: string, c: char, k: nat)
    requires k < |s| && s[k] == c && c !in s[..k]
    ensures FindFirst(s, c) == k
    decreases k
  {
    if k > 0 {
      assert s[0] in s[..k];
      assert s[1..][..k - 1] == s[1..k];
      FindFirstAt(s[1..], c, k - 1);
    }
  }

  lemma {:induction false} FindFirstAbsent(s: string, c: char)
    requires c !in s
    ensures FindFirst(s, c) == |s|
    decreases |s|
  {
    if |s| > 0 {
      assert s[0] != c;
      assert c !in s[1..];
      FindFirstAbsent(s[1..], c);
    }
  }

  /** Splitting a join of separator-free pieces gives the pieces back when
      `maxsplit` allows every cut. */
  lemma {:induction false} SplitOnOfJoin(parts: seq<string>, sep: char, maxsplit: nat)
    requires 1 <= |parts| <= maxsplit + 1
    requires forall i :: 0 <= i < |parts| ==> sep !in parts[i]
    ensures SplitOn(Join(parts, sep), sep, maxsplit) == parts
    decreases |parts|
  {
    var p := parts[0];
    if |parts| == 1 {
      assert Join(parts, sep) == p;
      FindFirstAbsent(p, sep);
    } else {
      var tail := Join(parts[1..], sep);
      var s := p + [sep] + tail;
      assert Join(parts, sep) == s;
      assert s[..|p|] == p;
      FindFirstAt(s, sep, |p|);
      assert s[|p| + 1..] == tail;
      SplitOnCut(s, sep, maxsplit);
      SplitOnOfJoin(parts[1..], sep, maxsplit - 1);
      assert parts == [p] + parts[1..];
    }
  }

  function StripLeft(s: string): (r: string)
    ensures |r| == 0 || !IsSpace(r[0])
    decreases |s|
  {
    if |s| > 0 && IsSpace(s[0]) then StripLeft(s[1..]) else s
  }

  function StripRight(s: string): (r: string)
    ensures |r| == 0 || !IsSpace(r[|r| - 1])
    decreases |s|
  {
    if |s| > 0 && IsSpace(s[|s| - 1]) then StripRight(s[..|s| - 1]) else s
  }

  /** Python's `s.strip()`: whitespace removed from both ends. */
  function Strip(s: string): (r: string)
    ensures |r| == 0 || (!IsSpace(r[0]) && !IsSpace(r[|r| - 1]))
  {
    var l := StripLeft(s);
    var r := StripRight(l);
    assert |r| > 0 ==> r == l[..|r|] by { StripRightIsPrefix(l); }
    r
  }

  lemma {:induction false} StripRightIsPrefix(s: string)
    ensures |StripRight(s)| <= |s| && StripRight(s) == s[..|StripRight(s)|]
    decreases |s|
  {
    if |s| > 0 && IsSpace(s[|s| - 1]) {
      StripRightIsPrefix(s[..|s| - 1]);
    }
  }

  /** Stripping leaves a word without surrounding whitespace alone. */
  lemma StripOfSpaceFree(s: string)
    requires SpaceFree(s)
    ensures Strip(s) == s
  {
  }

  predicate IsUpperAscii(c: char) {
    'A' <= c <= 'Z'
  }

  function LowerChar(c: char): char {
    if IsUpperAscii(c) then (c as int + 32) as char else c
  }

  /** `s.lower()` restricted to ASCII letters: the length is kept, no ASCII
      capital survives, and every other character is left as it is. */
  function Lower(s: string): (r: string)
    ensures |r| == |s|
    ensures forall i :: 0 <= i < |r| ==> !IsUpperAscii(r[i])
    ensures forall i :: 0 <= i < |s| && !IsUpperAscii(s[i]) ==> r[i] == s[i]
  {
    seq(|s|, i requires 0 <= i < |s| => LowerChar(s[i]))
  }

  /** A string with no ASCII capital is its own lower-case form. */
  lemma LowerOfLowercase(s: string)
    requires forall i :: 0 <= i < |s| ==> !IsUpperAscii(s[i])
    ensures Lower(s) == s
  {
  }

  /** An ASCII decimal digit, the class `[0-9]`. */
  predicate IsDigit(c: char) {
    '0' <= c <= '9'
  }

  function DigitValue(c: char): (d: nat)
    requires IsDigit(c)
    ensures d <= 9
  {
    (c as int) - ('0' as int)
  }

  /** Python's `s.startswith(p)`. */
  predicate StartsWith(s: string, p: string) {
    |p| <= |s| && s[..|p|] == p
  }

  /** Python's substring test `needle in haystack`. */
  predicate Contains(haystack: string, needle: string) {
    exists i :: 0 <= i <= |haystack| - |needle| && OccursAt(haystack, needle, i)
  }

  predicate OccursAt(haystack: string, needle: string, i: int) {
    0 <= i && i + |needle| <= |haystack| && haystack[i..i + |needle|] == needle
  }
}
