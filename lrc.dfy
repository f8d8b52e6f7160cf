/**
 * The LRC parser, `parseLyrics` in app.js: split the document into lines,
 * find the first `[minutes:seconds.fraction]` time tag on each line, and
 * keep `(startTime, text)` for every line whose text, once that tag is
 * removed and the rest trimmed, is not empty.
 */
module Lrc {
  import opened Wrappers
  import opened Decimal
  import opened Text

  /** One parsed entry: `startTime` in seconds and the line's text. */
  datatype LyricLine = LyricLine(startTime: real, text: string)

  /**
   * Where a time tag `[` digits `:` digits `.` digits `]` sits in a line:
   * the indices of its `[`, `:`, `.` and `]`.
   */
  datatype Stamp = Stamp(start: nat, colon: nat, dot: nat, close: nat)

  /** `line` holds a match of `/\[(\d+):(\d+)\.(\d+)\]/` at exactly the places `st` names. */
  predicate IsStampAt(line: string, st: Stamp) {
    st.start + 1 < st.colon && st.colon + 1 < st.dot && st.dot + 1 < st.close && st.close < |line| &&
    line[st.start] == '[' && line[st.colon] == ':' && line[st.dot] == '.' && line[st.close] == ']' &&
    AllDigits(line[st.start + 1..st.colon]) &&
    AllDigits(line[st.colon + 1..st.dot]) &&
    AllDigits(line[st.dot + 1..st.close])
  }

  function Minutes(line: string, st: Stamp): nat
    requires IsStampAt(line, st)
  {
    Value(line[st.start + 1..st.colon])
  }

  function Seconds(line: string, st: Stamp): nat
    requires IsStampAt(line, st)
  {
    Value(line[st.colon + 1..st.dot])
  }

  /** The digits after the dot, read as an integer whatever their number. */
  function Fraction(line: string, st: Stamp): nat
    requires IsStampAt(line, st)
  {
    Value(line[st.dot + 1..st.close])
  }

  /** `minutes * 60 + seconds + centiseconds / 100`, in seconds. */
  function TagTime(minutes: nat, seconds: nat, fraction: nat): (r: real)
    ensures (minutes * 60 + seconds) as real <= r
    ensures fraction < 100 ==> r < (minutes * 60 + seconds + 1) as real
  {
    (minutes * 60 + seconds) as real + fraction as real / 100.0
  }

  /** The start time the tag `st` of `line` stands for. */
  function StampTime(line: string, st: Stamp): (r: real)
    requires IsStampAt(line, st)
    ensures r >= 0.0
    ensures st.close - st.dot <= 3 ==> r < (Minutes(line, st) * 60 + Seconds(line, st) + 1) as real
  {
    TagTime(Minutes(line, st), Seconds(line, st), Fraction(line, st))
  }

  /** The line with the tag `st` cut out (a non-global `replace(timeRegex, '')`). */
  function WithoutStamp(line: string, st: Stamp): (r: string)
    requires IsStampAt(line, st)
    ensures |r| == |line| - (st.close + 1 - st.start)
    ensures line == r[..st.start] + line[st.start..st.close + 1] + r[st.start..]
  {
    line[..st.start] + line[st.close + 1..]
  }

  /** The end of the run of digits starting at `i` (a greedy `\d*`). */
  function DigitRun(s: string, i: nat): (j: nat)
    requires i <= |s|
    ensures i <= j <= |s| && AllDigits(s[i..j])
    ensures j == |s| || !IsDigit(s[j])
    decreases |s| - i
  {
    if i < |s| && IsDigit(s[i]) then
      var j := DigitRun(s, i + 1);
      assert s[i..j] == [s[i]] + s[i + 1..j];
      j
    else i
  }

  /** A run of digits ended by a non-digit is exactly what `DigitRun` finds. */
  lemma DigitRunMaximal(s: string, i: nat, j: nat)
    requires i <= j < |s| && AllDigits(s[i..j]) && !IsDigit(s[j])
    ensures DigitRun(s, i) == j
  {
    var k := DigitRun(s, i);
    assert forall m :: i <= m < j ==> IsDigit(s[m]) by {
      forall m | i <= m < j ensures IsDigit(s[m]) {
        assert s[m] == s[i..j][m - i];
      }
    }
    assert forall m :: i <= m < k ==> IsDigit(s[m]) by {
      forall m | i <= m < k ensures IsDigit(s[m]) {
        assert s[m] == s[i..k][m - i];
      }
    }
  }

  /** The regex tried at position `p` alone. */
  function MatchAt(line: string, p: nat): (r: Option<Stamp>)
    requires p <= |line|
    ensures r.Some? ==> r.value.start == p && IsStampAt(line, r.value)
  {
    if p < |line| && line[p] == '[' then
      var colon := DigitRun(line, p + 1);
      if colon > p + 1 && colon < |line| && line[colon] == ':' then
        var dot := DigitRun(line, colon + 1);
        if dot > colon + 1 && dot < |line| && line[dot] == '.' then
          var close := DigitRun(line, dot + 1);
          if close > dot + 1 && close < |line| && line[close] == ']' then
            Some(Stamp(p, colon, dot, close))
          else None
        else None
      else None
    else None
  }

  /** The three digit fields of a tag are maximal runs of digits. */
  lemma StampRuns(line: string, st: Stamp)
    requires IsStampAt(line, st)
    ensures DigitRun(line, st.start + 1) == st.colon
    ensures DigitRun(line, st.colon + 1) == st.dot
    ensures DigitRun(line, st.dot + 1) == st.close
  {
    DigitRunMaximal(line, st.start + 1, st.colon);
    DigitRunMaximal(line, st.colon + 1, st.dot);
    DigitRunMaximal(line, st.dot + 1, st.close);
  }

  /** The match at a position is unique, and `MatchAt` finds it. */
  lemma MatchAtComplete(line: string, st: Stamp)
    requires IsStampAt(line, st)
    ensures MatchAt(line, st.start) == Some(st)
  {
    StampRuns(line, st);
  }

  /** The leftmost match at or after `from`, as a non-global `match` finds it. */
  function FirstStamp(line: string, from: nat): (r: Option<Stamp>)
    requires from <= |line|
    ensures r.Some? ==> from <= r.value.start && IsStampAt(line, r.value)
    ensures forall p :: from <= p <= |line| && (r.None? || p < r.value.start) ==> MatchAt(line, p).None?
    decreases |line| - from
  {
    if from == |line| then None
    else
      match MatchAt(line, from)
      case Some(st) => Some(st)
      case None => FirstStamp(line, from + 1)
  }

  /**
   * `FirstStamp` is the regex's leftmost match: it finds a tag whenever the
   * line holds one, and no tag starts before the one it finds.
   */
  lemma FirstStampLeftmost(line: string)
    ensures FirstStamp(line, 0).None? <==> forall st :: !IsStampAt(line, st)
    ensures FirstStamp(line, 0).Some? ==>
              forall st :: IsStampAt(line, st) ==> FirstStamp(line, 0).value.start <= st.start
  {
    var r := FirstStamp(line, 0);
    forall st | IsStampAt(line, st)
      ensures r.Some? && r.value.start <= st.start
    {
      MatchAtComplete(line, st);
    }
  }

  /** One line of the document: its entry, or nothing. */
  function ParseLine(line: string): (r: Option<LyricLine>)
    ensures r.Some? ==> r.value.text != [] && IsTrimmed(r.value.text) && r.value.startTime >= 0.0
  {
    match FirstStamp(line, 0)
    case None => None
    case Some(st) =>
      var text := Trim(WithoutStamp(line, st));
      if text == [] then None else Some(LyricLine(StampTime(line, st), text))
  }

  /**
   * What a line contributes, stated without the scan: nothing when it has
   * no time tag; otherwise the leftmost tag gives the start time, and the
   * rest of the line, trimmed, is the text unless it is empty.
   */
  lemma ParseLineMeaning(line: string, st: Stamp)
    requires IsStampAt(line, st)
    requires forall other :: IsStampAt(line, other) ==> st.start <= other.start
    ensures ParseLine(line) ==
              if AllWhiteSpace(WithoutStamp(line, st)) then None
              else Some(LyricLine(StampTime(line, st), Trim(WithoutStamp(line, st))))
  {
    FirstStampLeftmost(line);
    var found := FirstStamp(line, 0).value;
    MatchAtComplete(line, found);
    MatchAtComplete(line, st);
    assert found == st;
    TrimEmpty(WithoutStamp(line, st));
  }

  /** A line without a time tag contributes nothing. */
  lemma ParseLineUntagged(line: string)
    requires forall st :: !IsStampAt(line, st)
    ensures ParseLine(line) == None
  {
    FirstStampLeftmost(line);
  }

  /** The tag `[m:s.f]` written with plain decimal numbers. */
  function StampText(m: nat, s: nat, f: nat): string
  {
    "[" + Digits(m) + ":" + Digits(s) + "." + Digits(f) + "]"
  }

  /** A tag `[a:b.c]` at the start of a line, for digit strings `a`, `b`, `c`, is a match with those fields. */
  lemma TagMatches(a: string, b: string, c: string, rest: string) returns (st: Stamp)
    requires a != [] && b != [] && c != [] && AllDigits(a) && AllDigits(b) && AllDigits(c)
    ensures var line := "[" + a + ":" + b + "." + c + "]" + rest;
      st.start == 0 && IsStampAt(line, st) &&
      Minutes(line, st) == Value(a) && Seconds(line, st) == Value(b) && Fraction(line, st) == Value(c) &&
      WithoutStamp(line, st) == rest
  {
    var line := "[" + a + ":" + b + "." + c + "]" + rest;
    st := Stamp(0, |a| + 1, |a| + |b| + 2, |a| + |b| + |c| + 3);
    var p1 := "[" + a;
    var p2 := p1 + ":" + b;
    var p3 := p2 + "." + c;
    assert line == p3 + "]" + rest;
    assert line[1..st.colon] == a by {
      assert line[..|p1|] == p1;
    }
    assert line[st.colon + 1..st.dot] == b by {
      assert line[..|p2|] == p2;
    }
    assert line[st.dot + 1..st.close] == c by {
      assert line[..|p3|] == p3;
    }
    assert line[st.close + 1..] == rest;
  }

  /**
   * A line that starts with a tag `[a:b.c]` parses to the time those digit
   * strings stand for and the trimmed rest of the line. The rest may hold
   * further tags: only the first is removed. The fraction is divided by 100
   * whatever its number of digits.
   */
  lemma ParseTaggedLine(a: string, b: string, c: string, rest: string)
    requires a != [] && b != [] && c != [] && AllDigits(a) && AllDigits(b) && AllDigits(c)
    requires !AllWhiteSpace(rest)
    ensures ParseLine("[" + a + ":" + b + "." + c + "]" + rest) ==
              Some(LyricLine(TagTime(Value(a), Value(b), Value(c)), Trim(rest)))
  {
    var line := "[" + a + ":" + b + "." + c + "]" + rest;
    var st := TagMatches(a, b, c, rest);
    assert StampTime(line, st) == TagTime(Value(a), Value(b), Value(c));
    ParseLineMeaning(line, st);
  }

  /** A line whose only text is its tag contributes nothing. */
  lemma ParseBlankLine(a: string, b: string, c: string, rest: string)
    requires a != [] && b != [] && c != [] && AllDigits(a) && AllDigits(b) && AllDigits(c)
    requires AllWhiteSpace(rest)
    ensures ParseLine("[" + a + ":" + b + "." + c + "]" + rest) == None
  {
    var st := TagMatches(a, b, c, rest);
    ParseLineMeaning("[" + a + ":" + b + "." + c + "]" + rest, st);
  }

  /** Round trip: the tag written from `m`, `s`, `f` is read back as their time. */
  lemma ParseTagged(m: nat, s: nat, f: nat, rest: string)
    requires !AllWhiteSpace(rest)
    ensures ParseLine(StampText(m, s, f) + rest) == Some(LyricLine(TagTime(m, s, f), Trim(rest)))
  {
    ParseTaggedLine(Digits(m), Digits(s), Digits(f), rest);
    ValueOfDigits(m);
    ValueOfDigits(s);
    ValueOfDigits(f);
  }

  /** The result of each line, in line order. */
  function LineResults(lines: seq<string>): (r: seq<Option<LyricLine>>)
    ensures |r| == |lines|
  {
    seq(|lines|, k requires 0 <= k < |lines| => ParseLine(lines[k]))
  }

  /** The entries of `lines`, in line order (the `forEach` with `push`). */
  function ParseAll(lines: seq<string>): (r: seq<LyricLine>)
    ensures |r| <= |lines|
  {
    Somes(LineResults(lines))
  }

  /** The indices of the lines that contribute an entry. */
  function Origins(lines: seq<string>): seq<nat>
  {
    SomeIndices(LineResults(lines))
  }

  /**
   * Entry `i` of the result is the entry of line `Origins(lines)[i]`; these
   * indices increase, so line order is kept; and every line that is not
   * among them contributes nothing. In particular there are never more
   * entries than lines.
   */
  lemma ParseAllOrigins(lines: seq<string>)
    ensures |ParseAll(lines)| == |Origins(lines)| <= |lines|
    ensures forall i :: 0 <= i < |Origins(lines)| ==>
              Origins(lines)[i] < |lines| && ParseLine(lines[Origins(lines)[i]]) == Some(ParseAll(lines)[i])
    ensures forall i, j :: 0 <= i < j < |Origins(lines)| ==> Origins(lines)[i] < Origins(lines)[j]
    ensures forall k :: 0 <= k < |lines| && k !in Origins(lines) ==> ParseLine(lines[k]).None?
  {
    SomesAt(LineResults(lines));
  }

  /** Every entry is well formed: non-empty trimmed text and a non-negative start time. */
  predicate WellFormed(entries: seq<LyricLine>) {
    forall i :: 0 <= i < |entries| ==>
      entries[i].text != [] && IsTrimmed(entries[i].text) && entries[i].startTime >= 0.0
  }

  lemma ParseAllWellFormed(lines: seq<string>)
    ensures WellFormed(ParseAll(lines))
  {
    ParseAllOrigins(lines);
  }

  /**
   * `parseLyrics(lrcText)`: never fails; one well-formed entry per line of
   * the document that carries a time tag and some text, in line order.
   */
  method ParseLyrics(lrcText: string) returns (parsed: seq<LyricLine>)
    ensures parsed == ParseAll(SplitLines(lrcText))
    ensures |parsed| <= NewlineCount(lrcText) + 1
    ensures WellFormed(parsed)
  {
    var lines := SplitLines(lrcText);
    ghost var results := LineResults(lines);
    parsed := [];
    for i := 0 to |lines|
      invariant parsed == Somes(results[..i])
    {
      var entry := ParseLine(lines[i]);
      ghost var prefix := results[..i + 1];
      assert prefix[..i] == results[..i] && prefix[i] == entry;
      if entry.Some? {
        parsed := parsed + [entry.value];
      }
    }
    assert results[..|lines|] == results;
    ParseAllWellFormed(lines);
    ParseAllOrigins(lines);
    SplitCount(lrcText);
  }
}
