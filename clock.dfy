/** `formatTime` of utils.js: seconds as `M:SS`. */
module Clock {
  import opened Wrappers
  import opened Decimal

  /** `Math.floor(seconds / 60)`. */
  function WholeMinutes(seconds: real): (m: nat)
    requires seconds >= 0.0
    ensures (60 * m) as real <= seconds < (60 * m + 60) as real
  {
    (seconds / 60.0).Floor
  }

  /**
   * `Math.floor(seconds % 60)`. JavaScript's `%` truncates the quotient,
   * which for a non-negative dividend is the floor.
   */
  function SecondsOfMinute(seconds: real): (s: nat)
    requires seconds >= 0.0
    ensures s < 60
  {
    (seconds - 60.0 * WholeMinutes(seconds) as real).Floor
  }

  /** The `${secs < 10 ? '0' : ''}${secs}` field. */
  function TwoDigits(s: nat): string
  {
    (if s < 10 then "0" else "") + Digits(s)
  }

  /** `formatTime(seconds)`. Only called with a time some lyric line has reached, so never negative. */
  function FormatTime(seconds: real): (r: string)
    requires seconds >= 0.0
    ensures |r| >= 4 && r[|r| - 3] == ':'
    ensures forall k :: 0 <= k < |r| && k != |r| - 3 ==> IsDigit(r[k])
  {
    TwoDigitsShape(SecondsOfMinute(seconds));
    Digits(WholeMinutes(seconds)) + ":" + TwoDigits(SecondsOfMinute(seconds))
  }

  /** Minutes and seconds split the whole seconds: `mins * 60 + secs == floor(seconds)` with `secs` in 0..59. */
  lemma FormatTimeFields(seconds: real)
    requires seconds >= 0.0
    ensures 0 <= SecondsOfMinute(seconds) <= 59
    ensures WholeMinutes(seconds) * 60 + SecondsOfMinute(seconds) == seconds.Floor
    ensures WholeMinutes(seconds) == seconds.Floor / 60 && SecondsOfMinute(seconds) == seconds.Floor % 60
  {
    var n := seconds.Floor;
    var m := WholeMinutes(seconds);
    assert 60 * m <= n < 60 * m + 60;
  }

  /** The seconds field is two decimal digits, the first '0' exactly when the value is below ten. */
  lemma TwoDigitsShape(s: nat)
    requires s < 60
    ensures |TwoDigits(s)| == 2 && AllDigits(TwoDigits(s))
    ensures (TwoDigits(s)[0] == '0') <==> s < 10
    ensures Value(TwoDigits(s)) == s
  {
    DigitsBelowHundred(s);
    ValueOfDigits(s);
    var d := Digits(s);
    if s < 10 {
      assert TwoDigits(s) == ['0'] + d;
      assert TwoDigits(s)[..1] == ['0'];
    } else {
      assert TwoDigits(s) == d;
      assert d[0] != '0';
    }
  }

  /** A clock reading: whole minutes and seconds within the minute. */
  datatype Reading = Reading(minutes: nat, seconds: nat)

  /**
   * Reads `M:SS` back: one or more digits, a colon, and exactly two digits
   * worth less than 60.
   */
  function ParseClock(text: string): Option<Reading>
  {
    if |text| >= 4 && text[|text| - 3] == ':'
       && AllDigits(text[..|text| - 3]) && AllDigits(text[|text| - 2..])
       && Value(text[|text| - 2..]) < 60
    then Some(Reading(Value(text[..|text| - 3]), Value(text[|text| - 2..])))
    else None
  }

  /**
   * The display is exactly the minutes' digits, a colon and the two-digit
   * seconds: reading it back gives the whole minutes and seconds of the time.
   */
  lemma ParseFormatTime(seconds: real)
    requires seconds >= 0.0
    ensures ParseClock(FormatTime(seconds)) == Some(Reading(seconds.Floor / 60, seconds.Floor % 60))
  {
    FormatTimeFields(seconds);
    var m, s := WholeMinutes(seconds), SecondsOfMinute(seconds);
    TwoDigitsShape(s);
    ValueOfDigits(m);
    var text := FormatTime(seconds);
    var d := Digits(m);
    assert text[..|text| - 3] == d;
    assert text[|text| - 3] == ':';
    assert text[|text| - 2..] == TwoDigits(s);
  }

  /** Two times show the same text exactly when they have the same whole seconds. */
  lemma FormatTimeSameWhenSameSecond(x: real, y: real)
    requires x >= 0.0 && y >= 0.0
    ensures FormatTime(x) == FormatTime(y) <==> x.Floor == y.Floor
  {
    ParseFormatTime(x);
    ParseFormatTime(y);
    FormatTimeFields(x);
    FormatTimeFields(y);
    if x.Floor == y.Floor {
      assert WholeMinutes(x) == WholeMinutes(y) && SecondsOfMinute(x) == SecondsOfMinute(y);
    }
  }

  /** The minutes field is the canonical decimal text of the minutes, so no leading zeros. */
  lemma FormatTimeMinutesCanonical(seconds: real)
    requires seconds >= 0.0
    ensures exists k :: 0 < k < |FormatTime(seconds)| && FormatTime(seconds)[k] == ':' &&
              Canonical(FormatTime(seconds)[..k]) && Value(FormatTime(seconds)[..k]) == seconds.Floor / 60
  {
    FormatTimeFields(seconds);
    var d := Digits(WholeMinutes(seconds));
    ValueOfDigits(WholeMinutes(seconds));
    var text := FormatTime(seconds);
    assert text[..|d|] == d;
    assert text[|d|] == ':';
  }
}
