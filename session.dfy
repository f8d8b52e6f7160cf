/**
 * The page state that drives highlighting in app.js: the module variables
 * `currentLyrics` and `timeOffset`, the `active` class of each
 * `.lyric-line` element, and the text of the `currentTime` display.
 */
module Session {
  import opened Wrappers
  import Text
  import opened Lrc
  import opened Sync
  import opened Clock

  /** The adjust buttons' step, in seconds (app.js:352, 357). */
  const OffsetStep: real := 0.5

  /** Every start time is non-negative, as every parsed entry's is. */
  predicate NonNegativeTimes(lyrics: seq<LyricLine>) {
    forall i :: 0 <= i < |lyrics| ==> lyrics[i].startTime >= 0.0
  }

  /** No more than one line carries the `active` class. */
  predicate AtMostOneActive(flags: seq<bool>) {
    forall i, j :: 0 <= i < |flags| && 0 <= j < |flags| && flags[i] && flags[j] ==> i == j
  }

  /**
   * The line `updateCurrentLyric` selects, or -1 when it returns early
   * (no player, here no time reading, or no lyrics) or finds no line.
   */
  function Selected(lyrics: seq<LyricLine>, rawTime: Option<real>, offset: real): (r: int)
    ensures -1 <= r < |lyrics|
  {
    if rawTime.None? || |lyrics| == 0 then -1 else ActiveIndex(lyrics, rawTime.value + offset)
  }

  /**
   * The flags after one update: when a line is selected, element `j` is
   * active exactly when `j` is that line; otherwise nothing changes.
   */
  function Highlighted(flags: seq<bool>, selected: int): (r: seq<bool>)
    ensures |r| == |flags|
  {
    if selected < 0 then flags else seq(|flags|, j => j == selected)
  }

  /** The clock text after one update: rewritten only when a line is selected and the display exists. */
  function ClockAfter(clock: Option<string>, lyrics: seq<LyricLine>, rawTime: Option<real>, offset: real): (r: Option<string>)
    requires NonNegativeTimes(lyrics)
    ensures r.Some? <==> clock.Some?
    ensures Selected(lyrics, rawTime, offset) < 0 ==> r == clock
  {
    var selected := Selected(lyrics, rawTime, offset);
    if selected < 0 || clock.None? then clock
    else
      assert lyrics[selected].startTime <= rawTime.value + offset;
      Some(FormatTime(rawTime.value + offset))
  }

  /**
   * When a line is selected and the clock element exists, the clock shows
   * the whole minutes and seconds of player time plus offset, which is never
   * negative because the selected line starts at zero or later.
   */
  lemma ClockShowsSelectedTime(clock: Option<string>, lyrics: seq<LyricLine>, rawTime: real, offset: real)
    requires NonNegativeTimes(lyrics) && clock.Some? && Selected(lyrics, Some(rawTime), offset) >= 0
    ensures rawTime + offset >= 0.0
    ensures ParseClock(ClockAfter(clock, lyrics, Some(rawTime), offset).value) ==
              Some(Reading((rawTime + offset).Floor / 60, (rawTime + offset).Floor % 60))
  {
    var t := rawTime + offset;
    assert lyrics[Selected(lyrics, Some(rawTime), offset)].startTime <= t;
    ParseFormatTime(t);
  }

  /** A selected line is the only active one afterwards, when it has an element. */
  lemma HighlightSelects(flags: seq<bool>, selected: int)
    requires 0 <= selected
    ensures forall j :: 0 <= j < |flags| ==> (Highlighted(flags, selected)[j] <==> j == selected)
    ensures selected < |flags| ==> Highlighted(flags, selected)[selected]
  {
  }

  /** Without a selection the flags, including any earlier highlight, stay as they were. */
  lemma HighlightKeepsWithoutSelection(flags: seq<bool>, lyrics: seq<LyricLine>, rawTime: Option<real>, offset: real)
    requires rawTime.None? || |lyrics| == 0 || ActiveIndex(lyrics, rawTime.value + offset) == -1
    ensures Highlighted(flags, Selected(lyrics, rawTime, offset)) == flags
  {
  }

  /** An update never leaves two lines active if there were not two before. */
  lemma HighlightKeepsAtMostOne(flags: seq<bool>, selected: int)
    requires AtMostOneActive(flags)
    ensures AtMostOneActive(Highlighted(flags, selected))
  {
  }

  /** Repeating an update with the same inputs changes nothing more. */
  lemma HighlightIdempotent(flags: seq<bool>, selected: int)
    ensures Highlighted(Highlighted(flags, selected), selected) == Highlighted(flags, selected)
  {
  }

  /**
   * On a sorted track, once the first line has started, an update leaves
   * active exactly the element of the last line that has started by
   * `rawTime + offset`.
   */
  lemma SortedTrackHighlight(flags: seq<bool>, lyrics: seq<LyricLine>, rawTime: real, offset: real)
    requires Sorted(lyrics) && |lyrics| > 0 && lyrics[0].startTime <= rawTime + offset
    ensures forall j :: 0 <= j < |flags| ==>
              (Highlighted(flags, Selected(lyrics, Some(rawTime), offset))[j] <==>
                 j < |lyrics| && lyrics[j].startTime <= rawTime + offset &&
                 forall k :: j < k < |lyrics| ==> lyrics[k].startTime > rawTime + offset)
  {
    var t := rawTime + offset;
    var selected := Selected(lyrics, Some(rawTime), offset);
    assert selected == ActiveIndex(lyrics, t);
    SortedActiveIndex(lyrics, t);
    var r := Highlighted(flags, selected);
    assert r == seq(|flags|, j => j == selected);
    forall j | 0 <= j < |flags| && j < |lyrics|
      ensures r[j] <==> lyrics[j].startTime <= t && forall k :: j < k < |lyrics| ==> lyrics[k].startTime > t
    {
      SortedActiveIsLastStarted(lyrics, t, j);
    }
  }

  /** On a sorted track, a larger offset never selects an earlier line. */
  lemma SelectedMonotone(lyrics: seq<LyricLine>, rawTime: Option<real>, o1: real, o2: real)
    requires Sorted(lyrics) && o1 <= o2
    ensures Selected(lyrics, rawTime, o1) <= Selected(lyrics, rawTime, o2)
  {
    if rawTime.Some? && |lyrics| > 0 {
      ActiveIndexMonotone(lyrics, rawTime.value + o1, rawTime.value + o2);
    }
  }

  /**
   * On a sorted track, moving the offset later by one step never moves the
   * selection to an earlier line, and moving it earlier never moves it to
   * a later one.
   */
  lemma OffsetStepMonotone(lyrics: seq<LyricLine>, rawTime: Option<real>, offset: real)
    requires Sorted(lyrics)
    ensures Selected(lyrics, rawTime, offset - OffsetStep) <= Selected(lyrics, rawTime, offset)
    ensures Selected(lyrics, rawTime, offset) <= Selected(lyrics, rawTime, offset + OffsetStep)
  {
    SelectedMonotone(lyrics, rawTime, offset - OffsetStep, offset);
    SelectedMonotone(lyrics, rawTime, offset, offset + OffsetStep);
  }

  class LyricSession {
    /** `currentLyrics`. */
    var lyrics: seq<LyricLine>
    /** `timeOffset`, in seconds. */
    var timeOffset: real
    /** The `active` class of each `.lyric-line` element, in document order. */
    var lineActive: array<bool>
    /** The text of the `currentTime` element; None when the page has none. */
    var clock: Option<string>

    predicate Valid()
      reads this, lineActive
    {
      NonNegativeTimes(lyrics) && AtMostOneActive(lineActive[..])
    }

    /** Page load: no lyrics, no offset, no line elements. */
    constructor (clock: Option<string>)
      ensures Valid() && fresh(lineActive)
      ensures lyrics == [] && timeOffset == 0.0 && lineActive.Length == 0 && this.clock == clock
    {
      lyrics := [];
      timeOffset := 0.0;
      lineActive := new bool[0];
      this.clock := clock;
    }

    /**
     * `displayLyricsWithPinyin`: the lyrics become `currentLyrics` and the
     * view gets one fresh, inactive element per line.
     */
    method Display(newLyrics: seq<LyricLine>)
      requires NonNegativeTimes(newLyrics)
      modifies this
      ensures Valid() && fresh(lineActive)
      ensures lyrics == newLyrics && lineActive[..] == seq(|newLyrics|, _ => false)
      ensures timeOffset == old(timeOffset) && clock == old(clock)
    {
      lyrics := newLyrics;
      lineActive := new bool[|newLyrics|](_ => false);
    }

    /**
     * The view's content replaced by the loading spinner or the error
     * message: the line elements are gone, `currentLyrics` stays.
     */
    method ShowPlaceholder()
      requires Valid()
      modifies this
      ensures Valid() && fresh(lineActive) && lineActive.Length == 0
      ensures lyrics == old(lyrics) && timeOffset == old(timeOffset) && clock == old(clock)
    {
      lineActive := new bool[0];
    }

    /**
     * A click on a search result: the spinner replaces the lines; then the
     * fetched `syncedLyrics` are parsed and displayed, or, when there is no
     * text to parse (None: the fetch failed or the record has none, so
     * `parseLyrics` throws), the error message replaces the spinner and
     * `currentLyrics` stays.
     */
    method SelectResult(syncedLyrics: Option<string>)
      requires Valid()
      modifies this
      ensures Valid() && fresh(lineActive)
      ensures syncedLyrics.Some? ==>
                lyrics == ParseAll(Text.SplitLines(syncedLyrics.value)) &&
                lineActive[..] == seq(|lyrics|, _ => false)
      ensures syncedLyrics.None? ==> lyrics == old(lyrics) && lineActive.Length == 0
      ensures timeOffset == old(timeOffset) && clock == old(clock)
    {
      ShowPlaceholder();
      if syncedLyrics.Some? {
        var parsed := ParseLyrics(syncedLyrics.value);
        assert NonNegativeTimes(parsed);
        Display(parsed);
      } else {
        ShowPlaceholder();
      }
    }

    /**
     * `updateCurrentLyric` at player time `rawTime` (None: no player):
     * when the scan selects a line, that line's element alone becomes
     * active and the clock shows `rawTime + timeOffset`; otherwise nothing
     * changes.
     */
    method UpdateCurrentLyric(rawTime: Option<real>)
      requires Valid()
      modifies lineActive, this`clock
      ensures Valid()
      ensures lineActive[..] == Highlighted(old(lineActive[..]), Selected(lyrics, rawTime, timeOffset))
      ensures clock == ClockAfter(old(clock), lyrics, rawTime, timeOffset)
    {
      if rawTime.None? || |lyrics| == 0 {
        return;
      }
      var currentTime := rawTime.value + timeOffset;
      var currentIndex := FindActiveIndex(lyrics, currentTime);
      if currentIndex >= 0 {
        for j := 0 to lineActive.Length
          modifies lineActive
          invariant forall k :: 0 <= k < j ==> lineActive[k] == (k == currentIndex)
          invariant forall k :: j <= k < lineActive.Length ==> lineActive[k] == old(lineActive[k])
        {
          lineActive[j] := j == currentIndex;
        }
        assert lineActive[..] == Highlighted(old(lineActive[..]), currentIndex);
        HighlightKeepsAtMostOne(old(lineActive[..]), currentIndex);
        if clock.Some? {
          clock := Some(FormatTime(currentTime));
        }
      }
    }

    /** The "earlier" button: the offset drops by half a second and the highlight is redone at once. */
    method AdjustEarlier(rawTime: Option<real>)
      requires Valid()
      modifies this, lineActive
      ensures Valid() && lineActive == old(lineActive) && lyrics == old(lyrics)
      ensures timeOffset == old(timeOffset) - OffsetStep
      ensures lineActive[..] == Highlighted(old(lineActive[..]), Selected(lyrics, rawTime, timeOffset))
      ensures clock == ClockAfter(old(clock), lyrics, rawTime, timeOffset)
    {
      timeOffset := timeOffset - OffsetStep;
      UpdateCurrentLyric(rawTime);
    }

    /** The "later" button: the offset grows by half a second and the highlight is redone at once. */
    method AdjustLater(rawTime: Option<real>)
      requires Valid()
      modifies this, lineActive
      ensures Valid() && lineActive == old(lineActive) && lyrics == old(lyrics)
      ensures timeOffset == old(timeOffset) + OffsetStep
      ensures lineActive[..] == Highlighted(old(lineActive[..]), Selected(lyrics, rawTime, timeOffset))
      ensures clock == ClockAfter(old(clock), lyrics, rawTime, timeOffset)
    {
      timeOffset := timeOffset + OffsetStep;
      UpdateCurrentLyric(rawTime);
    }
  }
}
