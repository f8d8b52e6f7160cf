/**
 * The active-line lookup of `updateCurrentLyric` (app.js:101-108): a
 * linear scan for the first line that has started by time `t` and whose
 * successor, if any, has not.
 */
module Sync {
  import opened Lrc

  /** Line `i` is the current one at time `t`, by the scan's own test. */
  predicate IsActiveAt(lyrics: seq<LyricLine>, i: int, t: real) {
    0 <= i < |lyrics| && lyrics[i].startTime <= t &&
    (i == |lyrics| - 1 || lyrics[i + 1].startTime > t)
  }

  /** The first index at or after `k` that passes the test, or -1. */
  function ActiveFrom(lyrics: seq<LyricLine>, t: real, k: nat): (r: int)
    requires k <= |lyrics|
    ensures r == -1 || (k <= r && IsActiveAt(lyrics, r, t))
    ensures forall j :: k <= j < |lyrics| && (r == -1 || j < r) ==> !IsActiveAt(lyrics, j, t)
    decreases |lyrics| - k
  {
    if k == |lyrics| then -1
    else if IsActiveAt(lyrics, k, t) then k
    else ActiveFrom(lyrics, t, k + 1)
  }

  /** The index the scan settles on at time `t`, or -1. */
  function ActiveIndex(lyrics: seq<LyricLine>, t: real): (r: int)
    ensures -1 <= r < |lyrics|
    ensures r == -1 <==> forall j :: 0 <= j < |lyrics| ==> !IsActiveAt(lyrics, j, t)
    ensures r != -1 ==> IsActiveAt(lyrics, r, t)
  {
    ActiveFrom(lyrics, t, 0)
  }

  /**
   * The loop of `updateCurrentLyric`: the first index that passes the test,
   * and -1 exactly when none does.
   */
  method FindActiveIndex(lyrics: seq<LyricLine>, t: real) returns (index: int)
    ensures index == -1 <==> forall j :: 0 <= j < |lyrics| ==> !IsActiveAt(lyrics, j, t)
    ensures index != -1 ==> IsActiveAt(lyrics, index, t)
    ensures forall j :: 0 <= j < index ==> !IsActiveAt(lyrics, j, t)
    ensures index == ActiveIndex(lyrics, t)
  {
    index := -1;
    for i := 0 to |lyrics|
      invariant index == -1
      invariant forall j :: 0 <= j < i ==> !IsActiveAt(lyrics, j, t)
    {
      if lyrics[i].startTime <= t && (i == |lyrics| - 1 || lyrics[i + 1].startTime > t) {
        assert IsActiveAt(lyrics, i, t);
        index := i;
        break;
      }
    }
  }

  /** Start times never decrease along the track. */
  predicate Sorted(lyrics: seq<LyricLine>) {
    forall i, j :: 0 <= i < j < |lyrics| ==> lyrics[i].startTime <= lyrics[j].startTime
  }

  /** On a sorted track, a line that has started is followed by a line that passes the test. */
  lemma {:induction false} SortedActiveExists(lyrics: seq<LyricLine>, t: real, k: nat)
    requires Sorted(lyrics) && k < |lyrics| && lyrics[k].startTime <= t
    ensures ActiveFrom(lyrics, t, k) >= k
    decreases |lyrics| - k
  {
    if !IsActiveAt(lyrics, k, t) {
      SortedActiveExists(lyrics, t, k + 1);
    }
  }

  /**
   * On a sorted track the scan finds nothing exactly when the track is
   * empty or `t` is before the first line; otherwise it finds the last
   * line that has started by `t`.
   */
  lemma SortedActiveIndex(lyrics: seq<LyricLine>, t: real)
    requires Sorted(lyrics)
    ensures ActiveIndex(lyrics, t) == -1 <==> |lyrics| == 0 || t < lyrics[0].startTime
    ensures ActiveIndex(lyrics, t) != -1 ==>
              lyrics[ActiveIndex(lyrics, t)].startTime <= t &&
              forall j :: ActiveIndex(lyrics, t) < j < |lyrics| ==> lyrics[j].startTime > t
  {
    if |lyrics| > 0 && lyrics[0].startTime <= t {
      SortedActiveExists(lyrics, t, 0);
    }
  }

  /** On a sorted track the scan selects line `j` exactly when `j` is the last line started by `t`. */
  lemma SortedActiveIsLastStarted(lyrics: seq<LyricLine>, t: real, j: int)
    requires Sorted(lyrics) && 0 <= j < |lyrics|
    ensures ActiveIndex(lyrics, t) == j <==>
              lyrics[j].startTime <= t && forall k :: j < k < |lyrics| ==> lyrics[k].startTime > t
  {
    SortedActiveIndex(lyrics, t);
  }

  /** On a sorted track, a later time never selects an earlier line. */
  lemma ActiveIndexMonotone(lyrics: seq<LyricLine>, t1: real, t2: real)
    requires Sorted(lyrics) && t1 <= t2
    ensures ActiveIndex(lyrics, t1) <= ActiveIndex(lyrics, t2)
  {
    SortedActiveIndex(lyrics, t1);
    SortedActiveIndex(lyrics, t2);
  }

  /**
   * The track [0 s "A", 2 s "B", 5 s "C"]: nothing before 0 s, then A until
   * 2 s, B until 5 s, and C from then on.
   */
  lemma ExampleTrack()
    ensures var track := [LyricLine(0.0, "A"), LyricLine(2.0, "B"), LyricLine(5.0, "C")];
      ActiveIndex(track, -1.0) == -1 && ActiveIndex(track, 0.0) == 0 && ActiveIndex(track, 1.9) == 0 &&
      ActiveIndex(track, 2.0) == 1 && ActiveIndex(track, 4.999) == 1 && ActiveIndex(track, 100.0) == 2
  {
  }
}
