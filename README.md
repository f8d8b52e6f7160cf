# Synchronised lyrics for a YouTube player

The page plays a YouTube video, fetches the song's time-stamped lyrics
in LRC format, and shows them one line per element. While the video plays,
it highlights the line being sung. Two buttons move the lyrics half a second
earlier or later. This project models that core in Dafny:

- **Wrappers** (`wrappers.dfy`): `Option`. It also keeps the `Some` entries
  of a sequence together with their positions.
- **Decimal** (`decimal.dfy`): `parseInt` applied to a run of decimal
  digits (`Value`), and the decimal text of a whole number (`Digits`), as
  produced by a template literal `${n}`.
- **Text** (`text.dfy`): JavaScript's `String.prototype.trim`, with its
  white-space set written out, and `split('\n')`.
- **Lrc** (`lrc.dfy`): `parseLyrics`. The pattern
  `\[(\d+):(\d+)\.(\d+)\]` is modelled as a leftmost search for a stamp
  whose three digit runs are maximal. `replace` removes that first stamp,
  the rest is trimmed, and lines whose text comes out empty are dropped.
- **Sync** (`sync.dfy`): the scan in `updateCurrentLyric` that picks the
  line being sung.
- **Clock** (`clock.dfy`): `formatTime` of utils.js.
- **Session** (`session.dfy`): the page state, as the class `LyricSession`.
  It holds:
  - `currentLyrics`;
  - `timeOffset`;
  - the `active` class of every `.lyric-line` element, as an array of flags;
  - the text of the `currentTime` element.

  Its methods are the displaying of parsed lyrics, the update on every tick,
  and the two offset buttons.

Times are exact reals. The player's reading arrives as a parameter:
`None` stands for "no player yet", and `Some(t)` for `getCurrentTime()`
returning `t`.

## Model

| member | source | states |
|---|---|---|
| Text.Trim | app.js:177 | The result starts and ends with a character outside JavaScript's white-space set, or is empty |
| Text.TrimSlice | app.js:177 | The trimmed text is the slice of the input left after removing the leading run and the trailing run of white space |
| Text.TrimEmpty | app.js:177-179 | Trimming gives the empty string exactly when the text is all white space, which is when the line is dropped |
| Text.TrimTrimmed | app.js:177 | Text without white space at either end is unchanged by trimming, so trimming is idempotent |
| Text.SplitLines | app.js:166 | Splitting at `'\n'` always yields at least one piece, and no piece contains `'\n'` |
| Text.JoinSplit | app.js:166 | Joining the pieces with `'\n'` gives back the original text |
| Text.SplitJoin | app.js:166 | Splitting a `'\n'`-join of newline-free pieces gives back exactly those pieces |
| Text.SplitCount | app.js:166 | The number of pieces is the number of `'\n'` characters plus one |
| Decimal.Digits | utils.js:31 | The decimal text of a number is canonical: nonempty, all digits, and no leading zero unless it is `"0"` |
| Decimal.Value | app.js:173-175 | `parseInt` of `k` digits is below `10^k`; `ValueOfDigits` and `DigitsOfValue` pin it down as the inverse of the decimal text, and `ValueAppend` and `LeadingZerosIgnored` cover every digit string, padded or not |
| Decimal.ValueSnoc | app.js:173-175 | One more digit on the right multiplies the value by ten and adds that digit |
| Decimal.ValueAppend | app.js:173-175 | Reading `a + b` gives the value of `a` times `10^|b|` plus the value of `b`, for any digit strings |
| Decimal.ValueZeros | app.js:173-175 | A run of zeros of any length reads as 0 |
| Decimal.LeadingZerosIgnored | app.js:173-175 | Leading zeros do not change the value, so a padded field such as `"050"` reads as 50 |
| Decimal.ValueOfDigits | app.js:173-175 | `parseInt` of the decimal text of `n` is `n` |
| Decimal.DigitsOfValue | app.js:173-175 | A canonical digit string is the decimal text of its own `parseInt` value |
| Lrc.DigitRun | app.js:167 | The maximal, possibly empty, run of ASCII digits from a position: it covers only digits and stops at a non-digit or at the end of the line (`MatchAt` requires each field's run to be nonempty, as `\d+` does) |
| Lrc.MatchAt | app.js:167 | A match reported at position `p` is a stamp `[digits:digits.digits]` starting at `p` |
| Lrc.MatchAtComplete | app.js:167 | Every stamp in the line is found by the match attempt at its own start position |
| Lrc.FirstStamp | app.js:171 | The scan returns a real stamp, and no stamp starts at any earlier position it passed |
| Lrc.FirstStampLeftmost | app.js:171 | `match` finds nothing exactly when the line holds no stamp; otherwise it finds the leftmost stamp |
| Lrc.WithoutStamp | app.js:177 | The non-global `replace` removes exactly the stamp's characters: putting them back at the stamp's start gives the line again |
| Lrc.TagTime | app.js:176 | `minutes*60 + seconds + centiseconds/100` is at least the whole seconds, and below the next second when the fraction field is under 100 |
| Lrc.StampTime | app.js:173-176 | A stamp's start time is never negative, and with a fraction field of at most two digits it falls within the stamp's whole second |
| Lrc.TagMatches | app.js:167 | A line that begins `[a:b.c]` matches at position 0, its fields read `a`, `b` and `c`, and removing the stamp leaves the rest of the line |
| Lrc.ParseLine | app.js:171-185 | Every entry a line yields has nonempty trimmed text and a start time of zero or more |
| Lrc.ParseLineMeaning | app.js:171-185 | If the line's leftmost stamp is `st`, the line yields `minutes*60 + seconds + fraction/100` and the trimmed text without that stamp, unless that text is blank |
| Lrc.ParseLineUntagged | app.js:171-172 | A line without any stamp yields no entry |
| Lrc.ParseTaggedLine | app.js:173-183 | `[a:b.c]rest` with `rest` not blank yields start time `Value(a)*60 + Value(b) + Value(c)/100` and text `trim(rest)` |
| Lrc.ParseBlankLine | app.js:177-179 | `[a:b.c]` followed only by white space yields no entry |
| Lrc.ParseTagged | app.js:173-183 | Round trip: the stamp written from numbers `m`, `s` and `f`, followed by text, parses back to those numbers and the trimmed text |
| Lrc.ParseAll | app.js:170-186 | The `forEach`/`push` yields at most one entry per line; `ParseAllOrigins` says which line each entry comes from |
| Lrc.ParseAllOrigins | app.js:170-186 | The entries are at most as many as the lines. Each entry is what its source line yields. Source lines come in increasing order, and every line not listed yields nothing |
| Lrc.ParseAllWellFormed | app.js:170-186 | Every parsed entry has nonempty trimmed text and a non-negative start time |
| Lrc.ParseLyrics | app.js:165-189 | The loop's result is the in-order list of entries from the `'\n'`-pieces. It has at most one entry per piece, and every entry is well-formed |
| Sync.ActiveFrom | app.js:101-108 | The result is -1 or the first index from `k` whose line has started and is not yet followed by a started line. No earlier index qualifies |
| Sync.ActiveIndex | app.js:101-108 | The scan's result is -1 or an index into the lyrics; it is -1 exactly when no index passes the test, and otherwise it passes the test |
| Sync.FindActiveIndex | app.js:101-108 | The loop returns -1 exactly when no index qualifies. Otherwise it returns a qualifying index with none before it, and the result equals `ActiveIndex` |
| Sync.SortedActiveIndex | app.js:102-104 | On a track sorted by start time, the scan gives -1 exactly when the track is empty or `t` precedes the first line. Otherwise the selected line has started and every later line starts after `t` |
| Sync.SortedActiveIsLastStarted | app.js:102-104 | On a sorted track, line `j` is selected exactly when it is the last line to have started by `t` |
| Sync.ActiveIndexMonotone | app.js:98-104 | On a sorted track, a later time never selects an earlier line |
| Sync.ExampleTrack | app.js:101-108 | For starts 0, 2 and 5: times -1, 0, 1.9, 2, 4.999 and 100 select -1, 0, 0, 1, 1 and 2 |
| Session.Selected | app.js:96-108 | The selection is -1 or an index into the lyrics. It is -1 when there is no player or no lyrics |
| Session.ClockAfter | app.js:129-133 | The clock element keeps existing or not existing, and its text is unchanged when no line is selected |
| Session.ClockShowsSelectedTime | app.js:98-133 | After a selection the clock text reads back as the whole minutes and seconds of player time plus offset, which is never negative |
| Session.Highlighted | app.js:111-127 | The update keeps one flag per element |
| Session.HighlightSelects | app.js:111-127 | After a selection, element `j` is active exactly when `j` is the selected index |
| Session.HighlightKeepsWithoutSelection | app.js:96-111 | With no player, no lyrics or no qualifying line, every flag (including an earlier highlight) stays as it was |
| Session.HighlightKeepsAtMostOne | app.js:111-127 | An update never makes two elements active |
| Session.HighlightIdempotent | app.js:111-127 | Repeating an update with the same selection changes nothing more |
| Session.SortedTrackHighlight | app.js:98-127 | On a sorted track, once the first line has started, element `j` is active after the update exactly when line `j` is the last line to have started by player time plus offset |
| Session.SelectedMonotone | app.js:98-108 | On a sorted track, a larger offset never selects an earlier line |
| Session.OffsetStepMonotone | app.js:351-359 | On a sorted track, the earlier button never moves the selection to a later line, and the later button never moves it to an earlier one |
| Session.LyricSession.constructor | app.js:3-4 | Page load: no lyrics, offset 0, no line elements |
| Session.LyricSession.Display | app.js:192-211 | `currentLyrics` becomes the given lyrics, and there is one new inactive element per line. The offset and clock are unchanged |
| Session.LyricSession.ShowPlaceholder | app.js:247 | The spinner or the error text replaces the line elements, and `currentLyrics` stays |
| Session.LyricSession.SelectResult | app.js:245-263 | The spinner first replaces the lines. With fetched text, `currentLyrics` becomes its parse, with one inactive element per entry. Without text to parse, the error message leaves no line elements and `currentLyrics` unchanged |
| Session.LyricSession.UpdateCurrentLyric | app.js:95-135 | The flags become `Highlighted(old flags, selection)`, with at most one active element. The clock shows `formatTime(time + offset)` exactly when a line is selected and the clock element exists |
| Session.LyricSession.AdjustEarlier | app.js:351-354 | The offset drops by 0.5, and the flags and clock are those of an immediate update at the new offset |
| Session.LyricSession.AdjustLater | app.js:356-359 | The offset grows by 0.5, and the flags and clock are those of an immediate update at the new offset |
| Clock.FormatTime | utils.js:28-32 | The text is digits, a colon, and two digits; `ParseFormatTime`, `FormatTimeMinutesCanonical` and `TwoDigitsShape` say which digits |
| Clock.WholeMinutes | utils.js:29 | `60*m <= seconds < 60*m + 60` |
| Clock.SecondsOfMinute | utils.js:30 | The seconds field is below 60 |
| Clock.FormatTimeFields | utils.js:29-30 | `mins*60 + secs == floor(seconds)`, so `mins` is `floor(seconds)/60` and `secs` is `floor(seconds) % 60` |
| Clock.TwoDigitsShape | utils.js:31 | The seconds field is exactly two digits, starts with `'0'` exactly when below ten, and reads back as the seconds |
| Clock.FormatTimeMinutesCanonical | utils.js:31 | The text before the colon is the canonical decimal text of the minutes |
| Clock.ParseFormatTime | utils.js:28-32 | Reading `M:SS` back from the output gives `floor(x)/60` and `floor(x) % 60` |
| Clock.FormatTimeSameWhenSameSecond | utils.js:28-32 | Two times give the same text exactly when they fall in the same whole second |

## Left out

- Network calls (`getLyrics`, the search request), the YouTube player object and its API, the polling timer, smooth scrolling, the pinyin conversion, tab switching and every other DOM effect. The player's time enters only as a parameter.
- `getYouTubeVideoId`, `debounce` and `showError`: these are not part of this model.
- IEEE double arithmetic is not modelled. Times are exact reals, so `centiseconds / 100` and the offset steps do not round.
- `parseInt` beyond 2^53 is not modelled: `Value` is exact for any number of digits.
- `${n}` is not modelled for numbers at or above 1e21, where JavaScript switches to exponent notation. `Digits` always writes plain decimal.
- Seeking the player to a line by clicking it is not modelled: app.js has no such handler.
- Clock.FormatTime: requires a non-negative argument. The page only formats a time some line has already reached, so the argument is never negative. `formatTime` of a negative number (for example `formatTime(-0.5)` gives `-1:0-1`) is not modelled.
- Lrc.ParseLine: the fraction field is read as hundredths whatever its length, as the code does. So `.5` means 0.05 s and `.500` means 5 s.
- Sync.FindActiveIndex: the code returns the FIRST index whose line has started and whose next line has not. A natural reading is "the last line that has started". `SortedActiveIndex` and `SortedActiveIsLastStarted` show the two agree on tracks sorted by start time; on unsorted tracks they may differ.
- Session.LyricSession.UpdateCurrentLyric: when no line qualifies, the earlier highlight stays in place, as the code leaves the classes untouched. The number of elements need not equal the number of lyrics (the spinner and the error text remove the elements while `currentLyrics` stays).
- Session.LyricSession.SelectResult: a fetched record without `syncedLyrics` makes `parseLyrics` throw; the model receives that case, and a failed fetch, as `None` and shows the error message. The kind of failure and the asynchronous order of the fetch are not modelled.
