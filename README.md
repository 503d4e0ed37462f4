# Penn Dining hours and venue tables, in Dafny

This project models the pure logic attached to the records of the Penn Dining
venue feed, from `Application/Models/FetchData.swift`. It covers three parts:

- **`Daypart.time()`.** It parses an interval's two feed timestamps with the
  pattern `yyyy-MM-dd'T'HH:mm:ss` and renders each end with `h:mma`. It then
  strips `:00`, shortens `AM`/`PM` to `a`/`p`, and joins the two ends with
  `" - "`. When either timestamp fails to parse it returns the empty text.
- **`ResponseItem.formatHours(day:)`.** It returns `CLOSED TODAY` for a day that
  is not `open` or that has no interval. Otherwise it sorts the intervals with a
  start-time comparator, joins their `time()` texts with `" | "`, and deletes
  every `a` and `p` when the result holds a `|`.
- **`ResponseItem.url` and `ResponseItem.isCafe`.** These are the two name-keyed
  tables: the detail page of a venue, and whether the venue is listed as retail.

The records `ResponseItem`, `Day` and `Daypart` are datatypes. All of this code
is expressions and library calls over immutable values, so the model is pure:
functions plus lemmas about them. There are six modules:

- `Options`: the `Option` type.
- `Strings`: `replacingOccurrences(of:with:)`, `joined(separator:)`, and
  character deletion, with their algebra.
- `DateFormats`: the two `DateFormatter` patterns, with the round trip of the
  feed pattern.
- `FetchData`: the records, `time()`, the comparator, the sort and `formatHours`.
- `Venues`: `url` and `isCafe`.
- `HoursExamples`: concrete days worked out from the general lemmas.

The comparator builds its own formatter. In the model it is the parameter
`parse` of `FormatHours`:

- `BareParse` is the formatter the code builds: a bare `DateFormatter()` with no
  `dateFormat`, which reads no feed timestamp.
- `ParseFeed` is the feed-pattern formatter that the surrounding comment
  ("sorts dayparts dates into ascending order") evidently intends.

The model follows the code as written. The gap between the formatter the
comparator builds and the one `time()` builds at lines 143-144 is a finding
below.

## Model

| member | source | states |
|---|---|---|
| FetchData.Time | Application/Models/FetchData.swift:140-168 | `time()` is the empty text exactly when the start or the end timestamp fails to parse with the feed pattern; otherwise it holds only digits, `:`, `a`, `p`, space and `-` |
| FetchData.TimeReadsBothEnds | Application/Models/FetchData.swift:151-167 | when both timestamps parse, `time()` is the start's short clock, `" - "`, and the end's short clock |
| FetchData.RangeText | Application/Models/FetchData.swift:150-167 | the body of `time()` after parsing: empty exactly when a parse failed, and made of clock characters |
| FetchData.ShortClock | Application/Models/FetchData.swift:156-164 | the reference rendering of one end: the 12-hour dial text, then `a` before noon or `p` from noon on |
| FetchData.DialText | Application/Models/FetchData.swift:156-158 | the hour on the 12-hour dial, with the minutes only when they are not zero; non-empty and free of `a` and `p` |
| FetchData.ClockText | Application/Models/FetchData.swift:156-164 | one end as `time()` writes it: the `h:mma` rendering, then `:00` removed, then `AM`→`a`, then `PM`→`p`; the contract equates this chain with the reference rendering `ShortClock` (e.g. `11a`, `2p`, `10:30a`), and `ShortClockDeterminesTime` carries that the chain loses no hour or minute |
| FetchData.StripZeroMinutes | Application/Models/FetchData.swift:157-158 | removing `:00` from an `h:mma` rendering removes the minutes exactly when the time is on the hour, and nothing else |
| FetchData.StripOnTheHour | Application/Models/FetchData.swift:157-158 | on the hour, `:00` and only `:00` disappears |
| FetchData.StripOffTheHour | Application/Models/FetchData.swift:157-158 | off the hour, removing `:00` changes nothing, even for minutes such as `:05` that start with `0` |
| FetchData.MorningMarker | Application/Models/FetchData.swift:161-164 | the two marker rewrites turn a trailing `AM` into `a` and leave the digits alone |
| FetchData.AfternoonMarker | Application/Models/FetchData.swift:161-164 | the two marker rewrites turn a trailing `PM` into `p` and leave the digits alone |
| FetchData.DialTextColon | Application/Models/FetchData.swift:157-158 | once `:00` is gone, an end shows a colon exactly when its minutes are not zero |
| FetchData.DialTextDeterminesTime | Application/Models/FetchData.swift:156-158 | two times on the same half of the day with the same dial text have the same hour and minute |
| FetchData.ShortClockDeterminesTime | Application/Models/FetchData.swift:156-164 | one end's rendering loses nothing: equal renderings mean equal hour and minute, midnight and noon included |
| FetchData.RangeDeterminesTimes | Application/Models/FetchData.swift:166-167 | two `start - end` texts are equal exactly when the starts and the ends show the same clock times |
| FetchData.TimeTellsApart | Application/Models/FetchData.swift:140-168 | for intervals whose ends parse, `time()` gives the same text if and only if the starts and the ends have the same hour and minute |
| FetchData.CompactTime | Application/Models/FetchData.swift:111-113 | deleting `a` and `p` from a parsed interval's `time()` leaves the two dial texts around `" - "` |
| FetchData.CompactRange | Application/Models/FetchData.swift:111-113 | the same for the range text of two parsed timestamps |
| FetchData.CompactShortClock | Application/Models/FetchData.swift:111-113 | deleting `a` and `p` from one end's rendering leaves its dial text |
| FetchData.Times | Application/Models/FetchData.swift:108 | the map of `time()` over the sorted intervals, position by position |
| FetchData.StartsBefore | Application/Models/FetchData.swift:101-104 | the sort comparator: true only when both start times parse with the comparator's formatter and the first is strictly earlier, and then the reverse comparison is false; `StartsBeforeAsymmetric` and `UnparsedStartsKeepOrder` carry its consequences |
| FetchData.StartsBeforeAsymmetric | Application/Models/FetchData.swift:101-105 | the comparator answers true only when both start times parse, and never for both orders of a pair |
| FetchData.Insert | Application/Models/FetchData.swift:101-105 | one insertion step: one element longer, and the same elements plus the inserted one |
| FetchData.SortByStart | Application/Models/FetchData.swift:100-105 | `sorted(by:)` returns a rearrangement of the intervals: same length, same multiset |
| FetchData.SortKeepsFeedOrder | Application/Models/FetchData.swift:101-105 | intervals none of which compares less than its predecessor come out exactly in feed order (a consequence of stability) |
| FetchData.SortTwo | Application/Models/FetchData.swift:101-105 | two intervals are swapped exactly when the second starts before the first |
| FetchData.UnparsedStartsKeepOrder | Application/Models/FetchData.swift:102-103 | when no start time parses, the comparator always answers false and the order is unchanged |
| FetchData.InsertAscending | Application/Models/FetchData.swift:101-105 | inserting into an ascending sequence, all of whose starts parse, keeps it ascending |
| FetchData.AppendAscending | Application/Models/FetchData.swift:101-105 | appending an interval that starts no earlier than all others keeps a sequence ascending |
| FetchData.SortAscending | Application/Models/FetchData.swift:100-105 | when every start time parses, no later interval of the result compares less than an earlier one |
| FetchData.SortChronological | Application/Models/FetchData.swift:100-105 | when every start time parses, the result's start times are in non-decreasing chronological order |
| FetchData.Compact | Application/Models/FetchData.swift:113 | the two `replacingOccurrences` calls with an empty replacement delete every `a` and every `p` |
| FetchData.CompactKeepsOut | Application/Models/FetchData.swift:113 | compacting never brings in a character other than `a` and `p` |
| FetchData.CombinedTimes | Application/Models/FetchData.swift:108-109 | the sorted intervals' `time()` texts joined by `" \| "`; for n >= 1 intervals it holds no `C` and exactly n - 1 `\|`, one per separator (built on `JoinedTimesChars` and `TimesAvoid`) |
| FetchData.JoinedTimesChars | Application/Models/FetchData.swift:109 | joining n >= 1 texts free of `C` and `\|` with `" \| "` gives no `C` and n - 1 `\|` |
| FetchData.TimesAvoid | Application/Models/FetchData.swift:108 | no formatted interval holds `C` or `\|` |
| FetchData.FormatHours | Application/Models/FetchData.swift:93-117 | `formatHours(day:)` with the comparator's formatter as a parameter: the result is `CLOSED TODAY` if and only if the status is not `open` or there is no interval, whatever the intervals hold; `FormatHoursSingle` and `FormatHoursSeveral` state what an open day reads |
| FetchData.FormatHoursSingle | Application/Models/FetchData.swift:107-116 | with one interval the result is that interval's `time()` unchanged, `a`/`p` included |
| FetchData.CompactJoinedBars | Application/Models/FetchData.swift:109-113 | compacting n >= 1 `" \| "`-joined texts free of `\|` keeps all n - 1 `\|` of the separators |
| FetchData.CompactJoined | Application/Models/FetchData.swift:109-113 | compacting `" \| "`-joined texts leaves no `a` or `p` and equals the texts, each with `a` and `p` deleted, joined by `" \| "` |
| FetchData.FormatHoursSeveral | Application/Models/FetchData.swift:107-114 | with n >= 2 intervals the result has no `a` and no `p`, exactly n - 1 `\|`, and is the sorted intervals' `time()` texts with `a`/`p` deleted, joined by `" \| "` |
| FetchData.BareParse | Application/Models/FetchData.swift:102-103 | the formatter the comparator builds, a `DateFormatter()` without `dateFormat`: it reads no feed timestamp; `BareFormatterKeepsFeedOrder` carries its consequence for the sort |
| FetchData.BareFormatterKeepsFeedOrder | Application/Models/FetchData.swift:101-105 | with the bare formatter the code builds, the sort leaves the intervals in feed order |
| FetchData.FeedFormatterSortsChronologically | Application/Models/FetchData.swift:100-105 | with the feed-pattern formatter, and every start in that pattern, the intervals come out earliest to latest |
| DateFormats.TwoDigits | Application/Models/FetchData.swift:144 | the two-digit field is two digits that read back as the number |
| DateFormats.FourDigits | Application/Models/FetchData.swift:144 | the four-digit year field is four digits that read back as the number |
| DateFormats.Decimal | Application/Models/FetchData.swift:148 | the unpadded hour of `h` is one digit below 10 and two digits from 10 on, reading back as the number |
| DateFormats.DaysInMonth | Application/Models/FetchData.swift:151-152 | the day range a strict parse accepts: 28 to 31, with 29 in February exactly in leap years |
| DateFormats.RenderFeed | Application/Models/FetchData.swift:144 | the feed pattern writes 19 characters |
| DateFormats.ParseFeed | Application/Models/FetchData.swift:143-154 | a successful parse yields a valid date-time whose rendering in the pattern is the parsed text |
| DateFormats.ParseRenderFeed | Application/Models/FetchData.swift:143-154 | every valid date-time written in the feed pattern parses back to itself |
| DateFormats.RenderFeedFields | Application/Models/FetchData.swift:143-154 | writing back the fields of a well-shaped text reproduces the text |
| DateFormats.RenderedFields | Application/Models/FetchData.swift:143-154 | the rendering of a valid date-time has the feed shape and its fields read back as the date-time |
| DateFormats.Hour12 | Application/Models/FetchData.swift:148 | the 12-hour dial: 1 to 12, and equal to the hour modulo 12 |
| DateFormats.RenderClock | Application/Models/FetchData.swift:147-148 | `h:mma` writes 6 or 7 characters |
| Strings.ReplaceAll | Application/Models/FetchData.swift:157-164 | `replacingOccurrences(of:with:)`, left to right and non-overlapping: a replacement no longer than the target never lengthens the text; `ReplaceAllSkips`, `ReplaceCharByNothing` and `StripZeroMinutes` carry what each rewrite of `time()` and `formatHours` does |
| Strings.ReplaceCharByNothing | Application/Models/FetchData.swift:113 | replacing a one-character target by nothing deletes that character everywhere |
| Strings.Join | Application/Models/FetchData.swift:109 | `joined(separator:)`: the result starts with the first part; `JoinCount`, `WithoutJoin` and `JoinedTimesChars` carry its separator count and its commuting with deletion |
| Strings.WithoutJoin | Application/Models/FetchData.swift:109-113 | deleting characters the separator does not hold commutes with joining |
| Strings.JoinCount | Application/Models/FetchData.swift:109-112 | a character absent from every part and present once in the separator occurs once per gap |
| Strings.ReplaceAllSkips | Application/Models/FetchData.swift:157-164 | replacement copies a prefix lacking the target's first character unchanged |
| Venues.Page | Application/Models/FetchData.swift:57-86 | a detail page is never the placeholder |
| Venues.Url | Application/Models/FetchData.swift:55-89 | each of the fifteen names of the switch gets its page; the result is `https://example.com` exactly for every other name |
| Venues.IsCafe | Application/Models/FetchData.swift:120-122 | true exactly for the nine literals of the disjunction, `Houstong Market` and the straight-apostrophe `Joe's Café` included |
| Venues.CafesWithoutPage | Application/Models/FetchData.swift:55-122 | exactly `Houstong Market` and `Joe's Café` are cafes without a detail page; `Houston Market` and `Joe’s Café` have a page but are not cafes |
| Venues.IsCafeIntended | Application/Models/FetchData.swift:120-122 | the disjunction with both names spelled as in the URL switch |
| Venues.IntendedCafesHavePages | Application/Models/FetchData.swift:55-122 | every intended cafe has a detail page, and the intended list is the cafes with a page plus the two respelled names |
| HoursExamples.LunchReads | Application/Models/FetchData.swift:140-168 | an interval from 11:00 to 14:00 reads `11a - 2p` |
| HoursExamples.BreakfastCompacts | Application/Models/FetchData.swift:111-113 | an interval from 9:00 to 10:30 reads `9 - 10:30` once `a` and `p` are gone |
| HoursExamples.DinnerCompacts | Application/Models/FetchData.swift:111-113 | an interval from 17:00 to 20:00 reads `5 - 8` once `a` and `p` are gone |
| HoursExamples.SingleIntervalReads | Application/Models/FetchData.swift:93-117 | an open day with the single interval 11:00 to 14:00 reads `11a - 2p` |
| HoursExamples.MorningSortsFirst | Application/Models/FetchData.swift:101-105 | with the feed-pattern comparator, a morning and an evening interval of one date are sorted morning first, in either input order |
| HoursExamples.TwoIntervalsInOrder | Application/Models/FetchData.swift:93-117 | intervals 9:00–10:30 and 17:00–20:00 given in order read `9 - 10:30 \| 5 - 8` with either comparator formatter |
| HoursExamples.TwoIntervalsOutOfOrder | Application/Models/FetchData.swift:93-117 | the same intervals given evening first read `5 - 8 \| 9 - 10:30` with the bare formatter and `9 - 10:30 \| 5 - 8` with the feed-pattern formatter |
| HoursExamples.RenderedOutOfOrder | Application/Models/FetchData.swift:93-117 | the same for intervals whose feed texts are renderings of valid date-times of one date |
| HoursExamples.DinnerListedBeforeBreakfast | Application/Models/FetchData.swift:93-117 | the day with texts `2024-01-01T17:00:00`–`2024-01-01T20:00:00` then `2024-01-01T09:00:00`–`2024-01-01T10:30:00` reads `5 - 8 \| 9 - 10:30` as written |

## Left out

- `FetchData.getData()` (lines 15-43): the network requests, the primary/backup fallback, JSON decoding and the main-queue dispatch are I/O and concurrency. The `FetchData` class and its published `response` array are not modelled.
- The views that display the venue list, the hours and the web pages are not part of this model.
- `DateFormatter` locale and time zone: the model assumes English `AM`/`PM` symbols and the proleptic Gregorian calendar, and it applies no time-zone offset. Local times skipped by a daylight-saving change, and ordering across such a change, are not modelled.
- Years before 1 and after 9999 are not modelled. Neither are Foundation's lenient readings of malformed text. `ParseFeed` accepts exactly the 19-character texts that the pattern writes for a real date and time.
- `sorted(by:)` is modelled as a stable insertion sort. Swift's own algorithm is not part of this model. Results that hold for any stable sort are: the all-false comparator (`BareFormatterKeepsFeedOrder`), and a comparator that is a strict weak order (every start parses). For a mix of parsed and unparsed start times the comparator is not a strict weak order, and the order Swift produces may differ from the model's.
- `ResponseItem.id` is Swift's 64-bit `Int`. It is an unbounded `int` here, since nothing in the core computes with it. The fields `address`, `image`, `date`, `message` and `label` are carried but not used. The feed's `label` is the field `labelText` because `label` is a Dafny keyword.
- Venues.Url: names are compared as sequences of Unicode scalar values. Swift's `switch` on a `String` matches up to canonical equivalence, so a feed name spelled with a decomposed accent (`e` followed by U+0301) still matches `Accenture Café` or `Joe’s Café` in Swift but falls to the placeholder here. The model assumes feed names in the precomposed (NFC) form that the literals use.
- Venues.IsCafe: the same holds for the `==` comparisons of `isCafe`. A decomposed spelling of `Accenture Café` or `Joe's Café` is a cafe in Swift and not in the model, which assumes NFC feed names. The apostrophe finding below is unaffected, since U+0027 and U+2019 are not canonically equivalent.
- `BareParse`: the model takes as given that a `DateFormatter()` with no `dateFormat` parses no feed timestamp. That formatter's behaviour lives in Foundation and is not part of this model.

## Findings

| source | as written | input that shows it | evidently intended | confidence | as-written member | corrected member |
|---|---|---|---|---|---|---|
| Application/Models/FetchData.swift:101-105 | the comparator parses start times with a bare `DateFormatter()` that has no `dateFormat`, so both parses fail, it always answers false, and the sort never reorders | a day listing 2024-01-01 17:00–20:00 before 9:00–10:30 reads `5 - 8 \| 9 - 10:30` | parse with the feed pattern `yyyy-MM-dd'T'HH:mm:ss`, as `time()` does, so the day reads `9 - 10:30 \| 5 - 8` | high, not executed | FetchData.BareFormatterKeepsFeedOrder | FetchData.FeedFormatterSortsChronologically |
| Application/Models/FetchData.swift:121 | `isCafe` lists `Houstong Market`, while the URL switch (line 69) has `Houston Market` | a venue named `Houston Market` is not a cafe, and `Houstong Market` has no detail page | `Houston Market` | medium, not executed | Venues.CafesWithoutPage | Venues.IntendedCafesHavePages |
| Application/Models/FetchData.swift:121 | `isCafe` lists `Joe's Café` with a straight apostrophe, while the URL switch (line 73) has `Joe’s Café` with a curly one | a venue named `Joe’s Café` has a page but is not a cafe | `Joe’s Café`, spelled as in the URL switch | medium, not executed | Venues.CafesWithoutPage | Venues.IntendedCafesHavePages |
