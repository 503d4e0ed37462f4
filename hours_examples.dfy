/**
  The hours of concrete days, worked out from the general lemmas: a single
  interval, two intervals in feed order, and two intervals out of order under
  the comparator's bare formatter and under the feed-pattern formatter.

  The intervals are those of 1 January 2024. A daypart stands for one of them
  when its two feed texts read as its start and end; `BreakfastFeedTexts` and
  `DinnerFeedTexts` show texts that do, such as `2024-01-01T17:00:00` for
  five in the afternoon.
 */
module HoursExamples {
  import opened Options
  import opened Strings
  import opened DateFormats
  import opened FetchData

  /** A time of 1 January 2024 with zero seconds. */
  function NewYear(h: nat, m: nat): (t: Timestamp) {
    Timestamp(2024, 1, 1, h, m, 0)
  }

  /** `o` is a parsed time showing `h:m` on the clock. */
  predicate Shows(o: Option<Timestamp>, h: int, m: int) {
    o.Some? && o.value.hour == h && o.value.minute == m
  }

  /** `dp` runs from `h1:m1` to `h2:m2` by the feed pattern. */
  predicate Runs(dp: Daypart, h1: int, m1: int, h2: int, m2: int) {
    Shows(ParseFeed(dp.starttime), h1, m1) && Shows(ParseFeed(dp.endtime), h2, m2)
  }

  /** The feed writes breakfast's times of 1 January 2024 as follows. */
  lemma BreakfastFeedTexts()
    ensures RenderFeed(NewYear(9, 0)) == "2024-01-01T09:00:00"
    ensures RenderFeed(NewYear(10, 30)) == "2024-01-01T10:30:00"
  {
  }

  /** The feed writes dinner's times of 1 January 2024 as follows. */
  lemma DinnerFeedTexts()
    ensures RenderFeed(NewYear(17, 0)) == "2024-01-01T17:00:00"
    ensures RenderFeed(NewYear(20, 0)) == "2024-01-01T20:00:00"
  {
  }

  /** How the example times show on the dial once `a` and `p` are gone. */
  lemma DialTexts(t: Timestamp)
    requires 0 <= t.hour < 24 && 0 <= t.minute < 60
    ensures t.hour == 9 && t.minute == 0 ==> DialText(t) == "9"
    ensures t.hour == 10 && t.minute == 30 ==> DialText(t) == "10:30"
    ensures t.hour == 11 && t.minute == 0 ==> DialText(t) == "11"
    ensures t.hour == 14 && t.minute == 0 ==> DialText(t) == "2"
    ensures t.hour == 17 && t.minute == 0 ==> DialText(t) == "5"
    ensures t.hour == 20 && t.minute == 0 ==> DialText(t) == "8"
  {
    assert Decimal(10) == "10" && Decimal(11) == "11";
  }

  /** The dial texts of a range from 9:00 to 10:30. */
  lemma BreakfastDial(s: Timestamp, e: Timestamp)
    requires s.hour == 9 && s.minute == 0 && e.hour == 10 && e.minute == 30
    ensures DialText(s) + RangeSeparator + DialText(e) == "9 - 10:30"
  {
    DialTexts(s);
    DialTexts(e);
  }

  /** The dial texts of a range from 17:00 to 20:00. */
  lemma DinnerDial(s: Timestamp, e: Timestamp)
    requires s.hour == 17 && s.minute == 0 && e.hour == 20 && e.minute == 0
    ensures DialText(s) + RangeSeparator + DialText(e) == "5 - 8"
  {
    DialTexts(s);
    DialTexts(e);
  }

  /** The clock texts of a range from 11:00 to 14:00. */
  lemma LunchClock(s: Timestamp, e: Timestamp)
    requires s.hour == 11 && s.minute == 0 && e.hour == 14 && e.minute == 0
    ensures ShortClock(s) + RangeSeparator + ShortClock(e) == "11a - 2p"
  {
    DialTexts(s);
    DialTexts(e);
  }

  /** Lunch, 11:00 to 14:00, reads `11a - 2p`. */
  lemma LunchReads(dp: Daypart)
    requires Runs(dp, 11, 0, 14, 0)
    ensures Time(dp) == "11a - 2p"
  {
    var s, e := ParseFeed(dp.starttime).value, ParseFeed(dp.endtime).value;
    TimeReadsBothEnds(dp, s, e);
    LunchClock(s, e);
  }

  /** Breakfast, 9:00 to 10:30, reads `9 - 10:30` once `a` and `p` are gone. */
  lemma BreakfastCompacts(dp: Daypart)
    requires Runs(dp, 9, 0, 10, 30)
    ensures Without(Time(dp), {'a', 'p'}) == "9 - 10:30"
  {
    var s, e := ParseFeed(dp.starttime).value, ParseFeed(dp.endtime).value;
    CompactTime(dp, s, e);
    BreakfastDial(s, e);
  }

  /** Dinner, 17:00 to 20:00, reads `5 - 8` once `a` and `p` are gone. */
  lemma DinnerCompacts(dp: Daypart)
    requires Runs(dp, 17, 0, 20, 0)
    ensures Without(Time(dp), {'a', 'p'}) == "5 - 8"
  {
    var s, e := ParseFeed(dp.starttime).value, ParseFeed(dp.endtime).value;
    CompactTime(dp, s, e);
    DinnerDial(s, e);
  }

  /** Two times that compact to `x` and `y` join to `x | y`. */
  lemma CompactPair(times: seq<string>, x: string, y: string)
    requires |times| == 2
    requires Without(times[0], {'a', 'p'}) == x && Without(times[1], {'a', 'p'}) == y
    ensures Join(WithoutEach(times, {'a', 'p'}), IntervalSeparator) == x + IntervalSeparator + y
  {
    var parts := WithoutEach(times, {'a', 'p'});
    assert parts[1..] == [y];
  }

  /** The two orders in which the two intervals can be listed. */
  lemma JoinedTexts()
    ensures "9 - 10:30" + IntervalSeparator + "5 - 8" == "9 - 10:30 | 5 - 8"
    ensures "5 - 8" + IntervalSeparator + "9 - 10:30" == "5 - 8 | 9 - 10:30"
  {
  }

  /** An open day with the single interval 11:00 to 14:00 reads `11a - 2p`,
      whichever formatter the comparator uses. */
  lemma SingleIntervalReads(parse: string -> Option<Timestamp>, day: Day)
    requires day.status == "open" && |day.dayparts| == 1 && Runs(day.dayparts[0], 11, 0, 14, 0)
    ensures FormatHours(parse, day) == "11a - 2p"
  {
    FormatHoursSingle(parse, day);
    LunchReads(day.dayparts[0]);
  }

  /** Two intervals that come out of the sort as 9:00 to 10:30, then 17:00 to
      20:00, read `9 - 10:30 | 5 - 8`: every `a` and `p` is gone because there
      are two of them. */
  lemma MorningThenEvening(parse: string -> Option<Timestamp>, day: Day, x: Daypart, y: Daypart)
    requires day.status == "open" && |day.dayparts| == 2
    requires SortByStart(parse, day.dayparts) == [x, y] && Runs(x, 9, 0, 10, 30) && Runs(y, 17, 0, 20, 0)
    ensures FormatHours(parse, day) == "9 - 10:30 | 5 - 8"
  {
    var sorted := SortByStart(parse, day.dayparts);
    var parts := WithoutEach(Times(sorted), {'a', 'p'});
    assert FormatHours(parse, day) == Join(parts, IntervalSeparator) by {
      FormatHoursSeveral(parse, day);
    }
    BreakfastCompacts(x);
    DinnerCompacts(y);
    CompactPair(Times(sorted), "9 - 10:30", "5 - 8");
    JoinedTexts();
  }

  /** The same two intervals coming out of the sort evening first read
      `5 - 8 | 9 - 10:30`. */
  lemma EveningThenMorning(parse: string -> Option<Timestamp>, day: Day, x: Daypart, y: Daypart)
    requires day.status == "open" && |day.dayparts| == 2
    requires SortByStart(parse, day.dayparts) == [x, y] && Runs(x, 17, 0, 20, 0) && Runs(y, 9, 0, 10, 30)
    ensures FormatHours(parse, day) == "5 - 8 | 9 - 10:30"
  {
    var sorted := SortByStart(parse, day.dayparts);
    var parts := WithoutEach(Times(sorted), {'a', 'p'});
    assert FormatHours(parse, day) == Join(parts, IntervalSeparator) by {
      FormatHoursSeveral(parse, day);
    }
    DinnerCompacts(x);
    BreakfastCompacts(y);
    CompactPair(Times(sorted), "5 - 8", "9 - 10:30");
    JoinedTexts();
  }

  /** The two intervals start on the same calendar day. */
  predicate SameDay(x: Daypart, y: Daypart) {
    var a, b := ParseFeed(x.starttime), ParseFeed(y.starttime);
    a.Some? && b.Some? && a.value.year == b.value.year && a.value.month == b.value.month && a.value.day == b.value.day
  }

  /** On one calendar day, the interval starting at the earlier hour starts
      before the other for the feed-pattern comparator. */
  lemma EarlierHourStartsBefore(x: Daypart, y: Daypart)
    requires SameDay(x, y)
    ensures ParseFeed(x.starttime).value.hour < ParseFeed(y.starttime).value.hour ==> StartsBefore(ParseFeed, x, y)
    ensures ParseFeed(x.starttime).value.hour < ParseFeed(y.starttime).value.hour ==> !StartsBefore(ParseFeed, y, x)
  {
  }

  /** A morning interval and an evening interval of the same day, in either
      order, are sorted morning first by the feed-pattern comparator. */
  lemma MorningSortsFirst(x: Daypart, y: Daypart)
    requires SameDay(x, y)
    requires (Runs(x, 9, 0, 10, 30) && Runs(y, 17, 0, 20, 0)) || (Runs(x, 17, 0, 20, 0) && Runs(y, 9, 0, 10, 30))
    ensures Runs(x, 9, 0, 10, 30) ==> SortByStart(ParseFeed, [x, y]) == [x, y]
    ensures Runs(x, 17, 0, 20, 0) ==> SortByStart(ParseFeed, [x, y]) == [y, x]
  {
    assert SameDay(y, x);
    EarlierHourStartsBefore(x, y);
    EarlierHourStartsBefore(y, x);
    SortTwo(ParseFeed, x, y);
  }

  /** Intervals given in order read `9 - 10:30 | 5 - 8` under either
      formatter. */
  lemma TwoIntervalsInOrder(day: Day)
    requires day.status == "open" && |day.dayparts| == 2
    requires Runs(day.dayparts[0], 9, 0, 10, 30) && Runs(day.dayparts[1], 17, 0, 20, 0)
    requires SameDay(day.dayparts[0], day.dayparts[1])
    ensures FormatHours(BareParse, day) == "9 - 10:30 | 5 - 8"
    ensures FormatHours(ParseFeed, day) == "9 - 10:30 | 5 - 8"
  {
    var dps := day.dayparts;
    BareFormatterKeepsFeedOrder(day);
    MorningThenEvening(BareParse, day, dps[0], dps[1]);
    assert dps == [dps[0], dps[1]];
    MorningSortsFirst(dps[0], dps[1]);
    MorningThenEvening(ParseFeed, day, dps[0], dps[1]);
  }

  /** Intervals given out of order: the source's comparator, whose bare
      formatter reads no start time, leaves them in feed order, so the evening
      is listed first; a comparator reading the feed pattern lists the morning
      first. */
  lemma TwoIntervalsOutOfOrder(day: Day)
    requires day.status == "open" && |day.dayparts| == 2
    requires Runs(day.dayparts[0], 17, 0, 20, 0) && Runs(day.dayparts[1], 9, 0, 10, 30)
    requires SameDay(day.dayparts[0], day.dayparts[1])
    ensures FormatHours(BareParse, day) == "5 - 8 | 9 - 10:30"
    ensures FormatHours(ParseFeed, day) == "9 - 10:30 | 5 - 8"
  {
    var dps := day.dayparts;
    BareFormatterKeepsFeedOrder(day);
    EveningThenMorning(BareParse, day, dps[0], dps[1]);
    assert dps == [dps[0], dps[1]];
    MorningSortsFirst(dps[0], dps[1]);
    MorningThenEvening(ParseFeed, day, dps[1], dps[0]);
  }

  /** A day whose feed lists the evening interval 17:00 to 20:00 before the
      morning interval 9:00 to 10:30 of the same date. */
  lemma RenderedOutOfOrder(dinner: Daypart, breakfast: Daypart, s1: Timestamp, e1: Timestamp, s2: Timestamp, e2: Timestamp)
    requires Valid(s1) && Valid(e1) && Valid(s2) && Valid(e2)
    requires s1.year == s2.year && s1.month == s2.month && s1.day == s2.day
    requires s1.hour == 17 && s1.minute == 0 && e1.hour == 20 && e1.minute == 0
    requires s2.hour == 9 && s2.minute == 0 && e2.hour == 10 && e2.minute == 30
    requires dinner.starttime == RenderFeed(s1) && dinner.endtime == RenderFeed(e1)
    requires breakfast.starttime == RenderFeed(s2) && breakfast.endtime == RenderFeed(e2)
    ensures FormatHours(BareParse, Day("", "open", [dinner, breakfast])) == "5 - 8 | 9 - 10:30"
    ensures FormatHours(ParseFeed, Day("", "open", [dinner, breakfast])) == "9 - 10:30 | 5 - 8"
  {
    ParseRenderFeed(s1);
    ParseRenderFeed(e1);
    ParseRenderFeed(s2);
    ParseRenderFeed(e2);
    TwoIntervalsOutOfOrder(Day("", "open", [dinner, breakfast]));
  }

  /** The out-of-order day of the feed: dinner 17:00 to 20:00 listed before
      breakfast 9:00 to 10:30, with the texts that `BreakfastFeedTexts` and
      `DinnerFeedTexts` show. */
  lemma DinnerListedBeforeBreakfast()
    ensures var dinner := Daypart("2024-01-01T17:00:00", "2024-01-01T20:00:00", "", "");
      var breakfast := Daypart("2024-01-01T09:00:00", "2024-01-01T10:30:00", "", "");
      && FormatHours(BareParse, Day("", "open", [dinner, breakfast])) == "5 - 8 | 9 - 10:30"
      && FormatHours(ParseFeed, Day("", "open", [dinner, breakfast])) == "9 - 10:30 | 5 - 8"
  {
    BreakfastFeedTexts();
    DinnerFeedTexts();
    RenderedOutOfOrder(Daypart("2024-01-01T17:00:00", "2024-01-01T20:00:00", "", ""),
      Daypart("2024-01-01T09:00:00", "2024-01-01T10:30:00", "", ""),
      NewYear(17, 0), NewYear(20, 0), NewYear(9, 0), NewYear(10, 30));
  }
}
