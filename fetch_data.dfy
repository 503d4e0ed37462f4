/**
  The venue records of the dining feed and the pure logic attached to them:
  the hours string of one day (`Daypart.time()` and
  `ResponseItem.formatHours(day:)`), the detail-page URL of a venue
  (`ResponseItem.url`) and its retail classification (`ResponseItem.isCafe`).
 */
module FetchData {
  import opened Options
  import opened Strings
  import opened DateFormats

  /** One opening interval of a day, as the feed writes it (the feed's `label`
      field is `labelText` here, `label` being a Dafny keyword). */
  datatype Daypart = Daypart(starttime: string, endtime: string, message: string, labelText: string)

  /** One calendar day of a venue's schedule. */
  datatype Day = Day(date: string, status: string, dayparts: seq<Daypart>)

  /** One venue of the feed. */
  datatype ResponseItem = ResponseItem(name: string, address: string, days: seq<Day>, image: string, id: int)

  const ClosedMarker: string := "CLOSED TODAY"
  const RangeSeparator: string := " - "
  const IntervalSeparator: string := " | "

  // ---------------------------------------------------------------------------
  // Daypart.time()
  // ---------------------------------------------------------------------------

  /** The characters a formatted interval can hold. */
  predicate IsClockChar(c: char) {
    IsDigit(c) || c == ':' || c == 'a' || c == 'p' || c == ' ' || c == '-'
  }

  predicate ClockAlphabet(s: string) {
    forall i :: 0 <= i < |s| ==> IsClockChar(s[i])
  }

  lemma ClockAlphabetConcat(a: string, b: string)
    requires ClockAlphabet(a) && ClockAlphabet(b)
    ensures ClockAlphabet(a + b)
  {
  }

  /** Neither the first letter of the closed marker nor the interval
      separator's bar is a clock character. */
  lemma ClockAlphabetExcludes(s: string)
    requires ClockAlphabet(s)
    ensures 'C' !in s && '|' !in s
  {
  }

  /** The hour on the 12-hour dial, followed by the minutes only when they
      are not zero: what one end of an interval reads once `a`/`p` is gone. */
  function DialText(t: Timestamp): (r: string)
    requires 0 <= t.hour < 24 && 0 <= t.minute < 60
    ensures |r| >= 1 && ClockAlphabet(r) && Avoids(r, {'a', 'p'})
  {
    var hour := Decimal(Hour12(t.hour));
    var minutes := if t.minute == 0 then "" else ":" + TwoDigits(t.minute);
    assert ClockAlphabet(hour) && Avoids(hour, {'a', 'p'});
    assert ClockAlphabet(minutes) && Avoids(minutes, {'a', 'p'});
    ClockAlphabetConcat(hour, minutes);
    hour + minutes
  }

  /** What one end of an interval should read: the dial text, then `a`
      before noon or `p` from noon on. This is the reference the rewriting
      chain of `ClockText` is proved against. */
  function ShortClock(t: Timestamp): (r: string)
    requires 0 <= t.hour < 24 && 0 <= t.minute < 60
    ensures |r| >= 2 && ClockAlphabet(r)
    ensures r[|r| - 1] == (if t.hour < 12 then 'a' else 'p')
  {
    var suffix := if t.hour < 12 then "a" else "p";
    ClockAlphabetConcat(DialText(t), suffix);
    DialText(t) + suffix
  }


  /** Removing `:00` from a colon followed by minutes other than `00` and a
      colon-free rest changes nothing. */
  lemma KeepNonZeroMinutes(mm: string, ap: string)
    requires ':' !in mm && ':' !in ap && |mm| == 2 && mm != "00"
    ensures ReplaceAll(":" + mm + ap, ":00", "") == ":" + mm + ap
  {
    var tail := ":" + mm + ap;
    assert tail[..3] == ":" + mm;
    assert ":" + mm != ":00" by {
      assert (":" + mm)[1..] == mm && ":00"[1..] == "00";
    }
    assert ReplaceAll(tail, ":00", "") == [':'] + ReplaceAll(tail[1..], ":00", "");
    assert tail[1..] == mm + ap;
    ReplaceAllAbsent(mm + ap, ":00", "");
  }

  /** Removing `:00` from `:00` followed by a colon-free rest leaves the rest. */
  lemma DropZeroMinutes(ap: string)
    requires ':' !in ap
    ensures ReplaceAll(":00" + ap, ":00", "") == ap
  {
    ReplaceAllFront(ap, ":00", "");
    ReplaceAllAbsent(ap, ":00", "");
  }

  /** Removing `:00` from `d:00` followed by a marker leaves `d` and the
      marker, provided neither holds a colon. */
  lemma StripOnTheHour(d: string, ap: string)
    requires ':' !in d && ':' !in ap
    ensures ReplaceAll(d + ":00" + ap, ":00", "") == d + ap
  {
    assert d + ":00" + ap == d + (":00" + ap);
    ReplaceAllSkips(d, ":00" + ap, ":00", "");
    DropZeroMinutes(ap);
  }

  /** Removing `:00` from `d:mm` followed by a marker changes nothing when
      the minutes are not `00` and no other colon is about. */
  lemma StripOffTheHour(d: string, mm: string, ap: string)
    requires ':' !in d && ':' !in mm && ':' !in ap && |mm| == 2 && mm != "00"
    ensures ReplaceAll(d + ":" + mm + ap, ":00", "") == d + ":" + mm + ap
  {
    KeepNonZeroMinutes(mm, ap);
    ReplaceAllKeeps(d, ":" + mm + ap, ":00", "");
    assert d + ":" + mm + ap == d + (":" + mm + ap);
  }

  /** Removing `:00` from an `h:mma` rendering removes the minutes exactly
      when the time is on the hour. */
  lemma StripZeroMinutes(t: Timestamp)
    requires 0 <= t.hour < 24 && 0 <= t.minute < 60
    ensures ReplaceAll(RenderClock(t), ":00", "")
         == Decimal(Hour12(t.hour)) + (if t.minute == 0 then "" else ":" + TwoDigits(t.minute)) + Meridiem(t.hour)
  {
    var d, mm, ap := Decimal(Hour12(t.hour)), TwoDigits(t.minute), Meridiem(t.hour);
    assert ':' !in d && ':' !in mm by {
      assert !IsDigit(':');
    }
    if t.minute == 0 {
      assert mm == "00";
      assert RenderClock(t) == d + ":00" + ap;
      StripOnTheHour(d, ap);
    } else {
      StripOffTheHour(d, mm, ap);
    }
  }

  /** Turning `AM` into `a` and then `PM` into `p` after a text free of `A`
      and `P` leaves the text and shortens the morning marker. */
  lemma MorningMarker(front: string)
    requires 'A' !in front && 'P' !in front
    ensures ReplaceAll(ReplaceAll(front + "AM", "AM", "a"), "PM", "p") == front + "a"
  {
    ReplaceAllSkips(front, "AM", "AM", "a");
    assert ReplaceAll("AM", "AM", "a") == "a" by {
      ReplaceAllFront("", "AM", "a");
      assert "AM" + "" == "AM";
    }
    ReplaceAllSkips(front, "a", "PM", "p");
    ReplaceAllAbsent("a", "PM", "p");
  }

  /** The same two rewrites shorten the afternoon marker. */
  lemma AfternoonMarker(front: string)
    requires 'A' !in front && 'P' !in front
    ensures ReplaceAll(ReplaceAll(front + "PM", "AM", "a"), "PM", "p") == front + "p"
  {
    ReplaceAllSkips(front, "PM", "AM", "a");
    ReplaceAllAbsent("PM", "AM", "a");
    ReplaceAllSkips(front, "PM", "PM", "p");
    assert ReplaceAll("PM", "PM", "p") == "p" by {
      ReplaceAllFront("", "PM", "p");
      assert "PM" + "" == "PM";
    }
  }

  /** One end of an interval as `time()` produces it: the `h:mma` rendering,
      then `:00` removed, then `AM` turned into `a` and `PM` into `p`. The
      rewriting chain yields the reference rendering: for example 11:00 reads
      `11a`, 14:00 reads `2p` and 10:30 reads `10:30a`. */
  function ClockText(t: Timestamp): (r: string)
    requires 0 <= t.hour < 24 && 0 <= t.minute < 60
    ensures r == ShortClock(t)
  {
    var rendered := RenderClock(t);
    var onTheHour := ReplaceAll(rendered, ":00", "");
    var morning := ReplaceAll(onTheHour, "AM", "a");
    StripZeroMinutes(t);
    var front := DialText(t);
    assert 'A' !in front && 'P' !in front by {
      assert ClockAlphabet(front);
    }
    if t.hour < 12 then
      MorningMarker(front);
      ReplaceAll(morning, "PM", "p")
    else
      AfternoonMarker(front);
      ReplaceAll(morning, "PM", "p")
  }

  /** The body of `time()` once both timestamps have been through the feed
      formatter: the empty text unless both parsed. */
  function RangeText(startDate: Option<Timestamp>, endDate: Option<Timestamp>): (r: string)
    requires startDate.Some? ==> Valid(startDate.value)
    requires endDate.Some? ==> Valid(endDate.value)
    ensures r == "" <==> startDate.None? || endDate.None?
    ensures ClockAlphabet(r)
  {
    if startDate.None? || endDate.None? then ""
    else
      var s, e := startDate.value, endDate.value;
      var r := ClockText(s) + RangeSeparator + ClockText(e);
      assert r[|ShortClock(s)|] == ' ';
      ClockAlphabetConcat(ClockText(s), RangeSeparator);
      ClockAlphabetConcat(ClockText(s) + RangeSeparator, ClockText(e));
      r
  }

  /** `Daypart.time()`: both ends of the interval as `<start> - <end>`, or the
      empty text when either timestamp does not parse in the feed pattern. */
  function Time(dp: Daypart): (r: string)
    ensures r == "" <==> ParseFeed(dp.starttime).None? || ParseFeed(dp.endtime).None?
    ensures ClockAlphabet(r)
  {
    RangeText(ParseFeed(dp.starttime), ParseFeed(dp.endtime))
  }

  /** When both timestamps parse, `time()` reads the reference rendering of
      the start, `" - "`, and the reference rendering of the end: for example
      11:00 to 14:00 reads `11a - 2p`. */
  lemma TimeReadsBothEnds(dp: Daypart, startDate: Timestamp, endDate: Timestamp)
    requires ParseFeed(dp.starttime) == Some(startDate) && ParseFeed(dp.endtime) == Some(endDate)
    ensures Time(dp) == ShortClock(startDate) + RangeSeparator + ShortClock(endDate)
  {
  }

  /** The dial text shows a colon exactly when the minutes are not zero. */
  lemma DialTextColon(t: Timestamp)
    requires 0 <= t.hour < 24 && 0 <= t.minute < 60
    ensures ':' in DialText(t) <==> t.minute != 0
  {
    var hour := Decimal(Hour12(t.hour));
    assert ':' !in hour by {
      assert !IsDigit(':');
    }
    if t.minute != 0 {
      assert DialText(t)[|hour|] == ':';
    }
  }

  /** One end's reference rendering holds no space. */
  lemma ShortClockNoSpace(t: Timestamp)
    requires 0 <= t.hour < 24 && 0 <= t.minute < 60
    ensures ' ' !in ShortClock(t)
  {
    var d, mm := Decimal(Hour12(t.hour)), TwoDigits(t.minute);
    assert ' ' !in d && ' ' !in mm by {
      assert !IsDigit(' ');
    }
  }

  /** Two times on the same half of the day with the same dial text have the
      same hour and minute. */
  lemma DialTextDeterminesTime(t1: Timestamp, t2: Timestamp)
    requires 0 <= t1.hour < 24 && 0 <= t1.minute < 60
    requires 0 <= t2.hour < 24 && 0 <= t2.minute < 60
    requires DialText(t1) == DialText(t2) && (t1.hour < 12 <==> t2.hour < 12)
    ensures t1.hour == t2.hour && t1.minute == t2.minute
  {
    var d1, d2 := Decimal(Hour12(t1.hour)), Decimal(Hour12(t2.hour));
    DialTextColon(t1);
    DialTextColon(t2);
    if t1.minute == 0 {
      assert d1 == DialText(t1) && d2 == DialText(t2);
    } else {
      var m1, m2 := TwoDigits(t1.minute), TwoDigits(t2.minute);
      assert ':' !in d1 && ':' !in d2 by {
        assert !IsDigit(':');
      }
      assert DialText(t1) == d1 + [':'] + m1;
      assert DialText(t2) == d2 + [':'] + m2;
      SplitAtFirst(d1, m1, d2, m2, ':');
    }
    DecimalInjective(Hour12(t1.hour), Hour12(t2.hour));
    HourFromDial(t1.hour, t2.hour);
  }

  /** The reference rendering of one end loses nothing: equal renderings
      mean equal hour and minute. */
  lemma ShortClockDeterminesTime(t1: Timestamp, t2: Timestamp)
    requires 0 <= t1.hour < 24 && 0 <= t1.minute < 60
    requires 0 <= t2.hour < 24 && 0 <= t2.minute < 60
    requires ShortClock(t1) == ShortClock(t2)
    ensures t1.hour == t2.hour && t1.minute == t2.minute
  {
    var r := ShortClock(t1);
    assert (t1.hour < 12) == (t2.hour < 12);
    assert DialText(t1) == r[..|r| - 1] == DialText(t2);
    DialTextDeterminesTime(t1, t2);
  }

  /** A range whose first end holds no space splits back into its ends. */
  lemma RangeSplits(a1: string, b1: string, a2: string, b2: string)
    requires ' ' !in a1 && ' ' !in a2
    requires a1 + RangeSeparator + b1 == a2 + RangeSeparator + b2
    ensures a1 == a2 && b1 == b2
  {
    assert a1 + RangeSeparator + b1 == a1 + [' '] + ("- " + b1);
    assert a2 + RangeSeparator + b2 == a2 + [' '] + ("- " + b2);
    SplitAtFirst(a1, "- " + b1, a2, "- " + b2, ' ');
    assert b1 == ("- " + b1)[2..] && b2 == ("- " + b2)[2..];
  }

  /** Two ranges of reference renderings are the same text exactly when
      their starts show the same clock time and so do their ends. */
  lemma RangeDeterminesTimes(s1: Timestamp, e1: Timestamp, s2: Timestamp, e2: Timestamp)
    requires 0 <= s1.hour < 24 && 0 <= s1.minute < 60 && 0 <= e1.hour < 24 && 0 <= e1.minute < 60
    requires 0 <= s2.hour < 24 && 0 <= s2.minute < 60 && 0 <= e2.hour < 24 && 0 <= e2.minute < 60
    ensures ShortClock(s1) + RangeSeparator + ShortClock(e1) == ShortClock(s2) + RangeSeparator + ShortClock(e2)
        <==> s1.hour == s2.hour && s1.minute == s2.minute && e1.hour == e2.hour && e1.minute == e2.minute
  {
    if ShortClock(s1) + RangeSeparator + ShortClock(e1) == ShortClock(s2) + RangeSeparator + ShortClock(e2) {
      ShortClockNoSpace(s1);
      ShortClockNoSpace(s2);
      RangeSplits(ShortClock(s1), ShortClock(e1), ShortClock(s2), ShortClock(e2));
      ShortClockDeterminesTime(s1, s2);
      ShortClockDeterminesTime(e1, e2);
    }
  }

  /** `time()` of two intervals whose ends parse is the same text exactly
      when their starts show the same clock time and so do their ends: the
      hours string tells apart any two intervals that differ on the clock. */
  lemma TimeTellsApart(dp1: Daypart, dp2: Daypart, s1: Timestamp, e1: Timestamp, s2: Timestamp, e2: Timestamp)
    requires ParseFeed(dp1.starttime) == Some(s1) && ParseFeed(dp1.endtime) == Some(e1)
    requires ParseFeed(dp2.starttime) == Some(s2) && ParseFeed(dp2.endtime) == Some(e2)
    ensures Time(dp1) == Time(dp2)
        <==> s1.hour == s2.hour && s1.minute == s2.minute && e1.hour == e2.hour && e1.minute == e2.minute
  {
    TimeReadsBothEnds(dp1, s1, e1);
    TimeReadsBothEnds(dp2, s2, e2);
    RangeDeterminesTimes(s1, e1, s2, e2);
  }

  /** Deleting `a` and `p` from one end leaves its dial text. */
  lemma CompactShortClock(t: Timestamp)
    requires 0 <= t.hour < 24 && 0 <= t.minute < 60
    ensures Without(ShortClock(t), {'a', 'p'}) == DialText(t)
  {
    var suffix := if t.hour < 12 then "a" else "p";
    assert ShortClock(t) == DialText(t) + suffix;
    WithoutConcat(DialText(t), suffix, {'a', 'p'});
    assert Without(suffix, {'a', 'p'}) == [];
  }

  /** Deleting `a` and `p` from a formatted interval leaves the two dial
      texts: for example `9a - 10:30a` becomes `9 - 10:30`. */
  lemma CompactRange(startDate: Timestamp, endDate: Timestamp)
    requires Valid(startDate) && Valid(endDate)
    ensures Without(RangeText(Some(startDate), Some(endDate)), {'a', 'p'})
         == DialText(startDate) + RangeSeparator + DialText(endDate)
  {
    var s, e := ShortClock(startDate), ShortClock(endDate);
    assert RangeText(Some(startDate), Some(endDate)) == s + RangeSeparator + e;
    assert Avoids(RangeSeparator, {'a', 'p'});
    WithoutAround(s, RangeSeparator, e, {'a', 'p'});
    CompactShortClock(startDate);
    CompactShortClock(endDate);
  }

  /** Deleting `a` and `p` from `time()` of an interval whose ends parse
      leaves the two dial texts around `" - "`. */
  lemma CompactTime(dp: Daypart, startDate: Timestamp, endDate: Timestamp)
    requires ParseFeed(dp.starttime) == Some(startDate) && ParseFeed(dp.endtime) == Some(endDate)
    ensures Without(Time(dp), {'a', 'p'}) == DialText(startDate) + RangeSeparator + DialText(endDate)
  {
    CompactRange(startDate, endDate);
  }

  /** `time()` mapped over a list of intervals. */
  function Times(dps: seq<Daypart>): (r: seq<string>)
    ensures |r| == |dps|
    ensures forall i :: 0 <= i < |dps| ==> r[i] == Time(dps[i])
  {
    if dps == [] then [] else [Time(dps[0])] + Times(dps[1..])
  }

  // ---------------------------------------------------------------------------
  // The sort in formatHours(day:)
  // ---------------------------------------------------------------------------

  /** The sort comparator: both start times must parse with the comparator's
      formatter `parse`, and then the earlier one is less. When either parse
      fails the comparator answers false. */
  function StartsBefore(parse: string -> Option<Timestamp>, x: Daypart, y: Daypart): (r: bool)
    ensures r ==> parse(x.starttime).Some? && parse(y.starttime).Some?
    ensures r ==> Before(parse(x.starttime).value, parse(y.starttime).value)
                  && !Before(parse(y.starttime).value, parse(x.starttime).value)
  {
    match (parse(x.starttime), parse(y.starttime))
    case (Some(date1), Some(date2)) => Before(date1, date2)
    case _ => false
  }

  /** The comparator is a strict order: it never answers true both ways, and
      it answers true only when both start times parse. */
  lemma StartsBeforeAsymmetric(parse: string -> Option<Timestamp>, x: Daypart, y: Daypart)
    ensures StartsBefore(parse, x, y) ==> parse(x.starttime).Some? && parse(y.starttime).Some?
    ensures StartsBefore(parse, x, y) ==> !StartsBefore(parse, y, x)
  {
  }

  /** One insertion step of the sort: places `x` after the last element of
      `sorted` that it is not less than. */
  function Insert(parse: string -> Option<Timestamp>, sorted: seq<Daypart>, x: Daypart): (r: seq<Daypart>)
    ensures |r| == |sorted| + 1
    ensures multiset(r) == multiset(sorted) + multiset{x}
  {
    if sorted == [] || !StartsBefore(parse, x, sorted[|sorted| - 1]) then sorted + [x]
    else
      var init := sorted[..|sorted| - 1];
      assert sorted == init + [sorted[|sorted| - 1]];
      Insert(parse, init, x) + [sorted[|sorted| - 1]]
  }

  /** `sorted(by:)` with the start-time comparator, as a stable insertion sort:
      the result is a rearrangement of the intervals. */
  function SortByStart(parse: string -> Option<Timestamp>, dps: seq<Daypart>): (r: seq<Daypart>)
    ensures |r| == |dps|
    ensures multiset(r) == multiset(dps)
  {
    if dps == [] then []
    else
      var init := dps[..|dps| - 1];
      assert dps == init + [dps[|dps| - 1]];
      Insert(parse, SortByStart(parse, init), dps[|dps| - 1])
  }

  /** No interval compares less than the one before it. */
  predicate InFeedOrder(parse: string -> Option<Timestamp>, dps: seq<Daypart>) {
    forall i :: 0 < i < |dps| ==> !StartsBefore(parse, dps[i], dps[i - 1])
  }

  /** The sort is stable: intervals none of which compares less than its
      predecessor, in particular intervals whose start times do not parse,
      come out in feed order. */
  lemma {:induction false} SortKeepsFeedOrder(parse: string -> Option<Timestamp>, dps: seq<Daypart>)
    requires InFeedOrder(parse, dps)
    ensures SortByStart(parse, dps) == dps
  {
    if dps != [] {
      var init, x := dps[..|dps| - 1], dps[|dps| - 1];
      assert InFeedOrder(parse, init) by {
        forall i | 0 < i < |init| ensures !StartsBefore(parse, init[i], init[i - 1]) {
          assert init[i] == dps[i] && init[i - 1] == dps[i - 1];
        }
      }
      SortKeepsFeedOrder(parse, init);
      if init != [] {
        assert init[|init| - 1] == dps[|dps| - 2];
      }
      assert dps == init + [x];
    }
  }

  /** Two intervals are swapped exactly when the second starts before the
      first. */
  lemma SortTwo(parse: string -> Option<Timestamp>, x: Daypart, y: Daypart)
    ensures StartsBefore(parse, y, x) ==> SortByStart(parse, [x, y]) == [y, x]
    ensures !StartsBefore(parse, y, x) ==> SortByStart(parse, [x, y]) == [x, y]
  {
    assert [x, y][..1] == [x];
    assert SortByStart(parse, [x]) == [x];
  }

  /** The comparator answers false whenever a start time fails to parse, so
      intervals none of whose start times parse keep their feed order. */
  lemma UnparsedStartsKeepOrder(parse: string -> Option<Timestamp>, dps: seq<Daypart>)
    requires forall i :: 0 <= i < |dps| ==> parse(dps[i].starttime).None?
    ensures SortByStart(parse, dps) == dps
  {
    SortKeepsFeedOrder(parse, dps);
  }

  /** Every start time parses. */
  predicate AllStartsParse(parse: string -> Option<Timestamp>, dps: seq<Daypart>) {
    forall i :: 0 <= i < |dps| ==> parse(dps[i].starttime).Some?
  }

  /** No later interval starts before an earlier one. */
  predicate Ascending(parse: string -> Option<Timestamp>, dps: seq<Daypart>) {
    forall i, j :: 0 <= i < j < |dps| ==> !StartsBefore(parse, dps[j], dps[i])
  }

  /** Under a parse that succeeds everywhere, `!Before(b, a)` means a is at or
      before b, and that relation is transitive. */
  lemma NotBeforeTransitive(a: Timestamp, b: Timestamp, c: Timestamp)
    requires !Before(b, a) && !Before(c, b)
    ensures !Before(c, a)
  {
  }

  /** Appending an interval that starts no earlier than any of an ascending
      sequence keeps it ascending. */
  lemma AppendAscending(parse: string -> Option<Timestamp>, s: seq<Daypart>, y: Daypart)
    requires Ascending(parse, s)
    requires forall i :: 0 <= i < |s| ==> !StartsBefore(parse, y, s[i])
    ensures Ascending(parse, s + [y])
  {
    var r := s + [y];
    forall i, j | 0 <= i < j < |r|
      ensures !StartsBefore(parse, r[j], r[i])
    {
      if j < |s| {
        assert r[i] == s[i] && r[j] == s[j];
      }
    }
  }

  /** Inserting an interval whose start parses into an ascending sequence
      whose starts all parse keeps it ascending. */
  lemma {:induction false} InsertAscending(parse: string -> Option<Timestamp>, sorted: seq<Daypart>, x: Daypart)
    requires AllStartsParse(parse, sorted) && parse(x.starttime).Some?
    requires Ascending(parse, sorted)
    ensures Ascending(parse, Insert(parse, sorted, x))
  {
    if sorted == [] {
    } else if !StartsBefore(parse, x, sorted[|sorted| - 1]) {
      var last := sorted[|sorted| - 1];
      forall i | 0 <= i < |sorted|
        ensures !StartsBefore(parse, x, sorted[i])
      {
        if i < |sorted| - 1 {
          NotBeforeTransitive(parse(sorted[i].starttime).value, parse(last.starttime).value, parse(x.starttime).value);
        }
      }
      AppendAscending(parse, sorted, x);
    } else {
      var init := sorted[..|sorted| - 1];
      var last := sorted[|sorted| - 1];
      assert AllStartsParse(parse, init) && Ascending(parse, init);
      InsertAscending(parse, init, x);
      var front := Insert(parse, init, x);
      forall i | 0 <= i < |front|
        ensures !StartsBefore(parse, last, front[i])
      {
        assert front[i] in multiset(init) + multiset{x};
        if front[i] != x {
          var k :| 0 <= k < |init| && init[k] == front[i];
          assert sorted[k] == front[i];
        }
      }
      AppendAscending(parse, front, last);
    }
  }

  /** When every start time parses, the sort does what its comment promises:
      the intervals come out in ascending order of start time. */
  lemma {:induction false} SortAscending(parse: string -> Option<Timestamp>, dps: seq<Daypart>)
    requires AllStartsParse(parse, dps)
    ensures Ascending(parse, SortByStart(parse, dps))
  {
    if dps != [] {
      var init := dps[..|dps| - 1];
      SortAscending(parse, init);
      var sortedInit := SortByStart(parse, init);
      forall i | 0 <= i < |sortedInit|
        ensures parse(sortedInit[i].starttime).Some?
      {
        assert sortedInit[i] in multiset(init);
      }
      InsertAscending(parse, sortedInit, dps[|dps| - 1]);
    }
  }

  // ---------------------------------------------------------------------------
  // ResponseItem.formatHours(day:)
  // ---------------------------------------------------------------------------

  /** The multi-interval compaction: every `a` and every `p` deleted. */
  function Compact(s: string): (r: string)
    ensures r == Without(s, {'a', 'p'})
  {
    ReplaceCharByNothing(s, 'a');
    ReplaceCharByNothing(Without(s, {'a'}), 'p');
    WithoutTwice(s, {'a'}, {'p'});
    assert {'a'} + {'p'} == {'a', 'p'};
    ReplaceAll(ReplaceAll(s, "a", ""), "p", "")
  }

  /** Compacting never brings in a character other than `a` and `p`. */
  lemma CompactKeepsOut(s: string, c: char)
    requires c != 'a' && c != 'p' && c !in s
    ensures c !in Compact(s)
  {
    WithoutKeeps(s, {'a', 'p'}, c);
    assert multiset(s)[c] == 0;
  }



  /** No formatted interval holds `C` or `|`. */
  lemma TimesAvoid(dps: seq<Daypart>)
    ensures forall i :: 0 <= i < |dps| ==> 'C' !in Times(dps)[i] && '|' !in Times(dps)[i]
  {
    var times := Times(dps);
    forall i | 0 <= i < |times| ensures 'C' !in times[i] && '|' !in times[i] {
      ClockAlphabetExcludes(Time(dps[i]));
    }
  }

  /** Joining n >= 1 texts free of `C` and `|` by `" | "` gives a text without
      `C` and with one `|` per gap between neighbours. */
  lemma JoinedTimesChars(times: seq<string>)
    requires |times| > 0
    requires forall i :: 0 <= i < |times| ==> 'C' !in times[i] && '|' !in times[i]
    ensures 'C' !in Join(times, IntervalSeparator)
    ensures multiset(Join(times, IntervalSeparator))['|'] == |times| - 1
  {
    forall i | 0 <= i < |times| ensures Avoids(times[i], {'C'}) { }
    JoinAvoids(times, IntervalSeparator, {'C'});
    assert multiset(IntervalSeparator)['|'] == 1;
    JoinCount(times, IntervalSeparator, '|');
  }

  /** The sorted intervals' `time()` texts joined by `" | "`. For n >= 1
      intervals the text holds no `C` and one `|` per gap between
      neighbouring intervals. */
  function CombinedTimes(parse: string -> Option<Timestamp>, dps: seq<Daypart>): (r: string)
    ensures |dps| > 0 ==> 'C' !in r && multiset(r)['|'] == |dps| - 1
  {
    var sorted := SortByStart(parse, dps);
    TimesAvoid(sorted);
    if |dps| > 0 then
      JoinedTimesChars(Times(sorted));
      Join(Times(sorted), IntervalSeparator)
    else
      Join(Times(sorted), IntervalSeparator)
  }

  /** `formatHours(day:)`. `parse` is the formatter the sort comparator reads
      start times with (see `BareParse` for the one the source builds). The
      closed marker appears exactly for a day whose status is not `open` or
      that has no interval, whatever the intervals hold. */
  function FormatHours(parse: string -> Option<Timestamp>, day: Day): (r: string)
    ensures r == ClosedMarker <==> day.status != "open" || |day.dayparts| == 0
  {
    if day.status != "open" || |day.dayparts| == 0 then ClosedMarker
    else
      var combinedTimes := CombinedTimes(parse, day.dayparts);
      assert ClosedMarker[0] == 'C';
      if '|' in combinedTimes then
        CompactKeepsOut(combinedTimes, 'C');
        Compact(combinedTimes)
      else
        combinedTimes
  }

  /** With a single interval the result is that interval's `time()`,
      `a`/`p` suffixes included. */
  lemma FormatHoursSingle(parse: string -> Option<Timestamp>, day: Day)
    requires day.status == "open" && |day.dayparts| == 1
    ensures FormatHours(parse, day) == Time(day.dayparts[0])
  {
    var dps := day.dayparts;
    assert SortByStart(parse, dps) == dps by {
      SortKeepsFeedOrder(parse, dps);
    }
    assert CombinedTimes(parse, dps) == Time(dps[0]);
  }

  /** The interval separator holds neither `a` nor `p`. */
  lemma SeparatorUnmarked()
    ensures Avoids(IntervalSeparator, {'a', 'p'})
  {
    assert IntervalSeparator == [' ', '|', ' '];
  }

  /** Compacting texts joined by `" | "` keeps every `|` of the separators. */
  lemma CompactJoinedBars(times: seq<string>)
    requires |times| > 0
    requires forall i :: 0 <= i < |times| ==> '|' !in times[i]
    ensures multiset(Compact(Join(times, IntervalSeparator)))['|'] == |times| - 1
  {
    var combined := Join(times, IntervalSeparator);
    assert multiset(combined)['|'] == |times| - 1 by {
      assert multiset(IntervalSeparator)['|'] == 1;
      JoinCount(times, IntervalSeparator, '|');
    }
    WithoutKeeps(combined, {'a', 'p'}, '|');
  }

  /** Compacting texts joined by `" | "` deletes `a` and `p` from each text
      and leaves the separators as they are. */
  lemma CompactJoined(times: seq<string>)
    ensures var r := Compact(Join(times, IntervalSeparator));
      && 'a' !in r && 'p' !in r
      && r == Join(WithoutEach(times, {'a', 'p'}), IntervalSeparator)
  {
    var r := Compact(Join(times, IntervalSeparator));
    SeparatorUnmarked();
    WithoutJoin(times, IntervalSeparator, {'a', 'p'});
    assert 'a' !in r && 'p' !in r by {
      assert Avoids(r, {'a', 'p'});
    }
  }

  /** With n >= 2 intervals the result has no `a` and no `p`, holds exactly
      n - 1 `|` characters (one per `" | "` separator), and is the sorted
      intervals' `time()` texts, each with its `a` and `p` deleted, joined by
      `" | "`. */
  lemma FormatHoursSeveral(parse: string -> Option<Timestamp>, day: Day)
    requires day.status == "open" && |day.dayparts| >= 2
    ensures var r := FormatHours(parse, day);
      && 'a' !in r && 'p' !in r
      && multiset(r)['|'] == |day.dayparts| - 1
      && r == Join(WithoutEach(Times(SortByStart(parse, day.dayparts)), {'a', 'p'}), IntervalSeparator)
  {
    var sorted := SortByStart(parse, day.dayparts);
    var times := Times(sorted);
    var combined := CombinedTimes(parse, day.dayparts);
    assert combined == Join(times, IntervalSeparator);
    assert '|' in combined by {
      assert multiset(combined)['|'] == |day.dayparts| - 1;
    }
    assert FormatHours(parse, day) == Compact(combined);
    TimesAvoid(sorted);
    CompactJoinedBars(times);
    CompactJoined(times);
  }

  // ---------------------------------------------------------------------------
  // The comparator's formatter, and what the hours of a day read
  // ---------------------------------------------------------------------------

  /** The formatter the source's comparator builds: a bare `DateFormatter()`
      with no `dateFormat`, which reads no feed timestamp. */
  function BareParse(s: string): (r: Option<Timestamp>)
    ensures r.None?
  {
    None
  }

  /** With the bare formatter every comparison answers false, so the intervals
      are formatted in feed order. */
  lemma BareFormatterKeepsFeedOrder(day: Day)
    ensures SortByStart(BareParse, day.dayparts) == day.dayparts
  {
    UnparsedStartsKeepOrder(BareParse, day.dayparts);
  }

  /** When every start time parses, the sorted intervals go from earliest
      to latest start. */
  lemma SortChronological(parse: string -> Option<Timestamp>, dps: seq<Daypart>)
    requires AllStartsParse(parse, dps)
    ensures AllStartsParse(parse, SortByStart(parse, dps))
    ensures var s := SortByStart(parse, dps);
      forall i, j :: 0 <= i < j < |s| ==>
        !Before(parse(s[j].starttime).value, parse(s[i].starttime).value)
  {
    SortAscending(parse, dps);
    var s := SortByStart(parse, dps);
    forall i | 0 <= i < |s| ensures parse(s[i].starttime).Some? {
      assert s[i] in multiset(dps);
    }
    forall i, j | 0 <= i < j < |s|
      ensures !Before(parse(s[j].starttime).value, parse(s[i].starttime).value)
    {
      assert !StartsBefore(parse, s[j], s[i]);
    }
  }

  /** With the feed-pattern formatter in the comparator, and every start time
      in that pattern, the intervals are formatted from earliest to latest. */
  lemma FeedFormatterSortsChronologically(day: Day)
    requires AllStartsParse(ParseFeed, day.dayparts)
    ensures AllStartsParse(ParseFeed, SortByStart(ParseFeed, day.dayparts))
    ensures var s := SortByStart(ParseFeed, day.dayparts);
      forall i, j :: 0 <= i < j < |s| ==>
        !Before(ParseFeed(s[j].starttime).value, ParseFeed(s[i].starttime).value)
  {
    SortChronological(ParseFeed, day.dayparts);
  }
}
