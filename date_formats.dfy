/**
  The two `DateFormatter` patterns the hours formatter relies on, as pure
  functions of the digit fields (English AM/PM symbols, no time zone):

  - `yyyy-MM-dd'T'HH:mm:ss`, the feed's local date-time (four-digit year,
    two-digit month, day, 24-hour hour, minute and second), parsed strictly;
  - `h:mma`, the 12-hour clock without a leading zero on the hour, two-digit
    minutes and the AM/PM marker.
 */
module DateFormats {
  import opened Options

  /** A local (time-zone-free) date and time as the feed writes it. */
  datatype Timestamp = Timestamp(year: int, month: int, day: int, hour: int, minute: int, second: int)

  predicate IsDigit(c: char) {
    '0' <= c <= '9'
  }

  predicate AllDigits(s: string) {
    forall i :: 0 <= i < |s| ==> IsDigit(s[i])
  }

  function DigitValue(c: char): (n: nat)
    requires IsDigit(c)
    ensures n < 10
  {
    (c as int) - ('0' as int)
  }

  function DigitChar(n: nat): (c: char)
    requires n < 10
    ensures IsDigit(c) && DigitValue(c) == n
  {
    (('0' as int) + n) as char
  }

  /** `n` written with two digits, zero-padded (the pattern letters `MM`,
      `dd`, `HH`, `mm`, `ss`). */
  function TwoDigits(n: nat): (r: string)
    requires n < 100
    ensures |r| == 2 && AllDigits(r)
    ensures DigitValue(r[0]) * 10 + DigitValue(r[1]) == n
  {
    [DigitChar(n / 10), DigitChar(n % 10)]
  }

  /** `n` written with four digits, zero-padded (the pattern letters `yyyy`):
      the hundreds, then the rest, each as two digits. */
  function FourDigits(n: nat): (r: string)
    requires n < 10000
    ensures |r| == 4 && AllDigits(r)
    ensures (DigitValue(r[0]) * 10 + DigitValue(r[1])) * 100 + DigitValue(r[2]) * 10 + DigitValue(r[3]) == n
  {
    TwoDigits(n / 100) + TwoDigits(n % 100)
  }

  /** `n` in decimal without padding (the pattern letter `h`). */
  function Decimal(n: nat): (r: string)
    requires n < 100
    ensures AllDigits(r)
    ensures n < 10 ==> |r| == 1 && DigitValue(r[0]) == n
    ensures n >= 10 ==> |r| == 2 && DigitValue(r[0]) * 10 + DigitValue(r[1]) == n
  {
    if n < 10 then [DigitChar(n)] else TwoDigits(n)
  }

  predicate IsLeapYear(y: int) {
    y % 4 == 0 && (y % 100 != 0 || y % 400 == 0)
  }

  /** Days in a month of the proleptic Gregorian calendar. */
  function DaysInMonth(y: int, m: int): (d: int)
    requires 1 <= m <= 12
    ensures 28 <= d <= 31
    ensures m == 2 ==> (d == 29 <==> IsLeapYear(y))
  {
    if m == 2 then (if IsLeapYear(y) then 29 else 28)
    else if m == 4 || m == 6 || m == 9 || m == 11 then 30
    else 31
  }

  /** A date-time that a strict (non-lenient) formatter accepts. */
  predicate Valid(t: Timestamp) {
    && 1 <= t.year <= 9999
    && 1 <= t.month <= 12
    && 1 <= t.day <= DaysInMonth(t.year, t.month)
    && 0 <= t.hour < 24
    && 0 <= t.minute < 60
    && 0 <= t.second < 60
  }

  /** The text the pattern `yyyy-MM-dd'T'HH:mm:ss` writes for `t`. */
  function RenderFeed(t: Timestamp): (r: string)
    requires Valid(t)
    ensures |r| == 19
  {
    var y, mo, d := FourDigits(t.year), TwoDigits(t.month), TwoDigits(t.day);
    var h, mi, se := TwoDigits(t.hour), TwoDigits(t.minute), TwoDigits(t.second);
    [y[0], y[1], y[2], y[3], '-', mo[0], mo[1], '-', d[0], d[1], 'T', h[0], h[1], ':', mi[0], mi[1], ':', se[0], se[1]]
  }

  /** True when `s` has the shape of the feed pattern: digits where the pattern
      has number fields and the pattern's literal characters elsewhere. */
  predicate FeedShape(s: string) {
    && |s| == 19
    && IsDigit(s[0]) && IsDigit(s[1]) && IsDigit(s[2]) && IsDigit(s[3]) && s[4] == '-'
    && IsDigit(s[5]) && IsDigit(s[6]) && s[7] == '-'
    && IsDigit(s[8]) && IsDigit(s[9]) && s[10] == 'T'
    && IsDigit(s[11]) && IsDigit(s[12]) && s[13] == ':'
    && IsDigit(s[14]) && IsDigit(s[15]) && s[16] == ':'
    && IsDigit(s[17]) && IsDigit(s[18])
  }

  /** The two-digit field starting at position `i`. */
  function Field2(s: string, i: nat): (n: nat)
    requires i + 1 < |s| && IsDigit(s[i]) && IsDigit(s[i + 1])
  {
    DigitValue(s[i]) * 10 + DigitValue(s[i + 1])
  }

  /** The fields a well-shaped text names, before any range check. */
  function FeedFields(s: string): (t: Timestamp)
    requires FeedShape(s)
  {
    Timestamp(Field2(s, 0) * 100 + Field2(s, 2), Field2(s, 5), Field2(s, 8), Field2(s, 11), Field2(s, 14), Field2(s, 17))
  }

  /** Two digits that read as `n` are the two-digit rendering of `n`. */
  lemma TwoDigitsOfField(s: string, i: nat)
    requires i + 1 < |s| && IsDigit(s[i]) && IsDigit(s[i + 1])
    ensures TwoDigits(Field2(s, i)) == [s[i], s[i + 1]]
  {
    var n := Field2(s, i);
    assert n / 10 == DigitValue(s[i]) && n % 10 == DigitValue(s[i + 1]);
  }

  /** Four digits that read as `n` are the four-digit rendering of `n`. */
  lemma FourDigitsOfField(s: string)
    requires 4 <= |s| && IsDigit(s[0]) && IsDigit(s[1]) && IsDigit(s[2]) && IsDigit(s[3])
    ensures FourDigits(Field2(s, 0) * 100 + Field2(s, 2)) == s[..4]
  {
    var hi, lo := Field2(s, 0), Field2(s, 2);
    var n := hi * 100 + lo;
    assert n / 100 == hi && n % 100 == lo;
    TwoDigitsOfField(s, 0);
    TwoDigitsOfField(s, 2);
    assert s[..4] == [s[0], s[1]] + [s[2], s[3]];
  }

  /** Writing back the fields of a well-shaped text reproduces the text. */
  lemma RenderFeedFields(s: string)
    requires FeedShape(s) && Valid(FeedFields(s))
    ensures RenderFeed(FeedFields(s)) == s
  {
    var t := FeedFields(s);
    FourDigitsOfField(s);
    TwoDigitsOfField(s, 5);
    TwoDigitsOfField(s, 8);
    TwoDigitsOfField(s, 11);
    TwoDigitsOfField(s, 14);
    TwoDigitsOfField(s, 17);
    assert RenderFeed(t) == s;
  }

  /** `date(from:)` of a formatter whose `dateFormat` is
      `yyyy-MM-dd'T'HH:mm:ss`: the fields of a well-shaped text that names a
      real calendar date and clock time, and `None` for anything else. What
      it accepts is exactly what the pattern writes. */
  function ParseFeed(s: string): (r: Option<Timestamp>)
    ensures r.Some? ==> Valid(r.value) && RenderFeed(r.value) == s
  {
    if !FeedShape(s) || !Valid(FeedFields(s)) then None
    else
      RenderFeedFields(s);
      Some(FeedFields(s))
  }

  /** The rendering of a valid date-time has the feed shape and its fields
      read back as the date-time. */
  lemma RenderedFields(t: Timestamp)
    requires Valid(t)
    ensures FeedShape(RenderFeed(t)) && FeedFields(RenderFeed(t)) == t
  {
    var s := RenderFeed(t);
    assert FeedShape(s);
    assert Field2(s, 0) * 100 + Field2(s, 2) == t.year;
    assert Field2(s, 5) == t.month && Field2(s, 8) == t.day;
    assert Field2(s, 11) == t.hour && Field2(s, 14) == t.minute && Field2(s, 17) == t.second;
  }

  /** Every valid date-time survives writing it in the feed pattern and parsing
      it back: with `ParseFeed`'s own contract, `ParseFeed(s) == Some(t)`
      exactly when `t` is valid and `s` is its rendering. */
  lemma ParseRenderFeed(t: Timestamp)
    requires Valid(t)
    ensures ParseFeed(RenderFeed(t)) == Some(t)
  {
    RenderedFields(t);
  }

  /** Chronological order of two local date-times: the first differing field,
      from the year down to the second, decides. For valid date-times this is
      the order `<` of the instants `date(from:)` returns when no time zone
      offset intervenes. */
  predicate Before(a: Timestamp, b: Timestamp) {
    || a.year < b.year
    || (a.year == b.year && a.month < b.month)
    || (a.year == b.year && a.month == b.month && a.day < b.day)
    || (a.year == b.year && a.month == b.month && a.day == b.day && a.hour < b.hour)
    || (a.year == b.year && a.month == b.month && a.day == b.day && a.hour == b.hour && a.minute < b.minute)
    || (a.year == b.year && a.month == b.month && a.day == b.day && a.hour == b.hour && a.minute == b.minute
        && a.second < b.second)
  }

  /** The hour on a 12-hour dial: midnight and noon read 12, afternoon hours
      13 to 23 read 1 to 11. */
  function Hour12(h: int): (r: int)
    requires 0 <= h < 24
    ensures 1 <= r <= 12
    ensures r % 12 == h % 12
  {
    if h % 12 == 0 then 12 else h % 12
  }

  /** The AM/PM marker of the pattern letter `a` in an English locale. */
  function Meridiem(h: int): (r: string) {
    if h < 12 then "AM" else "PM"
  }

  /** The text the pattern `h:mma` writes for the clock time of `t`. */
  function RenderClock(t: Timestamp): (r: string)
    requires 0 <= t.hour < 24 && 0 <= t.minute < 60
    ensures 6 <= |r| <= 7
  {
    Decimal(Hour12(t.hour)) + ":" + TwoDigits(t.minute) + Meridiem(t.hour)
  }

  /** Unpadded decimal texts of different numbers differ. */
  lemma DecimalInjective(a: nat, b: nat)
    requires a < 100 && b < 100 && Decimal(a) == Decimal(b)
    ensures a == b
  {
  }

  /** The dial hour and the half of the day determine the hour. */
  lemma HourFromDial(h1: int, h2: int)
    requires 0 <= h1 < 24 && 0 <= h2 < 24
    requires Hour12(h1) == Hour12(h2) && (h1 < 12 <==> h2 < 12)
    ensures h1 == h2
  {
  }
}
