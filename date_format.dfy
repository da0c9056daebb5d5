/** `format_datetime`: a parsed post time rendered in one of three
    granularities relative to "now", or the raw text when parsing fails. */
module DateFormat {
  import opened Wrappers
  import opened Decimal

  /** The calendar fields of a parsed date-time, as `strftime` reads them. */
  datatype Moment = Moment(year: int, month: int, day: int, hour: int, minute: int, second: int) {
    predicate WellFormed() {
      && 1 <= year <= 9999 && 1 <= month <= 12 && 1 <= day <= 31
      && 0 <= hour < 24 && 0 <= minute < 60 && 0 <= second < 60
    }
  }

  /** What the date-time parser can produce. */
  type DateTime = m: Moment | m.WellFormed() witness Moment(1970, 1, 1, 0, 0, 0)

  datatype Tier = TimeOnly | MonthDayTime | FullDateTime

  /** Which format applies: same date as now, else same year, else neither. */
  function TierOf(dt: DateTime, now: DateTime): (t: Tier)
    ensures t == TimeOnly <==> dt.year == now.year && dt.month == now.month && dt.day == now.day
    ensures t == MonthDayTime <==> dt.year == now.year && (dt.month != now.month || dt.day != now.day)
    ensures t == FullDateTime <==> dt.year != now.year
  {
    if dt.year == now.year && dt.month == now.month && dt.day == now.day then TimeOnly
    else if dt.year == now.year then MonthDayTime
    else FullDateTime
  }

  function Two(n: int): (s: string)
    requires 0 <= n < 100
    ensures |s| == 2 && AllDigits(s) && DigitsValue(s) == n
  {
    PadLeftRoundTrip(n, 2);
    PadLeft(n, 2)
  }

  function Four(n: int): (s: string)
    requires 0 <= n < 10000
    ensures |s| == 4 && AllDigits(s) && DigitsValue(s) == n
  {
    PadLeftRoundTrip(n, 4);
    PadLeft(n, 4)
  }

  /** `strftime` with "%H:%M:%S", "%m/%d %H:%M" or "%Y/%m/%d %H:%M". */
  function Strftime(dt: DateTime, tier: Tier): (text: string)
    ensures |text| == match tier case TimeOnly => 8 case MonthDayTime => 11 case FullDateTime => 16
  {
    match tier
    case TimeOnly => Two(dt.hour) + ":" + Two(dt.minute) + ":" + Two(dt.second)
    case MonthDayTime => MonthDayTimeText(dt)
    case FullDateTime => Four(dt.year) + "/" + MonthDayTimeText(dt)
  }

  /** "%m/%d %H:%M", which "%Y/%m/%d %H:%M" ends with. */
  function MonthDayTimeText(dt: DateTime): (text: string)
    ensures |text| == 11
  {
    Two(dt.month) + "/" + Two(dt.day) + " " + Two(dt.hour) + ":" + Two(dt.minute)
  }

  /** `format_datetime(raw)`, where `parsed` is what the date-time parser made
      of `raw` (None when it raised) and `now` is the current local time. */
  function FormatDateTime(raw: string, parsed: Option<DateTime>, now: DateTime): (r: string)
    ensures parsed.None? ==> r == raw
  {
    match parsed
    case None => raw
    case Some(dt) => Strftime(dt, TierOf(dt, now))
  }

  /** The digits of the field of `r` that starts at `i` and is `width` long
      read back as `n`. */
  predicate FieldAt(r: string, i: nat, width: nat, n: int) {
    i + width <= |r| && AllDigits(r[i..i + width]) && DigitsValue(r[i..i + width]) == n
  }

  /** "%H:%M:%S" read back: the separators where they belong and the digit
      fields giving back hour, minute and second. */
  lemma TimeOnlyReadBack(dt: DateTime)
    ensures var r := Strftime(dt, TimeOnly);
            && |r| == 8 && r[2] == ':' && r[5] == ':'
            && FieldAt(r, 0, 2, dt.hour) && FieldAt(r, 3, 2, dt.minute) && FieldAt(r, 6, 2, dt.second)
  {
    var h, m, sec := Two(dt.hour), Two(dt.minute), Two(dt.second);
    var r := Strftime(dt, TimeOnly);
    assert r == h + ":" + m + ":" + sec;
    assert r[0..2] == h && r[3..5] == m && r[6..8] == sec;
  }

  /** "%m/%d %H:%M" read back. */
  lemma MonthDayReadBack(dt: DateTime)
    ensures var r := Strftime(dt, MonthDayTime);
            && |r| == 11 && r[2] == '/' && r[5] == ' ' && r[8] == ':'
            && FieldAt(r, 0, 2, dt.month) && FieldAt(r, 3, 2, dt.day)
            && FieldAt(r, 6, 2, dt.hour) && FieldAt(r, 9, 2, dt.minute)
  {
    var mo, d, h, mi := Two(dt.month), Two(dt.day), Two(dt.hour), Two(dt.minute);
    var r := Strftime(dt, MonthDayTime);
    assert r == mo + "/" + d + " " + h + ":" + mi;
    assert r[0..2] == mo && r[3..5] == d && r[6..8] == h && r[9..11] == mi;
  }

  /** "%Y/%m/%d %H:%M" read back. */
  lemma FullDateReadBack(dt: DateTime)
    ensures var r := Strftime(dt, FullDateTime);
            && |r| == 16 && r[4] == '/' && r[7] == '/' && r[10] == ' ' && r[13] == ':'
            && FieldAt(r, 0, 4, dt.year) && FieldAt(r, 5, 2, dt.month) && FieldAt(r, 8, 2, dt.day)
            && FieldAt(r, 11, 2, dt.hour) && FieldAt(r, 14, 2, dt.minute)
  {
    var y := Four(dt.year);
    MonthDayReadBack(dt);
    assert y[0..4] == y;
    YearInFront(y, MonthDayTimeText(dt), dt.year, dt.month, dt.day, dt.hour, dt.minute);
  }

  /** A four-digit year and a slash put in front of a "%m/%d %H:%M" text. */
  lemma YearInFront(y: string, rest: string, year: int, month: int, day: int, hour: int, minute: int)
    requires |y| == 4 && FieldAt(y, 0, 4, year)
    requires |rest| == 11 && rest[2] == '/' && rest[5] == ' ' && rest[8] == ':'
    requires FieldAt(rest, 0, 2, month) && FieldAt(rest, 3, 2, day)
    requires FieldAt(rest, 6, 2, hour) && FieldAt(rest, 9, 2, minute)
    ensures var r := y + "/" + rest;
            && |r| == 16 && r[4] == '/' && r[7] == '/' && r[10] == ' ' && r[13] == ':'
            && FieldAt(r, 0, 4, year) && FieldAt(r, 5, 2, month) && FieldAt(r, 8, 2, day)
            && FieldAt(r, 11, 2, hour) && FieldAt(r, 14, 2, minute)
  {
    var p := y + "/";
    assert |p| == 5 && (p + rest)[0..4] == y && y[0..4] == y;
    FieldShift(p, rest, 0, 2, month);
    FieldShift(p, rest, 3, 2, day);
    FieldShift(p, rest, 6, 2, hour);
    FieldShift(p, rest, 9, 2, minute);
  }

  /** A field keeps its value when text is put in front of it. */
  lemma FieldShift(p: string, s: string, i: nat, width: nat, n: int)
    requires FieldAt(s, i, width, n)
    ensures FieldAt(p + s, |p| + i, width, n)
  {
    assert (p + s)[|p| + i..|p| + i + width] == s[i..i + width];
  }

  /** The format is chosen by comparing the calendar date and year with now:
      8 characters for the same date, 11 for the same year, 16 otherwise. */
  lemma FormatDateTimeTiers(raw: string, dt: DateTime, now: DateTime)
    ensures var r := FormatDateTime(raw, Some(dt), now);
            && (dt.year == now.year && dt.month == now.month && dt.day == now.day ==>
                  r == Strftime(dt, TimeOnly) && |r| == 8)
            && (dt.year == now.year && (dt.month != now.month || dt.day != now.day) ==>
                  r == Strftime(dt, MonthDayTime) && |r| == 11)
            && (dt.year != now.year ==> r == Strftime(dt, FullDateTime) && |r| == 16)
  {
    TimeOnlyReadBack(dt);
    MonthDayReadBack(dt);
    FullDateReadBack(dt);
  }
}
