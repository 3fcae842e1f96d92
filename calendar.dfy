/** The date and time helpers of calendar_integration.py and the parts of
    add_event and list_upcoming_events that decide what is sent to the
    Google Calendar API. Times are wall-clock records in one fixed zone. */
module CalendarIntegration {
  import opened Text
  import opened Outcomes

  /** LOCAL_TIMEZONE.zone */
  const LocalZone := "America/New_York"
  /** datetime.MINYEAR and datetime.MAXYEAR */
  const MinYear := 1
  const MaxYear := 9999
  /** parse_date_time: the hour used when no time is given */
  const DefaultHour := 9
  /** list_upcoming_events' default look-ahead, which the handler keeps */
  const DefaultDaysAhead: nat := 7

  /** The strptime formats parse_date_time uses. */
  const DateFormat := "%Y-%m-%d"
  const DateTimeFormat := "%Y-%m-%d %H:%M"

  /** A naive datetime to the minute; the zone is always LocalZone. */
  datatype DateTime = DateTime(year: int, month: int, day: int, hour: int, minute: int)

  predicate IsLeapYear(y: int)
  {
    y % 4 == 0 && (y % 100 != 0 || y % 400 == 0)
  }

  function DaysInMonth(y: int, m: int): (n: int)
    requires 1 <= m <= 12
    ensures 28 <= n <= 31
    ensures m == 2 <==> n < 30
  {
    if m == 2 then (if IsLeapYear(y) then 29 else 28)
    else if m == 4 || m == 6 || m == 9 || m == 11 then 30
    else 31
  }

  predicate ValidDate(y: int, m: int, d: int)
  {
    MinYear <= y <= MaxYear && 1 <= m <= 12 && 1 <= d <= DaysInMonth(y, m)
  }

  /** The first and the last day a Python datetime can hold. */
  predicate EdgeDay(y: int, m: int, d: int)
  {
    (y == MinYear && m == 1 && d == 1) || (y == MaxYear && m == 12 && d == 31)
  }

  /** The OverflowError of datetime arithmetic past MINYEAR or MAXYEAR. */
  const OutOfRange := OtherError("date value out of range")

  /** The values a Python datetime can hold (to the minute). */
  predicate ValidDateTime(t: DateTime)
  {
    ValidDate(t.year, t.month, t.day) && 0 <= t.hour <= 23 && 0 <= t.minute <= 59
  }

  // ---------------------------------------------------------------------
  // Day numbers, as date.toordinal() counts them

  function DaysInYear(y: int): int
  {
    if IsLeapYear(y) then 366 else 365
  }

  function DaysBeforeYear(y: int): int
    requires y >= 1
  {
    if y == 1 then 0 else DaysBeforeYear(y - 1) + DaysInYear(y - 1)
  }

  function DaysBeforeMonth(y: int, m: int): int
    requires 1 <= m <= 12
  {
    [0, 31, 59, 90, 120, 151, 181, 212, 243, 273, 304, 334][m - 1]
    + (if m > 2 && IsLeapYear(y) then 1 else 0)
  }

  /** date.toordinal(): 0001-01-01 is day 1. */
  function Ordinal(t: DateTime): int
    requires ValidDateTime(t)
  {
    DaysBeforeYear(t.year) + DaysBeforeMonth(t.year, t.month) + t.day
  }

  /** Minutes since the start of day 0, the order datetimes compare by. */
  function Minutes(t: DateTime): int
    requires ValidDateTime(t)
  {
    Ordinal(t) * 1440 + t.hour * 60 + t.minute
  }

  /** A datetime the clock can return. */
  type Instant = t: DateTime | ValidDateTime(t) witness DateTime(1970, 1, 1, 0, 0)

  predicate Before(a: DateTime, b: DateTime)
    requires ValidDateTime(a) && ValidDateTime(b)
  {
    Minutes(a) < Minutes(b)
  }

  lemma MonthsAddUp(y: int, m: int)
    requires 1 <= m < 12
    ensures DaysBeforeMonth(y, m + 1) == DaysBeforeMonth(y, m) + DaysInMonth(y, m)
  {
  }

  lemma YearAddsUp(y: int)
    ensures DaysBeforeMonth(y, 12) + DaysInMonth(y, 12) == DaysInYear(y)
  {
  }

  /** The same clock time on the following day, if that day is representable. */
  function NextDay(t: DateTime): Option<DateTime>
    requires ValidDateTime(t)
  {
    if t.day < DaysInMonth(t.year, t.month) then Some(t.(day := t.day + 1))
    else if t.month < 12 then Some(t.(month := t.month + 1, day := 1))
    else if t.year < MaxYear then Some(t.(year := t.year + 1, month := 1, day := 1))
    else None
  }

  /** NextDay moves exactly one day on, and fails only on 9999-12-31. */
  lemma NextDayIsOneDayLater(t: DateTime)
    requires ValidDateTime(t)
    ensures NextDay(t).None? <==> (t.year == MaxYear && t.month == 12 && t.day == 31)
    ensures match NextDay(t)
      case Some(u) => ValidDateTime(u) && Ordinal(u) == Ordinal(t) + 1
                      && u.hour == t.hour && u.minute == t.minute
      case None => true
  {
    if t.day == DaysInMonth(t.year, t.month) {
      if t.month < 12 {
        MonthsAddUp(t.year, t.month);
      } else if t.year < MaxYear {
        YearAddsUp(t.year);
        assert DaysBeforeYear(t.year + 1) == DaysBeforeYear(t.year) + DaysInYear(t.year);
      }
    }
  }

  /** start_time + timedelta(hours=1): wall-clock addition, carrying into the
      next day; OverflowError past the last representable hour. */
  function AddHour(t: DateTime): Result<DateTime>
    requires ValidDateTime(t)
  {
    if t.hour < 23 then Ok(t.(hour := t.hour + 1))
    else match NextDay(t)
      case None => Err(OutOfRange)
      case Some(u) => Ok(u.(hour := 0))
  }

  /** The default end is exactly sixty minutes after the start; it can only
      fail in the last hour of 9999-12-31. */
  lemma AddHourIsSixtyMinutes(t: DateTime)
    requires ValidDateTime(t)
    ensures AddHour(t).Err? <==> (t.year == MaxYear && t.month == 12 && t.day == 31 && t.hour == 23)
    ensures match AddHour(t)
      case Ok(u) => ValidDateTime(u) && Minutes(u) == Minutes(t) + 60 && Before(t, u)
      case Err(_) => true
  {
    NextDayIsOneDayLater(t);
  }

  /** now + timedelta(days=n). */
  function AddDays(t: DateTime, n: nat): Result<DateTime>
    requires ValidDateTime(t)
    decreases n
  {
    if n == 0 then Ok(t)
    else match NextDay(t)
      case None => Err(OutOfRange)
      case Some(u) =>
        NextDayIsOneDayLater(t);
        AddDays(u, n - 1)
  }

  lemma {:induction false} AddDaysIsNDaysLater(t: DateTime, n: nat)
    requires ValidDateTime(t)
    ensures match AddDays(t, n)
      case Ok(u) => ValidDateTime(u) && Ordinal(u) == Ordinal(t) + n
                    && u.hour == t.hour && u.minute == t.minute
      case Err(_) => true
    decreases n
  {
    if n > 0 {
      NextDayIsOneDayLater(t);
      if NextDay(t).Some? {
        AddDaysIsNDaysLater(NextDay(t).value, n - 1);
      }
    }
  }

  // ---------------------------------------------------------------------
  // datetime.strptime for "%Y-%m-%d" and "%Y-%m-%d %H:%M"

  predicate IsDigit(c: char)
  {
    '0' <= c <= '9'
  }

  predicate AllDigits(s: string)
  {
    forall i :: 0 <= i < |s| ==> IsDigit(s[i])
  }

  function DigitsValue(s: string): nat
    requires AllDigits(s)
  {
    if |s| == 0 then 0 else DigitsValue(s[..|s| - 1]) * 10 + (s[|s| - 1] as int - '0' as int)
  }

  function Pow10(n: nat): nat
  {
    if n == 0 then 1 else 10 * Pow10(n - 1)
  }

  lemma {:induction false} DigitsValueBound(s: string)
    requires AllDigits(s)
    ensures DigitsValue(s) < Pow10(|s|)
  {
    if |s| > 0 {
      DigitsValueBound(s[..|s| - 1]);
    }
  }

  /** The length of the run of digits starting s. */
  function DigitRun(s: string): (n: nat)
    ensures n <= |s| && AllDigits(s[..n]) && (n < |s| ==> !IsDigit(s[n]))
  {
    if |s| > 0 && IsDigit(s[0]) then
      var n := 1 + DigitRun(s[1..]);
      assert s[..n] == [s[0]] + s[1..][..n - 1];
      n
    else 0
  }

  /** The length of the run of whitespace starting s (\s+ in the pattern). */
  function SpaceRun(s: string): (n: nat)
    ensures n <= |s| && (n < |s| ==> !IsSpace(s[n]))
  {
    if |s| > 0 && IsSpace(s[0]) then 1 + SpaceRun(s[1..]) else 0
  }

  /** A numeric field of one or two digits at the start of s with its value in
      [lo, hi], and what follows it. This is what the directives %m, %d, %H and
      %M accept when a non-digit follows (their regular expressions are
      1[0-2]|0[1-9]|[1-9], 3[01]|[12]\d|0[1-9]|[1-9], 2[0-3]|[0-1]\d|\d and
      [0-5]\d|\d). */
  function Field(s: string, lo: int, hi: int): Option<(int, string)>
  {
    var n := DigitRun(s);
    if 1 <= n <= 2 && lo <= DigitsValue(s[..n]) <= hi then Some((DigitsValue(s[..n]), s[n..]))
    else None
  }

  /** %d also accepts a space followed by one digit 1-9. */
  function DayField(s: string): Option<(int, string)>
  {
    if |s| >= 2 && s[0] == ' ' && '1' <= s[1] <= '9' then Some((s[1] as int - '0' as int, s[2..]))
    else Field(s, 1, 31)
  }

  /** %Y: exactly four digits. */
  function YearField(s: string): Option<(int, string)>
  {
    var n := DigitRun(s);
    if n == 4 then Some((DigitsValue(s[..4]), s[4..])) else None
  }

  /** "%Y-%m-%d" at the start of s: year, month, day and the rest of s. */
  function MatchDate(s: string): Option<(int, int, int, string)>
  {
    match YearField(s)
    case None => None
    case Some((y, r1)) =>
      if |r1| == 0 || r1[0] != '-' then None
      else match Field(r1[1..], 1, 12)
        case None => None
        case Some((m, r2)) =>
          if |r2| == 0 || r2[0] != '-' then None
          else match DayField(r2[1..])
            case None => None
            case Some((d, r3)) => Some((y, m, d, r3))
  }

  /** "\s+%H:%M" covering all of s. */
  function MatchClock(s: string): Option<(int, int)>
  {
    var n := SpaceRun(s);
    if n == 0 then None
    else match Field(s[n..], 0, 23)
      case None => None
      case Some((h, r1)) =>
        if |r1| == 0 || r1[0] != ':' then None
        else match Field(r1[1..], 0, 59)
          case None => None
          case Some((mi, r2)) => if r2 == "" then Some((h, mi)) else None
  }

  /** The ValueError strptime raises when the text does not fit the format. */
  function Mismatch(data: string, format: string): Fault
  {
    OtherError("time data '" + data + "' does not match format '" + format + "'")
  }

  /** What the datetime constructor checks once the fields are read. */
  function Build(y: int, m: int, d: int, h: int, mi: int): (r: Result<DateTime>)
    requires 1 <= m <= 12
  {
    if y < MinYear then Err(OtherError("year " + NatToString(if y < 0 then 0 else y) + " is out of range"))
    else if d > DaysInMonth(y, m) then Err(OtherError("day is out of range for month"))
    else Ok(DateTime(y, m, d, h, mi))
  }

  function StrptimeDate(s: string): Result<DateTime>
  {
    match MatchDate(s)
    case None => Err(Mismatch(s, DateFormat))
    case Some((y, m, d, rest)) =>
      if rest != "" then Err(Mismatch(s, DateFormat)) else Build(y, m, d, 0, 0)
  }

  function StrptimeDateTime(s: string): Result<DateTime>
  {
    match MatchDate(s)
    case None => Err(Mismatch(s, DateTimeFormat))
    case Some((y, m, d, rest)) =>
      match MatchClock(rest)
      case None => Err(Mismatch(s, DateTimeFormat))
      case Some((h, mi)) => Build(y, m, d, h, mi)
  }

  /** LOCAL_TIMEZONE.localize(dt) with pytz: to find the zone's offset it
      looks at dt one day earlier and one day later, and that datetime
      arithmetic overflows on the first and the last day. Otherwise the
      wall-clock value is kept; the zone is carried by the event body. */
  function Localize(t: DateTime): Result<DateTime>
  {
    if EdgeDay(t.year, t.month, t.day) then Err(OutOfRange) else Ok(t)
  }

  /** parse_date_time: with a non-empty time both are parsed together as
      "%Y-%m-%d %H:%M"; otherwise the date alone, at 09:00; then localized.
      What is returned is always a valid datetime, never on an edge day. */
  function ParseDateTime(date: string, time: Option<string>): (r: Result<DateTime>)
    ensures r.Ok? ==> ValidDateTime(r.value) && !EdgeDay(r.value.year, r.value.month, r.value.day)
  {
    if time.Some? && time.value != "" then
      match StrptimeDateTime(date + " " + time.value)
      case Err(f) => Err(f)
      case Ok(t) => FieldsInRange(date + " " + time.value); Localize(t)
    else
      match StrptimeDate(date)
      case Err(f) => Err(f)
      case Ok(t) => FieldsInRange(date); Localize(t.(hour := DefaultHour))
  }

  /** A parsed start always has its default end: the one hour add_event adds
      cannot overflow, since localize has already refused the last day. */
  lemma ParsedStartHasEnd(date: string, time: Option<string>)
    ensures ParseDateTime(date, time).Ok? ==> AddHour(ParseDateTime(date, time).value).Ok?
  {
    if ParseDateTime(date, time).Ok? {
      AddHourIsSixtyMinutes(ParseDateTime(date, time).value);
    }
  }

  lemma FieldInRange(s: string, lo: int, hi: int)
    ensures Field(s, lo, hi).Some? ==> lo <= Field(s, lo, hi).value.0 <= hi
  {
  }

  /** Whatever the field scanners accept lies in its regular expression's range. */
  lemma FieldsInRange(s: string)
    ensures StrptimeDate(s).Ok? ==> ValidDateTime(StrptimeDate(s).value)
    ensures StrptimeDateTime(s).Ok? ==> ValidDateTime(StrptimeDateTime(s).value)
  {
    match MatchDate(s)
    case None =>
    case Some((y, m, d, rest)) =>
      DigitsValueBound(s[..4]);
      var r1 := YearField(s).value.1;
      var r2 := Field(r1[1..], 1, 12).value.1;
      FieldInRange(r1[1..], 1, 12);
      FieldInRange(r2[1..], 1, 31);
      match MatchClock(rest)
      case None =>
      case Some((h, mi)) =>
        var n := SpaceRun(rest);
        FieldInRange(rest[n..], 0, 23);
        var r3 := Field(rest[n..], 0, 23).value.1;
        FieldInRange(r3[1..], 0, 59);
  }

  // ---------------------------------------------------------------------
  // Zero-padded text of a date and a time, and the round trip through parsing

  function Pad2(n: int): (s: string)
    requires 0 <= n < 100
    ensures |s| == 2 && AllDigits(s) && DigitsValue(s) == n
  {
    var s := [DigitChar(n / 10), DigitChar(n % 10)];
    assert s[..1] == [s[0]] && s[..1][..0] == [];
    assert DigitsValue(s[..1]) == n / 10;
    s
  }

  function Pad4(n: int): (s: string)
    requires 0 <= n < 10000
    ensures |s| == 4 && AllDigits(s) && DigitsValue(s) == n
  {
    var hi, lo := Pad2(n / 100), Pad2(n % 100);
    var s := hi + lo;
    assert s[..3] == hi + [lo[0]] && s[..2] == hi;
    assert DigitsValue(s[..3]) == DigitsValue(hi) * 10 + (lo[0] as int - '0' as int);
    assert DigitsValue(lo) == (lo[0] as int - '0' as int) * 10 + (lo[1] as int - '0' as int) by {
      assert lo[..1] == [lo[0]];
    }
    s
  }

  /** "YYYY-MM-DD" */
  function DateText(y: int, m: int, d: int): string
    requires 0 <= y < 10000 && 0 <= m < 100 && 0 <= d < 100
  {
    Pad4(y) + "-" + Pad2(m) + "-" + Pad2(d)
  }

  /** A date text is ten digits and dashes: no blank at either end and no
      '|' inside. */
  lemma DateTextShape(y: int, m: int, d: int)
    requires 0 <= y < 10000 && 0 <= m < 100 && 0 <= d < 100
    ensures var s := DateText(y, m, d);
      |s| == 10 && '|' !in s && !IsSpace(s[0]) && !IsSpace(s[9]) && Strip(s) == s
  {
    var s := DateText(y, m, d);
    var a, b, c := Pad4(y), Pad2(m), Pad2(d);
    DigitsPlain(a);
    DigitsPlain(b);
    DigitsPlain(c);
    PlainJoin(a, "-");
    PlainJoin(a + "-", b);
    PlainJoin(a + "-" + b, "-");
    PlainJoin(a + "-" + b + "-", c);
    assert s == a + "-" + b + "-" + c;
    PlainNotSpace(s[0]);
    PlainNotSpace(s[9]);
    assert '|' !in s by {
      forall i | 0 <= i < |s| ensures s[i] != '|' {
        PlainNotSpace(s[i]);
      }
    }
    assert TrimStart(s) == s;
  }

  /** Digits and dashes: what dates and times are written with. */
  predicate AllPlain(s: string)
  {
    forall i :: 0 <= i < |s| ==> IsDigit(s[i]) || s[i] == '-'
  }

  lemma DigitsPlain(s: string)
    requires AllDigits(s)
    ensures AllPlain(s)
  {
  }

  lemma PlainJoin(s: string, t: string)
    requires AllPlain(s) && AllPlain(t)
    ensures AllPlain(s + t)
  {
    forall i | 0 <= i < |s + t| ensures IsDigit((s + t)[i]) || (s + t)[i] == '-' {
      if i >= |s| {
        assert (s + t)[i] == t[i - |s|];
      }
    }
  }

  lemma PlainNotSpace(c: char)
    requires IsDigit(c) || c == '-'
    ensures !IsSpace(c) && c != '|'
  {
  }

  /** "HH:MM" */
  function TimeText(h: int, mi: int): string
    requires 0 <= h < 100 && 0 <= mi < 100
  {
    Pad2(h) + ":" + Pad2(mi)
  }

  lemma {:induction false} DigitRunOf(ds: string, rest: string)
    requires AllDigits(ds)
    requires rest == "" || !IsDigit(rest[0])
    ensures DigitRun(ds + rest) == |ds|
    decreases |ds|
  {
    if |ds| > 0 {
      assert (ds + rest)[1..] == ds[1..] + rest;
      DigitRunOf(ds[1..], rest);
    } else {
      assert ds + rest == rest;
    }
  }

  lemma FieldOf(ds: string, rest: string, lo: int, hi: int)
    requires |ds| == 2 && AllDigits(ds) && lo <= DigitsValue(ds) <= hi
    requires rest == "" || !IsDigit(rest[0])
    ensures Field(ds + rest, lo, hi) == Some((DigitsValue(ds), rest))
  {
    DigitRunOf(ds, rest);
    assert (ds + rest)[..2] == ds && (ds + rest)[2..] == rest;
  }

  lemma YearFieldOf(ds: string, rest: string)
    requires |ds| == 4 && AllDigits(ds)
    requires rest == "" || !IsDigit(rest[0])
    ensures YearField(ds + rest) == Some((DigitsValue(ds), rest))
  {
    DigitRunOf(ds, rest);
    assert (ds + rest)[..4] == ds && (ds + rest)[4..] == rest;
  }

  /** The date part of a padded date text followed by rest. */
  lemma MatchDateText(y: int, m: int, d: int, rest: string)
    requires 0 <= y < 10000 && 1 <= m <= 12 && 1 <= d <= 31
    requires rest == "" || !IsDigit(rest[0])
    ensures MatchDate(DateText(y, m, d) + rest) == Some((y, m, d, rest))
  {
    var tail1 := "-" + Pad2(m) + "-" + Pad2(d) + rest;
    assert DateText(y, m, d) + rest == Pad4(y) + tail1;
    YearFieldOf(Pad4(y), tail1);
    MonthDayText(m, d, rest);
  }

  /** "-MM-DD" followed by rest, as MatchDate reads it after the year. */
  lemma MonthDayText(m: int, d: int, rest: string)
    requires 1 <= m <= 12 && 1 <= d <= 31
    requires rest == "" || !IsDigit(rest[0])
    ensures var tail1 := "-" + Pad2(m) + "-" + Pad2(d) + rest;
      var tail2 := "-" + Pad2(d) + rest;
      tail1[0] == '-' && Field(tail1[1..], 1, 12) == Some((m, tail2))
      && tail2[0] == '-' && DayField(tail2[1..]) == Some((d, rest))
  {
    var tail2 := "-" + Pad2(d) + rest;
    var tail1 := "-" + Pad2(m) + tail2;
    assert "-" + Pad2(m) + "-" + Pad2(d) + rest == tail1;
    assert tail1[1..] == Pad2(m) + tail2;
    FieldOf(Pad2(m), tail2, 1, 12);
    assert tail2[1..] == Pad2(d) + rest;
    FieldOf(Pad2(d), rest, 1, 31);
  }

  lemma MatchClockText(h: int, mi: int)
    requires 0 <= h <= 23 && 0 <= mi <= 59
    ensures MatchClock(" " + TimeText(h, mi)) == Some((h, mi))
  {
    var s := " " + TimeText(h, mi);
    assert !IsSpace(s[1]);
    assert SpaceRun(s[1..]) == 0;
    assert SpaceRun(s) == 1;
    var tail := ":" + Pad2(mi);
    assert s[1..] == Pad2(h) + tail;
    FieldOf(Pad2(h), tail, 0, 23);
    assert tail[1..] == Pad2(mi) + "";
    FieldOf(Pad2(mi), "", 0, 59);
  }

  lemma StrptimeText(y: int, m: int, d: int, h: int, mi: int)
    requires 0 <= y <= MaxYear && 1 <= m <= 12 && 1 <= d <= 31 && 0 <= h <= 23 && 0 <= mi <= 59
    ensures StrptimeDateTime(DateText(y, m, d) + " " + TimeText(h, mi)) == Build(y, m, d, h, mi)
  {
    var clock := " " + TimeText(h, mi);
    assert DateText(y, m, d) + " " + TimeText(h, mi) == DateText(y, m, d) + clock;
    MatchDateText(y, m, d, clock);
    MatchClockText(h, mi);
  }

  lemma BuildExact(y: int, m: int, d: int, h: int, mi: int)
    requires 0 <= y <= MaxYear && 1 <= m <= 12 && 1 <= d <= 31
    ensures Build(y, m, d, h, mi).Ok? <==> ValidDate(y, m, d)
    ensures Build(y, m, d, h, mi).Ok? ==> Build(y, m, d, h, mi).value == DateTime(y, m, d, h, mi)
  {
  }

  /** With a non-empty time, parse_date_time yields exactly the written year,
      month, day, hour and minute; it accepts a padded date exactly when that
      date exists and is not an edge day, where localize overflows. */
  lemma ParseDateTimeExact(y: int, m: int, d: int, h: int, mi: int)
    requires 0 <= y <= MaxYear && 1 <= m <= 12 && 1 <= d <= 31 && 0 <= h <= 23 && 0 <= mi <= 59
    ensures var r := ParseDateTime(DateText(y, m, d), Some(TimeText(h, mi)));
      (r.Ok? <==> ValidDate(y, m, d) && !EdgeDay(y, m, d)) && (r.Ok? ==> r.value == DateTime(y, m, d, h, mi))
      && (ValidDate(y, m, d) && EdgeDay(y, m, d) ==> r == Err(OutOfRange))
  {
    StrptimeText(y, m, d, h, mi);
    BuildExact(y, m, d, h, mi);
    assert TimeText(h, mi) != "";
  }

  /** With no time, or an empty one, the date is taken at 09:00; an edge day
      overflows in localize. */
  lemma ParseDateDefaultsToNine(y: int, m: int, d: int, time: Option<string>)
    requires 0 <= y <= MaxYear && 1 <= m <= 12 && 1 <= d <= 31
    requires time == None || time == Some("")
    ensures var r := ParseDateTime(DateText(y, m, d), time);
      (r.Ok? <==> ValidDate(y, m, d) && !EdgeDay(y, m, d)) && (r.Ok? ==> r.value == DateTime(y, m, d, DefaultHour, 0))
      && (ValidDate(y, m, d) && EdgeDay(y, m, d) ==> r == Err(OutOfRange))
  {
    MatchDateText(y, m, d, "");
    assert DateText(y, m, d) + "" == DateText(y, m, d);
  }

  /** The date of an existing day, written "YYYY-MM-DD" with no time,
      parses to 09:00 of that day, or overflows on an edge day; the text has
      no blanks to strip and no '|'. */
  lemma DateAtNine(y: int, m: int, d: int)
    requires ValidDate(y, m, d)
    ensures '|' !in DateText(y, m, d) && Strip(DateText(y, m, d)) == DateText(y, m, d)
    ensures ParseDateTime(DateText(y, m, d), Some(""))
            == if EdgeDay(y, m, d) then Err(OutOfRange) else Ok(DateTime(y, m, d, DefaultHour, 0))
  {
    DateTextShape(y, m, d);
    ParseDateDefaultsToNine(y, m, d, Some(""));
  }

  // ---------------------------------------------------------------------
  // add_event

  /** One end of an event as sent: {'dateTime': ..., 'timeZone': ...}. */
  datatype EventTime = EventTime(dateTime: DateTime, timeZone: string)

  /** The event dictionary add_event sends to events().insert. */
  datatype EventBody = EventBody(
    summary: string,
    location: Option<string>,
    description: Option<string>,
    start: EventTime,
    end: EventTime)

  /** What an event record from events().list exposes: each end has a
      'dateTime' or a 'date' string, as the API returns them. */
  datatype EventMoment = EventMoment(dateTime: Option<string>, date: Option<string>)

  datatype CalendarEvent = CalendarEvent(
    summary: Option<string>,
    start: EventMoment,
    end: EventMoment,
    location: Option<string>)

  /** The query list_upcoming_events sends to events().list. */
  datatype EventQuery = EventQuery(
    timeMin: DateTime,
    timeMax: DateTime,
    maxResults: nat,
    singleEvents: bool,
    orderBy: string)

  /** The Google Calendar service, the clock, and the library rendering of
      ISO timestamps in the local zone, all outside the model. */
  datatype CalendarApi = CalendarApi(
    connect: Option<Fault>,                        // get_calendar_service() raised
    insert: EventBody -> Result<string>,           // events().insert(...).execute(), its htmlLink
    list: EventQuery -> Result<seq<CalendarEvent>>, // events().list(...).execute(), its items
    now: Instant,                                  // datetime.utcnow()
    showStart: string -> Result<string>,           // fromisoformat, astimezone, '%Y-%m-%d %I:%M %p'
    showEnd: string -> Result<string>)             // fromisoformat, astimezone, '%I:%M %p'

  /** HttpError is not imported in calendar_integration.py, so any exception
      inside its try blocks turns into this NameError when the except clause
      is evaluated. */
  const UnimportedHttpError := OtherError("name 'HttpError' is not defined")

  /** The body add_event builds, the end defaulting to one hour after the start. */
  function NewEventBody(summary: string, start: DateTime, end: Option<DateTime>,
                        description: Option<string>, location: Option<string>): Result<EventBody>
    requires ValidDateTime(start)
  {
    var endTime := if end.Some? then Ok(end.value) else AddHour(start);
    match endTime
    case Err(f) => Err(f)
    case Ok(e) =>
      Ok(EventBody(summary, location, description, EventTime(start, LocalZone), EventTime(e, LocalZone)))
  }

  /** Both ends carry LocalZone, the start is the given one and a default end
      lies exactly one hour later, never before the start. */
  lemma NewEventBodyDefaults(summary: string, start: DateTime, description: Option<string>, location: Option<string>)
    requires ValidDateTime(start)
    ensures match NewEventBody(summary, start, None, description, location)
      case Ok(b) =>
        b.start == EventTime(start, LocalZone) && b.end.timeZone == LocalZone
        && b.summary == summary && b.location == location && b.description == description
        && ValidDateTime(b.end.dateTime) && Minutes(b.end.dateTime) == Minutes(start) + 60
        && Before(b.start.dateTime, b.end.dateTime)
      case Err(_) => start.year == MaxYear && start.month == 12 && start.day == 31 && start.hour == 23
  {
    AddHourIsSixtyMinutes(start);
  }

  /** add_event: build the body, then insert it; "Event created: " + link. */
  function AddEvent(summary: string, start: DateTime, end: Option<DateTime>,
                    description: Option<string>, location: Option<string>, cal: CalendarApi): Result<string>
    requires ValidDateTime(start)
  {
    match NewEventBody(summary, start, end, description, location)
    case Err(f) => Err(f)
    case Ok(body) =>
      if cal.connect.Some? then Err(cal.connect.value)
      else match cal.insert(body)
        case Ok(link) => Ok("Event created: " + link)
        case Err(_) => Err(UnimportedHttpError)
  }

  /** A successful insert of the default-end body reports its link; a failed
      insert surfaces only as the NameError. */
  lemma AddEventOutcome(summary: string, start: DateTime, description: Option<string>,
                        location: Option<string>, cal: CalendarApi)
    requires ValidDateTime(start) && cal.connect.None?
    requires NewEventBody(summary, start, None, description, location).Ok?
    ensures var body := NewEventBody(summary, start, None, description, location).value;
      var r := AddEvent(summary, start, None, description, location, cal);
      (cal.insert(body).Ok? ==> r == Ok("Event created: " + cal.insert(body).value))
      && (cal.insert(body).Err? ==> r == Err(UnimportedHttpError))
  {
  }

  // ---------------------------------------------------------------------
  // format_event_time and list_upcoming_events

  /** event['x'].get('dateTime', event['x'].get('date')) */
  function Chosen(m: EventMoment): Option<string>
  {
    if m.dateTime.Some? then m.dateTime else m.date
  }

  /** format_event_time: a timed range when the chosen start holds a 'T',
      otherwise "All day on " + the start. */
  function FormatEventTime(ev: CalendarEvent, cal: CalendarApi): Result<string>
  {
    match Chosen(ev.start)
    case None => Err(OtherError("argument of type 'NoneType' is not iterable"))
    case Some(s) =>
      if 'T' in s then
        match cal.showStart(s)
        case Err(f) => Err(f)
        case Ok(a) =>
          match Chosen(ev.end)
          case None => Err(OtherError("fromisoformat: argument must be str"))
          case Some(e) =>
            match cal.showEnd(e)
            case Err(f) => Err(f)
            case Ok(b) => Ok(a + " to " + b)
      else Ok("All day on " + s)
  }

  /** The 'dateTime' of an end wins over its 'date': the 'date' of an end that
      has a 'dateTime' never changes the text. A start without 'T' is shown
      as exactly "All day on " + start. */
  lemma FormatEventTimePrefersDateTime(ev: CalendarEvent, startDate: Option<string>,
                                       endDate: Option<string>, cal: CalendarApi)
    requires ev.start.dateTime.Some? && ev.end.dateTime.Some?
    ensures FormatEventTime(ev.(start := ev.start.(date := startDate), end := ev.end.(date := endDate)), cal)
         == FormatEventTime(ev, cal)
    ensures 'T' !in ev.start.dateTime.value ==> FormatEventTime(ev, cal) == Ok("All day on " + ev.start.dateTime.value)
    ensures 'T' in ev.start.dateTime.value && cal.showStart(ev.start.dateTime.value).Ok?
            && cal.showEnd(ev.end.dateTime.value).Ok? ==>
            FormatEventTime(ev, cal)
            == Ok(cal.showStart(ev.start.dateTime.value).value + " to " + cal.showEnd(ev.end.dateTime.value).value)
  {
  }

  /** An all-day event (only a 'date') is shown as "All day on " + date. */
  lemma FormatAllDay(ev: CalendarEvent, cal: CalendarApi)
    requires ev.start.dateTime.None? && ev.start.date.Some? && 'T' !in ev.start.date.value
    ensures FormatEventTime(ev, cal) == Ok("All day on " + ev.start.date.value)
  {
  }

  /** The window list_upcoming_events asks for. */
  function UpcomingQuery(now: DateTime, maxResults: nat, daysAhead: nat): Result<EventQuery>
    requires ValidDateTime(now)
  {
    match AddDays(now, daysAhead)
    case Err(f) => Err(f)
    case Ok(later) => Ok(EventQuery(now, later, maxResults, true, "startTime"))
  }

  /** The window runs from now to the same time daysAhead days later, with the
      requested number of results, single events, ordered by start time. */
  lemma UpcomingWindow(now: DateTime, maxResults: nat, daysAhead: nat)
    requires ValidDateTime(now)
    ensures match UpcomingQuery(now, maxResults, daysAhead)
      case Ok(q) =>
        q.timeMin == now && ValidDateTime(q.timeMax)
        && Ordinal(q.timeMax) == Ordinal(now) + daysAhead
        && q.timeMax.hour == now.hour && q.timeMax.minute == now.minute
        && q.maxResults == maxResults && q.singleEvents && q.orderBy == "startTime"
      case Err(_) => true
  {
    AddDaysIsNDaysLater(now, daysAhead);
  }

  /** list_upcoming_events(max_results, days_ahead). */
  function ListUpcomingEvents(maxResults: nat, daysAhead: nat, cal: CalendarApi): Result<seq<CalendarEvent>>
  {
    if cal.connect.Some? then Err(cal.connect.value)
    else match UpcomingQuery(cal.now, maxResults, daysAhead)
      case Err(f) => Err(f)
      case Ok(q) =>
        match cal.list(q)
        case Ok(items) => Ok(items)
        case Err(_) => Err(UnimportedHttpError)
  }

  /** The listing returns the items of the window query; a failed query does
      not come back as [] but as the NameError, and a window running past the
      last representable day is an error before the service is asked. */
  lemma UpcomingEventsOutcome(maxResults: nat, daysAhead: nat, cal: CalendarApi)
    requires cal.connect.None?
    ensures match UpcomingQuery(cal.now, maxResults, daysAhead)
      case Err(f) => ListUpcomingEvents(maxResults, daysAhead, cal) == Err(f)
      case Ok(q) =>
        (cal.list(q).Ok? ==> ListUpcomingEvents(maxResults, daysAhead, cal) == Ok(cal.list(q).value))
        && (cal.list(q).Err? ==> ListUpcomingEvents(maxResults, daysAhead, cal) == Err(UnimportedHttpError))
  {
  }
}
