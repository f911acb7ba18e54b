/** Wall-clock values as the bot reads and writes them: the text format
    `dd.mm.yy HH:MM` (Python's `strptime`/`strftime` with
    "%d.%m.%y %H:%M"), the proleptic Gregorian calendar, and time as whole
    seconds counted from midnight of 1 January of year 1, the epoch of
    Python's `date.toordinal()`.  The validator `validate_datetime` lives
    here too, with the current time passed in instead of read from the
    clock. */
module DateTimes {
  import opened Base
  import opened Text

  datatype DateTime = DateTime(year: int, month: int, day: int, hour: int, minute: int)

  const SecondsPerHour: nat := 3600
  const SecondsPerDay: nat := 86400
  /** `timedelta(days=365)`: the validator's horizon is 365 days, not a
      calendar year. */
  const YearAhead: nat := 365 * SecondsPerDay

  predicate IsLeapYear(y: int) {
    y % 4 == 0 && (y % 100 != 0 || y % 400 == 0)
  }

  function DaysInYear(y: int): int {
    if IsLeapYear(y) then 366 else 365
  }

  function DaysInMonth(y: int, m: int): (n: int)
    requires 1 <= m <= 12
    ensures 28 <= n <= 31
  {
    if m == 2 then (if IsLeapYear(y) then 29 else 28)
    else if m == 4 || m == 6 || m == 9 || m == 11 then 30
    else 31
  }

  /** A real calendar minute: the checks `datetime(...)` performs. */
  predicate Valid(dt: DateTime) {
    && dt.year >= 1
    && 1 <= dt.month <= 12
    && 1 <= dt.day <= DaysInMonth(dt.year, dt.month)
    && 0 <= dt.hour < 24
    && 0 <= dt.minute < 60
  }

  // ---------------------------------------------------------------------
  // Calendar arithmetic
  // ---------------------------------------------------------------------

  /** Days from 1 January of year 1 to 1 January of year `y`. */
  function DaysBeforeYear(y: int): int
    requires y >= 1
  {
    var p := y - 1;
    365 * p + p / 4 - p / 100 + p / 400
  }

  lemma DivStep4(y: int)
    ensures y / 4 == (y - 1) / 4 + (if y % 4 == 0 then 1 else 0)
  {
  }

  lemma DivStep100(y: int)
    ensures y / 100 == (y - 1) / 100 + (if y % 100 == 0 then 1 else 0)
  {
  }

  lemma DivStep400(y: int)
    ensures y / 400 == (y - 1) / 400 + (if y % 400 == 0 then 1 else 0)
  {
  }

  lemma NextYear(y: int)
    requires y >= 1
    ensures DaysBeforeYear(y + 1) == DaysBeforeYear(y) + DaysInYear(y)
  {
    DivStep4(y);
    DivStep100(y);
    DivStep400(y);
    Multiples(y);
    var a := if y % 4 == 0 then 1 else 0;
    var c := if y % 100 == 0 then 1 else 0;
    var d := if y % 400 == 0 then 1 else 0;
    assert DaysInYear(y) == 365 + a - c + d;
  }

  /** A multiple of 400 is one of 100, and a multiple of 100 one of 4. */
  lemma Multiples(y: int)
    ensures y % 400 == 0 ==> y % 100 == 0
    ensures y % 100 == 0 ==> y % 4 == 0
  {
    if y % 400 == 0 {
      var k := 4 * (y / 400);
      assert y == 100 * k;
      HundredDivides(k);
    }
    if y % 100 == 0 {
      var k := 25 * (y / 100);
      assert y == 4 * k;
      FourDivides(k);
    }
  }

  lemma HundredDivides(k: int)
    ensures (100 * k) % 100 == 0
  {
  }

  lemma FourDivides(k: int)
    ensures (4 * k) % 4 == 0
  {
  }

  lemma {:induction false} DaysBeforeYearMonotone(a: int, b: int)
    requires 1 <= a < b
    ensures DaysBeforeYear(a) + DaysInYear(a) <= DaysBeforeYear(b)
    decreases b - a
  {
    NextYear(a);
    if a + 1 < b {
      DaysBeforeYearMonotone(a + 1, b);
    }
  }

  /** Days from 1 January to the first of month `m` (13 meaning the end of
      the year). */
  function DaysBeforeMonth(y: int, m: int): (n: int)
    requires 1 <= m <= 13
    ensures n >= 0
  {
    if m == 1 then 0 else DaysBeforeMonth(y, m - 1) + DaysInMonth(y, m - 1)
  }

  lemma MonthsFillYear(y: int)
    ensures DaysBeforeMonth(y, 13) == DaysInYear(y)
  {
    assert DaysBeforeMonth(y, 2) == 31;
    assert DaysBeforeMonth(y, 3) == 31 + DaysInMonth(y, 2);
    assert DaysBeforeMonth(y, 4) == DaysBeforeMonth(y, 3) + 31;
    assert DaysBeforeMonth(y, 5) == DaysBeforeMonth(y, 3) + 61;
    assert DaysBeforeMonth(y, 6) == DaysBeforeMonth(y, 3) + 92;
    assert DaysBeforeMonth(y, 7) == DaysBeforeMonth(y, 3) + 122;
    assert DaysBeforeMonth(y, 8) == DaysBeforeMonth(y, 3) + 153;
    assert DaysBeforeMonth(y, 9) == DaysBeforeMonth(y, 3) + 184;
    assert DaysBeforeMonth(y, 10) == DaysBeforeMonth(y, 3) + 214;
    assert DaysBeforeMonth(y, 11) == DaysBeforeMonth(y, 3) + 245;
    assert DaysBeforeMonth(y, 12) == DaysBeforeMonth(y, 3) + 275;
    assert DaysBeforeMonth(y, 13) == DaysBeforeMonth(y, 3) + 306;
  }

  lemma {:induction false} DaysBeforeMonthMonotone(y: int, a: int, b: int)
    requires 1 <= a < b <= 13
    ensures DaysBeforeMonth(y, a) + DaysInMonth(y, a) <= DaysBeforeMonth(y, b)
    decreases b - a
  {
    if a + 1 < b {
      DaysBeforeMonthMonotone(y, a + 1, b);
    }
  }

  /** Days since the epoch of the calendar day of `dt`. */
  function DayNumber(dt: DateTime): int
    requires Valid(dt)
  {
    DaysBeforeYear(dt.year) + DaysBeforeMonth(dt.year, dt.month) + dt.day - 1
  }

  /** Seconds since the epoch of the start of the minute `dt`. */
  function Seconds(dt: DateTime): int
    requires Valid(dt)
  {
    DayNumber(dt) * SecondsPerDay + dt.hour * SecondsPerHour + dt.minute * 60
  }

  /** Chronological order, field by field, as Python compares datetimes. */
  predicate Before(a: DateTime, b: DateTime) {
    || a.year < b.year
    || (a.year == b.year && a.month < b.month)
    || (a.year == b.year && a.month == b.month && a.day < b.day)
    || (a.year == b.year && a.month == b.month && a.day == b.day && a.hour < b.hour)
    || (a.year == b.year && a.month == b.month && a.day == b.day && a.hour == b.hour && a.minute < b.minute)
  }

  lemma DayNumberOrder(a: DateTime, b: DateTime)
    requires Valid(a) && Valid(b)
    requires || a.year < b.year
             || (a.year == b.year && a.month < b.month)
             || (a.year == b.year && a.month == b.month && a.day < b.day)
    ensures DayNumber(a) < DayNumber(b)
  {
    if a.year < b.year {
      DaysBeforeMonthMonotone(a.year, a.month, 13);
      MonthsFillYear(a.year);
      DaysBeforeYearMonotone(a.year, b.year);
    } else if a.month < b.month {
      DaysBeforeMonthMonotone(a.year, a.month, b.month);
    }
  }

  /** The second count orders minutes exactly as the calendar does, so
      sorting by it is sorting chronologically. */
  lemma SecondsOrder(a: DateTime, b: DateTime)
    requires Valid(a) && Valid(b)
    ensures Before(a, b) <==> Seconds(a) < Seconds(b)
    ensures a == b <==> Seconds(a) == Seconds(b)
  {
    if Before(a, b) {
      SecondsOrderStrict(a, b);
    } else if a != b {
      assert Before(b, a);
      SecondsOrderStrict(b, a);
    }
  }

  lemma SecondsOrderStrict(a: DateTime, b: DateTime)
    requires Valid(a) && Valid(b) && Before(a, b)
    ensures Seconds(a) < Seconds(b)
  {
    if a.year != b.year || a.month != b.month || a.day != b.day {
      DayNumberOrder(a, b);
    }
  }

  // ---------------------------------------------------------------------
  // From a second count back to the calendar
  // ---------------------------------------------------------------------

  /** The year that holds day `days` counted from 1 January of year `y`,
      and the day's offset inside it. */
  function YearOf(days: nat, y: int): (r: (int, nat))
    requires y >= 1
    ensures r.0 >= y && r.1 < DaysInYear(r.0)
    ensures DaysBeforeYear(r.0) + r.1 == DaysBeforeYear(y) + days
    decreases days
  {
    if days < DaysInYear(y) then (y, days)
    else
      NextYear(y);
      YearOf(days - DaysInYear(y), y + 1)
  }

  /** The month of year `y` that holds day `days` counted from the first of
      month `m`, and the day's offset inside it. */
  function MonthOf(y: int, days: nat, m: int): (r: (int, nat))
    requires 1 <= m <= 12
    requires DaysBeforeMonth(y, m) + days < DaysInYear(y)
    ensures m <= r.0 <= 12 && r.1 < DaysInMonth(y, r.0)
    ensures DaysBeforeMonth(y, r.0) + r.1 == DaysBeforeMonth(y, m) + days
    decreases 12 - m
  {
    MonthsFillYear(y);
    if days < DaysInMonth(y, m) || m == 12 then (m, days)
    else MonthOf(y, days - DaysInMonth(y, m), m + 1)
  }

  /** The minute that contains second `t`: `datetime.now()` with the
      seconds dropped, as `strftime("%d.%m.%y %H:%M")` shows it. */
  function FromSeconds(t: nat): (dt: DateTime)
    ensures Valid(dt)
    ensures Seconds(dt) == t - t % 60
  {
    var days := t / SecondsPerDay;
    var rest := t % SecondsPerDay;
    ClockOf(t);
    var (y, inYear) := YearOf(days, 1);
    MonthsFillYear(y);
    var (m, inMonth) := MonthOf(y, inYear, 1);
    var dt := DateTime(y, m, inMonth + 1, rest / SecondsPerHour, rest % SecondsPerHour / 60);
    assert DayNumber(dt) == days;
    dt
  }

  /** Whole days, hours and minutes of `t`, and the seconds they drop. */
  lemma ClockOf(t: nat)
    ensures var rest := t % SecondsPerDay;
            && rest / SecondsPerHour < 24
            && rest % SecondsPerHour / 60 < 60
            && t / SecondsPerDay * SecondsPerDay + rest / SecondsPerHour * SecondsPerHour
               + rest % SecondsPerHour / 60 * 60 == t - t % 60
  {
    var d := t / 86400;
    var rest := t % 86400;
    var h := rest / 3600;
    var r2 := rest % 3600;
    var mi := r2 / 60;
    var r3 := r2 % 60;
    assert t == 86400 * d + rest;
    assert rest == 3600 * h + r2;
    assert r2 == 60 * mi + r3;
    SixtyRemainder(t, 1440 * d + 60 * h + mi, r3);
  }

  lemma SixtyRemainder(t: int, q: int, r: int)
    requires t == 60 * q + r && 0 <= r < 60
    ensures t % 60 == r
  {
  }

  // ---------------------------------------------------------------------
  // The text format "%d.%m.%y %H:%M"
  // ---------------------------------------------------------------------

  /** Length of the run of ASCII digits at the front of `s`. */
  function DigitRun(s: string): (n: nat)
    ensures n <= |s| && AllDigits(s[..n])
    ensures n < |s| ==> !IsDigit(s[n])
  {
    if s != [] && IsDigit(s[0]) then
      var n := 1 + DigitRun(s[1..]);
      assert s[..n] == [s[0]] + s[1..][..n - 1];
      n
    else 0
  }

  /** Length of the run of white space at the front of `s`. */
  function SpaceRun(s: string): (n: nat)
    ensures n <= |s|
    ensures forall i :: 0 <= i < n ==> IsSpace(s[i])
    ensures n < |s| ==> !IsSpace(s[n])
  {
    if s != [] && IsSpace(s[0]) then
      var n := 1 + SpaceRun(s[1..]);
      assert forall i :: 1 <= i < n ==> s[i] == s[1..][i - 1];
      n
    else 0
  }

  /** One numeric directive (`%m`, `%H`, `%M`): one or two digits whose value
      lies in `lo..hi`, and the text after them.  A longer run of digits, or a
      value out of range, does not match. */
  function Field(s: string, lo: int, hi: int): (r: Option<(int, string)>)
    ensures r.Some? ==> lo <= r.value.0 <= hi
    ensures r.Some? ==> 1 <= |s| - |r.value.1| <= 2 && r.value.1 == s[|s| - |r.value.1|..]
  {
    var n := DigitRun(s);
    if 1 <= n <= 2 && lo <= DigitsValue(s[..n]) <= hi then Some((DigitsValue(s[..n]), s[n..]))
    else None
  }

  /** The `%d` directive, which besides one or two digits also accepts a
      single space followed by one digit 1-9. */
  function DayField(s: string): (r: Option<(int, string)>)
    ensures r.Some? ==> 1 <= r.value.0 <= 31
  {
    if |s| >= 2 && s[0] == ' ' && '1' <= s[1] <= '9' then Some((DigitValue(s[1]), s[2..]))
    else Field(s, 1, 31)
  }

  predicate StartsWith(s: string, c: char) {
    s != [] && s[0] == c
  }

  /** `%y`: years 00-68 are 2000-2068, years 69-99 are 1969-1999. */
  function Century(yy: int): int {
    if yy <= 68 then 2000 + yy else 1900 + yy
  }

  lemma TwoDigits(t: string)
    requires |t| == 2 && AllDigits(t)
    ensures DigitsValue(t) == 10 * DigitValue(t[0]) + DigitValue(t[1])
  {
    var a := t[..1];
    assert t[..|t| - 1] == a == [t[0]];
    assert DigitsValue(a) == 10 * DigitsValue(a[..0]) + DigitValue(a[0]);
    assert a[..0] == [];
  }

  /** The date half of the format, `%d.%m.%y`: day, month, the two year
      digits, and the text after them. */
  function DatePart(s: string): (r: Option<(int, int, int, string)>)
    ensures r.Some? ==> 1 <= r.value.0 <= 31 && 1 <= r.value.1 <= 12 && 0 <= r.value.2 <= 99
  {
    var day := DayField(s);
    if day.None? || !StartsWith(day.value.1, '.') then None
    else
      var month := Field(day.value.1[1..], 1, 12);
      if month.None? || !StartsWith(month.value.1, '.') then None
      else
        var s2 := month.value.1[1..];
        if DigitRun(s2) != 2 then None
        else
          TwoDigits(s2[..2]);
          Some((day.value.0, month.value.0, DigitsValue(s2[..2]), s2[2..]))
  }

  /** The time half, ` %H:%M` up to the end of the text: the space of the
      format matches one or more white-space characters. */
  function TimePart(s: string): (r: Option<(int, int)>)
    ensures r.Some? ==> 0 <= r.value.0 < 24 && 0 <= r.value.1 < 60
  {
    var w := SpaceRun(s);
    if w == 0 then None
    else
      var hour := Field(s[w..], 0, 23);
      if hour.None? || !StartsWith(hour.value.1, ':') then None
      else
        var minute := Field(hour.value.1[1..], 0, 59);
        if minute.None? || minute.value.1 != [] then None
        else Some((hour.value.0, minute.value.0))
  }

  /** `datetime.strptime(s, "%d.%m.%y %H:%M")`: the regular expression
      Python builds from the format must match all of `s`, and the fields
      must name a real calendar day. */
  function Parse(s: string): (r: Option<DateTime>)
    ensures r.Some? ==> Valid(r.value) && 1969 <= r.value.year <= 2068
  {
    var date := DatePart(s);
    if date.None? then None
    else
      var time := TimePart(date.value.3);
      if time.None? then None
      else
        var year := Century(date.value.2);
        var dt := DateTime(year, date.value.1, date.value.0, time.value.0, time.value.1);
        if dt.day <= DaysInMonth(year, dt.month) then Some(dt) else None
  }

  /** Two digits, zero padded: `%02d`. */
  function Pad2(n: int): (s: string)
    requires 0 <= n < 100
    ensures |s| == 2 && AllDigits(s) && DigitsValue(s) == n
  {
    var s := [DigitChar(n / 10), DigitChar(n % 10)];
    assert s[..1] == [DigitChar(n / 10)];
    assert s[..1][..0] == [];
    assert DigitsValue(s[..1]) == n / 10;
    s
  }

  /** `dt.strftime("%d.%m.%y %H:%M")`. */
  function Format(dt: DateTime): string
    requires Valid(dt)
  {
    Pad2(dt.day) + "." + Pad2(dt.month) + "." + Pad2(dt.year % 100) + " "
      + Pad2(dt.hour) + ":" + Pad2(dt.minute)
  }

  lemma FieldOfPad2(n: int, rest: string, lo: int, hi: int)
    requires 0 <= n < 100 && lo <= n <= hi
    requires rest == [] || !IsDigit(rest[0])
    ensures Field(Pad2(n) + rest, lo, hi) == Some((n, rest))
  {
    var s := Pad2(n) + rest;
    assert s[..2] == Pad2(n);
    assert s[2..] == rest;
    assert IsDigit(s[0]) && IsDigit(s[1]);
    assert DigitRun(s) == 1 + DigitRun(s[1..]);
    assert s[1..][1..] == rest;
    assert DigitRun(s[1..][1..]) == 0;
  }

  lemma DatePartOfFormat(d: int, m: int, yy: int, rest: string)
    requires 1 <= d <= 31 && 1 <= m <= 12 && 0 <= yy < 100
    requires rest != [] && !IsDigit(rest[0])
    ensures DatePart(Pad2(d) + "." + Pad2(m) + "." + Pad2(yy) + rest) == Some((d, m, yy, rest))
  {
    var tail2 := Pad2(yy) + rest;
    var tail1 := Pad2(m) + ("." + tail2);
    var s := Pad2(d) + "." + Pad2(m) + "." + Pad2(yy) + rest;
    assert s == Pad2(d) + ("." + tail1);
    DayOfPad2(d, "." + tail1);
    assert ("." + tail1)[1..] == tail1;
    FieldOfPad2(m, "." + tail2, 1, 12);
    assert ("." + tail2)[1..] == tail2;
    TwoDigitRun(yy, rest);
  }

  /** `%d` reads back a day written with two digits. */
  lemma DayOfPad2(d: int, tail: string)
    requires 1 <= d <= 31 && tail != [] && !IsDigit(tail[0])
    ensures DayField(Pad2(d) + tail) == Some((d, tail))
  {
    var s := Pad2(d) + tail;
    assert IsDigit(s[0]);
    FieldOfPad2(d, tail, 1, 31);
  }

  /** Two digits followed by a non-digit form a run of exactly two. */
  lemma TwoDigitRun(n: int, rest: string)
    requires 0 <= n < 100 && rest != [] && !IsDigit(rest[0])
    ensures var s := Pad2(n) + rest;
            DigitRun(s) == 2 && s[..2] == Pad2(n) && s[2..] == rest
  {
    var s := Pad2(n) + rest;
    assert s[..2] == Pad2(n);
    assert s[2..] == rest;
    assert DigitRun(s) == 1 + DigitRun(s[1..]);
    assert s[1..][1..] == rest;
    assert DigitRun(s[1..]) == 1 + DigitRun(s[1..][1..]);
  }

  lemma TimePartOfFormat(h: int, mi: int)
    requires 0 <= h < 24 && 0 <= mi < 60
    ensures TimePart(" " + Pad2(h) + ":" + Pad2(mi)) == Some((h, mi))
  {
    var tail := Pad2(h) + (":" + Pad2(mi));
    var s := " " + Pad2(h) + ":" + Pad2(mi);
    assert s == " " + tail;
    assert s[1..] == tail;
    assert SpaceRun(s) == 1 by {
      assert SpaceRun(s) == 1 + SpaceRun(s[1..]);
      assert IsDigit(tail[0]);
    }
    FieldOfPad2(h, ":" + Pad2(mi), 0, 23);
    assert (":" + Pad2(mi))[1..] == Pad2(mi);
    FieldOfPad2(mi, [], 0, 59);
    assert Pad2(mi) + [] == Pad2(mi);
  }

  lemma CenturyOfYear(y: int)
    requires 1969 <= y <= 2068
    ensures Century(y % 100) == y
  {
  }

  lemma ParseOfParts(dt: DateTime, s: string, time: string, yy: int)
    requires Valid(dt) && Century(yy) == dt.year
    requires DatePart(s) == Some((dt.day, dt.month, yy, time))
    requires TimePart(time) == Some((dt.hour, dt.minute))
    ensures Parse(s) == Some(dt)
  {
  }

  /** Every minute of the years the two-digit format can name is written by
      `Format` as text that `Parse` reads back unchanged. */
  lemma ParseFormat(dt: DateTime)
    requires Valid(dt) && 1969 <= dt.year <= 2068
    ensures Parse(Format(dt)) == Some(dt)
  {
    var yy := dt.year % 100;
    var time := " " + Pad2(dt.hour) + ":" + Pad2(dt.minute);
    var s := Format(dt);
    assert s == Pad2(dt.day) + "." + Pad2(dt.month) + "." + Pad2(yy) + time;
    DatePartOfFormat(dt.day, dt.month, yy, time);
    TimePartOfFormat(dt.hour, dt.minute);
    CenturyOfYear(dt.year);
    ParseOfParts(dt, s, time, yy);
  }

  // ---------------------------------------------------------------------
  // Every text the format accepts
  // ---------------------------------------------------------------------

  /** How `%d` is written: one digit, two digits, or a space and one
      digit. */
  datatype DayStyle = DayOne | DayTwo | DaySpaced

  /** The freedom the format leaves a text: how the day, month, hour and
      minute are written, and the white space the format's single space
      matches.  The year always takes two digits. */
  datatype Layout = Layout(day: DayStyle, twoMonth: bool, twoHour: bool, twoMinute: bool, gap: string)

  /** Field values within the ranges the directives read; the day need not
      exist in its month. */
  predicate InRange(dt: DateTime) {
    && 1 <= dt.month <= 12
    && 1 <= dt.day <= 31
    && 0 <= dt.hour < 24
    && 0 <= dt.minute < 60
  }

  /** A layout can write `dt`: a one-digit field holds a value below 10,
      and the gap is non-empty white space. */
  predicate Fits(l: Layout, dt: DateTime) {
    && InRange(dt)
    && (l.day != DayTwo ==> dt.day < 10)
    && (l.twoMonth || dt.month < 10)
    && (l.twoHour || dt.hour < 10)
    && (l.twoMinute || dt.minute < 10)
    && l.gap != []
    && forall i :: 0 <= i < |l.gap| ==> IsSpace(l.gap[i])
  }

  /** A value below 100 in two digits, or one digit when below 10. */
  function Num(n: int, two: bool): (s: string)
    requires 0 <= n < 100 && (two || n < 10)
  {
    if two then Pad2(n) else [DigitChar(n)]
  }

  function DayText(d: int, style: DayStyle): string
    requires 1 <= d <= 31 && (style != DayTwo ==> d < 10)
  {
    match style
    case DayOne => Num(d, false)
    case DayTwo => Pad2(d)
    case DaySpaced => " " + Num(d, false)
  }

  /** The date half of a layout, `%d.%m.%y`. */
  function DateText(d: int, day: DayStyle, m: int, twoMonth: bool, yy: int): string
    requires 1 <= d <= 31 && (day != DayTwo ==> d < 10)
    requires 0 <= m < 100 && (twoMonth || m < 10) && 0 <= yy < 100
  {
    DayText(d, day) + "." + Num(m, twoMonth) + "." + Pad2(yy)
  }

  /** The time half of a layout: the gap, then `%H:%M`. */
  function TimeText(gap: string, h: int, twoHour: bool, mi: int, twoMinute: bool): string
    requires 0 <= h < 100 && (twoHour || h < 10) && 0 <= mi < 100 && (twoMinute || mi < 10)
  {
    gap + Num(h, twoHour) + ":" + Num(mi, twoMinute)
  }

  /** `dt` written in layout `l`. */
  function Render(dt: DateTime, l: Layout): string
    requires Fits(l, dt)
  {
    DateText(dt.day, l.day, dt.month, l.twoMonth, dt.year % 100)
      + TimeText(l.gap, dt.hour, l.twoHour, dt.minute, l.twoMinute)
  }

  /** `strftime` writes one of the layouts: two digits everywhere and a
      single space. */
  lemma FormatIsRender(dt: DateTime)
    requires Valid(dt)
    ensures Fits(Layout(DayTwo, true, true, true, " "), dt)
    ensures Format(dt) == Render(dt, Layout(DayTwo, true, true, true, " "))
  {
  }

  lemma Concat4(a: string, b: string, c: string, d: string)
    ensures a + (b + (c + d)) == a + b + c + d
  {
  }

  lemma Concat6(a: string, b: string, c: string, d: string, e: string, f: string)
    ensures a + (b + (c + (d + (e + f)))) == a + b + c + d + e + f
  {
  }

  lemma DigitRoundTrip(c: char)
    requires IsDigit(c)
    ensures DigitChar(DigitValue(c)) == c
  {
  }

  /** Two digits read as a value are that value's `Pad2`. */
  lemma TwoDigitsArePad2(p: string)
    requires |p| == 2 && AllDigits(p)
    ensures DigitsValue(p) < 100 && Pad2(DigitsValue(p)) == p
  {
    TwoDigits(p);
    DigitRoundTrip(p[0]);
    DigitRoundTrip(p[1]);
    var v := DigitsValue(p);
    assert v / 10 == DigitValue(p[0]) && v % 10 == DigitValue(p[1]);
  }

  /** What `Field` reads is written in one digit or two. */
  lemma FieldShape(s: string, lo: int, hi: int) returns (two: bool)
    requires Field(s, lo, hi).Some?
    ensures var r := Field(s, lo, hi).value;
            && 0 <= r.0 < 100 && (two || r.0 < 10)
            && s == Num(r.0, two) + r.1
  {
    var n := DigitRun(s);
    var r := Field(s, lo, hi).value;
    assert r == (DigitsValue(s[..n]), s[n..]);
    if n == 1 {
      two := false;
      var p := s[..1];
      assert p[..0] == [] && p[0] == s[0];
      assert DigitsValue(p) == DigitValue(s[0]);
      DigitRoundTrip(s[0]);
      assert Num(r.0, two) == p;
    } else {
      two := true;
      TwoDigitsArePad2(s[..2]);
      assert Num(r.0, two) == s[..2];
    }
    assert s == s[..n] + s[n..];
  }

  /** What `%d` reads is written in one of its three ways. */
  lemma DayShape(s: string) returns (style: DayStyle)
    requires DayField(s).Some?
    ensures var r := DayField(s).value;
            && 1 <= r.0 <= 31 && (style != DayTwo ==> r.0 < 10)
            && s == DayText(r.0, style) + r.1
  {
    if |s| >= 2 && s[0] == ' ' && '1' <= s[1] <= '9' {
      style := DaySpaced;
      DigitRoundTrip(s[1]);
      assert s == " " + [s[1]] + s[2..];
    } else {
      var two := FieldShape(s, 1, 31);
      style := if two then DayTwo else DayOne;
    }
  }

  lemma DatePartShape(s: string) returns (day: DayStyle, twoMonth: bool)
    requires DatePart(s).Some?
    ensures var r := DatePart(s).value;
            && (day != DayTwo ==> r.0 < 10) && (twoMonth || r.1 < 10)
            && s == DateText(r.0, day, r.1, twoMonth, r.2) + r.3
  {
    var t1, t2 := DatePartSteps(s);
    var r := DatePart(s).value;
    day, twoMonth := DateShapeOfSteps(s, r.0, t1, r.1, t2, r.2, r.3);
  }

  /** The text `DatePart` walks through, put back together. */
  lemma DateShapeOfSteps(s: string, d: int, t1: string, m: int, t2: string, yy: int, rest: string)
      returns (day: DayStyle, twoMonth: bool)
    requires DayField(s) == Some((d, "." + t1))
    requires Field(t1, 1, 12) == Some((m, "." + t2))
    requires DigitRun(t2) == 2 && DigitsValue(t2[..2]) == yy && t2[2..] == rest
    ensures 1 <= d <= 31 && (day != DayTwo ==> d < 10)
    ensures 1 <= m <= 12 && (twoMonth || m < 10) && 0 <= yy < 100
    ensures s == DateText(d, day, m, twoMonth, yy) + rest
  {
    day := DayShape(s);
    assert s == DayText(d, day) + ("." + t1);
    twoMonth := FieldShape(t1, 1, 12);
    assert t1 == Num(m, twoMonth) + ("." + t2);
    var p := t2[..2];
    TwoDigitsArePad2(p);
    assert t2 == Pad2(yy) + rest by { assert t2 == p + t2[2..]; }
    Concat6(DayText(d, day), ".", Num(m, twoMonth), ".", Pad2(yy), rest);
  }

  lemma TimePartShape(s: string) returns (gap: string, twoHour: bool, twoMinute: bool)
    requires TimePart(s).Some?
    ensures var r := TimePart(s).value;
            && gap != [] && (forall i :: 0 <= i < |gap| ==> IsSpace(gap[i]))
            && (twoHour || r.0 < 10) && (twoMinute || r.1 < 10)
            && s == TimeText(gap, r.0, twoHour, r.1, twoMinute)
  {
    var rest := TimePartSteps(s);
    var r := TimePart(s).value;
    gap, twoHour, twoMinute := TimeShapeOfSteps(s, r.0, rest, r.1);
  }

  /** The text `TimePart` walks through, put back together. */
  lemma TimeShapeOfSteps(s: string, h: int, rest: string, mi: int)
      returns (gap: string, twoHour: bool, twoMinute: bool)
    requires SpaceRun(s) > 0
    requires Field(s[SpaceRun(s)..], 0, 23) == Some((h, ":" + rest))
    requires Field(rest, 0, 59) == Some((mi, []))
    ensures gap != [] && (forall i :: 0 <= i < |gap| ==> IsSpace(gap[i]))
    ensures 0 <= h < 24 && (twoHour || h < 10) && 0 <= mi < 60 && (twoMinute || mi < 10)
    ensures s == TimeText(gap, h, twoHour, mi, twoMinute)
  {
    var w := SpaceRun(s);
    gap := s[..w];
    twoHour, twoMinute := ClockShape(s[w..], h, rest, mi);
    assert s == gap + s[w..];
    Concat4(gap, Num(h, twoHour), ":", Num(mi, twoMinute));
  }

  /** `%H:%M` read to the end of the text, put back together. */
  lemma ClockShape(u: string, h: int, rest: string, mi: int) returns (twoHour: bool, twoMinute: bool)
    requires Field(u, 0, 23) == Some((h, ":" + rest))
    requires Field(rest, 0, 59) == Some((mi, []))
    ensures 0 <= h < 24 && (twoHour || h < 10) && 0 <= mi < 60 && (twoMinute || mi < 10)
    ensures u == Num(h, twoHour) + (":" + Num(mi, twoMinute))
  {
    twoHour := FieldShape(u, 0, 23);
    twoMinute := FieldShape(rest, 0, 59);
    assert rest == Num(mi, twoMinute) + [];
  }

  /** The converse of `ParseFormat`: whatever text `strptime` accepts is
      `dt` written in some layout, so no other text is read. */
  lemma ParsedLayout(t: string, dt: DateTime) returns (l: Layout)
    requires Parse(t) == Some(dt)
    ensures Fits(l, dt) && t == Render(dt, l)
  {
    ParseSteps(t);
    var date := DatePart(t).value;
    var time := TimePart(date.3).value;
    var day, twoMonth := DatePartShape(t);
    var gap, twoHour, twoMinute := TimePartShape(date.3);
    l := Layout(day, twoMonth, twoHour, twoMinute, gap);
    assert dt.day == date.0 && dt.month == date.1 && dt.hour == time.0 && dt.minute == time.1;
    assert dt.year % 100 == date.2 by { CenturyDigits(date.2); }
    assert Fits(l, dt);
    assert t == DateText(date.0, day, date.1, twoMonth, date.2) + TimeText(gap, time.0, twoHour, time.1, twoMinute);
  }

  /** `%y` keeps the two digits it read. */
  lemma CenturyDigits(yy: int)
    requires 0 <= yy < 100
    ensures Century(yy) % 100 == yy
  {
  }

  /** How `TimePart` succeeds: a run of white space, an hour, a colon, and
      a minute that ends the text. */
  lemma TimePartSteps(s: string) returns (rest: string)
    requires TimePart(s).Some?
    ensures var r := TimePart(s).value;
            && SpaceRun(s) > 0
            && Field(s[SpaceRun(s)..], 0, 23) == Some((r.0, ":" + rest))
            && Field(rest, 0, 59) == Some((r.1, []))
  {
    var hour := Field(s[SpaceRun(s)..], 0, 23).value;
    rest := hour.1[1..];
    assert hour.1 == ":" + rest;
  }

  lemma TimePartOfSteps(s: string, h: int, rest: string, mi: int)
    requires SpaceRun(s) > 0
    requires Field(s[SpaceRun(s)..], 0, 23) == Some((h, ":" + rest))
    requires Field(rest, 0, 59) == Some((mi, []))
    ensures TimePart(s) == Some((h, mi))
  {
    assert (":" + rest)[1..] == rest;
  }

  /** How `DatePart` succeeds: a day, a dot, a month, a dot, and a run of
      exactly two digits. */
  lemma DatePartSteps(s: string) returns (t1: string, t2: string)
    requires DatePart(s).Some?
    ensures var r := DatePart(s).value;
            && DayField(s) == Some((r.0, "." + t1))
            && Field(t1, 1, 12) == Some((r.1, "." + t2))
            && DigitRun(t2) == 2 && DigitsValue(t2[..2]) == r.2 && t2[2..] == r.3
  {
    var day := DayField(s).value;
    t1 := day.1[1..];
    assert day.1 == "." + t1;
    var month := Field(t1, 1, 12).value;
    t2 := month.1[1..];
    assert month.1 == "." + t2;
  }

  lemma DatePartOfSteps(s: string, d: int, t1: string, m: int, t2: string, yy: int, rest: string)
    requires DayField(s) == Some((d, "." + t1))
    requires Field(t1, 1, 12) == Some((m, "." + t2))
    requires 0 <= yy < 100 && rest != [] && !IsDigit(rest[0]) && t2 == Pad2(yy) + rest
    ensures DatePart(s) == Some((d, m, yy, rest))
  {
    assert ("." + t1)[1..] == t1;
    assert ("." + t2)[1..] == t2;
    TwoDigitRun(yy, rest);
  }

  /** How `Parse` succeeds: the date half, then the time half on the rest. */
  lemma ParseSteps(t: string)
    requires Parse(t).Some?
    ensures DatePart(t).Some? && TimePart(DatePart(t).value.3).Some?
    ensures var date := DatePart(t).value;
            var time := TimePart(date.3).value;
            Parse(t).value == DateTime(Century(date.2), date.1, date.0, time.0, time.1)
  {
  }

  lemma FieldOfNum(n: int, two: bool, rest: string, lo: int, hi: int)
    requires 0 <= n < 100 && (two || n < 10) && lo <= n <= hi
    requires rest == [] || !IsDigit(rest[0])
    ensures Field(Num(n, two) + rest, lo, hi) == Some((n, rest))
  {
    if two {
      FieldOfPad2(n, rest, lo, hi);
    } else {
      var s := Num(n, two) + rest;
      var p := s[..1];
      assert s[1..] == rest && p == [DigitChar(n)] && p[..0] == [];
      assert DigitsValue(p) == n;
      assert DigitRun(s) == 1 + DigitRun(s[1..]);
      assert DigitRun(s) == 1;
    }
  }

  lemma DayOfText(d: int, style: DayStyle, tail: string)
    requires 1 <= d <= 31 && (style != DayTwo ==> d < 10)
    requires tail != [] && !IsDigit(tail[0])
    ensures DayField(DayText(d, style) + tail) == Some((d, tail))
  {
    match style
    case DayOne => FieldOfNum(d, false, tail, 1, 31);
    case DayTwo => DayOfPad2(d, tail);
    case DaySpaced =>
      var s := DayText(d, style) + tail;
      assert s[1] == DigitChar(d) && s[2..] == tail;
  }

  lemma DatePartOfText(day: DayStyle, d: int, m: int, twoMonth: bool, yy: int, rest: string)
    requires 1 <= d <= 31 && (day != DayTwo ==> d < 10)
    requires 1 <= m <= 12 && (twoMonth || m < 10) && 0 <= yy < 100
    requires rest != [] && !IsDigit(rest[0])
    ensures DatePart(DateText(d, day, m, twoMonth, yy) + rest) == Some((d, m, yy, rest))
  {
    var tail2 := Pad2(yy) + rest;
    var tail1 := Num(m, twoMonth) + ("." + tail2);
    var s := DateText(d, day, m, twoMonth, yy) + rest;
    Concat6(DayText(d, day), ".", Num(m, twoMonth), ".", Pad2(yy), rest);
    DayOfText(d, day, "." + tail1);
    FieldOfNum(m, twoMonth, "." + tail2, 1, 12);
    DatePartOfSteps(s, d, tail1, m, tail2, yy, rest);
  }

  lemma {:induction false} SpaceRunOfGap(gap: string, s: string)
    requires forall i :: 0 <= i < |gap| ==> IsSpace(gap[i])
    requires s == [] || !IsSpace(s[0])
    ensures SpaceRun(gap + s) == |gap|
  {
    if gap != [] {
      assert (gap + s)[1..] == gap[1..] + s;
      SpaceRunOfGap(gap[1..], s);
    }
  }

  lemma TimePartOfText(gap: string, h: int, twoHour: bool, mi: int, twoMinute: bool)
    requires gap != [] && forall i :: 0 <= i < |gap| ==> IsSpace(gap[i])
    requires 0 <= h < 24 && (twoHour || h < 10) && 0 <= mi < 60 && (twoMinute || mi < 10)
    ensures TimePart(TimeText(gap, h, twoHour, mi, twoMinute)) == Some((h, mi))
  {
    var tail := Num(h, twoHour) + (":" + Num(mi, twoMinute));
    var s := TimeText(gap, h, twoHour, mi, twoMinute);
    Concat4(gap, Num(h, twoHour), ":", Num(mi, twoMinute));
    assert IsDigit(tail[0]);
    SpaceRunOfGap(gap, tail);
    assert s[|gap|..] == tail;
    FieldOfNum(h, twoHour, ":" + Num(mi, twoMinute), 0, 23);
    FieldOfNum(mi, twoMinute, [], 0, 59);
    assert Num(mi, twoMinute) + [] == Num(mi, twoMinute);
    TimePartOfSteps(s, h, Num(mi, twoMinute), mi);
  }

  /** Every layout of a minute of 1969-2068 is read back as that minute,
      and a day its month lacks (such as 29 February 2025) is rejected
      however it is written. */
  lemma ParseRender(dt: DateTime, l: Layout)
    requires Fits(l, dt) && 1969 <= dt.year <= 2068
    ensures Parse(Render(dt, l)) == (if dt.day <= DaysInMonth(dt.year, dt.month) then Some(dt) else None)
  {
    var time := TimeText(l.gap, dt.hour, l.twoHour, dt.minute, l.twoMinute);
    assert !IsDigit(time[0]) by { Concat4(l.gap, Num(dt.hour, l.twoHour), ":", Num(dt.minute, l.twoMinute)); }
    DatePartOfText(l.day, dt.day, dt.month, l.twoMonth, dt.year % 100, time);
    TimePartOfText(l.gap, dt.hour, l.twoHour, dt.minute, l.twoMinute);
    CenturyOfYear(dt.year);
  }

  /** `strptime` reads a text exactly when it is a real minute of
      1969-2068 written in some layout. */
  lemma ParseExactly(t: string, dt: DateTime)
    ensures Parse(t) == Some(dt) <==>
              Valid(dt) && 1969 <= dt.year <= 2068 && exists l :: Fits(l, dt) && t == Render(dt, l)
  {
    if Parse(t) == Some(dt) {
      var l := ParsedLayout(t, dt);
    }
    if Valid(dt) && 1969 <= dt.year <= 2068 && exists l :: Fits(l, dt) && t == Render(dt, l) {
      var l :| Fits(l, dt) && t == Render(dt, l);
      ParseRender(dt, l);
    }
  }

  /** Slashes instead of dots are refused: the day is read, and no dot
      follows it. */
  lemma SlashesRejected()
    ensures Parse("15/03/25 14:30").None?
  {
    var t := "15/03/25 14:30";
    assert t == Pad2(15) + t[2..];
    TwoDigitRun(15, t[2..]);
    assert DatePart(t).None?;
  }

  /** A day its month lacks is refused even in the bot's own format:
      2025 is not a leap year. */
  lemma MissingDayRejected()
    ensures Parse("29.02.25 10:00").None?
  {
    var dt := DateTime(2025, 2, 29, 10, 0);
    var l := Layout(DayTwo, true, true, true, " ");
    assert Render(dt, l) == "29.02.25 10:00";
    assert DaysInMonth(2025, 2) == 28;
    ParseRender(dt, l);
    assert Parse(Render(dt, l)) == None;
  }

  /** Single digits are read where the directives allow them. */
  lemma ShortFieldsAccepted()
    ensures Parse("1.7.25 9:05") == Some(DateTime(2025, 7, 1, 9, 5))
  {
    var dt := DateTime(2025, 7, 1, 9, 5);
    var l := Layout(DayOne, false, false, true, " ");
    assert Render(dt, l) == "1.7.25 9:05";
    ParseRender(dt, l);
  }

  // ---------------------------------------------------------------------
  // validate_datetime
  // ---------------------------------------------------------------------

  datatype Verdict = BadFormat | InPast | TooFarAhead | Accepted(when: DateTime)

  /** `validate_datetime(text)` read at time `now` (seconds since the
      epoch): unparsable text is a bad format; a minute before `now` is in
      the past; one more than 365 days after `now` is too far ahead;
      anything else is accepted with its parsed value. */
  function Validate(text: string, now: nat): (v: Verdict)
    ensures v == BadFormat <==> Parse(text).None?
    ensures v == InPast <==> Parse(text).Some? && Seconds(Parse(text).value) < now
    ensures v == TooFarAhead <==>
              Parse(text).Some? && now <= Seconds(Parse(text).value) && Seconds(Parse(text).value) > now + YearAhead
    ensures v.Accepted? <==>
              Parse(text).Some? && now <= Seconds(Parse(text).value) <= now + YearAhead
    ensures v.Accepted? ==> Parse(text) == Some(v.when) && Valid(v.when)
  {
    match Parse(text)
    case None => BadFormat
    case Some(dt) =>
      if Seconds(dt) < now then InPast
      else if Seconds(dt) > now + YearAhead then TooFarAhead
      else Accepted(dt)
  }

  /** An accepted minute lies in the window [now, now + 365 days] read on
      the calendar: not before the minute of `now`, and its text is the
      canonical rendering of itself. */
  lemma AcceptedIsCanonical(text: string, now: nat)
    requires Validate(text, now).Accepted?
    ensures var dt := Validate(text, now).when;
            && !Before(dt, FromSeconds(now))
            && Parse(Format(dt)) == Some(dt)
  {
    var dt := Validate(text, now).when;
    var n := FromSeconds(now);
    SecondsOrder(dt, n);
    ParseFormat(dt);
  }
}
