/** Dates and instants on the proleptic Gregorian calendar, in UTC. */
module Calendar {
  import opened Wrappers

  datatype Date = Date(year: int, month: nat, day: nat)

  predicate Leap(y: int) {
    y % 4 == 0 && (y % 100 != 0 || y % 400 == 0)
  }

  function DaysIn(y: int, m: nat): (n: nat)
    ensures 28 <= n <= 31
  {
    if m == 2 then if Leap(y) then 29 else 28
    else if m == 4 || m == 6 || m == 9 || m == 11 then 30
    else 31
  }

  predicate ValidDate(d: Date) {
    1 <= d.month <= 12 && 1 <= d.day <= DaysIn(d.year, d.month)
  }

  /** The checked constructor: no date for a day the month does not have. */
  function FromYmd(y: int, m: nat, day: nat): (r: Option<Date>)
    ensures r.Some? ==> ValidDate(r.value)
  {
    var d := Date(y, m, day);
    if ValidDate(d) then Some(d) else None
  }

  function NextMonth(y: int, m: nat): (int, nat) {
    if m == 12 then (y + 1, 1) else (y, m + 1)
  }

  function Next(d: Date): (r: Date)
    requires ValidDate(d)
    ensures ValidDate(r)
  {
    if d.day < DaysIn(d.year, d.month) then d.(day := d.day + 1)
    else var (y, m) := NextMonth(d.year, d.month); Date(y, m, 1)
  }

  function Prev(d: Date): (r: Date)
    requires ValidDate(d)
    ensures ValidDate(r)
  {
    if d.day > 1 then d.(day := d.day - 1)
    else if d.month == 1 then Date(d.year - 1, 12, 31)
    else Date(d.year, d.month - 1, DaysIn(d.year, d.month - 1))
  }

  /** Step into the next month, then back one day. */
  function LastDayOfMonth(y: int, m: nat): (day: nat)
    requires 1 <= m <= 12
    ensures day == DaysIn(y, m)
  {
    var (ny, nm) := NextMonth(y, m);
    Prev(Date(ny, nm, 1)).day
  }

  // ----- Day numbers -----

  function YearStart(y: int): int {
    365 * (y - 1) + (y - 1) / 4 - (y - 1) / 100 + (y - 1) / 400
  }

  function DaysBefore(y: int, m: nat): nat {
    if m <= 1 then 0 else DaysBefore(y, m - 1) + DaysIn(y, m - 1)
  }

  /** Day 1 is the first of January of year 1. */
  function DayNumber(d: Date): int {
    YearStart(d.year) + DaysBefore(d.year, d.month) + d.day
  }

  /**
   Day numbers by the closed formula that counts years from March, with leap days
   last: no table of month lengths.
   */
  function CivilNumber(d: Date): int
    requires 1 <= d.month <= 12
  {
    var y := if d.month <= 2 then d.year - 1 else d.year;
    var m := if d.month <= 2 then d.month + 9 else d.month - 3;
    365 * y + y / 4 - y / 100 + y / 400 + (153 * m + 2) / 5 + d.day - 306
  }

  function YearLength(y: int): nat {
    if Leap(y) then 366 else 365
  }

  lemma FourYears(y: int)
    ensures y / 4 == (y - 1) / 4 + if y % 4 == 0 then 1 else 0
  {
  }

  lemma Century(y: int)
    ensures y / 100 == (y - 1) / 100 + if y % 100 == 0 then 1 else 0
  {
  }

  lemma FourCenturies(y: int)
    ensures y / 400 == (y - 1) / 400 + if y % 400 == 0 then 1 else 0
  {
  }

  lemma HundredIsFours(y: int)
    requires y % 100 == 0
    ensures y % 4 == 0
  {
    var q := y / 100;
    assert y == 4 * (25 * q);
  }

  lemma FourHundredIsHundreds(y: int)
    requires y % 400 == 0
    ensures y % 100 == 0
  {
    var q := y / 400;
    assert y == 100 * (4 * q);
  }

  lemma YearStartStep(y: int)
    ensures YearStart(y + 1) == YearStart(y) + YearLength(y)
  {
    FourYears(y);
    Century(y);
    FourCenturies(y);
    if y % 400 == 0 {
      FourHundredIsHundreds(y);
    }
    if y % 100 == 0 {
      HundredIsFours(y);
    }
  }

  lemma MonthStarts(y: int)
    ensures DaysBefore(y, 13) == YearLength(y)
  {
    assert DaysBefore(y, 2) == 31;
    var f := DaysIn(y, 2);
    assert DaysBefore(y, 4) == 62 + f;
    assert DaysBefore(y, 6) == 123 + f;
    assert DaysBefore(y, 8) == 184 + f;
    assert DaysBefore(y, 10) == 245 + f;
    assert DaysBefore(y, 12) == 306 + f;
  }

  lemma DaysBeforeTable(y: int)
    ensures var f := DaysIn(y, 2);
            && DaysBefore(y, 1) == 0 && DaysBefore(y, 2) == 31 && DaysBefore(y, 3) == 31 + f
            && DaysBefore(y, 4) == 62 + f && DaysBefore(y, 5) == 92 + f && DaysBefore(y, 6) == 123 + f
            && DaysBefore(y, 7) == 153 + f && DaysBefore(y, 8) == 184 + f && DaysBefore(y, 9) == 215 + f
            && DaysBefore(y, 10) == 245 + f && DaysBefore(y, 11) == 276 + f && DaysBefore(y, 12) == 306 + f
  {
    assert DaysBefore(y, 2) == 31;
  }

  /** The calendar's month lengths and leap years are those of the closed formula. */
  lemma DayNumberIsCivil(d: Date)
    requires ValidDate(d)
    ensures DayNumber(d) == CivilNumber(d)
  {
    DaysBeforeTable(d.year);
    YearStartStep(d.year);
  }

  /** Day numbers count days. */
  lemma NextNumber(d: Date)
    requires ValidDate(d)
    ensures DayNumber(Next(d)) == DayNumber(d) + 1
  {
    if d.day == DaysIn(d.year, d.month) {
      if d.month == 12 {
        MonthStarts(d.year);
        YearStartStep(d.year);
        assert DaysBefore(d.year, 13) == DaysBefore(d.year, 12) + 31;
      } else {
        assert DaysBefore(d.year, d.month + 1) == DaysBefore(d.year, d.month) + d.day;
      }
    }
  }

  lemma PrevNext(d: Date)
    requires ValidDate(d)
    ensures Next(Prev(d)) == d
    ensures DayNumber(Prev(d)) == DayNumber(d) - 1
  {
    NextNumber(Prev(d));
  }

  lemma {:induction false} DaysBeforeGrows(y: int, m: nat, n: nat)
    requires 1 <= m < n
    ensures DaysBefore(y, m) + DaysIn(y, m) <= DaysBefore(y, n)
    decreases n
  {
    if m + 1 < n {
      DaysBeforeGrows(y, m, n - 1);
    }
  }

  lemma {:induction false} YearStartGrows(y: int, z: int)
    requires y < z
    ensures YearStart(y) + YearLength(y) <= YearStart(z)
    decreases z - y
  {
    YearStartStep(z - 1);
    if y < z - 1 {
      YearStartGrows(y, z - 1);
    } else {
      YearStartStep(y);
    }
  }

  lemma WithinYear(d: Date)
    requires ValidDate(d)
    ensures YearStart(d.year) < DayNumber(d) <= YearStart(d.year) + YearLength(d.year)
  {
    MonthStarts(d.year);
    DaysBeforeGrows(d.year, d.month, 13);
  }

  /** Year, month and day in lexicographic order. */
  predicate Earlier(a: Date, b: Date) {
    || a.year < b.year
    || (a.year == b.year && (a.month < b.month || (a.month == b.month && a.day < b.day)))
  }

  lemma EarlierNumber(a: Date, b: Date)
    requires ValidDate(a) && ValidDate(b) && Earlier(a, b)
    ensures DayNumber(a) < DayNumber(b)
  {
    if a.year < b.year {
      WithinYear(a);
      WithinYear(b);
      YearStartGrows(a.year, b.year);
    } else if a.month < b.month {
      DaysBeforeGrows(a.year, a.month, b.month);
    }
  }

  /** Day numbers order dates as their fields do, so they name them uniquely. */
  lemma NumberOrder(a: Date, b: Date)
    requires ValidDate(a) && ValidDate(b)
    ensures Earlier(a, b) <==> DayNumber(a) < DayNumber(b)
    ensures a == b <==> DayNumber(a) == DayNumber(b)
  {
    if Earlier(a, b) {
      EarlierNumber(a, b);
    } else if Earlier(b, a) {
      EarlierNumber(b, a);
    }
  }

  function AddDays(d: Date, n: nat): (r: Date)
    requires ValidDate(d)
    ensures ValidDate(r)
  {
    if n == 0 then d else Next(AddDays(d, n - 1))
  }

  lemma {:induction false} AddDaysNumber(d: Date, n: nat)
    requires ValidDate(d)
    ensures DayNumber(AddDays(d, n)) == DayNumber(d) + n
    decreases n
  {
    if n > 0 {
      AddDaysNumber(d, n - 1);
      NextNumber(AddDays(d, n - 1));
    }
  }

  /** Every later date is some number of days on. */
  lemma DaysApart(a: Date, b: Date)
    requires ValidDate(a) && ValidDate(b) && DayNumber(a) <= DayNumber(b)
    ensures b == AddDays(a, DayNumber(b) - DayNumber(a))
  {
    var n := DayNumber(b) - DayNumber(a);
    AddDaysNumber(a, n);
    NumberOrder(b, AddDays(a, n));
  }

  // ----- Weekdays -----

  datatype Weekday = Monday | Tuesday | Wednesday | Thursday | Friday | Saturday | Sunday

  function WeekdayAt(n: int): Weekday {
    match n % 7
    case 0 => Monday
    case 1 => Tuesday
    case 2 => Wednesday
    case 3 => Thursday
    case 4 => Friday
    case 5 => Saturday
    case _ => Sunday
  }

  function WeekdayIndex(w: Weekday): (n: nat)
    ensures n < 7 && WeekdayAt(n) == w
  {
    match w
    case Monday => 0
    case Tuesday => 1
    case Wednesday => 2
    case Thursday => 3
    case Friday => 4
    case Saturday => 5
    case Sunday => 6
  }

  function WeekdayOf(d: Date): Weekday {
    WeekdayAt(DayNumber(d) - 1)
  }

  /** The day that follows each day of the week. */
  function DayAfter(w: Weekday): Weekday {
    match w
    case Monday => Tuesday
    case Tuesday => Wednesday
    case Wednesday => Thursday
    case Thursday => Friday
    case Friday => Saturday
    case Saturday => Sunday
    case Sunday => Monday
  }

  lemma DayAfterAt(n: int)
    ensures WeekdayAt(n + 1) == DayAfter(WeekdayAt(n))
  {
    var q, r := n / 7, n % 7;
    assert n + 1 == 7 * q + (r + 1);
    assert (n + 1) % 7 == if r == 6 then 0 else r + 1;
  }

  /** The weekday moves on by one from each date to the next. */
  lemma WeekdayStep(d: Date)
    requires ValidDate(d)
    ensures WeekdayOf(Next(d)) == DayAfter(WeekdayOf(d))
  {
    NextNumber(d);
    var n, next := DayNumber(d), DayNumber(Next(d));
    assert next - 1 == (n - 1) + 1;
    DayAfterAt(n - 1);
  }

  /** The first of January 1970 was a Thursday. */
  lemma EpochWeekday()
    ensures WeekdayOf(Date(1970, 1, 1)) == Thursday
  {
    assert DayNumber(Date(1970, 1, 1)) == 719163;
  }

  /** Names the days of the week: they follow one another from one known Thursday. */
  ghost predicate NamesWeekdays(f: Date -> Weekday) {
    && f(Date(1970, 1, 1)) == Thursday
    && forall d {:trigger MovesOn(f, d)} :: ValidDate(d) ==> MovesOn(f, d)
  }

  ghost predicate MovesOn(f: Date -> Weekday, d: Date)
    requires ValidDate(d)
  {
    f(Next(d)) == DayAfter(f(d))
  }

  lemma AfterInjective(v: Weekday, w: Weekday)
    requires DayAfter(v) == DayAfter(w)
    ensures v == w
  {
  }

  lemma {:induction false} SameUpward(f: Date -> Weekday, g: Date -> Weekday, d: Date, n: nat)
    requires NamesWeekdays(f) && NamesWeekdays(g) && ValidDate(d)
    ensures f(AddDays(d, n)) == g(AddDays(d, n)) <==> f(d) == g(d)
    decreases n
  {
    if n > 0 {
      var e := AddDays(d, n - 1);
      SameUpward(f, g, d, n - 1);
      assert MovesOn(f, e) && MovesOn(g, e);
      if f(Next(e)) == g(Next(e)) {
        AfterInjective(f(e), g(e));
      }
    }
  }

  lemma WeekdaysNamed()
    ensures NamesWeekdays(WeekdayOf)
  {
    EpochWeekday();
    forall e | ValidDate(e) ensures MovesOn(WeekdayOf, e) {
      WeekdayStep(e);
    }
  }

  /** There is one way to name the weekdays of all dates, and this is it. */
  lemma WeekdayExact(f: Date -> Weekday, d: Date)
    requires NamesWeekdays(f) && ValidDate(d)
    ensures f(d) == WeekdayOf(d)
  {
    WeekdaysNamed();
    SameFromEpoch(f, WeekdayOf, Date(1970, 1, 1), d);
  }

  lemma SameFromEpoch(f: Date -> Weekday, g: Date -> Weekday, epoch: Date, d: Date)
    requires NamesWeekdays(f) && NamesWeekdays(g) && ValidDate(epoch) && ValidDate(d) && f(epoch) == g(epoch)
    ensures f(d) == g(d)
  {
    var n, m := DayNumber(epoch), DayNumber(d);
    if n <= m {
      DaysApart(epoch, d);
      SameUpward(f, g, epoch, m - n);
    } else {
      DaysApart(d, epoch);
      SameUpward(f, g, d, n - m);
    }
  }

  // ----- Instants -----

  const NANOS_PER_SECOND: nat := 1_000_000_000
  const NANOS_PER_DAY: nat := 86_400_000_000_000

  datatype Instant = Instant(date: Date, nanos: nat)

  predicate ValidInstant(t: Instant) {
    ValidDate(t.date) && t.nanos < NANOS_PER_DAY
  }

  predicate Before(a: Instant, b: Instant) {
    Earlier(a.date, b.date) || (a.date == b.date && a.nanos < b.nanos)
  }

  /** Nanoseconds on one line, for adding durations. */
  function Ticks(t: Instant): int {
    DayNumber(t.date) * NANOS_PER_DAY + t.nanos
  }

  lemma BeforeTicks(a: Instant, b: Instant)
    requires ValidInstant(a) && ValidInstant(b)
    ensures Before(a, b) <==> Ticks(a) < Ticks(b)
    ensures a == b <==> Ticks(a) == Ticks(b)
  {
    NumberOrder(a.date, b.date);
  }

  function AddSeconds(t: Instant, s: nat): (r: Instant)
    requires ValidInstant(t)
    ensures ValidInstant(r)
  {
    var total := t.nanos + s * NANOS_PER_SECOND;
    Instant(AddDays(t.date, total / NANOS_PER_DAY), total % NANOS_PER_DAY)
  }

  lemma AddSecondsTicks(t: Instant, s: nat)
    requires ValidInstant(t)
    ensures Ticks(AddSeconds(t, s)) == Ticks(t) + s * NANOS_PER_SECOND
  {
    var total := t.nanos + s * NANOS_PER_SECOND;
    AddDaysNumber(t.date, total / NANOS_PER_DAY);
  }
}
