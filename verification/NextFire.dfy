/**
 The schedule preview: the next instant a schedule fires after a given one,
 found by stepping through days or months, and the list of the next few.
 */
module NextFire {
  import opened Wrappers
  import opened Calendar

  datatype Unit = Seconds | Minutes | Hours

  datatype Time = Time(hour: nat, minute: nat)

  datatype Ordinal = Day(n: nat) | Last

  /** A schedule; `Once` holds the parsed instant, or none if it does not parse. */
  datatype Kind =
    | Interval(count: nat, unit: Unit)
    | Daily(time: Time)
    | Weekdays(days: seq<Weekday>, time: Time)
    | Monthly(ordinals: seq<Ordinal>, time: Time)
    | Once(at: Option<Instant>)
    | Disabled

  predicate ValidTime(t: Time) {
    t.hour <= 23 && t.minute <= 59
  }

  function TimeNanos(t: Time): (n: nat)
    ensures ValidTime(t) ==> n < NANOS_PER_DAY
  {
    (t.hour * 3600 + t.minute * 60) * NANOS_PER_SECOND
  }

  function IntervalSeconds(count: nat, unit: Unit): nat {
    match unit
    case Seconds => count
    case Minutes => count * 60
    case Hours => count * 3600
  }

  // ----- What a schedule means -----

  /** The day an ordinal names in a month of the given length, if it has one. */
  function DayIn(ord: Ordinal, length: nat): Option<nat> {
    match ord
    case Day(n) => if 1 <= n <= length then Some(n) else None
    case Last => Some(length)
  }

  predicate MonthlyDate(ordinals: seq<Ordinal>, d: Date) {
    exists i :: 0 <= i < |ordinals| && DayIn(ordinals[i], DaysIn(d.year, d.month)) == Some(d.day)
  }

  /** The instants a wall-clock schedule fires at. */
  predicate Matches(k: Kind, t: Instant) {
    match k
    case Daily(time) => ValidTime(time) && t.nanos == TimeNanos(time)
    case Weekdays(days, time) => ValidTime(time) && t.nanos == TimeNanos(time) && WeekdayOf(t.date) in days
    case Monthly(ordinals, time) => ValidTime(time) && t.nanos == TimeNanos(time) && MonthlyDate(ordinals, t.date)
    case Once(at) => at == Some(t)
    case Interval(_, _) => false
    case Disabled => false
  }

  /** `r` is the first match after `after`, or none exactly when there is none. */
  ghost predicate IsNext(k: Kind, after: Instant, r: Option<Instant>) {
    match r
    case Some(t) =>
      && ValidInstant(t) && Before(after, t) && Matches(k, t)
      && (forall u :: ValidInstant(u) && Before(after, u) && Before(u, t) ==> !Matches(k, u))
    case None =>
      forall u :: ValidInstant(u) && Before(after, u) ==> !Matches(k, u)
  }

  // ----- Daily -----

  method NextDaily(time: Time, after: Instant) returns (r: Option<Instant>)
    requires ValidInstant(after)
    ensures IsNext(Daily(time), after, r)
  {
    if !ValidTime(time) {
      return None;
    }
    var today := after.date;
    var candidate := Instant(today, TimeNanos(time));
    if Before(after, candidate) {
      return Some(candidate);
    }
    var tomorrow := AddDays(today, 1);
    r := Some(Instant(tomorrow, TimeNanos(time)));
    DailyTomorrow(time, after);
  }

  lemma DailyTomorrow(time: Time, after: Instant)
    requires ValidInstant(after) && ValidTime(time) && !Before(after, Instant(after.date, TimeNanos(time)))
    ensures IsNext(Daily(time), after, Some(Instant(AddDays(after.date, 1), TimeNanos(time))))
  {
    var t := Instant(AddDays(after.date, 1), TimeNanos(time));
    AddDaysNumber(after.date, 1);
    NumberOrder(after.date, t.date);
    forall u | ValidInstant(u) && Before(after, u) && Before(u, t)
      ensures !Matches(Daily(time), u)
    {
      NumberOrder(after.date, u.date);
      NumberOrder(u.date, t.date);
    }
  }

  // ----- Weekdays -----

  predicate HitOn(days: seq<Weekday>, time: Time, after: Instant, d: Date) {
    WeekdayOf(d) in days && Before(after, Instant(d, TimeNanos(time)))
  }

  /** Step day by day, at most a week on. */
  method NextWeekday(days: seq<Weekday>, time: Time, after: Instant) returns (r: Option<Instant>)
    requires ValidInstant(after)
    ensures IsNext(Weekdays(days, time), after, r)
    ensures ValidTime(time) && days != [] ==> r.Some?
  {
    if !ValidTime(time) {
      return None;
    }
    var offset := 0;
    while offset <= 7
      invariant 0 <= offset <= 8
      invariant forall k :: 0 <= k < offset ==> !HitOn(days, time, after, AddDays(after.date, k))
    {
      var day := AddDays(after.date, offset);
      if WeekdayOf(day) in days {
        var candidate := Instant(day, TimeNanos(time));
        if Before(after, candidate) {
          WeekdayFirst(days, time, after, offset);
          return Some(candidate);
        }
      }
      offset := offset + 1;
    }
    if days != [] {
      WeekHasHit(days, time, after);
    }
    r := None;
  }

  lemma WeekdayFirst(days: seq<Weekday>, time: Time, after: Instant, n: nat)
    requires ValidInstant(after) && ValidTime(time)
    requires HitOn(days, time, after, AddDays(after.date, n))
    requires forall k :: 0 <= k < n ==> !HitOn(days, time, after, AddDays(after.date, k))
    ensures IsNext(Weekdays(days, time), after, Some(Instant(AddDays(after.date, n), TimeNanos(time))))
  {
    var t := Instant(AddDays(after.date, n), TimeNanos(time));
    forall u | ValidInstant(u) && Before(after, u) && Before(u, t)
      ensures !Matches(Weekdays(days, time), u)
    {
      if u.nanos == TimeNanos(time) {
        NumberOrder(after.date, u.date);
        NumberOrder(u.date, t.date);
        AddDaysNumber(after.date, n);
        DaysApart(after.date, u.date);
        assert u == Instant(u.date, TimeNanos(time));
        assert !HitOn(days, time, after, u.date);
      }
    }
  }

  lemma WeekdayWithinAWeek(from: int, w: Weekday) returns (n: nat)
    ensures 1 <= n <= 7 && WeekdayAt(from + n) == w
  {
    var ahead := WeekdayIndex(w) - from - 1;
    n := ahead % 7 + 1;
    assert from + n == WeekdayIndex(w) - 7 * (ahead / 7);
    assert (from + n) % 7 == WeekdayIndex(w);
  }

  /** Seven consecutive days show every weekday, so a week finds a hit if there are any days. */
  lemma WeekHasHit(days: seq<Weekday>, time: Time, after: Instant)
    requires ValidInstant(after) && days != []
    ensures exists k :: 0 <= k <= 7 && HitOn(days, time, after, AddDays(after.date, k))
  {
    var n := WeekdayWithinAWeek(DayNumber(after.date) - 1, days[0]);
    AddDaysNumber(after.date, n);
    NumberOrder(after.date, AddDays(after.date, n));
    assert HitOn(days, time, after, AddDays(after.date, n));
  }

  // ----- Monthly -----

  /** The instant an ordinal names in one month. */
  function Candidate(ord: Ordinal, time: Time, y: int, m: nat): Option<Instant>
    requires 1 <= m <= 12
  {
    var day := match ord
      case Day(n) => n
      case Last => LastDayOfMonth(y, m);
    match FromYmd(y, m, day)
    case Some(d) => Some(Instant(d, TimeNanos(time)))
    case None => None
  }

  predicate Hit(ord: Ordinal, time: Time, after: Instant, y: int, m: nat)
    requires 1 <= m <= 12
  {
    var c := Candidate(ord, time, y, m);
    c.Some? && Before(after, c.value)
  }

  /** The first ordinal, in list order, whose instant is later than `after`. */
  function FirstHit(ordinals: seq<Ordinal>, time: Time, after: Instant, y: int, m: nat): Option<Instant>
    requires 1 <= m <= 12
  {
    if ordinals == [] then None
    else if Hit(ordinals[0], time, after, y, m) then Candidate(ordinals[0], time, y, m)
    else FirstHit(ordinals[1..], time, after, y, m)
  }

  function Scan(ordinals: seq<Ordinal>, time: Time, after: Instant, y: int, m: nat, tries: nat): Option<Instant>
    requires 1 <= m <= 12
    decreases tries
  {
    if tries == 0 then None
    else
      var hit := FirstHit(ordinals, time, after, y, m);
      if hit.Some? then hit
      else var (ny, nm) := NextMonth(y, m); Scan(ordinals, time, after, ny, nm, tries - 1)
  }

  /** This month, the next, and the one after. */
  function MonthlyNext(ordinals: seq<Ordinal>, time: Time, after: Instant): Option<Instant>
    requires ValidInstant(after)
  {
    if !ValidTime(time) then None
    else Scan(ordinals, time, after, after.date.year, after.date.month, 3)
  }

  method NextMonthly(ordinals: seq<Ordinal>, time: Time, after: Instant) returns (r: Option<Instant>)
    requires ValidInstant(after)
    ensures r == MonthlyNext(ordinals, time, after)
  {
    if !ValidTime(time) {
      return None;
    }
    var year, month := after.date.year, after.date.month;
    for i := 0 to 3
      invariant 1 <= month <= 12
      invariant Scan(ordinals, time, after, year, month, 3 - i) == MonthlyNext(ordinals, time, after)
    {
      for j := 0 to |ordinals|
        invariant FirstHit(ordinals[j..], time, after, year, month) == FirstHit(ordinals, time, after, year, month)
      {
        assert ordinals[j..][0] == ordinals[j] && ordinals[j..][1..] == ordinals[j + 1..];
        var day := match ordinals[j]
          case Day(n) => n
          case Last => LastDayOfMonth(year, month);
        var d := FromYmd(year, month, day);
        if d.Some? {
          var candidate := Instant(d.value, TimeNanos(time));
          if Before(after, candidate) {
            return Some(candidate);
          }
        }
      }
      if month == 12 {
        month := 1;
        year := year + 1;
      } else {
        month := month + 1;
      }
    }
    r := None;
  }

  lemma {:induction false} FirstHitIndex(ordinals: seq<Ordinal>, time: Time, after: Instant, y: int, m: nat)
      returns (i: nat)
    requires 1 <= m <= 12
    ensures i <= |ordinals|
    ensures forall j :: 0 <= j < i ==> !Hit(ordinals[j], time, after, y, m)
    ensures i < |ordinals| ==>
              Hit(ordinals[i], time, after, y, m)
              && FirstHit(ordinals, time, after, y, m) == Candidate(ordinals[i], time, y, m)
    ensures i == |ordinals| ==> FirstHit(ordinals, time, after, y, m).None?
    decreases |ordinals|
  {
    if ordinals == [] || Hit(ordinals[0], time, after, y, m) {
      i := 0;
    } else {
      var rest := FirstHitIndex(ordinals[1..], time, after, y, m);
      i := rest + 1;
      forall j | 0 <= j < i
        ensures !Hit(ordinals[j], time, after, y, m)
      {
        assert j > 0 ==> ordinals[j] == ordinals[1..][j - 1];
      }
    }
  }

  lemma CandidateMeaning(ord: Ordinal, time: Time, y: int, m: nat)
    requires 1 <= m <= 12 && ValidTime(time)
    ensures match Candidate(ord, time, y, m)
            case Some(t) =>
              ValidInstant(t) && DayIn(ord, DaysIn(y, m)) == Some(t.date.day)
              && t == Instant(Date(y, m, t.date.day), TimeNanos(time))
            case None => DayIn(ord, DaysIn(y, m)).None?
  {
  }

  function MonthNo(d: Date): int {
    12 * d.year + d.month
  }

  /** Every match after `after` lies in month number `n` or later. */
  ghost predicate NoneBeforeMonth(ordinals: seq<Ordinal>, time: Time, after: Instant, n: int) {
    forall u :: ValidInstant(u) && Before(after, u) && Matches(Monthly(ordinals, time), u) ==> n <= MonthNo(u.date)
  }

  lemma MonthWithoutHit(ordinals: seq<Ordinal>, time: Time, after: Instant, y: int, m: nat)
    requires 1 <= m <= 12 && ValidTime(time)
    requires FirstHit(ordinals, time, after, y, m).None?
    requires NoneBeforeMonth(ordinals, time, after, 12 * y + m)
    ensures NoneBeforeMonth(ordinals, time, after, 12 * y + m + 1)
  {
    var _ := FirstHitIndex(ordinals, time, after, y, m);
    forall u | ValidInstant(u) && Before(after, u) && Matches(Monthly(ordinals, time), u)
      ensures 12 * y + m + 1 <= MonthNo(u.date)
    {
      if MonthNo(u.date) == 12 * y + m {
        assert u.date.year == y && u.date.month == m;
        var i :| 0 <= i < |ordinals| && DayIn(ordinals[i], DaysIn(y, m)) == Some(u.date.day);
        CandidateMeaning(ordinals[i], time, y, m);
      }
    }
  }

  lemma HitMatches(ordinals: seq<Ordinal>, time: Time, after: Instant, y: int, m: nat)
    requires 1 <= m <= 12 && ValidTime(time) && FirstHit(ordinals, time, after, y, m).Some?
    ensures var t := FirstHit(ordinals, time, after, y, m).value;
            && ValidInstant(t) && Before(after, t) && Matches(Monthly(ordinals, time), t)
            && t.date.year == y && t.date.month == m
  {
    var i := FirstHitIndex(ordinals, time, after, y, m);
    CandidateMeaning(ordinals[i], time, y, m);
  }

  /** The scan's result is the first hit of the earliest month with any match. */
  lemma {:induction false} ScanFinds(
      ordinals: seq<Ordinal>, time: Time, after: Instant, y: int, m: nat, tries: nat)
    requires 1 <= m <= 12 && ValidTime(time) && NoneBeforeMonth(ordinals, time, after, 12 * y + m)
    ensures match Scan(ordinals, time, after, y, m, tries)
            case Some(t) =>
              && ValidInstant(t) && Before(after, t) && Matches(Monthly(ordinals, time), t)
              && FirstHit(ordinals, time, after, t.date.year, t.date.month) == Some(t)
              && NoneBeforeMonth(ordinals, time, after, MonthNo(t.date))
            case None => NoneBeforeMonth(ordinals, time, after, 12 * y + m + tries)
    decreases tries
  {
    if tries > 0 {
      if FirstHit(ordinals, time, after, y, m).Some? {
        HitMatches(ordinals, time, after, y, m);
      } else {
        MonthWithoutHit(ordinals, time, after, y, m);
        var (ny, nm) := NextMonth(y, m);
        ScanFinds(ordinals, time, after, ny, nm, tries - 1);
      }
    }
  }

  lemma StartMonth(ordinals: seq<Ordinal>, time: Time, after: Instant)
    requires ValidInstant(after)
    ensures NoneBeforeMonth(ordinals, time, after, MonthNo(after.date))
  {
  }

  predicate Nameable(ord: Ordinal) {
    ord.Last? || 1 <= ord.n <= 31
  }

  /** Of the next two months one has 31 days, so three months are enough for any ordinal. */
  lemma WithinThreeMonths(ordinals: seq<Ordinal>, time: Time, after: Instant, i: nat)
    requires ValidInstant(after) && ValidTime(time) && i < |ordinals| && Nameable(ordinals[i])
    ensures MonthlyNext(ordinals, time, after).Some?
  {
    var (y1, m1) := NextMonth(after.date.year, after.date.month);
    var (y2, m2) := NextMonth(y1, m1);
    CandidateMeaning(ordinals[i], time, y1, m1);
    CandidateMeaning(ordinals[i], time, y2, m2);
    assert DaysIn(y1, m1) == 31 || DaysIn(y2, m2) == 31;
    var j1 := FirstHitIndex(ordinals, time, after, y1, m1);
    var j2 := FirstHitIndex(ordinals, time, after, y2, m2);
    assert Hit(ordinals[i], time, after, y1, m1) || Hit(ordinals[i], time, after, y2, m2);
    assert FirstHit(ordinals, time, after, y1, m1).Some? || FirstHit(ordinals, time, after, y2, m2).Some?;
    ScanThree(ordinals, time, after, after.date.year, after.date.month);
  }

  lemma ScanThree(ordinals: seq<Ordinal>, time: Time, after: Instant, y: int, m: nat)
    requires 1 <= m <= 12
    ensures var (y1, m1) := NextMonth(y, m);
            var (y2, m2) := NextMonth(y1, m1);
            Scan(ordinals, time, after, y, m, 3).None? ==>
              && FirstHit(ordinals, time, after, y1, m1).None?
              && FirstHit(ordinals, time, after, y2, m2).None?
  {
    var (y1, m1) := NextMonth(y, m);
    var (y2, m2) := NextMonth(y1, m1);
    assert Scan(ordinals, time, after, y2, m2, 1).None? ==> FirstHit(ordinals, time, after, y2, m2).None?;
    assert Scan(ordinals, time, after, y1, m1, 2).None? ==> Scan(ordinals, time, after, y2, m2, 1).None?;
  }

  /** Whatever the order of the ordinals: a result is a later match, and there is one if any exists. */
  lemma MonthlySound(ordinals: seq<Ordinal>, time: Time, after: Instant)
    requires ValidInstant(after)
    ensures match MonthlyNext(ordinals, time, after)
            case Some(t) => ValidInstant(t) && Before(after, t) && Matches(Monthly(ordinals, time), t)
            case None => forall u :: ValidInstant(u) && Before(after, u) ==> !Matches(Monthly(ordinals, time), u)
    ensures ValidTime(time) ==>
              (MonthlyNext(ordinals, time, after).None? <==> forall i :: 0 <= i < |ordinals| ==> !Nameable(ordinals[i]))
  {
    if ValidTime(time) {
      StartMonth(ordinals, time, after);
      ScanFinds(ordinals, time, after, after.date.year, after.date.month, 3);
      if i :| 0 <= i < |ordinals| && Nameable(ordinals[i]) {
        WithinThreeMonths(ordinals, time, after, i);
      } else {
        assert forall u :: ValidInstant(u) ==> !Matches(Monthly(ordinals, time), u);
      }
    }
  }

  // ----- When the monthly search finds the first match -----

  /**
   In a month of this length, a day named after a later day was already named
   before it: the days, each at its first mention, ascend.
   */
  predicate Ordered(ordinals: seq<Ordinal>, length: nat) {
    forall i, j :: 0 <= i < j < |ordinals| ==> InOrder(ordinals, length, i, j)
  }

  predicate InOrder(ordinals: seq<Ordinal>, length: nat, i: nat, j: nat)
    requires i < j < |ordinals|
  {
    var a, b := DayIn(ordinals[i], length), DayIn(ordinals[j], length);
    a.Some? && b.Some? && a.value > b.value ==> NamedBefore(ordinals, length, i, b.value)
  }

  predicate NamedBefore(ordinals: seq<Ordinal>, length: nat, i: nat, day: nat)
    requires i <= |ordinals|
  {
    exists k :: 0 <= k < i && DayIn(ordinals[k], length) == Some(day)
  }

  predicate AlwaysOrdered(ordinals: seq<Ordinal>) {
    Ordered(ordinals, 28) && Ordered(ordinals, 29) && Ordered(ordinals, 30) && Ordered(ordinals, 31)
  }

  /** In an ordered month the first hit of the list is its earliest. */
  lemma FirstHitEarliest(ordinals: seq<Ordinal>, time: Time, after: Instant, y: int, m: nat, u: Instant)
    requires 1 <= m <= 12 && ValidTime(time) && Ordered(ordinals, DaysIn(y, m))
    requires ValidInstant(u) && Before(after, u) && Matches(Monthly(ordinals, time), u)
    requires u.date.year == y && u.date.month == m
    ensures FirstHit(ordinals, time, after, y, m).Some?
    ensures !Before(u, FirstHit(ordinals, time, after, y, m).value)
  {
    var n := DaysIn(y, m);
    var i := FirstHitIndex(ordinals, time, after, y, m);
    var j :| 0 <= j < |ordinals| && DayIn(ordinals[j], n) == Some(u.date.day);
    CandidateMeaning(ordinals[j], time, y, m);
    assert Hit(ordinals[j], time, after, y, m);
    assert i <= j;
    CandidateMeaning(ordinals[i], time, y, m);
    if i < j {
      assert InOrder(ordinals, n, i, j);
      if NamedBefore(ordinals, n, i, u.date.day) {
        var k :| 0 <= k < i && DayIn(ordinals[k], n) == Some(u.date.day);
        CandidateMeaning(ordinals[k], time, y, m);
        assert Hit(ordinals[k], time, after, y, m);
      }
    }
  }

  lemma OrderedIsEnough(ordinals: seq<Ordinal>, time: Time, after: Instant)
    requires ValidInstant(after) && AlwaysOrdered(ordinals)
    ensures IsNext(Monthly(ordinals, time), after, MonthlyNext(ordinals, time, after))
  {
    MonthlySound(ordinals, time, after);
    var r := MonthlyNext(ordinals, time, after);
    if r.Some? {
      var t := r.value;
      StartMonth(ordinals, time, after);
      ScanFinds(ordinals, time, after, after.date.year, after.date.month, 3);
      forall u | ValidInstant(u) && Before(after, u) && Before(u, t)
        ensures !Matches(Monthly(ordinals, time), u)
      {
        if Matches(Monthly(ordinals, time), u) {
          assert MonthNo(t.date) <= MonthNo(u.date);
          assert u.date.year == t.date.year && u.date.month == t.date.month;
          FirstHitEarliest(ordinals, time, after, t.date.year, t.date.month, u);
        }
      }
    }
  }

  /** A day named out of order is skipped by the search from 24 hours before it. */
  lemma OutOfOrderSkips(ordinals: seq<Ordinal>, time: Time, y: int, m: nat, i: nat, j: nat)
      returns (after: Instant)
    requires ValidTime(time) && 1 <= m <= 12 && i < j < |ordinals| && !InOrder(ordinals, DaysIn(y, m), i, j)
    ensures after == Instant(Prev(Date(y, m, DayIn(ordinals[j], DaysIn(y, m)).value)), TimeNanos(time))
    ensures ValidInstant(after) && !IsNext(Monthly(ordinals, time), after, MonthlyNext(ordinals, time, after))
  {
    var n := DaysIn(y, m);
    var d := Date(y, m, DayIn(ordinals[j], n).value);
    after := Instant(Prev(d), TimeNanos(time));
    var u := Instant(d, TimeNanos(time));
    PrevNext(d);
    NumberOrder(after.date, d);
    assert Matches(Monthly(ordinals, time), u);
    MonthlySound(ordinals, time, after);
    var t := MonthlyNext(ordinals, time, after).value;
    NumberOrder(after.date, t.date);
    NumberOrder(t.date, d);
    assert t == u || Before(u, t);
    StartMonth(ordinals, time, after);
    ScanFinds(ordinals, time, after, after.date.year, after.date.month, 3);
    FirstHitMisses(ordinals, time, after, y, m, i, j);
    assert t != u;
  }

  lemma FirstHitMisses(ordinals: seq<Ordinal>, time: Time, after: Instant, y: int, m: nat, i: nat, j: nat)
    requires ValidTime(time) && 1 <= m <= 12 && i < j < |ordinals| && !InOrder(ordinals, DaysIn(y, m), i, j)
    requires Before(after, Instant(Date(y, m, DayIn(ordinals[j], DaysIn(y, m)).value), TimeNanos(time)))
    ensures FirstHit(ordinals, time, after, y, m)
         != Some(Instant(Date(y, m, DayIn(ordinals[j], DaysIn(y, m)).value), TimeNanos(time)))
  {
    var n := DaysIn(y, m);
    CandidateMeaning(ordinals[i], time, y, m);
    assert Hit(ordinals[i], time, after, y, m);
    var k := FirstHitIndex(ordinals, time, after, y, m);
    CandidateMeaning(ordinals[k], time, y, m);
    assert k <= i;
    assert k < i ==> DayIn(ordinals[k], n) != DayIn(ordinals[j], n);
  }

  /** A month of every length there is. */
  function MonthOfLength(n: nat): (r: (int, nat))
    requires 28 <= n <= 31
    ensures 1 <= r.1 <= 12 && DaysIn(r.0, r.1) == n
  {
    if n == 28 then (2023, 2) else if n == 29 then (2024, 2) else if n == 30 then (2023, 4) else (2023, 1)
  }

  lemma UnorderedFails(ordinals: seq<Ordinal>, time: Time, n: nat) returns (after: Instant)
    requires ValidTime(time) && 28 <= n <= 31 && !Ordered(ordinals, n)
    ensures ValidInstant(after) && !IsNext(Monthly(ordinals, time), after, MonthlyNext(ordinals, time, after))
  {
    var i, j :| 0 <= i < j < |ordinals| && !InOrder(ordinals, n, i, j);
    var (y, m) := MonthOfLength(n);
    after := OutOfOrderSkips(ordinals, time, y, m, i, j);
  }

  /**
   The monthly search returns the first match from every instant exactly when
   the ordinals are in order in months of every length.
   */
  lemma MonthlyExact(ordinals: seq<Ordinal>, time: Time)
    requires ValidTime(time)
    ensures AlwaysOrdered(ordinals)
       <==> forall after :: ValidInstant(after) ==> IsNext(Monthly(ordinals, time), after, MonthlyNext(ordinals, time, after))
  {
    if AlwaysOrdered(ordinals) {
      forall after | ValidInstant(after)
        ensures IsNext(Monthly(ordinals, time), after, MonthlyNext(ordinals, time, after))
      {
        OrderedIsEnough(ordinals, time, after);
      }
    } else {
      var n := if !Ordered(ordinals, 28) then 28 else if !Ordered(ordinals, 29) then 29
               else if !Ordered(ordinals, 30) then 30 else 31;
      var after := UnorderedFails(ordinals, time, n);
    }
  }

  /** Ascending days, with `last` at most at the end, are in order in every month. */
  lemma AscendingIsOrdered(ordinals: seq<Ordinal>, length: nat)
    requires forall i, j :: 0 <= i < j < |ordinals| ==>
               ordinals[i].Day? && (ordinals[j].Day? ==> ordinals[i].n <= ordinals[j].n)
    ensures Ordered(ordinals, length)
  {
    forall i, j | 0 <= i < j < |ordinals|
      ensures InOrder(ordinals, length, i, j)
    {
    }
  }

  /** `every 15th 1st of month`: from the last day of January, the first of February is skipped. */
  lemma UnsortedOrdinalsSkip(time: Time)
    requires ValidTime(time)
    ensures !AlwaysOrdered([Day(15), Day(1)])
    ensures !IsNext(Monthly([Day(15), Day(1)], time), Instant(Date(2023, 1, 31), TimeNanos(time)),
                    MonthlyNext([Day(15), Day(1)], time, Instant(Date(2023, 1, 31), TimeNanos(time))))
  {
    var ordinals := [Day(15), Day(1)];
    assert !InOrder(ordinals, 28, 0, 1);
    var after := OutOfOrderSkips(ordinals, time, 2023, 2, 0, 1);
    assert after == Instant(Date(2023, 1, 31), TimeNanos(time));
  }

  // ----- The whole preview -----

  predicate ValidKind(k: Kind) {
    k.Once? && k.at.Some? ==> ValidInstant(k.at.value)
  }

  /** Schedules whose next fire is the first match: all but intervals and unordered months. */
  predicate FirstMatchKind(k: Kind) {
    !k.Interval? && (k.Monthly? ==> AlwaysOrdered(k.ordinals))
  }

  /** An interval fires its length later, and never when that is zero. */
  predicate IsIntervalNext(count: nat, unit: Unit, after: Instant, r: Option<Instant>) {
    match r
    case None => IntervalSeconds(count, unit) == 0
    case Some(t) =>
      IntervalSeconds(count, unit) > 0
      && Ticks(t) == Ticks(after) + IntervalSeconds(count, unit) * NANOS_PER_SECOND
  }

  method NextFireUtc(k: Kind, after: Instant) returns (r: Option<Instant>)
    requires ValidKind(k) && ValidInstant(after)
    ensures k.Interval? ==> IsIntervalNext(k.count, k.unit, after, r)
    ensures k.Monthly? ==> r == MonthlyNext(k.ordinals, k.time, after)
    ensures FirstMatchKind(k) ==> IsNext(k, after, r)
    ensures r.Some? ==> ValidInstant(r.value) && Before(after, r.value) && (k.Interval? || Matches(k, r.value))
    ensures r.None? && !k.Interval? ==> NoneAfter(k, after)
  {
    match k {
      case Interval(count, unit) =>
        var secs := match unit
          case Seconds => count
          case Minutes => count * 60
          case Hours => count * 3600;
        if secs <= 0 {
          return None;
        }
        AddSecondsTicks(after, secs);
        BeforeTicks(after, AddSeconds(after, secs));
        r := Some(AddSeconds(after, secs));
      case Daily(time) => r := NextDaily(time, after);
      case Weekdays(days, time) => r := NextWeekday(days, time, after);
      case Monthly(ordinals, time) =>
        r := NextMonthly(ordinals, time, after);
        MonthlySound(ordinals, time, after);
        if AlwaysOrdered(ordinals) {
          OrderedIsEnough(ordinals, time, after);
        }
      case Once(at) =>
        r := if at.Some? && Before(after, at.value) then at else None;
      case Disabled => r := None;
    }
  }

  ghost predicate NoneAfter(k: Kind, after: Instant) {
    forall u :: ValidInstant(u) && Before(after, u) ==> !Matches(k, u)
  }

  /** `fires` lists the matches after `now` from the first on, without a gap, up to `count`. */
  ghost predicate FirstMatches(k: Kind, now: Instant, fires: seq<Instant>, count: nat) {
    && |fires| <= count
    && (forall i :: 0 <= i < |fires| ==> ValidInstant(fires[i]) && Before(now, fires[i]) && Matches(k, fires[i]))
    && (forall i :: 0 < i < |fires| ==> Before(fires[i - 1], fires[i]))
    && (forall u :: ValidInstant(u) && Before(now, u) && Matches(k, u) ==>
          u in fires || (|fires| == count && (fires != [] ==> Before(fires[|fires| - 1], u))))
  }

  /** Every match is listed or still ahead of the cursor. */
  ghost predicate ListedOrAhead(k: Kind, now: Instant, fires: seq<Instant>, cursor: Instant) {
    forall u :: ValidInstant(u) && Before(now, u) && Matches(k, u) ==> u in fires || Before(cursor, u)
  }

  lemma AheadStep(k: Kind, now: Instant, fires: seq<Instant>, cursor: Instant, next: Instant)
    requires ValidInstant(cursor) && ListedOrAhead(k, now, fires, cursor) && IsNext(k, cursor, Some(next))
    ensures ListedOrAhead(k, now, fires + [next], next)
  {
    forall u | ValidInstant(u) && Before(now, u) && Matches(k, u)
      ensures u in fires + [next] || Before(next, u)
    {
      if u !in fires {
        assert Before(cursor, u) && !Before(u, next);
        NumberOrder(u.date, next.date);
      }
    }
  }

  /** The element before position `i`, counting `now` as the start. */
  function Previous(now: Instant, fires: seq<Instant>, i: nat): Instant
    requires i <= |fires|
  {
    if i == 0 then now else fires[i - 1]
  }

  predicate ClimbsAt(now: Instant, fires: seq<Instant>, i: nat)
    requires i < |fires|
  {
    ValidInstant(fires[i]) && Before(Previous(now, fires, i), fires[i])
  }

  predicate Climbs(now: Instant, fires: seq<Instant>) {
    forall i :: 0 <= i < |fires| ==> ClimbsAt(now, fires, i)
  }

  lemma {:induction false} ClimbsAbove(now: Instant, fires: seq<Instant>, i: nat)
    requires ValidInstant(now) && Climbs(now, fires) && i < |fires|
    ensures Before(now, fires[i])
    decreases i
  {
    assert ClimbsAt(now, fires, i);
    if i > 0 {
      ClimbsAbove(now, fires, i - 1);
    }
  }

  /** Each fire comes `d` ticks after the one before it. */
  predicate Spaced(now: Instant, fires: seq<Instant>, d: int) {
    forall i :: 0 <= i < |fires| ==> SpacedAt(now, fires, d, i)
  }

  predicate SpacedAt(now: Instant, fires: seq<Instant>, d: int, i: nat)
    requires i < |fires|
  {
    Ticks(fires[i]) == Ticks(Previous(now, fires, i)) + d
  }

  lemma SpacedStep(now: Instant, fires: seq<Instant>, d: int, next: Instant)
    requires Spaced(now, fires, d) && Ticks(next) == Ticks(Previous(now, fires, |fires|)) + d
    ensures Spaced(now, fires + [next], d)
  {
    var longer := fires + [next];
    forall i | 0 <= i < |longer|
      ensures SpacedAt(now, longer, d, i)
    {
      assert Previous(now, longer, i) == Previous(now, fires, i);
      assert i < |fires| ==> SpacedAt(now, fires, d, i);
    }
  }

  /** What the loop has listed, from `now` up to its cursor. */
  ghost predicate Listed(k: Kind, now: Instant, fires: seq<Instant>) {
    && Climbs(now, fires)
    && (!k.Interval? ==> forall j :: 0 <= j < |fires| ==> Matches(k, fires[j]))
    && (FirstMatchKind(k) ==> ListedOrAhead(k, now, fires, Previous(now, fires, |fires|)))
    && (k.Interval? ==> Spaced(now, fires, IntervalSeconds(k.count, k.unit) * NANOS_PER_SECOND))
  }

  /** The enumeration loop: each fire found is the cursor for the next. */
  method NextFires(k: Kind, now: Instant, count: nat) returns (fires: seq<Instant>)
    requires ValidKind(k) && ValidInstant(now)
    ensures |fires| <= count && Climbs(now, fires)
    ensures !k.Interval? ==> forall i :: 0 <= i < |fires| ==> Matches(k, fires[i])
    ensures !k.Interval? && |fires| < count ==> NoneAfter(k, Previous(now, fires, |fires|))
    ensures FirstMatchKind(k) ==> FirstMatches(k, now, fires, count)
    ensures k.Interval? ==> Spaced(now, fires, IntervalSeconds(k.count, k.unit) * NANOS_PER_SECOND)
    ensures k.Interval? ==> |fires| == if IntervalSeconds(k.count, k.unit) == 0 then 0 else count
  {
    fires := [];
    var cursor := now;
    for i := 0 to count
      invariant |fires| == i && ValidInstant(cursor)
      invariant cursor == Previous(now, fires, |fires|)
      invariant Listed(k, now, fires)
      invariant k.Interval? && IntervalSeconds(k.count, k.unit) == 0 ==> fires == []
    {
      var next := NextFireUtc(k, cursor);
      if next.None? {
        break;
      }
      ListedStep(k, now, fires, next.value);
      fires := fires + [next.value];
      cursor := next.value;
    }
    if FirstMatchKind(k) {
      ListComplete(k, now, fires, count);
    }
  }

  lemma Extend(now: Instant, fires: seq<Instant>, next: Instant)
    requires ValidInstant(now) && Climbs(now, fires)
    requires ValidInstant(next) && Before(Previous(now, fires, |fires|), next)
    ensures Climbs(now, fires + [next])
    ensures forall i {:trigger Previous(now, fires + [next], i)} :: 0 <= i <= |fires| ==>
              Previous(now, fires + [next], i) == Previous(now, fires, i)
  {
    var longer := fires + [next];
    forall i | 0 <= i < |longer|
      ensures ClimbsAt(now, longer, i)
    {
      assert Previous(now, longer, i) == Previous(now, fires, i);
      assert i < |fires| ==> ClimbsAt(now, fires, i);
    }
  }

  lemma ListedStep(k: Kind, now: Instant, fires: seq<Instant>, next: Instant)
    requires ValidInstant(now) && Listed(k, now, fires)
    requires ValidInstant(next) && Before(Previous(now, fires, |fires|), next)
    requires k.Interval? || Matches(k, next)
    requires FirstMatchKind(k) ==> IsNext(k, Previous(now, fires, |fires|), Some(next))
    requires k.Interval? ==> IsIntervalNext(k.count, k.unit, Previous(now, fires, |fires|), Some(next))
    ensures Listed(k, now, fires + [next])
  {
    var cursor := Previous(now, fires, |fires|);
    assert fires != [] ==> ClimbsAt(now, fires, |fires| - 1);
    Extend(now, fires, next);
    assert Previous(now, fires + [next], |fires| + 1) == next;
    if FirstMatchKind(k) {
      AheadStep(k, now, fires, cursor, next);
    }
    if k.Interval? {
      SpacedStep(now, fires, IntervalSeconds(k.count, k.unit) * NANOS_PER_SECOND, next);
    }
  }

  lemma ListComplete(k: Kind, now: Instant, fires: seq<Instant>, count: nat)
    requires ValidInstant(now) && Climbs(now, fires) && |fires| <= count
    requires forall j :: 0 <= j < |fires| ==> Matches(k, fires[j])
    requires ListedOrAhead(k, now, fires, Previous(now, fires, |fires|))
    requires |fires| < count ==> IsNext(k, Previous(now, fires, |fires|), None)
    ensures FirstMatches(k, now, fires, count)
  {
    forall i | 0 <= i < |fires|
      ensures ValidInstant(fires[i]) && Before(now, fires[i]) && Matches(k, fires[i])
      ensures i > 0 ==> Before(fires[i - 1], fires[i])
    {
      ClimbsAbove(now, fires, i);
      assert ClimbsAt(now, fires, i);
    }
  }
}
