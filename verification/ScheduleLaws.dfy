/**
 What a compiled schedule does: it fires on the clock and the calendar exactly when
 the schedule that was written says so, and an interval has the written length.

 The compiled form is read off the wall clock here, by hours and minutes, and the last
 day of a month is the one before a first; nothing of the search for the next fire is
 used.
 */
module ScheduleLaws {
  import opened Wrappers
  import opened Calendar
  import N = NextFire
  import Ast = CroniqAst
  import opened Compile

  const NANOS_PER_MINUTE: nat := 60_000_000_000

  /** A clock shows this hour and minute, and has only just come to it. */
  predicate ClockShows(t: Instant, hour: nat, minute: nat) {
    var minutes := t.nanos / NANOS_PER_MINUTE;
    t.nanos % NANOS_PER_MINUTE == 0 && minutes / 60 == hour && minutes % 60 == minute
  }

  predicate OnOrdinal(d: Date, ordinal: N.Ordinal)
    requires ValidDate(d)
  {
    match ordinal
    case Day(n) => d.day == n
    case Last => Next(d).day == 1
  }

  /** The instants a compiled schedule fires at; `parse` reads the instant of a one-time schedule. */
  predicate Fires(s: CompiledSchedule, parse: string -> Option<Instant>, t: Instant)
    requires ValidInstant(t)
  {
    match s
    case EveryDay(hour, minute) => ClockShows(t, hour, minute)
    case OnWeekdays(days, hour, minute) => ClockShows(t, hour, minute) && WeekdayOf(t.date) in days
    case OnOrdinals(ordinals, hour, minute) =>
      ClockShows(t, hour, minute) && exists o :: o in ordinals && OnOrdinal(t.date, o)
    case OnceAt(at) => parse(at) == Some(t)
    case EverySeconds(_) => false
    case Never => false
  }

  /** A written schedule as the preview reads it. */
  function Written(kind: Ast.ScheduleKind, parse: string -> Option<Instant>): N.Kind {
    match kind
    case Interval(count, unit) => N.Interval(count, unit)
    case Daily(time) => N.Daily(time)
    case Weekdays(days, time) => N.Weekdays(days, time)
    case Monthly(ordinals, time) => N.Monthly(ordinals, time)
    case Once(at) => N.Once(parse(at))
    case Disabled => N.Disabled
  }

  /** The nanoseconds of a time of day are those at which a clock comes to show it. */
  lemma ClockExact(t: Instant, time: N.Time)
    requires ValidInstant(t)
    ensures ClockShows(t, time.hour, time.minute) <==> N.ValidTime(time) && t.nanos == N.TimeNanos(time)
  {
    var minutes := t.nanos / NANOS_PER_MINUTE;
    assert minutes < 1440;
    if ClockShows(t, time.hour, time.minute) {
      assert minutes == 60 * time.hour + time.minute;
    }
    if N.ValidTime(time) && t.nanos == N.TimeNanos(time) {
      assert t.nanos == (60 * time.hour + time.minute) * NANOS_PER_MINUTE;
      assert minutes == 60 * time.hour + time.minute;
    }
  }

  lemma OrdinalExact(d: Date, o: N.Ordinal)
    requires ValidDate(d)
    ensures OnOrdinal(d, o) <==> N.DayIn(o, DaysIn(d.year, d.month)) == Some(d.day)
  {
  }

  lemma OrdinalsExact(d: Date, ordinals: seq<N.Ordinal>)
    requires ValidDate(d)
    ensures (exists o :: o in ordinals && OnOrdinal(d, o)) <==> N.MonthlyDate(ordinals, d)
  {
    forall o ensures OnOrdinal(d, o) <==> N.DayIn(o, DaysIn(d.year, d.month)) == Some(d.day) {
      OrdinalExact(d, o);
    }
  }

  /** A compiled schedule fires exactly when the written one matches. */
  lemma CompiledFires(kind: Ast.ScheduleKind, parse: string -> Option<Instant>, t: Instant)
    requires ValidInstant(t)
    ensures Fires(CompileSchedule(kind), parse, t) <==> N.Matches(Written(kind, parse), t)
  {
    match kind
    case Daily(time) => ClockExact(t, time);
    case Weekdays(days, time) => ClockExact(t, time);
    case Monthly(ordinals, time) =>
      ClockExact(t, time);
      OrdinalsExact(t.date, ordinals);
    case _ =>
  }

  /** So many seconds are this many of a unit, with none left over. */
  predicate Lasts(seconds: nat, count: nat, unit: N.Unit) {
    match unit
    case Seconds => seconds == count
    case Minutes => seconds / 60 == count && seconds % 60 == 0
    case Hours => seconds / 60 / 60 == count && seconds / 60 % 60 == 0 && seconds % 60 == 0
  }

  /** An interval has the written length, and only an interval has a length. */
  lemma CompiledInterval(kind: Ast.ScheduleKind)
    ensures kind.Interval? <==> CompileSchedule(kind).EverySeconds?
    ensures kind.Interval? ==> Lasts(CompileSchedule(kind).seconds, kind.count, kind.unit)
  {
    if kind.Interval? && kind.unit.Hours? {
      assert kind.count * 3600 == 60 * (60 * kind.count);
    }
  }
}
