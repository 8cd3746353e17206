/** Splitting and joining text, and decimal numbers in it. */
module ScheduleText {
  import opened Wrappers
  import opened JsonScalars

  /** Split at every `sep`; the empty text is one empty piece. */
  function Split(s: string, sep: char): (r: seq<string>)
    ensures r != []
  {
    if s == [] then [[]]
    else
      var rest := Split(s[1..], sep);
      if s[0] == sep then [[]] + rest else [[s[0]] + rest[0]] + rest[1..]
  }

  function Join(words: seq<string>): string
    requires words != []
  {
    if |words| == 1 then words[0] else words[0] + [' '] + Join(words[1..])
  }

  lemma {:induction false} SplitWord(w: string, sep: char, rest: string)
    requires sep !in w
    ensures Split(w, sep) == [w]
    ensures Split(w + [sep] + rest, sep) == [w] + Split(rest, sep)
  {
    var s := w + [sep] + rest;
    if w == [] {
      assert s == [sep] + rest && s[1..] == rest;
    } else {
      SplitWord(w[1..], sep, rest);
      assert s[0] == w[0] && s[1..] == w[1..] + [sep] + rest;
      assert [w[0]] + w[1..] == w;
    }
  }

  lemma SplitPair(a: string, sep: char, b: string)
    requires sep !in a && sep !in b
    ensures Split(a + [sep] + b, sep) == [a, b]
  {
    SplitWord(a, sep, b);
    SplitWord(b, sep, []);
  }

  /** Splitting undoes joining: the lexer sees the words that were written. */
  lemma {:induction false} SplitJoin(words: seq<string>)
    requires words != [] && forall w :: w in words ==> ' ' !in w
    ensures Split(Join(words), ' ') == words
  {
    if |words| == 1 {
      SplitWord(words[0], ' ', []);
    } else {
      assert [words[0]] + words[1..] == words;
      SplitWord(words[0], ' ', Join(words[1..]));
      SplitJoin(words[1..]);
    }
  }

  function LowerChar(c: char): char {
    if 'A' <= c <= 'Z' then (c as int + 32) as char else c
  }

  function Lower(s: string): string {
    seq(|s|, i requires 0 <= i < |s| => LowerChar(s[i]))
  }

  predicate AllDigits(s: string) {
    forall c :: c in s ==> IsDigit(c)
  }

  function Value(s: string): nat
    requires AllDigits(s)
  {
    if s == [] then 0
    else
      assert s[|s| - 1] in s;
      10 * Value(s[..|s| - 1]) + (s[|s| - 1] as int - '0' as int)
  }

  /** Unsigned parsing with an upper bound: an optional plus sign, then digits. */
  function ParseBounded(s: string, bound: nat): Option<nat> {
    var digits := if s != [] && s[0] == '+' then s[1..] else s;
    if digits == [] || !AllDigits(digits) || Value(digits) >= bound then None else Some(Value(digits))
  }

  function ParseU32(s: string): Option<nat> {
    ParseBounded(s, 0x1_0000_0000)
  }

  function ParseU8(s: string): Option<nat> {
    ParseBounded(s, 0x100)
  }

  lemma {:induction false} ValueDigits(n: nat)
    ensures Value(Digits(n)) == n
    decreases n
  {
    var s := Digits(n);
    if n >= 10 {
      ValueDigits(n / 10);
      assert s[..|s| - 1] == Digits(n / 10);
    } else {
      assert s[..|s| - 1] == [];
    }
  }

  /** Two digits, zero-padded. */
  function Pad2(n: nat): string {
    if n < 10 then ['0'] + Digits(n) else Digits(n)
  }

  /** A padded number is read back, unless it does not fit. */
  lemma ParsePad2(n: nat)
    ensures ParseU8(Pad2(n)) == (if n < 0x100 then Some(n) else None) == ParseU8(Digits(n))
    ensures forall c :: c in Pad2(n) ==> IsDigit(c)
  {
    ValueDigits(n);
    assert Digits(n)[0] in Digits(n);
    if n < 10 {
      assert Pad2(n)[..1] == ['0'] && ['0'][..0] == [];
      assert Value(['0']) == 0;
    }
  }
}

/**
 Cron to Croniq: the time-of-day part of the five-field converter, the DSL
 line it emits as text, and how the parser reads that line back.
 */
module Convert {
  import opened Wrappers
  import opened JsonScalars
  import opened ScheduleText
  import opened Calendar
  import opened NextFire
  import KeyOrder

  /** Full or three-letter day names, in lower case. */
  function DayNamed(s: string): Option<Weekday> {
    if s == "monday" || s == "mon" then Some(Monday)
    else if s == "tuesday" || s == "tue" then Some(Tuesday)
    else if s == "wednesday" || s == "wed" then Some(Wednesday)
    else if s == "thursday" || s == "thu" then Some(Thursday)
    else if s == "friday" || s == "fri" then Some(Friday)
    else if s == "saturday" || s == "sat" then Some(Saturday)
    else if s == "sunday" || s == "sun" then Some(Sunday)
    else None
  }

  function DayName(w: Weekday): string {
    match w
    case Monday => "monday"
    case Tuesday => "tuesday"
    case Wednesday => "wednesday"
    case Thursday => "thursday"
    case Friday => "friday"
    case Saturday => "saturday"
    case Sunday => "sunday"
  }

  const ALL_DAYS: set<Weekday> := {Monday, Tuesday, Wednesday, Thursday, Friday, Saturday, Sunday}

  // ----- What a cron line means -----

  /** One day-of-week value: 0 and 7 are Sunday. */
  function DowValue(s: string): Option<nat> {
    if |s| == 1 && '0' <= s[0] <= '7' then Some(s[0] as int - '0' as int)
    else match DayNamed(Lower(s))
      case Some(w) => Some((WeekdayIndex(w) + 1) % 7)
      case None => None
  }

  function CronDay(v: nat): Weekday {
    WeekdayAt(v + 6)
  }

  function ValueRange(a: nat, b: nat): set<Weekday> {
    set v | a <= v <= b :: CronDay(v)
  }

  /** One item of a day-of-week list: a value, or an ascending range of values. */
  function DowItem(s: string): Option<set<Weekday>> {
    var ends := Split(s, '-');
    if |ends| == 2 then
      var a, b := DowValue(ends[0]), DowValue(ends[1]);
      if a.Some? && b.Some? && a.value <= b.value then Some(ValueRange(a.value, b.value)) else None
    else match DowValue(s)
      case Some(v) => Some({CronDay(v)})
      case None => None
  }

  function Union(items: seq<string>): Option<set<Weekday>> {
    if items == [] then Some({})
    else
      var first, rest := DowItem(items[0]), Union(items[1..]);
      if first.None? || rest.None? then None else Some(first.value + rest.value)
  }

  /** The days a day-of-week field selects; none for a field cron would reject. */
  function CronDow(field: string): Option<set<Weekday>> {
    if field == "*" then Some(ALL_DAYS) else Union(Split(field, ','))
  }

  /** The days a field names: none if cron gives it no meaning, as with a reversed range. */
  function CronSet(field: string): set<Weekday> {
    match CronDow(field)
    case Some(days) => days
    case None => {}
  }

  /** A number in a cron field: digits alone, without a sign. */
  function CronNumber(s: string): Option<nat> {
    if s != [] && AllDigits(s) then Some(Value(s)) else None
  }

  predicate AllNumbers(items: seq<string>) {
    forall i :: 0 <= i < |items| ==> CronNumber(items[i]).Some?
  }

  predicate Listed(items: seq<string>, day: nat) {
    exists i :: 0 <= i < |items| && CronNumber(items[i]) == Some(day)
  }

  /** Whether a day-of-month field selects this date; `L` is the last day. A field cron would reject selects none. */
  predicate CronDom(field: string, d: Date) {
    if field == "*" then true
    else if Lower(field) == "l" then d.day == DaysIn(d.year, d.month)
    else AllNumbers(Split(field, ',')) && Listed(Split(field, ','), d.day)
  }

  predicate OnClock(h: nat, m: nat) {
    h <= 23 && m <= 59
  }

  /** The time of day two fields name; none if cron would reject them. */
  function CronTime(minute: string, hour: string): Option<Time> {
    var m, h := CronNumber(minute), CronNumber(hour);
    if m.Some? && h.Some? && OnClock(h.value, m.value) then Some(Time(h.value, m.value)) else None
  }

  const MONTH_NAMES: seq<string> :=
    ["jan", "feb", "mar", "apr", "may", "jun", "jul", "aug", "sep", "oct", "nov", "dec"]

  /** A month by its number or its name. */
  predicate IsMonth(s: string, month: nat) {
    CronNumber(s) == Some(month) || (1 <= month <= 12 && Lower(s) == MONTH_NAMES[month - 1])
  }

  predicate InMonths(item: string, month: nat) {
    var ends := Split(item, '-');
    if |ends| == 2 then exists a, b :: 1 <= a <= month <= b <= 12 && IsMonth(ends[0], a) && IsMonth(ends[1], b)
    else IsMonth(item, month)
  }

  /** Whether a month field selects this month: `*`, or a list of months and ranges of months. */
  predicate CronMonth(field: string, month: nat) {
    field == "*" || exists i :: 0 <= i < |Split(field, ',')| && InMonths(Split(field, ',')[i], month)
  }

  /** A cron line with a fixed time and at most one restricted day field. */
  predicate CronMatches(minute: string, hour: string, dom: string, month: string, dow: string, t: Instant) {
    && CronTime(minute, hour).Some? && t.nanos == TimeNanos(CronTime(minute, hour).value)
    && CronMonth(month, t.date.month)
    && CronDom(dom, t.date)
    && WeekdayOf(t.date) in CronSet(dow)
  }

  // ----- The converter -----

  /** The emitted line, and how many warnings come with it. */
  datatype Conversion = Conversion(schedule: string, warnings: nat)

  /** The converter's own table of day names. */
  function DowName(s: string): Option<string> {
    var t := Lower(s);
    if t == "0" || t == "7" || t == "sun" || t == "sunday" then Some("sunday")
    else if t == "1" || t == "mon" || t == "monday" then Some("monday")
    else if t == "2" || t == "tue" || t == "tuesday" then Some("tuesday")
    else if t == "3" || t == "wed" || t == "wednesday" then Some("wednesday")
    else if t == "4" || t == "thu" || t == "thursday" then Some("thursday")
    else if t == "5" || t == "fri" || t == "friday" then Some("friday")
    else if t == "6" || t == "sat" || t == "saturday" then Some("saturday")
    else None
  }

  function ParseDowItems(items: seq<string>): Option<seq<string>> {
    if items == [] then Some([])
    else
      var rest := ParseDowItems(items[1..]);
      match DowName(items[0])
      case Some(name) => if rest.None? then None else Some([name] + rest.value)
      case None => None
  }

  function ParseDow(s: string): Option<seq<string>> {
    if s == "1-5" then Some(["weekday"])
    else if s == "0-6" || s == "6-0" then
      Some(["sunday", "monday", "tuesday", "wednesday", "thursday", "friday", "saturday"])
    else if s == "6,0" || s == "0,6" then Some(["weekend"])
    else if s == "6-7" || s == "0,7" then Some(["weekend"])
    else ParseDowItems(Split(s, ','))
  }

  function OrdinalSuffix(n: nat): string {
    if 11 <= n % 100 <= 13 then "th"
    else if n % 10 == 1 then "st"
    else if n % 10 == 2 then "nd"
    else if n % 10 == 3 then "rd"
    else "th"
  }

  function ParseDomItems(items: seq<string>): Option<seq<string>> {
    if items == [] then Some([])
    else
      var n, rest := ParseU32(items[0]), ParseDomItems(items[1..]);
      if n.None? || n.value == 0 || n.value > 31 || rest.None? then None
      else Some([Digits(n.value) + OrdinalSuffix(n.value)] + rest.value)
  }

  function ParseDom(s: string): Option<seq<string>> {
    if Lower(s) == "l" then Some(["last"]) else ParseDomItems(Split(s, ','))
  }

  function Prepend(done: seq<string>, rest: Option<seq<string>>): Option<seq<string>> {
    if rest.None? then None else Some(done + rest.value)
  }

  lemma NothingDone(rest: Option<seq<string>>)
    ensures Prepend([], rest) == rest
  {
    assert rest.Some? ==> [] + rest.value == rest.value;
  }

  lemma OneMore(done: seq<string>, w: string, rest: Option<seq<string>>)
    ensures Prepend(done, Prepend([w], rest)) == Prepend(done + [w], rest)
  {
    assert rest.Some? ==> done + ([w] + rest.value) == (done + [w]) + rest.value;
  }

  method ReadDowItems(items: seq<string>) returns (days: Option<seq<string>>)
    ensures days == ParseDowItems(items)
  {
    var names := [];
    NothingDone(ParseDowItems(items));
    assert items[0..] == items;
    for i := 0 to |items|
      invariant ParseDowItems(items) == Prepend(names, ParseDowItems(items[i..]))
    {
      assert items[i..][1..] == items[i + 1..];
      var name := DowName(items[i]);
      if name.None? { return None; }
      OneMore(names, name.value, ParseDowItems(items[i + 1..]));
      names := names + [name.value];
    }
    assert items[|items|..] == [] && names + [] == names;
    days := Some(names);
  }

  method ReadDomItems(items: seq<string>) returns (ordinals: Option<seq<string>>)
    ensures ordinals == ParseDomItems(items)
  {
    var texts := [];
    NothingDone(ParseDomItems(items));
    assert items[0..] == items;
    for i := 0 to |items|
      invariant ParseDomItems(items) == Prepend(texts, ParseDomItems(items[i..]))
    {
      assert items[i..][1..] == items[i + 1..];
      var n := ParseU32(items[i]);
      if n.None? || n.value == 0 || n.value > 31 { return None; }
      var text := Digits(n.value) + OrdinalSuffix(n.value);
      OneMore(texts, text, ParseDomItems(items[i + 1..]));
      texts := texts + [text];
    }
    assert items[|items|..] == [] && texts + [] == texts;
    ordinals := Some(texts);
  }

  /** The day-of-week field: the fixed spellings, else one name pushed per item. */
  method ReadDow(s: string) returns (days: Option<seq<string>>)
    ensures days == ParseDow(s)
  {
    if s == "1-5" { return Some(["weekday"]); }
    if s == "0-6" || s == "6-0" {
      return Some(["sunday", "monday", "tuesday", "wednesday", "thursday", "friday", "saturday"]);
    }
    if s == "6,0" || s == "0,6" || s == "6-7" || s == "0,7" { return Some(["weekend"]); }
    days := ReadDowItems(Split(s, ','));
  }

  /** The day-of-month field: `L`, else one ordinal pushed per item. */
  method ReadDom(s: string) returns (ordinals: Option<seq<string>>)
    ensures ordinals == ParseDom(s)
  {
    if Lower(s) == "l" { return Some(["last"]); }
    ordinals := ReadDomItems(Split(s, ','));
  }

  function TimeText(hour: nat, minute: nat): string {
    Pad2(hour) + [':'] + Pad2(minute)
  }

  lemma PadShape(n: nat)
    requires n < 100
    ensures |Pad2(n)| == 2 && AllDigits(Pad2(n)) && Value(Pad2(n)) == n
  {
    ParsePad2(n);
    assert Pad2(n)[0] in Pad2(n);
    if n >= 10 {
      assert Digits(n / 10) == [('0' as int + n / 10) as char];
    }
  }

  lemma Halves(a: string, b: string)
    requires |a| == 2
    ensures (a + [':'] + b)[2] == ':' && (a + [':'] + b)[..2] == a && (a + [':'] + b)[3..] == b
  {
  }

  /** A time of day is written as two digits, a colon and two digits. */
  lemma TimeTextShape(hour: nat, minute: nat)
    requires hour < 24 && minute < 60
    ensures var t := TimeText(hour, minute);
            && |t| == 5 && t[2] == ':'
            && AllDigits(t[..2]) && Value(t[..2]) == hour && AllDigits(t[3..]) && Value(t[3..]) == minute
  {
    PadShape(hour);
    PadShape(minute);
    Halves(Pad2(hour), Pad2(minute));
  }

  function WeekdayLine(days: seq<string>, time: string): seq<string> {
    if days == ["weekday"] then ["every", "weekday", "at", time]
    else if days == ["weekend"] then ["every", "weekend", "at", time]
    else if |days| == 7 then ["every", "day", "at", time]
    else ["every"] + days + ["at", time]
  }

  function MonthlyLine(ordinals: seq<string>, time: string): seq<string> {
    ["every"] + ordinals + ["of", "month", "at", time]
  }

  /** The fixed-time section of `convert`; none where it reports an error. */
  function ConvertFixed(minute: string, hour: string, dom: string, month: string, dow: string): Option<Conversion> {
    var m, h := ParseU32(minute), ParseU32(hour);
    if m.None? || h.None? then None
    else
      var time := TimeText(h.value, m.value);
      var warnings := if month != "*" then 1 else 0;
      if dom == "*" && dow == "*" then
        Some(Conversion(Join(["every", "day", "at", time]), warnings))
      else if dom == "*" then
        match ParseDow(dow)
        case Some(days) => Some(Conversion(Join(WeekdayLine(days, time)), warnings))
        case None => None
      else if dow == "*" then
        match ParseDom(dom)
        case Some(ordinals) => Some(Conversion(Join(MonthlyLine(ordinals, time)), warnings))
        case None => None
      else
        match ParseDow(dow)
        case Some(days) => Some(Conversion(Join(WeekdayLine(days, time)), warnings + 1))
        case None => None
  }

  // ----- How the parser reads a line -----

  function DayToken(w: string): Option<seq<Weekday>> {
    var s := Lower(w);
    if s == "weekday" then Some([Monday, Tuesday, Wednesday, Thursday, Friday])
    else if s == "weekend" then Some([Saturday, Sunday])
    else match DayNamed(s)
      case Some(d) => Some([d])
      case None => None
  }

  function TakeDays(words: seq<string>): (r: (seq<Weekday>, seq<string>)) {
    if words == [] then ([], words)
    else match DayToken(words[0])
      case Some(days) => var (more, rest) := TakeDays(words[1..]); (days + more, rest)
      case None => ([], words)
  }

  predicate EndsWith(s: string, a: char, b: char) {
    |s| >= 2 && s[|s| - 2] == a && s[|s| - 1] == b
  }

  predicate IsOrdinal(w: string) {
    w == "last" || EndsWith(w, 's', 't') || EndsWith(w, 'n', 'd') || EndsWith(w, 'r', 'd') || EndsWith(w, 't', 'h')
  }

  /** All four suffixes are two letters long. */
  function ParseOrdinal(w: string): Option<Ordinal>
    requires IsOrdinal(w)
  {
    if w == "last" then Some(Last)
    else match ParseU8(w[..|w| - 2])
      case Some(n) => if 1 <= n <= 31 then Some(Day(n)) else None
      case None => None
  }

  function TakeOrdinals(words: seq<string>): Option<(seq<Ordinal>, seq<string>)> {
    if words == [] || !IsOrdinal(words[0]) then Some(([], words))
    else
      var first, more := ParseOrdinal(words[0]), TakeOrdinals(words[1..]);
      if first.None? || more.None? then None else Some(([first.value] + more.value.0, more.value.1))
  }

  function ParseTime(w: string): Option<Time> {
    var parts := Split(w, ':');
    if |parts| != 2 then None
    else
      var h, m := ParseU8(parts[0]), ParseU8(parts[1]);
      if h.None? || m.None? || h.value > 23 || m.value > 59 then None else Some(Time(h.value, m.value))
  }

  function ParseAt(words: seq<string>): Option<Time> {
    if |words| == 2 && words[0] == "at" then ParseTime(words[1]) else None
  }

  function ParseWeekdays(words: seq<string>): Option<Kind> {
    var (days, rest) := TakeDays(words);
    match ParseAt(rest)
    case Some(time) => Some(Weekdays(days, time))
    case None => None
  }

  function ParseDaily(words: seq<string>): Option<Kind> {
    match ParseAt(words)
    case Some(time) => Some(Daily(time))
    case None => None
  }

  function ParseMonthly(words: seq<string>): Option<Kind> {
    match TakeOrdinals(words)
    case None => None
    case Some((ordinals, rest)) =>
      if |rest| >= 2 && rest[0] == "of" && rest[1] == "month" then
        match ParseAt(rest[2..])
        case Some(time) => Some(Monthly(ordinals, time))
        case None => None
      else None
  }

  /** `every` lines with a time of day. */
  function ParseLine(words: seq<string>): Option<Kind> {
    if |words| < 2 || words[0] != "every" then None
    else if DayToken(words[1]).Some? then ParseWeekdays(words[1..])
    else if words[1] == "day" then ParseDaily(words[2..])
    else if IsOrdinal(words[1]) then ParseMonthly(words[1..])
    else None
  }

  function ParseSchedule(text: string): Option<Kind> {
    ParseLine(Split(text, ' '))
  }

  // ----- Reading back what was written -----

  lemma LowerFixed(s: string)
    requires forall c :: c in s ==> !('A' <= c <= 'Z')
    ensures Lower(s) == s
  {
    assert forall i :: 0 <= i < |s| ==> s[i] in s;
  }

  /** The emitted time is read back, unless no clock shows it. */
  lemma TimeRoundTrip(h: nat, m: nat)
    ensures ParseTime(TimeText(h, m)) == if OnClock(h, m) then Some(Time(h, m)) else None
    ensures ' ' !in TimeText(h, m)
  {
    ParsePad2(h);
    ParsePad2(m);
    TimeParts(Pad2(h), Pad2(m));
  }

  lemma TimeParts(a: string, b: string)
    requires forall c :: c in a || c in b ==> IsDigit(c)
    ensures Split(a + [':'] + b, ':') == [a, b] && ' ' !in a + [':'] + b
  {
    SplitPair(a, ':', b);
  }

  /** A schedule whose time a clock shows. */
  function IfOnClock(h: nat, m: nat, k: Kind): Option<Kind> {
    if OnClock(h, m) then Some(k) else None
  }

  function Names(days: seq<Weekday>): (r: seq<string>)
    ensures |r| == |days|
  {
    seq(|days|, i requires 0 <= i < |days| => DayName(days[i]))
  }

  lemma DayNameToken(w: Weekday)
    ensures DayToken(DayName(w)) == Some([w])
    ensures ' ' !in DayName(w)
  {
    LowerFixed(DayName(w));
  }

  lemma FixedTokens()
    ensures DayToken("at").None? && DayToken("day").None?
    ensures DayToken("weekday") == Some([Monday, Tuesday, Wednesday, Thursday, Friday])
    ensures DayToken("weekend") == Some([Saturday, Sunday])
  {
    LowerFixed("at");
    LowerFixed("day");
    LowerFixed("weekday");
    LowerFixed("weekend");
  }

  lemma TakeDay(w: string, rest: seq<string>)
    requires DayToken(w).Some?
    ensures TakeDays([w] + rest) == (DayToken(w).value + TakeDays(rest).0, TakeDays(rest).1)
  {
    assert ([w] + rest)[1..] == rest;
  }

  lemma {:induction false} TakeNames(days: seq<Weekday>, time: string)
    ensures TakeDays(Names(days) + ["at", time]) == (days, ["at", time])
    decreases |days|
  {
    FixedTokens();
    if days == [] {
      assert Names(days) + ["at", time] == ["at", time];
    } else {
      var rest := Names(days[1..]) + ["at", time];
      DayNameToken(days[0]);
      assert Names(days) + ["at", time] == [DayName(days[0])] + rest;
      TakeNames(days[1..], time);
      TakeDay(DayName(days[0]), rest);
      assert [days[0]] + days[1..] == days;
    }
  }

  lemma NamesAreWords(days: seq<Weekday>)
    ensures forall w :: w in Names(days) ==> ' ' !in w
  {
    forall w | w in Names(days)
      ensures ' ' !in w
    {
      var i :| 0 <= i < |days| && Names(days)[i] == w;
      DayNameToken(days[i]);
    }
  }

  lemma NamesParse(days: seq<Weekday>, time: string)
    requires days != []
    ensures ParseLine(["every"] + Names(days) + ["at", time])
         == if ParseTime(time).Some? then Some(Weekdays(days, ParseTime(time).value)) else None
  {
    var words := ["every"] + Names(days) + ["at", time];
    assert words[1..] == Names(days) + ["at", time];
    assert words[1] == DayName(days[0]);
    DayNameToken(days[0]);
    TakeNames(days, time);
  }

  lemma NamesLine(days: seq<Weekday>, h: nat, m: nat)
    requires days != []
    ensures ParseSchedule(Join(["every"] + Names(days) + ["at", TimeText(h, m)]))
         == IfOnClock(h, m, Weekdays(days, Time(h, m)))
  {
    TimeRoundTrip(h, m);
    NamesAreWords(days);
    SplitJoin(["every"] + Names(days) + ["at", TimeText(h, m)]);
    NamesParse(days, TimeText(h, m));
  }

  lemma DailyLine(h: nat, m: nat)
    ensures ParseSchedule(Join(["every", "day", "at", TimeText(h, m)])) == IfOnClock(h, m, Daily(Time(h, m)))
  {
    TimeRoundTrip(h, m);
    FixedTokens();
    var words := ["every", "day", "at", TimeText(h, m)];
    SplitJoin(words);
    assert words[2..] == ["at", TimeText(h, m)];
  }

  lemma AliasSchedule(alias: string, days: seq<Weekday>, h: nat, m: nat)
    requires DayToken(alias) == Some(days) && ' ' !in alias
    ensures ParseSchedule(Join(["every", alias, "at", TimeText(h, m)]))
         == IfOnClock(h, m, Weekdays(days, Time(h, m)))
  {
    TimeRoundTrip(h, m);
    SplitJoin(["every", alias, "at", TimeText(h, m)]);
    AliasLine(alias, days, TimeText(h, m));
  }

  lemma AliasLine(alias: string, days: seq<Weekday>, time: string)
    requires DayToken(alias) == Some(days)
    ensures TakeDays(["every", alias, "at", time][1..]) == (days, ["at", time])
  {
    FixedTokens();
    var words := ["every", alias, "at", time][1..];
    assert words[1..] == ["at", time];
    assert TakeDays(["at", time]) == ([], ["at", time]);
    assert days + [] == days;
  }

  // ----- Day-of-week fields -----

  /** The days a list of single values names, in list order. */
  function ListDays(items: seq<string>): Option<seq<Weekday>> {
    if items == [] then Some([])
    else
      var first, rest := DowValue(items[0]), ListDays(items[1..]);
      if first.None? || rest.None? then None else Some([CronDay(first.value)] + rest.value)
  }

  lemma DigitName(c: char)
    ensures Lower([c]) == [LowerChar(c)]
    ensures DowName([c]).Some? <==> '0' <= c <= '7'
    ensures '0' <= c <= '7' ==> DowName([c]) == Some(DayName(CronDay(c as int - '0' as int)))
  {
    CronDays();
  }

  lemma WordName(s: string)
    requires |s| != 1
    ensures DowName(s) == match DayNamed(Lower(s))
                          case Some(w) => Some(DayName(w))
                          case None => None
  {
    assert |Lower(s)| == |s|;
  }

  lemma NamedDay(w: Weekday)
    ensures CronDay((WeekdayIndex(w) + 1) % 7) == w
  {
    CronDays();
  }

  lemma NamesAreLong(t: string)
    requires |t| == 1
    ensures DayNamed(t).None?
  {
  }

  /** The converter's table names, for every item, the day cron means by it, and knows no other item. */
  lemma TableIsCron(s: string)
    ensures DowName(s) == match DowValue(s)
                          case Some(v) => Some(DayName(CronDay(v)))
                          case None => None
  {
    if |s| == 1 {
      assert s == [s[0]];
      DigitName(s[0]);
      NamesAreLong(Lower(s));
    } else {
      WordName(s);
      match DayNamed(Lower(s))
      case Some(w) => NamedDay(w);
      case None =>
    }
  }

  lemma {:induction false} ItemsAreNames(items: seq<string>)
    ensures ParseDowItems(items).Some? <==> ListDays(items).Some?
    ensures ListDays(items).Some? ==>
              ParseDowItems(items).value == Names(ListDays(items).value) && |ListDays(items).value| == |items|
    decreases |items|
  {
    if items != [] {
      TableIsCron(items[0]);
      ItemsAreNames(items[1..]);
    }
  }

  lemma NamesHaveNoDash(s: string)
    requires DayNamed(s).Some?
    ensures '-' !in s
  {
  }

  lemma ValueHasNoDash(s: string)
    requires DowValue(s).Some?
    ensures '-' !in s
  {
    if |s| != 1 || !('0' <= s[0] <= '7') {
      NamesHaveNoDash(Lower(s));
      forall i | 0 <= i < |s|
        ensures s[i] != '-'
      {
        assert Lower(s)[i] in Lower(s) && Lower(s)[i] == LowerChar(s[i]);
      }
    }
  }

  function Members(days: seq<Weekday>): set<Weekday> {
    set d | d in days
  }

  lemma {:induction false} UnionOfValues(items: seq<string>)
    requires ListDays(items).Some?
    ensures Union(items) == Some(Members(ListDays(items).value))
    decreases |items|
  {
    assert Members([]) == {};
    if items != [] {
      UnionOfValues(items[1..]);
      ValueHasNoDash(items[0]);
      SplitWord(items[0], '-', []);
      var w, rest := CronDay(DowValue(items[0]).value), ListDays(items[1..]).value;
      assert Members([w] + rest) == {w} + Members(rest);
    }
  }

  lemma {:induction false} MembersSize(days: seq<Weekday>)
    ensures |Members(days)| <= |days|
    ensures |Members(days)| == |days| <==> KeyOrder.Distinct(days)
    decreases |days|
  {
    if days != [] {
      var rest := days[1..];
      MembersSize(rest);
      assert days == [days[0]] + rest;
      assert Members(days) == {days[0]} + Members(rest);
    } else {
      assert Members(days) == {};
    }
  }

  lemma SevenDays(days: seq<Weekday>)
    requires |days| == 7
    ensures Members(days) == ALL_DAYS <==> KeyOrder.Distinct(days)
  {
    MembersSize(days);
    assert |ALL_DAYS| == 7;
    forall w: Weekday
      ensures w in ALL_DAYS
    {
      assert w.Monday? || w.Tuesday? || w.Wednesday? || w.Thursday? || w.Friday? || w.Saturday? || w.Sunday?;
    }
    if |Members(days)| == 7 {
      SubsetFull(Members(days), ALL_DAYS);
    }
  }

  lemma SubsetFull(a: set<Weekday>, b: set<Weekday>)
    requires a <= b && |a| == |b|
    ensures a == b
  {
    assert b == a + (b - a);
    assert |b| == |a| + |b - a|;
  }

  const WORKDAYS: set<Weekday> := {Monday, Tuesday, Wednesday, Thursday, Friday}
  const WEEKEND: set<Weekday> := {Saturday, Sunday}

  lemma DigitValue(c: char)
    requires '0' <= c <= '7'
    ensures DowValue([c]) == Some(c as int - '0' as int)
  {
  }

  lemma UnionOne(item: string)
    ensures Union([item]) == DowItem(item)
  {
    assert [item][1..] == [];
    assert DowItem(item).Some? ==> DowItem(item).value + {} == DowItem(item).value;
  }

  /** A field of three characters: two digits around a dash. */
  lemma RangeField(a: char, b: char, x: nat, y: nat)
    requires '0' <= a <= '7' && '0' <= b <= '7' && x == a as int - '0' as int && y == b as int - '0' as int
    ensures CronDow([a] + ['-'] + [b]) == if x <= y then Some(ValueRange(x, y)) else None
    ensures Split([a] + ['-'] + [b], ',') == [[a] + ['-'] + [b]]
  {
    var s := [a] + ['-'] + [b];
    SplitWord(s, ',', []);
    SplitPair([a], '-', [b]);
    DigitValue(a);
    DigitValue(b);
    UnionOne(s);
  }

  lemma DowPair(x: string, y: string)
    requires DowValue(x).Some? && DowValue(y).Some?
    ensures Union([x, y]) == Some({CronDay(DowValue(x).value), CronDay(DowValue(y).value)})
  {
    ValueItem(x);
    ValueItem(y);
    var v, w := CronDay(DowValue(x).value), CronDay(DowValue(y).value);
    assert [x, y][1..] == [y];
    UnionOne(y);
    assert {v} + {w} == {v, w};
  }

  lemma ValueItem(s: string)
    requires DowValue(s).Some?
    ensures DowItem(s) == Some({CronDay(DowValue(s).value)})
  {
    ValueHasNoDash(s);
    SplitWord(s, '-', []);
  }

  /** Two digits around a comma. */
  lemma PairField(a: char, b: char, x: nat, y: nat)
    requires '0' <= a <= '7' && '0' <= b <= '7' && x == a as int - '0' as int && y == b as int - '0' as int
    ensures CronDow([a] + [','] + [b]) == Some({CronDay(x), CronDay(y)})
    ensures Split([a] + [','] + [b], ',') == [[a], [b]]
  {
    SplitPair([a], ',', [b]);
    DigitValue(a);
    DigitValue(b);
    DowPair([a], [b]);
  }

  lemma CronDays()
    ensures CronDay(0) == Sunday && CronDay(1) == Monday && CronDay(2) == Tuesday && CronDay(3) == Wednesday
    ensures CronDay(4) == Thursday && CronDay(5) == Friday && CronDay(6) == Saturday && CronDay(7) == Sunday
  {
  }

  lemma Ranges()
    ensures ValueRange(1, 5) == WORKDAYS && ValueRange(0, 6) == ALL_DAYS && ValueRange(6, 7) == WEEKEND
  {
    CronDays();
  }

  /** The ranges the converter knows by heart, read as cron reads them. */
  lemma KnownRanges()
    ensures CronDow("1-5") == Some(WORKDAYS) && CronDow("0-6") == Some(ALL_DAYS)
    ensures CronDow("6-7") == Some(WEEKEND) && CronDow("6-0").None?
    ensures forall s :: s in {"1-5", "0-6", "6-7", "6-0"} ==> |Split(s, ',')| == 1
  {
    Ranges();
    assert "1-5" == ['1'] + ['-'] + ['5'] && "0-6" == ['0'] + ['-'] + ['6'];
    assert "6-7" == ['6'] + ['-'] + ['7'] && "6-0" == ['6'] + ['-'] + ['0'];
    RangeField('1', '5', 1, 5);
    RangeField('0', '6', 0, 6);
    RangeField('6', '7', 6, 7);
    RangeField('6', '0', 6, 0);
  }

  /** And the pairs. */
  lemma KnownPairs()
    ensures CronDow("6,0") == Some(WEEKEND) && CronDow("0,6") == Some(WEEKEND) && CronDow("0,7") == Some({Sunday})
    ensures forall s :: s in {"6,0", "0,6", "0,7"} ==> |Split(s, ',')| == 2
  {
    CronDays();
    assert "6,0" == ['6'] + [','] + ['0'] && "0,6" == ['0'] + [','] + ['6'] && "0,7" == ['0'] + [','] + ['7'];
    PairField('6', '0', 6, 0);
    PairField('0', '6', 0, 6);
    PairField('0', '7', 0, 7);
    assert {Saturday, Sunday} == WEEKEND == {Sunday, Saturday} && {Sunday, Sunday} == {Sunday};
  }

  predicate KnownField(dow: string) {
    dow in {"1-5", "0-6", "6-0", "6-7", "6,0", "0,6", "0,7"}
  }

  /** The days the emitted line fires on. */
  function DslDays(dow: string): set<Weekday>
    requires ParseDow(dow).Some?
  {
    if dow == "1-5" then WORKDAYS
    else if dow == "0-6" || dow == "6-0" then ALL_DAYS
    else if KnownField(dow) then WEEKEND
    else
      ItemsAreNames(Split(dow, ','));
      var days := ListDays(Split(dow, ',')).value;
      if |days| == 7 then ALL_DAYS else Members(days)
  }

  /** The schedule fires at this time on these days. */
  ghost predicate FiresOn(k: Kind, time: Time, days: set<Weekday>) {
    forall t :: Matches(k, t) <==> t.nanos == TimeNanos(time) && WeekdayOf(t.date) in days
  }

  lemma DailyFires(time: Time)
    requires ValidTime(time)
    ensures FiresOn(Daily(time), time, ALL_DAYS)
  {
  }

  lemma WeekdaysFire(days: seq<Weekday>, time: Time)
    requires ValidTime(time)
    ensures FiresOn(Weekdays(days, time), time, Members(days))
  {
  }

  lemma ListIsNotAlias(days: seq<Weekday>)
    ensures Names(days) != ["weekday"] && Names(days) != ["weekend"]
  {
    if |days| == 1 {
      assert Names(days)[0] == DayName(days[0]);
    }
  }

  /** The text parses exactly when a clock shows its time, and then fires on these days. */
  ghost predicate ReadsAs(text: string, h: nat, m: nat, days: set<Weekday>) {
    var k := ParseSchedule(text);
    (k.Some? <==> OnClock(h, m)) && (k.Some? ==> FiresOn(k.value, Time(h, m), days))
  }

  lemma AliasFires(alias: string, days: seq<Weekday>, h: nat, m: nat)
    requires DayToken(alias) == Some(days) && ' ' !in alias
    ensures ReadsAs(Join(["every", alias, "at", TimeText(h, m)]), h, m, Members(days))
  {
    AliasSchedule(alias, days, h, m);
    if OnClock(h, m) {
      WeekdaysFire(days, Time(h, m));
    }
  }

  lemma AliasDays()
    ensures Members([Monday, Tuesday, Wednesday, Thursday, Friday]) == WORKDAYS
    ensures Members([Saturday, Sunday]) == WEEKEND
  {
  }

  lemma WeekdayAlias(h: nat, m: nat)
    ensures ReadsAs(Join(["every", "weekday", "at", TimeText(h, m)]), h, m, WORKDAYS)
  {
    FixedTokens();
    AliasDays();
    AliasFires("weekday", [Monday, Tuesday, Wednesday, Thursday, Friday], h, m);
  }

  lemma WeekendAlias(h: nat, m: nat)
    ensures ReadsAs(Join(["every", "weekend", "at", TimeText(h, m)]), h, m, WEEKEND)
  {
    FixedTokens();
    AliasDays();
    AliasFires("weekend", [Saturday, Sunday], h, m);
  }

  lemma EveryDay(h: nat, m: nat)
    ensures ReadsAs(Join(["every", "day", "at", TimeText(h, m)]), h, m, ALL_DAYS)
  {
    DailyLine(h, m);
    if OnClock(h, m) {
      DailyFires(Time(h, m));
    }
  }

  /** What the fixed spellings are read as, and the days their lines fire on. */
  lemma KnownReading(dow: string)
    requires KnownField(dow)
    ensures dow == "1-5" ==> ParseDow(dow) == Some(["weekday"]) && DslDays(dow) == WORKDAYS
    ensures dow in {"0-6", "6-0"} ==>
              ParseDow(dow).Some? && |ParseDow(dow).value| == 7 && DslDays(dow) == ALL_DAYS
    ensures dow in {"6-7", "6,0", "0,6", "0,7"} ==> ParseDow(dow) == Some(["weekend"]) && DslDays(dow) == WEEKEND
  {
  }

  lemma ConvertedKnown(dow: string, h: nat, m: nat)
    requires KnownField(dow)
    ensures ReadsAs(Join(WeekdayLine(ParseDow(dow).value, TimeText(h, m))), h, m, DslDays(dow))
  {
    KnownReading(dow);
    WeekdayAlias(h, m);
    WeekendAlias(h, m);
    EveryDay(h, m);
  }

  lemma ConvertedList(dow: string, h: nat, m: nat)
    requires !KnownField(dow) && ParseDow(dow).Some?
    ensures ReadsAs(Join(WeekdayLine(ParseDow(dow).value, TimeText(h, m))), h, m, DslDays(dow))
  {
    var items := Split(dow, ',');
    ItemsAreNames(items);
    var days := ListDays(items).value;
    ListIsNotAlias(days);
    if |days| == 7 {
      EveryDay(h, m);
    } else {
      NamesLine(days, h, m);
      if OnClock(h, m) {
        WeekdaysFire(days, Time(h, m));
      }
    }
  }

  /** A field whose days survive: not `0,7` or `6-0`, and seven items only without a repeat. */
  predicate Faithful(dow: string) {
    && dow != "0,7" && dow != "6-0"
    && (|Split(dow, ',')| == 7 && ListDays(Split(dow, ',')).Some? ==>
          KeyOrder.Distinct(ListDays(Split(dow, ',')).value))
  }

  lemma FaithfulKnown(dow: string)
    requires KnownField(dow)
    ensures DslDays(dow) == CronSet(dow) <==> Faithful(dow)
  {
    KnownReading(dow);
    KnownRanges();
    KnownPairs();
    assert Saturday in WEEKEND && Monday in ALL_DAYS;
  }

  lemma FaithfulList(dow: string)
    requires dow != "*" && !KnownField(dow) && ParseDow(dow).Some?
    ensures DslDays(dow) == CronSet(dow) <==> Faithful(dow)
  {
    var items := Split(dow, ',');
    ItemsAreNames(items);
    UnionOfValues(items);
    if |items| == 7 {
      SevenDays(ListDays(items).value);
    }
  }

  /** Some date falls on each weekday. */
  lemma DateFrom(start: Date, w: Weekday) returns (d: Date)
    requires ValidDate(start)
    ensures ValidDate(d) && WeekdayOf(d) == w
  {
    var n := WeekdayWithinAWeek(DayNumber(start) - 1, w);
    d := AddDays(start, n);
    AddDaysNumber(start, n);
  }

  lemma DateOn(w: Weekday) returns (d: Date)
    ensures ValidDate(d) && WeekdayOf(d) == w
  {
    d := DateFrom(Date(2023, 1, 1), w);
  }

  /** The line and the schedule match the same instants. */
  ghost predicate SameInstants(minute: string, hour: string, dom: string, month: string, dow: string, k: Kind) {
    forall t :: ValidInstant(t) ==> (CronMatches(minute, hour, dom, month, dow, t) <==> Matches(k, t))
  }

  lemma SameInstantsByDays(minute: string, hour: string, time: Time, dow: string, k: Kind, days: set<Weekday>)
    requires CronTime(minute, hour) == Some(time) && FiresOn(k, time, days)
    ensures SameInstants(minute, hour, "*", "*", dow, k) <==> days == CronSet(dow)
  {
    if SameInstants(minute, hour, "*", "*", dow, k) {
      forall w: Weekday
        ensures w in days <==> w in CronSet(dow)
      {
        var d := DateOn(w);
        var t := Instant(d, TimeNanos(time));
        assert CronMatches(minute, hour, "*", "*", dow, t) <==> Matches(k, t);
      }
    }
  }

  // ----- Signs -----

  predicate Signed(s: string) {
    s != [] && s[0] == '+'
  }

  /** The converter reads what cron reads, and a sign besides. */
  lemma SignedNumber(s: string, n: nat)
    requires ParseU32(s) == Some(n)
    ensures CronNumber(s) == if Signed(s) then None else Some(n)
  {
    if Signed(s) {
      assert s[0] in s;
    }
  }

  lemma SignedTime(minute: string, hour: string, m: nat, h: nat)
    requires ParseU32(minute) == Some(m) && ParseU32(hour) == Some(h) && OnClock(h, m)
    ensures CronTime(minute, hour) == if Signed(minute) || Signed(hour) then None else Some(Time(h, m))
  {
    SignedNumber(minute, m);
    SignedNumber(hour, h);
  }

  predicate NoSigns(items: seq<string>) {
    forall i :: 0 <= i < |items| ==> !Signed(items[i])
  }

  ghost predicate FiresSometime(k: Kind) {
    exists t :: ValidInstant(t) && Matches(k, t)
  }

  lemma FiresOnSome(k: Kind, time: Time, days: set<Weekday>, w: Weekday)
    requires ValidTime(time) && FiresOn(k, time, days) && w in days
    ensures FiresSometime(k)
  {
    var d := DateOn(w);
    assert Matches(k, Instant(d, TimeNanos(time)));
  }

  /** A line cron rejects has no instants, so no schedule that ever fires has the same. */
  lemma RejectedDiffers(minute: string, hour: string, dom: string, month: string, dow: string, k: Kind)
    requires CronTime(minute, hour).None? || forall d :: !CronDom(dom, d)
    requires FiresSometime(k)
    ensures !SameInstants(minute, hour, dom, month, dow, k)
  {
    var t :| ValidInstant(t) && Matches(k, t);
    assert !CronMatches(minute, hour, dom, month, dow, t);
  }

  // ----- Day-of-month fields -----

  function OrdinalText(n: nat): string {
    Digits(n) + OrdinalSuffix(n)
  }

  lemma SuffixedOrdinal(digits: string, suffix: string)
    requires digits != [] && AllDigits(digits) && suffix in {"st", "nd", "rd", "th"}
    ensures IsOrdinal(digits + suffix) && (digits + suffix)[..|digits + suffix| - 2] == digits
    ensures ' ' !in digits + suffix && IsDigit((digits + suffix)[0])
  {
    var w := digits + suffix;
    assert w[|w| - 2] == suffix[0] && w[|w| - 1] == suffix[1] && w[..|w| - 2] == digits;
    assert w[0] == digits[0] && digits[0] in digits;
  }

  lemma OrdinalRoundTrip(n: nat)
    requires 1 <= n <= 31
    ensures IsOrdinal(OrdinalText(n)) && ParseOrdinal(OrdinalText(n)) == Some(Day(n))
    ensures ' ' !in OrdinalText(n) && IsDigit(OrdinalText(n)[0])
  {
    ParsePad2(n);
    SuffixedOrdinal(Digits(n), OrdinalSuffix(n));
  }

  lemma DigitFirstIsNoDay(w: string)
    requires w != [] && IsDigit(w[0])
    ensures DayToken(w).None? && w != "day" && w != "last"
  {
    assert Lower(w)[0] == w[0];
  }

  function OrdinalTexts(ns: seq<nat>): (r: seq<string>)
    ensures |r| == |ns|
  {
    seq(|ns|, i requires 0 <= i < |ns| => OrdinalText(ns[i]))
  }

  function Days(ns: seq<nat>): seq<Ordinal> {
    seq(|ns|, i requires 0 <= i < |ns| => Day(ns[i]))
  }

  predicate InRange(ns: seq<nat>) {
    forall i :: 0 <= i < |ns| ==> 1 <= ns[i] <= 31
  }

  lemma TakeOrdinal(w: string, rest: seq<string>)
    requires IsOrdinal(w) && ParseOrdinal(w).Some? && TakeOrdinals(rest).Some?
    ensures TakeOrdinals([w] + rest)
         == Some(([ParseOrdinal(w).value] + TakeOrdinals(rest).value.0, TakeOrdinals(rest).value.1))
  {
    assert ([w] + rest)[1..] == rest;
  }

  lemma NoMoreOrdinals(tail: seq<string>)
    requires tail != [] && tail[0] == "of"
    ensures TakeOrdinals(tail) == Some(([], tail))
  {
    assert !IsOrdinal("of");
  }

  lemma OrdinalTextsCons(ns: seq<nat>)
    requires ns != []
    ensures OrdinalTexts(ns) == [OrdinalText(ns[0])] + OrdinalTexts(ns[1..])
    ensures Days(ns) == [Day(ns[0])] + Days(ns[1..])
  {
  }

  lemma {:induction false} TakeOrdinalTexts(ns: seq<nat>, tail: seq<string>)
    requires InRange(ns) && tail != [] && tail[0] == "of"
    ensures TakeOrdinals(OrdinalTexts(ns) + tail) == Some((Days(ns), tail))
    decreases |ns|
  {
    if ns == [] {
      assert OrdinalTexts(ns) + tail == tail && Days(ns) == [];
      NoMoreOrdinals(tail);
    } else {
      var rest := OrdinalTexts(ns[1..]) + tail;
      OrdinalTextsCons(ns);
      assert ([OrdinalText(ns[0])] + OrdinalTexts(ns[1..])) + tail == [OrdinalText(ns[0])] + rest;
      OrdinalRoundTrip(ns[0]);
      TakeOrdinalTexts(ns[1..], tail);
      TakeOrdinal(OrdinalText(ns[0]), rest);
    }
  }

  lemma MonthlyTail(words: seq<string>, parsed: seq<Ordinal>, time: string)
    requires TakeOrdinals(words) == Some((parsed, ["of", "month", "at", time]))
    ensures ParseMonthly(words)
         == if ParseTime(time).Some? then Some(Monthly(parsed, ParseTime(time).value)) else None
  {
    assert ["of", "month", "at", time][2..] == ["at", time];
  }

  lemma MonthlyWords(ordinals: seq<string>, tail: seq<string>)
    requires ordinals != []
    requires DayToken(ordinals[0]).None? && ordinals[0] != "day" && IsOrdinal(ordinals[0])
    ensures ParseLine(["every"] + ordinals + tail) == ParseMonthly(ordinals + tail)
  {
    var words := ["every"] + ordinals + tail;
    assert words[1] == ordinals[0] && words[1..] == ordinals + tail;
  }

  /** A monthly line parses once its ordinals and its time do. */
  lemma MonthlyParse(ordinals: seq<string>, parsed: seq<Ordinal>, h: nat, m: nat)
    requires ordinals != [] && forall w :: w in ordinals ==> ' ' !in w
    requires DayToken(ordinals[0]).None? && ordinals[0] != "day" && IsOrdinal(ordinals[0])
    requires var tail := ["of", "month", "at", TimeText(h, m)];
             TakeOrdinals(ordinals + tail) == Some((parsed, tail))
    ensures ParseSchedule(Join(MonthlyLine(ordinals, TimeText(h, m)))) == IfOnClock(h, m, Monthly(parsed, Time(h, m)))
  {
    var time := TimeText(h, m);
    TimeRoundTrip(h, m);
    MonthlyText(ordinals, time);
    MonthlyWords(ordinals, ["of", "month", "at", time]);
    MonthlyTail(ordinals + ["of", "month", "at", time], parsed, time);
  }

  lemma MonthlyText(ordinals: seq<string>, time: string)
    requires ' ' !in time && forall w :: w in ordinals ==> ' ' !in w
    ensures ParseSchedule(Join(MonthlyLine(ordinals, time))) == ParseLine(MonthlyLine(ordinals, time))
  {
    forall w | w in MonthlyLine(ordinals, time)
      ensures ' ' !in w
    {
      assert w in ["every"] || w in ordinals || w in ["of", "month", "at", time];
    }
    SplitJoin(MonthlyLine(ordinals, time));
  }

  lemma OrdinalLine(ns: seq<nat>, h: nat, m: nat)
    requires InRange(ns) && ns != []
    ensures ParseSchedule(Join(MonthlyLine(OrdinalTexts(ns), TimeText(h, m))))
         == IfOnClock(h, m, Monthly(Days(ns), Time(h, m)))
  {
    forall w | w in OrdinalTexts(ns)
      ensures ' ' !in w
    {
      var i :| 0 <= i < |ns| && OrdinalTexts(ns)[i] == w;
      OrdinalRoundTrip(ns[i]);
    }
    OrdinalRoundTrip(ns[0]);
    DigitFirstIsNoDay(OrdinalText(ns[0]));
    TakeOrdinalTexts(ns, ["of", "month", "at", TimeText(h, m)]);
    MonthlyParse(OrdinalTexts(ns), Days(ns), h, m);
  }

  lemma LastLine(h: nat, m: nat)
    ensures ParseSchedule(Join(MonthlyLine(["last"], TimeText(h, m)))) == IfOnClock(h, m, Monthly([Last], Time(h, m)))
  {
    var tail := ["of", "month", "at", TimeText(h, m)];
    LowerFixed("last");
    NoMoreOrdinals(tail);
    TakeOrdinal("last", tail);
    assert [Last] + [] == [Last];
    MonthlyParse(["last"], [Last], h, m);
  }

  function DomDays(items: seq<string>): Option<seq<nat>> {
    if items == [] then Some([])
    else
      var n, rest := ParseU32(items[0]), DomDays(items[1..]);
      if n.None? || n.value == 0 || n.value > 31 || rest.None? then None else Some([n.value] + rest.value)
  }

  lemma {:induction false} DomItems(items: seq<string>)
    ensures ParseDomItems(items).Some? <==> DomDays(items).Some?
    ensures DomDays(items).Some? ==>
              && |DomDays(items).value| == |items| && InRange(DomDays(items).value)
              && ParseDomItems(items).value == OrdinalTexts(DomDays(items).value)
              && forall i :: 0 <= i < |items| ==> ParseU32(items[i]) == Some(DomDays(items).value[i])
    decreases |items|
  {
    if items != [] {
      DomItems(items[1..]);
      if DomDays(items).Some? {
        var ns := DomDays(items).value;
        OrdinalTextsCons(ns);
        assert forall i :: 0 < i < |items| ==> items[i] == items[1..][i - 1] && ns[i] == ns[1..][i - 1];
      }
    }
  }

  /** Read as cron reads them, the items name the days the converter took from them, unless one is signed. */
  lemma ListedNumbers(items: seq<string>, ns: seq<nat>, day: nat)
    requires |items| == |ns| && forall i :: 0 <= i < |items| ==> ParseU32(items[i]) == Some(ns[i])
    ensures AllNumbers(items) <==> NoSigns(items)
    ensures NoSigns(items) ==> (Listed(items, day) <==> day in ns)
  {
    forall i | 0 <= i < |items|
      ensures CronNumber(items[i]) == if Signed(items[i]) then None else Some(ns[i])
    {
      SignedNumber(items[i], ns[i]);
    }
  }

  lemma ListedDates(ns: seq<nat>, d: Date)
    requires ValidDate(d) && InRange(ns)
    ensures MonthlyDate(Days(ns), d) <==> d.day in ns
  {
    forall i | 0 <= i < |ns|
      ensures DayIn(Days(ns)[i], DaysIn(d.year, d.month)) == Some(d.day) <==> ns[i] == d.day
    {
    }
  }

  /** With `*` in the day-of-week field only the day of the month decides. */
  lemma AnyWeekday(minute: string, hour: string, dom: string, t: Instant)
    ensures CronMatches(minute, hour, dom, "*", "*", t)
       <==> CronTime(minute, hour).Some? && t.nanos == TimeNanos(CronTime(minute, hour).value) && CronDom(dom, t.date)
  {
    assert WeekdayOf(t.date) in ALL_DAYS;
  }

  lemma SameInstantsByDates(minute: string, hour: string, time: Time, dom: string, ordinals: seq<Ordinal>)
    requires CronTime(minute, hour) == Some(time)
    requires forall d :: ValidDate(d) ==> (CronDom(dom, d) <==> MonthlyDate(ordinals, d))
    ensures SameInstants(minute, hour, dom, "*", "*", Monthly(ordinals, time))
  {
    forall t | ValidInstant(t)
      ensures CronMatches(minute, hour, dom, "*", "*", t) <==> Matches(Monthly(ordinals, time), t)
    {
      AnyWeekday(minute, hour, dom, t);
      assert CronDom(dom, t.date) <==> MonthlyDate(ordinals, t.date);
    }
  }

  lemma LastDates(dom: string, d: Date)
    requires dom != "*" && Lower(dom) == "l" && ValidDate(d)
    ensures CronDom(dom, d) <==> MonthlyDate([Last], d)
  {
    assert DayIn([Last][0], DaysIn(d.year, d.month)) == Some(DaysIn(d.year, d.month));
  }

  /** The ordinals a day-of-month field is converted to. */
  function DomOrdinals(dom: string): seq<Ordinal>
    requires ParseDom(dom).Some?
  {
    if Lower(dom) == "l" then [Last]
    else
      DomItems(Split(dom, ','));
      Days(DomDays(Split(dom, ',')).value)
  }

  lemma ConvertedDom(dom: string, h: nat, m: nat)
    requires ParseDom(dom).Some?
    ensures ParseSchedule(Join(MonthlyLine(ParseDom(dom).value, TimeText(h, m))))
         == IfOnClock(h, m, Monthly(DomOrdinals(dom), Time(h, m)))
  {
    if Lower(dom) == "l" {
      LastLine(h, m);
    } else {
      DomItems(Split(dom, ','));
      OrdinalLine(DomDays(Split(dom, ',')).value, h, m);
    }
  }

  lemma LastIsUnsigned(dom: string)
    requires Lower(dom) == "l"
    ensures NoSigns(Split(dom, ','))
  {
    assert |dom| == 1 && Lower(dom)[0] == LowerChar(dom[0]);
    assert dom == [dom[0]];
    SplitWord(dom, ',', []);
  }

  /** The dates a field names are those it is converted to, unless an item is signed: then cron rejects it. */
  lemma DomDates(dom: string, d: Date)
    requires dom != "*" && ParseDom(dom).Some? && ValidDate(d)
    ensures CronDom(dom, d) <==> NoSigns(Split(dom, ',')) && MonthlyDate(DomOrdinals(dom), d)
  {
    if Lower(dom) == "l" {
      LastIsUnsigned(dom);
      LastDates(dom, d);
    } else {
      var items := Split(dom, ',');
      DomItems(items);
      ListedNumbers(items, DomDays(items).value, d.day);
      ListedDates(DomDays(items).value, d);
    }
  }

  lemma RejectedDom(dom: string)
    requires dom != "*" && ParseDom(dom).Some? && !NoSigns(Split(dom, ','))
    ensures forall d :: !CronDom(dom, d)
  {
    if Lower(dom) == "l" {
      LastIsUnsigned(dom);
    }
    DomItems(Split(dom, ','));
    ListedNumbers(Split(dom, ','), DomDays(Split(dom, ',')).value, 0);
  }

  /** Every converted field names some day of January. */
  lemma MonthlyFires(dom: string, time: Time)
    requires ParseDom(dom).Some? && ValidTime(time)
    ensures FiresSometime(Monthly(DomOrdinals(dom), time))
  {
    var day := 31;
    if Lower(dom) != "l" {
      DomItems(Split(dom, ','));
      day := DomDays(Split(dom, ',')).value[0];
      ListedDates(DomDays(Split(dom, ',')).value, Date(2023, 1, day));
    } else {
      assert DayIn([Last][0], DaysIn(2023, 1)) == Some(31);
    }
    assert Matches(Monthly(DomOrdinals(dom), time), Instant(Date(2023, 1, day), TimeNanos(time)));
  }

  lemma ConvertedDates(minute: string, hour: string, m: nat, h: nat, dom: string)
    requires ParseU32(minute) == Some(m) && ParseU32(hour) == Some(h) && OnClock(h, m)
    requires dom != "*" && ParseDom(dom).Some?
    ensures SameInstants(minute, hour, dom, "*", "*", Monthly(DomOrdinals(dom), Time(h, m)))
       <==> !Signed(minute) && !Signed(hour) && NoSigns(Split(dom, ','))
  {
    var k := Monthly(DomOrdinals(dom), Time(h, m));
    SignedTime(minute, hour, m, h);
    MonthlyFires(dom, Time(h, m));
    if Signed(minute) || Signed(hour) {
      RejectedDiffers(minute, hour, dom, "*", "*", k);
    } else if !NoSigns(Split(dom, ',')) {
      RejectedDom(dom);
      RejectedDiffers(minute, hour, dom, "*", "*", k);
    } else {
      forall d | ValidDate(d) ensures CronDom(dom, d) <==> MonthlyDate(DomOrdinals(dom), d) {
        DomDates(dom, d);
      }
      SameInstantsByDates(minute, hour, Time(h, m), dom, DomOrdinals(dom));
    }
  }

  // ----- The conversion -----

  lemma SomeDay(dow: string)
    requires dow != "*" && ParseDow(dow).Some?
    ensures DslDays(dow) != {}
  {
    if KnownField(dow) {
      KnownReading(dow);
      assert Monday in WORKDAYS && Monday in ALL_DAYS && Sunday in WEEKEND;
    } else {
      ItemsAreNames(Split(dow, ','));
      var days := ListDays(Split(dow, ',')).value;
      assert days[0] in days && days[0] in Members(days) && Monday in ALL_DAYS;
    }
  }

  lemma ConvertedWeekdays(dow: string, h: nat, m: nat)
    requires dow != "*" && ParseDow(dow).Some?
    ensures ReadsAs(Join(WeekdayLine(ParseDow(dow).value, TimeText(h, m))), h, m, DslDays(dow))
    ensures DslDays(dow) == CronSet(dow) <==> Faithful(dow)
  {
    if KnownField(dow) {
      ConvertedKnown(dow, h, m);
      FaithfulKnown(dow);
    } else {
      ConvertedList(dow, h, m);
      FaithfulList(dow);
    }
  }

  /** A schedule on these days has the line's instants exactly when no field is signed and the days are the line's. */
  lemma DaysExact(minute: string, hour: string, m: nat, h: nat, dow: string, k: Kind, days: set<Weekday>)
    requires ParseU32(minute) == Some(m) && ParseU32(hour) == Some(h) && OnClock(h, m)
    requires FiresOn(k, Time(h, m), days) && days != {}
    ensures SameInstants(minute, hour, "*", "*", dow, k)
       <==> !Signed(minute) && !Signed(hour) && days == CronSet(dow)
  {
    SignedTime(minute, hour, m, h);
    if Signed(minute) || Signed(hour) {
      var w :| w in days;
      FiresOnSome(k, Time(h, m), days, w);
      RejectedDiffers(minute, hour, "*", "*", dow, k);
    } else {
      SameInstantsByDays(minute, hour, Time(h, m), dow, k, days);
    }
  }

  /** A line whose instants survive: no number carries a sign, and the day-of-week field is faithful. */
  predicate FaithfulLine(minute: string, hour: string, dom: string, dow: string) {
    !Signed(minute) && !Signed(hour) && NoSigns(Split(dom, ',')) && Faithful(dow)
  }

  lemma StarIsFaithful()
    ensures Faithful("*") && NoSigns(Split("*", ','))
  {
    SplitWord("*", ',', []);
  }

  /** What a converted line comes to: it parses exactly on the clock, and then survives exactly if it is faithful. */
  ghost predicate ExactlyFaithful(
      minute: string, hour: string, m: nat, h: nat, dom: string, dow: string, text: string) {
    var k := ParseSchedule(text);
    && (k.Some? <==> OnClock(h, m))
    && (k.Some? ==> (SameInstants(minute, hour, dom, "*", dow, k.value) <==> FaithfulLine(minute, hour, dom, dow)))
  }

  lemma MonthlyConverted(minute: string, hour: string, m: nat, h: nat, dom: string)
    requires ParseU32(minute) == Some(m) && ParseU32(hour) == Some(h) && dom != "*" && ParseDom(dom).Some?
    ensures ExactlyFaithful(minute, hour, m, h, dom, "*", Join(MonthlyLine(ParseDom(dom).value, TimeText(h, m))))
  {
    StarIsFaithful();
    ConvertedDom(dom, h, m);
    if OnClock(h, m) {
      ConvertedDates(minute, hour, m, h, dom);
    }
  }

  lemma WeeklyConverted(minute: string, hour: string, m: nat, h: nat, dow: string, text: string, days: set<Weekday>)
    requires ParseU32(minute) == Some(m) && ParseU32(hour) == Some(h)
    requires ReadsAs(text, h, m, days) && days != {} && (days == CronSet(dow) <==> Faithful(dow))
    ensures ExactlyFaithful(minute, hour, m, h, "*", dow, text)
  {
    StarIsFaithful();
    if OnClock(h, m) {
      DaysExact(minute, hour, m, h, dow, ParseSchedule(text).value, days);
    }
  }

  /** A conversion is free of warnings exactly when every month and at most one day field are meant. */
  lemma WarnsExactly(minute: string, hour: string, dom: string, month: string, dow: string)
    requires ConvertFixed(minute, hour, dom, month, dow).Some?
    ensures ConvertFixed(minute, hour, dom, month, dow).value.warnings
         == (if month == "*" then 0 else 1) + (if dom == "*" || dow == "*" then 0 else 1)
  {
  }

  /** A day-of-week field that converts: a fixed spelling, or a list of days cron knows. */
  predicate KnownDow(dow: string) {
    KnownField(dow) || forall item :: item in Split(dow, ',') ==> DowValue(item).Some?
  }

  predicate IsDayNumber(s: string) {
    ParseU32(s).Some? && 1 <= ParseU32(s).value <= 31
  }

  /** A day-of-month field that converts: `L`, or a list of days of the month. */
  predicate KnownDom(dom: string) {
    dom == "l" || dom == "L" || forall item :: item in Split(dom, ',') ==> IsDayNumber(item)
  }

  lemma {:induction false} DowItemsKnown(items: seq<string>)
    ensures ParseDowItems(items).Some? <==> forall item :: item in items ==> DowValue(item).Some?
    decreases |items|
  {
    if items != [] {
      TableIsCron(items[0]);
      DowItemsKnown(items[1..]);
      assert forall item :: item in items <==> item == items[0] || item in items[1..];
    }
  }

  lemma {:induction false} DomItemsKnown(items: seq<string>)
    ensures ParseDomItems(items).Some? <==> forall item :: item in items ==> IsDayNumber(item)
    decreases |items|
  {
    if items != [] {
      DomItemsKnown(items[1..]);
      assert items[0] in items;
      assert ParseDomItems(items).Some? <==> IsDayNumber(items[0]) && ParseDomItems(items[1..]).Some?;
      assert forall item :: item in items <==> item == items[0] || item in items[1..];
    }
  }

  lemma DowKnown(dow: string)
    ensures ParseDow(dow).Some? <==> KnownDow(dow)
  {
    DowItemsKnown(Split(dow, ','));
  }

  lemma LowerL(s: string)
    ensures Lower(s) == "l" <==> s == "l" || s == "L"
  {
    if Lower(s) == "l" {
      assert s == [s[0]] && LowerChar(s[0]) == Lower(s)[0];
    }
  }

  lemma DomKnown(dom: string)
    ensures ParseDom(dom).Some? <==> KnownDom(dom)
  {
    DomItemsKnown(Split(dom, ','));
    LowerL(dom);
  }

  /**
   A fixed-time line converts exactly when its time is two numbers and its day fields
   are known; where both are restricted only the day of the week is looked at.
   */
  lemma ConvertsExactly(minute: string, hour: string, dom: string, month: string, dow: string)
    ensures ConvertFixed(minute, hour, dom, month, dow).Some? <==>
              && ParseU32(minute).Some? && ParseU32(hour).Some?
              && (dow == "*" || KnownDow(dow)) && (dow != "*" || dom == "*" || KnownDom(dom))
  {
    DowKnown(dow);
    DomKnown(dom);
  }

  /** A line with warnings converts to the schedule of the line without the fields they are about. */
  lemma WarnedFieldsDropped(minute: string, hour: string, dom: string, month: string, dow: string)
    requires ConvertFixed(minute, hour, dom, month, dow).Some?
    ensures ConvertFixed(minute, hour, if dow == "*" then dom else "*", "*", dow)
         == Some(Conversion(ConvertFixed(minute, hour, dom, month, dow).value.schedule, 0))
  {
  }

  /** The instants survive, all months among them. */
  ghost predicate Survives(minute: string, hour: string, dom: string, month: string, dow: string, text: string) {
    var k := ParseSchedule(text);
    k.Some? && SameInstants(minute, hour, dom, month, dow, k.value)
  }

  /**
   A fixed-time line, whatever its month field, that converts without a warning: the
   emitted text parses exactly when a clock shows the time, and it then fires at the
   instants the cron line names exactly when the line is faithful.
   */
  lemma ConversionExact(minute: string, hour: string, dom: string, month: string, dow: string, m: nat, h: nat)
    requires ParseU32(minute) == Some(m) && ParseU32(hour) == Some(h)
    requires ConvertFixed(minute, hour, dom, month, dow).Some?
    requires ConvertFixed(minute, hour, dom, month, dow).value.warnings == 0
    ensures var text := ConvertFixed(minute, hour, dom, month, dow).value.schedule;
            && (ParseSchedule(text).Some? <==> h <= 23 && m <= 59)
            && (Survives(minute, hour, dom, month, dow, text)
                <==> h <= 23 && m <= 59 && FaithfulLine(minute, hour, dom, dow))
  {
    WarnsExactly(minute, hour, dom, month, dow);
    if dom != "*" {
      MonthlyConverted(minute, hour, m, h, dom);
    } else if dow == "*" {
      StarIsFaithful();
      EveryDay(h, m);
      assert Monday in ALL_DAYS;
      WeeklyConverted(minute, hour, m, h, dow, Join(["every", "day", "at", TimeText(h, m)]), ALL_DAYS);
    } else {
      ConvertedWeekdays(dow, h, m);
      SomeDay(dow);
      WeeklyConverted(minute, hour, m, h, dow, Join(WeekdayLine(ParseDow(dow).value, TimeText(h, m))), DslDays(dow));
    }
  }

  lemma EveryDayText(time: string)
    ensures Join(["every", "day", "at", time]) == "every day at " + time
  {
    assert ["every", "day", "at", time][1..] == ["day", "at", time];
    assert ["day", "at", time][1..] == ["at", time] && ["at", time][1..] == [time];
    assert Join(["at", time]) == "at " + time;
    assert Join(["day", "at", time]) == "day at " + time;
  }

  lemma TwentyFive()
    ensures ParseU32("25") == Some(25) && Digits(25) == "25"
  {
    assert "25"[..1] == "2" && "2"[..0] == "";
    assert Value("2") == 2;
  }

  lemma TwentyFiveHours()
    ensures TimeText(25, 0) == "25:00"
  {
    TwentyFive();
  }

  lemma DailyText(minute: string, hour: string, m: nat, h: nat)
    requires ParseU32(minute) == Some(m) && ParseU32(hour) == Some(h)
    ensures ConvertFixed(minute, hour, "*", "*", "*") == Some(Conversion("every day at " + TimeText(h, m), 0))
    ensures ParseSchedule("every day at " + TimeText(h, m)) == IfOnClock(h, m, Daily(Time(h, m)))
  {
    EveryDayText(TimeText(h, m));
    DailyLine(h, m);
  }

  /** `0 25 * * *` converts without a warning to `every day at 25:00`, which the parser rejects. */
  lemma LateHour()
    ensures ConvertFixed("0", "25", "*", "*", "*") == Some(Conversion("every day at " + "25:00", 0))
    ensures ParseSchedule("every day at " + "25:00").None?
  {
    assert ParseU32("0") == Some(0);
    TwentyFive();
    TwentyFiveHours();
    DailyText("0", "25", 0, 25);
  }

  lemma SignedDigits(n: nat, dom: string)
    requires 1 <= n <= 31 && dom == ['+'] + Digits(n)
    ensures ParseU32(dom) == Some(n) && ',' !in dom && Lower(dom) != "l" && dom != "*"
  {
    assert dom[1..] == Digits(n) && Lower(dom)[0] == '+';
    ValueDigits(n);
  }

  lemma OneItem(dom: string, n: nat)
    requires ParseU32(dom) == Some(n) && 1 <= n <= 31
    ensures ParseDomItems([dom]) == Some([OrdinalText(n)])
  {
    var text := Digits(n) + OrdinalSuffix(n);
    assert [dom][1..] == [];
    assert [text] + [] == [text];
    assert ParseDomItems([dom][1..]) == Some([]);
  }

  /** `0 9 +5 * *`, like any signed day, is rejected by cron and converts without a warning to that day of the month. */
  lemma SignedDay(n: nat, dom: string)
    requires 1 <= n <= 31 && dom == ['+'] + Digits(n)
    ensures forall d :: !CronDom(dom, d)
    ensures ConvertFixed("0", "9", dom, "*", "*").Some? && ConvertFixed("0", "9", dom, "*", "*").value.warnings == 0
    ensures ParseSchedule(ConvertFixed("0", "9", dom, "*", "*").value.schedule) == Some(Monthly([Day(n)], Time(9, 0)))
  {
    assert ParseU32("0") == Some(0) && ParseU32("9") == Some(9);
    SignedDigits(n, dom);
    SplitWord(dom, ',', []);
    OneItem(dom, n);
    RejectedDom(dom);
    assert OrdinalTexts([n]) == [OrdinalText(n)] && Days([n]) == [Day(n)];
    OrdinalLine([n], 9, 0);
  }

  /** At nine o'clock, say: every unfaithful field the converter accepts converts, silently, to something else. */
  lemma UnfaithfulConverts(dow: string)
    requires dow != "*" && ParseDow(dow).Some? && !Faithful(dow)
    ensures ConvertFixed("0", "9", "*", "*", dow).Some?
    ensures ConvertFixed("0", "9", "*", "*", dow).value.warnings == 0
    ensures var k := ParseSchedule(ConvertFixed("0", "9", "*", "*", dow).value.schedule);
            k.Some? && !SameInstants("0", "9", "*", "*", dow, k.value)
  {
    assert ParseU32("0") == Some(0) && ParseU32("9") == Some(9);
    ConversionExact("0", "9", "*", "*", dow, 0, 9);
  }

  /** The text emitted for a day-of-week field at nine o'clock. */
  lemma NineOClock(dow: string)
    requires dow != "*" && ParseDow(dow).Some?
    ensures ConvertFixed("0", "9", "*", "*", dow)
         == Some(Conversion(Join(WeekdayLine(ParseDow(dow).value, TimeText(9, 0))), 0))
  {
    assert ParseU32("0") == Some(0) && ParseU32("9") == Some(9);
  }

  /** What a field converts to at nine o'clock, and that it is not what the cron line says. */
  ghost predicate ComesOutAs(dow: string, cron: set<Weekday>, fires: set<Weekday>) {
    var c := ConvertFixed("0", "9", "*", "*", dow);
    && CronSet(dow) == cron
    && c.Some? && c.value.warnings == 0
    && var k := ParseSchedule(c.value.schedule);
       k.Some? && FiresOn(k.value, Time(9, 0), fires) && !SameInstants("0", "9", "*", "*", dow, k.value)
  }

  lemma KnownComesOut(dow: string)
    requires KnownField(dow) && !Faithful(dow)
    ensures ComesOutAs(dow, CronSet(dow), DslDays(dow))
  {
    NineOClock(dow);
    ConvertedKnown(dow, 9, 0);
    UnfaithfulConverts(dow);
  }

  /** Sunday given twice comes out as the whole weekend. */
  lemma SundayTwice()
    ensures ComesOutAs("0,7", {Sunday}, {Saturday, Sunday})
  {
    KnownPairs();
    KnownComesOut("0,7");
  }

  /** A reversed range, which names no day in cron, comes out as every day. */
  lemma ReversedRange()
    ensures ComesOutAs("6-0", {}, ALL_DAYS)
  {
    KnownRanges();
    KnownComesOut("6-0");
  }

  const SEVEN_MONDAYS := "1,1,1,1,1,1,1"

  /** A list of seven days that names one twice comes out as every day. */
  lemma RepeatedDay(dow: string, items: seq<string>, days: seq<Weekday>)
    requires |dow| > 3 && items == Split(dow, ',') && |items| == 7
    requires ListDays(items) == Some(days) && |days| == 7 && days[0] == days[1]
    ensures ComesOutAs(dow, Members(days), ALL_DAYS)
  {
    assert days[1..][0] == days[0];
    ItemsAreNames(items);
    UnionOfValues(items);
    NineOClock(dow);
    ConvertedList(dow, 9, 0);
    UnfaithfulConverts(dow);
  }

  lemma OnlyMondays(dow: string)
    requires |dow| == 13 && forall i :: 0 <= i < 13 ==> dow[i] == if i % 2 == 0 then '1' else ','
    ensures ComesOutAs(dow, {Monday}, ALL_DAYS)
  {
    Mondays(7, dow);
    var days := ListDays(Split(dow, ',')).value;
    RepeatedDay(dow, Split(dow, ','), days);
    MondaysAlone(days);
  }

  lemma MondaysAlone(days: seq<Weekday>)
    requires days != [] && forall i :: 0 <= i < |days| ==> days[i] == Monday
    ensures Members(days) == {Monday}
  {
    assert days[0] in days;
  }

  /** Seven Mondays come out as every day. */
  lemma SevenMondays()
    ensures ComesOutAs(SEVEN_MONDAYS, {Monday}, ALL_DAYS)
  {
    OnlyMondays(SEVEN_MONDAYS);
  }

  /** A comma-separated list of `n` ones. */
  lemma {:induction false} Mondays(n: nat, s: string)
    requires n >= 1 && |s| == 2 * n - 1
    requires forall i :: 0 <= i < |s| ==> s[i] == if i % 2 == 0 then '1' else ','
    ensures |Split(s, ',')| == n && ListDays(Split(s, ',')).Some? && |ListDays(Split(s, ',')).value| == n
    ensures forall i :: 0 <= i < n ==> ListDays(Split(s, ',')).value[i] == Monday
  {
    DigitValue('1');
    CronDays();
    if n == 1 {
      assert s == ['1'];
      SplitWord(['1'], ',', []);
      assert [['1']][1..] == [];
    } else {
      var rest := s[2..];
      assert s == ['1'] + [','] + rest;
      SplitWord(['1'], ',', rest);
      Mondays(n - 1, rest);
      assert ([['1']] + Split(rest, ','))[1..] == Split(rest, ',');
    }
  }
}
