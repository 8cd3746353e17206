/**
 The fingerprint of a compiled job: the job serialised to JSON, and what two jobs
 with the same hashed text have in common.

 The serialiser writes one entry for each field of the compiled job, in some
 order; metadata comes in whatever order its map yields. The hashed text shows
 every difference but in the ignored fields and between numbers that are not finite.

 Each kind of value is shown to determine what it was written from. A sheet of
 named fields is then hashed as a whole, whatever the names are, so that only the
 last step has to know them.
 */
module JobHash {
  import opened Wrappers
  import opened Folds
  import opened KeyOrder
  import opened JsonScalars
  import opened CanonicalJson
  import opened Fingerprint
  import Calendar
  import NextFire
  import C = Compile
  import Ast = CroniqAst

  // ----- The fields of a compiled job -----

  datatype JobField =
    | KeyField | NamespaceField | NameField | VariantField | DescriptionField | ScheduleField
    | ScheduleSummaryField | TimezoneField | CalendarField | WindowField | NotBeforeField | NotAfterField
    | RunnerField | RetryField | TimeoutField | DeadLetterField | MetadataField | ExecutionModeField
    | CatchUpField | CatchUpExplicitField | QueueTtlField | MaxQueueDepthField | KeepLastField | MaxConcurrentField
    | ConcurrencyGroupField | CoalesceField | TagsField | RunOnRegisterField | PriorityField

  function FieldName(f: JobField): string {
    match f
    case KeyField => "key"
    case NamespaceField => "namespace"
    case NameField => "name"
    case VariantField => "variant"
    case DescriptionField => "description"
    case ScheduleField => "schedule"
    case ScheduleSummaryField => "schedule_summary"
    case TimezoneField => "timezone"
    case CalendarField => "calendar"
    case WindowField => "window"
    case NotBeforeField => "not_before"
    case NotAfterField => "not_after"
    case RunnerField => "runner"
    case RetryField => "retry"
    case TimeoutField => "timeout"
    case DeadLetterField => "dead_letter"
    case MetadataField => "metadata"
    case ExecutionModeField => "execution_mode"
    case CatchUpField => "catch_up"
    case CatchUpExplicitField => "catch_up_explicit"
    case QueueTtlField => "queue_ttl"
    case MaxQueueDepthField => "max_queue_depth"
    case KeepLastField => "keep_last"
    case MaxConcurrentField => "max_concurrent"
    case ConcurrencyGroupField => "concurrency_group"
    case CoalesceField => "coalesce"
    case TagsField => "tags"
    case RunOnRegisterField => "run_on_register"
    case PriorityField => "priority"
  }

  function FieldAt(i: nat): JobField
    requires i < FIELDS
  {
    if i == 0 then KeyField
    else if i == 1 then NamespaceField
    else if i == 2 then NameField
    else if i == 3 then VariantField
    else if i == 4 then DescriptionField
    else if i == 5 then ScheduleField
    else if i == 6 then ScheduleSummaryField
    else if i == 7 then TimezoneField
    else if i == 8 then CalendarField
    else if i == 9 then WindowField
    else if i == 10 then NotBeforeField
    else if i == 11 then NotAfterField
    else if i == 12 then RunnerField
    else if i == 13 then RetryField
    else if i == 14 then TimeoutField
    else if i == 15 then DeadLetterField
    else if i == 16 then MetadataField
    else if i == 17 then ExecutionModeField
    else if i == 18 then CatchUpField
    else if i == 19 then CatchUpExplicitField
    else if i == 20 then QueueTtlField
    else if i == 21 then MaxQueueDepthField
    else if i == 22 then KeepLastField
    else if i == 23 then MaxConcurrentField
    else if i == 24 then ConcurrencyGroupField
    else if i == 25 then CoalesceField
    else if i == 26 then TagsField
    else if i == 27 then RunOnRegisterField
    else PriorityField
  }

  const FIELDS: nat := 29

  function FieldIndex(f: JobField): (i: nat)
    ensures i < FIELDS && FieldAt(i) == f
  {
    match f
    case KeyField => 0
    case NamespaceField => 1
    case NameField => 2
    case VariantField => 3
    case DescriptionField => 4
    case ScheduleField => 5
    case ScheduleSummaryField => 6
    case TimezoneField => 7
    case CalendarField => 8
    case WindowField => 9
    case NotBeforeField => 10
    case NotAfterField => 11
    case RunnerField => 12
    case RetryField => 13
    case TimeoutField => 14
    case DeadLetterField => 15
    case MetadataField => 16
    case ExecutionModeField => 17
    case CatchUpField => 18
    case CatchUpExplicitField => 19
    case QueueTtlField => 20
    case MaxQueueDepthField => 21
    case KeepLastField => 22
    case MaxConcurrentField => 23
    case ConcurrencyGroupField => 24
    case CoalesceField => 25
    case TagsField => 26
    case RunOnRegisterField => 27
    case PriorityField => 28
  }

  /** A field's position, read off the length and two letters of its name. */
  ghost function Position(s: string): nat
    requires |s| >= 3
  {
    if |s| == 3 then 0
    else if |s| == 4 then (if s[0] == 'n' && s[2] == 'm' then 2 else 26)
    else if |s| == 5 then 13
    else if |s| == 6 then (if s[0] == 'w' && s[2] == 'n' then 9 else 12)
    else if |s| == 7 then (if s[0] == 'v' && s[2] == 'r' then 3 else 14)
    else if |s| == 8 then
      (if s[0] == 's' && s[2] == 'h' then 5 else if s[0] == 't' && s[2] == 'm' then 7
       else if s[0] == 'c' && s[2] == 'l' then 8 else if s[0] == 'm' && s[2] == 't' then 16
       else if s[0] == 'c' && s[2] == 't' then 18 else if s[0] == 'c' && s[2] == 'a' then 25 else 28)
    else if |s| == 9 then
      (if s[0] == 'n' && s[2] == 'm' then 1 else if s[0] == 'n' && s[2] == 't' then 11
       else if s[0] == 'q' && s[2] == 'e' then 20 else 22)
    else if |s| == 10 then 10
    else if |s| == 11 then (if s[0] == 'd' && s[2] == 's' then 4 else 15)
    else if |s| == 14 then (if s[0] == 'e' && s[2] == 'e' then 17 else 23)
    else if |s| == 15 then (if s[0] == 'm' && s[2] == 'x' then 21 else 27)
    else if |s| == 16 then 6
    else if |s| == 17 then (if s[0] == 'c' && s[2] == 't' then 19 else 24)
    else FIELDS
  }

  lemma NamePosition(f: JobField)
    ensures |FieldName(f)| >= 3 && Position(FieldName(f)) == FieldIndex(f)
  {
    match f
    case KeyField =>
    case NamespaceField =>
    case NameField =>
    case VariantField =>
    case DescriptionField =>
    case ScheduleField =>
    case ScheduleSummaryField =>
    case TimezoneField =>
    case CalendarField =>
    case WindowField =>
    case NotBeforeField =>
    case NotAfterField =>
    case RunnerField =>
    case RetryField =>
    case TimeoutField =>
    case DeadLetterField =>
    case MetadataField =>
    case ExecutionModeField =>
    case CatchUpField =>
    case CatchUpExplicitField =>
    case QueueTtlField =>
    case MaxQueueDepthField =>
    case KeepLastField =>
    case MaxConcurrentField =>
    case ConcurrencyGroupField =>
    case CoalesceField =>
    case TagsField =>
    case RunOnRegisterField =>
    case PriorityField =>
  }

  lemma NamesDiffer(f: JobField, g: JobField)
    ensures FieldName(f) == FieldName(g) <==> f == g
  {
    NamePosition(f);
    NamePosition(g);
  }

  /** The fields the fingerprint ignores, in the order it lists them. */
  const IGNORED: seq<JobField> := [
    KeyField, NamespaceField, NameField, VariantField, DescriptionField, ScheduleSummaryField, TagsField,
    RunOnRegisterField]

  predicate Ignored(f: JobField) {
    f in IGNORED
  }

  lemma IgnoredList(i: nat)
    requires i < 8
    ensures |IGNORED_FIELDS| == |IGNORED| == 8 && IGNORED_FIELDS[i] == FieldName(IGNORED[i])
  {
  }

  lemma IgnoredNames(f: JobField)
    ensures FieldName(f) in IGNORED_FIELDS <==> Ignored(f)
  {
    IgnoredList(0);
    if Ignored(f) {
      var i :| 0 <= i < |IGNORED| && IGNORED[i] == f;
      IgnoredList(i);
    }
    if FieldName(f) in IGNORED_FIELDS {
      var i :| 0 <= i < |IGNORED_FIELDS| && IGNORED_FIELDS[i] == FieldName(f);
      IgnoredList(i);
      NamesDiffer(f, IGNORED[i]);
    }
  }

  // ----- The serialiser -----

  function OptText(o: Option<string>): Value {
    if o.Some? then Str(o.value) else Null
  }

  function OptNumber(o: Option<nat>): Value {
    if o.Some? then Int(o.value) else Null
  }

  /** A number that is not finite is written as `null`. */
  function OptFraction(o: Option<C.Fraction>): Value {
    if o.Some? && o.value.Finite? then Float(o.value.text) else Null
  }

  function DayValue(w: Calendar.Weekday): Value {
    match w
    case Monday => Str("Monday")
    case Tuesday => Str("Tuesday")
    case Wednesday => Str("Wednesday")
    case Thursday => Str("Thursday")
    case Friday => Str("Friday")
    case Saturday => Str("Saturday")
    case Sunday => Str("Sunday")
  }

  function OrdinalValue(o: NextFire.Ordinal): Value {
    match o
    case Day(n) => Object([Entry("Day", Int(n))])
    case Last => Str("Last")
  }

  function DayValues(days: seq<Calendar.Weekday>): Value {
    Array(seq(|days|, i requires 0 <= i < |days| => DayValue(days[i])))
  }

  function OrdinalValues(os: seq<NextFire.Ordinal>): Value {
    Array(seq(|os|, i requires 0 <= i < |os| => OrdinalValue(os[i])))
  }

  function Tagged(tag: string, es: seq<Entry>): Value {
    Object([Entry(tag, Object(es))])
  }

  function TimeEntries(hour: nat, minute: nat): seq<Entry> {
    [Entry("hour", Int(hour)), Entry("minute", Int(minute))]
  }

  function ScheduleValue(s: C.CompiledSchedule): Value {
    match s
    case EverySeconds(n) => Tagged("Interval", [Entry("seconds", Int(n))])
    case EveryDay(h, m) => Tagged("Daily", TimeEntries(h, m))
    case OnWeekdays(days, h, m) => Tagged("Weekdays", [Entry("days", DayValues(days))] + TimeEntries(h, m))
    case OnOrdinals(os, h, m) => Tagged("Monthly", [Entry("ordinals", OrdinalValues(os))] + TimeEntries(h, m))
    case OnceAt(at) => Tagged("Once", [Entry("at", Str(at))])
    case Never => Str("Disabled")
  }

  /** The entries of a record: names and values side by side. */
  function Record(names: seq<string>, values: seq<Value>): (es: seq<Entry>)
    requires |names| == |values|
    ensures |es| == |names| && forall i :: 0 <= i < |es| ==> es[i] == Entry(names[i], values[i])
  {
    seq(|names|, i requires 0 <= i < |names| => Entry(names[i], values[i]))
  }

  const PLACEMENT_NAMES := ["require", "prefer", "exclude", "sticky"]
  const RETRY_NAMES := ["strategy", "max_attempts", "base", "cap", "delay", "step", "jitter"]
  const DEAD_LETTER_NAMES := ["enabled", "retention", "operator_hint", "replay_max_age"]

  function PlacementValues(p: C.Placement): (vs: seq<Value>)
    ensures |vs| == 4
  {
    [Strings(p.require), Strings(p.prefer), Strings(p.exclude), Bool(p.sticky)]
  }

  function RetryValues(r: C.Retry): (vs: seq<Value>)
    ensures |vs| == 7
  {
    [Str(r.strategy), Int(r.maxAttempts), OptText(r.base), OptText(r.cap), OptText(r.delay), OptText(r.step),
     OptFraction(r.jitter)]
  }

  function DeadLetterValues(d: C.DeadLetter): (vs: seq<Value>)
    ensures |vs| == 4
  {
    [Bool(d.enabled), OptText(d.retention), OptText(d.operatorHint), OptText(d.replayMaxAge)]
  }

  function PlacementValue(p: C.Placement): Value {
    Object(Record(PLACEMENT_NAMES, PlacementValues(p)))
  }

  function RetryValue(r: C.Retry): Value {
    Object(Record(RETRY_NAMES, RetryValues(r)))
  }

  function DeadLetterValue(d: C.DeadLetter): Value {
    Object(Record(DEAD_LETTER_NAMES, DeadLetterValues(d)))
  }

  function ModeValue(m: Ast.Mode): Value {
    match m
    case Queued => Str("queued")
    case Ephemeral => Str("ephemeral")
  }

  function CatchUpValue(p: C.CatchUp): Value {
    match p
    case All => Str("all")
    case Latest => Str("latest")
    case Nothing => Str("none")
  }

  /** The metadata map, in the order it yields its keys. */
  function MetadataValue(m: C.Table, order: seq<string>): Value {
    Object(seq(|order|, i requires 0 <= i < |order| =>
      Entry(order[i], Str(if order[i] in m then m[order[i]] else ""))))
  }

  predicate Lists(order: seq<string>, m: C.Table) {
    Distinct(order) && (forall k :: k in order ==> k in m) && forall k :: k in m ==> k in order
  }

  /** What the compiled job says of itself that is derived from its key and its schedule. */
  datatype Labels = Labels(namespace: string, name: string, variant: Option<string>, summary: string)

  /** A compiled job as the serialiser meets it. */
  datatype Source = Source(job: C.JobConfig, labels: Labels, order: seq<string>)

  predicate IsSource(s: Source) {
    Lists(s.order, s.job.draft.metadata)
  }

  predicate IsText(f: JobField) {
    f.DescriptionField? || f.TimezoneField? || f.CalendarField? || f.WindowField? || f.NotBeforeField?
    || f.NotAfterField? || f.TimeoutField? || f.QueueTtlField? || f.ConcurrencyGroupField?
  }

  function TextOf(j: C.JobConfig, f: JobField): Option<string>
    requires IsText(f)
  {
    match f
    case DescriptionField => j.draft.description
    case TimezoneField => j.draft.timezone
    case CalendarField => j.calendar
    case WindowField => j.draft.window
    case NotBeforeField => j.notBefore
    case NotAfterField => j.notAfter
    case TimeoutField => j.draft.timeout
    case QueueTtlField => j.draft.queue.ttl
    case ConcurrencyGroupField => j.draft.guards.group
  }

  predicate IsCount(f: JobField) {
    f.MaxQueueDepthField? || f.KeepLastField? || f.MaxConcurrentField?
  }

  function CountOf(j: C.JobConfig, f: JobField): Option<nat>
    requires IsCount(f)
  {
    match f
    case MaxQueueDepthField => j.draft.queue.maxDepth
    case KeepLastField => j.draft.queue.keepLast
    case MaxConcurrentField => j.draft.guards.maxConcurrent
  }

  predicate IsFlag(f: JobField) {
    f.CatchUpExplicitField? || f.CoalesceField? || f.RunOnRegisterField?
  }

  predicate FlagOf(j: C.JobConfig, f: JobField)
    requires IsFlag(f)
  {
    match f
    case CatchUpExplicitField => j.draft.queue.catchUpExplicit
    case CoalesceField => j.draft.guards.coalesce
    case RunOnRegisterField => j.draft.runOnRegister
  }

  predicate IsRecord(f: JobField) {
    f.ScheduleField? || f.RunnerField? || f.RetryField? || f.DeadLetterField?
  }

  function RecordOf(j: C.JobConfig, f: JobField): Value
    requires IsRecord(f)
  {
    match f
    case ScheduleField => ScheduleValue(j.schedule)
    case RunnerField => PlacementValue(j.draft.placement)
    case RetryField => RetryValue(j.draft.retry)
    case DeadLetterField => DeadLetterValue(j.draft.deadLetter)
  }

  predicate IsChoice(f: JobField) {
    f.ExecutionModeField? || f.CatchUpField? || f.PriorityField?
  }

  function ChoiceOf(j: C.JobConfig, f: JobField): Value
    requires IsChoice(f)
  {
    match f
    case ExecutionModeField => ModeValue(j.draft.queue.mode)
    case CatchUpField => CatchUpValue(j.draft.queue.catchUp)
    case PriorityField => Str(C.PriorityText(j.draft.queue.priority))
  }

  /** The key, what is derived from it, the summary and the tags. */
  function LabelOf(s: Source, f: JobField): Value {
    if f.KeyField? then Str(s.job.key)
    else if f.NamespaceField? then Str(s.labels.namespace)
    else if f.NameField? then Str(s.labels.name)
    else if f.VariantField? then OptText(s.labels.variant)
    else if f.ScheduleSummaryField? then Str(s.labels.summary)
    else Strings(s.job.draft.tags)
  }

  function PlainValue(s: Source, f: JobField): Value {
    if IsText(f) then OptText(TextOf(s.job, f))
    else if IsCount(f) then OptNumber(CountOf(s.job, f))
    else if IsFlag(f) then Bool(FlagOf(s.job, f))
    else if IsChoice(f) then ChoiceOf(s.job, f)
    else LabelOf(s, f)
  }

  function FieldValue(s: Source, f: JobField): Value {
    if f.MetadataField? then MetadataValue(s.job.draft.metadata, s.order)
    else if IsRecord(f) then RecordOf(s.job, f)
    else PlainValue(s, f)
  }

  /** An object with the first `n` fields, under the names `name` gives them. */
  function Sheet(name: JobField -> string, n: nat, value: JobField -> Value): Value
    requires n <= FIELDS
  {
    Object(seq(n, i requires 0 <= i < n => Entry(name(FieldAt(i)), value(FieldAt(i)))))
  }

  /** Every field is written but a normal priority, listed last here: the order of entries never shows. */
  function Count(s: Source): nat {
    if s.job.draft.queue.priority.Normal? then FIELDS - 1 else FIELDS
  }

  function JobValue(s: Source): Value {
    Sheet(FieldName, Count(s), f => FieldValue(s, f))
  }

  // ----- The serialised job -----

  lemma {:induction false} DistinctByIndex<T>(xs: seq<T>)
    requires forall i, j :: 0 <= i < j < |xs| ==> xs[i] != xs[j]
    ensures Distinct(xs)
  {
    if xs != [] {
      DistinctByIndex(xs[1..]);
    }
  }

  lemma IndexOfField(i: nat)
    requires i < FIELDS
    ensures FieldIndex(FieldAt(i)) == i
  {
  }

  /** Different fields have different names, and metadata and the ignored fields have theirs. */
  ghost predicate IsNaming(name: JobField -> string) {
    && name(MetadataField) == METADATA
    && (forall f, g :: name(f) == name(g) ==> f == g)
    && forall f :: name(f) in IGNORED_FIELDS <==> Ignored(f)
  }

  lemma FieldNaming()
    ensures IsNaming(FieldName)
  {
    forall f, g | FieldName(f) == FieldName(g) ensures f == g {
      NamesDiffer(f, g);
    }
    forall f ensures FieldName(f) in IGNORED_FIELDS <==> Ignored(f) {
      IgnoredNames(f);
    }
  }

  lemma SheetDistinct(name: JobField -> string, n: nat, value: JobField -> Value)
    requires IsNaming(name) && n <= FIELDS
    ensures Distinct(Keys(Sheet(name, n, value).entries))
  {
    var keys := Keys(Sheet(name, n, value).entries);
    forall i, j | 0 <= i < j < |keys| ensures keys[i] != keys[j] {
      IndexOfField(i);
      IndexOfField(j);
    }
    DistinctByIndex(keys);
  }

  function Cell(n: nat, value: JobField -> Value, f: JobField): Option<Value> {
    if FieldIndex(f) < n then Some(value(f)) else None
  }

  lemma SheetField(name: JobField -> string, n: nat, value: JobField -> Value, f: JobField)
    requires IsNaming(name) && n <= FIELDS
    ensures Field(Sheet(name, n, value).entries, name(f)) == Cell(n, value, f)
  {
    var es := Sheet(name, n, value).entries;
    if FieldIndex(f) < n {
      SheetDistinct(name, n, value);
      Fingerprint.FieldAt(es, FieldIndex(f));
    } else {
      forall i | 0 <= i < |es| ensures es[i].key != name(f) {
        IndexOfField(i);
      }
    }
  }

  lemma OtherFields(name: JobField -> string, n: nat, value: JobField -> Value, k: string)
    requires n <= FIELDS && forall f :: k != name(f)
    ensures Field(Sheet(name, n, value).entries, k).None?
  {
    var es := Sheet(name, n, value).entries;
    assert forall i :: 0 <= i < |es| ==> es[i].key == name(FieldAt(i));
  }

  lemma SheetValid(name: JobField -> string, n: nat, value: JobField -> Value)
    requires IsNaming(name) && n <= FIELDS && forall f :: Valid(value(f))
    ensures Valid(Sheet(name, n, value))
  {
    SheetDistinct(name, n, value);
    var es := Sheet(name, n, value).entries;
    assert forall i :: 0 <= i < |es| ==> es[i].value == value(FieldAt(i));
  }

  /** How the hash compares the values of a field. */
  ghost predicate SameCell(read: Reader, f: JobField, a: Option<Value>, b: Option<Value>) {
    if f.MetadataField? && a.Some? && b.Some? then SameMetadata(read, a.value, b.value) else SameOption(a, b)
  }

  lemma SameUnderName(read: Reader, name: JobField -> string, f: JobField, a: Option<Value>, b: Option<Value>)
    requires IsNaming(name)
    ensures SameField(read, name(f), a, b) <==> SameCell(read, f, a, b)
  {
  }

  /** Two sheets hash to one text exactly when the cells that are not ignored are the same. */
  lemma SheetExact(read: Reader, name: JobField -> string,
                   n: nat, v: JobField -> Value, m: nat, w: JobField -> Value)
    requires IsNaming(name) && n <= FIELDS && m <= FIELDS
    requires forall f :: Valid(v(f)) && Valid(w(f))
    ensures ConfigText(read, Sheet(name, n, v)) == ConfigText(read, Sheet(name, m, w))
       <==> forall f :: !Ignored(f) ==> SameCell(read, f, Cell(n, v, f), Cell(m, w, f))
  {
    var a, b := Sheet(name, n, v), Sheet(name, m, w);
    SheetValid(name, n, v);
    SheetValid(name, m, w);
    ConfigTextExact(read, a, b);
    if SameDefinition(read, a, b) {
      forall f | !Ignored(f) ensures SameCell(read, f, Cell(n, v, f), Cell(m, w, f)) {
        SheetField(name, n, v, f);
        SheetField(name, m, w, f);
        assert SameField(read, name(f), Field(a.entries, name(f)), Field(b.entries, name(f)));
        SameUnderName(read, name, f, Cell(n, v, f), Cell(m, w, f));
      }
    }
    if forall f :: !Ignored(f) ==> SameCell(read, f, Cell(n, v, f), Cell(m, w, f)) {
      forall k | k !in IGNORED_FIELDS ensures SameField(read, k, Field(a.entries, k), Field(b.entries, k)) {
        SheetByName(read, name, n, v, m, w, k);
      }
    }
  }

  lemma SheetByName(read: Reader, name: JobField -> string,
                    n: nat, v: JobField -> Value, m: nat, w: JobField -> Value, k: string)
    requires IsNaming(name) && n <= FIELDS && m <= FIELDS && k !in IGNORED_FIELDS
    requires forall f :: !Ignored(f) ==> SameCell(read, f, Cell(n, v, f), Cell(m, w, f))
    ensures SameField(read, k, Field(Sheet(name, n, v).entries, k), Field(Sheet(name, m, w).entries, k))
  {
    if f :| k == name(f) {
      SheetField(name, n, v, f);
      SheetField(name, m, w, f);
      SameUnderName(read, name, f, Cell(n, v, f), Cell(m, w, f));
    } else {
      OtherFields(name, n, v, k);
      OtherFields(name, m, w, k);
    }
  }

  // ----- Each value determines what it was written from -----

  /** Two records with the same names: the same as JSON exactly when the same name by name. */
  lemma SameRecord(es: seq<Entry>, fs: seq<Entry>)
    requires Keys(es) == Keys(fs) && Distinct(Keys(es))
    ensures SameValue(Object(es), Object(fs)) <==> forall i :: 0 <= i < |es| ==> SameValue(es[i].value, fs[i].value)
  {
    assert |es| == |fs| && forall i :: 0 <= i < |es| ==> es[i].key == Keys(es)[i] == fs[i].key;
    if SameValue(Object(es), Object(fs)) {
      forall i | 0 <= i < |es| ensures SameValue(es[i].value, fs[i].value) {
        Fingerprint.FieldAt(es, i);
        Fingerprint.FieldAt(fs, i);
        SameFields(Object(es), Object(fs), es[i].key);
      }
    }
    if forall i :: 0 <= i < |es| ==> SameValue(es[i].value, fs[i].value) {
      forall k ensures SameOption(Field(es, k), Field(fs, k)) {
        RecordField(es, fs, k);
      }
      SameValueByFields(Object(es), Object(fs));
    }
  }

  lemma RecordField(es: seq<Entry>, fs: seq<Entry>, k: string)
    requires Keys(es) == Keys(fs) && Distinct(Keys(es))
    requires forall i :: 0 <= i < |es| ==> SameValue(es[i].value, fs[i].value)
    ensures SameOption(Field(es, k), Field(fs, k))
  {
    HasIffInKeys(es, k);
    HasIffInKeys(fs, k);
    if Has(es, k) {
      var i :| 0 <= i < |es| && es[i].key == k;
      assert fs[i].key == Keys(fs)[i] == k;
      Fingerprint.FieldAt(es, i);
      Fingerprint.FieldAt(fs, i);
    }
  }

  /** A value without objects: equality as JSON is equality. */
  predicate Flat(v: Value) {
    match v
    case Object(_) => false
    case Array(items) => forall i :: 0 <= i < |items| ==> !items[i].Object? && !items[i].Array?
    case _ => true
  }

  lemma FlatSame(v: Value, w: Value)
    requires Flat(v)
    ensures SameValue(v, w) <==> v == w
  {
    if v.Array? && SameValue(v, w) {
      forall i | 0 <= i < |v.items| ensures v.items[i] == w.items[i] {
        assert SameValue(v.items[i], w.items[i]);
      }
    }
  }

  lemma FlatsSame(vs: seq<Value>, ws: seq<Value>)
    requires |vs| == |ws| && forall v :: v in vs ==> Flat(v)
    ensures (forall i :: 0 <= i < |vs| ==> SameValue(vs[i], ws[i])) <==> vs == ws
  {
    forall i | 0 <= i < |vs| ensures SameValue(vs[i], ws[i]) <==> vs[i] == ws[i] {
      assert vs[i] in vs;
      FlatSame(vs[i], ws[i]);
    }
  }

  lemma StringsInjective(a: seq<string>, b: seq<string>)
    ensures Strings(a) == Strings(b) <==> a == b
    ensures Flat(Strings(a)) && Valid(Strings(a))
  {
    if Strings(a) == Strings(b) {
      forall i | 0 <= i < |a| ensures a[i] == b[i] {
        assert Strings(a).items[i] == Strings(b).items[i];
      }
    }
  }

  lemma DayExact(a: Calendar.Weekday, b: Calendar.Weekday)
    ensures SameValue(DayValue(a), DayValue(b)) <==> a == b
  {
    DayLetters(a);
    DayLetters(b);
  }

  /** Length and second letter tell the days apart. */
  lemma DayLetters(w: Calendar.Weekday)
    ensures DayValue(w).Str? && |DayValue(w).s| >= 6
    ensures w.Monday? <==> |DayValue(w).s| == 6 && DayValue(w).s[0] == 'M'
    ensures w.Tuesday? <==> |DayValue(w).s| == 7
    ensures w.Wednesday? <==> |DayValue(w).s| == 9
    ensures w.Thursday? <==> |DayValue(w).s| == 8 && DayValue(w).s[0] == 'T'
    ensures w.Friday? <==> |DayValue(w).s| == 6 && DayValue(w).s[0] == 'F'
    ensures w.Saturday? <==> |DayValue(w).s| == 8 && DayValue(w).s[0] == 'S'
    ensures w.Sunday? <==> |DayValue(w).s| == 6 && DayValue(w).s[0] == 'S'
  {
    match w
    case Monday =>
    case Tuesday =>
    case Wednesday =>
    case Thursday =>
    case Friday =>
    case Saturday =>
    case Sunday =>
  }

  lemma DaysExact(a: seq<Calendar.Weekday>, b: seq<Calendar.Weekday>)
    ensures SameValue(DayValues(a), DayValues(b)) <==> a == b
    ensures Valid(DayValues(a))
  {
    forall i, j | 0 <= i < |a| && 0 <= j < |b| ensures SameValue(DayValue(a[i]), DayValue(b[j])) <==> a[i] == b[j] {
      DayExact(a[i], b[j]);
    }
    forall i | 0 <= i < |a| ensures Valid(DayValue(a[i])) {
      DayLetters(a[i]);
    }
    if SameValue(DayValues(a), DayValues(b)) {
      forall i | 0 <= i < |a| ensures a[i] == b[i] {
        assert SameValue(DayValues(a).items[i], DayValues(b).items[i]);
      }
    }
  }

  lemma OneEntry(k: string, v: Value, w: Value)
    ensures SameValue(Object([Entry(k, v)]), Object([Entry(k, w)])) <==> SameValue(v, w)
    ensures Valid(v) ==> Valid(Object([Entry(k, v)]))
  {
    assert Keys([Entry(k, v)]) == [k] == Keys([Entry(k, w)]);
    assert [k][1..] == [];
    SameRecord([Entry(k, v)], [Entry(k, w)]);
    assert [Entry(k, v)][0].value == v && [Entry(k, w)][0].value == w;
  }

  lemma OrdinalExact(a: NextFire.Ordinal, b: NextFire.Ordinal)
    ensures SameValue(OrdinalValue(a), OrdinalValue(b)) <==> a == b
    ensures Valid(OrdinalValue(a))
  {
    if a.Day? {
      OneEntry("Day", Int(a.n), if b.Day? then Int(b.n) else Null);
    }
  }

  lemma OrdinalsExact(a: seq<NextFire.Ordinal>, b: seq<NextFire.Ordinal>)
    ensures SameValue(OrdinalValues(a), OrdinalValues(b)) <==> a == b
    ensures Valid(OrdinalValues(a))
  {
    forall i, j | 0 <= i < |a| && 0 <= j < |b|
      ensures SameValue(OrdinalValue(a[i]), OrdinalValue(b[j])) <==> a[i] == b[j]
    {
      OrdinalExact(a[i], b[j]);
    }
    forall i | 0 <= i < |a| ensures Valid(OrdinalValue(a[i])) {
      OrdinalExact(a[i], a[i]);
    }
    if SameValue(OrdinalValues(a), OrdinalValues(b)) {
      forall i | 0 <= i < |a| ensures a[i] == b[i] {
        assert SameValue(OrdinalValues(a).items[i], OrdinalValues(b).items[i]);
      }
    }
  }

  lemma TaggedExact(t: string, es: seq<Entry>, u: string, fs: seq<Entry>)
    ensures SameValue(Tagged(t, es), Tagged(u, fs)) <==> t == u && SameValue(Object(es), Object(fs))
    ensures Valid(Object(es)) ==> Valid(Tagged(t, es))
  {
    OneEntry(t, Object(es), Object(fs));
    if SameValue(Tagged(t, es), Tagged(u, fs)) {
      var a, b := [Entry(t, Object(es))], [Entry(u, Object(fs))];
      assert Has(a, t) by { assert a[0].key == t; }
      assert Has(b, t);
    }
  }

  lemma TimeExact(h: nat, m: nat, i: nat, n: nat)
    ensures SameValue(Object(TimeEntries(h, m)), Object(TimeEntries(i, n))) <==> h == i && m == n
    ensures Valid(Object(TimeEntries(h, m)))
  {
    var es, fs := TimeEntries(h, m), TimeEntries(i, n);
    assert Keys(es) == ["hour", "minute"] == Keys(fs);
    DistinctByIndex(Keys(es));
    SameRecord(es, fs);
    assert es[0].value == Int(h) && es[1].value == Int(m) && fs[0].value == Int(i) && fs[1].value == Int(n);
  }

  /** A list of days or ordinals, and a time. */
  lemma ListedTimeExact(k: string, v: Value, h: nat, m: nat, w: Value, i: nat, n: nat)
    requires k != "hour" && k != "minute"
    ensures SameValue(Object([Entry(k, v)] + TimeEntries(h, m)), Object([Entry(k, w)] + TimeEntries(i, n)))
       <==> SameValue(v, w) && h == i && m == n
    ensures Valid(v) ==> Valid(Object([Entry(k, v)] + TimeEntries(h, m)))
  {
    var es, fs := [Entry(k, v)] + TimeEntries(h, m), [Entry(k, w)] + TimeEntries(i, n);
    assert Keys(es) == [k, "hour", "minute"] == Keys(fs);
    DistinctByIndex(Keys(es));
    SameRecord(es, fs);
    assert es[0].value == v && es[1].value == Int(h) && es[2].value == Int(m);
    assert fs[0].value == w && fs[1].value == Int(i) && fs[2].value == Int(n);
  }

  function ScheduleTag(s: C.CompiledSchedule): string {
    match s
    case EverySeconds(_) => "Interval"
    case EveryDay(_, _) => "Daily"
    case OnWeekdays(_, _, _) => "Weekdays"
    case OnOrdinals(_, _, _) => "Monthly"
    case OnceAt(_) => "Once"
    case Never => "Disabled"
  }

  function ScheduleEntries(s: C.CompiledSchedule): seq<Entry> {
    match s
    case EverySeconds(n) => [Entry("seconds", Int(n))]
    case EveryDay(h, m) => TimeEntries(h, m)
    case OnWeekdays(days, h, m) => [Entry("days", DayValues(days))] + TimeEntries(h, m)
    case OnOrdinals(os, h, m) => [Entry("ordinals", OrdinalValues(os))] + TimeEntries(h, m)
    case OnceAt(at) => [Entry("at", Str(at))]
    case Never => []
  }

  lemma TagsDiffer(a: C.CompiledSchedule, b: C.CompiledSchedule)
    requires ScheduleTag(a) == ScheduleTag(b)
    ensures a.EverySeconds? == b.EverySeconds? && a.EveryDay? == b.EveryDay? && a.OnWeekdays? == b.OnWeekdays?
    ensures a.OnOrdinals? == b.OnOrdinals? && a.OnceAt? == b.OnceAt? && a.Never? == b.Never?
  {
    TagLetters(a);
    TagLetters(b);
  }

  lemma TagLetters(s: C.CompiledSchedule)
    ensures var t := ScheduleTag(s);
            && |t| >= 4
            && (s.EverySeconds? <==> |t| == 8 && t[0] == 'I') && (s.EveryDay? <==> |t| == 5)
            && (s.OnWeekdays? <==> |t| == 8 && t[0] == 'W') && (s.OnOrdinals? <==> |t| == 7)
            && (s.OnceAt? <==> |t| == 4) && (s.Never? <==> |t| == 8 && t[0] == 'D')
  {
    match s
    case EverySeconds(_) =>
    case EveryDay(_, _) =>
    case OnWeekdays(_, _, _) =>
    case OnOrdinals(_, _, _) =>
    case OnceAt(_) =>
    case Never =>
  }

  lemma SameKindExact(a: C.CompiledSchedule, b: C.CompiledSchedule)
    requires ScheduleTag(a) == ScheduleTag(b)
    ensures SameValue(Object(ScheduleEntries(a)), Object(ScheduleEntries(b))) <==> a == b
    ensures Valid(Object(ScheduleEntries(a)))
  {
    TagsDiffer(a, b);
    match a
    case EverySeconds(n) => OneEntry("seconds", Int(n), Int(b.seconds));
    case EveryDay(h, m) => TimeExact(h, m, b.hour, b.minute);
    case OnWeekdays(days, h, m) =>
      DaysExact(days, b.days);
      ListedTimeExact("days", DayValues(days), h, m, DayValues(b.days), b.hour, b.minute);
    case OnOrdinals(os, h, m) =>
      OrdinalsExact(os, b.ordinals);
      ListedTimeExact("ordinals", OrdinalValues(os), h, m, OrdinalValues(b.ordinals), b.hour, b.minute);
    case OnceAt(at) => OneEntry("at", Str(at), Str(b.at));
    case Never => assert Keys([]) == [];
  }

  lemma ScheduleExact(a: C.CompiledSchedule, b: C.CompiledSchedule)
    ensures SameValue(ScheduleValue(a), ScheduleValue(b)) <==> a == b
    ensures Valid(ScheduleValue(a))
  {
    SameKindExact(a, a);
    if !a.Never? {
      TaggedExact(ScheduleTag(a), ScheduleEntries(a), ScheduleTag(b), ScheduleEntries(b));
      TaggedExact(ScheduleTag(a), ScheduleEntries(a), ScheduleTag(a), ScheduleEntries(a));
    }
    if ScheduleTag(a) == ScheduleTag(b) {
      SameKindExact(a, b);
      TagsDiffer(a, b);
    }
  }

  lemma RecordExact(names: seq<string>, vs: seq<Value>, ws: seq<Value>)
    requires |names| == |vs| == |ws| && Distinct(names)
    ensures SameValue(Object(Record(names, vs)), Object(Record(names, ws)))
       <==> forall i :: 0 <= i < |vs| ==> SameValue(vs[i], ws[i])
    ensures (forall i :: 0 <= i < |vs| ==> Valid(vs[i])) ==> Valid(Object(Record(names, vs)))
  {
    var es, fs := Record(names, vs), Record(names, ws);
    assert Keys(es) == names == Keys(fs);
    SameRecord(es, fs);
    assert forall i :: 0 <= i < |vs| ==> es[i].value == vs[i] && fs[i].value == ws[i];
  }

  lemma PlacementNames()
    ensures |PLACEMENT_NAMES| == 4 && Distinct(PLACEMENT_NAMES)
  {
    var p := PLACEMENT_NAMES;
    assert |p[0]| == 7 && |p[1]| == 6 && |p[2]| == 7 && |p[3]| == 6;
    assert p[0][0] == 'r' && p[2][0] == 'e' && p[1][0] == 'p' && p[3][0] == 's';
    DistinctByIndex(p);
  }

  lemma RetryNames()
    ensures |RETRY_NAMES| == 7 && Distinct(RETRY_NAMES)
  {
    var r := RETRY_NAMES;
    assert |r[0]| == 8 && |r[1]| == 12 && |r[2]| == 4 && |r[3]| == 3 && |r[4]| == 5;
    assert |r[5]| == 4 && |r[6]| == 6 && r[2][0] == 'b' && r[5][0] == 's';
    DistinctByIndex(r);
  }

  lemma DeadLetterNames()
    ensures |DEAD_LETTER_NAMES| == 4 && Distinct(DEAD_LETTER_NAMES)
  {
    var d := DEAD_LETTER_NAMES;
    assert |d[0]| == 7 && |d[1]| == 9 && |d[2]| == 13 && |d[3]| == 14;
    DistinctByIndex(d);
  }

  /** A record of flat values is known by its values. */
  lemma FlatRecordExact(names: seq<string>, vs: seq<Value>, ws: seq<Value>)
    requires |names| == |vs| == |ws| && Distinct(names) && forall v :: v in vs ==> Flat(v) && Valid(v)
    ensures SameValue(Object(Record(names, vs)), Object(Record(names, ws))) <==> vs == ws
    ensures Valid(Object(Record(names, vs)))
  {
    FlatsSame(vs, ws);
    RecordExact(names, vs, ws);
    assert forall i :: 0 <= i < |vs| ==> vs[i] in vs;
  }

  lemma PlacementExact(a: C.Placement, b: C.Placement)
    ensures SameValue(PlacementValue(a), PlacementValue(b)) <==> a == b
    ensures Valid(PlacementValue(a))
  {
    PlacementNames();
    StringsInjective(a.require, b.require);
    StringsInjective(a.prefer, b.prefer);
    StringsInjective(a.exclude, b.exclude);
    FlatRecordExact(PLACEMENT_NAMES, PlacementValues(a), PlacementValues(b));
    assert PlacementValues(a)[0] == Strings(a.require) && PlacementValues(a)[1] == Strings(a.prefer);
    assert PlacementValues(a)[2] == Strings(a.exclude) && PlacementValues(a)[3] == Bool(a.sticky);
  }

  /** Equal but for jitters that are both printed as `null`. */
  predicate SameRetry(a: C.Retry, b: C.Retry) {
    a.(jitter := None) == b.(jitter := None) && OptFraction(a.jitter) == OptFraction(b.jitter)
  }

  lemma RetryValuesFlat(a: C.Retry)
    ensures forall v :: v in RetryValues(a) ==> Flat(v) && Valid(v)
  {
  }

  lemma RetryValuesExact(a: C.Retry, b: C.Retry)
    ensures RetryValues(a) == RetryValues(b) <==> SameRetry(a, b)
  {
    var vs, ws := RetryValues(a), RetryValues(b);
    assert vs[0] == Str(a.strategy) && vs[1] == Int(a.maxAttempts) && vs[2] == OptText(a.base);
    assert vs[3] == OptText(a.cap) && vs[4] == OptText(a.delay) && vs[5] == OptText(a.step);
    assert vs[6] == OptFraction(a.jitter);
    if vs == ws {
      assert ws[0] == Str(b.strategy) && ws[1] == Int(b.maxAttempts) && ws[2] == OptText(b.base);
      assert ws[3] == OptText(b.cap) && ws[4] == OptText(b.delay) && ws[5] == OptText(b.step);
      assert ws[6] == OptFraction(b.jitter);
    }
  }

  lemma RetryExact(a: C.Retry, b: C.Retry)
    ensures SameValue(RetryValue(a), RetryValue(b)) <==> SameRetry(a, b)
    ensures Valid(RetryValue(a))
  {
    RetryNames();
    RetryValuesFlat(a);
    FlatRecordExact(RETRY_NAMES, RetryValues(a), RetryValues(b));
    RetryValuesExact(a, b);
  }

  lemma DeadLetterExact(a: C.DeadLetter, b: C.DeadLetter)
    ensures SameValue(DeadLetterValue(a), DeadLetterValue(b)) <==> a == b
    ensures Valid(DeadLetterValue(a))
  {
    DeadLetterNames();
    FlatRecordExact(DEAD_LETTER_NAMES, DeadLetterValues(a), DeadLetterValues(b));
    var vs := DeadLetterValues(a);
    assert vs[0] == Bool(a.enabled) && vs[1] == OptText(a.retention);
    assert vs[2] == OptText(a.operatorHint) && vs[3] == OptText(a.replayMaxAge);
  }

  // ----- Metadata -----

  lemma StampOf(m: C.Table, order: seq<string>, k: string)
    requires Lists(order, m)
    ensures Field(MetadataValue(m, order).entries, k) == if k in m then Some(Str(m[k])) else None
    ensures Valid(MetadataValue(m, order))
  {
    var es := MetadataValue(m, order).entries;
    assert Keys(es) == order;
    HasIffInKeys(es, k);
    if k in m {
      var i :| 0 <= i < |order| && order[i] == k;
      Fingerprint.FieldAt(es, i);
    }
  }

  /** The text a metadata key is hashed with: a payload in its normal form. */
  function HashedText(read: Reader, m: C.Table, k: string): Option<string> {
    if k !in m then None
    else if k == RUNNER_EXEC then Some(NormalExec(read, m[k]))
    else Some(m[k])
  }

  ghost predicate SameHashedTexts(read: Reader, m: C.Table, n: C.Table) {
    forall k :: HashedText(read, m, k) == HashedText(read, n, k)
  }

  lemma StampExact(read: Reader, m: C.Table, o: seq<string>, n: C.Table, p: seq<string>, k: string)
    requires Lists(o, m) && Lists(p, n)
    ensures SameStamp(read, k, MetadataValue(m, o), MetadataValue(n, p))
       <==> HashedText(read, m, k) == HashedText(read, n, k)
  {
    StampOf(m, o, k);
    StampOf(n, p, k);
  }

  lemma MetadataExact(read: Reader, m: C.Table, o: seq<string>, n: C.Table, p: seq<string>)
    requires Lists(o, m) && Lists(p, n)
    ensures SameMetadata(read, MetadataValue(m, o), MetadataValue(n, p)) <==> SameHashedTexts(read, m, n)
  {
    forall k
      ensures SameStamp(read, k, MetadataValue(m, o), MetadataValue(n, p))
         <==> HashedText(read, m, k) == HashedText(read, n, k)
    {
      StampExact(read, m, o, n, p, k);
    }
  }

  // ----- The whole job -----

  /** Two compiled jobs agree on a field, as far as the hash can tell. */
  ghost predicate Agree(read: Reader, a: C.JobConfig, b: C.JobConfig, f: JobField) {
    if f.MetadataField? then SameHashedTexts(read, a.draft.metadata, b.draft.metadata) else AgreeSetting(a, b, f)
  }

  predicate AgreeSetting(a: C.JobConfig, b: C.JobConfig, f: JobField) {
    if IsRecord(f) then SameRecordOf(a, b, f) else AgreePlain(a, b, f)
  }

  predicate AgreePlain(a: C.JobConfig, b: C.JobConfig, f: JobField) {
    if IsText(f) then TextOf(a, f) == TextOf(b, f)
    else if IsCount(f) then CountOf(a, f) == CountOf(b, f)
    else if IsFlag(f) then FlagOf(a, f) == FlagOf(b, f)
    else IsChoice(f) ==> SameChoice(a.draft.queue, b.draft.queue, f)
  }

  predicate SameRecordOf(a: C.JobConfig, b: C.JobConfig, f: JobField)
    requires IsRecord(f)
  {
    match f
    case ScheduleField => a.schedule == b.schedule
    case RunnerField => a.draft.placement == b.draft.placement
    case RetryField => SameRetry(a.draft.retry, b.draft.retry)
    case DeadLetterField => a.draft.deadLetter == b.draft.deadLetter
  }

  predicate SameChoice(a: C.Queue, b: C.Queue, f: JobField)
    requires IsChoice(f)
  {
    match f
    case ExecutionModeField => a.mode == b.mode
    case CatchUpField => a.catchUp == b.catchUp
    case PriorityField => a.priority == b.priority
  }

  lemma RecordOfExact(a: C.JobConfig, b: C.JobConfig, f: JobField)
    requires IsRecord(f)
    ensures SameValue(RecordOf(a, f), RecordOf(b, f)) <==> SameRecordOf(a, b, f)
    ensures Valid(RecordOf(a, f))
  {
    if f.ScheduleField? {
      ScheduleExact(a.schedule, b.schedule);
    } else if f.RunnerField? {
      PlacementExact(a.draft.placement, b.draft.placement);
    } else if f.RetryField? {
      RetryExact(a.draft.retry, b.draft.retry);
    } else {
      DeadLetterExact(a.draft.deadLetter, b.draft.deadLetter);
    }
  }

  lemma ChoiceOfExact(a: C.JobConfig, b: C.JobConfig, f: JobField)
    requires IsChoice(f)
    ensures ChoiceOf(a, f).Str?
    ensures ChoiceOf(a, f) == ChoiceOf(b, f) <==> SameChoice(a.draft.queue, b.draft.queue, f)
  {
    assert |"queued"| == 6 && |"ephemeral"| == 9 && |"all"| == 3 && |"latest"| == 6 && |"none"| == 4;
    assert |"low"| == 3 && |"normal"| == 6 && |"high"| == 4;
  }

  lemma ChoiceFieldExact(s: Source, t: Source, f: JobField)
    requires IsChoice(f)
    ensures SameValue(PlainValue(s, f), PlainValue(t, f)) <==> AgreePlain(s.job, t.job, f)
    ensures Valid(PlainValue(s, f))
  {
    ChoiceOfExact(s.job, t.job, f);
    assert PlainValue(s, f) == ChoiceOf(s.job, f) && PlainValue(t, f) == ChoiceOf(t.job, f);
  }

  predicate IsScalar(f: JobField) {
    IsText(f) || IsCount(f) || IsFlag(f)
  }

  lemma ScalarFieldExact(s: Source, t: Source, f: JobField)
    requires IsScalar(f)
    ensures SameValue(PlainValue(s, f), PlainValue(t, f)) <==> AgreePlain(s.job, t.job, f)
    ensures Valid(PlainValue(s, f))
  {
  }

  lemma LabelValid(s: Source, f: JobField)
    requires !f.MetadataField? && !IsRecord(f) && !IsChoice(f) && !IsScalar(f)
    ensures Valid(PlainValue(s, f))
  {
    StringsInjective(s.job.draft.tags, s.job.draft.tags);
    assert PlainValue(s, f) == LabelOf(s, f);
  }

  lemma ValueValid(s: Source, f: JobField)
    requires IsSource(s)
    ensures Valid(FieldValue(s, f))
  {
    if f.MetadataField? {
      StampOf(s.job.draft.metadata, s.order, "");
    } else if IsRecord(f) {
      RecordOfExact(s.job, s.job, f);
    } else if IsChoice(f) {
      ChoiceFieldExact(s, s, f);
    } else if IsScalar(f) {
      ScalarFieldExact(s, s, f);
    } else {
      LabelValid(s, f);
    }
  }

  /** The value of a hashed field is the same as JSON exactly when the jobs agree on it. */
  lemma PlainFieldExact(s: Source, t: Source, f: JobField)
    requires !Ignored(f) && !f.MetadataField? && !IsRecord(f)
    ensures SameValue(PlainValue(s, f), PlainValue(t, f)) <==> AgreePlain(s.job, t.job, f)
  {
    if IsChoice(f) {
      ChoiceFieldExact(s, t, f);
    } else {
      ScalarFieldExact(s, t, f);
    }
  }

  lemma CountOfFields(s: Source, f: JobField)
    ensures FieldIndex(f) < Count(s) <==> (f.PriorityField? ==> !s.job.draft.queue.priority.Normal?)
  {
  }

  lemma FieldAgrees(read: Reader, s: Source, t: Source, f: JobField)
    requires IsSource(s) && IsSource(t) && !Ignored(f)
    ensures SameCell(read, f, Cell(Count(s), g => FieldValue(s, g), f), Cell(Count(t), g => FieldValue(t, g), f))
       <==> Agree(read, s.job, t.job, f)
  {
    CountOfFields(s, f);
    CountOfFields(t, f);
    if f.MetadataField? {
      MetadataExact(read, s.job.draft.metadata, s.order, t.job.draft.metadata, t.order);
    } else if IsRecord(f) {
      RecordOfExact(s.job, t.job, f);
    } else {
      PlainFieldExact(s, t, f);
    }
  }

  /**
   Two compiled jobs have the same hashed text exactly when they agree on every field
   that is not ignored. The order in which their metadata is kept, their name, their
   summary and their tags make no difference; anything else does.
   */
  lemma HashExact(read: Reader, s: Source, t: Source)
    requires IsSource(s) && IsSource(t)
    ensures ConfigText(read, JobValue(s)) == ConfigText(read, JobValue(t))
       <==> forall f :: !Ignored(f) ==> Agree(read, s.job, t.job, f)
  {
    var v, w := (f: JobField) => FieldValue(s, f), (f: JobField) => FieldValue(t, f);
    FieldNaming();
    forall f ensures Valid(v(f)) && Valid(w(f)) {
      ValueValid(s, f);
      ValueValid(t, f);
    }
    forall f | !Ignored(f)
      ensures SameCell(read, f, Cell(Count(s), v, f), Cell(Count(t), w, f)) <==> Agree(read, s.job, t.job, f)
    {
      FieldAgrees(read, s, t, f);
    }
    SheetExact(read, FieldName, Count(s), v, Count(t), w);
  }

  /** Two texts of one payload document. */
  ghost predicate SamePayloadDocument(read: Reader, r: string, t: string) {
    && read(r).Some? && read(t).Some? && SameValue(read(r).value, read(t).value)
    && DecodeExec(read(r).value).Some?
  }

  lemma LayoutOfPayload(read: Reader, m: C.Table, text: string)
    requires RUNNER_EXEC in m && SamePayloadDocument(read, m[RUNNER_EXEC], text)
    ensures SameHashedTexts(read, m, m[RUNNER_EXEC := text])
  {
    PayloadOrderIgnored(read, m[RUNNER_EXEC], text);
  }

  lemma MetadataAlone(read: Reader, j: C.JobConfig, n: C.Table, f: JobField)
    requires f.MetadataField? ==> SameHashedTexts(read, j.draft.metadata, n)
    ensures Agree(read, j, j.(draft := j.draft.(metadata := n)), f)
  {
  }

  lemma JitterAlone(read: Reader, j: C.JobConfig, f: JobField)
    requires j.draft.retry.jitter.Some? && j.draft.retry.jitter.value.NonFinite?
    ensures Agree(read, j, j.(draft := j.draft.(retry := j.draft.retry.(jitter := None))), f)
  {
  }

  /**
   Rewriting the embedded payload with its entries in another order, `env` included,
   leaves the hashed text of the job as it was.
   */
  lemma PayloadLayoutIgnored(read: Reader, s: Source, t: Source, text: string)
    requires IsSource(s) && IsSource(t) && RUNNER_EXEC in s.job.draft.metadata
    requires t.job == s.job.(draft := s.job.draft.(metadata := s.job.draft.metadata[RUNNER_EXEC := text]))
    requires SamePayloadDocument(read, s.job.draft.metadata[RUNNER_EXEC], text)
    ensures ConfigText(read, JobValue(s)) == ConfigText(read, JobValue(t))
  {
    var m := s.job.draft.metadata;
    LayoutOfPayload(read, m, text);
    forall f | !Ignored(f) ensures Agree(read, s.job, t.job, f) {
      MetadataAlone(read, s.job, m[RUNNER_EXEC := text], f);
    }
    HashExact(read, s, t);
  }

  /** A jitter that is not a finite number hashes like no jitter at all: the two jobs differ, their texts do not. */
  lemma NonFiniteJitterUnseen(read: Reader, s: Source, t: Source)
    requires IsSource(s) && s.job.draft.retry.jitter.Some? && s.job.draft.retry.jitter.value.NonFinite?
    requires t.order == s.order
    requires t.job == s.job.(draft := s.job.draft.(retry := s.job.draft.retry.(jitter := None)))
    ensures s.job.draft.retry != t.job.draft.retry
    ensures ConfigText(read, JobValue(s)) == ConfigText(read, JobValue(t))
  {
    forall f | !Ignored(f) ensures Agree(read, s.job, t.job, f) {
      JitterAlone(read, s.job, f);
    }
    HashExact(read, s, t);
  }
}
