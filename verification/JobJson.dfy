/**
 What the serialiser writes for a compiled job, name by name: under which name a
 reader of the JSON finds which setting.
 */
module JobJson {
  import opened Wrappers
  import opened Folds
  import opened KeyOrder
  import opened JsonScalars
  import opened CanonicalJson
  import opened Fingerprint
  import opened JobHash
  import Calendar
  import NextFire
  import Convert
  import ScheduleText
  import C = Compile
  import Ast = CroniqAst

  /** The object has this value under this name. */
  predicate Shows(v: Value, name: string, w: Value) {
    v.Object? && Field(v.entries, name) == Some(w)
  }

  // ----- The job -----

  /** The object has under this name what is written for this field. */
  predicate At(v: Value, s: Source, name: string, f: JobField) {
    Shows(v, name, FieldValue(s, f))
  }

  /** Every field but the priority is written under its name. */
  ghost predicate FieldsWritten(v: Value, s: Source) {
    forall f: JobField {:trigger At(v, s, FieldName(f), f)} :: !f.PriorityField? ==> At(v, s, FieldName(f), f)
  }

  lemma EveryField(s: Source)
    ensures FieldsWritten(JobValue(s), s)
  {
    forall f: JobField | !f.PriorityField?
      ensures At(JobValue(s), s, FieldName(f), f)
    {
      OneField(s, f);
    }
  }

  lemma OneField(s: Source, f: JobField)
    requires !f.PriorityField?
    ensures At(JobValue(s), s, FieldName(f), f)
  {
    FieldNaming();
    SheetField(FieldName, Count(s), g => FieldValue(s, g), f);
  }

  lemma FieldWritten(s: Source, v: Value, f: JobField, name: string)
    requires FieldsWritten(v, s) && name == FieldName(f) && !f.PriorityField?
    ensures At(v, s, name, f)
  {
  }

  lemma TextAt(v: Value, s: Source, name: string, f: JobField)
    requires At(v, s, name, f) && IsText(f)
    ensures Shows(v, name, OptText(TextOf(s.job, f)))
  {
  }

  lemma CountAt(v: Value, s: Source, name: string, f: JobField)
    requires At(v, s, name, f) && IsCount(f)
    ensures Shows(v, name, OptNumber(CountOf(s.job, f)))
  {
  }

  lemma FlagAt(v: Value, s: Source, name: string, f: JobField)
    requires At(v, s, name, f) && IsFlag(f)
    ensures Shows(v, name, Bool(FlagOf(s.job, f)))
  {
  }

  lemma RecordAt(v: Value, s: Source, name: string, f: JobField)
    requires At(v, s, name, f) && IsRecord(f)
    ensures Shows(v, name, RecordOf(s.job, f))
  {
  }

  lemma ChoiceAt(v: Value, s: Source, name: string, f: JobField)
    requires At(v, s, name, f) && IsChoice(f)
    ensures Shows(v, name, ChoiceOf(s.job, f))
  {
  }

  predicate IsLabel(f: JobField) {
    f.KeyField? || f.NamespaceField? || f.NameField? || f.VariantField? || f.ScheduleSummaryField? || f.TagsField?
  }

  lemma LabelAt(v: Value, s: Source, name: string, f: JobField)
    requires At(v, s, name, f) && IsLabel(f)
    ensures Shows(v, name, LabelOf(s, f))
  {
  }

  /** The texts a job is described and placed in time by; one that was never set is `null`. */
  predicate TextsShown(v: Value, j: C.JobConfig) {
    && Shows(v, "description", OptText(j.draft.description))
    && Shows(v, "timezone", OptText(j.draft.timezone))
    && Shows(v, "window", OptText(j.draft.window))
  }

  lemma TextsFrom(v: Value, s: Source)
    requires At(v, s, "description", DescriptionField)
    requires At(v, s, "timezone", TimezoneField)
    requires At(v, s, "window", WindowField)
    ensures TextsShown(v, s.job)
  {
    TextAt(v, s, "description", DescriptionField);
    TextAt(v, s, "timezone", TimezoneField);
    TextAt(v, s, "window", WindowField);
  }

  lemma TextsWritten(v: Value, s: Source)
    requires FieldsWritten(v, s)
    ensures TextsShown(v, s.job)
  {
    FieldWritten(s, v, DescriptionField, "description");
    FieldWritten(s, v, TimezoneField, "timezone");
    FieldWritten(s, v, WindowField, "window");
    TextsFrom(v, s);
  }

  predicate BoundsShown(v: Value, j: C.JobConfig) {
    && Shows(v, "calendar", OptText(j.calendar))
    && Shows(v, "not_before", OptText(j.notBefore))
    && Shows(v, "not_after", OptText(j.notAfter))
  }

  lemma BoundsFrom(v: Value, s: Source)
    requires At(v, s, "calendar", CalendarField)
    requires At(v, s, "not_before", NotBeforeField)
    requires At(v, s, "not_after", NotAfterField)
    ensures BoundsShown(v, s.job)
  {
    TextAt(v, s, "calendar", CalendarField);
    TextAt(v, s, "not_before", NotBeforeField);
    TextAt(v, s, "not_after", NotAfterField);
  }

  lemma BoundsWritten(v: Value, s: Source)
    requires FieldsWritten(v, s)
    ensures BoundsShown(v, s.job)
  {
    FieldWritten(s, v, CalendarField, "calendar");
    FieldWritten(s, v, NotBeforeField, "not_before");
    FieldWritten(s, v, NotAfterField, "not_after");
    BoundsFrom(v, s);
  }

  predicate LimitsShown(v: Value, j: C.JobConfig) {
    && Shows(v, "timeout", OptText(j.draft.timeout))
    && Shows(v, "queue_ttl", OptText(j.draft.queue.ttl))
    && Shows(v, "concurrency_group", OptText(j.draft.guards.group))
  }

  lemma LimitsFrom(v: Value, s: Source)
    requires At(v, s, "timeout", TimeoutField)
    requires At(v, s, "queue_ttl", QueueTtlField)
    requires At(v, s, "concurrency_group", ConcurrencyGroupField)
    ensures LimitsShown(v, s.job)
  {
    TextAt(v, s, "timeout", TimeoutField);
    TextAt(v, s, "queue_ttl", QueueTtlField);
    TextAt(v, s, "concurrency_group", ConcurrencyGroupField);
  }

  lemma GroupWritten(v: Value, s: Source)
    requires FieldsWritten(v, s)
    ensures At(v, s, "concurrency_group", ConcurrencyGroupField)
  {
    FieldWritten(s, v, ConcurrencyGroupField, "concurrency_group");
  }

  lemma LimitsWritten(v: Value, s: Source)
    requires FieldsWritten(v, s)
    ensures LimitsShown(v, s.job)
  {
    FieldWritten(s, v, TimeoutField, "timeout");
    FieldWritten(s, v, QueueTtlField, "queue_ttl");
    GroupWritten(v, s);
    LimitsFrom(v, s);
  }

  predicate CountsShown(v: Value, j: C.JobConfig) {
    && Shows(v, "max_queue_depth", OptNumber(j.draft.queue.maxDepth))
    && Shows(v, "keep_last", OptNumber(j.draft.queue.keepLast))
    && Shows(v, "max_concurrent", OptNumber(j.draft.guards.maxConcurrent))
  }

  lemma CountsFrom(v: Value, s: Source)
    requires At(v, s, "max_queue_depth", MaxQueueDepthField)
    requires At(v, s, "keep_last", KeepLastField)
    requires At(v, s, "max_concurrent", MaxConcurrentField)
    ensures CountsShown(v, s.job)
  {
    CountAt(v, s, "max_queue_depth", MaxQueueDepthField);
    CountAt(v, s, "keep_last", KeepLastField);
    CountAt(v, s, "max_concurrent", MaxConcurrentField);
  }

  lemma DepthWritten(v: Value, s: Source)
    requires FieldsWritten(v, s)
    ensures At(v, s, "max_queue_depth", MaxQueueDepthField)
  {
    FieldWritten(s, v, MaxQueueDepthField, "max_queue_depth");
  }

  lemma ConcurrentWritten(v: Value, s: Source)
    requires FieldsWritten(v, s)
    ensures At(v, s, "max_concurrent", MaxConcurrentField)
  {
    FieldWritten(s, v, MaxConcurrentField, "max_concurrent");
  }

  lemma CountsWritten(v: Value, s: Source)
    requires FieldsWritten(v, s)
    ensures CountsShown(v, s.job)
  {
    DepthWritten(v, s);
    FieldWritten(s, v, KeepLastField, "keep_last");
    ConcurrentWritten(v, s);
    CountsFrom(v, s);
  }

  predicate FlagsShown(v: Value, j: C.JobConfig) {
    && Shows(v, "catch_up_explicit", Bool(j.draft.queue.catchUpExplicit))
    && Shows(v, "coalesce", Bool(j.draft.guards.coalesce))
    && Shows(v, "run_on_register", Bool(j.draft.runOnRegister))
  }

  lemma FlagsFrom(v: Value, s: Source)
    requires At(v, s, "catch_up_explicit", CatchUpExplicitField)
    requires At(v, s, "coalesce", CoalesceField)
    requires At(v, s, "run_on_register", RunOnRegisterField)
    ensures FlagsShown(v, s.job)
  {
    FlagAt(v, s, "catch_up_explicit", CatchUpExplicitField);
    FlagAt(v, s, "coalesce", CoalesceField);
    FlagAt(v, s, "run_on_register", RunOnRegisterField);
  }

  lemma ExplicitWritten(v: Value, s: Source)
    requires FieldsWritten(v, s)
    ensures At(v, s, "catch_up_explicit", CatchUpExplicitField)
  {
    FieldWritten(s, v, CatchUpExplicitField, "catch_up_explicit");
  }

  lemma RegisterWritten(v: Value, s: Source)
    requires FieldsWritten(v, s)
    ensures At(v, s, "run_on_register", RunOnRegisterField)
  {
    FieldWritten(s, v, RunOnRegisterField, "run_on_register");
  }

  lemma FlagsWritten(v: Value, s: Source)
    requires FieldsWritten(v, s)
    ensures FlagsShown(v, s.job)
  {
    ExplicitWritten(v, s);
    FieldWritten(s, v, CoalesceField, "coalesce");
    RegisterWritten(v, s);
    FlagsFrom(v, s);
  }

  predicate NamesShown(v: Value, s: Source) {
    && Shows(v, "key", Str(s.job.key))
    && Shows(v, "namespace", Str(s.labels.namespace))
    && Shows(v, "name", Str(s.labels.name))
  }

  lemma NamesFrom(v: Value, s: Source)
    requires At(v, s, "key", KeyField)
    requires At(v, s, "namespace", NamespaceField)
    requires At(v, s, "name", NameField)
    ensures NamesShown(v, s)
  {
    LabelAt(v, s, "key", KeyField);
    LabelAt(v, s, "namespace", NamespaceField);
    LabelAt(v, s, "name", NameField);
  }

  lemma NamesWritten(v: Value, s: Source)
    requires FieldsWritten(v, s)
    ensures NamesShown(v, s)
  {
    FieldWritten(s, v, KeyField, "key");
    FieldWritten(s, v, NamespaceField, "namespace");
    FieldWritten(s, v, NameField, "name");
    NamesFrom(v, s);
  }

  predicate LabelsShown(v: Value, s: Source) {
    && Shows(v, "variant", OptText(s.labels.variant))
    && Shows(v, "schedule_summary", Str(s.labels.summary))
    && Shows(v, "tags", Strings(s.job.draft.tags))
  }

  lemma LabelsFrom(v: Value, s: Source)
    requires At(v, s, "variant", VariantField)
    requires At(v, s, "schedule_summary", ScheduleSummaryField)
    requires At(v, s, "tags", TagsField)
    ensures LabelsShown(v, s)
  {
    LabelAt(v, s, "variant", VariantField);
    LabelAt(v, s, "schedule_summary", ScheduleSummaryField);
    LabelAt(v, s, "tags", TagsField);
  }

  lemma SummaryWritten(v: Value, s: Source)
    requires FieldsWritten(v, s)
    ensures At(v, s, "schedule_summary", ScheduleSummaryField)
  {
    FieldWritten(s, v, ScheduleSummaryField, "schedule_summary");
  }

  lemma LabelsWritten(v: Value, s: Source)
    requires FieldsWritten(v, s)
    ensures LabelsShown(v, s)
  {
    FieldWritten(s, v, VariantField, "variant");
    SummaryWritten(v, s);
    FieldWritten(s, v, TagsField, "tags");
    LabelsFrom(v, s);
  }

  /** A choice is written as the word its directive takes; a normal priority is not written at all. */
  ghost predicate ChoicesShown(v: Value, q: C.Queue) {
    && v.Object?
    && (exists mode :: C.ParseMode(mode) == Some(q.mode) && Shows(v, "execution_mode", Str(mode)))
    && (exists word :: C.ParseCatchUp(word) == Some(q.catchUp) && Shows(v, "catch_up", Str(word)))
    && (q.priority.Normal? ==> Field(v.entries, "priority").None?)
    && (!q.priority.Normal? ==>
          exists word :: C.ParsePriority(word) == Some(q.priority) && Shows(v, "priority", Str(word)))
  }

  lemma ChoicesWritten(s: Source)
    ensures ChoicesShown(JobValue(s), s.job.draft.queue)
  {
    var q := s.job.draft.queue;
    ChoiceWords(q);
    EveryField(s);
    ModeWritten(JobValue(s), s);
    CatchUpWritten(JobValue(s), s);
    PriorityWritten(s);
  }

  lemma ChoiceWords(q: C.Queue)
    ensures C.ParseMode(ModeValue(q.mode).s) == Some(q.mode)
    ensures C.ParseCatchUp(CatchUpValue(q.catchUp).s) == Some(q.catchUp)
    ensures C.ParsePriority(C.PriorityText(q.priority)) == Some(q.priority)
  {
    assert |"queued"| == 6 && |"ephemeral"| == 9 && |"all"| == 3 && |"latest"| == 6 && |"none"| == 4;
    assert |"low"| == 3 && |"normal"| == 6 && |"high"| == 4;
  }

  lemma ModeWritten(v: Value, s: Source)
    requires FieldsWritten(v, s)
    ensures Shows(v, "execution_mode", ModeValue(s.job.draft.queue.mode))
  {
    FieldWritten(s, v, ExecutionModeField, "execution_mode");
    ChoiceAt(v, s, "execution_mode", ExecutionModeField);
  }

  lemma CatchUpWritten(v: Value, s: Source)
    requires FieldsWritten(v, s)
    ensures Shows(v, "catch_up", CatchUpValue(s.job.draft.queue.catchUp))
  {
    FieldWritten(s, v, CatchUpField, "catch_up");
    ChoiceAt(v, s, "catch_up", CatchUpField);
  }

  lemma PriorityWritten(s: Source)
    ensures Field(JobValue(s).entries, "priority")
         == if s.job.draft.queue.priority.Normal? then None
            else Some(Str(C.PriorityText(s.job.draft.queue.priority)))
  {
    FieldNaming();
    SheetField(FieldName, Count(s), g => FieldValue(s, g), PriorityField);
  }

  /** The metadata map is written entry by entry, in whatever order it yields its keys. */
  ghost predicate TableShown(v: Value, m: C.Table) {
    v.Object? && forall k :: Field(v.entries, k) == if k in m then Some(Str(m[k])) else None
  }

  lemma MetadataWritten(s: Source)
    requires IsSource(s)
    ensures exists v :: TableShown(v, s.job.draft.metadata) && Shows(JobValue(s), "metadata", v)
  {
    var v := MetadataValue(s.job.draft.metadata, s.order);
    EveryField(s);
    FieldWritten(s, JobValue(s), MetadataField, "metadata");
    forall k
      ensures Field(v.entries, k) == if k in s.job.draft.metadata then Some(Str(s.job.draft.metadata[k])) else None
    {
      StampOf(s.job.draft.metadata, s.order, k);
    }
    assert TableShown(v, s.job.draft.metadata);
  }

  // ----- The records inside it -----

  lemma RecordShows(names: seq<string>, values: seq<Value>, i: nat)
    requires |names| == |values| && Distinct(names) && i < |names|
    ensures Shows(Object(Record(names, values)), names[i], values[i])
  {
    var es := Record(names, values);
    assert Keys(es) == names;
    Fingerprint.FieldAt(es, i);
  }

  predicate PlacementShown(v: Value, p: C.Placement) {
    && Shows(v, "require", Strings(p.require)) && Shows(v, "prefer", Strings(p.prefer))
    && Shows(v, "exclude", Strings(p.exclude)) && Shows(v, "sticky", Bool(p.sticky))
  }

  lemma PlacementShows(p: C.Placement)
    ensures PlacementShown(PlacementValue(p), p)
  {
    PlacementNames();
    RecordShows(PLACEMENT_NAMES, PlacementValues(p), 0);
    RecordShows(PLACEMENT_NAMES, PlacementValues(p), 1);
    RecordShows(PLACEMENT_NAMES, PlacementValues(p), 2);
    RecordShows(PLACEMENT_NAMES, PlacementValues(p), 3);
  }

  predicate RetryShown(v: Value, r: C.Retry) {
    && Shows(v, "strategy", Str(r.strategy)) && Shows(v, "max_attempts", Int(r.maxAttempts))
    && Shows(v, "base", OptText(r.base)) && Shows(v, "cap", OptText(r.cap))
    && Shows(v, "delay", OptText(r.delay)) && Shows(v, "step", OptText(r.step))
    && Shows(v, "jitter", OptFraction(r.jitter))
  }

  lemma RetryShows(r: C.Retry)
    ensures RetryShown(RetryValue(r), r)
  {
    RetryNames();
    RecordShows(RETRY_NAMES, RetryValues(r), 0);
    RecordShows(RETRY_NAMES, RetryValues(r), 1);
    RecordShows(RETRY_NAMES, RetryValues(r), 2);
    RecordShows(RETRY_NAMES, RetryValues(r), 3);
    RecordShows(RETRY_NAMES, RetryValues(r), 4);
    RecordShows(RETRY_NAMES, RetryValues(r), 5);
    RecordShows(RETRY_NAMES, RetryValues(r), 6);
  }

  predicate DeadLetterShown(v: Value, d: C.DeadLetter) {
    && Shows(v, "enabled", Bool(d.enabled)) && Shows(v, "retention", OptText(d.retention))
    && Shows(v, "operator_hint", OptText(d.operatorHint)) && Shows(v, "replay_max_age", OptText(d.replayMaxAge))
  }

  lemma DeadLetterShows(d: C.DeadLetter)
    ensures DeadLetterShown(DeadLetterValue(d), d)
  {
    DeadLetterNames();
    RecordShows(DEAD_LETTER_NAMES, DeadLetterValues(d), 0);
    RecordShows(DEAD_LETTER_NAMES, DeadLetterValues(d), 1);
    RecordShows(DEAD_LETTER_NAMES, DeadLetterValues(d), 2);
    RecordShows(DEAD_LETTER_NAMES, DeadLetterValues(d), 3);
  }

  /** The placement is found under `runner`, the retry and dead-letter settings under their own names. */
  ghost predicate RecordsShown(v: Value, d: C.Draft) {
    && (exists w :: PlacementShown(w, d.placement) && Shows(v, "runner", w))
    && (exists w :: RetryShown(w, d.retry) && Shows(v, "retry", w))
    && (exists w :: DeadLetterShown(w, d.deadLetter) && Shows(v, "dead_letter", w))
  }

  lemma PlacementField(v: Value, s: Source)
    requires FieldsWritten(v, s)
    ensures Shows(v, "runner", PlacementValue(s.job.draft.placement))
  {
    FieldWritten(s, v, RunnerField, "runner");
    RecordAt(v, s, "runner", RunnerField);
  }

  lemma RetriesField(v: Value, s: Source)
    requires FieldsWritten(v, s)
    ensures Shows(v, "retry", RetryValue(s.job.draft.retry))
  {
    FieldWritten(s, v, RetryField, "retry");
    RecordAt(v, s, "retry", RetryField);
  }

  lemma LettersField(v: Value, s: Source)
    requires FieldsWritten(v, s)
    ensures Shows(v, "dead_letter", DeadLetterValue(s.job.draft.deadLetter))
  {
    FieldWritten(s, v, DeadLetterField, "dead_letter");
    RecordAt(v, s, "dead_letter", DeadLetterField);
  }

  lemma RecordsWritten(s: Source)
    ensures RecordsShown(JobValue(s), s.job.draft)
  {
    PlacementShows(s.job.draft.placement);
    RetryShows(s.job.draft.retry);
    DeadLetterShows(s.job.draft.deadLetter);
    EveryField(s);
    PlacementField(JobValue(s), s);
    RetriesField(JobValue(s), s);
    LettersField(JobValue(s), s);
  }

  // ----- The schedule -----

  /** A list of weekdays, each by a name the schedule parser knows as that day. */
  predicate ShowsDays(v: Value, days: seq<Calendar.Weekday>) {
    && v.Array? && |v.items| == |days|
    && forall i :: 0 <= i < |days| ==>
         v.items[i].Str? && Convert.DayNamed(ScheduleText.Lower(v.items[i].s)) == Some(days[i])
  }

  predicate ShowsOrdinal(v: Value, o: NextFire.Ordinal) {
    if o.Day? then Shows(v, "Day", Int(o.n)) else v == Str("Last")
  }

  predicate ShowsOrdinals(v: Value, os: seq<NextFire.Ordinal>) {
    v.Array? && |v.items| == |os| && forall i :: 0 <= i < |os| ==> ShowsOrdinal(v.items[i], os[i])
  }

  predicate ShowsTime(v: Value, hour: nat, minute: nat) {
    Shows(v, "hour", Int(hour)) && Shows(v, "minute", Int(minute))
  }

  /** What a reader finds in a schedule: its kind is the only name, its settings are below. */
  ghost predicate ScheduleShown(v: Value, c: C.CompiledSchedule) {
    match c
    case Never => v == Str("Disabled")
    case EverySeconds(n) => exists w :: Shows(w, "seconds", Int(n)) && Shows(v, "Interval", w)
    case EveryDay(h, m) => exists w :: ShowsTime(w, h, m) && Shows(v, "Daily", w)
    case OnWeekdays(days, h, m) =>
      exists w, list :: ShowsTime(w, h, m) && Shows(w, "days", list) && ShowsDays(list, days) && Shows(v, "Weekdays", w)
    case OnOrdinals(os, h, m) =>
      exists w, list ::
        ShowsTime(w, h, m) && Shows(w, "ordinals", list) && ShowsOrdinals(list, os) && Shows(v, "Monthly", w)
    case OnceAt(at) => exists w :: Shows(w, "at", Str(at)) && Shows(v, "Once", w)
  }

  lemma OneShows(k: string, w: Value)
    ensures Shows(Object([Entry(k, w)]), k, w)
  {
    assert [Entry(k, w)][0].key == k;
  }

  lemma TimeShows(h: nat, m: nat)
    ensures ShowsTime(Object(TimeEntries(h, m)), h, m)
  {
    var es := TimeEntries(h, m);
    assert Keys(es) == ["hour", "minute"] && |"hour"| == 4 && |"minute"| == 6;
    DistinctByIndex(Keys(es));
    Fingerprint.FieldAt(es, 0);
    Fingerprint.FieldAt(es, 1);
  }

  lemma ListedShows(k: string, w: Value, h: nat, m: nat)
    requires k != "hour" && k != "minute"
    ensures ShowsTime(Object([Entry(k, w)] + TimeEntries(h, m)), h, m)
    ensures Shows(Object([Entry(k, w)] + TimeEntries(h, m)), k, w)
  {
    var es := [Entry(k, w)] + TimeEntries(h, m);
    assert Keys(es) == [k, "hour", "minute"] && |"hour"| == 4 && |"minute"| == 6;
    DistinctByIndex(Keys(es));
    Fingerprint.FieldAt(es, 0);
    Fingerprint.FieldAt(es, 1);
    Fingerprint.FieldAt(es, 2);
  }

  lemma DayNameLower(w: Calendar.Weekday)
    ensures DayValue(w).Str? && ScheduleText.Lower(DayValue(w).s) == Convert.DayName(w)
  {
    match w
    case Monday =>
    case Tuesday =>
    case Wednesday =>
    case Thursday =>
    case Friday =>
    case Saturday =>
    case Sunday =>
  }

  lemma DayNameKnown(w: Calendar.Weekday)
    ensures Convert.DayNamed(Convert.DayName(w)) == Some(w)
  {
  }

  lemma DayNameRead(w: Calendar.Weekday)
    ensures DayValue(w).Str? && Convert.DayNamed(ScheduleText.Lower(DayValue(w).s)) == Some(w)
  {
    DayNameLower(w);
    DayNameKnown(w);
  }

  lemma DayListShows(days: seq<Calendar.Weekday>)
    ensures ShowsDays(DayValues(days), days)
  {
    var list := DayValues(days);
    forall i | 0 <= i < |days|
      ensures list.items[i].Str? && Convert.DayNamed(ScheduleText.Lower(list.items[i].s)) == Some(days[i])
    {
      DayNameRead(days[i]);
    }
  }

  lemma OrdinalListShows(os: seq<NextFire.Ordinal>)
    ensures ShowsOrdinals(OrdinalValues(os), os)
  {
    var list := OrdinalValues(os);
    forall i | 0 <= i < |os|
      ensures ShowsOrdinal(list.items[i], os[i])
    {
      if os[i].Day? {
        OneShows("Day", Int(os[i].n));
      }
    }
  }

  lemma ScheduleShows(c: C.CompiledSchedule)
    ensures ScheduleShown(ScheduleValue(c), c)
  {
    OneShows(ScheduleTag(c), Object(ScheduleEntries(c)));
    match c
    case Never =>
    case EverySeconds(n) => OneShows("seconds", Int(n));
    case EveryDay(h, m) => TimeShows(h, m);
    case OnWeekdays(days, h, m) =>
      ListedShows("days", DayValues(days), h, m);
      DayListShows(days);
    case OnOrdinals(os, h, m) =>
      ListedShows("ordinals", OrdinalValues(os), h, m);
      OrdinalListShows(os);
    case OnceAt(at) => OneShows("at", Str(at));
  }

  lemma ScheduleWritten(s: Source)
    ensures exists v :: ScheduleShown(v, s.job.schedule) && Shows(JobValue(s), "schedule", v)
  {
    ScheduleShows(s.job.schedule);
    EveryField(s);
    FieldWritten(s, JobValue(s), ScheduleField, "schedule");
    RecordAt(JobValue(s), s, "schedule", ScheduleField);
  }

  // ----- The whole job -----

  /** Every setting of the job, under the name a reader looks for. */
  ghost predicate JobShown(v: Value, s: Source) {
    && NamesShown(v, s) && LabelsShown(v, s) && TextsShown(v, s.job) && BoundsShown(v, s.job) && LimitsShown(v, s.job)
    && CountsShown(v, s.job) && FlagsShown(v, s.job) && ChoicesShown(v, s.job.draft.queue)
    && RecordsShown(v, s.job.draft)
    && (exists m :: TableShown(m, s.job.draft.metadata) && Shows(v, "metadata", m))
    && exists w :: ScheduleShown(w, s.job.schedule) && Shows(v, "schedule", w)
  }

  lemma JobInJson(s: Source)
    requires IsSource(s)
    ensures JobShown(JobValue(s), s)
  {
    var v := JobValue(s);
    EveryField(s);
    NamesWritten(v, s);
    LabelsWritten(v, s);
    TextsWritten(v, s);
    BoundsWritten(v, s);
    LimitsWritten(v, s);
    CountsWritten(v, s);
    FlagsWritten(v, s);
    ChoicesWritten(s);
    RecordsWritten(s);
    MetadataWritten(s);
    ScheduleWritten(s);
  }
}
