/**
 What a job inherits: setting by setting, what the `defaults` blocks before it said
 last, else the value the compiler starts from.
 */
module DefaultsLaws {
  import opened Wrappers
  import opened Folds
  import opened CroniqAst
  import opened Compile
  import opened FieldLaws
  import opened CompileLaws
  import opened FileLaws

  // ----- One block -----

  /** The queue settings of a body, read by themselves. */
  function QueueNode(c: Context): (Queue, Node) -> Queue {
    (q: Queue, n: Node) => if n.Leaf? then QueueDirective(c, q, KeyOf(n.d.key), n.d) else q
  }

  lemma JobQueue(c: Context, s: Draft, body: seq<Node>)
    ensures Fold(JobStep(c), s, body).queue == Fold(QueueNode(c), s.queue, body)
  {
    forall t, n ensures JobStep(c)(t, n).queue == QueueNode(c)(t.queue, n) {
      if n.Leaf? {
        DirectiveParts(c, t, KeyOf(n.d.key), n.d, JobStep(c)(t, n));
      }
    }
    FoldProjects(JobStep(c), (t: Draft) => t.queue, QueueNode(c), s, body);
  }

  lemma DefaultsQueue(c: Context, s: JobDefaults, body: seq<Node>)
    ensures Fold(DefaultsStep(c), s, body).queue == Fold(QueueNode(c), s.queue, body)
  {
    FoldProjects(DefaultsStep(c), (t: JobDefaults) => t.queue, QueueNode(c), s, body);
  }

  lemma QueueRead(c: Context, q: Queue, body: seq<Node>)
    ensures QueueFrom(c, body, q, Fold(QueueNode(c), q, body))
  {
    var s := StartDraft(JobBlock("", None, []), INITIAL_DEFAULTS).(queue := q);
    JobQueue(c, s, body);
    QueueDecided(c, s, body);
  }

  lemma DefaultsTexts(c: Context, s: JobDefaults, body: seq<Node>)
    ensures Fold(DefaultsStep(c), s, body).timezone == OrElse(LastSaid(TimezoneSaid(c), body), s.timezone)
    ensures Fold(DefaultsStep(c), s, body).timeout == OrElse(LastSaid(TimeoutSaid(c), body), s.timeout)
  {
    LastDecides(DefaultsStep(c), (t: JobDefaults) => t.timezone, Said(TimezoneSaid(c)), s, body);
    LastDecides(DefaultsStep(c), (t: JobDefaults) => t.timeout, Said(TimeoutSaid(c)), s, body);
  }

  lemma DefaultsBlocks(c: Context, s: JobDefaults, body: seq<Node>)
    ensures Fold(DefaultsStep(c), s, body).retry == Fold(RetryLayer(c), s.retry, body)
    ensures Fold(DefaultsStep(c), s, body).deadLetter == Fold(DeadLetterLayer(c), s.deadLetter, body)
  {
    FoldProjects(DefaultsStep(c), (t: JobDefaults) => t.retry, RetryLayer(c), s, body);
    FoldProjects(DefaultsStep(c), (t: JobDefaults) => t.deadLetter, DeadLetterLayer(c), s, body);
  }

  /** Each default is what the block last said about it, else what it was. */
  lemma DefaultsExact(c: Context, s: JobDefaults, body: seq<Node>)
    ensures var r := Fold(DefaultsStep(c), s, body);
            && r.timezone == OrElse(LastSaid(TimezoneSaid(c), body), s.timezone)
            && r.timeout == OrElse(LastSaid(TimeoutSaid(c), body), s.timeout)
            && QueueFrom(c, body, s.queue, r.queue)
            && r.retry == Fold(RetryLayer(c), s.retry, body)
            && r.deadLetter == Fold(DeadLetterLayer(c), s.deadLetter, body)
  {
    DefaultsTexts(c, s, body);
    DefaultsQueue(c, s, body);
    QueueRead(c, s.queue, body);
    DefaultsBlocks(c, s, body);
  }

  // ----- A whole file -----

  /** Everything the `defaults` blocks among some items say, in order. */
  function DefaultsSaid(items: seq<Item>): seq<Node> {
    if items == [] then []
    else (if items[0].Defaults? then items[0].body else []) + DefaultsSaid(items[1..])
  }

  function JobsIn(items: seq<Item>): nat {
    if items == [] then 0 else (if items[0].Job? then 1 else 0) + JobsIn(items[1..])
  }

  function CalendarsIn(items: seq<Item>): nat {
    if items == [] then 0 else (if items[0].Calendar? then 1 else 0) + CalendarsIn(items[1..])
  }

  lemma {:induction false} PassDefaults(c: Context, p: Pass, items: seq<Item>)
    ensures Fold(PassStep(c), p, items).defaults == Fold(DefaultsStep(c), p.defaults, DefaultsSaid(items))
    ensures |Fold(PassStep(c), p, items).jobs| == |p.jobs| + JobsIn(items)
    ensures |Fold(PassStep(c), p, items).calendars| == |p.calendars| + CalendarsIn(items)
    decreases |items|
  {
    if items != [] {
      var item := items[0];
      PassDefaults(c, PassItem(c, p, item), items[1..]);
      FoldConcat(DefaultsStep(c), p.defaults, if item.Defaults? then item.body else [], DefaultsSaid(items[1..]));
    }
  }

  /** The defaults in force after some items. */
  function DefaultsAfter(c: Context, a: seq<Item>): JobDefaults {
    Fold(DefaultsStep(c), INITIAL_DEFAULTS, DefaultsSaid(a))
  }

  lemma PassOne(c: Context, a: seq<Item>, item: Item)
    ensures PassFrom(c, INITIAL_DEFAULTS, a + [item]) == PassItem(c, PassFrom(c, INITIAL_DEFAULTS, a), item)
  {
    var start := Pass(INITIAL_DEFAULTS, [], []);
    FoldConcat(PassStep(c), start, a, [item]);
    FoldOne(PassStep(c), Fold(PassStep(c), start, a), item);
  }

  lemma PassCounts(c: Context, defaults: JobDefaults, a: seq<Item>)
    ensures var p := PassFrom(c, defaults, a);
            && p.defaults == Fold(DefaultsStep(c), defaults, DefaultsSaid(a))
            && |p.jobs| == JobsIn(a) && |p.calendars| == CalendarsIn(a)
  {
    PassDefaults(c, Pass(defaults, [], []), a);
  }

  lemma JobInPass(c: Context, a: seq<Item>, job: JobBlock, b: seq<Item>)
    ensures var jobs := PassFrom(c, INITIAL_DEFAULTS, a + [Job(job)] + b).jobs;
            |jobs| == JobsIn(a) + 1 + JobsIn(b) && jobs[JobsIn(a)] == JobOf(c, job, DefaultsAfter(c, a))
  {
    var p, q := PassFrom(c, INITIAL_DEFAULTS, a), PassFrom(c, INITIAL_DEFAULTS, a + [Job(job)]);
    PassCounts(c, INITIAL_DEFAULTS, a);
    PassOne(c, a, Job(job));
    PassConcat(c, INITIAL_DEFAULTS, a + [Job(job)], b);
    PassCounts(c, q.defaults, b);
  }

  lemma CalendarInPass(c: Context, a: seq<Item>, cal: CalendarBlock, b: seq<Item>)
    ensures var cals := PassFrom(c, INITIAL_DEFAULTS, a + [Calendar(cal)] + b).calendars;
            && |cals| == CalendarsIn(a) + 1 + CalendarsIn(b)
            && cals[CalendarsIn(a)] == CalendarOf(c, cal, DefaultsAfter(c, a).timezone)
  {
    var p, q := PassFrom(c, INITIAL_DEFAULTS, a), PassFrom(c, INITIAL_DEFAULTS, a + [Calendar(cal)]);
    PassCounts(c, INITIAL_DEFAULTS, a);
    PassOne(c, a, Calendar(cal));
    PassConcat(c, INITIAL_DEFAULTS, a + [Calendar(cal)], b);
    PassCounts(c, q.defaults, b);
  }

  /** A job stands among the compiled jobs where its block stood, compiled on the defaults before it. */
  lemma JobInFile(env: Env, a: seq<Item>, job: JobBlock, b: seq<Item>)
    ensures var c := ContextOf(env, a + [Job(job)] + b);
            var jobs := ConfigOf(env, a + [Job(job)] + b).jobs;
            |jobs| == JobsIn(a) + 1 + JobsIn(b) && jobs[JobsIn(a)] == JobOf(c, job, DefaultsAfter(c, a))
  {
    JobInPass(ContextOf(env, a + [Job(job)] + b), a, job, b);
  }

  /** So does a calendar, with the zone of the `defaults` before it unless it names its own. */
  lemma CalendarInFile(env: Env, a: seq<Item>, cal: CalendarBlock, b: seq<Item>)
    ensures var c := ContextOf(env, a + [Calendar(cal)] + b);
            var cals := ConfigOf(env, a + [Calendar(cal)] + b).calendars;
            && CalendarsIn(a) < |cals|
            && cals[CalendarsIn(a)] == CalendarOf(c, cal, OrElse(LastSaid(TimezoneSaid(c), DefaultsSaid(a)), None))
  {
    var c := ContextOf(env, a + [Calendar(cal)] + b);
    CalendarInPass(c, a, cal, b);
    DefaultsTexts(c, INITIAL_DEFAULTS, DefaultsSaid(a));
  }

  /** The queue a job has when it is not ephemeral, from all that was said and the values the compiler starts with. */
  ghost predicate QueueSaid(c: Context, said: seq<Node>, q: Queue) {
    && (q.catchUp, q.catchUpExplicit) == OrElse(LastSaid(CatchUpSaid(c), said), (All, false))
    && q.ttl == OrElse(LastSaid(TtlSaid(c), said), None)
    && q.maxDepth == OrElse(LastSaid(NumberSaid(c, MaxQueueDepth), said), None)
    && q.keepLast == OrElse(LastSaid(NumberSaid(c, KeepLast), said), None)
  }

  function ModeSaidIn(c: Context, said: seq<Node>, job: JobBlock): Mode {
    OrElse(LastSaid(ModeSaid(c), job.body),
           if job.schedule.Some? && job.schedule.value.mode.Some? then job.schedule.value.mode.value
           else OrElse(LastSaid(ModeSaid(c), said), Queued))
  }

  const FIRST_RETRY: Retry := Retry("exponential", 3, Some("2s"), Some("30s"), None, None, Some(Finite(QUARTER)))
  const FIRST_DEAD_LETTER: DeadLetter := DeadLetter(true, Some("30d"), None, None)

  lemma SaidTogether<T>(says: (Key, Directive) -> Option<T>, d: seq<Node>, body: seq<Node>, first: T)
    ensures OrElse(LastSaid(says, d + body), first) == OrElse(LastSaid(says, body), OrElse(LastSaid(says, d), first))
  {
    LastConcat(Said(says), d, body);
  }

  lemma QueueTogether(c: Context, d: seq<Node>, job: JobBlock, defaults: JobDefaults, q: Queue)
    requires QueueFrom(c, d, INITIAL_DEFAULTS.queue, defaults.queue)
    requires QueueExact(c, job, defaults, q)
    ensures q.mode == ModeSaidIn(c, d, job)
    ensures q.priority == OrElse(LastSaid(PrioritySaid(c), d + job.body), Normal)
    ensures q.mode.Queued? ==> QueueSaid(c, d + job.body, q)
  {
    SaidTogether(PrioritySaid(c), d, job.body, Normal);
    SaidTogether(CatchUpSaid(c), d, job.body, (All, false));
    SaidTogether(TtlSaid(c), d, job.body, None);
    SaidTogether(NumberSaid(c, MaxQueueDepth), d, job.body, None);
    SaidTogether(NumberSaid(c, KeepLast), d, job.body, None);
  }

  /** The settings of a job in a file, from what the `defaults` before it and its own body say, in that order. */
  ghost predicate SettledBy(c: Context, d: seq<Node>, job: JobBlock, j: JobConfig) {
    var said := d + job.body;
    && j.draft.timezone == OrElse(Last(OptionZoneSaid(c), ScheduleOptions(job)),
                                  OrElse(LastSaid(TimezoneSaid(c), said), None))
    && j.draft.timeout == OrElse(LastSaid(TimeoutSaid(c), said), None)
    && j.draft.queue.mode == ModeSaidIn(c, d, job)
    && j.draft.queue.priority == OrElse(LastSaid(PrioritySaid(c), said), Normal)
    && (j.draft.queue.mode.Queued? ==> QueueSaid(c, said, j.draft.queue))
    && j.draft.retry == Fold(RetryLayer(c), FIRST_RETRY, said)
    && j.draft.deadLetter == Fold(DeadLetterLayer(c), FIRST_DEAD_LETTER, said)
  }

  lemma JobSettled(c: Context, d: seq<Node>, job: JobBlock, defaults: JobDefaults)
    requires defaults == Fold(DefaultsStep(c), INITIAL_DEFAULTS, d)
    ensures SettledBy(c, d, job, JobOf(c, job, defaults))
  {
    DefaultsExact(c, INITIAL_DEFAULTS, d);
    JobExact(c, job, defaults);
    JobRest(c, job, defaults);
    SaidTogether(TimezoneSaid(c), d, job.body, None);
    SaidTogether(TimeoutSaid(c), d, job.body, None);
    QueueTogether(c, d, job, defaults, JobOf(c, job, defaults).draft.queue);
    FoldConcat(RetryLayer(c), FIRST_RETRY, d, job.body);
    FoldConcat(DeadLetterLayer(c), FIRST_DEAD_LETTER, d, job.body);
  }

  /**
   In any file, a job has for every setting what its own body said last, else what the
   `defaults` before it said last, else the initial value.
   */
  lemma FileSettings(env: Env, a: seq<Item>, job: JobBlock, b: seq<Item>)
    ensures var c := ContextOf(env, a + [Job(job)] + b);
            var jobs := ConfigOf(env, a + [Job(job)] + b).jobs;
            JobsIn(a) < |jobs| && SettledBy(c, DefaultsSaid(a), job, jobs[JobsIn(a)])
  {
    var c := ContextOf(env, a + [Job(job)] + b);
    JobInFile(env, a, job, b);
    JobSettled(c, DefaultsSaid(a), job, DefaultsAfter(c, a));
  }
}
