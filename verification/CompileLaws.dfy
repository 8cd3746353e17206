/**
 What the compiler's job pass guarantees for one job, whatever its body: the
 exact value of every decided field and metadata key, and that the compiled job
 agrees with itself.
 */
module CompileLaws {
  import opened Wrappers
  import opened Folds
  import opened JsonScalars
  import opened KeyOrder
  import opened CroniqAst
  import opened Compile
  import opened FieldLaws
  import opened ScheduleLaws
  import Calendar
  import NextFire
  import Fingerprint

  // ----- The compiled job, field by field -----

  function StartMode(job: JobBlock, defaults: JobDefaults): Mode {
    if job.schedule.Some? && job.schedule.value.mode.Some? then job.schedule.value.mode.value else defaults.queue.mode
  }

  function ModeFor(c: Context, job: JobBlock, defaults: JobDefaults): Mode {
    OrElse(LastSaid(ModeSaid(c), job.body), StartMode(job, defaults))
  }

  function OptionZoneSaid(c: Context): Directive -> Option<Option<string>> {
    (d: Directive) => if d.key == "timezone" && d.args != [] then Some(FirstArg(c, d)) else None
  }

  /** A schedule option, else a job directive, else the default: the last one with a value. */
  function TimezoneFor(c: Context, job: JobBlock, defaults: JobDefaults): Option<string> {
    OrElse(Last(OptionZoneSaid(c), ScheduleOptions(job)),
           OrElse(LastSaid(TimezoneSaid(c), job.body), defaults.timezone))
  }

  function PriorityFor(c: Context, job: JobBlock, defaults: JobDefaults): Priority {
    OrElse(LastSaid(PrioritySaid(c), job.body), defaults.queue.priority)
  }

  /** What needs a persisted queue is dropped from an ephemeral job. */
  function Unless<T>(ephemeral: bool, asked: Option<Option<T>>): Option<T> {
    if ephemeral then None else OrElse(asked, None)
  }

  function GuardFor(c: Context, job: JobBlock, defaults: JobDefaults): Option<nat> {
    Unless(ModeFor(c, job, defaults).Ephemeral?, LastSaid(GuardSaid(c), job.body))
  }

  function GroupFor(c: Context, job: JobBlock, defaults: JobDefaults): Option<string> {
    Unless(ModeFor(c, job, defaults).Ephemeral?, LastSaid(GroupSaid(c), job.body))
  }

  function CoalesceFor(c: Context, job: JobBlock, defaults: JobDefaults): Option<string> {
    Unless(ModeFor(c, job, defaults).Ephemeral?, LastSaid(CoalesceSaid(c), job.body))
  }

  function NumberText(n: Option<nat>): Option<string> {
    if n.Some? then Some(Digits(n.value)) else None
  }

  function LimitText(limits: map<string, nat>, group: Option<string>): Option<string> {
    if group.Some? then NumberText(Lookup(limits, group.value)) else None
  }

  function PriorityStamp(p: Priority): Option<string> {
    if p.Normal? then None else Some(PriorityText(p))
  }

  /** What a stamped table holds, given what the blocks wrote into it. */
  function StampedText(
      c: Context, k: string, guard: Option<nat>, group: Option<string>, coalesce: Option<string>, priority: Priority,
      written: Option<string>): Option<string>
  {
    if k == MAX_CONCURRENT then NumberText(guard)
    else if k == CONCURRENCY_GROUP then group
    else if k == CONCURRENCY_GROUP_MAX then LimitText(c.limits, group)
    else if k == COALESCE then coalesce
    else if k == PRIORITY then PriorityStamp(priority)
    else written
  }

  /** The keys the compiler stamps after the body, none of which a block writes. */
  predicate IsStamp(k: string) {
    k == MAX_CONCURRENT || k == CONCURRENCY_GROUP || k == CONCURRENCY_GROUP_MAX || k == COALESCE || k == PRIORITY
  }

  lemma StampKeys()
    ensures MAX_CONCURRENT == "__max_concurrent" && CONCURRENCY_GROUP == "__concurrency_group"
    ensures CONCURRENCY_GROUP_MAX == "__concurrency_group_max" && COALESCE == "__coalesce"
    ensures PRIORITY == "__priority" && RUNNER_EXEC == "__runner_exec"
    ensures |MAX_CONCURRENT| == 16 && |CONCURRENCY_GROUP| == 19 && |CONCURRENCY_GROUP_MAX| == 23
    ensures |COALESCE| == 10 && |PRIORITY| == 10 && COALESCE[2] == 'c' && PRIORITY[2] == 'p' && |RUNNER_EXEC| == 13
    ensures forall k :: IsStamp(k) || k == RUNNER_EXEC ==> IsReserved(k)
  {
  }

  lemma StampedPriority(m: Table, p: Priority, k: string)
    ensures Lookup(StampPriority(m, p), k) == if k == PRIORITY then PriorityStamp(p) else Lookup(m, k)
  {
  }

  lemma StampedCoalesce(m: Table, on: bool, schedule: bool, k: string)
    ensures Lookup(StampCoalesce(m, on, schedule), k)
         == if k == COALESCE && on then Some(if schedule then "schedule" else "1") else Lookup(m, k)
  {
  }

  lemma StampedGroup(c: Context, m: Table, group: Option<string>, k: string)
    requires group.Some? ==> group.value in c.limits
    ensures Lookup(StampGroup(c, m, group), k)
         == if group.Some? && k == CONCURRENCY_GROUP then group
            else if group.Some? && k == CONCURRENCY_GROUP_MAX then LimitText(c.limits, group)
            else Lookup(m, k)
  {
    StampKeys();
  }

  lemma StampedGuard(m: Table, n: Option<nat>, k: string)
    ensures Lookup(StampConcurrency(m, n), k) == if n.Some? && k == MAX_CONCURRENT then NumberText(n) else Lookup(m, k)
  {
  }

  /** A table no block stamped holds exactly the stamps and what the blocks wrote. */
  lemma StampsExact(c: Context, s: Draft, k: string)
    requires IsStamp(k) ==> k !in s.metadata
    requires s.guards.group.Some? ==> s.guards.group.value in c.limits
    ensures Lookup(Stamps(c, s), k)
         == StampedText(c, k, s.guards.maxConcurrent, s.guards.group, CoalesceText(s.guards), s.queue.priority,
                        Lookup(s.metadata, k))
  {
    StampKeys();
    var g := s.guards;
    var m1 := StampConcurrency(s.metadata, g.maxConcurrent);
    var m2 := StampGroup(c, m1, g.group);
    var m3 := StampCoalesce(m2, g.coalesce, g.coalesceSchedule);
    StampedGuard(s.metadata, g.maxConcurrent, k);
    StampedGroup(c, m1, g.group, k);
    StampedCoalesce(m2, g.coalesce, g.coalesceSchedule, k);
    StampedPriority(m3, s.queue.priority, k);
  }

  // ----- Blocks never write a stamp -----

  lemma {:induction false} LastIsSaid<N, T>(says: N -> Option<T>, xs: seq<N>)
    ensures Last(says, xs).None? || exists x :: x in xs && says(x) == Last(says, xs)
  {
    if xs != [] {
      LastIsSaid(says, xs[1..]);
      assert xs[0] in xs && forall x :: x in xs[1..] ==> x in xs;
    }
  }

  lemma BlocksWriteNoStamp(c: Context, body: seq<Node>, k: string)
    requires IsReserved(k) && k != RUNNER_EXEC
    ensures Last(MetadataSaid(c, k), body).None?
  {
    LastIsSaid(MetadataSaid(c, k), body);
    forall n ensures MetadataSaid(c, k)(n).None? {
      if n.Block? && n.block.name == "metadata" {
        LastIsSaid(EntrySaid(c, k), n.block.body);
      }
    }
  }

  lemma GroupIsDeclared(c: Context, body: seq<Node>)
    ensures LastSaid(GroupSaid(c), body).Some? && LastSaid(GroupSaid(c), body).value.Some?
            ==> LastSaid(GroupSaid(c), body).value.value in c.limits
  {
    LastIsSaid(Said(GroupSaid(c)), body);
  }

  lemma GuardIsPositive(c: Context, body: seq<Node>)
    ensures LastSaid(GuardSaid(c), body).Some? ==> LastSaid(GuardSaid(c), body).value != Some(0)
  {
    LastIsSaid(Said(GuardSaid(c)), body);
  }

  /** The draft after the body, each field decided by the last directive that speaks. */
  lemma BodyExact(c: Context, job: JobBlock, defaults: JobDefaults, read: Draft)
    requires read == Fold(JobStep(c), StartDraft(job, defaults), job.body)
    ensures QueueFrom(c, job.body, defaults.queue.(mode := StartMode(job, defaults)), read.queue)
    ensures GuardsFrom(c, job.body, NO_GUARDS, read.guards)
    ensures read.timezone == OrElse(LastSaid(TimezoneSaid(c), job.body), defaults.timezone)
    ensures forall k :: Lookup(read.metadata, k) == Last(MetadataSaid(c, k), job.body)
  {
    var s := StartDraft(job, defaults);
    QueueDecided(c, s, job.body);
    GuardsDecided(c, s, job.body);
    TimezoneDecided(c, s, job.body);
    forall k ensures Lookup(read.metadata, k) == Last(MetadataSaid(c, k), job.body) {
      MetadataDecided(c, s, job.body, k);
    }
  }

  lemma OptionsDecide(c: Context, o: Options, ds: seq<Directive>)
    ensures Fold(OptionStep(c), o, ds).timezone == OrElse(Last(OptionZoneSaid(c), ds), o.timezone)
  {
    LastDecides(OptionStep(c), (t: Options) => t.timezone, OptionZoneSaid(c), o, ds);
  }

  /** An ephemeral job has one slot and no history; any other queues as was last said. */
  ghost predicate QueueExact(c: Context, job: JobBlock, defaults: JobDefaults, q: Queue) {
    && q.mode == ModeFor(c, job, defaults)
    && q.priority == PriorityFor(c, job, defaults)
    && if q.mode.Ephemeral? then
         q.catchUp == Nothing && !q.catchUpExplicit && q.ttl.None? && q.maxDepth == Some(1) && q.keepLast.None?
       else QueueFrom(c, job.body, defaults.queue.(mode := StartMode(job, defaults)), q)
  }

  predicate GuardsExact(c: Context, job: JobBlock, defaults: JobDefaults, g: Guards) {
    && g.maxConcurrent == GuardFor(c, job, defaults)
    && g.group == GroupFor(c, job, defaults)
    && CoalesceText(g) == CoalesceFor(c, job, defaults)
  }

  /** The job that is about to be stamped. */
  function Unstamped(c: Context, job: JobBlock, defaults: JobDefaults): Draft {
    var read := Fold(JobStep(c), StartDraft(job, defaults), job.body);
    var o := Fold(OptionStep(c), Options(read.timezone, None, None, None), ScheduleOptions(job));
    Settle(read.(timezone := o.timezone))
  }

  lemma UnstampedExact(c: Context, job: JobBlock, defaults: JobDefaults, s: Draft)
    requires s == Unstamped(c, job, defaults)
    ensures s.timezone == TimezoneFor(c, job, defaults)
    ensures QueueExact(c, job, defaults, s.queue) && GuardsExact(c, job, defaults, s.guards)
    ensures s.guards.group.Some? ==> s.guards.group.value in c.limits
    ensures s.guards.maxConcurrent != Some(0)
    ensures forall k :: Lookup(s.metadata, k) == Last(MetadataSaid(c, k), job.body)
  {
    var read := Fold(JobStep(c), StartDraft(job, defaults), job.body);
    BodyExact(c, job, defaults, read);
    OptionsDecide(c, Options(read.timezone, None, None, None), ScheduleOptions(job));
    GroupIsDeclared(c, job.body);
    GuardIsPositive(c, job.body);
  }

  /** The value of every metadata key of the compiled job, read off the source. */
  function MetadataFor(c: Context, job: JobBlock, defaults: JobDefaults, k: string): Option<string> {
    StampedText(c, k, GuardFor(c, job, defaults), GroupFor(c, job, defaults), CoalesceFor(c, job, defaults),
                PriorityFor(c, job, defaults), Last(MetadataSaid(c, k), job.body))
  }

  lemma MetadataExact(c: Context, job: JobBlock, defaults: JobDefaults, k: string)
    ensures Lookup(JobOf(c, job, defaults).draft.metadata, k) == MetadataFor(c, job, defaults, k)
  {
    var s := Unstamped(c, job, defaults);
    UnstampedExact(c, job, defaults, s);
    StampKeys();
    if IsStamp(k) {
      BlocksWriteNoStamp(c, job.body, k);
      assert Lookup(s.metadata, k).None?;
    }
    StampsExact(c, s, k);
  }

  /** What an option of this name says: its first argument, even if it has none. */
  function OptionSaid(c: Context, name: string): Directive -> Option<Option<string>> {
    (d: Directive) => if d.key == name then Some(FirstArg(c, d)) else None
  }

  function OptionFor(c: Context, job: JobBlock, name: string): Option<string> {
    OrElse(Last(OptionSaid(c, name), ScheduleOptions(job)), None)
  }

  lemma OptionNames()
    ensures |"timezone"| == 8 && |"calendar"| == 8 && |"not_before"| == 10 && |"not_after"| == 9
    ensures "timezone"[0] == 't' && "calendar"[0] == 'c'
  {
  }

  lemma BoundsDecide(c: Context, o: Options, ds: seq<Directive>)
    ensures Fold(OptionStep(c), o, ds).calendar == OrElse(Last(OptionSaid(c, "calendar"), ds), o.calendar)
    ensures Fold(OptionStep(c), o, ds).notBefore == OrElse(Last(OptionSaid(c, "not_before"), ds), o.notBefore)
    ensures Fold(OptionStep(c), o, ds).notAfter == OrElse(Last(OptionSaid(c, "not_after"), ds), o.notAfter)
  {
    OptionNames();
    LastDecides(OptionStep(c), (t: Options) => t.calendar, OptionSaid(c, "calendar"), o, ds);
    LastDecides(OptionStep(c), (t: Options) => t.notBefore, OptionSaid(c, "not_before"), o, ds);
    LastDecides(OptionStep(c), (t: Options) => t.notAfter, OptionSaid(c, "not_after"), o, ds);
  }

  /** The compiled job fires exactly when the written schedule matches; without a schedule, never. */
  ghost predicate FiresAsWritten(job: JobBlock, s: CompiledSchedule) {
    && (forall parse: string -> Option<Calendar.Instant>, t :: Calendar.ValidInstant(t) ==>
          (Fires(s, parse, t) <==> job.schedule.Some? && NextFire.Matches(Written(job.schedule.value.kind, parse), t)))
    && (s.EverySeconds? <==> job.schedule.Some? && job.schedule.value.kind.Interval?)
    && (s.EverySeconds? ==> Lasts(s.seconds, job.schedule.value.kind.count, job.schedule.value.kind.unit))
  }

  /** When a compiled job runs: its schedule, and the bounds the last schedule options set. */
  lemma JobTimes(c: Context, job: JobBlock, defaults: JobDefaults)
    ensures JobOf(c, job, defaults).key == job.key
    ensures FiresAsWritten(job, JobOf(c, job, defaults).schedule)
    ensures JobOf(c, job, defaults).calendar == OptionFor(c, job, "calendar")
    ensures JobOf(c, job, defaults).notBefore == OptionFor(c, job, "not_before")
    ensures JobOf(c, job, defaults).notAfter == OptionFor(c, job, "not_after")
  {
    var read := Fold(JobStep(c), StartDraft(job, defaults), job.body);
    BoundsDecide(c, Options(read.timezone, None, None, None), ScheduleOptions(job));
    ScheduleAsWritten(job, JobOf(c, job, defaults).schedule);
  }

  lemma ScheduleAsWritten(job: JobBlock, s: CompiledSchedule)
    requires s == if job.schedule.Some? then CompileSchedule(job.schedule.value.kind) else Never
    ensures FiresAsWritten(job, s)
  {
    if job.schedule.Some? {
      var kind := job.schedule.value.kind;
      CompiledInterval(kind);
      forall parse: string -> Option<Calendar.Instant>, t | Calendar.ValidInstant(t)
        ensures Fires(s, parse, t) <==> NextFire.Matches(Written(kind, parse), t)
      {
        CompiledFires(kind, parse, t);
      }
    }
  }

  /** Each decided field of a compiled job is what the source last said about it. */
  lemma JobExact(c: Context, job: JobBlock, defaults: JobDefaults)
    ensures JobOf(c, job, defaults).draft.timezone == TimezoneFor(c, job, defaults)
    ensures QueueExact(c, job, defaults, JobOf(c, job, defaults).draft.queue)
    ensures GuardsExact(c, job, defaults, JobOf(c, job, defaults).draft.guards)
    ensures forall k :: Lookup(JobOf(c, job, defaults).draft.metadata, k) == MetadataFor(c, job, defaults, k)
    ensures JobOf(c, job, defaults).key == job.key && FiresAsWritten(job, JobOf(c, job, defaults).schedule)
    ensures JobOf(c, job, defaults).calendar == OptionFor(c, job, "calendar")
    ensures JobOf(c, job, defaults).notBefore == OptionFor(c, job, "not_before")
    ensures JobOf(c, job, defaults).notAfter == OptionFor(c, job, "not_after")
  {
    JobTimes(c, job, defaults);
    UnstampedExact(c, job, defaults, Unstamped(c, job, defaults));
    forall k ensures Lookup(JobOf(c, job, defaults).draft.metadata, k) == MetadataFor(c, job, defaults, k) {
      MetadataExact(c, job, defaults, k);
    }
  }

  /** The rest of a compiled job: its texts, and its retry and dead-letter blocks over the inherited ones. */
  lemma JobRest(c: Context, job: JobBlock, defaults: JobDefaults)
    ensures TextsFrom(c, job.body, StartDraft(job, defaults), JobOf(c, job, defaults).draft)
    ensures JobOf(c, job, defaults).draft.retry == Fold(RetryLayer(c), defaults.retry, job.body)
    ensures JobOf(c, job, defaults).draft.deadLetter == Fold(DeadLetterLayer(c), defaults.deadLetter, job.body)
  {
    var s := StartDraft(job, defaults);
    TextsDecided(c, s, job.body);
    BlocksLayer(c, s, job.body);
  }

  // ----- A compiled job agrees with itself -----

  /** Every stamp says what the typed field says. */
  predicate StampsAgree(limits: map<string, nat>, s: Draft) {
    && Lookup(s.metadata, MAX_CONCURRENT) == NumberText(s.guards.maxConcurrent)
    && Lookup(s.metadata, CONCURRENCY_GROUP) == s.guards.group
    && Lookup(s.metadata, CONCURRENCY_GROUP_MAX) == LimitText(limits, s.guards.group)
    && (Lookup(s.metadata, COALESCE).Some? <==> s.guards.coalesce)
    && Lookup(s.metadata, COALESCE) in [None, Some("1"), Some("schedule")]
    && Lookup(s.metadata, PRIORITY) == PriorityStamp(s.queue.priority)
  }

  /** Nothing that needs a persisted queue is left on an ephemeral job. */
  predicate BareIfEphemeral(q: Queue, g: Guards) {
    q.mode.Ephemeral? ==>
      && q.catchUp == Nothing && !q.catchUpExplicit && q.ttl.None? && q.maxDepth == Some(1) && q.keepLast.None?
      && g.maxConcurrent.None? && g.group.None? && !g.coalesce
  }

  /** Reserved metadata is the compiler's own, and a job's parts agree with each other. */
  ghost predicate Coherent(limits: map<string, nat>, s: Draft) {
    && (forall k :: k in s.metadata && IsReserved(k) ==> IsStamp(k) || k == RUNNER_EXEC)
    && StampsAgree(limits, s)
    && (s.guards.group.Some? ==> s.guards.group.value in limits)
    && s.guards.maxConcurrent != Some(0)
    && BareIfEphemeral(s.queue, s.guards)
  }

  lemma CoalesceIsKnown(c: Context, body: seq<Node>)
    ensures LastSaid(CoalesceSaid(c), body) in [None, Some(Some("1")), Some(Some("schedule"))]
  {
    LastIsSaid(Said(CoalesceSaid(c)), body);
  }

  lemma OnlyStampsAreReserved(c: Context, job: JobBlock, defaults: JobDefaults, k: string)
    requires IsReserved(k) && !IsStamp(k) && k != RUNNER_EXEC
    ensures k !in JobOf(c, job, defaults).draft.metadata
  {
    BlocksWriteNoStamp(c, job.body, k);
    MetadataExact(c, job, defaults, k);
  }

  lemma StampsAlwaysAgree(c: Context, job: JobBlock, defaults: JobDefaults)
    ensures StampsAgree(c.limits, JobOf(c, job, defaults).draft)
  {
    StampKeys();
    UnstampedExact(c, job, defaults, Unstamped(c, job, defaults));
    CoalesceIsKnown(c, job.body);
    MetadataExact(c, job, defaults, MAX_CONCURRENT);
    MetadataExact(c, job, defaults, CONCURRENCY_GROUP);
    MetadataExact(c, job, defaults, CONCURRENCY_GROUP_MAX);
    MetadataExact(c, job, defaults, COALESCE);
    MetadataExact(c, job, defaults, PRIORITY);
  }

  lemma JobCoherent(c: Context, job: JobBlock, defaults: JobDefaults)
    ensures Coherent(c.limits, JobOf(c, job, defaults).draft)
  {
    var s := JobOf(c, job, defaults).draft;
    UnstampedExact(c, job, defaults, Unstamped(c, job, defaults));
    StampsAlwaysAgree(c, job, defaults);
    forall k | k in s.metadata && IsReserved(k) ensures IsStamp(k) || k == RUNNER_EXEC {
      if !IsStamp(k) && k != RUNNER_EXEC {
        OnlyStampsAreReserved(c, job, defaults, k);
      }
    }
  }

  // ----- The runner payload is the last block that compiles -----

  function ExecBlock(c: Context): Node -> Option<Fingerprint.RunnerExec> {
    (n: Node) => if n.Block? && n.block.name == "runner" then CompileExec(c, n.block) else None
  }

  function LastExec(c: Context, body: seq<Node>): Option<Fingerprint.RunnerExec> {
    Last(ExecBlock(c), body)
  }

  lemma {:induction false} ExecWritten(c: Context, body: seq<Node>)
    ensures Last(MetadataSaid(c, RUNNER_EXEC), body) == ExecSaid(LastExec(c, body))
  {
    if body != [] {
      ExecWritten(c, body[1..]);
      var n := body[0];
      if n.Block? && n.block.name == "metadata" {
        LastIsSaid(EntrySaid(c, RUNNER_EXEC), n.block.body);
      }
    }
  }

  lemma {:induction false} SetVarKeepsNames(env: seq<Fingerprint.EnvVar>, name: string, value: string)
    ensures forall x :: x in Fingerprint.Names(SetVar(env, name, value)) <==> x == name || x in Fingerprint.Names(env)
    ensures Distinct(Fingerprint.Names(env)) ==> Distinct(Fingerprint.Names(SetVar(env, name, value)))
  {
    var next := SetVar(env, name, value);
    if env == [] {
      assert Fingerprint.Names(next) == [name];
      assert [name][1..] == [];
    } else {
      NamesCons(env[0], env[1..]);
      assert env == [env[0]] + env[1..];
      if env[0].name == name {
        NamesCons(Fingerprint.EnvVar(name, value), env[1..]);
      } else {
        SetVarKeepsNames(env[1..], name, value);
        NamesCons(env[0], SetVar(env[1..], name, value));
      }
    }
  }

  lemma NamesCons(v: Fingerprint.EnvVar, env: seq<Fingerprint.EnvVar>)
    ensures Fingerprint.Names([v] + env) == [v.name] + Fingerprint.Names(env)
    ensures ([v.name] + Fingerprint.Names(env))[1..] == Fingerprint.Names(env)
  {
  }

  predicate OneValueEach(env: seq<Fingerprint.EnvVar>) {
    Distinct(Fingerprint.Names(env))
  }

  lemma EnvBlockKeepsNames(c: Context, env: seq<Fingerprint.EnvVar>, body: seq<Node>)
    requires OneValueEach(env)
    ensures OneValueEach(Fold(EnvStep(c), env, body))
  {
    forall e, n | OneValueEach(e) ensures OneValueEach(EnvStep(c)(e, n)) {
      if n.Leaf? && FirstArg(c, n.d).Some? {
        SetVarKeepsNames(e, n.d.key, FirstArg(c, n.d).value);
      }
    }
    FoldKeeps(EnvStep(c), (e: seq<Fingerprint.EnvVar>) => OneValueEach(e), env, body);
  }

  lemma ExecNames(c: Context, b: NamedBlock)
    ensures CompileExec(c, b).Some? ==> OneValueEach(CompileExec(c, b).value.env)
  {
    forall e: ExecDraft, n | OneValueEach(e.env) ensures OneValueEach(ExecStep(c)(e, n).env) {
      if n.Block? {
        EnvBlockKeepsNames(c, e.env, n.block.body);
      }
    }
    FoldKeeps(ExecStep(c), (e: ExecDraft) => OneValueEach(e.env), ExecDraft(None, [], None, None, []), b.body);
  }

  ghost predicate SameExec(e: Option<Fingerprint.RunnerExec>, f: Option<Fingerprint.RunnerExec>) {
    e.Some? == f.Some? && (e.Some? && f.Some? ==> Fingerprint.SamePayload(e.value, f.value))
  }

  lemma LastExecNames(c: Context, body: seq<Node>)
    ensures LastExec(c, body).Some? ==> OneValueEach(LastExec(c, body).value.env)
  {
    LastIsSaid(ExecBlock(c), body);
    if LastExec(c, body).Some? {
      var n :| n in body && ExecBlock(c)(n) == LastExec(c, body);
      ExecNames(c, n.block);
    }
  }

  lemma RunnerStamp(c: Context, job: JobBlock, defaults: JobDefaults)
    ensures Lookup(JobOf(c, job, defaults).draft.metadata, RUNNER_EXEC) == ExecSaid(LastExec(c, job.body))
  {
    MetadataExact(c, job, defaults, RUNNER_EXEC);
    StampKeys();
    ExecWritten(c, job.body);
  }

  /** Two jobs carry the same payload text exactly when their last runner blocks run the same thing. */
  lemma RunnerStampExact(c: Context, a: JobBlock, da: JobDefaults, d: Context, b: JobBlock, db: JobDefaults)
    ensures Lookup(JobOf(c, a, da).draft.metadata, RUNNER_EXEC) == Lookup(JobOf(d, b, db).draft.metadata, RUNNER_EXEC)
       <==> SameExec(LastExec(c, a.body), LastExec(d, b.body))
  {
    RunnerStamp(c, a, da);
    RunnerStamp(d, b, db);
    var e, f := LastExec(c, a.body), LastExec(d, b.body);
    if e.Some? && f.Some? {
      LastExecNames(c, a.body);
      LastExecNames(d, b.body);
      Fingerprint.ExecTextExact(e.value, f.value);
    }
  }

  // ----- The schedule prefix -----

  /** A directive is not outranked by the schedule prefix: the prefix decides just when no directive contradicts it. */
  lemma PrefixDecidesIff(c: Context, job: JobBlock, defaults: JobDefaults, prefix: Mode)
    requires job.schedule.Some? && job.schedule.value.mode == Some(prefix)
    ensures JobOf(c, job, defaults).draft.queue.mode == prefix
       <==> LastSaid(ModeSaid(c), job.body) in [None, Some(prefix)]
  {
    UnstampedExact(c, job, defaults, Unstamped(c, job, defaults));
  }

  /** `every ... ephemeral` with `execution_mode queued` in the body compiles to a queued job. */
  lemma PrefixOverridden(c: Context, key: string, kind: ScheduleKind, defaults: JobDefaults)
    ensures var directive := Leaf(Directive("execution_mode", [StringValue("queued", false)]));
            var job := JobBlock(key, Some(Schedule(kind, Some(Ephemeral), [])), [directive]);
            JobOf(c, job, defaults).draft.queue.mode == Queued
  {
    var directive := Leaf(Directive("execution_mode", [StringValue("queued", false)]));
    var job := JobBlock(key, Some(Schedule(kind, Some(Ephemeral), [])), [directive]);
    assert FirstArg(c, directive.d) == Some("queued");
    assert KeyOf("execution_mode") == ExecutionMode;
    assert Said(ModeSaid(c))(directive) == Some(Queued);
    assert job.body[1..] == [] && Last(Said(ModeSaid(c)), []) == None;
    UnstampedExact(c, job, defaults, Unstamped(c, job, defaults));
  }
}
