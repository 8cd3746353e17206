/** The parts of a Croniqfile's syntax tree that the compiler's job pass reads. */
module CroniqAst {
  import opened Wrappers
  import opened Calendar
  import NextFire

  /** An identifier, a quoted string, or a placeholder such as `{vars.X}`. */
  datatype StringValue = StringValue(value: string, placeholder: bool)

  /** `key arg arg ...` */
  datatype Directive = Directive(key: string, args: seq<StringValue>)

  datatype Node = Leaf(d: Directive) | Block(block: NamedBlock) | Comment

  /** `name [qualifier] { ... }` */
  datatype NamedBlock = NamedBlock(name: string, qualifier: Option<string>, body: seq<Node>)

  datatype Mode = Queued | Ephemeral

  /** A schedule line as parsed. */
  datatype ScheduleKind =
    | Interval(count: nat, unit: NextFire.Unit)
    | Daily(time: NextFire.Time)
    | Weekdays(days: seq<Weekday>, time: NextFire.Time)
    | Monthly(ordinals: seq<NextFire.Ordinal>, time: NextFire.Time)
    | Once(at: string)
    | Disabled

  datatype Schedule = Schedule(kind: ScheduleKind, mode: Option<Mode>, options: seq<Directive>)

  datatype JobBlock = JobBlock(key: string, schedule: Option<Schedule>, body: seq<Node>)

  /** `include kind arg ...` or `exclude kind arg ...`; a `timezone` line is stored as a rule too. */
  datatype CalendarRule = CalendarRule(allow: bool, kind: string, args: seq<StringValue>)

  datatype CalendarBlock = CalendarBlock(name: StringValue, rules: seq<CalendarRule>)

  datatype Item =
    | Vars(entries: seq<Directive>)
    | Defaults(body: seq<Node>)
    | Calendar(calendar: CalendarBlock)
    | Group(name: StringValue, directives: seq<Directive>)
    | Job(job: JobBlock)
    | Other
}

/**
 The job pass of the compiler: variables and concurrency groups are collected
 first, then the items are folded in order, each job on top of the defaults
 that precede it.
 */
module Compile {
  import opened Wrappers
  import opened Folds
  import opened JsonScalars
  import opened ScheduleText
  import opened Calendar
  import opened CroniqAst
  import NextFire
  import Fingerprint

  // ----- Resolving values -----

  /** Everything outside the job pass: environment and files, float parsing, the check of a rule's arguments. */
  datatype Env = Env(
    lookup: string -> Option<string>, float: string -> Option<Fraction>, ruleValid: (string, seq<string>) -> bool)

  type Table = map<string, string>

  datatype Context = Context(env: Env, vars: Table, limits: map<string, nat>)

  predicate StartsWith(s: string, prefix: string) {
    |prefix| <= |s| && s[..|prefix|] == prefix
  }

  function ResolvePlaceholder(env: Env, p: string, vars: Table): Option<string> {
    if StartsWith(p, "vars.") then
      if p[5..] in vars then Some(vars[p[5..]]) else None
    else env.lookup(p)
  }

  /** A placeholder that does not resolve stands for its own text. */
  function ResolveStr(env: Env, v: StringValue, vars: Table): string {
    if v.placeholder then
      match ResolvePlaceholder(env, v.value, vars)
      case Some(s) => s
      case None => v.value
    else v.value
  }

  function FirstArg(c: Context, d: Directive): Option<string> {
    if d.args == [] then None else Some(ResolveStr(c.env, d.args[0], c.vars))
  }

  predicate IsSpace(ch: char) {
    ch == ' ' || ch == '\t' || ch == '\n' || ch == '\r'
  }

  function Trim(s: string): string {
    if s == [] then s
    else if IsSpace(s[0]) then Trim(s[1..])
    else if IsSpace(s[|s| - 1]) then Trim(s[..|s| - 1])
    else s
  }

  function UnitSuffix(word: string): Option<string> {
    if word == "millisecond" || word == "milliseconds" then Some("ms")
    else if word == "second" || word == "seconds" then Some("s")
    else if word == "minute" || word == "minutes" then Some("m")
    else if word == "hour" || word == "hours" then Some("h")
    else if word == "day" || word == "days" then Some("d")
    else None
  }

  /** A duration argument; `4 hours` is read as `4h`. */
  function DurationArg(c: Context, d: Directive): Option<string> {
    var first := FirstArg(c, d);
    if first.Some? && |d.args| == 2 then
      var unit := UnitSuffix(ResolveStr(c.env, d.args[1], c.vars));
      if unit.Some? && ParseBounded(Trim(first.value), 0x1_0000_0000_0000_0000).Some?
      then Some(Trim(first.value) + unit.value)
      else first
    else first
  }

  function NumberArg(c: Context, d: Directive): Option<nat> {
    match FirstArg(c, d)
    case Some(v) => ParseU32(v)
    case None => None
  }

  // ----- Compiled values -----

  datatype CatchUp = All | Latest | Nothing

  datatype Priority = Low | Normal | High

  /** A floating-point number, by the text it is printed as; infinities and NaN have no JSON text. */
  type FloatText = s: string | IsFloatText(s) witness (ZeroPoint('0', '0'); "0.0")

  lemma ZeroPoint(c: char, d: char)
    requires IsDigit(c) && IsDigit(d)
    ensures IsFloatText(['0', '.', c]) && IsFloatText(['0', '.', c, d])
  {
    var s := ['0', '.', c, d];
    assert s[1..] == ['.', c, d] && s[1..][1..] == [c, d] && [c, d][1..] == [d] && [d][1..] == [];
    assert Scan(Point, [c, d]) == Scan(Fraction, [d]) == Fraction;
    var t := ['0', '.', c];
    assert t[1..] == ['.', c] && t[1..][1..] == [c] && [c][1..] == [];
    assert Scan(Point, [c]) == Fraction;
  }

  datatype Fraction = Finite(text: FloatText) | NonFinite(name: string)

  datatype Retry = Retry(
    strategy: string, maxAttempts: nat, base: Option<string>, cap: Option<string>,
    delay: Option<string>, step: Option<string>, jitter: Option<Fraction>)

  datatype DeadLetter = DeadLetter(
    enabled: bool, retention: Option<string>, operatorHint: Option<string>, replayMaxAge: Option<string>)

  datatype Placement = Placement(require: seq<string>, prefer: seq<string>, exclude: seq<string>, sticky: bool)

  /** How runs wait: what a job and a `defaults { }` block can both say. */
  datatype Queue = Queue(
    mode: Mode, catchUp: CatchUp, catchUpExplicit: bool, ttl: Option<string>, maxDepth: Option<nat>,
    keepLast: Option<nat>, priority: Priority)

  /** What `defaults { }` blocks set so far. */
  datatype JobDefaults = JobDefaults(
    timezone: Option<string>, timeout: Option<string>, retry: Retry, deadLetter: DeadLetter, queue: Queue)

  const QUARTER: FloatText := (ZeroPoint('2', '5'); "0.25")

  const INITIAL_DEFAULTS: JobDefaults := JobDefaults(
    None, None, Retry("exponential", 3, Some("2s"), Some("30s"), None, None, Some(Finite(QUARTER))),
    DeadLetter(true, Some("30d"), None, None), Queue(Queued, All, false, None, None, None, Normal))

  /** What keeps runs of a job from overlapping or piling up. */
  datatype Guards = Guards(maxConcurrent: Option<nat>, group: Option<string>, coalesce: bool, coalesceSchedule: bool)

  const NO_GUARDS: Guards := Guards(None, None, false, false)

  /** The local variables of the job pass, up to its final stamps. */
  datatype Draft = Draft(
    description: Option<string>, timezone: Option<string>, window: Option<string>, timeout: Option<string>,
    placement: Placement, retry: Retry, deadLetter: DeadLetter, metadata: Table, queue: Queue, guards: Guards,
    tags: seq<string>, runOnRegister: bool)

  /** A schedule in the form the scheduler runs: intervals in seconds, times as hour and minute. */
  datatype CompiledSchedule =
    | EverySeconds(seconds: nat)
    | EveryDay(hour: nat, minute: nat)
    | OnWeekdays(days: seq<Weekday>, hour: nat, minute: nat)
    | OnOrdinals(ordinals: seq<NextFire.Ordinal>, hour: nat, minute: nat)
    | OnceAt(at: string)
    | Never

  function CompileSchedule(kind: ScheduleKind): CompiledSchedule {
    match kind
    case Interval(count, unit) => EverySeconds(NextFire.IntervalSeconds(count, unit))
    case Daily(time) => EveryDay(time.hour, time.minute)
    case Weekdays(days, time) => OnWeekdays(days, time.hour, time.minute)
    case Monthly(ordinals, time) => OnOrdinals(ordinals, time.hour, time.minute)
    case Once(at) => OnceAt(at)
    case Disabled => Never
  }

  datatype JobConfig = JobConfig(
    key: string, schedule: CompiledSchedule, calendar: Option<string>, notBefore: Option<string>,
    notAfter: Option<string>,
    draft: Draft)

  datatype RuleConfig = RuleConfig(allow: bool, kind: string, args: seq<string>)

  datatype CalendarConfig = CalendarConfig(name: string, timezone: Option<string>, rules: seq<RuleConfig>)

  datatype GroupConfig = GroupConfig(name: string, maxConcurrent: nat)

  const RUNNER_EXEC := Fingerprint.RUNNER_EXEC
  const MAX_CONCURRENT := "__max_concurrent"
  const CONCURRENCY_GROUP := "__concurrency_group"
  const CONCURRENCY_GROUP_MAX := "__concurrency_group_max"
  const COALESCE := "__coalesce"
  const PRIORITY := "__priority"

  predicate IsReserved(key: string) {
    |key| >= 2 && key[0] == '_' && key[1] == '_'
  }

  // ----- Directive names -----

  datatype Key =
    | Description | Timezone | Timeout | Window | ExecutionMode | CatchUpKey | QueueTtl | MaxQueueDepth
    | KeepLast | ConcurrencyGroup | Singleton | Coalesce | PriorityKey | RunOnRegister | MaxConcurrent | Tags
    | UnknownKey

  /** The directives the job and defaults passes know. */
  function KeyOf(key: string): Key {
    if key == "description" then Description
    else if key == "timezone" then Timezone
    else if key == "timeout" then Timeout
    else if key == "window" then Window
    else if key == "execution_mode" then ExecutionMode
    else if key == "catch_up" then CatchUpKey
    else if key == "queue_ttl" then QueueTtl
    else if key == "max_queue_depth" then MaxQueueDepth
    else if key == "keep_last" then KeepLast
    else if key == "concurrency_group" then ConcurrencyGroup
    else if key == "singleton" then Singleton
    else if key == "coalesce" then Coalesce
    else if key == "priority" then PriorityKey
    else if key == "run_on_register" then RunOnRegister
    else if key == "max_concurrent" then MaxConcurrent
    else if key == "tags" then Tags
    else UnknownKey
  }

  // ----- Parsing directive values -----

  function ParseMode(s: string): Option<Mode> {
    if s == "queued" then Some(Queued) else if s == "ephemeral" then Some(Ephemeral) else None
  }

  function ParseCatchUp(s: string): Option<CatchUp> {
    if s == "all" then Some(All) else if s == "latest" then Some(Latest)
    else if s == "none" then Some(Nothing) else None
  }

  function ParsePriority(s: string): Option<Priority> {
    if s == "low" then Some(Low) else if s == "normal" then Some(Normal)
    else if s == "high" then Some(High) else None
  }

  function PriorityText(p: Priority): string {
    match p
    case Low => "low"
    case Normal => "normal"
    case High => "high"
  }

  function ParseBool(s: string): Option<bool> {
    var t := Lower(s);
    if t == "true" || t == "yes" || t == "on" || t == "1" then Some(true)
    else if t == "false" || t == "no" || t == "off" || t == "0" then Some(false)
    else None
  }

  /** `none` as a queue TTL means no limit. */
  function NotNone(o: Option<string>): Option<string> {
    if o == Some("none") then None else o
  }

  // ----- Blocks -----

  datatype RetryKey = MaxAttempts | Base | Cap | Delay | Step | Jitter | OtherRetry

  function RetryKeyOf(key: string): RetryKey {
    if key == "max_attempts" then MaxAttempts
    else if key == "base" then Base
    else if key == "cap" then Cap
    else if key == "delay" then Delay
    else if key == "step" then Step
    else if key == "jitter" then Jitter
    else OtherRetry
  }

  /** An unreadable attempt count keeps the inherited one; every other value replaces it. */
  function RetryDirective(env: Env, r: Retry, key: RetryKey, val: string): Retry {
    match key
    case MaxAttempts => r.(maxAttempts := OrElse(ParseU32(val), r.maxAttempts))
    case Base => r.(base := Some(val))
    case Cap => r.(cap := Some(val))
    case Delay => r.(delay := Some(val))
    case Step => r.(step := Some(val))
    case Jitter => r.(jitter := env.float(val))
    case OtherRetry => r
  }

  function RetryStep(c: Context): (Retry, Node) -> Retry {
    (r: Retry, n: Node) =>
      if n.Leaf? then RetryDirective(c.env, r, RetryKeyOf(n.d.key), OrElse(DurationArg(c, n.d), "")) else r
  }

  predicate KnownStrategy(s: string) {
    s == "exponential" || s == "linear" || s == "fixed" || s == "none"
  }

  /** A `retry` block on top of the inherited value, field by field. */
  function CompileRetry(c: Context, b: NamedBlock, base: Retry): Retry {
    var r := if b.qualifier.Some? && KnownStrategy(b.qualifier.value)
             then base.(strategy := b.qualifier.value) else base;
    Fold(RetryStep(c), r, b.body)
  }

  datatype DeadLetterKey = Enabled | Retention | OperatorHint | ReplayMaxAge | OtherDeadLetter

  function DeadLetterKeyOf(key: string): DeadLetterKey {
    if key == "enabled" then Enabled
    else if key == "retention" then Retention
    else if key == "operator_hint" then OperatorHint
    else if key == "replay_max_age" then ReplayMaxAge
    else OtherDeadLetter
  }

  /** An unreadable flag keeps the inherited one; every other value replaces it, even by nothing. */
  function DeadLetterDirective(
      r: DeadLetter, key: DeadLetterKey, first: Option<string>, duration: Option<string>): DeadLetter
  {
    match key
    case Enabled => r.(enabled := OrElse(Bind(first, ParseBool), r.enabled))
    case Retention => r.(retention := duration)
    case OperatorHint => r.(operatorHint := first)
    case ReplayMaxAge => r.(replayMaxAge := duration)
    case OtherDeadLetter => r
  }

  function DeadLetterStep(c: Context): (DeadLetter, Node) -> DeadLetter {
    (r: DeadLetter, n: Node) =>
      if n.Leaf? then DeadLetterDirective(r, DeadLetterKeyOf(n.d.key), FirstArg(c, n.d), DurationArg(c, n.d)) else r
  }

  function PlacementDirective(c: Context, p: Placement, d: Directive): Placement {
    var val := OrElse(FirstArg(c, d), "");
    var caps := if val == "" then [] else [val];
    if d.key == "require" then p.(require := p.require + caps)
    else if d.key == "prefer" then p.(prefer := p.prefer + caps)
    else if d.key == "exclude" then p.(exclude := p.exclude + caps)
    else if d.key == "sticky" then p.(sticky := true)
    else p
  }

  function PlacementStep(c: Context): (Placement, Node) -> Placement {
    (p: Placement, n: Node) => if n.Leaf? then PlacementDirective(c, p, n.d) else p
  }

  /** A map insertion into an environment kept as a list. */
  function SetVar(env: seq<Fingerprint.EnvVar>, name: string, value: string): seq<Fingerprint.EnvVar> {
    if env == [] then [Fingerprint.EnvVar(name, value)]
    else if env[0].name == name then [Fingerprint.EnvVar(name, value)] + env[1..]
    else [env[0]] + SetVar(env[1..], name, value)
  }

  function EnvStep(c: Context): (seq<Fingerprint.EnvVar>, Node) -> seq<Fingerprint.EnvVar> {
    (env: seq<Fingerprint.EnvVar>, n: Node) =>
      if n.Leaf? && FirstArg(c, n.d).Some? then SetVar(env, n.d.key, FirstArg(c, n.d).value) else env
  }

  datatype ExecDraft = ExecDraft(
    command: Option<string>, argv: seq<string>, workdir: Option<string>, user: Option<string>,
    env: seq<Fingerprint.EnvVar>)

  function ExecNode(c: Context, e: ExecDraft, n: Node): ExecDraft {
    match n
    case Leaf(d) =>
      if d.key == "command" then e.(command := FirstArg(c, d))
      else if d.key == "args" then
        e.(argv := ResolveAll(c, d.args))
      else if d.key == "workdir" then e.(workdir := FirstArg(c, d))
      else if d.key == "user" then e.(user := FirstArg(c, d))
      else e
    case Block(b) => if b.name == "env" then e.(env := Fold(EnvStep(c), e.env, b.body)) else e
    case Comment => e
  }

  function ExecStep(c: Context): (ExecDraft, Node) -> ExecDraft {
    (e: ExecDraft, n: Node) => ExecNode(c, e, n)
  }

  /** A `runner shell` or `runner exec` block; none without its command. */
  function CompileExec(c: Context, b: NamedBlock): Option<Fingerprint.RunnerExec> {
    var e := Fold(ExecStep(c), ExecDraft(None, [], None, None, []), b.body);
    if b.qualifier == Some("shell") then
      if e.command.Some? then Some(Fingerprint.Shell(e.command.value, e.workdir, e.user, e.env)) else None
    else if b.qualifier == Some("exec") then
      if e.argv == [] then None else Some(Fingerprint.Exec(e.argv, e.workdir, e.user, e.env))
    else None
  }

  /** A `metadata` block: reserved keys are dropped. */
  function MetadataStep(c: Context): (Table, Node) -> Table {
    (m: Table, n: Node) =>
      if n.Leaf? && !IsReserved(n.d.key) && FirstArg(c, n.d).Some? then m[n.d.key := FirstArg(c, n.d).value] else m
  }

  // ----- The job pass -----

  function TagStep(c: Context): (seq<string>, StringValue) -> seq<string> {
    (tags: seq<string>, a: StringValue) =>
      var v := ResolveStr(c.env, a, c.vars); if v == "" || v in tags then tags else tags + [v]
  }

  /** The queue directives, the same in a job and in `defaults { }`; an unreadable value keeps the old one. */
  function QueueDirective(c: Context, q: Queue, key: Key, d: Directive): Queue {
    match key
    case ExecutionMode => q.(mode := OrElse(Bind(FirstArg(c, d), ParseMode), q.mode))
    case CatchUpKey =>
      var p := Bind(FirstArg(c, d), ParseCatchUp);
      if p.Some? then q.(catchUp := p.value, catchUpExplicit := true) else q
    case QueueTtl => q.(ttl := NotNone(DurationArg(c, d)))
    case MaxQueueDepth => q.(maxDepth := OrKeep(NumberArg(c, d), q.maxDepth))
    case KeepLast => q.(keepLast := OrKeep(NumberArg(c, d), q.keepLast))
    case PriorityKey => q.(priority := OrElse(Bind(FirstArg(c, d), ParsePriority), q.priority))
    case _ => q
  }

  /** The concurrency directives; an unusable value clears what it would set. */
  function GuardDirective(c: Context, g: Guards, key: Key, d: Directive): Guards {
    match key
    case ConcurrencyGroup =>
      var name := FirstArg(c, d);
      g.(group := if name.Some? && name.value in c.limits then name else None)
    case Singleton => g.(maxConcurrent := Some(1))
    case MaxConcurrent =>
      var n := NumberArg(c, d);
      g.(maxConcurrent := if n.Some? && n.value > 0 then n else None)
    case Coalesce => g.(coalesce := true, coalesceSchedule := FirstArg(c, d) == Some("schedule"))
    case _ => g
  }

  function ApplyDirective(c: Context, s: Draft, key: Key, d: Directive): Draft {
    match key
    case Description => s.(description := FirstArg(c, d))
    case Timezone => s.(timezone := OrKeep(FirstArg(c, d), s.timezone))
    case Timeout => s.(timeout := DurationArg(c, d))
    case Window => s.(window := FirstArg(c, d))
    case RunOnRegister => s.(runOnRegister := true)
    case Tags => s.(tags := Fold(TagStep(c), s.tags, d.args))
    case _ => s.(queue := QueueDirective(c, s.queue, key, d), guards := GuardDirective(c, s.guards, key, d))
  }

  function StampExec(m: Table, exec: Option<Fingerprint.RunnerExec>): Table {
    match exec
    case Some(e) => m[RUNNER_EXEC := Fingerprint.ExecText(e)]
    case None => m
  }

  function ApplyBlock(c: Context, s: Draft, b: NamedBlock): Draft {
    if b.name == "runner" then
      if b.qualifier.None? then s.(placement := Fold(PlacementStep(c), Placement([], [], [], false), b.body))
      else s.(metadata := StampExec(s.metadata, CompileExec(c, b)))
    else if b.name == "retry" then s.(retry := CompileRetry(c, b, s.retry))
    else if b.name == "dead_letter" then s.(deadLetter := Fold(DeadLetterStep(c), s.deadLetter, b.body))
    else if b.name == "metadata" then s.(metadata := Fold(MetadataStep(c), s.metadata, b.body))
    else s
  }

  function ApplyNode(c: Context, s: Draft, n: Node): Draft {
    match n
    case Leaf(d) => ApplyDirective(c, s, KeyOf(d.key), d)
    case Block(b) => ApplyBlock(c, s, b)
    case Comment => s
  }

  function JobStep(c: Context): (Draft, Node) -> Draft {
    (s: Draft, n: Node) => ApplyNode(c, s, n)
  }

  /** The job's starting values: a schedule prefix first, else the defaults. */
  function StartDraft(job: JobBlock, defaults: JobDefaults): Draft {
    var mode := if job.schedule.Some? && job.schedule.value.mode.Some?
                then job.schedule.value.mode.value else defaults.queue.mode;
    Draft(None, defaults.timezone, None, defaults.timeout, Placement([], [], [], false), defaults.retry,
          defaults.deadLetter, map[], defaults.queue.(mode := mode), NO_GUARDS, [], false)
  }

  /** The four schedule options, read after the body. */
  datatype Options = Options(
    timezone: Option<string>, calendar: Option<string>, notBefore: Option<string>, notAfter: Option<string>)

  function ApplyOption(c: Context, o: Options, d: Directive): Options {
    if d.key == "timezone" then o.(timezone := OrKeep(FirstArg(c, d), o.timezone))
    else if d.key == "calendar" then o.(calendar := FirstArg(c, d))
    else if d.key == "not_before" then o.(notBefore := FirstArg(c, d))
    else if d.key == "not_after" then o.(notAfter := FirstArg(c, d))
    else o
  }

  function OptionStep(c: Context): (Options, Directive) -> Options {
    (o: Options, d: Directive) => ApplyOption(c, o, d)
  }

  /** Ephemeral jobs keep nothing that needs a persisted queue. */
  function Settle(s: Draft): Draft {
    if s.queue.mode.Ephemeral? then
      var bare := s.queue.(catchUp := Nothing, catchUpExplicit := false, ttl := None);
      s.(queue := bare.(maxDepth := Some(1), keepLast := None), guards := NO_GUARDS)
    else s
  }

  function StampConcurrency(m: Table, n: Option<nat>): Table {
    if n.Some? then m[MAX_CONCURRENT := Digits(n.value)] else m
  }

  function StampGroup(c: Context, m: Table, group: Option<string>): Table {
    if group.Some? && group.value in c.limits then
      m[CONCURRENCY_GROUP := group.value][CONCURRENCY_GROUP_MAX := Digits(c.limits[group.value])]
    else m
  }

  function StampCoalesce(m: Table, on: bool, schedule: bool): Table {
    if on then m[COALESCE := if schedule then "schedule" else "1"] else m
  }

  function StampPriority(m: Table, p: Priority): Table {
    var without := m - {PRIORITY};
    if p.Normal? then without else without[PRIORITY := PriorityText(p)]
  }

  /** The compiler's stamps, in the order they are written. */
  function Stamps(c: Context, s: Draft): Table {
    var guarded := StampGroup(c, StampConcurrency(s.metadata, s.guards.maxConcurrent), s.guards.group);
    StampPriority(StampCoalesce(guarded, s.guards.coalesce, s.guards.coalesceSchedule), s.queue.priority)
  }

  function ScheduleOptions(job: JobBlock): seq<Directive> {
    if job.schedule.Some? then job.schedule.value.options else []
  }

  function JobOf(c: Context, job: JobBlock, defaults: JobDefaults): JobConfig {
    var read := Fold(JobStep(c), StartDraft(job, defaults), job.body);
    var o := Fold(OptionStep(c), Options(read.timezone, None, None, None), ScheduleOptions(job));
    var s := Settle(read.(timezone := o.timezone));
    JobConfig(job.key, if job.schedule.Some? then CompileSchedule(job.schedule.value.kind) else Never,
              o.calendar, o.notBefore, o.notAfter, s.(metadata := Stamps(c, s)))
  }

  // ----- Defaults -----

  function DefaultsDirective(c: Context, s: JobDefaults, key: Key, d: Directive): JobDefaults {
    match key
    case Timezone => s.(timezone := OrKeep(FirstArg(c, d), s.timezone))
    case Timeout => s.(timeout := DurationArg(c, d))
    case _ => s.(queue := QueueDirective(c, s.queue, key, d))
  }

  function DefaultsNode(c: Context, s: JobDefaults, n: Node): JobDefaults {
    match n
    case Leaf(d) => DefaultsDirective(c, s, KeyOf(d.key), d)
    case Block(b) =>
      if b.name == "retry" then s.(retry := CompileRetry(c, b, s.retry))
      else if b.name == "dead_letter" then s.(deadLetter := Fold(DeadLetterStep(c), s.deadLetter, b.body))
      else s
    case Comment => s
  }

  function DefaultsStep(c: Context): (JobDefaults, Node) -> JobDefaults {
    (s: JobDefaults, n: Node) => DefaultsNode(c, s, n)
  }

  // ----- Calendars -----

  function ResolveAll(c: Context, vs: seq<StringValue>): (r: seq<string>)
    ensures |r| == |vs|
  {
    seq(|vs|, i requires 0 <= i < |vs| => ResolveStr(c.env, vs[i], c.vars))
  }

  predicate HasPlaceholder(vs: seq<StringValue>) {
    exists v :: v in vs && v.placeholder
  }

  /** The placeholder text in place of every resolved placeholder. */
  function Unresolved(vs: seq<StringValue>): seq<string> {
    seq(|vs|, i requires 0 <= i < |vs| => if vs[i].placeholder then ['{'] + vs[i].value + ['}'] else vs[i].value)
  }

  /** The arguments of a rule; resolved values that do not fit the rule are not passed on. */
  function RuleArgs(c: Context, r: CalendarRule): seq<string> {
    var args := ResolveAll(c, r.args);
    if HasPlaceholder(r.args) && !c.env.ruleValid(r.kind, args) then Unresolved(r.args) else args
  }

  /** A calendar keeps its name as written; a bare `timezone` line clears the zone. */
  function CalendarStep(c: Context): (CalendarConfig, CalendarRule) -> CalendarConfig {
    (cal: CalendarConfig, r: CalendarRule) =>
      if r.kind == "timezone" then
        cal.(timezone := if r.args == [] then None else Some(ResolveStr(c.env, r.args[0], c.vars)))
      else cal.(rules := cal.rules + [RuleConfig(r.allow, r.kind, RuleArgs(c, r))])
  }

  function CalendarOf(c: Context, cal: CalendarBlock, zone: Option<string>): CalendarConfig {
    Fold(CalendarStep(c), CalendarConfig(cal.name.value, zone, []), cal.rules)
  }

  // ----- Variables -----

  /** One pass over the entries of a block: the literals, or the placeholders. */
  function EntryStep(env: Env, placeholder: bool): (Table, Directive) -> Table {
    (vars: Table, d: Directive) =>
      if d.args != [] && d.args[0].placeholder == placeholder
      then vars[d.key := ResolveStr(env, d.args[0], vars)] else vars
  }

  function VarsStep(env: Env, placeholder: bool): (Table, Item) -> Table {
    (vars: Table, item: Item) =>
      if item.Vars? then Fold(EntryStep(env, placeholder), vars, item.entries) else vars
  }

  /** First every literal, then every placeholder. */
  function VarsOf(env: Env, items: seq<Item>): Table {
    Fold(VarsStep(env, true), Fold(VarsStep(env, false), map[], items), items)
  }

  // ----- Concurrency groups -----

  function FindLimit(ds: seq<Directive>): Option<Directive> {
    if ds == [] then None else if ds[0].key == "max_concurrent" then Some(ds[0]) else FindLimit(ds[1..])
  }

  /** The limit a group block declares, if it is a positive number. */
  function UsableLimit(env: Env, vars: Table, ds: seq<Directive>): Option<nat> {
    match FindLimit(ds)
    case None => None
    case Some(d) =>
      match NumberArg(Context(env, vars, map[]), d)
      case Some(n) => if n > 0 then Some(n) else None
      case None => None
  }

  predicate Has(groups: seq<GroupConfig>, name: string) {
    exists i :: 0 <= i < |groups| && groups[i].name == name
  }

  function AddGroup(env: Env, vars: Table, groups: seq<GroupConfig>, item: Item): seq<GroupConfig> {
    if !item.Group? then groups
    else
      var name := ResolveStr(env, item.name, vars);
      var limit := UsableLimit(env, vars, item.directives);
      if name == "" || Has(groups, name) || limit.None? then groups
      else groups + [GroupConfig(name, limit.value)]
  }

  function GroupStep(env: Env, vars: Table): (seq<GroupConfig>, Item) -> seq<GroupConfig> {
    (groups: seq<GroupConfig>, item: Item) => AddGroup(env, vars, groups, item)
  }

  function GroupsOf(env: Env, vars: Table, items: seq<Item>): seq<GroupConfig> {
    Fold(GroupStep(env, vars), [], items)
  }

  function Limits(groups: seq<GroupConfig>): map<string, nat> {
    if groups == [] then map[]
    else Limits(groups[..|groups| - 1])[groups[|groups| - 1].name := groups[|groups| - 1].maxConcurrent]
  }

  // ----- The whole pass -----

  datatype Config = Config(jobs: seq<JobConfig>, calendars: seq<CalendarConfig>, groups: seq<GroupConfig>)

  datatype Pass = Pass(defaults: JobDefaults, jobs: seq<JobConfig>, calendars: seq<CalendarConfig>)

  function PassItem(c: Context, p: Pass, item: Item): Pass {
    match item
    case Defaults(body) => p.(defaults := Fold(DefaultsStep(c), p.defaults, body))
    case Calendar(cal) => p.(calendars := p.calendars + [CalendarOf(c, cal, p.defaults.timezone)])
    case Job(job) => p.(jobs := p.jobs + [JobOf(c, job, p.defaults)])
    case _ => p
  }

  function PassStep(c: Context): (Pass, Item) -> Pass {
    (p: Pass, item: Item) => PassItem(c, p, item)
  }

  /** What the items after some defaults compile to. */
  function PassFrom(c: Context, defaults: JobDefaults, items: seq<Item>): Pass {
    Fold(PassStep(c), Pass(defaults, [], []), items)
  }

  function ContextOf(env: Env, items: seq<Item>): Context {
    var vars := VarsOf(env, items);
    Context(env, vars, Limits(GroupsOf(env, vars, items)))
  }

  function ConfigOf(env: Env, items: seq<Item>): Config {
    var c := ContextOf(env, items);
    var p := PassFrom(c, INITIAL_DEFAULTS, items);
    Config(p.jobs, p.calendars, GroupsOf(env, c.vars, items))
  }

  // ----- The compiler's loops -----

  method CollectVars(env: Env, items: seq<Item>) returns (vars: Table)
    ensures vars == VarsOf(env, items)
  {
    var literals := CollectEntries(env, map[], items, false);
    vars := CollectEntries(env, literals, items, true);
  }

  method CollectEntries(env: Env, start: Table, items: seq<Item>, placeholder: bool) returns (vars: Table)
    ensures vars == Fold(VarsStep(env, placeholder), start, items)
  {
    vars := start;
    var step := VarsStep(env, placeholder);
    for i := 0 to |items|
      invariant Fold(step, vars, items[i..]) == Fold(step, start, items)
    {
      assert items[i..][1..] == items[i + 1..];
      if items[i].Vars? {
        var entries := items[i].entries;
        var entryStep := EntryStep(env, placeholder);
        ghost var before := vars;
        for j := 0 to |entries|
          invariant Fold(entryStep, vars, entries[j..]) == Fold(entryStep, before, entries)
        {
          assert entries[j..][1..] == entries[j + 1..];
          var d := entries[j];
          if d.args != [] && d.args[0].placeholder == placeholder {
            vars := vars[d.key := ResolveStr(env, d.args[0], vars)];
          }
        }
      }
    }
  }

  method CollectGroups(env: Env, vars: Table, items: seq<Item>) returns (groups: seq<GroupConfig>)
    ensures groups == GroupsOf(env, vars, items)
  {
    groups := [];
    var step := GroupStep(env, vars);
    for i := 0 to |items|
      invariant Fold(step, groups, items[i..]) == GroupsOf(env, vars, items)
    {
      assert items[i..][1..] == items[i + 1..];
      if items[i].Group? {
        var name := ResolveStr(env, items[i].name, vars);
        if name != "" && !Has(groups, name) {
          var limit := UsableLimit(env, vars, items[i].directives);
          if limit.Some? {
            groups := groups + [GroupConfig(name, limit.value)];
          }
        }
      }
    }
  }

  method CompileRetryBlock(c: Context, b: NamedBlock, base: Retry) returns (r: Retry)
    ensures r == CompileRetry(c, b, base)
  {
    r := base;
    if b.qualifier.Some? && KnownStrategy(b.qualifier.value) {
      r := r.(strategy := b.qualifier.value);
    }
    var step := RetryStep(c);
    ghost var start := r;
    for i := 0 to |b.body|
      invariant Fold(step, r, b.body[i..]) == Fold(step, start, b.body)
    {
      assert b.body[i..][1..] == b.body[i + 1..];
      if b.body[i].Leaf? {
        var d := b.body[i].d;
        r := RetryDirective(c.env, r, RetryKeyOf(d.key), OrElse(DurationArg(c, d), ""));
      }
    }
  }

  method CompileDeadLetterBlock(c: Context, b: NamedBlock, base: DeadLetter) returns (r: DeadLetter)
    ensures r == Fold(DeadLetterStep(c), base, b.body)
  {
    r := base;
    var step := DeadLetterStep(c);
    for i := 0 to |b.body|
      invariant Fold(step, r, b.body[i..]) == Fold(step, base, b.body)
    {
      assert b.body[i..][1..] == b.body[i + 1..];
      if b.body[i].Leaf? {
        var d := b.body[i].d;
        r := DeadLetterDirective(r, DeadLetterKeyOf(d.key), FirstArg(c, d), DurationArg(c, d));
      }
    }
  }

  method CompileNode(c: Context, s: Draft, n: Node) returns (t: Draft)
    ensures t == ApplyNode(c, s, n)
  {
    t := s;
    match n
    case Leaf(d) => t := ApplyDirective(c, s, KeyOf(d.key), d);
    case Block(b) =>
      if b.name == "retry" {
        var retry := CompileRetryBlock(c, b, s.retry);
        t := s.(retry := retry);
      } else if b.name == "dead_letter" {
        var deadLetter := CompileDeadLetterBlock(c, b, s.deadLetter);
        t := s.(deadLetter := deadLetter);
      } else {
        t := ApplyBlock(c, s, b);
      }
    case Comment =>
  }

  method CompileJob(c: Context, job: JobBlock, defaults: JobDefaults) returns (config: JobConfig)
    ensures config == JobOf(c, job, defaults)
  {
    var s := StartDraft(job, defaults);
    var step := JobStep(c);
    ghost var read := Fold(step, s, job.body);
    for i := 0 to |job.body|
      invariant Fold(step, s, job.body[i..]) == read
    {
      assert job.body[i..][1..] == job.body[i + 1..];
      s := CompileNode(c, s, job.body[i]);
    }
    var options := ScheduleOptions(job);
    var o := ReadOptions(c, s.timezone, options);
    s := s.(timezone := o.timezone);
    if s.queue.mode.Ephemeral? {
      var queue := s.queue.(catchUp := Nothing, catchUpExplicit := false, ttl := None);
      s := s.(queue := queue.(maxDepth := Some(1), keepLast := None), guards := NO_GUARDS);
    }
    var metadata := StampMetadata(c, s);
    config := JobConfig(job.key, if job.schedule.Some? then CompileSchedule(job.schedule.value.kind) else Never,
                        o.calendar, o.notBefore, o.notAfter, s.(metadata := metadata));
  }

  method ReadOptions(c: Context, timezone: Option<string>, options: seq<Directive>) returns (o: Options)
    ensures o == Fold(OptionStep(c), Options(timezone, None, None, None), options)
  {
    o := Options(timezone, None, None, None);
    var step := OptionStep(c);
    ghost var all := Fold(step, o, options);
    for i := 0 to |options|
      invariant Fold(step, o, options[i..]) == all
    {
      assert options[i..][1..] == options[i + 1..];
      o := ApplyOption(c, o, options[i]);
    }
  }

  method StampMetadata(c: Context, s: Draft) returns (metadata: Table)
    ensures metadata == Stamps(c, s)
  {
    metadata := s.metadata;
    if s.guards.maxConcurrent.Some? {
      metadata := metadata[MAX_CONCURRENT := Digits(s.guards.maxConcurrent.value)];
    }
    if s.guards.group.Some? && s.guards.group.value in c.limits {
      metadata := metadata[CONCURRENCY_GROUP := s.guards.group.value];
      metadata := metadata[CONCURRENCY_GROUP_MAX := Digits(c.limits[s.guards.group.value])];
    }
    if s.guards.coalesce {
      metadata := metadata[COALESCE := if s.guards.coalesceSchedule then "schedule" else "1"];
    }
    metadata := metadata - {PRIORITY};
    if !s.queue.priority.Normal? {
      metadata := metadata[PRIORITY := PriorityText(s.queue.priority)];
    }
  }

  method ReadDefaults(c: Context, start: JobDefaults, body: seq<Node>) returns (s: JobDefaults)
    ensures s == Fold(DefaultsStep(c), start, body)
  {
    s := start;
    var step := DefaultsStep(c);
    for i := 0 to |body|
      invariant Fold(step, s, body[i..]) == Fold(step, start, body)
    {
      assert body[i..][1..] == body[i + 1..];
      match body[i]
      case Leaf(d) => s := DefaultsDirective(c, s, KeyOf(d.key), d);
      case Block(b) =>
        if b.name == "retry" {
          var retry := CompileRetryBlock(c, b, s.retry);
          s := s.(retry := retry);
        } else if b.name == "dead_letter" {
          var deadLetter := CompileDeadLetterBlock(c, b, s.deadLetter);
          s := s.(deadLetter := deadLetter);
        }
      case Comment =>
    }
  }

  method CompileCalendar(c: Context, cal: CalendarBlock, zone: Option<string>) returns (config: CalendarConfig)
    ensures config == CalendarOf(c, cal, zone)
  {
    var timezone, rules := zone, [];
    var step := CalendarStep(c);
    for i := 0 to |cal.rules|
      invariant Fold(step, CalendarConfig(cal.name.value, timezone, rules), cal.rules[i..]) == CalendarOf(c, cal, zone)
    {
      assert cal.rules[i..][1..] == cal.rules[i + 1..];
      var r := cal.rules[i];
      if r.kind == "timezone" {
        timezone := if r.args == [] then None else Some(ResolveStr(c.env, r.args[0], c.vars));
      } else {
        rules := rules + [RuleConfig(r.allow, r.kind, RuleArgs(c, r))];
      }
    }
    config := CalendarConfig(cal.name.value, timezone, rules);
  }

  method CompileItem(c: Context, p: Pass, item: Item) returns (q: Pass)
    ensures q == PassItem(c, p, item)
  {
    q := p;
    match item
    case Defaults(body) =>
      var defaults := ReadDefaults(c, p.defaults, body);
      q := p.(defaults := defaults);
    case Calendar(cal) =>
      var calendar := CompileCalendar(c, cal, p.defaults.timezone);
      q := p.(calendars := p.calendars + [calendar]);
    case Job(job) =>
      var config := CompileJob(c, job, p.defaults);
      q := p.(jobs := p.jobs + [config]);
    case _ =>
  }

  method Compile(env: Env, items: seq<Item>) returns (config: Config)
    ensures config == ConfigOf(env, items)
  {
    var vars := CollectVars(env, items);
    var groups := CollectGroups(env, vars, items);
    var c := Context(env, vars, Limits(groups));
    var p := Pass(INITIAL_DEFAULTS, [], []);
    var step := PassStep(c);
    for i := 0 to |items|
      invariant Fold(step, p, items[i..]) == PassFrom(c, INITIAL_DEFAULTS, items)
    {
      assert items[i..][1..] == items[i + 1..];
      p := CompileItem(c, p, items[i]);
    }
    config := Config(p.jobs, p.calendars, groups);
  }
}

/**
 Which node of a job's body decides a field of the compiled job.

 A directive or block either sets a field outright or leaves it alone, so each
 field is decided by the last node that speaks about it.
 */
module FieldLaws {
  import opened Wrappers
  import opened Folds
  import opened CroniqAst
  import opened Compile
  import Fingerprint

  // ----- What one directive says about one field of the job, if anything -----

  function TimezoneSaid(c: Context): (Key, Directive) -> Option<Option<string>> {
    (key: Key, d: Directive) => if key == Timezone && d.args != [] then Some(FirstArg(c, d)) else None
  }

  function ModeSaid(c: Context): (Key, Directive) -> Option<Mode> {
    (key: Key, d: Directive) => if key == ExecutionMode then Bind(FirstArg(c, d), ParseMode) else None
  }

  function PrioritySaid(c: Context): (Key, Directive) -> Option<Priority> {
    (key: Key, d: Directive) => if key == PriorityKey then Bind(FirstArg(c, d), ParsePriority) else None
  }

  /** `singleton` and `max_concurrent` set the same guard; a malformed or zero limit clears it. */
  function GuardSaid(c: Context): (Key, Directive) -> Option<Option<nat>> {
    (key: Key, d: Directive) =>
      if key == Singleton then Some(Some(1))
      else if key == MaxConcurrent then
        var v := NumberArg(c, d); Some(if v == Some(0) then None else v)
      else None
  }

  /** A group reference; one to an undeclared group clears it. */
  function GroupSaid(c: Context): (Key, Directive) -> Option<Option<string>> {
    (key: Key, d: Directive) =>
      if key == ConcurrencyGroup then
        var v := FirstArg(c, d); Some(if v.Some? && v.value in c.limits then v else None)
      else None
  }

  /** The text a `coalesce` directive asks to be stamped. */
  function CoalesceSaid(c: Context): (Key, Directive) -> Option<Option<string>> {
    (key: Key, d: Directive) =>
      if key == Coalesce then Some(Some(if FirstArg(c, d) == Some("schedule") then "schedule" else "1")) else None
  }

  /** A readable policy counts as written out; any other leaves both policy and flag alone. */
  function CatchUpSaid(c: Context): (Key, Directive) -> Option<(CatchUp, bool)> {
    (key: Key, d: Directive) =>
      if key == CatchUpKey then
        var p := Bind(FirstArg(c, d), ParseCatchUp); if p.Some? then Some((p.value, true)) else None
      else None
  }

  /** `none`, like a bare directive, lifts the limit. */
  function TtlSaid(c: Context): (Key, Directive) -> Option<Option<string>> {
    (key: Key, d: Directive) => if key == QueueTtl then Some(NotNone(DurationArg(c, d))) else None
  }

  /** A number a directive of the given name sets; an unreadable one is no number. */
  function NumberSaid(c: Context, name: Key): (Key, Directive) -> Option<Option<nat>> {
    (key: Key, d: Directive) => if key == name && NumberArg(c, d).Some? then Some(NumberArg(c, d)) else None
  }

  /** A directive whose first argument replaces the field, even by nothing. */
  function ArgSaid(c: Context, name: Key): (Key, Directive) -> Option<Option<string>> {
    (key: Key, d: Directive) => if key == name then Some(FirstArg(c, d)) else None
  }

  function TimeoutSaid(c: Context): (Key, Directive) -> Option<Option<string>> {
    (key: Key, d: Directive) => if key == Timeout then Some(DurationArg(c, d)) else None
  }

  function RegisterSaid(): (Key, Directive) -> Option<bool> {
    (key: Key, d: Directive) => if key == RunOnRegister then Some(true) else None
  }

  function CoalesceText(g: Guards): Option<string> {
    if g.coalesce then Some(if g.coalesceSchedule then "schedule" else "1") else None
  }

  function Said<T>(says: (Key, Directive) -> Option<T>): Node -> Option<T> {
    (n: Node) => if n.Leaf? then says(KeyOf(n.d.key), n.d) else None
  }

  /** What the last directive of a body to say anything says. */
  function LastSaid<T>(says: (Key, Directive) -> Option<T>, body: seq<Node>): Option<T> {
    Last(Said(says), body)
  }

  lemma ChoicesSay(c: Context, q: Queue, key: Key, d: Directive, r: Queue)
    requires r == QueueDirective(c, q, key, d)
    ensures r.mode == OrElse(ModeSaid(c)(key, d), q.mode)
    ensures (r.catchUp, r.catchUpExplicit) == OrElse(CatchUpSaid(c)(key, d), (q.catchUp, q.catchUpExplicit))
    ensures r.priority == OrElse(PrioritySaid(c)(key, d), q.priority)
  {
  }

  lemma QueueSays(c: Context, q: Queue, key: Key, d: Directive, r: Queue)
    requires r == QueueDirective(c, q, key, d)
    ensures r.mode == OrElse(ModeSaid(c)(key, d), q.mode)
    ensures (r.catchUp, r.catchUpExplicit) == OrElse(CatchUpSaid(c)(key, d), (q.catchUp, q.catchUpExplicit))
    ensures r.ttl == OrElse(TtlSaid(c)(key, d), q.ttl)
    ensures r.maxDepth == OrElse(NumberSaid(c, MaxQueueDepth)(key, d), q.maxDepth)
    ensures r.keepLast == OrElse(NumberSaid(c, KeepLast)(key, d), q.keepLast)
    ensures r.priority == OrElse(PrioritySaid(c)(key, d), q.priority)
  {
    ChoicesSay(c, q, key, d, r);
  }

  lemma GuardsSay(c: Context, g: Guards, key: Key, d: Directive, r: Guards)
    requires r == GuardDirective(c, g, key, d)
    ensures r.maxConcurrent == OrElse(GuardSaid(c)(key, d), g.maxConcurrent)
    ensures r.group == OrElse(GroupSaid(c)(key, d), g.group)
    ensures CoalesceText(r) == OrElse(CoalesceSaid(c)(key, d), CoalesceText(g))
  {
  }

  lemma DirectiveParts(c: Context, s: Draft, key: Key, d: Directive, t: Draft)
    requires t == ApplyDirective(c, s, key, d)
    ensures t.timezone == OrElse(TimezoneSaid(c)(key, d), s.timezone)
    ensures t.queue == QueueDirective(c, s.queue, key, d) && t.guards == GuardDirective(c, s.guards, key, d)
    ensures t.metadata == s.metadata
  {
  }

  lemma DescriptionSays(c: Context, s: Draft, key: Key, d: Directive, t: Draft)
    requires t == ApplyDirective(c, s, key, d)
    ensures t.description == OrElse(ArgSaid(c, Description)(key, d), s.description)
  {
  }

  lemma WindowSays(c: Context, s: Draft, key: Key, d: Directive, t: Draft)
    requires t == ApplyDirective(c, s, key, d)
    ensures t.window == OrElse(ArgSaid(c, Window)(key, d), s.window)
  {
  }

  lemma TimeoutSays(c: Context, s: Draft, key: Key, d: Directive, t: Draft)
    requires t == ApplyDirective(c, s, key, d)
    ensures t.timeout == OrElse(TimeoutSaid(c)(key, d), s.timeout)
  {
  }

  lemma RegisterSays(c: Context, s: Draft, key: Key, d: Directive, t: Draft)
    requires t == ApplyDirective(c, s, key, d)
    ensures t.runOnRegister == OrElse(RegisterSaid()(key, d), s.runOnRegister)
  {
    match key
    case RunOnRegister =>
    case Tags =>
    case _ =>
  }

  lemma DirectivesKeepBlocks(c: Context, s: Draft, key: Key, d: Directive, t: Draft)
    requires t == ApplyDirective(c, s, key, d)
    ensures t.retry == s.retry && t.deadLetter == s.deadLetter
  {
  }

  // ----- The last directive to set a field decides it -----

  lemma LastDirective<T(!new)>(
      c: Context, get: Draft -> T, says: (Key, Directive) -> Option<T>, s: Draft, body: seq<Node>)
    requires forall t, key, d :: get(ApplyDirective(c, t, key, d)) == OrElse(says(key, d), get(t))
    requires forall t, b :: get(ApplyBlock(c, t, b)) == get(t)
    ensures get(Fold(JobStep(c), s, body)) == OrElse(LastSaid(says, body), get(s))
  {
    LastDecides(JobStep(c), get, Said(says), s, body);
  }

  lemma TimezoneDecided(c: Context, s: Draft, body: seq<Node>)
    ensures Fold(JobStep(c), s, body).timezone == OrElse(LastSaid(TimezoneSaid(c), body), s.timezone)
  {
    forall t, key, d ensures ApplyDirective(c, t, key, d).timezone == OrElse(TimezoneSaid(c)(key, d), t.timezone) {
      DirectiveParts(c, t, key, d, ApplyDirective(c, t, key, d));
    }
    LastDirective(c, (t: Draft) => t.timezone, TimezoneSaid(c), s, body);
  }

  lemma DescriptionDecided(c: Context, s: Draft, body: seq<Node>)
    ensures Fold(JobStep(c), s, body).description == OrElse(LastSaid(ArgSaid(c, Description), body), s.description)
  {
    forall t, key, d
      ensures ApplyDirective(c, t, key, d).description == OrElse(ArgSaid(c, Description)(key, d), t.description)
    {
      DescriptionSays(c, t, key, d, ApplyDirective(c, t, key, d));
    }
    LastDirective(c, (t: Draft) => t.description, ArgSaid(c, Description), s, body);
  }

  lemma WindowDecided(c: Context, s: Draft, body: seq<Node>)
    ensures Fold(JobStep(c), s, body).window == OrElse(LastSaid(ArgSaid(c, Window), body), s.window)
  {
    forall t, key, d ensures ApplyDirective(c, t, key, d).window == OrElse(ArgSaid(c, Window)(key, d), t.window) {
      WindowSays(c, t, key, d, ApplyDirective(c, t, key, d));
    }
    LastDirective(c, (t: Draft) => t.window, ArgSaid(c, Window), s, body);
  }

  lemma TimeoutDecided(c: Context, s: Draft, body: seq<Node>)
    ensures Fold(JobStep(c), s, body).timeout == OrElse(LastSaid(TimeoutSaid(c), body), s.timeout)
  {
    forall t, key, d ensures ApplyDirective(c, t, key, d).timeout == OrElse(TimeoutSaid(c)(key, d), t.timeout) {
      TimeoutSays(c, t, key, d, ApplyDirective(c, t, key, d));
    }
    LastDirective(c, (t: Draft) => t.timeout, TimeoutSaid(c), s, body);
  }

  lemma RegisterDecided(c: Context, s: Draft, body: seq<Node>)
    ensures Fold(JobStep(c), s, body).runOnRegister == OrElse(LastSaid(RegisterSaid(), body), s.runOnRegister)
  {
    forall t, key, d
      ensures ApplyDirective(c, t, key, d).runOnRegister == OrElse(RegisterSaid()(key, d), t.runOnRegister)
    {
      RegisterSays(c, t, key, d, ApplyDirective(c, t, key, d));
    }
    LastDirective(c, (t: Draft) => t.runOnRegister, RegisterSaid(), s, body);
  }

  /** The texts of a job are what the body last said about them, else inherited. */
  ghost predicate TextsFrom(c: Context, body: seq<Node>, s: Draft, r: Draft) {
    && r.description == OrElse(LastSaid(ArgSaid(c, Description), body), s.description)
    && r.window == OrElse(LastSaid(ArgSaid(c, Window), body), s.window)
    && r.timeout == OrElse(LastSaid(TimeoutSaid(c), body), s.timeout)
    && r.runOnRegister == OrElse(LastSaid(RegisterSaid(), body), s.runOnRegister)
  }

  lemma TextsDecided(c: Context, s: Draft, body: seq<Node>)
    ensures TextsFrom(c, body, s, Fold(JobStep(c), s, body))
  {
    DescriptionDecided(c, s, body);
    WindowDecided(c, s, body);
    TimeoutDecided(c, s, body);
    RegisterDecided(c, s, body);
  }

  // Retry and dead-letter blocks layer one over another, in the order of the body.

  function RetryLayer(c: Context): (Retry, Node) -> Retry {
    (r: Retry, n: Node) => if n.Block? && n.block.name == "retry" then CompileRetry(c, n.block, r) else r
  }

  function DeadLetterLayer(c: Context): (DeadLetter, Node) -> DeadLetter {
    (r: DeadLetter, n: Node) =>
      if n.Block? && n.block.name == "dead_letter" then Fold(DeadLetterStep(c), r, n.block.body) else r
  }

  lemma BlockParts(c: Context, s: Draft, b: NamedBlock, t: Draft)
    requires t == ApplyBlock(c, s, b)
    ensures t.retry == if b.name == "retry" then CompileRetry(c, b, s.retry) else s.retry
    ensures t.deadLetter == if b.name == "dead_letter" then Fold(DeadLetterStep(c), s.deadLetter, b.body) else s.deadLetter
  {
  }

  lemma NodeLayers(c: Context, s: Draft, n: Node, t: Draft)
    requires t == ApplyNode(c, s, n)
    ensures t.retry == RetryLayer(c)(s.retry, n) && t.deadLetter == DeadLetterLayer(c)(s.deadLetter, n)
  {
    match n
    case Leaf(d) => DirectivesKeepBlocks(c, s, KeyOf(d.key), d, t);
    case Block(b) => BlockParts(c, s, b, t);
    case Comment =>
  }

  lemma BlocksLayer(c: Context, s: Draft, body: seq<Node>)
    ensures Fold(JobStep(c), s, body).retry == Fold(RetryLayer(c), s.retry, body)
    ensures Fold(JobStep(c), s, body).deadLetter == Fold(DeadLetterLayer(c), s.deadLetter, body)
  {
    forall t, n, u | u == JobStep(c)(t, n)
      ensures u.retry == RetryLayer(c)(t.retry, n) && u.deadLetter == DeadLetterLayer(c)(t.deadLetter, n)
    {
      NodeLayers(c, t, n, u);
    }
    FoldProjects(JobStep(c), (t: Draft) => t.retry, RetryLayer(c), s, body);
    FoldProjects(JobStep(c), (t: Draft) => t.deadLetter, DeadLetterLayer(c), s, body);
  }

  /** A queue setting that queue directives set is set by the last of the body to set it. */
  lemma LastQueue<T(!new)>(c: Context, get: Queue -> T, says: (Key, Directive) -> Option<T>, s: Draft, body: seq<Node>)
    requires forall q, key, d :: get(QueueDirective(c, q, key, d)) == OrElse(says(key, d), get(q))
    ensures get(Fold(JobStep(c), s, body).queue) == OrElse(LastSaid(says, body), get(s.queue))
  {
    forall t, key, d ensures get(ApplyDirective(c, t, key, d).queue) == OrElse(says(key, d), get(t.queue)) {
      DirectiveParts(c, t, key, d, ApplyDirective(c, t, key, d));
    }
    LastDirective(c, (t: Draft) => get(t.queue), says, s, body);
  }

  lemma LastGuard<T(!new)>(c: Context, get: Guards -> T, says: (Key, Directive) -> Option<T>, s: Draft, body: seq<Node>)
    requires forall g, key, d :: get(GuardDirective(c, g, key, d)) == OrElse(says(key, d), get(g))
    ensures get(Fold(JobStep(c), s, body).guards) == OrElse(LastSaid(says, body), get(s.guards))
  {
    forall t, key, d ensures get(ApplyDirective(c, t, key, d).guards) == OrElse(says(key, d), get(t.guards)) {
      DirectiveParts(c, t, key, d, ApplyDirective(c, t, key, d));
    }
    LastDirective(c, (t: Draft) => get(t.guards), says, s, body);
  }

  // Each queue setting and each guard, in turn.

  lemma ModeDecided(c: Context, s: Draft, body: seq<Node>, r: Queue)
    requires r == Fold(JobStep(c), s, body).queue
    ensures r.mode == OrElse(LastSaid(ModeSaid(c), body), s.queue.mode)
  {
    forall t, key, d, u | u == QueueDirective(c, t, key, d)
      ensures u.mode == OrElse(ModeSaid(c)(key, d), t.mode)
    {
      QueueSays(c, t, key, d, u);
    }
    LastQueue(c, (t: Queue) => t.mode, ModeSaid(c), s, body);
  }

  lemma CatchUpDecided(c: Context, s: Draft, body: seq<Node>, r: Queue)
    requires r == Fold(JobStep(c), s, body).queue
    ensures (r.catchUp, r.catchUpExplicit)
         == OrElse(LastSaid(CatchUpSaid(c), body), (s.queue.catchUp, s.queue.catchUpExplicit))
  {
    forall t, key, d, u | u == QueueDirective(c, t, key, d)
      ensures (u.catchUp, u.catchUpExplicit) == OrElse(CatchUpSaid(c)(key, d), (t.catchUp, t.catchUpExplicit))
    {
      QueueSays(c, t, key, d, u);
    }
    LastQueue(c, (t: Queue) => (t.catchUp, t.catchUpExplicit), CatchUpSaid(c), s, body);
  }

  lemma TtlDecided(c: Context, s: Draft, body: seq<Node>, r: Queue)
    requires r == Fold(JobStep(c), s, body).queue
    ensures r.ttl == OrElse(LastSaid(TtlSaid(c), body), s.queue.ttl)
  {
    forall t, key, d, u | u == QueueDirective(c, t, key, d)
      ensures u.ttl == OrElse(TtlSaid(c)(key, d), t.ttl)
    {
      QueueSays(c, t, key, d, u);
    }
    LastQueue(c, (t: Queue) => t.ttl, TtlSaid(c), s, body);
  }

  lemma DepthDecided(c: Context, s: Draft, body: seq<Node>, r: Queue)
    requires r == Fold(JobStep(c), s, body).queue
    ensures r.maxDepth == OrElse(LastSaid(NumberSaid(c, MaxQueueDepth), body), s.queue.maxDepth)
  {
    forall t, key, d, u | u == QueueDirective(c, t, key, d)
      ensures u.maxDepth == OrElse(NumberSaid(c, MaxQueueDepth)(key, d), t.maxDepth)
    {
      QueueSays(c, t, key, d, u);
    }
    LastQueue(c, (t: Queue) => t.maxDepth, NumberSaid(c, MaxQueueDepth), s, body);
  }

  lemma KeepLastDecided(c: Context, s: Draft, body: seq<Node>, r: Queue)
    requires r == Fold(JobStep(c), s, body).queue
    ensures r.keepLast == OrElse(LastSaid(NumberSaid(c, KeepLast), body), s.queue.keepLast)
  {
    forall t, key, d, u | u == QueueDirective(c, t, key, d)
      ensures u.keepLast == OrElse(NumberSaid(c, KeepLast)(key, d), t.keepLast)
    {
      QueueSays(c, t, key, d, u);
    }
    LastQueue(c, (t: Queue) => t.keepLast, NumberSaid(c, KeepLast), s, body);
  }

  lemma PriorityDecided(c: Context, s: Draft, body: seq<Node>, r: Queue)
    requires r == Fold(JobStep(c), s, body).queue
    ensures r.priority == OrElse(LastSaid(PrioritySaid(c), body), s.queue.priority)
  {
    forall t, key, d, u | u == QueueDirective(c, t, key, d)
      ensures u.priority == OrElse(PrioritySaid(c)(key, d), t.priority)
    {
      QueueSays(c, t, key, d, u);
    }
    LastQueue(c, (t: Queue) => t.priority, PrioritySaid(c), s, body);
  }

  lemma GuardDecided(c: Context, s: Draft, body: seq<Node>, r: Guards)
    requires r == Fold(JobStep(c), s, body).guards
    ensures r.maxConcurrent == OrElse(LastSaid(GuardSaid(c), body), s.guards.maxConcurrent)
  {
    forall t, key, d, u | u == GuardDirective(c, t, key, d)
      ensures u.maxConcurrent == OrElse(GuardSaid(c)(key, d), t.maxConcurrent)
    {
      GuardsSay(c, t, key, d, u);
    }
    LastGuard(c, (t: Guards) => t.maxConcurrent, GuardSaid(c), s, body);
  }

  lemma GroupDecided(c: Context, s: Draft, body: seq<Node>, r: Guards)
    requires r == Fold(JobStep(c), s, body).guards
    ensures r.group == OrElse(LastSaid(GroupSaid(c), body), s.guards.group)
  {
    forall t, key, d, u | u == GuardDirective(c, t, key, d)
      ensures u.group == OrElse(GroupSaid(c)(key, d), t.group)
    {
      GuardsSay(c, t, key, d, u);
    }
    LastGuard(c, (t: Guards) => t.group, GroupSaid(c), s, body);
  }

  lemma CoalesceDecided(c: Context, s: Draft, body: seq<Node>, r: Guards)
    requires r == Fold(JobStep(c), s, body).guards
    ensures CoalesceText(r) == OrElse(LastSaid(CoalesceSaid(c), body), CoalesceText(s.guards))
  {
    forall t, key, d, u | u == GuardDirective(c, t, key, d)
      ensures CoalesceText(u) == OrElse(CoalesceSaid(c)(key, d), CoalesceText(t))
    {
      GuardsSay(c, t, key, d, u);
    }
    LastGuard(c, (t: Guards) => CoalesceText(t), CoalesceSaid(c), s, body);
  }

  /** Every queue setting is what the body last said about it, else what it was. */
  ghost predicate QueueFrom(c: Context, body: seq<Node>, q: Queue, r: Queue) {
    && r.mode == OrElse(LastSaid(ModeSaid(c), body), q.mode)
    && (r.catchUp, r.catchUpExplicit) == OrElse(LastSaid(CatchUpSaid(c), body), (q.catchUp, q.catchUpExplicit))
    && r.ttl == OrElse(LastSaid(TtlSaid(c), body), q.ttl)
    && r.maxDepth == OrElse(LastSaid(NumberSaid(c, MaxQueueDepth), body), q.maxDepth)
    && r.keepLast == OrElse(LastSaid(NumberSaid(c, KeepLast), body), q.keepLast)
    && r.priority == OrElse(LastSaid(PrioritySaid(c), body), q.priority)
  }

  lemma QueueDecided(c: Context, s: Draft, body: seq<Node>)
    ensures QueueFrom(c, body, s.queue, Fold(JobStep(c), s, body).queue)
  {
    var r := Fold(JobStep(c), s, body).queue;
    ModeDecided(c, s, body, r);
    CatchUpDecided(c, s, body, r);
    TtlDecided(c, s, body, r);
    DepthDecided(c, s, body, r);
    KeepLastDecided(c, s, body, r);
    PriorityDecided(c, s, body, r);
  }

  /** Every guard is what the body last said about it, else what it was. */
  ghost predicate GuardsFrom(c: Context, body: seq<Node>, g: Guards, r: Guards) {
    && r.maxConcurrent == OrElse(LastSaid(GuardSaid(c), body), g.maxConcurrent)
    && r.group == OrElse(LastSaid(GroupSaid(c), body), g.group)
    && CoalesceText(r) == OrElse(LastSaid(CoalesceSaid(c), body), CoalesceText(g))
  }

  lemma GuardsDecided(c: Context, s: Draft, body: seq<Node>)
    ensures GuardsFrom(c, body, s.guards, Fold(JobStep(c), s, body).guards)
  {
    var r := Fold(JobStep(c), s, body).guards;
    GuardDecided(c, s, body, r);
    GroupDecided(c, s, body, r);
    CoalesceDecided(c, s, body, r);
  }

  // ----- The last block to write a metadata key decides it -----

  /** What a `metadata` entry writes under a key. */
  function EntrySaid(c: Context, k: string): Node -> Option<string> {
    (n: Node) => if n.Leaf? && n.d.key == k && !IsReserved(k) then FirstArg(c, n.d) else None
  }

  function ExecSaid(exec: Option<Fingerprint.RunnerExec>): Option<string> {
    match exec
    case Some(e) => Some(Fingerprint.ExecText(e))
    case None => None
  }

  /** What a block of a job writes under a key. */
  function BlockSaid(c: Context, b: NamedBlock, k: string): Option<string> {
    if b.name == "metadata" then Last(EntrySaid(c, k), b.body)
    else if b.name == "runner" && k == RUNNER_EXEC then
      ExecSaid(CompileExec(c, b))
    else None
  }

  function MetadataSaid(c: Context, k: string): Node -> Option<string> {
    (n: Node) => if n.Block? then BlockSaid(c, n.block, k) else None
  }

  /** Wrapping every answer in a further `Some` wraps the last answer. */
  lemma {:induction false} LastWrapped<N(!new), T>(f: N -> Option<T>, g: N -> Option<Option<T>>, xs: seq<N>)
    requires forall x :: g(x) == if f(x).Some? then Some(f(x)) else None
    ensures Last(g, xs) == if Last(f, xs).Some? then Some(Last(f, xs)) else None
  {
    if xs != [] {
      LastWrapped(f, g, xs[1..]);
    }
  }

  /** A key of a table that every element either inserts or leaves alone holds the last insertion. */
  lemma LastInserts<S(!new), N(!new)>(
      step: (S, N) -> S, table: S -> Table, says: N -> Option<string>, k: string, s: S, xs: seq<N>)
    requires forall t, x :: Lookup(table(step(t, x)), k) == OrKeep(says(x), Lookup(table(t), k))
    ensures Lookup(table(Fold(step, s, xs)), k) == OrKeep(Last(says, xs), Lookup(table(s), k))
  {
    var wrapped := (x: N) => if says(x).Some? then Some(says(x)) else None;
    LastDecides(step, (t: S) => Lookup(table(t), k), wrapped, s, xs);
    LastWrapped(says, wrapped, xs);
  }

  lemma EntriesDecide(c: Context, m: Table, body: seq<Node>, k: string)
    ensures Lookup(Fold(MetadataStep(c), m, body), k) == OrKeep(Last(EntrySaid(c, k), body), Lookup(m, k))
  {
    LastInserts(MetadataStep(c), (t: Table) => t, EntrySaid(c, k), k, m, body);
  }

  lemma ExecStamped(m: Table, exec: Option<Fingerprint.RunnerExec>, k: string)
    ensures Lookup(StampExec(m, exec), k) == OrKeep(if k == RUNNER_EXEC then ExecSaid(exec) else None, Lookup(m, k))
  {
  }

  lemma BlockWrites(c: Context, s: Draft, b: NamedBlock, k: string)
    ensures Lookup(ApplyBlock(c, s, b).metadata, k) == OrKeep(BlockSaid(c, b, k), Lookup(s.metadata, k))
  {
    if b.name == "metadata" {
      EntriesDecide(c, s.metadata, b.body, k);
    } else if b.name == "runner" {
      ExecStamped(s.metadata, CompileExec(c, b), k);
    }
  }

  lemma MetadataDecided(c: Context, s: Draft, body: seq<Node>, k: string)
    ensures Lookup(Fold(JobStep(c), s, body).metadata, k)
         == OrKeep(Last(MetadataSaid(c, k), body), Lookup(s.metadata, k))
  {
    forall t, n ensures Lookup(JobStep(c)(t, n).metadata, k) == OrKeep(MetadataSaid(c, k)(n), Lookup(t.metadata, k)) {
      match n
      case Leaf(d) => DirectiveParts(c, t, KeyOf(d.key), d, JobStep(c)(t, n));
      case Block(b) => BlockWrites(c, t, b, k);
      case Comment =>
    }
    LastInserts(JobStep(c), (t: Draft) => t.metadata, MetadataSaid(c, k), k, s, body);
  }
}
