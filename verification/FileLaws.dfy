/**
 What the compiler guarantees for a whole file, whatever its items.

 Groups and literal variables are collected before any job, so their blocks may
 stand anywhere; defaults are read in passing, so theirs may not. Every job of
 the file is coherent, with the groups compiled beside it. Retry and
 dead-letter blocks layer field by field over what they inherit.
 */
module FileLaws {
  import opened Wrappers
  import opened Sequences
  import opened Folds
  import opened ScheduleText
  import opened CroniqAst
  import opened Compile
  import opened FieldLaws
  import opened CompileLaws

  // ----- Concurrency groups: the first usable block of a name wins -----

  function LimitSaid(env: Env, vars: Table, name: string): Item -> Option<nat> {
    (item: Item) =>
      if item.Group? && name != "" && ResolveStr(env, item.name, vars) == name
      then UsableLimit(env, vars, item.directives) else None
  }

  function LimitFor(env: Env, vars: Table, items: seq<Item>, name: string): Option<nat> {
    First(LimitSaid(env, vars, name), items)
  }

  lemma {:induction false} HasLimit(groups: seq<GroupConfig>, name: string)
    ensures name in Limits(groups) <==> Has(groups, name)
  {
    if groups != [] {
      var front, last := groups[..|groups| - 1], groups[|groups| - 1];
      HasLimit(front, name);
      assert groups[|groups| - 1].name == last.name;
      assert forall i :: 0 <= i < |front| ==> front[i] == groups[i];
    }
  }

  lemma GroupStepSays(env: Env, vars: Table, groups: seq<GroupConfig>, item: Item, name: string)
    ensures Lookup(Limits(AddGroup(env, vars, groups, item)), name)
         == OrKeep(Lookup(Limits(groups), name), LimitSaid(env, vars, name)(item))
  {
    HasLimit(groups, name);
    var next := AddGroup(env, vars, groups, item);
    if next != groups {
      assert next[..|next| - 1] == groups;
    }
  }

  lemma LimitsExact(env: Env, vars: Table, items: seq<Item>, name: string)
    ensures Lookup(Limits(GroupsOf(env, vars, items)), name) == LimitFor(env, vars, items, name)
  {
    var get := (groups: seq<GroupConfig>) => Lookup(Limits(groups), name);
    forall groups, item
      ensures get(GroupStep(env, vars)(groups, item)) == OrKeep(get(groups), LimitSaid(env, vars, name)(item))
    {
      GroupStepSays(env, vars, groups, item, name);
    }
    FirstDecides(GroupStep(env, vars), get, LimitSaid(env, vars, name), [], items);
  }

  /** The first `max_concurrent` of a block, if it is a positive number, is its limit. */
  predicate IsLimit(env: Env, vars: Table, ds: seq<Directive>, i: nat, n: nat) {
    && i < |ds| && ds[i].key == "max_concurrent" && (forall j :: 0 <= j < i ==> ds[j].key != "max_concurrent")
    && n > 0 && NumberArg(Context(env, vars, map[]), ds[i]) == Some(n)
  }

  lemma {:induction false} FindLimitFirst(ds: seq<Directive>, i: nat)
    requires i < |ds| && ds[i].key == "max_concurrent" && forall j :: 0 <= j < i ==> ds[j].key != "max_concurrent"
    ensures FindLimit(ds) == Some(ds[i])
    decreases |ds|
  {
    if i > 0 {
      FindLimitFirst(ds[1..], i - 1);
    }
  }

  lemma {:induction false} FindLimitAt(ds: seq<Directive>) returns (i: nat)
    requires FindLimit(ds).Some?
    ensures i < |ds| && ds[i].key == "max_concurrent" && ds[i] == FindLimit(ds).value
    ensures forall j :: 0 <= j < i ==> ds[j].key != "max_concurrent"
    decreases |ds|
  {
    if ds[0].key == "max_concurrent" {
      i := 0;
    } else {
      var k := FindLimitAt(ds[1..]);
      assert forall j :: 0 < j < k + 1 ==> ds[j] == ds[1..][j - 1];
      i := k + 1;
    }
  }

  lemma UsableLimitExact(env: Env, vars: Table, ds: seq<Directive>, n: nat)
    ensures UsableLimit(env, vars, ds) == Some(n) <==> exists i :: IsLimit(env, vars, ds, i, n)
  {
    if FindLimit(ds).Some? {
      var i := FindLimitAt(ds);
      assert UsableLimit(env, vars, ds) == Some(n) ==> IsLimit(env, vars, ds, i, n);
    }
    if i :| IsLimit(env, vars, ds, i, n) {
      FindLimitFirst(ds, i);
    }
  }

  /** Declared once each, with a name and room for at least one run. */
  ghost predicate WellFormed(groups: seq<GroupConfig>) {
    && (forall i, j :: 0 <= i < j < |groups| ==> groups[i].name != groups[j].name)
    && (forall g :: g in groups ==> g.name != "" && g.maxConcurrent > 0)
  }

  lemma GroupsWellFormed(env: Env, vars: Table, items: seq<Item>)
    ensures WellFormed(GroupsOf(env, vars, items))
  {
    FoldKeeps(GroupStep(env, vars), (groups: seq<GroupConfig>) => WellFormed(groups), [], items);
  }

  lemma {:induction false} LimitIsDeclared(groups: seq<GroupConfig>, g: GroupConfig)
    requires WellFormed(groups)
    ensures g in groups <==> Lookup(Limits(groups), g.name) == Some(g.maxConcurrent)
  {
    if groups != [] {
      var front, last := groups[..|groups| - 1], groups[|groups| - 1];
      assert groups == front + [last];
      assert WellFormed(front);
      LimitIsDeclared(front, g);
      HasLimit(front, last.name);
    }
  }

  /** The compiled groups are exactly the names some block gives a usable limit, with the first such limit. */
  lemma GroupsExact(env: Env, vars: Table, items: seq<Item>, g: GroupConfig)
    ensures WellFormed(GroupsOf(env, vars, items))
    ensures g in GroupsOf(env, vars, items) <==> LimitFor(env, vars, items, g.name) == Some(g.maxConcurrent)
  {
    GroupsWellFormed(env, vars, items);
    LimitIsDeclared(GroupsOf(env, vars, items), g);
    LimitsExact(env, vars, items, g.name);
  }

  // ----- Items a pass does not look at -----

  /** An item a fold ignores may stand anywhere. */
  lemma IgnoredMoves<S(!new)>(step: (S, Item) -> S, s: S, a: seq<Item>, x: Item, b: seq<Item>, t: seq<Item>)
    requires forall u :: step(u, x) == u
    ensures Fold(step, s, a + [x] + b + t) == Fold(step, s, a + b + [x] + t)
  {
    FoldIgnores(step, s, a, x, b + t);
    FoldIgnores(step, s, a + b, x, t);
    assert a + [x] + b + t == a + [x] + (b + t) && a + b + t == a + (b + t);
  }

  lemma {:induction false} NothingChanges<S(!new), N>(step: (S, N) -> S, s: S, xs: seq<N>)
    requires forall x, u :: x in xs ==> step(u, x) == u
    ensures Fold(step, s, xs) == s
  {
    if xs != [] {
      assert xs[0] in xs && forall x :: x in xs[1..] ==> x in xs;
      assert step(s, xs[0]) == s;
      NothingChanges(step, s, xs[1..]);
    }
  }

  // ----- Moving a concurrency group -----

  /** Moving a group over other blocks is harmless unless it changes which block gives its name a limit. */
  predicate GroupMayMove(env: Env, vars: Table, a: seq<Item>, g: Item, b: seq<Item>)
    requires g.Group?
  {
    var name := ResolveStr(env, g.name, vars);
    var limit := LimitSaid(env, vars, name)(g);
    limit.None? || LimitFor(env, vars, a, name).Some? || LimitFor(env, vars, b, name) in [None, limit]
  }

  lemma LimitsOfParts(env: Env, vars: Table, a: seq<Item>, b: seq<Item>, name: string)
    ensures LimitFor(env, vars, a + b, name) == OrKeep(LimitFor(env, vars, a, name), LimitFor(env, vars, b, name))
  {
    FirstConcat(LimitSaid(env, vars, name), a, b);
  }

  /** The limit of a name with the group before and after the blocks it crosses. */
  lemma LimitsAround(env: Env, vars: Table, a: seq<Item>, g: Item, b: seq<Item>, t: seq<Item>, name: string)
    ensures LimitFor(env, vars, a + [g] + b + t, name)
         == OrKeep(OrKeep(OrKeep(LimitFor(env, vars, a, name), LimitSaid(env, vars, name)(g)),
                          LimitFor(env, vars, b, name)), LimitFor(env, vars, t, name))
    ensures LimitFor(env, vars, a + b + [g] + t, name)
         == OrKeep(OrKeep(OrKeep(LimitFor(env, vars, a, name), LimitFor(env, vars, b, name)),
                          LimitSaid(env, vars, name)(g)), LimitFor(env, vars, t, name))
  {
    LimitsOfParts(env, vars, a + [g] + b, t, name);
    LimitsOfParts(env, vars, a + [g], b, name);
    LimitsOfParts(env, vars, a, [g], name);
    LimitsOfParts(env, vars, a + b + [g], t, name);
    LimitsOfParts(env, vars, a + b, [g], name);
    LimitsOfParts(env, vars, a, b, name);
    assert First(LimitSaid(env, vars, name), [g]) == LimitSaid(env, vars, name)(g);
  }

  lemma GroupMoveExact(env: Env, vars: Table, a: seq<Item>, g: Item, b: seq<Item>, t: seq<Item>)
    requires g.Group?
    ensures GroupMayMove(env, vars, a, g, b)
       <==> Limits(GroupsOf(env, vars, a + [g] + b + t)) == Limits(GroupsOf(env, vars, a + b + [g] + t))
  {
    var before := Limits(GroupsOf(env, vars, a + [g] + b + t));
    var after := Limits(GroupsOf(env, vars, a + b + [g] + t));
    var own := ResolveStr(env, g.name, vars);
    LimitsAround(env, vars, a, g, b, t, own);
    LimitsExact(env, vars, a + [g] + b + t, own);
    LimitsExact(env, vars, a + b + [g] + t, own);
    if GroupMayMove(env, vars, a, g, b) {
      forall name ensures Lookup(before, name) == Lookup(after, name) {
        LimitsAround(env, vars, a, g, b, t, name);
        LimitsExact(env, vars, a + [g] + b + t, name);
        LimitsExact(env, vars, a + b + [g] + t, name);
      }
      SameLookups(before, after);
    }
  }

  lemma SameLookups<V(!new)>(m: map<string, V>, n: map<string, V>)
    requires forall k :: Lookup(m, k) == Lookup(n, k)
    ensures m == n
  {
    assert forall k :: k in m <==> Lookup(m, k).Some?;
    assert forall k :: k in n <==> Lookup(n, k).Some?;
    assert forall k :: k in m ==> m[k] == Lookup(m, k).value;
    assert forall k :: k in n ==> n[k] == Lookup(n, k).value;
  }

  /** A group block may stand anywhere: every job and calendar compiles as before. */
  lemma GroupMoves(env: Env, a: seq<Item>, g: Item, b: seq<Item>, t: seq<Item>)
    requires g.Group? && GroupMayMove(env, VarsOf(env, a + [g] + b + t), a, g, b)
    ensures ConfigOf(env, a + [g] + b + t).jobs == ConfigOf(env, a + b + [g] + t).jobs
    ensures ConfigOf(env, a + [g] + b + t).calendars == ConfigOf(env, a + b + [g] + t).calendars
    ensures forall h :: h in ConfigOf(env, a + [g] + b + t).groups <==> h in ConfigOf(env, a + b + [g] + t).groups
  {
    var before, after := a + [g] + b + t, a + b + [g] + t;
    IgnoredMoves(VarsStep(env, false), map[], a, g, b, t);
    IgnoredMoves(VarsStep(env, true), Fold(VarsStep(env, false), map[], before), a, g, b, t);
    var c := ContextOf(env, before);
    GroupMoveExact(env, c.vars, a, g, b, t);
    IgnoredMoves(PassStep(c), Pass(INITIAL_DEFAULTS, [], []), a, g, b, t);
    forall h ensures h in GroupsOf(env, c.vars, before) <==> h in GroupsOf(env, c.vars, after) {
      GroupsExact(env, c.vars, before, h);
      GroupsExact(env, c.vars, after, h);
      LimitsExact(env, c.vars, before, h.name);
      LimitsExact(env, c.vars, after, h.name);
    }
  }

  // ----- Moving a block of literal variables -----

  function LiteralSaid(k: string): Directive -> Option<string> {
    (d: Directive) =>
      if d.key == k && d.args != [] && !d.args[0].placeholder then Some(d.args[0].value) else None
  }

  function BlockLiteral(k: string): Item -> Option<string> {
    (item: Item) => if item.Vars? then Last(LiteralSaid(k), item.entries) else None
  }

  lemma EntriesSay(env: Env, m: Table, ds: seq<Directive>, k: string)
    ensures Lookup(Fold(EntryStep(env, false), m, ds), k) == OrKeep(Last(LiteralSaid(k), ds), Lookup(m, k))
  {
    LastInserts(EntryStep(env, false), (t: Table) => t, LiteralSaid(k), k, m, ds);
  }

  lemma LiteralsExact(env: Env, items: seq<Item>, k: string)
    ensures Lookup(Fold(VarsStep(env, false), map[], items), k) == Last(BlockLiteral(k), items)
  {
    forall t, item
      ensures Lookup(VarsStep(env, false)(t, item), k) == OrKeep(BlockLiteral(k)(item), Lookup(t, k))
    {
      if item.Vars? {
        EntriesSay(env, t, item.entries, k);
      }
    }
    LastInserts(VarsStep(env, false), (t: Table) => t, BlockLiteral(k), k, map[], items);
  }

  /** The literals with the block before and after the blocks it crosses. */
  lemma LiteralsAround(a: seq<Item>, v: Item, b: seq<Item>, t: seq<Item>, k: string)
    ensures Last(BlockLiteral(k), a + [v] + b + t)
         == OrKeep(Last(BlockLiteral(k), t), OrKeep(Last(BlockLiteral(k), b),
                   OrKeep(BlockLiteral(k)(v), Last(BlockLiteral(k), a))))
    ensures Last(BlockLiteral(k), a + b + [v] + t)
         == OrKeep(Last(BlockLiteral(k), t), OrKeep(BlockLiteral(k)(v),
                   OrKeep(Last(BlockLiteral(k), b), Last(BlockLiteral(k), a))))
  {
    LastConcat(BlockLiteral(k), a + [v] + b, t);
    LastConcat(BlockLiteral(k), a + [v], b);
    LastConcat(BlockLiteral(k), a, [v]);
    LastConcat(BlockLiteral(k), a + b + [v], t);
    LastConcat(BlockLiteral(k), a + b, [v]);
    LastConcat(BlockLiteral(k), a, b);
    assert Last(BlockLiteral(k), [v]) == BlockLiteral(k)(v);
  }

  /** No name the block sets gets a different literal from the blocks it crosses, unless a later block decides. */
  ghost predicate LiteralsMayMove(v: Item, b: seq<Item>, t: seq<Item>) {
    forall k ::
      || Last(BlockLiteral(k), t).Some?
      || BlockLiteral(k)(v).None?
      || Last(BlockLiteral(k), b) in [None, BlockLiteral(k)(v)]
  }

  lemma LiteralMoveExact(env: Env, a: seq<Item>, v: Item, b: seq<Item>, t: seq<Item>)
    ensures LiteralsMayMove(v, b, t)
       <==> Fold(VarsStep(env, false), map[], a + [v] + b + t) == Fold(VarsStep(env, false), map[], a + b + [v] + t)
  {
    var before := Fold(VarsStep(env, false), map[], a + [v] + b + t);
    var after := Fold(VarsStep(env, false), map[], a + b + [v] + t);
    forall k
      ensures Lookup(before, k) == Last(BlockLiteral(k), a + [v] + b + t)
      ensures Lookup(after, k) == Last(BlockLiteral(k), a + b + [v] + t)
    {
      LiteralsExact(env, a + [v] + b + t, k);
      LiteralsExact(env, a + b + [v] + t, k);
    }
    forall k
      ensures Lookup(before, k) == Lookup(after, k)
         <==> (Last(BlockLiteral(k), t).Some? || BlockLiteral(k)(v).None?
               || Last(BlockLiteral(k), b) in [None, BlockLiteral(k)(v)])
    {
      LiteralsAround(a, v, b, t, k);
    }
    if LiteralsMayMove(v, b, t) {
      SameLookups(before, after);
    }
  }

  predicate LiteralOnly(v: Item) {
    v.Vars? && forall d :: d in v.entries && d.args != [] ==> !d.args[0].placeholder
  }

  /** A block of literal variables may stand anywhere: the whole file compiles as before. */
  lemma LiteralVarsMove(env: Env, a: seq<Item>, v: Item, b: seq<Item>, t: seq<Item>)
    requires LiteralOnly(v) && LiteralsMayMove(v, b, t)
    ensures ConfigOf(env, a + [v] + b + t) == ConfigOf(env, a + b + [v] + t)
  {
    var before, after := a + [v] + b + t, a + b + [v] + t;
    LiteralMoveExact(env, a, v, b, t);
    forall m ensures VarsStep(env, true)(m, v) == m {
      NothingChanges(EntryStep(env, true), m, v.entries);
    }
    IgnoredMoves(VarsStep(env, true), Fold(VarsStep(env, false), map[], before), a, v, b, t);
    var c := ContextOf(env, before);
    IgnoredMoves(GroupStep(env, c.vars), [], a, v, b, t);
    IgnoredMoves(PassStep(c), Pass(INITIAL_DEFAULTS, [], []), a, v, b, t);
  }

  // ----- Defaults reach only what follows them -----

  function Append(p: Pass, q: Pass): Pass {
    Pass(q.defaults, p.jobs + q.jobs, p.calendars + q.calendars)
  }

  lemma AppendAssoc(p: Pass, q: Pass, r: Pass)
    ensures Append(Append(p, q), r) == Append(p, Append(q, r))
  {
    assert (p.jobs + q.jobs) + r.jobs == p.jobs + (q.jobs + r.jobs);
    assert (p.calendars + q.calendars) + r.calendars == p.calendars + (q.calendars + r.calendars);
  }

  lemma PassStepAppends(c: Context, p: Pass, item: Item)
    ensures PassItem(c, p, item) == Append(p, PassItem(c, Pass(p.defaults, [], []), item))
  {
    assert p.jobs + [] == p.jobs && p.calendars + [] == p.calendars;
  }

  /** The pass never looks back: it appends, and depends on the past only through the defaults. */
  lemma {:induction false} PassAppends(c: Context, p: Pass, items: seq<Item>)
    ensures Fold(PassStep(c), p, items) == Append(p, PassFrom(c, p.defaults, items))
    decreases |items|
  {
    if items == [] {
      assert p.jobs + [] == p.jobs && p.calendars + [] == p.calendars;
    } else {
      var empty := Pass(p.defaults, [], []);
      PassStepAppends(c, p, items[0]);
      var q := PassItem(c, empty, items[0]);
      PassAppends(c, Append(p, q), items[1..]);
      PassAppends(c, q, items[1..]);
      AppendAssoc(p, q, PassFrom(c, q.defaults, items[1..]));
    }
  }

  lemma PassConcat(c: Context, defaults: JobDefaults, a: seq<Item>, b: seq<Item>)
    ensures var p := PassFrom(c, defaults, a);
            PassFrom(c, defaults, a + b) == Append(p, PassFrom(c, p.defaults, b))
  {
    FoldConcat(PassStep(c), Pass(defaults, [], []), a, b);
    PassAppends(c, PassFrom(c, defaults, a), b);
  }

  /** Adding a `defaults` block keeps every job and calendar before it, and layers it under those after it. */
  lemma DefaultsReachForward(env: Env, a: seq<Item>, body: seq<Node>, b: seq<Item>)
    ensures var c := ContextOf(env, a + b);
            var p := PassFrom(c, INITIAL_DEFAULTS, a);
            var with, without := ConfigOf(env, a + [Defaults(body)] + b), ConfigOf(env, a + b);
            var q := PassFrom(c, Fold(DefaultsStep(c), p.defaults, body), b);
            && with.jobs == p.jobs + q.jobs && with.calendars == p.calendars + q.calendars
            && without.jobs == p.jobs + PassFrom(c, p.defaults, b).jobs
            && without.calendars == p.calendars + PassFrom(c, p.defaults, b).calendars
            && with.groups == without.groups && ContextOf(env, a + [Defaults(body)] + b) == c
  {
    var d := Defaults(body);
    var c := ContextOf(env, a + b);
    FoldIgnores(VarsStep(env, false), map[], a, d, b);
    FoldIgnores(VarsStep(env, true), Fold(VarsStep(env, false), map[], a + b), a, d, b);
    FoldIgnores(GroupStep(env, c.vars), [], a, d, b);
    var p := PassFrom(c, INITIAL_DEFAULTS, a);
    PassConcat(c, INITIAL_DEFAULTS, a, b);
    PassConcat(c, INITIAL_DEFAULTS, a + [d], b);
    FoldConcat(PassStep(c), Pass(INITIAL_DEFAULTS, [], []), a, [d]);
    assert PassFrom(c, INITIAL_DEFAULTS, a + [d]) == p.(defaults := Fold(DefaultsStep(c), p.defaults, body));
  }

  // ----- Calendars -----

  function ZoneRule(c: Context): CalendarRule -> Option<Option<string>> {
    (r: CalendarRule) =>
      if r.kind == "timezone" then Some(if r.args == [] then None else Some(ResolveStr(c.env, r.args[0], c.vars)))
      else None
  }

  /** An argument as the rule shows it: a placeholder resolved only if that makes a valid rule. */
  function ShownArg(c: Context, r: CalendarRule, v: StringValue): string {
    if !v.placeholder then v.value
    else if c.env.ruleValid(r.kind, ResolveAll(c, r.args)) then ResolveStr(c.env, v, c.vars)
    else ['{'] + v.value + ['}']
  }

  function ShownArgs(c: Context, r: CalendarRule): seq<string> {
    seq(|r.args|, i requires 0 <= i < |r.args| => ShownArg(c, r, r.args[i]))
  }

  lemma ArgsShown(c: Context, r: CalendarRule)
    ensures RuleArgs(c, r) == ShownArgs(c, r)
  {
    forall i | 0 <= i < |r.args| ensures RuleArgs(c, r)[i] == ShownArg(c, r, r.args[i]) {
      assert r.args[i] in r.args;
    }
  }

  /** The rules that are kept, in the order of the block. */
  function KeptRules(c: Context, rules: seq<CalendarRule>): seq<RuleConfig> {
    if rules == [] then []
    else
      (if rules[0].kind == "timezone" then []
       else [RuleConfig(rules[0].allow, rules[0].kind, ShownArgs(c, rules[0]))]) + KeptRules(c, rules[1..])
  }

  lemma {:induction false} RulesKept(c: Context, cal: CalendarConfig, rules: seq<CalendarRule>)
    ensures Fold(CalendarStep(c), cal, rules).rules == cal.rules + KeptRules(c, rules)
    ensures Fold(CalendarStep(c), cal, rules).name == cal.name
    decreases |rules|
  {
    if rules == [] {
      assert cal.rules + [] == cal.rules;
    } else {
      var next := CalendarStep(c)(cal, rules[0]);
      ArgsShown(c, rules[0]);
      RulesKept(c, next, rules[1..]);
      var first := if rules[0].kind == "timezone" then []
                   else [RuleConfig(rules[0].allow, rules[0].kind, ShownArgs(c, rules[0]))];
      assert next.rules == cal.rules + first;
      Assoc(cal.rules, first, KeptRules(c, rules[1..]));
    }
  }

  /** A calendar has its written name, its own last zone or else the default's, and its rules in order, as shown. */
  lemma CalendarExact(c: Context, cal: CalendarBlock, zone: Option<string>)
    ensures var r := CalendarOf(c, cal, zone);
            && r.name == cal.name.value
            && r.timezone == OrElse(Last(ZoneRule(c), cal.rules), zone)
            && r.rules == KeptRules(c, cal.rules)
  {
    var start := CalendarConfig(cal.name.value, zone, []);
    LastDecides(CalendarStep(c), (t: CalendarConfig) => t.timezone, ZoneRule(c), start, cal.rules);
    RulesKept(c, start, cal.rules);
    assert [] + KeptRules(c, cal.rules) == KeptRules(c, cal.rules);
  }

  // ----- Every job of a file is coherent -----

  ghost predicate AllCoherent(limits: map<string, nat>, jobs: seq<JobConfig>) {
    forall j :: j in jobs ==> Coherent(limits, j.draft)
  }

  lemma {:induction false} PassCoherent(c: Context, p: Pass, items: seq<Item>)
    requires AllCoherent(c.limits, p.jobs)
    ensures AllCoherent(c.limits, Fold(PassStep(c), p, items).jobs)
    decreases |items|
  {
    if items != [] {
      if items[0].Job? {
        JobCoherent(c, items[0].job, p.defaults);
      }
      PassCoherent(c, PassItem(c, p, items[0]), items[1..]);
    }
  }

  /** Whatever the file, each job agrees with itself and with the groups compiled beside it. */
  lemma FileCoherent(env: Env, items: seq<Item>, j: JobConfig)
    requires j in ConfigOf(env, items).jobs
    ensures Coherent(ContextOf(env, items).limits, j.draft)
    ensures j.draft.guards.group.Some? ==>
      exists g :: g in ConfigOf(env, items).groups && g.name == j.draft.guards.group.value
               && Lookup(j.draft.metadata, CONCURRENCY_GROUP_MAX) == NumberText(Some(g.maxConcurrent))
  {
    var c := ContextOf(env, items);
    PassCoherent(c, Pass(INITIAL_DEFAULTS, [], []), items);
    if j.draft.guards.group.Some? {
      var g := GroupConfig(j.draft.guards.group.value, c.limits[j.draft.guards.group.value]);
      LimitsExact(env, c.vars, items, g.name);
      GroupsExact(env, c.vars, items, g);
    }
  }

  // ----- Blocks layer over inherited values -----

  /** What a retry directive says about the field it names. */
  function RetrySaid<T>(c: Context, key: RetryKey, read: string -> Option<T>): Node -> Option<T> {
    (n: Node) => if n.Leaf? && RetryKeyOf(n.d.key) == key then read(OrElse(DurationArg(c, n.d), "")) else None
  }

  lemma LastRetry<T(!new)>(
      c: Context, get: Retry -> T, key: RetryKey, read: string -> Option<T>, r: Retry, body: seq<Node>)
    requires forall t, k, val ::
      get(RetryDirective(c.env, t, k, val)) == OrElse(if k == key then read(val) else None, get(t))
    ensures get(Fold(RetryStep(c), r, body)) == OrElse(Last(RetrySaid(c, key, read), body), get(r))
  {
    forall t, n ensures get(RetryStep(c)(t, n)) == OrElse(RetrySaid(c, key, read)(n), get(t)) {
      if n.Leaf? {
        var k, val := RetryKeyOf(n.d.key), OrElse(DurationArg(c, n.d), "");
        assert get(RetryDirective(c.env, t, k, val)) == OrElse(if k == key then read(val) else None, get(t));
      }
    }
    LastDecides(RetryStep(c), get, RetrySaid(c, key, read), r, body);
  }

  function Kept(val: string): Option<Option<string>> {
    Some(Some(val))
  }

  function JitterRead(env: Env): string -> Option<Option<Fraction>> {
    (val: string) => Some(env.float(val))
  }

  /** The qualifier's strategy if it is a known one, else the inherited strategy. */
  function Qualified(b: NamedBlock, base: Retry): Retry {
    if b.qualifier.Some? && KnownStrategy(b.qualifier.value) then base.(strategy := b.qualifier.value) else base
  }

  lemma AttemptsLayer(c: Context, r: Retry, body: seq<Node>)
    ensures Fold(RetryStep(c), r, body).maxAttempts
         == OrElse(Last(RetrySaid(c, MaxAttempts, ParseU32), body), r.maxAttempts)
  {
    LastRetry(c, (t: Retry) => t.maxAttempts, MaxAttempts, ParseU32, r, body);
  }

  lemma BoundsLayer(c: Context, r: Retry, body: seq<Node>)
    ensures Fold(RetryStep(c), r, body).base == OrElse(Last(RetrySaid(c, Base, Kept), body), r.base)
    ensures Fold(RetryStep(c), r, body).cap == OrElse(Last(RetrySaid(c, Cap, Kept), body), r.cap)
  {
    LastRetry(c, (t: Retry) => t.base, Base, Kept, r, body);
    LastRetry(c, (t: Retry) => t.cap, Cap, Kept, r, body);
  }

  lemma DelaysLayer(c: Context, r: Retry, body: seq<Node>)
    ensures Fold(RetryStep(c), r, body).delay == OrElse(Last(RetrySaid(c, Delay, Kept), body), r.delay)
    ensures Fold(RetryStep(c), r, body).step == OrElse(Last(RetrySaid(c, Step, Kept), body), r.step)
  {
    LastRetry(c, (t: Retry) => t.delay, Delay, Kept, r, body);
    LastRetry(c, (t: Retry) => t.step, Step, Kept, r, body);
  }

  lemma JitterLayer(c: Context, r: Retry, body: seq<Node>)
    ensures Fold(RetryStep(c), r, body).jitter
         == OrElse(Last(RetrySaid(c, Jitter, JitterRead(c.env)), body), r.jitter)
    ensures Fold(RetryStep(c), r, body).strategy == r.strategy
  {
    LastRetry(c, (t: Retry) => t.jitter, Jitter, JitterRead(c.env), r, body);
    FoldKeeps(RetryStep(c), (t: Retry) => t.strategy == r.strategy, r, body);
  }

  /** Each retry field is what the block last said about it, else inherited. */
  lemma RetryLayers(c: Context, b: NamedBlock, base: Retry)
    ensures var r := CompileRetry(c, b, base);
      && r.maxAttempts == OrElse(Last(RetrySaid(c, MaxAttempts, ParseU32), b.body), base.maxAttempts)
      && r.base == OrElse(Last(RetrySaid(c, Base, Kept), b.body), base.base)
      && r.cap == OrElse(Last(RetrySaid(c, Cap, Kept), b.body), base.cap)
      && r.delay == OrElse(Last(RetrySaid(c, Delay, Kept), b.body), base.delay)
      && r.step == OrElse(Last(RetrySaid(c, Step, Kept), b.body), base.step)
      && r.jitter == OrElse(Last(RetrySaid(c, Jitter, JitterRead(c.env)), b.body), base.jitter)
      && r.strategy == Qualified(b, base).strategy
    ensures CompileRetry(c, b, base).strategy
         == if b.qualifier.Some? && b.qualifier.value in ["exponential", "linear", "fixed", "none"]
            then b.qualifier.value else base.strategy
  {
    var r := Qualified(b, base);
    AttemptsLayer(c, r, b.body);
    BoundsLayer(c, r, b.body);
    DelaysLayer(c, r, b.body);
    JitterLayer(c, r, b.body);
  }

  /** What a dead-letter directive says about the field it names. */
  function DeadLetterSaid<T>(
      c: Context, key: DeadLetterKey, read: (Option<string>, Option<string>) -> Option<T>): Node -> Option<T>
  {
    (n: Node) =>
      if n.Leaf? && DeadLetterKeyOf(n.d.key) == key then read(FirstArg(c, n.d), DurationArg(c, n.d)) else None
  }

  lemma LastDeadLetter<T(!new)>(
      c: Context, get: DeadLetter -> T, key: DeadLetterKey, read: (Option<string>, Option<string>) -> Option<T>,
      r: DeadLetter, body: seq<Node>)
    requires forall t, k, first, duration ::
      get(DeadLetterDirective(t, k, first, duration))
      == OrElse(if k == key then read(first, duration) else None, get(t))
    ensures get(Fold(DeadLetterStep(c), r, body)) == OrElse(Last(DeadLetterSaid(c, key, read), body), get(r))
  {
    forall t, n ensures get(DeadLetterStep(c)(t, n)) == OrElse(DeadLetterSaid(c, key, read)(n), get(t)) {
      if n.Leaf? {
        var k, first, duration := DeadLetterKeyOf(n.d.key), FirstArg(c, n.d), DurationArg(c, n.d);
        assert get(DeadLetterDirective(t, k, first, duration))
            == OrElse(if k == key then read(first, duration) else None, get(t));
      }
    }
    LastDecides(DeadLetterStep(c), get, DeadLetterSaid(c, key, read), r, body);
  }

  function FlagRead(first: Option<string>, duration: Option<string>): Option<bool> {
    Bind(first, ParseBool)
  }

  function FirstRead(first: Option<string>, duration: Option<string>): Option<Option<string>> {
    Some(first)
  }

  function DurationRead(first: Option<string>, duration: Option<string>): Option<Option<string>> {
    Some(duration)
  }

  /** Each dead-letter field is what the block last said about it, else inherited. */
  lemma DeadLetterLayers(c: Context, base: DeadLetter, body: seq<Node>)
    ensures var r := Fold(DeadLetterStep(c), base, body);
      && r.enabled == OrElse(Last(DeadLetterSaid(c, Enabled, FlagRead), body), base.enabled)
      && r.retention == OrElse(Last(DeadLetterSaid(c, Retention, DurationRead), body), base.retention)
      && r.operatorHint == OrElse(Last(DeadLetterSaid(c, OperatorHint, FirstRead), body), base.operatorHint)
      && r.replayMaxAge == OrElse(Last(DeadLetterSaid(c, ReplayMaxAge, DurationRead), body), base.replayMaxAge)
  {
    LastDeadLetter(c, (t: DeadLetter) => t.enabled, Enabled, FlagRead, base, body);
    LastDeadLetter(c, (t: DeadLetter) => t.retention, Retention, DurationRead, base, body);
    LastDeadLetter(c, (t: DeadLetter) => t.operatorHint, OperatorHint, FirstRead, base, body);
    LastDeadLetter(c, (t: DeadLetter) => t.replayMaxAge, ReplayMaxAge, DurationRead, base, body);
  }
}
