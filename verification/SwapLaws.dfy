/**
 Exactly when two neighbouring directives of a job body may change places.

 A re-ordered directive list is meant to compile to the same job. It does unless
 two directives set one field to different values, or name tags in an order that
 cannot be reconciled. A field is set by the last directive to set it; tags are
 collected in the order of their first mention, so two lists can be read in either
 order exactly when one continues the other. Blocks change other parts of the job
 and may stand anywhere among the directives.
 */
module SwapLaws {
  import opened Wrappers
  import opened Folds
  import opened CroniqAst
  import opened Compile
  import opened FieldLaws

  // ----- Two directives in harmony -----

  /** Not two different values for one field. */
  predicate Harmony<T(==)>(o: Option<T>, p: Option<T>) {
    o.None? || p.None? || o == p
  }

  predicate TextsHarmony(c: Context, k: Key, d: Directive, l: Key, e: Directive) {
    && Harmony(ArgSaid(c, Description)(k, d), ArgSaid(c, Description)(l, e))
    && Harmony(TimezoneSaid(c)(k, d), TimezoneSaid(c)(l, e))
    && Harmony(ArgSaid(c, Window)(k, d), ArgSaid(c, Window)(l, e))
    && Harmony(TimeoutSaid(c)(k, d), TimeoutSaid(c)(l, e))
  }

  predicate QueueHarmony(c: Context, k: Key, d: Directive, l: Key, e: Directive) {
    && Harmony(ModeSaid(c)(k, d), ModeSaid(c)(l, e))
    && Harmony(CatchUpSaid(c)(k, d), CatchUpSaid(c)(l, e))
    && Harmony(TtlSaid(c)(k, d), TtlSaid(c)(l, e))
    && Harmony(NumberSaid(c, MaxQueueDepth)(k, d), NumberSaid(c, MaxQueueDepth)(l, e))
    && Harmony(NumberSaid(c, KeepLast)(k, d), NumberSaid(c, KeepLast)(l, e))
    && Harmony(PrioritySaid(c)(k, d), PrioritySaid(c)(l, e))
  }

  predicate GuardsHarmony(c: Context, k: Key, d: Directive, l: Key, e: Directive) {
    && Harmony(GuardSaid(c)(k, d), GuardSaid(c)(l, e))
    && Harmony(GroupSaid(c)(k, d), GroupSaid(c)(l, e))
    && Harmony(CoalesceSaid(c)(k, d), CoalesceSaid(c)(l, e))
  }

  /** The tags once a directive has been read. */
  function TagsAfter(c: Context, tags: seq<string>, k: Key, d: Directive): seq<string> {
    if k == Tags then Fold(TagStep(c), tags, d.args) else tags
  }

  /** One directive lists the tags the other does, and perhaps more after them. */
  predicate TagsHarmony(c: Context, tags: seq<string>, k: Key, d: Directive, l: Key, e: Directive) {
    TagsAfter(c, tags, k, d) <= TagsAfter(c, tags, l, e) || TagsAfter(c, tags, l, e) <= TagsAfter(c, tags, k, d)
  }

  /** What the two directives say can be said in either order. */
  predicate Harmonious(c: Context, tags: seq<string>, d: Directive, e: Directive) {
    var k, l := KeyOf(d.key), KeyOf(e.key);
    && TextsHarmony(c, k, d, l, e) && QueueHarmony(c, k, d, l, e)
    && GuardsHarmony(c, k, d, l, e) && TagsHarmony(c, tags, k, d, l, e)
  }

  // ----- Tags -----

  lemma {:induction false} TagsGrow(c: Context, tags: seq<string>, xs: seq<StringValue>)
    ensures tags <= Fold(TagStep(c), tags, xs)
    ensures forall x :: x in xs ==> IsTagged(c, Fold(TagStep(c), tags, xs), x)
    decreases |xs|
  {
    if xs != [] {
      var next := TagStep(c)(tags, xs[0]);
      TagsGrow(c, next, xs[1..]);
      assert IsTagged(c, next, xs[0]);
    }
  }

  predicate IsTagged(c: Context, tags: seq<string>, x: StringValue) {
    var v := ResolveStr(c.env, x, c.vars);
    v == "" || v in tags
  }

  lemma {:induction false} TagsSettled(c: Context, tags: seq<string>, xs: seq<StringValue>)
    requires forall x :: x in xs ==> IsTagged(c, tags, x)
    ensures Fold(TagStep(c), tags, xs) == tags
    decreases |xs|
  {
    if xs != [] {
      assert xs[0] in xs && TagStep(c)(tags, xs[0]) == tags;
      TagsSettled(c, tags, xs[1..]);
    }
  }

  /** Starting part of the way makes no difference. */
  lemma {:induction false} TagsResume(c: Context, tags: seq<string>, part: seq<string>, xs: seq<StringValue>)
    requires tags <= part <= Fold(TagStep(c), tags, xs)
    ensures Fold(TagStep(c), part, xs) == Fold(TagStep(c), tags, xs)
    decreases |xs|
  {
    if xs != [] && part != tags {
      var next := TagStep(c)(tags, xs[0]);
      TagsGrow(c, next, xs[1..]);
      assert next <= part && IsTagged(c, next, xs[0]);
      assert IsTagged(c, part, xs[0]) by {
        assert forall i :: 0 <= i < |next| ==> next[i] == part[i];
      }
      assert TagStep(c)(part, xs[0]) == part;
      TagsResume(c, next, part, xs[1..]);
    }
  }

  /** The two lists can be read in either order exactly when one continues the other. */
  lemma TagsSwapIff(c: Context, tags: seq<string>, xs: seq<StringValue>, ys: seq<StringValue>)
    ensures Fold(TagStep(c), Fold(TagStep(c), tags, xs), ys) == Fold(TagStep(c), Fold(TagStep(c), tags, ys), xs)
       <==> (Fold(TagStep(c), tags, xs) <= Fold(TagStep(c), tags, ys)
             || Fold(TagStep(c), tags, ys) <= Fold(TagStep(c), tags, xs))
  {
    var x, y := Fold(TagStep(c), tags, xs), Fold(TagStep(c), tags, ys);
    TagsGrow(c, tags, xs);
    TagsGrow(c, tags, ys);
    TagsGrow(c, x, ys);
    TagsGrow(c, y, xs);
    if x <= y {
      TagsResume(c, tags, x, ys);
      TagsSettled(c, y, xs);
    }
    if y <= x {
      TagsResume(c, tags, y, xs);
      TagsSettled(c, x, ys);
    }
  }

  function Insert(tags: seq<string>, words: seq<string>): seq<string> {
    if words == [] then tags
    else
      var before := Insert(tags, words[..|words| - 1]);
      var word := words[|words| - 1];
      if word in before then before else before + [word]
  }

  lemma {:induction false} InsertHas(tags: seq<string>, words: seq<string>, w: string)
    requires w in words
    ensures w in Insert(tags, words)
  {
    if w in words[..|words| - 1] {
      InsertHas(tags, words[..|words| - 1], w);
    }
  }

  lemma {:induction false} InsertGrows(tags: seq<string>, words: seq<string>, more: seq<string>)
    requires words <= more
    ensures Insert(tags, words) <= Insert(tags, more)
    decreases |more|
  {
    if words != more {
      var shorter := more[..|more| - 1];
      assert words <= shorter;
      InsertGrows(tags, words, shorter);
    }
  }

  lemma {:induction false} TagsInsert(c: Context, tags: seq<string>, words: seq<string>, xs: seq<StringValue>)
    ensures Fold(TagStep(c), Insert(tags, words), xs) == Insert(tags, Fold(TagStep(c), words, xs))
    decreases |xs|
  {
    if xs != [] {
      var v := ResolveStr(c.env, xs[0], c.vars);
      var next := TagStep(c)(words, xs[0]);
      if v in words {
        InsertHas(tags, words, v);
      }
      if next != words {
        assert next[..|next| - 1] == words;
      }
      assert TagStep(c)(Insert(tags, words), xs[0]) == Insert(tags, next);
      TagsInsert(c, tags, next, xs[1..]);
    }
  }

  /** Tags in harmony on their own are in harmony after any others. */
  lemma TagsHarmonyKept(c: Context, tags: seq<string>, k: Key, d: Directive, l: Key, e: Directive)
    requires TagsHarmony(c, [], k, d, l, e)
    ensures TagsHarmony(c, tags, k, d, l, e)
  {
    var x, y := TagsAfter(c, [], k, d), TagsAfter(c, [], l, e);
    AfterInsert(c, tags, k, d);
    AfterInsert(c, tags, l, e);
    if x <= y {
      InsertGrows(tags, x, y);
    } else {
      InsertGrows(tags, y, x);
    }
  }

  lemma AfterInsert(c: Context, tags: seq<string>, k: Key, d: Directive)
    ensures TagsAfter(c, tags, k, d) == Insert(tags, TagsAfter(c, [], k, d))
  {
    if k == Tags {
      TagsInsert(c, tags, [], d.args);
    }
  }

  // ----- One draft -----

  /** A queue after two directives, field by field. */
  ghost predicate QueueTwice(c: Context, q: Queue, k: Key, d: Directive, l: Key, e: Directive, r: Queue) {
    && r.mode == OrElse(ModeSaid(c)(l, e), OrElse(ModeSaid(c)(k, d), q.mode))
    && (r.catchUp, r.catchUpExplicit)
       == OrElse(CatchUpSaid(c)(l, e), OrElse(CatchUpSaid(c)(k, d), (q.catchUp, q.catchUpExplicit)))
    && r.ttl == OrElse(TtlSaid(c)(l, e), OrElse(TtlSaid(c)(k, d), q.ttl))
    && r.maxDepth == OrElse(NumberSaid(c, MaxQueueDepth)(l, e), OrElse(NumberSaid(c, MaxQueueDepth)(k, d), q.maxDepth))
    && r.keepLast == OrElse(NumberSaid(c, KeepLast)(l, e), OrElse(NumberSaid(c, KeepLast)(k, d), q.keepLast))
    && r.priority == OrElse(PrioritySaid(c)(l, e), OrElse(PrioritySaid(c)(k, d), q.priority))
  }

  lemma QueueSaysTwice(c: Context, q: Queue, k: Key, d: Directive, l: Key, e: Directive)
    ensures QueueTwice(c, q, k, d, l, e, QueueDirective(c, QueueDirective(c, q, k, d), l, e))
  {
    var a := QueueDirective(c, q, k, d);
    QueueSays(c, q, k, d, a);
    QueueSays(c, a, l, e, QueueDirective(c, a, l, e));
  }

  lemma SameQueueIff(c: Context, q: Queue, k: Key, d: Directive, l: Key, e: Directive, r: Queue, t: Queue)
    requires QueueTwice(c, q, k, d, l, e, r) && QueueTwice(c, q, l, e, k, d, t)
    ensures r == t <==> QueueHarmony(c, k, d, l, e)
  {
  }

  ghost predicate GuardsTwice(c: Context, g: Guards, k: Key, d: Directive, l: Key, e: Directive, r: Guards) {
    && r.maxConcurrent == OrElse(GuardSaid(c)(l, e), OrElse(GuardSaid(c)(k, d), g.maxConcurrent))
    && r.group == OrElse(GroupSaid(c)(l, e), OrElse(GroupSaid(c)(k, d), g.group))
    && CoalesceText(r) == OrElse(CoalesceSaid(c)(l, e), OrElse(CoalesceSaid(c)(k, d), CoalesceText(g)))
    && (k != Coalesce && l != Coalesce ==> r.coalesceSchedule == g.coalesceSchedule)
  }

  lemma CoalesceKept(c: Context, g: Guards, k: Key, d: Directive)
    requires k != Coalesce
    ensures GuardDirective(c, g, k, d).coalesceSchedule == g.coalesceSchedule
  {
  }

  lemma GuardsSayTwice(c: Context, g: Guards, k: Key, d: Directive, l: Key, e: Directive)
    ensures GuardsTwice(c, g, k, d, l, e, GuardDirective(c, GuardDirective(c, g, k, d), l, e))
  {
    var a := GuardDirective(c, g, k, d);
    GuardsSay(c, g, k, d, a);
    GuardsSay(c, a, l, e, GuardDirective(c, a, l, e));
    if k != Coalesce && l != Coalesce {
      CoalesceKept(c, g, k, d);
      CoalesceKept(c, a, l, e);
    }
  }

  lemma SameGuardsIff(c: Context, g: Guards, k: Key, d: Directive, l: Key, e: Directive, r: Guards, t: Guards)
    requires GuardsTwice(c, g, k, d, l, e, r) && GuardsTwice(c, g, l, e, k, d, t)
    ensures r == t <==> GuardsHarmony(c, k, d, l, e)
  {
  }

  lemma TagsAfterSwapIff(c: Context, tags: seq<string>, k: Key, d: Directive, l: Key, e: Directive)
    ensures TagsAfter(c, TagsAfter(c, tags, k, d), l, e) == TagsAfter(c, TagsAfter(c, tags, l, e), k, d)
       <==> TagsHarmony(c, tags, k, d, l, e)
  {
    if k == Tags && l == Tags {
      TagsSwapIff(c, tags, d.args, e.args);
    } else {
      TagsGrow(c, tags, d.args);
      TagsGrow(c, tags, e.args);
    }
  }

  /** What a directive leaves in the texts of a draft. */
  ghost predicate TextFields(c: Context, s: Draft, k: Key, d: Directive, t: Draft) {
    && t.description == OrElse(ArgSaid(c, Description)(k, d), s.description)
    && t.timezone == OrElse(TimezoneSaid(c)(k, d), s.timezone)
    && t.window == OrElse(ArgSaid(c, Window)(k, d), s.window)
    && t.timeout == OrElse(TimeoutSaid(c)(k, d), s.timeout)
  }

  predicate Marks(c: Context, s: Draft, k: Key, d: Directive, t: Draft) {
    t.runOnRegister == (s.runOnRegister || k == RunOnRegister) && t.tags == TagsAfter(c, s.tags, k, d)
  }

  predicate SameBlocks(s: Draft, t: Draft) {
    s.placement == t.placement && s.retry == t.retry && s.deadLetter == t.deadLetter && s.metadata == t.metadata
  }

  lemma DirectiveTags(c: Context, s: Draft, k: Key, d: Directive, t: Draft)
    requires t == ApplyDirective(c, s, k, d)
    ensures t.tags == TagsAfter(c, s.tags, k, d) && t.placement == s.placement
  {
  }

  lemma DirectiveFields(c: Context, s: Draft, k: Key, d: Directive, t: Draft)
    requires t == ApplyDirective(c, s, k, d)
    ensures TextFields(c, s, k, d, t) && Marks(c, s, k, d, t) && SameBlocks(s, t)
    ensures t.queue == QueueDirective(c, s.queue, k, d) && t.guards == GuardDirective(c, s.guards, k, d)
  {
    DescriptionSays(c, s, k, d, t);
    DirectiveParts(c, s, k, d, t);
    WindowSays(c, s, k, d, t);
    TimeoutSays(c, s, k, d, t);
    RegisterSays(c, s, k, d, t);
    DirectiveTags(c, s, k, d, t);
    DirectivesKeepBlocks(c, s, k, d, t);
  }

  predicate SameTexts(s: Draft, t: Draft) {
    s.description == t.description && s.timezone == t.timezone && s.window == t.window && s.timeout == t.timeout
  }

  predicate SameMarks(s: Draft, t: Draft) {
    s.runOnRegister == t.runOnRegister && s.tags == t.tags
  }

  lemma SameTextsIff(c: Context, s: Draft, k: Key, d: Directive, l: Key, e: Directive,
                     a: Draft, ab: Draft, b: Draft, ba: Draft)
    requires TextFields(c, s, k, d, a) && TextFields(c, a, l, e, ab)
    requires TextFields(c, s, l, e, b) && TextFields(c, b, k, d, ba)
    ensures SameTexts(ab, ba) <==> TextsHarmony(c, k, d, l, e)
  {
  }

  lemma SameDraft(s: Draft, t: Draft)
    ensures s == t <==> (SameTexts(s, t) && SameMarks(s, t) && SameBlocks(s, t)
                         && s.queue == t.queue && s.guards == t.guards)
  {
  }

  /** Two directives leave a draft the same in either order exactly when they are in harmony. */
  lemma DraftSwapIff(c: Context, s: Draft, d: Directive, e: Directive)
    ensures ApplyNode(c, ApplyNode(c, s, Leaf(d)), Leaf(e)) == ApplyNode(c, ApplyNode(c, s, Leaf(e)), Leaf(d))
       <==> Harmonious(c, s.tags, d, e)
  {
    var k, l := KeyOf(d.key), KeyOf(e.key);
    KeysSwapIff(c, s, k, d, l, e);
  }

  lemma KeysSwapIff(c: Context, s: Draft, k: Key, d: Directive, l: Key, e: Directive)
    ensures ApplyDirective(c, ApplyDirective(c, s, k, d), l, e) == ApplyDirective(c, ApplyDirective(c, s, l, e), k, d)
       <==> (TextsHarmony(c, k, d, l, e) && QueueHarmony(c, k, d, l, e)
             && GuardsHarmony(c, k, d, l, e) && TagsHarmony(c, s.tags, k, d, l, e))
  {
    var a, b := ApplyDirective(c, s, k, d), ApplyDirective(c, s, l, e);
    var ab, ba := ApplyDirective(c, a, l, e), ApplyDirective(c, b, k, d);
    DirectiveFields(c, s, k, d, a);
    DirectiveFields(c, a, l, e, ab);
    DirectiveFields(c, s, l, e, b);
    DirectiveFields(c, b, k, d, ba);
    SameTextsIff(c, s, k, d, l, e, a, ab, b, ba);
    TagsAfterSwapIff(c, s.tags, k, d, l, e);
    QueueSaysTwice(c, s.queue, k, d, l, e);
    QueueSaysTwice(c, s.queue, l, e, k, d);
    SameQueueIff(c, s.queue, k, d, l, e, ab.queue, ba.queue);
    GuardsSayTwice(c, s.guards, k, d, l, e);
    GuardsSayTwice(c, s.guards, l, e, k, d);
    SameGuardsIff(c, s.guards, k, d, l, e, ab.guards, ba.guards);
    SameDraft(ab, ba);
  }

  /** A directive and a block never touch one field. */
  lemma DirectiveOverBlock(c: Context, s: Draft, d: Directive, b: NamedBlock)
    ensures ApplyNode(c, ApplyNode(c, s, Leaf(d)), Block(b)) == ApplyNode(c, ApplyNode(c, s, Block(b)), Leaf(d))
  {
    var k := KeyOf(d.key);
    var t, u := ApplyDirective(c, s, k, d), ApplyBlock(c, s, b);
    DirectiveFields(c, s, k, d, t);
    DirectiveFields(c, u, k, d, ApplyDirective(c, u, k, d));
    BlockFields(c, s, b);
    BlockFields(c, t, b);
    BlockReads(c, s, t, b);
    SameDraft(ApplyBlock(c, t, b), ApplyDirective(c, u, k, d));
  }

  lemma BlockFields(c: Context, s: Draft, b: NamedBlock)
    ensures SameTexts(s, ApplyBlock(c, s, b)) && SameMarks(s, ApplyBlock(c, s, b))
    ensures ApplyBlock(c, s, b).queue == s.queue && ApplyBlock(c, s, b).guards == s.guards
  {
  }

  lemma BlockReads(c: Context, s: Draft, t: Draft, b: NamedBlock)
    requires SameBlocks(s, t)
    ensures SameBlocks(ApplyBlock(c, s, b), ApplyBlock(c, t, b))
  {
  }

  // ----- The compiled job -----

  /** Neighbours that can be read in either order where they stand can change places. */
  lemma FoldSwaps<S, N>(step: (S, N) -> S, s: S, xs: seq<N>, x: N, y: N, ys: seq<N>)
    requires var t := Fold(step, s, xs); step(step(t, x), y) == step(step(t, y), x)
    ensures Fold(step, s, xs + [x, y] + ys) == Fold(step, s, xs + [y, x] + ys)
  {
    FoldConcat(step, s, xs + [x, y], ys);
    FoldConcat(step, s, xs + [y, x], ys);
    FoldConcat(step, s, xs, [x, y]);
    FoldConcat(step, s, xs, [y, x]);
    FoldTwo(step, Fold(step, s, xs), x, y);
    FoldTwo(step, Fold(step, s, xs), y, x);
  }

  lemma FoldTwo<S, N>(step: (S, N) -> S, s: S, x: N, y: N)
    ensures Fold(step, s, [x, y]) == step(step(s, x), y)
  {
    assert [x, y][1..] == [y];
    FoldOne(step, step(s, x), y);
  }

  /** A job with the two nodes next to each other compiles to the same configuration with them swapped. */
  ghost predicate SwapsIn(
      c: Context, n: Node, m: Node, job: JobBlock, xs: seq<Node>, ys: seq<Node>, defaults: JobDefaults) {
    JobOf(c, job.(body := xs + [n, m] + ys), defaults) == JobOf(c, job.(body := xs + [m, n] + ys), defaults)
  }

  lemma HarmonyKept(c: Context, tags: seq<string>, d: Directive, e: Directive)
    requires Harmonious(c, [], d, e)
    ensures Harmonious(c, tags, d, e)
  {
    TagsHarmonyKept(c, tags, KeyOf(d.key), d, KeyOf(e.key), e);
  }

  lemma HarmoniousSwaps(
      c: Context, d: Directive, e: Directive, job: JobBlock, xs: seq<Node>, ys: seq<Node>, defaults: JobDefaults)
    requires Harmonious(c, [], d, e)
    ensures SwapsIn(c, Leaf(d), Leaf(e), job, xs, ys, defaults)
  {
    var start := StartDraft(job, defaults);
    var s := Fold(JobStep(c), start, xs);
    HarmonyKept(c, s.tags, d, e);
    DraftSwapIff(c, s, d, e);
    FoldSwaps(JobStep(c), start, xs, Leaf(d), Leaf(e), ys);
  }

  /** A directive may move over a block anywhere. */
  lemma DirectiveSwapsWithBlock(
      c: Context, d: Directive, b: NamedBlock, job: JobBlock, xs: seq<Node>, ys: seq<Node>, defaults: JobDefaults)
    ensures SwapsIn(c, Leaf(d), Block(b), job, xs, ys, defaults)
  {
    var start := StartDraft(job, defaults);
    DirectiveOverBlock(c, Fold(JobStep(c), start, xs), d, b);
    FoldSwaps(JobStep(c), start, xs, Leaf(d), Block(b), ys);
  }

  /** A job without a schedule, under the initial defaults. */
  function Bare(body: seq<Node>): JobBlock {
    JobBlock("job", None, body)
  }

  const START: Draft := StartDraft(Bare([]), INITIAL_DEFAULTS)

  lemma BareJob(c: Context, n: Node, m: Node)
    ensures var s := Settle(ApplyNode(c, ApplyNode(c, START, n), m));
            JobOf(c, Bare([n, m]), INITIAL_DEFAULTS).draft == s.(metadata := Stamps(c, s))
  {
    FoldTwo(JobStep(c), START, n, m);
  }

  /** Drafts a job ends with tell the drafts it was read into apart, unless the mode hides the difference. */
  lemma SettledApart(c: Context, s: Draft, t: Draft)
    requires s != t && SameBlocks(s, t)
    requires s.queue.mode == t.queue.mode ==> s.queue.mode.Queued?
    ensures Settle(s).(metadata := Stamps(c, Settle(s))) != Settle(t).(metadata := Stamps(c, Settle(t)))
  {
    SameDraft(s, t);
  }

  lemma ModeAlone(c: Context, k: Key, d: Directive, l: Key, e: Directive)
    requires k == ExecutionMode
    ensures TextsHarmony(c, k, d, l, e) && GuardsHarmony(c, k, d, l, e) && TagsHarmony(c, [], k, d, l, e)
  {
  }

  lemma ModeInQueue(c: Context, k: Key, d: Directive, l: Key, e: Directive)
    requires k == ExecutionMode && Harmony(ModeSaid(c)(k, d), ModeSaid(c)(l, e))
    ensures QueueHarmony(c, k, d, l, e)
  {
  }

  lemma ModeHarmony(c: Context, k: Key, d: Directive, l: Key, e: Directive)
    requires k == ExecutionMode && Harmony(ModeSaid(c)(k, d), ModeSaid(c)(l, e))
    ensures TextsHarmony(c, k, d, l, e) && QueueHarmony(c, k, d, l, e) && GuardsHarmony(c, k, d, l, e)
    ensures TagsHarmony(c, [], k, d, l, e)
  {
    ModeAlone(c, k, d, l, e);
    ModeInQueue(c, k, d, l, e);
  }

  /** Two directives that leave a queued draft ephemeral in either order are in harmony. */
  lemma EphemeralHarmony(c: Context, d: Directive, e: Directive, r: Queue, t: Queue)
    requires QueueTwice(c, START.queue, KeyOf(d.key), d, KeyOf(e.key), e, r)
    requires QueueTwice(c, START.queue, KeyOf(e.key), e, KeyOf(d.key), d, t)
    requires r.mode == t.mode == Ephemeral
    ensures Harmonious(c, [], d, e)
  {
    if KeyOf(d.key) == ExecutionMode {
      ModeHarmony(c, KeyOf(d.key), d, KeyOf(e.key), e);
    } else {
      ModeHarmony(c, KeyOf(e.key), e, KeyOf(d.key), d);
    }
  }

  /** The drafts two directives leave in either order have the blocks in common, and are queued if the mode is. */
  lemma BothOrders(c: Context, d: Directive, e: Directive, ab: Draft, ba: Draft)
    requires ab == ApplyNode(c, ApplyNode(c, START, Leaf(d)), Leaf(e))
    requires ba == ApplyNode(c, ApplyNode(c, START, Leaf(e)), Leaf(d))
    ensures SameBlocks(START, ab) && SameBlocks(START, ba)
    ensures QueueTwice(c, START.queue, KeyOf(d.key), d, KeyOf(e.key), e, ab.queue)
    ensures QueueTwice(c, START.queue, KeyOf(e.key), e, KeyOf(d.key), d, ba.queue)
  {
    var k, l := KeyOf(d.key), KeyOf(e.key);
    var a, b := ApplyDirective(c, START, k, d), ApplyDirective(c, START, l, e);
    DirectiveFields(c, START, k, d, a);
    DirectiveFields(c, a, l, e, ab);
    DirectiveFields(c, START, l, e, b);
    DirectiveFields(c, b, k, d, ba);
    QueueSaysTwice(c, START.queue, k, d, l, e);
    QueueSaysTwice(c, START.queue, l, e, k, d);
  }

  lemma DraftsApart(c: Context, d: Directive, e: Directive, ab: Draft, ba: Draft)
    requires !Harmonious(c, [], d, e)
    requires ab == ApplyNode(c, ApplyNode(c, START, Leaf(d)), Leaf(e))
    requires ba == ApplyNode(c, ApplyNode(c, START, Leaf(e)), Leaf(d))
    ensures Settle(ab).(metadata := Stamps(c, Settle(ab))) != Settle(ba).(metadata := Stamps(c, Settle(ba)))
  {
    DraftSwapIff(c, START, d, e);
    BothOrders(c, d, e, ab, ba);
    if ab.queue.mode == ba.queue.mode == Ephemeral {
      EphemeralHarmony(c, d, e, ab.queue, ba.queue);
    }
    SettledApart(c, ab, ba);
  }

  /** Two directives out of harmony make two different jobs of one body. */
  lemma DiscordTells(c: Context, d: Directive, e: Directive)
    requires !Harmonious(c, [], d, e)
    ensures !SwapsIn(c, Leaf(d), Leaf(e), Bare([]), [], [], INITIAL_DEFAULTS)
  {
    var n, m: Node := Leaf(d), Leaf(e);
    DraftsApart(c, d, e, ApplyNode(c, ApplyNode(c, START, n), m), ApplyNode(c, ApplyNode(c, START, m), n));
    BareJob(c, n, m);
    BareJob(c, m, n);
    assert [] + [n, m] + [] == [n, m] && [] + [m, n] + [] == [m, n];
  }

  /**
   Two neighbouring directives may change places in every job exactly when they set no
   field to two values and one of them names the tags the other does, in its order.
   */
  lemma DirectivesSwapIff(c: Context, d: Directive, e: Directive)
    ensures (forall job, xs, ys, defaults :: SwapsIn(c, Leaf(d), Leaf(e), job, xs, ys, defaults))
       <==> Harmonious(c, [], d, e)
  {
    if Harmonious(c, [], d, e) {
      forall job, xs, ys, defaults ensures SwapsIn(c, Leaf(d), Leaf(e), job, xs, ys, defaults) {
        HarmoniousSwaps(c, d, e, job, xs, ys, defaults);
      }
    } else {
      DiscordTells(c, d, e);
    }
  }
}
