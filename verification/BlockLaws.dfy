/**
 Exactly when two neighbouring nodes of a job body may change places, blocks included.

 A block layers over what the draft holds: a `retry` or `dead_letter` block field by
 field, a `metadata` block key by key, a `runner` block all at once. Two blocks may
 change places exactly when they leave no field and no key with two values. With the
 laws for directives this decides the question for any two nodes.
 */
module BlockLaws {
  import opened Wrappers
  import opened Folds
  import opened ScheduleText
  import opened CroniqAst
  import opened Compile
  import opened FieldLaws
  import opened CompileLaws
  import opened FileLaws
  import opened SwapLaws
  import Fingerprint

  // ----- What a block says, field by field -----

  datatype RetrySays = RetrySays(
    strategy: Option<string>, maxAttempts: Option<nat>, base: Option<Option<string>>, cap: Option<Option<string>>,
    delay: Option<Option<string>>, step: Option<Option<string>>, jitter: Option<Option<Fraction>>)

  function RetryOver(x: RetrySays, r: Retry): Retry {
    Retry(OrElse(x.strategy, r.strategy), OrElse(x.maxAttempts, r.maxAttempts), OrElse(x.base, r.base),
          OrElse(x.cap, r.cap), OrElse(x.delay, r.delay), OrElse(x.step, r.step), OrElse(x.jitter, r.jitter))
  }

  predicate RetryHarmony(x: RetrySays, y: RetrySays) {
    && Harmony(x.strategy, y.strategy) && Harmony(x.maxAttempts, y.maxAttempts) && Harmony(x.base, y.base)
    && Harmony(x.cap, y.cap) && Harmony(x.delay, y.delay) && Harmony(x.step, y.step) && Harmony(x.jitter, y.jitter)
  }

  lemma RetryOrderIff(x: RetrySays, y: RetrySays, r: Retry)
    ensures RetryOver(y, RetryOver(x, r)) == RetryOver(x, RetryOver(y, r)) <==> RetryHarmony(x, y)
  {
  }

  datatype DeadLetterSays = DeadLetterSays(
    enabled: Option<bool>, retention: Option<Option<string>>, operatorHint: Option<Option<string>>,
    replayMaxAge: Option<Option<string>>)

  function DeadLetterOver(x: DeadLetterSays, r: DeadLetter): DeadLetter {
    DeadLetter(OrElse(x.enabled, r.enabled), OrElse(x.retention, r.retention),
               OrElse(x.operatorHint, r.operatorHint), OrElse(x.replayMaxAge, r.replayMaxAge))
  }

  predicate DeadLetterHarmony(x: DeadLetterSays, y: DeadLetterSays) {
    && Harmony(x.enabled, y.enabled) && Harmony(x.retention, y.retention)
    && Harmony(x.operatorHint, y.operatorHint) && Harmony(x.replayMaxAge, y.replayMaxAge)
  }

  lemma DeadLetterOrderIff(x: DeadLetterSays, y: DeadLetterSays, r: DeadLetter)
    ensures DeadLetterOver(y, DeadLetterOver(x, r)) == DeadLetterOver(x, DeadLetterOver(y, r))
       <==> DeadLetterHarmony(x, y)
  {
  }

  /** What the last directive of a `retry` block for each field says; a known qualifier sets the strategy. */
  function RetrySaysOf(c: Context, b: NamedBlock): RetrySays {
    if b.name != "retry" then RetrySays(None, None, None, None, None, None, None)
    else
      RetrySays(
        if b.qualifier.Some? && KnownStrategy(b.qualifier.value) then b.qualifier else None,
        Last(RetrySaid(c, MaxAttempts, ParseU32), b.body), Last(RetrySaid(c, Base, Kept), b.body),
        Last(RetrySaid(c, Cap, Kept), b.body), Last(RetrySaid(c, Delay, Kept), b.body),
        Last(RetrySaid(c, Step, Kept), b.body), Last(RetrySaid(c, Jitter, JitterRead(c.env)), b.body))
  }

  function DeadLetterSaysOf(c: Context, b: NamedBlock): DeadLetterSays {
    if b.name != "dead_letter" then DeadLetterSays(None, None, None, None)
    else
      DeadLetterSays(
        Last(DeadLetterSaid(c, Enabled, FlagRead), b.body), Last(DeadLetterSaid(c, Retention, DurationRead), b.body),
        Last(DeadLetterSaid(c, OperatorHint, FirstRead), b.body),
        Last(DeadLetterSaid(c, ReplayMaxAge, DurationRead), b.body))
  }

  /** A plain `runner` block replaces the placement. */
  function PlacementSaid(c: Context, b: NamedBlock): Option<Placement> {
    if b.name == "runner" && b.qualifier.None?
    then Some(Fold(PlacementStep(c), Placement([], [], [], false), b.body))
    else None
  }

  lemma RetryWrites(c: Context, s: Draft, b: NamedBlock)
    ensures ApplyBlock(c, s, b).retry == RetryOver(RetrySaysOf(c, b), s.retry)
  {
    BlockParts(c, s, b, ApplyBlock(c, s, b));
    if b.name == "retry" {
      RetryLayers(c, b, s.retry);
    }
  }

  lemma DeadLetterWrites(c: Context, s: Draft, b: NamedBlock)
    ensures ApplyBlock(c, s, b).deadLetter == DeadLetterOver(DeadLetterSaysOf(c, b), s.deadLetter)
  {
    BlockParts(c, s, b, ApplyBlock(c, s, b));
    if b.name == "dead_letter" {
      DeadLetterLayers(c, s.deadLetter, b.body);
    }
  }

  lemma PlacementWrites(c: Context, s: Draft, b: NamedBlock)
    ensures ApplyBlock(c, s, b).placement == OrElse(PlacementSaid(c, b), s.placement)
  {
  }

  // ----- Two blocks on one draft -----

  /** Two blocks leave no field and no metadata key with two values. */
  ghost predicate BlocksHarmony(c: Context, a: NamedBlock, b: NamedBlock) {
    && Harmony(PlacementSaid(c, a), PlacementSaid(c, b))
    && RetryHarmony(RetrySaysOf(c, a), RetrySaysOf(c, b))
    && DeadLetterHarmony(DeadLetterSaysOf(c, a), DeadLetterSaysOf(c, b))
    && KeysHarmony(c, a, b)
  }

  ghost predicate KeysHarmony(c: Context, a: NamedBlock, b: NamedBlock) {
    forall k :: Harmony(BlockSaid(c, a, k), BlockSaid(c, b, k))
  }

  lemma KeptTwice<T>(o: Option<T>, p: Option<T>, x: Option<T>)
    ensures OrKeep(p, OrKeep(o, x)) == OrKeep(o, OrKeep(p, x)) <==> Harmony(o, p)
  {
  }

  lemma KeyTwice(c: Context, s: Draft, a: NamedBlock, b: NamedBlock, k: string)
    ensures Lookup(ApplyBlock(c, ApplyBlock(c, s, a), b).metadata, k)
         == OrKeep(BlockSaid(c, b, k), OrKeep(BlockSaid(c, a, k), Lookup(s.metadata, k)))
  {
    BlockWrites(c, s, a, k);
    BlockWrites(c, ApplyBlock(c, s, a), b, k);
  }

  lemma KeyOrderIff(c: Context, s: Draft, a: NamedBlock, b: NamedBlock, k: string)
    ensures Lookup(ApplyBlock(c, ApplyBlock(c, s, a), b).metadata, k)
         == Lookup(ApplyBlock(c, ApplyBlock(c, s, b), a).metadata, k)
       <==> Harmony(BlockSaid(c, a, k), BlockSaid(c, b, k))
  {
    KeyTwice(c, s, a, b, k);
    KeyTwice(c, s, b, a, k);
    KeptTwice(BlockSaid(c, a, k), BlockSaid(c, b, k), Lookup(s.metadata, k));
  }

  lemma SameTable(m: Table, n: Table)
    ensures m == n <==> forall k :: Lookup(m, k) == Lookup(n, k)
  {
    if forall k :: Lookup(m, k) == Lookup(n, k) {
      forall k ensures k in m <==> k in n {
        assert Lookup(m, k) == Lookup(n, k);
      }
      forall k | k in m ensures m[k] == n[k] {
        assert Lookup(m, k) == Lookup(n, k);
      }
    }
  }

  lemma MetadataOrderIff(c: Context, s: Draft, a: NamedBlock, b: NamedBlock, ab: Draft, ba: Draft)
    requires ab == ApplyBlock(c, ApplyBlock(c, s, a), b) && ba == ApplyBlock(c, ApplyBlock(c, s, b), a)
    ensures ab.metadata == ba.metadata <==> KeysHarmony(c, a, b)
  {
    SameTable(ab.metadata, ba.metadata);
    forall k
      ensures Lookup(ab.metadata, k) == Lookup(ba.metadata, k) <==> Harmony(BlockSaid(c, a, k), BlockSaid(c, b, k))
    {
      KeyOrderIff(c, s, a, b, k);
    }
  }

  lemma BlockValuesIff(c: Context, s: Draft, a: NamedBlock, b: NamedBlock, ab: Draft, ba: Draft)
    requires ab == ApplyBlock(c, ApplyBlock(c, s, a), b) && ba == ApplyBlock(c, ApplyBlock(c, s, b), a)
    ensures ab.placement == ba.placement <==> Harmony(PlacementSaid(c, a), PlacementSaid(c, b))
    ensures ab.retry == ba.retry <==> RetryHarmony(RetrySaysOf(c, a), RetrySaysOf(c, b))
    ensures ab.deadLetter == ba.deadLetter <==> DeadLetterHarmony(DeadLetterSaysOf(c, a), DeadLetterSaysOf(c, b))
  {
    var t, u := ApplyBlock(c, s, a), ApplyBlock(c, s, b);
    PlacementWrites(c, s, a);
    PlacementWrites(c, t, b);
    PlacementWrites(c, s, b);
    PlacementWrites(c, u, a);
    SaidTwice(PlacementSaid(c, a), PlacementSaid(c, b), s.placement);
    RetryWrites(c, s, a);
    RetryWrites(c, t, b);
    RetryWrites(c, s, b);
    RetryWrites(c, u, a);
    RetryOrderIff(RetrySaysOf(c, a), RetrySaysOf(c, b), s.retry);
    DeadLetterWrites(c, s, a);
    DeadLetterWrites(c, t, b);
    DeadLetterWrites(c, s, b);
    DeadLetterWrites(c, u, a);
    DeadLetterOrderIff(DeadLetterSaysOf(c, a), DeadLetterSaysOf(c, b), s.deadLetter);
  }

  lemma SaidTwice<T>(o: Option<T>, p: Option<T>, x: T)
    ensures OrElse(p, OrElse(o, x)) == OrElse(o, OrElse(p, x)) <==> Harmony(o, p)
  {
  }

  /** Two blocks change only the blocks' part of a draft. */
  lemma BlocksKeepRest(c: Context, s: Draft, a: NamedBlock, b: NamedBlock, ab: Draft)
    requires ab == ApplyBlock(c, ApplyBlock(c, s, a), b)
    ensures SameTexts(s, ab) && SameMarks(s, ab) && ab.queue == s.queue && ab.guards == s.guards
  {
    BlockFields(c, s, a);
    BlockFields(c, ApplyBlock(c, s, a), b);
  }

  /** Two blocks leave a draft the same in either order exactly when they are in harmony. */
  lemma BlocksOrderIff(c: Context, s: Draft, a: NamedBlock, b: NamedBlock, ab: Draft, ba: Draft)
    requires ab == ApplyBlock(c, ApplyBlock(c, s, a), b) && ba == ApplyBlock(c, ApplyBlock(c, s, b), a)
    ensures ab == ba <==> BlocksHarmony(c, a, b)
  {
    BlocksKeepRest(c, s, a, b, ab);
    BlocksKeepRest(c, s, b, a, ba);
    BlockValuesIff(c, s, a, b, ab, ba);
    MetadataOrderIff(c, s, a, b, ab, ba);
    SameDraft(ab, ba);
  }

  // ----- The compiled job -----

  lemma HarmoniousBlocksSwap(
      c: Context, a: NamedBlock, b: NamedBlock, job: JobBlock, xs: seq<Node>, ys: seq<Node>, defaults: JobDefaults)
    requires BlocksHarmony(c, a, b)
    ensures SwapsIn(c, Block(a), Block(b), job, xs, ys, defaults)
  {
    var start := StartDraft(job, defaults);
    var s := Fold(JobStep(c), start, xs);
    BlocksOrderIff(c, s, a, b, ApplyBlock(c, ApplyBlock(c, s, a), b), ApplyBlock(c, ApplyBlock(c, s, b), a));
    FoldSwaps(JobStep(c), start, xs, Block(a), Block(b), ys);
  }

  /** A key a block writes is no stamp of the compiler's but the payload's. */
  lemma WrittenKey(c: Context, b: NamedBlock, k: string)
    requires BlockSaid(c, b, k).Some?
    ensures !IsStamp(k)
  {
    StampKeys();
    if b.name == "metadata" {
      LastIsSaid(EntrySaid(c, k), b.body);
    }
  }

  lemma MetadataShows(c: Context, s: Draft, k: string)
    requires !IsStamp(k) && s.queue.mode.Queued? && s.guards.group.None?
    ensures Lookup(Stamps(c, Settle(s)), k) == Lookup(s.metadata, k)
  {
    StampsExact(c, s, k);
  }

  lemma DiscordantDrafts(c: Context, a: NamedBlock, b: NamedBlock, ab: Draft, ba: Draft)
    requires !BlocksHarmony(c, a, b)
    requires ab == ApplyBlock(c, ApplyBlock(c, START, a), b) && ba == ApplyBlock(c, ApplyBlock(c, START, b), a)
    ensures Settle(ab).(metadata := Stamps(c, Settle(ab))) != Settle(ba).(metadata := Stamps(c, Settle(ba)))
  {
    BlocksKeepRest(c, START, a, b, ab);
    BlocksKeepRest(c, START, b, a, ba);
    BlockValuesIff(c, START, a, b, ab, ba);
    if !KeysHarmony(c, a, b) {
      var k :| !Harmony(BlockSaid(c, a, k), BlockSaid(c, b, k));
      KeyOrderIff(c, START, a, b, k);
      WrittenKey(c, a, k);
      MetadataShows(c, ab, k);
      MetadataShows(c, ba, k);
    }
  }

  lemma DiscordantJobs(c: Context, a: NamedBlock, b: NamedBlock, v: seq<Node>, w: seq<Node>)
    requires !BlocksHarmony(c, a, b) && v == [Block(a), Block(b)] && w == [Block(b), Block(a)]
    ensures JobOf(c, Bare([]).(body := v), INITIAL_DEFAULTS) != JobOf(c, Bare([]).(body := w), INITIAL_DEFAULTS)
  {
    DiscordantDrafts(c, a, b, ApplyBlock(c, ApplyBlock(c, START, a), b), ApplyBlock(c, ApplyBlock(c, START, b), a));
    BareJob(c, Block(a), Block(b));
    BareJob(c, Block(b), Block(a));
  }

  lemma DiscordantBlocksTell(c: Context, a: NamedBlock, b: NamedBlock, xs: seq<Node>, ys: seq<Node>)
    requires !BlocksHarmony(c, a, b) && xs == ys == []
    ensures !SwapsIn(c, Block(a), Block(b), Bare([]), xs, ys, INITIAL_DEFAULTS)
  {
    var n, m: Node := Block(a), Block(b);
    var v, w := xs + [n, m] + ys, xs + [m, n] + ys;
    assert v == [n, m] && w == [m, n];
    DiscordantJobs(c, a, b, v, w);
  }

  /**
   Two neighbouring blocks may change places in every job exactly when they leave no
   field and no metadata key with two values.
   */
  lemma BlocksSwapIff(c: Context, a: NamedBlock, b: NamedBlock)
    ensures (forall job, xs, ys, defaults :: SwapsIn(c, Block(a), Block(b), job, xs, ys, defaults))
       <==> BlocksHarmony(c, a, b)
  {
    if BlocksHarmony(c, a, b) {
      forall job, xs, ys, defaults ensures SwapsIn(c, Block(a), Block(b), job, xs, ys, defaults) {
        HarmoniousBlocksSwap(c, a, b, job, xs, ys, defaults);
      }
    } else {
      DiscordantBlocksTell(c, a, b, [], []);
    }
  }

  datatype Kind = PlacementKind | ExecKind | RetryKind | DeadLetterKind | MetadataKind | NoKind

  function KindOf(b: NamedBlock): Kind {
    if b.name == "runner" then (if b.qualifier.None? then PlacementKind else ExecKind)
    else if b.name == "retry" then RetryKind
    else if b.name == "dead_letter" then DeadLetterKind
    else if b.name == "metadata" then MetadataKind
    else NoKind
  }

  lemma PlainRunnerRunsNothing(c: Context, b: NamedBlock)
    requires b.qualifier.None?
    ensures CompileExec(c, b).None?
  {
  }

  /** The key of the payload is the `runner` blocks' alone: a `metadata` block cannot write it. */
  lemma KeysApart(c: Context, a: NamedBlock, b: NamedBlock, k: string)
    requires KindOf(a) != KindOf(b)
    ensures Harmony(BlockSaid(c, a, k), BlockSaid(c, b, k))
  {
    assert IsReserved(RUNNER_EXEC);
    LastIsSaid(EntrySaid(c, k), a.body);
    LastIsSaid(EntrySaid(c, k), b.body);
    if a.name == "runner" && b.name == "runner" {
      if a.qualifier.None? {
        PlainRunnerRunsNothing(c, a);
      } else {
        PlainRunnerRunsNothing(c, b);
      }
    }
  }

  /** Blocks of different kinds are always in harmony. */
  lemma DifferentKinds(c: Context, a: NamedBlock, b: NamedBlock)
    requires KindOf(a) != KindOf(b)
    ensures BlocksHarmony(c, a, b)
  {
    forall k ensures Harmony(BlockSaid(c, a, k), BlockSaid(c, b, k)) {
      KeysApart(c, a, b, k);
    }
  }

  /** Blocks of different kinds may change places anywhere. */
  lemma BlocksSwap(
      c: Context, a: NamedBlock, b: NamedBlock, job: JobBlock, xs: seq<Node>, ys: seq<Node>, defaults: JobDefaults)
    requires KindOf(a) != KindOf(b)
    ensures SwapsIn(c, Block(a), Block(b), job, xs, ys, defaults)
  {
    DifferentKinds(c, a, b);
    HarmoniousBlocksSwap(c, a, b, job, xs, ys, defaults);
  }

  // ----- Any two nodes -----

  /** Two directives or two blocks that leave nothing with two values; nodes of different sorts always do. */
  ghost predicate NodesHarmony(c: Context, n: Node, m: Node) {
    if n.Leaf? && m.Leaf? then Harmonious(c, [], n.d, m.d)
    else if n.Block? && m.Block? then BlocksHarmony(c, n.block, m.block)
    else true
  }

  lemma CommentSwaps(
      c: Context, n: Node, m: Node, job: JobBlock, xs: seq<Node>, ys: seq<Node>, defaults: JobDefaults)
    requires n.Comment? || m.Comment?
    ensures SwapsIn(c, n, m, job, xs, ys, defaults)
  {
    FoldSwaps(JobStep(c), StartDraft(job, defaults), xs, n, m, ys);
  }

  lemma MixedSwaps(
      c: Context, n: Node, m: Node, job: JobBlock, xs: seq<Node>, ys: seq<Node>, defaults: JobDefaults)
    requires !(n.Leaf? && m.Leaf?) && !(n.Block? && m.Block?)
    ensures SwapsIn(c, n, m, job, xs, ys, defaults)
  {
    if n.Comment? || m.Comment? {
      CommentSwaps(c, n, m, job, xs, ys, defaults);
    } else if n.Leaf? {
      DirectiveSwapsWithBlock(c, n.d, m.block, job, xs, ys, defaults);
    } else {
      DirectiveSwapsWithBlock(c, m.d, n.block, job, xs, ys, defaults);
    }
  }

  /** Any two neighbouring nodes of a body may change places in every job exactly when they are in harmony. */
  lemma NodesSwapIff(c: Context, n: Node, m: Node)
    ensures (forall job, xs, ys, defaults :: SwapsIn(c, n, m, job, xs, ys, defaults)) <==> NodesHarmony(c, n, m)
  {
    if n.Leaf? && m.Leaf? {
      DirectivesSwapIff(c, n.d, m.d);
    } else if n.Block? && m.Block? {
      BlocksSwapIff(c, n.block, m.block);
    } else {
      forall job, xs, ys, defaults ensures SwapsIn(c, n, m, job, xs, ys, defaults) {
        MixedSwaps(c, n, m, job, xs, ys, defaults);
      }
    }
  }
}
