/**
 Exactly when re-ordering two directives leaves the fingerprint of a job as it was:
 when they set no field that is hashed to two values.

 The description, the tags and `run_on_register` are compiled but not hashed, so
 directives that set them may always be re-ordered as far as the fingerprint goes.
 Everything else shows: a field of the job directly, the kind of coalescing through
 the metadata it is stamped into. The other half follows a difference in what is
 not hashed through the rest of the body and finds that it never spreads.
 */
module Rehash {
  import opened Wrappers
  import opened Folds
  import opened CroniqAst
  import opened Compile
  import opened FieldLaws
  import opened CompileLaws
  import opened SwapLaws
  import Fingerprint
  import KeyOrder
  import H = JobHash

  /** Harmony in what is hashed: description, tags and `run_on_register` are not. */
  predicate HashHarmony(c: Context, d: Directive, e: Directive) {
    var k, l := KeyOf(d.key), KeyOf(e.key);
    HashTexts(c, k, d, l, e) && QueueHarmony(c, k, d, l, e) && GuardsHarmony(c, k, d, l, e)
  }

  predicate HashTexts(c: Context, k: Key, d: Directive, l: Key, e: Directive) {
    && Harmony(TimezoneSaid(c)(k, d), TimezoneSaid(c)(l, e))
    && Harmony(ArgSaid(c, Window)(k, d), ArgSaid(c, Window)(l, e))
    && Harmony(TimeoutSaid(c)(k, d), TimeoutSaid(c)(l, e))
  }

  /** Whatever order the two jobs keep their metadata in, and whatever their labels, they hash to one text. */
  ghost predicate SameText(read: Fingerprint.Reader, a: JobConfig, b: JobConfig) {
    forall s: H.Source, t: H.Source :: H.IsSource(s) && H.IsSource(t) && s.job == a && t.job == b
      ==> Fingerprint.ConfigText(read, H.JobValue(s)) == Fingerprint.ConfigText(read, H.JobValue(t))
  }

  lemma {:induction false} KeysListed(keys: set<string>) returns (order: seq<string>)
    ensures (forall k :: k in order <==> k in keys) && KeyOrder.Distinct(order)
  {
    if keys == {} {
      order := [];
    } else {
      var k :| k in keys;
      var rest := KeysListed(keys - {k});
      order := [k] + rest;
    }
  }

  lemma SourceOf(j: JobConfig) returns (s: H.Source)
    ensures H.IsSource(s) && s.job == j
  {
    var order := KeysListed(j.draft.metadata.Keys);
    s := H.Source(j, H.Labels("", "", None, ""), order);
  }

  lemma SameTextIff(read: Fingerprint.Reader, a: JobConfig, b: JobConfig)
    ensures SameText(read, a, b) <==> forall f :: !H.Ignored(f) ==> H.Agree(read, a, b, f)
  {
    var v := SourceOf(a);
    var w := SourceOf(b);
    H.HashExact(read, v, w);
    if forall f :: !H.Ignored(f) ==> H.Agree(read, a, b, f) {
      forall s: H.Source, t: H.Source | H.IsSource(s) && H.IsSource(t) && s.job == a && t.job == b
        ensures Fingerprint.ConfigText(read, H.JobValue(s)) == Fingerprint.ConfigText(read, H.JobValue(t))
      {
        H.HashExact(read, s, t);
      }
    }
  }

  // ----- Harmony keeps the text -----

  /** A draft without the fields that are not hashed. */
  function Blank(s: Draft): Draft {
    s.(description := None, tags := [], runOnRegister := false)
  }

  lemma BlankDirective(c: Context, s: Draft, k: Key, d: Directive)
    ensures Blank(ApplyDirective(c, s, k, d)) == Blank(ApplyDirective(c, Blank(s), k, d))
  {
    var t, u := ApplyDirective(c, s, k, d), ApplyDirective(c, Blank(s), k, d);
    DirectiveFields(c, s, k, d, t);
    DirectiveFields(c, Blank(s), k, d, u);
    SameDraft(Blank(t), Blank(u));
  }

  lemma BlankBlock(c: Context, s: Draft, b: NamedBlock)
    ensures Blank(ApplyBlock(c, s, b)) == Blank(ApplyBlock(c, Blank(s), b))
  {
    BlockFields(c, s, b);
    BlockFields(c, Blank(s), b);
    BlockReads(c, s, Blank(s), b);
    SameDraft(Blank(ApplyBlock(c, s, b)), Blank(ApplyBlock(c, Blank(s), b)));
  }

  lemma BlankNode(c: Context, s: Draft, n: Node)
    ensures Blank(ApplyNode(c, s, n)) == Blank(ApplyNode(c, Blank(s), n))
  {
    match n
    case Leaf(d) => BlankDirective(c, s, KeyOf(d.key), d);
    case Block(b) => BlankBlock(c, s, b);
    case Comment =>
  }

  lemma {:induction false} BlankBody(c: Context, s: Draft, t: Draft, body: seq<Node>)
    requires Blank(s) == Blank(t)
    ensures Blank(Fold(JobStep(c), s, body)) == Blank(Fold(JobStep(c), t, body))
    decreases |body|
  {
    if body != [] {
      BlankNode(c, s, body[0]);
      BlankNode(c, t, body[0]);
      BlankBody(c, ApplyNode(c, s, body[0]), ApplyNode(c, t, body[0]), body[1..]);
    }
  }

  lemma BlankTexts(c: Context, s: Draft, k: Key, d: Directive, l: Key, e: Directive,
                   a: Draft, ab: Draft, b: Draft, ba: Draft)
    requires TextFields(c, s, k, d, a) && TextFields(c, a, l, e, ab)
    requires TextFields(c, s, l, e, b) && TextFields(c, b, k, d, ba)
    ensures SameTexts(Blank(ab), Blank(ba)) <==> HashTexts(c, k, d, l, e)
  {
  }

  lemma BlankSwap(c: Context, s: Draft, d: Directive, e: Directive)
    requires HashHarmony(c, d, e)
    ensures Blank(ApplyNode(c, ApplyNode(c, s, Leaf(d)), Leaf(e)))
         == Blank(ApplyNode(c, ApplyNode(c, s, Leaf(e)), Leaf(d)))
  {
    var k, l := KeyOf(d.key), KeyOf(e.key);
    var a, b := ApplyDirective(c, s, k, d), ApplyDirective(c, s, l, e);
    var ab, ba := ApplyDirective(c, a, l, e), ApplyDirective(c, b, k, d);
    DirectiveFields(c, s, k, d, a);
    DirectiveFields(c, a, l, e, ab);
    DirectiveFields(c, s, l, e, b);
    DirectiveFields(c, b, k, d, ba);
    BlankTexts(c, s, k, d, l, e, a, ab, b, ba);
    QueueSaysTwice(c, s.queue, k, d, l, e);
    QueueSaysTwice(c, s.queue, l, e, k, d);
    SameQueueIff(c, s.queue, k, d, l, e, ab.queue, ba.queue);
    GuardsSayTwice(c, s.guards, k, d, l, e);
    GuardsSayTwice(c, s.guards, l, e, k, d);
    SameGuardsIff(c, s.guards, k, d, l, e, ab.guards, ba.guards);
    SameDraft(Blank(ab), Blank(ba));
  }

  /** Jobs that differ only in what is not hashed agree on everything that is. */
  lemma BlankAgrees(read: Fingerprint.Reader, a: JobConfig, b: JobConfig, f: H.JobField)
    requires a.(draft := Blank(a.draft)) == b.(draft := Blank(b.draft)) && !H.Ignored(f)
    ensures H.Agree(read, a, b, f)
  {
  }

  lemma BlankJob(c: Context, job: JobBlock, a: seq<Node>, b: seq<Node>, defaults: JobDefaults)
    requires Blank(Fold(JobStep(c), StartDraft(job, defaults), a))
          == Blank(Fold(JobStep(c), StartDraft(job, defaults), b))
    ensures var v, w := JobOf(c, job.(body := a), defaults), JobOf(c, job.(body := b), defaults);
            v.(draft := Blank(v.draft)) == w.(draft := Blank(w.draft))
  {
  }

  /** A job with the two nodes next to each other hashes to the same text with them swapped. */
  ghost predicate TextSwapsIn(
      read: Fingerprint.Reader, c: Context, n: Node, m: Node, job: JobBlock, xs: seq<Node>, ys: seq<Node>,
      defaults: JobDefaults) {
    SameText(read, JobOf(c, job.(body := xs + [n, m] + ys), defaults),
             JobOf(c, job.(body := xs + [m, n] + ys), defaults))
  }

  lemma BlankFold(c: Context, s: Draft, d: Directive, e: Directive, xs: seq<Node>, ys: seq<Node>)
    requires HashHarmony(c, d, e)
    ensures Blank(Fold(JobStep(c), s, xs + [Leaf(d), Leaf(e)] + ys))
         == Blank(Fold(JobStep(c), s, xs + [Leaf(e), Leaf(d)] + ys))
  {
    var step, n, m := JobStep(c), Leaf(d), Leaf(e);
    var t := Fold(step, s, xs);
    FoldConcat(step, s, xs + [n, m], ys);
    FoldConcat(step, s, xs + [m, n], ys);
    FoldConcat(step, s, xs, [n, m]);
    FoldConcat(step, s, xs, [m, n]);
    FoldTwo(step, t, n, m);
    FoldTwo(step, t, m, n);
    BlankSwap(c, t, d, e);
    BlankBody(c, Fold(step, t, [n, m]), Fold(step, t, [m, n]), ys);
  }

  lemma HarmonyKeepsText(read: Fingerprint.Reader, c: Context, d: Directive, e: Directive,
                         job: JobBlock, xs: seq<Node>, ys: seq<Node>, defaults: JobDefaults)
    requires HashHarmony(c, d, e)
    ensures TextSwapsIn(read, c, Leaf(d), Leaf(e), job, xs, ys, defaults)
  {
    var a, b := xs + [Leaf(d), Leaf(e)] + ys, xs + [Leaf(e), Leaf(d)] + ys;
    BlankFold(c, StartDraft(job, defaults), d, e, xs, ys);
    BlankJob(c, job, a, b, defaults);
    var v, w := JobOf(c, job.(body := a), defaults), JobOf(c, job.(body := b), defaults);
    forall f | !H.Ignored(f) ensures H.Agree(read, v, w, f) {
      BlankAgrees(read, v, w, f);
    }
    SameTextIff(read, v, w);
  }

  // ----- Discord changes the text -----

  /** The hashed fields a directive can set. */
  predicate SameHashed(s: Draft, t: Draft) {
    && s.timezone == t.timezone && s.window == t.window && s.timeout == t.timeout && s.queue == t.queue
    && s.guards.maxConcurrent == t.guards.maxConcurrent && s.guards.group == t.guards.group
    && CoalesceText(s.guards) == CoalesceText(t.guards)
  }

  lemma SameGuardTexts(c: Context, g: Guards, k: Key, d: Directive, l: Key, e: Directive, r: Guards, t: Guards)
    requires GuardsTwice(c, g, k, d, l, e, r) && GuardsTwice(c, g, l, e, k, d, t)
    requires r.maxConcurrent == t.maxConcurrent && r.group == t.group && CoalesceText(r) == CoalesceText(t)
    ensures GuardsHarmony(c, k, d, l, e)
  {
  }

  lemma HashedHarmony(c: Context, s: Draft, d: Directive, e: Directive)
    requires SameHashed(ApplyNode(c, ApplyNode(c, s, Leaf(d)), Leaf(e)),
                        ApplyNode(c, ApplyNode(c, s, Leaf(e)), Leaf(d)))
    ensures HashHarmony(c, d, e)
  {
    var k, l := KeyOf(d.key), KeyOf(e.key);
    var a, b := ApplyDirective(c, s, k, d), ApplyDirective(c, s, l, e);
    var ab, ba := ApplyDirective(c, a, l, e), ApplyDirective(c, b, k, d);
    DirectiveFields(c, s, k, d, a);
    DirectiveFields(c, a, l, e, ab);
    DirectiveFields(c, s, l, e, b);
    DirectiveFields(c, b, k, d, ba);
    BlankTexts(c, s, k, d, l, e, a, ab, b, ba);
    QueueSaysTwice(c, s.queue, k, d, l, e);
    QueueSaysTwice(c, s.queue, l, e, k, d);
    SameQueueIff(c, s.queue, k, d, l, e, ab.queue, ba.queue);
    GuardsSayTwice(c, s.guards, k, d, l, e);
    GuardsSayTwice(c, s.guards, l, e, k, d);
    SameGuardTexts(c, s.guards, k, d, l, e, ab.guards, ba.guards);
  }

  lemma CoalesceStamped(c: Context, s: Draft)
    requires COALESCE !in s.metadata
    ensures Lookup(Stamps(c, s), COALESCE) == CoalesceText(s.guards) && COALESCE != Fingerprint.RUNNER_EXEC
  {
    StampKeys();
    var g := s.guards;
    var m := StampGroup(c, StampConcurrency(s.metadata, g.maxConcurrent), g.group);
    StampedCoalesce(m, g.coalesce, g.coalesceSchedule, COALESCE);
    StampedPriority(StampCoalesce(m, g.coalesce, g.coalesceSchedule), s.queue.priority, COALESCE);
  }

  /** A finished draft, as the compiled job holds it. */
  function Finished(c: Context, s: Draft): Draft {
    Settle(s).(metadata := Stamps(c, Settle(s)))
  }

  /** Agreement on every text, count, flag and choice that is hashed. */
  predicate AgreePlainly(a: JobConfig, b: JobConfig) {
    forall f: H.JobField :: !H.Ignored(f) && !f.MetadataField? && !H.IsRecord(f) ==> H.AgreePlain(a, b, f)
  }

  lemma AgreedPlainly(read: Fingerprint.Reader, a: JobConfig, b: JobConfig)
    requires forall f :: !H.Ignored(f) ==> H.Agree(read, a, b, f)
    ensures AgreePlainly(a, b)
  {
    forall f: H.JobField | !H.Ignored(f) && !f.MetadataField? && !H.IsRecord(f) ensures H.AgreePlain(a, b, f) {
      assert H.Agree(read, a, b, f);
    }
  }

  lemma AgreedChoices(a: JobConfig, b: JobConfig)
    requires AgreePlainly(a, b)
    ensures a.draft.queue.mode == b.draft.queue.mode && a.draft.queue.catchUp == b.draft.queue.catchUp
    ensures a.draft.queue.priority == b.draft.queue.priority
  {
    assert H.AgreePlain(a, b, H.ExecutionModeField) && H.AgreePlain(a, b, H.CatchUpField);
    assert H.AgreePlain(a, b, H.PriorityField);
  }

  lemma AgreedQueue(a: JobConfig, b: JobConfig)
    requires AgreePlainly(a, b)
    ensures a.draft.queue == b.draft.queue
  {
    AgreedChoices(a, b);
    assert H.AgreePlain(a, b, H.CatchUpExplicitField) && H.AgreePlain(a, b, H.QueueTtlField);
    assert H.AgreePlain(a, b, H.MaxQueueDepthField) && H.AgreePlain(a, b, H.KeepLastField);
  }

  lemma AgreedTexts(a: JobConfig, b: JobConfig)
    requires AgreePlainly(a, b)
    ensures a.draft.timezone == b.draft.timezone && a.draft.window == b.draft.window
    ensures a.draft.timeout == b.draft.timeout && a.draft.guards.maxConcurrent == b.draft.guards.maxConcurrent
    ensures a.draft.guards.group == b.draft.guards.group
  {
    assert H.AgreePlain(a, b, H.TimezoneField) && H.AgreePlain(a, b, H.WindowField);
    assert H.AgreePlain(a, b, H.TimeoutField) && H.AgreePlain(a, b, H.MaxConcurrentField);
    assert H.AgreePlain(a, b, H.ConcurrencyGroupField);
  }

  lemma AgreedCoalesce(read: Fingerprint.Reader, c: Context, a: JobConfig, b: JobConfig, s: Draft, t: Draft)
    requires forall f :: !H.Ignored(f) ==> H.Agree(read, a, b, f)
    requires a.draft.metadata == Stamps(c, s) && b.draft.metadata == Stamps(c, t)
    requires COALESCE !in s.metadata && COALESCE !in t.metadata
    ensures CoalesceText(s.guards) == CoalesceText(t.guards)
  {
    CoalesceStamped(c, s);
    CoalesceStamped(c, t);
    assert H.Agree(read, a, b, H.MetadataField);
    assert H.HashedText(read, a.draft.metadata, COALESCE) == H.HashedText(read, b.draft.metadata, COALESCE);
  }

  lemma AgreedDrafts(read: Fingerprint.Reader, c: Context, a: JobConfig, b: JobConfig, s: Draft, t: Draft)
    requires forall f :: !H.Ignored(f) ==> H.Agree(read, a, b, f)
    requires a.draft == Finished(c, s) && b.draft == Finished(c, t)
    requires s.metadata == t.metadata == map[]
    ensures s.queue.mode == t.queue.mode && SameHashed(Settle(s), Settle(t))
  {
    AgreedPlainly(read, a, b);
    AgreedQueue(a, b);
    AgreedTexts(a, b);
    AgreedCoalesce(read, c, a, b, Settle(s), Settle(t));
  }

  lemma AgreementHarmony(read: Fingerprint.Reader, c: Context, d: Directive, e: Directive, v: JobConfig, w: JobConfig)
    requires v.draft == Finished(c, ApplyNode(c, ApplyNode(c, START, Leaf(d)), Leaf(e)))
    requires w.draft == Finished(c, ApplyNode(c, ApplyNode(c, START, Leaf(e)), Leaf(d)))
    requires forall f :: !H.Ignored(f) ==> H.Agree(read, v, w, f)
    ensures HashHarmony(c, d, e)
  {
    var ab := ApplyNode(c, ApplyNode(c, START, Leaf(d)), Leaf(e));
    var ba := ApplyNode(c, ApplyNode(c, START, Leaf(e)), Leaf(d));
    BothOrders(c, d, e, ab, ba);
    AgreedDrafts(read, c, v, w, ab, ba);
    if ab.queue.mode.Ephemeral? {
      EphemeralHarmony(c, d, e, ab.queue, ba.queue);
    } else {
      HashedHarmony(c, START, d, e);
    }
  }

  lemma DiscordTexts(read: Fingerprint.Reader, c: Context, d: Directive, e: Directive, a: seq<Node>, b: seq<Node>)
    requires !HashHarmony(c, d, e) && a == [Leaf(d), Leaf(e)] && b == [Leaf(e), Leaf(d)]
    ensures !SameText(read, JobOf(c, Bare([]).(body := a), INITIAL_DEFAULTS),
                      JobOf(c, Bare([]).(body := b), INITIAL_DEFAULTS))
  {
    var v, w := JobOf(c, Bare(a), INITIAL_DEFAULTS), JobOf(c, Bare(b), INITIAL_DEFAULTS);
    BareJob(c, Leaf(d), Leaf(e));
    BareJob(c, Leaf(e), Leaf(d));
    SameTextIff(read, v, w);
    if forall f :: !H.Ignored(f) ==> H.Agree(read, v, w, f) {
      AgreementHarmony(read, c, d, e, v, w);
    }
  }

  /** Two directives out of harmony give one job two fingerprints. */
  lemma DiscordRehashes(
      read: Fingerprint.Reader, c: Context, d: Directive, e: Directive, xs: seq<Node>, ys: seq<Node>)
    requires !HashHarmony(c, d, e) && xs == ys == []
    ensures !TextSwapsIn(read, c, Leaf(d), Leaf(e), Bare([]), xs, ys, INITIAL_DEFAULTS)
  {
    var n, m: Node := Leaf(d), Leaf(e);
    var a, b := xs + [n, m] + ys, xs + [m, n] + ys;
    assert a == [n, m] && b == [m, n];
    DiscordTexts(read, c, d, e, a, b);
  }

  /**
   Two neighbouring directives may change places in every job without changing what is
   hashed exactly when they set no hashed field to two values.
   */
  lemma RehashIff(read: Fingerprint.Reader, c: Context, d: Directive, e: Directive)
    ensures (forall job, xs, ys, defaults :: TextSwapsIn(read, c, Leaf(d), Leaf(e), job, xs, ys, defaults))
       <==> HashHarmony(c, d, e)
  {
    if HashHarmony(c, d, e) {
      forall job, xs, ys, defaults ensures TextSwapsIn(read, c, Leaf(d), Leaf(e), job, xs, ys, defaults) {
        HarmonyKeepsText(read, c, d, e, job, xs, ys, defaults);
      }
    } else {
      DiscordRehashes(read, c, d, e, [], []);
    }
  }

  const SINGLETON := Directive("singleton", [])
  const AT_MOST_THREE := Directive("max_concurrent", [StringValue("3", false)])

  lemma TwoLimits(c: Context)
    ensures !HashHarmony(c, SINGLETON, AT_MOST_THREE) && !Harmonious(c, [], SINGLETON, AT_MOST_THREE)
  {
    assert KeyOf("singleton") == Singleton && KeyOf("max_concurrent") == MaxConcurrent;
    assert NumberArg(c, AT_MOST_THREE) == Some(3);
    assert GuardSaid(c)(MaxConcurrent, AT_MOST_THREE) == Some(Some(3));
  }

  /**
   `singleton` next to `max_concurrent 3`: with nothing else in the body, the two orders
   are two jobs with two hashed texts, for every reader and every context.
   */
  lemma LimitsDependOnOrder(read: Fingerprint.Reader, c: Context)
    ensures !SwapsIn(c, Leaf(SINGLETON), Leaf(AT_MOST_THREE), Bare([]), [], [], INITIAL_DEFAULTS)
    ensures !TextSwapsIn(read, c, Leaf(SINGLETON), Leaf(AT_MOST_THREE), Bare([]), [], [], INITIAL_DEFAULTS)
  {
    TwoLimits(c);
    DiscordTells(c, SINGLETON, AT_MOST_THREE);
    DiscordRehashes(read, c, SINGLETON, AT_MOST_THREE, [], []);
  }
}
