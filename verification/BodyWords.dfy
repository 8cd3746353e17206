/**
 What a job runs, where it may run and which tags it has, read off the directives of
 its body.
 */
module BodyWords {
  import opened Wrappers
  import opened Folds
  import opened KeyOrder
  import opened CroniqAst
  import opened Compile
  import opened FieldLaws
  import opened CompileLaws
  import opened Words
  import F = Fingerprint

  // ----- The payload -----

  /** What directives of this name say: the first argument, or that there is none. */
  function ArgNamed(c: Context, name: string): Node -> Option<Option<string>> {
    (n: Node) => if Named(n, name) then Some(FirstArg(c, n.d)) else None
  }

  function ArgsNamed(c: Context, name: string): Node -> Option<seq<string>> {
    (n: Node) => if Named(n, name) then Some(ResolveAll(c, n.d.args)) else None
  }

  function LastArg(c: Context, b: NamedBlock, name: string): Option<string> {
    OrElse(Last(ArgNamed(c, name), b.body), None)
  }

  function LastArgs(c: Context, b: NamedBlock, name: string): seq<string> {
    OrElse(Last(ArgsNamed(c, name), b.body), [])
  }

  /** The value an entry of an `env` block gives a variable. */
  function VariableSaid(c: Context, name: string): Node -> Option<string> {
    (n: Node) => if Named(n, name) then FirstArg(c, n.d) else None
  }

  function EnvSaid(c: Context, name: string): Node -> Option<string> {
    (n: Node) => if n.Block? && n.block.name == "env" then Last(VariableSaid(c, name), n.block.body) else None
  }

  lemma {:induction false} SetVarSets(env: seq<F.EnvVar>, name: string, value: string, x: string)
    ensures F.Var(SetVar(env, name, value), x) == if x == name then Some(value) else F.Var(env, x)
  {
    if env != [] {
      if env[0].name != name {
        SetVarSets(env[1..], name, value, x);
        assert ([env[0]] + SetVar(env[1..], name, value))[1..] == SetVar(env[1..], name, value);
      } else {
        assert ([F.EnvVar(name, value)] + env[1..])[1..] == env[1..];
      }
    } else {
      assert [F.EnvVar(name, value)][1..] == [];
    }
  }

  lemma {:induction false} EnvBlockSets(c: Context, env: seq<F.EnvVar>, body: seq<Node>, x: string)
    ensures F.Var(Fold(EnvStep(c), env, body), x) == OrKeep(Last(VariableSaid(c, x), body), F.Var(env, x))
    decreases |body|
  {
    if body != [] {
      var n := body[0];
      EnvBlockSets(c, EnvStep(c)(env, n), body[1..], x);
      if n.Leaf? && FirstArg(c, n.d).Some? {
        SetVarSets(env, n.d.key, FirstArg(c, n.d).value, x);
      }
    }
  }

  lemma {:induction false} ExecEnv(c: Context, e: ExecDraft, body: seq<Node>, x: string)
    ensures F.Var(Fold(ExecStep(c), e, body).env, x) == OrKeep(Last(EnvSaid(c, x), body), F.Var(e.env, x))
    decreases |body|
  {
    if body != [] {
      var n := body[0];
      ExecEnv(c, ExecNode(c, e, n), body[1..], x);
      if n.Block? && n.block.name == "env" {
        EnvBlockSets(c, e.env, n.block.body, x);
      }
    }
  }

  lemma ExecNamesApart()
    ensures |"command"| == 7 && |"workdir"| == 7 && |"args"| == 4 && |"user"| == 4
    ensures "command"[0] == 'c' && "workdir"[0] == 'w' && "args"[0] == 'a' && "user"[0] == 'u'
  {
  }

  lemma ExecTexts(c: Context, e: ExecDraft, body: seq<Node>)
    ensures var r := Fold(ExecStep(c), e, body);
            && r.command == OrElse(Last(ArgNamed(c, "command"), body), e.command)
            && r.workdir == OrElse(Last(ArgNamed(c, "workdir"), body), e.workdir)
            && r.user == OrElse(Last(ArgNamed(c, "user"), body), e.user)
            && r.argv == OrElse(Last(ArgsNamed(c, "args"), body), e.argv)
  {
    ExecNamesApart();
    LastDecides(ExecStep(c), (t: ExecDraft) => t.command, ArgNamed(c, "command"), e, body);
    LastDecides(ExecStep(c), (t: ExecDraft) => t.workdir, ArgNamed(c, "workdir"), e, body);
    LastDecides(ExecStep(c), (t: ExecDraft) => t.user, ArgNamed(c, "user"), e, body);
    LastDecides(ExecStep(c), (t: ExecDraft) => t.argv, ArgsNamed(c, "args"), e, body);
  }

  /** What a block says to run, if it says enough. */
  predicate Runs(c: Context, b: NamedBlock) {
    || (b.qualifier == Some("shell") && LastArg(c, b, "command").Some?)
    || (b.qualifier == Some("exec") && LastArgs(c, b, "args") != [])
  }

  ghost predicate RunsAs(c: Context, b: NamedBlock, e: F.RunnerExec) {
    && e.workdir == LastArg(c, b, "workdir") && e.user == LastArg(c, b, "user")
    && (forall name :: F.Var(e.env, name) == Last(EnvSaid(c, name), b.body))
    && match e
       case Shell(command, _, _, _) => b.qualifier == Some("shell") && LastArg(c, b, "command") == Some(command)
       case Exec(argv, _, _, _) => b.qualifier == Some("exec") && LastArgs(c, b, "args") == argv
  }

  /** The payload of a block is what its last directives say, and there is one exactly if they say enough. */
  lemma PayloadExact(c: Context, b: NamedBlock)
    ensures CompileExec(c, b).Some? <==> Runs(c, b)
    ensures CompileExec(c, b).Some? ==> RunsAs(c, b, CompileExec(c, b).value)
  {
    var start := ExecDraft(None, [], None, None, []);
    ExecTexts(c, start, b.body);
    forall name ensures F.Var(Fold(ExecStep(c), start, b.body).env, name) == Last(EnvSaid(c, name), b.body) {
      ExecEnv(c, start, b.body, name);
    }
    assert |"shell"| == 5 && |"exec"| == 4;
  }

  // ----- Placement -----

  /** The capability a directive of this name asks for. */
  function Asked(c: Context, name: string): Node -> seq<string> {
    (n: Node) =>
      if Named(n, name) && FirstArg(c, n.d).Some? && FirstArg(c, n.d).value != "" then [FirstArg(c, n.d).value] else []
  }

  function StickySaid(): Node -> Option<bool> {
    (n: Node) => if Named(n, "sticky") then Some(true) else None
  }

  lemma PlacementNamesApart()
    ensures |"require"| == 7 && |"exclude"| == 7 && |"prefer"| == 6 && |"sticky"| == 6
    ensures "require"[0] == 'r' && "exclude"[0] == 'e' && "prefer"[0] == 'p' && "sticky"[0] == 's'
  {
  }

  lemma OnePlaced(c: Context, p: Placement, n: Node)
    ensures var r := PlacementStep(c)(p, n);
            && r.require == p.require + Asked(c, "require")(n) && r.prefer == p.prefer + Asked(c, "prefer")(n)
            && r.exclude == p.exclude + Asked(c, "exclude")(n) && r.sticky == OrElse(StickySaid()(n), p.sticky)
  {
    PlacementNamesApart();
    assert p.require + [] == p.require && p.prefer + [] == p.prefer && p.exclude + [] == p.exclude;
  }

  /** A placement lists what its block asks for, each in its own list, in order; it is sticky if the block says so. */
  lemma PlacementExact(c: Context, body: seq<Node>)
    ensures Fold(PlacementStep(c), Placement([], [], [], false), body)
         == Placement(Collect(Asked(c, "require"), body), Collect(Asked(c, "prefer"), body),
                      Collect(Asked(c, "exclude"), body), OrElse(Last(StickySaid(), body), false))
  {
    var start := Placement([], [], [], false);
    forall p, n ensures var r := PlacementStep(c)(p, n);
      && r.require == p.require + Asked(c, "require")(n) && r.prefer == p.prefer + Asked(c, "prefer")(n)
      && r.exclude == p.exclude + Asked(c, "exclude")(n) && r.sticky == OrElse(StickySaid()(n), p.sticky)
    {
      OnePlaced(c, p, n);
    }
    FoldCollects(PlacementStep(c), (p: Placement) => p.require, Asked(c, "require"), start, body);
    FoldCollects(PlacementStep(c), (p: Placement) => p.prefer, Asked(c, "prefer"), start, body);
    FoldCollects(PlacementStep(c), (p: Placement) => p.exclude, Asked(c, "exclude"), start, body);
    LastDecides(PlacementStep(c), (p: Placement) => p.sticky, StickySaid(), start, body);
  }

  /** What a plain `runner` block asks for. */
  function PlacementBlock(c: Context): Node -> Option<Placement> {
    (n: Node) =>
      if n.Block? && n.block.name == "runner" && n.block.qualifier.None?
      then Some(Placement(Collect(Asked(c, "require"), n.block.body), Collect(Asked(c, "prefer"), n.block.body),
                          Collect(Asked(c, "exclude"), n.block.body), OrElse(Last(StickySaid(), n.block.body), false)))
      else None
  }

  lemma NodePlaces(c: Context, s: Draft, n: Node)
    ensures ApplyNode(c, s, n).placement == OrElse(PlacementBlock(c)(n), s.placement)
  {
    if n.Leaf? {
      DirectivePlaces(c, s, KeyOf(n.d.key), n.d);
    } else if n.Block? {
      BlockPlaces(c, s, n.block);
    }
  }

  lemma DirectivePlaces(c: Context, s: Draft, key: Key, d: Directive)
    ensures ApplyDirective(c, s, key, d).placement == s.placement
  {
  }

  lemma BlockPlaces(c: Context, s: Draft, b: NamedBlock)
    ensures ApplyBlock(c, s, b).placement == OrElse(PlacementBlock(c)(Block(b)), s.placement)
  {
    if b.name == "runner" && b.qualifier.None? {
      PlacementExact(c, b.body);
    }
  }

  /** A job may run where its last plain `runner` block says. */
  lemma JobPlacement(c: Context, job: JobBlock, defaults: JobDefaults)
    ensures JobOf(c, job, defaults).draft.placement
         == OrElse(Last(PlacementBlock(c), job.body), Placement([], [], [], false))
  {
    forall t, n ensures JobStep(c)(t, n).placement == OrElse(PlacementBlock(c)(n), t.placement) {
      NodePlaces(c, t, n);
    }
    LastDecides(JobStep(c), (t: Draft) => t.placement, PlacementBlock(c), StartDraft(job, defaults), job.body);
  }

  // ----- Tags -----

  /** The values a `tags` directive lists. */
  function TagsListed(c: Context): Node -> seq<string> {
    (n: Node) => if Named(n, "tags") then ResolveAll(c, n.d.args) else []
  }

  /** The first mention of each non-empty word, in order. */
  function FirstMentions(words: seq<string>): seq<string> {
    if words == [] then []
    else
      var before, word := FirstMentions(words[..|words| - 1]), words[|words| - 1];
      if word == "" || word in before then before else before + [word]
  }

  lemma MentionOne(words: seq<string>, word: string)
    ensures FirstMentions(words + [word])
         == if word == "" || word in FirstMentions(words) then FirstMentions(words) else FirstMentions(words) + [word]
  {
    assert (words + [word])[..|words|] == words;
  }

  lemma ResolveCons(c: Context, words: seq<string>, args: seq<StringValue>)
    requires args != []
    ensures words + ResolveAll(c, args)
         == (words + [ResolveStr(c.env, args[0], c.vars)]) + ResolveAll(c, args[1..])
  {
  }

  lemma {:induction false} MentionsMore(c: Context, words: seq<string>, args: seq<StringValue>)
    ensures Fold(TagStep(c), FirstMentions(words), args) == FirstMentions(words + ResolveAll(c, args))
    decreases |args|
  {
    if args == [] {
      assert words + ResolveAll(c, args) == words;
    } else {
      var w := ResolveStr(c.env, args[0], c.vars);
      MentionOne(words, w);
      MentionsMore(c, words + [w], args[1..]);
      ResolveCons(c, words, args);
    }
  }

  lemma NodeTags(c: Context, s: Draft, n: Node, words: seq<string>)
    requires s.tags == FirstMentions(words)
    ensures ApplyNode(c, s, n).tags == FirstMentions(words + TagsListed(c)(n))
  {
    assert words + [] == words;
    if n.Leaf? {
      TextKeys(n.d.key);
      DirectiveTagged(c, s, KeyOf(n.d.key), n.d);
      if Named(n, "tags") {
        MentionsMore(c, words, n.d.args);
      }
    } else if n.Block? {
      BlockTagged(c, s, n.block);
    }
  }

  lemma DirectiveTagged(c: Context, s: Draft, key: Key, d: Directive)
    ensures ApplyDirective(c, s, key, d).tags == if key == Tags then Fold(TagStep(c), s.tags, d.args) else s.tags
  {
  }

  lemma BlockTagged(c: Context, s: Draft, b: NamedBlock)
    ensures ApplyBlock(c, s, b).tags == s.tags
  {
  }

  lemma TagsStay(c: Context, job: JobBlock, defaults: JobDefaults)
    ensures JobOf(c, job, defaults).draft.tags == Fold(JobStep(c), StartDraft(job, defaults), job.body).tags
  {
  }

  /** A job's tags are the first mentions of all the words its `tags` directives list. */
  lemma JobTags(c: Context, job: JobBlock, defaults: JobDefaults)
    ensures JobOf(c, job, defaults).draft.tags == FirstMentions(Collect(TagsListed(c), job.body))
  {
    forall t: Draft, n, words | t.tags == FirstMentions(words)
      ensures JobStep(c)(t, n).tags == FirstMentions(words + TagsListed(c)(n))
    {
      NodeTags(c, t, n, words);
    }
    var start := StartDraft(job, defaults);
    TagsStay(c, job, defaults);
    FoldSummarises(JobStep(c), (t: Draft) => t.tags, FirstMentions, TagsListed(c), start, job.body, []);
    assert [] + Collect(TagsListed(c), job.body) == Collect(TagsListed(c), job.body);
  }

  /** First mentions are all the words but the empty one, each once. */
  lemma {:induction false} MentionsExact(words: seq<string>)
    ensures forall w :: w in FirstMentions(words) <==> w in words && w != ""
    ensures forall i, j :: 0 <= i < j < |FirstMentions(words)| ==> FirstMentions(words)[i] != FirstMentions(words)[j]
    decreases |words|
  {
    if words != [] {
      MentionsExact(words[..|words| - 1]);
      assert words == words[..|words| - 1] + [words[|words| - 1]];
    }
  }
}
