/**
 The text a job definition's fingerprint is taken over: the job serialised to
 JSON, without its identity and cosmetic fields, with the embedded runner
 payload re-rendered, in canonical form.
 */
module Fingerprint {
  import opened Wrappers
  import opened KeyOrder
  import opened JsonScalars
  import opened CanonicalJson
  import JsonReader

  const IGNORED_FIELDS: seq<string> := [
    "key", "namespace", "name", "variant",
    "description", "schedule_summary", "tags", "run_on_register"
  ]

  const METADATA := "metadata"
  const RUNNER_EXEC := "__runner_exec"

  // ----- Fields of an object -----

  /** The value of field `k`, if the object has one. */
  function Field(es: seq<Entry>, k: string): (r: Option<Value>)
    ensures r.Some? <==> Has(es, k)
    ensures Has(es, k) ==> r == Some(es[Find(es, k)].value)
  {
    if es == [] then None
    else if es[0].key == k then Some(es[0].value)
    else
      assert Has(es, k) <==> Has(es[1..], k) by {
        if Has(es, k) {
          var i :| 0 <= i < |es| && es[i].key == k;
          assert es[1..][i - 1].key == k;
        }
      }
      Field(es[1..], k)
  }

  /** Two optional values, compared as JSON. */
  ghost predicate SameOption(a: Option<Value>, b: Option<Value>) {
    (a.None? && b.None?) || (a.Some? && b.Some? && SameValue(a.value, b.value))
  }

  lemma SameFields(v: Value, w: Value, k: string)
    requires v.Object? && w.Object? && SameValue(v, w)
    ensures SameOption(Field(v.entries, k), Field(w.entries, k))
  {
    assert Has(v.entries, k) <==> Has(w.entries, k);
  }

  lemma SameValueByFields(v: Value, w: Value)
    requires v.Object? && w.Object?
    requires forall k :: SameOption(Field(v.entries, k), Field(w.entries, k))
    ensures SameValue(v, w)
  {
    forall k
      ensures Has(v.entries, k) <==> Has(w.entries, k)
      ensures Has(v.entries, k) ==> AgreeOn(v, w, k)
    {
      assert SameOption(Field(v.entries, k), Field(w.entries, k));
    }
    assert forall k :: Has(v.entries, k) ==> AgreeOn(v, w, k);
  }

  lemma {:induction false} FieldConcat(es: seq<Entry>, fs: seq<Entry>, k: string)
    ensures Field(es + fs, k) == if Has(es, k) then Field(es, k) else Field(fs, k)
    decreases |es|
  {
    if es == [] {
      assert es + fs == fs;
    } else {
      assert (es + fs)[1..] == es[1..] + fs;
      FieldConcat(es[1..], fs, k);
    }
  }

  lemma FieldValid(v: Value, k: string)
    requires v.Object? && Valid(v) && Has(v.entries, k)
    ensures Valid(Field(v.entries, k).value)
  {
  }

  // ----- Removing and replacing fields -----

  function Without(es: seq<Entry>, k: string): seq<Entry> {
    if es == [] then []
    else if es[0].key == k then Without(es[1..], k)
    else [es[0]] + Without(es[1..], k)
  }

  lemma {:induction false} WithoutField(es: seq<Entry>, k: string, x: string)
    ensures Field(Without(es, k), x) == if x == k then None else Field(es, x)
    decreases |es|
  {
    if es != [] {
      WithoutField(es[1..], k, x);
      if es[0].key != k {
        assert ([es[0]] + Without(es[1..], k))[1..] == Without(es[1..], k);
      }
    }
  }

  lemma {:induction false} WithoutMembers(es: seq<Entry>, k: string)
    ensures forall e :: e in Without(es, k) ==> e in es
    decreases |es|
  {
    if es != [] {
      WithoutMembers(es[1..], k);
    }
  }

  lemma DistinctSplit(e: Entry, rest: seq<Entry>)
    ensures Distinct(Keys([e] + rest)) <==> Distinct(Keys(rest)) && forall f :: f in rest ==> f.key != e.key
  {
    assert Keys([e] + rest) == [e.key] + Keys(rest);
    assert ([e.key] + Keys(rest))[1..] == Keys(rest);
    if e.key in Keys(rest) {
      var i :| 0 <= i < |rest| && Keys(rest)[i] == e.key;
      assert rest[i] in rest;
    }
    forall f | f in rest
      ensures f.key in Keys(rest)
    {
      var i :| 0 <= i < |rest| && rest[i] == f;
      assert Keys(rest)[i] == f.key;
    }
  }

  lemma {:induction false} WithoutDistinct(es: seq<Entry>, k: string)
    requires Distinct(Keys(es))
    ensures Distinct(Keys(Without(es, k)))
    decreases |es|
  {
    if es != [] {
      assert es == [es[0]] + es[1..];
      DistinctSplit(es[0], es[1..]);
      WithoutDistinct(es[1..], k);
      WithoutMembers(es[1..], k);
      DistinctSplit(es[0], Without(es[1..], k));
    }
  }

  lemma WithoutValid(es: seq<Entry>, k: string)
    requires Valid(Object(es))
    ensures Valid(Object(Without(es, k)))
  {
    WithoutDistinct(es, k);
    WithoutMembers(es, k);
    var fs := Without(es, k);
    forall i | 0 <= i < |fs|
      ensures Valid(fs[i].value)
    {
      assert fs[i] in es;
    }
  }

  function WithoutAll(es: seq<Entry>, fields: seq<string>): seq<Entry>
    decreases |fields|
  {
    if fields == [] then es else WithoutAll(Without(es, fields[0]), fields[1..])
  }

  lemma {:induction false} WithoutAllField(es: seq<Entry>, fields: seq<string>, x: string)
    ensures Field(WithoutAll(es, fields), x) == if x in fields then None else Field(es, x)
    ensures Valid(Object(es)) ==> Valid(Object(WithoutAll(es, fields)))
    decreases |fields|
  {
    if fields != [] {
      WithoutField(es, fields[0], x);
      if Valid(Object(es)) {
        WithoutValid(es, fields[0]);
      }
      WithoutAllField(Without(es, fields[0]), fields[1..], x);
      assert x in fields <==> x == fields[0] || x in fields[1..];
    }
  }

  function With(es: seq<Entry>, k: string, v: Value): seq<Entry>
    requires Has(es, k)
  {
    es[Find(es, k) := Entry(k, v)]
  }

  lemma {:induction false} WithField(es: seq<Entry>, k: string, v: Value, x: string)
    requires Has(es, k)
    ensures Field(With(es, k, v), x) == if x == k then Some(v) else Field(es, x)
    decreases |es|
  {
    var fs := With(es, k, v);
    if es[0].key == k {
      assert fs[1..] == es[1..];
    } else {
      assert Field(es, k) == Field(es[1..], k);
      assert fs[1..] == With(es[1..], k, v);
      WithField(es[1..], k, v, x);
    }
  }

  lemma WithValid(es: seq<Entry>, k: string, v: Value)
    requires Has(es, k) && Valid(Object(es)) && Valid(v)
    ensures Valid(Object(With(es, k, v)))
  {
    assert Keys(With(es, k, v)) == Keys(es);
  }

  // ----- The embedded runner payload -----

  datatype EnvVar = EnvVar(name: string, value: string)

  /** What a `runner shell` or `runner exec` block runs; `env` in hash-map order. */
  datatype RunnerExec =
    | Shell(command: string, workdir: Option<string>, user: Option<string>, env: seq<EnvVar>)
    | Exec(argv: seq<string>, workdir: Option<string>, user: Option<string>, env: seq<EnvVar>)

  function Names(env: seq<EnvVar>): (names: seq<string>)
    ensures |names| == |env| && forall i :: 0 <= i < |env| ==> names[i] == env[i].name
  {
    seq(|env|, i requires 0 <= i < |env| => env[i].name)
  }

  /** The value of a variable; like the map, one value a name. */
  function Var(env: seq<EnvVar>, name: string): Option<string> {
    if env == [] then None
    else if env[0].name == name then Some(env[0].value)
    else Var(env[1..], name)
  }

  /** Equal as environments: each name has the same value, or none, in both. */
  ghost predicate SameEnv(a: seq<EnvVar>, b: seq<EnvVar>) {
    forall name :: Var(a, name) == Var(b, name)
  }

  ghost predicate SamePayload(e: RunnerExec, f: RunnerExec) {
    && e.workdir == f.workdir && e.user == f.user && SameEnv(e.env, f.env)
    && match e
       case Shell(command, _, _, _) => f.Shell? && f.command == command
       case Exec(argv, _, _, _) => f.Exec? && f.argv == argv
  }

  lemma {:induction false} VarInNames(env: seq<EnvVar>, name: string)
    ensures Var(env, name).Some? <==> name in Names(env)
    decreases |env|
  {
    if env != [] {
      VarInNames(env[1..], name);
      assert Names(env) == [env[0].name] + Names(env[1..]);
    }
  }

  /** The environment with its names in sorted order. */
  function SortedEnv(names: seq<string>, env: seq<EnvVar>): seq<Entry>
    requires forall n :: n in names ==> n in Names(env)
  {
    seq(|names|, i requires 0 <= i < |names| =>
      VarInNames(env, names[i]);
      Entry(names[i], Str(Var(env, names[i]).value)))
  }

  function OptionalField(name: string, s: Option<string>): seq<Entry> {
    if s.None? then [] else [Entry(name, Str(s.value))]
  }

  function EnvField(env: seq<EnvVar>): seq<Entry> {
    if env == [] then [] else [Entry("env", Object(SortedEnv(Sort(Names(env)), env)))]
  }

  function Strings(ss: seq<string>): Value {
    Array(seq(|ss|, i requires 0 <= i < |ss| => Str(ss[i])))
  }

  function Head(e: RunnerExec): seq<Entry> {
    match e
    case Shell(command, _, _, _) => [Entry("kind", Str("shell")), Entry("command", Str(command))]
    case Exec(argv, _, _, _) => [Entry("kind", Str("exec")), Entry("argv", Strings(argv))]
  }

  /** The serialised form: tag, payload, then the optional fields that are set. */
  function ExecValue(e: RunnerExec): Value {
    Object(Head(e) + OptionalField("workdir", e.workdir) + OptionalField("user", e.user) + EnvField(e.env))
  }

  function ExecText(e: RunnerExec): string {
    Text(ExecValue(e), false, [])
  }

  // ----- The payload text is exact -----

  lemma {:induction false} AscendingDistinct(keys: seq<string>)
    requires Ascending(keys)
    ensures Distinct(keys)
  {
    if keys != [] {
      AscendingDistinct(keys[1..]);
      LessIrreflexive(keys[0]);
    }
  }

  lemma {:induction false} DistinctConcat(a: seq<string>, b: seq<string>)
    requires Distinct(a) && Distinct(b) && forall k :: k in a ==> k !in b
    ensures Distinct(a + b)
  {
    if a == [] {
      assert a + b == b;
    } else {
      DistinctConcat(a[1..], b);
      assert (a + b)[1..] == a[1..] + b;
    }
  }

  lemma KeysConcat(es: seq<Entry>, fs: seq<Entry>)
    ensures Keys(es + fs) == Keys(es) + Keys(fs)
  {
  }

  lemma {:induction false} SortedEnvField(names: seq<string>, env: seq<EnvVar>, n: string)
    requires forall m :: m in names ==> m in Names(env)
    ensures Field(SortedEnv(names, env), n)
         == if n in names && Var(env, n).Some? then Some(Str(Var(env, n).value)) else None
    decreases |names|
  {
    if names != [] {
      SortedEnvField(names[1..], env, n);
      VarInNames(env, names[0]);
      assert SortedEnv(names, env)[1..] == SortedEnv(names[1..], env);
    }
  }

  /** Sorted, an environment depends only on its bindings. */
  lemma EnvObject(env: seq<EnvVar>, n: string)
    requires Distinct(Names(env))
    ensures Field(SortedEnv(Sort(Names(env)), env), n)
         == if Var(env, n).Some? then Some(Str(Var(env, n).value)) else None
    ensures Valid(Object(SortedEnv(Sort(Names(env)), env)))
  {
    var names := Sort(Names(env));
    SortedEnvField(names, env, n);
    VarInNames(env, n);
    SortAscending(Names(env));
    AscendingDistinct(names);
    assert Keys(SortedEnv(names, env)) == names;
  }

  lemma SameEnvSameField(a: seq<EnvVar>, b: seq<EnvVar>)
    requires Distinct(Names(a)) && Distinct(Names(b)) && SameEnv(a, b)
    ensures EnvField(a) == EnvField(b)
  {
    forall n
      ensures n in Names(a) <==> n in Names(b)
    {
      VarInNames(a, n);
      VarInNames(b, n);
    }
    SortIgnoresOrder(Names(a), Names(b));
    assert a != [] ==> Names(a)[0] in Names(a);
    assert b != [] ==> Names(b)[0] in Names(b);
    if a != [] {
      var names := Sort(Names(a));
      assert SortedEnv(names, a) == SortedEnv(names, b);
    }
  }

  function OptionStr(s: Option<string>): Option<Value> {
    if s.None? then None else Some(Str(s.value))
  }

  function OptionEnv(env: seq<EnvVar>): Option<Value> {
    if env == [] then None else Some(Object(SortedEnv(Sort(Names(env)), env)))
  }

  lemma HeadFields(e: RunnerExec)
    ensures Keys(Head(e)) == ["kind", if e.Shell? then "command" else "argv"]
    ensures Field(Head(e), "kind") == Some(Str(if e.Shell? then "shell" else "exec"))
    ensures Field(Head(e), "command") == if e.Shell? then Some(Str(e.command)) else None
    ensures Field(Head(e), "argv") == if e.Shell? then None else Some(Strings(e.argv))
    ensures forall k :: Has(Head(e), k) ==> k == "kind" || k == "command" || k == "argv"
  {
    assert Head(e)[1..][1..] == [];
    assert Head(e)[0].key == "kind";
  }

  /** Field by field, what a payload serialises to. */
  function ExecFieldOf(e: RunnerExec, k: string): Option<Value> {
    if k == "kind" then Some(Str(if e.Shell? then "shell" else "exec"))
    else if k == "command" then if e.Shell? then Some(Str(e.command)) else None
    else if k == "argv" then if e.Exec? then Some(Strings(e.argv)) else None
    else if k == "workdir" then OptionStr(e.workdir)
    else if k == "user" then OptionStr(e.user)
    else if k == "env" then OptionEnv(e.env)
    else None
  }

  lemma OptionalFieldOf(name: string, s: Option<string>, k: string)
    ensures Field(OptionalField(name, s), k) == if k == name then OptionStr(s) else None
  {
  }

  lemma EnvFieldOf(env: seq<EnvVar>, k: string)
    ensures Field(EnvField(env), k) == if k == "env" then OptionEnv(env) else None
  {
  }

  lemma HeadFieldOf(e: RunnerExec, k: string)
    ensures Field(Head(e), k) == if k == "kind" || k == "command" || k == "argv" then ExecFieldOf(e, k) else None
  {
    HeadFields(e);
  }

  lemma ExecField(e: RunnerExec, k: string)
    ensures Field(ExecValue(e).entries, k) == ExecFieldOf(e, k)
  {
    ConcatFields(Head(e), OptionalField("workdir", e.workdir), OptionalField("user", e.user), EnvField(e.env), k);
    HeadFieldOf(e, k);
    OptionalFieldOf("workdir", e.workdir, k);
    OptionalFieldOf("user", e.user, k);
    EnvFieldOf(e.env, k);
  }

  lemma ConcatFields(a: seq<Entry>, b: seq<Entry>, c: seq<Entry>, d: seq<Entry>, k: string)
    ensures Field(a + b + c + d, k)
         == if Has(a, k) then Field(a, k) else if Has(b, k) then Field(b, k)
            else if Has(c, k) then Field(c, k) else Field(d, k)
  {
    FieldConcat(a, b, k);
    FieldConcat(a + b, c, k);
    FieldConcat(a + b + c, d, k);
  }

  lemma DistinctFields(head: seq<string>, w: seq<string>, u: seq<string>, v: seq<string>)
    requires head == ["kind", "command"] || head == ["kind", "argv"]
    requires (w == [] || w == ["workdir"]) && (u == [] || u == ["user"]) && (v == [] || v == ["env"])
    ensures Distinct(head + w + u + v)
  {
    assert head[1..] == [head[1]] && head[1..][1..] == [];
    DistinctConcat(head, w);
    DistinctConcat(head + w, u);
    DistinctConcat(head + w + u, v);
  }

  lemma ExecKeysDistinct(e: RunnerExec)
    ensures Distinct(Keys(ExecValue(e).entries))
  {
    HeadFields(e);
    var w, u, v := OptionalField("workdir", e.workdir), OptionalField("user", e.user), EnvField(e.env);
    KeysConcat(Head(e), w);
    KeysConcat(Head(e) + w, u);
    KeysConcat(Head(e) + w + u, v);
    assert w == [] || Keys(w) == ["workdir"];
    assert u == [] || Keys(u) == ["user"];
    assert v == [] || Keys(v) == ["env"];
    DistinctFields(Keys(Head(e)), Keys(w), Keys(u), Keys(v));
  }

  lemma HeadValid(e: RunnerExec)
    ensures EntriesValid(Head(e))
  {
    if e.Exec? {
      assert Valid(Strings(e.argv));
    }
  }

  lemma OptionalValid(name: string, s: Option<string>)
    ensures EntriesValid(OptionalField(name, s))
  {
  }

  lemma EnvValid(env: seq<EnvVar>)
    requires Distinct(Names(env))
    ensures EntriesValid(EnvField(env))
  {
    EnvObject(env, "");
  }

  lemma ExecValid(e: RunnerExec)
    requires Distinct(Names(e.env))
    ensures Valid(ExecValue(e))
  {
    ExecKeysDistinct(e);
    HeadValid(e);
    OptionalValid("workdir", e.workdir);
    OptionalValid("user", e.user);
    EnvValid(e.env);
    var w, u, v := OptionalField("workdir", e.workdir), OptionalField("user", e.user), EnvField(e.env);
    ValidEntries(Head(e), w);
    ValidEntries(Head(e) + w, u);
    ValidEntries(Head(e) + w + u, v);
  }

  predicate EntriesValid(es: seq<Entry>) {
    forall i :: 0 <= i < |es| ==> Valid(es[i].value)
  }

  lemma ValidEntries(es: seq<Entry>, fs: seq<Entry>)
    requires EntriesValid(es) && EntriesValid(fs)
    ensures EntriesValid(es + fs)
  {
  }

  lemma StringsInjective(a: seq<string>, b: seq<string>)
    requires SameValue(Strings(a), Strings(b))
    ensures a == b
  {
    var v, w := Strings(a), Strings(b);
    forall i | 0 <= i < |a|
      ensures a[i] == b[i]
    {
      assert SameValue(v.items[i], w.items[i]);
    }
  }

  lemma OptionStrInjective(a: Option<string>, b: Option<string>)
    requires SameOption(OptionStr(a), OptionStr(b))
    ensures a == b
  {
  }

  lemma OptionEnvInjective(a: seq<EnvVar>, b: seq<EnvVar>)
    requires Distinct(Names(a)) && Distinct(Names(b))
    requires SameOption(OptionEnv(a), OptionEnv(b))
    ensures SameEnv(a, b)
  {
    forall n
      ensures Var(a, n) == Var(b, n)
    {
      if a != [] {
        EnvObject(a, n);
        EnvObject(b, n);
        SameFields(OptionEnv(a).value, OptionEnv(b).value, n);
      }
    }
  }

  /** The stamped payload text is the same exactly when the payload is. */
  lemma ExecTextExact(e: RunnerExec, f: RunnerExec)
    requires Distinct(Names(e.env)) && Distinct(Names(f.env))
    ensures ExecText(e) == ExecText(f) <==> SamePayload(e, f)
  {
    if SamePayload(e, f) {
      SameEnvSameField(e.env, f.env);
    }
    if ExecText(e) == ExecText(f) {
      ExecValid(e);
      ExecValid(f);
      Unambiguous(ExecValue(e), ExecValue(f), [], [], false);
      SamePayloadFromValue(e, f);
    }
  }

  lemma SameExecField(e: RunnerExec, f: RunnerExec, k: string)
    requires SameValue(ExecValue(e), ExecValue(f))
    ensures SameOption(ExecFieldOf(e, k), ExecFieldOf(f, k))
  {
    ExecField(e, k);
    ExecField(f, k);
    SameFields(ExecValue(e), ExecValue(f), k);
  }

  lemma SamePayloadFromValue(e: RunnerExec, f: RunnerExec)
    requires Distinct(Names(e.env)) && Distinct(Names(f.env))
    requires SameValue(ExecValue(e), ExecValue(f))
    ensures SamePayload(e, f)
  {
    SameExecField(e, f, "kind");
    SameExecField(e, f, "command");
    SameExecField(e, f, "argv");
    SameExecField(e, f, "workdir");
    SameExecField(e, f, "user");
    SameExecField(e, f, "env");
    SamePayloadFromFields(e, f);
  }

  lemma SamePayloadFromFields(e: RunnerExec, f: RunnerExec)
    requires Distinct(Names(e.env)) && Distinct(Names(f.env))
    requires SameOption(ExecFieldOf(e, "kind"), ExecFieldOf(f, "kind"))
    requires SameOption(ExecFieldOf(e, "command"), ExecFieldOf(f, "command"))
    requires SameOption(ExecFieldOf(e, "argv"), ExecFieldOf(f, "argv"))
    requires SameOption(ExecFieldOf(e, "workdir"), ExecFieldOf(f, "workdir"))
    requires SameOption(ExecFieldOf(e, "user"), ExecFieldOf(f, "user"))
    requires SameOption(ExecFieldOf(e, "env"), ExecFieldOf(f, "env"))
    ensures SamePayload(e, f)
  {
    OptionStrInjective(e.workdir, f.workdir);
    OptionStrInjective(e.user, f.user);
    OptionEnvInjective(e.env, f.env);
    if e.Exec? {
      assert f.Exec?;
      StringsInjective(e.argv, f.argv);
    }
  }

  // ----- Reading a payload back -----

  /** An optional string field: absent and null both mean none; other types are errors. */
  function ReadOptional(v: Option<Value>): Option<Option<string>> {
    match v
    case None => Some(None)
    case Some(Null) => Some(None)
    case Some(Str(s)) => Some(Some(s))
    case _ => None
  }

  predicate AllStrings(es: seq<Entry>) {
    forall i :: 0 <= i < |es| ==> es[i].value.Str?
  }

  function Vars(es: seq<Entry>): (env: seq<EnvVar>)
    requires AllStrings(es)
    ensures Names(env) == Keys(es)
  {
    seq(|es|, i requires 0 <= i < |es| => EnvVar(es[i].key, es[i].value.s))
  }

  function ReadEnv(v: Option<Value>): Option<seq<EnvVar>> {
    match v
    case None => Some([])
    case Some(Object(es)) => if AllStrings(es) then Some(Vars(es)) else None
    case _ => None
  }

  function ReadArgv(v: Option<Value>): Option<seq<string>> {
    match v
    case Some(Array(items)) =>
      if forall i :: 0 <= i < |items| ==> items[i].Str?
      then Some(seq(|items|, i requires 0 <= i < |items| && items[i].Str? => items[i].s))
      else None
    case _ => None
  }

  function ReadStr(v: Option<Value>): Option<string> {
    match v
    case Some(Str(s)) => Some(s)
    case _ => None
  }

  function Assemble(
      kind: Option<string>, command: Option<string>, argv: Option<seq<string>>,
      workdir: Option<Option<string>>, user: Option<Option<string>>, env: Option<seq<EnvVar>>)
    : (r: Option<RunnerExec>)
    ensures r.Some? ==> env == Some(r.value.env)
  {
    if workdir.None? || user.None? || env.None? then None
    else if kind == Some("shell") && command.Some? then
      Some(Shell(command.value, workdir.value, user.value, env.value))
    else if kind == Some("exec") && argv.Some? then
      Some(Exec(argv.value, workdir.value, user.value, env.value))
    else None
  }

  /** Decoding a document as a payload; unknown fields are ignored. */
  function DecodeExec(doc: Value): (r: Option<RunnerExec>)
    ensures r.Some? ==> doc.Object? && ReadEnv(Field(doc.entries, "env")) == Some(r.value.env)
  {
    if !doc.Object? then None
    else
      var es := doc.entries;
      Assemble(ReadStr(Field(es, "kind")), ReadStr(Field(es, "command")), ReadArgv(Field(es, "argv")),
               ReadOptional(Field(es, "workdir")), ReadOptional(Field(es, "user")), ReadEnv(Field(es, "env")))
  }

  lemma {:induction false} FieldAt(es: seq<Entry>, i: nat)
    requires Distinct(Keys(es)) && i < |es|
    ensures Field(es, es[i].key) == Some(es[i].value)
    decreases i
  {
    assert Keys(es)[1..] == Keys(es[1..]);
    if i > 0 {
      assert Keys(es)[i] == Keys(es)[1..][i - 1];
      FieldAt(es[1..], i - 1);
    }
  }

  lemma {:induction false} VarsField(es: seq<Entry>, n: string)
    requires AllStrings(es)
    ensures Var(Vars(es), n) == if Has(es, n) then Some(es[Find(es, n)].value.s) else None
    decreases |es|
  {
    if es != [] {
      VarsField(es[1..], n);
      assert Vars(es)[1..] == Vars(es[1..]);
      assert Field(es, n) == if es[0].key == n then Some(es[0].value) else Field(es[1..], n);
    }
  }

  lemma SameAllStrings(v: Value, w: Value)
    requires v.Object? && w.Object? && Valid(w) && SameValue(v, w) && AllStrings(v.entries)
    ensures AllStrings(w.entries)
  {
    forall i | 0 <= i < |w.entries|
      ensures w.entries[i].value.Str?
    {
      FieldAt(w.entries, i);
      SameFields(v, w, w.entries[i].key);
    }
  }

  lemma SameValueSymmetric(v: Value, w: Value)
    requires Valid(v) && Valid(w) && SameValue(v, w)
    ensures SameValue(w, v)
  {
    CanonicalExact(v, w);
    CanonicalExact(w, v);
  }

  ghost predicate SameReadEnv(a: Option<seq<EnvVar>>, b: Option<seq<EnvVar>>) {
    (a.None? && b.None?) || (a.Some? && b.Some? && SameEnv(a.value, b.value))
  }

  lemma ReadEnvSame(a: Option<Value>, b: Option<Value>)
    requires SameOption(a, b) && (a.Some? ==> Valid(a.value) && Valid(b.value))
    ensures SameReadEnv(ReadEnv(a), ReadEnv(b))
  {
    if a.Some? && a.value.Object? {
      var v, w := a.value, b.value;
      SameValueSymmetric(v, w);
      if AllStrings(v.entries) {
        SameAllStrings(v, w);
        forall n
          ensures Var(Vars(v.entries), n) == Var(Vars(w.entries), n)
        {
          VarsField(v.entries, n);
          VarsField(w.entries, n);
          SameFields(v, w, n);
        }
      } else if AllStrings(w.entries) {
        SameAllStrings(w, v);
      }
    }
  }

  lemma ReadArgvSame(a: Option<Value>, b: Option<Value>)
    requires SameOption(a, b)
    ensures ReadArgv(a) == ReadArgv(b)
  {
    if a.Some? && a.value.Array? {
      var v, w := a.value, b.value;
      assert forall i :: 0 <= i < |v.items| ==> SameValue(v.items[i], w.items[i]);
      assert forall i :: 0 <= i < |v.items| ==> (v.items[i].Str? <==> w.items[i].Str?);
      assert ReadArgv(a).Some? <==> ReadArgv(b).Some?;
      if ReadArgv(a).Some? {
        assert ReadArgv(a).value == ReadArgv(b).value;
      }
    }
  }

  ghost predicate SameDecoded(a: Option<RunnerExec>, b: Option<RunnerExec>) {
    (a.None? && b.None?) || (a.Some? && b.Some? && SamePayload(a.value, b.value))
  }

  lemma ReadScalarsSame(v: Value, w: Value, k: string)
    requires v.Object? && w.Object? && SameValue(v, w)
    ensures ReadStr(Field(v.entries, k)) == ReadStr(Field(w.entries, k))
    ensures ReadOptional(Field(v.entries, k)) == ReadOptional(Field(w.entries, k))
  {
    SameFields(v, w, k);
  }

  lemma AssembleSame(
      kind: Option<string>, command: Option<string>, argv: Option<seq<string>>,
      workdir: Option<Option<string>>, user: Option<Option<string>>,
      a: Option<seq<EnvVar>>, b: Option<seq<EnvVar>>)
    requires SameReadEnv(a, b)
    ensures SameDecoded(Assemble(kind, command, argv, workdir, user, a),
                        Assemble(kind, command, argv, workdir, user, b))
  {
  }

  /** Decoding sees a document as JSON: entry order, at any depth, is not part of it. */
  lemma DecodeIgnoresOrder(v: Value, w: Value)
    requires Valid(v) && Valid(w) && SameValue(v, w)
    ensures SameDecoded(DecodeExec(v), DecodeExec(w))
  {
    if v.Object? {
      ReadScalarsSame(v, w, "kind");
      ReadScalarsSame(v, w, "command");
      ReadScalarsSame(v, w, "workdir");
      ReadScalarsSame(v, w, "user");
      SameFields(v, w, "argv");
      ReadArgvSame(Field(v.entries, "argv"), Field(w.entries, "argv"));
      SameFields(v, w, "env");
      ReadEnvSame(Field(v.entries, "env"), Field(w.entries, "env"));
      AssembleSame(ReadStr(Field(v.entries, "kind")), ReadStr(Field(v.entries, "command")),
                   ReadArgv(Field(v.entries, "argv")), ReadOptional(Field(v.entries, "workdir")),
                   ReadOptional(Field(v.entries, "user")),
                   ReadEnv(Field(v.entries, "env")), ReadEnv(Field(w.entries, "env")));
    }
  }

  lemma DecodedDistinct(v: Value)
    requires Valid(v) && DecodeExec(v).Some?
    ensures Distinct(Names(DecodeExec(v).value.env))
  {
  }

  // ----- The fingerprint's input -----

  /** The library's JSON reader: any partial function from text to valid values. */
  type Reader = read: string -> Option<Value> | forall s :: read(s).Some? ==> Valid(read(s).value)
    witness _ => None

  /** The embedded payload, re-rendered; a string that does not decode stays as it is. */
  function NormalExec(read: Reader, raw: string): string {
    var doc := read(raw);
    if doc.None? then raw
    else
      var e := DecodeExec(doc.value);
      if e.None? then raw else ExecText(e.value)
  }

  function NormalMetadata(read: Reader, meta: Value): Value {
    if meta.Object? && Has(meta.entries, RUNNER_EXEC) then
      match Field(meta.entries, RUNNER_EXEC).value
      case Str(raw) => Object(With(meta.entries, RUNNER_EXEC, Str(NormalExec(read, raw))))
      case _ => meta
    else meta
  }

  /** The job's JSON as it is hashed. */
  function Normalised(read: Reader, job: Value): Value {
    if !job.Object? then job
    else
      var es := WithoutAll(job.entries, IGNORED_FIELDS);
      if Has(es, METADATA) then Object(With(es, METADATA, NormalMetadata(read, Field(es, METADATA).value)))
      else Object(es)
  }

  function ConfigText(read: Reader, job: Value): string {
    Canonical(Normalised(read, job))
  }

  /** The in-place edits of the serialised job, then the canonical writer. */
  method HashInput(read: Reader, job: Value) returns (text: string)
    ensures text == ConfigText(read, job)
  {
    var value := job;
    if value.Object? {
      ghost var all := WithoutAll(job.entries, IGNORED_FIELDS);
      assert IGNORED_FIELDS[0..] == IGNORED_FIELDS;
      for i := 0 to |IGNORED_FIELDS|
        invariant value.Object? && WithoutAll(value.entries, IGNORED_FIELDS[i..]) == all
      {
        assert IGNORED_FIELDS[i..][1..] == IGNORED_FIELDS[i + 1..];
        value := Object(Without(value.entries, IGNORED_FIELDS[i]));
      }
      if Has(value.entries, METADATA) {
        var meta := NormalMetadata(read, value.entries[Find(value.entries, METADATA)].value);
        value := Object(With(value.entries, METADATA, meta));
      }
    }
    text := WriteCanonical(value, []);
    assert [] + Canonical(value) == Canonical(value);
  }

  /** The value of metadata key `k`, with a runner payload in its normal form. */
  function NormalStamp(read: Reader, k: string, v: Option<Value>): Option<Value> {
    match v
    case Some(Str(raw)) => if k == RUNNER_EXEC then Some(Str(NormalExec(read, raw))) else v
    case _ => v
  }

  lemma NormalMetadataField(read: Reader, meta: Value, k: string)
    requires meta.Object?
    ensures NormalMetadata(read, meta).Object?
    ensures Field(NormalMetadata(read, meta).entries, k) == NormalStamp(read, k, Field(meta.entries, k))
    ensures Valid(meta) ==> Valid(NormalMetadata(read, meta))
  {
    if Has(meta.entries, RUNNER_EXEC) {
      match Field(meta.entries, RUNNER_EXEC).value
      case Str(raw) =>
        WithField(meta.entries, RUNNER_EXEC, Str(NormalExec(read, raw)), k);
        if Valid(meta) {
          WithValid(meta.entries, RUNNER_EXEC, Str(NormalExec(read, raw)));
        }
      case _ =>
    }
  }

  lemma NormalisedField(read: Reader, job: Value, k: string)
    requires job.Object?
    ensures Normalised(read, job).Object?
    ensures Field(Normalised(read, job).entries, k)
         == if k in IGNORED_FIELDS then None
            else if k == METADATA && Has(job.entries, k) then Some(NormalMetadata(read, Field(job.entries, k).value))
            else Field(job.entries, k)
  {
    var es := WithoutAll(job.entries, IGNORED_FIELDS);
    WithoutAllField(job.entries, IGNORED_FIELDS, k);
    WithoutAllField(job.entries, IGNORED_FIELDS, METADATA);
    if Has(es, METADATA) {
      WithField(es, METADATA, NormalMetadata(read, Field(es, METADATA).value), k);
    }
  }

  lemma NormalisedValid(read: Reader, job: Value)
    requires Valid(job)
    ensures Valid(Normalised(read, job))
  {
    if job.Object? {
      var es := WithoutAll(job.entries, IGNORED_FIELDS);
      WithoutAllField(job.entries, IGNORED_FIELDS, METADATA);
      if Has(es, METADATA) {
        var meta := Field(es, METADATA).value;
        FieldValid(Object(es), METADATA);
        if meta.Object? {
          NormalMetadataField(read, meta, "");
        }
        WithValid(es, METADATA, NormalMetadata(read, meta));
      }
    }
  }

  /** Two metadata maps agree on key `k`: payloads by normal form, other values as JSON. */
  ghost predicate SameStamp(read: Reader, k: string, a: Value, b: Value)
    requires a.Object? && b.Object?
  {
    SameOption(NormalStamp(read, k, Field(a.entries, k)), NormalStamp(read, k, Field(b.entries, k)))
  }

  ghost predicate SameMetadata(read: Reader, a: Value, b: Value) {
    if a.Object? && b.Object? then
      forall k :: SameStamp(read, k, a, b)
    else SameValue(a, b)
  }

  ghost predicate SameField(read: Reader, k: string, a: Option<Value>, b: Option<Value>) {
    if k == METADATA && a.Some? && b.Some? then SameMetadata(read, a.value, b.value)
    else SameOption(a, b)
  }

  /** The same definition: every field that is not ignored is the same in both. */
  ghost predicate SameDefinition(read: Reader, a: Value, b: Value)
    requires a.Object? && b.Object?
  {
    forall k :: k !in IGNORED_FIELDS ==> SameField(read, k, Field(a.entries, k), Field(b.entries, k))
  }

  lemma SameStampNormalised(read: Reader, a: Value, b: Value, k: string)
    requires a.Object? && b.Object?
    ensures NormalMetadata(read, a).Object? && NormalMetadata(read, b).Object?
    ensures SameStamp(read, k, a, b)
       <==> SameOption(Field(NormalMetadata(read, a).entries, k), Field(NormalMetadata(read, b).entries, k))
  {
    NormalMetadataField(read, a, k);
    NormalMetadataField(read, b, k);
  }

  lemma SameMetadataExact(read: Reader, a: Value, b: Value)
    ensures SameMetadata(read, a, b) <==> SameValue(NormalMetadata(read, a), NormalMetadata(read, b))
  {
    if a.Object? && b.Object? {
      var v, w := NormalMetadata(read, a), NormalMetadata(read, b);
      SameStampNormalised(read, a, b, "");
      if SameMetadata(read, a, b) {
        forall k
          ensures SameOption(Field(v.entries, k), Field(w.entries, k))
        {
          SameStampNormalised(read, a, b, k);
        }
        SameValueByFields(v, w);
      }
      if SameValue(v, w) {
        forall k
          ensures SameStamp(read, k, a, b)
        {
          SameFields(v, w, k);
          SameStampNormalised(read, a, b, k);
        }
      }
    }
  }

  /**
   The hashed text of two jobs is the same exactly when they are the same
   definition: ignored fields, entry order and payload layout never show, and
   every other difference does.
   */
  lemma ConfigTextExact(read: Reader, a: Value, b: Value)
    requires a.Object? && b.Object? && Valid(a) && Valid(b)
    ensures ConfigText(read, a) == ConfigText(read, b) <==> SameDefinition(read, a, b)
  {
    var v, w := Normalised(read, a), Normalised(read, b);
    NormalisedValid(read, a);
    NormalisedValid(read, b);
    CanonicalExact(v, w);
    NormalisedField(read, a, METADATA);
    NormalisedField(read, b, METADATA);
    if SameDefinition(read, a, b) {
      forall k
        ensures SameOption(Field(v.entries, k), Field(w.entries, k))
      {
        SameFieldNormalised(read, a, b, k);
      }
      SameValueByFields(v, w);
    }
    if SameValue(v, w) {
      forall k | k !in IGNORED_FIELDS
        ensures SameField(read, k, Field(a.entries, k), Field(b.entries, k))
      {
        SameFields(v, w, k);
        SameFieldNormalised(read, a, b, k);
      }
    }
  }

  lemma SameFieldNormalised(read: Reader, a: Value, b: Value, k: string)
    requires a.Object? && b.Object?
    ensures Normalised(read, a).Object? && Normalised(read, b).Object?
    ensures SameOption(Field(Normalised(read, a).entries, k), Field(Normalised(read, b).entries, k))
        <==> (k !in IGNORED_FIELDS ==> SameField(read, k, Field(a.entries, k), Field(b.entries, k)))
  {
    NormalisedField(read, a, k);
    NormalisedField(read, b, k);
    if k == METADATA && Has(a.entries, k) && Has(b.entries, k) {
      SameMetadataExact(read, Field(a.entries, k).value, Field(b.entries, k).value);
    }
  }

  /**
   Two embedded payload strings that both decode count as the same exactly when
   they carry the same payload.
   */
  lemma NormalExecExact(read: Reader, r: string, t: string)
    requires read(r).Some? && DecodeExec(read(r).value).Some?
    requires read(t).Some? && DecodeExec(read(t).value).Some?
    ensures NormalExec(read, r) == NormalExec(read, t)
       <==> SamePayload(DecodeExec(read(r).value).value, DecodeExec(read(t).value).value)
  {
    DecodedDistinct(read(r).value);
    DecodedDistinct(read(t).value);
    ExecTextExact(DecodeExec(read(r).value).value, DecodeExec(read(t).value).value);
  }

  /** Reordering the entries of an embedded payload, `env` included, is not a change. */
  lemma PayloadOrderIgnored(read: Reader, r: string, t: string)
    requires read(r).Some? && read(t).Some? && SameValue(read(r).value, read(t).value)
    requires DecodeExec(read(r).value).Some?
    ensures NormalExec(read, r) == NormalExec(read, t)
  {
    DecodeIgnoresOrder(read(r).value, read(t).value);
    NormalExecExact(read, r, t);
  }

  // ----- A reader that reads JSON -----

  /** No number at any depth. */
  predicate Wordy(v: Value) {
    match v
    case Int(_) => false
    case Float(_) => false
    case Array(items) => forall i :: 0 <= i < |items| ==> Wordy(items[i])
    case Object(es) => forall i :: 0 <= i < |es| ==> Wordy(es[i].value)
    case _ => true
  }

  predicate IsWritten(v: Value) {
    Valid(v) && Wordy(v)
  }

  /** The reader reads what the serialiser writes; numbers, which it may round, are left open. */
  ghost predicate ReadsJson(read: Reader) {
    forall v :: IsWritten(v) ==> ReadsBack(read, v)
  }

  ghost predicate ReadsBack(read: Reader, v: Value) {
    read(Text(v, false, [])).Some? && SameValue(v, read(Text(v, false, [])).value)
  }

  /** The reader written from RFC 8259 is one. */
  lemma ReaderExists()
    ensures ReadsJson(JsonReader.ReadDocument)
  {
    forall v | IsWritten(v) ensures ReadsBack(JsonReader.ReadDocument, v) {
      JsonReader.DocumentReads(v, false);
    }
  }

  lemma ArgvBack(argv: seq<string>)
    ensures ReadArgv(Some(Strings(argv))) == Some(argv)
  {
    var items := Strings(argv).items;
    assert forall i :: 0 <= i < |items| ==> items[i] == Str(argv[i]);
    assert ReadArgv(Some(Strings(argv))).value == argv;
  }

  lemma EnvBack(env: seq<EnvVar>)
    requires Distinct(Names(env))
    ensures SameReadEnv(Some(env), ReadEnv(OptionEnv(env)))
  {
    if env != [] {
      var es := SortedEnv(Sort(Names(env)), env);
      assert AllStrings(es);
      forall n ensures Var(env, n) == Var(Vars(es), n) {
        EnvObject(env, n);
        VarsField(es, n);
      }
    }
  }

  lemma AssembleBack(e: RunnerExec, env: Option<seq<EnvVar>>)
    requires SameReadEnv(Some(e.env), env)
    ensures SameDecoded(
              Some(e),
              Assemble(Some(if e.Shell? then "shell" else "exec"), if e.Shell? then Some(e.command) else None,
                       if e.Exec? then Some(e.argv) else None, Some(e.workdir), Some(e.user), env))
  {
    assert |"shell"| == 5 && |"exec"| == 4;
  }

  lemma HeadBack(e: RunnerExec)
    ensures ReadStr(ExecFieldOf(e, "kind")) == Some(if e.Shell? then "shell" else "exec")
    ensures ReadStr(ExecFieldOf(e, "command")) == if e.Shell? then Some(e.command) else None
    ensures ReadArgv(ExecFieldOf(e, "argv")) == if e.Exec? then Some(e.argv) else None
  {
    if e.Exec? {
      ArgvBack(e.argv);
    }
  }

  lemma OptionalBack(e: RunnerExec)
    ensures ReadOptional(ExecFieldOf(e, "workdir")) == Some(e.workdir)
    ensures ReadOptional(ExecFieldOf(e, "user")) == Some(e.user)
    ensures ExecFieldOf(e, "env") == OptionEnv(e.env)
  {
  }

  /** A payload is read back from the document written for it. */
  lemma DecodeBack(e: RunnerExec)
    requires Distinct(Names(e.env))
    ensures SameDecoded(Some(e), DecodeExec(ExecValue(e)))
  {
    ExecField(e, "kind");
    ExecField(e, "command");
    ExecField(e, "argv");
    ExecField(e, "workdir");
    ExecField(e, "user");
    ExecField(e, "env");
    HeadBack(e);
    OptionalBack(e);
    EnvBack(e.env);
    AssembleBack(e, ReadEnv(OptionEnv(e.env)));
  }

  predicate EntriesWordy(es: seq<Entry>) {
    forall i :: 0 <= i < |es| ==> Wordy(es[i].value)
  }

  lemma WordyEntries(es: seq<Entry>, fs: seq<Entry>)
    requires EntriesWordy(es) && EntriesWordy(fs)
    ensures EntriesWordy(es + fs)
  {
  }

  lemma PartsWordy(e: RunnerExec)
    ensures EntriesWordy(Head(e)) && EntriesWordy(EnvField(e.env))
    ensures EntriesWordy(OptionalField("workdir", e.workdir)) && EntriesWordy(OptionalField("user", e.user))
  {
    if e.Exec? {
      assert Wordy(Strings(e.argv));
    }
    if e.env != [] {
      assert Wordy(Object(SortedEnv(Sort(Names(e.env)), e.env)));
    }
  }

  lemma ExecWordy(e: RunnerExec)
    requires Distinct(Names(e.env))
    ensures Valid(ExecValue(e)) && Wordy(ExecValue(e))
  {
    ExecValid(e);
    PartsWordy(e);
    var w, u, v := OptionalField("workdir", e.workdir), OptionalField("user", e.user), EnvField(e.env);
    WordyEntries(Head(e), w);
    WordyEntries(Head(e) + w, u);
    WordyEntries(Head(e) + w + u, v);
  }

  /** What an embedded text runs, if it is the text of a payload. */
  function Embedded(read: Reader, raw: string): Option<RunnerExec> {
    if read(raw).None? then None else DecodeExec(read(raw).value)
  }

  lemma EmbeddedBack(read: Reader, e: RunnerExec)
    requires ReadsJson(read) && Distinct(Names(e.env))
    ensures SameDecoded(Some(e), Embedded(read, ExecText(e)))
  {
    var v := ExecValue(e);
    ExecWordy(e);
    assert IsWritten(v);
    DecodeBack(e);
    DecodeIgnoresOrder(v, read(Text(v, false, [])).value);
  }

  /** A text the compiler wrote is its own normal form. */
  lemma NormalExecFixed(read: Reader, e: RunnerExec)
    requires ReadsJson(read) && Distinct(Names(e.env))
    ensures NormalExec(read, ExecText(e)) == ExecText(e)
  {
    EmbeddedBack(read, e);
    var s := ExecText(e);
    DecodedDistinct(read(s).value);
    ExecTextExact(e, Embedded(read, s).value);
  }

  /** Two embedded texts that run the same thing, or are no payloads and the same text. */
  ghost predicate SameEmbedded(read: Reader, r: string, t: string) {
    if Embedded(read, r).Some? && Embedded(read, t).Some?
    then SamePayload(Embedded(read, r).value, Embedded(read, t).value)
    else Embedded(read, r).None? && Embedded(read, t).None? && r == t
  }

  lemma PayloadIsNoOther(read: Reader, r: string, t: string)
    requires ReadsJson(read) && Embedded(read, r).Some? && Embedded(read, t).None?
    ensures NormalExec(read, r) != NormalExec(read, t)
  {
    DecodedDistinct(read(r).value);
    EmbeddedBack(read, Embedded(read, r).value);
  }

  /** Any two embedded texts have one normal form exactly when they run the same thing. */
  lemma EmbeddedExact(read: Reader, r: string, t: string)
    requires ReadsJson(read)
    ensures NormalExec(read, r) == NormalExec(read, t) <==> SameEmbedded(read, r, t)
  {
    if Embedded(read, r).Some? && Embedded(read, t).Some? {
      NormalExecExact(read, r, t);
    } else if Embedded(read, r).Some? {
      PayloadIsNoOther(read, r, t);
    } else if Embedded(read, t).Some? {
      PayloadIsNoOther(read, t, r);
    }
  }

  /** Two metadata values under one key: payloads by what they run, everything else as JSON. */
  ghost predicate SameEntry(read: Reader, k: string, a: Option<Value>, b: Option<Value>) {
    if k == RUNNER_EXEC && a.Some? && b.Some? && a.value.Str? && b.value.Str?
    then SameEmbedded(read, a.value.s, b.value.s)
    else SameOption(a, b)
  }

  ghost predicate SameEntries(read: Reader, a: Value, b: Value) {
    if a.Object? && b.Object? then
      forall k :: SameEntry(read, k, Field(a.entries, k), Field(b.entries, k))
    else SameValue(a, b)
  }

  /** The same job: every field that is not ignored is the same, the payload by what it runs. */
  ghost predicate SameJob(read: Reader, a: Value, b: Value)
    requires a.Object? && b.Object?
  {
    forall k :: k !in IGNORED_FIELDS ==> SameJobField(read, k, Field(a.entries, k), Field(b.entries, k))
  }

  ghost predicate SameJobField(read: Reader, k: string, a: Option<Value>, b: Option<Value>) {
    if k == METADATA && a.Some? && b.Some? then SameEntries(read, a.value, b.value) else SameOption(a, b)
  }

  lemma SameStrs(x: string, y: string)
    ensures SameOption(Some(Str(x)), Some(Str(y))) <==> x == y
  {
  }

  lemma TextsByPayload(read: Reader, r: string, t: string)
    requires ReadsJson(read)
    ensures SameOption(NormalStamp(read, RUNNER_EXEC, Some(Str(r))), NormalStamp(read, RUNNER_EXEC, Some(Str(t))))
       <==> SameEmbedded(read, r, t)
  {
    EmbeddedExact(read, r, t);
    SameStrs(NormalExec(read, r), NormalExec(read, t));
  }

  lemma StampByPayload(read: Reader, k: string, v: Option<Value>, w: Option<Value>)
    requires ReadsJson(read)
    ensures SameOption(NormalStamp(read, k, v), NormalStamp(read, k, w)) <==> SameEntry(read, k, v, w)
  {
    if k == RUNNER_EXEC {
      if v.Some? && v.value.Str? && w.Some? && w.value.Str? {
        TextsByPayload(read, v.value.s, w.value.s);
      }
    } else {
      assert NormalStamp(read, k, v) == v && NormalStamp(read, k, w) == w;
    }
  }

  lemma MetadataByPayload(read: Reader, a: Value, b: Value)
    requires ReadsJson(read)
    ensures SameMetadata(read, a, b) <==> SameEntries(read, a, b)
  {
    if a.Object? && b.Object? {
      forall k
        ensures SameStamp(read, k, a, b) <==> SameEntry(read, k, Field(a.entries, k), Field(b.entries, k))
      {
        StampByPayload(read, k, Field(a.entries, k), Field(b.entries, k));
      }
    }
  }

  lemma FieldByPayload(read: Reader, k: string, a: Option<Value>, b: Option<Value>)
    requires ReadsJson(read)
    ensures SameField(read, k, a, b) <==> SameJobField(read, k, a, b)
  {
    if a.Some? && b.Some? {
      MetadataByPayload(read, a.value, b.value);
    }
  }

  /** With a reader that reads JSON, two objects hash to one text exactly when they are the same job. */
  lemma ConfigTextByPayload(read: Reader, a: Value, b: Value)
    requires ReadsJson(read) && a.Object? && b.Object? && Valid(a) && Valid(b)
    ensures ConfigText(read, a) == ConfigText(read, b) <==> SameJob(read, a, b)
  {
    ConfigTextExact(read, a, b);
    forall k
      ensures SameField(read, k, Field(a.entries, k), Field(b.entries, k))
         <==> SameJobField(read, k, Field(a.entries, k), Field(b.entries, k))
    {
      FieldByPayload(read, k, Field(a.entries, k), Field(b.entries, k));
    }
  }
}
