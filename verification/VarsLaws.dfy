/**
 Placeholder variables and their order.

 A variable whose value is a placeholder is resolved against the table as it
 stands, so it sees the placeholder variables before it and not those after it.
 Its block may move over others exactly as far as that makes no difference.
 */
module VarsLaws {
  import opened Wrappers
  import opened Folds
  import opened CroniqAst
  import opened Compile
  import opened FieldLaws
  import opened CompileLaws
  import opened FileLaws

  // ----- Two entries -----

  predicate IsPlaceholder(d: Directive) {
    d.args != [] && d.args[0].placeholder
  }

  predicate Reads(d: Directive, k: string) {
    IsPlaceholder(d) && d.args[0].value == "vars." + k
  }

  /** `d` does not see what `e` does; an entry that reads itself changes nothing others could see. */
  predicate Unaffected(d: Directive, e: Directive) {
    !Reads(d, e.key) || Reads(e, e.key)
  }

  function Set(env: Env, m: Table, d: Directive): Table {
    EntryStep(env, true)(m, d)
  }

  ghost predicate Commute(env: Env, d: Directive, e: Directive) {
    forall m :: Set(env, Set(env, m, d), e) == Set(env, Set(env, m, e), d)
  }

  lemma ReadsIs(d: Directive, k: string)
    requires IsPlaceholder(d)
    ensures Reads(d, k) <==> StartsWith(d.args[0].value, "vars.") && d.args[0].value[5..] == k
  {
    var p := d.args[0].value;
    if StartsWith(p, "vars.") {
      assert p == p[..5] + p[5..];
      assert ("vars." + k)[5..] == k;
    }
  }

  /** An entry's value depends on the table only through the name it reads. */
  lemma ValueDepends(env: Env, m: Table, d: Directive, k: string, v: string)
    requires IsPlaceholder(d)
    ensures Reads(d, k) ==> ResolveStr(env, d.args[0], m[k := v]) == v
    ensures !Reads(d, k) ==> ResolveStr(env, d.args[0], m[k := v]) == ResolveStr(env, d.args[0], m)
    ensures Reads(d, k) && k !in m ==> ResolveStr(env, d.args[0], m) == d.args[0].value
    ensures Reads(d, k) && k in m ==> ResolveStr(env, d.args[0], m) == m[k]
  {
    ReadsIs(d, k);
  }

  lemma UnaffectedValue(env: Env, m: Table, d: Directive, e: Directive)
    requires IsPlaceholder(d) && IsPlaceholder(e)
    requires Unaffected(d, e)
    ensures ResolveStr(env, d.args[0], Set(env, m, e)) == ResolveStr(env, d.args[0], m)
  {
    ValueDepends(env, m, d, e.key, ResolveStr(env, e.args[0], m));
    if Reads(d, e.key) {
      ValueDepends(env, m, e, e.key, "");
      ValueDepends(env, m, d, e.key, "");
    }
  }

  /** A table of literals on which `d` after `e` is not `d` before `e`. */
  function Telling(env: Env, d: Directive, e: Directive): Table
    requires e.args != []
  {
    map[d.key := ""][e.key := ResolveStr(env, e.args[0], map[d.key := ""]) + "x"]
  }

  lemma AffectedDiffers(env: Env, d: Directive, e: Directive)
    requires IsPlaceholder(d) && IsPlaceholder(e)
    requires d.key != e.key && !Unaffected(d, e)
    ensures var m := Telling(env, d, e);
            Lookup(Set(env, Set(env, m, d), e), d.key) != Lookup(Set(env, Set(env, m, e), d), d.key)
  {
    var base: Table := map[d.key := ""];
    var stale := ResolveStr(env, e.args[0], base) + "x";
    var m := Telling(env, d, e);
    ValueDepends(env, base, e, e.key, stale);
    ValueDepends(env, base, d, e.key, stale);
    ValueDepends(env, m, d, e.key, ResolveStr(env, e.args[0], m));
    assert Set(env, m, d)[d.key] == stale;
    assert Set(env, Set(env, m, d), e)[d.key] == stale;
    assert Set(env, Set(env, m, e), d)[d.key] == ResolveStr(env, e.args[0], base);
  }

  /** A placeholder that does not read a variable. */
  predicate Outside(d: Directive) {
    IsPlaceholder(d) && !StartsWith(d.args[0].value, "vars.")
  }

  /** Two entries for one name: the second may as well be the first. */
  predicate Interchangeable(env: Env, d: Directive, e: Directive)
    requires IsPlaceholder(d) && IsPlaceholder(e)
  {
    || Reads(d, d.key) || Reads(e, e.key)
    || d.args[0].value == e.args[0].value
    || (Outside(d) && Outside(e) && ResolveStr(env, d.args[0], map[]) == ResolveStr(env, e.args[0], map[]))
  }

  /** What decides whether two placeholder variables may swap. */
  predicate MaySwap(env: Env, d: Directive, e: Directive)
    requires IsPlaceholder(d) && IsPlaceholder(e)
  {
    if d.key == e.key then Interchangeable(env, d, e) else Unaffected(d, e) && Unaffected(e, d)
  }

  lemma OutsideValue(env: Env, m: Table, d: Directive)
    requires Outside(d)
    ensures ResolveStr(env, d.args[0], m) == ResolveStr(env, d.args[0], map[])
  {
  }

  /** Under one name the value that stays is the second's, seen after the first. */
  lemma SecondStays(env: Env, m: Table, d: Directive, e: Directive)
    requires IsPlaceholder(d) && IsPlaceholder(e) && d.key == e.key
    ensures Set(env, Set(env, m, d), e)
         == m[d.key := if Reads(e, e.key) then ResolveStr(env, d.args[0], m) else ResolveStr(env, e.args[0], m)]
  {
    ValueDepends(env, m, e, e.key, ResolveStr(env, d.args[0], m));
  }

  lemma InterchangeableCommute(env: Env, m: Table, d: Directive, e: Directive)
    requires IsPlaceholder(d) && IsPlaceholder(e) && d.key == e.key && Interchangeable(env, d, e)
    ensures Set(env, Set(env, m, d), e) == Set(env, Set(env, m, e), d)
  {
    SecondStays(env, m, d, e);
    SecondStays(env, m, e, d);
    if Outside(d) && Outside(e) {
      OutsideValue(env, m, d);
      OutsideValue(env, m, e);
    }
  }

  lemma SwapCommutes(env: Env, m: Table, d: Directive, e: Directive)
    requires IsPlaceholder(d) && IsPlaceholder(e) && MaySwap(env, d, e)
    ensures Set(env, Set(env, m, d), e) == Set(env, Set(env, m, e), d)
  {
    if d.key == e.key {
      InterchangeableCommute(env, m, d, e);
    } else {
      UnaffectedValue(env, m, d, e);
      UnaffectedValue(env, m, e, d);
    }
  }

  /** Two literals, two placeholder variables set over them, and a name that comes out differently by order. */
  ghost predicate Tells(env: Env, d: Directive, e: Directive, j: string, u: string, k: string, v: string) {
    var m: Table := map[j := u][k := v];
    var de, ed := Set(env, Set(env, m, d), e), Set(env, Set(env, m, e), d);
    d.key in de && d.key in ed && de[d.key] != ed[d.key]
  }

  function NameRead(d: Directive): string
    requires IsPlaceholder(d) && !Outside(d)
  {
    d.args[0].value[5..]
  }

  lemma ReadsName(d: Directive)
    requires IsPlaceholder(d) && !Outside(d)
    ensures Reads(d, NameRead(d)) && forall k :: Reads(d, k) ==> k == NameRead(d)
  {
    ReadsIs(d, NameRead(d));
    forall k | Reads(d, k) ensures k == NameRead(d) {
      ReadsIs(d, k);
    }
  }

  /** A variable against something from outside: some literal differs from it. */
  lemma VariableTells(env: Env, d: Directive, e: Directive, v: string)
    requires IsPlaceholder(d) && !Outside(d) && Outside(e) && d.key == e.key && !Reads(d, d.key)
    requires v == ResolveStr(env, e.args[0], map[]) + "x"
    ensures Tells(env, d, e, NameRead(d), v, NameRead(d), v)
    ensures Tells(env, e, d, NameRead(d), v, NameRead(d), v)
  {
    var k := NameRead(d);
    var m: Table := map[k := v][k := v];
    ReadsName(d);
    ReadsIs(e, e.key);
    ValueDepends(env, m, d, k, v);
    OutsideValue(env, m, e);
    SecondStays(env, m, d, e);
    SecondStays(env, m, e, d);
  }

  /** Two variables: they may hold different literals. */
  lemma VariablesTell(env: Env, d: Directive, e: Directive)
    requires IsPlaceholder(d) && !Outside(d) && IsPlaceholder(e) && !Outside(e) && d.key == e.key
    requires !Interchangeable(env, d, e)
    ensures Tells(env, d, e, NameRead(d), "", NameRead(e), "x")
  {
    var j, k := NameRead(d), NameRead(e);
    var m: Table := map[j := ""][k := "x"];
    ReadsName(d);
    ReadsName(e);
    assert j != k;
    ValueDepends(env, m, d, j, "");
    ValueDepends(env, m, e, k, "x");
    SecondStays(env, m, d, e);
    SecondStays(env, m, e, d);
  }

  lemma ConstantsTell(env: Env, d: Directive, e: Directive)
    requires Outside(d) && Outside(e) && d.key == e.key && !Interchangeable(env, d, e)
    ensures Tells(env, d, e, d.key, "", d.key, "")
  {
    var m: Table := map[d.key := ""][d.key := ""];
    OutsideValue(env, m, d);
    OutsideValue(env, m, e);
    SecondStays(env, m, d, e);
    SecondStays(env, m, e, d);
  }

  lemma OneNameTells(env: Env, d: Directive, e: Directive) returns (j: string, u: string, k: string, v: string)
    requires IsPlaceholder(d) && IsPlaceholder(e) && d.key == e.key && !Interchangeable(env, d, e)
    ensures Tells(env, d, e, j, u, k, v)
  {
    if Outside(d) && Outside(e) {
      j, u, k, v := d.key, "", d.key, "";
      ConstantsTell(env, d, e);
    } else if Outside(e) {
      u := ResolveStr(env, e.args[0], map[]) + "x";
      j, k, v := NameRead(d), NameRead(d), u;
      VariableTells(env, d, e, u);
    } else if Outside(d) {
      u := ResolveStr(env, d.args[0], map[]) + "x";
      j, k, v := NameRead(e), NameRead(e), u;
      VariableTells(env, e, d, u);
    } else {
      j, u, k, v := NameRead(d), "", NameRead(e), "x";
      VariablesTell(env, d, e);
    }
  }

  /** Two literals under which the order of the two variables shows in one of them. */
  lemma SomeTable(env: Env, d: Directive, e: Directive) returns (j: string, u: string, k: string, v: string)
    requires IsPlaceholder(d) && IsPlaceholder(e) && !MaySwap(env, d, e)
    ensures Tells(env, d, e, j, u, k, v) || Tells(env, e, d, j, u, k, v)
  {
    if d.key == e.key {
      j, u, k, v := OneNameTells(env, d, e);
    } else if !Unaffected(d, e) {
      j, u, k, v := d.key, "", e.key, ResolveStr(env, e.args[0], map[d.key := ""]) + "x";
      AffectedDiffers(env, d, e);
    } else {
      j, u, k, v := e.key, "", d.key, ResolveStr(env, d.args[0], map[e.key := ""]) + "x";
      AffectedDiffers(env, e, d);
    }
  }

  /**
   Two placeholder variables may be set in either order, whatever the table holds, exactly
   when neither sees the other, or, under one name, when either value may stay.
   */
  lemma PlaceholdersCommuteIff(env: Env, d: Directive, e: Directive)
    requires IsPlaceholder(d) && IsPlaceholder(e)
    ensures Commute(env, d, e) <==> MaySwap(env, d, e)
  {
    if MaySwap(env, d, e) {
      forall m ensures Set(env, Set(env, m, d), e) == Set(env, Set(env, m, e), d) {
        SwapCommutes(env, m, d, e);
      }
    } else {
      var j, u, k, v := SomeTable(env, d, e);
      var m: Table := map[j := u][k := v];
      assert Set(env, Set(env, m, d), e) != Set(env, Set(env, m, e), d);
    }
  }

  // ----- A block moves over others -----

  /** Over this entry `d` may move: it is a literal, or one it may swap with. */
  predicate Apart(env: Env, d: Directive, e: Directive)
    requires IsPlaceholder(d)
  {
    IsPlaceholder(e) ==> MaySwap(env, d, e)
  }

  predicate ApartFrom(env: Env, d: Directive, items: seq<Item>)
    requires IsPlaceholder(d)
  {
    forall item, e :: item in items && item.Vars? && e in item.entries ==> Apart(env, d, e)
  }

  lemma ApartCommutes(env: Env, m: Table, d: Directive, e: Directive)
    requires IsPlaceholder(d) && Apart(env, d, e)
    ensures Set(env, Set(env, m, d), e) == Set(env, Set(env, m, e), d)
  {
    if IsPlaceholder(e) {
      SwapCommutes(env, m, d, e);
    }
  }

  lemma {:induction false} MovesOverEntries(env: Env, m: Table, d: Directive, ds: seq<Directive>)
    requires IsPlaceholder(d) && forall e :: e in ds ==> Apart(env, d, e)
    ensures Fold(EntryStep(env, true), Set(env, m, d), ds) == Set(env, Fold(EntryStep(env, true), m, ds), d)
    decreases |ds|
  {
    if ds != [] {
      assert ds[0] in ds && forall e :: e in ds[1..] ==> e in ds;
      ApartCommutes(env, m, d, ds[0]);
      MovesOverEntries(env, Set(env, m, ds[0]), d, ds[1..]);
    }
  }

  lemma {:induction false} MovesOverItems(env: Env, m: Table, d: Directive, items: seq<Item>)
    requires IsPlaceholder(d) && ApartFrom(env, d, items)
    ensures Fold(VarsStep(env, true), Set(env, m, d), items) == Set(env, Fold(VarsStep(env, true), m, items), d)
    decreases |items|
  {
    if items != [] {
      var item := items[0];
      assert item in items && forall x :: x in items[1..] ==> x in items;
      if item.Vars? {
        forall e | e in item.entries ensures Apart(env, d, e) {
        }
        MovesOverEntries(env, m, d, item.entries);
      }
      MovesOverItems(env, VarsStep(env, true)(m, item), d, items[1..]);
    }
  }

  /** A block of one placeholder variable: nothing in the first pass, one entry in the second. */
  lemma PlaceholderBlock(env: Env, m: Table, d: Directive)
    requires IsPlaceholder(d)
    ensures VarsStep(env, false)(m, Vars([d])) == m
    ensures VarsStep(env, true)(m, Vars([d])) == Set(env, m, d)
  {
    FoldOne(EntryStep(env, false), m, d);
    FoldOne(EntryStep(env, true), m, d);
  }

  lemma SecondPassMoves(env: Env, m: Table, a: seq<Item>, d: Directive, b: seq<Item>, t: seq<Item>)
    requires IsPlaceholder(d) && ApartFrom(env, d, b)
    ensures Fold(VarsStep(env, true), m, a + [Vars([d])] + b + t) == Fold(VarsStep(env, true), m, a + b + [Vars([d])] + t)
  {
    var step, v := VarsStep(env, true), Vars([d]);
    var n := Fold(step, m, a);
    FoldConcat(step, m, a + [v] + b, t);
    FoldConcat(step, m, a + [v], b);
    FoldConcat(step, m, a, [v]);
    FoldConcat(step, m, a + b + [v], t);
    FoldConcat(step, m, a + b, [v]);
    FoldConcat(step, m, a, b);
    FoldOne(step, n, v);
    FoldOne(step, Fold(step, n, b), v);
    PlaceholderBlock(env, n, d);
    PlaceholderBlock(env, Fold(step, n, b), d);
    MovesOverItems(env, n, d, b);
  }

  /** A placeholder variable may move over any blocks it is apart from: the whole file compiles as before. */
  lemma PlaceholderMoves(env: Env, a: seq<Item>, d: Directive, b: seq<Item>, t: seq<Item>)
    requires IsPlaceholder(d) && ApartFrom(env, d, b)
    ensures VarsOf(env, a + [Vars([d])] + b + t) == VarsOf(env, a + b + [Vars([d])] + t)
    ensures ConfigOf(env, a + [Vars([d])] + b + t) == ConfigOf(env, a + b + [Vars([d])] + t)
  {
    var v, before := Vars([d]), a + [Vars([d])] + b + t;
    forall m ensures VarsStep(env, false)(m, v) == m {
      PlaceholderBlock(env, m, d);
    }
    IgnoredMoves(VarsStep(env, false), map[], a, v, b, t);
    SecondPassMoves(env, Fold(VarsStep(env, false), map[], before), a, d, b, t);
    var c := ContextOf(env, before);
    IgnoredMoves(GroupStep(env, c.vars), [], a, v, b, t);
    IgnoredMoves(PassStep(c), Pass(INITIAL_DEFAULTS, [], []), a, v, b, t);
  }

  // ----- Exactly when two blocks may be swapped -----

  ghost predicate SwapsIn(env: Env, d: Directive, e: Directive, a: seq<Item>, t: seq<Item>) {
    ConfigOf(env, a + [Vars([d])] + [Vars([e])] + t) == ConfigOf(env, a + [Vars([e])] + [Vars([d])] + t)
  }

  function Literal(k: string, v: string): Directive {
    Directive(k, [StringValue(v, false)])
  }

  lemma LiteralBlock(env: Env, j: string, u: string, k: string, v: string)
    ensures VarsStep(env, false)(map[], Vars([Literal(j, u), Literal(k, v)])) == map[j := u][k := v]
    ensures forall m :: VarsStep(env, true)(m, Vars([Literal(j, u), Literal(k, v)])) == m
  {
    var ds := [Literal(j, u), Literal(k, v)];
    var step := EntryStep(env, false);
    assert step(map[], ds[0]) == map[j := u] && step(map[j := u], ds[1]) == map[j := u][k := v];
    assert ds[1..] == [ds[1]];
    FoldOne(step, map[j := u], ds[1]);
    assert Fold(step, map[], ds) == Fold(step, step(map[], ds[0]), ds[1..]);
    forall m: Table ensures VarsStep(env, true)(m, Vars(ds)) == m {
      NothingChanges(EntryStep(env, true), m, ds);
    }
  }

  /** A job that shows a variable in its description. */
  function Showing(k: string): JobBlock {
    JobBlock("show", None, [Leaf(Directive("description", [StringValue("vars." + k, true)]))])
  }

  lemma LastOne<N, T>(says: N -> Option<T>, x: N)
    ensures Last(says, [x]) == says(x)
  {
    assert [x][1..] == [];
  }

  lemma DescriptionShows(c: Context, k: string)
    requires k in c.vars
    ensures LastSaid(ArgSaid(c, Description), Showing(k).body) == Some(Some(c.vars[k]))
  {
    var d := Showing(k).body[0].d;
    assert KeyOf("description") == Description;
    ValueDepends(c.env, c.vars, d, k, "");
    LastOne(Said(ArgSaid(c, Description)), Leaf(d));
  }

  lemma ShowsIt(c: Context, k: string, defaults: JobDefaults)
    requires k in c.vars
    ensures JobOf(c, Showing(k), defaults).draft.description == Some(c.vars[k])
  {
    JobRest(c, Showing(k), defaults);
    DescriptionShows(c, k);
  }

  lemma FoldFour<S, N>(step: (S, N) -> S, s: S, x: N, y: N, z: N, w: N)
    ensures Fold(step, s, [x] + [y] + [z] + [w]) == step(step(step(step(s, x), y), z), w)
  {
    FoldConcat(step, s, [x] + [y] + [z], [w]);
    FoldConcat(step, s, [x] + [y], [z]);
    FoldConcat(step, s, [x], [y]);
    FoldOne(step, s, x);
    FoldOne(step, step(s, x), y);
    FoldOne(step, step(step(s, x), y), z);
    FoldOne(step, step(step(step(s, x), y), z), w);
  }

  /** Two literals, two placeholder variables, and a job that shows a variable. */
  function SmallFile(j: string, u: string, k: string, v: string, d: Directive, e: Directive, shown: string): seq<Item> {
    [Vars([Literal(j, u), Literal(k, v)])] + [Vars([d])] + [Vars([e])] + [Job(Showing(shown))]
  }

  lemma SmallVars(env: Env, j: string, u: string, k: string, v: string, d: Directive, e: Directive, shown: string)
    requires IsPlaceholder(d) && IsPlaceholder(e)
    ensures VarsOf(env, SmallFile(j, u, k, v, d, e, shown)) == Set(env, Set(env, map[j := u][k := v], d), e)
  {
    var lits, last, m := Vars([Literal(j, u), Literal(k, v)]), Job(Showing(shown)), map[j := u][k := v];
    LiteralBlock(env, j, u, k, v);
    FoldFour(VarsStep(env, false), map[], lits, Vars([d]), Vars([e]), last);
    PlaceholderBlock(env, m, d);
    PlaceholderBlock(env, m, e);
    FoldFour(VarsStep(env, true), m, lits, Vars([d]), Vars([e]), last);
    PlaceholderBlock(env, Set(env, m, d), e);
  }

  /** The one job of the small file shows what the variable compiled to. */
  lemma SmallJobs(env: Env, j: string, u: string, k: string, v: string, d: Directive, e: Directive, shown: string)
    requires IsPlaceholder(d) && IsPlaceholder(e)
    requires shown in Set(env, Set(env, map[j := u][k := v], d), e)
    ensures var jobs := ConfigOf(env, SmallFile(j, u, k, v, d, e, shown)).jobs;
            |jobs| == 1 && jobs[0].draft.description
                           == Lookup(Set(env, Set(env, map[j := u][k := v], d), e), shown)
  {
    SmallVars(env, j, u, k, v, d, e, shown);
    var c := ContextOf(env, SmallFile(j, u, k, v, d, e, shown));
    FoldFour(PassStep(c), Pass(INITIAL_DEFAULTS, [], []),
             Vars([Literal(j, u), Literal(k, v)]), Vars([d]), Vars([e]), Job(Showing(shown)));
    ShowsIt(c, shown, INITIAL_DEFAULTS);
  }

  /** Some file tells the two orders apart, in a job. */
  lemma SomeFileTells(env: Env, d: Directive, e: Directive, j: string, u: string, k: string, v: string)
    requires IsPlaceholder(d) && IsPlaceholder(e) && Tells(env, d, e, j, u, k, v)
    ensures exists a, t :: !SwapsIn(env, d, e, a, t) && !SwapsIn(env, e, d, a, t)
  {
    SmallJobs(env, j, u, k, v, d, e, d.key);
    SmallJobs(env, j, u, k, v, e, d, d.key);
    var a, t := [Vars([Literal(j, u), Literal(k, v)])], [Job(Showing(d.key))];
    assert !SwapsIn(env, d, e, a, t) && !SwapsIn(env, e, d, a, t);
  }

  /**
   The blocks of two placeholder variables may be swapped in every file exactly when
   neither sees the other, or, under one name, when either value may stay.
   */
  lemma PlaceholdersSwapIff(env: Env, d: Directive, e: Directive)
    requires IsPlaceholder(d) && IsPlaceholder(e)
    ensures (forall a, t :: SwapsIn(env, d, e, a, t)) <==> MaySwap(env, d, e)
  {
    if MaySwap(env, d, e) {
      forall a, t ensures SwapsIn(env, d, e, a, t) {
        assert ApartFrom(env, d, [Vars([e])]);
        PlaceholderMoves(env, a, d, [Vars([e])], t);
      }
    } else {
      var j, u, k, v := SomeTable(env, d, e);
      if Tells(env, d, e, j, u, k, v) {
        SomeFileTells(env, d, e, j, u, k, v);
      } else {
        SomeFileTells(env, e, d, j, u, k, v);
      }
    }
  }

  /** `A {env.X}` and `A {env.Y}`, which read no variable: the job shows whichever comes second. */
  lemma RepeatedVarDependsOnOrder(env: Env)
    requires env.lookup("env.X") == Some("1") && env.lookup("env.Y") == Some("2")
    ensures var x := Directive("A", [StringValue("env.X", true)]);
            var y := Directive("A", [StringValue("env.Y", true)]);
            var xy := ConfigOf(env, SmallFile("A", "", "A", "", x, y, "A")).jobs;
            var yx := ConfigOf(env, SmallFile("A", "", "A", "", y, x, "A")).jobs;
            && Unaffected(x, y) && Unaffected(y, x)
            && |xy| == |yx| == 1 && xy[0].draft.description == Some("2") && yx[0].draft.description == Some("1")
  {
    var x := Directive("A", [StringValue("env.X", true)]);
    var y := Directive("A", [StringValue("env.Y", true)]);
    var m: Table := map["A" := ""]["A" := ""];
    assert "env.X"[0] == 'e' && "env.Y"[0] == 'e' && "vars."[0] == 'v';
    assert Outside(x) && Outside(y);
    ReadsIs(x, "A");
    ReadsIs(y, "A");
    SecondStays(env, m, x, y);
    SecondStays(env, m, y, x);
    SmallJobs(env, "A", "", "A", "", x, y, "A");
    SmallJobs(env, "A", "", "A", "", y, x, "A");
  }

  /** `C "1"`, `A {vars.B}`, `B {vars.C}`: `A` is its own text, but `1` with the last two blocks swapped. */
  lemma ChainedVarsDependOnOrder(env: Env)
    ensures var a := Directive("A", [StringValue("vars.B", true)]);
            var b := Directive("B", [StringValue("vars.C", true)]);
            && Lookup(VarsOf(env, [Vars([Literal("C", "1")])] + [Vars([a])] + [Vars([b])]), "A") == Some("vars.B")
            && Lookup(VarsOf(env, [Vars([Literal("C", "1")])] + [Vars([b])] + [Vars([a])]), "A") == Some("1")
  {
    var c := Literal("C", "1");
    var a := Directive("A", [StringValue("vars.B", true)]);
    var b := Directive("B", [StringValue("vars.C", true)]);
    ThreeBlocks(env, c, a, b);
    ThreeBlocks(env, c, b, a);
    var m: Table := map["C" := "1"];
    assert "vars.B" == "vars." + "B" && "vars.C" == "vars." + "C";
    ValueDepends(env, m, a, "B", "1");
    ValueDepends(env, m, b, "C", "1");
    ValueDepends(env, Set(env, m, a), b, "C", "1");
    ValueDepends(env, Set(env, m, b), a, "B", "1");
  }

  lemma ThreeBlocks(env: Env, c: Directive, d: Directive, e: Directive)
    requires c.args != [] && !c.args[0].placeholder && IsPlaceholder(d) && IsPlaceholder(e)
    ensures VarsOf(env, [Vars([c])] + [Vars([d])] + [Vars([e])])
         == Set(env, Set(env, map[c.key := c.args[0].value], d), e)
  {
    var items, m := [Vars([c])] + [Vars([d])] + [Vars([e])], map[c.key := c.args[0].value];
    var first, second := VarsStep(env, false), VarsStep(env, true);
    FoldOne(EntryStep(env, false), map[], c);
    FoldOne(EntryStep(env, true), m, c);
    assert first(map[], Vars([c])) == m && second(m, Vars([c])) == m;
    FoldFour(first, map[], Vars([c]), Vars([d]), Vars([e]), Other);
    FoldFour(second, m, Vars([c]), Vars([d]), Vars([e]), Other);
    FoldConcat(first, map[], items, [Other]);
    FoldConcat(second, m, items, [Other]);
    FoldOne(first, Fold(first, map[], items), Other);
    FoldOne(second, Fold(second, m, items), Other);
    PlaceholderBlock(env, m, d);
    PlaceholderBlock(env, m, e);
    PlaceholderBlock(env, Set(env, m, d), e);
  }
}
