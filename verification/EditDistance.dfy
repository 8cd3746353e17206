/**
 The Levenshtein distance behind the "did you mean" suggestions: a two-row
 dynamic program, proved equal to the length of the shortest script of single
 character edits, and the choice of the closest known key on top of it.
 */
module EditDistance {
  import opened Sequences
  import opened Wrappers

  // ----- The distance on prefixes, as a recurrence -----

  function Min(x: nat, y: nat): nat {
    if x <= y then x else y
  }

  function Max(x: nat, y: nat): nat {
    if x <= y then y else x
  }

  function Cost(x: char, y: char): nat {
    if x == y then 0 else 1
  }

  function Front(s: string): string
    requires s != []
  {
    s[..|s| - 1]
  }

  function Last(s: string): char
    requires s != []
  {
    s[|s| - 1]
  }

  /** The cheapest of a match or substitution, a deletion and an insertion. */
  function Best(diagonal: nat, above: nat, left: nat): nat {
    Min(Min(diagonal, above + 1), left + 1)
  }

  function Lev(a: string, b: string): nat
    decreases |a| + |b|
  {
    if a == [] then |b|
    else if b == [] then |a|
    else
      Best(Lev(Front(a), Front(b)) + Cost(Last(a), Last(b)), Lev(Front(a), b), Lev(a, Front(b)))
  }

  // ----- Edit scripts: single edits at any position, in any order -----

  datatype Edit =
    | Insert(at: nat, c: char)
    | Delete(at: nat)
    | Substitute(at: nat, c: char)

  predicate Applicable(e: Edit, s: string) {
    if e.Insert? then e.at <= |s| else e.at < |s|
  }

  function Apply(e: Edit, s: string): string
    requires Applicable(e, s)
  {
    match e
    case Insert(at, c) => s[..at] + [c] + s[at..]
    case Delete(at) => s[..at] + s[at + 1..]
    case Substitute(at, c) => s[..at] + [c] + s[at + 1..]
  }

  /** Running `script` on `a` succeeds at every edit and ends in `b`. */
  predicate Transforms(script: seq<Edit>, a: string, b: string) {
    if script == [] then a == b
    else Applicable(script[0], a) && Transforms(script[1..], Apply(script[0], a), b)
  }

  lemma {:induction false} TransformsConcat(s1: seq<Edit>, s2: seq<Edit>, a: string, b: string, c: string)
    requires Transforms(s1, a, b) && Transforms(s2, b, c)
    ensures Transforms(s1 + s2, a, c)
  {
    if s1 == [] {
      assert s1 + s2 == s2;
    } else {
      var whole := s1 + s2;
      assert whole[0] == s1[0] && whole[1..] == s1[1..] + s2;
      TransformsConcat(s1[1..], s2, Apply(s1[0], a), b, c);
    }
  }

  lemma ApplyWithSuffix(e: Edit, a: string, s: string)
    requires Applicable(e, a)
    ensures Applicable(e, a + s) && Apply(e, a + s) == Apply(e, a) + s
  {
    match e
    case Insert(at, c) =>
      assert (a + s)[..at] == a[..at] && (a + s)[at..] == a[at..] + s;
      Assoc(a[..at] + [c], a[at..], s);
    case Delete(at) =>
      assert (a + s)[..at] == a[..at] && (a + s)[at + 1..] == a[at + 1..] + s;
      Assoc(a[..at], a[at + 1..], s);
    case Substitute(at, c) =>
      assert (a + s)[..at] == a[..at] && (a + s)[at + 1..] == a[at + 1..] + s;
      Assoc(a[..at] + [c], a[at + 1..], s);
  }

  /** A script never looks past the end of its string, so a suffix rides along. */
  lemma {:induction false} TransformsWithSuffix(script: seq<Edit>, a: string, b: string, s: string)
    requires Transforms(script, a, b)
    ensures Transforms(script, a + s, b + s)
  {
    if script != [] {
      ApplyWithSuffix(script[0], a, s);
      TransformsWithSuffix(script[1..], Apply(script[0], a), b, s);
    }
  }

  // ----- Soundness: some script has exactly the computed length -----

  lemma {:induction false} InsertAll(b: string) returns (script: seq<Edit>)
    ensures Transforms(script, [], b) && |script| == |b|
  {
    if b == [] {
      script := [];
    } else {
      var rest := InsertAll(Front(b));
      script := AppendEdit(rest, [], Front(b), Insert(|b| - 1, Last(b)));
      assert Apply(Insert(|b| - 1, Last(b)), Front(b)) == b;
    }
  }

  lemma {:induction false} DeleteAll(a: string) returns (script: seq<Edit>)
    ensures Transforms(script, a, []) && |script| == |a|
  {
    if a == [] {
      script := [];
    } else {
      var e := Delete(|a| - 1);
      var rest := DeleteAll(Front(a));
      assert Apply(e, a) == Front(a);
      script := [e] + rest;
    }
  }

  lemma AppendEdit(script: seq<Edit>, a: string, b: string, e: Edit) returns (longer: seq<Edit>)
    requires Transforms(script, a, b) && Applicable(e, b)
    ensures longer == script + [e]
    ensures Transforms(longer, a, Apply(e, b))
  {
    longer := script + [e];
    assert [e][1..] == [];
    assert Transforms([e], b, Apply(e, b));
    TransformsConcat(script, [e], a, b, Apply(e, b));
  }

  lemma EditsAtEnd(s: string, x: char, y: char)
    ensures Applicable(Substitute(|s|, y), s + [x]) && Apply(Substitute(|s|, y), s + [x]) == s + [y]
    ensures Applicable(Delete(|s|), s + [x]) && Apply(Delete(|s|), s + [x]) == s
    ensures Applicable(Insert(|s|, y), s) && Apply(Insert(|s|, y), s) == s + [y]
  {
    assert (s + [x])[..|s|] == s && (s + [x])[|s| + 1..] == [];
    assert s[..|s|] == s && s[|s|..] == [];
  }

  lemma {:induction false} ShortestScript(a: string, b: string) returns (script: seq<Edit>)
    ensures Transforms(script, a, b) && |script| == Lev(a, b)
    decreases |a| + |b|
  {
    if a == [] {
      script := InsertAll(b);
    } else if b == [] {
      script := DeleteAll(a);
    } else {
      var a', b', x, y := Front(a), Front(b), Last(a), Last(b);
      assert a == a' + [x] && b == b' + [y];
      if Lev(a, b) == Lev(a', b') + Cost(x, y) {
        var rest := ShortestScript(a', b');
        TransformsWithSuffix(rest, a', b', [x]);
        if x == y {
          script := rest;
        } else {
          EditsAtEnd(b', x, y);
          script := AppendEdit(rest, a, b' + [x], Substitute(|b'|, y));
        }
      } else if Lev(a, b) == Lev(a', b) + 1 {
        var rest := ShortestScript(a', b);
        TransformsWithSuffix(rest, a', b, [x]);
        EditsAtEnd(b, x, y);
        script := AppendEdit(rest, a, b + [x], Delete(|b|));
      } else {
        var rest := ShortestScript(a, b');
        EditsAtEnd(b', x, y);
        script := AppendEdit(rest, a, b', Insert(|b'|, y));
      }
    }
  }

  // ----- Optimality: no script is shorter -----

  lemma LevStep(a: string, b: string, x: char, y: char)
    ensures Lev(a + [x], b + [y]) == Best(Lev(a, b) + Cost(x, y), Lev(a, b + [y]), Lev(a + [x], b))
  {
    assert Front(a + [x]) == a && Front(b + [y]) == b;
  }

  lemma LevAppend(a: string, x: char, b: string)
    ensures Lev(a + [x], b) <= Lev(a, b) + 1
    ensures Lev(b, a + [x]) <= Lev(b, a) + 1
  {
    assert Front(a + [x]) == a;
  }

  /** Two strings one edit apart at their end are at most one apart in distance to `b`. */
  lemma {:induction false} NearAtEnd(p: string, m: string, n: string, b: string)
    requires |m| <= 1 && |n| <= 1
    ensures Lev(p + m, b) <= Lev(p + n, b) + 1
    decreases |b|
  {
    if m != [] {
      assert p + m == p + [m[0]];
      LevAppend(p, m[0], b);
    } else {
      assert p + m == p;
    }
    if n == [] {
      assert p + n == p;
    } else {
      var c := n[0];
      assert p + n == p + [c];
      if b != [] {
        var b', y := Front(b), Last(b);
        assert b == b' + [y];
        NearAtEnd(p, m, n, b');
        LevStep(p, b', c, y);
        LevAppend(b', y, p);
        LevAppend(b', y, p + m);
        if m != [] {
          LevStep(p, b', m[0], y);
        }
      }
    }
  }

  /** The same with the edit anywhere: a common suffix does not widen the gap. */
  lemma {:induction false} NearInMiddle(p: string, m: string, n: string, s: string, b: string)
    requires |m| <= 1 && |n| <= 1
    ensures Lev(p + m + s, b) <= Lev(p + n + s, b) + 1
    decreases |s| + |b|
  {
    if s == [] {
      assert p + m + s == p + m && p + n + s == p + n;
      NearAtEnd(p, m, n, b);
    } else {
      var s', z := Front(s), Last(s);
      var u, v := p + m + s', p + n + s';
      assert p + m + s == u + [z] && p + n + s == v + [z];
      if b != [] {
        var b', y := Front(b), Last(b);
        assert b == b' + [y];
        NearInMiddle(p, m, n, s', b');
        NearInMiddle(p, m, n, s', b);
        NearInMiddle(p, m, n, s, b');
        LevStep(u, b', z, y);
        LevStep(v, b', z, y);
      }
    }
  }

  lemma EditMovesByOne(e: Edit, a: string, b: string)
    requires Applicable(e, a)
    ensures Lev(a, b) <= Lev(Apply(e, a), b) + 1
  {
    match e
    case Insert(at, c) =>
      assert a == a[..at] + [] + a[at..];
      NearInMiddle(a[..at], [], [c], a[at..], b);
    case Delete(at) =>
      assert a == a[..at] + [a[at]] + a[at + 1..];
      assert Apply(e, a) == a[..at] + [] + a[at + 1..];
      NearInMiddle(a[..at], [a[at]], [], a[at + 1..], b);
    case Substitute(at, c) =>
      assert a == a[..at] + [a[at]] + a[at + 1..];
      NearInMiddle(a[..at], [a[at]], [c], a[at + 1..], b);
  }

  lemma {:induction false} LevSelf(a: string)
    ensures Lev(a, a) == 0
    decreases |a|
  {
    if a != [] {
      LevSelf(Front(a));
    }
  }

  lemma {:induction false} NoScriptIsShorter(script: seq<Edit>, a: string, b: string)
    requires Transforms(script, a, b)
    ensures Lev(a, b) <= |script|
  {
    if script == [] {
      LevSelf(a);
    } else {
      NoScriptIsShorter(script[1..], Apply(script[0], a), b);
      EditMovesByOne(script[0], a, b);
    }
  }

  /** The distance is the least length of an edit script: attained, and a lower bound. */
  ghost predicate IsEditDistance(d: nat, a: string, b: string) {
    && (exists script :: Transforms(script, a, b) && |script| == d)
    && (forall script :: Transforms(script, a, b) ==> d <= |script|)
  }

  lemma LevIsEditDistance(a: string, b: string)
    ensures IsEditDistance(Lev(a, b), a, b)
  {
    var shortest := ShortestScript(a, b);
    forall script | Transforms(script, a, b)
      ensures Lev(a, b) <= |script|
    {
      NoScriptIsShorter(script, a, b);
    }
  }

  // ----- The two-row program -----

  /** `row` holds the distances from `a` to every prefix of `b`. */
  ghost predicate IsRow(row: seq<nat>, a: string, b: string) {
    |row| == |b| + 1 && forall j :: 0 <= j <= |b| ==> row[j] == Lev(a, b[..j])
  }

  ghost function Row(a: string, b: string): (row: seq<nat>)
    ensures IsRow(row, a, b)
  {
    seq(|b| + 1, j requires 0 <= j <= |b| => Lev(a, b[..j]))
  }

  /** How the row of `a + [x]` follows from the row of `a`, entry by entry. */
  predicate Follows(prev: seq<nat>, next: seq<nat>, i: nat, x: char, b: string)
    requires |prev| == |next| == |b| + 1
  {
    && next[0] == i + 1
    && forall j :: 0 <= j < |b| ==>
         next[j + 1] == Min(Min(prev[j] + Cost(x, b[j]), prev[j + 1] + 1), next[j] + 1)
  }

  lemma RowFollows(a: string, x: char, b: string)
    ensures Follows(Row(a, b), Row(a + [x], b), |a|, x, b)
  {
    assert b[..0] == [];
    forall j | 0 <= j < |b|
      ensures Row(a + [x], b)[j + 1]
           == Min(Min(Row(a, b)[j] + Cost(x, b[j]), Row(a, b)[j + 1] + 1), Row(a + [x], b)[j] + 1)
    {
      assert b[..j + 1] == b[..j] + [b[j]];
      LevStep(a, b[..j], x, b[j]);
    }
  }

  /** One pass of the inner loop, overwriting `curr` from left to right. */
  method FillRow(prev: array<nat>, curr: array<nat>, i: nat, x: char, b: string, ghost next: seq<nat>)
    requires prev != curr && prev.Length == curr.Length == |next| == |b| + 1
    requires Follows(prev[..], next, i, x, b)
    modifies curr
    ensures curr[..] == next
  {
    curr[0] := i + 1;
    var j := 0;
    while j < |b|
      invariant 0 <= j <= |b|
      invariant forall k :: 0 <= k <= j ==> curr[k] == next[k]
    {
      var cost := if x != b[j] then 1 else 0;
      curr[j + 1] := Min(Min(prev[j] + cost, prev[j + 1] + 1), curr[j] + 1);
      j := j + 1;
    }
  }

  method Distance(a: string, b: string) returns (d: nat)
    ensures d == Lev(a, b)
    ensures IsEditDistance(d, a, b)
  {
    var n := |b|;
    var prev := new nat[n + 1](j => j);
    var curr := new nat[n + 1](_ => 0);
    assert prev[..] == Row(a[..0], b);
    var i := 0;
    while i < |a|
      invariant 0 <= i <= |a|
      invariant prev != curr && prev.Length == curr.Length == n + 1
      invariant fresh(prev) && fresh(curr)
      invariant prev[..] == Row(a[..i], b)
    {
      RowFollows(a[..i], a[i], b);
      FillRow(prev, curr, i, a[i], b, Row(a[..i] + [a[i]], b));
      assert a[..i + 1] == a[..i] + [a[i]];
      prev, curr := curr, prev;
      i := i + 1;
    }
    assert a[..i] == a && b[..n] == b;
    d := prev[n];
    assert d == prev[..][n];
    LevIsEditDistance(a, b);
  }

  // ----- Metric laws -----

  lemma {:induction false} ZeroIffEqual(a: string, b: string)
    ensures Lev(a, b) == 0 <==> a == b
  {
    LevSelf(a);
    if Lev(a, b) == 0 {
      var script := ShortestScript(a, b);
    }
  }

  lemma {:induction false} Symmetric(a: string, b: string)
    ensures Lev(a, b) == Lev(b, a)
    decreases |a| + |b|
  {
    if a != [] && b != [] {
      Symmetric(Front(a), Front(b));
      Symmetric(Front(a), b);
      Symmetric(a, Front(b));
    }
  }

  lemma Triangle(a: string, b: string, c: string)
    ensures Lev(a, c) <= Lev(a, b) + Lev(b, c)
  {
    var first := ShortestScript(a, b);
    var second := ShortestScript(b, c);
    TransformsConcat(first, second, a, b, c);
    NoScriptIsShorter(first + second, a, c);
  }

  /** Between the difference of the lengths and the longer length. */
  lemma {:induction false} LengthBounds(a: string, b: string)
    ensures |a| - |b| <= Lev(a, b) <= Max(|a|, |b|)
    ensures |b| - |a| <= Lev(a, b)
    decreases |a| + |b|
  {
    if a != [] && b != [] {
      LengthBounds(Front(a), Front(b));
      LengthBounds(Front(a), b);
      LengthBounds(a, Front(b));
    }
  }

  // ----- The closest known key -----

  /** Bytes of a character in UTF-8, which is what `str::len` counts. */
  function Utf8Bytes(c: char): nat {
    var n := c as int;
    if n < 0x80 then 1 else if n < 0x800 then 2 else if n < 0x10000 then 3 else 4
  }

  function ByteLen(s: string): nat {
    if s == [] then 0 else Utf8Bytes(s[0]) + ByteLen(s[1..])
  }

  function Budget(got: string): nat {
    if |got| <= 3 then 1 else if |got| <= 8 then 2 else 3
  }

  /** A key's rank: its distance from the input, then its length in bytes. */
  datatype Rank = Rank(distance: nat, bytes: nat)

  predicate Below(r: Rank, q: Rank) {
    r.distance < q.distance || (r.distance == q.distance && r.bytes < q.bytes)
  }

  /** Position `i` is within budget, and the first one there that nothing is below. */
  ghost predicate IsFirstLeast(ranks: seq<Rank>, budget: nat, i: nat) {
    && i < |ranks|
    && ranks[i].distance <= budget
    && (forall j :: 0 <= j < |ranks| && ranks[j].distance <= budget ==>
          !Below(ranks[j], ranks[i]) && (j < i ==> Below(ranks[i], ranks[j])))
  }

  /** Filter by budget, then take the minimum; of equal ranks the earlier one stays. */
  function FirstLeast(ranks: seq<Rank>, budget: nat): (r: Option<nat>)
    ensures r.Some? ==> IsFirstLeast(ranks, budget, r.value)
    ensures r.None? <==> forall j :: 0 <= j < |ranks| ==> budget < ranks[j].distance
  {
    if ranks == [] then None
    else
      var n := |ranks| - 1;
      var rest := FirstLeast(ranks[..n], budget);
      if ranks[n].distance > budget then rest
      else if rest.None? || Below(ranks[n], ranks[rest.value]) then Some(n)
      else rest
  }

  function RankOf(got: string, key: string): Rank {
    Rank(Lev(got, key), ByteLen(key))
  }

  function Ranks(got: string, known: seq<string>): (ranks: seq<Rank>)
    ensures |ranks| == |known|
    ensures forall j :: 0 <= j < |known| ==> ranks[j] == RankOf(got, known[j])
  {
    seq(|known|, i requires 0 <= i < |known| => RankOf(got, known[i]))
  }

  function Closest(got: string, known: seq<string>): Option<string> {
    var best := FirstLeast(Ranks(got, known), Budget(got));
    if best.None? then None else Some(known[best.value])
  }

  /** How far off a key may be: one edit for up to three characters, two for up to eight, three for more. */
  predicate WithinReach(got: string, k: string) {
    && (|got| <= 3 ==> Lev(got, k) <= 1)
    && (4 <= |got| <= 8 ==> Lev(got, k) <= 2)
    && (9 <= |got| ==> Lev(got, k) <= 3)
  }

  /** There is no suggestion exactly when every known key is out of reach. */
  lemma NoneIffAllOverBudget(got: string, known: seq<string>)
    ensures Closest(got, known).None? <==> forall k :: k in known ==> !WithinReach(got, k)
  {
    var ranks := Ranks(got, known);
    if Closest(got, known).None? {
      forall k | k in known
        ensures !WithinReach(got, k)
      {
        var j :| 0 <= j < |known| && known[j] == k;
        assert Budget(got) < ranks[j].distance;
      }
    } else {
      var i := FirstLeast(ranks, Budget(got)).value;
      assert known[i] in known && ranks[i].distance == Lev(got, known[i]);
    }
  }

  /** `best` is at least as near as `k`, and if they are equally near at least as short. */
  predicate AtLeastAsGood(got: string, best: string, k: string) {
    Lev(got, best) < Lev(got, k) || (Lev(got, best) == Lev(got, k) && ByteLen(best) <= ByteLen(k))
  }

  /**
   A suggestion is a known key within reach, and no known key within reach is nearer,
   or equally near and shorter; of equally good keys it is the first.
   */
  lemma ClosestIsLeast(got: string, known: seq<string>) returns (i: nat)
    requires Closest(got, known).Some?
    ensures i < |known| && Closest(got, known).value == known[i] && WithinReach(got, known[i])
    ensures forall j :: 0 <= j < |known| && WithinReach(got, known[j]) ==>
              AtLeastAsGood(got, known[i], known[j]) && (j < i ==> !AtLeastAsGood(got, known[j], known[i]))
  {
    var ranks := Ranks(got, known);
    i := FirstLeast(ranks, Budget(got)).value;
    assert ranks[i] == RankOf(got, known[i]);
    forall j | 0 <= j < |known| && WithinReach(got, known[j])
      ensures AtLeastAsGood(got, known[i], known[j]) && (j < i ==> !AtLeastAsGood(got, known[j], known[i]))
    {
      assert ranks[j] == RankOf(got, known[j]);
      assert !Below(ranks[j], ranks[i]);
    }
  }

  /** A known key spelled exactly right is suggested over any other. */
  lemma ExactKeyWins(got: string, known: seq<string>)
    requires got in known
    ensures Closest(got, known) == Some(got)
  {
    LevSelf(got);
    NoneIffAllOverBudget(got, known);
    var i := ClosestIsLeast(got, known);
    var j :| 0 <= j < |known| && known[j] == got;
    assert AtLeastAsGood(got, known[i], known[j]);
    ZeroIffEqual(got, known[i]);
  }
}
