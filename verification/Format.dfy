/**
 Pieces of the Croniqfile formatter: quoting a string so that the lexer reads
 it back, collapsing a list of weekdays into runs, and finding the comments a
 rewrite would lose.
 */
module Format {
  import opened Sequences
  import opened Wrappers
  import opened Calendar

  // ----- Quoted strings -----

  /** One character inside a quoted string. */
  function Escape(c: char): string {
    if c == '\\' then "\\\\"
    else if c == '"' then "\\\""
    else if c == '\n' then "\\n"
    else if c == '\r' then "\\r"
    else if c == '\t' then "\\t"
    else [c]
  }

  /** The inside of a quoted string and its closing quote. */
  function Inside(s: string): string {
    if s == [] then ['"'] else Escape(s[0]) + Inside(s[1..])
  }

  function Quoted(s: string): string {
    ['"'] + Inside(s)
  }

  method QuoteString(value: string) returns (out: string)
    ensures out == Quoted(value)
  {
    out := ['"'];
    for i := 0 to |value|
      invariant out + Inside(value[i..]) == Quoted(value)
    {
      var c := value[i];
      assert value[i..][0] == c && value[i..][1..] == value[i + 1..];
      assert out + Inside(value[i..]) == (out + Escape(c)) + Inside(value[i + 1..]);
      match c {
        case '\\' => out := out + "\\\\";
        case '"' => out := out + "\\\"";
        case '\n' => out := out + "\\n";
        case '\r' => out := out + "\\r";
        case '\t' => out := out + "\\t";
        case _ => out := out + [c];
      }
    }
    out := out + ['"'];
  }

  datatype LexError = UnterminatedString | InvalidEscape(c: char)

  /** A string value, and the text after its closing quote. */
  datatype Lexed = Lexed(value: string, rest: string)

  function Unescape(c: char): Option<char> {
    if c == 'n' then Some('\n')
    else if c == 't' then Some('\t')
    else if c == 'r' then Some('\r')
    else if c == '\\' then Some('\\')
    else if c == '"' then Some('"')
    else None
  }

  function Push(c: char, r: Result<Lexed, LexError>): Result<Lexed, LexError> {
    match r
    case Ok(Lexed(value, rest)) => Ok(Lexed([c] + value, rest))
    case Err(e) => Err(e)
  }

  /** The lexer's string loop, from just after the opening quote. */
  function LexString(src: string): Result<Lexed, LexError> {
    if src == [] then Err(UnterminatedString)
    else if src[0] == '"' then Ok(Lexed([], src[1..]))
    else if src[0] == '\\' then
      if |src| == 1 then Err(UnterminatedString)
      else match Unescape(src[1])
        case Some(c) => Push(c, LexString(src[2..]))
        case None => Err(InvalidEscape(src[1]))
    else if src[0] == '\n' then Err(UnterminatedString)
    else Push(src[0], LexString(src[1..]))
  }

  lemma LexEscaped(c: char, tail: string)
    ensures LexString(Escape(c) + tail) == Push(c, LexString(tail))
  {
    var src := Escape(c) + tail;
    if |Escape(c)| == 2 {
      assert src[0] == '\\' && src[1] == Escape(c)[1] && src[2..] == tail;
    } else {
      assert src[0] == c && src[1..] == tail;
    }
  }

  lemma {:induction false} InsideRoundTrip(value: string, rest: string)
    ensures LexString(Inside(value) + rest) == Ok(Lexed(value, rest))
    decreases |value|
  {
    if value == [] {
      assert (['"'] + rest)[1..] == rest;
    } else {
      var tail := Inside(value[1..]) + rest;
      assert Inside(value) + rest == Escape(value[0]) + tail;
      LexEscaped(value[0], tail);
      InsideRoundTrip(value[1..], rest);
      assert [value[0]] + value[1..] == value;
    }
  }

  lemma {:induction false} InsideOneLine(value: string)
    ensures '\n' !in Inside(value)
    decreases |value|
  {
    if value != [] {
      InsideOneLine(value[1..]);
      assert '\n' !in Escape(value[0]);
    }
  }

  /**
   A quoted string stays on one line, and the lexer reads back exactly the value
   and leaves exactly what follows.
   */
  lemma QuoteRoundTrip(value: string, rest: string)
    ensures Quoted(value)[0] == '"' && '\n' !in Quoted(value)
    ensures LexString((Quoted(value) + rest)[1..]) == Ok(Lexed(value, rest))
  {
    InsideRoundTrip(value, rest);
    InsideOneLine(value);
    assert (Quoted(value) + rest)[1..] == Inside(value) + rest;
  }

  // ----- Weekday lists -----

  /** A run of days, by position in the week. */
  datatype Run = Run(first: nat, last: nat)

  predicate Increasing(indices: seq<nat>) {
    forall i, j :: 0 <= i < j < |indices| ==> indices[i] < indices[j]
  }

  /** The indices from `a` to `b`. */
  function Upto(a: nat, b: nat): (r: seq<nat>)
    ensures a <= b ==> |r| == b - a + 1 && forall i :: 0 <= i < |r| ==> r[i] == a + i
    decreases b
  {
    if b < a then [] else if a == b then [a] else Upto(a, b - 1) + [b]
  }

  predicate Runs(parts: seq<Run>) {
    forall i :: 0 <= i < |parts| ==> parts[i].first <= parts[i].last
  }

  function Expand(parts: seq<Run>): seq<nat> {
    if parts == [] then []
    else Expand(parts[..|parts| - 1]) + Upto(parts[|parts| - 1].first, parts[|parts| - 1].last)
  }

  /** No two neighbouring runs could have been one. */
  predicate Separate(parts: seq<Run>) {
    forall i :: 0 < i < |parts| ==> SeparateAt(parts, i)
  }

  predicate SeparateAt(parts: seq<Run>, i: nat)
    requires 0 < i < |parts|
  {
    parts[i - 1].last + 1 < parts[i].first
  }

  lemma SeparatePush(parts: seq<Run>, p: Run)
    requires Separate(parts) && (parts != [] ==> parts[|parts| - 1].last + 1 < p.first)
    ensures Separate(parts + [p])
  {
    forall i | 0 < i < |parts + [p]|
      ensures SeparateAt(parts + [p], i)
    {
      assert i < |parts| ==> SeparateAt(parts, i);
    }
  }

  lemma SeparateExtend(parts: seq<Run>, p: Run)
    requires Separate(parts + [p])
    ensures Separate(parts + [p.(last := p.last + 1)])
  {
    var longer := parts + [p.(last := p.last + 1)];
    forall i | 0 < i < |longer|
      ensures SeparateAt(longer, i)
    {
      assert SeparateAt(parts + [p], i);
    }
  }

  lemma ExpandPush(parts: seq<Run>, p: Run)
    requires Runs(parts) && p.first <= p.last
    ensures Runs(parts + [p]) && Expand(parts + [p]) == Expand(parts) + Upto(p.first, p.last)
  {
    assert (parts + [p])[..|parts|] == parts;
  }

  lemma ExtendRun(parts: seq<Run>, p: Run)
    requires Runs(parts) && p.first <= p.last
    ensures Runs(parts + [p]) && Runs(parts + [p.(last := p.last + 1)])
    ensures Expand(parts + [p.(last := p.last + 1)]) == Expand(parts + [p]) + [p.last + 1]
  {
    ExpandPush(parts, p);
    ExpandPush(parts, p.(last := p.last + 1));
    Assoc(Expand(parts), Upto(p.first, p.last), [p.last + 1]);
  }

  /** The runs so far spell out the indices so far, and none could be joined. */
  predicate Walked(parts: seq<Run>, indices: seq<nat>) {
    Runs(parts) && Separate(parts) && Expand(parts) == indices
  }

  lemma WalkExtends(parts: seq<Run>, p: Run, indices: seq<nat>)
    requires Walked(parts + [p], indices)
    ensures Walked(parts + [p.(last := p.last + 1)], indices + [p.last + 1])
  {
    var so := parts + [p];
    assert so[..|parts|] == parts && so[|parts|] == p;
    assert forall i :: 0 <= i < |parts| ==> parts[i] == so[i];
    ExtendRun(parts, p);
    SeparateExtend(parts, p);
  }

  lemma WalkStarts(so: seq<Run>, n: nat, indices: seq<nat>)
    requires Walked(so, indices) && (so != [] ==> so[|so| - 1].last + 1 < n)
    ensures Walked(so + [Run(n, n)], indices + [n])
  {
    ExpandPush(so, Run(n, n));
    SeparatePush(so, Run(n, n));
  }

  /** The walk for runs: maximal runs that spell out the indices again. */
  method CollapseRuns(indices: seq<nat>) returns (parts: seq<Run>)
    requires indices != [] && Increasing(indices)
    ensures Runs(parts) && Separate(parts) && Expand(parts) == indices
  {
    parts := [];
    var first, last := indices[0], indices[0];
    WalkStarts([], first, []);
    assert [] + [Run(first, last)] == [Run(first, last)] && indices[..1] == [] + [indices[0]];
    for i := 1 to |indices|
      invariant first <= last == indices[i - 1] && Walked(parts + [Run(first, last)], indices[..i])
    {
      var next := indices[i];
      ghost var so := parts + [Run(first, last)];
      assert indices[..i + 1] == indices[..i] + [next] && indices[i - 1] < indices[i];
      if next == last + 1 {
        WalkExtends(parts, Run(first, last), indices[..i]);
        last := next;
      } else {
        WalkStarts(so, next, indices[..i]);
        parts := parts + [Run(first, last)];
        first, last := next, next;
      }
    }
    assert indices[..|indices|] == indices;
    parts := parts + [Run(first, last)];
  }

  /** Tokens of a written day list. */
  datatype Token = WeekdayAlias | WeekendAlias | Single(day: nat) | Range(from: nat, to: nat)

  /** A run of three or more is a range, a shorter one its days. */
  function EmitRun(r: Run): seq<Token>
    requires r.first <= r.last
  {
    if r.last - r.first + 1 >= 3 then [Range(r.first, r.last)]
    else seq(r.last - r.first + 1, i requires 0 <= i => Single(r.first + i))
  }

  function EmitRuns(parts: seq<Run>): seq<Token>
    requires Runs(parts)
  {
    if parts == [] then []
    else EmitRuns(parts[..|parts| - 1]) + EmitRun(parts[|parts| - 1])
  }

  /** The parser's range: from one day on to another, around the week if need be. */
  function WeekRange(from: nat, to: nat): seq<nat>
    requires from < 7 && to < 7
  {
    seq((to + 7 - from) % 7 + 1, i requires 0 <= i => (from + i) % 7)
  }

  function TokenDays(t: Token): seq<nat> {
    match t
    case WeekdayAlias => [0, 1, 2, 3, 4]
    case WeekendAlias => [5, 6]
    case Single(day) => [day]
    case Range(from, to) => if from < 7 && to < 7 then WeekRange(from, to) else []
  }

  function ReadDays(tokens: seq<Token>): seq<nat> {
    if tokens == [] then [] else TokenDays(tokens[0]) + ReadDays(tokens[1..])
  }

  lemma {:induction false} ReadConcat(a: seq<Token>, b: seq<Token>)
    ensures ReadDays(a + b) == ReadDays(a) + ReadDays(b)
    decreases |a|
  {
    if a == [] {
      assert a + b == b;
    } else {
      assert (a + b)[1..] == a[1..] + b;
      ReadConcat(a[1..], b);
      Assoc(TokenDays(a[0]), ReadDays(a[1..]), ReadDays(b));
    }
  }

  lemma RangeUpto(a: nat, b: nat)
    requires a <= b < 7
    ensures WeekRange(a, b) == Upto(a, b)
  {
    assert (b + 7 - a) % 7 == b - a;
  }

  lemma ReadRun(r: Run)
    requires r.first <= r.last < 7
    ensures ReadDays(EmitRun(r)) == Upto(r.first, r.last)
  {
    if r.last - r.first + 1 >= 3 {
      RangeUpto(r.first, r.last);
      assert [Range(r.first, r.last)][1..] == [];
    } else if r.last == r.first {
      assert EmitRun(r) == [Single(r.first)] && [Single(r.first)][1..] == [];
      assert Upto(r.first, r.last) == [r.first];
    } else {
      var two := [Single(r.first), Single(r.last)];
      assert EmitRun(r) == two && two[1..] == [Single(r.last)] && [Single(r.last)][1..] == [];
      assert Upto(r.first, r.last) == [r.first, r.last];
      assert ReadDays([Single(r.last)]) == [r.last];
    }
  }

  lemma {:induction false} ReadRuns(parts: seq<Run>)
    requires Runs(parts) && forall i :: 0 <= i < |parts| ==> parts[i].last < 7
    ensures ReadDays(EmitRuns(parts)) == Expand(parts)
    decreases |parts|
  {
    if parts != [] {
      var n := |parts| - 1;
      ReadRuns(parts[..n]);
      ReadConcat(EmitRuns(parts[..n]), EmitRun(parts[n]));
      ReadRun(parts[n]);
    }
  }

  /** The days present, in week order, each once. */
  function Present(days: seq<Weekday>): (r: seq<nat>)
    ensures Increasing(r) && (forall i :: i in r ==> i < 7)
    ensures forall d :: d in days <==> WeekdayIndex(d) in r
    ensures days == [] ==> r == []
  {
    PresentBelow(days, 7)
  }

  function PresentBelow(days: seq<Weekday>, n: nat): (r: seq<nat>)
    requires n <= 7
    ensures Increasing(r)
    ensures forall i: nat :: i in r <==> i < n && WeekdayAt(i) in days
    ensures days == [] ==> r == []
  {
    if n == 0 then []
    else
      var rest := PresentBelow(days, n - 1);
      assert forall i :: 0 <= i < |rest| ==> rest[i] in rest;
      if WeekdayAt(n - 1) in days then rest + [n - 1] else rest
  }

  lemma LastInExpand(parts: seq<Run>, i: nat)
    requires Runs(parts) && i < |parts|
    ensures parts[i].last in Expand(parts)
    decreases |parts|
  {
    var n := |parts| - 1;
    if i < n {
      LastInExpand(parts[..n], i);
    } else {
      var days := Upto(parts[n].first, parts[n].last);
      assert days[|days| - 1] == parts[n].last;
    }
  }

  /** A token whose days are days of the week. */
  predicate WithinWeek(t: Token) {
    match t
    case WeekdayAlias => true
    case WeekendAlias => true
    case Single(day) => day < 7
    case Range(from, to) => from < 7 && to < 7
  }

  lemma {:induction false} RunsWithinWeek(parts: seq<Run>)
    requires Runs(parts) && forall i :: 0 <= i < |parts| ==> parts[i].last < 7
    ensures forall t :: t in EmitRuns(parts) ==> WithinWeek(t)
    ensures parts != [] ==> EmitRuns(parts) != []
    decreases |parts|
  {
    if parts != [] {
      RunsWithinWeek(parts[..|parts| - 1]);
    }
  }

  /** A day among three or more in a row. */
  predicate InThree(day: nat, present: seq<nat>) {
    || (day >= 2 && day - 2 in present && day - 1 in present)
    || (day >= 1 && day - 1 in present && day + 1 in present)
    || (day + 1 in present && day + 2 in present)
  }

  /** A range of three days or more that cannot be extended, or a day that belongs to no such range. */
  predicate Tight(t: Token, present: seq<nat>) {
    || (t.Single? && !InThree(t.day, present))
    || (t.Range? && t.from + 2 <= t.to && (t.from == 0 || t.from - 1 !in present) && t.to + 1 !in present)
  }

  /** Monday to Friday and the weekend have names of their own; other lists are as short as ranges make them. */
  predicate Compact(tokens: seq<Token>, present: seq<nat>) {
    if present == [0, 1, 2, 3, 4] then tokens == [WeekdayAlias]
    else if present == [5, 6] then tokens == [WeekendAlias]
    else forall t :: t in tokens ==> Tight(t, present)
  }

  /** An index is spelled out by the run it lies in. */
  lemma {:induction false} InExpand(parts: seq<Run>, x: nat)
    requires Runs(parts)
    ensures x in Expand(parts) <==> exists i :: 0 <= i < |parts| && parts[i].first <= x <= parts[i].last
    decreases |parts|
  {
    if parts != [] {
      var n := |parts| - 1;
      InExpand(parts[..n], x);
      var days := Upto(parts[n].first, parts[n].last);
      assert parts[n].first <= x <= parts[n].last ==> days[x - parts[n].first] == x;
      assert forall i :: 0 <= i < n ==> parts[..n][i] == parts[i];
    }
  }

  lemma {:induction false} RunsApart(parts: seq<Run>, i: nat, j: nat)
    requires Runs(parts) && Separate(parts) && i < j < |parts|
    ensures parts[i].last + 1 < parts[j].first
    decreases j
  {
    assert SeparateAt(parts, j);
    if i < j - 1 {
      RunsApart(parts, i, j - 1);
    }
  }

  /** Nothing next to a run is present. */
  lemma {:induction false} RunIsMaximal(parts: seq<Run>, i: nat)
    requires Runs(parts) && Separate(parts) && i < |parts|
    ensures parts[i].last + 1 !in Expand(parts)
    ensures parts[i].first > 0 ==> parts[i].first - 1 !in Expand(parts)
  {
    InExpand(parts, parts[i].last + 1);
    if parts[i].first > 0 {
      InExpand(parts, parts[i].first - 1);
    }
    forall j | 0 <= j < |parts| && j != i
      ensures parts[j].last + 1 < parts[i].first || parts[i].last + 1 < parts[j].first
    {
      if j < i {
        RunsApart(parts, j, i);
      } else {
        RunsApart(parts, i, j);
      }
    }
  }

  lemma {:induction false} EmittedTight(parts: seq<Run>, i: nat, t: Token)
    requires Runs(parts) && Separate(parts) && i < |parts| && t in EmitRun(parts[i])
    ensures Tight(t, Expand(parts))
  {
    var r := parts[i];
    RunIsMaximal(parts, i);
    if r.last - r.first + 1 >= 3 {
      assert t == Range(r.first, r.last);
    } else {
      assert t == Single(r.first) || t == Single(r.last);
      assert !InThree(t.day, Expand(parts));
    }
  }

  lemma {:induction false} EmittedBy(parts: seq<Run>, t: Token) returns (i: nat)
    requires Runs(parts) && t in EmitRuns(parts)
    ensures i < |parts| && t in EmitRun(parts[i])
    decreases |parts|
  {
    i := |parts| - 1;
    if t !in EmitRun(parts[i]) {
      i := EmittedBy(parts[..i], t);
    }
  }

  /** The compact day list as tokens, which the parser expands to the same days in week order. */
  method WeekdayTokens(days: seq<Weekday>) returns (tokens: seq<Token>)
    ensures ReadDays(tokens) == Present(days) && Compact(tokens, Present(days))
    ensures forall t :: t in tokens ==> WithinWeek(t)
    ensures tokens == [] <==> days == []
  {
    if days == [] {
      return [];
    }
    var indices := Present(days);
    assert WeekdayIndex(days[0]) in indices;
    if indices == [0, 1, 2, 3, 4] {
      tokens := [WeekdayAlias];
      assert tokens[1..] == [] && |indices| == 5;
      return;
    }
    if indices == [5, 6] {
      tokens := [WeekendAlias];
      assert tokens[1..] == [] && |indices| == 2;
      return;
    }
    var parts := CollapseRuns(indices);
    forall i | 0 <= i < |parts|
      ensures parts[i].last < 7
    {
      LastInExpand(parts, i);
    }
    ReadRuns(parts);
    RunsWithinWeek(parts);
    tokens := EmitRuns(parts);
    forall t | t in tokens
      ensures Tight(t, indices)
    {
      var i := EmittedBy(parts, t);
      EmittedTight(parts, i, t);
    }
  }

  // ----- Lost comments -----

  /** What remains of `source` when each text in `kept` pays for one equal comment. */
  function Unpaid(source: seq<string>, kept: multiset<string>): seq<string> {
    if source == [] then []
    else if source[0] in kept then Unpaid(source[1..], kept - multiset{source[0]})
    else [source[0]] + Unpaid(source[1..], kept)
  }

  predicate IsSubsequence(a: seq<string>, b: seq<string>) {
    if a == [] then true
    else if b == [] then false
    else if a[0] == b[0] then IsSubsequence(a[1..], b[1..])
    else IsSubsequence(a, b[1..])
  }

  lemma {:induction false} SubsequenceSkip(a: seq<string>, b: seq<string>, x: string)
    requires IsSubsequence(a, b)
    ensures IsSubsequence(a, [x] + b)
    decreases |b|, 1
  {
    assert ([x] + b)[1..] == b;
    if a != [] && a[0] == x {
      SubsequenceTail(a, b);
    }
  }

  lemma {:induction false} SubsequenceTail(a: seq<string>, b: seq<string>)
    requires a != [] && IsSubsequence(a, b)
    ensures IsSubsequence(a[1..], b)
    decreases |b|, 0
  {
    assert b == [b[0]] + b[1..];
    if a[0] == b[0] {
      SubsequenceSkip(a[1..], b[1..], b[0]);
    } else {
      SubsequenceTail(a, b[1..]);
      SubsequenceSkip(a[1..], b[1..], b[0]);
    }
  }

  /** The lost comments are the multiset difference, in source order. */
  lemma {:induction false} UnpaidExact(source: seq<string>, kept: multiset<string>)
    ensures multiset(Unpaid(source, kept)) == multiset(source) - kept
    ensures IsSubsequence(Unpaid(source, kept), source)
    decreases |source|
  {
    if source != [] {
      var c, rest := source[0], source[1..];
      assert source == [c] + rest;
      if c in kept {
        UnpaidExact(rest, kept - multiset{c});
        SubsequenceSkip(Unpaid(rest, kept - multiset{c}), rest, c);
      } else {
        UnpaidExact(rest, kept);
        assert ([c] + Unpaid(rest, kept))[1..] == Unpaid(rest, kept);
      }
    }
  }

  method Position(kept: seq<string>, c: string) returns (i: nat)
    ensures i <= |kept|
    ensures if i < |kept| then kept[i] == c else c !in kept
  {
    i := 0;
    while i < |kept| && kept[i] != c
      invariant i <= |kept| && c !in kept[..i]
    {
      i := i + 1;
    }
  }

  /** Remove in constant time: the last element takes the free place. */
  function SwapRemove(kept: seq<string>, i: nat): (r: seq<string>)
    requires i < |kept|
    ensures multiset(r) == multiset(kept) - multiset{kept[i]}
  {
    var n := |kept| - 1;
    assert kept == kept[..n] + [kept[n]];
    if i == n then kept[..n]
    else
      assert kept[..n] == kept[..i] + [kept[i]] + kept[i + 1..n];
      assert kept[..n][i := kept[n]] == kept[..i] + [kept[n]] + kept[i + 1..n];
      kept[..n][i := kept[n]]
  }

  method LostComments(source: seq<string>, formatted: seq<string>) returns (lost: seq<string>)
    ensures lost == Unpaid(source, multiset(formatted))
    ensures multiset(lost) == multiset(source) - multiset(formatted)
    ensures IsSubsequence(lost, source)
  {
    var kept := formatted;
    lost := [];
    ghost var all := Unpaid(source, multiset(formatted));
    for k := 0 to |source|
      invariant lost + Unpaid(source[k..], multiset(kept)) == all
    {
      var c := source[k];
      assert source[k..][0] == c && source[k..][1..] == source[k + 1..];
      var i := Position(kept, c);
      if i < |kept| {
        kept := SwapRemove(kept, i);
      } else {
        Assoc(lost, [c], Unpaid(source[k + 1..], multiset(kept)));
        lost := lost + [c];
      }
    }
    UnpaidExact(source, multiset(formatted));
  }
}
