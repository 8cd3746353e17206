/**
 What a job body says, in the words of the file.

 The other laws speak of what a directive says about a setting; here that is read off
 the written words: which directive names there are, which values they take, what a
 duration in words lasts, what a `runner` block runs and asks for, and which tags a job
 has.
 */
module Words {
  import opened Wrappers
  import opened Folds
  import opened KeyOrder
  import opened ScheduleText
  import opened CroniqAst
  import opened Compile
  import opened FieldLaws
  import opened CompileLaws
  import opened FileLaws
  import Fingerprint

  predicate Named(n: Node, name: string) {
    n.Leaf? && n.d.key == name
  }

  /** The entry of a table under a text, if there is one. */
  function Entry<T>(table: seq<(string, T)>, text: Option<string>): Option<T> {
    if table == [] then None
    else if text == Some(table[0].0) then Some(table[0].1)
    else Entry(table[1..], text)
  }

  /** A directive of this name whose first argument is one of a few words. */
  function Choice<T>(c: Context, n: Node, name: string, table: seq<(string, T)>): Option<T> {
    if Named(n, name) then Entry(table, FirstArg(c, n.d)) else None
  }

  lemma EntryOne<T>(a: string, x: T, text: Option<string>)
    ensures Entry([(a, x)], text) == if text == Some(a) then Some(x) else None
  {
    assert [(a, x)][1..] == [];
    assert Entry([(a, x)][1..], text) == None;
  }

  lemma EntryTwo<T>(a: string, x: T, b: string, y: T, text: Option<string>)
    ensures Entry([(a, x), (b, y)], text)
         == if text == Some(a) then Some(x) else if text == Some(b) then Some(y) else None
  {
    assert [(a, x), (b, y)][1..] == [(b, y)];
    EntryOne(b, y, text);
  }

  lemma EntryThree<T>(a: string, x: T, b: string, y: T, d: string, z: T, text: Option<string>)
    ensures Entry([(a, x), (b, y), (d, z)], text)
         == if text == Some(a) then Some(x) else if text == Some(b) then Some(y)
            else if text == Some(d) then Some(z) else None
  {
    assert [(a, x), (b, y), (d, z)][1..] == [(b, y), (d, z)];
    EntryTwo(b, y, d, z, text);
  }

  // ----- Directives of a job and of `defaults` -----

  /** Enough of the names to tell them apart. */
  lemma NamesApart()
    ensures |"description"| == 11 && |"timeout"| == 7 && |"window"| == 6 && |"tags"| == 4 && |"concurrency_group"| == 17
    ensures |"timezone"| == |"catch_up"| == |"coalesce"| == |"priority"| == 8
    ensures "timezone"[0] == 't' && "catch_up"[1] == 'a' && "coalesce"[1] == 'o' && "priority"[0] == 'p'
    ensures "catch_up"[0] == 'c' && "coalesce"[0] == 'c'
    ensures |"queue_ttl"| == |"keep_last"| == |"singleton"| == 9
    ensures "queue_ttl"[0] == 'q' && "keep_last"[0] == 'k' && "singleton"[0] == 's'
    ensures |"execution_mode"| == |"max_concurrent"| == 14 && "execution_mode"[0] == 'e' && "max_concurrent"[0] == 'm'
    ensures |"max_queue_depth"| == |"run_on_register"| == 15
    ensures "max_queue_depth"[0] == 'm' && "run_on_register"[0] == 'r'
  {
  }

  lemma TextKeys(key: string)
    ensures KeyOf(key) == Description <==> key == "description"
    ensures KeyOf(key) == Timezone <==> key == "timezone"
    ensures KeyOf(key) == Timeout <==> key == "timeout"
    ensures KeyOf(key) == Window <==> key == "window"
    ensures KeyOf(key) == RunOnRegister <==> key == "run_on_register"
    ensures KeyOf(key) == Tags <==> key == "tags"
  {
    NamesApart();
  }

  lemma QueueKeys(key: string)
    ensures KeyOf(key) == ExecutionMode <==> key == "execution_mode"
    ensures KeyOf(key) == CatchUpKey <==> key == "catch_up"
    ensures KeyOf(key) == QueueTtl <==> key == "queue_ttl"
    ensures KeyOf(key) == MaxQueueDepth <==> key == "max_queue_depth"
    ensures KeyOf(key) == KeepLast <==> key == "keep_last"
    ensures KeyOf(key) == PriorityKey <==> key == "priority"
  {
    NamesApart();
  }

  lemma GuardKeys(key: string)
    ensures KeyOf(key) == ConcurrencyGroup <==> key == "concurrency_group"
    ensures KeyOf(key) == Singleton <==> key == "singleton"
    ensures KeyOf(key) == Coalesce <==> key == "coalesce"
    ensures KeyOf(key) == MaxConcurrent <==> key == "max_concurrent"
  {
    NamesApart();
  }

  lemma TextWords(c: Context, n: Node)
    ensures Said(ArgSaid(c, Description))(n) == if Named(n, "description") then Some(FirstArg(c, n.d)) else None
    ensures Said(ArgSaid(c, Window))(n) == if Named(n, "window") then Some(FirstArg(c, n.d)) else None
    ensures Said(TimeoutSaid(c))(n) == if Named(n, "timeout") then Some(DurationArg(c, n.d)) else None
    ensures Said(TimezoneSaid(c))(n)
         == if Named(n, "timezone") && FirstArg(c, n.d).Some? then Some(FirstArg(c, n.d)) else None
    ensures Said(RegisterSaid())(n) == if Named(n, "run_on_register") then Some(true) else None
  {
    if n.Leaf? {
      TextKeys(n.d.key);
    }
  }

  const MODES: seq<(string, Mode)> := [("queued", Queued), ("ephemeral", Ephemeral)]
  const PRIORITIES: seq<(string, Priority)> := [("low", Low), ("normal", Normal), ("high", High)]
  const CATCH_UPS: seq<(string, (CatchUp, bool))> :=
    [("all", (All, true)), ("latest", (Latest, true)), ("none", (Nothing, true))]

  lemma ChoiceWords(c: Context, n: Node)
    ensures Said(ModeSaid(c))(n) == Choice(c, n, "execution_mode", MODES)
    ensures Said(PrioritySaid(c))(n) == Choice(c, n, "priority", PRIORITIES)
    ensures Said(CatchUpSaid(c))(n) == Choice(c, n, "catch_up", CATCH_UPS)
  {
    if n.Leaf? {
      var text := FirstArg(c, n.d);
      QueueKeys(n.d.key);
      EntryTwo("queued", Queued, "ephemeral", Ephemeral, text);
      EntryThree("low", Low, "normal", Normal, "high", High, text);
      EntryThree("all", (All, true), "latest", (Latest, true), "none", (Nothing, true), text);
    }
  }

  /** A number argument, if it is one that fits 32 bits. */
  function Number(c: Context, n: Node): Option<nat> {
    if n.Leaf? && FirstArg(c, n.d).Some? then ParseU32(FirstArg(c, n.d).value) else None
  }

  lemma QueueWords(c: Context, n: Node)
    ensures Said(TtlSaid(c))(n)
         == if !Named(n, "queue_ttl") then None
            else if DurationArg(c, n.d) == Some("none") then Some(None) else Some(DurationArg(c, n.d))
    ensures Said(NumberSaid(c, MaxQueueDepth))(n)
         == if Named(n, "max_queue_depth") && Number(c, n).Some? then Some(Number(c, n)) else None
    ensures Said(NumberSaid(c, KeepLast))(n)
         == if Named(n, "keep_last") && Number(c, n).Some? then Some(Number(c, n)) else None
  {
    if n.Leaf? {
      QueueKeys(n.d.key);
    }
  }

  lemma GuardWords(c: Context, n: Node)
    ensures Said(GuardSaid(c))(n)
         == if Named(n, "singleton") then Some(Some(1))
            else if !Named(n, "max_concurrent") then None
            else if Number(c, n) == Some(0) then Some(None) else Some(Number(c, n))
    ensures Said(GroupSaid(c))(n)
         == if !Named(n, "concurrency_group") then None
            else if FirstArg(c, n.d).Some? && FirstArg(c, n.d).value in c.limits then Some(FirstArg(c, n.d))
            else Some(None)
    ensures Said(CoalesceSaid(c))(n)
         == if !Named(n, "coalesce") then None
            else Some(Some(if FirstArg(c, n.d) == Some("schedule") then "schedule" else "1"))
  {
    if n.Leaf? {
      GuardKeys(n.d.key);
    }
  }

  // ----- Directives of a block -----

  lemma RetryKeys(key: string)
    ensures RetryKeyOf(key) == MaxAttempts <==> key == "max_attempts"
    ensures RetryKeyOf(key) == Base <==> key == "base"
    ensures RetryKeyOf(key) == Cap <==> key == "cap"
    ensures RetryKeyOf(key) == Delay <==> key == "delay"
    ensures RetryKeyOf(key) == Step <==> key == "step"
    ensures RetryKeyOf(key) == Jitter <==> key == "jitter"
  {
    assert |"max_attempts"| == 12 && |"base"| == |"step"| == 4 && |"cap"| == 3 && |"delay"| == 5 && |"jitter"| == 6;
    assert "base"[0] == 'b' && "step"[0] == 's';
  }

  lemma DeadLetterKeys(key: string)
    ensures DeadLetterKeyOf(key) == Enabled <==> key == "enabled"
    ensures DeadLetterKeyOf(key) == Retention <==> key == "retention"
    ensures DeadLetterKeyOf(key) == OperatorHint <==> key == "operator_hint"
    ensures DeadLetterKeyOf(key) == ReplayMaxAge <==> key == "replay_max_age"
  {
    assert |"enabled"| == 7 && |"retention"| == 9 && |"operator_hint"| == 13 && |"replay_max_age"| == 14;
  }

  function Text(c: Context, n: Node): string {
    if n.Leaf? then OrElse(DurationArg(c, n.d), "") else ""
  }

  lemma RetryWords(c: Context, n: Node)
    ensures RetrySaid(c, MaxAttempts, ParseU32)(n) == if Named(n, "max_attempts") then ParseU32(Text(c, n)) else None
    ensures RetrySaid(c, Base, Kept)(n) == if Named(n, "base") then Some(Some(Text(c, n))) else None
    ensures RetrySaid(c, Cap, Kept)(n) == if Named(n, "cap") then Some(Some(Text(c, n))) else None
    ensures RetrySaid(c, Delay, Kept)(n) == if Named(n, "delay") then Some(Some(Text(c, n))) else None
    ensures RetrySaid(c, Step, Kept)(n) == if Named(n, "step") then Some(Some(Text(c, n))) else None
    ensures RetrySaid(c, Jitter, JitterRead(c.env))(n)
         == if Named(n, "jitter") then Some(c.env.float(Text(c, n))) else None
  {
    if n.Leaf? {
      RetryKeys(n.d.key);
      assert Kept(Text(c, n)) == Some(Some(Text(c, n)));
    }
  }

  /** A flag in words, upper or lower case. */
  function Flag(text: Option<string>): Option<bool> {
    if text.None? then None
    else if Lower(text.value) in ["true", "yes", "on", "1"] then Some(true)
    else if Lower(text.value) in ["false", "no", "off", "0"] then Some(false)
    else None
  }

  lemma DeadLetterWords(c: Context, n: Node)
    ensures DeadLetterSaid(c, Enabled, FlagRead)(n) == if Named(n, "enabled") then Flag(FirstArg(c, n.d)) else None
    ensures DeadLetterSaid(c, Retention, DurationRead)(n)
         == if Named(n, "retention") then Some(DurationArg(c, n.d)) else None
    ensures DeadLetterSaid(c, OperatorHint, FirstRead)(n)
         == if Named(n, "operator_hint") then Some(FirstArg(c, n.d)) else None
    ensures DeadLetterSaid(c, ReplayMaxAge, DurationRead)(n)
         == if Named(n, "replay_max_age") then Some(DurationArg(c, n.d)) else None
  {
    if n.Leaf? {
      DeadLetterKeys(n.d.key);
      var first, duration := FirstArg(c, n.d), DurationArg(c, n.d);
      assert FlagRead(first, duration) == Flag(first);
      assert FirstRead(first, duration) == Some(first) && DurationRead(first, duration) == Some(duration);
    }
  }

  // ----- Durations -----

  /** Trimming takes the blanks off both ends, and nothing else. */
  lemma {:induction false} TrimExact(s: string) returns (before: string, after: string)
    ensures s == before + Trim(s) + after
    ensures forall c :: c in before + after ==> IsSpace(c)
    ensures Trim(s) != "" ==> !IsSpace(Trim(s)[0]) && !IsSpace(Trim(s)[|Trim(s)| - 1])
    decreases |s|
  {
    before, after := "", "";
    if s != [] && IsSpace(s[0]) {
      var b, a := TrimExact(s[1..]);
      FrontTrims(s, b, Trim(s[1..]), a);
      before, after := [s[0]] + b, a;
    } else if s != [] && IsSpace(s[|s| - 1]) {
      var b, a := TrimExact(s[..|s| - 1]);
      BackTrims(s, b, Trim(s[..|s| - 1]), a);
      before, after := b, a + [s[|s| - 1]];
    }
  }

  lemma FrontTrims(s: string, b: string, t: string, a: string)
    requires s != [] && s[1..] == b + t + a
    ensures s == ([s[0]] + b) + t + a
  {
    assert s == [s[0]] + s[1..];
  }

  lemma BackTrims(s: string, b: string, t: string, a: string)
    requires s != [] && s[..|s| - 1] == b + t + a
    ensures s == b + t + (a + [s[|s| - 1]])
  {
    assert s == s[..|s| - 1] + [s[|s| - 1]];
  }

  /** How many milliseconds the word for a unit stands for. */
  function WordMillis(word: string): Option<nat> {
    Entry([("millisecond", 1), ("second", 1_000), ("minute", 60_000), ("hour", 3_600_000), ("day", 86_400_000)],
          Some(if word != [] && word[|word| - 1] == 's' then word[..|word| - 1] else word))
  }

  /** A number of a unit, in milliseconds; none if it is not a number or does not fit 64 bits. */
  function Millis(digits: string, unit: nat): Option<nat> {
    var n := ParseBounded(digits, 0x1_0000_0000_0000_0000);
    if n.Some? && n.value * unit < 0x1_0000_0000_0000_0000 then Some(n.value * unit) else None
  }

  predicate EndsIn(s: string, suffix: string) {
    |suffix| <= |s| && s[|s| - |suffix|..] == suffix
  }

  /** The runtime's reading of a compact duration such as `500ms` or `4h`, in milliseconds. */
  function ReadDuration(text: string): Option<nat> {
    var s := Trim(text);
    if EndsIn(s, "ms") then Millis(s[..|s| - 2], 1)
    else if EndsIn(s, "s") then Millis(s[..|s| - 1], 1_000)
    else if EndsIn(s, "m") then Millis(s[..|s| - 1], 60_000)
    else if EndsIn(s, "h") then Millis(s[..|s| - 1], 3_600_000)
    else if EndsIn(s, "d") then Millis(s[..|s| - 1], 86_400_000)
    else Millis(s, 1_000)
  }

  function SuffixMillis(suffix: string): nat {
    if suffix == "ms" then 1 else if suffix == "s" then 1_000 else if suffix == "m" then 60_000
    else if suffix == "h" then 3_600_000 else 86_400_000
  }

  lemma EntryFive<T>(a: string, u: T, b: string, v: T, d: string, x: T, e: string, y: T, f: string, z: T, text: string)
    ensures Entry([(a, u), (b, v), (d, x), (e, y), (f, z)], Some(text))
         == if text == a then Some(u) else if text == b then Some(v) else if text == d then Some(x)
            else if text == e then Some(y) else if text == f then Some(z) else None
  {
    assert [(a, u), (b, v), (d, x), (e, y), (f, z)][1..] == [(b, v), (d, x), (e, y), (f, z)];
    assert [(b, v), (d, x), (e, y), (f, z)][1..] == [(d, x), (e, y), (f, z)];
    EntryThree(d, x, e, y, f, z, Some(text));
  }

  lemma Plural(word: string, one: string, many: string)
    requires many == one + ['s'] && one != [] && one[|one| - 1] != 's'
    ensures (if word != [] && word[|word| - 1] == 's' then word[..|word| - 1] else word) == one
       <==> word == one || word == many
  {
    if word != [] && word[|word| - 1] == 's' {
      assert word == word[..|word| - 1] + ['s'];
      assert many[..|many| - 1] == one;
    }
  }

  /** Each word for a unit, singular or plural, has the suffix for as many milliseconds, and no other word has any. */
  lemma UnitWords(word: string)
    ensures WordMillis(word) == if UnitSuffix(word).Some? then Some(SuffixMillis(UnitSuffix(word).value)) else None
    ensures UnitSuffix(word).Some? ==> UnitSuffix(word).value in {"ms", "s", "m", "h", "d"}
  {
    var one := if word != [] && word[|word| - 1] == 's' then word[..|word| - 1] else word;
    EntryFive<nat>("millisecond", 1, "second", 1_000, "minute", 60_000, "hour", 3_600_000, "day", 86_400_000, one);
    Plural(word, "millisecond", "milliseconds");
    Plural(word, "second", "seconds");
    Plural(word, "minute", "minutes");
    Plural(word, "hour", "hours");
    Plural(word, "day", "days");
    UnitLengths();
    SuffixTable();
    assert WordMillis(word)
        == if one == "millisecond" then Some(1) else if one == "second" then Some(1_000)
           else if one == "minute" then Some(60_000) else if one == "hour" then Some(3_600_000)
           else if one == "day" then Some(86_400_000) else None;
  }

  lemma SuffixTable()
    ensures SuffixMillis("ms") == 1 && SuffixMillis("s") == 1_000 && SuffixMillis("m") == 60_000
    ensures SuffixMillis("h") == 3_600_000 && SuffixMillis("d") == 86_400_000
  {
    UnitLengths();
  }

  lemma UnitLengths()
    ensures |"millisecond"| == 11 && |"second"| == 6 && |"minute"| == 6 && |"hour"| == 4 && |"day"| == 3
    ensures "second"[0] == 's' && "minute"[0] == 'm' && |"ms"| == 2 && |"s"| == |"m"| == |"h"| == |"d"| == 1
    ensures "s"[0] == 's' && "m"[0] == 'm' && "h"[0] == 'h' && "d"[0] == 'd'
  {
  }

  lemma Trimmed(s: string)
    requires s != [] && !IsSpace(s[0]) && !IsSpace(s[|s| - 1])
    ensures Trim(s) == s
  {
  }

  lemma NumberEnds(digits: string)
    requires ParseBounded(digits, 0x1_0000_0000_0000_0000).Some?
    ensures digits != [] && !IsSpace(digits[0]) && '0' <= digits[|digits| - 1] <= '9'
  {
    var rest := if digits[0] == '+' then digits[1..] else digits;
    assert rest[|rest| - 1] in rest && rest[0] in rest;
  }

  lemma EndsInLetter(s: string, c: char)
    requires s != []
    ensures EndsIn(s, [c]) <==> s[|s| - 1] == c
  {
    assert s[|s| - 1..] == [s[|s| - 1]];
  }

  lemma EndsInMillis(s: string)
    requires |s| >= 2
    ensures EndsIn(s, "ms") <==> s[|s| - 2] == 'm' && s[|s| - 1] == 's'
  {
    assert s[|s| - 2..] == [s[|s| - 2], s[|s| - 1]];
  }

  lemma LetterReads(digits: string, c: char)
    requires ParseBounded(digits, 0x1_0000_0000_0000_0000).Some? && c in {'s', 'm', 'h', 'd'}
    ensures ReadDuration(digits + [c])
         == Millis(digits, if c == 's' then 1_000 else if c == 'm' then 60_000 else if c == 'h' then 3_600_000
                           else 86_400_000)
  {
    var s := digits + [c];
    NumberEnds(digits);
    Trimmed(s);
    EndsInMillis(s);
    EndsInLetter(s, 's');
    EndsInLetter(s, 'm');
    EndsInLetter(s, 'h');
    EndsInLetter(s, 'd');
    assert s[..|s| - 1] == digits;
  }

  lemma MillisRead(digits: string)
    requires ParseBounded(digits, 0x1_0000_0000_0000_0000).Some?
    ensures ReadDuration(digits + "ms") == Millis(digits, 1)
  {
    var s := digits + "ms";
    NumberEnds(digits);
    Trimmed(s);
    EndsInMillis(s);
    assert s[..|s| - 2] == digits;
  }

  lemma CompactReads(digits: string, suffix: string)
    requires ParseBounded(digits, 0x1_0000_0000_0000_0000).Some? && suffix in {"ms", "s", "m", "h", "d"}
    ensures ReadDuration(digits + suffix) == Millis(digits, SuffixMillis(suffix))
  {
    UnitLengths();
    SuffixTable();
    if suffix == "ms" {
      MillisRead(digits);
    } else {
      assert suffix == [suffix[0]];
      LetterReads(digits, suffix[0]);
    }
  }

  /** A duration in words is compiled to a text the runtime reads as exactly that many milliseconds. */
  lemma DurationInWords(c: Context, d: Directive, first: string)
    requires |d.args| == 2 && first == ResolveStr(c.env, d.args[0], c.vars)
    requires ParseBounded(Trim(first), 0x1_0000_0000_0000_0000).Some?
    ensures var word := ResolveStr(c.env, d.args[1], c.vars);
            if WordMillis(word).Some?
            then DurationArg(c, d).Some?
                 && ReadDuration(DurationArg(c, d).value) == Millis(Trim(first), WordMillis(word).value)
            else DurationArg(c, d) == Some(first)
  {
    var word := ResolveStr(c.env, d.args[1], c.vars);
    UnitWords(word);
    if UnitSuffix(word).Some? {
      CompactReads(Trim(first), UnitSuffix(word).value);
    }
  }

  /** Any other duration is passed on as written. */
  lemma DurationAsWritten(c: Context, d: Directive)
    requires |d.args| != 2 || ParseBounded(Trim(ResolveStr(c.env, d.args[0], c.vars)), 0x1_0000_0000_0000_0000).None?
    ensures DurationArg(c, d) == if d.args == [] then None else Some(ResolveStr(c.env, d.args[0], c.vars))
  {
  }
}
