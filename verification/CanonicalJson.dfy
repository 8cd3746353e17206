/**
 JSON values and their canonical text: every object's keys in sorted order,
 recursively. The text is equal exactly for values that are equal as JSON.
 */
module CanonicalJson {
  import opened Sequences
  import opened KeyOrder
  import opened JsonScalars

  /**
   A JSON value. An object is the list of its entries in whatever order the
   map that holds it yields them; a float is the text it is printed as.
   */
  datatype Value =
    | Null
    | Bool(b: bool)
    | Int(n: int)
    | Float(text: string)
    | Str(s: string)
    | Array(items: seq<Value>)
    | Object(entries: seq<Entry>)

  datatype Entry = Entry(key: string, value: Value)

  function Keys(es: seq<Entry>): (keys: seq<string>)
    ensures |keys| == |es| && forall i :: 0 <= i < |es| ==> keys[i] == es[i].key
  {
    seq(|es|, i requires 0 <= i < |es| => es[i].key)
  }

  predicate Has(es: seq<Entry>, k: string) {
    exists i :: 0 <= i < |es| && es[i].key == k
  }

  lemma HasIffInKeys(es: seq<Entry>, k: string)
    ensures Has(es, k) <==> k in Keys(es)
  {
    if Has(es, k) {
      var i :| 0 <= i < |es| && es[i].key == k;
      assert Keys(es)[i] == k;
    }
  }

  function Find(es: seq<Entry>, k: string): (i: nat)
    requires Has(es, k)
    ensures i < |es| && es[i].key == k
  {
    if es[0].key == k then 0
    else
      assert exists i :: 0 <= i < |es[1..]| && es[1..][i].key == k by {
        var i :| 0 <= i < |es| && es[i].key == k;
        assert es[1..][i - 1].key == k;
      }
      1 + Find(es[1..], k)
  }

  /** Floats carry float text, and no object repeats a key. */
  predicate Valid(v: Value) {
    match v
    case Float(text) => IsFloatText(text)
    case Array(items) => forall i :: 0 <= i < |items| ==> Valid(items[i])
    case Object(es) => Distinct(Keys(es)) && forall i :: 0 <= i < |es| ==> Valid(es[i].value)
    case _ => true
  }

  /** Equality of JSON values: objects are compared as maps, at every depth. */
  ghost predicate SameValue(v: Value, w: Value) {
    match v
    case Array(items) =>
      && w.Array? && |items| == |w.items|
      && forall i :: 0 <= i < |items| ==> SameValue(items[i], w.items[i])
    case Object(es) =>
      && w.Object?
      && (forall k :: Has(es, k) <==> Has(w.entries, k))
      && (forall k :: Has(es, k) ==>
            SameValue(es[Find(es, k)].value, w.entries[Find(w.entries, k)].value))
    case _ => v == w
  }

  // ----- Rendering -----

  function KeyList(es: seq<Entry>, sorted: bool): (keys: seq<string>)
    ensures forall k :: k in keys <==> Has(es, k)
  {
    assert forall k :: k in Keys(es) <==> Has(es, k) by {
      forall k ensures k in Keys(es) <==> Has(es, k) { HasIffInKeys(es, k); }
    }
    if sorted then Sort(Keys(es)) else Keys(es)
  }

  /**
   The text of a value, followed by `rest`; `sorted` says whether object keys
   are sorted first.
   */
  function Text(v: Value, sorted: bool, rest: string): string
    decreases v, 1, 0
  {
    match v
    case Null => "null" + rest
    case Bool(b) => (if b then "true" else "false") + rest
    case Int(n) => Decimal(n) + rest
    case Float(text) => text + rest
    case Str(s) => Quote(s, rest)
    case Array(_) => ['['] + Elements(v, 0, sorted, rest)
    case Object(es) => ['{'] + Members(v, KeyList(es, sorted), 0, sorted, rest)
  }

  function Comma(i: nat): string {
    if i > 0 then [','] else []
  }

  function Elements(v: Value, i: nat, sorted: bool, rest: string): string
    requires v.Array? && i <= |v.items|
    decreases v, 0, |v.items| - i
  {
    if i == |v.items| then [']'] + rest
    else Comma(i) + Text(v.items[i], sorted, Elements(v, i + 1, sorted, rest))
  }

  function Members(v: Value, keys: seq<string>, i: nat, sorted: bool, rest: string): string
    requires v.Object? && i <= |keys|
    requires forall k :: k in keys ==> Has(v.entries, k)
    decreases v, 0, |keys| - i
  {
    if i == |keys| then ['}'] + rest
    else
      var value := v.entries[Find(v.entries, keys[i])].value;
      Comma(i) + Quote(keys[i], [':'] + Text(value, sorted, Members(v, keys, i + 1, sorted, rest)))
  }

  function Canonical(v: Value): string {
    Text(v, true, [])
  }

  // ----- Equal values have equal canonical text -----

  lemma KeyListIgnoresOrder(es: seq<Entry>, fs: seq<Entry>)
    requires Distinct(Keys(es)) && Distinct(Keys(fs))
    requires forall k :: Has(es, k) <==> Has(fs, k)
    ensures KeyList(es, true) == KeyList(fs, true)
  {
    forall k
      ensures k in Keys(es) <==> k in Keys(fs)
    {
      HasIffInKeys(es, k);
      HasIffInKeys(fs, k);
    }
    SortIgnoresOrder(Keys(es), Keys(fs));
  }

  lemma {:induction false} SameValueSameText(v: Value, w: Value, rest: string)
    requires Valid(v) && Valid(w) && SameValue(v, w)
    ensures Text(v, true, rest) == Text(w, true, rest)
    decreases v, 1, 0
  {
    match v
    case Array(_) => SameElements(v, w, 0, rest);
    case Object(es) =>
      KeyListIgnoresOrder(es, w.entries);
      SameMembersText(v, w, KeyList(es, true), 0, rest);
    case _ =>
  }

  lemma {:induction false} SameElements(v: Value, w: Value, i: nat, rest: string)
    requires v.Array? && Valid(v) && Valid(w) && SameValue(v, w) && i <= |v.items|
    ensures Elements(v, i, true, rest) == Elements(w, i, true, rest)
    decreases v, 0, |v.items| - i
  {
    if i < |v.items| {
      SameElements(v, w, i + 1, rest);
      SameValueSameText(v.items[i], w.items[i], Elements(v, i + 1, true, rest));
    }
  }

  lemma {:induction false} SameMembersText(v: Value, w: Value, keys: seq<string>, i: nat, rest: string)
    requires v.Object? && Valid(v) && Valid(w) && SameValue(v, w) && i <= |keys|
    requires forall k :: k in keys ==> Has(v.entries, k)
    ensures Members(v, keys, i, true, rest) == Members(w, keys, i, true, rest)
    decreases v, 0, |keys| - i
  {
    if i < |keys| {
      var k := keys[i];
      SameMembersText(v, w, keys, i + 1, rest);
      SameValueSameText(v.entries[Find(v.entries, k)].value, w.entries[Find(w.entries, k)].value,
                        Members(v, keys, i + 1, true, rest));
    }
  }

  // ----- Equal text means equal values -----

  /** What can follow a value inside a larger text: a delimiter, or nothing. */
  predicate Stops(x: string) {
    x == [] || x[0] == ',' || x[0] == ']' || x[0] == '}'
  }

  datatype Shape = NullS | TrueS | FalseS | NumberS | StrS | ArrayS | ObjectS | NoS

  function ShapeOf(v: Value): Shape {
    match v
    case Null => NullS
    case Bool(b) => if b then TrueS else FalseS
    case Int(_) => NumberS
    case Float(_) => NumberS
    case Str(_) => StrS
    case Array(_) => ArrayS
    case Object(_) => ObjectS
  }

  function ShapeFrom(c: char): Shape {
    if c == 'n' then NullS else if c == 't' then TrueS else if c == 'f' then FalseS
    else if IsDigit(c) || c == '-' then NumberS
    else if c == '"' then StrS else if c == '[' then ArrayS else if c == '{' then ObjectS
    else NoS
  }

  /** The first character of a value's text gives its shape away. */
  lemma FirstChar(v: Value, sorted: bool, x: string)
    requires Valid(v)
    ensures Text(v, sorted, x) != [] && ShapeFrom(Text(v, sorted, x)[0]) == ShapeOf(v)
  {
    if v.Float? {
      NumberShape(v.text);
    }
  }

  /**
   No rendering followed by a delimiter or the end can be taken for another:
   the value and the place where its text ends are both determined.
   */
  lemma {:induction false} Unambiguous(v: Value, w: Value, x: string, y: string, sorted: bool)
    requires Valid(v) && Valid(w) && Stops(x) && Stops(y)
    requires Text(v, sorted, x) == Text(w, sorted, y)
    ensures SameValue(v, w) && x == y
    decreases v, 2, 0
  {
    FirstChar(v, sorted, x);
    FirstChar(w, sorted, y);
    assert ShapeOf(v) == ShapeOf(w);
    match v
    case Array(_) => ArrayUnambiguous(v, w, x, y, sorted);
    case Object(_) => ObjectUnambiguous(v, w, x, y, sorted);
    case Int(_) => NumberUnambiguous(v, w, x, y);
    case Float(_) => NumberUnambiguous(v, w, x, y);
    case Str(s) => QuoteUnambiguous(s, w.s, x, y);
    case Null => SamePrefix("null", x, y);
    case Bool(b) => SamePrefix(if b then "true" else "false", x, y);
  }

  lemma NumberTexts(s: string)
    requires IsIntegerText(s) || IsFloatText(s)
    ensures forall c :: c in s ==> IsNumberChar(c)
  {
    NumberShape(s);
  }

  lemma NumberUnambiguous(v: Value, w: Value, x: string, y: string)
    requires Valid(v) && Valid(w) && Stops(x) && Stops(y)
    requires ShapeOf(v) == ShapeOf(w) == NumberS
    requires Text(v, true, x) == Text(w, true, y)
    ensures v == w && x == y
  {
    var s := if v.Int? then Decimal(v.n) else v.text;
    var t := if w.Int? then Decimal(w.n) else w.text;
    if v.Int? {
      DecimalScan(v.n);
    }
    if w.Int? {
      DecimalScan(w.n);
    }
    NumberTexts(s);
    NumberTexts(t);
    NumberRunUnambiguous(s, t, x, y);
    if v.Int? && w.Int? {
      DecimalInjective(v.n, w.n);
    }
  }

  /** From position `i` on, the same number of items with the same values. */
  ghost predicate ItemsAgreeFrom(v: Value, w: Value, i: nat)
    requires v.Array? && w.Array? && i <= |v.items|
    decreases |v.items| - i
  {
    if i == |v.items| then |w.items| == i
    else i < |w.items| && SameValue(v.items[i], w.items[i]) && ItemsAgreeFrom(v, w, i + 1)
  }

  lemma {:induction false} ItemsAgreeFromAll(v: Value, w: Value, i: nat)
    requires v.Array? && w.Array? && i <= |v.items| && ItemsAgreeFrom(v, w, i)
    ensures |v.items| == |w.items|
    ensures forall j :: i <= j < |v.items| ==> SameValue(v.items[j], w.items[j])
    decreases |v.items| - i
  {
    if i < |v.items| {
      ItemsAgreeFromAll(v, w, i + 1);
    }
  }

  lemma {:induction false} ArrayUnambiguous(v: Value, w: Value, x: string, y: string, sorted: bool)
    requires v.Array? && w.Array? && Valid(v) && Valid(w)
    requires Text(v, sorted, x) == Text(w, sorted, y)
    ensures SameValue(v, w) && x == y
    decreases v, 1, 0
  {
    SamePrefix(['['], Elements(v, 0, sorted, x), Elements(w, 0, sorted, y));
    ElementsUnambiguous(v, w, 0, x, y, sorted);
    ItemsAgreeFromAll(v, w, 0);
  }

  /** The rest of an array starts with its end, a comma, or (at 0) an element. */
  lemma ElementsHead(v: Value, i: nat, x: string, sorted: bool)
    requires v.Array? && Valid(v) && i <= |v.items|
    ensures var l := Elements(v, i, sorted, x);
            && l != []
            && (l[0] == ']' <==> i == |v.items|)
            && (i > 0 ==> Stops(l))
  {
    if i < |v.items| {
      FirstChar(v.items[i], sorted, Elements(v, i + 1, sorted, x));
    }
  }

  /** Equal remainders of two arrays, both with an element at `i`: strip the comma. */
  lemma SplitElement(v: Value, w: Value, i: nat, x: string, y: string, sorted: bool)
    requires v.Array? && w.Array? && Valid(v) && Valid(w)
    requires i < |v.items| && i < |w.items|
    requires Elements(v, i, sorted, x) == Elements(w, i, sorted, y)
    ensures Stops(Elements(v, i + 1, sorted, x)) && Stops(Elements(w, i + 1, sorted, y))
    ensures Text(v.items[i], sorted, Elements(v, i + 1, sorted, x))
         == Text(w.items[i], sorted, Elements(w, i + 1, sorted, y))
  {
    var x', y' := Elements(v, i + 1, sorted, x), Elements(w, i + 1, sorted, y);
    SamePrefix(Comma(i), Text(v.items[i], sorted, x'), Text(w.items[i], sorted, y'));
    ElementsHead(v, i + 1, x, sorted);
    ElementsHead(w, i + 1, y, sorted);
  }

  lemma {:induction false} ElementsUnambiguous(v: Value, w: Value, i: nat, x: string, y: string, sorted: bool)
    requires v.Array? && w.Array? && Valid(v) && Valid(w)
    requires i <= |v.items| && i <= |w.items|
    requires Elements(v, i, sorted, x) == Elements(w, i, sorted, y)
    ensures ItemsAgreeFrom(v, w, i) && x == y
    decreases v, 0, |v.items| - i, 1
  {
    ElementsHead(v, i, x, sorted);
    ElementsHead(w, i, y, sorted);
    if i == |v.items| {
      SamePrefix([']'], x, y);
    } else {
      ElementUnambiguous(v, w, i, x, y, sorted);
      ElementsUnambiguous(v, w, i + 1, x, y, sorted);
    }
  }

  lemma {:induction false} ElementUnambiguous(v: Value, w: Value, i: nat, x: string, y: string, sorted: bool)
    requires v.Array? && w.Array? && Valid(v) && Valid(w)
    requires i < |v.items| && i < |w.items|
    requires Elements(v, i, sorted, x) == Elements(w, i, sorted, y)
    ensures SameValue(v.items[i], w.items[i])
    ensures Elements(v, i + 1, sorted, x) == Elements(w, i + 1, sorted, y)
    decreases v, 0, |v.items| - i, 0
  {
    SplitElement(v, w, i, x, y, sorted);
    Unambiguous(v.items[i], w.items[i],
                Elements(v, i + 1, sorted, x), Elements(w, i + 1, sorted, y), sorted);
  }

  function ValueAt(v: Value, k: string): Value
    requires v.Object? && Has(v.entries, k)
  {
    v.entries[Find(v.entries, k)].value
  }

  ghost predicate AgreeOn(v: Value, w: Value, k: string)
    requires v.Object? && w.Object?
  {
    Has(v.entries, k) && Has(w.entries, k) && SameValue(ValueAt(v, k), ValueAt(w, k))
  }

  lemma {:induction false} ObjectUnambiguous(v: Value, w: Value, x: string, y: string, sorted: bool)
    requires v.Object? && w.Object? && Valid(v) && Valid(w)
    requires Text(v, sorted, x) == Text(w, sorted, y)
    ensures SameValue(v, w) && x == y
    decreases v, 1, 0
  {
    var keys, keys' := KeyList(v.entries, sorted), KeyList(w.entries, sorted);
    SamePrefix(['{'], Members(v, keys, 0, sorted, x), Members(w, keys', 0, sorted, y));
    MembersUnambiguous(v, w, keys, keys', 0, x, y, sorted);
    AgreeingObjects(v, w, keys, keys');
  }

  /** From position `i` on, the same keys with the same values. */
  ghost predicate AgreeFrom(v: Value, w: Value, keys: seq<string>, keys': seq<string>, i: nat)
    requires v.Object? && w.Object? && i <= |keys|
    decreases |keys| - i
  {
    if i == |keys| then |keys'| == i
    else i < |keys'| && keys[i] == keys'[i] && AgreeOn(v, w, keys[i]) && AgreeFrom(v, w, keys, keys', i + 1)
  }

  lemma {:induction false} AgreeFromAll(v: Value, w: Value, keys: seq<string>, keys': seq<string>, i: nat)
    requires v.Object? && w.Object? && i <= |keys| && AgreeFrom(v, w, keys, keys', i)
    ensures |keys| == |keys'|
    ensures forall j :: i <= j < |keys| ==> keys[j] == keys'[j] && AgreeOn(v, w, keys[j])
    decreases |keys| - i
  {
    if i < |keys| {
      AgreeFromAll(v, w, keys, keys', i + 1);
    }
  }

  lemma AgreeingObjects(v: Value, w: Value, keys: seq<string>, keys': seq<string>)
    requires v.Object? && w.Object?
    requires forall k :: k in keys <==> Has(v.entries, k)
    requires forall k :: k in keys' <==> Has(w.entries, k)
    requires AgreeFrom(v, w, keys, keys', 0)
    ensures SameValue(v, w)
  {
    AgreeFromAll(v, w, keys, keys', 0);
    assert keys == keys';
    forall k | Has(v.entries, k)
      ensures AgreeOn(v, w, k)
    {
      var j :| 0 <= j < |keys| && keys[j] == k;
    }
  }

  /** The rest of an object starts with its end, a comma, or (at 0) a quoted key. */
  lemma MembersHead(v: Value, keys: seq<string>, i: nat, x: string, sorted: bool)
    requires v.Object? && i <= |keys|
    requires forall k :: k in keys ==> Has(v.entries, k)
    ensures var l := Members(v, keys, i, sorted, x);
            && l != []
            && (l[0] == '}' <==> i == |keys|)
            && (i > 0 ==> Stops(l))
  {
  }

  /** Equal remainders of two objects, both with a member at `i`: the same key, then values. */
  lemma SplitMember(
      v: Value, w: Value, keys: seq<string>, keys': seq<string>, i: nat, x: string, y: string, sorted: bool)
    requires v.Object? && w.Object? && i < |keys| && i < |keys'|
    requires forall k :: k in keys ==> Has(v.entries, k)
    requires forall k :: k in keys' ==> Has(w.entries, k)
    requires Members(v, keys, i, sorted, x) == Members(w, keys', i, sorted, y)
    ensures keys[i] == keys'[i]
    ensures Stops(Members(v, keys, i + 1, sorted, x)) && Stops(Members(w, keys', i + 1, sorted, y))
    ensures Text(ValueAt(v, keys[i]), sorted, Members(v, keys, i + 1, sorted, x))
         == Text(ValueAt(w, keys[i]), sorted, Members(w, keys', i + 1, sorted, y))
  {
    var s := Text(ValueAt(v, keys[i]), sorted, Members(v, keys, i + 1, sorted, x));
    var t := Text(ValueAt(w, keys'[i]), sorted, Members(w, keys', i + 1, sorted, y));
    SamePrefix(Comma(i), Quote(keys[i], [':'] + s), Quote(keys'[i], [':'] + t));
    QuoteUnambiguous(keys[i], keys'[i], [':'] + s, [':'] + t);
    SamePrefix([':'], s, t);
    MembersHead(v, keys, i + 1, x, sorted);
    MembersHead(w, keys', i + 1, y, sorted);
  }

  lemma {:induction false} MembersUnambiguous(
      v: Value, w: Value, keys: seq<string>, keys': seq<string>, i: nat, x: string, y: string, sorted: bool)
    requires v.Object? && w.Object? && Valid(v) && Valid(w)
    requires i <= |keys| && i <= |keys'|
    requires forall k :: k in keys ==> Has(v.entries, k)
    requires forall k :: k in keys' ==> Has(w.entries, k)
    requires Members(v, keys, i, sorted, x) == Members(w, keys', i, sorted, y)
    ensures AgreeFrom(v, w, keys, keys', i) && x == y
    decreases v, 0, |keys| - i, 1
  {
    MembersHead(v, keys, i, x, sorted);
    MembersHead(w, keys', i, y, sorted);
    if i == |keys| {
      SamePrefix(['}'], x, y);
    } else {
      MemberUnambiguous(v, w, keys, keys', i, x, y, sorted);
      MembersUnambiguous(v, w, keys, keys', i + 1, x, y, sorted);
    }
  }

  lemma {:induction false} MemberUnambiguous(
      v: Value, w: Value, keys: seq<string>, keys': seq<string>, i: nat, x: string, y: string, sorted: bool)
    requires v.Object? && w.Object? && Valid(v) && Valid(w)
    requires i < |keys| && i < |keys'|
    requires forall k :: k in keys ==> Has(v.entries, k)
    requires forall k :: k in keys' ==> Has(w.entries, k)
    requires Members(v, keys, i, sorted, x) == Members(w, keys', i, sorted, y)
    ensures keys[i] == keys'[i] && AgreeOn(v, w, keys[i])
    ensures Members(v, keys, i + 1, sorted, x) == Members(w, keys', i + 1, sorted, y)
    decreases v, 0, |keys| - i, 0
  {
    SplitMember(v, w, keys, keys', i, x, y, sorted);
    Unambiguous(ValueAt(v, keys[i]), ValueAt(w, keys[i]),
                Members(v, keys, i + 1, sorted, x), Members(w, keys', i + 1, sorted, y), sorted);
  }

  /** Two values have the same canonical text exactly when they are equal as JSON. */
  lemma CanonicalExact(v: Value, w: Value)
    requires Valid(v) && Valid(w)
    ensures Canonical(v) == Canonical(w) <==> SameValue(v, w)
  {
    if SameValue(v, w) {
      SameValueSameText(v, w, []);
    }
    if Canonical(v) == Canonical(w) {
      Unambiguous(v, w, [], [], true);
    }
  }

  // ----- The writer -----

  lemma {:induction false} BodyThen(s: string, x: string, y: string)
    ensures Body(s, x) + y == Body(s, x + y)
    decreases |s|
  {
    if s == [] {
      assert ['"'] + x + y == ['"'] + (x + y);
    } else {
      BodyThen(s[1..], x, y);
      assert EscapeChar(s[0]) + Body(s[1..], x) + y == EscapeChar(s[0]) + (Body(s[1..], x) + y);
    }
  }

  lemma QuoteThen(s: string, x: string, y: string)
    ensures Quote(s, x) + y == Quote(s, x + y)
  {
    BodyThen(s, x, y);
    assert ['"'] + Body(s, x) + y == ['"'] + (Body(s, x) + y);
  }

  lemma Regroup(a: string, b: string, c: string, d: string)
    ensures a + b + c + d == a + (b + (c + d))
  {
  }

  /** What follows a text plays no part in it. */
  lemma {:induction false} TextThen(v: Value, sorted: bool, x: string, y: string)
    ensures Text(v, sorted, x) + y == Text(v, sorted, x + y)
    decreases v, 1, 0
  {
    match v
    case Null => Assoc("null", x, y);
    case Bool(b) => Assoc(if b then "true" else "false", x, y);
    case Int(n) => Assoc(Decimal(n), x, y);
    case Float(text) => Assoc(text, x, y);
    case Str(s) => QuoteThen(s, x, y);
    case Array(_) =>
      ElementsThen(v, 0, sorted, x, y);
      Assoc(['['], Elements(v, 0, sorted, x), y);
    case Object(es) =>
      MembersThen(v, KeyList(es, sorted), 0, sorted, x, y);
      Assoc(['{'], Members(v, KeyList(es, sorted), 0, sorted, x), y);
  }

  lemma {:induction false} ElementsThen(v: Value, i: nat, sorted: bool, x: string, y: string)
    requires v.Array? && i <= |v.items|
    ensures Elements(v, i, sorted, x) + y == Elements(v, i, sorted, x + y)
    decreases v, 0, |v.items| - i
  {
    if i == |v.items| {
      Assoc([']'], x, y);
    } else {
      var rest := Elements(v, i + 1, sorted, x);
      ElementsThen(v, i + 1, sorted, x, y);
      TextThen(v.items[i], sorted, rest, y);
      Assoc(Comma(i), Text(v.items[i], sorted, rest), y);
    }
  }

  lemma {:induction false} MembersThen(v: Value, keys: seq<string>, i: nat, sorted: bool, x: string, y: string)
    requires v.Object? && i <= |keys|
    requires forall k :: k in keys ==> Has(v.entries, k)
    ensures Members(v, keys, i, sorted, x) + y == Members(v, keys, i, sorted, x + y)
    decreases v, 0, |keys| - i
  {
    if i == |keys| {
      Assoc(['}'], x, y);
    } else {
      var value := ValueAt(v, keys[i]);
      var rest := Members(v, keys, i + 1, sorted, x);
      MembersThen(v, keys, i + 1, sorted, x, y);
      TextThen(value, sorted, rest, y);
      Assoc([':'], Text(value, sorted, rest), y);
      QuoteThen(keys[i], [':'] + Text(value, sorted, rest), y);
      Assoc(Comma(i), Quote(keys[i], [':'] + Text(value, sorted, rest)), y);
    }
  }

  lemma ElementWritten(v: Value, i: nat, out: string)
    requires v.Array? && i < |v.items|
    ensures out + Comma(i) + Canonical(v.items[i]) + Elements(v, i + 1, true, [])
         == out + Elements(v, i, true, [])
  {
    var rest := Elements(v, i + 1, true, []);
    TextThen(v.items[i], true, [], rest);
    assert [] + rest == rest;
    Regroup(out, Comma(i), Canonical(v.items[i]), rest);
  }

  lemma MemberWritten(v: Value, keys: seq<string>, i: nat, out: string)
    requires v.Object? && i < |keys|
    requires forall k :: k in keys ==> Has(v.entries, k)
    ensures out + Comma(i) + Quote(keys[i], []) + [':'] + Canonical(ValueAt(v, keys[i])) + Members(v, keys, i + 1, true, [])
         == out + Members(v, keys, i, true, [])
  {
    var t, rest := Canonical(ValueAt(v, keys[i])), Members(v, keys, i + 1, true, []);
    TextThen(ValueAt(v, keys[i]), true, [], rest);
    assert [] + rest == rest;
    QuoteThen(keys[i], [], [':'] + (t + rest));
    assert [] + ([':'] + (t + rest)) == [':'] + (t + rest);
    Regroup(Comma(i), Quote(keys[i], []), [':'], t + rest);
    Regroup(out + Comma(i) + Quote(keys[i], []), [':'], t, rest);
    Regroup(out, Comma(i), Quote(keys[i], []), [':'] + (t + rest));
  }

  /** The recursive writer: appends the canonical text of `v` to the buffer. */
  method WriteCanonical(v: Value, buffer: string) returns (out: string)
    ensures out == buffer + Canonical(v)
    decreases v
  {
    match v
    case Object(es) =>
      var keys := Sort(Keys(es));
      assert keys == KeyList(es, true);
      out := buffer + ['{'];
      Assoc(buffer, ['{'], Members(v, keys, 0, true, []));
      for i := 0 to |keys|
        invariant out + Members(v, keys, i, true, []) == buffer + Canonical(v)
      {
        MemberWritten(v, keys, i, out);
        if i > 0 {
          out := out + [','];
        } else {
          assert out + Comma(i) == out;
        }
        out := out + Quote(keys[i], []);
        out := out + [':'];
        out := WriteCanonical(es[Find(es, keys[i])].value, out);
      }
      out := out + ['}'];
    case Array(items) =>
      out := buffer + ['['];
      Assoc(buffer, ['['], Elements(v, 0, true, []));
      for i := 0 to |items|
        invariant out + Elements(v, i, true, []) == buffer + Canonical(v)
      {
        ElementWritten(v, i, out);
        if i > 0 {
          out := out + [','];
        } else {
          assert out + Comma(i) == out;
        }
        out := WriteCanonical(items[i], out);
      }
      out := out + [']'];
    case _ =>
      out := buffer + Canonical(v);
  }
}
