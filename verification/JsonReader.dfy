/**
 A reader of JSON text, written from RFC 8259 and from nothing the writer uses, and
 the proof that it reads every text the writer writes as the value it was written
 for. So the text is JSON, and it is the JSON of that value.
 */
module JsonReader {
  import opened Wrappers
  import opened KeyOrder
  import opened JsonScalars
  import opened CanonicalJson
  import ScheduleText

  // ----- Strings, section 7 of RFC 8259 -----

  /** The two-character escapes, by code point. */
  function ShortEscape(c: char): Option<char> {
    if c == '"' then Some(0x22 as char)
    else if c == '\\' then Some(0x5C as char)
    else if c == '/' then Some(0x2F as char)
    else if c == 'b' then Some(0x08 as char)
    else if c == 'f' then Some(0x0C as char)
    else if c == 'n' then Some(0x0A as char)
    else if c == 'r' then Some(0x0D as char)
    else if c == 't' then Some(0x09 as char)
    else None
  }

  function HexValue(c: char): Option<nat> {
    if '0' <= c <= '9' then Some(c as int - 0x30)
    else if 'a' <= c <= 'f' then Some(c as int - 0x57)
    else if 'A' <= c <= 'F' then Some(c as int - 0x37)
    else None
  }

  /** Four hexadecimal digits. */
  function CodeUnit(s: string): (r: Option<nat>)
    ensures r.Some? ==> r.value < 0x10000 && |s| >= 4
  {
    if |s| < 4 then None
    else
      var a, b, c, d := HexValue(s[0]), HexValue(s[1]), HexValue(s[2]), HexValue(s[3]);
      if a.None? || b.None? || c.None? || d.None? then None
      else
        assert a.value < 16 && b.value < 16 && c.value < 16 && d.value < 16;
        Some(0x1000 * a.value + 0x100 * b.value + 0x10 * c.value + d.value)
  }

  /** What stands after `\u`: a code unit, or the two of a surrogate pair. */
  function UnicodeEscape(s: string): (r: Option<(char, string)>)
    ensures r.Some? ==> |r.value.1| < |s|
  {
    match CodeUnit(s)
    case None => None
    case Some(n) =>
      if n < 0xD800 || n >= 0xE000 then Some((n as char, s[4..]))
      else if n >= 0xDC00 || |s| < 6 || s[4] != '\\' || s[5] != 'u' then None
      else match CodeUnit(s[6..])
        case None => None
        case Some(m) =>
          if 0xDC00 <= m < 0xE000
          then Some(((0x10000 + 0x400 * (n - 0xD800) + (m - 0xDC00)) as char, s[10..]))
          else None
  }

  /** One character of a string, escaped or not; a bare quotation mark ends the string and is none. */
  function ReadChar(s: string): (r: Option<(char, string)>)
    ensures r.Some? ==> |r.value.1| < |s|
  {
    if s == [] || s[0] == '"' || (s[0] as int) < 0x20 then None
    else if s[0] != '\\' then Some((s[0], s[1..]))
    else if |s| < 2 then None
    else if s[1] == 'u' then UnicodeEscape(s[2..])
    else match ShortEscape(s[1])
      case Some(c) => Some((c, s[2..]))
      case None => None
  }

  /** The characters up to the closing quotation mark, and what follows it. */
  function ReadChars(s: string): (r: Option<(string, string)>)
    ensures r.Some? ==> |r.value.1| < |s|
    decreases |s|
  {
    if s != [] && s[0] == '"' then Some(([], s[1..]))
    else match ReadChar(s)
      case None => None
      case Some((c, t)) =>
        match ReadChars(t)
        case None => None
        case Some((more, rest)) => Some(([c] + more, rest))
  }

  function Unquote(s: string): (r: Option<(string, string)>)
    ensures r.Some? ==> |r.value.1| < |s|
  {
    if s != [] && s[0] == '"' then ReadChars(s[1..]) else None
  }

  lemma HexDigitValue(n: nat)
    requires n < 16
    ensures HexValue(HexDigit(n)) == Some(n)
  {
  }

  /** The escape of a character reads as that character, and ends where it ends. */
  lemma EscapeReads(c: char, rest: string)
    ensures ReadChar(EscapeChar(c) + rest) == Some((c, rest))
    ensures (EscapeChar(c) + rest)[0] != '"'
  {
    var e := EscapeChar(c);
    var s := e + rest;
    assert s[|e|..] == rest && forall i :: 0 <= i < |e| ==> s[i] == e[i];
    if |e| == 6 {
      HexDigitValue(c as int / 16);
      HexDigitValue(c as int % 16);
      assert s[2..][4..] == rest && s[2..][0] == '0' && s[2..][1] == '0';
      assert s[2..][2] == e[4] && s[2..][3] == e[5];
    }
  }

  lemma {:induction false} BodyReads(s: string, rest: string)
    ensures ReadChars(Body(s, rest)) == Some((s, rest))
    decreases |s|
  {
    if s == [] {
      assert Body(s, rest)[1..] == rest;
    } else {
      EscapeReads(s[0], Body(s[1..], rest));
      BodyReads(s[1..], rest);
      assert [s[0]] + s[1..] == s;
    }
  }

  /** A string literal reads as the string it was written for, whatever follows it. */
  lemma QuoteReads(s: string, rest: string)
    ensures Unquote(Quote(s, rest)) == Some((s, rest))
  {
    assert Quote(s, rest)[1..] == Body(s, rest);
    BodyReads(s, rest);
  }

  /** And it is escaped no more than it must be: two characters where there is a short escape, six where not. */
  lemma EscapeLength(c: char)
    ensures |EscapeChar(c)| == (if c == '"' || c == '\\' || c as int in {0x08, 0x09, 0x0A, 0x0C, 0x0D} then 2
                                else if c as int < 0x20 then 6 else 1)
  {
  }

  // ----- Numbers, section 6 -----

  /** How many characters of a number a text starts with. */
  function NumberRun(s: string): (n: nat)
    ensures n <= |s|
  {
    if s == [] || !IsNumberChar(s[0]) then 0 else 1 + NumberRun(s[1..])
  }

  function IntegerOf(s: string): int
    requires IsIntegerText(s)
  {
    IntegerDigits(s);
    if s[0] == '-' then -(ScheduleText.Value(s[1..]) as int) else ScheduleText.Value(s)
  }

  lemma {:induction false} WholeDigits(p: Progress, s: string)
    requires p == Start || p == Minus || p == Zero || p == Whole
    requires Scan(p, s) == Zero || Scan(p, s) == Whole
    ensures p != Start ==> ScheduleText.AllDigits(s)
    ensures p == Start && s != [] && s[0] != '-' ==> ScheduleText.AllDigits(s)
    decreases |s|
  {
    if s != [] {
      NotBack(Advance(p, s[0]), s[1..]);
      if !(p == Start && s[0] == '-') {
        WholeDigits(Advance(p, s[0]), s[1..]);
        assert s == [s[0]] + s[1..];
      }
    }
  }

  /** Past the integer part a number never gets back to it. */
  lemma {:induction false} NotBack(p: Progress, s: string)
    ensures !(p == Start || p == Minus || p == Zero || p == Whole) ==> Scan(p, s) != Zero && Scan(p, s) != Whole
    ensures p == Zero && s != [] ==> Scan(p, s) != Zero && Scan(p, s) != Whole
    decreases |s|
  {
    if s != [] {
      NotBack(Advance(p, s[0]), s[1..]);
    }
  }

  lemma IntegerDigits(s: string)
    requires IsIntegerText(s)
    ensures s != []
    ensures if s[0] == '-' then ScheduleText.AllDigits(s[1..]) else ScheduleText.AllDigits(s)
  {
    WholeDigits(Start, s);
    if s[0] == '-' {
      WholeDigits(Minus, s[1..]);
    }
  }

  function ReadNumber(s: string): (r: Option<(Value, string)>)
    ensures r.Some? ==> |r.value.1| < |s| && Valid(r.value.0)
  {
    var n := NumberRun(s);
    if IsIntegerText(s[..n]) then Some((Int(IntegerOf(s[..n])), s[n..]))
    else if IsFloatText(s[..n]) then Some((Float(s[..n]), s[n..]))
    else None
  }

  lemma {:induction false} RunEnds(s: string, rest: string)
    requires forall c :: c in s ==> IsNumberChar(c)
    requires rest == [] || !IsNumberChar(rest[0])
    ensures NumberRun(s + rest) == |s|
    decreases |s|
  {
    if s == [] {
      assert s + rest == rest;
    } else {
      assert s[0] in s && (s + rest)[1..] == s[1..] + rest;
      RunEnds(s[1..], rest);
    }
  }

  lemma RunReads(s: string, rest: string)
    requires forall c :: c in s ==> IsNumberChar(c)
    requires rest == [] || !IsNumberChar(rest[0])
    ensures NumberRun(s + rest) == |s| && (s + rest)[..|s|] == s && (s + rest)[|s|..] == rest
  {
    RunEnds(s, rest);
  }

  lemma IntegerBack(n: int)
    ensures IsIntegerText(Decimal(n)) && IntegerOf(Decimal(n)) == n
  {
    DecimalScan(n);
    var s := Decimal(n);
    if n < 0 {
      assert s[1..] == Digits(-n);
      ScheduleText.ValueDigits(-n);
    } else {
      assert s[0] in Digits(n);
      ScheduleText.ValueDigits(n);
    }
  }

  lemma DecimalReads(n: int, rest: string)
    requires rest == [] || !IsNumberChar(rest[0])
    ensures ReadNumber(Decimal(n) + rest) == Some((Int(n), rest))
  {
    IntegerBack(n);
    NumberTexts(Decimal(n));
    RunReads(Decimal(n), rest);
  }

  lemma FloatReads(s: string, rest: string)
    requires IsFloatText(s) && (rest == [] || !IsNumberChar(rest[0]))
    ensures ReadNumber(s + rest) == Some((Float(s), rest))
  {
    NumberTexts(s);
    RunReads(s, rest);
  }

  // ----- Values, sections 2 to 5 -----

  predicate IsBlank(c: char) {
    c as int == 0x20 || c as int == 0x09 || c as int == 0x0A || c as int == 0x0D
  }

  function Skip(s: string): (t: string)
    ensures |t| <= |s|
  {
    if s != [] && IsBlank(s[0]) then Skip(s[1..]) else s
  }

  /** What follows a word a text starts with. */
  function After(s: string, word: string): (r: Option<string>)
    ensures r.Some? ==> s == word + r.value
  {
    if |word| <= |s| && s[..|word|] == word then Some(s[|word|..]) else None
  }

  /** A value that is a word. */
  function ReadWord(s: string, word: string, v: Value): (r: Option<(Value, string)>)
    requires word != [] && Valid(v)
    ensures r.Some? ==> |r.value.1| < |s| && Valid(r.value.0)
  {
    match After(s, word)
    case Some(rest) => Some((v, rest))
    case None => None
  }

  /** A value, after any blanks, and what follows it. */
  function ReadValue(text: string): (r: Option<(Value, string)>)
    ensures r.Some? ==> |r.value.1| < |text| && Valid(r.value.0)
    decreases |text|, 1
  {
    var s := Skip(text);
    if s == [] then None
    else if s[0] == 'n' then ReadWord(s, "null", Null)
    else if s[0] == 't' then ReadWord(s, "true", Bool(true))
    else if s[0] == 'f' then ReadWord(s, "false", Bool(false))
    else if s[0] == '"' then
      (match Unquote(s)
       case Some((t, rest)) => Some((Str(t), rest))
       case None => None)
    else if s[0] == '[' then
      (match ReadElements(s[1..], true)
       case Some((items, rest)) => Some((Array(items), rest))
       case None => None)
    else if s[0] == '{' then
      (match ReadMembers(s[1..], true)
       case Some((es, rest)) => Some((Object(es), rest))
       case None => None)
    else ReadNumber(s)
  }

  /** The text of the next item of a list that ends with `close`: after a comma, unless it is the first. */
  function NextItem(s: string, first: bool): (r: Option<string>)
    ensures r.Some? ==> |r.value| <= |s|
  {
    if first then Some(s) else if s != [] && s[0] == ',' then Some(s[1..]) else None
  }

  function ReadElements(text: string, first: bool): (r: Option<(seq<Value>, string)>)
    ensures r.Some? ==> |r.value.1| < |text| && forall i :: 0 <= i < |r.value.0| ==> Valid(r.value.0[i])
    decreases |text|, 2
  {
    var s := Skip(text);
    if s != [] && s[0] == ']' then Some(([], s[1..]))
    else match NextItem(s, first)
      case None => None
      case Some(t) =>
        match ReadValue(t)
        case None => None
        case Some((v, u)) =>
          match ReadElements(u, false)
          case None => None
          case Some((more, rest)) => Some(([v] + more, rest))
  }

  /** A name, a colon, and the text of the value. */
  function ReadName(text: string): (r: Option<(string, string)>)
    ensures r.Some? ==> |r.value.1| < |text|
  {
    match Unquote(Skip(text))
    case None => None
    case Some((k, t)) => var u := Skip(t); if u != [] && u[0] == ':' then Some((k, u[1..])) else None
  }

  /** Of entries with one name the last one counts. */
  function AddEntry(k: string, v: Value, es: seq<Entry>): (r: seq<Entry>)
    requires Valid(v) && Valid(Object(es))
    ensures Valid(Object(r))
  {
    if Has(es, k) then es
    else
      HasIffInKeys(es, k);
      assert Keys([Entry(k, v)] + es) == [k] + Keys(es);
      [Entry(k, v)] + es
  }

  function ReadMembers(text: string, first: bool): (r: Option<(seq<Entry>, string)>)
    ensures r.Some? ==> |r.value.1| < |text| && Valid(Object(r.value.0))
    decreases |text|, 2
  {
    var s := Skip(text);
    if s != [] && s[0] == '}' then Some(([], s[1..]))
    else match NextItem(s, first)
      case None => None
      case Some(t) =>
        match ReadName(t)
        case None => None
        case Some((k, u)) =>
          match ReadValue(u)
          case None => None
          case Some((v, w)) =>
            match ReadMembers(w, false)
            case None => None
            case Some((more, rest)) => Some((AddEntry(k, v, more), rest))
  }

  /** A whole document: one value, and nothing but blanks after it. */
  function ReadDocument(text: string): (r: Option<Value>)
    ensures r.Some? ==> Valid(r.value)
  {
    match ReadValue(text)
    case Some((v, rest)) => if Skip(rest) == [] then Some(v) else None
    case None => None
  }

  // ----- What was written is read -----

  lemma NotBlank(s: string)
    requires s != [] && !IsBlank(s[0])
    ensures Skip(s) == s
  {
  }

  lemma AfterWord(word: string, rest: string)
    ensures After(word + rest, word) == Some(rest)
  {
    assert (word + rest)[..|word|] == word && (word + rest)[|word|..] == rest;
  }

  lemma WordStep(word: string, v: Value, rest: string)
    requires (word == "null" && v == Null) || (word == "true" && v == Bool(true))
          || (word == "false" && v == Bool(false))
    ensures ReadValue(word + rest) == Some((v, rest))
  {
    AfterWord(word, rest);
    NotBlank(word + rest);
  }

  lemma StringStep(t: string, rest: string)
    ensures ReadValue(Quote(t, rest)) == Some((Str(t), rest))
  {
    QuoteReads(t, rest);
    NotBlank(Quote(t, rest));
  }

  lemma NumberStep(text: string)
    requires text != [] && (IsDigit(text[0]) || text[0] == '-')
    ensures ReadValue(text) == ReadNumber(text)
  {
    NotBlank(text);
  }

  lemma ScalarReads(v: Value, sorted: bool, rest: string)
    requires Valid(v) && Stops(rest) && !v.Array? && !v.Object?
    ensures ReadValue(Text(v, sorted, rest)) == Some((v, rest))
  {
    match v
    case Null => WordStep("null", v, rest);
    case Bool(b) => WordStep(if b then "true" else "false", v, rest);
    case Int(n) =>
      DecimalReads(n, rest);
      NumberStep(Decimal(n) + rest);
    case Float(text) =>
      FloatReads(text, rest);
      NumberShape(text);
      NumberStep(text + rest);
    case Str(t) => StringStep(t, rest);
  }

  /** The text of a value, followed by what may follow one, reads as that value. */
  ghost predicate Reads(text: string, v: Value, rest: string) {
    var r := ReadValue(text);
    r.Some? && r.value.1 == rest && SameValue(v, r.value.0)
  }

  lemma ArrayStep(text: string, items: seq<Value>, rest: string)
    requires text != [] && text[0] == '[' && ReadElements(text[1..], true) == Some((items, rest))
    ensures ReadValue(text) == Some((Array(items), rest))
  {
    NotBlank(text);
  }

  lemma ObjectStep(text: string, es: seq<Entry>, rest: string)
    requires text != [] && text[0] == '{' && ReadMembers(text[1..], true) == Some((es, rest))
    ensures ReadValue(text) == Some((Object(es), rest))
  {
    NotBlank(text);
  }

  lemma ElementStep(text: string, first: bool, t: string, v: Value, u: string, more: seq<Value>, rest: string)
    requires text != [] && text[0] != ']' && Skip(text) == text && NextItem(text, first) == Some(t)
    requires ReadValue(t) == Some((v, u)) && ReadElements(u, false) == Some((more, rest))
    ensures ReadElements(text, first) == Some(([v] + more, rest))
  {
  }

  lemma MemberStep(
      text: string, first: bool, t: string, k: string, x: string, v: Value, u: string, more: seq<Entry>, rest: string)
    requires text != [] && text[0] != '}' && Skip(text) == text && NextItem(text, first) == Some(t)
    requires ReadName(t) == Some((k, x)) && ReadValue(x) == Some((v, u))
    requires ReadMembers(u, false) == Some((more, rest))
    ensures ReadMembers(text, first) == Some((AddEntry(k, v, more), rest))
  {
  }

  /** The text of a value, whatever may follow one, reads as that value and leaves what follows. */
  lemma {:induction false} TextReads(v: Value, sorted: bool, rest: string)
    requires Valid(v) && Stops(rest)
    ensures Reads(Text(v, sorted, rest), v, rest)
    decreases v, 1, 0
  {
    if v.Array? {
      ArrayReads(v, sorted, rest);
    } else if v.Object? {
      ObjectReads(v, sorted, rest);
    } else {
      ScalarReads(v, sorted, rest);
    }
  }

  lemma {:induction false} ArrayReads(v: Value, sorted: bool, rest: string)
    requires v.Array? && Valid(v)
    ensures Reads(Text(v, sorted, rest), v, rest)
    decreases v, 0, |v.items| + 1
  {
    var inner := Elements(v, 0, sorted, rest);
    ElementsRead(v, 0, sorted, rest);
    var items := ReadElements(inner, true).value.0;
    assert (['['] + inner)[1..] == inner;
    ArrayStep(['['] + inner, items, rest);
    forall i | 0 <= i < |v.items| ensures SameValue(v.items[i], items[i]) {
      assert v.items[0 + i] == v.items[i];
    }
  }

  lemma {:induction false} ObjectReads(v: Value, sorted: bool, rest: string)
    requires v.Object? && Valid(v)
    ensures Reads(Text(v, sorted, rest), v, rest)
    decreases v, 0, |KeyList(v.entries, sorted)| + 1
  {
    var keys := KeyList(v.entries, sorted);
    var inner := Members(v, keys, 0, sorted, rest);
    KeysDistinct(v, sorted);
    MembersRead(v, keys, 0, sorted, rest);
    var es := ReadMembers(inner, true).value.0;
    assert (['{'] + inner)[1..] == inner;
    ObjectStep(['{'] + inner, es, rest);
    ObjectRead(v, keys, es);
  }

  lemma KeysDistinct(v: Value, sorted: bool)
    requires v.Object? && Valid(v)
    ensures Distinct(KeyList(v.entries, sorted))
  {
    if sorted {
      SortAscending(Keys(v.entries));
      AscendingIsDistinct(Sort(Keys(v.entries)));
    }
  }

  lemma {:induction false} AscendingIsDistinct(keys: seq<string>)
    requires Ascending(keys)
    ensures Distinct(keys)
  {
    if keys != [] {
      AscendingIsDistinct(keys[1..]);
      if keys[0] in keys[1..] {
        LessIrreflexive(keys[0]);
      }
    }
  }

  /** From item `i` on, the items read are those written. */
  ghost predicate ItemsRead(v: Value, i: nat, items: seq<Value>)
    requires v.Array? && i <= |v.items|
  {
    |items| == |v.items| - i && forall j :: 0 <= j < |items| ==> SameValue(v.items[i + j], items[j])
  }

  ghost predicate ReadsFrom(v: Value, i: nat, text: string, rest: string)
    requires v.Array? && i <= |v.items|
  {
    var r := ReadElements(text, i == 0);
    r.Some? && r.value.1 == rest && ItemsRead(v, i, r.value.0)
  }

  lemma {:induction false} ElementsRead(v: Value, i: nat, sorted: bool, rest: string)
    requires v.Array? && Valid(v) && i <= |v.items|
    ensures ReadsFrom(v, i, Elements(v, i, sorted, rest), rest)
    decreases v, 0, |v.items| - i
  {
    if i == |v.items| {
      NoElement(v, rest);
    } else {
      var next := Elements(v, i + 1, sorted, rest);
      ElementsHead(v, i + 1, rest, sorted);
      ItemText(v.items[i], i, sorted, next);
      TextReads(v.items[i], sorted, next);
      ElementsRead(v, i + 1, sorted, rest);
      OneElement(v, i, Comma(i) + Text(v.items[i], sorted, next), Text(v.items[i], sorted, next), next, rest);
    }
  }

  lemma NoElement(v: Value, rest: string)
    requires v.Array?
    ensures ReadsFrom(v, |v.items|, [']'] + rest, rest)
  {
    NotBlank([']'] + rest);
    assert ([']'] + rest)[1..] == rest;
  }

  lemma OneElement(v: Value, i: nat, text: string, t: string, next: string, rest: string)
    requires v.Array? && i < |v.items|
    requires text != [] && text[0] != ']' && Skip(text) == text && NextItem(text, i == 0) == Some(t)
    requires Reads(t, v.items[i], next) && ReadsFrom(v, i + 1, next, rest)
    ensures ReadsFrom(v, i, text, rest)
  {
    var item, more := ReadValue(t).value.0, ReadElements(next, false).value.0;
    ElementStep(text, i == 0, t, item, next, more, rest);
    ItemsCons(v, i, item, more);
  }

  lemma BehindComma(i: nat, item: string)
    ensures NextItem(Comma(i) + item, i == 0) == Some(item)
  {
    assert i == 0 ==> Comma(i) + item == item;
    assert i > 0 ==> (Comma(i) + item)[1..] == item;
  }

  /** The reader finds the next item behind the comma the writer put. */
  lemma ItemText(v: Value, i: nat, sorted: bool, next: string)
    requires Valid(v)
    ensures var text := Comma(i) + Text(v, sorted, next);
            text != [] && text[0] != ']' && Skip(text) == text
            && NextItem(text, i == 0) == Some(Text(v, sorted, next))
  {
    FirstChar(v, sorted, next);
    var text := Comma(i) + Text(v, sorted, next);
    BehindComma(i, Text(v, sorted, next));
    NotBlank(text);
  }

  lemma ItemsCons(v: Value, i: nat, w: Value, more: seq<Value>)
    requires v.Array? && i < |v.items| && SameValue(v.items[i], w) && ItemsRead(v, i + 1, more)
    ensures ItemsRead(v, i, [w] + more)
  {
    var items := [w] + more;
    forall j | 0 <= j < |items| ensures SameValue(v.items[i + j], items[j]) {
      if j > 0 {
        assert items[j] == more[j - 1];
        assert v.items[i + j] == v.items[(i + 1) + (j - 1)];
      }
    }
  }

  /** From key `i` on, the entries read are those written, in that order. */
  ghost predicate EntriesRead(v: Value, keys: seq<string>, i: nat, es: seq<Entry>)
    requires v.Object? && i <= |keys| && forall k :: k in keys ==> Has(v.entries, k)
  {
    && Keys(es) == keys[i..]
    && forall j :: 0 <= j < |es| && i + j < |keys| ==> SameValue(ValueAt(v, keys[i + j]), es[j].value)
  }

  ghost predicate EntriesReadFrom(v: Value, keys: seq<string>, i: nat, text: string, rest: string)
    requires v.Object? && i <= |keys| && forall k :: k in keys ==> Has(v.entries, k)
  {
    var r := ReadMembers(text, i == 0);
    r.Some? && r.value.1 == rest && EntriesRead(v, keys, i, r.value.0)
  }

  lemma {:induction false} MembersRead(v: Value, keys: seq<string>, i: nat, sorted: bool, rest: string)
    requires v.Object? && Valid(v) && i <= |keys| && Distinct(keys)
    requires forall k :: k in keys ==> Has(v.entries, k)
    ensures EntriesReadFrom(v, keys, i, Members(v, keys, i, sorted, rest), rest)
    decreases v, 0, |keys| - i
  {
    if i == |keys| {
      NoMember(v, keys, rest);
    } else {
      var next := Members(v, keys, i + 1, sorted, rest);
      var inner := Text(ValueAt(v, keys[i]), sorted, next);
      MembersHead(v, keys, i + 1, rest, sorted);
      ValueAtValid(v, keys[i]);
      TextReads(ValueAt(v, keys[i]), sorted, next);
      MembersRead(v, keys, i + 1, sorted, rest);
      assert Members(v, keys, i, sorted, rest) == Comma(i) + Quote(keys[i], [':'] + inner);
      MemberRead(v, keys, i, inner, next, rest);
    }
  }

  lemma MemberRead(v: Value, keys: seq<string>, i: nat, inner: string, next: string, rest: string)
    requires v.Object? && i < |keys| && Distinct(keys) && forall k :: k in keys ==> Has(v.entries, k)
    requires Reads(inner, ValueAt(v, keys[i]), next) && EntriesReadFrom(v, keys, i + 1, next, rest)
    ensures EntriesReadFrom(v, keys, i, Comma(i) + Quote(keys[i], [':'] + inner), rest)
  {
    var t := Quote(keys[i], [':'] + inner);
    MemberText(keys[i], i, inner);
    OneMember(v, keys, i, Comma(i) + t, t, inner, next, rest);
  }

  lemma NoMember(v: Value, keys: seq<string>, rest: string)
    requires v.Object? && forall k :: k in keys ==> Has(v.entries, k)
    ensures EntriesReadFrom(v, keys, |keys|, ['}'] + rest, rest)
  {
    NotBlank(['}'] + rest);
    assert (['}'] + rest)[1..] == rest;
    assert Keys([]) == [] == keys[|keys|..];
  }

  lemma OneMember(
      v: Value, keys: seq<string>, i: nat, text: string, t: string, inner: string, next: string, rest: string)
    requires v.Object? && i < |keys| && Distinct(keys) && forall k :: k in keys ==> Has(v.entries, k)
    requires text != [] && text[0] != '}' && Skip(text) == text && NextItem(text, i == 0) == Some(t)
    requires ReadName(t) == Some((keys[i], inner))
    requires Reads(inner, ValueAt(v, keys[i]), next) && EntriesReadFrom(v, keys, i + 1, next, rest)
    ensures EntriesReadFrom(v, keys, i, text, rest)
  {
    var value, more := ReadValue(inner).value.0, ReadMembers(next, false).value.0;
    MemberStep(text, i == 0, t, keys[i], inner, value, next, more, rest);
    EntriesCons(v, keys, i, value, more);
  }

  lemma ValueAtValid(v: Value, k: string)
    requires v.Object? && Valid(v) && Has(v.entries, k)
    ensures Valid(ValueAt(v, k))
  {
  }

  lemma MemberText(k: string, i: nat, inner: string)
    ensures var text := Comma(i) + Quote(k, [':'] + inner);
            text != [] && text[0] != '}' && Skip(text) == text
            && NextItem(text, i == 0) == Some(Quote(k, [':'] + inner))
    ensures ReadName(Quote(k, [':'] + inner)) == Some((k, inner))
  {
    var text := Comma(i) + Quote(k, [':'] + inner);
    BehindComma(i, Quote(k, [':'] + inner));
    NotBlank(text);
    NotBlank(Quote(k, [':'] + inner));
    QuoteReads(k, [':'] + inner);
    NotBlank([':'] + inner);
    assert ([':'] + inner)[1..] == inner;
  }

  lemma KeysCons(k: string, w: Value, more: seq<Entry>)
    ensures Keys([Entry(k, w)] + more) == [k] + Keys(more)
  {
  }

  lemma ValuesCons(v: Value, keys: seq<string>, i: nat, w: Value, more: seq<Entry>)
    requires v.Object? && i < |keys| && forall k :: k in keys ==> Has(v.entries, k)
    requires SameValue(ValueAt(v, keys[i]), w) && EntriesRead(v, keys, i + 1, more)
    ensures var es := [Entry(keys[i], w)] + more;
            forall j :: 0 <= j < |es| && i + j < |keys| ==> SameValue(ValueAt(v, keys[i + j]), es[j].value)
  {
    var es := [Entry(keys[i], w)] + more;
    forall j | 0 <= j < |es| && i + j < |keys| ensures SameValue(ValueAt(v, keys[i + j]), es[j].value) {
      if j > 0 {
        assert es[j] == more[j - 1] && keys[i + j] == keys[(i + 1) + (j - 1)];
      }
    }
  }

  lemma EntriesCons(v: Value, keys: seq<string>, i: nat, w: Value, more: seq<Entry>)
    requires v.Object? && i < |keys| && Distinct(keys) && forall k :: k in keys ==> Has(v.entries, k)
    requires Valid(w) && Valid(Object(more))
    requires SameValue(ValueAt(v, keys[i]), w) && EntriesRead(v, keys, i + 1, more)
    ensures EntriesRead(v, keys, i, AddEntry(keys[i], w, more))
  {
    HasIffInKeys(more, keys[i]);
    NotLater(keys, i);
    KeysCons(keys[i], w, more);
    assert [keys[i]] + keys[i + 1..] == keys[i..];
    ValuesCons(v, keys, i, w, more);
  }

  lemma {:induction false} NotLater(keys: seq<string>, i: nat)
    requires i < |keys| && Distinct(keys)
    ensures keys[i] !in keys[i + 1..]
    decreases i
  {
    if i > 0 {
      NotLater(keys[1..], i - 1);
      assert keys[1..][i - 1] == keys[i] && keys[1..][i..] == keys[i + 1..];
    }
  }

  lemma ObjectRead(v: Value, keys: seq<string>, es: seq<Entry>)
    requires v.Object? && Valid(v) && forall k :: k in keys <==> Has(v.entries, k)
    requires Valid(Object(es)) && EntriesRead(v, keys, 0, es)
    ensures SameValue(v, Object(es))
  {
    var w := Object(es);
    assert keys[0..] == keys;
    forall k ensures Has(v.entries, k) <==> Has(es, k) {
      HasIffInKeys(es, k);
    }
    forall k | Has(v.entries, k) ensures SameValue(v.entries[Find(v.entries, k)].value, es[Find(es, k)].value) {
      HasIffInKeys(es, k);
      var j := Find(es, k);
      assert keys[0 + j] == Keys(es)[j] == k;
      assert SameValue(ValueAt(v, keys[0 + j]), es[j].value);
    }
  }

  /** Every text the writer writes is a document that reads as the value it was written for. */
  lemma DocumentReads(v: Value, sorted: bool)
    requires Valid(v)
    ensures ReadDocument(Text(v, sorted, [])).Some? && SameValue(v, ReadDocument(Text(v, sorted, [])).value)
  {
    TextReads(v, sorted, []);
  }
}
