/**
 A weekday list as text: what the formatter writes, how the lexer cuts it up and
 how the schedule parser reads it.
 */
module WeekdayText {
  import opened Wrappers
  import opened Sequences
  import opened Calendar
  import opened ScheduleText
  import opened Format
  import Convert
  import NextFire
  import opened JsonScalars

  function ShortName(day: nat): string
    requires day < 7
  {
    match WeekdayAt(day)
    case Monday => "Mon"
    case Tuesday => "Tue"
    case Wednesday => "Wed"
    case Thursday => "Thu"
    case Friday => "Fri"
    case Saturday => "Sat"
    case Sunday => "Sun"
  }

  function TokenText(t: Token): string
    requires WithinWeek(t)
  {
    match t
    case WeekdayAlias => "weekday"
    case WeekendAlias => "weekend"
    case Single(day) => ShortName(day)
    case Range(from, to) => ShortName(from) + ".." + ShortName(to)
  }

  function Texts(tokens: seq<Token>): (r: seq<string>)
    requires forall t :: t in tokens ==> WithinWeek(t)
    ensures |r| == |tokens|
  {
    seq(|tokens|, i requires 0 <= i < |tokens| => TokenText(tokens[i]))
  }

  // ----- The lexer -----

  datatype Lexeme = Word(text: string) | DotDot

  predicate Dots(s: string) {
    |s| >= 2 && s[0] == '.' && s[1] == '.'
  }

  /** How far an identifier reaches: two dots in a row end it. */
  function WordLen(s: string): (n: nat)
    ensures n <= |s|
  {
    if s == [] || Dots(s) then 0 else 1 + WordLen(s[1..])
  }

  /** A piece of text without blanks. */
  function LexPiece(s: string): seq<Lexeme> {
    if s == [] then []
    else if Dots(s) then [DotDot] + LexPiece(s[2..])
    else [Word(s[..WordLen(s)])] + LexPiece(s[WordLen(s)..])
  }

  function LexPieces(pieces: seq<string>): seq<Lexeme> {
    if pieces == [] then [] else LexPiece(pieces[0]) + LexPieces(pieces[1..])
  }

  function Lex(s: string): seq<Lexeme> {
    LexPieces(Split(s, ' '))
  }

  // ----- The parser -----

  function Named(l: Lexeme): Option<nat> {
    if l.DotDot? then None
    else match Convert.DayNamed(Lower(l.text))
      case Some(w) => Some(WeekdayIndex(w))
      case None => None
  }

  function Group(l: Lexeme): Option<seq<nat>> {
    if l.DotDot? then None
    else if Lower(l.text) == "weekday" then Some([0, 1, 2, 3, 4])
    else if Lower(l.text) == "weekend" then Some([5, 6])
    else None
  }

  /** A list of days and nothing else: groups, days, and ranges that start and end at a day. */
  function ReadLexemes(ls: seq<Lexeme>): Option<seq<nat>>
    decreases |ls|
  {
    if ls == [] then Some([])
    else if Group(ls[0]).Some? then Then(Group(ls[0]).value, ReadLexemes(ls[1..]))
    else if Named(ls[0]).None? then None
    else if |ls| == 1 || !ls[1].DotDot? then Then([Named(ls[0]).value], ReadLexemes(ls[1..]))
    else if |ls| == 2 || Named(ls[2]).None? then None
    else Then(WeekRange(Named(ls[0]).value, Named(ls[2]).value), ReadLexemes(ls[3..]))
  }

  function Then(days: seq<nat>, rest: Option<seq<nat>>): Option<seq<nat>> {
    match rest
    case Some(more) => Some(days + more)
    case None => None
  }

  // ----- Writing and reading back -----

  lemma {:induction false} WordReaches(w: string, rest: string)
    requires '.' !in w && (rest == [] || Dots(rest))
    ensures WordLen(w + rest) == |w|
    decreases |w|
  {
    if w == [] {
      assert w + rest == rest;
    } else {
      assert (w + rest)[1..] == w[1..] + rest && (w + rest)[0] == w[0] && w[0] in w;
      WordReaches(w[1..], rest);
    }
  }

  lemma LexWord(w: string, rest: string)
    requires w != [] && '.' !in w && (rest == [] || Dots(rest))
    ensures LexPiece(w + rest) == [Word(w)] + LexPiece(rest)
  {
    WordReaches(w, rest);
    assert (w + rest)[0] == w[0] && w[0] in w;
    assert (w + rest)[..|w|] == w && (w + rest)[|w|..] == rest;
  }

  lemma ShortIsPlain(day: nat)
    requires day < 7
    ensures |ShortName(day)| == 3 && '.' !in ShortName(day) && ' ' !in ShortName(day)
  {
  }

  lemma AliasIsPlain()
    ensures '.' !in "weekday" && ' ' !in "weekday" && '.' !in "weekend" && ' ' !in "weekend"
  {
  }

  function Lexemes(t: Token): seq<Lexeme>
    requires WithinWeek(t)
  {
    match t
    case WeekdayAlias => [Word("weekday")]
    case WeekendAlias => [Word("weekend")]
    case Single(day) => [Word(ShortName(day))]
    case Range(from, to) => [Word(ShortName(from)), DotDot, Word(ShortName(to))]
  }

  lemma LexOne(w: string)
    requires w != [] && '.' !in w
    ensures LexPiece(w) == [Word(w)]
  {
    LexWord(w, []);
    assert w + [] == w;
  }

  lemma LexRange(a: string, b: string)
    requires a != [] && '.' !in a && b != [] && '.' !in b
    ensures LexPiece(a + ".." + b) == [Word(a), DotDot, Word(b)]
  {
    var rest := ".." + b;
    assert a + ".." + b == a + rest && rest[2..] == b;
    LexWord(a, rest);
    LexOne(b);
  }

  /** Each token's text is one piece that lexes to the token's lexemes. */
  lemma LexToken(t: Token)
    requires WithinWeek(t)
    ensures LexPiece(TokenText(t)) == Lexemes(t) && ' ' !in TokenText(t)
  {
    match t
    case WeekdayAlias =>
      AliasIsPlain();
      LexOne("weekday");
    case WeekendAlias =>
      AliasIsPlain();
      LexOne("weekend");
    case Single(day) =>
      ShortIsPlain(day);
      LexOne(ShortName(day));
    case Range(from, to) =>
      ShortIsPlain(from);
      ShortIsPlain(to);
      LexRange(ShortName(from), ShortName(to));
  }

  lemma ShortIsNamed(day: nat)
    requires day < 7
    ensures Named(Word(ShortName(day))) == Some(day) && Group(Word(ShortName(day))).None?
  {
    LowerShort(day);
    LowerNamed(day);
    IndexAt(day);
  }

  function LowerName(day: nat): string
    requires day < 7
  {
    match WeekdayAt(day)
    case Monday => "mon"
    case Tuesday => "tue"
    case Wednesday => "wed"
    case Thursday => "thu"
    case Friday => "fri"
    case Saturday => "sat"
    case Sunday => "sun"
  }

  lemma LowerShort(day: nat)
    requires day < 7
    ensures Lower(ShortName(day)) == LowerName(day)
  {
    var s, t := ShortName(day), LowerName(day);
    assert |s| == 3 && |t| == 3 && LowerChar(s[0]) == t[0] && LowerChar(s[1]) == t[1] && LowerChar(s[2]) == t[2];
  }

  lemma LowerNamed(day: nat)
    requires day < 7
    ensures |LowerName(day)| == 3 && Convert.DayNamed(LowerName(day)) == Some(WeekdayAt(day))
  {
    match WeekdayAt(day)
    case Monday =>
    case Tuesday =>
    case Wednesday =>
    case Thursday =>
    case Friday =>
    case Saturday =>
    case Sunday =>
  }

  lemma IndexAt(day: nat)
    requires day < 7
    ensures WeekdayIndex(WeekdayAt(day)) == day
  {
  }

  lemma AliasesAreGroups()
    ensures Group(Word("weekday")) == Some([0, 1, 2, 3, 4]) && Group(Word("weekend")) == Some([5, 6])
  {
    Convert.LowerFixed("weekday");
    Convert.LowerFixed("weekend");
  }

  /** Reading a token's lexemes gives its days, if no dots follow. */
  lemma ReadToken(t: Token, rest: seq<Lexeme>)
    requires WithinWeek(t) && (rest == [] || rest[0].Word?)
    ensures ReadLexemes(Lexemes(t) + rest) == Then(TokenDays(t), ReadLexemes(rest))
  {
    var ls := Lexemes(t) + rest;
    AliasesAreGroups();
    match t
    case WeekdayAlias => assert ls[1..] == rest;
    case WeekendAlias => assert ls[1..] == rest;
    case Single(day) =>
      ShortIsNamed(day);
      assert ls[1..] == rest;
    case Range(from, to) =>
      ShortIsNamed(from);
      ShortIsNamed(to);
      assert ls[3..] == rest;
  }

  lemma LexTexts(tokens: seq<Token>)
    requires tokens != [] && forall t :: t in tokens ==> WithinWeek(t)
    ensures WithinWeek(tokens[0])
    ensures LexPieces(Texts(tokens)) == Lexemes(tokens[0]) + LexPieces(Texts(tokens[1..]))
  {
    assert tokens[0] in tokens;
    LexToken(tokens[0]);
    assert Texts(tokens)[1..] == Texts(tokens[1..]) && Texts(tokens)[0] == TokenText(tokens[0]);
  }

  lemma {:induction false} ReadTexts(tokens: seq<Token>)
    requires forall t :: t in tokens ==> WithinWeek(t)
    ensures ReadLexemes(LexPieces(Texts(tokens))) == Some(ReadDays(tokens))
    ensures tokens != [] ==> LexPieces(Texts(tokens)) != [] && LexPieces(Texts(tokens))[0].Word?
    decreases |tokens|
  {
    if tokens != [] {
      assert tokens[0] in tokens && forall t :: t in tokens[1..] ==> t in tokens;
      ReadTexts(tokens[1..]);
      LexTexts(tokens);
      ReadToken(tokens[0], LexPieces(Texts(tokens[1..])));
    }
  }

  lemma TextsArePieces(tokens: seq<Token>)
    requires forall t :: t in tokens ==> WithinWeek(t)
    ensures forall w :: w in Texts(tokens) ==> ' ' !in w
  {
    forall i | 0 <= i < |tokens| ensures ' ' !in Texts(tokens)[i] {
      assert tokens[i] in tokens;
      LexToken(tokens[i]);
    }
  }

  /** Whatever tokens were written, the text is read back as their days. */
  lemma ReadBack(tokens: seq<Token>)
    requires tokens != [] && forall t :: t in tokens ==> WithinWeek(t)
    ensures ReadLexemes(Lex(Join(Texts(tokens)))) == Some(ReadDays(tokens))
  {
    TextsArePieces(tokens);
    SplitJoin(Texts(tokens));
    ReadTexts(tokens);
  }

  lemma ReadNothing()
    ensures ReadLexemes(Lex("")) == Some([])
  {
    var none: seq<string> := [[]];
    assert Split("", ' ') == none && none[1..] == [];
  }

  method JoinTokens(tokens: seq<Token>) returns (text: string)
    requires tokens != [] && forall t :: t in tokens ==> WithinWeek(t)
    ensures text == Join(Texts(tokens))
  {
    var texts := Texts(tokens);
    text := texts[0];
    for i := 1 to |tokens|
      invariant text == Join(texts[..i])
    {
      JoinMore(texts[..i], texts[i]);
      assert texts[..i + 1] == texts[..i] + [texts[i]];
      text := text + " " + texts[i];
    }
    assert texts[..|tokens|] == texts;
  }

  /** A text that says nothing a shorter one could: its tokens, one blank apart, are compact. */
  ghost predicate CompactText(text: string, present: seq<nat>) {
    exists tokens :: IsCompact(tokens, present) && text == Join(Texts(tokens))
  }

  predicate IsCompact(tokens: seq<Token>, present: seq<nat>) {
    tokens != [] && (forall t :: t in tokens ==> WithinWeek(t)) && Compact(tokens, present)
  }

  /** The compact day list, as text the lexer and parser read back as the same days in week order. */
  method FormatWeekdayList(days: seq<Weekday>) returns (text: string)
    ensures days == [] ==> text == ""
    ensures days != [] ==> CompactText(text, Present(days))
    ensures ReadLexemes(Lex(text)) == Some(Present(days))
  {
    var tokens := WeekdayTokens(days);
    if tokens == [] {
      ReadNothing();
      return "";
    }
    text := JoinTokens(tokens);
    ReadBack(tokens);
    assert IsCompact(tokens, Present(days));
  }

  lemma {:induction false} JoinMore(words: seq<string>, w: string)
    requires words != []
    ensures Join(words + [w]) == Join(words) + " " + w
  {
    var longer := words + [w];
    assert longer[1..] == words[1..] + [w];
    if |words| == 1 {
      assert words[1..] == [];
    } else {
      JoinMore(words[1..], w);
      Assoc(words[0] + [' '], Join(words[1..]), " " + w);
      Assoc(Join(words[1..]), " ", w);
      Assoc(Join(words), " ", w);
    }
  }

  // ----- Days of the month -----

  function FormatSuffix(day: nat): string {
    match day
    case 1 => "st"
    case 21 => "st"
    case 31 => "st"
    case 2 => "nd"
    case 22 => "nd"
    case 3 => "rd"
    case 23 => "rd"
    case _ => "th"
  }

  /** A day of the month as the formatter writes it. */
  function FormatOrdinal(day: nat): string {
    Digits(day) + FormatSuffix(day)
  }

  lemma SuffixesAgree(day: nat)
    requires 1 <= day <= 31
    ensures FormatSuffix(day) == Convert.OrdinalSuffix(day)
  {
  }

  /** The formatter and the converter write a day of the month alike, and the parser reads that day. */
  lemma OrdinalsAgree(day: nat)
    requires 1 <= day <= 31
    ensures FormatOrdinal(day) == Convert.OrdinalText(day)
    ensures Convert.ParseOrdinal(FormatOrdinal(day)) == Some(NextFire.Day(day))
  {
    SuffixesAgree(day);
    Convert.OrdinalRoundTrip(day);
  }
}
