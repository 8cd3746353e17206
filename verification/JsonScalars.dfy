/** String literals and numbers as the JSON serializer prints them. */
module JsonScalars {
  function HexDigit(n: nat): (c: char)
    requires n < 16
  {
    if n < 10 then ('0' as int + n) as char else ('a' as int + n - 10) as char
  }

  /** One character of a string literal, per section 7 of RFC 8259. */
  function EscapeChar(c: char): (r: string)
    ensures r != []
  {
    if c == '"' then "\\\""
    else if c == '\\' then "\\\\"
    else if c as int == 0x08 then "\\b"
    else if c as int == 0x0c then "\\f"
    else if c == '\n' then "\\n"
    else if c == '\r' then "\\r"
    else if c == '\t' then "\\t"
    else if c as int < 0x20 then ['\\', 'u', '0', '0', HexDigit(c as int / 16), HexDigit(c as int % 16)]
    else [c]
  }

  /** The inside of a literal, its closing quote, and then `rest`. */
  function Body(s: string, rest: string): string {
    if s == [] then ['"'] + rest else EscapeChar(s[0]) + Body(s[1..], rest)
  }

  /** A string literal followed by `rest`. */
  function Quote(s: string, rest: string): string {
    ['"'] + Body(s, rest)
  }

  /** The escapes form a prefix code: two that agree where both exist are the same. */
  lemma EscapesAgree(c: char, d: char)
    requires forall i :: 0 <= i < |EscapeChar(c)| && i < |EscapeChar(d)| ==> EscapeChar(c)[i] == EscapeChar(d)[i]
    ensures c == d
  {
    var e, f := EscapeChar(c), EscapeChar(d);
    assert e[0] == f[0];
    if e[0] == '\\' {
      assert e[1] == f[1];
      if e[1] == 'u' {
        assert e[4] == f[4] && e[5] == f[5];
        assert c as int % 16 == d as int % 16;
      }
    }
  }

  lemma EscapeCharUnambiguous(c: char, d: char, x: string, y: string)
    requires EscapeChar(c) + x == EscapeChar(d) + y
    ensures c == d && x == y
  {
    var e, f := EscapeChar(c), EscapeChar(d);
    forall i | 0 <= i < |e| && i < |f|
      ensures e[i] == f[i]
    {
      assert (e + x)[i] == e[i] && (f + y)[i] == f[i];
    }
    EscapesAgree(c, d);
    assert x == (e + x)[|e|..] && y == (f + y)[|f|..];
  }

  lemma SamePrefix(p: string, x: string, y: string)
    requires p + x == p + y
    ensures x == y
  {
    assert x == (p + x)[|p|..] && y == (p + y)[|p|..];
  }

  lemma BodyHead(s: string, x: string)
    ensures Body(s, x) != [] && (Body(s, x)[0] == '"' <==> s == [])
  {
  }

  lemma {:induction false} BodyUnambiguous(s: string, t: string, x: string, y: string)
    requires Body(s, x) == Body(t, y)
    ensures s == t && x == y
    decreases |s|
  {
    BodyHead(s, x);
    BodyHead(t, y);
    if s == [] {
      SamePrefix(['"'], x, y);
    } else {
      EscapeCharUnambiguous(s[0], t[0], Body(s[1..], x), Body(t[1..], y));
      BodyUnambiguous(s[1..], t[1..], x, y);
      assert s == [s[0]] + s[1..] && t == [t[0]] + t[1..];
    }
  }

  /** A literal tells where it ends, whatever follows it. */
  lemma QuoteUnambiguous(s: string, t: string, x: string, y: string)
    requires Quote(s, x) == Quote(t, y)
    ensures s == t && x == y
  {
    SamePrefix(['"'], Body(s, x), Body(t, y));
    BodyUnambiguous(s, t, x, y);
  }

  // ----- Numbers -----

  predicate IsDigit(c: char) {
    '0' <= c <= '9'
  }

  predicate IsNumberChar(c: char) {
    IsDigit(c) || c in "+-.eE"
  }

  function Digits(n: nat): (r: string)
    ensures r != [] && forall c :: c in r ==> IsDigit(c)
  {
    if n < 10 then [('0' as int + n) as char]
    else Digits(n / 10) + [('0' as int + n % 10) as char]
  }

  function Decimal(n: int): (r: string)
    ensures r != [] && (forall c :: c in r ==> IsDigit(c) || c == '-')
    ensures IsDigit(r[0]) || r[0] == '-'
  {
    if n < 0 then ['-'] + Digits(-n) else Digits(n)
  }

  lemma {:induction false} DigitsInjective(m: nat, n: nat)
    requires Digits(m) == Digits(n)
    ensures m == n
    decreases m
  {
    var a, b := Digits(m), Digits(n);
    assert a[|a| - 1] == b[|b| - 1];
    assert m % 10 == n % 10;
    if m >= 10 && n >= 10 {
      assert a[..|a| - 1] == Digits(m / 10) && b[..|b| - 1] == Digits(n / 10);
      DigitsInjective(m / 10, n / 10);
    }
  }

  lemma DecimalInjective(m: int, n: int)
    requires Decimal(m) == Decimal(n)
    ensures m == n
  {
    var a, b := Decimal(m), Decimal(n);
    assert m >= 0 ==> a[0] in Digits(m);
    assert n >= 0 ==> b[0] in Digits(n);
    if m < 0 {
      assert a[1..] == Digits(-m) && b[1..] == Digits(-n);
      DigitsInjective(-m, -n);
    } else {
      DigitsInjective(m, n);
    }
  }

  /** How far into a number, as section 6 of RFC 8259 spells one, a text has come. */
  datatype Progress =
    | Start | Minus | Zero | Whole | Point | Fraction | ExponentMark | ExponentSign | Exponent | Wrong

  function Advance(p: Progress, c: char): Progress {
    match p
    case Start => if c == '-' then Minus else if c == '0' then Zero else if IsDigit(c) then Whole else Wrong
    case Minus => if c == '0' then Zero else if IsDigit(c) then Whole else Wrong
    case Zero => AfterInteger(c)
    case Whole => if IsDigit(c) then Whole else AfterInteger(c)
    case Point => if IsDigit(c) then Fraction else Wrong
    case Fraction => if IsDigit(c) then Fraction else if c == 'e' || c == 'E' then ExponentMark else Wrong
    case ExponentMark => if c == '+' || c == '-' then ExponentSign else if IsDigit(c) then Exponent else Wrong
    case ExponentSign => if IsDigit(c) then Exponent else Wrong
    case Exponent => if IsDigit(c) then Exponent else Wrong
    case Wrong => Wrong
  }

  function AfterInteger(c: char): Progress {
    if c == '.' then Point else if c == 'e' || c == 'E' then ExponentMark else Wrong
  }

  function Scan(p: Progress, s: string): Progress
    decreases |s|
  {
    if s == [] then p else Scan(Advance(p, s[0]), s[1..])
  }

  predicate IsIntegerText(s: string) {
    Scan(Start, s).Zero? || Scan(Start, s).Whole?
  }

  /** The text of a finite 64-bit float: a number with a fraction or an exponent, so never an integer's text. */
  predicate IsFloatText(s: string) {
    Scan(Start, s).Fraction? || Scan(Start, s).Exponent?
  }

  lemma {:induction false} ScanWrong(s: string)
    ensures Scan(Wrong, s) == Wrong
  {
    if s != [] {
      ScanWrong(s[1..]);
    }
  }

  lemma {:induction false} ScanChars(p: Progress, s: string)
    requires !Scan(p, s).Wrong?
    ensures forall c :: c in s ==> IsNumberChar(c)
    decreases |s|
  {
    if s != [] {
      ScanWrong(s[1..]);
      assert IsNumberChar(s[0]);
      ScanChars(Advance(p, s[0]), s[1..]);
      assert s == [s[0]] + s[1..];
    }
  }

  /** A number starts with a digit or a minus sign and is made of number characters. */
  lemma NumberShape(s: string)
    requires !Scan(Start, s).Wrong? && !Scan(Start, s).Start?
    ensures s != [] && (IsDigit(s[0]) || s[0] == '-') && forall c :: c in s ==> IsNumberChar(c)
  {
    ScanChars(Start, s);
    ScanWrong(s[1..]);
  }

  lemma {:induction false} ScanAppend(p: Progress, s: string, c: char)
    ensures Scan(p, s + [c]) == Advance(Scan(p, s), c)
    decreases |s|
  {
    if s == [] {
      assert s + [c] == [c];
    } else {
      assert (s + [c])[1..] == s[1..] + [c];
      ScanAppend(Advance(p, s[0]), s[1..], c);
    }
  }

  lemma {:induction false} DigitsScan(p: Progress, n: nat)
    requires p == Start || p == Minus
    ensures Scan(p, Digits(n)) == if n == 0 then Zero else Whole
    decreases n
  {
    if n >= 10 {
      DigitsScan(p, n / 10);
      ScanAppend(p, Digits(n / 10), Digits(n)[|Digits(n)| - 1]);
    } else {
      assert Digits(n)[1..] == [];
    }
  }

  /** What is printed for an integer is an integer's text. */
  lemma DecimalScan(n: int)
    ensures IsIntegerText(Decimal(n))
  {
    if n < 0 {
      assert Decimal(n)[1..] == Digits(-n);
      DigitsScan(Minus, -n);
    } else {
      DigitsScan(Start, n);
    }
  }

  /** Two runs of number characters, each followed by something else, split alike. */
  lemma {:induction false} NumberRunUnambiguous(s: string, t: string, x: string, y: string)
    requires forall c :: c in s || c in t ==> IsNumberChar(c)
    requires (x == [] || !IsNumberChar(x[0])) && (y == [] || !IsNumberChar(y[0]))
    requires s + x == t + y
    ensures s == t && x == y
    decreases |s|
  {
    var l, r := s + x, t + y;
    assert s == [] ==> l == x;
    assert t == [] ==> r == y;
    assert s != [] ==> l[0] == s[0] && s[0] in s;
    assert t != [] ==> r[0] == t[0] && t[0] in t;
    if s != [] && t != [] {
      assert l[1..] == s[1..] + x && r[1..] == t[1..] + y;
      NumberRunUnambiguous(s[1..], t[1..], x, y);
      assert s == [s[0]] + s[1..] && t == [t[0]] + t[1..];
    }
  }
}
