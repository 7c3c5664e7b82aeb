/** The tokenizer of the formula language, and the text that lexes back to a given token list. */
module FormulaLexer {
  datatype Token =
    | Number(value: real)
    | Str(text: string)
    | Ident(name: string)
    | Plus | Minus | Star | Slash | Percent
    | LParen | RParen | Comma
    | Eq | Neq | Lt | Lte | Gt | Gte
    | And | Or | Not
    | Eof

  datatype LexError =
    | SingleAmpersand
    | SinglePipe
    | SingleEquals
    | UnterminatedString
    | InvalidNumber(text: string)
    | UnexpectedCharacter(c: char)
    | TooManyTokens(limit: nat)

  datatype LexResult = Lexed(tokens: seq<Token>) | LexFailed(error: LexError)

  /** The host's Unicode tables: nothing is assumed about them beyond what a lemma requires. */
  datatype Unicode = Unicode(alphabetic: char -> bool, alphanumeric: char -> bool, lowercase: string -> string)

  // ---- Character runs --------------------------------------------------------------------

  datatype CharClass = NumberChars | WordChars | Except(quote: char)

  predicate Digit(c: char) { '0' <= c <= '9' }

  predicate InClass(u: Unicode, k: CharClass, c: char) {
    match k
    case NumberChars => Digit(c) || c == '.'
    case WordChars => u.alphanumeric(c) || c == '_' || c == '.'
    case Except(quote) => c != quote
  }

  /** Where the run of class-`k` characters starting at `i` stops. */
  function RunEnd(u: Unicode, s: string, i: nat, k: CharClass): (j: nat)
    requires i <= |s|
    ensures i <= j <= |s|
    ensures forall x :: i <= x < j ==> InClass(u, k, s[x])
    ensures j < |s| ==> !InClass(u, k, s[j])
    decreases |s| - i
  {
    if i < |s| && InClass(u, k, s[i]) then RunEnd(u, s, i + 1, k) else i
  }

  // ---- Numerals --------------------------------------------------------------------------

  function Dots(s: string): nat {
    if s == "" then 0 else (if s[0] == '.' then 1 else 0) + Dots(s[1..])
  }

  /** Digits, with at most one dot, starting with a digit: exactly the runs the number parser accepts. */
  predicate Numeral(s: string) {
    s != "" && Digit(s[0]) && (forall i :: 0 <= i < |s| ==> Digit(s[i]) || s[i] == '.') && Dots(s) <= 1
  }

  function Pow10(n: nat): (r: nat)
    ensures r > 0
  {
    if n == 0 then 1 else 10 * Pow10(n - 1)
  }

  /** The digits read as one integer, dots skipped. */
  function Mantissa(s: string): nat {
    if s == "" then 0
    else
      var last := s[|s| - 1];
      if Digit(last) then 10 * Mantissa(s[..|s| - 1]) + (last as int - '0' as int) else Mantissa(s[..|s| - 1])
  }

  function FractionDigits(s: string): nat {
    if s == "" then 0 else if s[0] == '.' then |s| - 1 else FractionDigits(s[1..])
  }

  /** The exact value of a numeral. */
  function NumeralValue(s: string): real {
    Mantissa(s) as real / Pow10(FractionDigits(s)) as real
  }

  // ---- One token -------------------------------------------------------------------------

  datatype Scan = Skip(next: nat) | Emit(token: Token, next: nat) | Fail(error: LexError)

  predicate Blank(c: char) { c == ' ' || c == '\t' || c == '\n' || c == '\r' }

  predicate Quote(c: char) { c == '"' || c == '\'' }

  predicate Symbol(c: char) {
    || c == '+' || c == '-' || c == '*' || c == '/' || c == '%' || c == '(' || c == ')' || c == ','
    || c == '&' || c == '|' || c == '!' || c == '=' || c == '<' || c == '>'
  }

  /** Characters the scanner handles before it looks for a word. */
  predicate Structural(c: char) {
    Blank(c) || Quote(c) || Digit(c) || Symbol(c)
  }

  function Word(u: Unicode, w: string): Token {
    var lower := u.lowercase(w);
    if lower == "and" then And
    else if lower == "true" then Number(1.0)
    else if lower == "false" then Number(0.0)
    else if lower == "or" then Or
    else if lower == "not" then Not
    else Ident(w)
  }

  predicate FollowedBy(s: string, i: nat, c: char) { i + 1 < |s| && s[i + 1] == c }

  function ScanSymbol(s: string, i: nat): (r: Scan)
    requires i < |s| && Symbol(s[i])
    ensures !r.Fail? ==> r.Emit? && i < r.next <= |s|
  {
    match s[i]
    case '+' => Emit(Plus, i + 1)
    case '-' => Emit(Minus, i + 1)
    case '*' => Emit(Star, i + 1)
    case '/' => Emit(Slash, i + 1)
    case '%' => Emit(Percent, i + 1)
    case '(' => Emit(LParen, i + 1)
    case ')' => Emit(RParen, i + 1)
    case ',' => Emit(Comma, i + 1)
    case '&' => if FollowedBy(s, i, '&') then Emit(And, i + 2) else Fail(SingleAmpersand)
    case '|' => if FollowedBy(s, i, '|') then Emit(Or, i + 2) else Fail(SinglePipe)
    case '!' => if FollowedBy(s, i, '=') then Emit(Neq, i + 2) else Emit(Not, i + 1)
    case '=' => if FollowedBy(s, i, '=') then Emit(Eq, i + 2) else Fail(SingleEquals)
    case '<' => if FollowedBy(s, i, '=') then Emit(Lte, i + 2) else Emit(Lt, i + 1)
    case _ => if FollowedBy(s, i, '=') then Emit(Gte, i + 2) else Emit(Gt, i + 1)
  }

  function ScanString(u: Unicode, s: string, i: nat): (r: Scan)
    requires i < |s|
    ensures !r.Fail? ==> r.Emit? && i < r.next <= |s|
  {
    var j := RunEnd(u, s, i + 1, Except(s[i]));
    if j >= |s| then Fail(UnterminatedString) else Emit(Str(s[i + 1..j]), j + 1)
  }

  function ScanNumber(u: Unicode, s: string, i: nat): (r: Scan)
    requires i < |s| && Digit(s[i])
    ensures !r.Fail? ==> r.Emit? && i < r.next <= |s|
  {
    var j := RunEnd(u, s, i, NumberChars);
    if Dots(s[i..j]) <= 1 then Emit(Number(NumeralValue(s[i..j])), j) else Fail(InvalidNumber(s[i..j]))
  }

  /** Alphabetic characters are alphanumeric in the host, so the run always takes its first character. */
  function ScanWord(u: Unicode, s: string, i: nat): (r: Scan)
    requires i < |s|
    ensures r.Emit? && i < r.next <= |s|
  {
    var j := RunEnd(u, s, i + 1, WordChars);
    Emit(Word(u, s[i..j]), j)
  }

  /** What one turn of the lexer's loop does at position `i`. */
  function ScanAt(u: Unicode, s: string, i: nat): (r: Scan)
    requires i < |s|
    ensures !r.Fail? ==> i < r.next <= |s|
  {
    var c := s[i];
    if Blank(c) then Skip(i + 1)
    else if Symbol(c) then ScanSymbol(s, i)
    else if Quote(c) then ScanString(u, s, i)
    else if Digit(c) then ScanNumber(u, s, i)
    else if u.alphabetic(c) || c == '_' then ScanWord(u, s, i)
    else Fail(UnexpectedCharacter(c))
  }

  // ---- The whole text --------------------------------------------------------------------

  function Prepend(ts: seq<Token>, r: LexResult): LexResult {
    match r
    case Lexed(rest) => Lexed(ts + rest)
    case LexFailed(_) => r
  }

  /** The tokens from position `i` on, when `count` were already pushed. */
  function LexFrom(u: Unicode, s: string, i: nat, count: nat, limit: nat): LexResult
    requires i <= |s|
    decreases |s| - i
  {
    if i == |s| then Lexed([Eof])
    else
      match ScanAt(u, s, i)
      case Fail(e) => LexFailed(e)
      case Skip(j) => if count > limit then LexFailed(TooManyTokens(limit)) else LexFrom(u, s, j, count, limit)
      case Emit(t, j) =>
        if count + 1 > limit then LexFailed(TooManyTokens(limit))
        else Prepend([t], LexFrom(u, s, j, count + 1, limit))
  }

  method Lex(u: Unicode, s: string, limit: nat) returns (r: LexResult)
    ensures r == LexFrom(u, s, 0, 0, limit)
  {
    var tokens: seq<Token> := [];
    var i := 0;
    while i < |s|
      invariant i <= |s|
      invariant LexFrom(u, s, 0, 0, limit) == Prepend(tokens, LexFrom(u, s, i, |tokens|, limit))
    {
      ghost var whole := LexFrom(u, s, i, |tokens|, limit);
      match ScanAt(u, s, i) {
        case Fail(e) => return LexFailed(e);
        case Skip(j) => i := j;
        case Emit(t, j) =>
          ghost var rest := LexFrom(u, s, j, |tokens| + 1, limit);
          assert rest.Lexed? ==> tokens + ([t] + rest.tokens) == tokens + [t] + rest.tokens;
          tokens, i := tokens + [t], j;
      }
      if |tokens| > limit {
        return LexFailed(TooManyTokens(limit));
      }
    }
    r := Lexed(tokens + [Eof]);
  }

  // ---- Which tokens lexing can yield, and how to write them ------------------------------

  ghost predicate IsDecimal(v: real) {
    exists s :: Numeral(s) && NumeralValue(s) == v
  }

  ghost predicate Lexable(u: Unicode, t: Token) {
    match t
    case Number(v) => IsDecimal(v)
    case Str(s) => '"' !in s || '\'' !in s
    case Ident(w) =>
      && w != "" && !Structural(w[0]) && (u.alphabetic(w[0]) || w[0] == '_')
      && (forall i :: 1 <= i < |w| ==> InClass(u, WordChars, w[i]))
      && Word(u, w) == Ident(w)
    case Eof => false
    case _ => true
  }

  ghost predicate AllLexable(u: Unicode, ts: seq<Token>) {
    forall i :: 0 <= i < |ts| ==> Lexable(u, ts[i])
  }

  /** One spelling of a token; a number may be written by any numeral that denotes it. */
  ghost function Lexeme(u: Unicode, t: Token): string
    requires Lexable(u, t)
  {
    match t
    case Number(v) => var s :| Numeral(s) && NumeralValue(s) == v; s
    case Str(s) => if '"' !in s then "\"" + s + "\"" else "'" + s + "'"
    case Ident(w) => w
    case Plus => "+"
    case Minus => "-"
    case Star => "*"
    case Slash => "/"
    case Percent => "%"
    case LParen => "("
    case RParen => ")"
    case Comma => ","
    case Eq => "=="
    case Neq => "!="
    case Lt => "<"
    case Lte => "<="
    case Gt => ">"
    case Gte => ">="
    case And => "&&"
    case Or => "||"
    case Not => "!"
  }

  /** The tokens written out, each followed by a blank. */
  ghost function Render(u: Unicode, ts: seq<Token>): string
    requires AllLexable(u, ts)
  {
    if ts == [] then "" else Lexeme(u, ts[0]) + " " + Render(u, ts[1..])
  }

  lemma {:induction false} RunEndIs(u: Unicode, s: string, i: nat, j: nat, k: CharClass)
    requires i <= j <= |s|
    requires forall x :: i <= x < j ==> InClass(u, k, s[x])
    requires j < |s| ==> !InClass(u, k, s[j])
    ensures RunEnd(u, s, i, k) == j
    decreases j - i
  {
    if i >= j {
    } else {
      RunEndIs(u, s, i + 1, j, k);
    }
  }

  /** `w` stands at position `i` of `s`, with a blank or the end right after it. */
  ghost predicate Spelled(s: string, i: nat, w: string) {
    i + |w| <= |s| && s[i..i + |w|] == w && (i + |w| < |s| ==> s[i + |w|] == ' ')
  }

  lemma SpelledAt(s: string, i: nat, w: string, x: nat)
    requires Spelled(s, i, w) && x < |w|
    ensures s[i + x] == w[x]
  {
    assert s[i..i + |w|][x] == s[i + x];
  }

  lemma ScanNumeral(u: Unicode, s: string, i: nat, w: string)
    requires Spelled(s, i, w) && Numeral(w)
    ensures ScanAt(u, s, i) == Emit(Number(NumeralValue(w)), i + |w|)
  {
    forall x | i <= x < i + |w| ensures s[x] == w[x - i] { SpelledAt(s, i, w, x - i); }
    RunEndIs(u, s, i, i + |w|, NumberChars);
  }

  lemma ScanQuoted(u: Unicode, s: string, i: nat, q: char, text: string)
    requires Spelled(s, i, [q] + text + [q]) && Quote(q) && q !in text
    ensures ScanAt(u, s, i) == Emit(Str(text), i + 2 + |text|)
  {
    var w := [q] + text + [q];
    var j := i + 1 + |text|;
    forall x | i <= x < i + |w| ensures s[x] == w[x - i] { SpelledAt(s, i, w, x - i); }
    assert s[i + 1..j] == text;
    assert forall x :: i + 1 <= x < j ==> s[x] == text[x - i - 1];
    RunEndIs(u, s, i + 1, j, Except(q));
  }

  lemma ScanName(u: Unicode, s: string, i: nat, w: string)
    requires Spelled(s, i, w) && Lexable(u, Ident(w)) && !u.alphanumeric(' ')
    ensures ScanAt(u, s, i) == Emit(Ident(w), i + |w|)
  {
    forall x | i <= x < i + |w| ensures s[x] == w[x - i] { SpelledAt(s, i, w, x - i); }
    RunEndIs(u, s, i + 1, i + |w|, WordChars);
  }

  /** A spelled token before a blank or the end scans back to that token, whatever surrounds it. */
  lemma ScanLexeme(u: Unicode, s: string, i: nat, t: Token)
    requires Lexable(u, t) && !u.alphanumeric(' ')
    requires Spelled(s, i, Lexeme(u, t))
    ensures ScanAt(u, s, i) == Emit(t, i + |Lexeme(u, t)|)
  {
    var w := Lexeme(u, t);
    if t.Number? {
      ScanNumeral(u, s, i, w);
    } else if t.Str? {
      ScanQuoted(u, s, i, w[0], t.text);
    } else if t.Ident? {
      ScanName(u, s, i, w);
    } else {
      ScanOperator(u, s, i, t);
    }
  }

  lemma ScanOperator(u: Unicode, s: string, i: nat, t: Token)
    requires Lexable(u, t) && !t.Number? && !t.Str? && !t.Ident?
    requires Spelled(s, i, Lexeme(u, t))
    ensures ScanAt(u, s, i) == Emit(t, i + |Lexeme(u, t)|)
  {
    var w := Lexeme(u, t);
    var first, last := 0, |w| - 1;
    SpelledAt(s, i, w, first);
    SpelledAt(s, i, w, last);
  }

  lemma RenderSpells(u: Unicode, s: string, i: nat, ts: seq<Token>)
    requires AllLexable(u, ts) && ts != []
    requires i <= |s| && s[i..] == Render(u, ts)
    ensures Spelled(s, i, Lexeme(u, ts[0])) && i + |Lexeme(u, ts[0])| < |s|
    ensures s[i + |Lexeme(u, ts[0])| + 1..] == Render(u, ts[1..])
  {
    var w := Lexeme(u, ts[0]);
    var tail := Render(u, ts[1..]);
    assert s[i..] == w + " " + tail;
    assert s[i..][..|w|] == w && s[i..][|w|] == ' ' && s[i..][|w| + 1..] == tail;
  }

  lemma {:induction false} LexRender(u: Unicode, s: string, i: nat, ts: seq<Token>, count: nat, limit: nat)
    requires AllLexable(u, ts) && !u.alphanumeric(' ')
    requires i <= |s| && s[i..] == Render(u, ts)
    requires count + |ts| <= limit
    ensures LexFrom(u, s, i, count, limit) == Lexed(ts + [Eof])
    decreases |ts|
  {
    hide ScanAt, Lexeme, Lexable;
    if ts == [] {
      assert i == |s|;
    } else {
      var j := i + |Lexeme(u, ts[0])|;
      RenderSpells(u, s, i, ts);
      LexLexeme(u, s, i, ts[0], count, limit);
      LexRender(u, s, j + 1, ts[1..], count + 1, limit);
      assert [ts[0]] + (ts[1..] + [Eof]) == ts + [Eof];
    }
  }

  lemma LexLexeme(u: Unicode, s: string, i: nat, t: Token, count: nat, limit: nat)
    requires Lexable(u, t) && !u.alphanumeric(' ') && count < limit
    requires Spelled(s, i, Lexeme(u, t)) && i + |Lexeme(u, t)| < |s|
    ensures LexFrom(u, s, i, count, limit) ==
            Prepend([t], LexFrom(u, s, i + |Lexeme(u, t)| + 1, count + 1, limit))
  {
    hide ScanAt, Lexeme, Lexable;
    ScanLexeme(u, s, i, t);
    BlankScans(u, s, i + |Lexeme(u, t)|);
  }

  lemma BlankScans(u: Unicode, s: string, i: nat)
    requires i < |s| && s[i] == ' '
    ensures ScanAt(u, s, i) == Skip(i + 1)
  {
  }

  lemma KeywordNumbersAreDecimal()
    ensures IsDecimal(1.0) && IsDecimal(0.0)
  {
    assert Mantissa("1") == 1 && Mantissa("0") == 0 by { assert "1"[..0] == "" && "0"[..0] == ""; }
    assert FractionDigits("1") == 0 && FractionDigits("0") == 0 by { assert "1"[1..] == "" && "0"[1..] == ""; }
    assert Dots("1") == 0 && Dots("0") == 0;
    assert Numeral("1") && NumeralValue("1") == 1.0;
    assert Numeral("0") && NumeralValue("0") == 0.0;
  }

  lemma ScanIsLexable(u: Unicode, s: string, i: nat)
    requires i < |s| && ScanAt(u, s, i).Emit?
    ensures Lexable(u, ScanAt(u, s, i).token)
  {
    var c := s[i];
    if !Blank(c) && !Symbol(c) {
      if Quote(c) {
        var text := ScanString(u, s, i).token.text;
        assert c !in text;
      } else if Digit(c) {
        assert Numeral(s[i..RunEnd(u, s, i, NumberChars)]);
      } else {
        KeywordNumbersAreDecimal();
        var w := s[i..RunEnd(u, s, i + 1, WordChars)];
        assert forall x :: 1 <= x < |w| ==> InClass(u, WordChars, w[x]);
      }
    }
  }

  /** Lexing yields at most `limit` tokens, all lexable, closed by the end mark. */
  lemma {:induction false} LexImage(u: Unicode, s: string, i: nat, count: nat, limit: nat)
    requires i <= |s| && count <= limit
    requires LexFrom(u, s, i, count, limit).Lexed?
    ensures var ts := LexFrom(u, s, i, count, limit).tokens;
            1 <= |ts| <= limit - count + 1 && ts[|ts| - 1] == Eof
    ensures AllLexable(u, Body(LexFrom(u, s, i, count, limit).tokens))
    decreases |s| - i
  {
    if i >= |s| {
    } else {
      var scan := ScanAt(u, s, i);
      if scan.Skip? {
        LexImage(u, s, scan.next, count, limit);
      } else {
        LexImage(u, s, scan.next, count + 1, limit);
        ScanIsLexable(u, s, i);
        var rest := LexFrom(u, s, scan.next, count + 1, limit).tokens;
        assert Body([scan.token] + rest) == [scan.token] + Body(rest);
      }
    }
  }

  /** A token list without its end mark. */
  ghost function Body(ts: seq<Token>): seq<Token> {
    if ts == [] then [] else ts[..|ts| - 1]
  }

  /** Lexing undoes rendering, for every list of lexable tokens within the cap. */
  lemma LexerRoundTrip(u: Unicode, ts: seq<Token>, limit: nat)
    requires AllLexable(u, ts) && !u.alphanumeric(' ') && |ts| <= limit
    ensures LexFrom(u, Render(u, ts), 0, 0, limit) == Lexed(ts + [Eof])
  {
    LexRender(u, Render(u, ts), 0, ts, 0, limit);
  }
}
