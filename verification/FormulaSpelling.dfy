/** How tokens are spelled, said without the scanner; the lexer splits a text into blanks and spelled tokens. */
module FormulaSpelling {
  import Decimals
  import opened FormulaLexer

  // ---- Decimal numbers -------------------------------------------------------------------

  function DigitValue(c: char): real { (c as int - '0' as int) as real }

  /** The digits before the point, by place. */
  function Whole(s: string): real {
    if s == "" then 0.0 else 10.0 * Whole(s[..|s| - 1]) + DigitValue(s[|s| - 1])
  }

  /** The digits after the point, by place: tenths, hundredths and so on. */
  function Fraction(s: string): real {
    if s == "" then 0.0 else Fraction(s[..|s| - 1]) + DigitValue(s[|s| - 1]) / Pow10(|s|) as real
  }

  /** A numeral with or without a decimal point, and its value. */
  ghost predicate Denotes(w: string, v: real) {
    || (w != "" && Decimals.AllDigits(w) && v == Whole(w))
    || exists k :: PointAt(w, k) && v == Whole(w[..k]) + Fraction(w[k + 1..])
  }

  /** The point comes after at least one digit; none need follow it. */
  ghost predicate PointAt(w: string, k: int) {
    0 < k < |w| && w[k] == '.' && Decimals.AllDigits(w[..k]) && Decimals.AllDigits(w[k + 1..])
  }

  lemma {:induction false} MantissaWhole(s: string)
    requires Decimals.AllDigits(s)
    ensures Mantissa(s) as real == Whole(s)
  {
    if s == "" {
    } else {
      MantissaWhole(s[..|s| - 1]);
    }
  }

  lemma MantissaLast(s: string)
    requires s != ""
    ensures var front, last := s[..|s| - 1], s[|s| - 1];
            Mantissa(s) as real
            == if Digit(last) then 10.0 * Mantissa(front) as real + DigitValue(last) else Mantissa(front) as real
  {
  }

  /** Cutting the last digit off a number with a point. */
  lemma CutLast(a: string, b: string)
    ensures var w := a + "." + b;
            if b == "" then w[..|w| - 1] == a && w[|w| - 1] == '.'
            else w[..|w| - 1] == a + "." + b[..|b| - 1] && w[|w| - 1] == b[|b| - 1]
  {
  }

  lemma {:induction false} MantissaPoint(a: string, b: string)
    requires Decimals.AllDigits(a) && Decimals.AllDigits(b)
    ensures Mantissa(a + "." + b) as real == Whole(a) * Pow10(|b|) as real + Whole(b)
  {
    hide Mantissa, Pow10, Whole, Decimals.AllDigits;
    MantissaLast(a + "." + b);
    CutLast(a, b);
    if b == "" {
      MantissaWhole(a);
      PowZero();
      WholeNone();
    } else {
      var front := b[..|b| - 1];
      DigitsCut(b);
      MantissaPoint(a, front);
      TenTimes(Whole(a), |b|);
      WholeLast(b);
      Shift(Mantissa(a + "." + front) as real, Whole(a) * Pow10(|front|) as real, Whole(front));
    }
  }

  lemma WholeNone()
    ensures Whole("") == 0.0
  {
  }

  lemma WholeLast(s: string)
    requires s != ""
    ensures Whole(s) == 10.0 * Whole(s[..|s| - 1]) + DigitValue(s[|s| - 1])
  {
  }

  lemma DigitsCut(s: string)
    requires s != "" && Decimals.AllDigits(s)
    ensures Decimals.AllDigits(s[..|s| - 1]) && Digit(s[|s| - 1])
  {
  }

  lemma Shift(m: real, x: real, y: real)
    requires m == x + y
    ensures 10.0 * m == 10.0 * x + 10.0 * y
  {
  }

  lemma TenTimes(x: real, n: nat)
    requires n > 0
    ensures 10.0 * (x * Pow10(n - 1) as real) == x * Pow10(n) as real
  {
    assert Pow10(n) as real == 10.0 * Pow10(n - 1) as real;
  }

  lemma {:induction false} FractionWhole(b: string)
    ensures Fraction(b) * Pow10(|b|) as real == Whole(b)
  {
    if b == "" {
    } else {
      var n := |b|;
      var front, d, p := b[..n - 1], DigitValue(b[n - 1]), Pow10(n) as real;
      FractionWhole(front);
      TenTimes(Fraction(front), n);
      Spread(Fraction(front), d, p);
    }
  }

  lemma Spread(x: real, d: real, p: real)
    requires p > 0.0
    ensures (x + d / p) * p == x * p + d
  {
  }

  lemma {:induction false} DigitsAfter(a: string, b: string)
    requires Decimals.AllDigits(a) && Decimals.AllDigits(b)
    ensures FractionDigits(a + "." + b) == |b| && FractionDigits(a) == 0
  {
    var w := a + "." + b;
    if a == "" {
    } else {
      assert w[1..] == a[1..] + "." + b && w[0] == a[0];
      DigitsAfter(a[1..], b);
    }
  }

  lemma Quotient(m: real, x: real, y: real, z: real, p: real)
    requires p > 0.0 && m == x * p + z && y * p == z
    ensures m / p == x + y
  {
    assert (x + y) * p == m;
    assert (x + y) * p / p == x + y;
  }

  /** The scanner's numerals are the spelled ones, each worth what its digits say by place. */
  lemma NumeralDenotes(w: string, v: real)
    ensures Numeral(w) && NumeralValue(w) == v <==> Denotes(w, v)
  {
    if Numeral(w) { ValueDenotes(w, v); }
    if Denotes(w, v) { DenotesNumeral(w, v); }
  }

  lemma DenotesNumeral(w: string, v: real)
    requires Denotes(w, v)
    ensures Numeral(w) && NumeralValue(w) == v
  {
    hide Whole, Fraction, NumeralValue;
    if w != "" && Decimals.AllDigits(w) {
      DotsNone(w);
    } else {
      var k :| PointAt(w, k) && v == Whole(w[..k]) + Fraction(w[k + 1..]);
      PointNumeral(w, k);
    }
    ValueDenotes(w, v);
  }

  lemma PointNumeral(w: string, k: int)
    requires PointAt(w, k)
    ensures Numeral(w)
  {
    DotsSplit(w, k);
    DotsNone(w[..k]);
    DotsNone(w[k + 1..]);
    assert w[k..][1..] == w[k + 1..];
    forall i | 0 <= i < |w| ensures Digit(w[i]) || w[i] == '.' {
      if i < k { assert w[..k][i] == w[i]; }
      if i > k { assert w[k + 1..][i - k - 1] == w[i]; }
    }
  }

  lemma ValueDenotes(w: string, v: real)
    requires Numeral(w)
    ensures NumeralValue(w) == v <==> Denotes(w, v)
  {
    hide Whole, Fraction, Mantissa, FractionDigits, Pow10, Numeral;
    PointOrNone(w);
    if Decimals.AllDigits(w) {
      MantissaWhole(w);
      DigitsAfter(w, "");
      PowZero();
    }
    forall k | PointAt(w, k) ensures NumeralValue(w) == Whole(w[..k]) + Fraction(w[k + 1..]) { PointValue(w, k); }
  }

  lemma PowZero()
    ensures Pow10(0) == 1
  {
  }

  lemma PointValue(w: string, k: int)
    requires PointAt(w, k)
    ensures NumeralValue(w) == Whole(w[..k]) + Fraction(w[k + 1..])
  {
    hide NumeralValue, Whole, Fraction;
    assert w == w[..k] + "." + w[k + 1..];
    PartsValue(w[..k], w[k + 1..]);
  }

  lemma PartsValue(a: string, b: string)
    requires Decimals.AllDigits(a) && Decimals.AllDigits(b)
    ensures NumeralValue(a + "." + b) == Whole(a) + Fraction(b)
  {
    hide Whole, Fraction, Mantissa, FractionDigits, Pow10, Decimals.AllDigits;
    MantissaPoint(a, b);
    FractionWhole(b);
    DigitsAfter(a, b);
    Quotient(Mantissa(a + "." + b) as real, Whole(a), Fraction(b), Whole(b), Pow10(|b|) as real);
  }

  lemma {:induction false} DotsNone(s: string)
    requires forall i :: 0 <= i < |s| ==> Digit(s[i]) || s[i] == '.'
    ensures Dots(s) == 0 <==> Decimals.AllDigits(s)
  {
    if s == "" {
    } else {
      DotsNone(s[1..]);
      assert Decimals.AllDigits(s) <==> Digit(s[0]) && Decimals.AllDigits(s[1..]) by {
        if Decimals.AllDigits(s[1..]) { forall i | 1 <= i < |s| ensures Digit(s[i]) { assert s[1..][i - 1] == s[i]; } }
      }
    }
  }

  lemma {:induction false} DotsSplit(s: string, k: nat)
    requires k < |s|
    ensures Dots(s) == Dots(s[..k]) + Dots(s[k..])
  {
    if k == 0 {
      assert s[..0] == "" && s[0..] == s;
    } else {
      DotsSplit(s[1..], k - 1);
      assert s[1..][..k - 1] == s[..k][1..] && s[1..][k - 1..] == s[k..];
    }
  }

  lemma PointOrNone(w: string)
    requires Numeral(w)
    ensures w != "" && (Decimals.AllDigits(w) || exists k :: PointAt(w, k))
    ensures Decimals.AllDigits(w) ==> forall k :: !PointAt(w, k)
  {
    if !Decimals.AllDigits(w) {
      var k :| 0 <= k < |w| && !('0' <= w[k] <= '9');
      assert Digit(w[k]) || w[k] == '.';
      DotsSplit(w, k);
      DotsNone(w[..k]);
      DotsNone(w[k + 1..]);
      assert w[k..][1..] == w[k + 1..];
      assert PointAt(w, k);
    }
  }

  // ---- Spellings -------------------------------------------------------------------------

  predicate WordChar(u: Unicode, c: char) { u.alphanumeric(c) || c == '_' || c == '.' }

  /** A letter or underscore, then letters, digits, underscores and points. */
  predicate WordShape(u: Unicode, w: string) {
    && w != "" && !Structural(w[0]) && (u.alphabetic(w[0]) || w[0] == '_')
    && forall i :: 1 <= i < |w| ==> WordChar(u, w[i])
  }

  /** A keyword in any case. */
  predicate Keyword(u: Unicode, w: string, keyword: string) { WordShape(u, w) && u.lowercase(w) == keyword }

  predicate Quoted(w: string, q: char, text: string) { w == [q] + text + [q] && q !in text }

  ghost predicate Spells(u: Unicode, w: string, t: Token) {
    match t
    case Number(v) =>
      Denotes(w, v) || (Keyword(u, w, "true") && v == 1.0) || (Keyword(u, w, "false") && v == 0.0)
    case Str(text) => Quoted(w, '"', text) || Quoted(w, '\'', text)
    case Ident(name) =>
      w == name && WordShape(u, w) && u.lowercase(w) !in {"and", "or", "not", "true", "false"}
    case And => w == "&&" || Keyword(u, w, "and")
    case Or => w == "||" || Keyword(u, w, "or")
    case Not => w == "!" || Keyword(u, w, "not")
    case Plus => w == "+"
    case Minus => w == "-"
    case Star => w == "*"
    case Slash => w == "/"
    case Percent => w == "%"
    case LParen => w == "("
    case RParen => w == ")"
    case Comma => w == ","
    case Eq => w == "=="
    case Neq => w == "!="
    case Lt => w == "<"
    case Lte => w == "<="
    case Gt => w == ">"
    case Gte => w == ">="
    case Eof => false
  }

  /** What the scanner emits is spelled by the characters it took. */
  lemma ScanSpells(u: Unicode, s: string, i: nat)
    requires i < |s| && ScanAt(u, s, i).Emit?
    ensures Spells(u, s[i..ScanAt(u, s, i).next], ScanAt(u, s, i).token)
  {
    hide Spells;
    var c := s[i];
    if Symbol(c) {
      SymbolSpells(u, s, i);
    } else if Quote(c) {
      StringSpells(u, s, i);
    } else if Digit(c) {
      NumberSpells(u, s, i);
    } else {
      WordSpells(u, s, i);
    }
  }

  lemma SymbolSpells(u: Unicode, s: string, i: nat)
    requires i < |s| && Symbol(s[i]) && ScanSymbol(s, i).Emit?
    ensures Spells(u, s[i..ScanSymbol(s, i).next], ScanSymbol(s, i).token)
  {
    hide WordShape, Denotes, Quoted;
    assert s[i..i + 1] == [s[i]];
    if i + 1 < |s| { assert s[i..i + 2] == [s[i], s[i + 1]]; }
  }

  lemma StringSpells(u: Unicode, s: string, i: nat)
    requires i < |s| && Quote(s[i]) && ScanString(u, s, i).Emit?
    ensures Spells(u, s[i..ScanString(u, s, i).next], ScanString(u, s, i).token)
  {
    var j := RunEnd(u, s, i + 1, Except(s[i]));
    assert s[i..j + 1] == [s[i]] + s[i + 1..j] + [s[i]];
  }

  lemma NumberSpells(u: Unicode, s: string, i: nat)
    requires i < |s| && Digit(s[i]) && ScanNumber(u, s, i).Emit?
    ensures Spells(u, s[i..ScanNumber(u, s, i).next], ScanNumber(u, s, i).token)
  {
    hide Denotes, NumeralValue;
    var w := s[i..RunEnd(u, s, i, NumberChars)];
    assert Numeral(w);
    NumeralDenotes(w, NumeralValue(w));
  }

  lemma WordSpells(u: Unicode, s: string, i: nat)
    requires i < |s| && !Structural(s[i]) && (u.alphabetic(s[i]) || s[i] == '_')
    ensures Spells(u, s[i..ScanWord(u, s, i).next], ScanWord(u, s, i).token)
  {
    var w := s[i..RunEnd(u, s, i + 1, WordChars)];
    forall x | 1 <= x < |w| ensures WordChar(u, w[x]) { assert w[x] == s[i + x] && InClass(u, WordChars, s[i + x]); }
  }

  /** Any spelling of a token before a blank or the end is scanned as that token, whatever comes before and after. */
  lemma SpellingScans(u: Unicode, s: string, i: nat, w: string, t: Token)
    requires Spells(u, w, t) && Spelled(s, i, w) && !u.alphanumeric(' ')
    ensures ScanAt(u, s, i) == Emit(t, i + |w|)
  {
    if WordShape(u, w) {
      WordScans(u, s, i, w);
      hide ScanAt, Denotes;
      if t.Number? { WordDenotesNothing(u, w, t.value); }
    } else if t.Number? {
      hide ScanAt, Denotes, Numeral, NumeralValue;
      NumeralDenotes(w, t.value);
      ScanNumeral(u, s, i, w);
    } else if t.Str? {
      ScanQuoted(u, s, i, w[0], t.text);
    } else {
      OperatorScans(u, s, i, w, t);
    }
  }

  lemma WordDenotesNothing(u: Unicode, w: string, v: real)
    requires WordShape(u, w)
    ensures !Denotes(w, v)
  {
    hide Whole, Fraction;
    forall k ensures !PointAt(w, k) {
      if 0 < k < |w| { assert w[..k][0] == w[0]; }
    }
  }

  lemma OperatorScans(u: Unicode, s: string, i: nat, w: string, t: Token)
    requires Spells(u, w, t) && Spelled(s, i, w) && !WordShape(u, w) && !t.Number? && !t.Str?
    ensures ScanAt(u, s, i) == Emit(t, i + |w|)
  {
    SpelledAt(s, i, w, 0);
    SpelledAt(s, i, w, |w| - 1);
  }

  lemma WordScans(u: Unicode, s: string, i: nat, w: string)
    requires WordShape(u, w) && Spelled(s, i, w) && !u.alphanumeric(' ')
    ensures ScanAt(u, s, i) == Emit(Word(u, w), i + |w|)
  {
    forall x | i <= x < i + |w| ensures s[x] == w[x - i] { SpelledAt(s, i, w, x - i); }
    RunEndIs(u, s, i + 1, i + |w|, WordChars);
  }

  /** A text that consists of spelled tokens and blanks alone. */
  ghost predicate Tokenizes(u: Unicode, s: string, ts: seq<Token>)
    decreases |s|
  {
    if s != "" && Blank(s[0]) then Tokenizes(u, s[1..], ts)
    else if ts == [] then s == ""
    else exists j :: 0 < j <= |s| && Spells(u, s[..j], ts[0]) && Tokenizes(u, s[j..], ts[1..])
  }

  /** The lexer loses nothing: apart from blanks, the text is the spellings of its tokens, in order. */
  lemma {:induction false} LexTokenizes(u: Unicode, s: string, i: nat, count: nat, limit: nat)
    requires i <= |s| && LexFrom(u, s, i, count, limit).Lexed?
    ensures Tokenizes(u, s[i..], Body(LexFrom(u, s, i, count, limit).tokens))
    decreases |s| - i
  {
    hide ScanAt, Spells;
    if i >= |s| {
    } else {
      var scan := ScanAt(u, s, i);
      BlankSkips(u, s, i);
      if scan.Skip? {
        LexTokenizes(u, s, scan.next, count, limit);
        assert s[i..][1..] == s[i + 1..];
      } else {
        LexTokenizes(u, s, scan.next, count + 1, limit);
        ScanSpells(u, s, i);
        var rest, j := LexFrom(u, s, scan.next, count + 1, limit).tokens, scan.next - i;
        BodyOf(u, s, scan.next, count + 1, limit, scan.token);
        assert s[i..][..j] == s[i..scan.next] && s[i..][j..] == s[scan.next..];
        assert 0 < j <= |s[i..]| && Spells(u, s[i..][..j], scan.token) && Tokenizes(u, s[i..][j..], Body(rest));
      }
    }
  }

  lemma BlankSkips(u: Unicode, s: string, i: nat)
    requires i < |s|
    ensures var scan := ScanAt(u, s, i); (scan.Skip? <==> Blank(s[i])) && (scan.Skip? ==> scan.next == i + 1)
  {
  }

  lemma BodyOf(u: Unicode, s: string, i: nat, count: nat, limit: nat, t: Token)
    requires i <= |s| && LexFrom(u, s, i, count, limit).Lexed?
    ensures var rest := LexFrom(u, s, i, count, limit).tokens;
            Body([t] + rest) != [] && Body([t] + rest)[0] == t && Body([t] + rest)[1..] == Body(rest)
  {
    NeverEmpty(u, s, i, count, limit);
  }

  lemma {:induction false} NeverEmpty(u: Unicode, s: string, i: nat, count: nat, limit: nat)
    requires i <= |s| && LexFrom(u, s, i, count, limit).Lexed?
    ensures LexFrom(u, s, i, count, limit).tokens != []
    decreases |s| - i
  {
    hide ScanAt;
    if i < |s| && ScanAt(u, s, i).Skip? { NeverEmpty(u, s, ScanAt(u, s, i).next, count, limit); }
  }
}
