/** Which trees the parser can produce, and the round trip between text and tree. */
module FormulaRoundTrip {
  import opened FormulaLexer
  import opened FormulaParser
  import opened FormulaGrammar
  import opened FormulaPrinter
  import opened FormulaSpelling

  /** A tree prints within `k` tokens and `n` nesting steps at this level. */
  ghost predicate Fits(u: Unicode, e: Expr, level: nat, k: int, n: int) {
    WellFormed(u, e) && |Print(e, level)| <= k && Nesting(e, level) <= n
  }

  lemma Loosen(u: Unicode, e: Expr, from: nat, to: nat, k: int, n: int)
    requires to <= from && Fits(u, e, from, k, n)
    ensures Fits(u, e, to, k, n)
  {
  }

  /** The printed form of a derived tree takes no more tokens and nests no deeper than the derivation. */
  lemma {:induction false} DerivedFits(u: Unicode, w: seq<Token>, level: nat, e: Expr, n: nat)
    requires level <= PRIMARY && AllLexable(u, w) && Derives(w, level, e, n)
    ensures Fits(u, e, level, |w|, n)
    decreases |w|, PRIMARY - level, 1
  {
    hide Fits, DerivesArgs, Lexable;
    if level == PRIMARY {
      PrimaryFits(u, w, e, n);
    } else if Derives(w, level + 1, e, n) {
      DerivedFits(u, w, level + 1, e, n);
      Loosen(u, e, level + 1, level, |w|, n);
    } else if level == UNARY {
      DerivedFits(u, w[1..], UNARY, e.operand, n - 1);
      UnaryNodeFits(u, e.uop, e.operand, |w| - 1, n - 1);
    } else {
      var i :| Divides(w, i, OpToken(e.op))
        && Derives(w[..i], LeftLevel(level), e.left, n) && Derives(w[i + 1..], level + 1, e.right, n);
      DerivedFits(u, w[..i], LeftLevel(level), e.left, n);
      DerivedFits(u, w[i + 1..], level + 1, e.right, n);
      BinaryNodeFits(u, level, e.op, e.left, e.right, i, |w| - i - 1, n);
    }
  }

  lemma UnaryNodeFits(u: Unicode, op: UnOp, e: Expr, k: int, n: int)
    requires Fits(u, e, UNARY, k, n)
    ensures Fits(u, Unary(op, e), UNARY, k + 1, n + 1)
  {
    assert Print(Unary(op, e), UNARY) == PrintBare(Unary(op, e));
  }

  lemma BinaryNodeFits(u: Unicode, level: nat, op: BinOp, l: Expr, r: Expr, k: int, m: int, n: int)
    requires OpLevel(op) == level && Fits(u, l, LeftLevel(level), k, n) && Fits(u, r, level + 1, m, n)
    ensures Fits(u, Binary(op, l, r), level, k + 1 + m, n)
  {
    var e := Binary(op, l, r);
    assert Print(e, level) == PrintBare(e) == Print(l, LeftLevel(level)) + ([OpToken(op)] + Print(r, level + 1));
    assert Nesting(e, level) == NestingBare(e);
  }

  lemma {:induction false} PrimaryFits(u: Unicode, w: seq<Token>, e: Expr, n: nat)
    requires AllLexable(u, w) && DerivesPrimary(w, e, n)
    ensures Fits(u, e, PRIMARY, |w|, n)
    decreases |w|, 0, 0
  {
    hide Fits, Derives, DerivesArgs, Lexable;
    if n > 0 && |w| >= 2 && w[0] == LParen && w[|w| - 1] == RParen && Derives(w[1..|w| - 1], 0, e, n - 1) {
      DerivedFits(u, w[1..|w| - 1], 0, e, n - 1);
      ParensFit(u, e, |w| - 2, n - 1);
    } else if e.Call? {
      assert Lexable(u, Ident(e.func)) by { assert Lexable(u, w[0]); }
      ArgsFit(u, w[2..|w| - 1], e.args, n);
      CallFits(u, e.func, e.args, |w| - 3, n);
    } else {
      LeafFits(u, w[0], e, n);
    }
  }

  lemma LeafFits(u: Unicode, t: Token, e: Expr, n: nat)
    requires Lexable(u, t)
    requires match e
             case Num(v) => t == Number(v)
             case Text(s) => t == Str(s)
             case Variable(x) => t == Ident(x)
             case _ => false
    ensures Fits(u, e, PRIMARY, 1, n)
  {
    assert Print(e, PRIMARY) == PrintBare(e) && Nesting(e, PRIMARY) == NestingBare(e);
  }

  /** Reading a parenthesised tree costs at least the parentheses its printed form may need. */
  lemma ParensFit(u: Unicode, e: Expr, k: int, n: int)
    requires Fits(u, e, 0, k, n)
    ensures Fits(u, e, PRIMARY, k + 2, n + 1)
  {
    assert Print(e, 0) == PrintBare(e) && Nesting(e, 0) == NestingBare(e);
  }

  lemma CallFits(u: Unicode, func: string, args: seq<Expr>, k: int, n: int)
    requires Lexable(u, Ident(func)) && |args| <= MAX_ARGS && AllWellFormed(u, args)
    requires |PrintArgs(args)| <= k && NestingArgs(args) <= n
    ensures Fits(u, Call(func, args), PRIMARY, k + 3, n)
  {
    var e := Call(func, args);
    assert Print(e, PRIMARY) == PrintBare(e) == [Ident(func), LParen] + PrintArgs(args) + [RParen];
    assert Nesting(e, PRIMARY) == NestingBare(e) == NestingArgs(args);
  }

  lemma {:induction false} ArgsFit(u: Unicode, w: seq<Token>, args: seq<Expr>, n: nat)
    requires AllLexable(u, w) && DerivesArgs(w, args, n)
    ensures AllWellFormed(u, args) && |PrintArgs(args)| <= |w| && NestingArgs(args) <= n
    decreases |w|, PRIMARY + 1, 0
  {
    hide Derives, WellFormed, Print, Nesting, Lexable;
    if args == [] {
    } else if |args| == 1 {
      DerivedFits(u, w, 0, args[0], n - 1);
    } else {
      var i :|
        Divides(w, i, Comma) && Derives(w[..i], 0, args[0], n - 1) && DerivesArgs(w[i + 1..], args[1..], n);
      DerivedFits(u, w[..i], 0, args[0], n - 1);
      ArgsFit(u, w[i + 1..], args[1..], n);
    }
  }

  // ---- Whole texts -----------------------------------------------------------------------

  /** The trees some text parses to. */
  ghost predicate Producible(u: Unicode, e: Expr) {
    exists input :: Parse(u, input) == Ok(e)
  }

  /** The trees whose printed form the limits allow. */
  ghost predicate Printable(u: Unicode, e: Expr) {
    Fits(u, e, 0, MAX_TOKENS, MAX_DEPTH)
  }

  ghost function Format(u: Unicode, e: Expr): string
    requires Printable(u, e)
  {
    PrintLexable(u, e, 0);
    Render(u, Print(e, 0))
  }

  /** Whatever parses is printable: its tokens and their nesting are at least those its printed form needs. */
  lemma ParsedIsPrintable(u: Unicode, input: string)
    requires Parse(u, input).Ok?
    ensures Printable(u, Parse(u, input).expr)
  {
    hide Parse, LexFrom, Derives, Print, Nesting, WellFormed, Lexable;
    var e := Parse(u, input).expr;
    AcceptsExactly(u, input, e);
    var ts := LexFrom(u, input, 0, 0, MAX_TOKENS).tokens;
    LexImage(u, input, 0, 0, MAX_TOKENS);
    DerivedFits(u, Body(ts), 0, e, MAX_DEPTH);
  }

  /** An accepted text is spelled tokens and blanks, and its tree is what the grammar makes of all of those tokens. */
  lemma AcceptedTextSpells(u: Unicode, input: string) returns (ts: seq<Token>)
    requires Parse(u, input).Ok?
    ensures Tokenizes(u, input, ts) && Derives(ts, 0, Parse(u, input).expr, MAX_DEPTH)
  {
    hide Parse, LexFrom, Derives, Tokenizes;
    AcceptsExactly(u, input, Parse(u, input).expr);
    LexTokenizes(u, input, 0, 0, MAX_TOKENS);
    assert input[0..] == input;
    ts := Body(LexFrom(u, input, 0, 0, MAX_TOKENS).tokens);
  }

  /** Printing a printable tree and parsing the text gives the tree back. */
  lemma ParseFormat(u: Unicode, e: Expr)
    requires Printable(u, e) && !u.alphanumeric(' ')
    ensures Parse(u, Format(u, e)) == Ok(e)
  {
    hide Parse, Print, Nesting, WellFormed, Lexable, LexFrom, Derives;
    var w := Print(e, 0);
    PrintLexable(u, e, 0);
    LexerRoundTrip(u, w, MAX_TOKENS);
    PrintDerives(u, e, 0);
    DerivesDeeper(w, 0, e, Nesting(e, 0), MAX_DEPTH);
    assert Body(w + [Eof]) == w;
    AcceptsExactly(u, Format(u, e), e);
  }

  /** The trees the parser produces are exactly the printable ones. */
  lemma ProducibleIffPrintable(u: Unicode, e: Expr)
    requires !u.alphanumeric(' ')
    ensures Producible(u, e) <==> Printable(u, e)
  {
    if Printable(u, e) { ParseFormat(u, e); }
    forall input | Parse(u, input) == Ok(e) ensures Printable(u, e) { ParsedIsPrintable(u, input); }
  }

  /** Every text that parses has a canonical form with the same tree, and canonical forms are stable. */
  lemma FormatRoundTrip(u: Unicode, input: string)
    requires Parse(u, input).Ok? && !u.alphanumeric(' ')
    ensures Printable(u, Parse(u, input).expr)
    ensures var canonical := Format(u, Parse(u, input).expr);
            && Parse(u, canonical) == Parse(u, input)
            && Format(u, Parse(u, canonical).expr) == canonical
  {
    ParsedIsPrintable(u, input);
    ParseFormat(u, Parse(u, input).expr);
  }
}
