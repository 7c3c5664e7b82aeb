/** Printing a tree with only the parentheses it needs; the printed form is in the grammar, so parsing undoes it. */
module FormulaPrinter {
  import opened Common
  import opened FormulaLexer
  import opened FormulaParser
  import opened FormulaGrammar

  /** The level whose grammar rule builds the tree's root. */
  function Prec(e: Expr): nat {
    match e
    case Binary(op, _, _) => OpLevel(op)
    case Unary(_, _) => UNARY
    case _ => PRIMARY
  }

  function Print(e: Expr, level: nat): seq<Token>
    decreases e, 1
  {
    if Prec(e) >= level then PrintBare(e) else [LParen] + PrintBare(e) + [RParen]
  }

  function PrintBare(e: Expr): seq<Token>
    decreases e, 0
  {
    match e
    case Num(v) => [Number(v)]
    case Text(s) => [Str(s)]
    case Bool(b) => [Number(if b then 1.0 else 0.0)] // the parser builds no such node
    case Variable(name) => [Ident(name)]
    case Binary(op, l, r) => Print(l, LeftLevel(OpLevel(op))) + ([OpToken(op)] + Print(r, OpLevel(op) + 1))
    case Unary(op, operand) => [PrefixToken(op)] + Print(operand, UNARY)
    case Call(func, args) => [Ident(func), LParen] + PrintArgs(args) + [RParen]
  }

  function PrintArgs(args: seq<Expr>): seq<Token>
    decreases args, 0
  {
    if args == [] then []
    else if |args| == 1 then Print(args[0], 0)
    else Print(args[0], 0) + ([Comma] + PrintArgs(args[1..]))
  }

  /** How deep the parser nests when it reads the printed form. */
  function Nesting(e: Expr, level: nat): nat
    decreases e, 1
  {
    NestingBare(e) + if Prec(e) >= level then 0 else 1
  }

  function NestingBare(e: Expr): nat
    decreases e, 0
  {
    match e
    case Binary(op, l, r) => Max(Nesting(l, LeftLevel(OpLevel(op))), Nesting(r, OpLevel(op) + 1))
    case Unary(_, operand) => 1 + Nesting(operand, UNARY)
    case Call(_, args) => NestingArgs(args)
    case _ => 0
  }

  function NestingArgs(args: seq<Expr>): nat
    decreases args, 0
  {
    if args == [] then 0 else Max(1 + Nesting(args[0], 0), NestingArgs(args[1..]))
  }

  /** Trees the grammar can build from lexable leaves. */
  ghost predicate WellFormed(u: Unicode, e: Expr)
    decreases e, 1
  {
    match e
    case Num(v) => Lexable(u, Number(v))
    case Text(s) => Lexable(u, Str(s))
    case Bool(_) => false
    case Variable(name) => Lexable(u, Ident(name))
    case Binary(_, l, r) => WellFormed(u, l) && WellFormed(u, r)
    case Unary(_, operand) => WellFormed(u, operand)
    case Call(func, args) => Lexable(u, Ident(func)) && |args| <= MAX_ARGS && AllWellFormed(u, args)
  }

  ghost predicate AllWellFormed(u: Unicode, es: seq<Expr>)
    decreases es, 0
  {
    es != [] ==> WellFormed(u, es[0]) && AllWellFormed(u, es[1..])
  }

  // ---- Printed trees consist of lexable tokens -------------------------------------------

  lemma {:induction false} PrintLexable(u: Unicode, e: Expr, level: nat)
    requires WellFormed(u, e)
    ensures AllLexable(u, Print(e, level))
    decreases e, 1
  {
    PrintBareLexable(u, e);
  }

  lemma {:induction false} PrintBareLexable(u: Unicode, e: Expr)
    requires WellFormed(u, e)
    ensures AllLexable(u, PrintBare(e))
    decreases e, 0
  {
    match e {
      case Binary(op, l, r) =>
        PrintLexable(u, l, LeftLevel(OpLevel(op)));
        PrintLexable(u, r, OpLevel(op) + 1);
        assert Lexable(u, OpToken(op));
      case Unary(_, operand) => PrintLexable(u, operand, UNARY);
      case Call(_, args) => PrintArgsLexable(u, args);
      case _ =>
    }
  }

  lemma {:induction false} PrintArgsLexable(u: Unicode, args: seq<Expr>)
    requires AllWellFormed(u, args)
    ensures AllLexable(u, PrintArgs(args))
    decreases args, 0
  {
    if args == [] {
    } else {
      PrintLexable(u, args[0], 0);
      PrintArgsLexable(u, args[1..]);
    }
  }

  // ---- Printed trees are in the grammar --------------------------------------------------

  /** The printed form derives the tree at its level, and parentheses are the only nesting it adds. */
  lemma {:induction false} PrintDerives(u: Unicode, e: Expr, level: nat)
    requires level <= PRIMARY && WellFormed(u, e)
    ensures Derives(Print(e, level), level, e, Nesting(e, level))
    decreases e, 2
  {
    hide Derives, PrintBare, NestingBare, WellFormed;
    BareDerives(u, e);
    if Prec(e) >= level {
      DerivesLower(PrintBare(e), Prec(e), level, e, NestingBare(e));
    } else {
      DerivesLower(PrintBare(e), Prec(e), 0, e, NestingBare(e));
      DerivesInner(PrintBare(e), e, NestingBare(e));
      DerivesLower(Print(e, level), PRIMARY, level, e, Nesting(e, level));
    }
  }

  lemma {:induction false} BareDerives(u: Unicode, e: Expr)
    requires WellFormed(u, e)
    ensures Prec(e) <= PRIMARY && Derives(PrintBare(e), Prec(e), e, NestingBare(e))
    decreases e, 1
  {
    hide Derives, Print, Nesting, PrintArgs, NestingArgs, OpToken, Lexable;
    match e {
      case Num(v) => LeafDerives(Number(v), e, 0);
      case Text(s) => LeafDerives(Str(s), e, 0);
      case Variable(name) => LeafDerives(Ident(name), e, 0);
      case Unary(op, operand) =>
        PrintDerives(u, operand, UNARY);
        DerivesPrefix(Print(operand, UNARY), op, operand, Nesting(operand, UNARY));
      case Binary(op, l, r) => BinaryDerives(u, op, l, r);
      case Call(func, args) =>
        ArgsDerive(u, args);
        DerivesCall(PrintArgs(args), func, args, NestingArgs(args));
    }
  }

  lemma {:induction false} BinaryDerives(u: Unicode, op: BinOp, l: Expr, r: Expr)
    requires WellFormed(u, l) && WellFormed(u, r)
    ensures OpLevel(op) < UNARY
    ensures Derives(PrintBare(Binary(op, l, r)), OpLevel(op), Binary(op, l, r), NestingBare(Binary(op, l, r)))
    decreases Binary(op, l, r), 0
  {
    hide Derives, Print, Nesting, WellFormed;
    var left, right, n := LeftLevel(OpLevel(op)), OpLevel(op) + 1, NestingBare(Binary(op, l, r));
    PrintDerives(u, l, left);
    PrintDerives(u, r, right);
    DerivesDeeper(Print(l, left), left, l, Nesting(l, left), n);
    DerivesDeeper(Print(r, right), right, r, Nesting(r, right), n);
    DerivesBinary(Print(l, left), Print(r, right), op, l, r, n);
    assert PrintBare(Binary(op, l, r)) == Print(l, left) + [OpToken(op)] + Print(r, right);
  }

  lemma {:induction false} ArgsDerive(u: Unicode, args: seq<Expr>)
    requires AllWellFormed(u, args)
    ensures DerivesArgs(PrintArgs(args), args, NestingArgs(args))
    decreases args, 0
  {
    hide Derives, Print, Nesting, WellFormed;
    if args == [] {
    } else {
      var first, n := args[0], NestingArgs(args);
      PrintDerives(u, first, 0);
      DerivesDeeper(Print(first, 0), 0, first, Nesting(first, 0), n - 1);
      if |args| > 1 {
        ArgsDerive(u, args[1..]);
        ArgsDeeper(PrintArgs(args[1..]), args[1..], NestingArgs(args[1..]), n);
        DerivesMore(Print(first, 0), PrintArgs(args[1..]), first, args[1..], n);
        assert [first] + args[1..] == args;
        assert PrintArgs(args) == Print(first, 0) + [Comma] + PrintArgs(args[1..]);
      }
    }
  }

  /** A derivation that nests less deeply is one that nests no deeper. */
  lemma {:induction false} DerivesDeeper(w: seq<Token>, level: nat, e: Expr, n: nat, m: nat)
    requires level <= PRIMARY && n <= m && Derives(w, level, e, n)
    ensures Derives(w, level, e, m)
    decreases |w|, PRIMARY - level, 1
  {
    hide DerivesArgs;
    if level == PRIMARY {
      if n > 0 && |w| >= 2 && w[0] == LParen && w[|w| - 1] == RParen && Derives(w[1..|w| - 1], 0, e, n - 1) {
        DerivesDeeper(w[1..|w| - 1], 0, e, n - 1, m - 1);
      } else if |w| >= 3 {
        ArgsDeeper(w[2..|w| - 1], e.args, n, m);
      }
    } else if Derives(w, level + 1, e, n) {
      DerivesDeeper(w, level + 1, e, n, m);
    } else if level == UNARY {
      DerivesDeeper(w[1..], UNARY, e.operand, n - 1, m - 1);
    } else {
      var i :| Divides(w, i, OpToken(e.op))
        && Derives(w[..i], LeftLevel(level), e.left, n) && Derives(w[i + 1..], level + 1, e.right, n);
      DerivesDeeper(w[..i], LeftLevel(level), e.left, n, m);
      DerivesDeeper(w[i + 1..], level + 1, e.right, n, m);
    }
  }

  lemma {:induction false} ArgsDeeper(w: seq<Token>, args: seq<Expr>, n: nat, m: nat)
    requires n <= m && DerivesArgs(w, args, n)
    ensures DerivesArgs(w, args, m)
    decreases |w|, PRIMARY + 1, 0
  {
    hide Derives;
    if args == [] {
    } else if |args| == 1 {
      DerivesDeeper(w, 0, args[0], n - 1, m - 1);
    } else {
      var i :|
        Divides(w, i, Comma) && Derives(w[..i], 0, args[0], n - 1) && DerivesArgs(w[i + 1..], args[1..], n);
      DerivesDeeper(w[..i], 0, args[0], n - 1, m - 1);
      ArgsDeeper(w[i + 1..], args[1..], n, m);
    }
  }

  /** At every level, position and counter with room, parsing the printed form gives the tree back. */
  lemma ParsePrint(ts: seq<Token>, level: nat, st: State, depth: nat, u: Unicode, e: Expr) returns (to: State)
    requires level <= PRIMARY && WellFormed(u, e)
    requires Room(ts, st, depth, Nesting(e, level))
    requires Occurs(ts, st.pos, Print(e, level))
    requires MayFollow(level, Peek(ts, st.pos + |Print(e, level)|))
    ensures Advanced(st, to, |Print(e, level)|) && ReadsBack(ts, level, st, depth, e, to)
  {
    hide *;
    PrintDerives(u, e, level);
    to := ParseComplete(ts, level, st, depth, Print(e, level), e, Nesting(e, level));
  }
}
