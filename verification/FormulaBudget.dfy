/** The lexer cap, the parser counters and the evaluator budget, taken together. */
module FormulaBudget {
  import opened FormulaLexer
  import opened FormulaParser

  // ---- Sizes of a tree -------------------------------------------------------------------

  function Size(e: Expr): (n: nat)
    ensures n >= 1
    decreases e, 1
  {
    1 + (match e
         case Binary(_, l, r) => Size(l) + Size(r)
         case Unary(_, operand) => Size(operand)
         case Call(_, args) => SizeAll(args)
         case _ => 0)
  }

  function SizeAll(es: seq<Expr>): nat
    decreases es, 0
  {
    if es == [] then 0 else Size(es[0]) + SizeAll(es[1..])
  }

  function Calls(e: Expr): nat
    decreases e, 1
  {
    match e
    case Binary(_, l, r) => Calls(l) + Calls(r)
    case Unary(_, operand) => Calls(operand)
    case Call(_, args) => 1 + CallsAll(args)
    case _ => 0
  }

  function CallsAll(es: seq<Expr>): nat
    decreases es, 0
  {
    if es == [] then 0 else Calls(es[0]) + CallsAll(es[1..])
  }

  // ---- One parse -------------------------------------------------------------------------

  /** The counters stay within what the tokens read so far and the nesting depth allow. */
  ghost predicate Within(ts: seq<Token>, st: State, depth: nat) {
    |ts| <= MAX_TOKENS + 1 && st.pos <= |ts| && depth <= MAX_DEPTH && st.nodes <= st.pos + depth
  }

  /** A tree of this size, with this many calls, is paid for by the tokens read between two states. */
  ghost predicate Paid(ts: seq<Token>, from: State, to: State, size: nat, calls: nat) {
    && from.pos < to.pos <= |ts| && ts[to.pos - 1] != Eof
    && size <= to.pos - from.pos
    && 3 * calls <= to.pos - from.pos
    && from.nodes <= to.nodes <= from.nodes + (to.pos - from.pos)
  }

  ghost predicate ParseWithin(ts: seq<Token>, r: ParseResult, from: State) {
    match r
    case Parsed(e, st) => Paid(ts, from, st, Size(e), Calls(e))
    case Failed(error) => error != NodeBudgetExceeded
  }

  lemma {:induction false} ParseBudget(ts: seq<Token>, level: nat, st: State, depth: nat)
    requires level <= PRIMARY && Within(ts, st, depth)
    ensures ParseWithin(ts, ParseAt(ts, level, st, depth), st)
    decreases Remaining(ts, st.pos), PRIMARY - level
  {
    if level == PRIMARY {
      PrimaryBudget(ts, st, depth);
    } else if level == UNARY {
      if PrefixOp(Peek(ts, st.pos)).None? {
        ParseBudget(ts, PRIMARY, st, depth);
      } else {
        GuardBudget(ts, UNARY, st.(pos := st.pos + 1), depth);
      }
    } else {
      ParseBudget(ts, level + 1, st, depth);
      var r := ParseAt(ts, level + 1, st, depth);
      if r.Parsed? { TailBudget(ts, level, r.expr, st, r.st, depth); }
    }
  }

  lemma OperatorInside(ts: seq<Token>, level: nat, pos: nat)
    ensures OpAt(level, Peek(ts, pos)).Some? ==> pos < |ts|
  {
  }

  lemma {:induction false} TailBudget(ts: seq<Token>, level: nat, left: Expr, from: State, st: State, depth: nat)
    requires level < UNARY && Within(ts, from, depth) && Within(ts, st, depth)
    requires Paid(ts, from, st, Size(left), Calls(left))
    ensures ParseWithin(ts, ParseTail(ts, level, left, st, depth), from)
    decreases Remaining(ts, st.pos), 10
  {
    OperatorInside(ts, level, st.pos);
    hide ParseAt, OpAt, Peek;
    var op := OpAt(level, Peek(ts, st.pos));
    if op.Some? {
      var st1 := st.(pos := st.pos + 1);
      ParseBudget(ts, level + 1, st1, depth);
      var r := ParseAt(ts, level + 1, st1, depth);
      if r.Parsed? {
        var e := Binary(op.value, left, r.expr);
        assert Size(e) == 1 + Size(left) + Size(r.expr) && Calls(e) == Calls(left) + Calls(r.expr);
        hide Size, Calls;
        if level < SUM && level != CMP {
          TailBudget(ts, level, e, from, r.st, depth);
        } else if level >= SUM {
          TailBudget(ts, level, e, from, r.st.(nodes := r.st.nodes + 1), depth);
        }
      }
    }
  }

  lemma {:induction false} GuardBudget(ts: seq<Token>, level: nat, st: State, depth: nat)
    requires level <= PRIMARY && Within(ts, st, depth)
    ensures match Guarded(ts, level, st, depth)
            case Parsed(e, st') => Paid(ts, st.(nodes := st.nodes + 1), st', Size(e), Calls(e))
            case Failed(error) => error != NodeBudgetExceeded
    decreases Remaining(ts, st.pos), 8
  {
    if depth < MAX_DEPTH {
      ParseBudget(ts, level, st.(nodes := st.nodes + 1), depth + 1);
    }
  }

  lemma {:induction false} PrimaryBudget(ts: seq<Token>, st: State, depth: nat)
    requires Within(ts, st, depth)
    ensures ParseWithin(ts, ParsePrimary(ts, st, depth), st)
    decreases Remaining(ts, st.pos), 0, 0
  {
    hide ParseAt, Guarded, ParseCallArgs, ParseArgList;
    var st1 := State(st.pos + 1, st.nodes + 1);
    match Peek(ts, st.pos) {
      case LParen =>
        GuardBudget(ts, 0, st1, depth);
      case Ident(name) =>
        if Peek(ts, st1.pos) == LParen {
          var st2 := st1.(pos := st1.pos + 1);
          CallArgsBudget(ts, st2, depth);
          var args := ParseCallArgs(ts, st2, depth);
          if args.Args? {
            assert Size(Call(name, args.args)) == 1 + SizeAll(args.args);
            assert Calls(Call(name, args.args)) == 1 + CallsAll(args.args);
          }
        }
      case _ =>
    }
  }

  /** Arguments are paid for by their own tokens, the closing parenthesis to spare. */
  ghost predicate ArgsWithin(ts: seq<Token>, r: ArgsResult, from: State) {
    match r
    case Args(args, st) =>
      && Paid(ts, from, st, SizeAll(args), CallsAll(args))
      && 3 * CallsAll(args) < st.pos - from.pos
    case ArgsFailed(error) => error != NodeBudgetExceeded
  }

  lemma {:induction false} CallArgsBudget(ts: seq<Token>, st: State, depth: nat)
    requires Within(ts, st, depth)
    ensures ArgsWithin(ts, ParseCallArgs(ts, st, depth), st)
    decreases Remaining(ts, st.pos), 10
  {
    if Peek(ts, st.pos) != RParen { ArgsBudget(ts, st, depth); }
  }

  lemma {:induction false} ArgsBudget(ts: seq<Token>, st: State, depth: nat)
    requires Within(ts, st, depth)
    ensures ArgsWithin(ts, ParseArgList(ts, st, depth), st)
    decreases Remaining(ts, st.pos), 9
  {
    hide Guarded, Size, Calls;
    GuardBudget(ts, 0, st, depth);
    var r := Guarded(ts, 0, st, depth);
    if r.Parsed? {
      var st2 := r.st.(pos := r.st.pos + 1);
      if Peek(ts, r.st.pos) == Comma {
        ArgsBudget(ts, st2, depth);
      } else if Peek(ts, r.st.pos) == RParen {
        assert [r.expr][1..] == [];
        assert SizeAll([r.expr]) == Size(r.expr) && CallsAll([r.expr]) == Calls(r.expr);
      }
    }
  }

  // ---- Whole formulas --------------------------------------------------------------------

  /**
   * No text reaches the node budget: the token cap and the depth cap stop the parser first. A tree is no
   * larger than the token cap, and calls are at most a third of it.
   */
  lemma NodeBudgetUnreachable(u: Unicode, input: string)
    ensures Parse(u, input) != Err(NodeBudgetExceeded)
    ensures Parse(u, input).Ok? ==>
              Size(Parse(u, input).expr) <= MAX_TOKENS && 3 * Calls(Parse(u, input).expr) <= MAX_TOKENS
  {
    var r := LexFrom(u, input, 0, 0, MAX_TOKENS);
    if r.Lexed? {
      LexImage(u, input, 0, 0, MAX_TOKENS);
      ParseBudget(r.tokens, 0, State(0, 0), 0);
    }
  }
}
