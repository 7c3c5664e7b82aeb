/** The budgeted recursive-descent parser of the formula language. */
module FormulaParser {
  import opened Common
  import opened FormulaLexer

  datatype BinOp = Add | Sub | Mul | Div | Mod | Eql | NotEql | Less | LessEql | Greater | GreaterEql | Conj | Disj

  datatype UnOp = Neg | Negation

  datatype Expr =
    | Num(value: real)
    | Text(text: string)
    | Bool(b: bool)
    | Variable(name: string)
    | Binary(op: BinOp, left: Expr, right: Expr)
    | Unary(uop: UnOp, operand: Expr)
    | Call(func: string, args: seq<Expr>)

  datatype ParseError =
    | LexicalError(error: LexError)
    | NodeBudgetExceeded
    | DepthBudgetExceeded
    | ExpectedRParen
    | ExpectedCommaOrRParen
    | TooManyArguments
    | UnexpectedToken(token: Token)
    | TrailingTokens

  const MAX_TOKENS: nat := 2048
  const MAX_DEPTH: nat := 64
  const MAX_NODES: nat := 4096
  const MAX_ARGS: nat := 16

  /** Where the parser stands: the next token and the nodes counted so far. */
  datatype State = State(pos: nat, nodes: nat)

  datatype ParseResult = Parsed(expr: Expr, st: State) | Failed(error: ParseError)

  datatype ArgsResult = Args(args: seq<Expr>, st: State) | ArgsFailed(error: ParseError)

  function Peek(ts: seq<Token>, pos: nat): Token {
    if pos < |ts| then ts[pos] else Eof
  }

  /** The binary operator a token stands for at a precedence level: or, and, comparison, sum, product. */
  function OpAt(level: nat, t: Token): Option<BinOp> {
    match level
    case 0 => (match t case Or => Some(Disj) case _ => None)
    case 1 => (match t case And => Some(Conj) case _ => None)
    case 2 =>
      (match t
       case Eq => Some(Eql) case Neq => Some(NotEql)
       case Lt => Some(Less) case Lte => Some(LessEql)
       case Gt => Some(Greater) case Gte => Some(GreaterEql)
       case _ => None)
    case 3 => (match t case Plus => Some(Add) case Minus => Some(Sub) case _ => None)
    case 4 => (match t case Star => Some(Mul) case Slash => Some(Div) case Percent => Some(Mod) case _ => None)
    case _ => None
  }

  function PrefixOp(t: Token): Option<UnOp> {
    match t case Minus => Some(Neg) case Not => Some(Negation) case _ => None
  }

  function Remaining(ts: seq<Token>, pos: nat): nat {
    if pos < |ts| then |ts| - pos else 0
  }

  const CMP: nat := 2
  const SUM: nat := 3
  const UNARY: nat := 5
  const PRIMARY: nat := 6

  // ---- What the parser computes ----------------------------------------------------------
  // Levels 0 to 4 are the binary levels, 5 is unary, 6 is primary.

  function ParseAt(ts: seq<Token>, level: nat, st: State, depth: nat): (r: ParseResult)
    requires level <= PRIMARY
    ensures r.Parsed? ==> st.pos < r.st.pos <= |ts|
    decreases Remaining(ts, st.pos), PRIMARY - level
  {
    if level == PRIMARY then ParsePrimary(ts, st, depth)
    else if level == UNARY then
      match PrefixOp(Peek(ts, st.pos))
      case None => ParseAt(ts, PRIMARY, st, depth)
      case Some(op) =>
        (match Guarded(ts, UNARY, st.(pos := st.pos + 1), depth)
         case Parsed(e, st') => Parsed(Unary(op, e), st')
         case Failed(error) => Failed(error))
    else
      match ParseAt(ts, level + 1, st, depth)
      case Parsed(left, st') => ParseTail(ts, level, left, st', depth)
      case Failed(error) => Failed(error)
  }

  /** The operators of one level that follow `left`: a left-associative run, or at most one comparison. */
  function ParseTail(ts: seq<Token>, level: nat, left: Expr, st: State, depth: nat): (r: ParseResult)
    requires level < UNARY && st.pos <= |ts|
    ensures r.Parsed? ==> st.pos <= r.st.pos <= |ts|
    decreases Remaining(ts, st.pos), 10
  {
    match OpAt(level, Peek(ts, st.pos))
    case None => Parsed(left, st)
    case Some(op) =>
      (match ParseAt(ts, level + 1, st.(pos := st.pos + 1), depth)
       case Failed(error) => Failed(error)
       case Parsed(right, st') =>
         var e := Binary(op, left, right);
         if level == CMP then Parsed(e, st')
         else if level < SUM then ParseTail(ts, level, e, st', depth)
         else if st'.nodes + 1 > MAX_NODES then Failed(NodeBudgetExceeded)
         else ParseTail(ts, level, e, st'.(nodes := st'.nodes + 1), depth))
  }

  /** One nesting step: count a node, descend, and come back to the same depth. */
  function Guarded(ts: seq<Token>, level: nat, st: State, depth: nat): (r: ParseResult)
    requires level <= PRIMARY
    ensures r.Parsed? ==> st.pos < r.st.pos <= |ts|
    decreases Remaining(ts, st.pos), 8
  {
    if st.nodes + 1 > MAX_NODES then Failed(NodeBudgetExceeded)
    else if depth + 1 > MAX_DEPTH then Failed(DepthBudgetExceeded)
    else ParseAt(ts, level, st.(nodes := st.nodes + 1), depth + 1)
  }

  function ParsePrimary(ts: seq<Token>, st: State, depth: nat): (r: ParseResult)
    ensures r.Parsed? ==> st.pos < r.st.pos <= |ts|
    decreases Remaining(ts, st.pos), 0, 0
  {
    if st.nodes + 1 > MAX_NODES then Failed(NodeBudgetExceeded)
    else
      var st1 := State(st.pos + 1, st.nodes + 1);
      match Peek(ts, st.pos)
      case Number(v) => Parsed(Num(v), st1)
      case Str(s) => Parsed(Text(s), st1)
      case LParen =>
        (match Guarded(ts, 0, st1, depth)
         case Failed(error) => Failed(error)
         case Parsed(inner, st2) =>
           if Peek(ts, st2.pos) == RParen then Parsed(inner, st2.(pos := st2.pos + 1)) else Failed(ExpectedRParen))
      case Ident(name) =>
        if Peek(ts, st1.pos) != LParen then Parsed(Variable(name), st1)
        else
          (match ParseCallArgs(ts, st1.(pos := st1.pos + 1), depth)
           case ArgsFailed(error) => Failed(error)
           case Args(args, st2) =>
             if |args| > MAX_ARGS then Failed(TooManyArguments) else Parsed(Call(name, args), st2))
      case t => Failed(UnexpectedToken(t))
  }

  function ParseCallArgs(ts: seq<Token>, st: State, depth: nat): (r: ArgsResult)
    ensures r.Args? ==> st.pos < r.st.pos <= |ts|
    decreases Remaining(ts, st.pos), 10
  {
    if Peek(ts, st.pos) == RParen then Args([], st.(pos := st.pos + 1))
    else ParseArgList(ts, st, depth)
  }

  /** One or more arguments up to and including the closing parenthesis. */
  function ParseArgList(ts: seq<Token>, st: State, depth: nat): (r: ArgsResult)
    ensures r.Args? ==> st.pos < r.st.pos <= |ts| && |r.args| > 0
    decreases Remaining(ts, st.pos), 9
  {
    match Guarded(ts, 0, st, depth)
    case Failed(error) => ArgsFailed(error)
    case Parsed(first, st1) =>
      var st2 := st1.(pos := st1.pos + 1);
      match Peek(ts, st1.pos)
      case RParen => Args([first], st2)
      case Comma =>
        (match ParseArgList(ts, st2, depth)
         case ArgsFailed(error) => ArgsFailed(error)
         case Args(rest, st3) => Args([first] + rest, st3))
      case _ => ArgsFailed(ExpectedCommaOrRParen)
  }

  function ParseTokens(ts: seq<Token>): ParseResult {
    match ParseAt(ts, 0, State(0, 0), 0)
    case Failed(error) => Failed(error)
    case Parsed(e, st) => if Peek(ts, st.pos) != Eof then Failed(TrailingTokens) else Parsed(e, st)
  }

  /** The parser's answer for a text: the tree, or the error. */
  datatype Outcome = Ok(expr: Expr) | Err(error: ParseError)

  function Parse(u: Unicode, input: string): Outcome {
    match LexFrom(u, input, 0, 0, MAX_TOKENS)
    case LexFailed(e) => Err(LexicalError(e))
    case Lexed(ts) =>
      match ParseTokens(ts)
      case Failed(error) => Err(error)
      case Parsed(e, _) => Ok(e)
  }

  // ---- The parser object -----------------------------------------------------------------

  class Parser {
    const tokens: seq<Token>
    var pos: nat
    var nodes: nat
    var depth: nat

    constructor (tokens: seq<Token>)
      ensures this.tokens == tokens && pos == 0 && nodes == 0 && depth == 0
    {
      this.tokens := tokens;
      pos, nodes, depth := 0, 0, 0;
    }

    function St(): State
      reads this
    {
      State(pos, nodes)
    }

    /** `r` is what the specification says, and on success the fields moved where it says. */
    ghost predicate Matches(r: Outcome, spec: ParseResult)
      reads this
    {
      match r
      case Ok(e) => spec == Parsed(e, St())
      case Err(error) => spec == Failed(error)
    }

    method Next() returns (t: Token)
      modifies this`pos
      ensures t == Peek(tokens, old(pos)) && pos == old(pos) + 1
    {
      t := Peek(tokens, pos);
      pos := pos + 1;
    }

    method CountNode() returns (ok: bool)
      modifies this`nodes
      ensures nodes == old(nodes) + 1 && ok == (nodes <= MAX_NODES)
    {
      nodes := nodes + 1;
      ok := nodes <= MAX_NODES;
    }

    /** The loops of the or, and, sum and product levels, and the single test of the comparison level. */
    method ParseBinary(level: nat) returns (r: Outcome)
      requires level < UNARY
      modifies this`pos, this`nodes, this`depth
      ensures depth == old(depth)
      ensures Matches(r, ParseAt(tokens, level, old(St()), old(depth)))
      decreases Remaining(tokens, pos), PRIMARY - level, 0
    {
      hide OpAt, Peek, ParsePrimary, Guarded;
      ghost var spec := ParseAt(tokens, level, St(), depth);
      r := ParseLevel(level + 1);
      if r.Err? { return; }
      var left := r.expr;
      var op := OpAt(level, Peek(tokens, pos));
      while op.Some?
        invariant old(pos) < pos <= |tokens| && depth == old(depth)
        invariant op == OpAt(level, Peek(tokens, pos))
        invariant spec == ParseTail(tokens, level, left, St(), depth)
        decreases Remaining(tokens, pos)
      {
        pos := pos + 1;
        r := ParseLevel(level + 1);
        if r.Err? { return; }
        left := Binary(op.value, left, r.expr);
        if level == CMP { return Ok(left); }
        if level >= SUM {
          var ok := CountNode();
          if !ok { return Err(NodeBudgetExceeded); }
        }
        op := OpAt(level, Peek(tokens, pos));
      }
      r := Ok(left);
    }

    method ParseLevel(level: nat) returns (r: Outcome)
      requires level <= PRIMARY
      modifies this`pos, this`nodes, this`depth
      ensures depth == old(depth)
      ensures Matches(r, ParseAt(tokens, level, old(St()), old(depth)))
      decreases Remaining(tokens, pos), PRIMARY - level, 1
    {
      if level == PRIMARY { r := ParsePrimaryTokens(); }
      else if level == UNARY { r := ParseUnary(); }
      else { r := ParseBinary(level); }
    }

    method ParseUnary() returns (r: Outcome)
      modifies this`pos, this`nodes, this`depth
      ensures depth == old(depth)
      ensures Matches(r, ParseAt(tokens, UNARY, old(St()), old(depth)))
      decreases Remaining(tokens, pos), PRIMARY - UNARY, 0
    {
      var op := PrefixOp(Peek(tokens, pos));
      if op.None? {
        r := ParseLevel(PRIMARY);
      } else {
        pos := pos + 1;
        r := DepthGuard(UNARY);
        if r.Ok? { r := Ok(Unary(op.value, r.expr)); }
      }
    }

    method DepthGuard(level: nat) returns (r: Outcome)
      requires level <= PRIMARY
      modifies this`pos, this`nodes, this`depth
      ensures depth == old(depth)
      ensures Matches(r, Guarded(tokens, level, old(St()), old(depth)))
      decreases Remaining(tokens, pos), 8
    {
      var ok := CountNode();
      if !ok { return Err(NodeBudgetExceeded); }
      depth := depth + 1;
      if depth > MAX_DEPTH {
        depth := depth - 1;
        return Err(DepthBudgetExceeded);
      }
      r := ParseLevel(level);
      depth := depth - 1;
    }

    method ParsePrimaryTokens() returns (r: Outcome)
      modifies this`pos, this`nodes, this`depth
      ensures depth == old(depth)
      ensures Matches(r, ParsePrimary(tokens, old(St()), old(depth)))
      decreases Remaining(tokens, pos), 0, 0
    {
      var ok := CountNode();
      if !ok { return Err(NodeBudgetExceeded); }
      var t := Next();
      match t {
        case Number(v) => r := Ok(Num(v));
        case Str(s) => r := Ok(Text(s));
        case LParen =>
          r := DepthGuard(0);
          if r.Ok? {
            var close := Next();
            if close != RParen { r := Err(ExpectedRParen); }
          }
        case Ident(name) =>
          if Peek(tokens, pos) != LParen { return Ok(Variable(name)); }
          pos := pos + 1;
          var error, args := ParseArguments();
          if error.Some? { r := Err(error.value); }
          else if |args| > MAX_ARGS { r := Err(TooManyArguments); }
          else { r := Ok(Call(name, args)); }
        case other => r := Err(UnexpectedToken(other));
      }
    }

    method ParseArguments() returns (error: Option<ParseError>, args: seq<Expr>)
      modifies this`pos, this`nodes, this`depth
      ensures depth == old(depth)
      ensures match error
              case None => ParseCallArgs(tokens, old(St()), old(depth)) == Args(args, St())
              case Some(e) => ParseCallArgs(tokens, old(St()), old(depth)) == ArgsFailed(e)
      decreases Remaining(tokens, pos), 10
    {
      error, args := None, [];
      hide Guarded, ParseArgList, Joined, Peek;
      if Peek(tokens, pos) == RParen {
        pos := pos + 1;
        return;
      }
      ghost var spec := ParseArgList(tokens, St(), depth);
      JoinedNone(spec);
      while true
        invariant old(pos) <= pos && depth == old(depth)
        invariant spec == Joined(args, ParseArgList(tokens, St(), depth))
        decreases Remaining(tokens, pos)
      {
        JoinedNext(tokens, St(), depth, args);
        var r := DepthGuard(0);
        if r.Err? { return Some(r.error), args; }
        args := args + [r.expr];
        var t := Next();
        if t == RParen { return; }
        if t != Comma { return Some(ExpectedCommaOrRParen), args; }
      }
    }
  }

  ghost function Joined(args: seq<Expr>, r: ArgsResult): ArgsResult {
    match r
    case Args(rest, st) => Args(args + rest, st)
    case ArgsFailed(_) => r
  }

  lemma JoinedNone(r: ArgsResult)
    ensures Joined([], r) == r
  {
  }

  /** One turn of the argument list, after `args`. */
  lemma JoinedNext(ts: seq<Token>, st: State, depth: nat, args: seq<Expr>)
    ensures Joined(args, ParseArgList(ts, st, depth)) ==
            match Guarded(ts, 0, st, depth)
            case Failed(error) => ArgsFailed(error)
            case Parsed(e, st1) =>
              var st2 := st1.(pos := st1.pos + 1);
              match Peek(ts, st1.pos)
              case RParen => Args(args + [e], st2)
              case Comma => Joined(args + [e], ParseArgList(ts, st2, depth))
              case _ => ArgsFailed(ExpectedCommaOrRParen)
  {
    hide Guarded, Peek, Joined;
    var r := Guarded(ts, 0, st, depth);
    JoinedEnds(args, ParseArgList(ts, st, depth));
    if r.Parsed? {
      var rest := ParseArgList(ts, r.st.(pos := r.st.pos + 1), depth);
      JoinedEnds(args + [r.expr], rest);
      if rest.Args? { JoinedMore(args, r.expr, rest.args); }
    }
  }

  lemma JoinedEnds(args: seq<Expr>, r: ArgsResult)
    ensures Joined(args, r) == if r.Args? then Args(args + r.args, r.st) else r
  {
  }

  lemma JoinedMore(args: seq<Expr>, e: Expr, rest: seq<Expr>)
    ensures args + ([e] + rest) == (args + [e]) + rest
  {
  }

  method ParseText(u: Unicode, input: string) returns (r: Outcome)
    ensures r == Parse(u, input)
  {
    var lexed := Lex(u, input, MAX_TOKENS);
    if lexed.LexFailed? { return Err(LexicalError(lexed.error)); }
    var p := new Parser(lexed.tokens);
    r := p.ParseLevel(0);
    if r.Ok? && Peek(p.tokens, p.pos) != Eof { r := Err(TrailingTokens); }
  }
}
