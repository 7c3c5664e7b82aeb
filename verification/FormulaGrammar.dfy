/** The grammar of the formula language as a relation between tokens and trees; the parser accepts exactly it. */
module FormulaGrammar {
  import opened Common
  import opened FormulaLexer
  import opened FormulaParser
  import opened FormulaBudget

  function OpToken(op: BinOp): Token {
    match op
    case Add => Plus case Sub => Minus case Mul => Star case Div => Slash case Mod => Percent
    case Eql => Eq case NotEql => Neq case Less => Lt case LessEql => Lte case Greater => Gt case GreaterEql => Gte
    case Conj => And case Disj => Or
  }

  function OpLevel(op: BinOp): nat {
    match op
    case Disj => 0
    case Conj => 1
    case Add => 3 case Sub => 3
    case Mul => 4 case Div => 4 case Mod => 4
    case _ => 2
  }

  function PrefixToken(op: UnOp): Token {
    match op case Neg => Minus case Negation => Not
  }

  /** A run associates to the left, so its left operand may sit at the same level; comparisons do not chain. */
  function LeftLevel(level: nat): nat { if level == CMP then SUM else level }

  /** The tokens `w` spell the tree `e` at a level of the grammar, nesting at most `n` deep. */
  ghost predicate Derives(w: seq<Token>, level: nat, e: Expr, n: nat)
    requires level <= PRIMARY
    decreases |w|, PRIMARY - level, 1
  {
    if level == PRIMARY then DerivesPrimary(w, e, n) else Derives(w, level + 1, e, n) || DerivesOwn(w, level, e, n)
  }

  /** What a level adds to the next: a prefix operator, or a binary one between its operands. */
  ghost predicate DerivesOwn(w: seq<Token>, level: nat, e: Expr, n: nat)
    requires level < PRIMARY
    decreases |w|, PRIMARY - level, 0
  {
    if level == UNARY then
      e.Unary? && n > 0 && w != [] && w[0] == PrefixToken(e.uop) && Derives(w[1..], UNARY, e.operand, n - 1)
    else
      && e.Binary? && OpLevel(e.op) == level
      && exists i ::
           Divides(w, i, OpToken(e.op))
           && Derives(w[..i], LeftLevel(level), e.left, n) && Derives(w[i + 1..], level + 1, e.right, n)
  }

  ghost predicate Divides(w: seq<Token>, i: int, t: Token) { 0 <= i < |w| && w[i] == t }

  ghost predicate DerivesPrimary(w: seq<Token>, e: Expr, n: nat)
    decreases |w|, 0, 0
  {
    || (e.Num? && w == [Number(e.value)])
    || (e.Text? && w == [Str(e.text)])
    || (e.Variable? && w == [Ident(e.name)])
    || (n > 0 && |w| >= 2 && w[0] == LParen && w[|w| - 1] == RParen && Derives(w[1..|w| - 1], 0, e, n - 1))
    || (e.Call? && |e.args| <= 16 && |w| >= 3 && w[0] == Ident(e.func) && w[1] == LParen
        && w[|w| - 1] == RParen && DerivesArgs(w[2..|w| - 1], e.args, n))
  }

  /** Arguments divided by commas. */
  ghost predicate DerivesArgs(w: seq<Token>, args: seq<Expr>, n: nat)
    decreases |w|, PRIMARY + 1, 0
  {
    if args == [] then w == []
    else if |args| == 1 then n > 0 && Derives(w, 0, args[0], n - 1)
    else
      && n > 0
      && exists i ::
           Divides(w, i, Comma) && Derives(w[..i], 0, args[0], n - 1) && DerivesArgs(w[i + 1..], args[1..], n)
  }

  lemma {:induction false} DerivesLower(w: seq<Token>, from: nat, to: nat, e: Expr, n: nat)
    requires to <= from <= PRIMARY && Derives(w, from, e, n)
    ensures Derives(w, to, e, n)
    decreases from - to
  {
    if to >= from {
    } else {
      DerivesLower(w, from, to + 1, e, n);
    }
  }

  lemma LeafDerives(t: Token, e: Expr, n: nat)
    requires match e
             case Num(v) => t == Number(v)
             case Text(s) => t == Str(s)
             case Variable(x) => t == Ident(x)
             case _ => false
    ensures Derives([t], PRIMARY, e, n)
  {
  }

  lemma DerivesInner(w: seq<Token>, e: Expr, n: nat)
    requires Derives(w, 0, e, n)
    ensures Derives([LParen] + w + [RParen], PRIMARY, e, n + 1)
  {
    var all := [LParen] + w + [RParen];
    assert all[1..|all| - 1] == w;
  }

  lemma DerivesPrefix(w: seq<Token>, op: UnOp, e: Expr, n: nat)
    requires Derives(w, UNARY, e, n)
    ensures Derives([PrefixToken(op)] + w, UNARY, Unary(op, e), n + 1)
  {
    assert ([PrefixToken(op)] + w)[1..] == w;
  }

  lemma DerivesBinary(a: seq<Token>, b: seq<Token>, op: BinOp, l: Expr, r: Expr, n: nat)
    requires OpLevel(op) < UNARY && Derives(a, LeftLevel(OpLevel(op)), l, n) && Derives(b, OpLevel(op) + 1, r, n)
    ensures Derives(a + [OpToken(op)] + b, OpLevel(op), Binary(op, l, r), n)
  {
    hide Derives;
    var w := a + [OpToken(op)] + b;
    assert w[..|a|] == a && w[|a| + 1..] == b && Divides(w, |a|, OpToken(op));
    OwnDerives(w, OpLevel(op), Binary(op, l, r), n);
  }

  lemma OwnDerives(w: seq<Token>, level: nat, e: Expr, n: nat)
    requires level < PRIMARY && DerivesOwn(w, level, e, n)
    ensures Derives(w, level, e, n)
  {
  }

  lemma DerivesCall(w: seq<Token>, func: string, args: seq<Expr>, n: nat)
    requires |args| <= MAX_ARGS && DerivesArgs(w, args, n)
    ensures Derives([Ident(func), LParen] + w + [RParen], PRIMARY, Call(func, args), n)
  {
    hide DerivesArgs;
    var all := [Ident(func), LParen] + w + [RParen];
    assert all[2..|all| - 1] == w;
  }

  lemma DerivesMore(a: seq<Token>, b: seq<Token>, first: Expr, rest: seq<Expr>, n: nat)
    requires rest != [] && n > 0 && Derives(a, 0, first, n - 1) && DerivesArgs(b, rest, n)
    ensures DerivesArgs(a + [Comma] + b, [first] + rest, n)
  {
    hide Derives;
    var w := a + [Comma] + b;
    assert w[..|a|] == a && w[|a| + 1..] == b && Divides(w, |a|, Comma);
    assert ([first] + rest)[1..] == rest;
  }

  // ---- What the parser accepts is in the grammar -----------------------------------------

  /** The tokens between two positions. */
  function Slice(ts: seq<Token>, from: nat, to: nat): seq<Token> {
    if from <= to <= |ts| then ts[from..to] else []
  }

  lemma SliceJoin(ts: seq<Token>, a: nat, b: nat, c: nat)
    requires a <= b < c <= |ts|
    ensures Slice(ts, a, c) == Slice(ts, a, b) + [Peek(ts, b)] + Slice(ts, b + 1, c)
  {
  }

  ghost predicate Sound(ts: seq<Token>, r: ParseResult, from: nat, level: nat, n: nat)
    requires level <= PRIMARY
  {
    r.Parsed? ==> Derives(Slice(ts, from, r.st.pos), level, r.expr, n)
  }

  lemma {:induction false} ParseSound(ts: seq<Token>, level: nat, st: State, depth: nat)
    requires level <= PRIMARY && depth <= MAX_DEPTH
    ensures Sound(ts, ParseAt(ts, level, st, depth), st.pos, level, MAX_DEPTH - depth)
    decreases Remaining(ts, st.pos), PRIMARY - level
  {
    hide Derives, Guarded;
    if level == PRIMARY {
      PrimarySound(ts, st, depth);
    } else if level == UNARY {
      UnarySound(ts, st, depth);
    } else {
      ParseSound(ts, level + 1, st, depth);
      var r := ParseAt(ts, level + 1, st, depth);
      if r.Parsed? {
        DerivesLower(Slice(ts, st.pos, r.st.pos), level + 1, LeftLevel(level), r.expr, MAX_DEPTH - depth);
        TailSound(ts, level, r.expr, st.pos, r.st, depth);
      }
    }
  }

  lemma {:induction false} UnarySound(ts: seq<Token>, st: State, depth: nat)
    requires depth <= MAX_DEPTH
    ensures Sound(ts, ParseAt(ts, UNARY, st, depth), st.pos, UNARY, MAX_DEPTH - depth)
    decreases Remaining(ts, st.pos), PRIMARY - UNARY, 0
  {
    hide Derives, Guarded, ParsePrimary;
    var op := PrefixOp(Peek(ts, st.pos));
    if op.None? {
      ParseSound(ts, PRIMARY, st, depth);
      var r := ParseAt(ts, PRIMARY, st, depth);
      if r.Parsed? { DerivesLower(Slice(ts, st.pos, r.st.pos), PRIMARY, UNARY, r.expr, MAX_DEPTH - depth); }
    } else {
      PrefixTokenOf(ts, st.pos);
      GuardSound(ts, UNARY, st.(pos := st.pos + 1), depth);
      var r := Guarded(ts, UNARY, st.(pos := st.pos + 1), depth);
      if r.Parsed? {
        DerivesPrefix(Slice(ts, st.pos + 1, r.st.pos), op.value, r.expr, MAX_DEPTH - depth - 1);
        SliceJoin(ts, st.pos, st.pos, r.st.pos);
        assert Slice(ts, st.pos, st.pos) == [] && [] + [Peek(ts, st.pos)] == [Peek(ts, st.pos)];
      }
    }
  }

  lemma PrefixTokenOf(ts: seq<Token>, pos: nat)
    requires PrefixOp(Peek(ts, pos)).Some?
    ensures pos < |ts| && Peek(ts, pos) == PrefixToken(PrefixOp(Peek(ts, pos)).value)
  {
  }

  lemma OpTokenOf(ts: seq<Token>, level: nat, pos: nat)
    requires OpAt(level, Peek(ts, pos)).Some?
    ensures pos < |ts| && level < UNARY
    ensures var op := OpAt(level, Peek(ts, pos)).value; OpLevel(op) == level && OpToken(op) == Peek(ts, pos)
  {
  }

  lemma {:induction false} TailSound(ts: seq<Token>, level: nat, left: Expr, from: nat, st: State, depth: nat)
    requires level < UNARY && depth <= MAX_DEPTH && from < st.pos <= |ts|
    requires Derives(Slice(ts, from, st.pos), LeftLevel(level), left, MAX_DEPTH - depth)
    ensures Sound(ts, ParseTail(ts, level, left, st, depth), from, level, MAX_DEPTH - depth)
    decreases Remaining(ts, st.pos), 10
  {
    hide Derives, ParseAt, OpAt, Slice, Peek, OpLevel, OpToken;
    var op := OpAt(level, Peek(ts, st.pos));
    if op.None? {
      DerivesLower(Slice(ts, from, st.pos), LeftLevel(level), level, left, MAX_DEPTH - depth);
    } else {
      OpTokenOf(ts, level, st.pos);
      var st1 := st.(pos := st.pos + 1);
      ParseSound(ts, level + 1, st1, depth);
      var r := ParseAt(ts, level + 1, st1, depth);
      if r.Parsed? {
        SliceJoin(ts, from, st.pos, r.st.pos);
        DerivesBinary(Slice(ts, from, st.pos), Slice(ts, st1.pos, r.st.pos), op.value, left, r.expr, MAX_DEPTH - depth);
        if level < SUM && level != CMP {
          TailSound(ts, level, Binary(op.value, left, r.expr), from, r.st, depth);
        } else if level >= SUM && r.st.nodes < MAX_NODES {
          TailSound(ts, level, Binary(op.value, left, r.expr), from, r.st.(nodes := r.st.nodes + 1), depth);
        }
      }
    }
  }

  lemma {:induction false} GuardSound(ts: seq<Token>, level: nat, st: State, depth: nat)
    requires level <= PRIMARY && depth <= MAX_DEPTH
    ensures Guarded(ts, level, st, depth).Parsed? ==> depth < MAX_DEPTH
    ensures depth < MAX_DEPTH ==> Sound(ts, Guarded(ts, level, st, depth), st.pos, level, MAX_DEPTH - depth - 1)
    decreases Remaining(ts, st.pos), 8
  {
    hide Derives;
    if depth < MAX_DEPTH { ParseSound(ts, level, st.(nodes := st.nodes + 1), depth + 1); }
  }

  lemma {:induction false} PrimarySound(ts: seq<Token>, st: State, depth: nat)
    requires depth <= MAX_DEPTH
    ensures Sound(ts, ParsePrimary(ts, st, depth), st.pos, PRIMARY, MAX_DEPTH - depth)
    decreases Remaining(ts, st.pos), 0, 1
  {
    hide Guarded, ParseArgList, ParseCallArgs, DerivesArgs, ParseAt;
    var r := ParsePrimary(ts, st, depth);
    if r.Parsed? {
      var t := Peek(ts, st.pos);
      if t == LParen {
        ParensSound(ts, st, depth);
      } else if t.Ident? && Peek(ts, st.pos + 1) == LParen {
        CallSound(ts, st, depth, t.name);
      } else {
        assert Slice(ts, st.pos, r.st.pos) == [t];
        LeafDerives(t, r.expr, MAX_DEPTH - depth);
      }
    }
  }

  lemma {:induction false} ParensSound(ts: seq<Token>, st: State, depth: nat)
    requires depth <= MAX_DEPTH && Peek(ts, st.pos) == LParen && ParsePrimary(ts, st, depth).Parsed?
    ensures Sound(ts, ParsePrimary(ts, st, depth), st.pos, PRIMARY, MAX_DEPTH - depth)
    decreases Remaining(ts, st.pos), 0, 0
  {
    hide Guarded, Derives;
    var st1 := State(st.pos + 1, st.nodes + 1);
    GuardSound(ts, 0, st1, depth);
    var r := Guarded(ts, 0, st1, depth);
    DerivesInner(Slice(ts, st1.pos, r.st.pos), r.expr, MAX_DEPTH - depth - 1);
    assert Slice(ts, st.pos, r.st.pos + 1) == [LParen] + Slice(ts, st1.pos, r.st.pos) + [RParen];
  }

  lemma {:induction false} CallSound(ts: seq<Token>, st: State, depth: nat, name: string)
    requires depth <= MAX_DEPTH && ParsePrimary(ts, st, depth).Parsed?
    requires Peek(ts, st.pos) == Ident(name) && Peek(ts, st.pos + 1) == LParen
    ensures Sound(ts, ParsePrimary(ts, st, depth), st.pos, PRIMARY, MAX_DEPTH - depth)
    decreases Remaining(ts, st.pos), 0, 0
  {
    hide Derives, DerivesArgs, ParseArgList, ParseCallArgs, Slice;
    var st2 := State(st.pos + 2, st.nodes + 1);
    ArgsSound(ts, st2, depth);
    var r := ParseCallArgs(ts, st2, depth);
    DerivesCall(Slice(ts, st2.pos, r.st.pos - 1), name, r.args, MAX_DEPTH - depth);
    SliceWrapped(ts, st.pos, r.st.pos);
  }

  lemma SliceWrapped(ts: seq<Token>, from: nat, to: nat)
    requires from + 3 <= to <= |ts|
    ensures Slice(ts, from, to)
            == [Peek(ts, from), Peek(ts, from + 1)] + Slice(ts, from + 2, to - 1) + [Peek(ts, to - 1)]
  {
  }

  /** Arguments derive from the tokens before their closing parenthesis. */
  ghost predicate SoundArgs(ts: seq<Token>, r: ArgsResult, from: nat, n: nat) {
    r.Args? ==>
      from < r.st.pos && Peek(ts, r.st.pos - 1) == RParen && DerivesArgs(Slice(ts, from, r.st.pos - 1), r.args, n)
  }

  lemma {:induction false} ArgsSound(ts: seq<Token>, st: State, depth: nat)
    requires depth <= MAX_DEPTH
    ensures SoundArgs(ts, ParseCallArgs(ts, st, depth), st.pos, MAX_DEPTH - depth)
    decreases Remaining(ts, st.pos), 10
  {
    hide Derives, ParseArgList;
    if Peek(ts, st.pos) != RParen { ArgListSound(ts, st, depth); }
  }

  lemma {:induction false} ArgListSound(ts: seq<Token>, st: State, depth: nat)
    requires depth <= MAX_DEPTH
    ensures SoundArgs(ts, ParseArgList(ts, st, depth), st.pos, MAX_DEPTH - depth)
    decreases Remaining(ts, st.pos), 9
  {
    hide Derives, Guarded, Slice;
    GuardSound(ts, 0, st, depth);
    var r := Guarded(ts, 0, st, depth);
    if r.Parsed? && Peek(ts, r.st.pos) == Comma {
      var st2 := r.st.(pos := r.st.pos + 1);
      ArgListSound(ts, st2, depth);
      var rest := ParseArgList(ts, st2, depth);
      if rest.Args? {
        SliceJoin(ts, st.pos, r.st.pos, rest.st.pos - 1);
        var a, b := Slice(ts, st.pos, r.st.pos), Slice(ts, st2.pos, rest.st.pos - 1);
        DerivesMore(a, b, r.expr, rest.args, MAX_DEPTH - depth);
      }
    }
  }

  // ---- What is in the grammar the parser accepts -----------------------------------------

  /** The token list `w` stands in `ts` at position `pos`. */
  ghost predicate Occurs(ts: seq<Token>, pos: nat, w: seq<Token>) {
    pos + |w| <= |ts| && ts[pos..pos + |w|] == w
  }

  /** A piece of what occurs occurs. */
  lemma OccursPiece(ts: seq<Token>, pos: nat, w: seq<Token>, a: nat, b: nat)
    requires a <= b <= |w| && Occurs(ts, pos, w)
    ensures Occurs(ts, pos + a, w[a..b])
  {
    forall i | a <= i < b ensures ts[pos + i] == w[i] { assert ts[pos..pos + |w|][i] == ts[pos + i]; }
    assert ts[pos + a..pos + b] == w[a..b];
  }

  lemma OccursAt(ts: seq<Token>, pos: nat, w: seq<Token>, i: nat)
    requires i < |w| && Occurs(ts, pos, w)
    ensures Peek(ts, pos + i) == w[i]
  {
    assert ts[pos..pos + |w|][i] == ts[pos + i];
  }

  /** The highest level at which the token could still extend what was read; calls bind tightest. */
  function Extends(t: Token): int {
    match t
    case Or => 0
    case And => 1
    case Eq => 2 case Neq => 2 case Lt => 2 case Lte => 2 case Gt => 2 case Gte => 2
    case Plus => 3 case Minus => 3
    case Star => 4 case Slash => 4 case Percent => 4
    case LParen => 7
    case _ => -1
  }

  /** What may follow at `level` so that reading stops, or goes on as that level's own run. */
  predicate MayFollow(level: nat, t: Token) {
    if level < UNARY && level != CMP then Extends(t) <= level else Extends(t) < level
  }

  lemma OpAtExtends(level: nat, t: Token)
    ensures OpAt(level, t).Some? <==> level < UNARY && Extends(t) == level
  {
  }

  lemma OpTokenAt(op: BinOp)
    ensures OpAt(OpLevel(op), OpToken(op)) == Some(op) && Extends(OpToken(op)) == OpLevel(op) < UNARY
  {
  }

  /** The counters leave room to read on within the token cap, nesting `n` deeper. */
  ghost predicate Room(ts: seq<Token>, st: State, depth: nat, n: nat) {
    |ts| <= MAX_TOKENS + 1 && st.nodes <= st.pos + depth && depth + n <= MAX_DEPTH
  }

  /** `to` is `from` after `k` tokens, with the counter still paid for by those tokens. */
  ghost predicate Advanced(from: State, to: State, k: nat) {
    to.pos == from.pos + k && to.nodes <= from.nodes + k
  }

  /** Reading at a level gives the tree and goes on as that level's run would. */
  ghost predicate ReadsBack(ts: seq<Token>, level: nat, st: State, depth: nat, e: Expr, to: State)
    requires level <= PRIMARY && to.pos <= |ts|
  {
    ParseAt(ts, level, st, depth) == if level < UNARY then ParseTail(ts, level, e, to, depth) else Parsed(e, to)
  }

  /** Whatever the grammar derives is read as derived, wherever it stands with room and nothing that extends it. */
  lemma {:induction false} ParseComplete(
      ts: seq<Token>, level: nat, st: State, depth: nat, w: seq<Token>, e: Expr, n: nat) returns (to: State)
    requires level <= PRIMARY && Derives(w, level, e, n)
    requires Room(ts, st, depth, n) && Occurs(ts, st.pos, w)
    requires MayFollow(level, Peek(ts, st.pos + |w|))
    ensures Advanced(st, to, |w|) && ReadsBack(ts, level, st, depth, e, to)
    decreases |w|, PRIMARY - level, 1
  {
    hide ParseAt, ParseTail, DerivesOwn, DerivesPrimary, Occurs, Peek, Extends;
    OccursInside(ts, st.pos, w);
    if level == PRIMARY {
      to := PrimaryComplete(ts, st, depth, w, e, n);
    } else if Derives(w, level + 1, e, n) {
      to := ParseComplete(ts, level + 1, st, depth, w, e, n);
      Descend(ts, level, st, depth, w, e, n, to);
    } else if level == UNARY {
      to := UnaryComplete(ts, st, depth, w, e, n);
    } else {
      to := BinaryComplete(ts, level, st, depth, w, e, n);
    }
  }

  /** What the next level derives is read by it, and nothing follows that it could take. */
  lemma Descend(
      ts: seq<Token>, level: nat, st: State, depth: nat, w: seq<Token>, e: Expr, n: nat, to: State)
    requires level < PRIMARY && to.pos <= |ts|
    requires Derives(w, level + 1, e, n) && Occurs(ts, st.pos, w)
    requires MayFollow(level, Peek(ts, to.pos))
    requires ReadsBack(ts, level + 1, st, depth, e, to)
    ensures ReadsBack(ts, level, st, depth, e, to)
  {
    hide DerivesOwn, DerivesPrimary, ParsePrimary, Guarded;
    if level == UNARY {
      PrimaryHead(ts, st.pos, w, e, n);
    } else {
      OpAtExtends(level + 1, Peek(ts, to.pos));
    }
  }

  lemma PrimaryHead(ts: seq<Token>, pos: nat, w: seq<Token>, e: Expr, n: nat)
    requires Derives(w, PRIMARY, e, n) && Occurs(ts, pos, w)
    ensures PrefixOp(Peek(ts, pos)).None?
  {
    OccursAt(ts, pos, w, 0);
  }

  /** When nothing that follows belongs to the level, reading simply ends with the tree. */
  lemma ReadsAll(ts: seq<Token>, level: nat, st: State, depth: nat, e: Expr, to: State)
    requires level <= PRIMARY && to.pos <= |ts| && ReadsBack(ts, level, st, depth, e, to)
    requires Extends(Peek(ts, to.pos)) < level
    ensures ParseAt(ts, level, st, depth) == Parsed(e, to)
  {
    hide ParseAt;
    OpAtExtends(level, Peek(ts, to.pos));
  }

  lemma ReadUnary(ts: seq<Token>, st: State, depth: nat, e: Expr, to: State)
    requires e.Unary? && Peek(ts, st.pos) == PrefixToken(e.uop)
    requires st.nodes < MAX_NODES && depth < MAX_DEPTH && to.pos <= |ts|
    requires ReadsBack(ts, UNARY, State(st.pos + 1, st.nodes + 1), depth + 1, e.operand, to)
    ensures ReadsBack(ts, UNARY, st, depth, e, to)
  {
  }

  lemma {:induction false} UnaryComplete(
      ts: seq<Token>, st: State, depth: nat, w: seq<Token>, e: Expr, n: nat) returns (to: State)
    requires DerivesOwn(w, UNARY, e, n)
    requires Room(ts, st, depth, n) && Occurs(ts, st.pos, w)
    requires MayFollow(UNARY, Peek(ts, st.pos + |w|))
    ensures Advanced(st, to, |w|) && ReadsBack(ts, UNARY, st, depth, e, to)
    decreases |w|, PRIMARY - UNARY, 0
  {
    hide Derives, ReadsBack, Occurs, Peek;
    OccursAt(ts, st.pos, w, 0);
    OccursPiece(ts, st.pos, w, 1, |w|);
    OccursInside(ts, st.pos, w);
    assert w[1..|w|] == w[1..];
    to := ParseComplete(ts, UNARY, State(st.pos + 1, st.nodes + 1), depth + 1, w[1..], e.operand, n - 1);
    ReadUnary(ts, st, depth, e, to);
  }

  lemma OccursInside(ts: seq<Token>, pos: nat, w: seq<Token>)
    requires Occurs(ts, pos, w)
    ensures pos + |w| <= |ts|
  {
  }

  /** The tail of a level, standing at one of its operators. */
  lemma ReadOperator(
      ts: seq<Token>, level: nat, left: Expr, mid: State, depth: nat, op: BinOp, e: Expr, to: State)
    requires level < UNARY && mid.pos <= |ts| && to.pos <= |ts|
    requires OpAt(level, Peek(ts, mid.pos)) == Some(op)
    requires ParseAt(ts, level + 1, mid.(pos := mid.pos + 1), depth) == Parsed(e, to)
    requires to.nodes < MAX_NODES
    ensures ParseTail(ts, level, left, mid, depth) ==
            if level == CMP then Parsed(Binary(op, left, e), to)
            else ParseTail(ts, level, Binary(op, left, e),
                           if level < SUM then to else to.(nodes := to.nodes + 1), depth)
  {
    hide ParseAt, OpAt;
  }

  /** A left operand read at its own level, then the operator and the right operand. */
  lemma ReadBinary(
      ts: seq<Token>, level: nat, st: State, depth: nat, e: Expr, mid: State, right: State, to: State)
    requires e.Binary? && OpLevel(e.op) == level < UNARY
    requires mid.pos < right.pos <= |ts| && right.nodes < MAX_NODES
    requires ReadsBack(ts, LeftLevel(level), st, depth, e.left, mid)
    requires Peek(ts, mid.pos) == OpToken(e.op)
    requires ParseAt(ts, level + 1, mid.(pos := mid.pos + 1), depth) == Parsed(e.right, right)
    requires level == CMP ==> Extends(Peek(ts, right.pos)) < CMP
    requires to == if level < SUM then right else right.(nodes := right.nodes + 1)
    ensures ReadsBack(ts, level, st, depth, e, to)
  {
    hide ParseTail, OpAt, OpToken;
    OpTokenAt(e.op);
    ReadOperator(ts, level, e.left, mid, depth, e.op, e.right, right);
    if level == CMP {
      ReadsAll(ts, SUM, st, depth, e.left, mid);
      TailEnds(ts, level, e, right, depth);
    }
  }

  lemma TailEnds(ts: seq<Token>, level: nat, e: Expr, st: State, depth: nat)
    requires level < UNARY && st.pos <= |ts| && Extends(Peek(ts, st.pos)) < level
    ensures ParseTail(ts, level, e, st, depth) == Parsed(e, st)
  {
    OpAtExtends(level, Peek(ts, st.pos));
  }

  /** What may follow a binary node's operands, when `t` may follow the node. */
  lemma BinaryFollows(op: BinOp, t: Token)
    requires MayFollow(OpLevel(op), t)
    ensures var left := LeftLevel(OpLevel(op));
            left < UNARY && MayFollow(left, OpToken(op)) && MayFollow(OpLevel(op) + 1, t)
    ensures Extends(t) < OpLevel(op) + 1 && (OpLevel(op) == CMP ==> Extends(t) < CMP)
  {
    OpTokenAt(op);
    OpAtExtends(OpLevel(op), OpToken(op));
  }

  lemma {:induction false} BinaryComplete(
      ts: seq<Token>, level: nat, st: State, depth: nat, w: seq<Token>, e: Expr, n: nat) returns (to: State)
    requires level < UNARY && DerivesOwn(w, level, e, n)
    requires Room(ts, st, depth, n) && Occurs(ts, st.pos, w)
    requires MayFollow(level, Peek(ts, st.pos + |w|))
    ensures Advanced(st, to, |w|) && ReadsBack(ts, level, st, depth, e, to)
    decreases |w|, PRIMARY - level, 0
  {
    hide ParseAt, Derives, ReadsBack, OpLevel, LeftLevel, OpToken, MayFollow, Extends, Occurs, Peek;
    BinaryFollows(e.op, Peek(ts, st.pos + |w|));
    var i :| Divides(w, i, OpToken(e.op))
      && Derives(w[..i], LeftLevel(level), e.left, n) && Derives(w[i + 1..], level + 1, e.right, n);
    OccursPiece(ts, st.pos, w, 0, i);
    OccursAt(ts, st.pos, w, i);
    OccursPiece(ts, st.pos, w, i + 1, |w|);
    OccursInside(ts, st.pos, w);
    assert w[0..i] == w[..i] && w[i + 1..|w|] == w[i + 1..];
    var mid := ParseComplete(ts, LeftLevel(level), st, depth, w[..i], e.left, n);
    var next := mid.(pos := mid.pos + 1);
    var right := ParseComplete(ts, level + 1, next, depth, w[i + 1..], e.right, n);
    ReadsAll(ts, level + 1, next, depth, e.right, right);
    to := if level < SUM then right else right.(nodes := right.nodes + 1);
    ReadBinary(ts, level, st, depth, e, mid, right, to);
  }

  lemma ReadParens(ts: seq<Token>, st: State, depth: nat, e: Expr, inner: State)
    requires Peek(ts, st.pos) == LParen && st.nodes + 2 <= MAX_NODES && depth < MAX_DEPTH
    requires ParseAt(ts, 0, State(st.pos + 1, st.nodes + 2), depth + 1) == Parsed(e, inner)
    requires Peek(ts, inner.pos) == RParen
    ensures ParseAt(ts, PRIMARY, st, depth) == Parsed(e, inner.(pos := inner.pos + 1))
  {
    assert Guarded(ts, 0, State(st.pos + 1, st.nodes + 1), depth) == Parsed(e, inner);
  }

  lemma LeafRead(ts: seq<Token>, st: State, depth: nat, t: Token, e: Expr)
    requires st.nodes < MAX_NODES && Peek(ts, st.pos) == t && Peek(ts, st.pos + 1) != LParen
    requires match e
             case Num(v) => t == Number(v)
             case Text(s) => t == Str(s)
             case Variable(x) => t == Ident(x)
             case _ => false
    ensures ParseAt(ts, PRIMARY, st, depth) == Parsed(e, State(st.pos + 1, st.nodes + 1))
  {
  }

  lemma {:induction false} PrimaryComplete(
      ts: seq<Token>, st: State, depth: nat, w: seq<Token>, e: Expr, n: nat) returns (to: State)
    requires DerivesPrimary(w, e, n)
    requires Room(ts, st, depth, n) && Occurs(ts, st.pos, w)
    requires MayFollow(PRIMARY, Peek(ts, st.pos + |w|))
    ensures Advanced(st, to, |w|) && ReadsBack(ts, PRIMARY, st, depth, e, to)
    decreases |w|, 0, 0
  {
    hide Derives, DerivesArgs, Occurs, Peek;
    OccursInside(ts, st.pos, w);
    OccursAt(ts, st.pos, w, 0);
    if |w| == 1 {
      to := State(st.pos + 1, st.nodes + 1);
      LeafRead(ts, st, depth, w[0], e);
    } else if w[0] == LParen {
      to := ParensComplete(ts, st, depth, w, e, n);
    } else {
      to := CallComplete(ts, st, depth, w, e, n);
    }
  }

  lemma {:induction false} ParensComplete(
      ts: seq<Token>, st: State, depth: nat, w: seq<Token>, e: Expr, n: nat) returns (to: State)
    requires n > 0 && |w| >= 2 && w[0] == LParen && w[|w| - 1] == RParen && Derives(w[1..|w| - 1], 0, e, n - 1)
    requires Room(ts, st, depth, n) && Occurs(ts, st.pos, w)
    ensures Advanced(st, to, |w|) && ReadsBack(ts, PRIMARY, st, depth, e, to)
    decreases |w| - 1, PRIMARY, 2
  {
    hide Derives, ParseAt, Occurs, Peek;
    OccursInside(ts, st.pos, w);
    OccursAt(ts, st.pos, w, 0);
    OccursAt(ts, st.pos, w, |w| - 1);
    OccursPiece(ts, st.pos, w, 1, |w| - 1);
    var st2 := State(st.pos + 1, st.nodes + 2);
    var inner := ParseComplete(ts, 0, st2, depth + 1, w[1..|w| - 1], e, n - 1);
    ReadsAll(ts, 0, st2, depth + 1, e, inner);
    ReadParens(ts, st, depth, e, inner);
    to := inner.(pos := inner.pos + 1);
  }

  lemma ReadCall(ts: seq<Token>, st: State, depth: nat, name: string, args: seq<Expr>, to: State)
    requires Peek(ts, st.pos) == Ident(name) && Peek(ts, st.pos + 1) == LParen
    requires st.nodes < MAX_NODES && |args| <= MAX_ARGS
    requires ParseCallArgs(ts, State(st.pos + 2, st.nodes + 1), depth) == Args(args, to)
    ensures ParseAt(ts, PRIMARY, st, depth) == Parsed(Call(name, args), to)
  {
    hide ParseCallArgs;
  }

  lemma {:induction false} CallComplete(
      ts: seq<Token>, st: State, depth: nat, w: seq<Token>, e: Expr, n: nat) returns (to: State)
    requires e.Call? && |e.args| <= MAX_ARGS && |w| >= 3 && w[0] == Ident(e.func) && w[1] == LParen
    requires w[|w| - 1] == RParen && DerivesArgs(w[2..|w| - 1], e.args, n)
    requires Room(ts, st, depth, n) && Occurs(ts, st.pos, w)
    ensures Advanced(st, to, |w|) && ReadsBack(ts, PRIMARY, st, depth, e, to)
    decreases |w| - 1, PRIMARY, 2
  {
    hide Derives, ParseAt, Occurs, Peek, ParseArgList, DerivesArgs;
    OccursInside(ts, st.pos, w);
    OccursAt(ts, st.pos, w, 0);
    OccursAt(ts, st.pos, w, 1);
    OccursAt(ts, st.pos, w, |w| - 1);
    OccursPiece(ts, st.pos, w, 2, |w| - 1);
    var a, inside := w[2..|w| - 1], State(st.pos + 2, st.nodes + 1);
    if e.args == [] {
      assert a == [] by { NoArgs(a, n); }
      to := inside.(pos := inside.pos + 1);
    } else {
      to := ArgsComplete(ts, inside, depth, a, e.args, n);
      ArgsHead(ts, inside.pos, a, e.args, n);
    }
    assert ParseCallArgs(ts, inside, depth) == Args(e.args, to);
    ReadCall(ts, st, depth, e.func, e.args, to);
  }

  lemma NoArgs(w: seq<Token>, n: nat)
    requires DerivesArgs(w, [], n)
    ensures w == []
  {
  }

  /** No tree begins with a closing parenthesis. */
  lemma {:induction false} TreeHead(w: seq<Token>, level: nat, e: Expr, n: nat)
    requires level <= PRIMARY && Derives(w, level, e, n)
    ensures w != [] && w[0] != RParen
    decreases |w|, PRIMARY - level, 1
  {
    if level == PRIMARY {
    } else if Derives(w, level + 1, e, n) {
      TreeHead(w, level + 1, e, n);
    } else if level < UNARY {
      var i :| Divides(w, i, OpToken(e.op))
        && Derives(w[..i], LeftLevel(level), e.left, n) && Derives(w[i + 1..], level + 1, e.right, n);
      TreeHead(w[..i], LeftLevel(level), e.left, n);
    }
  }

  lemma ArgsHead(ts: seq<Token>, pos: nat, w: seq<Token>, args: seq<Expr>, n: nat)
    requires args != [] && DerivesArgs(w, args, n) && Occurs(ts, pos, w)
    ensures Peek(ts, pos) != RParen
  {
    hide Derives, Occurs, Peek;
    if |args| == 1 {
      TreeHead(w, 0, args[0], n - 1);
    } else {
      var i :|
        Divides(w, i, Comma) && Derives(w[..i], 0, args[0], n - 1) && DerivesArgs(w[i + 1..], args[1..], n);
      TreeHead(w[..i], 0, args[0], n - 1);
    }
    OccursAt(ts, pos, w, 0);
  }

  lemma ReadArg(ts: seq<Token>, st: State, depth: nat, arg: Expr, to: State)
    requires st.nodes < MAX_NODES && depth < MAX_DEPTH && to.pos <= |ts|
    requires ReadsBack(ts, 0, st.(nodes := st.nodes + 1), depth + 1, arg, to)
    requires Extends(Peek(ts, to.pos)) < 0
    ensures Guarded(ts, 0, st, depth) == Parsed(arg, to)
  {
    hide ParseAt;
    ReadsAll(ts, 0, st.(nodes := st.nodes + 1), depth + 1, arg, to);
  }

  /** One turn of the argument list, which ends at a closing parenthesis. */
  lemma ReadListed(ts: seq<Token>, st: State, depth: nat, args: seq<Expr>, first: State, to: State)
    requires args != [] && Guarded(ts, 0, st, depth) == Parsed(args[0], first)
    requires if |args| == 1 then Peek(ts, first.pos) == RParen && to == first.(pos := first.pos + 1)
             else Peek(ts, first.pos) == Comma
                  && ParseArgList(ts, first.(pos := first.pos + 1), depth) == Args(args[1..], to)
    ensures ParseArgList(ts, st, depth) == Args(args, to)
  {
    hide Guarded;
    assert args == [args[0]] + args[1..];
  }

  lemma {:induction false} ArgsComplete(
      ts: seq<Token>, st: State, depth: nat, w: seq<Token>, args: seq<Expr>, n: nat) returns (to: State)
    requires args != [] && DerivesArgs(w, args, n)
    requires Room(ts, st, depth, n) && Occurs(ts, st.pos, w) && Peek(ts, st.pos + |w|) == RParen
    ensures Advanced(st, to, |w| + 1) && ParseArgList(ts, st, depth) == Args(args, to)
    decreases |w|, PRIMARY + 1, 0
  {
    hide Guarded, ParseAt, ParseArgList, Derives, Occurs, Peek, ReadsBack;
    OccursInside(ts, st.pos, w);
    if |args| <= 1 {
      var first := ParseComplete(ts, 0, st.(nodes := st.nodes + 1), depth + 1, w, args[0], n - 1);
      ReadArg(ts, st, depth, args[0], first);
      to := first.(pos := first.pos + 1);
      ReadListed(ts, st, depth, args, first, to);
    } else {
      var i :|
        Divides(w, i, Comma) && Derives(w[..i], 0, args[0], n - 1) && DerivesArgs(w[i + 1..], args[1..], n);
      OccursPiece(ts, st.pos, w, 0, i);
      OccursAt(ts, st.pos, w, i);
      OccursPiece(ts, st.pos, w, i + 1, |w|);
      assert w[0..i] == w[..i] && w[i + 1..|w|] == w[i + 1..];
      var first := ParseComplete(ts, 0, st.(nodes := st.nodes + 1), depth + 1, w[..i], args[0], n - 1);
      ReadArg(ts, st, depth, args[0], first);
      to := ArgsComplete(ts, first.(pos := first.pos + 1), depth, w[i + 1..], args[1..], n);
      ReadListed(ts, st, depth, args, first, to);
    }
  }

  // ---- Whole texts -----------------------------------------------------------------------

  /** The tokens of a text without the end mark derive the tree. */
  ghost predicate Means(u: Unicode, input: string, e: Expr) {
    var r := LexFrom(u, input, 0, 0, 2048);
    r.Lexed? && Derives(Body(r.tokens), 0, e, 64)
  }

  /** The end mark stands, or is left over, only after all other tokens. */
  lemma EndMarkLast(ts: seq<Token>, pos: nat)
    requires ts != [] && Eof !in Body(ts) && 0 < pos <= |ts| && Peek(ts, pos) == Eof && ts[pos - 1] != Eof
    requires ts[|ts| - 1] == Eof
    ensures Slice(ts, 0, pos) == Body(ts)
  {
    forall i | 0 <= i < |ts| - 1 ensures ts[i] != Eof { assert Body(ts)[i] == ts[i]; }
  }

  /** A token list closed by the end mark parses to exactly what the tokens before the mark derive. */
  lemma TokensParseExactly(ts: seq<Token>, e: Expr)
    requires 1 <= |ts| <= MAX_TOKENS + 1 && ts[|ts| - 1] == Eof && Eof !in Body(ts)
    ensures ParseTokens(ts).Parsed? && ParseTokens(ts).expr == e <==> Derives(Body(ts), 0, e, MAX_DEPTH)
  {
    hide ParseAt, Derives, ReadsBack;
    var start, r := State(0, 0), ParseAt(ts, 0, State(0, 0), 0);
    if ParseTokens(ts).Parsed? && r.Parsed? {
      ParseSound(ts, 0, start, 0);
      ParseBudget(ts, 0, start, 0);
      EndMarkLast(ts, r.st.pos);
    }
    if Derives(Body(ts), 0, e, MAX_DEPTH) {
      var to := ParseComplete(ts, 0, start, 0, Body(ts), e, MAX_DEPTH);
      ReadsAll(ts, 0, start, 0, e, to);
    }
  }

  /** A text parses to a tree exactly when the grammar derives the tree from all of its tokens. */
  lemma AcceptsExactly(u: Unicode, input: string, e: Expr)
    ensures Parse(u, input) == Ok(e) <==> Means(u, input, e)
  {
    hide ParseTokens, LexFrom, Derives;
    var r := LexFrom(u, input, 0, 0, MAX_TOKENS);
    if r.Lexed? {
      LexImage(u, input, 0, 0, MAX_TOKENS);
      NoEndMark(u, Body(r.tokens));
      TokensParseExactly(r.tokens, e);
    }
  }

  lemma NoEndMark(u: Unicode, w: seq<Token>)
    requires AllLexable(u, w)
    ensures Eof !in w
  {
  }

  /** Within the limits the grammar is unambiguous. */
  lemma Unambiguous(w: seq<Token>, e: Expr, e': Expr)
    requires |w| <= MAX_TOKENS && Eof !in w
    requires Derives(w, 0, e, MAX_DEPTH) && Derives(w, 0, e', MAX_DEPTH)
    ensures e == e'
  {
    hide Derives, ParseTokens;
    assert Body(w + [Eof]) == w;
    TokensParseExactly(w + [Eof], e);
    TokensParseExactly(w + [Eof], e');
  }
}
