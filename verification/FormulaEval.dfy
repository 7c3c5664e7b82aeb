/** The evaluator and its call budget. Values and arithmetic are the host's; order and budget are modelled. */
module FormulaEval {
  import opened Common
  import opened FormulaLexer
  import opened FormulaParser
  import opened FormulaBudget

  datatype Answer<V> = Value(value: V) | HostFailure(message: string) | BudgetExceeded | Unparsable(error: ParseError)

  datatype HostResult<V> = Good(value: V) | Bad(message: string)

  /** Number formatting, lookup, operators and the function whitelist, as the host supplies them. */
  datatype Host<!V> = Host(
    number: real -> V,
    text: string -> V,
    boolean: bool -> V,
    lookup: string -> V,
    unary: (UnOp, V) -> V,
    binary: (BinOp, V, V) -> HostResult<V>,
    call: (string, seq<V>) -> HostResult<V>
  )

  function Lift<V>(r: HostResult<V>): Answer<V> {
    match r case Good(v) => Value(v) case Bad(m) => HostFailure(m)
  }

  datatype Run<V> = Run(answer: Answer<V>, budget: nat)

  datatype ListRun<V> = ListRun(values: seq<V>, failure: Option<Answer<V>>, budget: nat)

  function EvalSpec<V>(h: Host<V>, e: Expr, budget: nat): Run<V>
    decreases e, 1
  {
    match e
    case Num(v) => Run(Value(h.number(v)), budget)
    case Text(s) => Run(Value(h.text(s)), budget)
    case Bool(b) => Run(Value(h.boolean(b)), budget)
    case Variable(name) => Run(Value(h.lookup(name)), budget)
    case Unary(op, operand) =>
      var r := EvalSpec(h, operand, budget);
      if r.answer.Value? then Run(Value(h.unary(op, r.answer.value)), r.budget) else r
    case Binary(op, left, right) =>
      var l := EvalSpec(h, left, budget);
      if !l.answer.Value? then l
      else
        var r := EvalSpec(h, right, l.budget);
        if !r.answer.Value? then r else Run(Lift(h.binary(op, l.answer.value, r.answer.value)), r.budget)
    case Call(func, args) =>
      if budget == 0 then Run(BudgetExceeded, 0)
      else
        var r := EvalAllSpec(h, args, budget - 1);
        match r.failure
        case Some(answer) => Run(answer, r.budget)
        case None => Run(Lift(h.call(func, r.values)), r.budget)
  }

  function EvalAllSpec<V>(h: Host<V>, es: seq<Expr>, budget: nat): (r: ListRun<V>)
    decreases es, 0
  {
    if es == [] then ListRun([], None, budget)
    else
      var first := EvalSpec(h, es[0], budget);
      if !first.answer.Value? then ListRun([], Some(first.answer), first.budget)
      else
        var rest := EvalAllSpec(h, es[1..], first.budget);
        ListRun([first.answer.value] + rest.values, rest.failure, rest.budget)
  }

  /** The evaluator's cell: calls still allowed. */
  class Evaluator<!V> {
    const host: Host<V>
    var callBudget: nat

    constructor (host: Host<V>, maxCalls: nat)
      ensures this.host == host && callBudget == maxCalls
    {
      this.host, callBudget := host, maxCalls;
    }

    method Eval(e: Expr) returns (answer: Answer<V>)
      modifies this`callBudget
      ensures Run(answer, callBudget) == EvalSpec(host, e, old(callBudget))
      decreases e, 1
    {
      match e {
        case Num(v) => answer := Value(host.number(v));
        case Text(s) => answer := Value(host.text(s));
        case Bool(b) => answer := Value(host.boolean(b));
        case Variable(name) => answer := Value(host.lookup(name));
        case Unary(op, operand) =>
          answer := Eval(operand);
          if answer.Value? { answer := Value(host.unary(op, answer.value)); }
        case Binary(op, left, right) =>
          answer := Eval(left);
          if answer.Value? {
            var l := answer.value;
            answer := Eval(right);
            if answer.Value? { answer := Lift(host.binary(op, l, answer.value)); }
          }
        case Call(func, args) =>
          if callBudget == 0 { return BudgetExceeded; }
          callBudget := callBudget - 1;
          var values, failure := EvalAll(args);
          match failure {
            case Some(a) => answer := a;
            case None => answer := Lift(host.call(func, values));
          }
      }
    }

    method EvalAll(es: seq<Expr>) returns (values: seq<V>, failure: Option<Answer<V>>)
      modifies this`callBudget
      ensures ListRun(values, failure, callBudget) == EvalAllSpec(host, es, old(callBudget))
      decreases es, 0
    {
      values, failure := [], None;
      if es != [] {
        var first := Eval(es[0]);
        if !first.Value? { return [], Some(first); }
        var rest;
        rest, failure := EvalAll(es[1..]);
        values := [first.value] + rest;
      }
    }
  }

  // ---- Budget accounting -----------------------------------------------------------------

  /** What a run that began with `budget` may do to a tree with `calls` calls. */
  ghost predicate Accounted<V>(answer: Answer<V>, budget: nat, left: nat, calls: nat) {
    && (answer.Value? ==> budget == left + calls)
    && (budget >= calls ==> answer != BudgetExceeded && budget <= left + calls)
    && left <= budget && !answer.Unparsable?
  }

  /**
   * A successful evaluation spends exactly one unit per call node; with at least that many units the
   * budget error cannot occur, so it occurs only on trees with more calls than the budget.
   */
  lemma {:induction false} EvalAccounted<V>(h: Host<V>, e: Expr, budget: nat)
    ensures var r := EvalSpec(h, e, budget); Accounted(r.answer, budget, r.budget, Calls(e))
    decreases e, 1
  {
    match e {
      case Unary(_, operand) => EvalAccounted(h, operand, budget);
      case Binary(_, left, right) =>
        EvalAccounted(h, left, budget);
        EvalAccounted(h, right, EvalSpec(h, left, budget).budget);
      case Call(_, args) => if budget > 0 { EvalAllAccounted(h, args, budget - 1); }
      case _ =>
    }
  }

  lemma {:induction false} EvalAllAccounted<V>(h: Host<V>, es: seq<Expr>, budget: nat)
    ensures var r := EvalAllSpec(h, es, budget);
            && (r.failure.None? ==> budget == r.budget + CallsAll(es))
            && (r.failure.Some? ==>
                  !r.failure.value.Value? && Accounted(r.failure.value, budget, r.budget, CallsAll(es)))
    decreases es, 0
  {
    if es == [] {
    } else {
      EvalAccounted(h, es[0], budget);
      EvalAllAccounted(h, es[1..], EvalSpec(h, es[0], budget).budget);
    }
  }

  // ---- What is evaluated, and in which order ---------------------------------------------

  /** A host whose values are the trees themselves. */
  const TERMS: Host<Expr> := Host(
    v => Num(v), s => Text(s), b => Bool(b), x => Variable(x),
    (op, e) => Unary(op, e), (op, l, r) => Good(Binary(op, l, r)), (f, args) => Good(Call(f, args)))

  /** Every operator and function is given its own operands, in place: over terms, evaluation rebuilds the tree. */
  lemma {:induction false} EvalRebuilds(e: Expr, budget: nat)
    requires budget >= Calls(e)
    ensures EvalSpec(TERMS, e, budget) == Run(Value(e), budget - Calls(e))
    decreases e, 1
  {
    match e {
      case Unary(_, operand) => EvalRebuilds(operand, budget);
      case Binary(_, left, right) =>
        EvalRebuilds(left, budget);
        EvalRebuilds(right, budget - Calls(left));
      case Call(_, args) => EvalAllRebuilds(args, budget - 1);
      case _ =>
    }
  }

  lemma {:induction false} EvalAllRebuilds(es: seq<Expr>, budget: nat)
    requires budget >= CallsAll(es)
    ensures EvalAllSpec(TERMS, es, budget) == ListRun(es, None, budget - CallsAll(es))
    decreases es, 0
  {
    if es == [] {
    } else {
      EvalRebuilds(es[0], budget);
      EvalAllRebuilds(es[1..], budget - Calls(es[0]));
      assert [es[0]] + es[1..] == es;
    }
  }

  /** What may fail in a tree, operands before their operator, left before right. */
  datatype Step = Applied(op: BinOp) | Called(func: string)

  function Order(e: Expr): seq<Step>
    decreases e, 1
  {
    match e
    case Unary(_, operand) => Order(operand)
    case Binary(op, left, right) => Order(left) + Order(right) + [Applied(op)]
    case Call(func, args) => OrderAll(args) + [Called(func)]
    case _ => []
  }

  function OrderAll(es: seq<Expr>): seq<Step>
    decreases es, 0
  {
    if es == [] then [] else Order(es[0]) + OrderAll(es[1..])
  }

  /** A host that fails at exactly the given operators and functions, and says at which. */
  ghost predicate FailsAt<V(!new)>(h: Host<V>, fails: Step -> bool, message: Step -> string) {
    && (forall op, l, r ::
          h.binary(op, l, r) == Bad(message(Applied(op))) <==> fails(Applied(op)))
    && (forall op, l, r :: h.binary(op, l, r).Good? <==> !fails(Applied(op)))
    && (forall f, args :: h.call(f, args) == Bad(message(Called(f))) <==> fails(Called(f)))
    && (forall f, args :: h.call(f, args).Good? <==> !fails(Called(f)))
  }

  /** The first failing step of a list. */
  function FirstFailure(steps: seq<Step>, fails: Step -> bool): Option<Step> {
    if steps == [] then None else if fails(steps[0]) then Some(steps[0]) else FirstFailure(steps[1..], fails)
  }

  lemma {:induction false} FirstOfBoth(a: seq<Step>, b: seq<Step>, fails: Step -> bool)
    ensures FirstFailure(a + b, fails)
            == if FirstFailure(a, fails).Some? then FirstFailure(a, fails) else FirstFailure(b, fails)
  {
    if a == [] {
      assert a + b == b;
    } else {
      FirstOfBoth(a[1..], b, fails);
      assert (a + b)[0] == a[0] && (a + b)[1..] == a[1..] + b;
    }
  }

  ghost predicate Reports<V>(answer: Answer<V>, first: Option<Step>, message: Step -> string) {
    if first.Some? then answer == HostFailure(message(first.value)) else answer.Value?
  }

  /** With calls to spare, the failure reported is the first in evaluation order; without any there is a value. */
  lemma {:induction false} EvalReportsFirst<V(!new)>(
      h: Host<V>, e: Expr, budget: nat, fails: Step -> bool, message: Step -> string)
    requires FailsAt(h, fails, message) && budget >= Calls(e)
    ensures Reports(EvalSpec(h, e, budget).answer, FirstFailure(Order(e), fails), message)
    decreases e, 1
  {
    hide Calls;
    EvalAccounted(h, e, budget);
    match e {
      case Unary(_, operand) =>
        CallsInside(e);
        EvalReportsFirst(h, operand, budget, fails, message);
      case Binary(op, left, right) =>
        CallsInside(e);
        var l := EvalSpec(h, left, budget);
        EvalAccounted(h, left, budget);
        EvalReportsFirst(h, left, budget, fails, message);
        if l.answer.Value? { EvalReportsFirst(h, right, l.budget, fails, message); }
        FirstOfBoth(Order(left) + Order(right), [Applied(op)], fails);
        FirstOfBoth(Order(left), Order(right), fails);
      case Call(func, args) =>
        CallsInside(e);
        EvalAllReportsFirst(h, args, budget - 1, fails, message);
        FirstOfBoth(OrderAll(args), [Called(func)], fails);
      case _ =>
    }
  }

  lemma CallsInside(e: Expr)
    ensures match e
            case Unary(_, operand) => Calls(e) == Calls(operand)
            case Binary(_, left, right) => Calls(e) == Calls(left) + Calls(right)
            case Call(_, args) => Calls(e) == 1 + CallsAll(args)
            case _ => true
  {
  }

  lemma {:induction false} EvalAllReportsFirst<V(!new)>(
      h: Host<V>, es: seq<Expr>, budget: nat, fails: Step -> bool, message: Step -> string)
    requires FailsAt(h, fails, message) && budget >= CallsAll(es)
    ensures var r, first := EvalAllSpec(h, es, budget), FirstFailure(OrderAll(es), fails);
            if first.Some? then r.failure == Some(HostFailure(message(first.value))) else r.failure.None?
    decreases es, 0
  {
    if es == [] {
    } else {
      EvalAccounted(h, es[0], budget);
      EvalReportsFirst(h, es[0], budget, fails, message);
      var r := EvalSpec(h, es[0], budget);
      if r.answer.Value? { EvalAllReportsFirst(h, es[1..], r.budget, fails, message); }
      FirstOfBoth(Order(es[0]), OrderAll(es[1..]), fails);
    }
  }

  // ---- Whole formulas --------------------------------------------------------------------

  /** Parse, then evaluate with a fresh budget. */
  function WithLimits<V>(u: Unicode, h: Host<V>, input: string, maxCalls: nat): Answer<V> {
    match Parse(u, input)
    case Err(e) => Unparsable(e)
    case Ok(e) => EvalSpec(h, e, maxCalls).answer
  }

  method Evaluate<V>(u: Unicode, h: Host<V>, input: string, maxCalls: nat) returns (answer: Answer<V>)
    ensures answer == WithLimits(u, h, input, maxCalls)
  {
    var parsed := ParseText(u, input);
    if parsed.Err? { return Unparsable(parsed.error); }
    var evaluator := new Evaluator(h, maxCalls);
    answer := evaluator.Eval(parsed.expr);
  }

  /** No text, whatever the values and functions, can exhaust the default budget of 1,000 calls or the node budget. */
  lemma DefaultBudgetsSuffice<V>(u: Unicode, h: Host<V>, input: string)
    ensures WithLimits(u, h, input, 1000) != BudgetExceeded
    ensures WithLimits(u, h, input, 1000) != Unparsable(NodeBudgetExceeded)
  {
    NodeBudgetUnreachable(u, input);
    var r := Parse(u, input);
    if r.Ok? { EvalAccounted(h, r.expr, 1000); }
  }
}
