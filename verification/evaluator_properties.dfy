/** What the RPN evaluation promises: an operator combines the value below
    the top (its left operand) with the top (its right operand); tokens other
    than numbers and operators are passed over; and, for inputs whose
    operands fit the stack, evaluation succeeds only on well-formed RPN, which
    in turn can fail only by dividing by zero. */
module EvaluatorProperties {
  import opened Tokens
  import opened Evaluator

  /** A number is pushed on the operand stack. */
  lemma EvalPush(v: real, rest: seq<Token>, st: seq<real>)
    requires |st| < StackSize
    ensures EvalFrom([Number(v)] + rest, st) == EvalFrom(rest, st + [v])
  {
    assert ([Number(v)] + rest)[0] == Number(v) && ([Number(v)] + rest)[1..] == rest;
  }

  /** An operator combines the two values on top of the operand stack. */
  lemma EvalOperator(op: char, rest: seq<Token>, low: seq<real>, left: real, right: real)
    ensures var ts, st := [Operator(op)] + rest, low + [left, right];
            && (Apply(op, left, right).Err? ==> EvalFrom(ts, st) == Err(Apply(op, left, right).error))
            && (Apply(op, left, right).Ok? ==> EvalFrom(ts, st) == EvalFrom(rest, low + [Apply(op, left, right).value]))
  {
    var ts, st := [Operator(op)] + rest, low + [left, right];
    assert ts[0] == Operator(op) && ts[1..] == rest;
    assert st[|st| - 2] == left && st[|st| - 1] == right && st[..|st| - 2] == low;
  }

  /** Two numbers and an operator: the first number is the left operand. */
  lemma EvalBinary(a: real, b: real, op: char, rest: seq<Token>, st: seq<real>)
    requires |st| + 2 <= StackSize
    ensures var ts := [Number(a), Number(b), Operator(op)] + rest;
            && (Apply(op, a, b).Err? ==> EvalFrom(ts, st) == Err(Apply(op, a, b).error))
            && (Apply(op, a, b).Ok? ==> EvalFrom(ts, st) == EvalFrom(rest, st + [Apply(op, a, b).value]))
  {
    var ts := [Number(a), Number(b), Operator(op)] + rest;
    assert ts == [Number(a)] + ([Number(b)] + ([Operator(op)] + rest));
    EvalPush(a, [Number(b)] + ([Operator(op)] + rest), st);
    EvalPush(b, [Operator(op)] + rest, st + [a]);
    assert st + [a] + [b] == st + [a, b];
    EvalOperator(op, rest, st, a, b);
  }

  /** Parentheses and the End sentinel leave the evaluation unchanged. */
  lemma EvalSkips(t: Token, rest: seq<Token>, st: seq<real>)
    requires !t.Number? && !t.Operator?
    ensures EvalFrom([t] + rest, st) == EvalFrom(rest, st)
  {
    assert ([t] + rest)[0] == t && ([t] + rest)[1..] == rest;
  }

  /** The evaluation of an empty sequence, of a lone operator, of an operator
      after a single number, of two numbers without an operator, and of a
      division by exact zero. */
  lemma EvalErrors(a: real, b: real, op: char)
    ensures Evaluate([]) == Err(Malformed)
    ensures Evaluate([Operator(op)]) == Err(MissingOperand(op))
    ensures Evaluate([Number(a), Operator(op)]) == Err(MissingOperand(op))
    ensures Evaluate([Number(a), Number(b)]) == Err(Malformed)
    ensures Evaluate([Number(a), Number(0.0), Operator('/')]) == Err(DivisionByZero)
  {
    EvalPush(a, [Operator(op)], []);
    assert [Number(a)] + [Operator(op)] == [Number(a), Operator(op)];
    assert ([Operator(op)] + [])[0] == Operator(op);
    EvalPush(a, [Number(b)], []);
    EvalPush(b, [], [a]);
    assert [Number(a)] + [Number(b)] == [Number(a), Number(b)];
    assert [Number(b)] + [] == [Number(b)];
    EvalBinary(a, 0.0, '/', [], []);
    assert [Number(a), Number(0.0), Operator('/')] + [] == [Number(a), Number(0.0), Operator('/')];
  }

  /** Every operator of ts is one of + - * /. */
  predicate KnownOperators(ts: seq<Token>) {
    forall k | 0 <= k < |ts| :: ts[k].Operator? ==> IsOperatorChar(ts[k].symbol)
  }

  lemma KnownOperatorsTail(ts: seq<Token>)
    requires ts != [] && KnownOperators(ts)
    ensures KnownOperators(ts[1..]) && (ts[0].Operator? ==> IsOperatorChar(ts[0].symbol))
  {
    assert forall k | 0 <= k < |ts[1..]| :: ts[1..][k] == ts[k + 1];
  }

  lemma {:induction false} EvalFromShape(ts: seq<Token>, st: seq<real>)
    requires KnownOperators(ts) && |st| + |ts| <= StackSize
    ensures WellFormedFrom(ts, |st|) ==>
              EvalFrom(ts, st).Ok? || EvalFrom(ts, st).error == DivisionByZero
    ensures !WellFormedFrom(ts, |st|) ==> EvalFrom(ts, st).Err?
    decreases |ts|
  {
    if ts != [] {
      KnownOperatorsTail(ts);
      match ts[0]
      case Number(v) =>
        EvalFromShape(ts[1..], st + [v]);
      case Operator(op) =>
        if |st| >= 2 {
          var l, r := st[|st| - 2], st[|st| - 1];
          if Apply(op, l, r).Ok? {
            EvalFromShape(ts[1..], st[..|st| - 2] + [Apply(op, l, r).value]);
          }
        }
      case _ =>
        EvalFromShape(ts[1..], st);
    }
  }

  /** For RPN whose operators are + - * / and whose length fits the operand
      stack: evaluation succeeds only on well-formed RPN, and well-formed RPN
      fails only by dividing by zero. */
  lemma EvaluateShape(rpn: seq<Token>)
    requires KnownOperators(rpn) && |rpn| <= StackSize
    ensures Evaluate(rpn).Ok? ==> WellFormed(rpn)
    ensures WellFormed(rpn) ==> Evaluate(rpn).Ok? || Evaluate(rpn).error == DivisionByZero
  {
    EvalFromShape(rpn, []);
  }
}
