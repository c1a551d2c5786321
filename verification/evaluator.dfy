/** The RPN evaluator (`evaluate_rpn`, main.c:253-307): numbers are pushed on
    a bounded operand stack; an operator pops its right operand, then its
    left one, and pushes the result; at the end exactly one value must be
    left. The evaluation is specified by EvalFrom and Evaluate over a
    sequence of reals standing for the operand stack; the method EvaluateRpn
    is the C loop over a DoubleStack, proved to compute Evaluate. */
module Evaluator {
  import opened Tokens
  import opened Stacks

  /** Why an evaluation fails. The C function reports each with a message and
      returns false. */
  datatype EvalError =
    | OperandOverflow         // the operand stack refused a push
    | MissingOperand(op: char) // an operator found fewer than two operands
    | DivisionByZero          // a '/' whose right operand is exactly zero
    | UnknownOperator(op: char) // an operator other than + - * /
    | Malformed               // not exactly one value left at the end

  /** The arithmetic of one operator on its left and right operands. */
  function Apply(op: char, left: real, right: real): (r: Result<real, EvalError>)
    ensures r.Err? <==> !IsOperatorChar(op) || (op == '/' && right == 0.0)
    ensures r.Err? ==> r.error == (if IsOperatorChar(op) then DivisionByZero else UnknownOperator(op))
  {
    match op
    case '+' => Ok(left + right)
    case '-' => Ok(left - right)
    case '*' => Ok(left * right)
    case '/' => if right == 0.0 then Err(DivisionByZero) else Ok(left / right)
    case _ => Err(UnknownOperator(op))
  }

  /** The value left at the end: exactly one operand. */
  function Finish(st: seq<real>): (r: Result<real, EvalError>)
    ensures r.Ok? <==> |st| == 1
  {
    if |st| == 1 then Ok(st[0]) else Err(Malformed)
  }

  /** Well-formed RPN over an operand stack of depth d: every operator finds
      two operands, and exactly one value is left at the end. */
  predicate WellFormedFrom(ts: seq<Token>, d: nat)
    decreases |ts|
  {
    if ts == [] then d == 1
    else
      match ts[0]
      case Number(_) => WellFormedFrom(ts[1..], d + 1)
      case Operator(_) => d >= 2 && WellFormedFrom(ts[1..], d - 1)
      case _ => WellFormedFrom(ts[1..], d)
  }

  predicate WellFormed(rpn: seq<Token>) {
    WellFormedFrom(rpn, 0)
  }

  /** The evaluation of the rest ts of the RPN tokens with the operand stack
      st, bottom first. Tokens other than numbers and operators are passed
      over, as the C loop does. It succeeds only on well-formed RPN. */
  function EvalFrom(ts: seq<Token>, st: seq<real>): (r: Result<real, EvalError>)
    ensures r.Ok? ==> WellFormedFrom(ts, |st|)
    decreases |ts|
  {
    if ts == [] then Finish(st)
    else
      match ts[0]
      case Number(v) =>
        if |st| >= StackSize then Err(OperandOverflow) else EvalFrom(ts[1..], st + [v])
      case Operator(op) =>
        if |st| < 2 then Err(MissingOperand(op))
        else
          (match Apply(op, st[|st| - 2], st[|st| - 1])
           case Err(e) => Err(e)
           case Ok(v) => EvalFrom(ts[1..], st[..|st| - 2] + [v]))
      case _ => EvalFrom(ts[1..], st)
  }

  /** The value of an RPN token sequence. */
  function Evaluate(rpn: seq<Token>): (r: Result<real, EvalError>)
    ensures r.Ok? ==> WellFormed(rpn)
  {
    EvalFrom(rpn, [])
  }

  /** The two values popped from st are its last two, right on top. */
  lemma OperandsOnTop(st: seq<real>, mid: seq<real>, low: seq<real>, left: real, right: real)
    requires st == mid + [right] && mid == low + [left]
    ensures |st| >= 2 && st[|st| - 2] == left && st[|st| - 1] == right && low == st[..|st| - 2]
  {
  }

  /** The Operator branch of the C loop: two pops, the switch on the
      operator (the function Apply), and the push of the result. */
  method ApplyOnStack(stack: DoubleStack, op: char) returns (r: Result<(), EvalError>)
    requires stack.Valid()
    modifies stack`top, stack.items
    ensures stack.Valid()
    ensures var st := old(stack.Contents());
            if |st| < 2 then r == Err(MissingOperand(op))
            else
              match Apply(op, st[|st| - 2], st[|st| - 1])
              case Err(e) => r == Err(e)
              case Ok(v) => r == Ok(()) && stack.Contents() == st[..|st| - 2] + [v]
  {
    ghost var st := stack.Contents();
    var right := stack.Pop();
    ghost var mid := stack.Contents();
    var left := stack.Pop();
    if right.None? || left.None? {
      return Err(MissingOperand(op));
    }
    ghost var low := stack.Contents();
    // the switch on the operator
    var applied := Apply(op, left.value, right.value);
    if applied.Err? {
      return Err(applied.error);
    }
    OperandsOnTop(st, mid, low, left.value, right.value);
    // Two operands were just popped, so this push always has room; the C
    // code checks it all the same.
    var pushed := stack.Push(applied.value);
    assert pushed;
    r := Ok(());
  }

  /** evaluate_rpn: the value of the RPN tokens, or why there is none. */
  method EvaluateRpn(rpn: seq<Token>) returns (r: Result<real, EvalError>)
    ensures r == Evaluate(rpn)
  {
    var stack := new DoubleStack();
    for i := 0 to |rpn|
      invariant stack.Valid() && fresh(stack.items)
      invariant EvalFrom(rpn[i..], stack.Contents()) == Evaluate(rpn)
    {
      assert rpn[i..][0] == rpn[i] && rpn[i..][1..] == rpn[i + 1..];
      var token := rpn[i];
      if token.Number? {
        var pushed := stack.Push(token.value);
        if !pushed {
          return Err(OperandOverflow);
        }
      } else if token.Operator? {
        var applied := ApplyOnStack(stack, token.symbol);
        if applied.Err? {
          return Err(applied.error);
        }
      }
    }
    var last := stack.Pop();
    var empty := stack.IsEmpty();
    if last.None? || !empty {
      return Err(Malformed);
    }
    r := Ok(last.value);
  }
}
