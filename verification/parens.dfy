/** When the conversion fails. An input of any length that converts has
    balanced parentheses. For an input the operator stack can always hold
    (at most StackSize tokens), the only failure is an unbalanced
    parenthesis, and it happens exactly when the parentheses of the input do
    not balance. Longer inputs can also exhaust the stack or reach the output
    bound. */
module Parentheses {
  import opened Tokens
  import opened Converter
  import opened ConverterProperties

  /** The parentheses of ts close properly when d of them are already open:
      no ')' without an open '(', and none left open at the end. */
  predicate BalancedFrom(ts: seq<Token>, d: nat)
    decreases |ts|
  {
    if ts == [] then d == 0
    else
      match ts[0]
      case LParen => BalancedFrom(ts[1..], d + 1)
      case RParen => d > 0 && BalancedFrom(ts[1..], d - 1)
      case _ => BalancedFrom(ts[1..], d)
  }

  predicate Balanced(ts: seq<Token>) {
    BalancedFrom(ts, 0)
  }

  /** How many '(' are open after token t when d were open before. */
  function NextDepth(t: Token, d: nat): nat {
    match t
    case LParen => d + 1
    case RParen => if d > 0 then d - 1 else 0
    case _ => d
  }

  /** The measure of a state that the conversion never increases by more than
      one per input token. */
  function Load(s: State): nat {
    |s.stack| + |s.out|
  }

  /** Popping one operator to the output. */
  lemma PopKeeps(s: State)
    requires StackShape(s.stack) && s.stack != [] && Top(s.stack).Operator?
    ensures var r := PopToOutput(s);
            StackShape(r.stack) && Load(r) == Load(s) && LParenCount(r.stack) == LParenCount(s.stack)
  {
    var r := PopToOutput(s);
    StackShapePrefix(s.stack, r.stack, Top(s.stack));
    CountsSnoc(r.stack, Top(s.stack));
  }

  lemma {:induction false} PopAtLeastKeeps(s: State, prec: nat)
    requires StackShape(s.stack)
    ensures var r := PopAtLeast(s, prec);
            StackShape(r.stack) && Load(r) == Load(s) && LParenCount(r.stack) == LParenCount(s.stack)
    decreases |s.stack|
  {
    if s.stack != [] && Top(s.stack).Operator? && Precedence(Top(s.stack).symbol) >= prec {
      PopKeeps(s);
      PopAtLeastKeeps(PopToOutput(s), prec);
    }
  }

  /** The stack empties while popping to a '(' exactly when it held none. */
  lemma {:induction false} PopToLParenKeeps(s: State)
    requires StackShape(s.stack)
    ensures var r := PopToLParen(s);
            && StackShape(r.stack) && Load(r) == Load(s)
            && LParenCount(r.stack) == LParenCount(s.stack)
            && (r.stack == [] <==> LParenCount(s.stack) == 0)
    decreases |s.stack|
  {
    if s.stack != [] && !Top(s.stack).LParen? {
      StackShapePrefix(s.stack, s.stack[..|s.stack| - 1], Top(s.stack));
      PopKeeps(s);
      PopToLParenKeeps(PopToOutput(s));
    } else if s.stack != [] {
      var rest := s.stack[..|s.stack| - 1];
      assert rest + [Top(s.stack)] == s.stack;
      CountsSnoc(rest, Top(s.stack));
    }
  }

  /** The facts about one dispatched token that StepBalanced needs. */
  predicate DispatchFacts(t: Token, s: State) {
    && (Dispatch(t, s).Ok? <==> (t.RParen? ==> LParenCount(s.stack) > 0))
    && (Dispatch(t, s).Err? ==> Dispatch(t, s).error == UnbalancedParens)
    && (Dispatch(t, s).Ok? ==>
          var r := Dispatch(t, s).value;
          && StackShape(r.stack) && Load(r) <= Load(s) + 1
          && LParenCount(r.stack) == NextDepth(t, LParenCount(s.stack)))
  }

  lemma OperatorBalanced(t: Token, s: State)
    requires StackShape(s.stack) && Load(s) < StackSize && t.Operator?
    ensures DispatchFacts(t, s)
  {
    var r := PopAtLeast(s, Precedence(t.symbol));
    PopAtLeastKeeps(s, Precedence(t.symbol));
    StackShapeSnoc(r.stack, t);
    CountsSnoc(r.stack, t);
  }

  lemma LParenBalanced(t: Token, s: State)
    requires StackShape(s.stack) && Load(s) < StackSize && t.LParen?
    ensures DispatchFacts(t, s)
  {
    StackShapeSnoc(s.stack, t);
    CountsSnoc(s.stack, t);
  }

  lemma RParenBalanced(t: Token, s: State)
    requires StackShape(s.stack) && Load(s) < StackSize && t.RParen?
    ensures DispatchFacts(t, s)
  {
    var r := PopToLParen(s);
    PopToLParenKeeps(s);
    if r.stack != [] {
      var rest := r.stack[..|r.stack| - 1];
      assert rest + [Top(r.stack)] == r.stack;
      StackShapePrefix(r.stack, rest, Top(r.stack));
      CountsSnoc(rest, Top(r.stack));
    }
  }

  /** One input token, while the load stays within the stack's capacity. */
  lemma StepBalanced(t: Token, s: State)
    requires StackShape(s.stack) && Load(s) < StackSize
    ensures Step(t, s).Ok? <==> (t.RParen? ==> LParenCount(s.stack) > 0)
    ensures Step(t, s).Err? ==> Step(t, s).error == UnbalancedParens
    ensures Step(t, s).Ok? ==>
              var r := Step(t, s).value;
              && StackShape(r.stack) && Load(r) <= Load(s) + 1
              && LParenCount(r.stack) == NextDepth(t, LParenCount(s.stack))
  {
    match t
    case Number(_) =>
    case Operator(_) => OperatorBalanced(t, s);
    case LParen => LParenBalanced(t, s);
    case RParen => RParenBalanced(t, s);
    case End =>
  }

  /** The loop after the input fails exactly when a '(' is left open. */
  lemma {:induction false} DrainBalanced(s: State)
    requires StackShape(s.stack) && Load(s) <= StackSize
    ensures Drain(s).Ok? <==> LParenCount(s.stack) == 0
    ensures Drain(s).Err? ==> Drain(s).error == UnbalancedParens
    decreases |s.stack|
  {
    if s.stack != [] {
      var rest := s.stack[..|s.stack| - 1];
      assert rest + [Top(s.stack)] == s.stack;
      StackShapePrefix(s.stack, rest, Top(s.stack));
      CountsSnoc(rest, Top(s.stack));
      if !Top(s.stack).LParen? {
        PopKeeps(s);
        DrainBalanced(PopToOutput(s));
      }
    }
  }

  /** ConvertFrom takes the first token one step. */
  lemma ConvertFromStep(ts: seq<Token>, s: State)
    requires ts != []
    ensures ConvertFrom(ts, s)
            == if Step(ts[0], s).Err? then Err(Step(ts[0], s).error)
               else ConvertFrom(ts[1..], Step(ts[0], s).value)
  {
  }

  lemma {:induction false} ConvertFromBalanced(ts: seq<Token>, s: State)
    requires StackShape(s.stack) && Load(s) + |ts| <= StackSize
    ensures ConvertFrom(ts, s).Ok? <==> BalancedFrom(ts, LParenCount(s.stack))
    ensures ConvertFrom(ts, s).Err? ==> ConvertFrom(ts, s).error == UnbalancedParens
    decreases |ts|
  {
    if ts == [] {
      DrainBalanced(s);
    } else {
      ConvertFromStep(ts, s);
      StepBalanced(ts[0], s);
      if Step(ts[0], s).Ok? {
        ConvertFromBalanced(ts[1..], Step(ts[0], s).value);
      }
    }
  }

  /** One successful step, at any load: the stack keeps its shape, a ')'
      found a '(' open, and the '(' on the stack are counted as NextDepth
      counts them. */
  lemma StepDepth(t: Token, s: State)
    requires StackShape(s.stack) && Step(t, s).Ok?
    ensures t.RParen? ==> LParenCount(s.stack) > 0
    ensures var r := Step(t, s).value;
            StackShape(r.stack) && LParenCount(r.stack) == NextDepth(t, LParenCount(s.stack))
  {
    match t
    case Number(_) =>
    case End =>
    case Operator(op) =>
      var r := PopAtLeast(s, Precedence(op));
      PopAtLeastKeeps(s, Precedence(op));
      StackShapeSnoc(r.stack, t);
      CountsSnoc(r.stack, t);
    case LParen =>
      StackShapeSnoc(s.stack, t);
      CountsSnoc(s.stack, t);
    case RParen =>
      var r := PopToLParen(s);
      PopToLParenKeeps(s);
      var rest := r.stack[..|r.stack| - 1];
      assert rest + [Top(r.stack)] == r.stack;
      StackShapePrefix(r.stack, rest, Top(r.stack));
      CountsSnoc(rest, Top(r.stack));
  }

  lemma {:induction false} ConvertFromOkBalanced(ts: seq<Token>, s: State)
    requires StackShape(s.stack) && ConvertFrom(ts, s).Ok?
    ensures BalancedFrom(ts, LParenCount(s.stack))
    decreases |ts|
  {
    if ts != [] {
      ConvertFromStep(ts, s);
      StepDepth(ts[0], s);
      ConvertFromOkBalanced(ts[1..], Step(ts[0], s).value);
    }
  }

  /** Whatever its length, an input that converts has balanced
      parentheses. */
  lemma ConvertOkBalanced(infix: seq<Token>)
    requires Convert(infix).Ok?
    ensures Balanced(infix)
  {
    ConvertFromOkBalanced(infix, State([], []));
  }

  /** An input of at most StackSize tokens converts exactly when its
      parentheses balance, and otherwise fails with UnbalancedParens. */
  lemma ConvertIffBalanced(infix: seq<Token>)
    requires |infix| <= StackSize
    ensures Convert(infix).Ok? <==> Balanced(infix)
    ensures Convert(infix).Err? ==> Convert(infix).error == UnbalancedParens
  {
    ConvertFromBalanced(infix, State([], []));
  }
}
