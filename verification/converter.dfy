/** The infix-to-RPN converter (`get_precedence` and `infix_to_rpn`,
    main.c:154-230): Dijkstra's shunting-yard algorithm over a bounded
    operator stack, with ties between operators of equal precedence resolved
    by popping (left associativity). The algorithm is specified one input
    token at a time by Step, Run and Drain; the method InfixToRpn is the C
    loop over a TokenStack and a caller-supplied output buffer, proved to
    compute Convert. */
module Converter {
  import opened Tokens
  import opened Stacks

  /** Why a conversion fails. The C function reports each with a message and
      returns false. */
  datatype ConvertError =
    | UnbalancedParens  // a ')' without '(' or a '(' never closed
    | StackFull         // the operator stack refused a push
    | OutputFull        // the output index reached OutputLimit - 1

  /** get_precedence: + and - bind weaker than * and /; any other
      character has no precedence. */
  function Precedence(op: char): (p: nat)
    ensures p <= 2
    ensures p == 0 <==> !IsOperatorChar(op)
    ensures p == 2 <==> op == '*' || op == '/'
  {
    if op == '+' || op == '-' then 1 else if op == '*' || op == '/' then 2 else 0
  }

  /** The converter's state between two input tokens: the operator stack,
      bottom first, and the output produced so far. */
  datatype State = State(stack: seq<Token>, out: seq<Token>)

  /** What peek returns: the topmost token, End for an empty stack. */
  function Top(stack: seq<Token>): (t: Token)
    ensures stack == [] ==> t == End
    ensures stack != [] ==> t == stack[|stack| - 1]
  {
    if stack == [] then End else stack[|stack| - 1]
  }

  /** Moves the top of the stack to the output. */
  function PopToOutput(s: State): (r: State)
    requires s.stack != []
    ensures r.stack + [Top(s.stack)] == s.stack && r.out == s.out + [Top(s.stack)]
  {
    State(s.stack[..|s.stack| - 1], s.out + [Top(s.stack)])
  }

  /** The inner loop of the Operator case: pops operators of precedence at
      least p to the output, stopping at an empty stack, at a '(' or at an
      operator of lower precedence. */
  function PopAtLeast(s: State, p: nat): (r: State)
    ensures r.stack == [] || !Top(r.stack).Operator? || Precedence(Top(r.stack).symbol) < p
    decreases |s.stack|
  {
    if s.stack != [] && Top(s.stack).Operator? && Precedence(Top(s.stack).symbol) >= p
    then PopAtLeast(PopToOutput(s), p)
    else s
  }

  /** The inner loop of the RParen case: pops to the output until the top is
      a '(' or the stack is empty. */
  function PopToLParen(s: State): (r: State)
    ensures r.stack == [] || Top(r.stack).LParen?
    decreases |s.stack|
  {
    if s.stack != [] && !Top(s.stack).LParen? then PopToLParen(PopToOutput(s)) else s
  }

  /** The switch of the C for loop on one input token: numbers go to the
      output, an operator first pops the operators that bind at least as
      tightly, '(' is pushed, ')' pops back to its '(', End is skipped. Only
      a push onto a full stack and a ')' without its '(' fail; a pushed token
      ends on top. */
  function Dispatch(t: Token, s: State): (r: Result<State, ConvertError>)
    ensures r.Err? ==>
              || (t.RParen? && r.error == UnbalancedParens)
              || ((t.Operator? || t.LParen?) && r.error == StackFull)
    ensures r.Ok? && (t.Operator? || t.LParen?) ==> Top(r.value.stack) == t
  {
    match t
    case Number(_) => Ok(State(s.stack, s.out + [t]))
    case Operator(op) =>
      var s' := PopAtLeast(s, Precedence(op));
      if |s'.stack| >= StackSize then Err(StackFull) else Ok(State(s'.stack + [t], s'.out))
    case LParen =>
      if |s.stack| >= StackSize then Err(StackFull) else Ok(State(s.stack + [t], s.out))
    case RParen =>
      var s' := PopToLParen(s);
      if s'.stack == [] then Err(UnbalancedParens)
      else Ok(State(s'.stack[..|s'.stack| - 1], s'.out))
    case End => Ok(s)
  }

  /** The body of the C for loop: the switch, then the check of the output
      index, which a successful step leaves below OutputLimit - 1. */
  function Step(t: Token, s: State): (r: Result<State, ConvertError>)
    ensures r.Ok? ==> r == Dispatch(t, s) && |r.value.out| < OutputLimit - 1
    ensures r.Err? ==> Dispatch(t, s).Err? || r.error == OutputFull
  {
    match Dispatch(t, s)
    case Err(e) => Err(e)
    case Ok(s') => if |s'.out| >= OutputLimit - 1 then Err(OutputFull) else Ok(s')
  }

  /** The for loop: the tokens ts processed in order from state s. */
  function Run(ts: seq<Token>, s: State): (r: Result<State, ConvertError>)
    ensures r.Ok? && ts != [] ==> |r.value.out| < OutputLimit - 1
    decreases |ts|
  {
    if ts == [] then Ok(s)
    else
      match Step(ts[0], s)
      case Err(e) => Err(e)
      case Ok(s') => Run(ts[1..], s')
  }

  /** The loop after the input: every remaining operator goes to the output,
      and a '(' left on the stack is an error. It succeeds only when no '('
      is left, and then outputs every stacked token once more. */
  function Drain(s: State): (r: Result<seq<Token>, ConvertError>)
    ensures r.Ok? ==> LParen !in s.stack && |r.value| == |s.out| + |s.stack|
    ensures r.Ok? && s.stack != [] ==> |r.value| < OutputLimit - 1
    ensures r.Err? ==> r.error == UnbalancedParens || r.error == OutputFull
    decreases |s.stack|
  {
    if s.stack == [] then Ok(s.out)
    else if Top(s.stack).LParen? then Err(UnbalancedParens)
    else
      var s' := PopToOutput(s);
      if |s'.out| >= OutputLimit - 1 then Err(OutputFull) else Drain(s')
  }

  /** The rest ts of the input converted from state s. */
  function ConvertFrom(ts: seq<Token>, s: State): Result<seq<Token>, ConvertError> {
    match Run(ts, s)
    case Err(e) => Err(e)
    case Ok(s') => Drain(s')
  }

  /** The RPN form of an infix token sequence, shorter than the output
      bound. */
  function Convert(infix: seq<Token>): (r: Result<seq<Token>, ConvertError>)
    ensures r.Ok? ==> |r.value| < OutputLimit - 1
  {
    ConvertFrom(infix, State([], []))
  }

  /** The statement `rpn_output[rpn_idx++] = pop(&operator_stack)` on a
      non-empty stack. */
  method PopInto(stack: TokenStack, rpn: array<Token>, idx: nat) returns (next: nat)
    requires stack.Valid() && stack.items != rpn
    requires stack.Contents() != [] && idx + |stack.Contents()| <= rpn.Length
    modifies stack`top, rpn
    ensures stack.Valid() && next == idx + 1
    ensures State(stack.Contents(), rpn[..next]) == PopToOutput(State(old(stack.Contents()), old(rpn[..idx])))
  {
    var t := stack.Pop();
    rpn[idx] := t;
    next := idx + 1;
    assert rpn[..next] == old(rpn[..idx]) + [t];
  }

  /** The loop of the Operator case (main.c:180-186): pops operators of
      precedence at least p from the stack into rpn from index idx on. */
  method PopAtLeastInto(stack: TokenStack, rpn: array<Token>, idx: nat, p: nat) returns (next: nat)
    requires stack.Valid() && stack.items != rpn
    requires idx + |stack.Contents()| <= rpn.Length
    modifies stack`top, rpn
    ensures stack.Valid()
    ensures next + |stack.Contents()| == idx + |old(stack.Contents())|
    ensures State(stack.Contents(), rpn[..next]) == PopAtLeast(State(old(stack.Contents()), old(rpn[..idx])), p)
  {
    ghost var start := State(stack.Contents(), rpn[..idx]);
    next := idx;
    var empty := stack.IsEmpty();
    var top := stack.Peek();
    while !empty && top.Operator? && Precedence(top.symbol) >= p
      invariant stack.Valid()
      invariant next + |stack.Contents()| == idx + |old(stack.Contents())|
      invariant empty <==> stack.Contents() == []
      invariant top == Top(stack.Contents())
      invariant PopAtLeast(State(stack.Contents(), rpn[..next]), p) == PopAtLeast(start, p)
      decreases stack.top
    {
      next := PopInto(stack, rpn, next);
      empty := stack.IsEmpty();
      top := stack.Peek();
    }
  }

  /** The loop of the RParen case (main.c:195-197): pops into rpn from index
      idx on until the top of the stack is a '(' or the stack is empty. */
  method PopToLParenInto(stack: TokenStack, rpn: array<Token>, idx: nat) returns (next: nat)
    requires stack.Valid() && stack.items != rpn
    requires idx + |stack.Contents()| <= rpn.Length
    modifies stack`top, rpn
    ensures stack.Valid()
    ensures next + |stack.Contents()| == idx + |old(stack.Contents())|
    ensures State(stack.Contents(), rpn[..next]) == PopToLParen(State(old(stack.Contents()), old(rpn[..idx])))
  {
    ghost var start := State(stack.Contents(), rpn[..idx]);
    next := idx;
    var empty := stack.IsEmpty();
    var top := stack.Peek();
    while !empty && !top.LParen?
      invariant stack.Valid()
      invariant next + |stack.Contents()| == idx + |old(stack.Contents())|
      invariant empty <==> stack.Contents() == []
      invariant top == Top(stack.Contents())
      invariant PopToLParen(State(stack.Contents(), rpn[..next])) == PopToLParen(start)
      decreases stack.top
    {
      next := PopInto(stack, rpn, next);
      empty := stack.IsEmpty();
      top := stack.Peek();
    }
  }

  /** The loop after the input (main.c:214-228): moves the remaining
      operators into rpn and writes the End sentinel after them, failing on a
      '(' or when the output index reaches OutputLimit - 1. */
  method DrainInto(stack: TokenStack, rpn: array<Token>, idx: nat) returns (ok: bool, rpnLen: int)
    requires stack.Valid() && stack.items != rpn
    requires idx + |stack.Contents()| < rpn.Length
    modifies stack`top, rpn
    ensures ok <==> Drain(State(old(stack.Contents()), old(rpn[..idx]))).Ok?
    ensures ok ==> 0 <= rpnLen < rpn.Length && rpn[rpnLen] == End
                   && rpn[..rpnLen] == Drain(State(old(stack.Contents()), old(rpn[..idx]))).value
  {
    ghost var start := State(stack.Contents(), rpn[..idx]);
    var next := idx;
    var empty := stack.IsEmpty();
    while !empty
      invariant stack.Valid()
      invariant next + |stack.Contents()| == idx + |old(stack.Contents())|
      invariant empty <==> stack.Contents() == []
      invariant Drain(State(stack.Contents(), rpn[..next])) == Drain(start)
      decreases stack.top
    {
      var top := stack.Peek();
      if top.LParen? {
        return false, -1;
      }
      next := PopInto(stack, rpn, next);
      if next >= OutputLimit - 1 {
        return false, -1;
      }
      empty := stack.IsEmpty();
    }
    ghost var out := rpn[..next];
    assert Drain(start) == Ok(out);
    rpn[next] := End;
    assert rpn[..next] == out;
    ok, rpnLen := true, next;
  }

  /** The switch of infix_to_rpn (main.c:174-207) on one token t, with the
      output index idx; on success returns the new output index. */
  method DispatchInto(stack: TokenStack, rpn: array<Token>, idx: nat, t: Token) returns (r: Result<nat, ConvertError>)
    requires stack.Valid() && stack.items != rpn
    requires idx + |stack.Contents()| < rpn.Length
    modifies stack`top, stack.items, rpn
    ensures stack.Valid()
    ensures r.Ok? <==> Dispatch(t, State(old(stack.Contents()), old(rpn[..idx]))).Ok?
    ensures r.Err? ==> r.error == Dispatch(t, State(old(stack.Contents()), old(rpn[..idx]))).error
    ensures r.Ok? ==> r.value + |stack.Contents()| <= idx + |old(stack.Contents())| + 1
                      && Ok(State(stack.Contents(), rpn[..r.value])) == Dispatch(t, State(old(stack.Contents()), old(rpn[..idx])))
  {
    ghost var before := State(stack.Contents(), rpn[..idx]);
    match t {
      case Number(_) =>
        rpn[idx] := t;
        assert rpn[..idx + 1] == before.out + [t];
        return Ok(idx + 1);
      case Operator(op) =>
        var next := PopAtLeastInto(stack, rpn, idx, Precedence(op));
        var pushed := stack.Push(t);
        if !pushed {
          return Err(StackFull);
        }
        return Ok(next);
      case LParen =>
        var pushed := stack.Push(t);
        if !pushed {
          return Err(StackFull);
        }
        return Ok(idx);
      case RParen =>
        var next := PopToLParenInto(stack, rpn, idx);
        var empty := stack.IsEmpty();
        var top := stack.Peek();
        if empty || !top.LParen? {
          return Err(UnbalancedParens);
        }
        var discarded := stack.Pop();
        return Ok(next);
      case End =>
        return Ok(idx);
    }
  }

  /** infix_to_rpn: writes the RPN form into rpn, followed by the End
      sentinel. As in the program, rpn has room for one more token than the
      input has (every token reaches the output at most once). */
  method InfixToRpn(infix: seq<Token>, rpn: array<Token>) returns (ok: bool, rpnLen: int)
    requires rpn.Length > |infix|
    modifies rpn
    ensures ok <==> Convert(infix).Ok?
    ensures ok ==> 0 <= rpnLen < rpn.Length && rpn[..rpnLen] == Convert(infix).value && rpn[rpnLen] == End
  {
    var stack := new TokenStack();
    var idx: nat := 0;
    for i := 0 to |infix|
      invariant stack.Valid() && fresh(stack.items)
      invariant idx + |stack.Contents()| <= i
      invariant ConvertFrom(infix[i..], State(stack.Contents(), rpn[..idx])) == Convert(infix)
    {
      assert infix[i..][0] == infix[i] && infix[i..][1..] == infix[i + 1..];
      var r := DispatchInto(stack, rpn, idx, infix[i]);
      if r.Err? {
        return false, -1;
      }
      idx := r.value;
      if idx >= OutputLimit - 1 {
        return false, -1;
      }
    }
    ok, rpnLen := DrainInto(stack, rpn, idx);
  }
}
