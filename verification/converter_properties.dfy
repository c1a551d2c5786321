/** What the shunting-yard conversion promises about its output: no
    parentheses, the numbers in input order, every operator exactly once, a
    length bounded by the output buffer; that the operator stack keeps
    higher-precedence operators above lower ones; how ties between operators
    of equal precedence are broken; and that, for inputs the stack can hold,
    the conversion fails exactly when the parentheses are unbalanced. */
module ConverterProperties {
  import opened Tokens
  import opened Converter

  /** What the converter ever pushes: operators and '('. */
  predicate StackShape(stack: seq<Token>) {
    forall k | 0 <= k < |stack| :: stack[k].Operator? || stack[k].LParen?
  }

  /** What the converter ever outputs: numbers and operators. */
  predicate OutputShape(out: seq<Token>) {
    forall k | 0 <= k < |out| :: out[k].Number? || out[k].Operator?
  }

  /** State s accounts for the processed input p: the numbers of p are in the
      output in their order, and each operator of p is either in the output
      or on the stack. */
  predicate Accounts(p: seq<Token>, s: State) {
    && StackShape(s.stack)
    && OutputShape(s.out)
    && Numbers(s.out) == Numbers(p)
    && multiset(Operators(s.out)) + multiset(Operators(s.stack)) == multiset(Operators(p))
  }

  lemma NumbersOne(t: Token)
    ensures Numbers([t]) == if t.Number? then [t] else []
  {
    assert [t][1..] == [];
  }

  lemma OperatorsOne(t: Token)
    ensures Operators([t]) == if t.Operator? then [t] else []
  {
    assert [t][1..] == [];
  }

  lemma LParenCountOne(t: Token)
    ensures LParenCount([t]) == if t.LParen? then 1 else 0
  {
    assert [t][1..] == [];
  }

  /** Appending a token t to the processed input. */
  lemma CountsSnoc(p: seq<Token>, t: Token)
    ensures Numbers(p + [t]) == Numbers(p) + (if t.Number? then [t] else [])
    ensures Operators(p + [t]) == Operators(p) + (if t.Operator? then [t] else [])
    ensures LParenCount(p + [t]) == LParenCount(p) + (if t.LParen? then 1 else 0)
  {
    NumbersAppend(p, [t]);
    NumbersOne(t);
    OperatorsAppend(p, [t]);
    OperatorsOne(t);
    LParenCountAppend(p, [t]);
    LParenCountOne(t);
  }

  lemma StackShapeSnoc(stack: seq<Token>, t: Token)
    requires StackShape(stack) && (t.Operator? || t.LParen?)
    ensures StackShape(stack + [t])
  {
    assert forall k | 0 <= k < |stack| :: (stack + [t])[k] == stack[k];
  }

  lemma OutputShapeSnoc(out: seq<Token>, t: Token)
    requires OutputShape(out) && (t.Number? || t.Operator?)
    ensures OutputShape(out + [t])
  {
    assert forall k | 0 <= k < |out| :: (out + [t])[k] == out[k];
  }

  /** Dropping the top of the stack keeps its shape. */
  lemma StackShapePrefix(stack: seq<Token>, rest: seq<Token>, t: Token)
    requires StackShape(stack) && rest + [t] == stack
    ensures StackShape(rest) && (t.Operator? || t.LParen?)
  {
    assert forall k | 0 <= k < |rest| :: rest[k] == stack[k];
    assert stack[|stack| - 1] == t;
  }

  // ---------------------------------------------------------------------
  // Tokens are accounted for

  /** Moving an operator from the top of the stack to the output. */
  lemma PopAccounts(p: seq<Token>, s: State)
    requires Accounts(p, s) && s.stack != [] && Top(s.stack).Operator?
    ensures Accounts(p, PopToOutput(s))
  {
    var r := PopToOutput(s);
    var t := Top(s.stack);
    StackShapePrefix(s.stack, r.stack, t);
    OutputShapeSnoc(s.out, t);
    CountsSnoc(s.out, t);
    CountsSnoc(r.stack, t);
  }

  lemma {:induction false} PopAtLeastAccounts(p: seq<Token>, s: State, prec: nat)
    requires Accounts(p, s)
    ensures Accounts(p, PopAtLeast(s, prec))
    decreases |s.stack|
  {
    if s.stack != [] && Top(s.stack).Operator? && Precedence(Top(s.stack).symbol) >= prec {
      PopAccounts(p, s);
      PopAtLeastAccounts(p, PopToOutput(s), prec);
    }
  }

  lemma {:induction false} PopToLParenAccounts(p: seq<Token>, s: State)
    requires Accounts(p, s)
    ensures Accounts(p, PopToLParen(s))
    decreases |s.stack|
  {
    if s.stack != [] && !Top(s.stack).LParen? {
      StackShapePrefix(s.stack, s.stack[..|s.stack| - 1], Top(s.stack));
      PopAccounts(p, s);
      PopToLParenAccounts(p, PopToOutput(s));
    }
  }

  lemma NumberAccounts(p: seq<Token>, t: Token, s: State)
    requires Accounts(p, s) && t.Number?
    ensures Accounts(p + [t], State(s.stack, s.out + [t]))
  {
    OutputShapeSnoc(s.out, t);
    CountsSnoc(s.out, t);
    CountsSnoc(p, t);
  }

  lemma PushAccounts(p: seq<Token>, t: Token, s: State)
    requires Accounts(p, s) && (t.Operator? || t.LParen?)
    ensures Accounts(p + [t], State(s.stack + [t], s.out))
  {
    StackShapeSnoc(s.stack, t);
    CountsSnoc(s.stack, t);
    CountsSnoc(p, t);
  }

  lemma DropLParenAccounts(p: seq<Token>, t: Token, s: State)
    requires Accounts(p, s) && s.stack != [] && Top(s.stack).LParen? && t.RParen?
    ensures Accounts(p + [t], State(s.stack[..|s.stack| - 1], s.out))
  {
    var rest := s.stack[..|s.stack| - 1];
    assert rest + [Top(s.stack)] == s.stack;
    StackShapePrefix(s.stack, rest, Top(s.stack));
    CountsSnoc(rest, Top(s.stack));
    CountsSnoc(p, t);
  }

  lemma DispatchAccounts(p: seq<Token>, t: Token, s: State)
    requires Accounts(p, s) && Dispatch(t, s).Ok?
    ensures Accounts(p + [t], Dispatch(t, s).value)
  {
    match t
    case Number(_) =>
      NumberAccounts(p, t, s);
    case Operator(op) =>
      PopAtLeastAccounts(p, s, Precedence(op));
      PushAccounts(p, t, PopAtLeast(s, Precedence(op)));
    case LParen =>
      PushAccounts(p, t, s);
    case RParen =>
      PopToLParenAccounts(p, s);
      DropLParenAccounts(p, t, PopToLParen(s));
    case End =>
      CountsSnoc(p, t);
  }

  lemma {:induction false} RunAccounts(p: seq<Token>, ts: seq<Token>, s: State)
    requires Accounts(p, s) && Run(ts, s).Ok?
    ensures Accounts(p + ts, Run(ts, s).value)
    decreases |ts|
  {
    if ts == [] {
      assert p + ts == p;
    } else {
      DispatchAccounts(p, ts[0], s);
      RunAccounts(p + [ts[0]], ts[1..], Step(ts[0], s).value);
      AppendAssoc(p, [ts[0]], ts[1..]);
      SplitJoin(ts, 1);
      assert ts[..1] == [ts[0]];
    }
  }

  lemma {:induction false} DrainAccounts(p: seq<Token>, s: State)
    requires Accounts(p, s) && Drain(s).Ok?
    ensures Accounts(p, State([], Drain(s).value))
    decreases |s.stack|
  {
    if s.stack != [] {
      StackShapePrefix(s.stack, s.stack[..|s.stack| - 1], Top(s.stack));
      PopAccounts(p, s);
      DrainAccounts(p, PopToOutput(s));
    }
  }

  /** A sequence of numbers and operators is made of its numbers and its
      operators. */
  lemma {:induction false} OutputShapeCount(out: seq<Token>)
    requires OutputShape(out)
    ensures |out| == |Numbers(out)| + |Operators(out)|
  {
    if out != [] {
      assert OutputShape(out[1..]) by {
        assert forall k | 0 <= k < |out[1..]| :: out[1..][k] == out[k + 1];
      }
      OutputShapeCount(out[1..]);
      assert out[0].Number? || out[0].Operator?;
    }
  }

  // ---------------------------------------------------------------------
  // The output buffer bound

  lemma {:induction false} RunOutBound(ts: seq<Token>, s: State)
    requires |s.out| < OutputLimit - 1 && Run(ts, s).Ok?
    ensures |Run(ts, s).value.out| < OutputLimit - 1
    decreases |ts|
  {
    if ts != [] {
      RunOutBound(ts[1..], Step(ts[0], s).value);
    }
  }

  lemma {:induction false} DrainOutBound(s: State)
    requires |s.out| < OutputLimit - 1 && Drain(s).Ok?
    ensures |Drain(s).value| < OutputLimit - 1
    decreases |s.stack|
  {
    if s.stack != [] {
      DrainOutBound(PopToOutput(s));
    }
  }

  lemma ConvertAccounts(infix: seq<Token>)
    requires Convert(infix).Ok?
    ensures Accounts(infix, State([], Convert(infix).value))
    ensures |Convert(infix).value| < OutputLimit - 1
  {
    var start := State([], []);
    var mid := Run(infix, start).value;
    assert [] + infix == infix;
    RunAccounts([], infix, start);
    DrainAccounts(infix, mid);
    RunOutBound(infix, start);
    DrainOutBound(mid);
  }

  lemma OutputShapeMembers(out: seq<Token>)
    requires OutputShape(out)
    ensures LParen !in out && RParen !in out && End !in out
  {
    forall t | t in out
      ensures t.Number? || t.Operator?
    {
      var k :| 0 <= k < |out| && out[k] == t;
    }
  }

  /** A successful conversion outputs numbers and operators only (so no
      parenthesis and no End), the numbers of the input in their order, the
      operators of the input each exactly once, nothing else, and fewer
      tokens than OutputLimit - 1. */
  lemma ConvertOutput(infix: seq<Token>)
    requires Convert(infix).Ok?
    ensures var out := Convert(infix).value;
            && OutputShape(out)
            && LParen !in out && RParen !in out && End !in out
            && Numbers(out) == Numbers(infix)
            && multiset(Operators(out)) == multiset(Operators(infix))
            && |out| == |Numbers(infix)| + |Operators(infix)|
            && |out| < OutputLimit - 1
  {
    var out := Convert(infix).value;
    ConvertAccounts(infix);
    assert Operators([]) == [];
    OutputShapeMembers(out);
    OutputShapeCount(out);
    assert |Operators(out)| == |multiset(Operators(out))|;
    assert |Operators(infix)| == |multiset(Operators(infix))|;
  }

  // ---------------------------------------------------------------------
  // Precedence order on the stack

  /** An operator on the stack directly above another operator binds more
      tightly than it: equal precedence never stacks up. */
  predicate Ordered(stack: seq<Token>) {
    forall k | 0 <= k < |stack| - 1 ::
      stack[k].Operator? && stack[k + 1].Operator? ==>
        Precedence(stack[k].symbol) < Precedence(stack[k + 1].symbol)
  }

  lemma OrderedPrefix(stack: seq<Token>, n: nat)
    requires Ordered(stack) && n <= |stack|
    ensures Ordered(stack[..n])
  {
    assert forall k | 0 <= k < n :: stack[..n][k] == stack[k];
  }

  lemma {:induction false} PopAtLeastOrdered(s: State, prec: nat)
    requires Ordered(s.stack)
    ensures Ordered(PopAtLeast(s, prec).stack)
    decreases |s.stack|
  {
    if s.stack != [] && Top(s.stack).Operator? && Precedence(Top(s.stack).symbol) >= prec {
      OrderedPrefix(s.stack, |s.stack| - 1);
      PopAtLeastOrdered(PopToOutput(s), prec);
    }
  }

  lemma {:induction false} PopToLParenOrdered(s: State)
    requires Ordered(s.stack)
    ensures Ordered(PopToLParen(s).stack)
    decreases |s.stack|
  {
    if s.stack != [] && !Top(s.stack).LParen? {
      OrderedPrefix(s.stack, |s.stack| - 1);
      PopToLParenOrdered(PopToOutput(s));
    }
  }

  /** Pushing a token whose precedence the top of the stack does not reach. */
  lemma PushOrdered(stack: seq<Token>, t: Token)
    requires Ordered(stack)
    requires t.Operator? && stack != [] && Top(stack).Operator? ==>
               Precedence(Top(stack).symbol) < Precedence(t.symbol)
    ensures Ordered(stack + [t])
  {
    var s' := stack + [t];
    forall k | 0 <= k < |s'| - 1
      ensures s'[k].Operator? && s'[k + 1].Operator? ==>
                Precedence(s'[k].symbol) < Precedence(s'[k + 1].symbol)
    {
      if k + 1 < |stack| {
        assert s'[k] == stack[k] && s'[k + 1] == stack[k + 1];
      } else {
        assert s'[k] == Top(stack) && s'[k + 1] == t;
      }
    }
  }

  lemma StepOrdered(t: Token, s: State)
    requires Ordered(s.stack) && Step(t, s).Ok?
    ensures Ordered(Step(t, s).value.stack)
  {
    match t
    case Number(_) =>
    case Operator(op) =>
      PopAtLeastOrdered(s, Precedence(op));
      PushOrdered(PopAtLeast(s, Precedence(op)).stack, t);
    case LParen =>
      PushOrdered(s.stack, t);
    case RParen =>
      var r := PopToLParen(s);
      PopToLParenOrdered(s);
      OrderedPrefix(r.stack, |r.stack| - 1);
    case End =>
  }

  /** Throughout the conversion, the operator stack holds higher-precedence
      operators above lower-precedence ones. */
  lemma {:induction false} RunOrdered(ts: seq<Token>, s: State)
    requires Ordered(s.stack) && Run(ts, s).Ok?
    ensures Ordered(Run(ts, s).value.stack)
    decreases |ts|
  {
    if ts != [] {
      StepOrdered(ts[0], s);
      RunOrdered(ts[1..], Step(ts[0], s).value);
    }
  }

  // ---------------------------------------------------------------------
  // Ties and precedence between an incoming operator and the stack top

  /** An incoming operator first sends to the output a stacked operator that
      binds at least as tightly (a tie pops, which makes the operators left
      associative); it leaves a '(' or a weaker operator in place and goes on
      top of it. */
  lemma OperatorMeetsTop(op: char, s: State)
    requires s.stack != [] && Dispatch(Operator(op), s).Ok?
    ensures var top := Top(s.stack);
            var r := Dispatch(Operator(op), s).value;
            && Top(r.stack) == Operator(op)
            && (top.Operator? && Precedence(top.symbol) >= Precedence(op)
                <==> |r.out| > |s.out| && r.out[|s.out|] == top)
  {
    var top := Top(s.stack);
    var r := Dispatch(Operator(op), s).value;
    var p := Precedence(op);
    PopAtLeastGrows(s, p);
    if top.Operator? && Precedence(top.symbol) >= p {
      var q := PopToOutput(s);
      PopAtLeastGrows(q, p);
      assert r.out[..|q.out|] == q.out;
      assert r.out[|s.out|] == q.out[|s.out|];
    } else {
      assert PopAtLeast(s, p) == s;
    }
  }

  /** PopAtLeast only appends to the output. */
  lemma {:induction false} PopAtLeastGrows(s: State, prec: nat)
    ensures |s.out| <= |PopAtLeast(s, prec).out|
    ensures PopAtLeast(s, prec).out[..|s.out|] == s.out
    decreases |s.stack|
  {
    if s.stack != [] && Top(s.stack).Operator? && Precedence(Top(s.stack).symbol) >= prec {
      var q := PopToOutput(s);
      PopAtLeastGrows(q, prec);
      TakeTake(PopAtLeast(q, prec).out, |s.out|, |q.out|);
      AppendTake(s.out, [Top(s.stack)]);
    }
  }
}
