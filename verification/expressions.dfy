/** A reference semantics for the whole compiler: arithmetic expression trees,
    their infix spelling, their postfix form and their value. For every tree
    written without ambiguity (each operand of an operator either binds
    tighter than it, or is a parenthesised group, or is the left operand of
    an operator of the same precedence), the converter turns the infix
    tokens into the tree's postfix form, and evaluating that postfix form
    yields the tree's value. */
module Expressions {
  import opened Tokens
  import opened Converter
  import opened Evaluator
  import EvaluatorProperties

  /** An arithmetic expression: a number, an operator applied to two
      operands, or a parenthesised expression. */
  datatype Expr = Lit(v: real) | Bin(op: char, left: Expr, right: Expr) | Group(inner: Expr)

  /** The infix token spelling of an expression. */
  function Infix(e: Expr): (ts: seq<Token>)
    ensures |ts| >= 1
  {
    match e
    case Lit(v) => [Number(v)]
    case Bin(op, l, r) => Infix(l) + ([Operator(op)] + Infix(r))
    case Group(inner) => [LParen] + (Infix(inner) + [RParen])
  }

  /** The postfix (RPN) form: both operands, then the operator; groups leave
      no trace. */
  function Postfix(e: Expr): (ts: seq<Token>)
    ensures 1 <= |ts| <= |Infix(e)|
  {
    match e
    case Lit(v) => [Number(v)]
    case Bin(op, l, r) => Postfix(l) + (Postfix(r) + [Operator(op)])
    case Group(inner) => Postfix(inner)
  }

  /** The value of an expression: the left operand first, then the right one,
      then the operator, as Apply computes it. */
  function Value(e: Expr): Result<real, EvalError> {
    match e
    case Lit(v) => Ok(v)
    case Bin(op, l, r) =>
      if Value(l).Err? then Value(l)
      else if Value(r).Err? then Value(r)
      else Apply(op, Value(l).value, Value(r).value)
    case Group(inner) => Value(inner)
  }

  /** How tightly the outermost operator of e binds: numbers and groups bind
      tighter than any operator. */
  function TopPrec(e: Expr): nat {
    match e
    case Bin(op, _, _) => Precedence(op)
    case _ => 3
  }

  /** The tree is the one its infix spelling denotes: known operators, left
      operands that bind at least as tightly as their operator, right
      operands that bind strictly tighter. */
  predicate Canonical(e: Expr) {
    match e
    case Lit(_) => true
    case Bin(op, l, r) =>
      && IsOperatorChar(op) && Canonical(l) && Canonical(r)
      && TopPrec(l) >= Precedence(op) && TopPrec(r) > Precedence(op)
    case Group(inner) => Canonical(inner)
  }

  /** The elements of s, last first. */
  function Reverse<T>(s: seq<T>): (r: seq<T>)
    ensures |r| == |s|
  {
    if s == [] then [] else Reverse(s[1..]) + [s[0]]
  }

  lemma {:induction false} ReverseLast<T>(s: seq<T>)
    requires s != []
    ensures Reverse(s) == [s[|s| - 1]] + Reverse(s[..|s| - 1])
    decreases |s|
  {
    if |s| > 1 {
      var t := s[1..];
      ReverseLast(t);
      assert t[|t| - 1] == s[|s| - 1];
      assert s[..|s| - 1][1..] == t[..|t| - 1];
      AppendAssoc([s[|s| - 1]], Reverse(t[..|t| - 1]), [s[0]]);
    }
  }

  // The shunting-yard algorithm on the infix spelling of a canonical tree:
  // the operators of the tree's right spine stay on the operator stack
  // (Pending, bottom first), everything else has been output (Emitted).

  function Pending(e: Expr): seq<Token> {
    match e
    case Bin(op, _, r) => [Operator(op)] + Pending(r)
    case _ => []
  }

  function Emitted(e: Expr): seq<Token> {
    match e
    case Lit(v) => [Number(v)]
    case Bin(_, l, r) => Emitted(l) + (Reverse(Pending(l)) + Emitted(r))
    case Group(inner) => Postfix(inner)
  }

  /** Popping the pending operators completes the postfix form. */
  lemma {:induction false} PostfixSplit(e: Expr)
    ensures Postfix(e) == Emitted(e) + Reverse(Pending(e))
    ensures |Emitted(e)| + |Pending(e)| <= |Infix(e)|
  {
    match e
    case Lit(_) =>
    case Group(_) =>
    case Bin(op, l, r) =>
      PostfixSplit(l);
      PostfixSplit(r);
      var el, pl, er, pr := Emitted(l), Reverse(Pending(l)), Emitted(r), Reverse(Pending(r));
      assert ([Operator(op)] + Pending(r))[1..] == Pending(r);
      assert Reverse(Pending(e)) == pr + [Operator(op)];
      AppendAssoc(el, pl, er + (pr + [Operator(op)]));
      AppendAssoc(pl, er, pr + [Operator(op)]);
      AppendAssoc(el + pl, er, pr + [Operator(op)]);
      AppendAssoc(er, pr, [Operator(op)]);
      AppendAssoc(el, pl + er, pr + [Operator(op)]);
      AppendAssoc(el, pl, er);
      AppendAssoc(el, pl + er, pr);
      assert Emitted(e) + Reverse(Pending(e)) == el + (pl + er) + (pr + [Operator(op)]);
  }

  /** Every operator of P binds at least as tightly as p. */
  predicate OperatorsAtLeast(P: seq<Token>, p: nat) {
    forall k | 0 <= k < |P| :: P[k].Operator? && Precedence(P[k].symbol) >= p
  }

  /** The top of S stops an operator of precedence p from popping. */
  predicate Guard(S: seq<Token>, p: nat) {
    !Top(S).Operator? || Precedence(Top(S).symbol) < p
  }

  lemma PendingAtLeast(e: Expr)
    requires Canonical(e)
    ensures OperatorsAtLeast(Pending(e), TopPrec(e))
  {
    match e
    case Lit(_) =>
    case Group(_) =>
    case Bin(op, l, r) =>
      PendingAtLeast(r);
      assert forall k | 1 <= k < |Pending(e)| :: Pending(e)[k] == Pending(r)[k - 1];
  }

  lemma OperatorsAtLeastInit(P: seq<Token>, p: nat)
    requires P != [] && OperatorsAtLeast(P, p)
    ensures OperatorsAtLeast(P[..|P| - 1], p) && P[|P| - 1].Operator?
    ensures Precedence(P[|P| - 1].symbol) >= p
  {
  }

  /** S + P with its last token moved to the output. */
  lemma PopLast(S: seq<Token>, P: seq<Token>, O: seq<Token>)
    requires P != []
    ensures Top(S + P) == P[|P| - 1]
    ensures PopToOutput(State(S + P, O)) == State(S + P[..|P| - 1], O + [P[|P| - 1]])
  {
    SplitJoin(P, |P| - 1);
    AppendAssoc(S, P[..|P| - 1], [P[|P| - 1]]);
    AppendTake(S + P[..|P| - 1], [P[|P| - 1]]);
  }

  /** An operator of precedence p pops the pending operators above S. */
  lemma {:induction false} PopPending(S: seq<Token>, P: seq<Token>, O: seq<Token>, p: nat)
    requires Guard(S, p) && OperatorsAtLeast(P, p)
    ensures PopAtLeast(State(S + P, O), p) == State(S, O + Reverse(P))
    decreases |P|
  {
    if P == [] {
      assert S + P == S && O + Reverse(P) == O;
    } else {
      OperatorsAtLeastInit(P, p);
      PopLast(S, P, O);
      PopPending(S, P[..|P| - 1], O + [P[|P| - 1]], p);
      ReverseLast(P);
      AppendAssoc(O, [P[|P| - 1]], Reverse(P[..|P| - 1]));
    }
  }

  /** A ')' pops the pending operators above its '('. */
  lemma {:induction false} PopPendingToLParen(S: seq<Token>, P: seq<Token>, O: seq<Token>)
    requires Top(S).LParen? && OperatorsAtLeast(P, 0)
    ensures PopToLParen(State(S + P, O)) == State(S, O + Reverse(P))
    decreases |P|
  {
    if P == [] {
      assert S + P == S && O + Reverse(P) == O;
    } else {
      OperatorsAtLeastInit(P, 0);
      PopLast(S, P, O);
      PopPendingToLParen(S, P[..|P| - 1], O + [P[|P| - 1]]);
      ReverseLast(P);
      AppendAssoc(O, [P[|P| - 1]], Reverse(P[..|P| - 1]));
    }
  }

  /** The loop after the input outputs the pending operators. */
  lemma {:induction false} DrainPending(P: seq<Token>, O: seq<Token>)
    requires OperatorsAtLeast(P, 0) && |O| + |P| < OutputLimit - 1
    ensures Drain(State(P, O)) == Ok(O + Reverse(P))
    decreases |P|
  {
    if P == [] {
      assert O + Reverse(P) == O;
    } else {
      OperatorsAtLeastInit(P, 0);
      PopLast([], P, O);
      assert [] + P == P && [] + P[..|P| - 1] == P[..|P| - 1];
      DrainPending(P[..|P| - 1], O + [P[|P| - 1]]);
      ReverseLast(P);
      AppendAssoc(O, [P[|P| - 1]], Reverse(P[..|P| - 1]));
    }
  }

  /** Running a sequence runs its two parts in turn. */
  lemma {:induction false} RunAppend(a: seq<Token>, b: seq<Token>, s: State)
    ensures Run(a + b, s) == if Run(a, s).Err? then Run(a, s) else Run(b, Run(a, s).value)
    decreases |a|
  {
    if a == [] {
      assert a + b == b;
    } else {
      assert (a + b)[0] == a[0] && (a + b)[1..] == a[1..] + b;
      if Step(a[0], s).Ok? {
        RunAppend(a[1..], b, Step(a[0], s).value);
      }
    }
  }

  lemma RunOne(t: Token, s: State)
    ensures Run([t], s) == Step(t, s)
  {
    assert [t][1..] == [];
  }

  lemma RunLit(v: real, S: seq<Token>, O: seq<Token>)
    requires |S| + |O| + 1 <= StackSize
    ensures Run(Infix(Lit(v)), State(S, O)) == Ok(State(S + Pending(Lit(v)), O + Emitted(Lit(v))))
  {
    RunOne(Number(v), State(S, O));
    assert S + [] == S;
  }

  /** The operator of Bin(op, l, r), between its operands. */
  lemma RunOperator(op: char, l: Expr, S: seq<Token>, O: seq<Token>)
    requires Canonical(l) && TopPrec(l) >= Precedence(op) && Guard(S, Precedence(op))
    requires |S| + |O| + |Emitted(l)| + |Pending(l)| < StackSize
    ensures Run([Operator(op)], State(S + Pending(l), O + Emitted(l)))
            == Ok(State(S + [Operator(op)], O + Emitted(l) + Reverse(Pending(l))))
  {
    var s := State(S + Pending(l), O + Emitted(l));
    RunOne(Operator(op), s);
    PendingAtLeast(l);
    PopPending(S, Pending(l), O + Emitted(l), Precedence(op));
  }

  lemma RunBin(op: char, l: Expr, r: Expr, S: seq<Token>, O: seq<Token>)
    requires Canonical(Bin(op, l, r)) && Guard(S, Precedence(op))
    requires |S| + |O| + |Emitted(l)| + |Pending(l)| < StackSize
    requires Run(Infix(l), State(S, O)) == Ok(State(S + Pending(l), O + Emitted(l)))
    requires Run(Infix(r), State(S + [Operator(op)], O + Emitted(l) + Reverse(Pending(l))))
             == Ok(State(S + [Operator(op)] + Pending(r), O + Emitted(l) + Reverse(Pending(l)) + Emitted(r)))
    ensures Run(Infix(Bin(op, l, r)), State(S, O))
            == Ok(State(S + Pending(Bin(op, l, r)), O + Emitted(Bin(op, l, r))))
  {
    RunAppend(Infix(l), [Operator(op)] + Infix(r), State(S, O));
    RunAppend([Operator(op)], Infix(r), State(S + Pending(l), O + Emitted(l)));
    RunOperator(op, l, S, O);
    AppendAssoc(S, [Operator(op)], Pending(r));
    AppendAssoc(O + Emitted(l), Reverse(Pending(l)), Emitted(r));
    AppendAssoc(O, Emitted(l), Reverse(Pending(l)) + Emitted(r));
  }

  lemma RunGroup(inner: Expr, S: seq<Token>, O: seq<Token>)
    requires Canonical(inner)
    requires |S| + |O| + |Infix(Group(inner))| <= StackSize
    requires Run(Infix(inner), State(S + [LParen], O))
             == Ok(State(S + [LParen] + Pending(inner), O + Emitted(inner)))
    ensures Run(Infix(Group(inner)), State(S, O))
            == Ok(State(S + Pending(Group(inner)), O + Emitted(Group(inner))))
  {
    RunAppend([LParen], Infix(inner) + [RParen], State(S, O));
    RunOne(LParen, State(S, O));
    RunAppend(Infix(inner), [RParen], State(S + [LParen], O));
    var s := State(S + [LParen] + Pending(inner), O + Emitted(inner));
    RunOne(RParen, s);
    PendingAtLeast(inner);
    assert OperatorsAtLeast(Pending(inner), 0);
    PopPendingToLParen(S + [LParen], Pending(inner), O + Emitted(inner));
    PostfixSplit(inner);
    AppendAssoc(O, Emitted(inner), Reverse(Pending(inner)));
    AppendTake(S, [LParen]);
    assert S + [] == S;
  }

  /** The shunting-yard loop over the infix spelling of a canonical tree,
      from an operator stack whose top the tree's operators do not pop. */
  lemma {:induction false} RunInfix(e: Expr, S: seq<Token>, O: seq<Token>)
    requires Canonical(e) && Guard(S, TopPrec(e))
    requires |S| + |O| + |Infix(e)| <= StackSize
    ensures Run(Infix(e), State(S, O)) == Ok(State(S + Pending(e), O + Emitted(e)))
  {
    match e
    case Lit(v) =>
      RunLit(v, S, O);
    case Bin(op, l, r) =>
      PostfixSplit(l);
      RunInfix(l, S, O);
      RunInfix(r, S + [Operator(op)], O + Emitted(l) + Reverse(Pending(l)));
      RunBin(op, l, r, S, O);
    case Group(inner) =>
      RunInfix(inner, S + [LParen], O);
      RunGroup(inner, S, O);
  }

  /** infix_to_rpn turns the infix spelling of a canonical tree into its
      postfix form. */
  lemma ConvertInfix(e: Expr)
    requires Canonical(e) && |Infix(e)| <= StackSize
    ensures Convert(Infix(e)) == Ok(Postfix(e))
  {
    RunInfix(e, [], []);
    assert [] + Pending(e) == Pending(e) && [] + Emitted(e) == Emitted(e);
    PostfixSplit(e);
    PendingAtLeast(e);
    DrainPending(Pending(e), Emitted(e));
  }

  /** Evaluating the postfix form of e, followed by more tokens, leaves the
      value of e on top of the operand stack. */
  lemma {:induction false} EvalPostfix(e: Expr, rest: seq<Token>, st: seq<real>)
    requires |st| + |Postfix(e)| <= StackSize
    ensures Value(e).Err? ==> EvalFrom(Postfix(e) + rest, st) == Err(Value(e).error)
    ensures Value(e).Ok? ==> EvalFrom(Postfix(e) + rest, st) == EvalFrom(rest, st + [Value(e).value])
  {
    match e
    case Lit(v) =>
      EvaluatorProperties.EvalPush(v, rest, st);
    case Group(inner) =>
      EvalPostfix(inner, rest, st);
    case Bin(op, l, r) =>
      var tail := Postfix(r) + ([Operator(op)] + rest);
      AppendAssoc(Postfix(l), Postfix(r) + [Operator(op)], rest);
      AppendAssoc(Postfix(r), [Operator(op)], rest);
      EvalPostfix(l, tail, st);
      if Value(l).Ok? {
        var lv := Value(l).value;
        EvalPostfix(r, [Operator(op)] + rest, st + [lv]);
        if Value(r).Ok? {
          EvaluatorProperties.EvalOperator(op, rest, st, lv, Value(r).value);
          assert st + [lv] + [Value(r).value] == st + [lv, Value(r).value];
        }
      }
  }

  /** evaluate_rpn on the postfix form of e computes the value of e. */
  lemma EvaluatePostfix(e: Expr)
    requires |Postfix(e)| <= StackSize
    ensures Evaluate(Postfix(e)) == Value(e)
  {
    EvalPostfix(e, [], []);
    assert Postfix(e) + [] == Postfix(e);
  }
}
