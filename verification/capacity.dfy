/** The two capacity failures of the converter: the operator stack holds at
    most StackSize tokens, and the output index may not reach
    OutputLimit - 1. Runs of '(' and runs of numbers show exactly where each
    bound bites. */
module Capacity {
  import opened Tokens
  import opened Converter

  /** n copies of t. */
  function Repeat(t: Token, n: nat): (ts: seq<Token>)
    ensures |ts| == n && forall k | 0 <= k < n :: ts[k] == t
  {
    seq(n, _ => t)
  }

  lemma RepeatTail(t: Token, n: nat)
    requires n > 0
    ensures Repeat(t, n)[0] == t && Repeat(t, n)[1..] == Repeat(t, n - 1)
  {
  }

  /** Numbers go straight to the output; the number that brings the output
      to OutputLimit - 1 tokens fails the conversion. */
  lemma {:induction false} RunNumbers(v: real, n: nat, S: seq<Token>, O: seq<Token>)
    requires n > 0
    ensures |O| + n < OutputLimit - 1 ==> Run(Repeat(Number(v), n), State(S, O)) == Ok(State(S, O + Repeat(Number(v), n)))
    ensures |O| + n >= OutputLimit - 1 ==> Run(Repeat(Number(v), n), State(S, O)) == Err(OutputFull)
    decreases n
  {
    var t := Number(v);
    RepeatTail(t, n);
    if |O| + 1 < OutputLimit - 1 {
      if n > 1 {
        RunNumbers(v, n - 1, S, O + [t]);
        AppendAssoc(O, [t], Repeat(t, n - 1));
        assert [t] + Repeat(t, n - 1) == Repeat(t, n);
      } else {
        assert O + [t] == O + Repeat(t, n);
      }
    }
  }

  /** Each '(' is pushed; the one that finds the stack full fails the
      conversion. */
  lemma {:induction false} RunLParens(n: nat, S: seq<Token>, O: seq<Token>)
    requires n > 0 && |O| < OutputLimit - 1
    ensures |S| + n <= StackSize ==> Run(Repeat(LParen, n), State(S, O)) == Ok(State(S + Repeat(LParen, n), O))
    ensures |S| + n > StackSize ==> Run(Repeat(LParen, n), State(S, O)) == Err(StackFull)
    decreases n
  {
    RepeatTail(LParen, n);
    if |S| < StackSize {
      if n > 1 {
        RunLParens(n - 1, S + [LParen], O);
        AppendAssoc(S, [LParen], Repeat(LParen, n - 1));
        assert [LParen] + Repeat(LParen, n - 1) == Repeat(LParen, n);
      } else {
        assert S + [LParen] == S + Repeat(LParen, n);
      }
    }
  }

  /** 510 numbers fit the output; 511 do not. */
  lemma OutputBound(v: real)
    ensures Convert(Repeat(Number(v), OutputLimit - 2)) == Ok(Repeat(Number(v), OutputLimit - 2))
    ensures Convert(Repeat(Number(v), OutputLimit - 1)) == Err(OutputFull)
  {
    RunNumbers(v, OutputLimit - 2, [], []);
    RunNumbers(v, OutputLimit - 1, [], []);
    assert [] + Repeat(Number(v), OutputLimit - 2) == Repeat(Number(v), OutputLimit - 2);
  }

  /** 256 '(' fit the stack and are then left unclosed; the 257th does not
      fit. */
  lemma StackBound()
    ensures Convert(Repeat(LParen, StackSize)) == Err(UnbalancedParens)
    ensures Convert(Repeat(LParen, StackSize + 1)) == Err(StackFull)
  {
    RunLParens(StackSize, [], []);
    RunLParens(StackSize + 1, [], []);
    assert [] + Repeat(LParen, StackSize) == Repeat(LParen, StackSize);
    assert Top(Repeat(LParen, StackSize)) == LParen;
  }
}
