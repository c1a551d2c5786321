/** The stages chained as the program chains them: the text of an expression
    is tokenized, converted to RPN, evaluated, and the RPN is emitted as
    assembly. For the text of a canonical expression tree with whole
    non-negative literals, every stage succeeds and computes what the tree
    denotes. Concrete inputs show associativity, precedence, grouping and
    the error cases of each stage. */
module Pipeline {
  import opened Tokens
  import opened Lexer
  import opened Converter
  import opened Evaluator
  import opened Assembly
  import opened Expressions
  import LexerProperties
  import AssemblyProperties
  import Parentheses

  /** Every literal of e is a whole non-negative number, as the tokenizer
      reads them. */
  predicate WholeLiterals(e: Expr) {
    match e
    case Lit(v) => v >= 0.0 && v.Floor as real == v
    case Bin(_, l, r) => WholeLiterals(l) && WholeLiterals(r)
    case Group(inner) => WholeLiterals(inner)
  }

  /** The tokens of the infix spelling can be written out as text. */
  lemma {:induction false} InfixPrintable(e: Expr)
    requires Canonical(e) && WholeLiterals(e)
    ensures forall t | t in Infix(e) :: LexerProperties.Printable(t)
  {
    match e
    case Lit(_) =>
    case Bin(op, l, r) =>
      InfixPrintable(l);
      InfixPrintable(r);
    case Group(inner) =>
      InfixPrintable(inner);
  }

  /** The postfix form holds whole numbers and known operators only. */
  lemma {:induction false} PostfixEmittable(e: Expr)
    requires Canonical(e) && WholeLiterals(e)
    ensures forall t | t in Postfix(e) :: AssemblyProperties.Emittable(t) && AssemblyProperties.Whole(t)
  {
    match e
    case Lit(_) =>
    case Bin(op, l, r) =>
      PostfixEmittable(l);
      PostfixEmittable(r);
    case Group(inner) =>
      PostfixEmittable(inner);
  }

  /** The whole program on the text of a canonical expression: tokenizing
      gives back its infix tokens, converting gives its postfix form,
      evaluating gives its value, and the assembly listing reads back into
      the RPN buffer. */
  lemma CompileExpression(e: Expr)
    requires Canonical(e) && WholeLiterals(e) && |Infix(e)| <= StackSize
    ensures forall t | t in Infix(e) :: LexerProperties.Printable(t)
    ensures Lex(LexerProperties.Render(Infix(e))) == Ok(Infix(e))
    ensures Convert(Infix(e)) == Ok(Postfix(e))
    ensures Evaluate(Postfix(e)) == Value(e)
    ensures AssemblyProperties.Disassemble(Listing(Postfix(e))) == Postfix(e) + [End]
  {
    InfixPrintable(e);
    LexerProperties.LexRender(Infix(e));
    ConvertInfix(e);
    EvaluatePostfix(e);
    PostfixEmittable(e);
    var rpn := Postfix(e);
    assert forall k | 0 <= k < |rpn| :: rpn[k] in rpn;
    AssemblyProperties.ListingRoundTrip(rpn);
  }

  /** Subtraction associates to the left: 8 - 3 - 2 is (8 - 3) - 2. */
  lemma LeftAssociative()
    ensures Convert([Number(8.0), Operator('-'), Number(3.0), Operator('-'), Number(2.0)])
            == Ok([Number(8.0), Number(3.0), Operator('-'), Number(2.0), Operator('-')])
    ensures Evaluate([Number(8.0), Number(3.0), Operator('-'), Number(2.0), Operator('-')]) == Ok(3.0)
  {
    var left := Bin('-', Lit(8.0), Lit(3.0));
    var e := Bin('-', left, Lit(2.0));
    assert Infix(e) == [Number(8.0), Operator('-'), Number(3.0), Operator('-'), Number(2.0)] by {
      assert Infix(left) == [Number(8.0), Operator('-'), Number(3.0)];
    }
    assert Postfix(e) == [Number(8.0), Number(3.0), Operator('-'), Number(2.0), Operator('-')] by {
      assert Postfix(left) == [Number(8.0), Number(3.0), Operator('-')];
    }
    ConvertInfix(e);
    EvaluatePostfix(e);
  }

  /** The listing of 8 3 - 2 -. */
  lemma LeftAssociativeListing()
    ensures Listing([Number(8.0), Number(3.0), Operator('-'), Number(2.0), Operator('-')])
            == [Push(8), Push(3), Sub, Push(2), Sub, Finished]
  {
    var a, b, c, d := Number(8.0), Number(3.0), Number(2.0), Operator('-');
    LeftAssociativePrefix();
    assert Instruction(d) == Some(Sub);
    AssemblyProperties.CodeSnoc([a, b, d, c], d);
    assert [a, b, d, c] + [d] == [a, b, d, c, d];
  }

  /** The instructions of 8 3 - 2, built one token at a time. */
  lemma LeftAssociativePrefix()
    ensures Code([Number(8.0), Number(3.0), Operator('-'), Number(2.0)]) == [Push(8), Push(3), Sub, Push(2)]
  {
    var a, b, c, d := Number(8.0), Number(3.0), Number(2.0), Operator('-');
    assert Trunc(8.0) == 8 && Trunc(3.0) == 3 && Trunc(2.0) == 2;
    assert Instruction(a) == Some(Push(8)) && Instruction(b) == Some(Push(3));
    assert Instruction(c) == Some(Push(2)) && Instruction(d) == Some(Sub);
    AssemblyProperties.CodeSnoc([], a);
    assert [] + [a] == [a];
    AssemblyProperties.CodeSnoc([a], b);
    assert [a] + [b] == [a, b];
    AssemblyProperties.CodeSnoc([a, b], d);
    assert [a, b] + [d] == [a, b, d];
    AssemblyProperties.CodeSnoc([a, b, d], c);
    assert [a, b, d] + [c] == [a, b, d, c];
  }

  /** Multiplication binds tighter than addition: 2 + 3 * 4 is 14. */
  lemma Precedences()
    ensures Convert([Number(2.0), Operator('+'), Number(3.0), Operator('*'), Number(4.0)])
            == Ok([Number(2.0), Number(3.0), Number(4.0), Operator('*'), Operator('+')])
    ensures Evaluate([Number(2.0), Number(3.0), Number(4.0), Operator('*'), Operator('+')]) == Ok(14.0)
  {
    var right := Bin('*', Lit(3.0), Lit(4.0));
    var e := Bin('+', Lit(2.0), right);
    assert Infix(e) == [Number(2.0), Operator('+'), Number(3.0), Operator('*'), Number(4.0)] by {
      assert Infix(right) == [Number(3.0), Operator('*'), Number(4.0)];
    }
    assert Postfix(e) == [Number(2.0), Number(3.0), Number(4.0), Operator('*'), Operator('+')] by {
      assert Postfix(right) == [Number(3.0), Number(4.0), Operator('*')];
    }
    assert Canonical(e) && Value(e) == Ok(14.0) by {
      assert Canonical(right) && Value(right) == Ok(12.0);
    }
    ConvertInfix(e);
    EvaluatePostfix(e);
  }

  /** Parentheses override precedence: (2 + 3) * 4 is 20. */
  lemma Grouping()
    ensures Convert([LParen, Number(2.0), Operator('+'), Number(3.0), RParen, Operator('*'), Number(4.0)])
            == Ok([Number(2.0), Number(3.0), Operator('+'), Number(4.0), Operator('*')])
    ensures Evaluate([Number(2.0), Number(3.0), Operator('+'), Number(4.0), Operator('*')]) == Ok(20.0)
  {
    var sum := Bin('+', Lit(2.0), Lit(3.0));
    var e := Bin('*', Group(sum), Lit(4.0));
    assert Infix(e) == [LParen, Number(2.0), Operator('+'), Number(3.0), RParen, Operator('*'), Number(4.0)] by {
      assert Infix(sum) == [Number(2.0), Operator('+'), Number(3.0)];
      assert Infix(Group(sum)) == [LParen, Number(2.0), Operator('+'), Number(3.0), RParen];
    }
    assert Postfix(e) == [Number(2.0), Number(3.0), Operator('+'), Number(4.0), Operator('*')] by {
      assert Postfix(sum) == [Number(2.0), Number(3.0), Operator('+')];
    }
    ConvertInfix(e);
    EvaluatePostfix(e);
  }

  /** A division by zero converts but fails to evaluate. */
  lemma DivideByZero()
    ensures Convert([Number(5.0), Operator('/'), Number(0.0)])
            == Ok([Number(5.0), Number(0.0), Operator('/')])
    ensures Evaluate([Number(5.0), Number(0.0), Operator('/')]) == Err(DivisionByZero)
  {
    var e := Bin('/', Lit(5.0), Lit(0.0));
    assert Infix(e) == [Number(5.0), Operator('/'), Number(0.0)];
    assert Postfix(e) == [Number(5.0), Number(0.0), Operator('/')];
    ConvertInfix(e);
    EvaluatePostfix(e);
  }

  /** A '(' never closed and a ')' never opened both fail to convert. */
  lemma Unbalanced()
    ensures Convert([LParen, Number(1.0), Operator('+'), Number(2.0)]) == Err(UnbalancedParens)
    ensures Convert([Number(1.0), Operator('+'), Number(2.0), RParen]) == Err(UnbalancedParens)
  {
    var open := [LParen, Number(1.0), Operator('+'), Number(2.0)];
    var close := [Number(1.0), Operator('+'), Number(2.0), RParen];
    Parentheses.ConvertIffBalanced(open);
    Parentheses.ConvertIffBalanced(close);
    assert open[1..][1..][1..][1..] == [] && close[1..][1..][1..] == [RParen];
    assert !Parentheses.BalancedFrom(open[1..][1..][1..], 1);
    assert !Parentheses.BalancedFrom(close[1..][1..][1..], 0);
  }

  /** A character outside the expression alphabet stops tokenization, and
      the error names it and its position. */
  lemma UnexpectedCharacter()
    ensures Lex("3 + $") == Err(UnexpectedChar('$', 4))
  {
    LexerProperties.LexRejectsUnexpected("3 + $", 4);
    var c, k := Lex("3 + $").error.c, Lex("3 + $").error.position;
    LexerProperties.LexErrorIsUnexpected("3 + $", c, k);
  }
}
