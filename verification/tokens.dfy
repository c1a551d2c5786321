/** Tokens shared by every stage of the expression compiler, the outcome types
    the stages return instead of printing diagnostics, and the buffer sizes. */
module Tokens {

  /** Capacity of both fixed-size stacks (STACK_SIZE). */
  const StackSize: nat := 256

  /** Size of the RPN output buffer the converter checks its index against. */
  const OutputLimit: nat := 512

  /** A lexical token. The C program stores a tag and a union of a double and
      a char; here the payload sits in the constructor. Number values are exact
      reals rather than IEEE doubles. End is the sentinel the C code writes
      after the last token and returns from an empty stack. */
  datatype Token =
    | Number(value: real)
    | Operator(symbol: char)
    | LParen
    | RParen
    | End

  /** The value returned in place of a pointer that may be NULL or a double
      that may be NaN. */
  datatype Option<T> = None | Some(value: T)

  /** The outcome of a stage that can fail. */
  datatype Result<T, E> = Ok(value: T) | Err(error: E)

  /** The four characters the tokenizer turns into Operator tokens. */
  predicate IsOperatorChar(c: char) {
    c == '+' || c == '-' || c == '*' || c == '/'
  }

  /** The Number tokens of a token sequence, in order. */
  function Numbers(ts: seq<Token>): seq<Token> {
    if ts == [] then []
    else (if ts[0].Number? then [ts[0]] else []) + Numbers(ts[1..])
  }

  /** The Operator tokens of a token sequence, in order. */
  function Operators(ts: seq<Token>): seq<Token> {
    if ts == [] then []
    else (if ts[0].Operator? then [ts[0]] else []) + Operators(ts[1..])
  }

  /** How many left parentheses a token sequence holds. */
  function LParenCount(ts: seq<Token>): (n: nat)
    ensures n <= |ts|
    ensures n == 0 <==> LParen !in ts
  {
    if ts == [] then 0
    else (if ts[0] == LParen then 1 else 0) + LParenCount(ts[1..])
  }

  lemma {:induction false} NumbersAppend(a: seq<Token>, b: seq<Token>)
    ensures Numbers(a + b) == Numbers(a) + Numbers(b)
  {
    if a == [] {
      assert a + b == b;
    } else {
      assert (a + b)[0] == a[0] && (a + b)[1..] == a[1..] + b;
      NumbersAppend(a[1..], b);
      var head := if a[0].Number? then [a[0]] else [];
      AppendAssoc(head, Numbers(a[1..]), Numbers(b));
    }
  }

  lemma {:induction false} OperatorsAppend(a: seq<Token>, b: seq<Token>)
    ensures Operators(a + b) == Operators(a) + Operators(b)
  {
    if a == [] {
      assert a + b == b;
    } else {
      assert (a + b)[0] == a[0] && (a + b)[1..] == a[1..] + b;
      OperatorsAppend(a[1..], b);
      var head := if a[0].Operator? then [a[0]] else [];
      AppendAssoc(head, Operators(a[1..]), Operators(b));
    }
  }

  lemma {:induction false} LParenCountAppend(a: seq<Token>, b: seq<Token>)
    ensures LParenCount(a + b) == LParenCount(a) + LParenCount(b)
  {
    if a == [] {
      assert a + b == b;
    } else {
      assert (a + b)[0] == a[0] && (a + b)[1..] == a[1..] + b;
      LParenCountAppend(a[1..], b);
    }
  }

  lemma AppendAssoc<T>(a: seq<T>, b: seq<T>, c: seq<T>)
    ensures (a + b) + c == a + (b + c)
  {
  }

  lemma SplitJoin<T>(s: seq<T>, n: nat)
    requires n <= |s|
    ensures s[..n] + s[n..] == s
  {
  }

  lemma AppendDrop<T>(a: seq<T>, b: seq<T>)
    ensures (a + b)[|a|..] == b
  {
  }

  lemma AppendTake<T>(a: seq<T>, b: seq<T>)
    ensures (a + b)[..|a|] == a
  {
  }

  lemma DropDrop<T>(s: seq<T>, n: nat, m: nat)
    requires n + m <= |s|
    ensures s[n..][m..] == s[n + m..]
  {
  }

  lemma TakeTake<T>(s: seq<T>, m: nat, n: nat)
    requires m <= n <= |s|
    ensures s[..n][..m] == s[..m]
  {
  }
}
