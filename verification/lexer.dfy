/** The tokenizer (`tokenize`, main.c:73-152): a left-to-right scan that turns
    the characters of the input into Number, Operator, LParen and RParen
    tokens, skips white space, and gives up at the first character it cannot
    place. The scan is specified by the function Lex; the method Tokenize is the
    loop of the C code, proved to compute Lex. */
module Lexer {
  import opened Tokens

  /** The characters of a C string: everything before its terminating NUL, so
      never a NUL itself. */
  type CString = s: string | '\0' !in s

  /** The one way tokenizing fails: a character that starts no token, with
      its position in the input. */
  datatype LexError = UnexpectedChar(c: char, position: nat)

  /** isdigit. */
  predicate IsDigit(c: char) {
    '0' <= c <= '9'
  }

  /** isspace in the C locale: space, \t, \n, \v, \f, \r. None of them
      is a digit, an operator, a parenthesis or the decimal point, so the
      scanner's branches never overlap. */
  predicate IsSpace(c: char)
    ensures IsSpace(c) ==> !IsDigit(c) && !IsOperatorChar(c) && c != '(' && c != ')' && c != '.'
  {
    c == ' ' || c == '\t' || c == '\n' || c == '\U{B}' || c == '\U{C}' || c == '\r'
  }

  /** The test that sends the scanner to strtod: a digit, or a '.' followed
      by a digit. */
  predicate StartsNumber(s: string) {
    |s| > 0 && (IsDigit(s[0]) || (s[0] == '.' && |s| > 1 && IsDigit(s[1])))
  }

  /** Length of the run of digits that begins s. */
  function DigitsLen(s: string): (n: nat)
    ensures n <= |s|
    ensures n == |s| || !IsDigit(s[n])
  {
    if s != [] && IsDigit(s[0]) then 1 + DigitsLen(s[1..]) else 0
  }

  /** The run DigitsLen measures is made of digits. */
  lemma {:induction false} DigitsLenDigits(s: string)
    ensures AllDigits(s[..DigitsLen(s)])
  {
    if s != [] && IsDigit(s[0]) {
      DigitsLenDigits(s[1..]);
      assert s[..DigitsLen(s)] == [s[0]] + s[1..][..DigitsLen(s[1..])];
    }
  }

  /** Length of the decimal literal strtod consumes at the start of s:
      digits, then optionally a '.' and more digits. */
  function NumberLen(s: string): (n: nat)
    requires StartsNumber(s)
    ensures 0 < n <= |s|
  {
    var d := DigitsLen(s);
    if d < |s| && s[d] == '.' then d + 1 + DigitsLen(s[d + 1..]) else d
  }

  function DigitValue(c: char): (v: nat)
    requires IsDigit(c)
    ensures v < 10
  {
    c as int - '0' as int
  }

  predicate AllDigits(ds: string) {
    forall k | 0 <= k < |ds| :: IsDigit(ds[k])
  }

  /** The natural number a digit string denotes, most significant digit first. */
  function NaturalValue(ds: string): nat
    requires AllDigits(ds)
  {
    if ds == [] then 0
    else 10 * NaturalValue(ds[..|ds| - 1]) + DigitValue(ds[|ds| - 1])
  }

  /** The value of the digits after a decimal point. */
  function FractionValue(ds: string): (r: real)
    requires AllDigits(ds)
    ensures 0.0 <= r < 1.0
  {
    if ds == [] then 0.0
    else (DigitValue(ds[0]) as real + FractionValue(ds[1..])) / 10.0
  }

  /** The exact value of the literal NumberLen(s) measures. */
  function NumberValue(s: string): (v: real)
    requires StartsNumber(s)
    ensures v >= 0.0
  {
    var d := DigitsLen(s);
    DigitsLenDigits(s);
    var whole := NaturalValue(s[..d]) as real;
    if d < |s| && s[d] == '.' then
      DigitsLenDigits(s[d + 1..]);
      assert s[d + 1..NumberLen(s)] == s[d + 1..][..DigitsLen(s[d + 1..])];
      whole + FractionValue(s[d + 1..NumberLen(s)])
    else whole
  }

  /** What the scanner does with the first character of s. */
  datatype Scan =
    | Emit(token: Token, len: nat)  // a token spelled by the first len characters
    | Skip                          // white space
    | Reject                        // a character that starts no token

  /** One step of the scanning loop: the if-chain of the C code. */
  function ScanOne(s: string): (r: Scan)
    requires s != []
    ensures r.Emit? ==> 0 < r.len <= |s|
  {
    if StartsNumber(s) then Emit(Number(NumberValue(s)), NumberLen(s))
    else if IsOperatorChar(s[0]) then Emit(Operator(s[0]), 1)
    else if s[0] == '(' then Emit(LParen, 1)
    else if s[0] == ')' then Emit(RParen, 1)
    else if IsSpace(s[0]) then Skip
    else Reject
  }

  /** The scan of the rest s of the input, which starts at index pos, after the
      tokens acc have been produced. Tokens are only ever appended, and an
      error names a position inside the rest of the input. */
  function LexFrom(s: string, pos: nat, acc: seq<Token>): (r: Result<seq<Token>, LexError>)
    ensures r.Ok? ==> acc <= r.value
    ensures r.Err? ==> pos <= r.error.position < pos + |s|
    decreases |s|
  {
    if s == [] then Ok(acc)
    else
      match ScanOne(s)
      case Emit(t, n) => LexFrom(s[n..], pos + n, acc + [t])
      case Skip => LexFrom(s[1..], pos + 1, acc)
      case Reject => Err(UnexpectedChar(s[0], pos))
  }

  /** One turn of the scanning loop at index i of the input, with the tests
      written as the C code writes them. */
  lemma LexFromAt(input: string, i: nat, acc: seq<Token>)
    requires i < |input|
    ensures var c, rest := input[i], input[i..];
            StartsNumber(rest) <==> IsDigit(c) || (c == '.' && i + 1 < |input| && IsDigit(input[i + 1]))
    ensures var rest := input[i..];
            StartsNumber(rest) ==>
              LexFrom(rest, i, acc) == LexFrom(input[i + NumberLen(rest)..], i + NumberLen(rest), acc + [Number(NumberValue(rest))])
    ensures var c, rest := input[i], input[i..];
            !StartsNumber(rest) && (IsOperatorChar(c) || c == '(' || c == ')') ==>
              var t := if IsOperatorChar(c) then Operator(c) else if c == '(' then LParen else RParen;
              LexFrom(rest, i, acc) == LexFrom(input[i + 1..], i + 1, acc + [t])
    ensures var c, rest := input[i], input[i..];
            !StartsNumber(rest) && !IsOperatorChar(c) && c != '(' && c != ')' ==>
              LexFrom(rest, i, acc) == if IsSpace(c) then LexFrom(input[i + 1..], i + 1, acc) else Err(UnexpectedChar(c, i))
  {
    var rest := input[i..];
    assert rest[0] == input[i] && rest[1..] == input[i + 1..];
    if StartsNumber(rest) {
      assert rest[NumberLen(rest)..] == input[i + NumberLen(rest)..];
    }
  }

  /** The token sequence of a whole input. The sentinel the C code stores
      after the last token is the end of this sequence. */
  function Lex(s: string): (r: Result<seq<Token>, LexError>)
    ensures r.Err? ==> r.error.position < |s|
  {
    LexFrom(s, 0, [])
  }

  /** tokenize: the scanning loop, appending to a growable token buffer. */
  method Tokenize(input: CString) returns (r: Result<seq<Token>, LexError>)
    ensures r == Lex(input)
  {
    var tokens: seq<Token> := [];
    var current := 0;
    while current < |input|
      invariant current <= |input|
      invariant LexFrom(input[current..], current, tokens) == Lex(input)
      decreases |input| - current
    {
      var c := input[current];
      LexFromAt(input, current, tokens);
      if IsDigit(c) || (c == '.' && current + 1 < |input| && IsDigit(input[current + 1])) {
        // strtod: measure the literal and take its value
        var n := NumberLen(input[current..]);
        tokens := tokens + [Number(NumberValue(input[current..]))];
        current := current + n;
      } else if IsOperatorChar(c) {
        tokens := tokens + [Operator(c)];
        current := current + 1;
      } else if c == '(' {
        tokens := tokens + [LParen];
        current := current + 1;
      } else if c == ')' {
        tokens := tokens + [RParen];
        current := current + 1;
      } else if IsSpace(c) {
        current := current + 1;
      } else {
        return Err(UnexpectedChar(c, current));
      }
    }
    r := Ok(tokens);
  }
}
