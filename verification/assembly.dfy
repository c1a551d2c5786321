/** The assembly emitter (`generate_assembly_rpn`, main.c:309-328): one
    stack-machine instruction per number and per + - * / operator of the RPN,
    in order, then a closing line. The printed lines are modelled as values of
    the datatype Line; their text is fixed by the constructor. */
module Assembly {
  import opened Tokens

  /** A line of the listing: "PUSH n", "ADD", "SUB", "MUL", "DIV", and the
      closing "End of assembly parsing". */
  datatype Line = Push(n: int) | Add | Sub | Mul | Div | Finished

  /** The C cast from double to int: truncation toward zero. */
  function Trunc(x: real): (n: int)
    ensures x >= 0.0 ==> 0 <= n && n as real <= x < n as real + 1.0
    ensures x < 0.0 ==> n <= 0 && n as real - 1.0 < x <= n as real
  {
    if x >= 0.0 then x.Floor else -((-x).Floor)
  }

  /** The instruction a token becomes, if any: parentheses and the sentinel
      never reach the emitter's branches, and an unknown operator is reported
      and skipped. Numbers and the four operators are exactly the tokens
      that become an instruction, and none becomes the closing line. */
  function Instruction(t: Token): (r: Option<Line>)
    ensures r.Some? <==> t.Number? || (t.Operator? && IsOperatorChar(t.symbol))
    ensures r != Some(Finished)
  {
    match t
    case Number(v) => Some(Push(Trunc(v)))
    case Operator(c) =>
      if c == '+' then Some(Add)
      else if c == '-' then Some(Sub)
      else if c == '*' then Some(Mul)
      else if c == '/' then Some(Div)
      else None
    case _ => None
  }

  /** The lines emitted for the tokens ts, before the closing line: at most
      one per token, never the closing line itself. */
  function Code(ts: seq<Token>): (r: seq<Line>)
    ensures |r| <= |ts|
    ensures Finished !in r
    decreases |ts|
  {
    if ts == [] then []
    else
      var last := Instruction(ts[|ts| - 1]);
      Code(ts[..|ts| - 1]) + (if last.Some? then [last.value] else [])
  }

  /** The whole listing the emitter prints for the RPN tokens: the closing
      line comes last and only there. */
  function Listing(rpn: seq<Token>): (r: seq<Line>)
    ensures |r| >= 1 && r[|r| - 1] == Finished
    ensures Finished !in r[..|r| - 1]
  {
    Code(rpn) + [Finished]
  }

  /** generate_assembly_rpn over the first rpnLen tokens of the buffer. */
  method GenerateAssembly(rpn: array<Token>, rpnLen: int) returns (listing: seq<Line>)
    requires 0 <= rpnLen <= rpn.Length
    ensures listing == Listing(rpn[..rpnLen])
  {
    listing := [];
    for i := 0 to rpnLen
      invariant listing == Code(rpn[..i])
    {
      assert rpn[..i + 1][..i] == rpn[..i];
      var token := rpn[i];
      if token.Number? {
        listing := listing + [Push(Trunc(token.value))];
      } else if token.Operator? {
        match token.symbol {
          case '+' => listing := listing + [Add];
          case '-' => listing := listing + [Sub];
          case '*' => listing := listing + [Mul];
          case '/' => listing := listing + [Div];
          case _ =>
        }
      }
    }
    listing := listing + [Finished];
  }
}
