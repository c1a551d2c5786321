/** What the listing promises: one instruction per number and per known
    operator, in the order of the RPN; PUSH carries the number truncated
    toward zero; and for RPN whose numbers are whole, the listing can be read
    back into exactly the RPN buffer, sentinel included. */
module AssemblyProperties {
  import opened Tokens
  import opened Assembly

  /** A token the emitter turns into an instruction. */
  predicate Emittable(t: Token) {
    t.Number? || (t.Operator? && IsOperatorChar(t.symbol))
  }

  lemma InstructionEmittable(t: Token)
    ensures Instruction(t).Some? <==> Emittable(t)
  {
  }

  /** Code of a sequence ending in t. */
  lemma CodeSnoc(init: seq<Token>, t: Token)
    ensures Code(init + [t]) == Code(init) + (if Instruction(t).Some? then [Instruction(t).value] else [])
  {
    var ts := init + [t];
    assert ts[..|ts| - 1] == init && ts[|ts| - 1] == t;
  }

  /** At most one line per token, and exactly one per token when every token
      is a number or a known operator. */
  lemma {:induction false} CodeLength(ts: seq<Token>)
    ensures |Code(ts)| <= |ts|
    ensures |Code(ts)| == |ts| <==> forall k | 0 <= k < |ts| :: Emittable(ts[k])
    decreases |ts|
  {
    if ts != [] {
      var init, t := ts[..|ts| - 1], ts[|ts| - 1];
      assert ts == init + [t];
      CodeSnoc(init, t);
      CodeLength(init);
      InstructionEmittable(t);
      assert forall k | 0 <= k < |init| :: init[k] == ts[k];
    }
  }

  /** The token a line stands for. */
  function Decoded(l: Line): Token {
    match l
    case Push(n) => Number(n as real)
    case Add => Operator('+')
    case Sub => Operator('-')
    case Mul => Operator('*')
    case Div => Operator('/')
    case Finished => End
  }

  /** Reading a listing back into tokens, line by line. */
  function Disassemble(code: seq<Line>): (ts: seq<Token>)
    ensures |ts| == |code|
    decreases |code|
  {
    if code == [] then [] else Disassemble(code[..|code| - 1]) + [Decoded(code[|code| - 1])]
  }

  lemma DisassembleSnoc(code: seq<Line>, l: Line)
    ensures Disassemble(code + [l]) == Disassemble(code) + [Decoded(l)]
  {
    assert (code + [l])[..|code|] == code;
  }

  /** A number with no fractional part. */
  predicate Whole(t: Token) {
    t.Number? ==> t.value == t.value.Floor as real
  }

  /** PUSH keeps a whole number exactly. */
  lemma TruncWhole(x: real)
    requires x == x.Floor as real
    ensures Trunc(x) as real == x
  {
    if x < 0.0 {
      assert (-x).Floor == -x.Floor;
    }
  }

  /** For RPN of whole numbers and known operators, the instructions read
      back into the RPN itself. */
  lemma {:induction false} CodeRoundTrip(ts: seq<Token>)
    requires forall k | 0 <= k < |ts| :: Emittable(ts[k]) && Whole(ts[k])
    ensures Disassemble(Code(ts)) == ts
    decreases |ts|
  {
    if ts != [] {
      var init, t := ts[..|ts| - 1], ts[|ts| - 1];
      assert ts == init + [t];
      assert forall k | 0 <= k < |init| :: init[k] == ts[k];
      CodeSnoc(init, t);
      CodeRoundTrip(init);
      if t.Number? {
        TruncWhole(t.value);
      }
      DisassembleSnoc(Code(init), Instruction(t).value);
    }
  }

  /** The whole listing reads back into the RPN buffer as the converter
      leaves it: the tokens, then the End sentinel. */
  lemma ListingRoundTrip(rpn: seq<Token>)
    requires forall k | 0 <= k < |rpn| :: Emittable(rpn[k]) && Whole(rpn[k])
    ensures Disassemble(Listing(rpn)) == rpn + [End]
  {
    CodeRoundTrip(rpn);
    DisassembleSnoc(Code(rpn), Finished);
  }
}
