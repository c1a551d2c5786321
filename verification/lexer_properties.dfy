/** What the tokenizer promises: when it fails and when it does not, that every
    operator and parenthesis character becomes exactly one token carrying it,
    and that printing a token sequence and scanning the text back gives the
    same tokens. */
module LexerProperties {
  import opened Tokens
  import opened Lexer

  /** A character some branch of the scanner can accept. */
  predicate Expected(c: char) {
    IsDigit(c) || c == '.' || IsOperatorChar(c) || c == '(' || c == ')' || IsSpace(c)
  }

  predicate IsSymbolChar(c: char) {
    IsOperatorChar(c) || c == '(' || c == ')'
  }

  /** The operator and parenthesis characters of a text, in order. */
  function SymbolChars(s: string): string {
    if s == [] then [] else (if IsSymbolChar(s[0]) then [s[0]] else []) + SymbolChars(s[1..])
  }

  /** The characters the operator and parenthesis tokens carry, in order. */
  function SymbolsOf(ts: seq<Token>): string {
    if ts == [] then [] else SymbolOf(ts[0]) + SymbolsOf(ts[1..])
  }

  /** The character an operator or parenthesis token carries. */
  function SymbolOf(t: Token): string {
    match t
    case Operator(c) => [c]
    case LParen => "("
    case RParen => ")"
    case _ => []
  }

  /** The tokens the scanner can produce. */
  predicate Produced(t: Token) {
    match t
    case Number(v) => v >= 0.0
    case Operator(c) => IsOperatorChar(c)
    case LParen => true
    case RParen => true
    case End => false
  }

  lemma {:induction false} SymbolCharsAppend(a: string, b: string)
    ensures SymbolChars(a + b) == SymbolChars(a) + SymbolChars(b)
  {
    if a == [] {
      assert a + b == b;
    } else {
      var head: string := if IsSymbolChar(a[0]) then [a[0]] else [];
      assert (a + b)[0] == a[0];
      assert (a + b)[1..] == a[1..] + b;
      SymbolCharsAppend(a[1..], b);
      AppendAssoc(head, SymbolChars(a[1..]), SymbolChars(b));
    }
  }

  lemma {:induction false} SymbolsOfAppend(a: seq<Token>, b: seq<Token>)
    ensures SymbolsOf(a + b) == SymbolsOf(a) + SymbolsOf(b)
  {
    if a == [] {
      assert a + b == b;
    } else {
      var head := SymbolOf(a[0]);
      assert (a + b)[0] == a[0];
      assert (a + b)[1..] == a[1..] + b;
      SymbolsOfAppend(a[1..], b);
      AppendAssoc(head, SymbolsOf(a[1..]), SymbolsOf(b));
    }
  }

  /** A run of digits and points holds no symbol character. */
  lemma {:induction false} SymbolCharsOfLiteral(s: string)
    requires forall k | 0 <= k < |s| :: IsDigit(s[k]) || s[k] == '.'
    ensures SymbolChars(s) == []
  {
    if s != [] {
      SymbolCharsOfLiteral(s[1..]);
    }
  }

  /** A number literal is spelled with digits and at most one point. */
  lemma NumberLenChars(s: string)
    requires StartsNumber(s)
    ensures forall k | 0 <= k < NumberLen(s) :: IsDigit(s[k]) || s[k] == '.'
  {
    var d := DigitsLen(s);
    DigitsLenDigits(s);
    var e := if d < |s| && s[d] == '.' then DigitsLen(s[d + 1..]) else 0;
    if d < |s| && s[d] == '.' {
      DigitsLenDigits(s[d + 1..]);
    }
    forall k | 0 <= k < NumberLen(s)
      ensures IsDigit(s[k]) || s[k] == '.'
    {
      if k < d {
        assert s[..d][k] == s[k];
      } else if k > d {
        assert s[d + 1..][..e][k - d - 1] == s[k];
      }
    }
  }

  /** One scanning step emits a token spelled by expected characters, whose
      symbol characters are those the token carries. */
  lemma ScanOneEmit(s: string)
    requires s != [] && ScanOne(s).Emit?
    ensures Produced(ScanOne(s).token)
    ensures forall k | 0 <= k < ScanOne(s).len :: Expected(s[k])
    ensures SymbolChars(s[..ScanOne(s).len]) == SymbolOf(ScanOne(s).token)
  {
    var n := ScanOne(s).len;
    if StartsNumber(s) {
      NumberLenChars(s);
      SymbolCharsOfLiteral(s[..n]);
    } else {
      assert s[..n] == [s[0]];
    }
  }

  /** Appending one produced token keeps the produced prefix. */
  lemma ProducedStep(acc: seq<Token>, t: Token, ts: seq<Token>)
    requires Produced(t)
    requires |acc| + 1 <= |ts| && ts[..|acc| + 1] == acc + [t]
    requires forall k | |acc| + 1 <= k < |ts| :: Produced(ts[k])
    ensures |acc| <= |ts| && ts[..|acc|] == acc
    ensures forall k | |acc| <= k < |ts| :: Produced(ts[k])
  {
    TakeTake(ts, |acc|, |acc| + 1);
    AppendTake(acc, [t]);
    assert ts[|acc|] == ts[..|acc| + 1][|acc|];
  }

  lemma {:induction false} LexFromProduced(s: string, pos: nat, acc: seq<Token>, ts: seq<Token>)
    requires LexFrom(s, pos, acc) == Ok(ts)
    ensures |acc| <= |ts| && ts[..|acc|] == acc
    ensures forall k | |acc| <= k < |ts| :: Produced(ts[k])
    decreases |s|
  {
    if s != [] {
      match ScanOne(s)
      case Emit(t, n) =>
        ScanOneEmit(s);
        LexFromProduced(s[n..], pos + n, acc + [t], ts);
        ProducedStep(acc, t, ts);
      case Skip =>
        LexFromProduced(s[1..], pos + 1, acc, ts);
    }
  }

  /** A successful scan yields only Number tokens with non-negative values,
      operator tokens for + - * /, and parentheses; never the End sentinel,
      which therefore marks the end of the sequence. */
  lemma LexProducesTokens(s: string, ts: seq<Token>)
    requires Lex(s) == Ok(ts)
    ensures forall t | t in ts :: Produced(t)
    ensures End !in ts
  {
    LexFromProduced(s, 0, [], ts);
  }

  lemma {:induction false} LexFromError(s: string, pos: nat, acc: seq<Token>, c: char, k: nat)
    requires LexFrom(s, pos, acc) == Err(UnexpectedChar(c, k))
    ensures pos <= k < pos + |s| && s[k - pos] == c
    ensures !Expected(c) || (c == '.' && !StartsNumber(s[k - pos..]))
    decreases |s|
  {
    match ScanOne(s)
    case Emit(t, n) =>
      LexFromError(s[n..], pos + n, acc + [t], c, k);
      DropDrop(s, n, k - pos - n);
    case Skip =>
      LexFromError(s[1..], pos + 1, acc, c, k);
      DropDrop(s, 1, k - pos - 1);
    case Reject =>
      assert s[0..] == s;
  }

  /** When tokenizing fails, the error names a character of the input at its
      true position, and that character is neither a digit, an operator, a
      parenthesis nor white space, or else it is a '.' that is not followed by
      a digit. */
  lemma LexErrorIsUnexpected(s: string, c: char, k: nat)
    requires Lex(s) == Err(UnexpectedChar(c, k))
    ensures k < |s| && s[k] == c
    ensures !IsDigit(c) && !IsOperatorChar(c) && c != '(' && c != ')' && !IsSpace(c)
    ensures c == '.' ==> k + 1 == |s| || !IsDigit(s[k + 1])
  {
    LexFromError(s, 0, [], c, k);
    if c == '.' {
      assert !StartsNumber(s[k..]);
    }
  }

  /** A token the scanner emits ends before any unexpected character. */
  lemma EmitBefore(s: string, k: nat)
    requires s != [] && ScanOne(s).Emit?
    requires k < |s| && !Expected(s[k])
    ensures ScanOne(s).len <= k
  {
    ScanOneEmit(s);
  }

  lemma {:induction false} LexFromRejects(s: string, pos: nat, acc: seq<Token>, k: nat)
    requires k < |s| && !Expected(s[k])
    ensures LexFrom(s, pos, acc).Err?
    decreases |s|
  {
    match ScanOne(s)
    case Emit(t, n) =>
      EmitBefore(s, k);
      LexFromRejects(s[n..], pos + n, acc + [t], k - n);
    case Skip =>
      LexFromRejects(s[1..], pos + 1, acc, k - 1);
    case Reject =>
  }

  /** Any character outside digits, '.', operators, parentheses and white
      space makes tokenizing fail, wherever it stands. */
  lemma LexRejectsUnexpected(s: string, k: nat)
    requires k < |s| && !Expected(s[k])
    ensures Lex(s).Err?
  {
    LexFromRejects(s, 0, [], k);
  }

  /** The character at k is expected, and followed by a digit if it is a '.'. */
  predicate ScannableAt(s: string, k: nat)
    requires k < |s|
  {
    Expected(s[k]) && (s[k] == '.' ==> k + 1 < |s| && IsDigit(s[k + 1]))
  }

  /** Every character expected, and every '.' followed by a digit. */
  predicate Scannable(s: string) {
    forall k | 0 <= k < |s| :: ScannableAt(s, k)
  }

  lemma ScannableSuffix(s: string, n: nat)
    requires Scannable(s) && n <= |s|
    ensures Scannable(s[n..])
  {
    forall k | 0 <= k < |s[n..]|
      ensures ScannableAt(s[n..], k)
    {
      assert ScannableAt(s, n + k);
      assert s[n..][k] == s[n + k];
      if n + k + 1 < |s| {
        assert s[n..][k + 1] == s[n + k + 1];
      }
    }
  }

  lemma {:induction false} LexFromAccepts(s: string, pos: nat, acc: seq<Token>)
    requires Scannable(s)
    ensures LexFrom(s, pos, acc).Ok?
    decreases |s|
  {
    if s != [] {
      assert ScannableAt(s, 0);
      match ScanOne(s)
      case Emit(t, n) =>
        ScannableSuffix(s, n);
        LexFromAccepts(s[n..], pos + n, acc + [t]);
      case Skip =>
        ScannableSuffix(s, 1);
        LexFromAccepts(s[1..], pos + 1, acc);
    }
  }

  /** A text of expected characters in which every '.' is followed by a digit
      always tokenizes. */
  lemma LexAcceptsScannable(s: string)
    requires Scannable(s)
    ensures Lex(s).Ok?
  {
    LexFromAccepts(s, 0, []);
  }

  lemma SymbolsJoin(acc: seq<Token>, t: Token, pre: string, post: string, ts: seq<Token>)
    requires SymbolChars(pre) == SymbolOf(t)
    requires SymbolsOf(ts) == SymbolsOf(acc + [t]) + SymbolChars(post)
    ensures SymbolsOf(ts) == SymbolsOf(acc) + SymbolChars(pre + post)
  {
    SymbolsOfAppend(acc, [t]);
    assert [t][1..] == [];
    assert SymbolsOf([t]) == SymbolOf(t);
    SymbolCharsAppend(pre, post);
    AppendAssoc(SymbolsOf(acc), SymbolOf(t), SymbolChars(post));
  }

  /** The symbol characters of a text are those of the token its first scanning
      step emits, followed by those of the rest. */
  lemma SymbolsEmitStep(s: string, acc: seq<Token>, ts: seq<Token>)
    requires s != [] && ScanOne(s).Emit?
    requires SymbolsOf(ts) == SymbolsOf(acc + [ScanOne(s).token]) + SymbolChars(s[ScanOne(s).len..])
    ensures SymbolsOf(ts) == SymbolsOf(acc) + SymbolChars(s)
  {
    var n := ScanOne(s).len;
    ScanOneEmit(s);
    SymbolsJoin(acc, ScanOne(s).token, s[..n], s[n..], ts);
    SplitJoin(s, n);
  }

  lemma {:induction false} LexFromSymbols(s: string, pos: nat, acc: seq<Token>, ts: seq<Token>)
    requires LexFrom(s, pos, acc) == Ok(ts)
    ensures SymbolsOf(ts) == SymbolsOf(acc) + SymbolChars(s)
    decreases |s|
  {
    if s != [] {
      var r := ScanOne(s);
      if r.Emit? {
        LexFromSymbols(s[r.len..], pos + r.len, acc + [r.token], ts);
        SymbolsEmitStep(s, acc, ts);
      } else {
        LexFromSymbols(s[1..], pos + 1, acc, ts);
      }
    }
  }

  /** Each operator or parenthesis character of the input becomes exactly one
      token carrying that character, in input order; numbers and white space
      contribute no such token. */
  lemma LexSymbols(s: string, ts: seq<Token>)
    requires Lex(s) == Ok(ts)
    ensures SymbolsOf(ts) == SymbolChars(s)
  {
    LexFromSymbols(s, 0, [], ts);
  }

  // ---------------------------------------------------------------------
  // Printing tokens and scanning them back

  function DigitChar(d: nat): (c: char)
    requires d < 10
    ensures IsDigit(c) && DigitValue(c) == d
  {
    ('0' as int + d) as char
  }

  /** The decimal numeral of a natural number. */
  function NatText(n: nat): (s: string)
    ensures |s| > 0 && AllDigits(s)
    decreases n
  {
    if n < 10 then [DigitChar(n)] else NatText(n / 10) + [DigitChar(n % 10)]
  }

  lemma {:induction false} NatTextValue(n: nat)
    ensures NaturalValue(NatText(n)) == n
    decreases n
  {
    if n >= 10 {
      var s := NatText(n);
      assert s[..|s| - 1] == NatText(n / 10);
      NatTextValue(n / 10);
    }
  }

  /** A token the printer can write: an integral non-negative number, one of
      the four operators, or a parenthesis. */
  predicate Printable(t: Token) {
    match t
    case Number(v) => v >= 0.0 && v.Floor as real == v
    case Operator(c) => IsOperatorChar(c)
    case LParen => true
    case RParen => true
    case End => false
  }

  function TokenText(t: Token): string
    requires Printable(t)
  {
    match t
    case Number(v) => NatText(v.Floor)
    case Operator(c) => [c]
    case LParen => "("
    case RParen => ")"
  }

  /** The tokens written out, each followed by a space. */
  function Render(ts: seq<Token>): string
    requires forall t | t in ts :: Printable(t)
  {
    if ts == [] then "" else TokenText(ts[0]) + " " + Render(ts[1..])
  }

  lemma {:induction false} DigitsLenAfterDigits(a: string, b: string)
    requires AllDigits(a)
    requires b == [] || !IsDigit(b[0])
    ensures DigitsLen(a + b) == |a|
  {
    if a == [] {
      assert a + b == b;
    } else {
      assert (a + b)[1..] == a[1..] + b;
      DigitsLenAfterDigits(a[1..], b);
    }
  }

  /** A printed number followed by a space scans as that number. */
  lemma ScanNumberText(v: real, b: string)
    requires v >= 0.0 && v.Floor as real == v
    requires b != [] && b[0] == ' '
    ensures ScanOne(NatText(v.Floor) + b) == Emit(Number(v), |NatText(v.Floor)|)
  {
    var text := NatText(v.Floor);
    var s := text + b;
    DigitsLenAfterDigits(text, b);
    assert s[..|text|] == text;
    assert s[|text|] == ' ';
    NatTextValue(v.Floor);
    assert NumberValue(s) == v;
  }

  /** The printed form of a token followed by a space scans as that token. */
  lemma ScanTokenText(t: Token, b: string)
    requires Printable(t)
    requires b != [] && b[0] == ' '
    ensures ScanOne(TokenText(t) + b) == Emit(t, |TokenText(t)|)
  {
    if t.Number? {
      ScanNumberText(t.value, b);
    }
  }

  /** White space is skipped. */
  lemma SkipSpace(rest: string, pos: nat, acc: seq<Token>)
    ensures LexFrom(" " + rest, pos, acc) == LexFrom(rest, pos + 1, acc)
  {
    AppendDrop(" ", rest);
  }

  /** Scanning a printed token sequence starts with its first token. */
  lemma RenderStep(ts: seq<Token>, pos: nat, acc: seq<Token>)
    requires ts != [] && forall t | t in ts :: Printable(t)
    ensures LexFrom(Render(ts), pos, acc)
            == LexFrom(Render(ts[1..]), pos + |TokenText(ts[0])| + 1, acc + [ts[0]])
  {
    var t := ts[0];
    var text := TokenText(t);
    var rest := Render(ts[1..]);
    var b := " " + rest;
    AppendAssoc(text, " ", rest);
    assert Render(ts) == text + b;
    ScanTokenText(t, b);
    AppendDrop(text, b);
    SkipSpace(rest, pos + |text|, acc + [t]);
  }

  lemma RenderInduct(ts: seq<Token>, pos: nat, acc: seq<Token>)
    requires ts != [] && forall t | t in ts :: Printable(t)
    requires LexFrom(Render(ts[1..]), pos + |TokenText(ts[0])| + 1, acc + [ts[0]]) == Ok((acc + [ts[0]]) + ts[1..])
    ensures LexFrom(Render(ts), pos, acc) == Ok(acc + ts)
  {
    RenderStep(ts, pos, acc);
    AppendAssoc(acc, [ts[0]], ts[1..]);
    SplitJoin(ts, 1);
    assert ts[..1] == [ts[0]];
  }

  lemma {:induction false} LexFromRender(ts: seq<Token>, pos: nat, acc: seq<Token>)
    requires forall t | t in ts :: Printable(t)
    ensures LexFrom(Render(ts), pos, acc) == Ok(acc + ts)
    decreases |ts|
  {
    if ts == [] {
      assert acc + ts == acc;
    } else {
      LexFromRender(ts[1..], pos + |TokenText(ts[0])| + 1, acc + [ts[0]]);
      RenderInduct(ts, pos, acc);
    }
  }

  /** Scanning the printed form of printable tokens gives the tokens back. */
  lemma LexRender(ts: seq<Token>)
    requires forall t | t in ts :: Printable(t)
    ensures Lex(Render(ts)) == Ok(ts)
  {
    LexFromRender(ts, 0, []);
    assert [] + ts == ts;
  }
}
