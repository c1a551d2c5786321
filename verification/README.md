# Arithmetic expression compiler, modelled in Dafny

The program reads one arithmetic expression, such as `3 + 4 * (2 - 1) / 5`, and passes it through four stages:

1. A tokenizer turns the text into number, operator and parenthesis tokens.
2. The shunting-yard algorithm converts the infix tokens to Reverse Polish Notation (RPN). It uses a fixed-size operator stack and a bounded output index.
3. An evaluator runs the RPN on a fixed-size operand stack of doubles.
4. An emitter prints the RPN as a listing for a stack machine (`PUSH n`, `ADD`, `SUB`, `MUL`, `DIV`).

Every stage except the emitter can fail. The C code then prints a diagnostic and returns `false` or `NULL`. Here each stage returns a `Result` whose error value names the cause instead.

The model follows the C code stage by stage:

- **`tokens.dfy`** (module `Tokens`) holds the token datatype, the stack capacity `StackSize` (256) and the output limit `OutputLimit` (512).
- **`stacks.dfy`** (module `Stacks`) holds the two fixed-size stacks. They are classes over an array of 256 slots with a `top` index.
- **`lexer.dfy`** (module `Lexer`) holds the tokenizer:
  - the spec function `Lex`;
  - the imperative method `Tokenize`, proved to compute `Lex`.
- **`converter.dfy`** (module `Converter`) holds the precedence table and the shunting-yard conversion:
  - the step-by-step spec functions `Step`, `Run`, `Drain` and `Convert`;
  - the method `InfixToRpn`, which works on a `TokenStack` and a caller-supplied output array and is proved to compute `Convert`.
- **`evaluator.dfy`** (module `Evaluator`) holds the evaluation:
  - the spec functions `EvalFrom` and `Evaluate`, over a sequence of reals that stands for the operand stack;
  - the method `EvaluateRpn`, which works on a `DoubleStack` and is proved to compute `Evaluate`.
- **`assembly.dfy`** (module `Assembly`) holds the listing:
  - the spec function `Listing`;
  - the method `GenerateAssembly`, proved to compute it.

Properties are proved in separate modules:

- **`lexer_properties.dfy`**: what tokenization accepts, rejects and produces. Writing tokens out and tokenizing the text gives the tokens back.
- **`literals.dfy`**: the grammar and value of number literals. A literal runs through its point and the digits after it, and denotes the decimal number it spells.
- **`converter_properties.dfy`**: what the RPN output holds, and how operators are ordered on the stack.
- **`parens.dfy`**: an input that converts has balanced parentheses. For inputs of at most 256 tokens, the conversion fails exactly on unbalanced parentheses.
- **`capacity.dfy`**: where the stack and output bounds bite.
- **`evaluator_properties.dfy`**: operand order, errors, and well-formed RPN.
- **`assembly_properties.dfy`**: the line count, truncation, and reading the listing back.
- **`expressions.dfy`**: a reference semantics on expression trees. The converter produces a tree's postfix form and the evaluator computes its value.
- **`pipeline.dfy`**: the stages chained as `main` chains them, plus concrete inputs.

Numbers are exact reals rather than IEEE doubles. The C code's NaN from popping an empty operand stack is an `Option` value `None`.

## Model

| member | source | states |
|---|---|---|
| Stacks.TokenStack.constructor | main.c:32-34 | a new stack is valid and empty |
| Stacks.TokenStack.IsEmpty | main.c:36-38 | true exactly when the stack holds no token |
| Stacks.TokenStack.Push | main.c:40-48 | succeeds exactly when fewer than 256 tokens are held; on success the token is appended on top, otherwise nothing changes; no other slot changes |
| Stacks.TokenStack.Pop | main.c:50-59 | on a non-empty stack returns the top token and removes it; on an empty stack returns End and changes nothing |
| Stacks.TokenStack.Peek | main.c:61-71 | returns the top token without change, or End on an empty stack |
| Stacks.DoubleStack.constructor | main.c:238 | a new operand stack is valid and empty |
| Stacks.DoubleStack.IsEmpty | main.c:240 | true exactly when no operand is held |
| Stacks.DoubleStack.Push | main.c:242-247 | succeeds exactly when fewer than 256 values are held; on success the value is appended on top, otherwise nothing changes; no other slot changes |
| Stacks.DoubleStack.Pop | main.c:248-251 | returns the top value and removes it, or None (the NaN) on an empty stack |
| Lexer.DigitsLen | main.c:102-107 | the run of digits it measures is no longer than the text, and the character right after it, if any, is not a digit |
| Lexer.DigitsLenDigits | main.c:102-107 | the leading run that DigitsLen measures consists of digits only |
| Lexer.NumberLen | main.c:102-109 | a number that starts the text spans at least one character and at most the whole text; Literals.DecimalLiteral and Literals.WholeLiteral give its exact extent |
| Lexer.FractionValue | main.c:107 | the digits after the decimal point denote a value in [0, 1); Literals.FractionValueDecimal gives the exact value |
| Lexer.NumberValue | main.c:107 | the value read for a number is non-negative; Literals.DecimalLiteral and Literals.WholeLiteral give the exact value |
| Lexer.ScanOne | main.c:102-144 | one step of the scan consumes at least one character whenever it emits a token |
| Lexer.IsSpace | main.c:136 | a white-space character is never a digit, an operator, a parenthesis or a decimal point, so the branches of the scanner do not overlap |
| Lexer.LexFrom | main.c:87-145 | the scanning loop only appends tokens, and an error names a position inside the text still to scan |
| Lexer.Lex | main.c:73-152 | an error names a position inside the input |
| Lexer.LexFromAt | main.c:102-144 | one turn of the loop, tested as the C code tests: a digit, or a '.' before a digit, starts a number; a number, operator or parenthesis appends its token and moves past its text; white space moves on one character; any other character fails, naming itself and its index |
| Lexer.Tokenize | main.c:73-152 | the scanning loop returns exactly Lex of the input: the token sequence, or the first unexpected character and its position |
| Literals.FractionValueDecimal | main.c:107 | the digits after the point denote their natural value divided by 10 to the power of their count |
| Literals.DecimalLiteral | main.c:102-109 | digits, a point and more digits (at least one digit in all, as in "3.14", ".5" and "1."), followed by a non-digit, form one literal spanning exactly those characters, worth the first digits plus the second read as a fraction |
| Literals.WholeLiteral | main.c:102-109 | digits followed by neither a digit nor a point form one literal spanning exactly those digits, worth their natural value |
| Literals.ExamplePi | main.c:102-109 | "3.14" scans as the single number 3.14 |
| Literals.ExampleLeadingPoint | main.c:102-109 | ".5" scans as the single number 0.5 |
| Literals.ExampleTrailingPoint | main.c:102-109 | "1." scans as the single number 1 |
| LexerProperties.LexProducesTokens | main.c:102-135 | a successful scan yields only non-negative numbers, the operators + - * / and parentheses, and never the End sentinel |
| LexerProperties.LexErrorIsUnexpected | main.c:136-144 | a failed scan names a character of the input at the reported position, and that character is not a digit, operator, parenthesis or white space (a '.' only when no digit follows it) |
| LexerProperties.LexRejectsUnexpected | main.c:138-144 | any input holding a character outside that alphabet fails to scan |
| LexerProperties.LexAcceptsScannable | main.c:87-145 | an input whose every character is a digit, operator, parenthesis, white space or a '.' followed by a digit scans successfully |
| LexerProperties.LexSymbols | main.c:112-135 | each operator and parenthesis character of the input yields exactly one token, in order |
| LexerProperties.NatTextValue | main.c:107 | the decimal text of a natural number reads back as that number |
| LexerProperties.LexRender | main.c:73-152 | writing out tokens (whole non-negative numbers, operators, parentheses), each followed by a space, and scanning the text gives the same tokens back |
| Converter.Precedence | main.c:154-162 | + and - have precedence 1, * and / precedence 2, any other character 0 |
| Converter.PopAtLeast | main.c:180-186 | after the loop the stack is empty, or its top is not an operator, or the top binds less tightly than the incoming operator |
| Converter.PopToLParen | main.c:195-197 | after the loop the stack is empty or its top is '(' |
| Converter.Dispatch | main.c:174-207 | a token fails only as a ')' without its '(' (UnbalancedParens) or as an operator or '(' meeting a full stack (StackFull); on success an operator or '(' sits on top of the stack |
| Converter.Step | main.c:174-211 | a step succeeds only when the switch succeeds and the output index then stays below 511; it fails with the switch's error or with OutputFull |
| Converter.Run | main.c:171-212 | after a successful loop over at least one token the output holds fewer than 511 tokens |
| Converter.Drain | main.c:214-225 | the final loop succeeds only when no '(' is left on the stack, and then appends every stacked token to the output; it fails with UnbalancedParens or OutputFull |
| Converter.Convert | main.c:164-230 | a successful conversion outputs fewer than 511 tokens |
| Converter.PopInto | main.c:185 | one pop into the output array moves the top of the stack to the next output slot, as PopToOutput does on sequences |
| Converter.PopAtLeastInto | main.c:180-186 | the loop of the operator case moves exactly the tokens PopAtLeast moves from the stack into the output array |
| Converter.PopToLParenInto | main.c:195-197 | the loop of the ')' case moves exactly the tokens PopToLParen moves |
| Converter.DispatchInto | main.c:174-207 | the switch on one input token fails exactly when Dispatch fails, with the same error |
| Converter.DrainInto | main.c:214-228 | the final loop succeeds exactly when Drain does, and then writes End right after the output |
| Converter.InfixToRpn | main.c:164-230 | succeeds exactly when Convert succeeds; the output array then holds Convert's tokens followed by End, and the returned length is their number |
| ConverterProperties.ConvertOutput | main.c:164-230 | a successful conversion outputs only numbers and operators (no parentheses, no End), the numbers in input order, every input operator exactly once, as many tokens as the input has numbers and operators, and fewer than 511 |
| ConverterProperties.RunOrdered | main.c:179-192 | at every point the operators on the stack bind strictly more tightly the higher they sit (within a parenthesis level) |
| ConverterProperties.OperatorMeetsTop | main.c:179-188 | an incoming operator ends up on top of the stack, and it moves the previous top operator to the output exactly when that operator binds at least as tightly (ties pop: left associativity) |
| ConverterProperties.PopAtLeastGrows | main.c:180-186 | popping only appends to the output |
| Parentheses.DrainBalanced | main.c:214-219 | while at most 256 tokens are in play on the stack and the output, the final loop fails exactly when a '(' is left on the stack, and then with UnbalancedParens |
| Parentheses.StepBalanced | main.c:194-201 | while fewer than 256 tokens are in play on the stack and the output, one input token fails exactly when it is a ')' with no '(' on the stack |
| Parentheses.StepDepth | main.c:174-211 | at any load, a successful step on a ')' found a '(' on the stack, and every step changes the number of stacked '(' as the parenthesis depth changes |
| Parentheses.ConvertFromOkBalanced | main.c:171-225 | at any length, input that converts from a given stack closes every parenthesis open on it and all of its own |
| Parentheses.ConvertOkBalanced | main.c:164-230 | at any length, an input that converts has balanced parentheses |
| Parentheses.ConvertIffBalanced | main.c:164-230 | an input of at most 256 tokens converts exactly when its parentheses balance; otherwise the error is UnbalancedParens |
| Capacity.RunNumbers | main.c:175-211 | numbers go to the output in order; the one that brings the output index to 511 fails with OutputFull |
| Capacity.RunLParens | main.c:190-192 | each '(' is pushed; the one that meets a full stack fails with StackFull |
| Capacity.OutputBound | main.c:208-211 | 510 numbers convert, 511 do not |
| Capacity.StackBound | main.c:187-192 | 256 '(' fit the stack and are left unclosed (UnbalancedParens); 257 fail with StackFull |
| Evaluator.Apply | main.c:277-291 | fails exactly for an unknown operator or a '/' by exact zero, with UnknownOperator or DivisionByZero respectively |
| Evaluator.Finish | main.c:299-303 | the final check succeeds exactly when one value is left |
| Evaluator.EvalFrom | main.c:258-303 | at any length, a successful evaluation loop means every operator found two operands and exactly one value was left |
| Evaluator.Evaluate | main.c:253-307 | at any length, RPN that evaluates is well-formed |
| Evaluator.ApplyOnStack | main.c:266-295 | an operator pops its right operand, then its left one; with fewer than two it fails with MissingOperand; otherwise it applies the operator as Apply does and pushes the result in their place |
| Evaluator.EvaluateRpn | main.c:253-307 | the evaluation loop returns exactly Evaluate of the RPN tokens |
| EvaluatorProperties.EvalOperator | main.c:266-295 | an operator combines the value below the top (left operand) with the top (right operand) and replaces both by the result |
| EvaluatorProperties.EvalBinary | main.c:258-297 | for `a b op`, the first number is the left operand |
| EvaluatorProperties.EvalSkips | main.c:258-297 | parentheses and End tokens are passed over |
| EvaluatorProperties.EvalErrors | main.c:262-303 | the empty input and two numbers without an operator fail as Malformed; an operator with fewer than two operands fails with MissingOperand; a division by 0 fails with DivisionByZero |
| EvaluatorProperties.EvaluateShape | main.c:253-307 | for RPN with known operators that fits the stack, success implies well-formed RPN (every operator finds two operands, one value left), and, for at most 256 tokens, well-formed RPN fails only by dividing by zero |
| Expressions.PostfixSplit | main.c:164-230 | the operators still on the stack, popped in order, complete the postfix form |
| Expressions.PopPending | main.c:180-186 | an operator pops exactly the pending operators that bind at least as tightly |
| Expressions.PopPendingToLParen | main.c:195-202 | a ')' pops exactly the operators above its '(' |
| Expressions.DrainPending | main.c:214-225 | the final loop outputs the remaining operators top first |
| Expressions.RunInfix | main.c:171-212 | the conversion loop over the infix spelling of a canonical tree leaves the tree's right-spine operators on the stack and the rest of its postfix form in the output |
| Expressions.ConvertInfix | main.c:164-230 | the infix spelling of a canonical expression tree converts to the tree's postfix form |
| Expressions.EvalPostfix | main.c:258-297 | evaluating a tree's postfix form leaves the tree's value on the operand stack, or fails with the tree's error |
| Expressions.EvaluatePostfix | main.c:253-307 | evaluating a tree's postfix form gives the tree's value |
| Assembly.Trunc | main.c:314 | the (int) cast truncates toward zero: the result lies within 1 of the number, on the side of zero |
| Assembly.Instruction | main.c:313-324 | a token becomes an instruction exactly when it is a number or one of + - * /, and never the closing line |
| Assembly.Code | main.c:310-325 | at most one line per token, never the closing line |
| Assembly.Listing | main.c:309-328 | the listing closes with the single final line, which appears nowhere else |
| Assembly.GenerateAssembly | main.c:309-328 | the emitter returns exactly Listing of the first rpnLen tokens of the buffer |
| AssemblyProperties.CodeLength | main.c:310-325 | at most one line per token, and exactly one per token exactly when every token is a number or a known operator |
| AssemblyProperties.TruncWhole | main.c:314 | PUSH keeps a whole number exactly |
| AssemblyProperties.CodeRoundTrip | main.c:310-325 | for RPN of whole numbers and known operators, the instructions read back into the RPN, in order |
| AssemblyProperties.ListingRoundTrip | main.c:309-328 | the whole listing reads back into the RPN buffer followed by its End sentinel |
| Pipeline.CompileExpression | main.c:73-328 | for the text of a canonical expression with whole non-negative literals: tokenizing gives its infix tokens, converting gives its postfix form, evaluating gives its value, and the listing reads back into the RPN |
| Pipeline.LeftAssociative | main.c:179-188 | 8 - 3 - 2 converts to 8 3 - 2 - and evaluates to 3 |
| Pipeline.LeftAssociativeListing | main.c:309-328 | 8 3 - 2 - is listed as PUSH 8, PUSH 3, SUB, PUSH 2, SUB, then the closing line |
| Pipeline.Precedences | main.c:154-188 | 2 + 3 * 4 converts to 2 3 4 * + and evaluates to 14 |
| Pipeline.Grouping | main.c:190-203 | (2 + 3) * 4 converts to 2 3 + 4 * and evaluates to 20 |
| Pipeline.DivideByZero | main.c:281-285 | 5 / 0 converts, and its evaluation fails with DivisionByZero |
| Pipeline.Unbalanced | main.c:194-219 | "(1 + 2" and "1 + 2)" both fail to convert with UnbalancedParens |
| Pipeline.UnexpectedCharacter | main.c:138-144 | "3 + $" fails to tokenize, naming '$' at position 4 |

## Left out

- `main` is not modelled: reading a line with `fgets`, stripping the newline, the empty-input check, allocating the RPN buffer, and printing the token lists and the result. `Pipeline.CompileExpression` chains the stages as `main` does.
- Diagnostics written to stderr and stdout are not modelled. Each failure is a value instead:
  - `LexError` for the tokenizer;
  - `ConvertError` for the converter;
  - `EvalError` for the evaluator.
  
  The emitter's message for an unknown operator is dropped: the operator emits no line.
- The listing is a sequence of `Line` values, not the text of each `printf`.
- IEEE floating point is not modelled: numbers are exact reals, so there is no rounding, infinity or overflow. An operand that is NaN for another reason than an empty stack cannot arise.
- Lexer.NumberValue: only the decimal forms that begin with a digit or with '.' followed by a digit are read: digits, optionally followed by '.' and more digits. `strtod` would also consume exponents and hexadecimal numbers. In this model "1e5" fails at the 'e' and "0x10" fails at the 'x', whereas the C program reads 100000 and 16.
- Lexer.IsSpace: white space is the six characters of the C locale. Other locales are not modelled.
- Lexer.Tokenize: the token buffer is a sequence. The initial allocation of 512 tokens, its doubling with `realloc`, and the failure of `malloc` or `realloc` are not modelled.
- Assembly.Trunc: the `(int)` cast is modelled on unbounded integers. Its undefined behaviour for values outside the 32-bit range is not modelled.
- Evaluator.ApplyOnStack: the C code checks the push of the result even though two operands were just popped. The model proves that this push always succeeds, so that check never fails.
- Converter.InfixToRpn: the output buffer must hold more tokens than the input, which is what `main` allocates. The bound on the output index is modelled as in the C code.
- Expressions.ConvertInfix, Expressions.RunInfix and Pipeline.CompileExpression: the end-to-end theorems assume at most 256 infix tokens (for RunInfix, at most 256 tokens on the stack, in the output and still to read together), so that neither bound is reached. Capacity shows where each bound bites.
- Expressions.EvalPostfix and Expressions.EvaluatePostfix: these assume a postfix form of at most 256 tokens (for EvalPostfix, together with the operands already stacked), so that the operand stack never fills.
- Parentheses.StepBalanced, Parentheses.DrainBalanced and Parentheses.ConvertIffBalanced: the exact characterisation of failure by parentheses holds only while the stack cannot fill (at most 256 tokens in play). At any length, success still implies balance: see Parentheses.ConvertOkBalanced.
- EvaluatorProperties.EvaluateShape: well-formed RPN that fails only by dividing by zero is proved for at most 256 tokens, because longer RPN can fill the operand stack. At any length, success still implies well-formedness: see Evaluator.Evaluate.
