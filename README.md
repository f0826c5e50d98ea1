# symbolicDiff in Dafny

A model of the expression pipeline in `symbolicDiff/main.c` (a symbolic differentiator for one variable `x`, with the input written in prefix form such as `(* 2 (sin x))`), and proofs about it. The model has five parts:

- **Lexer** (`lexer.dfy`): the string-to-token part, `tokenize` and `isDigit`.
  - `Lex` states, on the suffixes of the input, the token sequence or the first error.
  - `Tokenize` is the C `for` loop, with its index jumps over keywords and numbers, proved to compute `Lex`.
- **Parser** (`parser.dfy`): `parse`, `expr` and `operand`.
  - `ParseExpr`, `ParseSlot` and `ParseOperand` take the tokens and a cursor. Each gives the node read and the cursor after it.
  - The class `Cursor` holds the tokens and the shared `int* idx`. Its recursive methods `Expression` and `Operand` advance the cursor as the C code does, and are proved to agree with those functions.
- **Differentiator** (`derivative.dfy`): `dispatch` and every `deriv*`.
  - The C function-pointer dispatch is a `match` on the node.
  - `derivPow` is the power rule. It is a function of its own, because the parser never attaches it to a node.
- **Simplifier** (`simplifier.dfy`): `simplify`, a single bottom-up pass. `Simplify` simplifies the operands first, then `Rewrite` applies the rules of the node.
- **Printer** (`printer.dfy`): `lisptify`.

Trees are `Node = Num(real) | Var | Expr(op, op1, op2)`. The operand slots are `Option<Node>`, and `None` is the C `NULL`.

Three more modules hold the reference definitions and the proofs:

- `semantics.dfy` gives each tree a value at a point (`Eval`) and a value and slope by the rules of differentiation (`Dual`, dual numbers).
  - The derivative tree evaluates to that slope.
  - Simplification preserves values.
- `roundtrip.dfy` proves that tokenizing and parsing a printed tree gives the tree back, and that printing it again gives the same string.
- `examples.dfy` works the pipeline on concrete inputs with real arithmetic. These include the cases where the code does something other than what its own comments say, such as `// 0 - a = -a` (main.c:214) and `// Division by zero handling` (main.c:248).

Floating-point arithmetic is not modelled. Folding two number literals uses the operations of `Arith` (`+ - * /` and the C library `pow`), which are parameters. The proofs about values assume only these laws:

- `ArithLaws`: the identities the rules rest on, such as `y + 0 = y`, `y * 1 = y` and `y ^ 0 = 1`.
- `SquareLaw`: `pow(y, 2) = y * y`, and `y * y` is not zero for `y ≠ 0`.

`Examples.RealArithLaws` and `Examples.RealSquareLaw` show that real arithmetic, with a `pow` that is exact on natural exponents, satisfies `ArithLaws` and `SquareLaw`.

## Model

| member | source | states |
|---|---|---|
| Lexer.Lex | symbolicDiff/main.c:687-726 | Every character read adds at most one token, so a successful scan has no more tokens than the input has characters. `Lexer.Tokenize` proves that the C loop computes `Lex`; `LexSpace`, `LexWord`, `LexNumber` and `UnknownAt` give its cases. |
| Lexer.Scan | symbolicDiff/main.c:690-705 | Each character of the `switch` is one token that takes 1 to 3 characters and is never a NUMBER. `Lexer.LexWord` gives the exact widths. |
| Lexer.DecimalValue | symbolicDiff/main.c:723 | The value read from a numeral lies between its integer part and that plus one: the digits after the point add a fraction below 1. `Lexer.LexNumber` places it in the token, and `RoundTrip.NumberPrint` reads printed integers back exactly. |
| Lexer.Tokenize | symbolicDiff/main.c:678-735 | The C loop, with its jumps of `i`, gives exactly `Lex(s)`: the tokens of the whole input, or the first error. |
| Lexer.LexSpace | symbolicDiff/main.c:691 | A space adds no token: `Lex(" " + s) == Lex(s)`. |
| Lexer.LexWord | symbolicDiff/main.c:692-704 | The first character of a word decides its one token: `( ) + - * / ^ x` take 1 character, `s c t e` take 3 and `l` takes 2. The rest of the input is scanned from just after it. |
| Lexer.UnknownAt | symbolicDiff/main.c:705-726 | A character outside the token set, and not a digit, makes the tokens from that point an `UnknownChar` error. |
| Lexer.DigitRun | symbolicDiff/main.c:676-709 | The length of the leading run of digits, where a digit is what `isDigit` (main.c:676) accepts, a character from `0` to `9`: every character before it is a digit, and the one at it is not (or the input ends). |
| Lexer.SkipDigits | symbolicDiff/main.c:709-715 | The digit-skipping `while` loop stops exactly at the end of the digit run that starts at `start`. |
| Lexer.NumberLength | symbolicDiff/main.c:707-719 | The length of the number lexeme is between 1 and the input length, and the lexeme is a numeral. It is the longest one: no digit follows, and a `.` follows only when the lexeme already holds one. |
| Lexer.ScanNumber | symbolicDiff/main.c:707-719 | The number scanner (digits, then an optional `.` and more digits) ends just past the lexeme, at `start + NumberLength(s[start..])`. |
| Lexer.NumberLengthOf | symbolicDiff/main.c:707-719 | A numeral `w` followed by text that cannot extend it is exactly the lexeme read: `NumberLength(w + s) == \|w\|`. |
| Lexer.LexNumber | symbolicDiff/main.c:707-724 | Such a numeral, if it fits the 16-byte buffer, yields one NUMBER token holding its decimal value, and scanning resumes right after it. |
| Lexer.LexNumberTooLong | symbolicDiff/main.c:721-723 | A numeral longer than 15 characters, which overflows the buffer, is a `NumberTooLong` error. |
| Parser.ParseExpr | symbolicDiff/main.c:766-810 | The cursor never moves back. It moves forward whenever a node is read. |
| Parser.ParseSlot | symbolicDiff/main.c:793-803 | An operand slot never moves the cursor back. It is empty exactly when it leaves the cursor where it was. |
| Parser.ParseOperand | symbolicDiff/main.c:812-839 | The cursor never moves back. It does not move when `operand` returns `NULL`. |
| Parser.ParseTokens | symbolicDiff/main.c:762-764 | `parse` gives `NULL` exactly when the tokens are empty or do not start with `(`, a NUMBER or VAR. `RoundTrip.ParseOfPrint` proves it reads every printed tree back. |
| Parser.FormStructure | symbolicDiff/main.c:768-806 | A form read after `(` has the next token's kind as its operator and at most two operands. With no first operand it has no second, and stops just after the operator. With no second operand, reading stopped at `)` or at the end of the tokens. |
| Parser.LiteralOperand | symbolicDiff/main.c:813-830 | A NUMBER or VAR token is one literal carrying the token's value, and consumes exactly that token. |
| Parser.NestedOperand | symbolicDiff/main.c:832-836 | A nested form read as an operand consumes one token more than `expr` does: its `)`. |
| Parser.Cursor.Expression | symbolicDiff/main.c:766-810 | `expr` on the shared cursor returns the node or error of `ParseExpr`, and leaves the cursor where `ParseExpr` ends. |
| Parser.Cursor.Operand | symbolicDiff/main.c:812-839 | `operand` on the shared cursor returns the node or error of `ParseOperand`, and leaves the cursor where `ParseOperand` ends. |
| Derivative.Derive | symbolicDiff/main.c:372-635 | Dispatch gives a derivative exactly for a present node, and a compound node has a compound derivative while a literal has a literal one. `Semantics.DeriveCorrect` proves its value is the slope. |
| Derivative.DerivPow | symbolicDiff/main.c:511-530 | The result is a product whose second factor is a power over the same base, and it is two nodes larger than the input. `Semantics.DerivPowCorrectForUnitSlope` gives its value. |
| Derivative.DeriveWellFormed | symbolicDiff/main.c:389-635 | The derivative of a well-formed tree (right arity everywhere) that has a rule at every node is defined and well-formed. |
| Derivative.PowHasNoRule | symbolicDiff/main.c:780-791 | A tree with a power at a node the derivative visits (`PowVisited`: the root, any first operand, or the second operand of a binary node) is not differentiable: the parser attaches no rule to `^`. |
| Semantics.DeriveCorrect | symbolicDiff/main.c:389-635 | Wherever the rules of differentiation (sum, difference, product, quotient, and the chain rule for sin, cos, tan, ln, exp) give a slope, the derivative tree evaluates to that slope. |
| Semantics.DerivPowCorrectForUnitSlope | symbolicDiff/main.c:511-530 | The tree `derivPow` builds, `n * u^(n-1)`, evaluates to the slope of `u^n` when the base has slope 1, as the bare variable has. |
| Semantics.RewriteSound | symbolicDiff/main.c:176-361 | The rules at a node whose value is defined (other than `0 - x`) give a defined result with the same value. |
| Semantics.SimplifySound | symbolicDiff/main.c:162-369 | Simplifying a tree whose value is defined gives no error and keeps the value, provided no node is a `0 - x`. |
| Simplifier.Simplify | symbolicDiff/main.c:162-174 | Simplification never makes a tree larger. |
| Simplifier.Rewrite | symbolicDiff/main.c:176-361 | The node's rules give a result no larger than the node over its simplified operands. |
| Simplifier.RewriteShape | symbolicDiff/main.c:176-361 | Every rule gives an error, a fresh number literal, one of the simplified operands (or that operand simplified again), or the node over its simplified operands. |
| Simplifier.RewriteStable | symbolicDiff/main.c:176-361 | Over simplified operands, the result of the rules is already simplified. |
| Simplifier.SimplifyIdempotent | symbolicDiff/main.c:162-369 | A single pass is a fixpoint: `Simplify(Simplify(e)) == Simplify(e)` for every tree, and an error stays an error. |
| Simplifier.LiteralUnchanged | symbolicDiff/main.c:364-366 | A literal is returned unchanged. |
| Simplifier.FoldLiterals | symbolicDiff/main.c:183-280 | Two number literals under `+ - * / ^` fold to one number. There are two exceptions: a divisor 0 is an error, and an exponent 1 gives the base literal, before folding. |
| Simplifier.PowerOfLiteral | symbolicDiff/main.c:270-299 | For a literal base, an exponent that simplifies to 1 gives the base. For `x`, an exponent 0 gives 1. |
| Simplifier.PowerOfCompound | symbolicDiff/main.c:270-304 | A compound base is left as it is under `^`, whatever the exponent. |
| Simplifier.DivisionByZero | symbolicDiff/main.c:246-250 | A divisor that simplifies to the literal 0 gives an error when the numerator simplifies to a literal. Over a compound numerator the quotient is kept. |
| Simplifier.MixedRules | symbolicDiff/main.c:307-358 | With one compound operand `e`, `0 * e` and `e * 0` give 0, and `0 + e`, `e + 0`, `1 * e` and `e * 1` give the simplified `e`. |
| Simplifier.SimplifyWellFormed | symbolicDiff/main.c:162-369 | Simplifying a well-formed tree whose subtrees have no error gives a well-formed tree. |
| Printer.Print | symbolicDiff/main.c:70-145 | `lisptify` prints nothing exactly for `NULL`, and every compound node prints as a form from `(` to `)`. `RoundTrip.ParseOfPrint` and `RoundTrip.PrintParseLex` tie it to the parser. |
| Printer.NumberText | symbolicDiff/main.c:130-136 | A number always prints as some text, and a number that is not an integer prints with a `.`. `RoundTrip.NumberPrint` gives the integer case. |
| RoundTrip.NumberPrint | symbolicDiff/main.c:130-136 | A non-negative integer below 10^15 prints as a numeral without `.` that fits the token buffer, and reads back as that value. |
| RoundTrip.SymbolScan | symbolicDiff/main.c:82-116 | The symbol printed for each operator is a word the tokenizer reads back as that operator. |
| RoundTrip.LexPrint | symbolicDiff/main.c:76-139 | Tokenizing a printed tree, followed by the end, a space or a `)`, gives its tokens followed by those of the rest. |
| RoundTrip.ParsePrinted | symbolicDiff/main.c:766-839 | The tokens of a printed tree, wherever they sit, parse back to that tree and consume exactly those tokens. As an `expr`, a form stops before its `)`. |
| RoundTrip.ParseOfPrint | symbolicDiff/main.c:762-764 | `parse(tokenize(lisptify(t))) == t` for every printable tree `t`. |
| RoundTrip.PrintParseLex | symbolicDiff/main.c:70-145 | For a string printed from a printable tree, `lisptify(parse(tokenize(s))) == s`. |
| Examples.RealSquareLaw | symbolicDiff/main.c:458-509 | Real arithmetic with `pow` exact on natural exponents meets `SquareLaw`, which the quotient rule (and the tangent rule, main.c:582-610) relies on. |
| Examples.DeriveTwiceX | symbolicDiff/main.c:430-456 | d/dx `(* 2 x)`, simplified, is `2`. |
| Examples.DeriveXPlusX | symbolicDiff/main.c:408-417 | d/dx `(+ x x)`, simplified, is `2`. |
| Examples.DerivPowSquare | symbolicDiff/main.c:511-530 | `derivPow` of `(^ x 2)`, simplified, is `(* 2 x)`. |
| Examples.DivideByZero | symbolicDiff/main.c:246-250 | `(/ 1 0)` simplifies to an error. |
| Examples.DivideCompoundByZero | symbolicDiff/main.c:246-250 | `(/ (sin x) 0)` is kept as it is. |
| Examples.ZeroTimesSine | symbolicDiff/main.c:317-324 | `(* 0 (sin x))` simplifies to `0`. |
| Examples.SwallowedError | symbolicDiff/main.c:171-174 | `(+ 1 (/ 1 0))` simplifies to `(+ 1)`, because the error in the second operand becomes an absent operand. |
| Examples.SignLost | symbolicDiff/main.c:214-218 | `(- 0 x)` simplifies to `x`, which changes the value at x = 1 from -1 to 1. |
| Examples.PowerRuleWithoutChainRule | symbolicDiff/main.c:511-530 | For `(^ (* 2 x) 2)` at x = 1, `derivPow` gives 4 where the slope is 8. |
| Examples.ParsedPowerHasNoRule | symbolicDiff/main.c:785 | `(^ x 2)` parses to a power, which has no derivative rule. |
| Examples.ReadBack | symbolicDiff/main.c:70-145 | `(+ 1 (* 2 x))` tokenizes, parses and prints back to itself. |
| Examples.KeywordTokens | symbolicDiff/main.c:700 | `(sin x)` gives the four tokens `(`, SIN, VAR, `)`. |

## Behaviour taken from the code

In these cases the code does not do what its own comments say, or what an operator's arity and an error result would lead one to expect. The model follows the code.

- `expr` reads up to two operands whatever the operator's arity, and does not consume the closing `)`. `operand` consumes one token after a nested form without checking that it is `)` (main.c:834).
- Division by the literal 0 is an error only when the numerator is also a literal (main.c:246-250). The check marked `// Division by zero handling` sits in the block for two literal operands.
- An error (`NULL`) in a second operand is taken as an absent operand (main.c:174).
- `0 - x` gives `x` (main.c:215-217), not the `-a` of the comment `// 0 - a = -a` at main.c:214: the negation acts on the number field of a variable literal.
- `e ^ 1 -> e`, `x ^ 0 -> 1`, `0 ^ positive -> 0` and `1 ^ n -> 1` apply only to two literal operands (main.c:270-299). A compound base is kept under `^` even with the exponent 1.
- `derivPow` has no chain-rule factor, and no parsed tree reaches it (main.c:785).

## Left out

- `main`, `printAST`, `printTokens` and `operate` (main.c:147-160, 640-674, 737-760, 842-845): a greeting, debug output and an unused helper.
- Floating point: numbers are reals. The folding operations and `pow` are parameters, and only the laws `ArithLaws` and `SquareLaw` are assumed of them. The elementary functions of the value model are parameters too.
- `strtod` (main.c:723) is modelled as the exact decimal value of the numeral. Binary rounding is not modelled.
- `%.0f` and `%.1f` (main.c:132-136) are modelled on the exact real value:
  - the integer test `num == (int) num` does not model the width of `int`;
  - `%.1f` rounds to tenths with ties to even;
  - `-0.0` is not distinguished from `0.0`.
- In-place updates and sharing are not modelled: every tree is a value. This covers:
  - the child pointers that `simplify` overwrites (main.c:170-171);
  - the negation in place (main.c:216);
  - the exponent that `derivPow` lowers in the input node (main.c:525);
  - the subtrees the `deriv*` rules share.
- The function-pointer field `interpretThyself` and the casts in `dispatch` (main.c:372-387): the model uses a `match`. `Derive` requires a rule at every node it visits (`Differentiable`).
- Derivative.Differentiable: matches the C only for trees the parser built. Only `expr` and `operand` set `interpretThyself` (main.c:780-791, 818, 827). The nodes built by `deriv*` and the literals built by `simplify` never get one, so dispatching on them is undefined. The model still differentiates them by their operator, so it defines derivatives the C cannot compute, such as a second derivative.
- Memory management is not modelled:
  - the undersized `malloc(sizeof(literal))` (main.c:390, 399);
  - the uninitialised `op2` of the unary nodes built by `deriv*` (taken as absent, `None`);
  - the uninitialised value of non-number tokens (taken as 0) and of variable literals;
  - leaked strings;
  - the `realloc` growth of the token array with its static `sz` (main.c:679-680, 727-730): the tokens are a sequence.
- The 16-byte `strncpy` buffer (main.c:721-723) is modelled as the `NumberTooLong` error for lexemes over 15 characters, not as an overflow.
- The C string ends at its first NUL character. The model's input is the string up to that point, and a NUL inside it is an unknown character.
- The rules `a - a -> 0` (main.c:206-211) and `0 ^ positive -> 0` (main.c:289-296) are not modelled as firing. With two number literals the folding runs first, so the code reaches these rules only with a variable literal, whose number was never set.
- The mixed rules (main.c:307-358) read the literal's number without checking its kind. The model applies them to number literals only.
- The undefined cases of the parser: the operator read past the end (main.c:771) and a `NULL` operand dereferenced (main.c:795, 801). They are the errors `MissingOperator` and `MissingOperand`.
- A character outside the token set: `tokenize` emits a token whose kind was never set (main.c:726), which is undefined. The model reports an `UnknownChar` error instead.
- An error (`NULL`) in a first operand of `simplify`: it is dereferenced at main.c:173, which is undefined. The model passes it up as `None`.
- Unbounded recursion depth (stack exhaustion) is not modelled.
- Semantics.SimplifySound: holds only for trees with no `0 - x` node (`SignRuleFree`), because that rule loses the sign.
- Semantics.DerivPowCorrectForUnitSlope: holds only when the base has slope 1, because `derivPow` omits the chain-rule factor.
- Simplifier.SimplifyWellFormed: holds only for trees with no error in a subtree (`ErrorFree`), because an error in a second operand becomes an absent operand and leaves a binary node with one operand.
- RoundTrip.PrintParseLex: holds only for printable trees. Their numbers are non-negative integers below 10^15, because a negative number prints with a `-` that the tokenizer reads as an operator and `%.1f` drops digits. Every node has a first operand when it has a second.
