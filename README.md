# MyCompiler expression pipelines in Dafny

MyCompiler is a Kotlin interpreter for single-line expressions. Its
repository holds four iterations of the same pipeline, and this project
models each one as Dafny classes and functions:

- **Typed pipeline** (`codeAnalysis/syntax`, `codeAnalysis/binding`,
  `codeAnalysis/Evaluator.kt`). A tokenizer handles numbers, whitespace,
  the `true`/`false` keywords and identifiers, `+ - * / ( ) !`, and
  `&&`/`||`. A precedence-climbing parser follows, then a binder that
  turns syntax nodes into bound nodes with a type. Last, an evaluator
  walks the bound tree.
  Modules: `SyntaxTokens`, `SyntaxRules`, `SyntaxTokenizer`,
  `SyntaxGrammar`, `SyntaxParser`, `Binding`, `Evaluation`.
- **Arithmetic pipeline** (`arithmeticSyntax`). The same
  precedence-climbing design, with `^`, `%`, and the case-insensitive
  word operators `sqr`/`sqrt`. Its evaluator walks the syntax tree
  directly.
  Modules: `ArithTokens`, `ArithRules`, `ArithTokenizer`, `ArithGrammar`,
  `ArithParser`, `ArithEvaluation`.
- **Classic pipeline** (`codeAnalysis/Tokenizer.kt`, `Parser.kt`,
  `SyntaxRules.kt`). A two-level term/factor grammar over
  `+ - * / ( )`.
  Modules: `ClassicTokens`, `ClassicRules`, `ClassicTokenizer`,
  `ClassicGrammar`, `ClassicParser`.
- **Prototype pipeline** (the `Tokenizer` and `Parser` classes of
  `Main.kt`). One flat level, with no diagnostics.
  Modules: `PrototypeTokenizer`, `PrototypeParser`.

Shared modules:
- `Wrappers`: `Option` and `Result`.
- `KotlinInt`: Kotlin's `Int`. `+`, `-` and `*` wrap modulo 2^32, `/`
  truncates toward zero, and `%` takes the sign of the dividend.
- `Text`: ASCII character classes, digit runs, and decimal values and
  renderings.

Every Kotlin class that moves a cursor or appends diagnostics becomes a
Dafny `class` with the same fields: `position`, `diagnostics`, and the
token list. Its methods carry the same loops. Each method is proved
equal to a pure specification function of the old state:
- `ScanToken` for `nextToken`;
- `TokenListOf` for the token-list loop;
- `Expression`/`BinaryTail`/`Primary`, `Terms`/`Factor`, or `Loop` for
  the parse methods;
- `Bind` for the binder.

The properties are proved about those functions. Two outcomes are never
executed, only detected:
- A Kotlin exception becomes a fault value.
- A loop that would run forever becomes an explicit outcome (`Stuck`,
  `Diverges`, `NeverEnds`). A lemma proves that the loop's state repeats
  from then on.

## Model

| member | source | states |
|---|---|---|
| KotlinInt.Wrap | src/main/kotlin/codeAnalysis/Evaluator.kt:32-34 | The 32-bit result is the one `Int` congruent to the exact value modulo 2^32, and equals it when it is in range |
| KotlinInt.TruncDiv | src/main/kotlin/arithmeticSyntax/Evaluator.kt:30 | Integer division truncates toward zero: the magnitude is the quotient of the magnitudes and the sign is negative exactly when the operand signs differ |
| KotlinInt.TruncRem | src/main/kotlin/arithmeticSyntax/Evaluator.kt:31 | The remainder completes `a == (a / b) * b + r`, is smaller than the divisor in magnitude, and takes the dividend's sign |
| KotlinInt.WrapCongruent | src/main/kotlin/codeAnalysis/Evaluator.kt:32-34 | Congruent exact values wrap to the same `Int` |
| KotlinInt.WrapAdd | src/main/kotlin/codeAnalysis/Evaluator.kt:32 | Wrapping after each `+` equals wrapping once at the end |
| KotlinInt.WrapSubtract | src/main/kotlin/codeAnalysis/Evaluator.kt:33 | Wrapping after each `-` equals wrapping once at the end |
| KotlinInt.WrapNegate | src/main/kotlin/codeAnalysis/Evaluator.kt:22 | Wrapping after unary `-` equals wrapping once at the end |
| KotlinInt.WrapMultiply | src/main/kotlin/codeAnalysis/Evaluator.kt:34 | Wrapping after each `*` equals wrapping once at the end |
| Text.RunEnd | src/main/kotlin/codeAnalysis/syntax/Tokenizer.kt:35-37 | A `while (currentChar.isX()) next()` loop stops at the first character outside the class, every character before it is in the class, and the loop never passes the end of the text |
| Text.DecimalText | src/main/kotlin/codeAnalysis/syntax/Tokenizer.kt:41 | `Int.toString` of a natural is a digit string whose decimal value is that number, with no leading zero |
| Text.CanonicalDigits | src/main/kotlin/codeAnalysis/syntax/Tokenizer.kt:39-41 | `toInt().toString()` gives back a digit run exactly when the run has no leading zero, or is the single digit `0` |
| Text.Lowercase | src/main/kotlin/arithmeticSyntax/Tokenizer.kt:50 | Lower-casing keeps the length and maps every character through `ToLower` |
| Text.ToLower | src/main/kotlin/arithmeticSyntax/Tokenizer.kt:50 | An ASCII capital becomes the matching small letter; every other character is unchanged |
| SyntaxRules.PrecedenceTable | src/main/kotlin/codeAnalysis/syntax/SyntaxRules.kt:5-25 | Both lookups, both ways round: the unary precedence is 5 exactly for PLUS, MINUS and BANG and 0 otherwise; the binary precedence is 4 exactly for `* /`, 3 exactly for `+ -`, 2 exactly for `&&`, 1 exactly for `\|\|` and 0 otherwise |
| SyntaxRules.BinaryLevels | src/main/kotlin/codeAnalysis/syntax/SyntaxRules.kt:17-25 | `*` and `/` share a level, `+` and `-` share one, and the levels rank multiplicative over additive over `&&` over `\|\|` over none |
| SyntaxRules.UnaryOutranksBinary | src/main/kotlin/codeAnalysis/syntax/SyntaxRules.kt:5-25 | Every nonzero unary precedence exceeds every binary precedence |
| SyntaxRules.KeywordKind | src/main/kotlin/codeAnalysis/syntax/SyntaxRules.kt:27-33 | Case-sensitive: exactly "true" is TRUE_KEYWORD, exactly "false" is FALSE_KEYWORD, and every other word is IDENTIFIER |
| SyntaxTokenizer.ScanToken | src/main/kotlin/codeAnalysis/syntax/Tokenizer.kt:23-121 | At the end of the text the call yields EOF at the cursor without moving it, and yields EOF only there; otherwise the cursor stays within the text |
| SyntaxTokenizer.NumberToken | src/main/kotlin/codeAnalysis/syntax/Tokenizer.kt:33-44 | A maximal digit run becomes one NUMBER token with its start, text and decimal value. A value above `Int.MAX_VALUE` faults. The "can't be represented" diagnostic is added exactly when the text has a leading zero, and the token is still returned |
| SyntaxTokenizer.WhitespaceToken | src/main/kotlin/codeAnalysis/syntax/Tokenizer.kt:45-51 | A maximal whitespace run becomes one WHITESPACE token with no value and no diagnostic |
| SyntaxTokenizer.WordToken | src/main/kotlin/codeAnalysis/syntax/Tokenizer.kt:52-59 | A maximal letter run becomes TRUE_KEYWORD, FALSE_KEYWORD or IDENTIFIER according to its text, with no value |
| SyntaxTokenizer.OperatorToken | src/main/kotlin/codeAnalysis/syntax/Tokenizer.kt:61-89 | Each of `+ - * / ( ) !` becomes its own one-character token at its index, and the cursor moves by one |
| SyntaxTokenizer.BadCharacterToken | src/main/kotlin/codeAnalysis/syntax/Tokenizer.kt:112-120 | Any other character except `&` and `\|` gets one "bad character" diagnostic with the character and its position, the cursor moves by one, and a BAD_TOKEN holding that character is returned |
| SyntaxTokenizer.AmpersandPipeToken | src/main/kotlin/codeAnalysis/syntax/Tokenizer.kt:90-120 | `peek` ignores its offset. So a non-final `&` or `\|` is always a two-character `&&`/`\|\|` token, whatever follows it. A final one yields, without moving and without a diagnostic, a BAD_TOKEN holding the previous character; at index 0 the substring faults |
| SyntaxTokenizer.NoProgressExactly | src/main/kotlin/codeAnalysis/syntax/Tokenizer.kt:90-120 | Short of EOF, a call leaves the cursor where it was exactly when the cursor is on a final `&` or `\|` that is not the whole text |
| SyntaxTokenizer.ScanPositionBound | src/main/kotlin/codeAnalysis/syntax/Tokenizer.kt:118-120 | A token is placed at or after the cursor it was scanned from, except the BAD_TOKEN of a final `&`/`\|` |
| SyntaxTokenizer.StreamShape | src/main/kotlin/codeAnalysis/syntax/Tokenizer.kt:30-32 | The calls up to the first EOF end with exactly one EOF, at the end of the text, and every token lies within the text |
| SyntaxTokenizer.StuckWithoutProgress | src/main/kotlin/codeAnalysis/syntax/Tokenizer.kt:23-121 | A stream that never ends stops at a position where the scan returns a token other than EOF without moving |
| SyntaxTokenizer.StuckAtFinalOperator | src/main/kotlin/codeAnalysis/syntax/Parser.kt:17-26 | When the token loop gets stuck, it is at a final `&` or `\|`, and the call there returns the same BAD_TOKEN without moving, forever |
| SyntaxTokenizer.Tokenizer.ConsumeRun | src/main/kotlin/codeAnalysis/syntax/Tokenizer.kt:33-59 | The run loop moves the cursor to the end of the run and adds no diagnostic |
| SyntaxTokenizer.Tokenizer.NextToken | src/main/kotlin/codeAnalysis/syntax/Tokenizer.kt:23-121 | `nextToken` returns the token of `ScanToken`, moves the cursor to its `next`, and appends exactly its diagnostics; it raises its fault |
| SyntaxTokenizer.Tokenizer.NextNumber | src/main/kotlin/codeAnalysis/syntax/Tokenizer.kt:33-44 | The digit branch reads the maximal digit run and agrees with `ScanToken`: a NUMBER token with the run's value, the leading-zero diagnostic, or the `toInt` fault |
| SyntaxTokenizer.Tokenizer.NextPunctuation | src/main/kotlin/codeAnalysis/syntax/Tokenizer.kt:61-120 | The `when` branch agrees with `ScanToken`: one-character operators, `&&` and `||`, and a BAD_TOKEN (with a diagnostic only for a character outside the `when`) otherwise |
| SyntaxGrammar.PeekPastEndIsEof | src/main/kotlin/codeAnalysis/syntax/Parser.kt:32-38 | Reading at or past the last index gives the final EOF, so the current token is always defined |
| SyntaxGrammar.Match | src/main/kotlin/codeAnalysis/syntax/Parser.kt:49-56 | On a match the token is consumed and nothing is added. On a mismatch the cursor stays, exactly one "unexpected token" diagnostic is added, and a synthetic token of the expected kind at the current position is returned |
| SyntaxGrammar.Expression | src/main/kotlin/codeAnalysis/syntax/Parser.kt:86-106 | Parsing stays within the list and only appends diagnostics. If nothing is consumed, a diagnostic is added |
| SyntaxGrammar.BinaryTail | src/main/kotlin/codeAnalysis/syntax/Parser.kt:97-104 | The operator loop stays within the list and only appends diagnostics. Taking no step leaves the left operand and the diagnostics as they were |
| SyntaxGrammar.ExpressionEndsLoose | src/main/kotlin/codeAnalysis/syntax/Parser.kt:86-106 | An expression parsed under a parent precedence stops at a token whose binary precedence does not exceed the parent |
| SyntaxGrammar.TailEndsLoose | src/main/kotlin/codeAnalysis/syntax/Parser.kt:97-104 | The operator loop exits only at a token whose binary precedence is 0 or not above the parent |
| SyntaxGrammar.UnaryAfter | src/main/kotlin/codeAnalysis/syntax/Parser.kt:88-92 | A prefix operator that binds at least as tightly as the parent takes the expression parsed at its own precedence, then the binary loop continues from there |
| SyntaxGrammar.PrimaryThenTail | src/main/kotlin/codeAnalysis/syntax/Parser.kt:88-95 | With no such prefix operator, the expression is a primary followed by the binary loop |
| SyntaxGrammar.RoundAfter | src/main/kotlin/codeAnalysis/syntax/Parser.kt:97-104 | One loop round: the operator and its right operand, parsed at the operator's precedence, are folded onto the left operand, and the loop continues after them |
| SyntaxGrammar.Primary | src/main/kotlin/codeAnalysis/syntax/Parser.kt:65-84 | A primary stays within the list and only appends diagnostics. It consumes nothing only when it adds a diagnostic |
| SyntaxGrammar.ParseTokens | src/main/kotlin/codeAnalysis/syntax/Parser.kt:58-62 | `parse` ends with `matchToken(EOF)`, and the diagnostics it was given come first, unchanged |
| SyntaxGrammar.LeftoverTokensDiagnosed | src/main/kotlin/codeAnalysis/syntax/Parser.kt:58-62 | Tokens left before EOF get exactly one more "unexpected token" diagnostic; a full parse gets none |
| SyntaxGrammar.KeywordLiteral | src/main/kotlin/codeAnalysis/syntax/Parser.kt:73-77 | `true` and `false` become literal nodes of their token, consuming exactly that token |
| SyntaxGrammar.NumberOperand | src/main/kotlin/codeAnalysis/syntax/Parser.kt:78-100 | A NUMBER followed by a token that does not bind tighter than the parent is a literal operand on its own |
| SyntaxGrammar.OperandOfPrefixIsNotBinary | src/main/kotlin/codeAnalysis/syntax/Parser.kt:89-95 | The operand of a prefix operator never absorbs a binary operator, because unary precedence outranks every binary one |
| SyntaxGrammar.ChainFoldsLeft | src/main/kotlin/codeAnalysis/syntax/Parser.kt:97-104 | A chain of numbers joined by operators of one precedence folds left, e.g. "1 - 2 - 3" is Binary(Binary(1,-,2),-,3) |
| SyntaxGrammar.TwoOperators | src/main/kotlin/codeAnalysis/syntax/Parser.kt:88-104 | With two operators, a tighter second operator nests to the right ("2 + 3 * 4" is Binary(2,+,Binary(3,*,4))); otherwise the chain folds left |
| SyntaxGrammar.ExpressionLeaves | src/main/kotlin/codeAnalysis/syntax/Parser.kt:86-106 | When no match fails, the leaves of an expression are exactly the tokens it consumed |
| SyntaxGrammar.TailLeaves | src/main/kotlin/codeAnalysis/syntax/Parser.kt:97-104 | When no match fails, the operator loop's tree has the left operand's leaves, then the tokens it consumed |
| SyntaxGrammar.PrimaryLeaves | src/main/kotlin/codeAnalysis/syntax/Parser.kt:65-84 | When no match fails, a primary's leaves are the tokens it consumed |
| SyntaxGrammar.TreeLeavesAreTokens | src/main/kotlin/codeAnalysis/syntax/Parser.kt:58-62 | When the parse adds no diagnostic, the tree's leaves read back the token list before EOF |
| SyntaxParser.RetainedMembers | src/main/kotlin/codeAnalysis/syntax/Parser.kt:23-25 | The kept tokens are exactly the WHITESPACE-free and BAD_TOKEN-free members of the stream |
| SyntaxParser.TokenListShape | src/main/kotlin/codeAnalysis/syntax/Parser.kt:19-28 | The list `init` builds has no WHITESPACE or BAD_TOKEN and ends with exactly one EOF, at the end of the text |
| SyntaxParser.CreateTokenList | src/main/kotlin/codeAnalysis/syntax/Parser.kt:13-30 | The `init` loop builds exactly the kept tokens of the stream with the tokenizer's diagnostics. It reports the tokenizer's exception, or the position where the loop stops making progress |
| SyntaxParser.ListEndsAtEof | src/main/kotlin/codeAnalysis/syntax/Parser.kt:19-28 | When the next scan is EOF, the list built so far plus that EOF is the whole kept stream, with the tokenizer's diagnostics |
| SyntaxParser.ListFaults | src/main/kotlin/codeAnalysis/syntax/Parser.kt:19-28 | When the next scan faults, building the list raises that fault |
| SyntaxParser.ListDiverges | src/main/kotlin/codeAnalysis/syntax/Parser.kt:19-28 | When the next scan returns a token other than EOF without moving, the loop never ends |
| SyntaxParser.Parser.constructor | src/main/kotlin/codeAnalysis/syntax/Parser.kt:13-30 | The parser starts at index 0 with the token list and the tokenizer's diagnostics |
| SyntaxParser.Parser.NextToken | src/main/kotlin/codeAnalysis/syntax/Parser.kt:43-47 | `nextToken` returns the current token and moves the cursor by one |
| SyntaxParser.Parser.MatchToken | src/main/kotlin/codeAnalysis/syntax/Parser.kt:49-56 | `matchToken` returns, moves and diagnoses exactly as `Match` |
| SyntaxParser.Parser.Parse | src/main/kotlin/codeAnalysis/syntax/Parser.kt:58-62 | `parse` returns exactly `ParseTokens` of the list and the diagnostics so far |
| SyntaxParser.Parser.ParsePrimaryExpression | src/main/kotlin/codeAnalysis/syntax/Parser.kt:65-84 | The method's node, cursor and diagnostics are those of `Primary` |
| SyntaxParser.Parser.ParseExpression | src/main/kotlin/codeAnalysis/syntax/Parser.kt:86-96 | The method's node, cursor and diagnostics are those of `Expression` |
| SyntaxParser.Parser.ParseBinaryOperators | src/main/kotlin/codeAnalysis/syntax/Parser.kt:97-104 | The `while (true)` loop's node, cursor and diagnostics are those of `BinaryTail` |
| SyntaxParser.TokenizerDiagnosticsFirst | src/main/kotlin/codeAnalysis/syntax/Parser.kt:29-53 | The tokenizer's diagnostics come first, before any parser diagnostic. The tree ends at EOF, and with no parser diagnostic its leaves are the kept tokens |
| SyntaxParser.ParseText | src/main/kotlin/codeAnalysis/syntax/SyntaxTree.kt:16-19 | `SyntaxTree.parse` gives the tree of `ParseOf`, the tokenizer's fault, or the position where it never ends |
| Binding.TypeOfValue | src/main/kotlin/codeAnalysis/binding/BoundLiteralExpressionNode.kt:10 | A literal's type comes from the class of its value: INT for an `Int`, BOOL for a `Boolean` |
| Binding.BindUnaryOperatorKind | src/main/kotlin/codeAnalysis/binding/Binder.kt:78-87 | A non-INT operand gives null. On INT, `+` is IDENTITY and `-` is NEGATION, and any other kind (`!`) throws |
| Binding.BindBinaryOperatorKind | src/main/kotlin/codeAnalysis/binding/Binder.kt:89-103 | A non-INT side gives null. With both sides INT, `+ - * /` map to the four arithmetic kinds, and any other kind (`&&`, `\|\|`) throws |
| Binding.LiteralValue | src/main/kotlin/codeAnalysis/binding/Binder.kt:33 | A literal binds to its token's value, and a null value becomes 0 |
| Binding.UnaryStep | src/main/kotlin/codeAnalysis/binding/Binder.kt:40-51 | On a non-INT operand, exactly one diagnostic is added and the bound operand is returned unchanged. On INT, a unary node over that operand is built with nothing added |
| Binding.BinaryStep | src/main/kotlin/codeAnalysis/binding/Binder.kt:57-75 | With a non-INT side, exactly one diagnostic is added and the bound left operand is returned. With both INT, a binary node over the two is built with nothing added |
| Binding.Bind | src/main/kotlin/codeAnalysis/binding/Binder.kt:16-76 | Binding only appends to the diagnostics |
| Binding.BoundTreesAreInt | src/main/kotlin/codeAnalysis/binding/BoundUnaryExpressionNode.kt:11 | Every tree the binder builds has type INT and adds no diagnostic, so both "not defined" diagnostics are unreachable |
| Binding.BindSucceedsExactly | src/main/kotlin/codeAnalysis/binding/Binder.kt:16-28 | Binding throws unless the tree has only literal, unary `+`/`-` and binary `+ - * /` nodes; a parenthesised node throws "Unexpected syntax" |
| Binding.LeftBoundFirst | src/main/kotlin/codeAnalysis/binding/Binder.kt:55-56 | The left operand is bound first: its exception wins, and the right side is bound after the left side's diagnostics |
| Binding.Binder.BindExpression | src/main/kotlin/codeAnalysis/binding/Binder.kt:16-28 | `bindExpression` returns the node of `Bind` and leaves its diagnostics in the field, or throws its fault |
| Binding.Binder.BindLiteralExpression | src/main/kotlin/codeAnalysis/binding/Binder.kt:31-35 | The bound literal holds the token's Int value, or 0, and has type INT |
| Binding.Binder.BindUnaryExpression | src/main/kotlin/codeAnalysis/binding/Binder.kt:37-52 | `bindUnaryExpression` agrees with `Bind` on the node, the diagnostics and the fault |
| Binding.Binder.BindBinaryExpression | src/main/kotlin/codeAnalysis/binding/Binder.kt:54-76 | `bindBinaryExpression` agrees with `Bind` on the node, the diagnostics and the fault |
| Evaluation.ApplyUnary | src/main/kotlin/codeAnalysis/Evaluator.kt:18-26 | IDENTITY returns the Int operand, NEGATION its wrapping negation, and LOGICAL_NEGATION the complement. A cast fails exactly when the operand has the other class |
| Evaluation.ApplyBinary | src/main/kotlin/codeAnalysis/Evaluator.kt:27-40 | `+ - * /` give Ints that are congruent to the exact sum, difference, product and truncated quotient; they fail a cast exactly when a side is not an Int. Division by zero faults exactly on a zero Int divisor. `&&`/`\|\|` fail a cast exactly when the left side is not a Boolean, or when it does not decide the result and the right side is not a Boolean; otherwise they give the Boolean conjunction/disjunction |
| Evaluation.WellTypedDoesNotCast | src/main/kotlin/codeAnalysis/Evaluator.kt:14-43 | A well-typed tree never throws a cast exception: it evaluates to a value of its type, unless a division by zero throws |
| Evaluation.BoundTreesAreWellTyped | src/main/kotlin/codeAnalysis/binding/Binder.kt:16-76 | Every tree the binder builds is well-typed at INT |
| Evaluation.EvaluationWrapsExactValue | src/main/kotlin/codeAnalysis/Evaluator.kt:14-43 | A division-free tree binds, and evaluates to the exact mathematical value wrapped to 32 bits |
| Evaluation.UnaryWrapsExactValue | src/main/kotlin/codeAnalysis/Evaluator.kt:18-22 | If an operand evaluates to the wrapped exact value, so does its negation or identity |
| Evaluation.BinaryWrapsExactValue | src/main/kotlin/codeAnalysis/Evaluator.kt:27-34 | If both operands evaluate to their wrapped exact values, so does their sum, difference or product |
| Evaluation.ArithmeticWraps | src/main/kotlin/codeAnalysis/Evaluator.kt:32-34 | `+ - *` on wrapped values give the wrapped exact result |
| Evaluation.NoShortCircuit | src/main/kotlin/codeAnalysis/Evaluator.kt:27-40 | Both operands are evaluated before `&&`/`\|\|` applies, so a right operand's exception surfaces even when the left one decides the result |
| Evaluation.DivisionExamples | src/main/kotlin/codeAnalysis/Evaluator.kt:35 | `MIN_VALUE / -1` wraps to `MIN_VALUE`, `7 / -2` is `-3`, and a zero divisor faults |
| ArithRules.PrecedenceTable | src/main/kotlin/arithmeticSyntax/SyntaxRules.kt:5-21 | Both lookups, both ways round: the unary precedence is 10 exactly for PLUS/MINUS, 6 exactly for SQRT/SQR and 0 otherwise; the binary precedence is 8 exactly for `^`, 2 exactly for `* / %`, 1 exactly for `+ -` and 0 otherwise |
| ArithRules.Ranking | src/main/kotlin/arithmeticSyntax/SyntaxRules.kt:5-21 | Unary `+`/`-` outrank `^`, which outranks `sqrt`/`sqr`, which outrank the multiplicative operators, which outrank the additive ones. Both lookups are bounded |
| ArithTokenizer.OperatorTokenAt | src/main/kotlin/arithmeticSyntax/Tokenizer.kt:84-87 | `createOperatorToken` places the token at the cursor and moves the cursor by exactly one |
| ArithTokenizer.ScanToken | src/main/kotlin/arithmeticSyntax/Tokenizer.kt:16-27 | At or past the end of the text, the call yields EOF at the cursor without moving it, and yields EOF only there. Otherwise the cursor moves forward, at most one past the end |
| ArithTokenizer.NumberToken | src/main/kotlin/arithmeticSyntax/Tokenizer.kt:70-82 | A maximal digit run becomes one NUMBER with its start, text and value. A value above `Int.MAX_VALUE` faults. A diagnostic is added exactly when the text has a leading zero |
| ArithTokenizer.WhitespaceToken | src/main/kotlin/arithmeticSyntax/Tokenizer.kt:61-68 | A maximal whitespace run becomes one WHITESPACE token |
| ArithTokenizer.WordToken | src/main/kotlin/arithmeticSyntax/Tokenizer.kt:45-59 | "sqr"/"sqrt" in any case give SQR/SQRT at the word start, with lower-case text. Any other word gets a diagnostic and a BAD_TOKEN holding the word, placed at the word's end, and the character after the word is skipped |
| ArithTokenizer.OperatorToken | src/main/kotlin/arithmeticSyntax/Tokenizer.kt:29-38 | Each of `+ - * / ( ) ^ %` becomes a one-character token at its index, and the cursor moves by one |
| ArithTokenizer.BadCharacterToken | src/main/kotlin/arithmeticSyntax/Tokenizer.kt:39-42 | Any other character adds a diagnostic naming it and its position, and moves by one. The BAD_TOKEN holds the preceding character, and at index 0 the substring faults |
| ArithTokenizer.StreamShape | src/main/kotlin/arithmeticSyntax/Tokenizer.kt:17-18 | The calls up to the first EOF end with exactly one EOF, at the end of the text or one past it |
| ArithTokenizer.EofPastEndAfterUnknownWord | src/main/kotlin/arithmeticSyntax/Tokenizer.kt:54-57 | For "ab", the unknown word's extra step puts EOF at index 3, one past the end |
| ArithTokenizer.Tokenizer.ConsumeRun | src/main/kotlin/arithmeticSyntax/Tokenizer.kt:45-74 | The run loop moves the cursor to the end of the run and adds no diagnostic |
| ArithTokenizer.Tokenizer.CreateOperatorToken | src/main/kotlin/arithmeticSyntax/Tokenizer.kt:84-87 | The method returns the token of `OperatorTokenAt` and moves the cursor by one |
| ArithTokenizer.Tokenizer.SelectOperatorToken | src/main/kotlin/arithmeticSyntax/Tokenizer.kt:29-43 | The method agrees with the operator branch of the scan on the token, the cursor, the diagnostics and the fault |
| ArithTokenizer.Tokenizer.CreateWordToken | src/main/kotlin/arithmeticSyntax/Tokenizer.kt:45-59 | The method agrees with the word branch of the scan, appending only its diagnostics |
| ArithTokenizer.Tokenizer.CreateWhitespaceSyntaxToken | src/main/kotlin/arithmeticSyntax/Tokenizer.kt:61-68 | The method agrees with the whitespace branch and adds no diagnostic |
| ArithTokenizer.Tokenizer.CreateNumberSyntaxToken | src/main/kotlin/arithmeticSyntax/Tokenizer.kt:70-82 | The method agrees with the number branch on the token, the cursor, the diagnostics and the fault |
| ArithTokenizer.Tokenizer.NextToken | src/main/kotlin/arithmeticSyntax/Tokenizer.kt:16-27 | `nextToken` returns the token of `ScanToken`, moves to its `next`, and appends exactly its diagnostics, or raises its fault |
| ArithGrammar.Match | src/main/kotlin/arithmeticSyntax/Parser.kt:60-67 | On a match the token is consumed. On a mismatch the cursor stays, one diagnostic is added, and a synthetic valueless token of the expected kind is returned |
| ArithGrammar.Expression | src/main/kotlin/arithmeticSyntax/Parser.kt:90-107 | Parsing stays within the list and only appends diagnostics. If nothing is consumed, a diagnostic is added |
| ArithGrammar.BinaryTail | src/main/kotlin/arithmeticSyntax/Parser.kt:100-105 | The operator loop stays within the list and only appends diagnostics; taking no step changes nothing |
| ArithGrammar.ExpressionEndsLoose | src/main/kotlin/arithmeticSyntax/Parser.kt:90-107 | An expression parsed under a parent precedence stops at a token whose binary precedence does not exceed the parent |
| ArithGrammar.TailEndsLoose | src/main/kotlin/arithmeticSyntax/Parser.kt:100-105 | The operator loop exits only at a token whose binary precedence is 0 or not above the parent |
| ArithGrammar.BinaryRound | src/main/kotlin/arithmeticSyntax/Parser.kt:100-105 | One loop round: an operator above the parent takes the expression after it, parsed at its own precedence, as its right operand, and the loop continues after it |
| ArithGrammar.ExpressionViaUnary | src/main/kotlin/arithmeticSyntax/Parser.kt:92-95 | A prefix operator that does not rank below the parent takes the expression after it, parsed at its own precedence, as its operand |
| ArithGrammar.ExpressionViaPrimary | src/main/kotlin/arithmeticSyntax/Parser.kt:92-97 | Any other token starts a primary, and the binary loop continues from it |
| ArithGrammar.Primary | src/main/kotlin/arithmeticSyntax/Parser.kt:70-88 | A primary stays within the list, only appends diagnostics, and consumes nothing only when it adds one |
| ArithGrammar.ParseTokens | src/main/kotlin/arithmeticSyntax/Parser.kt:36-40 | `parse` ends with `matchToken(EOF)`, and the diagnostics it was given come first |
| ArithGrammar.ParenthesizedPrimary | src/main/kotlin/arithmeticSyntax/Parser.kt:82-88 | `(` is consumed, the inner expression is parsed at precedence 0, then `)` is matched, with a synthetic `)` and one diagnostic when it is missing |
| ArithGrammar.NumberOperand | src/main/kotlin/arithmeticSyntax/Parser.kt:77-101 | A NUMBER followed by a token that does not bind tighter than the parent is a literal operand on its own |
| ArithGrammar.TwoOperators | src/main/kotlin/arithmeticSyntax/Parser.kt:100-124 | A tighter second operator nests to the right; equal precedences, `^` included, fold left ("2 ^ 3 ^ 2" is Binary(Binary(2,^,3),^,2)) |
| ArithGrammar.PrefixThenBinary | src/main/kotlin/arithmeticSyntax/Parser.kt:93-113 | A prefix operator takes a following binary operator into its operand only when that operator outranks it, so "-2 ^ 2" is Binary(Unary(-,2),^,2) while "sqrt 4 ^ 2" puts the `^` under the `sqrt` |
| ArithGrammar.PrefixBelowParentRejected | src/main/kotlin/arithmeticSyntax/Parser.kt:36-97 | In "2 ^ sqrt 4", the `^` operand falls to a failed NUMBER match, and `parse` then diagnoses the leftover `sqrt` at EOF |
| ArithGrammar.LeftoverTokensDiagnosed | src/main/kotlin/arithmeticSyntax/Parser.kt:36-40 | Tokens left before EOF get exactly one more diagnostic; a full parse gets none |
| ArithGrammar.ExpressionLeaves | src/main/kotlin/arithmeticSyntax/Parser.kt:90-107 | When no match fails, an expression's leaves are exactly the tokens it consumed |
| ArithGrammar.TailLeaves | src/main/kotlin/arithmeticSyntax/Parser.kt:115-124 | When no match fails, the operator loop's tree has the left operand's leaves, then the tokens it consumed |
| ArithGrammar.PrimaryLeaves | src/main/kotlin/arithmeticSyntax/Parser.kt:70-88 | When no match fails, a primary's leaves are the tokens it consumed, parentheses included |
| ArithGrammar.TreeLeavesAreTokens | src/main/kotlin/arithmeticSyntax/Parser.kt:36-40 | When the parse adds no diagnostic, the tree's leaves read back the token list before EOF |
| ArithParser.RetainedMembers | src/main/kotlin/arithmeticSyntax/Parser.kt:24-26 | The kept tokens are exactly the WHITESPACE-free and BAD_TOKEN-free members of the stream |
| ArithParser.TokenListShape | src/main/kotlin/arithmeticSyntax/Parser.kt:22-33 | The list has no WHITESPACE or BAD_TOKEN and ends with exactly one EOF, at the end of the text or one past it |
| ArithParser.CreateTokenList | src/main/kotlin/arithmeticSyntax/Parser.kt:17-34 | `createTokenList` builds exactly the kept tokens of the stream with the tokenizer's diagnostics, or raises its exception |
| ArithParser.Parser.constructor | src/main/kotlin/arithmeticSyntax/Parser.kt:13-15 | The parser starts at index 0 with the token list and the tokenizer's diagnostics |
| ArithParser.Parser.NextToken | src/main/kotlin/arithmeticSyntax/Parser.kt:53-57 | `nextToken` returns the current token and moves by one |
| ArithParser.Parser.MatchToken | src/main/kotlin/arithmeticSyntax/Parser.kt:60-67 | `matchToken` returns, moves and diagnoses exactly as `Match` |
| ArithParser.Parser.Parse | src/main/kotlin/arithmeticSyntax/Parser.kt:36-40 | `parse` returns exactly `ParseTokens` of the list and the diagnostics so far |
| ArithParser.Parser.ParsePrimaryExpression | src/main/kotlin/arithmeticSyntax/Parser.kt:70-75 | The method's node, cursor and diagnostics are those of `Primary` |
| ArithParser.Parser.GetLiteralExpressionSyntaxNode | src/main/kotlin/arithmeticSyntax/Parser.kt:77-80 | The literal holds the token of `Match(NUMBER)`, with its cursor and diagnostics |
| ArithParser.Parser.GetParanthesizedExpressionSyntaxNode | src/main/kotlin/arithmeticSyntax/Parser.kt:82-88 | On `(`, the method's node, cursor and diagnostics are those of `Primary` |
| ArithParser.Parser.ParseExpression | src/main/kotlin/arithmeticSyntax/Parser.kt:90-107 | The method's node, cursor and diagnostics are those of `Expression` |
| ArithParser.Parser.GetUnaryExpressionSyntaxNode | src/main/kotlin/arithmeticSyntax/Parser.kt:109-113 | The operator token is consumed, and the operand is the expression after it at the unary precedence |
| ArithParser.Parser.GetBinaryExpressionSyntaxNode | src/main/kotlin/arithmeticSyntax/Parser.kt:115-124 | The operator token is consumed, and the right operand is the expression after it at that operator's precedence |
| ArithParser.TokenizerDiagnosticsFirst | src/main/kotlin/arithmeticSyntax/Parser.kt:22-33 | The tokenizer's diagnostics come first. With no parser diagnostic, the tree's leaves are the kept tokens |
| ArithParser.ParseText | src/main/kotlin/arithmeticSyntax/Parser.kt:13-40 | A new parser over the text, then `parse`, gives the tree of `ParseOf` or the tokenizer's fault |
| ArithEvaluation.ApplyUnary | src/main/kotlin/arithmeticSyntax/Evaluator.kt:14-21 | Unary `+` is the identity and `-` the wrapping negation. Any other operator (`sqr`, `sqrt`) faults with "Unexpected unary operator" and its text |
| ArithEvaluation.ApplyBinary | src/main/kotlin/arithmeticSyntax/Evaluator.kt:22-35 | `+ - *` are congruent to the exact results, and `^` is the supplied power. The operation fails exactly on an unknown operator, or on `/` or `%` with a zero divisor |
| ArithEvaluation.QuotientAndRemainder | src/main/kotlin/arithmeticSyntax/Evaluator.kt:30-31 | For a nonzero divisor, `/` truncates toward zero and `%` takes the dividend's sign, and they satisfy `a == q * b + r`. The exception is `MIN_VALUE / -1`, which wraps to `MIN_VALUE` with remainder 0 |
| ArithEvaluation.StripParentheses | src/main/kotlin/arithmeticSyntax/Evaluator.kt:36-38 | Removing the parentheses leaves no parenthesised node anywhere in the tree, and a tree without parentheses is returned unchanged |
| ArithEvaluation.ParenthesesTransparent | src/main/kotlin/arithmeticSyntax/Evaluator.kt:36-38 | A parenthesised node evaluates to exactly its inner expression's result |
| ArithEvaluation.EvaluationNeedsSupport | src/main/kotlin/arithmeticSyntax/Evaluator.kt:9-41 | Evaluation succeeds only on trees of literals with values and of supported operators. On such trees, only a division by zero can fail |
| ArithEvaluation.EvaluationWrapsExactValue | src/main/kotlin/arithmeticSyntax/Evaluator.kt:9-41 | A tree of literals, parentheses, unary `+`/`-` and binary `+ - *` evaluates to the exact value wrapped to 32 bits |
| ArithEvaluation.ArithmeticWraps | src/main/kotlin/arithmeticSyntax/Evaluator.kt:27-29 | `+ - *` on wrapped values give the wrapped exact result |
| ArithEvaluation.NegatedBaseOfPower | src/main/kotlin/arithmeticSyntax/Evaluator.kt:32 | "-2 ^ 2" parses cleanly and evaluates to the power of -2, not its negation |
| ArithEvaluation.RejectedOperandHasNoValue | src/main/kotlin/arithmeticSyntax/Evaluator.kt:12 | The synthetic NUMBER of "2 ^ sqrt 4" has no value, so its `as Int` cast faults |
| ArithEvaluation.UnaryFaultBeforeDivision | src/main/kotlin/arithmeticSyntax/Evaluator.kt:23-24 | The left operand is evaluated first: in "sqrt 4 / 0" the unary fault wins over the division by zero |
| ArithEvaluation.DivisionFaultBeforeUnary | src/main/kotlin/arithmeticSyntax/Evaluator.kt:23-24 | In "4 / 0 + sqrt 4" the left division by zero wins |
| ArithEvaluation.DivisionByZeroFaults | src/main/kotlin/arithmeticSyntax/Evaluator.kt:30 | `x / 0` faults with a division by zero |
| ClassicRules.BinaryOperatorPrecedence | src/main/kotlin/codeAnalysis/SyntaxRules.kt:5-11 | The precedence is 2 exactly for TIMES/SLASH, 1 exactly for PLUS/MINUS, and 0 for every other kind |
| ClassicRules.LoopsFollowPrecedence | src/main/kotlin/codeAnalysis/Parser.kt:80-105 | The factor loop's operators are exactly the precedence-2 kinds and the term loop's the precedence-1 kinds, and multiplicative outranks additive |
| ClassicTokenizer.OperatorKind | src/main/kotlin/codeAnalysis/Tokenizer.kt:45-62 | A character has an operator kind exactly when it is one of `+ - * / ( )` |
| ClassicTokenizer.ScanToken | src/main/kotlin/codeAnalysis/Tokenizer.kt:16-70 | At the end of the text, the call yields EOF at the cursor without moving, and yields EOF only there. Every other call moves the cursor forward |
| ClassicTokenizer.NumberToken | src/main/kotlin/codeAnalysis/Tokenizer.kt:26-37 | A maximal digit run becomes one NUMBER with its value. A value above `Int.MAX_VALUE` faults, and a diagnostic is added exactly when the text has a leading zero |
| ClassicTokenizer.WhitespaceToken | src/main/kotlin/codeAnalysis/Tokenizer.kt:38-44 | A maximal whitespace run becomes one WHITESPACE token |
| ClassicTokenizer.OperatorToken | src/main/kotlin/codeAnalysis/Tokenizer.kt:45-62 | Each of `+ - * / ( )` becomes a one-character token at its index, and the cursor moves by one |
| ClassicTokenizer.BadCharacterToken | src/main/kotlin/codeAnalysis/Tokenizer.kt:63-69 | Any other character, letters included, adds a "bad character" diagnostic and moves by one, returning a BAD_TOKEN that holds it |
| ClassicTokenizer.ScanCoversConsumed | src/main/kotlin/codeAnalysis/Tokenizer.kt:16-70 | Each token sits at the cursor, and its text is exactly the characters consumed |
| ClassicTokenizer.StreamShape | src/main/kotlin/codeAnalysis/Tokenizer.kt:23-25 | The calls up to the first EOF end with exactly one EOF, at the end of the text |
| ClassicTokenizer.StreamIsLossless | src/main/kotlin/codeAnalysis/Tokenizer.kt:16-70 | Concatenating the token texts up to EOF reproduces the input exactly |
| ClassicTokenizer.Tokenizer.ConsumeRun | src/main/kotlin/codeAnalysis/Tokenizer.kt:26-44 | The run loop moves the cursor to the end of the run and adds no diagnostic |
| ClassicTokenizer.Tokenizer.NextToken | src/main/kotlin/codeAnalysis/Tokenizer.kt:16-70 | `nextToken` returns the token of `ScanToken`, moves to its `next`, and appends exactly its diagnostics, or raises its fault |
| ClassicTokenizer.Tokenizer.NextNumber | src/main/kotlin/codeAnalysis/Tokenizer.kt:26-37 | Reading a digit run gives the same token, position, diagnostics or fault as `ScanToken` |
| ClassicTokenizer.Tokenizer.NextPunctuation | src/main/kotlin/codeAnalysis/Tokenizer.kt:45-69 | Reading an operator or bad character gives the same token, position and diagnostics as `ScanToken` |
| ClassicGrammar.Match | src/main/kotlin/codeAnalysis/Parser.kt:49-56 | On a match the token is consumed. On a mismatch the cursor stays, one diagnostic is added, and a synthetic valueless token of the expected kind is returned |
| ClassicGrammar.Terms | src/main/kotlin/codeAnalysis/Parser.kt:94-105 | `parseTerms` stays within the list, only appends diagnostics, and stops at a token that is no operator |
| ClassicGrammar.TermsTail | src/main/kotlin/codeAnalysis/Parser.kt:96-102 | The term loop stops at a non-operator; taking no step changes nothing |
| ClassicGrammar.Factor | src/main/kotlin/codeAnalysis/Parser.kt:80-91 | `parseFactor` stays within the list, only appends diagnostics, and stops at a token that is not `*` or `/` |
| ClassicGrammar.FactorTail | src/main/kotlin/codeAnalysis/Parser.kt:82-88 | The factor loop stops at a token that is not `*` or `/`; taking no step changes nothing |
| ClassicGrammar.FactorRound | src/main/kotlin/codeAnalysis/Parser.kt:82-88 | One `*`/`/` round folds the primary after the operator onto the left operand, and the loop continues after it |
| ClassicGrammar.TermsRound | src/main/kotlin/codeAnalysis/Parser.kt:96-102 | One `+`/`-` round folds the factor after the operator onto the left operand, and the loop continues after it at a token that is not `*` or `/` |
| ClassicGrammar.Primary | src/main/kotlin/codeAnalysis/Parser.kt:65-77 | A primary stays within the list, only appends diagnostics, and consumes nothing only when it adds one |
| ClassicGrammar.ParseTokens | src/main/kotlin/codeAnalysis/Parser.kt:58-62 | `parse` ends with `match(EOF)`, and the diagnostics it was given come first |
| ClassicGrammar.TermsShape | src/main/kotlin/codeAnalysis/Parser.kt:80-105 | Every tree is layered: `+`/`-` nodes sit above `*`/`/` nodes, which sit above primaries, so `*` and `/` bind tighter |
| ClassicGrammar.FactorShape | src/main/kotlin/codeAnalysis/Parser.kt:80-91 | A factor's tree has only `*`/`/` nodes above its primaries |
| ClassicGrammar.PrimaryShape | src/main/kotlin/codeAnalysis/Parser.kt:65-77 | A primary is a literal or a parenthesised term |
| ClassicGrammar.TermsLeaves | src/main/kotlin/codeAnalysis/Parser.kt:94-105 | When no match fails, a term's leaves are exactly the tokens it consumed |
| ClassicGrammar.FactorLeaves | src/main/kotlin/codeAnalysis/Parser.kt:80-91 | When no match fails, a factor's leaves are exactly the tokens it consumed |
| ClassicGrammar.PrimaryLeaves | src/main/kotlin/codeAnalysis/Parser.kt:65-77 | When no match fails, a primary's leaves are the tokens it consumed |
| ClassicGrammar.TreeLeavesAreTokens | src/main/kotlin/codeAnalysis/Parser.kt:58-62 | When the parse adds no diagnostic, the tree's leaves read back the token list before EOF |
| ClassicGrammar.DivisionFoldsLeft | src/main/kotlin/codeAnalysis/Parser.kt:82-88 | "8 / 4 / 2" parses as Binary(Binary(8,/,4),/,2) |
| ClassicGrammar.ProductNestsInSum | src/main/kotlin/codeAnalysis/Parser.kt:80-105 | "2 + 3 * 4" parses as Binary(2,+,Binary(3,*,4)) |
| ClassicGrammar.NoPrefixMinus | src/main/kotlin/codeAnalysis/Parser.kt:65-102 | "-1" gives one NUMBER-mismatch diagnostic and Binary(synthetic,-,1) |
| ClassicGrammar.LeftoverTokensDiagnosed | src/main/kotlin/codeAnalysis/Parser.kt:58-62 | Tokens left before EOF get exactly one more diagnostic; a full parse gets none |
| ClassicParser.RetainedMembers | src/main/kotlin/codeAnalysis/Parser.kt:23-25 | The kept tokens are exactly the WHITESPACE-free and BAD_TOKEN-free members of the stream |
| ClassicParser.TokenListShape | src/main/kotlin/codeAnalysis/Parser.kt:19-28 | The list has no WHITESPACE or BAD_TOKEN and ends with exactly one EOF, at the end of the text |
| ClassicParser.CreateTokenList | src/main/kotlin/codeAnalysis/Parser.kt:13-30 | The `init` loop builds exactly the kept tokens with the tokenizer's diagnostics, or raises its exception |
| ClassicParser.Parser.constructor | src/main/kotlin/codeAnalysis/Parser.kt:13-30 | The parser starts at index 0 with the token list and the tokenizer's diagnostics |
| ClassicParser.Parser.NextToken | src/main/kotlin/codeAnalysis/Parser.kt:43-47 | `nextToken` returns the current token and moves by one |
| ClassicParser.Parser.MatchToken | src/main/kotlin/codeAnalysis/Parser.kt:49-56 | `match` returns, moves and diagnoses exactly as `Match` |
| ClassicParser.Parser.Parse | src/main/kotlin/codeAnalysis/Parser.kt:58-62 | `parse` returns exactly `ParseTokens` of the list and the diagnostics so far |
| ClassicParser.Parser.ParsePrimaryExpression | src/main/kotlin/codeAnalysis/Parser.kt:65-77 | The method's node, cursor and diagnostics are those of `Primary` |
| ClassicParser.Parser.ParseFactor | src/main/kotlin/codeAnalysis/Parser.kt:80-91 | The `while` loop's node, cursor and diagnostics are those of `Factor` |
| ClassicParser.Parser.ParseTerms | src/main/kotlin/codeAnalysis/Parser.kt:94-105 | The `while` loop's node, cursor and diagnostics are those of `Terms` |
| ClassicParser.ParseShape | src/main/kotlin/codeAnalysis/Parser.kt:19-62 | The tokenizer's diagnostics come first and the tree is layered. With no parser diagnostic, its leaves are the kept tokens |
| ClassicParser.ParseText | src/main/kotlin/codeAnalysis/AbstractSyntaxTree.kt:9-12 | `AbstractSyntaxTree.parse` gives the tree of `ParseOf` or the tokenizer's fault |
| PrototypeTokenizer.ScanToken | src/main/kotlin/Main.kt:75-124 | At the end of the text, the call yields EOF without moving, and yields EOF only there. Every other call moves forward |
| PrototypeTokenizer.NumberToken | src/main/kotlin/Main.kt:85-92 | A digit run gives a NUMBER with its decimal value, leading zeros and all, with no diagnostic. A value above `Int.MAX_VALUE` faults |
| PrototypeTokenizer.BadCharacterToken | src/main/kotlin/Main.kt:118-123 | An unknown character silently becomes a one-character BAD_TOKEN |
| PrototypeTokenizer.SameTokensAsClassic | src/main/kotlin/Main.kt:75-124 | Each call gives the classic tokenizer's token and cursor, or its exception, with the diagnostics dropped |
| PrototypeTokenizer.SameStreamAsClassic | src/main/kotlin/Main.kt:75-124 | The whole stream is the classic one, token for token |
| PrototypeTokenizer.Tokenizer.ConsumeRun | src/main/kotlin/Main.kt:85-99 | The run loop moves the cursor to the end of the run |
| PrototypeTokenizer.Tokenizer.NextToken | src/main/kotlin/Main.kt:75-124 | `nextToken` returns the token of `ScanToken` and moves to its `next`, or raises its fault |
| PrototypeParser.RetainedMembers | src/main/kotlin/Main.kt:164-173 | The kept tokens are exactly the stream's members that are not WHITESPACE, BAD_TOKEN or EOF |
| PrototypeParser.CreateTokenList | src/main/kotlin/Main.kt:159-174 | The `init` loop builds exactly the kept tokens of the stream, EOF excluded, or raises the tokenizer's exception |
| PrototypeParser.Match | src/main/kotlin/Main.kt:193-198 | On a match the token is consumed. On a mismatch the cursor stays, and a synthetic valueless token of the expected kind is returned with no diagnostic |
| PrototypeParser.NextExpression | src/main/kotlin/Main.kt:213-216 | The next expression is always a NUMBER literal, and it consumes a token exactly when the current token is a NUMBER |
| PrototypeParser.Loop | src/main/kotlin/Main.kt:202-210 | When the loop finishes, it stops within the list at a token that is no operator |
| PrototypeParser.NeverEndsRepeats | src/main/kotlin/Main.kt:176-208 | Once the loop reaches the last token, and that token is an operator, `peek` keeps returning it and no step moves past it, so `parse` never returns |
| PrototypeParser.LoopNeverEndsExactly | src/main/kotlin/Main.kt:200-211 | From any cursor, the loop never ends exactly when operators and expressions alternate from there to the end and the last token is an operator |
| PrototypeParser.NeverEndsExactly | src/main/kotlin/Main.kt:200-211 | `parse` never ends exactly when the list alternates operators and expressions to its end and the last token is an operator, e.g. "1 +" |
| PrototypeParser.OneLevelFoldsLeft | src/main/kotlin/Main.kt:200-211 | All four operators share one level and fold left: "2 + 3 * 4" parses as Binary(Binary(2,+,3),*,4) |
| PrototypeParser.StopsBeforeSecondNumber | src/main/kotlin/Main.kt:202 | "1 2 +" stops after the first number without reading the rest |
| PrototypeParser.Parser.constructor | src/main/kotlin/Main.kt:159-174 | The parser starts at index 0 over the token list |
| PrototypeParser.Parser.NextToken | src/main/kotlin/Main.kt:187-191 | `nextToken` returns the current token and moves by one |
| PrototypeParser.Parser.MatchToken | src/main/kotlin/Main.kt:193-198 | `match` returns and moves exactly as `Match` |
| PrototypeParser.Parser.ParseNextExpression | src/main/kotlin/Main.kt:213-216 | The method's node and cursor are those of `NextExpression` |
| PrototypeParser.Parser.Parse | src/main/kotlin/Main.kt:200-211 | The `while` loop returns exactly `ParseTokens`: the folded tree, or the position where it never ends |
| PrototypeParser.ParseText | src/main/kotlin/Main.kt:13-14 | `Parser(line).parse()` gives `ParseOf`: a tree, the tokenizer's fault, the empty-list fault, or never ending |
| PrototypeParser.LoneBadCharacter | src/main/kotlin/Main.kt:176-182 | For "@" the token list is empty, and the first `peek` faults |

## Left out

- Console I/O: the REPL `main` loop, `prettyPrint` and the ANSI colour constants in `src/main/kotlin/Main.kt:1-53`. They only read lines and display output.
- ArithEvaluation.ApplyBinary: the `^` branch (`arithmeticSyntax/Evaluator.kt:32`) computes `Double.pow` and then `toInt()` in floating point. It is a parameter `pow` of the evaluator, so nothing is proved about its value.
- Unicode character classes: `isDigit`, `isWhitespace` and `isLetter` are ASCII predicates here. Digits are `0`-`9`; whitespace is space, the controls tab through carriage return (U+0009..U+000D) and the separators U+001C..U+001F, as Kotlin's `isWhitespace` takes them; letters are `A`-`Z` and `a`-`z`. Case folding in `Text.ToLower` is ASCII only.
- Diagnostic wording: each diagnostic is a structured value holding the offending kind, text, position or type. The exact message strings are not modelled.
- Kotlin exceptions are fault values (`LexFault`, `BindFault`, `EvalFault`, the prototype's empty-list fault). Their messages and stack behaviour are not modelled.
- Non-termination is a detected outcome, not a loop that runs forever:
  - the typed tokenizer stuck at a final `&`/`|` (`SyntaxTokenizer.TokenStream` gives `Stuck`, `SyntaxParser.CreateTokenList` gives `Diverges`);
  - the prototype parser at a trailing operator (`PrototypeParser.Loop` gives `NeverEnds`).
  Lemmas prove the state repeats from then on.
- The typed `Parser.parseExpression` is two methods: the prefix/primary part is `ParseExpression`, and its `while (true)` operator loop is `ParseBinaryOperators`. Together they have the same effect.
- Each parser's `init` block is two parts: the module-level `CreateTokenList` method and a constructor that receives its list and diagnostics. `SyntaxTree.parse`, `AbstractSyntaxTree.parse` and `Parser(line).parse()` chain them in `ParseText`.
- Literal value: the typed parser's keyword branch (`codeAnalysis/syntax/Parser.kt:76`) calls a two-argument literal constructor that `LiteralExpressionSyntaxNode` does not declare. The node keeps its one argument, the token, which is what the binder reads. So `true`/`false` literals bind to 0 (`Binding.LiteralValue`).
- Missing enum members: `BANG`, `AMPERSAND_DOUBLE` and `PIPE_DOUBLE` (typed `TokenType`) and `MODULO`, `SQR` and `SQRT` (arithmetic `TokenType`) are not declared in the source. The model declares them.
- Undeclared bound node types: `BoundExpressionNode`, `BoundUnaryOperatorKind` and `BoundBinaryOperatorKind` are not part of this model's source files. They are the `BoundNode` datatype and two enumerations. The type of a binary node is the type of its left operand.
- `Binding.Value`: `VarType` and `varTypesMap` are modelled in full, but a bound literal's value is only a Kotlin `Int` or `Boolean`. So of the types only INT and BOOL (and never `STRING`, `DOUBLE`, `CHAR` or `ERR_NO_TYPE`) arise, because the tokenizers produce no other values.
- A token's `value: Any?` is `Option<Int32>`, because only NUMBER tokens carry a value.
- The `peek` of the typed tokenizer (`codeAnalysis/syntax/Tokenizer.kt:14-17`) takes the offset only to decide whether the index is past the end, and then reads the current character. Its observable effect is captured by `SyntaxTokenizer.AmpersandPipeToken`. The typed parser's `peek` reads `tokens[offset + position]` as written (`SyntaxGrammar.PeekAt`).
- The typed and arithmetic `Evaluator` classes hold only their root, so `evaluate()` is the function `EvaluateExpression` of that root. Evaluation keeps no state, and calling it twice gives the same result by construction. The classic and prototype pipelines have no evaluator.
