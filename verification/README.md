# monkeyrs core in Dafny

A model of the interpreter core of monkeyrs, a Rust implementation of the
Monkey language. The model covers four stages.

- **Lexer.** Turns source text into tokens.
- **Pratt parser.** Turns the tokens into a program of syntax-tree nodes.
- **Objects.** The integer and boolean values.
- **Tree-walking evaluator.** Evaluates a program to a value.

Each stage is a Dafny module of pure functions:

| module | models |
|---|---|
| `Tokens` | `src/token.rs`, plus the precedence levels of `src/parser.rs` |
| `Lexer` | `src/lexer.rs` |
| `Ast` | `src/ast.rs` |
| `Parser` | `src/parser.rs` |
| `Objects` | `src/object.rs` |
| `Evaluator` | `src/evaluator.rs` |
| `Decimal` | the Rust standard-library text conversions the interpreter relies on: `to_string`, and `parse` into `u64`, `i64` and `bool` |

The modules `LexerProps`, `ParserProps` and `EvaluatorProps` state and prove
properties of the model. `ParserExamples` and `EvaluatorExamples` restate the
repository's unit tests as lemmas.

## Modelling choices

**Parser state.** The parser's mutable cursor becomes a token sequence and
the index of the current token. `Advance` is `next_token`. Every parsing
function returns the node it built together with the index where it left the
cursor.

**Cursor behaviour.** The cursor is modelled exactly as written:

- the loop of `parse_expression` is always entered when a `;` follows;
- after every infix step there is one more `next_token`.

Because of the second point, a chain of operators that bind equally is cut
after its second operand. For example, `let a = 5 + 4 * 3 + 2;` parses as
`let a = 5 + 4 * 3`, which is what the repository's own test expects.

**Panics are results.** Every Rust panic is a `Failure` with a named cause:

- an `expect` or `unwrap` on `None`;
- the catch-all `panic!`;
- a digit run that does not fit in a `u64`;
- i64 overflow, which panics in a debug build;
- division by zero.

**Evaluator outcomes.** The evaluator has three outcomes:

- `Success(Some(o))`, a value;
- `Success(None)`, no value;
- `Failure(e)`, where the source panics.

Integer literals are `u64`. One above the largest `i64` aborts with
`LiteralOutOfRange`.

**The precedence table.** `get_precedence` appears in `src/token.rs` only as
commented-out code, yet `src/parser.rs` calls it. The model uses that
commented-out table as the definition.

**The whole-program property.** The evaluator is checked against
`EvaluatorProps.Meaning`, a reference semantics over mathematical integers.
`EvalMatchesMeaning` proves two things:

- evaluation aborts exactly when `NoAbort` fails;
- otherwise its value agrees with the meaning.

## Model

| member | source | states |
|---|---|---|
| Tokens.GetPrecedence | src/token.rs:48-63 | the eight binary operators get a level from Equals to Product; `(` gets Call; every other token gets Lowest; no token gets Prefix |
| Tokens.PrecedenceTable | src/token.rs:48-63 | the level of each token: `==` and `!=` Equals, `<` and `>` LessGreater, `+` and `-` Sum, `*` and `/` Product, `(` Call, and every other token Lowest |
| Tokens.PrecedenceOrder | src/parser.rs:14-24 | the seven levels are strictly ordered from Lowest to Call, and every level lies between those two |
| Decimal.NatToString | src/object.rs:24-26 | the decimal text of a natural number is a non-empty digit string with no leading zero whose value is that number |
| Decimal.IntToString | src/object.rs:24-26 | an integer's text starts with `-` exactly when the integer is negative, followed by the text of its magnitude |
| Decimal.ParseI64OfIntToString | src/evaluator.rs:38-39 | reading an i64's text back as an i64 gives the same i64 |
| Decimal.ParseBoolOfIntToString | src/evaluator.rs:58-60 | an integer's text never reads as a boolean |
| Decimal.ParseI64OfBoolToString | src/evaluator.rs:62-64 | a boolean's text never reads as an i64 |
| Decimal.ParseU64OfDigits | src/lexer.rs:119-134 | a digit run reads as its value when that value fits in a u64, and fails otherwise |
| Lexer.SkipWhitespace | src/lexer.rs:81-89 | the rest of the input is a suffix; everything skipped is whitespace; the rest is empty or starts with a non-whitespace character |
| Lexer.ReadIdentifier | src/lexer.rs:101-117 | the length of the longest prefix of identifier characters (letters and `_`) |
| Lexer.ReadNumber | src/lexer.rs:119-134 | the length of the longest prefix of decimal digits |
| Lexer.DetermineIdent | src/lexer.rs:137-161 | each of the ten keywords gives its keyword token; any other word gives `IDENT` of that word |
| Lexer.ScanToken | src/lexer.rs:36-76 | a token read from non-whitespace input consumes at least one character and leaves a suffix; it is never EOF or STRING; only a digit run can fail; a character that starts no token is `ILLEGAL` and consumes only itself |
| Lexer.NextToken | src/lexer.rs:32-79 | no token exactly when only whitespace is left; otherwise the input shrinks |
| LexerProps.SkipWhitespaceGap | src/lexer.rs:81-89 | a whitespace gap in front of a non-whitespace character is skipped whole |
| LexerProps.ReadIdentifierOfWord | src/lexer.rs:101-117 | a word of identifier characters followed by a non-identifier character is read whole |
| LexerProps.ReadNumberOfDigits | src/lexer.rs:119-134 | a digit run followed by a non-digit is read whole |
| LexerProps.ScanWord | src/lexer.rs:66-70 | a word that starts with a letter and is followed by a non-identifier character lexes as `determine_ident` of the word |
| LexerProps.ScanNumber | src/lexer.rs:71-73 | the decimal text of any u64, followed by a non-digit, lexes as `INT` of that number |
| LexerProps.ScanKeyword | src/lexer.rs:137-161 | each keyword's spelling, followed by a non-identifier character, lexes as that keyword |
| LexerProps.ScanOneChar | src/lexer.rs:46-65 | each single-character token lexes from its character, whatever follows |
| LexerProps.ScanIllegal | src/lexer.rs:36-76 | a character that is not whitespace, a letter, a digit or one of the fourteen token characters lexes as `ILLEGAL` on its own, whatever follows |
| LexerProps.UnderscoreIsIllegal | src/lexer.rs:66-74 | a leading `_` lexes as `ILLEGAL`: an identifier may contain `_` but not start with it |
| LexerProps.ScanSpelling | src/lexer.rs:36-76 | every spellable token lexes back from its spelling when the next character cannot extend it (`=` after `=` or `!`, letters after words, digits after numbers) |
| LexerProps.NextTokenOfSpaced | src/lexer.rs:32-79 | whitespace, then a token's spelling, then a character that cannot extend it: `next_token` returns that token and leaves the rest |
| LexerProps.TokenizeLayoutPrefix | src/lexer.rs:163-168 | the tokens of spelled, separated tokens followed by more text are those tokens followed by the tokens of that text |
| LexerProps.TokenizeLayout | src/lexer.rs:163-168 | spelled tokens with whitespace gaps wherever two spellings would merge lex back to exactly those tokens |
| LexerProps.UnlexIsLayout | src/lexer.rs:163-168 | spelling each token after one space is such a layout, and its tokens are the original ones |
| LexerProps.TokenizeUnlex | src/lexer.rs:163-168 | round trip: lexing the space-separated spelling of any spellable token sequence gives back that sequence |
| Lexer.Tokenize | src/lexer.rs:163-168 | the iterator yields no more tokens than there are characters in the input |
| Ast.Node.TokenLiteral | src/ast.rs:22-28 | a let or return statement gives its token; every other node panics |
| Ast.Program.TokenLiteral | src/ast.rs:41-47 | an empty program panics; otherwise the result is the first statement's token literal |
| Ast.Program.New | src/ast.rs:37-39 | a new program has no statements, so asking it for a token literal panics |
| Parser.Advance | src/parser.rs:44-47 | the cursor moves by one token and stops at the end |
| Parser.OperatorFromTok | src/parser.rs:302-313 | an operator name exists exactly for `+ - > < ! * /`; any other token panics |
| Parser.OperatorNames | src/parser.rs:302-313 | each of those seven tokens is named after itself: `+` is "PLUS", `/` is "SLASH", `<` is "LT", and so on |
| Parser.ParseProgram | src/parser.rs:49-66 | no tokens give the empty program; every statement of a parsed program respects the precedence table |
| Parser.ProgramLoop | src/parser.rs:52-63 | the statements already collected stay a prefix of the result |
| Parser.ParseStatement | src/parser.rs:68-75 | the cursor never moves back; `let`, `return` and `{` always give a let, return or block statement |
| Parser.ParseLetStatement | src/parser.rs:224-255 | a missing identifier or a missing `=` panics; after `let name =`, a value that fails fails the statement the same way, an absent value panics, and a present value becomes the statement's value; a result has the `let` token, the identifier that follows it, and a value that respects the precedence table |
| Parser.ParseReturnStatement | src/parser.rs:210-222 | the result is a return statement on the current token |
| Parser.ParseBlockStatement | src/parser.rs:382-397 | the result is a block statement on `{` |
| Parser.BlockLoop | src/parser.rs:386-391 | the statements already collected stay a prefix of the block's statements |
| Parser.ParseExpressionStatement | src/parser.rs:77-85 | the cursor never moves back, and the expression respects the precedence table |
| Parser.ParseExpression | src/parser.rs:161-188 | with no current token it panics; a result binds at least as tightly as the precedence it was asked for |
| Parser.InfixLoop | src/parser.rs:168-185 | the tree the loop builds around a left operand keeps the precedence invariant, and keeps binding tighter than the requested level |
| Parser.PrefixParse | src/parser.rs:258-290 | every node `prefix_parse` builds binds at Call level |
| Parser.ParsePrefixExpression | src/parser.rs:292-300 | the result is a prefix node on the current token, with operator name `MINUS` for `-` and `BANG` for `!` |
| Parser.ParseFunctionLiteral | src/parser.rs:87-111 | a function literal is named by the token after `fn` and needs `(` after it |
| Parser.ParseFunctionParameters | src/parser.rs:113-159 | every parameter is an identifier node; `()` gives no parameters and leaves the cursor on `)`; any token after `(` other than `)` or an identifier panics |
| Parser.ParametersLoop | src/parser.rs:133-158 | the parameters already collected stay a prefix, and every one is an identifier node; `)` ahead ends the list there; `,` not followed by an identifier panics; any other token ahead panics because the list is not closed |
| Parser.InfixParse | src/parser.rs:315-328 | a result is an infix or call node on the current token |
| Parser.ParseInfixExpression | src/parser.rs:330-341 | `==` and `!=` panic, since they have no operator name; a result is an infix node with the given left operand |
| Parser.ParseCallExpression | src/parser.rs:343-349 | the result is a call node on `(` with the given callee |
| Parser.ParseCallArguments | src/parser.rs:351-380 | `()` gives no arguments; a first argument that fails fails the call the same way, and one that is absent panics; every argument respects the precedence table |
| Parser.ArgumentsLoop | src/parser.rs:365-378 | the arguments already collected stay a prefix of the result; after `,` an argument that fails fails the list the same way, and one that is absent panics; any other token ahead ends the list with one more advance and no check for `)` |
| ParserProps.InfixParseDeclinesLowest | src/parser.rs:315-328 | `infix_parse` returns nothing and leaves the cursor exactly when the token's precedence is Lowest |
| ParserProps.SemicolonEndsExpression | src/parser.rs:168-185 | a peeked `;` enters the loop once, and the loop stops with the cursor on the `;` |
| ParserProps.WeakerTokenEndsExpression | src/parser.rs:168-185 | any other peeked token that binds no tighter than the requested level ends the loop without moving |
| ParserProps.PrefixOperandIsNotInfix | src/parser.rs:292-300 | the operand of a parsed prefix node is never an infix node |
| ParserProps.RightOperandBindsTighter | src/parser.rs:330-341 | an infix right operand of a parsed infix node binds strictly tighter than its parent |
| ParserProps.ProgramTreesRespectPrecedence | src/parser.rs:49-66 | in every top-level statement of a parsed program, a binary operation that is the right operand of another has the higher precedence, and a prefix operator's operand is not a binary operation |
| ParserProps.ParseUnary | src/parser.rs:258-300 | the rendering of a nest of `-`/`!` around a literal or identifier is read back whole by `prefix_parse` |
| ParserProps.ParseTower | src/parser.rs:161-188 | the rendering of a tower of operators, each binding tighter than the one before, is read back by `parse_expression` as the same tree |
| ParserProps.ParseRenderedTower | src/parser.rs:49-66 | round trip: the token rendering of any such tower parses to a program of exactly that tree |
| ParserProps.LetSteps | src/parser.rs:224-255 | `let name = value` parses to a let statement; the cursor steps past a following `;` and one more token |
| ParserProps.ReturnSteps | src/parser.rs:210-222 | `return value` parses to a return statement that leaves the cursor where the value ended |
| ParserProps.ExpressionStatementSteps | src/parser.rs:77-85 | an expression statement steps over one following `;` |
| ParserProps.NoPrefixRule | src/parser.rs:258-290 | a token without a prefix rule gives no expression and leaves the cursor |
| ParserProps.BlockSteps | src/parser.rs:382-397 | `{` starts a block whose statements are those of the block loop |
| ParserProps.FunctionLiteralSteps | src/parser.rs:87-111 | `fn name(params) { body }` gives a function literal of those parameters and that block |
| ParserProps.CallSteps | src/parser.rs:343-349 | `(` after an expression gives a call of it with the parsed arguments |
| ParserExamples.ParseLetReturnLet | src/parser.rs:404-460 | the tokens of `let negative_five = -5; return !negative_five; let y = 4 + 4;` parse to the three statements the test expects |
| ParserExamples.ParseBlock | src/parser.rs:462-509 | the tokens of `{ let a = 4; let b = 5; };` parse to one block of two let statements |
| ParserExamples.ParseFnLiteral | src/parser.rs:511-553 | the tokens of `fn foo(bar, baz) {let x = 5; return x;}` parse to the expected function literal |
| ParserExamples.ParseFnCall | src/parser.rs:555-581 | the tokens of `foo(bar, baz)` parse to a call of `foo` with the two arguments |
| ParserExamples.ParseDoubleInfix | src/parser.rs:584-624 | the tokens of `let a = 5 + 4 * 3 + 2;` parse to `let a = 5 + 4 * 3`, as the test expects |
| ParserExamples.ParseTrue | src/parser.rs:626-643 | `true` parses to one Boolean node |
| ParserExamples.ParseChain | src/parser.rs:168-185 | `1 - 2 - 3` parses as the two statements `1 - 2` and `3` |
| Objects.Object.GetType | src/object.rs:19-37 | the type tag is Integer64 exactly for integers and Boolean exactly for booleans |
| Objects.Object.Inspect | src/object.rs:24-41 | an integer's text is an optional `-`, present exactly for negatives, then a decimal numeral with no leading zero, and it reads back as that i64 and never as a boolean; a boolean's text reads back as that boolean and never as an i64 |
| Evaluator.TruncDiv | src/evaluator.rs:45 | Rust's `/`: the remainder is smaller than the divisor and is zero or has the sign of the dividend |
| Evaluator.Eval | src/evaluator.rs:6-28 | only literals, prefix, infix and wrapper nodes give values; a literal aborts exactly when it is above the largest i64; infix and `-` give integers and `!` gives booleans. Its full contract is `EvaluatorProps.EvalMatchesMeaning` |
| Evaluator.EvalPrefixExpressions | src/evaluator.rs:50-56 | `BANG` negates a boolean and gives no value for an integer; `MINUS` negates an integer, aborts on the smallest i64, and gives no value for a boolean; any other operator gives no value |
| Evaluator.EvalBang | src/evaluator.rs:58-60 | `!` negates a boolean and gives no value for an integer |
| Evaluator.EvalMinus | src/evaluator.rs:62-64 | `-` negates an integer, aborts on the smallest i64, and gives no value for a boolean |
| Evaluator.EvalInfixExpression | src/evaluator.rs:30-35 | only two integers have infix rules; any other pair gives no value |
| Evaluator.EvalIntegerInfixExpression | src/evaluator.rs:37-48 | two integers are combined by their values after the text round trip; a non-integer aborts |
| Evaluator.IntegerArithmetic | src/evaluator.rs:41-47 | integer arithmetic gives no value other than an integer |
| Evaluator.EvalStatements | src/evaluator.rs:71-79 | with no abort the result is the last statement's value, or no value for no statements; any abort aborts the run, and the run aborts with the abort of the first statement that aborts |
| Evaluator.RunStatements | src/evaluator.rs:74-76 | the same, for the loop from any value carried in |
| Evaluator.EvalProgram | src/evaluator.rs:67-69 | an empty program has no value; with no abort the value is the last statement's; the program aborts exactly when one of its statements does |
| EvaluatorProps.EvalMatchesMeaning | src/evaluator.rs:6-28 | evaluation succeeds exactly when no literal is out of range, no operand lacks a value, no division is by zero and no result overflows; a value it gives agrees with the reference meaning |
| EvaluatorProps.PrefixMatches | src/evaluator.rs:11-15 | the same for a prefix node, given it for the operand |
| EvaluatorProps.NegationMatches | src/evaluator.rs:62-64 | `-` succeeds exactly when the negated meaning is an i64, and then agrees with it |
| EvaluatorProps.InfixMatches | src/evaluator.rs:16-25 | the same for an infix node, given it for both operands |
| EvaluatorProps.IntegerArithmeticMatches | src/evaluator.rs:41-47 | i64 arithmetic succeeds exactly when the division is not by zero and the exact result is an i64, and then agrees with it |
| EvaluatorProps.InfixTokenMeaning | src/evaluator.rs:41-47 | through those names, an infix node built by the parser means the sum for `+`, the difference for `-`, the product for `*`, the quotient rounded toward zero for `/` (nothing by zero), and nothing for `<` or `>` |
| EvaluatorProps.OperandWithoutMeaningAborts | src/evaluator.rs:11-13 | a prefix node whose operand has no value aborts |
| EvaluatorExamples.RunTower | src/evaluator.rs:85-165 | lexing, parsing and evaluating the text of a tower that does not abort gives the value of its meaning |
| EvaluatorExamples.EvalIntegerLiteral | src/evaluator.rs:85-97 | `5` evaluates to the integer 5, shown as "5" |
| EvaluatorExamples.EvalBoolLiteral | src/evaluator.rs:99-111 | `true` evaluates to true, shown as "true" |
| EvaluatorExamples.EvalBangTrue | src/evaluator.rs:113-124 | `!true` evaluates to false, shown as "false" |
| EvaluatorExamples.EvalBangBangTrue | src/evaluator.rs:126-137 | `!!true` evaluates to true, shown as "true" |
| EvaluatorExamples.EvalNegate | src/evaluator.rs:139-151 | `-5` evaluates to the integer -5, shown as "-5" |
| EvaluatorExamples.EvalPlus | src/evaluator.rs:153-165 | `-5 + 5` evaluates to the integer 0, shown as "0" |

## Left out

- **The REPL and the binaries.** `src/bin/repl.rs`, `src/main.rs` and `src/lib.rs` do I/O only.
- **Character classes.** Alphabetic, whitespace and digit are the ASCII ones. Non-ASCII letters and whitespace lex as `ILLEGAL` in the model.
- **Lazy lexing.** The parser pulls tokens on demand. The model lexes the whole input first and parses the token sequence. This gives the same parse as long as lexing does not panic. When a number is too large, the model reports the lexing failure first, where the source would panic at the point the parser reaches it.
- **Panic messages.** They are not modelled; only the cause of each panic is kept.
- **Where the precedence levels live.** The enum `Precedence` is declared in `src/parser.rs` but sits in `Tokens`, so that the token module does not import the parser.
- **The `Expression` node.** The parser never builds it. The evaluator treats it as transparent, as the source does.
- **Tokens without a rule.** `IF`, `ELSE`, `WHILE`, `FOR`, `LOOP`, `STRING`, `EOF` and `ILLEGAL` have no prefix rule in the parser. They parse to no expression, as in the source.
- **The lexer tests.** The input of `test_lexer` (`src/lexer.rs:237-359`) is token spellings separated by spaces and newlines wherever two spellings would merge. That is the shape `LexerProps.TokenizeLayout` covers, but the test's long input is not replayed token by token. The commented-out tests at `src/lexer.rs:176-235` are not modelled.
- Tokens.GetPrecedence: its own contract gives the range of levels and the Call level of `(`; the level of each token is stated by `Tokens.PrecedenceTable`.
- Lexer.Tokenize: its own contract only bounds the number of tokens by the length of the input. Its behaviour is stated by `LexerProps.TokenizeLayout` for text made of token spellings and whitespace. Text with an `ILLEGAL` character or an oversized number is not covered by a theorem.
- ParserProps.ParseRenderedTower: the round trip covers expressions built from literals, identifiers, `-`, `!` and the six named binary operators, with each right operand binding tighter. Calls, function literals, statements and equal-precedence chains are covered by the examples instead, because the extra cursor advance breaks the round trip for them.
- ParserExamples.ParseLetReturnLet: stated on the token sequence the lexer produces for the test's text rather than on the text itself.
- ParserExamples.ParseBlock: stated on the token sequence of the test's text, not on the text.
- ParserExamples.ParseFnLiteral: stated on the token sequence of the test's text, not on the text.
- ParserExamples.ParseFnCall: stated on the token sequence of the test's text, not on the text.
- ParserExamples.ParseDoubleInfix: stated on the token sequence of the test's text, not on the text.
- ParserExamples.ParseTrue: stated on the token sequence of the test's text, not on the text.
- ParserExamples.ParseChain: stated on the token sequence of the test's text, not on the text.
- Parser.OperatorFromTok: its own contract says which tokens have a name; the names themselves are stated by `Parser.OperatorNames`, because stating them on the function made the parser's proofs much more expensive.
- Parser.ParseExpression: its contract says how the result binds, not which tree is built. Which tree is built is stated by `ParserProps.ParseTower` for towers, and by the examples otherwise.
- EvaluatorProps.EvalMatchesMeaning: the reference meaning gives no value to identifiers, calls, function literals and statements, just as the evaluator does. Nothing richer is claimed for them.
