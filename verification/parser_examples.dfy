/** monkeyrs' parser tests, on the token sequences the lexer produces for their
    inputs, and one more input that shows how the cursor handling reads a chain
    of operators of equal precedence. Each input is described position by
    position by a predicate, and each lemma takes one step of the trace: which
    function is entered where, what it builds and where it leaves the cursor. */
module ParserExamples {
  import opened Wrappers
  import opened Decimal
  import opened Tokens
  import opened Ast
  import opened Parser
  import opened ParserProps

  function Int(v: u64): Node { IntegerLiteral(INT(v), v) }
  function Ident(name: string): Node { Identifier(IDENT(name), name) }

  /** `true` is a program of one Boolean node. */
  lemma ParseTrue()
    ensures ParseProgram([TRUE]) == Success(Program([Boolean(TRUE, true)]))
  {
    var toks := [TRUE];
    AtomAlone(toks, 0, Lowest);
    StatementAtEnd(toks, 0, Boolean(TRUE, true), 0);
    ProgramOfOne(toks, Boolean(TRUE, true), 0);
  }

  /* ---------- `let a = 5 + 4 * 3 + 2;` ---------- */

  predicate DoubleInfixTokens(t: seq<Token>) {
    && |t| == 11
    && t[0] == LET && t[1] == IDENT("a") && t[2] == ASSIGN && t[3] == INT(5) && t[4] == PLUS
    && t[5] == INT(4) && t[6] == ASTERISK && t[7] == INT(3) && t[8] == PLUS && t[9] == INT(2)
    && t[10] == SEMICOLON
  }

  function Product43(): Node { InfixExpression(ASTERISK, "ASTERISK", Int(4), Some(Int(3))) }
  function Sum5(): Node { InfixExpression(PLUS, "PLUS", Int(5), Some(Product43())) }

  /** After `4 * 3` the extra advance leaves the cursor on the second `+`, and the `2` ahead ends the Sum loop. */
  lemma DoubleInfixProduct(t: seq<Token>)
    requires DoubleInfixTokens(t)
    ensures ParseExpression(t, 5, Sum) == Success(Parsed(Some(Product43()), 8))
  {
    AtomAlone(t, 7, Product);
    InfixSteps(t, 6, Int(4), Int(3), 7);
    LastTurn(t, 6, Sum, Int(4), Product43(), 7);
    AtomThenLoop(t, 5, Sum, Product43(), 8);
  }

  /** The outer loop looks past the `2` to the `;` and stops there. */
  lemma DoubleInfixValue(t: seq<Token>)
    requires DoubleInfixTokens(t)
    ensures ParseExpression(t, 3, Lowest) == Success(Parsed(Some(Sum5()), 10))
  {
    DoubleInfixProduct(t);
    InfixSteps(t, 4, Int(5), Product43(), 8);
    SemicolonEndsExpression(t, 9, Lowest, Sum5());
    LoopTurn(t, 4, Lowest, Int(5), Sum5(), 8, Success(Parsed(Sum5(), 10)));
    AtomThenLoop(t, 3, Lowest, Sum5(), 10);
  }

  /** The let statement ends on the `;`, whose peek is the end of input. */
  lemma DoubleInfixLet(t: seq<Token>)
    requires DoubleInfixTokens(t)
    ensures ParseStatement(t, 0) == Success(Parsed(Some(LetStatement(LET, Ident("a"), Sum5())), 10))
  {
    DoubleInfixValue(t);
    assert Peek(t, 10) == None && Identifier(t[1], t[1].name) == Ident("a");
    LetSteps(t, 0, Sum5(), 10);
  }

  /** `let a = 5 + 4 * 3 + 2;` keeps only `5 + (4 * 3)`. */
  lemma ParseDoubleInfix(t: seq<Token>)
    requires DoubleInfixTokens(t)
    ensures ParseProgram(t) == Success(Program([LetStatement(LET, Ident("a"), Sum5())]))
  {
    DoubleInfixLet(t);
    ProgramOfOne(t, LetStatement(LET, Ident("a"), Sum5()), 10);
  }

  /* ---------- `let negative_five = -5; return !negative_five; let y = 4 + 4;` ---------- */

  predicate LetReturnLetTokens(t: seq<Token>) {
    && |t| == 17
    && t[0] == LET && t[1] == IDENT("negative_five") && t[2] == ASSIGN && t[3] == MINUS && t[4] == INT(5)
    && t[5] == SEMICOLON && t[6] == RETURN && t[7] == BANG && t[8] == IDENT("negative_five") && t[9] == SEMICOLON
    && t[10] == LET && t[11] == IDENT("y") && t[12] == ASSIGN && t[13] == INT(4) && t[14] == PLUS
    && t[15] == INT(4) && t[16] == SEMICOLON
  }

  function MinusFive(): Node { PrefixExpression(MINUS, "MINUS", Some(Int(5))) }
  function NotNegativeFive(): Node { PrefixExpression(BANG, "BANG", Some(Ident("negative_five"))) }
  function FourPlusFour(): Node { InfixExpression(PLUS, "PLUS", Int(4), Some(Int(4))) }
  function LetNegativeFive(): Node { LetStatement(LET, Ident("negative_five"), MinusFive()) }
  function ReturnNegation(): Node { ReturnStatement(RETURN, Some(NotNegativeFive())) }
  function LetY(): Node { LetStatement(LET, Ident("y"), FourPlusFour()) }

  /** The operand loop of `-` steps onto the `;`, where the let statement ends. */
  lemma NegativeFiveStatement(t: seq<Token>)
    requires LetReturnLetTokens(t)
    ensures ParseStatement(t, 0) == Success(Parsed(Some(LetNegativeFive()), 5))
  {
    AtomBeforeSemicolon(t, 4, Prefix);
    PrefixOperation(t, 3, Lowest, Int(5), 5);
    assert Peek(t, 5) == Some(RETURN) && Identifier(t[1], t[1].name) == Ident("negative_five");
    LetSteps(t, 0, MinusFive(), 5);
  }

  /** `return` keeps the cursor on the `;` after its value. */
  lemma ReturnStatementOfNegation(t: seq<Token>)
    requires LetReturnLetTokens(t)
    ensures ParseStatement(t, 6) == Success(Parsed(Some(ReturnNegation()), 9))
  {
    AtomBeforeSemicolon(t, 8, Prefix);
    PrefixOperation(t, 7, Lowest, Ident("negative_five"), 9);
    ReturnSteps(t, 6, Some(NotNegativeFive()), 9);
  }

  /** After `4 + 4` the extra advance steps past the final `;`, to the end of the tokens. */
  lemma FourPlusFourValue(t: seq<Token>)
    requires LetReturnLetTokens(t)
    ensures ParseExpression(t, 13, Lowest) == Success(Parsed(Some(FourPlusFour()), 17))
  {
    AtomBeforeSemicolon(t, 15, Sum);
    InfixSteps(t, 14, Int(4), Int(4), 16);
    LastTurn(t, 14, Lowest, Int(4), FourPlusFour(), 16);
    AtomThenLoop(t, 13, Lowest, FourPlusFour(), 17);
  }

  lemma FourPlusFourStatement(t: seq<Token>)
    requires LetReturnLetTokens(t)
    ensures ParseStatement(t, 10) == Success(Parsed(Some(LetY()), 17))
  {
    FourPlusFourValue(t);
    assert Peek(t, 17) == None && Identifier(t[11], t[11].name) == Ident("y");
    LetSteps(t, 10, FourPlusFour(), 17);
  }

  /** The third statement ends the program. */
  lemma LetReturnLetLast(t: seq<Token>)
    requires LetReturnLetTokens(t)
    ensures ProgramLoop(t, 10, [LetNegativeFive(), ReturnNegation()])
         == Success(Program([LetNegativeFive(), ReturnNegation(), LetY()]))
  {
    FourPlusFourStatement(t);
    ProgramEndsThird(t, 10, LetNegativeFive(), ReturnNegation(), LetY(), 17);
  }

  /** The program loop from the second statement on. */
  lemma LetReturnLetRest(t: seq<Token>)
    requires LetReturnLetTokens(t)
    ensures ProgramLoop(t, 6, [LetNegativeFive()])
         == Success(Program([LetNegativeFive(), ReturnNegation(), LetY()]))
  {
    LetReturnLetLast(t);
    ReturnStatementOfNegation(t);
    ProgramTurn(t, 6, [LetNegativeFive()], ReturnNegation(), 9);
    assert [LetNegativeFive()] + [ReturnNegation()] == [LetNegativeFive(), ReturnNegation()];
  }

  /** The three statements, in order. */
  lemma ParseLetReturnLet(t: seq<Token>)
    requires LetReturnLetTokens(t)
    ensures ParseProgram(t) == Success(Program([LetNegativeFive(), ReturnNegation(), LetY()]))
  {
    LetReturnLetRest(t);
    NegativeFiveStatement(t);
    ProgramStart(t, LetNegativeFive(), 5);
  }

  /* ---------- `{ let a = 4; let b = 5; };` ---------- */

  predicate BlockTokens(t: seq<Token>) {
    && |t| == 13
    && t[0] == LBRACE && t[1] == LET && t[2] == IDENT("a") && t[3] == ASSIGN && t[4] == INT(4)
    && t[5] == SEMICOLON && t[6] == LET && t[7] == IDENT("b") && t[8] == ASSIGN && t[9] == INT(5)
    && t[10] == SEMICOLON && t[11] == RBRACE && t[12] == SEMICOLON
  }

  function LetA(): Node { LetStatement(LET, Ident("a"), Int(4)) }
  function LetB(): Node { LetStatement(LET, Ident("b"), Int(5)) }

  /** Both let statements end on their `;`. */
  lemma BlockLetA(t: seq<Token>)
    requires BlockTokens(t)
    ensures ParseStatement(t, 1) == Success(Parsed(Some(LetA()), 5))
  {
    AtomBeforeSemicolon(t, 4, Lowest);
    assert Peek(t, 5) == Some(LET) && Identifier(t[2], t[2].name) == Ident("a");
    LetSteps(t, 1, Int(4), 5);
  }

  lemma BlockLetB(t: seq<Token>)
    requires BlockTokens(t)
    ensures ParseStatement(t, 6) == Success(Parsed(Some(LetB()), 10))
  {
    AtomBeforeSemicolon(t, 9, Lowest);
    assert Peek(t, 10) == Some(RBRACE) && Identifier(t[7], t[7].name) == Ident("b");
    LetSteps(t, 6, Int(5), 10);
  }

  /** `}` has no prefix rule: it is a statement of no node, which ends the block,
      and the `;` after it is stepped onto. */
  lemma BlockClose(t: seq<Token>)
    requires BlockTokens(t)
    ensures BlockLoop(t, 11, [LetA(), LetB()]) == Success(Parsed([LetA(), LetB()], 12))
  {
    NoPrefixRule(t, 11, Lowest);
    ExpressionStatementSteps(t, 11, None, 11);
    BlockEnd(t, 11, [LetA(), LetB()], 12);
  }

  lemma BlockRest(t: seq<Token>)
    requires BlockTokens(t)
    ensures BlockLoop(t, 6, [LetA()]) == Success(Parsed([LetA(), LetB()], 12))
  {
    BlockClose(t);
    BlockLetB(t);
    BlockTurn(t, 6, [LetA()], LetB(), 10);
    assert [LetA()] + [LetB()] == [LetA(), LetB()];
  }

  /** The block loop keeps both let statements and stops at the `}`. */
  lemma BlockBody(t: seq<Token>)
    requires BlockTokens(t)
    ensures BlockLoop(t, 1, []) == Success(Parsed([LetA(), LetB()], 12))
  {
    BlockRest(t);
    BlockLetA(t);
    BlockStart(t, 1, LetA(), 5);
  }

  /** The block holds the two let statements and is the only statement of the program. */
  lemma ParseBlock(t: seq<Token>)
    requires BlockTokens(t)
    ensures ParseProgram(t) == Success(Program([BlockStatement(LBRACE, [LetA(), LetB()])]))
  {
    BlockBody(t);
    BlockSteps(t, 0, [LetA(), LetB()], 12);
    ProgramOfOne(t, BlockStatement(LBRACE, [LetA(), LetB()]), 12);
  }

  /* ---------- `fn foo(bar, baz) {let x = 5; return x;}` ---------- */

  predicate FnLiteralTokens(t: seq<Token>) {
    && |t| == 17
    && t[0] == FUNCTION && t[1] == IDENT("foo") && t[2] == LPAREN && t[3] == IDENT("bar") && t[4] == COMMA
    && t[5] == IDENT("baz") && t[6] == RPAREN && t[7] == LBRACE && t[8] == LET && t[9] == IDENT("x")
    && t[10] == ASSIGN && t[11] == INT(5) && t[12] == SEMICOLON && t[13] == RETURN && t[14] == IDENT("x")
    && t[15] == SEMICOLON && t[16] == RBRACE
  }

  function LetX(): Node { LetStatement(LET, Ident("x"), Int(5)) }
  function ReturnX(): Node { ReturnStatement(RETURN, Some(Ident("x"))) }
  function Foo(): Node { FunctionLiteral(IDENT("foo"), [Ident("bar"), Ident("baz")], BlockStatement(LBRACE, [LetX(), ReturnX()])) }

  /** The parameter list ends on its `)`. */
  lemma FnParameters(t: seq<Token>)
    requires FnLiteralTokens(t)
    ensures ParseFunctionParameters(t, 2) == Success(Parsed([Ident("bar"), Ident("baz")], 6))
  {
    LastParameter(t, 5, [Ident("bar"), Ident("baz")]);
    assert [Ident("bar")] + [Ident("baz")] == [Ident("bar"), Ident("baz")];
    NextParameter(t, 3, [Ident("bar")], Success(Parsed([Ident("bar"), Ident("baz")], 6)));
    FirstParameter(t, 2, Success(Parsed([Ident("bar"), Ident("baz")], 6)));
  }

  /** `let x = 5;` ends on its `;`. */
  lemma FnLetX(t: seq<Token>)
    requires FnLiteralTokens(t)
    ensures ParseStatement(t, 8) == Success(Parsed(Some(LetX()), 12))
  {
    AtomBeforeSemicolon(t, 11, Lowest);
    assert Peek(t, 12) == Some(RETURN) && Identifier(t[9], t[9].name) == Ident("x");
    LetSteps(t, 8, Int(5), 12);
  }

  /** `return x;` ends on its `;`. */
  lemma FnReturnX(t: seq<Token>)
    requires FnLiteralTokens(t)
    ensures ParseStatement(t, 13) == Success(Parsed(Some(ReturnX()), 15))
  {
    AtomBeforeSemicolon(t, 14, Lowest);
    ReturnSteps(t, 13, Some(Ident("x")), 15);
  }

  /** The `}` that closes the body is the last token. */
  lemma FnClose(t: seq<Token>)
    requires FnLiteralTokens(t)
    ensures BlockLoop(t, 16, [LetX(), ReturnX()]) == Success(Parsed([LetX(), ReturnX()], 16))
  {
    NoPrefixRule(t, 16, Lowest);
    ExpressionStatementSteps(t, 16, None, 16);
    BlockEnd(t, 16, [LetX(), ReturnX()], 16);
  }

  lemma FnBodyRest(t: seq<Token>)
    requires FnLiteralTokens(t)
    ensures BlockLoop(t, 13, [LetX()]) == Success(Parsed([LetX(), ReturnX()], 16))
  {
    FnClose(t);
    FnReturnX(t);
    BlockTurn(t, 13, [LetX()], ReturnX(), 15);
    assert [LetX()] + [ReturnX()] == [LetX(), ReturnX()];
  }

  /** The body holds the let and the return statement. */
  lemma FnBody(t: seq<Token>)
    requires FnLiteralTokens(t)
    ensures BlockLoop(t, 8, []) == Success(Parsed([LetX(), ReturnX()], 16))
  {
    FnBodyRest(t);
    FnLetX(t);
    BlockStart(t, 8, LetX(), 12);
  }

  /** The literal is read by `prefix_parse` and ends on the `}`. */
  lemma FnPrefix(t: seq<Token>)
    requires FnLiteralTokens(t)
    ensures PrefixParse(t, 0) == Success(Parsed(Some(Foo()), 16))
  {
    FnBody(t);
    FnParameters(t);
    FunctionLiteralSteps(t, 0, [Ident("bar"), Ident("baz")], 6, [LetX(), ReturnX()], 16);
  }

  lemma FnExpression(t: seq<Token>)
    requires FnLiteralTokens(t)
    ensures ParseExpression(t, 0, Lowest) == Success(Parsed(Some(Foo()), 16))
  {
    FnPrefix(t);
    WeakerTokenEndsExpression(t, 16, Lowest, Foo());
    ExpressionSteps(t, 0, Lowest, Foo(), 16, Foo(), 16);
  }

  /** The literal is named by the `foo` token and is the only statement. */
  lemma ParseFnLiteral(t: seq<Token>)
    requires FnLiteralTokens(t)
    ensures ParseProgram(t) == Success(Program([Foo()]))
  {
    FnExpression(t);
    StatementAtEnd(t, 0, Foo(), 16);
    ProgramOfOne(t, Foo(), 16);
  }

  /* ---------- `foo(bar, baz);` ---------- */

  predicate FnCallTokens(t: seq<Token>) {
    && |t| == 7
    && t[0] == IDENT("foo") && t[1] == LPAREN && t[2] == IDENT("bar") && t[3] == COMMA && t[4] == IDENT("baz")
    && t[5] == RPAREN && t[6] == SEMICOLON
  }

  function CallFoo(): Node { CallExpression(LPAREN, Ident("foo"), [Ident("bar"), Ident("baz")]) }

  /** The second argument stops before the `)`, and the `)` is stepped onto. */
  lemma CallRest(t: seq<Token>)
    requires FnCallTokens(t)
    ensures ArgumentsLoop(t, 2, [Ident("bar")]) == Success(Parsed([Ident("bar"), Ident("baz")], 5))
  {
    AtomAlone(t, 4, Lowest);
    LastArgument(t, 4, [Ident("bar"), Ident("baz")]);
    assert [Ident("bar")] + [Ident("baz")] == [Ident("bar"), Ident("baz")];
    NextArgument(t, 2, [Ident("bar")], Ident("baz"), 4, Success(Parsed([Ident("bar"), Ident("baz")], 5)));
  }

  /** The first argument stops before the `,`. */
  lemma CallArguments(t: seq<Token>)
    requires FnCallTokens(t)
    ensures ParseCallArguments(t, 1) == Success(Parsed([Ident("bar"), Ident("baz")], 5))
  {
    AtomAlone(t, 2, Lowest);
    CallRest(t);
    FirstArgument(t, 1, Ident("bar"), 2, Success(Parsed([Ident("bar"), Ident("baz")], 5)));
  }

  /** The extra advance after the call leaves the cursor on the `;`. */
  lemma CallValue(t: seq<Token>)
    requires FnCallTokens(t)
    ensures ParseExpression(t, 0, Lowest) == Success(Parsed(Some(CallFoo()), 6))
  {
    CallArguments(t);
    CallSteps(t, 1, Ident("foo"), [Ident("bar"), Ident("baz")], 5);
    LastTurn(t, 1, Lowest, Ident("foo"), CallFoo(), 5);
    AtomThenLoop(t, 0, Lowest, CallFoo(), 6);
  }

  /** The call is the only statement. */
  lemma ParseFnCall(t: seq<Token>)
    requires FnCallTokens(t)
    ensures ParseProgram(t) == Success(Program([CallFoo()]))
  {
    CallValue(t);
    StatementAtEnd(t, 0, CallFoo(), 6);
    ProgramOfOne(t, CallFoo(), 6);
  }

  /* ---------- `1 - 2 - 3` ---------- */

  predicate ChainTokens(t: seq<Token>) {
    && |t| == 5
    && t[0] == INT(1) && t[1] == MINUS && t[2] == INT(2) && t[3] == MINUS && t[4] == INT(3)
  }

  function OneMinusTwo(): Node { InfixExpression(MINUS, "MINUS", Int(1), Some(Int(2))) }

  /** After `1 - 2` the extra advance steps onto the second `-`, and the `3` ahead of it ends the expression. */
  lemma ChainValue(t: seq<Token>)
    requires ChainTokens(t)
    ensures ParseExpression(t, 0, Lowest) == Success(Parsed(Some(OneMinusTwo()), 3))
  {
    AtomAlone(t, 2, Sum);
    InfixSteps(t, 1, Int(1), Int(2), 2);
    LastTurn(t, 1, Lowest, Int(1), OneMinusTwo(), 2);
    AtomThenLoop(t, 0, Lowest, OneMinusTwo(), 3);
  }

  /** The first statement ends on the second `-`; the `3` starts a statement of its own. */
  lemma ChainStatements(t: seq<Token>)
    requires ChainTokens(t)
    ensures ParseStatement(t, 0) == Success(Parsed(Some(OneMinusTwo()), 3))
    ensures ParseStatement(t, 4) == Success(Parsed(Some(Int(3)), 4))
  {
    ChainValue(t);
    assert Peek(t, 3) == Some(INT(3));
    ExpressionStatementSteps(t, 0, Some(OneMinusTwo()), 3);
    AtomAlone(t, 4, Lowest);
    StatementAtEnd(t, 4, Int(3), 4);
  }

  /** A chain of equal-precedence operators loses its second operator: `1 - 2 - 3`
      is read as the two statements `1 - 2` and `3`. */
  lemma ParseChain(t: seq<Token>)
    requires ChainTokens(t)
    ensures ParseProgram(t) == Success(Program([OneMinusTwo(), Int(3)]))
  {
    ChainStatements(t);
    ProgramStart(t, OneMinusTwo(), 3);
    ProgramEnds(t, 4, [OneMinusTwo()], Int(3), 4);
    assert [OneMinusTwo()] + [Int(3)] == [OneMinusTwo(), Int(3)];
  }
}
