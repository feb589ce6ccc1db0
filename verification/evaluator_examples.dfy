/** The evaluator's unit tests: source text is lexed, parsed and evaluated as
    a program, and the rendering of the result is compared with the expected text. */
module EvaluatorExamples {
  import opened Wrappers
  import opened Decimal
  import opened Tokens
  import opened Lexer
  import opened Ast
  import opened Parser
  import opened Evaluator
  import opened LexerProps
  import opened ParserProps
  import opened EvaluatorProps
  import Objects

  /** Which stage stopped a run. */
  datatype RunError = LexFailed(lex: LexError) | ParseFailed(parse: ParseError) | EvalFailed(eval: EvalError)

  /** Lexer, parser and `eval_program` one after the other, as each test does. */
  function Run(input: string): Result<Value, RunError> {
    match Tokenize(input)
    case Failure(e) => Failure(LexFailed(e))
    case Success(toks) =>
      match ParseProgram(toks)
      case Failure(e) => Failure(ParseFailed(e))
      case Success(p) =>
        match EvalProgram(p)
        case Failure(e) => Failure(EvalFailed(e))
        case Success(v) => Success(v)
  }

  /** Text that is a layout of the tokens of a tower runs to the value that
      agrees with the meaning of that tower. */
  lemma RunTower(input: string, xs: seq<Spaced>, e: Node, v: Value)
    requires WellSpaced(xs, "") && Layout(xs) == input
    requires IsTower(e) && Render(e) == TokensOf(xs) && NoAbort(e) && Agrees(v, Meaning(e))
    ensures Run(input) == Success(v)
  {
    TokenizeLayout(xs, "");
    assert Layout(xs) + "" == input;
    ParseRenderedTower(e);
    EvalTower(e, v);
    RunSteps(input, TokensOf(xs), Program([e]), v);
  }

  lemma RunSteps(input: string, toks: seq<Token>, p: Program, v: Value)
    requires Tokenize(input) == Success(toks) && ParseProgram(toks) == Success(p) && EvalProgram(p) == Success(v)
    ensures Run(input) == Success(v)
  {
  }

  /** A program of one expression that does not abort has the value that agrees with its meaning. */
  lemma EvalTower(e: Node, v: Value)
    requires NoAbort(e) && Agrees(v, Meaning(e))
    ensures EvalProgram(Program([e])) == Success(v)
  {
    EvalMatchesMeaning(e);
    AgreesUnique(Eval(e).value, v, Meaning(e));
  }

  /** A meaning is agreed with by one value at most. */
  lemma AgreesUnique(a: Value, b: Value, m: Option<Val>)
    requires Agrees(a, m) && Agrees(b, m)
    ensures a == b
  {
  }

  function Five(): Node { IntegerLiteral(INT(5), 5) }
  function TrueNode(): Node { Boolean(TRUE, true) }
  function Bang(n: Node): Node { PrefixExpression(BANG, "BANG", Some(n)) }
  function Negate(n: Node): Node { PrefixExpression(MINUS, "MINUS", Some(n)) }

  lemma FiveSpelling()
    ensures Spell(INT(5)) == "5"
  {
    assert NatToString(5) == [DigitChar(5)];
  }

  /** `s` holds the characters of `t`, one by one. */
  predicate SameText(s: string, t: string) {
    |s| == |t| && forall i | 0 <= i < |s| :: s[i] == t[i]
  }

  /** `5` renders as "5". */
  lemma EvalIntegerLiteral(input: string)
    requires SameText(input, "5")
    ensures Run(input) == Success(Some(Objects.Object.Integer(5)))
    ensures Run(input).value.value.Inspect() == "5"
  {
    FiveSpelling();
    var xs := [Spaced("", INT(5))];
    assert Layout(xs) == input;
    RunTower(input, xs, Five(), Some(Objects.Object.Integer(5)));
    FiveText();
  }

  /** `true` renders as "true". */
  lemma EvalBoolLiteral(input: string)
    requires SameText(input, "true")
    ensures Run(input) == Success(Some(Objects.Object.Boolean(true)))
    ensures Run(input).value.value.Inspect() == "true"
  {
    var xs := [Spaced("", TRUE)];
    assert Layout(xs) == input;
    RunTower(input, xs, TrueNode(), Some(Objects.Object.Boolean(true)));
  }

  /** `!true` renders as "false". */
  lemma EvalBangTrue(input: string)
    requires SameText(input, "!true")
    ensures Run(input) == Success(Some(Objects.Object.Boolean(false)))
    ensures Run(input).value.value.Inspect() == "false"
  {
    var xs := [Spaced("", BANG), Spaced("", TRUE)];
    assert Layout(xs) == input;
    RunTower(input, xs, Bang(TrueNode()), Some(Objects.Object.Boolean(false)));
  }

  /** `!!true` renders as "true". */
  lemma EvalBangBangTrue(input: string)
    requires SameText(input, "!!true")
    ensures Run(input) == Success(Some(Objects.Object.Boolean(true)))
    ensures Run(input).value.value.Inspect() == "true"
  {
    var xs := [Spaced("", BANG), Spaced("", BANG), Spaced("", TRUE)];
    assert Layout(xs) == input;
    RunTower(input, xs, Bang(Bang(TrueNode())), Some(Objects.Object.Boolean(true)));
  }

  /** `-5` renders as "-5". */
  lemma EvalNegate(input: string)
    requires SameText(input, "-5")
    ensures Run(input) == Success(Some(Objects.Object.Integer(-5)))
    ensures Run(input).value.value.Inspect() == "-5"
  {
    FiveSpelling();
    var xs := [Spaced("", MINUS), Spaced("", INT(5))];
    assert Layout(xs) == input;
    RunTower(input, xs, Negate(Five()), Some(Objects.Object.Integer(-5)));
    FiveText();
  }

  /** `-5 + 5` renders as "0". */
  lemma EvalPlus(input: string)
    requires SameText(input, "-5 + 5")
    ensures Run(input) == Success(Some(Objects.Object.Integer(0)))
    ensures Run(input).value.value.Inspect() == "0"
  {
    FiveSpelling();
    var xs := [Spaced("", MINUS), Spaced("", INT(5)), Spaced(" ", PLUS), Spaced(" ", INT(5))];
    assert Layout(xs) == input;
    var e := InfixExpression(PLUS, "PLUS", Negate(Five()), Some(Five()));
    assert Render(e) == TokensOf(xs);
    RunTower(input, xs, e, Some(Objects.Object.Integer(0)));
    ZeroText();
  }

  lemma FiveText()
    ensures Objects.Object.Integer(5).Inspect() == "5"
    ensures Objects.Object.Integer(-5).Inspect() == "-5"
  {
    assert NatToString(5) == [DigitChar(5)];
  }

  lemma ZeroText()
    ensures Objects.Object.Integer(0).Inspect() == "0"
  {
    assert IntToString(0) == NatToString(0) == [DigitChar(0)];
  }
}
