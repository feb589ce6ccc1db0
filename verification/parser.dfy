/** The Pratt parser. Its state is the token sequence and the index of the
    current token; `Cur` and `Peek` read the current and the next token and
    `Advance` is `next_token`. Each parsing function returns the node it built
    (or `None` where the source returns `None`) together with the index it left
    the cursor at, or the reason the source panics. */
module Parser {
  import opened Wrappers
  import opened Tokens
  import opened Ast

  /** The panics of the parser, one per distinct cause. */
  datatype ParseError =
    | NoCurrentToken       // an expression or statement was requested at the end of the tokens
    | ExpectedIdentifier   // `let` not followed by a name
    | ExpectedAssign       // `let name` not followed by `=`
    | LetWithoutValue      // `let name =` whose value does not parse
    | UnexpectedOperator   // `operator_from_tok` on a token without an operator name
    | ExpectedParameter    // a function parameter that is not an identifier
    | UnclosedParameters   // a parameter list not closed by `)`
    | MissingArgument      // a call argument that does not parse

  /** What a parsing function built and where it left the cursor. */
  datatype Parsed<+T> = Parsed(node: T, pos: nat)

  type Outcome<T> = Result<Parsed<T>, ParseError>

  function Cur(toks: seq<Token>, pos: nat): Option<Token> {
    if pos < |toks| then Some(toks[pos]) else None
  }

  function Peek(toks: seq<Token>, pos: nat): Option<Token> {
    Cur(toks, pos + 1)
  }

  /** `next_token`. Past the end the cursor stays where it is, since every
      position there reads as no token. */
  function Advance(toks: seq<Token>, pos: nat): (q: nat)
    requires pos <= |toks|
    ensures q <= |toks|
    ensures pos < |toks| ==> q == pos + 1
  {
    if pos < |toks| then pos + 1 else pos
  }

  /** The precedence of the next token; none reads as Lowest. */
  function PeekPrecedence(toks: seq<Token>, pos: nat): Precedence {
    match Peek(toks, pos)
    case Some(t) => GetPrecedence(t)
    case None => Lowest
  }

  /** The cursor only moves forward and stays within the tokens. */
  predicate Moves<T>(toks: seq<Token>, pos: nat, r: Outcome<T>) {
    r.Success? ==> pos <= r.value.pos <= |toks|
  }

  /** Operands are parsed at a precedence; a node that results from an infix
      step (a binary operation or a call) binds tighter than that precedence. */
  predicate BindsTighter(n: Node, prec: Precedence) {
    match n
    case InfixExpression(tok, _, _, _) => prec.Level() < GetPrecedence(tok).Level()
    case CallExpression(tok, _, _) => prec.Level() < GetPrecedence(tok).Level()
    case _ => true
  }

  /** The shape every tree the parser builds has: an infix node is a binary
      operator whose right operand binds tighter than the operator itself, a
      prefix operand binds tighter than Prefix, and calls are built from `(`. */
  predicate WellBound(n: Node)
    decreases n
  {
    match n
    case LetStatement(_, _, value) => WellBound(value)
    case ReturnStatement(_, result) => result.Some? ==> WellBound(result.value)
    case PrefixExpression(_, _, right) =>
      right.Some? ==> BindsTighter(right.value, Prefix) && WellBound(right.value)
    case InfixExpression(tok, _, left, right) =>
      && IsBinaryOperator(tok)
      && WellBound(left)
      && (right.Some? ==> BindsTighter(right.value, GetPrecedence(tok)) && WellBound(right.value))
    case FunctionLiteral(_, _, body) => WellBound(body)
    case CallExpression(tok, callee, arguments) =>
      && tok == LPAREN
      && WellBound(callee)
      && forall i | 0 <= i < |arguments| :: WellBound(arguments[i])
    case BlockStatement(_, statements) => forall i | 0 <= i < |statements| :: WellBound(statements[i])
    case Expression(value) => WellBound(value)
    case _ => true
  }

  predicate AllWellBound(ns: seq<Node>) {
    forall i | 0 <= i < |ns| :: WellBound(ns[i])
  }

  /** `Option<Node>` results that are present are well bound. */
  predicate SomeWellBound(n: Option<Node>) {
    n.Some? ==> WellBound(n.value)
  }

  /** The operator name `operator_from_tok` gives a token. */
  function OperatorFromTok(tok: Token): (r: Result<string, ParseError>)
    ensures r.Success? <==> tok in {PLUS, MINUS, GT, LT, BANG, ASTERISK, SLASH}
  {
    match tok
    case PLUS => Success("PLUS")
    case MINUS => Success("MINUS")
    case GT => Success("GT")
    case LT => Success("LT")
    case BANG => Success("BANG")
    case ASTERISK => Success("ASTERISK")
    case SLASH => Success("SLASH")
    case _ => Failure(UnexpectedOperator)
  }

  /** The name `operator_from_tok` gives each operator token is the token's
      own name, which is what the evaluator dispatches on. */
  lemma OperatorNames(tok: Token)
    ensures tok == PLUS ==> OperatorFromTok(tok) == Success("PLUS")
    ensures tok == MINUS ==> OperatorFromTok(tok) == Success("MINUS")
    ensures tok == GT ==> OperatorFromTok(tok) == Success("GT")
    ensures tok == LT ==> OperatorFromTok(tok) == Success("LT")
    ensures tok == BANG ==> OperatorFromTok(tok) == Success("BANG")
    ensures tok == ASTERISK ==> OperatorFromTok(tok) == Success("ASTERISK")
    ensures tok == SLASH ==> OperatorFromTok(tok) == Success("SLASH")
  {
  }

  /** `parse_program`: statements until the tokens run out, keeping those that parsed to a node. */
  function ParseProgram(toks: seq<Token>): (r: Result<Program, ParseError>)
    ensures toks == [] ==> r == Success(Program([]))
    ensures r.Success? ==> AllWellBound(r.value.statements)
  {
    ProgramLoop(toks, 0, [])
  }

  function ProgramLoop(toks: seq<Token>, pos: nat, acc: seq<Node>): (r: Result<Program, ParseError>)
    requires pos <= |toks|
    ensures r.Success? ==> acc <= r.value.statements
    ensures r.Success? && AllWellBound(acc) ==> AllWellBound(r.value.statements)
    decreases |toks| - pos
  {
    if pos == |toks| then Success(Program(acc))
    else
      var st :- ParseStatement(toks, pos);
      var acc' := if st.node.Some? then acc + [st.node.value] else acc;
      ProgramLoop(toks, Advance(toks, st.pos), acc')
  }

  /** `parse_statement`: dispatch on the current token. */
  function ParseStatement(toks: seq<Token>, pos: nat): (r: Outcome<Option<Node>>)
    requires pos <= |toks|
    ensures Moves(toks, pos, r)
    ensures r.Success? ==> pos < |toks| && SomeWellBound(r.value.node)
    ensures r.Success? && toks[pos] == LET ==> r.value.node.Some? && r.value.node.value.LetStatement?
    ensures r.Success? && toks[pos] == RETURN ==> r.value.node.Some? && r.value.node.value.ReturnStatement?
    ensures r.Success? && toks[pos] == LBRACE ==> r.value.node.Some? && r.value.node.value.BlockStatement?
    decreases |toks| - pos, 9
  {
    match Cur(toks, pos)
    case Some(LET) =>
      var st :- ParseLetStatement(toks, pos);
      Success(Parsed(Some(st.node), st.pos))
    case Some(RETURN) =>
      var st :- ParseReturnStatement(toks, pos);
      Success(Parsed(Some(st.node), st.pos))
    case Some(LBRACE) =>
      var st :- ParseBlockStatement(toks, pos);
      Success(Parsed(Some(st.node), st.pos))
    case _ => ParseExpressionStatement(toks, pos)
  }

  /** `parse_let_statement`: `let`, an identifier, `=`, then a value that must parse. */
  function ParseLetStatement(toks: seq<Token>, pos: nat): (r: Outcome<Node>)
    requires pos <= |toks|
    ensures Moves(toks, pos, r)
    ensures !(Peek(toks, pos).Some? && Peek(toks, pos).value.IDENT?) ==> r == Failure(ExpectedIdentifier)
    ensures Peek(toks, pos).Some? && Peek(toks, pos).value.IDENT? && Peek(toks, pos + 1) != Some(ASSIGN)
            ==> r == Failure(ExpectedAssign)
    ensures Peek(toks, pos).Some? && Peek(toks, pos).value.IDENT? && Peek(toks, pos + 1) == Some(ASSIGN) ==>
              var value := ParseExpression(toks, pos + 3, Lowest);
              && (value.Failure? ==> r == Failure(value.error))
              && (value.Success? && value.value.node.None? ==> r == Failure(LetWithoutValue))
              && (value.Success? && value.value.node.Some? ==>
                    r.Success? && r.value.node.LetStatement? && r.value.node.value == value.value.node.value)
    ensures r.Success? ==>
              && pos + 2 < |toks| && toks[pos + 1].IDENT? && toks[pos + 2] == ASSIGN
              && r.value.node.LetStatement?
              && r.value.node.token == toks[pos]
              && r.value.node.name == Identifier(toks[pos + 1], toks[pos + 1].name)
              && WellBound(r.value.node)
    decreases |toks| - pos, 8
  {
    match Peek(toks, pos)
    case Some(IDENT(name)) =>
      var p1 := Advance(toks, pos);
      var ident := Identifier(toks[p1], name);
      if Peek(toks, p1) != Some(ASSIGN) then Failure(ExpectedAssign)
      else
        var value :- ParseExpression(toks, Advance(toks, Advance(toks, p1)), Lowest);
        var q := if Peek(toks, value.pos) == Some(SEMICOLON) then Advance(toks, Advance(toks, value.pos)) else value.pos;
        if value.node.None? then Failure(LetWithoutValue)
        else Success(Parsed(LetStatement(toks[pos], ident, value.node.value), q))
    case _ => Failure(ExpectedIdentifier)
  }

  /** `parse_return_statement`: `return` and an optional value. */
  function ParseReturnStatement(toks: seq<Token>, pos: nat): (r: Outcome<Node>)
    requires pos <= |toks|
    ensures Moves(toks, pos, r)
    ensures r.Success? ==> pos < |toks| && r.value.node.ReturnStatement? && r.value.node.token == toks[pos]
    ensures r.Success? ==> WellBound(r.value.node)
    decreases |toks| - pos, 8
  {
    if pos == |toks| then Failure(NoCurrentToken)
    else
      var value :- ParseExpression(toks, Advance(toks, pos), Lowest);
      Success(Parsed(ReturnStatement(toks[pos], value.node), value.pos))
  }

  /** `parse_block_statement`: statements after the `{` until one parses to `None`. */
  function ParseBlockStatement(toks: seq<Token>, pos: nat): (r: Outcome<Node>)
    requires pos < |toks|
    ensures Moves(toks, pos, r)
    ensures r.Success? ==> r.value.node.BlockStatement? && r.value.node.token == LBRACE
    ensures r.Success? ==> WellBound(r.value.node)
    decreases |toks| - pos, 8
  {
    var body :- BlockLoop(toks, Advance(toks, pos), []);
    Success(Parsed(BlockStatement(LBRACE, body.node), body.pos))
  }

  function BlockLoop(toks: seq<Token>, pos: nat, acc: seq<Node>): (r: Outcome<seq<Node>>)
    requires pos <= |toks|
    ensures Moves(toks, pos, r)
    ensures r.Success? ==> acc <= r.value.node
    ensures r.Success? && AllWellBound(acc) ==> AllWellBound(r.value.node)
    decreases |toks| - pos, 10
  {
    var st :- ParseStatement(toks, pos);
    match st.node
    case None => Success(Parsed(acc, st.pos))
    case Some(s) => BlockLoop(toks, Advance(toks, st.pos), acc + [s])
  }

  /** `parse_expression_statement`: an expression and an optional `;`. */
  function ParseExpressionStatement(toks: seq<Token>, pos: nat): (r: Outcome<Option<Node>>)
    requires pos <= |toks|
    ensures Moves(toks, pos, r)
    ensures r.Success? ==> pos < |toks| && SomeWellBound(r.value.node)
    decreases |toks| - pos, 8
  {
    var e :- ParseExpression(toks, pos, Lowest);
    var q := if Peek(toks, e.pos) == Some(SEMICOLON) then Advance(toks, e.pos) else e.pos;
    Success(Parsed(e.node, q))
  }

  /** `parse_expression`: a prefix rule for the current token, then infix steps
      while the next token binds tighter than `prec` (or is a `;`). */
  function ParseExpression(toks: seq<Token>, pos: nat, prec: Precedence): (r: Outcome<Option<Node>>)
    requires pos <= |toks|
    ensures Moves(toks, pos, r)
    ensures pos == |toks| ==> r == Failure(NoCurrentToken)
    ensures r.Success? ==> pos < |toks| && SomeWellBound(r.value.node)
    ensures r.Success? && r.value.node.Some? ==> BindsTighter(r.value.node.value, prec)
    decreases |toks| - pos, 7
  {
    if pos == |toks| then Failure(NoCurrentToken)
    else
      var left :- PrefixParse(toks, pos);
      match left.node
      case None => Success(Parsed(None, left.pos))
      case Some(l) =>
        var e :- InfixLoop(toks, left.pos, prec, l);
        Success(Parsed(Some(e.node), e.pos))
  }

  /** The loop of `parse_expression`. A `;` ahead is always stepped onto and
      ends the loop through `infix_parse`; after a successful infix step the
      cursor advances once more. */
  function InfixLoop(toks: seq<Token>, pos: nat, prec: Precedence, left: Node): (r: Outcome<Node>)
    requires pos <= |toks|
    requires WellBound(left)
    ensures Moves(toks, pos, r)
    ensures r.Success? ==> WellBound(r.value.node)
    ensures r.Success? && BindsTighter(left, prec) ==> BindsTighter(r.value.node, prec)
    decreases |toks| - pos, 6
  {
    if Peek(toks, pos) != Some(SEMICOLON) && prec.Level() >= PeekPrecedence(toks, pos).Level() then
      Success(Parsed(left, pos))
    else
      var q := Advance(toks, pos);
      var step :- InfixParse(toks, q, left);
      match step.node
      case None => Success(Parsed(left, step.pos))
      case Some(l) => InfixLoop(toks, Advance(toks, step.pos), prec, l)
  }

  /** `prefix_parse` for the current token. */
  function PrefixParse(toks: seq<Token>, pos: nat): (r: Outcome<Option<Node>>)
    requires pos < |toks|
    ensures Moves(toks, pos, r)
    ensures r.Success? ==> SomeWellBound(r.value.node)
    ensures r.Success? && r.value.node.Some? ==> BindsTighter(r.value.node.value, Call)
    decreases |toks| - pos, 6
  {
    var tok := toks[pos];
    match tok
    case IDENT(name) => Success(Parsed(Some(Identifier(tok, name)), pos))
    case INT(i) => Success(Parsed(Some(IntegerLiteral(tok, i)), pos))
    case TRUE => Success(Parsed(Some(Boolean(tok, true)), pos))
    case FALSE => Success(Parsed(Some(Boolean(tok, false)), pos))
    case MINUS =>
      var e :- ParsePrefixExpression(toks, pos);
      Success(Parsed(Some(e.node), e.pos))
    case BANG =>
      var e :- ParsePrefixExpression(toks, pos);
      Success(Parsed(Some(e.node), e.pos))
    case FUNCTION => ParseFunctionLiteral(toks, pos)
    case _ => Success(Parsed(None, pos))
  }

  /** `parse_prefix_expression`: the operand is parsed at Prefix precedence. */
  function ParsePrefixExpression(toks: seq<Token>, pos: nat): (r: Outcome<Node>)
    requires pos < |toks|
    ensures Moves(toks, pos, r)
    ensures r.Success? ==> r.value.node.PrefixExpression? && r.value.node.token == toks[pos]
    ensures r.Success? && toks[pos] == MINUS ==> r.value.node.operator == "MINUS"
    ensures r.Success? && toks[pos] == BANG ==> r.value.node.operator == "BANG"
    ensures r.Success? ==> WellBound(r.value.node)
    decreases |toks| - pos, 5
  {
    var tok := toks[pos];
    var right :- ParseExpression(toks, Advance(toks, pos), Prefix);
    var op :- OperatorFromTok(tok);
    Success(Parsed(PrefixExpression(tok, op, right.node), right.pos))
  }

  /** `parse_function_literal`, entered on `fn`: a name token, `(`, parameters,
      then a block. Without the `(` or the `{` there is no literal. */
  function ParseFunctionLiteral(toks: seq<Token>, pos: nat): (r: Outcome<Option<Node>>)
    requires pos < |toks|
    ensures Moves(toks, pos, r)
    ensures r.Success? ==> SomeWellBound(r.value.node)
    ensures r.Success? && r.value.node.Some? ==>
              && pos + 2 < |toks| && toks[pos + 2] == LPAREN
              && r.value.node.value.FunctionLiteral?
              && r.value.node.value.token == toks[pos + 1]
    decreases |toks| - pos, 5
  {
    var p1 := Advance(toks, pos);
    if Peek(toks, p1) != Some(LPAREN) then Success(Parsed(None, p1))
    else
      var params :- ParseFunctionParameters(toks, Advance(toks, p1));
      if Peek(toks, params.pos) != Some(LBRACE) then Success(Parsed(None, params.pos))
      else
        var body :- ParseBlockStatement(toks, Advance(toks, params.pos));
        Success(Parsed(Some(FunctionLiteral(toks[p1], params.node, body.node)), body.pos))
  }

  /** A parameter: an identifier node built from the token it names. */
  predicate IsParameter(n: Node) {
    n.Identifier? && n.token == IDENT(n.ident)
  }

  /** `parse_function_parameters`, entered on `(`: `)` alone, or identifiers
      separated by `,` and closed by `)`. */
  function ParseFunctionParameters(toks: seq<Token>, pos: nat): (r: Outcome<seq<Node>>)
    requires pos <= |toks|
    ensures Moves(toks, pos, r)
    ensures r.Success? ==> forall i | 0 <= i < |r.value.node| :: IsParameter(r.value.node[i])
    ensures Peek(toks, pos) == Some(RPAREN) ==> r == Success(Parsed([], pos + 1))
    ensures Peek(toks, pos) != Some(RPAREN) && !(Peek(toks, pos).Some? && Peek(toks, pos).value.IDENT?)
            ==> r == Failure(ExpectedParameter)
  {
    if Peek(toks, pos) == Some(RPAREN) then Success(Parsed([], Advance(toks, pos)))
    else
      var p1 := Advance(toks, pos);
      match Cur(toks, p1)
      case Some(IDENT(name)) => ParametersLoop(toks, p1, [Identifier(toks[p1], name)])
      case _ => Failure(ExpectedParameter)
  }

  function ParametersLoop(toks: seq<Token>, pos: nat, acc: seq<Node>): (r: Outcome<seq<Node>>)
    requires pos <= |toks|
    requires forall i | 0 <= i < |acc| :: IsParameter(acc[i])
    ensures Moves(toks, pos, r)
    ensures r.Success? ==> acc <= r.value.node
    ensures r.Success? ==> forall i | 0 <= i < |r.value.node| :: IsParameter(r.value.node[i])
    ensures Peek(toks, pos) == Some(RPAREN) ==> r == Success(Parsed(acc, pos + 1))
    ensures Peek(toks, pos) == Some(COMMA) && !(Peek(toks, pos + 1).Some? && Peek(toks, pos + 1).value.IDENT?)
            ==> r == Failure(ExpectedParameter)
    ensures Peek(toks, pos) != Some(COMMA) && Peek(toks, pos) != Some(RPAREN) ==> r == Failure(UnclosedParameters)
    decreases |toks| - pos
  {
    if Peek(toks, pos) == Some(COMMA) then
      var p2 := Advance(toks, Advance(toks, pos));
      match Cur(toks, p2)
      case Some(IDENT(name)) => ParametersLoop(toks, p2, acc + [Identifier(toks[p2], name)])
      case _ => Failure(ExpectedParameter)
    else if Peek(toks, pos) == Some(RPAREN) then Success(Parsed(acc, Advance(toks, pos)))
    else Failure(UnclosedParameters)
  }

  /** `infix_parse` on the current token: a binary operator or a call, and
      `None` for every other token. */
  function InfixParse(toks: seq<Token>, pos: nat, left: Node): (r: Outcome<Option<Node>>)
    requires pos < |toks|
    requires WellBound(left)
    ensures Moves(toks, pos, r)
    ensures r.Success? ==> SomeWellBound(r.value.node)
    ensures r.Success? && r.value.node.Some? ==>
              && (r.value.node.value.InfixExpression? || r.value.node.value.CallExpression?)
              && r.value.node.value.token == toks[pos]
    decreases |toks| - pos, 5
  {
    if IsBinaryOperator(toks[pos]) then
      var e :- ParseInfixExpression(toks, pos, left);
      Success(Parsed(Some(e.node), e.pos))
    else if toks[pos] == LPAREN then
      var e :- ParseCallExpression(toks, pos, left);
      Success(Parsed(Some(e.node), e.pos))
    else Success(Parsed(None, pos))
  }

  /** `parse_infix_expression`: the right operand is parsed at the operator's own precedence. */
  function ParseInfixExpression(toks: seq<Token>, pos: nat, left: Node): (r: Outcome<Node>)
    requires pos < |toks| && IsBinaryOperator(toks[pos])
    requires WellBound(left)
    ensures Moves(toks, pos, r)
    ensures toks[pos] in {EQ, NOT_EQ} ==> r.Failure?
    ensures r.Success? ==>
              && r.value.node.InfixExpression?
              && r.value.node.token == toks[pos]
              && r.value.node.left == left
              && WellBound(r.value.node)
    decreases |toks| - pos, 4
  {
    var tok := toks[pos];
    var right :- ParseExpression(toks, Advance(toks, pos), GetPrecedence(tok));
    var op :- OperatorFromTok(tok);
    Success(Parsed(InfixExpression(tok, op, left, right.node), right.pos))
  }

  /** `parse_call_expression`, entered on `(`: the callee and its arguments. */
  function ParseCallExpression(toks: seq<Token>, pos: nat, callee: Node): (r: Outcome<Node>)
    requires pos < |toks| && toks[pos] == LPAREN
    requires WellBound(callee)
    ensures Moves(toks, pos, r)
    ensures r.Success? ==>
              && r.value.node.CallExpression?
              && r.value.node.token == LPAREN
              && r.value.node.callee == callee
              && WellBound(r.value.node)
    decreases |toks| - pos, 4
  {
    var args :- ParseCallArguments(toks, pos);
    Success(Parsed(CallExpression(toks[pos], callee, args.node), args.pos))
  }

  /** `parse_call_arguments`, entered on `(`: `)` alone, or expressions separated
      by `,`; every argument must parse. */
  function ParseCallArguments(toks: seq<Token>, pos: nat): (r: Outcome<seq<Node>>)
    requires pos < |toks|
    ensures Moves(toks, pos, r)
    ensures r.Success? ==> AllWellBound(r.value.node)
    ensures Peek(toks, pos) == Some(RPAREN) ==> r == Success(Parsed([], pos + 1))
    ensures Peek(toks, pos) != Some(RPAREN) ==>
              var first := ParseExpression(toks, pos + 1, Lowest);
              && (first.Failure? ==> r == Failure(first.error))
              && (first.Success? && first.value.node.None? ==> r == Failure(MissingArgument))
    decreases |toks| - pos, 3
  {
    if Peek(toks, pos) == Some(RPAREN) then Success(Parsed([], Advance(toks, pos)))
    else
      var first :- ParseExpression(toks, Advance(toks, pos), Lowest);
      if first.node.None? then Failure(MissingArgument)
      else ArgumentsLoop(toks, first.pos, [first.node.value])
  }

  function ArgumentsLoop(toks: seq<Token>, pos: nat, acc: seq<Node>): (r: Outcome<seq<Node>>)
    requires pos <= |toks|
    ensures Moves(toks, pos, r)
    ensures r.Success? ==> acc <= r.value.node
    ensures r.Success? && AllWellBound(acc) ==> AllWellBound(r.value.node)
    ensures Peek(toks, pos) == Some(COMMA) ==>
              var arg := ParseExpression(toks, pos + 2, Lowest);
              && (arg.Failure? ==> r == Failure(arg.error))
              && (arg.Success? && arg.value.node.None? ==> r == Failure(MissingArgument))
    ensures Peek(toks, pos) != Some(COMMA) ==> r == Success(Parsed(acc, Advance(toks, pos)))
    decreases |toks| - pos, 2
  {
    if Peek(toks, pos) == Some(COMMA) then
      var arg :- ParseExpression(toks, Advance(toks, Advance(toks, pos)), Lowest);
      if arg.node.None? then Failure(MissingArgument)
      else ArgumentsLoop(toks, arg.pos, acc + [arg.node.value])
    else Success(Parsed(acc, Advance(toks, pos)))
  }
}
