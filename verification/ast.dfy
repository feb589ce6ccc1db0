/** The syntax tree. The node kinds are the ones the parser constructs and the
    evaluator matches on; every node keeps the token it was built from. */
module Ast {
  import opened Wrappers
  import opened Decimal
  import opened Tokens

  /** Asking for a token literal where there is none panics in the source. */
  datatype AstError = ExpectedValidToken

  datatype Node =
    | LetStatement(token: Token, name: Node, value: Node)
    | ReturnStatement(token: Token, result: Option<Node>)
    | Identifier(token: Token, ident: string)
    | IntegerLiteral(token: Token, literal: u64)
    | Boolean(token: Token, truth: bool)
    | PrefixExpression(token: Token, operator: string, right: Option<Node>)
    | InfixExpression(token: Token, operator: string, left: Node, right: Option<Node>)
    | FunctionLiteral(token: Token, parameters: seq<Node>, body: Node)
    | CallExpression(token: Token, callee: Node, arguments: seq<Node>)
    | BlockStatement(token: Token, statements: seq<Node>)
    | Expression(value: Node)
  {
    /** Only `let` and `return` statements answer with their token. */
    function TokenLiteral(): (r: Result<Token, AstError>)
      ensures r.Success? <==> LetStatement? || ReturnStatement?
      ensures r.Success? ==> r.value == token
    {
      match this
      case LetStatement(t, _, _) => Success(t)
      case ReturnStatement(t, _) => Success(t)
      case _ => Failure(ExpectedValidToken)
    }
  }

  /** The top-level statements in source order. */
  datatype Program = Program(statements: seq<Node>) {

    /** A program with no statements. */
    static function New(): (p: Program)
      ensures |p.statements| == 0
      ensures p.TokenLiteral().Failure?
    {
      Program([])
    }

    /** The token literal of the first statement; an empty program has none. */
    function TokenLiteral(): (r: Result<Token, AstError>)
      ensures statements == [] ==> r.Failure?
      ensures statements != [] ==> r == statements[0].TokenLiteral()
    {
      if statements == [] then Failure(ExpectedValidToken) else statements[0].TokenLiteral()
    }
  }
}
