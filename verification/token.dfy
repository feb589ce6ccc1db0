/** The token vocabulary shared by the lexer and the parser, and the binding
    power the Pratt parser gives each token. */
module Tokens {
  import opened Decimal

  /** One lexical unit. Identifiers carry their text and integer literals their
      (unsigned 64-bit) value; every other token carries nothing. */
  datatype Token =
    | ILLEGAL
    | EOF
      // Identifiers and literals
    | IDENT(name: string)
    | INT(number: u64)
    | STRING(text: string)
      // Operators
    | ASSIGN
    | PLUS
    | MINUS
    | GT
    | LT
    | BANG
    | ASTERISK
    | SLASH
    | EQ
    | NOT_EQ
      // Delimiters
    | COMMA
    | SEMICOLON
    | LPAREN
    | RPAREN
    | LBRACE
    | RBRACE
      // Keywords
    | FUNCTION
    | LET
    | WHILE
    | FOR
    | LOOP
    | TRUE
    | FALSE
    | RETURN
    | IF
    | ELSE

  /** Binding power of an operator. Only the order of the levels means anything. */
  datatype Precedence = Lowest | Equals | LessGreater | Sum | Product | Prefix | Call {

    /** The discriminant the enum declares; the derived ordering compares these. */
    function Level(): nat {
      match this
      case Lowest => 1
      case Equals => 2
      case LessGreater => 3
      case Sum => 4
      case Product => 5
      case Prefix => 6
      case Call => 7
    }
  }

  /** The binary operators the parser builds infix expressions for. */
  predicate IsBinaryOperator(t: Token) {
    t in {PLUS, MINUS, SLASH, ASTERISK, EQ, NOT_EQ, LT, GT}
  }

  /** The precedence table the parser consults for the token after the cursor. */
  function GetPrecedence(t: Token): (p: Precedence)
    ensures p != Prefix
    ensures p == Lowest <==> !IsBinaryOperator(t) && t != LPAREN
    ensures IsBinaryOperator(t) ==> Equals.Level() <= p.Level() <= Product.Level()
    ensures t == LPAREN ==> p == Call
  {
    match t
    case EQ => Equals
    case NOT_EQ => Equals
    case GT => LessGreater
    case LT => LessGreater
    case PLUS => Sum
    case MINUS => Sum
    case SLASH => Product
    case ASTERISK => Product
    case LPAREN => Call
    case _ => Lowest
  }

  /** The binding power of every token that has one: equality below comparison,
      comparison below the additive operators, those below the multiplicative
      ones, and a call's `(` above them all. */
  lemma PrecedenceTable(t: Token)
    ensures t == EQ || t == NOT_EQ ==> GetPrecedence(t) == Equals
    ensures t == LT || t == GT ==> GetPrecedence(t) == LessGreater
    ensures t == PLUS || t == MINUS ==> GetPrecedence(t) == Sum
    ensures t == SLASH || t == ASTERISK ==> GetPrecedence(t) == Product
    ensures t == LPAREN ==> GetPrecedence(t) == Call
    ensures t != LPAREN && !IsBinaryOperator(t) ==> GetPrecedence(t) == Lowest
  {
  }

  /** The levels are strictly increasing from Lowest to Call. */
  lemma PrecedenceOrder()
    ensures Lowest.Level() < Equals.Level() < LessGreater.Level() < Sum.Level()
    ensures Sum.Level() < Product.Level() < Prefix.Level() < Call.Level()
    ensures forall p: Precedence :: Lowest.Level() <= p.Level() <= Call.Level()
  {
  }
}
