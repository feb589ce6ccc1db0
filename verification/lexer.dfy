/** The lexer: turns source text into tokens, one `NextToken` call at a time.
    The lexer state is the input that has not been read yet. Character classes
    are the ASCII ones. */
module Lexer {
  import opened Wrappers
  import opened Decimal
  import opened Tokens

  /** `read_number` panics when a digit run does not fit in a `u64`. */
  datatype LexError = NumberTooLarge(digits: string)

  /** A token and the input left after it. */
  datatype Lexed = Lexed(token: Token, rest: string)

  predicate IsWhitespace(c: char) {
    c == ' ' || '\t' <= c <= '\r'
  }

  predicate IsAlphabetic(c: char) {
    'a' <= c <= 'z' || 'A' <= c <= 'Z'
  }

  /** Characters that may continue an identifier. */
  predicate ValidIdentifier(c: char) {
    IsAlphabetic(c) || c == '_'
  }

  /** `s` ends with `t`. */
  predicate IsSuffix(t: string, s: string) {
    |t| <= |s| && t == s[|s| - |t|..]
  }

  /** Drops the leading whitespace of `s`. */
  function SkipWhitespace(s: string): (t: string)
    ensures IsSuffix(t, s)
    ensures forall i | 0 <= i < |s| - |t| :: IsWhitespace(s[i])
    ensures t == [] || !IsWhitespace(t[0])
  {
    if s != [] && IsWhitespace(s[0]) then SkipWhitespace(s[1..]) else s
  }

  /** The number of identifier characters `read_identifier` consumes after the first letter. */
  function ReadIdentifier(s: string): (k: nat)
    ensures k <= |s|
    ensures forall i | 0 <= i < k :: ValidIdentifier(s[i])
    ensures k == |s| || !ValidIdentifier(s[k])
  {
    if s != [] && ValidIdentifier(s[0]) then 1 + ReadIdentifier(s[1..]) else 0
  }

  /** The number of digits `read_number` consumes after the first digit. */
  function ReadNumber(s: string): (k: nat)
    ensures k <= |s|
    ensures forall i | 0 <= i < k :: IsDigit(s[i])
    ensures k == |s| || !IsDigit(s[k])
  {
    if s != [] && IsDigit(s[0]) then 1 + ReadNumber(s[1..]) else 0
  }

  /** The ten reserved words and their tokens. */
  function Keyword(word: string): Option<Token> {
    if word == "let" then Some(LET)
    else if word == "fn" then Some(FUNCTION)
    else if word == "while" then Some(WHILE)
    else if word == "for" then Some(FOR)
    else if word == "loop" then Some(LOOP)
    else if word == "true" then Some(TRUE)
    else if word == "false" then Some(FALSE)
    else if word == "if" then Some(IF)
    else if word == "else" then Some(ELSE)
    else if word == "return" then Some(RETURN)
    else None
  }

  /** A scanned word is a keyword token or an identifier carrying exactly that word. */
  function DetermineIdent(word: string): (t: Token)
    ensures Keyword(word).Some? ==> t == Keyword(word).value
    ensures Keyword(word).None? ==> t == IDENT(word)
  {
    if word == "let" then LET
    else if word == "fn" then FUNCTION
    else if word == "while" then WHILE
    else if word == "for" then FOR
    else if word == "loop" then LOOP
    else if word == "true" then TRUE
    else if word == "false" then FALSE
    else if word == "if" then IF
    else if word == "else" then ELSE
    else if word == "return" then RETURN
    else IDENT(word)
  }

  /** The single-character tokens. */
  function SingleCharToken(c: char): Option<Token> {
    match c
    case ';' => Some(SEMICOLON)
    case '(' => Some(LPAREN)
    case ')' => Some(RPAREN)
    case ',' => Some(COMMA)
    case '+' => Some(PLUS)
    case '{' => Some(LBRACE)
    case '}' => Some(RBRACE)
    case '>' => Some(GT)
    case '<' => Some(LT)
    case '-' => Some(MINUS)
    case '*' => Some(ASTERISK)
    case '/' => Some(SLASH)
    case _ => None
  }

  /** Reads the token that starts at the first character of `t`, which is not whitespace. */
  function ScanToken(t: string): (r: Result<Lexed, LexError>)
    requires t != [] && !IsWhitespace(t[0])
    ensures r.Success? ==> |r.value.rest| < |t| && IsSuffix(r.value.rest, t)
    ensures r.Success? ==> !r.value.token.EOF? && !r.value.token.STRING?
    ensures r.Failure? ==> IsDigit(t[0])
    ensures !IsAlphabetic(t[0]) && !IsDigit(t[0]) && t[0] !in {'=', '!'} && SingleCharToken(t[0]).None?
            ==> r == Success(Lexed(ILLEGAL, t[1..]))
  {
    var c := t[0];
    if c == '=' then
      if 1 < |t| && t[1] == '=' then Success(Lexed(EQ, t[2..])) else Success(Lexed(ASSIGN, t[1..]))
    else if c == '!' then
      if 1 < |t| && t[1] == '=' then Success(Lexed(NOT_EQ, t[2..])) else Success(Lexed(BANG, t[1..]))
    else if SingleCharToken(c).Some? then
      Success(Lexed(SingleCharToken(c).value, t[1..]))
    else if IsAlphabetic(c) then
      var n := 1 + ReadIdentifier(t[1..]);
      Success(Lexed(DetermineIdent(t[..n]), t[n..]))
    else if IsDigit(c) then
      var n := 1 + ReadNumber(t[1..]);
      match ParseU64(t[..n])
      case Some(v) => Success(Lexed(INT(v), t[n..]))
      case None => Failure(NumberTooLarge(t[..n]))
    else
      Success(Lexed(ILLEGAL, t[1..]))
  }

  /** Skips whitespace and reads one token. `Success(None)` is the end of input;
      there is no EOF token. */
  function NextToken(s: string): (r: Result<Option<Lexed>, LexError>)
    ensures r.Success? && r.value.Some? ==> |r.value.value.rest| < |s| && IsSuffix(r.value.value.rest, s)
    ensures r.Success? && r.value.Some? ==> !r.value.value.token.EOF? && !r.value.value.token.STRING?
    ensures r == Success(None) <==> forall i | 0 <= i < |s| :: IsWhitespace(s[i])
  {
    var t := SkipWhitespace(s);
    if t == [] then Success(None)
    else
      var x :- ScanToken(t);
      Success(Some(x))
  }

  /** Drains the `Iterator` impl: every token up to the end of input. */
  function Tokenize(s: string): (r: Result<seq<Token>, LexError>)
    ensures r.Success? ==> |r.value| <= |s|
    decreases |s|
  {
    var step := NextToken(s);
    if step.Failure? then Failure(step.error)
    else if step.value.None? then Success([])
    else
      var Lexed(t, rest) := step.value.value;
      var more := Tokenize(rest);
      if more.Failure? then more else Success([t] + more.value)
  }
}
