/** Properties of the lexer: how each token is read, and that spelling a
    sequence of tokens with whitespace between them lexes back to the same
    sequence. */
module LexerProps {
  import opened Wrappers
  import opened Decimal
  import opened Tokens
  import opened Lexer

  predicate AllWhitespace(s: string) {
    forall i | 0 <= i < |s| :: IsWhitespace(s[i])
  }

  /** A word the identifier scanner reads in one piece: a letter, then letters or `_`. */
  predicate IsWord(w: string) {
    w != [] && IsAlphabetic(w[0]) && forall i | 1 <= i < |w| :: ValidIdentifier(w[i])
  }

  /** Tokens that have a spelling in source text. */
  predicate Spellable(t: Token) {
    match t
    case ILLEGAL => false
    case EOF => false
    case STRING(_) => false
    case IDENT(name) => IsWord(name) && Keyword(name).None?
    case _ => true
  }

  /** The text of a spellable token. */
  function Spell(t: Token): (s: string)
    requires Spellable(t)
    ensures s != [] && !IsWhitespace(s[0])
  {
    match t
    case IDENT(name) => name
    case INT(n) => NatToString(n)
    case ASSIGN => "="
    case PLUS => "+"
    case MINUS => "-"
    case GT => ">"
    case LT => "<"
    case BANG => "!"
    case ASTERISK => "*"
    case SLASH => "/"
    case EQ => "=="
    case NOT_EQ => "!="
    case COMMA => ","
    case SEMICOLON => ";"
    case LPAREN => "("
    case RPAREN => ")"
    case LBRACE => "{"
    case RBRACE => "}"
    case FUNCTION => "fn"
    case LET => "let"
    case WHILE => "while"
    case FOR => "for"
    case LOOP => "loop"
    case TRUE => "true"
    case FALSE => "false"
    case RETURN => "return"
    case IF => "if"
    case ELSE => "else"
  }

  /** True when the character `next` after the spelling of `t` does not extend it. */
  predicate Delimits(t: Token, next: char) {
    match t
    case IDENT(_) => !ValidIdentifier(next)
    case INT(_) => !IsDigit(next)
    case ASSIGN => next != '='
    case BANG => next != '='
    case _ => t in {FUNCTION, LET, WHILE, FOR, LOOP, TRUE, FALSE, RETURN, IF, ELSE} ==> !ValidIdentifier(next)
  }

  /** A token preceded by a run of whitespace. */
  datatype Spaced = Spaced(gap: string, token: Token)

  predicate SpacedOk(x: Spaced) {
    AllWhitespace(x.gap) && Spellable(x.token)
  }

  predicate AllSpacedOk(xs: seq<Spaced>) {
    xs == [] || (SpacedOk(xs[0]) && AllSpacedOk(xs[1..]))
  }

  function Layout(xs: seq<Spaced>): string
    requires AllSpacedOk(xs)
  {
    if xs == [] then "" else xs[0].gap + Spell(xs[0].token) + Layout(xs[1..])
  }

  function TokensOf(xs: seq<Spaced>): (ts: seq<Token>)
    ensures |ts| == |xs|
    ensures forall i | 0 <= i < |xs| :: ts[i] == xs[i].token
  {
    if xs == [] then [] else [xs[0].token] + TokensOf(xs[1..])
  }

  /** The first character of a spaced token's text. */
  function Lead(x: Spaced): char
    requires SpacedOk(x)
  {
    if x.gap != [] then x.gap[0] else Spell(x.token)[0]
  }

  /** The first character after a token: that of the next spaced token, or of `tail` after the last. */
  function NextChar(rest: seq<Spaced>, tail: string): Option<char>
    requires AllSpacedOk(rest)
  {
    if rest != [] then Some(Lead(rest[0])) else if tail != [] then Some(tail[0]) else None
  }

  /** Whatever text follows each token does not extend it. */
  predicate Separated(xs: seq<Spaced>, tail: string)
    requires AllSpacedOk(xs)
  {
    xs == [] ||
      ((NextChar(xs[1..], tail).None? || Delimits(xs[0].token, NextChar(xs[1..], tail).value))
       && Separated(xs[1..], tail))
  }

  lemma LayoutLead(xs: seq<Spaced>, r: string)
    requires AllSpacedOk(xs) && xs != []
    ensures Layout(xs) != [] && (Layout(xs) + r)[0] == Lead(xs[0])
  {
  }

  /** Tokens with whitespace gaps, followed by trailing whitespace, each kept apart from the next. */
  predicate WellSpaced(xs: seq<Spaced>, tail: string) {
    AllSpacedOk(xs) && AllWhitespace(tail) && Separated(xs, tail)
  }

  lemma {:induction false} SkipWhitespaceGap(gap: string, s: string)
    requires AllWhitespace(gap)
    requires s == [] || !IsWhitespace(s[0])
    ensures SkipWhitespace(gap + s) == s
    decreases |gap|
  {
    if gap != [] {
      assert (gap + s)[0] == gap[0];
      assert (gap + s)[1..] == gap[1..] + s;
      SkipWhitespaceGap(gap[1..], s);
    }
  }

  lemma {:induction false} ReadIdentifierOfWord(w: string, rest: string)
    requires forall i | 0 <= i < |w| :: ValidIdentifier(w[i])
    requires rest == [] || !ValidIdentifier(rest[0])
    ensures ReadIdentifier(w + rest) == |w|
    decreases |w|
  {
    if w == [] {
      assert w + rest == rest;
    } else {
      assert (w + rest)[0] == w[0];
      assert (w + rest)[1..] == w[1..] + rest;
      ReadIdentifierOfWord(w[1..], rest);
    }
  }

  lemma {:induction false} ReadNumberOfDigits(d: string, rest: string)
    requires AllDigits(d)
    requires rest == [] || !IsDigit(rest[0])
    ensures ReadNumber(d + rest) == |d|
    decreases |d|
  {
    if d == [] {
      assert d + rest == rest;
    } else {
      assert (d + rest)[0] == d[0];
      assert (d + rest)[1..] == d[1..] + rest;
      ReadNumberOfDigits(d[1..], rest);
    }
  }

  /** What `ScanToken` does with input that starts with a letter. */
  lemma ScanLetter(t: string)
    requires t != [] && IsAlphabetic(t[0])
    ensures var n := 1 + ReadIdentifier(t[1..]);
      ScanToken(t) == Success(Lexed(DetermineIdent(t[..n]), t[n..]))
  {
    assert t[0] != '=' && t[0] != '!' && SingleCharToken(t[0]).None?;
  }

  /** What `ScanToken` does with input that starts with a digit. */
  lemma ScanDigit(t: string)
    requires t != [] && IsDigit(t[0])
    ensures var n := 1 + ReadNumber(t[1..]);
      ScanToken(t) == if ParseU64(t[..n]).Some? then Success(Lexed(INT(ParseU64(t[..n]).value), t[n..]))
                      else Failure(NumberTooLarge(t[..n]))
  {
    assert t[0] != '=' && t[0] != '!' && SingleCharToken(t[0]).None? && !IsAlphabetic(t[0]);
  }

  /** A word followed by a non-identifier character is read whole, as its keyword or as an identifier. */
  lemma ScanWord(w: string, rest: string)
    requires IsWord(w)
    requires rest == [] || !ValidIdentifier(rest[0])
    ensures ScanToken(w + rest) == Success(Lexed(DetermineIdent(w), rest))
  {
    var t := w + rest;
    assert t[0] == w[0];
    assert t[1..] == w[1..] + rest;
    ReadIdentifierOfWord(w[1..], rest);
    assert t[..|w|] == w;
    assert t[|w|..] == rest;
    ScanLetter(t);
  }

  /** A digit run followed by a non-digit is read whole as an integer literal. */
  lemma ScanNumber(n: u64, rest: string)
    requires rest == [] || !IsDigit(rest[0])
    ensures ScanToken(NatToString(n) + rest) == Success(Lexed(INT(n), rest))
  {
    var d := NatToString(n);
    var t := d + rest;
    assert t[0] == d[0];
    assert t[1..] == d[1..] + rest;
    ReadNumberOfDigits(d[1..], rest);
    assert t[..|d|] == d;
    assert t[|d|..] == rest;
    ParseU64OfDigits(d);
    ScanDigit(t);
  }

  /** A keyword spelling followed by a non-identifier character is read as that keyword. */
  lemma ScanKeyword(t: Token, rest: string)
    requires t in {FUNCTION, LET, WHILE, FOR, LOOP, TRUE, FALSE, RETURN, IF, ELSE}
    requires rest == [] || !ValidIdentifier(rest[0])
    ensures ScanToken(Spell(t) + rest) == Success(Lexed(t, rest))
  {
    ScanWord(Spell(t), rest);
  }

  /** A character that starts no token is read as `ILLEGAL` on its own, whatever
      follows. An identifier may contain `_` but not start with it, so a leading
      `_` is one of these characters. */
  lemma ScanIllegal(c: char, rest: string)
    requires !IsWhitespace(c) && !IsAlphabetic(c) && !IsDigit(c)
    requires c !in {'=', '!', ';', '(', ')', ',', '+', '{', '}', '>', '<', '-', '*', '/'}
    ensures ScanToken([c] + rest) == Success(Lexed(ILLEGAL, rest))
    ensures NextToken([c] + rest) == Success(Some(Lexed(ILLEGAL, rest)))
  {
    var s := [c] + rest;
    assert s[0] == c && s[1..] == rest;
    SkipWhitespaceGap("", s);
    assert "" + s == s;
  }

  /** The lexer's reading of a lone `_`. */
  lemma UnderscoreIsIllegal(rest: string)
    ensures NextToken("_" + rest) == Success(Some(Lexed(ILLEGAL, rest)))
  {
    ScanIllegal('_', rest);
  }

  /** A one-character spelling is read as its token whatever follows. */
  lemma ScanOneChar(t: Token, rest: string)
    requires t in {PLUS, MINUS, GT, LT, ASTERISK, SLASH, COMMA, SEMICOLON, LPAREN, RPAREN, LBRACE, RBRACE}
    ensures ScanToken(Spell(t) + rest) == Success(Lexed(t, rest))
  {
    var s := Spell(t) + rest;
    assert s[0] == Spell(t)[0];
    assert s[1..] == rest;
  }

  /** Each spellable token, followed by a character that does not extend it, is read back as itself. */
  lemma ScanSpelling(t: Token, rest: string)
    requires Spellable(t)
    requires rest == [] || Delimits(t, rest[0])
    ensures ScanToken(Spell(t) + rest) == Success(Lexed(t, rest))
  {
    var s := Spell(t) + rest;
    if t.IDENT? {
      ScanWord(t.name, rest);
    } else if t.INT? {
      ScanNumber(t.number, rest);
    } else if t in {EQ, NOT_EQ} {
      assert s[0] == Spell(t)[0] && s[1] == '=';
      assert s[2..] == rest;
    } else if t in {ASSIGN, BANG} {
      assert s[0] == Spell(t)[0];
      assert s[1..] == rest;
    } else if t in {FUNCTION, LET, WHILE, FOR, LOOP, TRUE, FALSE, RETURN, IF, ELSE} {
      ScanKeyword(t, rest);
    } else {
      ScanOneChar(t, rest);
    }
  }

  /** A whitespace gap, a spellable token and a delimiting rest lex as that token. */
  lemma NextTokenOfSpaced(x: Spaced, rest: string)
    requires SpacedOk(x)
    requires rest == [] || Delimits(x.token, rest[0])
    ensures NextToken(x.gap + Spell(x.token) + rest) == Success(Some(Lexed(x.token, rest)))
  {
    assert x.gap + Spell(x.token) + rest == x.gap + (Spell(x.token) + rest);
    SkipWhitespaceGap(x.gap, Spell(x.token) + rest);
    ScanSpelling(x.token, rest);
  }

  /** The tokens of `r` with `ts` in front, or the error lexing `r` stops at. */
  function Prepend(ts: seq<Token>, r: Result<seq<Token>, LexError>): Result<seq<Token>, LexError> {
    if r.Failure? then r else Success(ts + r.value)
  }

  lemma PrependNothing(x: Result<seq<Token>, LexError>)
    ensures Prepend([], x) == x
  {
    if x.Success? {
      assert [] + x.value == x.value;
    }
  }

  lemma PrependTwice(a: seq<Token>, b: seq<Token>, x: Result<seq<Token>, LexError>)
    ensures Prepend(a, Prepend(b, x)) == Prepend(a + b, x)
  {
    if x.Success? {
      assert a + (b + x.value) == (a + b) + x.value;
    }
  }

  lemma LayoutCons(xs: seq<Spaced>, r: string)
    requires AllSpacedOk(xs) && xs != []
    ensures SpacedOk(xs[0]) && AllSpacedOk(xs[1..])
    ensures Layout(xs) + r == xs[0].gap + Spell(xs[0].token) + (Layout(xs[1..]) + r)
  {
  }

  /** `Tokenize` unfolded once, for input whose first token is known. */
  lemma TokenizeCons(s: string, t: Token, rest: string)
    requires NextToken(s) == Success(Some(Lexed(t, rest)))
    ensures Tokenize(s) == Prepend([t], Tokenize(rest))
  {
  }

  /** One token read off the front of the input lands at the front of the result. */
  lemma TokenizeStep(s: string, t: Token, rest: string, r: string, ts: seq<Token>)
    requires NextToken(s) == Success(Some(Lexed(t, rest)))
    requires Tokenize(rest) == Prepend(ts, Tokenize(r))
    ensures Tokenize(s) == Prepend([t] + ts, Tokenize(r))
  {
    TokenizeCons(s, t, rest);
    PrependTwice([t], ts, Tokenize(r));
  }

  /** Laid-out tokens that the following text does not extend lex to themselves, followed by whatever that text lexes to. */
  lemma {:induction false} TokenizeLayoutPrefix(xs: seq<Spaced>, r: string)
    requires AllSpacedOk(xs) && Separated(xs, r)
    ensures Tokenize(Layout(xs) + r) == Prepend(TokensOf(xs), Tokenize(r))
    decreases |xs|
  {
    if xs == [] {
      assert Layout(xs) + r == r;
      assert TokensOf(xs) == [];
      PrependNothing(Tokenize(r));
    } else {
      var x, more := xs[0], xs[1..];
      var rest := Layout(more) + r;
      LayoutCons(xs, r);
      if more == [] {
        assert rest == r;
      } else {
        LayoutLead(more, r);
      }
      assert Separated(more, r) && (rest == [] || Delimits(x.token, rest[0]));
      assert TokensOf(xs) == [x.token] + TokensOf(more);
      NextTokenOfSpaced(x, rest);
      TokenizeLayoutPrefix(more, r);
      TokenizeStep(Layout(xs) + r, x.token, rest, r, TokensOf(more));
    }
  }

  lemma WhitespaceDelimits(t: Token, c: char)
    requires IsWhitespace(c)
    ensures Delimits(t, c)
  {
  }

  /** Separation does not depend on which whitespace-led text follows. */
  lemma {:induction false} SeparatedBeforeWhitespace(xs: seq<Spaced>, r: string, r': string)
    requires AllSpacedOk(xs) && Separated(xs, r)
    requires r' == [] || IsWhitespace(r'[0])
    ensures Separated(xs, r')
    decreases |xs|
  {
    if xs != [] {
      SeparatedBeforeWhitespace(xs[1..], r, r');
      if |xs| == 1 && r' != [] {
        WhitespaceDelimits(xs[0].token, r'[0]);
      }
    }
  }

  /** A run of laid-out tokens followed by whitespace-led text lexes to those tokens and then the text's tokens. */
  lemma LexRun(xs: seq<Spaced>, r: string)
    requires AllSpacedOk(xs) && Separated(xs, " ")
    requires r == [] || IsWhitespace(r[0])
    ensures Tokenize(Layout(xs) + r) == Prepend(TokensOf(xs), Tokenize(r))
  {
    SeparatedBeforeWhitespace(xs, " ", r);
    TokenizeLayoutPrefix(xs, r);
  }

  /** Round trip: laying out tokens with whitespace gaps that keep them apart lexes to exactly those tokens. */
  lemma TokenizeLayout(xs: seq<Spaced>, tail: string)
    requires WellSpaced(xs, tail)
    ensures Tokenize(Layout(xs) + tail) == Success(TokensOf(xs))
  {
    TokenizeLayoutPrefix(xs, tail);
    assert Tokenize(tail) == Success([]);
    assert TokensOf(xs) + [] == TokensOf(xs);
  }

  /** Each token preceded by one space. */
  function Unlex(ts: seq<Token>): string
    requires forall i | 0 <= i < |ts| :: Spellable(ts[i])
  {
    if ts == [] then "" else " " + Spell(ts[0]) + Unlex(ts[1..])
  }

  function SpaceEach(ts: seq<Token>): (xs: seq<Spaced>)
    ensures |xs| == |ts|
    ensures forall i | 0 <= i < |ts| :: xs[i] == Spaced(" ", ts[i])
  {
    if ts == [] then [] else [Spaced(" ", ts[0])] + SpaceEach(ts[1..])
  }

  /** Single-space separation is a well-spaced layout of the same tokens. */
  lemma {:induction false} UnlexIsLayout(ts: seq<Token>)
    requires forall i | 0 <= i < |ts| :: Spellable(ts[i])
    ensures WellSpaced(SpaceEach(ts), "")
    ensures Unlex(ts) == Layout(SpaceEach(ts))
    ensures TokensOf(SpaceEach(ts)) == ts
    ensures ts != [] ==> Unlex(ts)[0] == ' '
  {
    if ts != [] {
      UnlexIsLayout(ts[1..]);
      var xs := SpaceEach(ts);
      assert xs[0] == Spaced(" ", ts[0]);
      assert xs[1..] == SpaceEach(ts[1..]);
      assert TokensOf(xs) == [ts[0]] + TokensOf(xs[1..]);
      assert Layout(xs[1..]) + "" == Unlex(ts[1..]);
    }
  }

  /** Round trip for single-space separated text: any sequence of spellable tokens. */
  lemma TokenizeUnlex(ts: seq<Token>)
    requires forall i | 0 <= i < |ts| :: Spellable(ts[i])
    ensures Tokenize(Unlex(ts)) == Success(ts)
  {
    UnlexIsLayout(ts);
    TokenizeLayout(SpaceEach(ts), "");
    assert Layout(SpaceEach(ts)) + "" == Unlex(ts);
  }
}
