/** Properties of the parser: how the precedence table drives `infix_parse`
    and the loop of `parse_expression`, what shape its trees have, and a round
    trip for the expressions it reads back correctly. */
module ParserProps {
  import opened Wrappers
  import opened Tokens
  import opened Ast
  import opened Parser

  /** `infix_parse` declines a token exactly when the precedence table gives it Lowest. */
  lemma InfixParseDeclinesLowest(toks: seq<Token>, pos: nat, left: Node)
    requires pos < |toks| && WellBound(left)
    ensures InfixParse(toks, pos, left) == Success(Parsed(None, pos)) <==> GetPrecedence(toks[pos]) == Lowest
  {
    if GetPrecedence(toks[pos]) != Lowest {
      var r := InfixParse(toks, pos, left);
      assert r.Success? ==> r.value.node.Some?;
    }
  }

  /** A `;` ahead never ends the loop by precedence: the cursor steps onto it,
      `infix_parse` declines it, and the expression built so far is returned. */
  lemma SemicolonEndsExpression(toks: seq<Token>, pos: nat, prec: Precedence, left: Node)
    requires pos <= |toks| && WellBound(left)
    requires Peek(toks, pos) == Some(SEMICOLON)
    ensures InfixLoop(toks, pos, prec, left) == Success(Parsed(left, pos + 1))
  {
    InfixParseDeclinesLowest(toks, pos + 1, left);
  }

  /** Any other token ahead that does not bind tighter than the loop's precedence ends it where it is. */
  lemma WeakerTokenEndsExpression(toks: seq<Token>, pos: nat, prec: Precedence, left: Node)
    requires pos <= |toks| && WellBound(left)
    requires Peek(toks, pos) != Some(SEMICOLON)
    requires PeekPrecedence(toks, pos).Level() <= prec.Level()
    ensures InfixLoop(toks, pos, prec, left) == Success(Parsed(left, pos))
  {
  }

  /** In every tree the parser builds, an operand parsed at Prefix precedence
      is never a binary operation: `-a + b` is `(-a) + b`. */
  lemma PrefixOperandIsNotInfix(n: Node)
    requires WellBound(n) && n.PrefixExpression? && n.right.Some?
    ensures !n.right.value.InfixExpression?
  {
    assert BindsTighter(n.right.value, Prefix);
    if n.right.value.InfixExpression? {
      PrecedenceOrder();
    }
  }

  /** In every tree the parser builds, a binary operation's right operand is a
      binary operation only when its operator has strictly higher precedence. */
  lemma RightOperandBindsTighter(n: Node)
    requires WellBound(n) && n.InfixExpression? && n.right.Some? && n.right.value.InfixExpression?
    ensures GetPrecedence(n.token).Level() < GetPrecedence(n.right.value.token).Level()
  {
  }

  /** Both facts above, for the top-level statements `parse_program` returns:
      a binary operation nested as the right operand of another has the
      higher precedence, and a prefix operator's operand is never binary. */
  lemma ProgramTreesRespectPrecedence(toks: seq<Token>, i: nat)
    requires ParseProgram(toks).Success? && i < |ParseProgram(toks).value.statements|
    ensures var n := ParseProgram(toks).value.statements[i];
            n.InfixExpression? && n.right.Some? && n.right.value.InfixExpression? ==>
              GetPrecedence(n.token).Level() < GetPrecedence(n.right.value.token).Level()
    ensures var n := ParseProgram(toks).value.statements[i];
            n.PrefixExpression? && n.right.Some? ==> !n.right.value.InfixExpression?
  {
    var n := ParseProgram(toks).value.statements[i];
    if n.InfixExpression? && n.right.Some? && n.right.value.InfixExpression? {
      RightOperandBindsTighter(n);
    }
    if n.PrefixExpression? && n.right.Some? {
      PrefixOperandIsNotInfix(n);
    }
  }

  /* ---------- A round trip on the expressions the parser reads back ---------- */

  /** Literals, identifiers, booleans and `-`/`!` applied to one of those, each
      built exactly as `prefix_parse` builds it. */
  predicate IsUnary(n: Node)
    decreases n
  {
    match n
    case IntegerLiteral(tok, v) => tok == INT(v)
    case Identifier(tok, name) => tok == IDENT(name)
    case Boolean(tok, b) => tok == if b then TRUE else FALSE
    case PrefixExpression(tok, op, right) =>
      && ((tok == MINUS && op == "MINUS") || (tok == BANG && op == "BANG"))
      && right.Some? && IsUnary(right.value)
    case _ => false
  }

  /** The binary operators `operator_from_tok` names. */
  predicate IsNamedBinary(t: Token) {
    t in {PLUS, MINUS, ASTERISK, SLASH, LT, GT}
  }

  /** A unary operand, or a unary operand, a named binary operator and a tower
      whose top operator binds strictly tighter: `a < -b + c * d`. */
  predicate IsTower(n: Node)
    decreases n
  {
    || IsUnary(n)
    || (&& n.InfixExpression?
        && IsNamedBinary(n.token)
        && OperatorFromTok(n.token) == Success(n.operator)
        && IsUnary(n.left)
        && n.right.Some?
        && IsTower(n.right.value)
        && BindsTighter(n.right.value, GetPrecedence(n.token)))
  }

  /** The tokens of a tower, in source order. */
  function Render(n: Node): (ts: seq<Token>)
    requires IsTower(n)
    ensures |ts| > 0
    decreases n
  {
    if n.PrefixExpression? then [n.token] + Render(n.right.value)
    else if n.InfixExpression? then Render(n.left) + [n.token] + Render(n.right.value)
    else [n.token]
  }

  /** `toks` holds `s` starting at `pos`. */
  predicate Occurs(toks: seq<Token>, pos: nat, s: seq<Token>) {
    pos + |s| <= |toks| && toks[pos..pos + |s|] == s
  }

  lemma OccursParts(toks: seq<Token>, pos: nat, a: seq<Token>, b: seq<Token>)
    requires Occurs(toks, pos, a + b)
    ensures Occurs(toks, pos, a) && Occurs(toks, pos + |a|, b)
  {
    assert toks[pos..pos + |a|] == (a + b)[..|a|];
    assert toks[pos + |a|..pos + |a| + |b|] == (a + b)[|a|..];
  }

  lemma OccursAt(toks: seq<Token>, pos: nat, s: seq<Token>, i: nat)
    requires Occurs(toks, pos, s) && i < |s|
    ensures toks[pos + i] == s[i]
  {
    assert toks[pos..pos + |s|][i] == s[i];
  }

  /** `parse_expression` is `prefix_parse` followed by the infix loop. */
  lemma ExpressionSteps(toks: seq<Token>, pos: nat, prec: Precedence, n: Node, k: nat, m: Node, q: nat)
    requires pos < |toks| && k <= |toks| && WellBound(n)
    requires PrefixParse(toks, pos) == Success(Parsed(Some(n), k))
    requires InfixLoop(toks, k, prec, n) == Success(Parsed(m, q))
    ensures ParseExpression(toks, pos, prec) == Success(Parsed(Some(m), q))
  {
  }

  /** `-`/`!` read their operand at Prefix precedence. */
  lemma PrefixSteps(toks: seq<Token>, pos: nat, v: Node, k: nat)
    requires pos + 1 < |toks| && toks[pos] in {MINUS, BANG}
    requires ParseExpression(toks, pos + 1, Prefix) == Success(Parsed(Some(v), k))
    ensures PrefixParse(toks, pos)
         == Success(Parsed(Some(PrefixExpression(toks[pos], if toks[pos] == MINUS then "MINUS" else "BANG", Some(v))), k))
  {
    assert ParsePrefixExpression(toks, pos)
        == Success(Parsed(PrefixExpression(toks[pos], if toks[pos] == MINUS then "MINUS" else "BANG", Some(v)), k));
  }

  /** A unary operand followed by the end of the tokens or by a binary operator
      is read whole by `prefix_parse`; the cursor ends on its last token. */
  lemma {:induction false} ParseUnary(toks: seq<Token>, pos: nat, u: Node)
    requires IsUnary(u) && IsTower(u) && Occurs(toks, pos, Render(u))
    requires var end := pos + |Render(u)|; end == |toks| || IsBinaryOperator(toks[end])
    ensures PrefixParse(toks, pos) == Success(Parsed(Some(u), pos + |Render(u)| - 1))
    decreases u
  {
    var last := pos + |Render(u)| - 1;
    OccursAt(toks, pos, Render(u), 0);
    if u.PrefixExpression? {
      var v := u.right.value;
      assert IsTower(v);
      OccursParts(toks, pos, [u.token], Render(v));
      ParseUnary(toks, pos + 1, v);
      UnaryOperand(toks, pos + 1, v, last);
      PrefixSteps(toks, pos, v, last);
    } else {
      assert Render(u) == [u.token] && toks[pos] == u.token;
      PrefixAtom(toks, pos);
    }
  }

  /** What `prefix_parse` reads as a unary operand, `parse_expression` reads at
      Prefix precedence when a binary operator or the end follows. */
  lemma UnaryOperand(toks: seq<Token>, pos: nat, u: Node, last: nat)
    requires IsUnary(u) && pos <= last < |toks|
    requires last + 1 == |toks| || IsBinaryOperator(toks[last + 1])
    requires PrefixParse(toks, pos) == Success(Parsed(Some(u), last))
    ensures ParseExpression(toks, pos, Prefix) == Success(Parsed(Some(u), last))
  {
    UnaryWellBound(u);
    StopsBeforeOperator(toks, last, Prefix, u);
    ExpressionSteps(toks, pos, Prefix, u, last, u, last);
  }

  /** Literals, identifiers and booleans are read by `prefix_parse` without moving the cursor. */
  lemma PrefixAtom(toks: seq<Token>, pos: nat)
    requires pos < |toks| && (toks[pos].INT? || toks[pos].IDENT? || toks[pos] in {TRUE, FALSE})
    ensures toks[pos].INT? ==> PrefixParse(toks, pos) == Success(Parsed(Some(IntegerLiteral(toks[pos], toks[pos].number)), pos))
    ensures toks[pos].IDENT? ==> PrefixParse(toks, pos) == Success(Parsed(Some(Identifier(toks[pos], toks[pos].name)), pos))
    ensures toks[pos] == TRUE ==> PrefixParse(toks, pos) == Success(Parsed(Some(Boolean(TRUE, true)), pos))
    ensures toks[pos] == FALSE ==> PrefixParse(toks, pos) == Success(Parsed(Some(Boolean(FALSE, false)), pos))
  {
  }

  /** At Prefix precedence the loop stops before a binary operator or at the end. */
  lemma StopsBeforeOperator(toks: seq<Token>, pos: nat, prec: Precedence, left: Node)
    requires pos < |toks| && WellBound(left) && prec in {Prefix, Call}
    requires pos + 1 == |toks| || IsBinaryOperator(toks[pos + 1])
    ensures InfixLoop(toks, pos, prec, left) == Success(Parsed(left, pos))
  {
    if pos + 1 < |toks| {
      assert Peek(toks, pos) == Some(toks[pos + 1]);
      assert GetPrecedence(toks[pos + 1]).Level() <= 5;
    }
    WeakerTokenEndsExpression(toks, pos, prec, left);
  }

  lemma {:induction false} UnaryWellBound(u: Node)
    requires IsUnary(u)
    ensures WellBound(u) && BindsTighter(u, Call)
    decreases u
  {
    if u.PrefixExpression? {
      UnaryWellBound(u.right.value);
    }
  }

  /** Where the cursor is left after reading a tower that ends the tokens: on
      the last token of a unary operand, past the end after a binary operation. */
  function TowerEnd(e: Node, len: nat): nat
    requires len > 0
  {
    if e.InfixExpression? then len else len - 1
  }

  /** One binary operator step of `infix_parse`: the right operand is read at the operator's precedence. */
  lemma InfixSteps(toks: seq<Token>, k: nat, u: Node, t: Node, q: nat)
    requires k < |toks| && IsNamedBinary(toks[k]) && WellBound(u)
    requires ParseExpression(toks, k + 1, GetPrecedence(toks[k])) == Success(Parsed(Some(t), q))
    ensures InfixParse(toks, k, u) == Success(Parsed(Some(InfixExpression(toks[k], OperatorFromTok(toks[k]).value, u, Some(t))), q))
  {
    assert ParseInfixExpression(toks, k, u) == Success(Parsed(InfixExpression(toks[k], OperatorFromTok(toks[k]).value, u, Some(t)), q));
  }

  /** One turn of the loop of `parse_expression` that builds a node from the
      operator at `op`, followed by the extra advance. */
  lemma LoopTurn(toks: seq<Token>, op: nat, prec: Precedence, left: Node, m: Node, k: nat, r: Outcome<Node>)
    requires 0 < op < |toks| && WellBound(left) && WellBound(m) && k <= |toks|
    requires prec.Level() < GetPrecedence(toks[op]).Level()
    requires InfixParse(toks, op, left) == Success(Parsed(Some(m), k))
    requires InfixLoop(toks, Advance(toks, k), prec, m) == r
    ensures InfixLoop(toks, op - 1, prec, left) == r
  {
    assert Peek(toks, op - 1) == Some(toks[op]);
  }

  /** With no tokens left the loop returns what it has. */
  lemma LoopAtEnd(toks: seq<Token>, prec: Precedence, left: Node)
    requires WellBound(left)
    ensures InfixLoop(toks, |toks|, prec, left) == Success(Parsed(left, |toks|))
  {
    PrecedenceOrder();
  }

  /** `e` is a tower whose rendering makes up the tokens from `pos` to the end,
      and its top operator binds tighter than `prec`. */
  predicate TowerAt(toks: seq<Token>, pos: nat, e: Node, prec: Precedence) {
    IsTower(e) && Occurs(toks, pos, Render(e)) && pos + |Render(e)| == |toks| && BindsTighter(e, prec)
  }

  /** A tower that ends the tokens, started at a precedence its top operator
      binds tighter than, is read back as exactly that tower. */
  lemma {:induction false} ParseTower(toks: seq<Token>, pos: nat, e: Node, prec: Precedence)
    requires TowerAt(toks, pos, e, prec)
    ensures WellBound(e)
    ensures ParseExpression(toks, pos, prec) == Success(Parsed(Some(e), TowerEnd(e, |toks|)))
    decreases e
  {
    if !IsUnary(e) {
      TowerParts(toks, pos, e, prec);
      var k := pos + |Render(e.left)| + 1;
      var r := e.right.value;
      ParseTower(toks, k, r, GetPrecedence(e.token));
      TowerFromRight(toks, pos, e, prec);
    } else {
      ParseUnary(toks, pos, e);
      UnaryTower(toks, pos, e, prec);
    }
  }

  /** A binary tower is read back once its right operand is. */
  lemma TowerFromRight(toks: seq<Token>, pos: nat, e: Node, prec: Precedence)
    requires TowerAt(toks, pos, e, prec) && !IsUnary(e)
    requires ParseExpression(toks, pos + |Render(e.left)| + 1, GetPrecedence(e.token))
          == Success(Parsed(Some(e.right.value), TowerEnd(e.right.value, |toks|)))
    ensures WellBound(e)
    ensures ParseExpression(toks, pos, prec) == Success(Parsed(Some(e), TowerEnd(e, |toks|)))
  {
    var k := pos + |Render(e.left)|;
    TowerShape(e);
    TowerParts(toks, pos, e, prec);
    ParseUnary(toks, pos, e.left);
    assert SomeWellBound(Some(e.right.value));
    BinaryTower(toks, pos, k, e, prec);
  }

  /** A unary tower that ends the tokens: the loop finds nothing after it. */
  lemma UnaryTower(toks: seq<Token>, pos: nat, e: Node, prec: Precedence)
    requires IsUnary(e) && pos < |toks|
    requires PrefixParse(toks, pos) == Success(Parsed(Some(e), pos + |Render(e)| - 1))
    requires pos + |Render(e)| == |toks|
    ensures WellBound(e)
    ensures ParseExpression(toks, pos, prec) == Success(Parsed(Some(e), TowerEnd(e, |toks|)))
  {
    UnaryWellBound(e);
    LoopAtEnd(toks, prec, e);
    ExpressionSteps(toks, pos, prec, e, |toks| - 1, e, |toks| - 1);
  }

  /** Where the parts of a binary tower lie in the tokens. */
  lemma TowerParts(toks: seq<Token>, pos: nat, e: Node, prec: Precedence)
    requires TowerAt(toks, pos, e, prec) && !IsUnary(e)
    ensures IsUnary(e.left) && IsTower(e.left) && Occurs(toks, pos, Render(e.left))
    ensures pos + |Render(e.left)| < |toks| && toks[pos + |Render(e.left)|] == e.token
    ensures IsBinaryOperator(toks[pos + |Render(e.left)|])
    ensures IsTower(e.right.value) && Occurs(toks, pos + |Render(e.left)| + 1, Render(e.right.value))
    ensures pos + |Render(e.left)| + 1 + |Render(e.right.value)| == |toks|
    ensures BindsTighter(e.right.value, GetPrecedence(e.token))
  {
    TowerShape(e);
    TowerSplit(toks, pos, e);
    var k := pos + |Render(e.left)|;
    OccursParts(toks, k, [e.token], Render(e.right.value));
    OccursAt(toks, k, [e.token], 0);
  }

  /** A tower that is not unary is a unary operand, a named operator and a tower. */
  lemma TowerShape(e: Node)
    requires IsTower(e) && !IsUnary(e)
    ensures e.InfixExpression? && e.right.Some?
    ensures IsUnary(e.left) && IsTower(e.left) && IsTower(e.right.value)
    ensures IsNamedBinary(e.token) && IsBinaryOperator(e.token) && OperatorFromTok(e.token) == Success(e.operator)
    ensures BindsTighter(e.right.value, GetPrecedence(e.token))
    ensures Render(e) == Render(e.left) + ([e.token] + Render(e.right.value))
  {
    assert Render(e) == Render(e.left) + [e.token] + Render(e.right.value);
  }

  /** The left operand, then the operator and the right operand. */
  lemma TowerSplit(toks: seq<Token>, pos: nat, e: Node)
    requires IsTower(e) && !IsUnary(e) && Occurs(toks, pos, Render(e))
    ensures Occurs(toks, pos, Render(e.left))
    ensures Occurs(toks, pos + |Render(e.left)|, [e.token] + Render(e.right.value))
  {
    TowerShape(e);
    OccursParts(toks, pos, Render(e.left), [e.token] + Render(e.right.value));
  }

  /** A binary tower: its unary left operand ends before the operator at `k`,
      and its right operand is read from after the operator to the end. */
  lemma BinaryTower(toks: seq<Token>, pos: nat, k: nat, e: Node, prec: Precedence)
    requires IsTower(e) && !IsUnary(e) && BindsTighter(e, prec)
    requires pos < k < |toks| && toks[k] == e.token
    requires PrefixParse(toks, pos) == Success(Parsed(Some(e.left), k - 1))
    requires WellBound(e.right.value)
    requires ParseExpression(toks, k + 1, GetPrecedence(e.token))
          == Success(Parsed(Some(e.right.value), TowerEnd(e.right.value, |toks|)))
    ensures WellBound(e)
    ensures ParseExpression(toks, pos, prec) == Success(Parsed(Some(e), |toks|))
  {
    UnaryWellBound(e.left);
    assert WellBound(e);
    assert e.InfixExpression? && e.right.Some?;
    assert IsNamedBinary(e.token) && OperatorFromTok(e.token) == Success(e.operator);
    assert prec.Level() < GetPrecedence(e.token).Level();
    assert k - 1 + 2 == k + 1;
    BinaryStep(toks, pos, k - 1, prec, e, TowerEnd(e.right.value, |toks|));
  }

  /** A unary left operand ending at `uEnd`, the operator after it, and a
      right operand read from there to the end, make the binary operation `e`. */
  lemma BinaryStep(toks: seq<Token>, pos: nat, uEnd: nat, prec: Precedence, e: Node, tEnd: nat)
    requires pos <= uEnd && uEnd + 1 < |toks| && e.InfixExpression? && e.right.Some?
    requires toks[uEnd + 1] == e.token && IsNamedBinary(e.token) && OperatorFromTok(e.token) == Success(e.operator)
    requires prec.Level() < GetPrecedence(e.token).Level()
    requires WellBound(e.left) && WellBound(e)
    requires PrefixParse(toks, pos) == Success(Parsed(Some(e.left), uEnd))
    requires ParseExpression(toks, uEnd + 2, GetPrecedence(e.token)) == Success(Parsed(Some(e.right.value), tEnd))
    requires tEnd + 1 >= |toks|
    ensures ParseExpression(toks, pos, prec) == Success(Parsed(Some(e), |toks|))
  {
    var k := uEnd + 1;
    InfixSteps(toks, k, e.left, e.right.value, tEnd);
    assert InfixExpression(toks[k], OperatorFromTok(toks[k]).value, e.left, Some(e.right.value)) == e;
    assert Advance(toks, tEnd) == |toks|;
    LoopAtEnd(toks, prec, e);
    LoopTurn(toks, k, prec, e.left, e, tEnd, Success(Parsed(e, |toks|)));
    ExpressionSteps(toks, pos, prec, e.left, uEnd, e, |toks|);
  }

  /** An expression statement with nothing after it. */
  lemma StatementAtEnd(toks: seq<Token>, pos: nat, e: Node, q: nat)
    requires pos < |toks| && toks[pos] !in {LET, RETURN, LBRACE}
    requires ParseExpression(toks, pos, Lowest) == Success(Parsed(Some(e), q))
    requires q + 1 >= |toks|
    ensures ParseStatement(toks, pos) == Success(Parsed(Some(e), q))
  {
    assert Peek(toks, q) == None;
    assert ParseExpressionStatement(toks, pos) == Success(Parsed(Some(e), q));
  }

  /** The first statement of a program, when more tokens follow it. */
  lemma ProgramStart(toks: seq<Token>, n: Node, q: nat)
    requires q + 1 < |toks|
    requires ParseStatement(toks, 0) == Success(Parsed(Some(n), q))
    ensures ParseProgram(toks) == ProgramLoop(toks, q + 1, [n])
  {
    ProgramTurn(toks, 0, [], n, q);
    assert [] + [n] == [n];
  }

  /** A program whose first statement reaches the end of the tokens. */
  lemma ProgramOfOne(toks: seq<Token>, e: Node, q: nat)
    requires 0 < |toks| && WellBound(e)
    requires ParseStatement(toks, 0) == Success(Parsed(Some(e), q))
    requires q + 1 >= |toks|
    ensures ParseProgram(toks) == Success(Program([e]))
  {
    assert Advance(toks, q) == |toks|;
    assert [] + [e] == [e];
    assert ProgramLoop(toks, |toks|, [e]) == Success(Program([e]));
  }

  /** One turn of `parse_program`: a statement that parses to a node is kept and the cursor steps past it. */
  lemma ProgramTurn(toks: seq<Token>, pos: nat, acc: seq<Node>, n: Node, q: nat)
    requires pos < |toks| && q < |toks|
    requires ParseStatement(toks, pos) == Success(Parsed(Some(n), q))
    ensures ProgramLoop(toks, pos, acc) == ProgramLoop(toks, q + 1, acc + [n])
  {
    assert Advance(toks, q) == q + 1;
  }

  /** `ProgramEnds` after two statements. */
  lemma ProgramEndsThird(toks: seq<Token>, pos: nat, a: Node, b: Node, n: Node, q: nat)
    requires pos < |toks|
    requires ParseStatement(toks, pos) == Success(Parsed(Some(n), q))
    requires q + 1 >= |toks|
    ensures ProgramLoop(toks, pos, [a, b]) == Success(Program([a, b, n]))
  {
    ProgramEnds(toks, pos, [a, b], n, q);
    assert [a, b] + [n] == [a, b, n];
  }

  /** `let name = value`, with the cursor left after a following `;` and the token after it. */
  lemma LetSteps(toks: seq<Token>, pos: nat, v: Node, q: nat)
    requires pos + 3 < |toks| && toks[pos] == LET && toks[pos + 1].IDENT? && toks[pos + 2] == ASSIGN
    requires ParseExpression(toks, pos + 3, Lowest) == Success(Parsed(Some(v), q))
    ensures ParseStatement(toks, pos)
         == Success(Parsed(Some(LetStatement(LET, Identifier(toks[pos + 1], toks[pos + 1].name), v)),
                           if Peek(toks, q) == Some(SEMICOLON) then Advance(toks, Advance(toks, q)) else q))
  {
    assert ParseLetStatement(toks, pos)
        == Success(Parsed(LetStatement(LET, Identifier(toks[pos + 1], toks[pos + 1].name), v),
                          if Peek(toks, q) == Some(SEMICOLON) then Advance(toks, Advance(toks, q)) else q));
  }

  /** `return` and the value after it; the cursor stays on the value's last token. */
  lemma ReturnSteps(toks: seq<Token>, pos: nat, v: Option<Node>, q: nat)
    requires pos + 1 < |toks| && toks[pos] == RETURN
    requires ParseExpression(toks, pos + 1, Lowest) == Success(Parsed(v, q))
    ensures ParseStatement(toks, pos) == Success(Parsed(Some(ReturnStatement(RETURN, v)), q))
  {
    assert ParseReturnStatement(toks, pos) == Success(Parsed(ReturnStatement(RETURN, v), q));
  }

  /** Every other statement is an expression statement, which steps onto a following `;`. */
  lemma ExpressionStatementSteps(toks: seq<Token>, pos: nat, v: Option<Node>, q: nat)
    requires pos < |toks| && toks[pos] !in {LET, RETURN, LBRACE}
    requires ParseExpression(toks, pos, Lowest) == Success(Parsed(v, q))
    ensures ParseStatement(toks, pos) == Success(Parsed(v, if Peek(toks, q) == Some(SEMICOLON) then q + 1 else q))
  {
    assert ParseExpressionStatement(toks, pos) == Success(Parsed(v, if Peek(toks, q) == Some(SEMICOLON) then q + 1 else q));
  }

  /** A token without a prefix rule gives no expression and leaves the cursor where it is. */
  lemma NoPrefixRule(toks: seq<Token>, pos: nat, prec: Precedence)
    requires pos < |toks|
    requires !(toks[pos].IDENT? || toks[pos].INT? || toks[pos] in {TRUE, FALSE, MINUS, BANG, FUNCTION})
    ensures ParseExpression(toks, pos, prec) == Success(Parsed(None, pos))
  {
    assert PrefixParse(toks, pos) == Success(Parsed(None, pos));
  }

  /** `{` followed by the statements of the block. */
  lemma BlockSteps(toks: seq<Token>, pos: nat, body: seq<Node>, q: nat)
    requires pos < |toks| && toks[pos] == LBRACE
    requires BlockLoop(toks, pos + 1, []) == Success(Parsed(body, q))
    ensures ParseStatement(toks, pos) == Success(Parsed(Some(BlockStatement(LBRACE, body)), q))
  {
    BlockStatementSteps(toks, pos, body, q);
  }

  /** One turn of the block loop: a statement that parses to a node is kept and the cursor steps past it. */
  lemma BlockTurn(toks: seq<Token>, pos: nat, acc: seq<Node>, n: Node, q: nat)
    requires pos <= |toks| && q < |toks|
    requires ParseStatement(toks, pos) == Success(Parsed(Some(n), q))
    ensures BlockLoop(toks, pos, acc) == BlockLoop(toks, q + 1, acc + [n])
  {
    assert Advance(toks, q) == q + 1;
  }

  /** The first statement of a block body. */
  lemma BlockStart(toks: seq<Token>, pos: nat, n: Node, q: nat)
    requires pos <= |toks| && q < |toks|
    requires ParseStatement(toks, pos) == Success(Parsed(Some(n), q))
    ensures BlockLoop(toks, pos, []) == BlockLoop(toks, q + 1, [n])
  {
    BlockTurn(toks, pos, [], n, q);
    assert [] + [n] == [n];
  }

  /** The block ends at the first statement that parses to no node. */
  lemma BlockEnd(toks: seq<Token>, pos: nat, acc: seq<Node>, q: nat)
    requires pos <= |toks|
    requires ParseStatement(toks, pos) == Success(Parsed(None, q))
    ensures BlockLoop(toks, pos, acc) == Success(Parsed(acc, q))
  {
  }

  /** `fn`, a name, `(`, the parameters, then a block: the literal carries the name token. */
  lemma FunctionLiteralSteps(toks: seq<Token>, pos: nat, params: seq<Node>, k: nat, body: seq<Node>, q: nat)
    requires pos + 2 < |toks| && toks[pos] == FUNCTION && toks[pos + 2] == LPAREN
    requires ParseFunctionParameters(toks, pos + 2) == Success(Parsed(params, k))
    requires k + 1 < |toks| && toks[k + 1] == LBRACE
    requires BlockLoop(toks, k + 2, []) == Success(Parsed(body, q))
    ensures PrefixParse(toks, pos) == Success(Parsed(Some(FunctionLiteral(toks[pos + 1], params, BlockStatement(LBRACE, body))), q))
  {
    BlockStatementSteps(toks, k + 1, body, q);
    FunctionLiteralParts(toks, pos, params, k, BlockStatement(LBRACE, body), q);
  }

  /** `parse_block_statement` is the block loop from the token after `{`. */
  lemma BlockStatementSteps(toks: seq<Token>, pos: nat, body: seq<Node>, q: nat)
    requires pos < |toks|
    requires BlockLoop(toks, pos + 1, []) == Success(Parsed(body, q))
    ensures ParseBlockStatement(toks, pos) == Success(Parsed(BlockStatement(LBRACE, body), q))
  {
    assert Advance(toks, pos) == pos + 1;
  }

  /** The literal from its parameters and its block. */
  lemma FunctionLiteralParts(toks: seq<Token>, pos: nat, params: seq<Node>, k: nat, block: Node, q: nat)
    requires pos + 2 < |toks| && toks[pos] == FUNCTION && toks[pos + 2] == LPAREN
    requires ParseFunctionParameters(toks, pos + 2) == Success(Parsed(params, k))
    requires k + 1 < |toks| && toks[k + 1] == LBRACE
    requires ParseBlockStatement(toks, k + 1) == Success(Parsed(block, q))
    ensures PrefixParse(toks, pos) == Success(Parsed(Some(FunctionLiteral(toks[pos + 1], params, block)), q))
  {
    assert Peek(toks, pos + 1) == Some(LPAREN) && Advance(toks, pos + 1) == pos + 2;
    assert Peek(toks, k) == Some(LBRACE) && Advance(toks, k) == k + 1;
  }

  /** The first parameter after `(`. */
  lemma FirstParameter(toks: seq<Token>, pos: nat, r: Outcome<seq<Node>>)
    requires pos + 1 < |toks| && toks[pos + 1].IDENT?
    requires ParametersLoop(toks, pos + 1, [Identifier(toks[pos + 1], toks[pos + 1].name)]) == r
    ensures ParseFunctionParameters(toks, pos) == r
  {
    assert Peek(toks, pos) == Some(toks[pos + 1]);
  }

  /** A `,` and the next parameter. */
  lemma NextParameter(toks: seq<Token>, pos: nat, acc: seq<Node>, r: Outcome<seq<Node>>)
    requires pos + 2 < |toks| && toks[pos + 1] == COMMA && toks[pos + 2].IDENT?
    requires forall i | 0 <= i < |acc| :: IsParameter(acc[i])
    requires ParametersLoop(toks, pos + 2, acc + [Identifier(toks[pos + 2], toks[pos + 2].name)]) == r
    ensures ParametersLoop(toks, pos, acc) == r
  {
    assert Peek(toks, pos) == Some(COMMA);
  }

  /** A `)` closes the parameters; the cursor is left on it. */
  lemma LastParameter(toks: seq<Token>, pos: nat, acc: seq<Node>)
    requires pos + 1 < |toks| && toks[pos + 1] == RPAREN
    requires forall i | 0 <= i < |acc| :: IsParameter(acc[i])
    ensures ParametersLoop(toks, pos, acc) == Success(Parsed(acc, pos + 1))
  {
    assert Peek(toks, pos) == Some(RPAREN);
  }

  /** `(` after an expression is a call of it. */
  lemma CallSteps(toks: seq<Token>, op: nat, callee: Node, args: seq<Node>, k: nat)
    requires op < |toks| && toks[op] == LPAREN && WellBound(callee)
    requires ParseCallArguments(toks, op) == Success(Parsed(args, k))
    ensures InfixParse(toks, op, callee) == Success(Parsed(Some(CallExpression(LPAREN, callee, args)), k))
  {
    assert ParseCallExpression(toks, op, callee) == Success(Parsed(CallExpression(LPAREN, callee, args), k));
  }

  /** The first argument after `(`. */
  lemma FirstArgument(toks: seq<Token>, pos: nat, a: Node, k: nat, r: Outcome<seq<Node>>)
    requires pos + 1 < |toks| && toks[pos + 1] != RPAREN && k <= |toks|
    requires ParseExpression(toks, pos + 1, Lowest) == Success(Parsed(Some(a), k))
    requires ArgumentsLoop(toks, k, [a]) == r
    ensures ParseCallArguments(toks, pos) == r
  {
    assert Peek(toks, pos) == Some(toks[pos + 1]);
  }

  /** A `,` and the next argument. */
  lemma NextArgument(toks: seq<Token>, pos: nat, acc: seq<Node>, a: Node, k: nat, r: Outcome<seq<Node>>)
    requires pos + 2 < |toks| && toks[pos + 1] == COMMA && k <= |toks|
    requires ParseExpression(toks, pos + 2, Lowest) == Success(Parsed(Some(a), k))
    requires ArgumentsLoop(toks, k, acc + [a]) == r
    ensures ArgumentsLoop(toks, pos, acc) == r
  {
    assert Peek(toks, pos) == Some(COMMA);
  }

  /** Anything but a `,` ends the arguments, and the cursor steps onto it without looking at it. */
  lemma LastArgument(toks: seq<Token>, pos: nat, acc: seq<Node>)
    requires pos < |toks| && Peek(toks, pos) != Some(COMMA)
    ensures ArgumentsLoop(toks, pos, acc) == Success(Parsed(acc, pos + 1))
  {
  }

  /** Literals, identifiers and booleans: the tokens `prefix_parse` turns into a node on their own. */
  predicate IsAtom(tok: Token) {
    tok.INT? || tok.IDENT? || tok == TRUE || tok == FALSE
  }

  /** The node `prefix_parse` builds for an atom. */
  function Atom(tok: Token): (n: Node)
    requires IsAtom(tok)
    ensures IsUnary(n) && n.token == tok
  {
    match tok
    case INT(v) => IntegerLiteral(tok, v)
    case IDENT(name) => Identifier(tok, name)
    case _ => Boolean(tok, tok == TRUE)
  }

  /** An atom, then the loop of `parse_expression` from it. */
  lemma AtomThenLoop(toks: seq<Token>, pos: nat, prec: Precedence, m: Node, q: nat)
    requires pos < |toks| && IsAtom(toks[pos])
    requires InfixLoop(toks, pos, prec, Atom(toks[pos])) == Success(Parsed(m, q))
    ensures ParseExpression(toks, pos, prec) == Success(Parsed(Some(m), q))
  {
    UnaryWellBound(Atom(toks[pos]));
    PrefixAtom(toks, pos);
    ExpressionSteps(toks, pos, prec, Atom(toks[pos]), pos, m, q);
  }

  /** An atom followed by `;`: the loop steps onto the `;` and ends there. */
  lemma AtomBeforeSemicolon(toks: seq<Token>, pos: nat, prec: Precedence)
    requires pos + 1 < |toks| && IsAtom(toks[pos]) && toks[pos + 1] == SEMICOLON
    ensures ParseExpression(toks, pos, prec) == Success(Parsed(Some(Atom(toks[pos])), pos + 1))
  {
    UnaryWellBound(Atom(toks[pos]));
    SemicolonEndsExpression(toks, pos, prec, Atom(toks[pos]));
    AtomThenLoop(toks, pos, prec, Atom(toks[pos]), pos + 1);
  }

  /** An atom followed by nothing, or by a token other than `;` that binds no tighter than `prec`. */
  lemma AtomAlone(toks: seq<Token>, pos: nat, prec: Precedence)
    requires pos < |toks| && IsAtom(toks[pos])
    requires pos + 1 == |toks| || (toks[pos + 1] != SEMICOLON && GetPrecedence(toks[pos + 1]).Level() <= prec.Level())
    ensures ParseExpression(toks, pos, prec) == Success(Parsed(Some(Atom(toks[pos])), pos))
  {
    UnaryWellBound(Atom(toks[pos]));
    PrecedenceOrder();
    WeakerTokenEndsExpression(toks, pos, prec, Atom(toks[pos]));
    AtomThenLoop(toks, pos, prec, Atom(toks[pos]), pos);
  }

  /** `-`/`!` and its operand, when what follows the operand does not continue the expression. */
  lemma PrefixOperation(toks: seq<Token>, pos: nat, prec: Precedence, v: Node, k: nat)
    requires pos + 1 < |toks| && toks[pos] in {MINUS, BANG}
    requires ParseExpression(toks, pos + 1, Prefix) == Success(Parsed(Some(v), k))
    requires k + 1 == |toks| || (k + 1 < |toks| && toks[k + 1] != SEMICOLON && GetPrecedence(toks[k + 1]).Level() <= prec.Level())
    ensures ParseExpression(toks, pos, prec)
         == Success(Parsed(Some(PrefixExpression(toks[pos], if toks[pos] == MINUS then "MINUS" else "BANG", Some(v))), k))
  {
    var n := PrefixExpression(toks[pos], if toks[pos] == MINUS then "MINUS" else "BANG", Some(v));
    PrefixSteps(toks, pos, v, k);
    PrecedenceOrder();
    WeakerTokenEndsExpression(toks, k, prec, n);
    ExpressionSteps(toks, pos, prec, n, k, n, k);
  }

  /** The last turn of the loop: after the step and the extra advance, nothing
      that follows continues the expression. */
  lemma LastTurn(toks: seq<Token>, op: nat, prec: Precedence, left: Node, m: Node, k: nat)
    requires 0 < op < |toks| && WellBound(left) && WellBound(m) && k < |toks|
    requires prec.Level() < GetPrecedence(toks[op]).Level()
    requires InfixParse(toks, op, left) == Success(Parsed(Some(m), k))
    requires k + 2 >= |toks| || (toks[k + 2] != SEMICOLON && GetPrecedence(toks[k + 2]).Level() <= prec.Level())
    ensures InfixLoop(toks, op - 1, prec, left) == Success(Parsed(m, k + 1))
  {
    PrecedenceOrder();
    if k + 1 == |toks| {
      LoopAtEnd(toks, prec, m);
    } else {
      WeakerTokenEndsExpression(toks, k + 1, prec, m);
    }
    LoopTurn(toks, op, prec, left, m, k, Success(Parsed(m, k + 1)));
  }

  /** A last statement that parses to a node ends the program. */
  lemma ProgramEnds(toks: seq<Token>, pos: nat, acc: seq<Node>, n: Node, q: nat)
    requires pos < |toks|
    requires ParseStatement(toks, pos) == Success(Parsed(Some(n), q))
    requires q + 1 >= |toks|
    ensures ProgramLoop(toks, pos, acc) == Success(Program(acc + [n]))
  {
    assert Advance(toks, q) == |toks|;
    assert ProgramLoop(toks, |toks|, acc + [n]) == Success(Program(acc + [n]));
  }

  /** A tower alone is parsed back to a program of exactly that expression. */
  lemma ParseRenderedTower(e: Node)
    requires IsTower(e)
    ensures ParseProgram(Render(e)) == Success(Program([e]))
  {
    var toks := Render(e);
    assert Occurs(toks, 0, toks);
    PrecedenceOrder();
    assert BindsTighter(e, Lowest);
    ParseTower(toks, 0, e, Lowest);
    FirstToken(e);
    StatementAtEnd(toks, 0, e, TowerEnd(e, |toks|));
    ProgramOfOne(toks, e, TowerEnd(e, |toks|));
  }

  /** A tower starts with a literal, an identifier, a boolean or a prefix operator. */
  lemma {:induction false} FirstToken(e: Node)
    requires IsTower(e)
    ensures Render(e)[0] !in {LET, RETURN, LBRACE}
    decreases e
  {
    if e.InfixExpression? {
      assert IsTower(e.left);
      FirstToken(e.left);
      assert Render(e)[0] == Render(e.left)[0];
    }
  }
}
