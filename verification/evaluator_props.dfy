/** A reference meaning for expression trees, with mathematical integers and
    no text round trips, and the exact conditions under which the evaluator
    aborts. The evaluator agrees with the meaning whenever it does not abort. */
module EvaluatorProps {
  import opened Wrappers
  import opened Decimal
  import opened Ast
  import opened Evaluator
  import Objects
  import Tokens
  import Parser

  /** A value of the reference meaning: an unbounded integer or a boolean. */
  datatype Val = IntVal(i: int) | BoolVal(b: bool)

  /** What a node means: literals mean themselves, `!` negates a boolean, `-`
      negates an integer, the four arithmetic operators combine two integers
      (division rounds toward zero, and has no meaning by zero), and every
      other node or operand pairing means nothing. */
  function Meaning(n: Node): Option<Val>
    decreases n
  {
    match n
    case IntegerLiteral(_, v) => Some(IntVal(v))
    case Boolean(_, b) => Some(BoolVal(b))
    case Expression(value) => Meaning(value)
    case PrefixExpression(_, op, Some(right)) =>
      (match Meaning(right)
       case Some(BoolVal(b)) => if op == "BANG" then Some(BoolVal(!b)) else None
       case Some(IntVal(i)) => if op == "MINUS" then Some(IntVal(-i)) else None
       case None => None)
    case InfixExpression(_, op, left, Some(right)) =>
      (match (Meaning(left), Meaning(right))
       case (Some(IntVal(a)), Some(IntVal(b))) =>
         if op == "PLUS" then Some(IntVal(a + b))
         else if op == "MINUS" then Some(IntVal(a - b))
         else if op == "ASTERISK" then Some(IntVal(a * b))
         else if op == "SLASH" && b != 0 then Some(IntVal(TruncDiv(a, b)))
         else None
       case _ => None)
    case _ => None
  }

  /** An integer meaning lies in the i64 range. */
  predicate Representable(m: Option<Val>) {
    m.Some? && m.value.IntVal? ==> InI64(m.value.i)
  }

  /** Integer division by zero. */
  predicate DividesByZero(op: string, a: Option<Val>, b: Option<Val>) {
    op == "SLASH" && a.Some? && a.value.IntVal? && b == Some(IntVal(0))
  }

  /** When evaluation runs to the end: every literal fits an i64, every
      operand of a prefix or infix node has a meaning, no integer division is
      by zero, and every integer result is representable. */
  predicate NoAbort(n: Node)
    decreases n
  {
    match n
    case IntegerLiteral(_, v) => v <= I64_MAX
    case Expression(value) => NoAbort(value)
    case PrefixExpression(_, _, Some(right)) =>
      NoAbort(right) && Meaning(right).Some? && Representable(Meaning(n))
    case InfixExpression(_, op, left, Some(right)) =>
      && NoAbort(left) && Meaning(left).Some?
      && NoAbort(right) && Meaning(right).Some?
      && !DividesByZero(op, Meaning(left), Meaning(right))
      && Representable(Meaning(n))
    case _ => true
  }

  /** An evaluator value and a meaning describe the same thing. */
  predicate Agrees(v: Value, m: Option<Val>) {
    match v
    case None => m.None?
    case Some(Integer(i)) => m == Some(IntVal(i))
    case Some(Boolean(b)) => m == Some(BoolVal(b))
  }

  /** The evaluator aborts exactly when `NoAbort` fails, and otherwise gives
      the reference meaning: a value where the meaning has one, of the same
      type and equal to it, and no value where it has none. */
  lemma {:induction false} EvalMatchesMeaning(n: Node)
    ensures Eval(n).Success? <==> NoAbort(n)
    ensures Eval(n).Success? ==> Agrees(Eval(n).value, Meaning(n))
    decreases n
  {
    match n
    case Expression(value) =>
      EvalMatchesMeaning(value);
    case PrefixExpression(_, op, Some(right)) =>
      EvalMatchesMeaning(right);
      PrefixMatches(n);
    case InfixExpression(_, op, left, Some(right)) =>
      EvalMatchesMeaning(left);
      EvalMatchesMeaning(right);
      InfixMatches(n);
    case _ =>
  }

  /** A prefix node, given that its operand's evaluation matches its meaning. */
  lemma PrefixMatches(n: Node)
    requires n.PrefixExpression? && n.right.Some?
    requires Eval(n.right.value).Success? <==> NoAbort(n.right.value)
    requires Eval(n.right.value).Success? ==> Agrees(Eval(n.right.value).value, Meaning(n.right.value))
    ensures Eval(n).Success? <==> NoAbort(n)
    ensures Eval(n).Success? ==> Agrees(Eval(n).value, Meaning(n))
  {
    var r := Eval(n.right.value);
    if r.Success? && r.value.Some? {
      var o := r.value.value;
      assert Eval(n) == EvalPrefixExpressions(n.operator, o);
      if n.operator == "BANG" {
        assert Eval(n) == Success(EvalBang(o));
      } else if n.operator == "MINUS" {
        assert Eval(n) == EvalMinus(o);
        NegationMatches(n, o);
      } else {
        assert Eval(n) == Success(None);
      }
    }
  }

  /** `-` on an operand's value, against the meaning of the node. */
  lemma NegationMatches(n: Node, o: Object)
    requires n.PrefixExpression? && n.right.Some? && n.operator == "MINUS"
    requires Agrees(Some(o), Meaning(n.right.value))
    ensures EvalMinus(o).Success? <==> Representable(Meaning(n))
    ensures EvalMinus(o).Success? ==> Agrees(EvalMinus(o).value, Meaning(n))
  {
    if o.Integer? {
      var i: int := o.intValue;
      assert Meaning(n) == Some(IntVal(-i));
      assert InI64(-i) <==> i != I64_MIN;
    }
  }

  /** An infix node, given that both operands' evaluations match their meanings. */
  lemma InfixMatches(n: Node)
    requires n.InfixExpression? && n.right.Some?
    requires Eval(n.left).Success? <==> NoAbort(n.left)
    requires Eval(n.left).Success? ==> Agrees(Eval(n.left).value, Meaning(n.left))
    requires Eval(n.right.value).Success? <==> NoAbort(n.right.value)
    requires Eval(n.right.value).Success? ==> Agrees(Eval(n.right.value).value, Meaning(n.right.value))
    ensures Eval(n).Success? <==> NoAbort(n)
    ensures Eval(n).Success? ==> Agrees(Eval(n).value, Meaning(n))
  {
    var l, r := Eval(n.left), Eval(n.right.value);
    if l.Success? && l.value.Some? && r.Success? && r.value.Some? {
      var a, b := l.value.value, r.value.value;
      assert Eval(n) == EvalInfixExpression(n.operator, a, b);
      if a.Integer? && b.Integer? {
        IntegerArithmeticMatches(n, a.intValue, b.intValue);
      }
    }
  }

  /** Arithmetic on two i64 operands, against the meaning of the node. */
  lemma IntegerArithmeticMatches(n: Node, a: i64, b: i64)
    requires n.InfixExpression? && n.right.Some?
    requires Meaning(n.left) == Some(IntVal(a)) && Meaning(n.right.value) == Some(IntVal(b))
    ensures IntegerArithmetic(n.operator, a, b).Success?
            <==> !DividesByZero(n.operator, Meaning(n.left), Meaning(n.right.value)) && Representable(Meaning(n))
    ensures IntegerArithmetic(n.operator, a, b).Success? ==> Agrees(IntegerArithmetic(n.operator, a, b).value, Meaning(n))
  {
  }

  /** The operator name a parsed infix node carries is the one its token is
      given, so the token in the text decides the arithmetic: `+` adds, `-`
      subtracts, `*` multiplies, `/` divides rounding toward zero and means
      nothing by zero, and `<` and `>` mean nothing. */
  lemma InfixTokenMeaning(n: Node, a: int, b: int)
    requires n.InfixExpression? && n.right.Some? && Parser.OperatorFromTok(n.token) == Success(n.operator)
    requires Meaning(n.left) == Some(IntVal(a)) && Meaning(n.right.value) == Some(IntVal(b))
    ensures n.token == Tokens.PLUS ==> Meaning(n) == Some(IntVal(a + b))
    ensures n.token == Tokens.MINUS ==> Meaning(n) == Some(IntVal(a - b))
    ensures n.token == Tokens.ASTERISK ==> Meaning(n) == Some(IntVal(a * b))
    ensures n.token == Tokens.SLASH ==> Meaning(n) == (if b == 0 then None else Some(IntVal(TruncDiv(a, b))))
    ensures n.token == Tokens.LT || n.token == Tokens.GT ==> Meaning(n) == None
  {
  }

  /** No value is never passed on: a prefix node whose operand has no meaning aborts. */
  lemma OperandWithoutMeaningAborts(t: Tokens.Token, op: string, right: Node)
    requires Meaning(right).None?
    ensures Eval(PrefixExpression(t, op, Some(right))).Failure?
  {
    EvalMatchesMeaning(PrefixExpression(t, op, Some(right)));
  }
}
