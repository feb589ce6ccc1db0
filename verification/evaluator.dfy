/** The tree-walking evaluator. Evaluating a node has three outcomes: a value
    (`Success(Some(o))`), no value (`Success(None)`), or an abort (`Failure`),
    which is where the source panics. */
module Evaluator {
  import opened Wrappers
  import opened Decimal
  import opened Ast
  import Objects

  type Object = Objects.Object

  datatype EvalError =
    | MissingOperand      // `expect` on an operand that evaluated to no value
    | NotAnInteger        // `unwrap` on an operand whose text is not an i64
    | Overflow            // i64 arithmetic out of range (a panic in a debug build)
    | DivisionByZero
    | LiteralOutOfRange   // an integer literal above the largest i64

  type Value = Option<Object>

  type Outcome = Result<Value, EvalError>

  function Abs(x: int): nat {
    if x < 0 then -x else x
  }

  /** Rust's integer `/`: the quotient rounded toward zero. The remainder is
      smaller than the divisor and carries the sign of the dividend. */
  function TruncDiv(a: int, b: int): (q: int)
    requires b != 0
    ensures Abs(a - q * b) < Abs(b)
    ensures a - q * b == 0 || (a - q * b < 0 <==> a < 0)
  {
    var m := Abs(a) / Abs(b);
    var rem := Abs(a) % Abs(b);
    assert Abs(a) == m * Abs(b) + rem;
    if (a < 0) == (b < 0) then
      assert a - m * b == (if a < 0 then -rem else rem);
      m
    else
      assert a - (-m) * b == (if a < 0 then -rem else rem);
      -m
  }

  /** An integer result, or an abort when it leaves the i64 range. */
  function Checked(v: int): Outcome {
    if I64_MIN <= v <= I64_MAX then Success(Some(Objects.Object.Integer(v))) else Failure(Overflow)
  }

  predicate InI64(v: int) {
    I64_MIN <= v <= I64_MAX
  }

  /** `eval`: literals give values, a prefix or infix node with both operands
      applies its operator, an `Expression` wrapper is transparent, and every
      other node gives no value. An operand without a value aborts. */
  function Eval(n: Node): (r: Outcome)
    ensures r.Success? && r.value.Some? ==>
              n.IntegerLiteral? || n.Boolean? || n.Expression? || n.PrefixExpression? || n.InfixExpression?
    ensures n.IntegerLiteral? ==> (r.Failure? <==> n.literal > I64_MAX)
    ensures n.InfixExpression? && r.Success? && r.value.Some? ==> r.value.value.Integer?
    ensures n.PrefixExpression? && n.operator == "BANG" && r.Success? && r.value.Some? ==> r.value.value.Boolean?
    ensures n.PrefixExpression? && n.operator == "MINUS" && r.Success? && r.value.Some? ==> r.value.value.Integer?
    decreases n
  {
    match n
    case IntegerLiteral(_, v) =>
      if v <= I64_MAX then Success(Some(Objects.Object.Integer(v))) else Failure(LiteralOutOfRange)
    case Boolean(_, b) => Success(Some(Objects.Object.Boolean(b)))
    case Expression(value) => Eval(value)
    case PrefixExpression(_, op, Some(right)) =>
      var operand :- Eval(right);
      if operand.None? then Failure(MissingOperand)
      else EvalPrefixExpressions(op, operand.value)
    case InfixExpression(_, op, left, Some(right)) =>
      var l :- Eval(left);
      if l.None? then Failure(MissingOperand)
      else
        var r :- Eval(right);
        if r.None? then Failure(MissingOperand)
        else EvalInfixExpression(op, l.value, r.value)
    case _ => Success(None)
  }

  /** `eval_prefix_expressions`: `BANG` and `MINUS`; any other operator gives no value. */
  function EvalPrefixExpressions(op: string, o: Object): (r: Outcome)
    ensures op == "BANG" && o.Boolean? ==> r == Success(Some(Objects.Object.Boolean(!o.boolValue)))
    ensures op == "BANG" && o.Integer? ==> r == Success(None)
    ensures op == "MINUS" && o.Integer? && o.intValue != I64_MIN ==> r == Success(Some(Objects.Object.Integer(-o.intValue)))
    ensures op == "MINUS" && o.Integer? && o.intValue == I64_MIN ==> r == Failure(Overflow)
    ensures op == "MINUS" && o.Boolean? ==> r == Success(None)
    ensures op != "BANG" && op != "MINUS" ==> r == Success(None)
  {
    if op == "BANG" then Success(EvalBang(o))
    else if op == "MINUS" then EvalMinus(o)
    else Success(None)
  }

  /** `eval_bang` reads the operand's text as a boolean: it negates a Boolean
      and gives no value for an Integer. */
  function EvalBang(o: Object): (r: Value)
    ensures o.Boolean? ==> r == Some(Objects.Object.Boolean(!o.boolValue))
    ensures o.Integer? ==> r == None
  {
    match ParseBool(o.Inspect())
    case Some(b) => Some(Objects.Object.Boolean(!b))
    case None => None
  }

  /** `eval_minus` reads the operand's text as an i64: it negates an Integer
      (aborting on the one value whose negation overflows) and gives no value
      for a Boolean. */
  function EvalMinus(o: Object): (r: Outcome)
    ensures o.Integer? && o.intValue != I64_MIN ==> r == Success(Some(Objects.Object.Integer(-o.intValue)))
    ensures o.Integer? && o.intValue == I64_MIN ==> r == Failure(Overflow)
    ensures o.Boolean? ==> r == Success(None)
  {
    match ParseI64(o.Inspect())
    case Some(i) => Checked(-1 * i)
    case None => Success(None)
  }

  /** `eval_infix_expression`: only a pair of Integers has infix rules. */
  function EvalInfixExpression(op: string, left: Object, right: Object): (r: Outcome)
    ensures !(left.Integer? && right.Integer?) ==> r == Success(None)
    ensures left.Integer? && right.Integer? ==> r == EvalIntegerInfixExpression(op, left, right)
    ensures r.Success? && r.value.Some? ==> r.value.value.Integer?
  {
    if left.GetType() == Objects.Integer64 && right.GetType() == Objects.Integer64 then
      EvalIntegerInfixExpression(op, left, right)
    else Success(None)
  }

  /** Integer arithmetic on two i64 operands: `PLUS`, `MINUS`, `ASTERISK` and
      `SLASH` (rounding toward zero) give an Integer or abort when the result
      leaves the i64 range; `SLASH` by zero aborts; any other operator gives
      no value. */
  function IntegerArithmetic(op: string, a: i64, b: i64): (r: Outcome)
    ensures r.Success? && r.value.Some? ==> r.value.value.Integer?
  {
    if op == "PLUS" then Checked(a + b)
    else if op == "MINUS" then Checked(a - b)
    else if op == "ASTERISK" then Checked(a * b)
    else if op == "SLASH" then
      if b == 0 then Failure(DivisionByZero) else Checked(TruncDiv(a, b))
    else Success(None)
  }

  /** `eval_integer_infix_express`: both operands are read back from their text
      as i64 (an `unwrap`), then the integer arithmetic applies. For Integer
      operands this is arithmetic on their values. */
  function EvalIntegerInfixExpression(op: string, left: Object, right: Object): (r: Outcome)
    ensures !(left.Integer? && right.Integer?) ==> r == Failure(NotAnInteger)
    ensures left.Integer? && right.Integer? ==> r == IntegerArithmetic(op, left.intValue, right.intValue)
  {
    var a := ParseI64(left.Inspect());
    var b := ParseI64(right.Inspect());
    if a.None? || b.None? then Failure(NotAnInteger)
    else IntegerArithmetic(op, a.value, b.value)
  }

  /** `eval_program`. */
  function EvalProgram(p: Program): (r: Outcome)
    ensures p.statements == [] ==> r == Success(None)
    ensures (forall i | 0 <= i < |p.statements| :: Eval(p.statements[i]).Success?) && p.statements != [] ==>
              r == Eval(p.statements[|p.statements| - 1])
    ensures r.Failure? <==> exists i | 0 <= i < |p.statements| :: Eval(p.statements[i]).Failure?
  {
    EvalStatements(p.statements)
  }

  /** `eval_statements`: every statement is evaluated in order and the last
      result is kept; a program with no statements has no value, and the
      first abort aborts the whole run. */
  function EvalStatements(statements: seq<Node>): (r: Outcome)
    ensures (forall i | 0 <= i < |statements| :: Eval(statements[i]).Success?) ==>
              r == (if statements == [] then Success(None) else Eval(statements[|statements| - 1]))
    ensures (exists i | 0 <= i < |statements| :: Eval(statements[i]).Failure?) ==> r.Failure?
    ensures r.Failure? ==> exists i | 0 <= i < |statements| ::
              Eval(statements[i]) == r && forall j | 0 <= j < i :: Eval(statements[j]).Success?
  {
    RunStatements(statements, None)
  }

  /** The `for` loop of `eval_statements`, with `result` the value so far. */
  function RunStatements(statements: seq<Node>, result: Value): (r: Outcome)
    ensures (forall i | 0 <= i < |statements| :: Eval(statements[i]).Success?) ==>
              r == (if statements == [] then Success(result) else Eval(statements[|statements| - 1]))
    ensures (exists i | 0 <= i < |statements| :: Eval(statements[i]).Failure?) ==> r.Failure?
    ensures r.Failure? ==> exists i | 0 <= i < |statements| ::
              Eval(statements[i]) == r && forall j | 0 <= j < i :: Eval(statements[j]).Success?
    decreases |statements|
  {
    if statements == [] then Success(result)
    else
      var v :- Eval(statements[0]);
      RunStatements(statements[1..], v)
  }
}
