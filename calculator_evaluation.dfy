/** The stack machine of `calculateRPN` (SmartCalculator.kt) over the output of the converter,
    what one input line does to the stored variables, and the meaning of the machine: on the
    postfix form of an expression tree it computes the value of the tree. */
module RpnEvaluation {
  import opened CalculatorSyntax
  import opened Conversion

  /** How `calculateRPN` finishes without an error: with a value to print, or with a value
      stored under a name (it then prints nothing). */
  datatype Outcome = Value(v: int) | Stored(name: string, v: int)

  /** One operator applied to the two numbers below the top of the stack (first) and on top
      (second). Division truncates toward zero and fails on a zero divisor; a parenthesis
      fails with a type-cast error. Exponentiation goes through floating point in the source
      and is taken here as the parameter `pow`: None stands for an infinite or undefined
      power, which the source cannot turn back into an integer. */
  function Apply(op: Operator, first: int, second: int, pow: (int, int) -> Option<int>): (r: Result<int>)
    ensures r.Err? <==> IsParen(op) || (op == Div && second == 0) || (op == Exp && pow(first, second).None?)
    ensures r.Err? ==> r.error == (if IsParen(op) then TypeCast else if op == Div then Arithmetic else NumberFormat)
    ensures op == Exp && pow(first, second).Some? ==> r == Ok(pow(first, second).value)
    ensures op == Div && second != 0 ==> r == Ok(TruncDiv(first, second)) && Abs(first - r.value * second) < Abs(second)
  {
    match op
    case Add => Ok(first + second)
    case Sub => Ok(first - second)
    case Mul => Ok(first * second)
    case Div =>
      if second == 0 then Err(Arithmetic)
      else
        TruncDivSpec(first, second);
        Ok(TruncDiv(first, second))
    case LeftParen => Err(TypeCast)
    case RightParen => Err(TypeCast)
    case Exp =>
      var power := pow(first, second);
      if power.None? then Err(NumberFormat) else Ok(power.value)
  }

  /** The loop of `calculateRPN` from element list `es` and stack `stack` (top last). A number
      is pushed; an operator replaces the two top numbers by its result and fails on a stack
      with fewer than two; an assignment stores the single number on the stack and ends the
      run; a name is skipped. At the end exactly one number must be left. */
  function Run(es: seq<Element>, stack: seq<int>, pow: (int, int) -> Option<int>): Result<Outcome>
    decreases |es|
  {
    if |es| == 0 then
      if |stack| != 1 then Err(InvalidExpression) else Ok(Value(stack[0]))
    else
      match es[0]
      case NumberElement(v) => Run(es[1..], stack + [v], pow)
      case OperatorElement(op) =>
        if |stack| < 2 then Err(InvalidExpression)
        else
          var r :- Apply(op, stack[|stack| - 2], stack[|stack| - 1], pow);
          Run(es[1..], stack[..|stack| - 2] + [r], pow)
      case AssignmentElement(name) =>
        if |stack| != 1 then Err(InvalidAssignment) else Ok(Stored(name, stack[0]))
      case VariableElement(_) => Run(es[1..], stack, pow)
  }

  // ----- Meaning: expression trees -----

  /** An arithmetic expression as a tree. */
  datatype Expr = Literal(value: int) | Binary(op: Operator, left: Expr, right: Expr)

  /** The value of a tree: the left operand first, then the right, then the operator. */
  function Eval(e: Expr, pow: (int, int) -> Option<int>): Result<int> {
    match e
    case Literal(v) => Ok(v)
    case Binary(op, left, right) =>
      var a :- Eval(left, pow);
      var b :- Eval(right, pow);
      Apply(op, a, b, pow)
  }

  /** The postfix (reverse Polish) form of a tree. */
  function Postfix(e: Expr): seq<Element> {
    match e
    case Literal(v) => [NumberElement(v)]
    case Binary(op, left, right) => Postfix(left) + Postfix(right) + [OperatorElement(op)]
  }

  /** Running the postfix form of a tree pushes its value onto whatever stack is there, or
      fails exactly as evaluating the tree fails. */
  lemma {:induction false} RunPostfix(e: Expr, rest: seq<Element>, stack: seq<int>, pow: (int, int) -> Option<int>)
    ensures Eval(e, pow).Ok? ==> Run(Postfix(e) + rest, stack, pow) == Run(rest, stack + [Eval(e, pow).value], pow)
    ensures Eval(e, pow).Err? ==> Run(Postfix(e) + rest, stack, pow) == Err(Eval(e, pow).error)
  {
    match e
    case Literal(v) =>
      assert (Postfix(e) + rest)[1..] == rest;
    case Binary(op, left, right) =>
      var tail := Postfix(right) + [OperatorElement(op)] + rest;
      assert Postfix(e) + rest == Postfix(left) + tail;
      RunPostfix(left, tail, stack, pow);
      var a := Eval(left, pow);
      if a.Ok? {
        var tail' := [OperatorElement(op)] + rest;
        assert tail == Postfix(right) + tail';
        RunPostfix(right, tail', stack + [a.value], pow);
        var b := Eval(right, pow);
        if b.Ok? {
          RunOperator(op, a.value, b.value, rest, stack, pow);
          assert Eval(e, pow) == Apply(op, a.value, b.value, pow);
        }
      }
  }

  /** An operator element with two numbers on top of the stack replaces them by its result. */
  lemma RunOperator(op: Operator, a: int, b: int, rest: seq<Element>, stack: seq<int>, pow: (int, int) -> Option<int>)
    ensures Apply(op, a, b, pow).Ok? ==>
              Run([OperatorElement(op)] + rest, stack + [a] + [b], pow) == Run(rest, stack + [Apply(op, a, b, pow).value], pow)
    ensures Apply(op, a, b, pow).Err? ==>
              Run([OperatorElement(op)] + rest, stack + [a] + [b], pow) == Err(Apply(op, a, b, pow).error)
  {
    var st := stack + [a] + [b];
    assert st[|st| - 2] == a && st[|st| - 1] == b && st[..|st| - 2] == stack;
    assert ([OperatorElement(op)] + rest)[1..] == rest;
  }

  /** The machine evaluates the postfix form of a tree to the value of the tree. */
  lemma RunComputesEval(e: Expr, pow: (int, int) -> Option<int>)
    ensures Run(Postfix(e), [], pow) ==
              match Eval(e, pow)
              case Ok(v) => Ok(Value(v))
              case Err(x) => Err(x)
  {
    RunPostfix(e, [], [], pow);
    assert Postfix(e) + [] == Postfix(e);
  }

  // ----- Assignment -----

  predicate NoAssignment(es: seq<Element>) {
    forall i :: 0 <= i < |es| ==> !es[i].AssignmentElement?
  }

  /** An assignment element at the end stores what the same run without it would print, and
      fails exactly when that run fails. */
  lemma {:induction false} RunAssignment(es: seq<Element>, name: string, stack: seq<int>, pow: (int, int) -> Option<int>)
    requires NoAssignment(es)
    ensures Run(es + [AssignmentElement(name)], stack, pow).Ok? <==> Run(es, stack, pow).Ok?
    ensures Run(es, stack, pow).Ok? ==>
              Run(es, stack, pow).value.Value? &&
              Run(es + [AssignmentElement(name)], stack, pow) == Ok(Stored(name, Run(es, stack, pow).value.v))
    decreases |es|
  {
    var es' := es + [AssignmentElement(name)];
    if |es| > 0 {
      assert es'[0] == es[0] && es'[1..] == es[1..] + [AssignmentElement(name)];
      assert NoAssignment(es[1..]) by {
        forall i | 0 <= i < |es[1..]| ensures !es[1..][i].AssignmentElement? {
          assert es[1..][i] == es[i + 1];
        }
      }
      assert !es[0].AssignmentElement? by {
        assert es[0] == es[0 + 0];
      }
      match es[0]
      case NumberElement(v) =>
        RunAssignment(es[1..], name, stack + [v], pow);
      case OperatorElement(op) =>
        if |stack| >= 2 {
          var r := Apply(op, stack[|stack| - 2], stack[|stack| - 1], pow);
          if r.Ok? {
            RunAssignment(es[1..], name, stack[..|stack| - 2] + [r.value], pow);
          }
        }
      case VariableElement(_) =>
        RunAssignment(es[1..], name, stack, pow);
    } else {
      assert es' == [AssignmentElement(name)];
    }
  }

  // ----- One input line -----

  /** `calculateRPN` on the tokens of one line: what is printed (nothing on an assignment) or
      the error raised, and the variables afterwards. */
  function Calculation(assignment: Option<string>, tokens: seq<string>, variables: map<string, int>, pow: (int, int) -> Option<int>): (Result<string>, map<string, int>) {
    match Converted(assignment, tokens, variables)
    case Err(e) => (Err(e), variables)
    case Ok(es) =>
      match Run(es, [], pow)
      case Err(e) => (Err(e), variables)
      case Ok(Value(v)) => (Ok(Decimal(v)), variables)
      case Ok(Stored(name, v)) => (Ok(""), variables[name := v])
  }

  /** The converted elements of a plain expression hold no assignment element. */
  lemma ExpressionHasNoAssignment(tokens: seq<string>, variables: map<string, int>)
    ensures Converted(None, tokens, variables).Ok? ==> NoAssignment(Converted(None, tokens, variables).value)
  {
    ConvertedFacts(None, tokens, variables);
    var c := Converted(None, tokens, variables);
    if c.Ok? {
      forall i | 0 <= i < |c.value| ensures !c.value[i].AssignmentElement? {
        assert c.value[i].NumberElement? || c.value[i].OperatorElement?;
      }
    }
  }

  /** A plain expression never changes the variables, and what it prints is a numeral. */
  lemma ExpressionKeepsVariables(tokens: seq<string>, variables: map<string, int>, pow: (int, int) -> Option<int>)
    ensures Calculation(None, tokens, variables, pow).1 == variables
    ensures Calculation(None, tokens, variables, pow).0.Ok? ==> IsNumeral(Calculation(None, tokens, variables, pow).0.value)
  {
    var c := Converted(None, tokens, variables);
    if c.Ok? {
      ExpressionHasNoAssignment(tokens, variables);
      RunAssignment(c.value, "", [], pow);
      var r := Run(c.value, [], pow);
      if r.Ok? && r.value.Value? {
        DecimalRoundTrip(r.value.v);
      }
    }
  }

  /** "name = expression" succeeds exactly when "expression" alone does; it then prints
      nothing and stores under name the number that "expression" alone would print, leaving
      every other variable as it was. A failed assignment stores nothing. */
  lemma AssignmentStores(name: string, tokens: seq<string>, variables: map<string, int>, pow: (int, int) -> Option<int>)
    ensures var (r, after) := Calculation(Some(name), tokens, variables, pow);
            var (printed, _) := Calculation(None, tokens, variables, pow);
            && (r.Ok? <==> printed.Ok?)
            && (r.Ok? ==> r.value == "" && IsNumeral(printed.value) && after == variables[name := NumeralValue(printed.value)])
            && (r.Err? ==> after == variables)
  {
    AssignmentOutput(name, tokens, variables);
    ExpressionHasNoAssignment(tokens, variables);
    var c := Converted(None, tokens, variables);
    if c.Ok? {
      RunAssignment(c.value, name, [], pow);
      var r := Run(c.value, [], pow);
      if r.Ok? {
        DecimalRoundTrip(r.value.v);
      }
    }
  }

  /** "a p b q c" with numerals: the line prints (a p b) q c, or a p (b q c) when q binds
      tighter than p. */
  lemma ThreeOperandsValue(a: string, p: string, b: string, q: string, c: string, variables: map<string, int>, pow: (int, int) -> Option<int>)
    requires IsNumeral(a) && IsNumeral(b) && IsNumeral(c)
    requires IsOperatorRun(p) && !IsNumeral(p) && IsOperatorRun(q) && !IsNumeral(q)
    requires OperatorFor(p).Some? && OperatorFor(q).Some?
    requires !IsParen(OperatorFor(p).value) && !IsParen(OperatorFor(q).value)
    ensures var x, y, z := Literal(NumeralValue(a)), Literal(NumeralValue(b)), Literal(NumeralValue(c));
            var P, Q := OperatorFor(p).value, OperatorFor(q).value;
            var tree := if BindsTighter(Q, P) then Binary(P, x, Binary(Q, y, z)) else Binary(Q, Binary(P, x, y), z);
            Calculation(None, [a, p, b, q, c], variables, pow).0 ==
              match Eval(tree, pow)
              case Ok(v) => Ok(Decimal(v))
              case Err(e) => Err(e)
  {
    var x, y, z := Literal(NumeralValue(a)), Literal(NumeralValue(b)), Literal(NumeralValue(c));
    var P, Q := OperatorFor(p).value, OperatorFor(q).value;
    var tree := if BindsTighter(Q, P) then Binary(P, x, Binary(Q, y, z)) else Binary(Q, Binary(P, x, y), z);
    ThreeOperands(a, p, b, q, c, variables);
    var X, Y, Z := NumberElement(NumeralValue(a)), NumberElement(NumeralValue(b)), NumberElement(NumeralValue(c));
    if BindsTighter(Q, P) {
      assert Postfix(Binary(Q, y, z)) == [Y, Z, OperatorElement(Q)];
      assert Postfix(tree) == [X] + [Y, Z, OperatorElement(Q)] + [OperatorElement(P)];
      assert Postfix(tree) == [X, Y, Z, OperatorElement(Q), OperatorElement(P)];
    } else {
      assert Postfix(Binary(P, x, y)) == [X, Y, OperatorElement(P)];
      assert Postfix(tree) == [X, Y, OperatorElement(P)] + [Z] + [OperatorElement(Q)];
      assert Postfix(tree) == [X, Y, OperatorElement(P), Z, OperatorElement(Q)];
    }
    assert Converted(None, [a, p, b, q, c], variables) == Ok(Postfix(tree));
    RunComputesEval(tree, pow);
  }

  /** Worked cases: 2 - 3 - 4 is (2 - 3) - 4 and 2 + 3 * 4 is 2 + (3 * 4). */
  lemma Examples(variables: map<string, int>, pow: (int, int) -> Option<int>)
    ensures Calculation(None, ["2", "-", "3", "-", "4"], variables, pow).0 == Ok("-5")
    ensures Calculation(None, ["2", "+", "3", "*", "4"], variables, pow).0 == Ok("14")
  {
    assert DigitsValue("2") == 2 && DigitsValue("3") == 3 && DigitsValue("4") == 4;
    ThreeOperandsValue("2", "-", "3", "-", "4", variables, pow);
    ThreeOperandsValue("2", "+", "3", "*", "4", variables, pow);
    assert Decimal(-5) == "-5";
    assert Decimal(14) == "14";
    assert Digits(14) == Digits(1) + [DigitChar(4)];
  }
}
