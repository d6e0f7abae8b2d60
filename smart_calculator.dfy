/** The smart calculator's state and its two loops (SmartCalculator.kt): the stored variables,
    the shunting-yard conversion of `shuntingYard` over an operator stack and an output queue,
    and the stack machine of `calculateRPN`, each proved to compute the functions of the
    Conversion and RpnEvaluation modules. */
module SmartCalculator {
  import opened CalculatorSyntax
  import opened Conversion
  import opened RpnEvaluation

  class Calculator {
    /** The variables assigned so far (the global `variables` map of the source). */
    var variables: map<string, int>

    constructor()
      ensures variables == map[]
    {
      variables := map[];
    }

    /** `shuntingYard` from the token list on; `assignment` is the name before '=' on an
        assignment line. */
    method ShuntingYard(assignment: Option<string>, tokens: seq<string>) returns (r: Result<seq<Element>>)
      ensures r == Converted(assignment, tokens, variables)
    {
      var isAssignment := assignment.Some?;
      var opStack: seq<Operator> := [];
      var output: seq<Element> := [];
      var i := 0;
      while i < |tokens|
        invariant 0 <= i <= |tokens|
        invariant NoCloser(opStack)
        invariant FeedAll(Converter(opStack, output), tokens[i..], isAssignment, variables) ==
                  FeedAll(Converter([], []), tokens, isAssignment, variables)
      {
        assert tokens[i..][0] == tokens[i] && tokens[i..][1..] == tokens[i + 1..];
        FeedAllCons(Converter(opStack, output), tokens[i..], isAssignment, variables);
        var next := TokenStep(opStack, output, tokens[i], isAssignment);
        if next.Err? {
          return Err(next.error);
        }
        opStack, output := next.value.ops, next.value.out;
        i := i + 1;
      }
      while |opStack| > 0
        invariant Drain(Converter(opStack, output), isAssignment) == Drain(FeedAll(Converter([], []), tokens, isAssignment, variables).value, isAssignment)
      {
        if opStack[|opStack| - 1] != LeftParen {
          output := output + [OperatorElement(opStack[|opStack| - 1])];
          opStack := opStack[..|opStack| - 1];
        } else {
          return Err(Blame(isAssignment, InvalidExpression));
        }
      }
      if isAssignment {
        output := output + [AssignmentElement(assignment.value)];
      }
      return Ok(output);
    }

    /** The body of the token loop of `shuntingYard`: a number goes to the output, ')' moves
        operators to the output down to its '(' and drops it, another operator is pushed past
        the operators that bind at least as tightly, and a name is replaced by its value. */
    method TokenStep(opStack: seq<Operator>, output: seq<Element>, token: string, isAssignment: bool) returns (r: Result<Converter>)
      requires NoCloser(opStack)
      ensures r == Step(Converter(opStack, output), token, isAssignment, variables)
    {
      var element := ToElement(token, isAssignment);
      if element.Err? {
        return Err(element.error);
      }
      match element.value {
        case NumberElement(_) =>
          return Ok(Converter(opStack, output + [element.value]));
        case OperatorElement(op) =>
          if op == RightParen {
            if |opStack| < 1 {
              return Err(InvalidExpression);
            }
            var ops, out := PopToOpening(opStack, output);
            if |ops| < 1 || ops[|ops| - 1] != LeftParen {
              return Err(InvalidExpression);
            }
            return Ok(Converter(ops[..|ops| - 1], out));
          } else {
            var ops, out := PushWithPrecedence(op, opStack, output);
            return Ok(Converter(ops, out));
          }
        case VariableElement(name) =>
          if name !in variables {
            return Err(Blame(isAssignment, UnknownVariable));
          }
          return Ok(Converter(opStack, output + [NumberElement(variables[name])]));
        case AssignmentElement(_) =>
          assert false;
          return Err(InvalidExpression);
      }
    }

    /** `calculateRPN` on the tokens of one line: converts them, runs the stack machine, and
        either returns the number to print, or stores the value of an assignment and returns
        nothing to print. `pow` stands for the floating-point power of ^, None when it is not
        finite. */
    method CalculateRpn(assignment: Option<string>, tokens: seq<string>, pow: (int, int) -> Option<int>) returns (r: Result<string>)
      modifies this
      ensures (r, variables) == Calculation(assignment, tokens, old(variables), pow)
    {
      var elements := ShuntingYard(assignment, tokens);
      if elements.Err? {
        return Err(elements.error);
      }
      var es := elements.value;
      var stack: seq<int> := [];
      var i := 0;
      while i < |es|
        invariant 0 <= i <= |es|
        invariant variables == old(variables)
        invariant Run(es[i..], stack, pow) == Run(es, [], pow)
      {
        assert es[i..][0] == es[i] && es[i..][1..] == es[i + 1..];
        match es[i] {
          case NumberElement(v) =>
            stack := stack + [v];
          case OperatorElement(op) =>
            if |stack| < 2 {
              return Err(InvalidExpression);
            }
            var second := stack[|stack| - 1];
            var first := stack[|stack| - 2];
            stack := stack[..|stack| - 2];
            match op {
              case Add => stack := stack + [first + second];
              case Sub => stack := stack + [first - second];
              case Mul => stack := stack + [first * second];
              case Div =>
                if second == 0 {
                  return Err(Arithmetic);
                }
                stack := stack + [TruncDiv(first, second)];
              case LeftParen => return Err(TypeCast);
              case RightParen => return Err(TypeCast);
              case Exp =>
                var power := pow(first, second);
                if power.None? {
                  return Err(NumberFormat);
                }
                stack := stack + [power.value];
            }
          case AssignmentElement(name) =>
            if |stack| != 1 {
              return Err(InvalidAssignment);
            }
            variables := variables[name := stack[0]];
            return Ok("");
          case VariableElement(_) =>
        }
        i := i + 1;
      }
      if |stack| != 1 {
        return Err(InvalidExpression);
      }
      return Ok(Decimal(stack[0]));
    }
  }

  /** The inner loop for ')': move operators to the output until '(' is on top or the stack
      is empty. */
  method PopToOpening(opStack: seq<Operator>, output: seq<Element>) returns (ops: seq<Operator>, out: seq<Element>)
    ensures Converter(ops, out) == PopToParen(Converter(opStack, output))
  {
    ops, out := opStack, output;
    while |ops| > 0 && ops[|ops| - 1] != LeftParen
      invariant PopToParen(Converter(ops, out)) == PopToParen(Converter(opStack, output))
      decreases |ops|
    {
      out := out + [OperatorElement(ops[|ops| - 1])];
      ops := ops[..|ops| - 1];
    }
  }

  /** The inner loop for any other operator: move to the output each operator on top that
      binds at least as tightly, stopping at '(' (never for '(' itself), then push. */
  method PushWithPrecedence(op: Operator, opStack: seq<Operator>, output: seq<Element>) returns (ops: seq<Operator>, out: seq<Element>)
    requires op != RightParen && NoCloser(opStack)
    ensures Converter(ops, out) == PushOperator(op, Converter(opStack, output))
  {
    ops, out := opStack, output;
    while op != LeftParen && |ops| > 0 && ops[|ops| - 1] != LeftParen && Precedence(op, ops[|ops| - 1]) >= 0
      invariant NoCloser(ops)
      invariant PushOperator(op, Converter(ops, out)) == PushOperator(op, Converter(opStack, output))
      decreases |ops|
    {
      out := out + [OperatorElement(ops[|ops| - 1])];
      ops := ops[..|ops| - 1];
    }
    ops := ops + [op];
  }
}
