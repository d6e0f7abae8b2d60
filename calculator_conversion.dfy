/** The shunting-yard conversion of `shuntingYard` (SmartCalculator.kt) from the token list on,
    as a fold over the tokens of a state made of the operator stack and the output queue, and
    what it guarantees: the output holds the operands in input order, every operator except
    the parentheses, no parenthesis, and succeeds exactly when every token reads and the
    parentheses balance. */
module Conversion {
  import opened CalculatorSyntax

  /** The exceptions of SmartCalculator.kt, one per kind. InvalidIdentifier is declared and
      caught there but never raised. UnsupportedOperation, TypeCast, Arithmetic (division
      by zero) and NumberFormat (a power too large for a finite double) reach the catch-all
      handler of `main`. */
  datatype CalcError =
    | InvalidIdentifier
    | InvalidAssignment
    | UnknownVariable
    | InvalidExpression
    | UnsupportedOperation
    | TypeCast
    | Arithmetic
    | NumberFormat

  datatype Result<T> = Ok(value: T) | Err(error: CalcError) {
    predicate IsFailure() {
      Err?
    }

    function PropagateFailure<U>(): Result<U>
      requires Err?
    {
      Err(error)
    }

    function Extract(): T
      requires Ok?
    {
      value
    }
  }

  /** The element kinds of the converter's input and output. */
  datatype Element =
    | NumberElement(value: int)
    | VariableElement(name: string)
    | OperatorElement(op: Operator)
    | AssignmentElement(name: string)

  /** The error for a token that fits no element kind, or for a name or parenthesis gone
      wrong inside an assignment. */
  function Blame(isAssignment: bool, otherwise: CalcError): CalcError {
    if isAssignment then InvalidAssignment else otherwise
  }

  /** Classifying one token: a numeral, a name, or an operator run, tried in that order. */
  function ToElement(token: string, isAssignment: bool): Result<Element> {
    if IsNumeral(token) then Ok(NumberElement(NumeralValue(token)))
    else if IsWord(token) then Ok(VariableElement(token))
    else if IsOperatorRun(token) then
      match OperatorFor(token)
      case Some(op) => Ok(OperatorElement(op))
      case None => Err(Blame(isAssignment, UnsupportedOperation))
    else Err(Blame(isAssignment, InvalidExpression))
  }

  /** A token as the converter uses it: classified, with a name replaced by its stored value. */
  function Read(token: string, isAssignment: bool, variables: map<string, int>): Result<Element> {
    var e :- ToElement(token, isAssignment);
    if !e.VariableElement? then Ok(e)
    else if e.name in variables then Ok(NumberElement(variables[e.name]))
    else Err(Blame(isAssignment, UnknownVariable))
  }

  /** A read token is a number or an operator: names never get past the lookup. */
  lemma ReadKinds(token: string, isAssignment: bool, variables: map<string, int>)
    ensures Read(token, isAssignment, variables).Ok? ==>
              Read(token, isAssignment, variables).value.NumberElement? || Read(token, isAssignment, variables).value.OperatorElement?
    ensures Read(token, isAssignment, variables).Ok? <==> Read(token, false, variables).Ok?
    ensures Read(token, isAssignment, variables).Ok? ==> Read(token, isAssignment, variables) == Read(token, false, variables)
  {
    if IsOperatorRun(token) {
      OperatorRunMaps(token);
    }
  }

  /** The converter's state: the operator stack (top last) and the output queue. */
  datatype Converter = Converter(ops: seq<Operator>, out: seq<Element>)

  /** The stack never holds a closing parenthesis. */
  predicate NoCloser(ops: seq<Operator>) {
    forall i :: 0 <= i < |ops| ==> ops[i] != RightParen
  }

  /** Output elements are numbers and operators other than the parentheses. */
  predicate Clean(es: seq<Element>) {
    forall i :: 0 <= i < |es| ==> es[i].NumberElement? || (es[i].OperatorElement? && !IsParen(es[i].op))
  }

  /** Move the top operator to the output. */
  function Pop(c: Converter): (c': Converter)
    requires |c.ops| > 0
    ensures |c'.ops| == |c.ops| - 1
  {
    Converter(c.ops[..|c.ops| - 1], c.out + [OperatorElement(c.ops[|c.ops| - 1])])
  }

  /** The loop of a closing parenthesis: move operators to the output until a '(' is on top
      or the stack is empty. */
  function PopToParen(c: Converter): (c': Converter)
    ensures |c'.ops| == 0 || c'.ops[|c'.ops| - 1] == LeftParen
    decreases |c.ops|
  {
    if |c.ops| > 0 && c.ops[|c.ops| - 1] != LeftParen then PopToParen(Pop(c)) else c
  }

  /** A closing parenthesis: pop to the nearest '(' and discard it; with no '(' on the stack
      the expression is invalid. */
  function CloseParen(c: Converter): Result<Converter> {
    if |c.ops| < 1 then Err(InvalidExpression)
    else
      var c' := PopToParen(c);
      if |c'.ops| < 1 || c'.ops[|c'.ops| - 1] != LeftParen then Err(InvalidExpression)
      else Ok(Converter(c'.ops[..|c'.ops| - 1], c'.out))
  }

  /** Any other operator: while the top is an operator other than '(' that binds at least as
      tightly, move it to the output; then push. '(' is pushed at once. */
  function PushOperator(op: Operator, c: Converter): Converter
    requires op != RightParen && NoCloser(c.ops)
    decreases |c.ops|
  {
    if op != LeftParen && |c.ops| > 0 && c.ops[|c.ops| - 1] != LeftParen && Precedence(op, c.ops[|c.ops| - 1]) >= 0 then
      PushOperator(op, Pop(c))
    else
      Converter(c.ops + [op], c.out)
  }

  /** One token of the loop of `shuntingYard`. */
  function Step(c: Converter, token: string, isAssignment: bool, variables: map<string, int>): Result<Converter>
    requires NoCloser(c.ops)
  {
    var e :- Read(token, isAssignment, variables);
    if e.OperatorElement? && e.op == RightParen then CloseParen(c)
    else if e.OperatorElement? then Ok(PushOperator(e.op, c))
    else Ok(Converter(c.ops, c.out + [e]))
  }

  /** The whole token loop, from state c. */
  function FeedAll(c: Converter, tokens: seq<string>, isAssignment: bool, variables: map<string, int>): Result<Converter>
    requires NoCloser(c.ops)
    decreases |tokens|
  {
    if |tokens| == 0 then Ok(c)
    else
      StepKeepsNoCloser(c, tokens[0], isAssignment, variables);
      var c' :- Step(c, tokens[0], isAssignment, variables);
      FeedAll(c', tokens[1..], isAssignment, variables)
  }

  /** The token loop on a non-empty list: one step, then the rest from the state it leaves. */
  lemma FeedAllCons(c: Converter, tokens: seq<string>, isAssignment: bool, variables: map<string, int>)
    requires NoCloser(c.ops) && |tokens| > 0
    ensures var s := Step(c, tokens[0], isAssignment, variables);
            && (s.Ok? ==> NoCloser(s.value.ops))
            && FeedAll(c, tokens, isAssignment, variables) ==
                 if s.Err? then Err(s.error) else FeedAll(s.value, tokens[1..], isAssignment, variables)
  {
    StepKeepsNoCloser(c, tokens[0], isAssignment, variables);
  }

  /** The final loop: move the remaining operators to the output, top first; a '(' left over
      is an error. */
  function Drain(c: Converter, isAssignment: bool): Result<seq<Element>>
    decreases |c.ops|
  {
    if |c.ops| == 0 then Ok(c.out)
    else if c.ops[|c.ops| - 1] != LeftParen then Drain(Pop(c), isAssignment)
    else Err(Blame(isAssignment, InvalidExpression))
  }

  /** `shuntingYard` from the token list on: `assignment` is the name before '=' when the line
      is an assignment, and then its element closes the output. */
  function Converted(assignment: Option<string>, tokens: seq<string>, variables: map<string, int>): Result<seq<Element>> {
    var c :- FeedAll(Converter([], []), tokens, assignment.Some?, variables);
    var out :- Drain(c, assignment.Some?);
    Ok(if assignment.Some? then out + [AssignmentElement(assignment.value)] else out)
  }

  lemma StepKeepsNoCloser(c: Converter, token: string, isAssignment: bool, variables: map<string, int>)
    requires NoCloser(c.ops)
    ensures Step(c, token, isAssignment, variables).Ok? ==> NoCloser(Step(c, token, isAssignment, variables).value.ops)
  {
    var r := Read(token, isAssignment, variables);
    if r.Ok? && r.value.OperatorElement? && r.value.op != RightParen {
      PushKeepsNoCloser(r.value.op, c);
    } else if r.Ok? && r.value.OperatorElement? {
      PopToParenKeepsNoCloser(c);
    }
  }

  lemma {:induction false} PushKeepsNoCloser(op: Operator, c: Converter)
    requires op != RightParen && NoCloser(c.ops)
    ensures NoCloser(PushOperator(op, c).ops)
    decreases |c.ops|
  {
    if op != LeftParen && |c.ops| > 0 && c.ops[|c.ops| - 1] != LeftParen && Precedence(op, c.ops[|c.ops| - 1]) >= 0 {
      PushKeepsNoCloser(op, Pop(c));
    }
  }

  lemma {:induction false} PopToParenKeepsNoCloser(c: Converter)
    requires NoCloser(c.ops)
    ensures NoCloser(PopToParen(c).ops)
    decreases |c.ops|
  {
    if |c.ops| > 0 && c.ops[|c.ops| - 1] != LeftParen {
      PopToParenKeepsNoCloser(Pop(c));
    }
  }

  // ----- What the output holds -----

  /** The numbers of a sequence of elements, in order. */
  function Operands(es: seq<Element>): seq<int>
    decreases |es|
  {
    if |es| == 0 then []
    else Operands(es[..|es| - 1]) + (if es[|es| - 1].NumberElement? then [es[|es| - 1].value] else [])
  }

  /** The operators of a sequence of elements, parentheses excluded. */
  function OperatorBag(es: seq<Element>): multiset<Operator>
    decreases |es|
  {
    if |es| == 0 then multiset{}
    else
      var e := es[|es| - 1];
      OperatorBag(es[..|es| - 1]) + (if e.OperatorElement? && !IsParen(e.op) then multiset{e.op} else multiset{})
  }

  /** The operators on a stack, parentheses excluded. */
  function StackBag(ops: seq<Operator>): multiset<Operator>
    decreases |ops|
  {
    if |ops| == 0 then multiset{}
    else StackBag(ops[..|ops| - 1]) + (if IsParen(ops[|ops| - 1]) then multiset{} else multiset{ops[|ops| - 1]})
  }

  /** How many '(' a stack holds. */
  function Openers(ops: seq<Operator>): nat
    decreases |ops|
  {
    if |ops| == 0 then 0 else Openers(ops[..|ops| - 1]) + (if ops[|ops| - 1] == LeftParen then 1 else 0)
  }

  lemma {:induction false} OperandsAppend(a: seq<Element>, b: seq<Element>)
    ensures Operands(a + b) == Operands(a) + Operands(b)
    decreases |b|
  {
    if |b| > 0 {
      assert (a + b)[..|a + b| - 1] == a + b[..|b| - 1];
      OperandsAppend(a, b[..|b| - 1]);
    } else {
      assert a + b == a;
    }
  }

  lemma {:induction false} OperatorBagAppend(a: seq<Element>, b: seq<Element>)
    ensures OperatorBag(a + b) == OperatorBag(a) + OperatorBag(b)
    decreases |b|
  {
    if |b| > 0 {
      assert (a + b)[..|a + b| - 1] == a + b[..|b| - 1];
      OperatorBagAppend(a, b[..|b| - 1]);
    } else {
      assert a + b == a;
    }
  }

  /** Popping moves one operator from the stack to the output. */
  lemma PopFacts(c: Converter)
    requires |c.ops| > 0 && NoCloser(c.ops) && Clean(c.out) && c.ops[|c.ops| - 1] != LeftParen
    ensures var c' := Pop(c);
            && NoCloser(c'.ops) && Clean(c'.out)
            && Operands(c'.out) == Operands(c.out)
            && OperatorBag(c'.out) + StackBag(c'.ops) == OperatorBag(c.out) + StackBag(c.ops)
            && Openers(c'.ops) == Openers(c.ops)
  {
    var c' := Pop(c);
    assert c'.out[..|c'.out| - 1] == c.out;
  }

  /** The closing-parenthesis loop only moves operators other than '(' to the output. */
  lemma {:induction false} PopToParenFacts(c: Converter)
    requires NoCloser(c.ops) && Clean(c.out)
    ensures var c' := PopToParen(c);
            && NoCloser(c'.ops) && Clean(c'.out)
            && Operands(c'.out) == Operands(c.out)
            && OperatorBag(c'.out) + StackBag(c'.ops) == OperatorBag(c.out) + StackBag(c.ops)
            && Openers(c'.ops) == Openers(c.ops)
    decreases |c.ops|
  {
    if |c.ops| > 0 && c.ops[|c.ops| - 1] != LeftParen {
      PopFacts(c);
      PopToParenFacts(Pop(c));
    }
  }

  /** A closing parenthesis succeeds exactly when a '(' is on the stack, and removes one. */
  lemma CloseParenFacts(c: Converter)
    requires NoCloser(c.ops) && Clean(c.out)
    ensures CloseParen(c).Ok? <==> Openers(c.ops) > 0
    ensures CloseParen(c).Ok? ==>
              var c' := CloseParen(c).value;
              && NoCloser(c'.ops) && Clean(c'.out)
              && Operands(c'.out) == Operands(c.out)
              && OperatorBag(c'.out) + StackBag(c'.ops) == OperatorBag(c.out) + StackBag(c.ops)
              && Openers(c'.ops) + 1 == Openers(c.ops)
  {
    PopToParenFacts(c);
    var p := PopToParen(c);
    if |p.ops| > 0 {
      assert Openers(p.ops) == Openers(p.ops[..|p.ops| - 1]) + 1;
      assert StackBag(p.ops) == StackBag(p.ops[..|p.ops| - 1]);
    } else if |c.ops| > 0 {
      assert Openers(p.ops) == 0;
    }
  }

  /** Pushing an operator other than ')' puts it, or rather its non-parenthesis part, in the
      stack or the output and nothing else moves but operators. */
  lemma {:induction false} PushFacts(op: Operator, c: Converter)
    requires op != RightParen && NoCloser(c.ops) && Clean(c.out)
    ensures var c' := PushOperator(op, c);
            && NoCloser(c'.ops) && Clean(c'.out)
            && Operands(c'.out) == Operands(c.out)
            && OperatorBag(c'.out) + StackBag(c'.ops) == OperatorBag(c.out) + StackBag(c.ops) + OperatorBag([OperatorElement(op)])
            && Openers(c'.ops) == Openers(c.ops) + (if op == LeftParen then 1 else 0)
    decreases |c.ops|
  {
    if op != LeftParen && |c.ops| > 0 && c.ops[|c.ops| - 1] != LeftParen && Precedence(op, c.ops[|c.ops| - 1]) >= 0 {
      PopFacts(c);
      PushFacts(op, Pop(c));
    } else {
      var ops' := c.ops + [op];
      assert ops'[..|ops'| - 1] == c.ops;
      assert OperatorBag([OperatorElement(op)]) == OperatorBag([]) + (if IsParen(op) then multiset{} else multiset{op});
    }
  }

  /** Number of '(' minus number of ')' among the elements. */
  function Depth(es: seq<Element>): int
    decreases |es|
  {
    if |es| == 0 then 0
    else
      var e := es[0];
      (if e == OperatorElement(LeftParen) then 1 else if e == OperatorElement(RightParen) then -1 else 0) + Depth(es[1..])
  }

  /** Starting with d unclosed '(', every ')' of es closes one. */
  predicate ClosersMatched(d: int, es: seq<Element>)
    decreases |es|
  {
    if |es| == 0 then true
    else if es[0] == OperatorElement(RightParen) then d > 0 && ClosersMatched(d - 1, es[1..])
    else if es[0] == OperatorElement(LeftParen) then ClosersMatched(d + 1, es[1..])
    else ClosersMatched(d, es[1..])
  }

  /** The parentheses of es balance. */
  predicate Balanced(es: seq<Element>) {
    ClosersMatched(0, es) && Depth(es) == 0
  }

  /** Every token reads. */
  predicate AllRead(tokens: seq<string>, variables: map<string, int>) {
    forall i :: 0 <= i < |tokens| ==> Read(tokens[i], false, variables).Ok?
  }

  /** The elements the tokens read as. */
  function Readings(tokens: seq<string>, variables: map<string, int>): seq<Element>
    requires AllRead(tokens, variables)
    decreases |tokens|
  {
    if |tokens| == 0 then [] else [Read(tokens[0], false, variables).value] + Readings(tokens[1..], variables)
  }

  /** The operators held by a converter state, in its output and on its stack, parentheses
      excluded. */
  function Bag(c: Converter): multiset<Operator> {
    OperatorBag(c.out) + StackBag(c.ops)
  }

  /** Going from state c to state c' has consumed the elements es: the output gained their
      operands in order, their operators were added to those held, and the '(' count moved by
      their depth. */
  predicate Accounts(c: Converter, c': Converter, es: seq<Element>) {
    && NoCloser(c'.ops) && Clean(c'.out)
    && Operands(c'.out) == Operands(c.out) + Operands(es)
    && Bag(c') == Bag(c) + OperatorBag(es)
    && Openers(c'.ops) == Openers(c.ops) + Depth(es)
  }

  lemma AccountsChain(c: Converter, c1: Converter, c2: Converter, e: Element, rest: seq<Element>)
    requires Accounts(c, c1, [e]) && Accounts(c1, c2, rest)
    ensures Accounts(c, c2, [e] + rest)
  {
    OperandsAppend([e], rest);
    OperatorBagAppend([e], rest);
    assert ([e] + rest)[1..] == rest;
    assert Depth([e]) == (if e == OperatorElement(LeftParen) then 1 else if e == OperatorElement(RightParen) then -1 else 0) + Depth([]);
    var held, first, later := Bag(c), OperatorBag([e]), OperatorBag(rest);
    assert Bag(c2) == held + first + later;
    assert held + first + later == held + (first + later);
    var before, now, after := Operands(c.out), Operands([e]), Operands(rest);
    assert Operands(c2.out) == before + now + after;
    AppendAssociates(before, now, after);
  }

  lemma AppendAssociates<T>(a: seq<T>, b: seq<T>, c: seq<T>)
    ensures a + b + c == a + (b + c)
  {
  }

  /** One token: it fails only when it does not read or is a ')' without a '(' to close. */
  lemma StepSucceeds(c: Converter, token: string, isAssignment: bool, variables: map<string, int>)
    requires NoCloser(c.ops) && Clean(c.out)
    ensures var r := Read(token, false, variables);
            Step(c, token, isAssignment, variables).Ok? <==>
              r.Ok? && (r.value == OperatorElement(RightParen) ==> Openers(c.ops) > 0)
  {
    ReadKinds(token, isAssignment, variables);
    var r := Read(token, isAssignment, variables);
    if r.Ok? && r.value.OperatorElement? && r.value.op == RightParen {
      CloseParenFacts(c);
    }
  }

  /** One token that is consumed accounts for the element it reads as. */
  lemma StepOutput(c: Converter, token: string, isAssignment: bool, variables: map<string, int>)
    requires NoCloser(c.ops) && Clean(c.out) && Step(c, token, isAssignment, variables).Ok?
    ensures Read(token, false, variables).Ok?
    ensures Accounts(c, Step(c, token, isAssignment, variables).value, [Read(token, false, variables).value])
  {
    ReadKinds(token, isAssignment, variables);
    var e := Read(token, isAssignment, variables).value;
    assert Depth([e]) == (if e == OperatorElement(LeftParen) then 1 else if e == OperatorElement(RightParen) then -1 else 0) + Depth([]);
    if e.OperatorElement? && e.op == RightParen {
      CloseParenFacts(c);
      assert OperatorBag([e]) == multiset{};
    } else if e.OperatorElement? {
      PushFacts(e.op, c);
      assert Operands([e]) == [];
    } else {
      assert (c.out + [e])[..|c.out|] == c.out;
      assert OperatorBag([e]) == multiset{};
      assert Operands([e]) == [e.value];
    }
  }

  /** Reading the first token and then the rest. */
  lemma ReadingsCons(tokens: seq<string>, variables: map<string, int>)
    requires |tokens| > 0
    ensures AllRead(tokens, variables) <==> Read(tokens[0], false, variables).Ok? && AllRead(tokens[1..], variables)
    ensures AllRead(tokens, variables) ==>
              Readings(tokens, variables) == [Read(tokens[0], false, variables).value] + Readings(tokens[1..], variables)
  {
    assert forall i :: 1 <= i < |tokens| ==> tokens[i] == tokens[1..][i - 1];
  }

  /** A ')' first needs an unclosed '('; the rest starts from the depth after the first. */
  lemma MatchedCons(d: int, d': int, e: Element, rest: seq<Element>)
    requires d' == d + Depth([e])
    ensures ClosersMatched(d, [e] + rest) <==>
              (e == OperatorElement(RightParen) ==> d > 0) && ClosersMatched(d', rest)
  {
    assert ([e] + rest)[1..] == rest;
    assert Depth([e]) == (if e == OperatorElement(LeftParen) then 1 else if e == OperatorElement(RightParen) then -1 else 0) + Depth([]);
  }

  /** The token loop succeeds exactly when every token reads and every ')' finds a '('. */
  lemma {:induction false} FeedAllSucceeds(c: Converter, tokens: seq<string>, isAssignment: bool, variables: map<string, int>)
    requires NoCloser(c.ops) && Clean(c.out)
    ensures FeedAll(c, tokens, isAssignment, variables).Ok? <==>
              AllRead(tokens, variables) && ClosersMatched(Openers(c.ops), Readings(tokens, variables))
    decreases |tokens|
  {
    if |tokens| > 0 {
      var s := Step(c, tokens[0], isAssignment, variables);
      if s.Ok? {
        StepOutput(c, tokens[0], isAssignment, variables);
        FeedAllSucceeds(s.value, tokens[1..], isAssignment, variables);
        SucceedsAfterStep(c, tokens, isAssignment, variables);
      } else {
        FailsAtStep(c, tokens, isAssignment, variables);
      }
    }
  }

  /** A first token that is consumed: the loop succeeds exactly when it succeeds on the rest. */
  lemma SucceedsAfterStep(c: Converter, tokens: seq<string>, isAssignment: bool, variables: map<string, int>)
    requires NoCloser(c.ops) && Clean(c.out) && |tokens| > 0
    requires Step(c, tokens[0], isAssignment, variables).Ok?
    requires var c1 := Step(c, tokens[0], isAssignment, variables).value;
             && Accounts(c, c1, [Read(tokens[0], false, variables).value])
             && (FeedAll(c1, tokens[1..], isAssignment, variables).Ok? <==>
                   AllRead(tokens[1..], variables) && ClosersMatched(Openers(c1.ops), Readings(tokens[1..], variables)))
    ensures FeedAll(c, tokens, isAssignment, variables).Ok? <==>
              AllRead(tokens, variables) && ClosersMatched(Openers(c.ops), Readings(tokens, variables))
  {
    StepSucceeds(c, tokens[0], isAssignment, variables);
    ReadingsCons(tokens, variables);
    var c1 := Step(c, tokens[0], isAssignment, variables).value;
    assert FeedAll(c, tokens, isAssignment, variables) == FeedAll(c1, tokens[1..], isAssignment, variables);
    if AllRead(tokens, variables) {
      MatchedCons(Openers(c.ops), Openers(c1.ops), Read(tokens[0], false, variables).value, Readings(tokens[1..], variables));
    }
  }

  /** A first token that is not consumed: the loop fails, and the token does not read or is a
      ')' without a '('. */
  lemma FailsAtStep(c: Converter, tokens: seq<string>, isAssignment: bool, variables: map<string, int>)
    requires NoCloser(c.ops) && Clean(c.out) && |tokens| > 0
    requires Step(c, tokens[0], isAssignment, variables).Err?
    ensures FeedAll(c, tokens, isAssignment, variables).Err?
    ensures !(AllRead(tokens, variables) && ClosersMatched(Openers(c.ops), Readings(tokens, variables)))
  {
    StepSucceeds(c, tokens[0], isAssignment, variables);
    ReadingsCons(tokens, variables);
    if AllRead(tokens, variables) {
      var e := Read(tokens[0], false, variables).value;
      MatchedCons(Openers(c.ops), Openers(c.ops) + Depth([e]), e, Readings(tokens[1..], variables));
    }
  }

  /** After the token loop the output has gained the operands in order, and operators have
      only moved between the input, the stack and the output. */
  lemma {:induction false} FeedAllOutput(c: Converter, tokens: seq<string>, isAssignment: bool, variables: map<string, int>)
    requires NoCloser(c.ops) && Clean(c.out)
    requires FeedAll(c, tokens, isAssignment, variables).Ok? && AllRead(tokens, variables)
    ensures Accounts(c, FeedAll(c, tokens, isAssignment, variables).value, Readings(tokens, variables))
    decreases |tokens|
  {
    if |tokens| > 0 {
      StepOutput(c, tokens[0], isAssignment, variables);
      ReadingsCons(tokens, variables);
      var c1 := Step(c, tokens[0], isAssignment, variables).value;
      assert FeedAll(c, tokens, isAssignment, variables) == FeedAll(c1, tokens[1..], isAssignment, variables);
      FeedAllOutput(c1, tokens[1..], isAssignment, variables);
      AccountsChain(c, c1, FeedAll(c, tokens, isAssignment, variables).value,
                    Read(tokens[0], false, variables).value, Readings(tokens[1..], variables));
    } else {
      assert OperatorBag([]) == multiset{};
    }
  }

  /** The final loop succeeds exactly when no '(' is left, and appends the stacked operators. */
  lemma {:induction false} DrainFacts(c: Converter, isAssignment: bool)
    requires NoCloser(c.ops) && Clean(c.out)
    ensures Drain(c, isAssignment).Ok? <==> Openers(c.ops) == 0
    ensures Drain(c, isAssignment).Ok? ==>
              var out := Drain(c, isAssignment).value;
              Clean(out) && Operands(out) == Operands(c.out) && OperatorBag(out) == OperatorBag(c.out) + StackBag(c.ops)
    decreases |c.ops|
  {
    if |c.ops| > 0 {
      if c.ops[|c.ops| - 1] != LeftParen {
        PopFacts(c);
        DrainFacts(Pop(c), isAssignment);
      } else {
        assert Openers(c.ops) == Openers(c.ops[..|c.ops| - 1]) + 1;
      }
    }
  }

  /** What `shuntingYard` guarantees: it succeeds exactly when every token reads and the
      parentheses balance; then the output, before the assignment element that closes it on
      an assignment, holds no parenthesis and no name, the operands in input order and the
      operators of the input. */
  lemma ConvertedFacts(assignment: Option<string>, tokens: seq<string>, variables: map<string, int>)
    ensures Converted(assignment, tokens, variables).Ok? <==>
              AllRead(tokens, variables) && Balanced(Readings(tokens, variables))
    ensures Converted(assignment, tokens, variables).Ok? ==>
              var out, es := Converted(assignment, tokens, variables).value, Readings(tokens, variables);
              var body := if assignment.Some? then out[..|out| - 1] else out;
              && (assignment.Some? ==> |out| >= 1 && out[|out| - 1] == AssignmentElement(assignment.value))
              && Clean(body)
              && Operands(body) == Operands(es)
              && OperatorBag(body) == OperatorBag(es)
  {
    var c0 := Converter([], []);
    FeedAllSucceeds(c0, tokens, assignment.Some?, variables);
    var f := FeedAll(c0, tokens, assignment.Some?, variables);
    if f.Ok? {
      FeedAllOutput(c0, tokens, assignment.Some?, variables);
      DrainFacts(f.value, assignment.Some?);
      var d := Drain(f.value, assignment.Some?);
      if d.Ok? {
        var out := Converted(assignment, tokens, variables).value;
        if assignment.Some? {
          assert out[..|out| - 1] == d.value;
        }
      }
    }
  }

  // ----- Assignments -----

  /** Whether the line is an assignment changes only which error is raised, never a success. */
  lemma {:induction false} FeedAllIgnoresAssignment(c: Converter, tokens: seq<string>, variables: map<string, int>)
    requires NoCloser(c.ops)
    ensures FeedAll(c, tokens, true, variables).Ok? <==> FeedAll(c, tokens, false, variables).Ok?
    ensures FeedAll(c, tokens, true, variables).Ok? ==> FeedAll(c, tokens, true, variables) == FeedAll(c, tokens, false, variables)
    decreases |tokens|
  {
    if |tokens| > 0 {
      ReadKinds(tokens[0], true, variables);
      StepKeepsNoCloser(c, tokens[0], false, variables);
      var s := Step(c, tokens[0], false, variables);
      if s.Ok? {
        assert Step(c, tokens[0], true, variables) == s;
        FeedAllIgnoresAssignment(s.value, tokens[1..], variables);
      } else {
        assert Step(c, tokens[0], true, variables).Err?;
      }
    }
  }

  lemma {:induction false} DrainIgnoresAssignment(c: Converter)
    ensures Drain(c, true).Ok? <==> Drain(c, false).Ok?
    ensures Drain(c, true).Ok? ==> Drain(c, true) == Drain(c, false)
    decreases |c.ops|
  {
    if |c.ops| > 0 && c.ops[|c.ops| - 1] != LeftParen {
      DrainIgnoresAssignment(Pop(c));
    }
  }

  /** "name = expression" converts exactly when "expression" does, to the same elements
      followed by the assignment element. */
  lemma AssignmentOutput(name: string, tokens: seq<string>, variables: map<string, int>)
    ensures Converted(Some(name), tokens, variables).Ok? <==> Converted(None, tokens, variables).Ok?
    ensures Converted(Some(name), tokens, variables).Ok? ==>
              Converted(Some(name), tokens, variables).value == Converted(None, tokens, variables).value + [AssignmentElement(name)]
  {
    var c0 := Converter([], []);
    FeedAllIgnoresAssignment(c0, tokens, variables);
    var f := FeedAll(c0, tokens, false, variables);
    if f.Ok? {
      DrainIgnoresAssignment(f.value);
    }
  }

  /** The errors an assignment can raise while converting. */
  predicate AssignmentError(e: CalcError) {
    e == InvalidAssignment || e == InvalidExpression
  }

  /** The errors a plain expression can raise while converting. */
  predicate ExpressionError(e: CalcError) {
    e == InvalidExpression || e == UnknownVariable || e == UnsupportedOperation
  }

  /** Inside an assignment every conversion error is InvalidAssignment, except a ')' without
      a '(' (InvalidExpression); outside one, InvalidAssignment is never raised. */
  lemma {:induction false} FeedAllErrors(c: Converter, tokens: seq<string>, isAssignment: bool, variables: map<string, int>)
    requires NoCloser(c.ops)
    ensures FeedAll(c, tokens, isAssignment, variables).Err? ==>
              var e := FeedAll(c, tokens, isAssignment, variables).error;
              if isAssignment then AssignmentError(e) else ExpressionError(e)
    decreases |tokens|
  {
    if |tokens| > 0 {
      StepKeepsNoCloser(c, tokens[0], isAssignment, variables);
      var s := Step(c, tokens[0], isAssignment, variables);
      if s.Ok? {
        FeedAllErrors(s.value, tokens[1..], isAssignment, variables);
      }
    }
  }

  lemma {:induction false} DrainErrors(c: Converter, isAssignment: bool)
    ensures Drain(c, isAssignment).Err? ==> Drain(c, isAssignment).error == Blame(isAssignment, InvalidExpression)
    decreases |c.ops|
  {
    if |c.ops| > 0 && c.ops[|c.ops| - 1] != LeftParen {
      DrainErrors(Pop(c), isAssignment);
    }
  }

  /** The error kinds of `shuntingYard`. */
  lemma ConvertedErrors(assignment: Option<string>, tokens: seq<string>, variables: map<string, int>)
    ensures Converted(assignment, tokens, variables).Err? ==>
              var e := Converted(assignment, tokens, variables).error;
              if assignment.Some? then AssignmentError(e) else ExpressionError(e)
  {
    var c0 := Converter([], []);
    FeedAllErrors(c0, tokens, assignment.Some?, variables);
    var f := FeedAll(c0, tokens, assignment.Some?, variables);
    if f.Ok? {
      DrainErrors(f.value, assignment.Some?);
    }
  }

  // ----- Precedence and associativity -----

  /** The element of a numeral token. */
  lemma ReadNumeral(token: string, isAssignment: bool, variables: map<string, int>)
    requires IsNumeral(token)
    ensures Read(token, isAssignment, variables) == Ok(NumberElement(NumeralValue(token)))
  {
  }

  /** The element of an operator token that is not a numeral. */
  lemma ReadOperator(token: string, isAssignment: bool, variables: map<string, int>)
    requires IsOperatorRun(token) && !IsNumeral(token)
    ensures OperatorFor(token).Some?
    ensures Read(token, isAssignment, variables) == Ok(OperatorElement(OperatorFor(token).value))
  {
    OperatorRunMaps(token);
    assert !IsWord(token) by {
      assert IsOperatorChar(token[0]);
    }
  }

  /** The second operator meets the first on the stack: it pops it unless it binds tighter. */
  lemma PushSecond(P: Operator, Q: Operator, x: Element, y: Element)
    requires !IsParen(P) && !IsParen(Q)
    ensures PushOperator(Q, Converter([P], [x, y])) ==
              if BindsTighter(Q, P) then Converter([P, Q], [x, y]) else Converter([Q], [x, y, OperatorElement(P)])
  {
    var c := Converter([P], [x, y]);
    PushOntoTop(Q, c);
    if !BindsTighter(Q, P) {
      assert Pop(c) == Converter([], [x, y, OperatorElement(P)]) by {
        assert [P][..0] == [];
      }
    }
  }

  /** An incoming operator on a stack with an operator `top` on top: it stops above `top`
      when it binds tighter, and otherwise pops `top`. */
  lemma PushOntoTop(op: Operator, c: Converter)
    requires !IsParen(op) && NoCloser(c.ops) && |c.ops| > 0 && !IsParen(c.ops[|c.ops| - 1])
    ensures var top := c.ops[|c.ops| - 1];
            PushOperator(op, c) == if BindsTighter(op, top) then Converter(c.ops + [op], c.out) else PushOperator(op, Pop(c))
  {
    PrecedenceMeaning(op, c.ops[|c.ops| - 1]);
  }

  /** A numeral token goes straight to the output. */
  lemma StepNumeral(c: Converter, token: string, variables: map<string, int>)
    requires NoCloser(c.ops) && IsNumeral(token)
    ensures Step(c, token, false, variables) == Ok(Converter(c.ops, c.out + [NumberElement(NumeralValue(token))]))
  {
    ReadNumeral(token, false, variables);
  }

  /** An operator token other than a parenthesis goes through PushOperator. */
  lemma StepOperator(c: Converter, token: string, variables: map<string, int>)
    requires NoCloser(c.ops) && IsOperatorRun(token) && !IsNumeral(token)
    requires OperatorFor(token).Some? && !IsParen(OperatorFor(token).value)
    ensures Step(c, token, false, variables) == Ok(PushOperator(OperatorFor(token).value, c))
  {
    ReadOperator(token, false, variables);
  }

  /** The token loop over "b q c" once "a p" is done. */
  lemma FeedLastTwo(P: Operator, x: Element, b: string, q: string, c: string, variables: map<string, int>)
    requires IsNumeral(b) && IsNumeral(c) && !IsParen(P)
    requires IsOperatorRun(q) && !IsNumeral(q) && OperatorFor(q).Some? && !IsParen(OperatorFor(q).value)
    ensures var y, z := NumberElement(NumeralValue(b)), NumberElement(NumeralValue(c));
            var Q := OperatorFor(q).value;
            FeedAll(Converter([P], [x]), [b, q, c], false, variables) ==
              Ok(if BindsTighter(Q, P) then Converter([P, Q], [x, y, z]) else Converter([Q], [x, y, OperatorElement(P), z]))
  {
    var y, z := NumberElement(NumeralValue(b)), NumberElement(NumeralValue(c));
    var Q := OperatorFor(q).value;
    var ts := [b, q, c];
    var s3 := Converter([P], [x, y]);
    StepNumeral(Converter([P], [x]), b, variables);
    assert [x] + [y] == [x, y];
    var s4 := if BindsTighter(Q, P) then Converter([P, Q], [x, y]) else Converter([Q], [x, y, OperatorElement(P)]);
    PushSecond(P, Q, x, y);
    StepOperator(s3, q, variables);
    var s5 := Converter(s4.ops, s4.out + [z]);
    StepNumeral(s4, c, variables);
    assert FeedAll(s4, ts[2..], false, variables) == Ok(s5);
    assert FeedAll(s3, ts[1..], false, variables) == Ok(s5);
    if BindsTighter(Q, P) {
      assert s5 == Converter([P, Q], [x, y, z]);
    } else {
      assert s5 == Converter([Q], [x, y, OperatorElement(P), z]);
    }
  }

  /** The token loop over "a p b q c". */
  lemma FeedThree(a: string, p: string, b: string, q: string, c: string, variables: map<string, int>)
    requires IsNumeral(a) && IsNumeral(b) && IsNumeral(c)
    requires IsOperatorRun(p) && !IsNumeral(p) && IsOperatorRun(q) && !IsNumeral(q)
    requires OperatorFor(p).Some? && OperatorFor(q).Some?
    requires !IsParen(OperatorFor(p).value) && !IsParen(OperatorFor(q).value)
    ensures var x, y, z := NumberElement(NumeralValue(a)), NumberElement(NumeralValue(b)), NumberElement(NumeralValue(c));
            var P, Q := OperatorFor(p).value, OperatorFor(q).value;
            FeedAll(Converter([], []), [a, p, b, q, c], false, variables) ==
              Ok(if BindsTighter(Q, P) then Converter([P, Q], [x, y, z]) else Converter([Q], [x, y, OperatorElement(P), z]))
  {
    var x := NumberElement(NumeralValue(a));
    var P := OperatorFor(p).value;
    var ts := [a, p, b, q, c];
    StepNumeral(Converter([], []), a, variables);
    assert [] + [x] == [x];
    var s1 := Converter([], [x]);
    StepOperator(s1, p, variables);
    assert PushOperator(P, s1) == Converter([P], [x]);
    FeedLastTwo(P, x, b, q, c, variables);
    assert ts[2..] == [b, q, c];
    assert FeedAll(s1, ts[1..], false, variables) == FeedAll(Converter([P], [x]), [b, q, c], false, variables);
  }

  /** "a p b q c" with numerals a, b, c: p is applied first unless q binds tighter, so
      operators of equal precedence, ^ included, group to the left. */
  lemma ThreeOperands(a: string, p: string, b: string, q: string, c: string, variables: map<string, int>)
    requires IsNumeral(a) && IsNumeral(b) && IsNumeral(c)
    requires IsOperatorRun(p) && !IsNumeral(p) && IsOperatorRun(q) && !IsNumeral(q)
    requires OperatorFor(p).Some? && OperatorFor(q).Some?
    requires !IsParen(OperatorFor(p).value) && !IsParen(OperatorFor(q).value)
    ensures var x, y, z := NumberElement(NumeralValue(a)), NumberElement(NumeralValue(b)), NumberElement(NumeralValue(c));
            var P, Q := OperatorElement(OperatorFor(p).value), OperatorElement(OperatorFor(q).value);
            Converted(None, [a, p, b, q, c], variables) ==
              Ok(if BindsTighter(Q.op, P.op) then [x, y, z, Q, P] else [x, y, P, z, Q])
  {
    var x, y, z := NumberElement(NumeralValue(a)), NumberElement(NumeralValue(b)), NumberElement(NumeralValue(c));
    var P, Q := OperatorFor(p).value, OperatorFor(q).value;
    FeedThree(a, p, b, q, c, variables);
    if BindsTighter(Q, P) {
      var s5 := Converter([P, Q], [x, y, z]);
      assert [P, Q][..1] == [P] && [P][..0] == [];
      assert Pop(s5) == Converter([P], [x, y, z, OperatorElement(Q)]);
      assert Pop(Pop(s5)) == Converter([], [x, y, z, OperatorElement(Q), OperatorElement(P)]);
      assert Drain(Pop(s5), false) == Ok([x, y, z, OperatorElement(Q), OperatorElement(P)]);
    } else {
      var s5 := Converter([Q], [x, y, OperatorElement(P), z]);
      assert [Q][..0] == [];
      assert Pop(s5) == Converter([], [x, y, OperatorElement(P), z, OperatorElement(Q)]);
      assert Drain(s5, false) == Ok([x, y, OperatorElement(P), z, OperatorElement(Q)]);
    }
  }
}
