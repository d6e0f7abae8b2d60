/** The lexical side of the smart calculator (SmartCalculator.kt): what an input line asks for,
    the operators and their precedence, the three kinds of token the tokenizer hands to the
    converter (numerals, names, operator runs), and decimal numerals as read by
    `toBigInteger` and written by `toString`. */
module CalculatorSyntax {

  /** What `main` does with an input line. */
  datatype Function = Nop | Command | Calculate

  /** `chooseFunction`: an empty line is skipped, a line starting with '/' is a command and
      anything else is calculated. */
  function ChooseFunction(input: string): (f: Function)
    ensures f == Nop <==> |input| == 0
    ensures f == Command <==> |input| > 0 && input[0] == '/'
    ensures f == Calculate <==> |input| > 0 && input[0] != '/'
  {
    if |input| == 0 then Nop else if input[0] == '/' then Command else Calculate
  }

  /** The operators; LeftParen and RightParen are the parentheses. */
  datatype Operator = Add | Sub | Mul | Div | LeftParen | RightParen | Exp

  predicate IsParen(op: Operator) {
    op == LeftParen || op == RightParen
  }

  /** `precedenceValue`: 1 for + and -, 2 for * and /, 3 for ^. The parentheses have none (the
      source throws for them). */
  function PrecedenceValue(op: Operator): (v: int)
    requires !IsParen(op)
    ensures 1 <= v <= 3
  {
    match op
    case Add => 1
    case Sub => 1
    case Mul => 2
    case Div => 2
    case Exp => 3
  }

  /** `precedence`: how much tighter `other` binds than `op`. */
  function Precedence(op: Operator, other: Operator): int
    requires !IsParen(op) && !IsParen(other)
  {
    PrecedenceValue(other) - PrecedenceValue(op)
  }

  /** The usual binding order, independently of the numbers: * and / bind tighter than + and
      -, and ^ tighter than all four. */
  predicate BindsTighter(a: Operator, b: Operator) {
    ((a == Mul || a == Div) && (b == Add || b == Sub)) || (a == Exp && b != Exp && !IsParen(b))
  }

  /** `precedence` is antisymmetric, and a stacked operator `top` is at least as strong as an
      incoming `op` exactly when `op` does not bind tighter than it. */
  lemma PrecedenceMeaning(op: Operator, top: Operator)
    requires !IsParen(op) && !IsParen(top)
    ensures Precedence(op, top) == -Precedence(top, op)
    ensures Precedence(op, top) >= 0 <==> !BindsTighter(op, top)
    ensures Precedence(op, top) > 0 <==> BindsTighter(top, op)
  {
  }

  predicate IsDigit(c: char) {
    '0' <= c <= '9'
  }

  predicate IsLetter(c: char) {
    ('a' <= c <= 'z') || ('A' <= c <= 'Z')
  }

  predicate IsOperatorChar(c: char) {
    c == '-' || c == '+' || c == '*' || c == '/' || c == '(' || c == ')' || c == '^'
  }

  predicate AllDigits(s: string) {
    forall i :: 0 <= i < |s| ==> IsDigit(s[i])
  }

  /** A token matching [+-]?\d+. */
  predicate IsNumeral(s: string) {
    |s| >= 1 && if s[0] == '+' || s[0] == '-' then |s| >= 2 && AllDigits(s[1..]) else AllDigits(s)
  }

  /** A token matching [a-zA-Z]+. */
  predicate IsWord(s: string) {
    |s| >= 1 && forall i :: 0 <= i < |s| ==> IsLetter(s[i])
  }

  /** A token made of the operator characters - + * / ( ) ^ only. */
  predicate IsOperatorRun(s: string) {
    |s| >= 1 && forall i :: 0 <= i < |s| ==> IsOperatorChar(s[i])
  }

  /** The value of a string of decimal digits. */
  function DigitsValue(s: string): nat
    requires AllDigits(s)
  {
    if |s| == 0 then 0 else DigitsValue(s[..|s| - 1]) * 10 + (s[|s| - 1] as int - '0' as int)
  }

  /** `toBigInteger` on a numeral: an optional sign and the value of the digits. */
  function NumeralValue(s: string): int
    requires IsNumeral(s)
  {
    if s[0] == '-' then -(DigitsValue(s[1..]) as int) else if s[0] == '+' then DigitsValue(s[1..]) else DigitsValue(s)
  }

  function DigitChar(d: nat): char
    requires d < 10
  {
    ('0' as int + d) as char
  }

  /** The decimal digits of n, without leading zeros. */
  function Digits(n: nat): (s: string)
    ensures |s| >= 1 && AllDigits(s)
  {
    if n < 10 then [DigitChar(n)] else Digits(n / 10) + [DigitChar(n % 10)]
  }

  /** `toString` of an integer: a minus sign for negative values, then the digits. */
  function Decimal(v: int): string {
    if v < 0 then "-" + Digits(-v) else Digits(v)
  }

  /** Reading back the digits of n gives n. */
  lemma {:induction false} DigitsRoundTrip(n: nat)
    ensures DigitsValue(Digits(n)) == n
  {
    if n >= 10 {
      DigitsRoundTrip(n / 10);
      var s := Digits(n);
      assert s[..|s| - 1] == Digits(n / 10);
    }
  }

  /** What the calculator prints is a numeral that reads back as the value printed. */
  lemma DecimalRoundTrip(v: int)
    ensures IsNumeral(Decimal(v)) && NumeralValue(Decimal(v)) == v
  {
    if v < 0 {
      DigitsRoundTrip(-v);
      assert Decimal(v)[1..] == Digits(-v);
    } else {
      DigitsRoundTrip(v);
    }
  }

  /** The operator an operator run stands for, chosen by its first character; a run of '-'
      means subtraction when its length is odd and addition when it is even. None when the
      first character is no operator (the source throws there). */
  function OperatorFor(text: string): Option<Operator>
    requires |text| >= 1
  {
    match text[0]
    case '+' => Some(Add)
    case '-' => if |text| % 2 != 0 then Some(Sub) else Some(Add)
    case '*' => Some(Mul)
    case '/' => Some(Div)
    case '(' => Some(LeftParen)
    case ')' => Some(RightParen)
    case '^' => Some(Exp)
    case _ => None
  }

  /** Every operator run names an operator: the fallback branch of the mapping is unreachable
      for the tokens the tokenizer produces. */
  lemma OperatorRunMaps(text: string)
    requires IsOperatorRun(text)
    ensures OperatorFor(text).Some?
  {
    assert IsOperatorChar(text[0]);
  }

  datatype Option<T> = None | Some(value: T)

  /** n copies of c. */
  function Repeat(c: char, n: nat): (s: string)
    ensures |s| == n && forall i :: 0 <= i < n ==> s[i] == c
  {
    if n == 0 then [] else Repeat(c, n - 1) + [c]
  }

  /** (-1)^n. */
  function NegPow(n: nat): int {
    if n == 0 then 1 else -NegPow(n - 1)
  }

  /** A run of n minus signs between a and b means a + (-1)^n * b: each minus flips the sign,
      so "a -- b" is a + b and "a --- b" is a - b. */
  lemma {:induction false} MinusRunMeaning(n: nat, a: int, b: int)
    requires n >= 1
    ensures var op := OperatorFor(Repeat('-', n)).value;
            (op == Add || op == Sub) && (if op == Add then a + b else a - b) == a + NegPow(n) * b
  {
    if n > 2 {
      MinusRunMeaning(n - 2, a, b);
      assert NegPow(n) == NegPow(n - 2);
    }
  }

  /** A run of plus signs means addition, whatever its length. */
  lemma PlusRunMeaning(n: nat)
    requires n >= 1
    ensures OperatorFor(Repeat('+', n)) == Some(Add)
  {
  }

  function Abs(x: int): nat {
    if x < 0 then -x else x
  }

  /** BigInteger division: the quotient truncated toward zero (Dafny's own / is Euclidean). */
  function TruncDiv(a: int, b: int): int
    requires b != 0
  {
    var q := Abs(a) / Abs(b);
    if (a < 0) != (b < 0) then -q else q
  }

  /** The truncated quotient leaves a remainder smaller than the divisor in magnitude and with
      the sign of the dividend, and is rounded toward zero. */
  lemma TruncDivSpec(a: int, b: int)
    requires b != 0
    ensures var q, r := TruncDiv(a, b), a - TruncDiv(a, b) * b;
            && Abs(r) < Abs(b)
            && (a >= 0 ==> r >= 0) && (a <= 0 ==> r <= 0)
            && Abs(q) * Abs(b) <= Abs(a)
  {
    var q := Abs(a) / Abs(b);
    var m := Abs(a) % Abs(b);
    assert Abs(a) == q * Abs(b) + m;
    if (a < 0) != (b < 0) {
      if a < 0 {
        assert a - TruncDiv(a, b) * b == -m;
      } else {
        assert a - TruncDiv(a, b) * b == m;
      }
    } else {
      if a < 0 {
        assert a - TruncDiv(a, b) * b == -m;
      } else {
        assert a - TruncDiv(a, b) * b == m;
      }
    }
  }
}
