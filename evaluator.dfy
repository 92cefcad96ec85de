/** The postfix evaluator: number literals become integers or exact decimals, and each
    operator replaces the two topmost values by its result (src/main.py:186-221). */
module Evaluator {
  import opened Results
  import opened Numbers
  import opened Tokens
  import Tokenizer

  // ---------------------------------------------------------------------------
  // Number literals

  function DigitValue(c: char): nat
    requires Tokenizer.IsDigit(c)
  {
    c as int - '0' as int
  }

  predicate AllDigits(s: string) {
    forall k :: 0 <= k < |s| ==> Tokenizer.IsDigit(s[k])
  }

  predicate AllNumChars(s: string) {
    forall k :: 0 <= k < |s| ==> Tokenizer.IsNumChar(s[k])
  }

  function Pow10(n: nat): (p: nat)
    ensures p >= 1
  {
    if n == 0 then 1 else 10 * Pow10(n - 1)
  }

  /** The number a string of digits denotes, most significant digit first. */
  function DigitsValue(s: string): nat
    requires AllDigits(s)
  {
    if s == [] then 0 else 10 * DigitsValue(s[..|s| - 1]) + DigitValue(s[|s| - 1])
  }

  /** The digits of a literal read as one integer, the '.' skipped: the coefficient of
      the decimal it denotes. */
  function Coefficient(s: string): nat
    requires AllNumChars(s)
  {
    if s == [] then 0
    else if s[|s| - 1] == '.' then Coefficient(s[..|s| - 1])
    else 10 * Coefficient(s[..|s| - 1]) + DigitValue(s[|s| - 1])
  }

  /** The number of digits after the '.': the negated exponent of the decimal. */
  function Places(s: string): nat {
    if s == [] then 0
    else Places(s[..|s| - 1]) + if '.' in s[..|s| - 1] && s[|s| - 1] != '.' then 1 else 0
  }

  /** The literal forms the model reads: an optional sign, then digits with at most one
      '.', and at least one digit. */
  predicate IsLiteral(tok: string) {
    var body := Tokenizer.Unsigned(tok);
    AllNumChars(body) && Tokenizer.Dots(body) <= 1
    && exists k :: 0 <= k < |body| && Tokenizer.IsDigit(body[k])
  }

  /** A token with a '.' becomes an exact decimal and any other an integer; a string
      that is no literal is an error. */
  function ParseNumber(tok: string): (r: Result<Number>)
    ensures r.Ok? <==> IsLiteral(tok)
    ensures r.Err? ==> r.error == InvalidLiteral(tok)
    ensures r.Ok? ==> (r.value.Dec? <==> '.' in tok)
  {
    if !IsLiteral(tok) then Err(InvalidLiteral(tok))
    else
      var body := Tokenizer.Unsigned(tok);
      var negative := tok[0] == '-';
      var c: int := Coefficient(body);
      if '.' in tok then
        var d := c as real / Pow10(Places(body)) as real;
        Ok(Dec(if negative then -d else d))
      else Ok(Int(if negative then -c else c))
  }

  // ---------------------------------------------------------------------------
  // The stack machine

  /** One operator on two values. */
  function Apply(op: Token, a: Number, b: Number): Result<Number>
    requires IsOperator(op)
  {
    match op
    case Plus => Ok(Add(a, b))
    case Minus => Ok(Sub(a, b))
    case Times => Ok(Mul(a, b))
    case Slash => Div(a, b)
  }

  /** One token on the value stack (top at the end): a non-operator pushes its value, an
      operator pops `b`, then `a`, and pushes `a op b`. */
  function Consume(st: seq<Number>, t: Token): Result<seq<Number>> {
    if !IsOperator(t) then
      match ParseNumber(Text(t))
      case Err(e) => Err(e)
      case Ok(v) => Ok(st + [v])
    else if |st| < 2 then Err(MissingOperands)
    else
      match Apply(t, st[|st| - 2], st[|st| - 1])
      case Err(e) => Err(e)
      case Ok(v) => Ok(st[..|st| - 2] + [v])
  }

  /** The value stack after `rpn`, or the first error. */
  function EvalStack(rpn: seq<Token>): Result<seq<Number>> {
    if rpn == [] then Ok([])
    else
      match EvalStack(rpn[..|rpn| - 1])
      case Err(e) => Err(e)
      case Ok(st) => Consume(st, rpn[|rpn| - 1])
  }

  /** The value of `rpn`: exactly one value must remain. */
  function Evaluation(rpn: seq<Token>): Result<Number> {
    match EvalStack(rpn)
    case Err(e) => Err(e)
    case Ok(st) => if |st| != 1 then Err(InvalidExpression) else Ok(st[0])
  }

  /** An error on a prefix is the error of the whole. */
  lemma {:induction false} ErrorPersists(rpn: seq<Token>, k: nat)
    requires k <= |rpn| && EvalStack(rpn[..k]).Err?
    ensures EvalStack(rpn) == EvalStack(rpn[..k])
    decreases |rpn| - k
  {
    if k < |rpn| {
      assert rpn[..k + 1][..k] == rpn[..k];
      ErrorPersists(rpn, k + 1);
    } else {
      assert rpn[..k] == rpn;
    }
  }

  /** The evaluation loop of the source; it computes `Evaluation`. */
  method EvalRpn(rpn: seq<Token>) returns (r: Result<Number>)
    ensures r == Evaluation(rpn)
  {
    var st: seq<Number> := [];
    for k := 0 to |rpn|
      invariant EvalStack(rpn[..k]) == Ok(st)
    {
      var t := rpn[k];
      assert rpn[..k + 1][..k] == rpn[..k];
      if !IsOperator(t) {
        var v := ParseNumber(Text(t));
        if v.Err? {
          ErrorPersists(rpn, k + 1);
          return Err(v.error);
        }
        st := st + [v.value];
      } else {
        if |st| < 2 {
          ErrorPersists(rpn, k + 1);
          return Err(MissingOperands);
        }
        var b := st[|st| - 1];
        var a := st[|st| - 2];
        st := st[..|st| - 2];
        if t.Plus? {
          st := st + [Add(a, b)];
        } else if t.Minus? {
          st := st + [Sub(a, b)];
        } else if t.Times? {
          st := st + [Mul(a, b)];
        } else {
          var q := Div(a, b);
          if q.Err? {
            ErrorPersists(rpn, k + 1);
            return Err(q.error);
          }
          st := st + [q.value];
        }
      }
    }
    assert rpn[..|rpn|] == rpn;
    if |st| != 1 {
      return Err(InvalidExpression);
    }
    r := Ok(st[0]);
  }
}

/** What the evaluator guarantees: the literal forms it reads and their values, and the
    height of its value stack. */
module EvaluatorFacts {
  import opened Results
  import opened Numbers
  import opened Tokens
  import Tokenizer
  import opened Evaluator

  // ---------------------------------------------------------------------------
  // Literals

  function DigitChar(d: nat): (c: char)
    requires d < 10
    ensures Tokenizer.IsDigit(c) && DigitValue(c) == d
  {
    ('0' as int + d) as char
  }

  /** The decimal digits of `n`, without leading zeros. */
  function ShowNat(n: nat): (s: string)
    ensures s != [] && AllDigits(s)
  {
    if n < 10 then [DigitChar(n)] else ShowNat(n / 10) + [DigitChar(n % 10)]
  }

  /** How the source's integers print: a '-' before a negative number. */
  function ShowInt(n: int): string {
    if n < 0 then "-" + ShowNat(-n) else ShowNat(n)
  }

  lemma {:induction false} ShowNatValue(n: nat)
    ensures DigitsValue(ShowNat(n)) == n
    decreases n
  {
    if n >= 10 {
      ShowNatValue(n / 10);
      var s := ShowNat(n);
      assert s[..|s| - 1] == ShowNat(n / 10);
    }
  }

  /** A string of digits has no '.', and its coefficient is its value. */
  lemma {:induction false} DigitsOnly(s: string)
    requires AllDigits(s)
    ensures '.' !in s && Tokenizer.Dots(s) == 0
    ensures Coefficient(s) == DigitsValue(s) && Places(s) == 0
    decreases |s|
  {
    if s != [] {
      DigitsOnly(s[..|s| - 1]);
      assert s == s[..|s| - 1] + [s[|s| - 1]];
    }
  }

  /** A literal without a '.' is the integer its digits denote, leading zeros and all,
      negated after a '-'. */
  lemma IntegerLiteral(s: string)
    requires AllDigits(s) && s != []
    ensures ParseNumber(s) == Ok(Int(DigitsValue(s)))
    ensures ParseNumber("+" + s) == Ok(Int(DigitsValue(s)))
    ensures ParseNumber("-" + s) == Ok(Int(-(DigitsValue(s) as int)))
  {
    DigitsOnly(s);
    assert Tokenizer.IsDigit(s[0]);
    assert Tokenizer.Unsigned(s) == s;
    SignedInteger(s, '+');
    SignedInteger(s, '-');
  }

  /** The body of a signed run of digits is the run. */
  lemma SignedInteger(s: string, sign: char)
    requires AllDigits(s) && s != [] && Tokenizer.IsSign(sign)
    ensures ParseNumber([sign] + s) == Ok(Int(if sign == '-' then -(DigitsValue(s) as int) else DigitsValue(s)))
  {
    DigitsOnly(s);
    var tok := [sign] + s;
    assert tok[1..] == s;
    assert Tokenizer.Unsigned(tok) == s;
    assert '.' !in tok;
    assert Tokenizer.IsDigit(s[0]);
  }

  /** Every integer reads back from its printed form as the same integer. */
  lemma IntRoundTrip(n: int)
    ensures ParseNumber(ShowInt(n)) == Ok(Int(n))
  {
    var digits := if n < 0 then ShowNat(-n) else ShowNat(n);
    ShowNatValue(if n < 0 then -n else n);
    IntegerLiteral(digits);
  }

  lemma ShiftDigit(A: nat, P: nat, B: nat, d: nat)
    ensures 10 * (A * P + B) + d == A * (10 * P) + (10 * B + d)
  {
    assert 10 * (A * P) == A * (10 * P);
  }

  lemma {:induction false} FractionChars(a: string, b: string)
    requires AllDigits(a) && AllDigits(b)
    ensures AllNumChars(a + "." + b)
  {
  }

  /** Digits after the '.' count as places and join the coefficient. */
  lemma {:induction false} FractionCoefficient(a: string, b: string)
    requires AllDigits(a) && AllDigits(b)
    ensures AllNumChars(a + "." + b)
    ensures Coefficient(a + "." + b) == DigitsValue(a) * Pow10(|b|) + DigitsValue(b)
    decreases |b|
  {
    FractionChars(a, b);
    if b == [] {
      DigitsOnly(a);
      assert (a + "." + b)[..|a|] == a;
    } else {
      var b' := b[..|b| - 1];
      FractionCoefficient(a, b');
      var s := a + "." + b;
      assert s[..|s| - 1] == a + "." + b';
      ShiftDigit(DigitsValue(a), Pow10(|b'|), DigitsValue(b'), DigitValue(b[|b| - 1]));
    }
  }

  lemma {:induction false} FractionPlaces(a: string, b: string)
    requires AllDigits(a) && AllDigits(b)
    ensures Places(a + "." + b) == |b|
    decreases |b|
  {
    if b == [] {
      DigitsOnly(a);
      assert (a + "." + b)[..|a|] == a;
    } else {
      var b' := b[..|b| - 1];
      FractionPlaces(a, b');
      var s := a + "." + b;
      assert s[..|s| - 1] == a + "." + b';
      assert (a + "." + b')[|a|] == '.';
    }
  }

  lemma Scale(C: nat, A: nat, B: nat, P: nat)
    requires P >= 1 && C == A * P + B
    ensures C as real / P as real == A as real + B as real / P as real
  {
    assert C as real == A as real * P as real + B as real;
  }

  /** Digits around one '.' form an unsigned decimal literal. */
  lemma FractionIsLiteral(a: string, b: string)
    requires AllDigits(a) && AllDigits(b) && a + b != []
    ensures var s := a + "." + b;
      IsLiteral(s) && Tokenizer.Unsigned(s) == s && '.' in s && s[0] != '-'
  {
    var s := a + "." + b;
    FractionChars(a, b);
    DigitsOnly(a);
    DigitsOnly(b);
    Tokenizer.DotsConcat(a + ".", b);
    Tokenizer.DotsConcat(a, ".");
    assert Tokenizer.Dots(".") == 1;
    assert Tokenizer.Dots(s) == 1;
    if a != [] {
      assert Tokenizer.IsDigit(s[0]);
    } else {
      assert s[0] == '.';
      assert Tokenizer.IsDigit(s[1]);
    }
    assert s[|a|] == '.';
  }

  /** A literal with a '.' denotes its integral digits plus its fractional digits
      scaled down by their number of places. */
  lemma DecimalLiteral(a: string, b: string)
    requires AllDigits(a) && AllDigits(b) && a + b != []
    ensures ParseNumber(a + "." + b).Ok?
    ensures var v := ParseNumber(a + "." + b).value;
      v.Dec? && Value(v) == DigitsValue(a) as real + DigitsValue(b) as real / Pow10(|b|) as real
  {
    var s := a + "." + b;
    FractionIsLiteral(a, b);
    FractionCoefficient(a, b);
    FractionPlaces(a, b);
    var c := Coefficient(s);
    var p := Pow10(|b|);
    assert ParseNumber(s) == Ok(Dec(c as real / p as real));
    Scale(c, DigitsValue(a), DigitsValue(b), p);
  }

  /** A '-' before an unsigned literal negates it and a '+' changes nothing; the kind
      of number stays the same. */
  lemma SignedLiteral(s: string)
    requires s != [] && !Tokenizer.IsSign(s[0])
    ensures ParseNumber("+" + s).Ok? <==> ParseNumber(s).Ok?
    ensures ParseNumber(s).Ok? ==> ParseNumber("+" + s).value == ParseNumber(s).value
    ensures ParseNumber("-" + s).Ok? <==> ParseNumber(s).Ok?
    ensures ParseNumber(s).Ok? ==>
      ParseNumber("-" + s).value.Dec? == ParseNumber(s).value.Dec?
      && Value(ParseNumber("-" + s).value) == -Value(ParseNumber(s).value)
  {
    assert Tokenizer.Unsigned("+" + s) == s;
    assert Tokenizer.Unsigned("-" + s) == s;
    assert Tokenizer.Unsigned(s) == s;
    assert '.' in "+" + s <==> '.' in s;
    assert '.' in "-" + s <==> '.' in s;
  }

  /** A lone '.' or a sign without digits is no literal. */
  lemma NoDigitNoLiteral()
    ensures ParseNumber(".") == Err(InvalidLiteral("."))
    ensures ParseNumber("-.") == Err(InvalidLiteral("-."))
    ensures ParseNumber("+") == Err(InvalidLiteral("+"))
  {
    assert Tokenizer.Unsigned(".") == ".";
    assert Tokenizer.Unsigned("-.") == ".";
    assert Tokenizer.Unsigned("+") == "";
  }

  // ---------------------------------------------------------------------------
  // The value stack

  /** One token changes the height of the stack by the shape's rule, and only an
      operator that meets fewer than two values reports missing operands. */
  lemma ConsumeHeight(st: seq<Number>, t: Token)
    ensures Consume(st, t).Ok? ==> |Consume(st, t).value| == if IsOperator(t) then |st| - 1 else |st| + 1
    ensures Consume(st, t).Ok? ==> !IsOperator(t) || |st| >= 2
    ensures Consume(st, t) == Err(MissingOperands) <==> IsOperator(t) && |st| < 2
  {
  }

  /** A successful run leaves as many values as the postfix shape predicts. */
  lemma {:induction false} StackHeight(rpn: seq<Token>)
    ensures EvalStack(rpn).Ok? ==> Depth(rpn) == Some(|EvalStack(rpn).value|)
    ensures EvalStack(rpn) == Err(MissingOperands) ==> Depth(rpn) == None
    ensures Depth(rpn) == None ==> EvalStack(rpn).Err?
    decreases |rpn|
  {
    if rpn != [] {
      var p := rpn[..|rpn| - 1];
      StackHeight(p);
      if EvalStack(p).Ok? {
        ConsumeHeight(EvalStack(p).value, rpn[|rpn| - 1]);
      }
    }
  }

  /** The only errors are an unreadable literal, a missing operand and a zero divisor. */
  lemma {:induction false} StackErrors(rpn: seq<Token>)
    ensures EvalStack(rpn).Err? ==>
      EvalStack(rpn).error == MissingOperands || EvalStack(rpn).error == DivisionByZero
      || EvalStack(rpn).error.InvalidLiteral?
    decreases |rpn|
  {
    if rpn != [] {
      StackErrors(rpn[..|rpn| - 1]);
    }
  }

  /** An operator that meets fewer than two values fails with MissingOperands, and the
      run stops there. */
  lemma Underflow(rpn: seq<Token>, k: nat)
    requires k < |rpn| && IsOperator(rpn[k])
    requires EvalStack(rpn[..k]).Ok? && |EvalStack(rpn[..k]).value| < 2
    ensures EvalStack(rpn) == Err(MissingOperands)
  {
    assert rpn[..k + 1][..k] == rpn[..k];
    ErrorPersists(rpn, k + 1);
  }

  /** A value comes out exactly when the run succeeds with one value on the stack, so a
      postfix sequence whose shape leaves any other number of values is rejected. */
  lemma EvaluationHeight(rpn: seq<Token>)
    ensures Evaluation(rpn).Ok? ==> Depth(rpn) == Some(1)
    ensures Depth(rpn).Some? && Depth(rpn) != Some(1) ==> Evaluation(rpn).Err?
    ensures EvalStack(rpn).Ok? && Depth(rpn) != Some(1) ==> Evaluation(rpn) == Err(InvalidExpression)
  {
    StackHeight(rpn);
  }
}
