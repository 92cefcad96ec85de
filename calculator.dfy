/** The public entry point: tokenize, convert to postfix, evaluate, and turn a decimal
    result with an integral value into an integer (src/main.py:223-237). */
module Calculator {
  import opened Results
  import opened Numbers
  import opened Tokens
  import Tokenizer
  import ShuntingYard
  import Evaluator

  /** An integral decimal becomes the integer of the same value; any other result is
      kept as it is. */
  function Normalize(x: Number): (r: Number)
    ensures Value(r) == Value(x)
    ensures r.Int? <==> x.Int? || Value(x) == Value(x).Floor as real
    ensures x.Int? ==> r == x
  {
    match x
    case Int(_) => x
    case Dec(d) => if d == d.Floor as real then Int(d.Floor) else x
  }

  /** The result of the calculator on `expr`, or the error of the first stage that fails. */
  function Calculation(expr: string): Result<Number> {
    match Tokenizer.Tokens(expr)
    case Err(e) => Err(e)
    case Ok(ss) =>
      match ShuntingYard.Postfix(ClassifyAll(ss))
      case Err(e) => Err(e)
      case Ok(rpn) =>
        match Evaluator.Evaluation(rpn)
        case Err(e) => Err(e)
        case Ok(v) => Ok(Normalize(v))
  }

  /** The pipeline of the source; it computes `Calculation`. */
  method Calculate(expr: string) returns (r: Result<Number>)
    ensures r == Calculation(expr)
  {
    var tokens := Tokenizer.Tokenize(expr);
    if tokens.Err? {
      return Err(tokens.error);
    }
    var rpn := ShuntingYard.ToRpn(ClassifyAll(tokens.value));
    if rpn.Err? {
      return Err(rpn.error);
    }
    var res := Evaluator.EvalRpn(rpn.value);
    if res.Err? {
      return Err(res.error);
    }
    var v := res.value;
    if v.Dec? && v.d == v.d.Floor as real {
      v := Int(v.d.Floor);
    }
    r := Ok(v);
  }
}

/** What the calculator computes on a whole expression. */
module CalculatorFacts {
  import opened Results
  import opened Numbers
  import opened Tokens
  import Tokenizer
  import TokenizerFacts
  import opened ShuntingYard
  import opened Evaluator
  import EvaluatorFacts
  import ShuntingYardFacts
  import opened Grammar
  import opened Calculator

  /** Normalizing twice is normalizing once. */
  lemma NormalizeIdempotent(x: Number)
    ensures Normalize(Normalize(x)) == Normalize(x)
  {
  }

  /** `v` normalized, or the error. */
  function Normalized(r: Result<Number>): Result<Number> {
    match r
    case Err(e) => Err(e)
    case Ok(v) => Ok(Normalize(v))
  }

  /** An expression whose tokens print a tree computes the normalized value of the
      tree. */
  lemma CalculationTree(expr: string, e: Expr)
    requires Tokenizer.Tokens(expr).Ok? && ClassifyAll(Tokenizer.Tokens(expr).value) == Print(e)
    requires Proper(e) && WellPrec(e)
    ensures Calculation(expr) == Normalized(EvalExpr(e))
  {
    PrintEvaluates(e);
  }

  /** A single digit is the integer it denotes. */
  lemma DigitLiteral(c: char)
    requires Tokenizer.IsDigit(c)
    ensures ParseNumber([c]) == Ok(Int(DigitValue(c)))
  {
    var s := [c];
    assert Tokenizer.Unsigned(s) == s;
    assert Tokenizer.Dots(s) == 0 by {
      assert s[..0] == [];
    }
    assert Tokenizer.IsDigit(s[0]);
    assert Coefficient(s) == DigitValue(c) by {
      assert s[..0] == [];
    }
  }

  /** A digit, an operator and a digit are three tokens. */
  lemma SimpleTokens(a: char, o: char, b: char)
    requires Tokenizer.IsDigit(a) && Tokenizer.IsDigit(b)
    requires o == '+' || o == '-' || o == '*' || o == '/'
    ensures Tokenizer.Tokens([a, o, b]) == Ok([[a], [o], [b]])
  {
    var s := [a, o, b];
    assert s[2..3] == [b];
    assert Tokenizer.ScanRun(s, 2, 3, 0) == Ok(3);
    assert Tokenizer.ScanRun(s, 2, 2, 0) == Ok(3);
    assert Tokenizer.TokensFrom(s, 3) == Ok([]);
    assert !Tokenizer.IsSign(s[2]) && Tokenizer.IsNumChar(s[2]);
    assert [s[2..3]] + [] == [[b]];
    assert Tokenizer.TokensFrom(s, 2) == Ok([[b]]);
    assert !Tokenizer.PrecedesUnary(s[0]) && !Tokenizer.IsNumChar(s[1]) && Tokenizer.IsSymbol(s[1]);
    assert [[s[1]]] + [[b]] == [[o], [b]];
    assert Tokenizer.TokensFrom(s, 1) == Ok([[o], [b]]);
    assert s[0..1] == [a];
    assert [s[0..1]] + [[o], [b]] == [[a], [o], [b]];
    assert Tokenizer.ScanRun(s, 0, 1, 0) == Ok(1);
    assert Tokenizer.ScanRun(s, 0, 0, 0) == Ok(1);
    assert Tokenizer.TokensFrom(s, 0) == Ok([[a], [o], [b]]);
    Tokenizer.NoSpaces(s);
  }

  /** A digit, an operator and a digit compute the operator on the two integers. */
  lemma SimpleOperation(a: char, o: char, b: char)
    requires Tokenizer.IsDigit(a) && Tokenizer.IsDigit(b)
    requires o == '+' || o == '-' || o == '*' || o == '/'
    ensures IsOperator(Classify([o]))
    ensures Calculation([a, o, b]) == Normalized(Apply(Classify([o]), Int(DigitValue(a)), Int(DigitValue(b))))
  {
    SimpleTokens(a, o, b);
    var op := Classify([o]);
    var e := Bin(op, Atom(Num([a])), Atom(Num([b])));
    assert ClassifyAll([[a], [o], [b]]) == [Num([a]), op, Num([b])];
    assert Print(e) == [Num([a]), op, Num([b])];
    CalculationTree([a, o, b], e);
    DigitLiteral(a);
    DigitLiteral(b);
  }

  /** Division of integers always goes through a decimal: an inexact quotient stays a
      decimal, an exact one comes back as an integer, and a zero divisor is an error. */
  lemma Divisions()
    ensures Calculation("7/2") == Ok(Dec(3.5))
    ensures Calculation("8/4") == Ok(Int(2))
    ensures Calculation("1/0") == Err(DivisionByZero)
  {
    SimpleOperation('7', '/', '2');
    SimpleOperation('8', '/', '4');
    SimpleOperation('1', '/', '0');
  }

  /** Integer operations stay integers. */
  lemma IntegerOperations()
    ensures Calculation("6*7") == Ok(Int(42))
    ensures Calculation("2-9") == Ok(Int(-7))
  {
    SimpleOperation('6', '*', '7');
    SimpleOperation('2', '-', '9');
  }

  lemma SignedThree()
    ensures ParseNumber("+3") == Ok(Int(3))
  {
    DigitLiteral('3');
    EvaluatorFacts.SignedLiteral("3");
    assert "+" + "3" == "+3";
  }

  /** "2++3" reads as 2 plus the signed number +3. */
  lemma DoublePlus()
    ensures Calculation("2++3") == Ok(Int(5))
    ensures Calculation("2 ++ 3") == Ok(Int(5))
  {
    TokenizerFacts.DoublePlusIsUnary();
    var e := Bin(Plus, Atom(Num("2")), Atom(Num("+3")));
    assert ClassifyAll(["2", "+", "+3"]) == [Num("2"), Plus, Num("+3")];
    assert Print(e) == [Num("2"), Plus, Num("+3")];
    DigitLiteral('2');
    SignedThree();
    assert EvalExpr(e) == Ok(Int(5));
    CalculationTree("2++3", e);
    CalculationTree("2 ++ 3", e);
  }

  lemma Empty()
    ensures Calculation("") == Err(EmptyExpression)
    ensures Calculation("  ") == Err(EmptyExpression)
  {
    TokenizerFacts.EmptyInput();
  }

  lemma JuxtapositionTokens()
    ensures Tokenizer.Tokens("2(3)") == Ok(["2", "(", "3", ")"])
  {
    var s := "2(3)";
    assert Tokenizer.TokensFrom(s, 4) == Ok([]);
    assert !Tokenizer.IsNumChar(s[3]) && Tokenizer.IsSymbol(s[3]) && [s[3]] == ")";
    assert [")"] + [] == [")"];
    assert Tokenizer.TokensFrom(s, 3) == Ok([")"]);
    assert s[2..3] == "3";
    assert Tokenizer.ScanRun(s, 2, 3, 0) == Ok(3);
    assert Tokenizer.ScanRun(s, 2, 2, 0) == Ok(3);
    assert ["3"] + [")"] == ["3", ")"];
    assert Tokenizer.TokensFrom(s, 2) == Ok(["3", ")"]);
    assert !Tokenizer.IsNumChar(s[1]) && Tokenizer.IsSymbol(s[1]) && [s[1]] == "(";
    assert ["("] + ["3", ")"] == ["(", "3", ")"];
    assert Tokenizer.TokensFrom(s, 1) == Ok(["(", "3", ")"]);
    assert s[0..1] == "2";
    assert Tokenizer.ScanRun(s, 0, 1, 0) == Ok(1);
    assert Tokenizer.ScanRun(s, 0, 0, 0) == Ok(1);
    assert ["2"] + ["(", "3", ")"] == ["2", "(", "3", ")"];
    assert Tokenizer.TokensFrom(s, 0) == Ok(["2", "(", "3", ")"]);
    Tokenizer.NoSpaces(s);
  }

  /** The conversion of 2 ( 3 ): no operator joins the two numbers. */
  lemma JuxtapositionPostfix()
    ensures Postfix([Num("2"), Open, Num("3"), Close]) == Ok([Num("2"), Num("3")])
  {
    var out := [Num("2"), Num("3")];
    var s1 := State([Num("2")], [], AfterNumber);
    var s2 := State([Num("2")], [Open], AfterOpen);
    var s3 := State(out, [Open], AfterNumber);
    var s4 := State(out, [], AfterNumber);
    RunOne(Init, Num("2"));
    RunOne(s1, Open);
    RunOne(s2, Num("3"));
    RunOne(s3, Close);
    assert [] + [Num("2")] == [Num("2")] && [] + [Open] == [Open];
    assert [Num("2")] + [Num("3")] == out;
    assert PopUntilOpen(out, [Open]) == (out, [Open]);
    assert [Open][..0] == [];
    RunThen(Init, [Num("2")], [Open], s1, s2);
    RunThen(Init, [Num("2"), Open], [Num("3")], s2, s3);
    RunThen(Init, [Num("2"), Open, Num("3")], [Close], s3, s4);
    assert [Num("2")] + [Open] == [Num("2"), Open];
    assert [Num("2"), Open] + [Num("3")] == [Num("2"), Open, Num("3")];
    assert [Num("2"), Open, Num("3")] + [Close] == [Num("2"), Open, Num("3"), Close];
  }

  /** The values 2 and 3 both stay on the stack. */
  lemma JuxtapositionStack()
    ensures EvalStack([Num("2"), Num("3")]) == Ok([Int(2), Int(3)])
  {
    var out := [Num("2"), Num("3")];
    DigitLiteral('2');
    DigitLiteral('3');
    assert ParseNumber("2") == Ok(Int(2)) && ParseNumber("3") == Ok(Int(3));
    assert Text(Num("2")) == "2" && Text(Num("3")) == "3";
    assert out[..1] == [Num("2")] && [Num("2")][..0] == [];
    assert !IsOperator(Num("2")) && !IsOperator(Num("3"));
    assert [] + [Int(2)] == [Int(2)] && [Int(2)] + [Int(3)] == [Int(2), Int(3)];
    assert Consume([], Num("2")) == Ok([Int(2)]);
    assert EvalStack([Num("2")]) == Ok([Int(2)]);
    assert out[..1] == [Num("2")];
    assert Consume([Int(2)], Num("3")) == Ok([Int(2), Int(3)]);
  }

  /** A number written against a group passes the conversion but leaves two values:
      "2(3)" is an invalid expression. */
  lemma Juxtaposition()
    ensures Calculation("2(3)") == Err(InvalidExpression)
  {
    JuxtapositionTokens();
    assert ClassifyAll(["2", "(", "3", ")"]) == [Num("2"), Open, Num("3"), Close];
    JuxtapositionPostfix();
    JuxtapositionStack();
    CalculationOf("2(3)", ["2", "(", "3", ")"], [Num("2"), Num("3")]);
  }

  /** The calculation of an expression that the tokenizer and the conversion accept. */
  lemma CalculationOf(expr: string, ss: seq<string>, rpn: seq<Token>)
    requires Tokenizer.Tokens(expr) == Ok(ss) && Postfix(ClassifyAll(ss)) == Ok(rpn)
    ensures Calculation(expr) == Normalized(Evaluation(rpn))
  {
  }

  /** The calculation of an expression that the tokenizer accepts and the conversion
      rejects. */
  lemma CalculationRejected(expr: string, ss: seq<string>, e: Error)
    requires Tokenizer.Tokens(expr) == Ok(ss) && Postfix(ClassifyAll(ss)) == Err(e)
    ensures Calculation(expr) == Err(e)
  {
  }

  lemma UnclosedTokens()
    ensures Tokenizer.Tokens("(1+2") == Ok(["(", "1", "+", "2"])
  {
    var s := "(1+2";
    assert s[3..4] == "2";
    assert Tokenizer.ScanRun(s, 3, 4, 0) == Ok(4);
    assert Tokenizer.ScanRun(s, 3, 3, 0) == Ok(4);
    assert ["2"] + [] == ["2"];
    assert Tokenizer.TokensFrom(s, 3) == Ok(["2"]);
    assert !Tokenizer.PrecedesUnary(s[1]) && [s[2]] == "+";
    assert ["+"] + ["2"] == ["+", "2"];
    assert Tokenizer.TokensFrom(s, 2) == Ok(["+", "2"]);
    assert s[1..2] == "1";
    assert Tokenizer.ScanRun(s, 1, 2, 0) == Ok(2);
    assert Tokenizer.ScanRun(s, 1, 1, 0) == Ok(2);
    assert ["1"] + ["+", "2"] == ["1", "+", "2"];
    assert Tokenizer.TokensFrom(s, 1) == Ok(["1", "+", "2"]);
    assert [s[0]] == "(";
    assert ["("] + ["1", "+", "2"] == ["(", "1", "+", "2"];
    assert Tokenizer.TokensFrom(s, 0) == Ok(["(", "1", "+", "2"]);
    Tokenizer.NoSpaces(s);
  }

  /** The conversion of ( 1 + 2 ) without its ")". */
  lemma UnclosedPostfix()
    ensures Postfix([Open, Num("1"), Plus, Num("2")]) == Err(UnbalancedParens)
  {
    var ts := [Open, Num("1"), Plus, Num("2")];
    assert ts[..2] == [Open, Num("1")];
    assert forall k :: 0 <= k < |ts| ==> !ts[k].Close?;
    assert ShuntingYardFacts.AllAllowed(ts);
    ShuntingYardFacts.CountAbsent(ts, Close);
    ShuntingYardFacts.CountAbsent(ts[1..], Open);
    ShuntingYardFacts.CountAppend([Open], ts[1..], Open);
    assert [Open] + ts[1..] == ts;
    assert [Open][..0] == [];
    ShuntingYardFacts.PostfixFinalErrors(ts);
  }

  /** An unclosed group is left on the stack at the end: "(1+2" is unbalanced. */
  lemma Unclosed()
    ensures Calculation("(1+2") == Err(UnbalancedParens)
  {
    UnclosedTokens();
    assert ClassifyAll(["(", "1", "+", "2"]) == [Open, Num("1"), Plus, Num("2")];
    UnclosedPostfix();
    CalculationRejected("(1+2", ["(", "1", "+", "2"], UnbalancedParens);
  }

  /** A printed integer computes that integer: `calculate(str(n))` is `n`. */
  lemma IntegerResult(n: int)
    ensures Calculation(EvaluatorFacts.ShowInt(n)) == Ok(Int(n))
  {
    var d := if n < 0 then EvaluatorFacts.ShowNat(-n) else EvaluatorFacts.ShowNat(n);
    var x := EvaluatorFacts.ShowInt(n);
    TokenizerFacts.IntegerToken(d);
    assert Tokenizer.Tokens(x) == Ok([x]);
    assert x[0] != '+' && x[0] != '*' && x[0] != '/' && x[0] != '(' && x[0] != ')';
    assert x == "-" ==> false by {
      if n < 0 { assert |x| == |d| + 1; }
    }
    assert ClassifyAll([x]) == Print(Atom(Num(x)));
    CalculationTree(x, Atom(Num(x)));
    EvaluatorFacts.IntRoundTrip(n);
  }

  lemma ClassifyGroup(ss: seq<string>)
    ensures ClassifyAll(["("] + ss + [")"]) == [Open] + ClassifyAll(ss) + [Close]
  {
  }

  /** Parentheses around an expression that converts to postfix change nothing: the
      same value, or the same evaluation error. */
  lemma GroupKeepsResult(expr: string)
    requires Tokenizer.Tokens(expr).Ok?
    requires Postfix(ClassifyAll(Tokenizer.Tokens(expr).value)).Ok?
    ensures Calculation("(" + expr + ")") == Calculation(expr)
  {
    var ss := Tokenizer.Tokens(expr).value;
    var ts := ClassifyAll(ss);
    TokenizerFacts.GroupTokens(expr);
    ClassifyGroup(ss);
    ShuntingYardFacts.PostfixGroup(ts);
    var rpn := Postfix(ts).value;
    CalculationOf(expr, ss, rpn);
    CalculationOf("(" + expr + ")", ["("] + ss + [")"], rpn);
  }
}
