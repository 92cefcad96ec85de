/** Infix-to-postfix conversion by Dijkstra's shunting-yard algorithm, with a marker of
    the previous token class for syntax checking (src/main.py:137-183). */
module ShuntingYard {
  import opened Results
  import opened Tokens

  /** The class of the previous token: none yet, a number (or a closed group), an
      operator, or an open parenthesis. */
  datatype Last = NoToken | AfterNumber | AfterOperator | AfterOpen

  /** The converter's state: output so far, operator stack (top at the end), marker. */
  datatype State = State(out: seq<Token>, stack: seq<Token>, last: Last)

  const Init := State([], [], NoToken)

  /** `s` in reverse order. */
  function Reverse(s: seq<Token>): seq<Token> {
    if s == [] then [] else [s[|s| - 1]] + Reverse(s[..|s| - 1])
  }

  /** Moving the top `t` of a stack segment to the output, then the rest of the
      segment top first, moves the whole segment top first. */
  lemma MoveTop(out: seq<Token>, t: Token, s: seq<Token>)
    ensures (out + [t]) + Reverse(s) == out + Reverse(s + [t])
  {
    assert (s + [t])[..|s|] == s;
    assert Reverse(s + [t]) == [t] + Reverse(s);
  }

  /** Moves to the output, top first, every stacked operator of precedence at least `p`:
      what is popped is a top segment of operators of precedence at least `p`, and what
      stops the loop is an empty stack, a parenthesis or a weaker operator. */
  function PopWhileAtLeast(out: seq<Token>, stack: seq<Token>, p: nat): (r: (seq<Token>, seq<Token>))
    ensures |r.1| <= |stack| && r.1 == stack[..|r.1|]
    ensures forall m :: |r.1| <= m < |stack| ==> IsOperator(stack[m]) && Prec(stack[m]) >= p
    ensures r.1 == [] || !IsOperator(r.1[|r.1| - 1]) || Prec(r.1[|r.1| - 1]) < p
    decreases |stack|
  {
    if stack != [] && IsOperator(stack[|stack| - 1]) && Prec(stack[|stack| - 1]) >= p then
      var top := stack[|stack| - 1];
      var rest := stack[..|stack| - 1];
      var r := PopWhileAtLeast(out + [top], rest, p);
      assert stack[..|r.1|] == rest[..|r.1|];
      r
    else
      (out, stack)
  }

  /** The popped operators reach the output top first. */
  lemma {:induction false} PopWhileAtLeastOutput(out: seq<Token>, stack: seq<Token>, p: nat)
    ensures var r := PopWhileAtLeast(out, stack, p); r.0 == out + Reverse(stack[|r.1|..])
    decreases |stack|
  {
    if stack != [] && IsOperator(stack[|stack| - 1]) && Prec(stack[|stack| - 1]) >= p {
      var top := stack[|stack| - 1];
      var rest := stack[..|stack| - 1];
      PopWhileAtLeastOutput(out + [top], rest, p);
      var r := PopWhileAtLeast(out + [top], rest, p);
      assert PopWhileAtLeast(out, stack, p) == r;
      var n := |r.1|;
      var tail := rest[n..];
      assert stack[n..] == tail + [top];
      MoveTop(out, top, tail);
    } else {
      assert stack[|stack|..] == [];
    }
  }

  /** Moves to the output, top first, every stacked entry above the topmost "(": what
      stops the loop is an empty stack or a "(". */
  function PopUntilOpen(out: seq<Token>, stack: seq<Token>): (r: (seq<Token>, seq<Token>))
    ensures |r.1| <= |stack| && r.1 == stack[..|r.1|]
    ensures forall m :: |r.1| <= m < |stack| ==> stack[m] != Open
    ensures r.1 == [] || r.1[|r.1| - 1] == Open
    decreases |stack|
  {
    if stack != [] && stack[|stack| - 1] != Open then
      var top := stack[|stack| - 1];
      var rest := stack[..|stack| - 1];
      var r := PopUntilOpen(out + [top], rest);
      assert stack[..|r.1|] == rest[..|r.1|];
      r
    else
      (out, stack)
  }

  /** The popped entries reach the output top first. */
  lemma {:induction false} PopUntilOpenOutput(out: seq<Token>, stack: seq<Token>)
    ensures var r := PopUntilOpen(out, stack); r.0 == out + Reverse(stack[|r.1|..])
    decreases |stack|
  {
    if stack != [] && stack[|stack| - 1] != Open {
      var top := stack[|stack| - 1];
      var rest := stack[..|stack| - 1];
      PopUntilOpenOutput(out + [top], rest);
      var r := PopUntilOpen(out + [top], rest);
      assert PopUntilOpen(out, stack) == r;
      var n := |r.1|;
      var tail := rest[n..];
      assert stack[n..] == tail + [top];
      MoveTop(out, top, tail);
    } else {
      assert stack[|stack|..] == [];
    }
  }

  /** One token of the conversion. */
  function Step(st: State, t: Token): Result<State> {
    if t.Num? then Ok(State(st.out + [t], st.stack, AfterNumber))
    else if IsOperator(t) then
      if st.last != AfterNumber then Err(MisplacedOperator)
      else
        var (out, stack) := PopWhileAtLeast(st.out, st.stack, Prec(t));
        Ok(State(out, stack + [t], AfterOperator))
    else if t == Open then Ok(State(st.out, st.stack + [Open], AfterOpen))
    else
      if st.last != AfterNumber then Err(MisplacedCloseParen)
      else
        var (out, stack) := PopUntilOpen(st.out, st.stack);
        if stack == [] then Err(UnbalancedParens)
        else Ok(State(out, stack[..|stack| - 1], AfterNumber))
  }

  /** The conversion loop over `ts` from state `st`; it stops at the first error. */
  function Run(st: State, ts: seq<Token>): Result<State>
    decreases |ts|
  {
    if ts == [] then Ok(st)
    else
      match Step(st, ts[0])
      case Err(e) => Err(e)
      case Ok(st') => Run(st', ts[1..])
  }

  /** Moves the rest of the stack to the output; a parenthesis left on it is unbalanced. */
  function Drain(out: seq<Token>, stack: seq<Token>): (r: Result<seq<Token>>)
    ensures r.Ok? <==> forall m :: 0 <= m < |stack| ==> !IsParen(stack[m])
    ensures r.Ok? ==> r.value == out + Reverse(stack)
    ensures r.Err? ==> r.error == UnbalancedParens
    decreases |stack|
  {
    if stack == [] then Ok(out)
    else
      var top := stack[|stack| - 1];
      if IsParen(top) then Err(UnbalancedParens)
      else
        var rest := stack[..|stack| - 1];
        var r := Drain(out + [top], rest);
        assert stack == rest + [top];
        r
  }

  /** The postfix form of `tokens`, or the first syntax error. */
  function Postfix(tokens: seq<Token>): Result<seq<Token>> {
    match Run(Init, tokens)
    case Err(e) => Err(e)
    case Ok(st) =>
      if st.last != AfterNumber then Err(IncompleteExpression)
      else Drain(st.out, st.stack)
  }

  /** The conversion loop of the source; it computes `Postfix`. */
  method ToRpn(tokens: seq<Token>) returns (r: Result<seq<Token>>)
    ensures r == Postfix(tokens)
  {
    var out: seq<Token> := [];
    var stack: seq<Token> := [];
    var last := NoToken;
    for k := 0 to |tokens|
      invariant Run(Init, tokens) == Run(State(out, stack, last), tokens[k..])
    {
      var t := tokens[k];
      assert tokens[k..][1..] == tokens[k + 1..];
      if t.Num? {
        out := out + [t];
        last := AfterNumber;
      } else if IsOperator(t) {
        if last != AfterNumber {
          return Err(MisplacedOperator);
        }
        ghost var popped := PopWhileAtLeast(out, stack, Prec(t));
        while stack != [] && IsOperator(stack[|stack| - 1]) && Prec(stack[|stack| - 1]) >= Prec(t)
          invariant PopWhileAtLeast(out, stack, Prec(t)) == popped
          decreases |stack|
        {
          out := out + [stack[|stack| - 1]];
          stack := stack[..|stack| - 1];
        }
        stack := stack + [t];
        last := AfterOperator;
      } else if t == Open {
        stack := stack + [Open];
        last := AfterOpen;
      } else {
        if last != AfterNumber {
          return Err(MisplacedCloseParen);
        }
        ghost var popped := PopUntilOpen(out, stack);
        while stack != [] && stack[|stack| - 1] != Open
          invariant PopUntilOpen(out, stack) == popped
          decreases |stack|
        {
          out := out + [stack[|stack| - 1]];
          stack := stack[..|stack| - 1];
        }
        if stack == [] {
          return Err(UnbalancedParens);
        }
        stack := stack[..|stack| - 1];
        last := AfterNumber;
      }
    }
    if last != AfterNumber {
      return Err(IncompleteExpression);
    }
    ghost var drained := Drain(out, stack);
    while stack != []
      invariant Drain(out, stack) == drained
      decreases |stack|
    {
      var top := stack[|stack| - 1];
      stack := stack[..|stack| - 1];
      if IsParen(top) {
        return Err(UnbalancedParens);
      }
      out := out + [top];
    }
    r := Ok(out);
  }
}
