/** What the shunting-yard conversion guarantees: exactly which token sequences it
    accepts, what its output contains, and how many values that output leaves on an
    evaluation stack. */
module ShuntingYardFacts {
  import opened Results
  import opened Tokens
  import opened ShuntingYard

  // ---------------------------------------------------------------------------
  // Sequence facts

  lemma {:induction false} ReverseIndex(s: seq<Token>)
    ensures |Reverse(s)| == |s|
    ensures forall k :: 0 <= k < |s| ==> Reverse(s)[k] == s[|s| - 1 - k]
    decreases |s|
  {
    if s != [] {
      ReverseIndex(s[..|s| - 1]);
    }
  }

  lemma {:induction false} ReverseMultiset(s: seq<Token>)
    ensures multiset(Reverse(s)) == multiset(s)
    decreases |s|
  {
    if s != [] {
      ReverseMultiset(s[..|s| - 1]);
      assert s == s[..|s| - 1] + [s[|s| - 1]];
    }
  }

  lemma ReverseAppend(a: seq<Token>, b: seq<Token>)
    ensures Reverse(a + b) == Reverse(b) + Reverse(a)
  {
    ReverseIndex(a);
    ReverseIndex(b);
    ReverseIndex(a + b);
  }

  lemma {:induction false} NonParensAppend(a: seq<Token>, b: seq<Token>)
    ensures NonParens(a + b) == NonParens(a) + NonParens(b)
    decreases |b|
  {
    if b == [] {
      assert a + b == a;
    } else {
      var b' := b[..|b| - 1];
      NonParensAppend(a, b');
      assert (a + b)[..|a + b| - 1] == a + b';
    }
  }

  lemma {:induction false} OperandsAppend(a: seq<Token>, b: seq<Token>)
    ensures Operands(a + b) == Operands(a) + Operands(b)
    decreases |b|
  {
    if b == [] {
      assert a + b == a;
    } else {
      var b' := b[..|b| - 1];
      OperandsAppend(a, b');
      assert (a + b)[..|a + b| - 1] == a + b';
    }
  }

  /** A sequence of operators keeps all its entries under `NonParens` and none under
      `Operands`. */
  lemma {:induction false} OperatorsOnly(s: seq<Token>)
    requires forall k :: 0 <= k < |s| ==> IsOperator(s[k])
    ensures NonParens(s) == s
    ensures Operands(s) == []
    decreases |s|
  {
    if s != [] {
      OperatorsOnly(s[..|s| - 1]);
      assert s == s[..|s| - 1] + [s[|s| - 1]];
    }
  }

  /** How many times `x` occurs in `s`. */
  function Count(s: seq<Token>, x: Token): nat {
    if s == [] then 0 else Count(s[..|s| - 1], x) + if s[|s| - 1] == x then 1 else 0
  }

  lemma {:induction false} CountAbsent(s: seq<Token>, x: Token)
    requires forall k :: 0 <= k < |s| ==> s[k] != x
    ensures Count(s, x) == 0
  {
    if s != [] {
      CountAbsent(s[..|s| - 1], x);
    }
  }

  lemma {:induction false} CountAppend(a: seq<Token>, b: seq<Token>, x: Token)
    ensures Count(a + b, x) == Count(a, x) + Count(b, x)
    decreases |b|
  {
    if b == [] {
      assert a + b == a;
    } else {
      CountAppend(a, b[..|b| - 1], x);
      assert (a + b)[..|a + b| - 1] == a + b[..|b| - 1];
    }
  }

  lemma {:induction false} CountBound(s: seq<Token>, x: Token)
    ensures Count(s, x) <= |s|
    decreases |s|
  {
    if s != [] {
      CountBound(s[..|s| - 1], x);
    }
  }

  lemma {:induction false} CountZero(s: seq<Token>, x: Token)
    ensures Count(s, x) == 0 <==> forall k :: 0 <= k < |s| ==> s[k] != x
    decreases |s|
  {
    if s != [] {
      CountZero(s[..|s| - 1], x);
    }
  }

  /** `h` values, then `|y|` binary operators: each takes two values and leaves one. */
  lemma {:induction false} DepthOperators(x: seq<Token>, y: seq<Token>, h: nat)
    requires Depth(x) == Some(h)
    requires forall k :: 0 <= k < |y| ==> IsOperator(y[k])
    requires h >= |y| + 1
    ensures Depth(x + y) == Some(h - |y|)
    decreases |y|
  {
    if y == [] {
      assert x + y == x;
    } else {
      var y' := y[..|y| - 1];
      DepthOperators(x, y', h);
      assert (x + y)[..|x + y| - 1] == x + y';
    }
  }

  /** The conversion over `p` followed by `t` is the conversion over `p` and one step. */
  lemma {:induction false} RunSnoc(st: State, p: seq<Token>, t: Token)
    ensures Run(st, p + [t]) == match Run(st, p) case Err(e) => Err(e) case Ok(s) => Step(s, t)
    decreases |p|
  {
    if p == [] {
      assert [] + [t] == [t];
      assert [t][1..] == [];
    } else {
      assert (p + [t])[0] == p[0];
      assert (p + [t])[1..] == p[1..] + [t];
      match Step(st, p[0])
      case Err(e) =>
      case Ok(s) => RunSnoc(s, p[1..], t);
    }
  }

  /** Popping a top segment of strong operators from above a weaker entry takes exactly
      that segment. */
  lemma {:induction false} PopWhileAtLeastExact(out: seq<Token>, stack: seq<Token>, seg: seq<Token>, p: nat)
    requires stack == [] || !IsOperator(stack[|stack| - 1]) || Prec(stack[|stack| - 1]) < p
    requires forall k :: 0 <= k < |seg| ==> IsOperator(seg[k]) && Prec(seg[k]) >= p
    ensures PopWhileAtLeast(out, stack + seg, p) == (out + Reverse(seg), stack)
    decreases |seg|
  {
    if seg == [] {
      assert stack + seg == stack;
      assert PopWhileAtLeast(out, stack, p) == (out, stack);
      assert Reverse(seg) == [];
      assert out + Reverse(seg) == out;
    } else {
      var top := seg[|seg| - 1];
      var seg' := seg[..|seg| - 1];
      assert (stack + seg)[..|stack + seg| - 1] == stack + seg';
      assert IsOperator(top) && Prec(top) >= p;
      PopWhileAtLeastExact(out + [top], stack, seg', p);
      assert Reverse(seg) == [top] + Reverse(seg');
      assert out + Reverse(seg) == (out + [top]) + Reverse(seg');
    }
  }

  /** Popping to a "(" takes exactly the segment above it when that segment holds none. */
  lemma {:induction false} PopUntilOpenExact(out: seq<Token>, stack: seq<Token>, seg: seq<Token>)
    requires stack != [] && stack[|stack| - 1] == Open
    requires forall k :: 0 <= k < |seg| ==> seg[k] != Open
    ensures PopUntilOpen(out, stack + seg) == (out + Reverse(seg), stack)
    decreases |seg|
  {
    if seg == [] {
      assert stack + seg == stack;
      assert PopUntilOpen(out, stack) == (out, stack);
      assert Reverse(seg) == [];
      assert out + Reverse(seg) == out;
    } else {
      var top := seg[|seg| - 1];
      var seg' := seg[..|seg| - 1];
      assert (stack + seg)[..|stack + seg| - 1] == stack + seg';
      PopUntilOpenExact(out + [top], stack, seg');
      assert Reverse(seg) == [top] + Reverse(seg');
      assert out + Reverse(seg) == (out + [top]) + Reverse(seg');
    }
  }

  // ---------------------------------------------------------------------------
  // Properties of the consumed prefix

  /** The last token read leaves a complete value (a number or a ")"). */
  predicate FollowsValue(p: seq<Token>) {
    p != [] && EndsValue(p[|p| - 1])
  }

  /** The marker the converter should hold after reading `p`. */
  function LastOf(p: seq<Token>): Last {
    if p == [] then NoToken
    else if EndsValue(p[|p| - 1]) then AfterNumber
    else if IsOperator(p[|p| - 1]) then AfterOperator
    else AfterOpen
  }

  /** Token `t` may follow `p`: an operator or ")" only after a complete value, and a
      ")" only while some "(" of `p` is still open. */
  predicate Allowed(p: seq<Token>, t: Token) {
    ((IsOperator(t) || t.Close?) ==> FollowsValue(p))
    && (t.Close? ==> Count(p, Open) > Count(p, Close))
  }

  /** Every token is allowed where it stands. */
  predicate AllAllowed(ts: seq<Token>) {
    forall k :: 0 <= k < |ts| ==> Allowed(ts[..k], ts[k])
  }

  /** A token sequence the converter accepts: every token allowed, a complete value at
      the end, and as many "(" as ")". */
  predicate WellFormed(ts: seq<Token>) {
    AllAllowed(ts) && FollowsValue(ts) && Count(ts, Open) == Count(ts, Close)
  }

  /** How often a number or a "(" directly follows a complete value, as in "2(3)" or
      "(1)2": the places where two values stand side by side with no operator. */
  function Juxtapositions(p: seq<Token>): nat {
    if p == [] then 0
    else
      var q := p[..|p| - 1];
      var t := p[|p| - 1];
      Juxtapositions(q) + if FollowsValue(q) && (t.Num? || t.Open?) then 1 else 0
  }

  // ---------------------------------------------------------------------------
  // The invariant of the conversion loop, part by part

  predicate AllOperators(s: seq<Token>) {
    forall k :: 0 <= k < |s| ==> IsOperator(s[k])
  }

  /** The marker, the stack shape and the parenthesis balance after reading `p`. */
  predicate Shape(p: seq<Token>, stack: seq<Token>, last: Last) {
    last == LastOf(p)
    && (forall k :: 0 <= k < |stack| ==> IsOperator(stack[k]) || stack[k] == Open)
    && Count(p, Open) == Count(p, Close) + Count(stack, Open)
  }

  /** The output holds the non-parenthesis tokens read so far except those still
      stacked, and all the numbers of `p` in order. */
  predicate Contents(p: seq<Token>, out: seq<Token>, stack: seq<Token>) {
    (forall k :: 0 <= k < |out| ==> !IsParen(out[k]))
    && multiset(out) + multiset(NonParens(stack)) == multiset(NonParens(p))
    && Operands(out) == Operands(p)
  }

  /** The output leaves one value per stacked operator, one more after a complete
      value, and one more per juxtaposition. */
  predicate Height(p: seq<Token>, out: seq<Token>, stack: seq<Token>, last: Last) {
    Depth(out).Some?
    && Depth(out).value + Count(stack, Open)
       == |stack| + (if last == AfterNumber then 1 else 0) + Juxtapositions(p)
  }

  predicate Inv(p: seq<Token>, st: State) {
    Shape(p, st.stack, st.last) && Contents(p, st.out, st.stack) && Height(p, st.out, st.stack, st.last)
  }

  /** Moving operators from the stack to the output, top first. */
  lemma MoveContents(p: seq<Token>, out: seq<Token>, rest: seq<Token>, popped: seq<Token>)
    requires Contents(p, out, rest + popped) && AllOperators(popped)
    ensures (forall k :: 0 <= k < |out + Reverse(popped)| ==> !IsParen((out + Reverse(popped))[k]))
    ensures multiset(out + Reverse(popped)) + multiset(NonParens(rest)) == multiset(NonParens(p))
    ensures Operands(out + Reverse(popped)) == Operands(p)
  {
    ReverseIndex(popped);
    ReverseMultiset(popped);
    OperatorsOnly(popped);
    OperatorsOnly(Reverse(popped));
    NonParensAppend(rest, popped);
    OperandsAppend(out, Reverse(popped));
  }

  lemma MoveHeight(out: seq<Token>, popped: seq<Token>, h: nat)
    requires Depth(out) == Some(h) && AllOperators(popped) && h >= |popped| + 1
    ensures Depth(out + Reverse(popped)) == Some(h - |popped|)
  {
    ReverseIndex(popped);
    DepthOperators(out, Reverse(popped), h);
  }

  lemma OperandShape(q: seq<Token>, stack: seq<Token>, last: Last, t: Token)
    requires Shape(q, stack, last) && t.Num?
    ensures Shape(q + [t], stack, AfterNumber)
  {
    assert (q + [t])[..|q|] == q;
    assert Count(q + [t], Open) == Count(q, Open) && Count(q + [t], Close) == Count(q, Close);
  }

  lemma OperandContents(q: seq<Token>, out: seq<Token>, stack: seq<Token>, t: Token)
    requires Contents(q, out, stack) && t.Num?
    ensures Contents(q + [t], out + [t], stack)
  {
    assert (q + [t])[..|q|] == q;
    assert (out + [t])[..|out|] == out;
  }

  lemma OperandHeight(q: seq<Token>, out: seq<Token>, stack: seq<Token>, last: Last, t: Token)
    requires Height(q, out, stack, last) && t.Num? && (last == AfterNumber <==> FollowsValue(q))
    ensures Height(q + [t], out + [t], stack, AfterNumber)
  {
    assert (q + [t])[..|q|] == q;
    assert (out + [t])[..|out|] == out;
  }

  lemma OperandStep(q: seq<Token>, st: State, t: Token)
    requires Inv(q, st) && t.Num?
    ensures Step(st, t).Ok? && Allowed(q, t) && Inv(q + [t], Step(st, t).value)
  {
    OperandShape(q, st.stack, st.last, t);
    OperandContents(q, st.out, st.stack, t);
    OperandHeight(q, st.out, st.stack, st.last, t);
  }

  lemma OpenShape(q: seq<Token>, stack: seq<Token>, last: Last)
    requires Shape(q, stack, last)
    ensures Shape(q + [Open], stack + [Open], AfterOpen)
  {
    assert (q + [Open])[..|q|] == q;
    assert (stack + [Open])[..|stack|] == stack;
    assert Count(q + [Open], Open) == Count(q, Open) + 1;
    assert Count(stack + [Open], Open) == Count(stack, Open) + 1;
  }

  lemma OpenContents(q: seq<Token>, out: seq<Token>, stack: seq<Token>)
    requires Contents(q, out, stack)
    ensures Contents(q + [Open], out, stack + [Open])
  {
    assert (q + [Open])[..|q|] == q;
    assert (stack + [Open])[..|stack|] == stack;
  }

  lemma OpenHeight(q: seq<Token>, out: seq<Token>, stack: seq<Token>, last: Last)
    requires Height(q, out, stack, last) && (last == AfterNumber <==> FollowsValue(q))
    ensures Height(q + [Open], out, stack + [Open], AfterOpen)
  {
    assert (q + [Open])[..|q|] == q;
    assert (stack + [Open])[..|stack|] == stack;
    assert Count(stack + [Open], Open) == Count(stack, Open) + 1;
  }

  lemma OpenStep(q: seq<Token>, st: State)
    requires Inv(q, st)
    ensures Step(st, Open).Ok? && Allowed(q, Open) && Inv(q + [Open], Step(st, Open).value)
  {
    OpenShape(q, st.stack, st.last);
    OpenContents(q, st.out, st.stack);
    OpenHeight(q, st.out, st.stack, st.last);
  }

  lemma OperatorShape(q: seq<Token>, rest: seq<Token>, popped: seq<Token>, t: Token)
    requires Shape(q, rest + popped, AfterNumber) && AllOperators(popped) && IsOperator(t)
    ensures Shape(q + [t], rest + [t], AfterOperator)
  {
    assert (q + [t])[..|q|] == q;
    assert (rest + [t])[..|rest|] == rest;
    CountZero(popped, Open);
    CountAppend(rest, popped, Open);
    assert forall k :: 0 <= k < |rest| ==> rest[k] == (rest + popped)[k];
  }

  lemma OperatorContents(q: seq<Token>, out: seq<Token>, rest: seq<Token>, popped: seq<Token>, t: Token)
    requires Contents(q, out, rest + popped) && AllOperators(popped) && IsOperator(t)
    ensures Contents(q + [t], out + Reverse(popped), rest + [t])
  {
    MoveContents(q, out, rest, popped);
    PushOperator(q, out + Reverse(popped), rest, t);
  }

  /** Reading an operator and stacking it keeps the contents. */
  lemma PushOperator(q: seq<Token>, out: seq<Token>, rest: seq<Token>, t: Token)
    requires (forall k :: 0 <= k < |out| ==> !IsParen(out[k]))
    requires multiset(out) + multiset(NonParens(rest)) == multiset(NonParens(q))
    requires Operands(out) == Operands(q) && IsOperator(t)
    ensures Contents(q + [t], out, rest + [t])
  {
    assert multiset(out) + multiset(NonParens(rest + [t])) == multiset(NonParens(q + [t])) by {
      SnocNonParens(q, t);
      SnocNonParens(rest, t);
    }
    assert Operands(q + [t]) == Operands(q) by {
      assert (q + [t])[..|q + [t]| - 1] == q;
    }
  }

  lemma SnocNonParens(a: seq<Token>, t: Token)
    requires IsOperator(t)
    ensures multiset(NonParens(a + [t])) == multiset(NonParens(a)) + multiset{t}
  {
    assert (a + [t])[..|a + [t]| - 1] == a;
    assert NonParens(a + [t]) == NonParens(a) + [t];
  }

  lemma OperatorHeight(q: seq<Token>, out: seq<Token>, rest: seq<Token>, popped: seq<Token>, t: Token)
    requires Height(q, out, rest + popped, AfterNumber) && AllOperators(popped) && IsOperator(t)
    ensures Height(q + [t], out + Reverse(popped), rest + [t], AfterOperator)
  {
    assert (q + [t])[..|q|] == q;
    assert (rest + [t])[..|rest|] == rest;
    CountZero(popped, Open);
    CountAppend(rest, popped, Open);
    CountBound(rest, Open);
    MoveHeight(out, popped, Depth(out).value);
  }

  lemma OperatorStep(q: seq<Token>, st: State, t: Token)
    requires Inv(q, st) && IsOperator(t)
    ensures Step(st, t).Ok? <==> Allowed(q, t)
    ensures Step(st, t).Ok? ==> Inv(q + [t], Step(st, t).value)
  {
    if st.last == AfterNumber {
      var rest := PopWhileAtLeast(st.out, st.stack, Prec(t)).1;
      PopWhileAtLeastSplit(st.out, st.stack, Prec(t));
      var popped := st.stack[|rest|..];
      OperatorShape(q, rest, popped, t);
      OperatorContents(q, st.out, rest, popped, t);
      OperatorHeight(q, st.out, rest, popped, t);
    }
  }

  lemma CloseShape(q: seq<Token>, rest: seq<Token>, popped: seq<Token>)
    requires Shape(q, rest + [Open] + popped, AfterNumber) && AllOperators(popped)
    ensures Shape(q + [Close], rest, AfterNumber)
  {
    assert (q + [Close])[..|q|] == q;
    assert (rest + [Open])[..|rest|] == rest;
    CountZero(popped, Open);
    CountAppend(rest + [Open], popped, Open);
    assert forall k :: 0 <= k < |rest| ==> rest[k] == (rest + [Open] + popped)[k];
  }

  lemma CloseContents(q: seq<Token>, out: seq<Token>, rest: seq<Token>, popped: seq<Token>)
    requires Contents(q, out, rest + [Open] + popped) && AllOperators(popped)
    ensures Contents(q + [Close], out + Reverse(popped), rest)
  {
    MoveContents(q, out, rest + [Open], popped);
    assert (rest + [Open])[..|rest|] == rest;
    assert NonParens(rest + [Open]) == NonParens(rest);
    assert (q + [Close])[..|q|] == q;
    assert NonParens(q + [Close]) == NonParens(q);
    assert Operands(q + [Close]) == Operands(q);
  }

  lemma CloseHeight(q: seq<Token>, out: seq<Token>, rest: seq<Token>, popped: seq<Token>)
    requires Height(q, out, rest + [Open] + popped, AfterNumber) && AllOperators(popped)
    ensures Height(q + [Close], out + Reverse(popped), rest, AfterNumber)
  {
    assert (q + [Close])[..|q|] == q;
    assert (rest + [Open])[..|rest|] == rest;
    CountZero(popped, Open);
    CountAppend(rest + [Open], popped, Open);
    CountBound(rest, Open);
    MoveHeight(out, popped, Depth(out).value);
  }

  /** A ")" is allowed exactly after a complete value with a "(" left on the stack. */
  lemma CloseAllowed(q: seq<Token>, last: Last, rest: seq<Token>, popped: seq<Token>)
    requires Shape(q, rest + popped, last) && AllOperators(popped)
    requires rest == [] || rest[|rest| - 1] == Open
    ensures Allowed(q, Close) <==> last == AfterNumber && rest != []
  {
    CountZero(popped, Open);
    CountAppend(rest, popped, Open);
    if rest != [] {
      assert rest == rest[..|rest| - 1] + [Open];
    } else {
      assert rest + popped == popped;
    }
  }

  /** Popping strong operators moves a top segment of operators. */
  lemma PopWhileAtLeastSplit(out: seq<Token>, stack: seq<Token>, p: nat)
    ensures var r := PopWhileAtLeast(out, stack, p);
      stack == r.1 + stack[|r.1|..] && AllOperators(stack[|r.1|..])
      && r.0 == out + Reverse(stack[|r.1|..])
  {
    PopWhileAtLeastOutput(out, stack, p);
    var r := PopWhileAtLeast(out, stack, p);
    assert stack == r.1 + stack[|r.1|..];
  }

  /** On a stack of operators and "(", popping to a "(" moves a segment of operators. */
  lemma PopUntilOpenSplit(out: seq<Token>, stack: seq<Token>)
    requires forall k :: 0 <= k < |stack| ==> IsOperator(stack[k]) || stack[k] == Open
    ensures var r := PopUntilOpen(out, stack);
      stack == r.1 + stack[|r.1|..] && AllOperators(stack[|r.1|..])
      && r.0 == out + Reverse(stack[|r.1|..])
  {
    PopUntilOpenOutput(out, stack);
    var r := PopUntilOpen(out, stack);
    assert stack == r.1 + stack[|r.1|..];
  }

  /** One step on a ")", spelled out. */
  lemma CloseUnfold(st: State)
    ensures var r := PopUntilOpen(st.out, st.stack);
      Step(st, Close) == if st.last != AfterNumber then Err(MisplacedCloseParen)
                         else if r.1 == [] then Err(UnbalancedParens)
                         else Ok(State(r.0, r.1[..|r.1| - 1], AfterNumber))
  {
  }

  /** A ")" that closes a group: the state after it satisfies the invariant. */
  lemma CloseGroup(q: seq<Token>, st: State)
    requires Inv(q, st) && st.last == AfterNumber && PopUntilOpen(st.out, st.stack).1 != []
    ensures var r := PopUntilOpen(st.out, st.stack);
      Inv(q + [Close], State(r.0, r.1[..|r.1| - 1], AfterNumber))
  {
    var rest := PopUntilOpen(st.out, st.stack).1;
    PopUntilOpenSplit(st.out, st.stack);
    var popped := st.stack[|rest|..];
    var rest' := rest[..|rest| - 1];
    assert rest == rest' + [Open];
    CloseShape(q, rest', popped);
    CloseContents(q, st.out, rest', popped);
    CloseHeight(q, st.out, rest', popped);
  }

  lemma CloseStep(q: seq<Token>, st: State)
    requires Inv(q, st)
    ensures Step(st, Close).Ok? <==> Allowed(q, Close)
    ensures Step(st, Close).Ok? ==> Inv(q + [Close], Step(st, Close).value)
  {
    CloseUnfold(st);
    var rest := PopUntilOpen(st.out, st.stack).1;
    PopUntilOpenSplit(st.out, st.stack);
    CloseAllowed(q, st.last, rest, st.stack[|rest|..]);
    if st.last == AfterNumber && rest != [] {
      CloseGroup(q, st);
    }
  }

  lemma StepInv(q: seq<Token>, st: State, t: Token)
    requires Inv(q, st)
    ensures Step(st, t).Ok? <==> Allowed(q, t)
    ensures Step(st, t).Ok? ==> Inv(q + [t], Step(st, t).value)
  {
    if t.Num? {
      OperandStep(q, st, t);
    } else if IsOperator(t) {
      OperatorStep(q, st, t);
    } else if t.Open? {
      OpenStep(q, st);
    } else {
      CloseStep(q, st);
    }
  }

  /** Every token of `q + [t]` is allowed iff every token of `q` is and `t` is after `q`. */
  lemma AllowedSnoc(q: seq<Token>, t: Token)
    ensures AllAllowed(q + [t]) <==> AllAllowed(q) && Allowed(q, t)
  {
    var p := q + [t];
    assert p[..|q|] == q;
    assert forall k :: 0 <= k < |q| ==> p[..k] == q[..k] && p[k] == q[k];
  }

  /** The conversion loop succeeds over `p` exactly when every token is allowed where
      it stands, and then its state satisfies the loop invariant. */
  lemma {:induction false} RunInv(p: seq<Token>)
    ensures Run(Init, p).Ok? <==> AllAllowed(p)
    ensures Run(Init, p).Ok? ==> Inv(p, Run(Init, p).value)
    decreases |p|
  {
    if p == [] {
      assert Depth([]) == Some(0);
      assert Inv(p, Init);
    } else {
      var q := p[..|p| - 1];
      var t := p[|p| - 1];
      assert p == q + [t];
      RunInv(q);
      RunSnoc(Init, q, t);
      AllowedSnoc(q, t);
      if Run(Init, q).Ok? {
        StepInv(q, Run(Init, q).value, t);
      }
    }
  }

  // ---------------------------------------------------------------------------
  // What the conversion guarantees

  /** The final checks pass exactly when the input ends in a complete value and its
      parentheses balance. */
  lemma FinishAccepts(ts: seq<Token>, st: State)
    requires Shape(ts, st.stack, st.last)
    ensures (st.last == AfterNumber && Drain(st.out, st.stack).Ok?)
            <==> FollowsValue(ts) && Count(ts, Open) == Count(ts, Close)
  {
    CountZero(st.stack, Open);
    if !Drain(st.out, st.stack).Ok? {
      var m :| 0 <= m < |st.stack| && IsParen(st.stack[m]);
      assert st.stack[m] == Open;
    }
  }

  lemma FinishContents(ts: seq<Token>, out: seq<Token>, stack: seq<Token>)
    requires Contents(ts, out, stack) && AllOperators(stack)
    ensures Contents(ts, out + Reverse(stack), [])
  {
    assert [] + stack == stack;
    MoveContents(ts, out, [], stack);
    assert NonParens([]) == [];
  }

  lemma FinishHeight(ts: seq<Token>, out: seq<Token>, stack: seq<Token>)
    requires Height(ts, out, stack, AfterNumber) && AllOperators(stack)
    ensures Depth(out + Reverse(stack)) == Some(1 + Juxtapositions(ts))
  {
    CountZero(stack, Open);
    MoveHeight(out, stack, Depth(out).value);
  }

  /** The final checks on a state that satisfies the invariant. */
  lemma Finish(ts: seq<Token>, st: State)
    requires Inv(ts, st)
    ensures (st.last == AfterNumber && Drain(st.out, st.stack).Ok?)
            <==> FollowsValue(ts) && Count(ts, Open) == Count(ts, Close)
    ensures st.last == AfterNumber && Drain(st.out, st.stack).Ok? ==>
              var out := Drain(st.out, st.stack).value;
              Contents(ts, out, []) && Depth(out) == Some(1 + Juxtapositions(ts))
  {
    FinishAccepts(ts, st);
    if st.last == AfterNumber && Drain(st.out, st.stack).Ok? {
      assert AllOperators(st.stack);
      FinishContents(ts, st.out, st.stack);
      FinishHeight(ts, st.out, st.stack);
    }
  }

  /** The converter accepts exactly the well-formed token sequences. */
  lemma PostfixAccepts(ts: seq<Token>)
    ensures Postfix(ts).Ok? <==> WellFormed(ts)
  {
    RunInv(ts);
    if Run(Init, ts).Ok? {
      Finish(ts, Run(Init, ts).value);
    }
  }

  /** The output holds exactly the non-parenthesis tokens of the input, and the numbers
      keep their input order. */
  lemma PostfixContents(ts: seq<Token>, out: seq<Token>)
    requires Postfix(ts) == Ok(out)
    ensures forall k :: 0 <= k < |out| ==> !IsParen(out[k])
    ensures multiset(out) == multiset(NonParens(ts))
    ensures Operands(out) == Operands(ts)
  {
    RunInv(ts);
    Finish(ts, Run(Init, ts).value);
  }

  /** Evaluated on a stack machine, the output leaves one value, plus one per
      juxtaposition of values in the input; it never runs short of operands. */
  lemma PostfixDepth(ts: seq<Token>, out: seq<Token>)
    requires Postfix(ts) == Ok(out)
    ensures Depth(out) == Some(1 + Juxtapositions(ts))
  {
    RunInv(ts);
    Finish(ts, Run(Init, ts).value);
  }

  // ---------------------------------------------------------------------------
  // Which error the conversion reports

  /** The conversion over `a + b` is the conversion over `a`, then over `b`. */
  lemma {:induction false} RunAppend(st: State, a: seq<Token>, b: seq<Token>)
    ensures Run(st, a + b) == match Run(st, a) case Err(e) => Err(e) case Ok(s) => Run(s, b)
    decreases |a|
  {
    if a == [] {
      assert a + b == b;
    } else {
      assert (a + b)[0] == a[0];
      assert (a + b)[1..] == a[1..] + b;
      match Step(st, a[0])
      case Err(e) =>
      case Ok(s) => RunAppend(s, a[1..], b);
    }
  }

  /** The error of a token that is not allowed where it stands: an operator is
      misplaced, a ")" is misplaced unless it follows a complete value, and otherwise
      it has no "(" to close. */
  function Violation(p: seq<Token>, t: Token): Error {
    if IsOperator(t) then MisplacedOperator
    else if !FollowsValue(p) then MisplacedCloseParen
    else UnbalancedParens
  }

  lemma StepRejects(q: seq<Token>, st: State, t: Token)
    requires Shape(q, st.stack, st.last) && !Allowed(q, t)
    ensures Step(st, t) == Err(Violation(q, t))
  {
    if t.Close? {
      CloseUnfold(st);
      var rest := PopUntilOpen(st.out, st.stack).1;
      PopUntilOpenSplit(st.out, st.stack);
      CloseAllowed(q, st.last, rest, st.stack[|rest|..]);
    }
  }

  lemma RunRejects(q: seq<Token>, t: Token)
    requires AllAllowed(q) && !Allowed(q, t)
    ensures Run(Init, q + [t]) == Err(Violation(q, t))
  {
    RunInv(q);
    var st := Run(Init, q).value;
    assert Shape(q, st.stack, st.last);
    StepRejects(q, st, t);
    RunSnoc(Init, q, t);
  }

  /** The first token that is not allowed where it stands decides the error. */
  lemma PostfixRejects(ts: seq<Token>, k: nat)
    requires k < |ts| && AllAllowed(ts[..k]) && !Allowed(ts[..k], ts[k])
    ensures Postfix(ts) == Err(Violation(ts[..k], ts[k]))
  {
    var q := ts[..k];
    RunRejects(q, ts[k]);
    RunAppend(Init, q + [ts[k]], ts[k + 1..]);
    assert ts == q + [ts[k]] + ts[k + 1..];
  }

  /** When every token is allowed, an input that does not end in a complete value is
      incomplete, and one that does but leaves a "(" open is unbalanced. */
  lemma PostfixFinalErrors(ts: seq<Token>)
    requires AllAllowed(ts) && !WellFormed(ts)
    ensures Postfix(ts) == Err(if !FollowsValue(ts) then IncompleteExpression else UnbalancedParens)
  {
    RunInv(ts);
    FinishAccepts(ts, Run(Init, ts).value);
  }

  // ---------------------------------------------------------------------------
  // An enclosing pair of parentheses

  /** The state of the conversion of `ts` when the tokens are read after an extra "(":
      the same output, the "(" at the bottom of the stack, and a start that counts as
      following that "(". */
  function Lift(st: State): State {
    State(st.out, [Open] + st.stack, if st.last == NoToken then AfterOpen else st.last)
  }

  /** Popping operators never reaches an extra "(" at the bottom of the stack. */
  lemma {:induction false} PopWhileAtLeastLift(out: seq<Token>, stack: seq<Token>, p: nat)
    ensures var r := PopWhileAtLeast(out, stack, p);
      PopWhileAtLeast(out, [Open] + stack, p) == (r.0, [Open] + r.1)
    decreases |stack|
  {
    var lifted := [Open] + stack;
    if stack != [] {
      assert lifted[|lifted| - 1] == stack[|stack| - 1];
      assert lifted[..|lifted| - 1] == [Open] + stack[..|stack| - 1];
      PopWhileAtLeastLift(out + [stack[|stack| - 1]], stack[..|stack| - 1], p);
    }
  }

  /** Popping to a "(" never goes below an extra "(" at the bottom of the stack. */
  lemma {:induction false} PopUntilOpenLift(out: seq<Token>, stack: seq<Token>)
    ensures var r := PopUntilOpen(out, stack);
      PopUntilOpen(out, [Open] + stack) == (r.0, [Open] + r.1)
    decreases |stack|
  {
    var lifted := [Open] + stack;
    if stack != [] {
      assert lifted[|lifted| - 1] == stack[|stack| - 1];
      assert lifted[..|lifted| - 1] == [Open] + stack[..|stack| - 1];
      PopUntilOpenLift(out + [stack[|stack| - 1]], stack[..|stack| - 1]);
    }
  }

  /** An operator step after an extra "(". */
  lemma OperatorLift(st: State, t: Token)
    requires IsOperator(t) && st.last == AfterNumber
    ensures Step(Lift(st), t) == Ok(Lift(Step(st, t).value))
  {
    PopWhileAtLeastLift(st.out, st.stack, Prec(t));
    var r := PopWhileAtLeast(st.out, st.stack, Prec(t));
    assert ([Open] + r.1) + [t] == [Open] + (r.1 + [t]);
  }

  /** A successful ")" step after an extra "(". */
  lemma CloseLift(st: State)
    requires Step(st, Close).Ok?
    ensures Step(Lift(st), Close) == Ok(Lift(Step(st, Close).value))
  {
    PopUntilOpenLift(st.out, st.stack);
    var r := PopUntilOpen(st.out, st.stack);
    var lifted := [Open] + r.1;
    assert lifted[..|lifted| - 1] == [Open] + r.1[..|r.1| - 1];
  }

  /** A step that succeeds succeeds the same way after an extra "(". */
  lemma StepLift(st: State, t: Token)
    requires Step(st, t).Ok?
    ensures Step(Lift(st), t) == Ok(Lift(Step(st, t).value))
  {
    if t.Num? {
    } else if IsOperator(t) {
      OperatorLift(st, t);
    } else if t == Open {
      assert ([Open] + st.stack) + [Open] == [Open] + (st.stack + [Open]);
    } else {
      CloseLift(st);
    }
  }

  /** A conversion that succeeds succeeds the same way after an extra "(". */
  lemma {:induction false} RunLift(st: State, ts: seq<Token>)
    requires Run(st, ts).Ok?
    ensures Run(Lift(st), ts) == Ok(Lift(Run(st, ts).value))
    decreases |ts|
  {
    if ts != [] {
      StepLift(st, ts[0]);
      RunLift(Step(st, ts[0]).value, ts[1..]);
    }
  }

  /** The closing ")" of the extra pair moves the rest of the stack to the output. */
  lemma CloseLifted(st: State)
    requires st.last == AfterNumber && Drain(st.out, st.stack).Ok?
    ensures Run(Lift(st), [Close]) == Ok(State(Drain(st.out, st.stack).value, [], AfterNumber))
  {
    PopUntilOpenExact(st.out, [Open], st.stack);
    assert [Open][..0] == [];
    assert [Close][1..] == [];
  }

  /** Parentheses around a token sequence that converts give the same postfix form. */
  lemma PostfixGroup(ts: seq<Token>)
    requires Postfix(ts).Ok?
    ensures Postfix([Open] + ts + [Close]) == Postfix(ts)
  {
    var fin := Run(Init, ts).value;
    assert Run(Init, [Open]) == Ok(Lift(Init)) by {
      var none: seq<Token> := [];
      assert none + [Open] == [Open] + none;
      assert Step(Init, Open) == Ok(Lift(Init));
      assert [Open][1..] == [];
    }
    RunLift(Init, ts);
    RunAppend(Init, [Open], ts);
    CloseLifted(fin);
    RunAppend(Init, [Open] + ts, [Close]);
  }
}
