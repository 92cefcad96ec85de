/** Expression trees over the converter's tokens: their infix printing, their postfix
    flattening and their value.  The conversion turns every printing into the
    flattening, so operator precedence and left associativity come out as the usual
    arithmetic conventions, and evaluating the flattening is evaluating the tree. */
module Grammar {
  import opened Results
  import opened Numbers
  import opened Tokens
  import opened ShuntingYard
  import opened ShuntingYardFacts
  import opened Evaluator

  /** A number, a binary operation, or a parenthesised group. */
  datatype Expr = Atom(tok: Token) | Bin(op: Token, left: Expr, right: Expr) | Group(inner: Expr)

  /** Atoms are numbers and every operation carries one of the four operators. */
  predicate Proper(e: Expr) {
    match e
    case Atom(t) => t.Num?
    case Bin(op, l, r) => IsOperator(op) && Proper(l) && Proper(r)
    case Group(i) => Proper(i)
  }

  /** How tightly the printing of `e` holds together: an operation binds as its
      operator, atoms and groups bind tighter than any operator. */
  function Binding(e: Expr): (b: nat)
    requires Proper(e)
    ensures b <= 3
  {
    match e
    case Bin(op, _, _) => Prec(op)
    case _ => 3
  }

  /** The printing of `e` reads back as `e`: a left operand binds at least as tightly
      as its operator, a right operand strictly more tightly (operators associate to
      the left), otherwise the operand needs a group. */
  predicate WellPrec(e: Expr)
    requires Proper(e)
  {
    match e
    case Atom(_) => true
    case Bin(op, l, r) =>
      WellPrec(l) && WellPrec(r) && Binding(l) >= Prec(op) && Binding(r) > Prec(op)
    case Group(i) => WellPrec(i)
  }

  /** The infix token sequence of `e`. */
  function Print(e: Expr): seq<Token> {
    match e
    case Atom(t) => [t]
    case Bin(op, l, r) => Print(l) + [op] + Print(r)
    case Group(i) => [Open] + Print(i) + [Close]
  }

  /** The postfix token sequence of `e`: operands first, operator last. */
  function Flatten(e: Expr): seq<Token> {
    match e
    case Atom(t) => [t]
    case Bin(op, l, r) => Flatten(l) + Flatten(r) + [op]
    case Group(i) => Flatten(i)
  }

  /** What the conversion has emitted once it has read the printing of `e`. */
  function Emitted(e: Expr): seq<Token> {
    match e
    case Atom(t) => [t]
    case Bin(op, l, r) => Emitted(l) + Reverse(Pending(l)) + Emitted(r)
    case Group(i) => Emitted(i) + Reverse(Pending(i))
  }

  /** The operators of `e` still on the conversion's stack then, bottom first. */
  function Pending(e: Expr): seq<Token> {
    match e
    case Atom(_) => []
    case Bin(op, _, r) => [op] + Pending(r)
    case Group(_) => []
  }

  /** Whatever is stacked below the printing of an expression binding as `b` stays
      there: the top is no operator of precedence `b` or more. */
  predicate Admits(stack: seq<Token>, b: nat) {
    stack == [] || !IsOperator(stack[|stack| - 1]) || Prec(stack[|stack| - 1]) < b
  }

  // ---------------------------------------------------------------------------
  // The conversion of a printing

  /** The pending operators bind at least as tightly as the expression. */
  lemma {:induction false} PendingShape(e: Expr)
    requires Proper(e) && WellPrec(e)
    ensures forall k :: 0 <= k < |Pending(e)| ==>
      IsOperator(Pending(e)[k]) && Prec(Pending(e)[k]) >= Binding(e)
  {
    match e
    case Atom(_) =>
    case Bin(op, l, r) => PendingShape(r);
    case Group(_) =>
  }

  /** Emitting the pending operators completes the flattening. */
  lemma {:induction false} FlattenSplit(e: Expr)
    ensures Flatten(e) == Emitted(e) + Reverse(Pending(e))
  {
    match e
    case Atom(t) =>
      assert Reverse([]) == [];
    case Bin(op, l, r) =>
      FlattenSplit(l);
      FlattenSplit(r);
      ReverseAppend([op], Pending(r));
      assert Reverse([op]) == [op];
    case Group(i) =>
      FlattenSplit(i);
      assert Reverse([]) == [];
  }

  lemma RunOne(st: State, t: Token)
    ensures Run(st, [t]) == Step(st, t)
  {
    assert [t][1..] == [];
  }

  /** An operator after a complete operand pops exactly the operand's pending
      operators. */
  lemma RunOperator(s: State, op: Token, base: seq<Token>, seg: seq<Token>)
    requires s.last == AfterNumber && IsOperator(op) && s.stack == base + seg
    requires Admits(base, Prec(op))
    requires forall k :: 0 <= k < |seg| ==> IsOperator(seg[k]) && Prec(seg[k]) >= Prec(op)
    ensures Run(s, [op]) == Ok(State(s.out + Reverse(seg), base + [op], AfterOperator))
  {
    RunOne(s, op);
    PopWhileAtLeastExact(s.out, base, seg, Prec(op));
  }

  /** A ")" after a complete group body pops exactly the body's pending operators and
      its "(". */
  lemma RunClose(s: State, base: seq<Token>, seg: seq<Token>)
    requires s.last == AfterNumber && s.stack == base + [Open] + seg
    requires forall k :: 0 <= k < |seg| ==> IsOperator(seg[k])
    ensures Run(s, [Close]) == Ok(State(s.out + Reverse(seg), base, AfterNumber))
  {
    RunOne(s, Close);
    PopUntilOpenExact(s.out, base + [Open], seg);
    assert (base + [Open])[..|base + [Open]| - 1] == base;
  }

  /** Reading the printing of `e` emits `Emitted(e)`, stacks `Pending(e)` and ends
      after a value, whenever the operator on top of the stack binds less tightly than
      the tree. */
  lemma {:induction false} RunPrint(st: State, e: Expr)
    requires Proper(e) && WellPrec(e) && Admits(st.stack, Binding(e))
    ensures Run(st, Print(e)) == Ok(State(st.out + Emitted(e), st.stack + Pending(e), AfterNumber))
    decreases e, 1
  {
    match e
    case Atom(t) =>
      RunOne(st, t);
      assert st.stack + [] == st.stack;
    case Bin(op, l, r) => RunPrintBin(st, op, l, r);
    case Group(i) => RunPrintGroup(st, i);
  }

  /** Two successful conversion runs in a row. */
  lemma RunThen(st: State, a: seq<Token>, b: seq<Token>, s1: State, s2: State)
    requires Run(st, a) == Ok(s1) && Run(s1, b) == Ok(s2)
    ensures Run(st, a + b) == Ok(s2)
  {
    RunAppend(st, a, b);
  }

  lemma {:induction false} RunPrintBin(st: State, op: Token, l: Expr, r: Expr)
    requires Proper(Bin(op, l, r)) && WellPrec(Bin(op, l, r)) && Admits(st.stack, Prec(op))
    ensures var e := Bin(op, l, r);
      Run(st, Print(e)) == Ok(State(st.out + Emitted(e), st.stack + Pending(e), AfterNumber))
    decreases Bin(op, l, r), 0
  {
    var s1 := State(st.out + Emitted(l), st.stack + Pending(l), AfterNumber);
    var s2 := State(st.out + Emitted(l) + Reverse(Pending(l)), st.stack + [op], AfterOperator);
    var s3 := State(s2.out + Emitted(r), s2.stack + Pending(r), AfterNumber);
    RunPrint(st, l);
    PendingShape(l);
    RunOperator(s1, op, st.stack, Pending(l));
    RunPrint(s2, r);
    RunThen(st, Print(l), [op], s1, s2);
    RunThen(st, Print(l) + [op], Print(r), s2, s3);
    BinState(st, op, l, r);
  }

  lemma BinState(st: State, op: Token, l: Expr, r: Expr)
    ensures var e := Bin(op, l, r);
      State(st.out + Emitted(l) + Reverse(Pending(l)) + Emitted(r), st.stack + [op] + Pending(r), AfterNumber)
      == State(st.out + Emitted(e), st.stack + Pending(e), AfterNumber)
  {
    var e := Bin(op, l, r);
    var el, pl, er := Emitted(l), Reverse(Pending(l)), Emitted(r);
    assert Emitted(e) == el + pl + er;
    assert Pending(e) == [op] + Pending(r);
    Associate(st.out, el, pl, er);
    assert st.stack + [op] + Pending(r) == st.stack + ([op] + Pending(r));
  }

  lemma Associate(a: seq<Token>, b: seq<Token>, c: seq<Token>, d: seq<Token>)
    ensures a + b + c + d == a + (b + c + d)
  {
  }

  lemma Associate3(a: seq<Token>, b: seq<Token>, c: seq<Token>)
    ensures a + b + c == a + (b + c)
  {
  }

  lemma {:induction false} RunPrintGroup(st: State, i: Expr)
    requires Proper(i) && WellPrec(i)
    ensures var e := Group(i);
      Run(st, Print(e)) == Ok(State(st.out + Emitted(e), st.stack + Pending(e), AfterNumber))
    decreases Group(i), 0
  {
    var s1 := State(st.out, st.stack + [Open], AfterOpen);
    var s2 := State(st.out + Emitted(i), st.stack + [Open] + Pending(i), AfterNumber);
    var s3 := State(s2.out + Reverse(Pending(i)), st.stack, AfterNumber);
    RunOne(st, Open);
    RunPrint(s1, i);
    PendingShape(i);
    RunClose(s2, st.stack, Pending(i));
    RunThen(st, [Open], Print(i), s1, s2);
    RunThen(st, [Open] + Print(i), [Close], s2, s3);
    GroupState(st, i);
  }

  lemma GroupState(st: State, i: Expr)
    ensures var e := Group(i);
      State(st.out + Emitted(i) + Reverse(Pending(i)), st.stack, AfterNumber)
      == State(st.out + Emitted(e), st.stack + Pending(e), AfterNumber)
  {
    var b, c := Emitted(i), Reverse(Pending(i));
    assert Emitted(Group(i)) == b + c;
    assert Pending(Group(i)) == [];
    Associate3(st.out, b, c);
    assert st.stack + [] == st.stack;
  }

  /** The conversion turns the printing of a tree into its postfix flattening. */
  lemma PostfixPrint(e: Expr)
    requires Proper(e) && WellPrec(e)
    ensures Postfix(Print(e)) == Ok(Flatten(e))
  {
    var out := Emitted(e);
    var stack := Pending(e);
    RunPrint(Init, e);
    assert [] + out == out && [] + stack == stack;
    assert Run(Init, Print(e)) == Ok(State(out, stack, AfterNumber));
    PendingShape(e);
    assert forall m :: 0 <= m < |stack| ==> !IsParen(stack[m]);
    assert Drain(out, stack) == Ok(out + Reverse(stack));
    FlattenSplit(e);
  }

  /** Subtraction associates to the left: 1 - 2 - 3 becomes 1 2 - 3 -. */
  lemma LeftAssociative(x: Token, y: Token, z: Token)
    requires x.Num? && y.Num? && z.Num?
    ensures Postfix([x, Minus, y, Minus, z]) == Ok([x, y, Minus, z, Minus])
  {
    var l := Bin(Minus, Atom(x), Atom(y));
    var e := Bin(Minus, l, Atom(z));
    assert Print(l) == [x, Minus, y];
    assert Print(e) == [x, Minus, y, Minus, z];
    assert Flatten(l) == [x, y, Minus];
    assert Flatten(e) == [x, y, Minus, z, Minus];
    PostfixPrint(e);
  }

  /** Multiplication binds tighter than addition: 1 + 2 * 3 becomes 1 2 3 * +. */
  lemma TimesBeforePlus(x: Token, y: Token, z: Token)
    requires x.Num? && y.Num? && z.Num?
    ensures Postfix([x, Plus, y, Times, z]) == Ok([x, y, z, Times, Plus])
  {
    var r := Bin(Times, Atom(y), Atom(z));
    var e := Bin(Plus, Atom(x), r);
    assert Print(r) == [y, Times, z];
    assert Print(e) == [x, Plus, y, Times, z];
    assert Flatten(r) == [y, z, Times];
    assert Flatten(e) == [x, y, z, Times, Plus];
    PostfixPrint(e);
  }

  /** A group is converted first: (1 + 2) * 3 becomes 1 2 + 3 *. */
  lemma GroupFirst(x: Token, y: Token, z: Token)
    requires x.Num? && y.Num? && z.Num?
    ensures Postfix([Open, x, Plus, y, Close, Times, z]) == Ok([x, y, Plus, z, Times])
  {
    var sum := Bin(Plus, Atom(x), Atom(y));
    var g := Group(sum);
    var e := Bin(Times, g, Atom(z));
    assert Proper(Atom(x)) && Proper(Atom(y)) && Proper(Atom(z));
    assert Print(sum) == [x, Plus, y];
    assert Print(g) == [Open, x, Plus, y, Close];
    assert Print(e) == [Open, x, Plus, y, Close, Times, z];
    assert Flatten(sum) == [x, y, Plus];
    assert Flatten(e) == [x, y, Plus, z, Times];
    assert Binding(Atom(x)) == 3;
    assert Binding(g) == 3;
    assert WellPrec(sum);
    assert WellPrec(g);
    PostfixPrint(e);
  }

  // ---------------------------------------------------------------------------
  // Evaluation of a flattening

  /** The value of a tree: the left operand first, then the right one, then the
      operator; the first error met is the result. */
  function EvalExpr(e: Expr): (r: Result<Number>)
    requires Proper(e)
  {
    match e
    case Atom(t) => ParseNumber(Text(t))
    case Bin(op, l, r) =>
      (match EvalExpr(l)
       case Err(err) => Err(err)
       case Ok(a) =>
         (match EvalExpr(r)
          case Err(err) => Err(err)
          case Ok(b) => Apply(op, a, b)))
    case Group(i) => EvalExpr(i)
  }

  /** The stack machine run from the value stack `st`. */
  function EvalFrom(st: seq<Number>, rpn: seq<Token>): Result<seq<Number>> {
    if rpn == [] then Ok(st)
    else
      match EvalFrom(st, rpn[..|rpn| - 1])
      case Err(e) => Err(e)
      case Ok(s) => Consume(s, rpn[|rpn| - 1])
  }

  lemma {:induction false} EvalStackFrom(rpn: seq<Token>)
    ensures EvalStack(rpn) == EvalFrom([], rpn)
    decreases |rpn|
  {
    if rpn != [] {
      EvalStackFrom(rpn[..|rpn| - 1]);
    }
  }

  /** Running over `x + y` is running over `x`, then over `y`. */
  lemma {:induction false} EvalFromAppend(st: seq<Number>, x: seq<Token>, y: seq<Token>)
    ensures EvalFrom(st, x + y) == match EvalFrom(st, x) case Err(e) => Err(e) case Ok(s) => EvalFrom(s, y)
    decreases |y|
  {
    if y == [] {
      assert x + y == x;
    } else {
      EvalFromAppend(st, x, y[..|y| - 1]);
      assert (x + y)[..|x + y| - 1] == x + y[..|y| - 1];
    }
  }

  /** `v` pushed on `st`, or the error. */
  function Pushed(st: seq<Number>, r: Result<Number>): Result<seq<Number>> {
    match r
    case Err(e) => Err(e)
    case Ok(v) => Ok(st + [v])
  }

  lemma EvalSnoc(st: seq<Number>, x: seq<Token>, t: Token)
    ensures EvalFrom(st, x + [t]) == match EvalFrom(st, x) case Err(e) => Err(e) case Ok(s) => Consume(s, t)
  {
    assert (x + [t])[..|x + [t]| - 1] == x;
  }

  /** An operator over a stack ending in `a`, `b` replaces them by `a op b`. */
  lemma ConsumeOperator(st: seq<Number>, a: Number, b: Number, op: Token)
    requires IsOperator(op)
    ensures Consume(st + [a] + [b], op) == Pushed(st, Apply(op, a, b))
  {
    var s := st + [a] + [b];
    assert s[..|s| - 2] == st && s[|s| - 2] == a && s[|s| - 1] == b;
  }

  /** The flattening of `e` pushes the value of `e` on whatever stack it starts from,
      or fails as `e` does. */
  lemma {:induction false} EvalFlatten(st: seq<Number>, e: Expr)
    requires Proper(e)
    ensures EvalFrom(st, Flatten(e)) == Pushed(st, EvalExpr(e))
    decreases e
  {
    match e
    case Atom(t) =>
      assert [t][..0] == [];
    case Bin(op, l, r) =>
      EvalFromAppend(st, Flatten(l), Flatten(r));
      EvalSnoc(st, Flatten(l) + Flatten(r), op);
      EvalFlatten(st, l);
      if EvalExpr(l).Ok? {
        var a := EvalExpr(l).value;
        EvalFlatten(st + [a], r);
        if EvalExpr(r).Ok? {
          ConsumeOperator(st, a, EvalExpr(r).value, op);
        }
      }
    case Group(i) =>
      EvalFlatten(st, i);
  }

  /** Evaluating the flattening of a tree is evaluating the tree. */
  lemma EvaluationFlatten(e: Expr)
    requires Proper(e)
    ensures Evaluation(Flatten(e)) == EvalExpr(e)
  {
    EvalStackFrom(Flatten(e));
    EvalFlatten([], e);
  }

  /** A well-printed tree converts to a postfix sequence whose value is the tree's. */
  lemma PrintEvaluates(e: Expr)
    requires Proper(e) && WellPrec(e)
    ensures Postfix(Print(e)).Ok?
    ensures Evaluation(Postfix(Print(e)).value) == EvalExpr(e)
  {
    PostfixPrint(e);
    EvaluationFlatten(e);
  }
}
