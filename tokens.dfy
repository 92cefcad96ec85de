/** How the converter and the evaluator classify the strings the tokenizer emits, and
    the shape a postfix sequence has for a binary-operator stack machine. */
module Tokens {
  import opened Results

  /** A token as the converter and the evaluator see it: one of the four operator
      strings, a parenthesis, or any other string, which is taken for a number. */
  datatype Token = Num(text: string) | Plus | Minus | Times | Slash | Open | Close

  predicate IsSymbolText(s: string) {
    s == "+" || s == "-" || s == "*" || s == "/" || s == "(" || s == ")"
  }

  /** The classification both stages apply to a token string. */
  function Classify(s: string): (t: Token)
    ensures t.Num? <==> !IsSymbolText(s)
    ensures Text(t) == s
  {
    if s == "+" then Plus
    else if s == "-" then Minus
    else if s == "*" then Times
    else if s == "/" then Slash
    else if s == "(" then Open
    else if s == ")" then Close
    else Num(s)
  }

  /** The string a token stands for. */
  function Text(t: Token): string {
    match t
    case Num(s) => s
    case Plus => "+"
    case Minus => "-"
    case Times => "*"
    case Slash => "/"
    case Open => "("
    case Close => ")"
  }

  /** Classifying a token's string gives the token back, except for a number token
      whose text is a symbol, which no classification produces. */
  lemma ClassifyText(t: Token)
    ensures Classify(Text(t)) == t <==> !(t.Num? && IsSymbolText(t.text))
  {
  }

  function ClassifyAll(ss: seq<string>): (ts: seq<Token>)
    ensures |ts| == |ss|
    ensures forall k :: 0 <= k < |ss| ==> ts[k] == Classify(ss[k])
  {
    if ss == [] then [] else ClassifyAll(ss[..|ss| - 1]) + [Classify(ss[|ss| - 1])]
  }

  /** The four binary operators. */
  predicate IsOperator(t: Token) {
    t.Plus? || t.Minus? || t.Times? || t.Slash?
  }

  /** Precedence: additive operators bind less tightly than multiplicative ones. */
  function Prec(t: Token): (p: nat)
    requires IsOperator(t)
    ensures p == 1 <==> t.Plus? || t.Minus?
    ensures p == 2 <==> t.Times? || t.Slash?
  {
    if t.Plus? || t.Minus? then 1 else 2
  }

  predicate IsParen(t: Token) {
    t.Open? || t.Close?
  }

  /** A token after which the expression reads as a complete value. */
  predicate EndsValue(t: Token) {
    t.Num? || t.Close?
  }

  /** Stack height of a binary-operator stack machine after consuming `rpn`: any
      non-operator pushes one value, an operator needs two and leaves one; None on an
      underflow. */
  function Depth(rpn: seq<Token>): Option<nat> {
    if rpn == [] then Some(0)
    else
      match Depth(rpn[..|rpn| - 1])
      case None => None
      case Some(h) =>
        if !IsOperator(rpn[|rpn| - 1]) then Some(h + 1)
        else if h < 2 then None
        else Some(h - 1)
  }

  /** The tokens of `ts` that are not parentheses, in order. */
  function NonParens(ts: seq<Token>): (r: seq<Token>)
    ensures forall k :: 0 <= k < |r| ==> !IsParen(r[k])
  {
    if ts == [] then []
    else NonParens(ts[..|ts| - 1]) + (if IsParen(ts[|ts| - 1]) then [] else [ts[|ts| - 1]])
  }

  /** The number tokens of `ts`, in order. */
  function Operands(ts: seq<Token>): (r: seq<Token>)
    ensures forall k :: 0 <= k < |r| ==> r[k].Num?
  {
    if ts == [] then []
    else Operands(ts[..|ts| - 1]) + (if ts[|ts| - 1].Num? then [ts[|ts| - 1]] else [])
  }
}
