/** The tokenizer: drops the spaces of an expression and cuts the rest into number,
    operator and parenthesis tokens (src/main.py:78-134). */
module Tokenizer {
  import opened Results

  /** `str.isdigit` on the ASCII alphabet. */
  predicate IsDigit(c: char) { '0' <= c <= '9' }

  /** A character that may occur in a number literal. */
  predicate IsNumChar(c: char) { IsDigit(c) || c == '.' }

  predicate IsSign(c: char) { c == '+' || c == '-' }

  /** `t` without its leading sign, if it has one. */
  function Unsigned(t: string): string {
    if |t| > 0 && IsSign(t[0]) then t[1..] else t
  }

  /** A sign right after one of these characters (or at the start) is unary. */
  predicate PrecedesUnary(c: char) {
    c == '+' || c == '-' || c == '*' || c == '/' || c == '('
  }

  /** The characters that form a token of their own. */
  predicate IsSymbol(c: char) { PrecedesUnary(c) || c == ')' }

  /** The expression with every space character removed (only ' ', not tabs). */
  function RemoveSpaces(e: string): string {
    if e == [] then [] else (if e[0] == ' ' then [] else [e[0]]) + RemoveSpaces(e[1..])
  }

  /** Removing the spaces keeps every other character, as often as it occurs. */
  lemma {:induction false} RemoveSpacesCounts(e: string)
    ensures multiset(RemoveSpaces(e))[' '] == 0
    ensures forall c :: c != ' ' ==> multiset(RemoveSpaces(e))[c] == multiset(e)[c]
  {
    if e != [] {
      RemoveSpacesCounts(e[1..]);
      assert e == [e[0]] + e[1..];
    }
  }

  /** A string without spaces is left as it is. */
  lemma {:induction false} NoSpaces(e: string)
    requires forall k :: 0 <= k < |e| ==> e[k] != ' '
    ensures RemoveSpaces(e) == e
  {
    if e != [] {
      NoSpaces(e[1..]);
      assert e == [e[0]] + e[1..];
    }
  }

  /** Number of '.' characters in `t`. */
  function Dots(t: string): nat {
    if t == [] then 0 else Dots(t[..|t| - 1]) + (if t[|t| - 1] == '.' then 1 else 0)
  }

  /** Dots of a concatenation add up. */
  lemma {:induction false} DotsConcat(x: string, y: string)
    ensures Dots(x + y) == Dots(x) + Dots(y)
    decreases |y|
  {
    if y != [] {
      assert (x + y)[..|x + y| - 1] == x + y[..|y| - 1];
      DotsConcat(x, y[..|y| - 1]);
    } else {
      assert x + y == x;
    }
  }

  /** One more character of a run adds one dot if it is a '.'. */
  lemma DotsStep(s: string, start: nat, k: nat)
    requires start <= k < |s|
    ensures Dots(s[start..k + 1]) == Dots(s[start..k]) + (if s[k] == '.' then 1 else 0)
  {
    assert s[start..k + 1][..k - start] == s[start..k];
  }

  /** Positions `a` to `e` (exclusive) of `s` hold only digits and dots. */
  predicate IsRun(s: string, a: nat, e: nat) {
    a <= e <= |s| && forall m :: a <= m < e ==> IsNumChar(s[m])
  }

  /** The scan over a run of digits and dots that starts at `start`, now at `k` having
      seen `dot` dots: the end of the maximal run, or MalformedNumber at a second dot. */
  function ScanRun(s: string, start: nat, k: nat, dot: nat): (r: Result<nat>)
    requires start <= k <= |s|
    requires forall m :: start <= m < k ==> IsNumChar(s[m])
    requires dot == Dots(s[start..k]) && dot <= 1
    decreases |s| - k
    ensures r.Ok? ==> k <= r.value <= |s|
    ensures r.Ok? ==> forall m :: start <= m < r.value ==> IsNumChar(s[m])
    ensures r.Ok? ==> r.value == |s| || !IsNumChar(s[r.value])
    ensures r.Ok? ==> Dots(s[start..r.value]) <= 1
    ensures r.Err? ==> r.error == MalformedNumber
    ensures r.Err? ==> exists e :: k < e && IsRun(s, start, e) && Dots(s[start..e]) == 2
  {
    if k < |s| && IsNumChar(s[k]) then
      DotsStep(s, start, k);
      if s[k] == '.' then
        if dot + 1 > 1 then Err(MalformedNumber) else ScanRun(s, start, k + 1, dot + 1)
      else ScanRun(s, start, k + 1, dot)
    else Ok(k)
  }

  /** Puts `t` in front of the tokens of a successful scan. */
  function Cons(t: string, rest: Result<seq<string>>): Result<seq<string>> {
    match rest
    case Ok(ts) => Ok([t] + ts)
    case Err(e) => Err(e)
  }

  /** Puts `ts` in front of the tokens of a successful scan. */
  function Prepend(ts: seq<string>, rest: Result<seq<string>>): Result<seq<string>> {
    match rest
    case Ok(us) => Ok(ts + us)
    case Err(e) => Err(e)
  }

  /** The tokens of the space-free string `s` from position `i` on. */
  function TokensFrom(s: string, i: nat): (r: Result<seq<string>>)
    requires i <= |s|
    decreases |s| - i
    ensures r.Err? ==> r.error.DanglingUnarySign? || r.error.MalformedNumber? || r.error.InvalidCharacter?
  {
    if i == |s| then Ok([])
    else if IsSign(s[i]) && (i == 0 || PrecedesUnary(s[i - 1])) then
      if i + 1 >= |s| || !IsNumChar(s[i + 1]) then Err(DanglingUnarySign)
      else
        match ScanRun(s, i + 1, i + 1, 0)
        case Err(e) => Err(e)
        case Ok(k) => Cons(s[i..k], TokensFrom(s, k))
    else if IsNumChar(s[i]) then
      match ScanRun(s, i, i, 0)
      case Err(e) => Err(e)
      case Ok(k) => Cons(s[i..k], TokensFrom(s, k))
    else if IsSymbol(s[i]) then Cons([s[i]], TokensFrom(s, i + 1))
    else Err(InvalidCharacter(s[i]))
  }

  /** The tokens of an expression. */
  function Tokens(expr: string): (r: Result<seq<string>>)
    ensures (r.Err? && r.error == EmptyExpression) <==> RemoveSpaces(expr) == []
  {
    var s := RemoveSpaces(expr);
    if s == [] then Err(EmptyExpression) else TokensFrom(s, 0)
  }

  lemma PrependCons(ts: seq<string>, t: string, rest: Result<seq<string>>)
    ensures Prepend(ts, Cons(t, rest)) == Prepend(ts + [t], rest)
  {
    if rest.Ok? {
      assert ts + ([t] + rest.value) == (ts + [t]) + rest.value;
    }
  }

  /** The inner loop over a run of digits and dots from `start`, counting the dots.
      Both number branches of the scanner run it. */
  method ScanNumber(s: string, start: nat) returns (r: Result<nat>)
    requires start <= |s|
    ensures r == ScanRun(s, start, start, 0)
  {
    var k := start;
    var dot := 0;
    while k < |s| && IsNumChar(s[k])
      invariant start <= k <= |s|
      invariant forall m :: start <= m < k ==> IsNumChar(s[m])
      invariant dot == Dots(s[start..k]) && dot <= 1
      invariant ScanRun(s, start, start, 0) == ScanRun(s, start, k, dot)
      decreases |s| - k
    {
      DotsStep(s, start, k);
      if s[k] == '.' {
        dot := dot + 1;
        if dot > 1 {
          return Err(MalformedNumber);
        }
      }
      k := k + 1;
    }
    r := Ok(k);
  }

  /** The scanning loop of the source; it computes `Tokens`. */
  method Tokenize(expr: string) returns (r: Result<seq<string>>)
    ensures r == Tokens(expr)
  {
    var s := RemoveSpaces(expr);
    if s == [] {
      return Err(EmptyExpression);
    }
    var tokens: seq<string> := [];
    var i := 0;
    if TokensFrom(s, 0).Ok? {
      assert [] + TokensFrom(s, 0).value == TokensFrom(s, 0).value;
    }
    while i < |s|
      invariant 0 <= i <= |s|
      invariant TokensFrom(s, 0) == Prepend(tokens, TokensFrom(s, i))
      decreases |s| - i
    {
      var c := s[i];
      if IsSign(c) && (i == 0 || PrecedesUnary(s[i - 1])) {
        // a unary sign starts a signed number
        var j := i + 1;
        if j >= |s| || !IsNumChar(s[j]) {
          return Err(DanglingUnarySign);
        }
        var run := ScanNumber(s, j);
        if run.Err? {
          return Err(run.error);
        }
        var k := run.value;
        PrependCons(tokens, s[i..k], TokensFrom(s, k));
        tokens := tokens + [s[i..k]];
        i := k;
      } else if IsDigit(c) || c == '.' {
        var run := ScanNumber(s, i);
        if run.Err? {
          return Err(run.error);
        }
        var j := run.value;
        PrependCons(tokens, s[i..j], TokensFrom(s, j));
        tokens := tokens + [s[i..j]];
        i := j;
      } else if IsSymbol(c) {
        PrependCons(tokens, [c], TokensFrom(s, i + 1));
        tokens := tokens + [[c]];
        i := i + 1;
      } else {
        return Err(InvalidCharacter(c));
      }
    }
    assert tokens + [] == tokens;
    r := Ok(tokens);
  }
}

/** What the tokens of an expression are, and when the tokenizer fails. */
module TokenizerFacts {
  import opened Results
  import opened Tokenizer

  /** The concatenation of the tokens. */
  function Concat(ts: seq<string>): string {
    if ts == [] then [] else ts[0] + Concat(ts[1..])
  }

  /** A token that stands for one operator or parenthesis character. */
  predicate IsSymbolToken(t: string) {
    |t| == 1 && IsSymbol(t[0])
  }

  /** An optional sign followed by a non-empty run of digits and dots with at most one dot. */
  predicate IsNumberToken(t: string) {
    var body := Unsigned(t);
    |body| > 0 && (forall m :: 0 <= m < |body| ==> IsNumChar(body[m])) && Dots(body) <= 1
  }

  /** A token after which a sign is read as unary. */
  predicate IsUnaryContext(t: string) {
    |t| == 1 && PrecedesUnary(t[0])
  }

  /** A character the tokenizer accepts at all. */
  predicate IsAllowed(c: char) {
    IsNumChar(c) || IsSymbol(c)
  }

  /** One unfolding of a successful scan at `i`: the first token is a piece of the input
      that is a symbol or a number token, and the scan goes on where it ends. */
  lemma FirstToken(s: string, i: nat, ts: seq<string>)
    requires i < |s| && TokensFrom(s, i) == Ok(ts)
    ensures |ts| > 0 && i < i + |ts[0]| <= |s| && ts[0] == s[i..i + |ts[0]|]
    ensures TokensFrom(s, i + |ts[0]|) == Ok(ts[1..])
    ensures IsSymbolToken(ts[0]) != IsNumberToken(ts[0])
    ensures IsNumberToken(ts[0]) ==> i + |ts[0]| == |s| || !IsNumChar(s[i + |ts[0]|])
    ensures IsSign(ts[0][0]) ==> (|ts[0]| > 1 <==> i == 0 || PrecedesUnary(s[i - 1]))
  {
    if IsSign(s[i]) && (i == 0 || PrecedesUnary(s[i - 1])) {
      FirstSigned(s, i, ts);
    } else if IsNumChar(s[i]) {
      var k := ScanRun(s, i, i, 0).value;
      assert ts == [s[i..k]] + TokensFrom(s, k).value;
      assert Unsigned(s[i..k]) == s[i..k];
    } else {
      assert ts == [[s[i]]] + TokensFrom(s, i + 1).value;
      assert s[i..i + 1] == [s[i]];
    }
  }

  /** The first token when it is a signed number. */
  lemma FirstSigned(s: string, i: nat, ts: seq<string>)
    requires i < |s| && TokensFrom(s, i) == Ok(ts)
    requires IsSign(s[i]) && (i == 0 || PrecedesUnary(s[i - 1]))
    ensures |ts| > 0 && i + 1 < i + |ts[0]| <= |s| && ts[0] == s[i..i + |ts[0]|]
    ensures TokensFrom(s, i + |ts[0]|) == Ok(ts[1..])
    ensures IsNumberToken(ts[0]) && !IsSymbolToken(ts[0])
    ensures i + |ts[0]| == |s| || !IsNumChar(s[i + |ts[0]|])
  {
    var k := ScanRun(s, i + 1, i + 1, 0).value;
    assert ts == [s[i..k]] + TokensFrom(s, k).value;
    assert Unsigned(s[i..k]) == s[i + 1..k];
  }

  /** A first token that is the input up to `n`, and a rebuilt rest from `n`, rebuild
      the input from `i`. */
  lemma ConcatSplit(s: string, i: nat, n: nat, ts: seq<string>)
    requires i < n <= |s| && ts != [] && ts[0] == s[i..n] && Concat(ts[1..]) == s[n..]
    requires forall k :: 0 <= k < |ts[1..]| ==> ts[1..][k] != []
    ensures Concat(ts) == s[i..]
    ensures forall k :: 0 <= k < |ts| ==> ts[k] != []
  {
    assert Concat(ts) == ts[0] + Concat(ts[1..]);
    assert s[i..] == s[i..n] + s[n..];
    NonEmptyParts(ts);
  }

  lemma NonEmptyParts(ts: seq<string>)
    requires ts != [] && ts[0] != []
    requires forall k :: 0 <= k < |ts[1..]| ==> ts[1..][k] != []
    ensures forall k :: 0 <= k < |ts| ==> ts[k] != []
  {
    forall k | 0 <= k < |ts| ensures ts[k] != [] {
      if k > 0 { assert ts[k] == ts[1..][k - 1]; }
    }
  }

  lemma {:induction false} RebuildFrom(s: string, i: nat, ts: seq<string>)
    requires i <= |s| && TokensFrom(s, i) == Ok(ts)
    ensures Concat(ts) == s[i..]
    ensures forall k :: 0 <= k < |ts| ==> ts[k] != []
    decreases |s| - i
  {
    if i < |s| {
      FirstToken(s, i, ts);
      var n := i + |ts[0]|;
      RebuildFrom(s, n, ts[1..]);
      ConcatSplit(s, i, n, ts);
    }
  }

  lemma {:induction false} ShapesFrom(s: string, i: nat, ts: seq<string>)
    requires i <= |s| && TokensFrom(s, i) == Ok(ts)
    ensures forall k :: 0 <= k < |ts| ==> IsSymbolToken(ts[k]) != IsNumberToken(ts[k])
    decreases |s| - i
  {
    if i < |s| {
      FirstToken(s, i, ts);
      ShapesFrom(s, i + |ts[0]|, ts[1..]);
      forall k | 0 < k < |ts| ensures IsSymbolToken(ts[k]) != IsNumberToken(ts[k]) {
        assert ts[k] == ts[1..][k - 1];
      }
    }
  }

  /** The last character of a number token is a digit or a dot. */
  lemma NumberTokenEnd(t: string)
    requires IsNumberToken(t)
    ensures |t| > 0 && IsNumChar(t[|t| - 1]) && !PrecedesUnary(t[|t| - 1])
  {
    var body := Unsigned(t);
    assert t[|t| - 1] == body[|body| - 1];
  }

  /** The token that ends just before position `n` is a unary context exactly when the
      character before `n` is one. */
  lemma ContextOfPrevious(s: string, i: nat, ts: seq<string>)
    requires i < |s| && TokensFrom(s, i) == Ok(ts)
    ensures |ts| > 0 && i + |ts[0]| <= |s|
    ensures PrecedesUnary(s[i + |ts[0]| - 1]) <==> IsUnaryContext(ts[0])
  {
    FirstToken(s, i, ts);
    var t := ts[0];
    assert s[i + |t| - 1] == t[|t| - 1];
    if IsNumberToken(t) {
      NumberTokenEnd(t);
    }
  }

  lemma {:induction false} MaximalFrom(s: string, i: nat, ts: seq<string>)
    requires i <= |s| && TokensFrom(s, i) == Ok(ts)
    ensures forall k :: 0 <= k < |ts| - 1 && IsNumberToken(ts[k]) && ts[k + 1] != [] ==> !IsNumChar(ts[k + 1][0])
    decreases |s| - i
  {
    if i < |s| {
      FirstToken(s, i, ts);
      var n := i + |ts[0]|;
      var rest := ts[1..];
      MaximalFrom(s, n, rest);
      if |rest| > 0 {
        FirstToken(s, n, rest);
        assert rest[0][0] == s[n];
      }
      forall k | 0 <= k < |ts| - 1 && IsNumberToken(ts[k]) && ts[k + 1] != [] ensures !IsNumChar(ts[k + 1][0]) {
        if k > 0 { assert ts[k] == rest[k - 1] && ts[k + 1] == rest[k]; }
      }
    }
  }

  lemma {:induction false} SignRuleFrom(s: string, i: nat, ts: seq<string>)
    requires i <= |s| && TokensFrom(s, i) == Ok(ts)
    ensures |ts| > 0 && ts[0] != [] && IsSign(ts[0][0]) ==> (|ts[0]| > 1 <==> i == 0 || PrecedesUnary(s[i - 1]))
    ensures forall k :: 0 < k < |ts| && ts[k] != [] && IsSign(ts[k][0]) ==> (|ts[k]| > 1 <==> IsUnaryContext(ts[k - 1]))
    decreases |s| - i
  {
    if i < |s| {
      FirstToken(s, i, ts);
      var n := i + |ts[0]|;
      var rest := ts[1..];
      SignRuleFrom(s, n, rest);
      ContextOfPrevious(s, i, ts);
      forall k | 0 < k < |ts| && ts[k] != [] && IsSign(ts[k][0]) ensures (|ts[k]| > 1 <==> IsUnaryContext(ts[k - 1])) {
        assert ts[k] == rest[k - 1];
        if k > 1 { assert ts[k - 1] == rest[k - 2]; }
      }
    }
  }

  lemma ConsErr(t: string, rest: Result<seq<string>>, e: Error)
    requires Cons(t, rest) == Err(e)
    ensures rest == Err(e)
  {
  }

  /** An invalid character error names a character of the input that is neither a digit,
      a dot, an operator nor a parenthesis. */
  lemma {:induction false} InvalidCharacterFrom(s: string, i: nat, c: char)
    requires i <= |s| && TokensFrom(s, i) == Err(InvalidCharacter(c))
    ensures !IsAllowed(c) && exists m :: i <= m < |s| && s[m] == c
    decreases |s| - i
  {
    if IsSign(s[i]) && (i == 0 || PrecedesUnary(s[i - 1])) {
      var k := ScanRun(s, i + 1, i + 1, 0).value;
      ConsErr(s[i..k], TokensFrom(s, k), InvalidCharacter(c));
      InvalidCharacterFrom(s, k, c);
    } else if IsNumChar(s[i]) {
      var k := ScanRun(s, i, i, 0).value;
      ConsErr(s[i..k], TokensFrom(s, k), InvalidCharacter(c));
      InvalidCharacterFrom(s, k, c);
    } else if IsSymbol(s[i]) {
      ConsErr([s[i]], TokensFrom(s, i + 1), InvalidCharacter(c));
      InvalidCharacterFrom(s, i + 1, c);
    }
  }

  /** Position `m` holds a sign that is unary where it stands and that no digit or dot follows. */
  predicate DanglingAt(s: string, m: nat)
    requires m < |s|
  {
    IsSign(s[m]) && (m == 0 || PrecedesUnary(s[m - 1])) && (m + 1 == |s| || !IsNumChar(s[m + 1]))
  }

  /** A dangling sign error points at a unary sign that no digit or dot follows. */
  lemma {:induction false} DanglingFrom(s: string, i: nat)
    requires i <= |s| && TokensFrom(s, i) == Err(DanglingUnarySign)
    ensures exists m :: i <= m < |s| && DanglingAt(s, m)
    decreases |s| - i
  {
    if IsSign(s[i]) && (i == 0 || PrecedesUnary(s[i - 1])) {
      if i + 1 < |s| && IsNumChar(s[i + 1]) {
        var k := ScanRun(s, i + 1, i + 1, 0).value;
        ConsErr(s[i..k], TokensFrom(s, k), DanglingUnarySign);
        DanglingFrom(s, k);
      } else {
        assert DanglingAt(s, i);
      }
    } else if IsNumChar(s[i]) {
      var k := ScanRun(s, i, i, 0).value;
      ConsErr(s[i..k], TokensFrom(s, k), DanglingUnarySign);
      DanglingFrom(s, k);
    } else if IsSymbol(s[i]) {
      ConsErr([s[i]], TokensFrom(s, i + 1), DanglingUnarySign);
      DanglingFrom(s, i + 1);
    }
  }

  /** A malformed number error points at a run of digits and dots holding two dots. */
  lemma {:induction false} MalformedFrom(s: string, i: nat)
    requires i <= |s| && TokensFrom(s, i) == Err(MalformedNumber)
    ensures exists a: nat, e: nat :: i <= a && IsRun(s, a, e) && Dots(s[a..e]) == 2
    decreases |s| - i
  {
    if IsSign(s[i]) && (i == 0 || PrecedesUnary(s[i - 1])) {
      if i + 1 < |s| && IsNumChar(s[i + 1]) {
        var run := ScanRun(s, i + 1, i + 1, 0);
        if run.Ok? {
          ConsErr(s[i..run.value], TokensFrom(s, run.value), MalformedNumber);
          MalformedFrom(s, run.value);
        }
      }
    } else if IsNumChar(s[i]) {
      var run := ScanRun(s, i, i, 0);
      if run.Ok? {
        ConsErr(s[i..run.value], TokensFrom(s, run.value), MalformedNumber);
        MalformedFrom(s, run.value);
      }
    } else if IsSymbol(s[i]) {
      ConsErr([s[i]], TokensFrom(s, i + 1), MalformedNumber);
      MalformedFrom(s, i + 1);
    }
  }

  /** A piece of a run holds no more dots than the run. */
  lemma DotsWithin(s: string, b: nat, a: nat, e: nat, n: nat)
    requires b <= a <= e <= n <= |s|
    ensures Dots(s[a..e]) <= Dots(s[b..n])
  {
    assert s[b..n] == s[b..a] + s[a..e] + s[e..n];
    DotsConcat(s[b..a] + s[a..e], s[e..n]);
    DotsConcat(s[b..a], s[a..e]);
  }

  /** On a successful scan, no run of digits and dots in the input holds two dots. */
  lemma {:induction false} RunsFrom(s: string, i: nat, ts: seq<string>)
    requires i <= |s| && TokensFrom(s, i) == Ok(ts)
    ensures forall a: nat, e: nat :: i <= a && IsRun(s, a, e) ==> Dots(s[a..e]) <= 1
    decreases |s| - i
  {
    if i < |s| {
      FirstToken(s, i, ts);
      var t := ts[0];
      var n := i + |t|;
      RunsFrom(s, n, ts[1..]);
      forall a: nat, e: nat | i <= a && IsRun(s, a, e) ensures Dots(s[a..e]) <= 1 {
        if a < n && a < e && IsNumberToken(t) {
          var b := if IsSign(t[0]) then i + 1 else i;
          assert Unsigned(t) == s[b..n];
          DotsWithin(s, b, a, e, n);
        } else if a == e {
          assert s[a..e] == [];
        }
      }
    }
  }

  /** Every character of a successfully scanned input is accepted by the tokenizer. */
  lemma {:induction false} AllowedFrom(s: string, i: nat, ts: seq<string>)
    requires i <= |s| && TokensFrom(s, i) == Ok(ts)
    ensures forall m :: i <= m < |s| ==> IsAllowed(s[m])
    decreases |s| - i
  {
    if i < |s| {
      FirstToken(s, i, ts);
      var t := ts[0];
      var n := i + |t|;
      AllowedFrom(s, n, ts[1..]);
      forall m | i <= m < n ensures IsAllowed(s[m]) {
        assert s[m] == t[m - i];
        if IsNumberToken(t) && m > i {
          assert t[m - i] == Unsigned(t)[m - i - (|t| - |Unsigned(t)|)];
        }
      }
    }
  }

  /** The tokens rebuild the input: concatenated, they give the expression without its
      spaces, and none of them is empty. */
  lemma TokensRebuildInput(expr: string, ts: seq<string>)
    requires Tokens(expr) == Ok(ts)
    ensures Concat(ts) == RemoveSpaces(expr)
    ensures forall k :: 0 <= k < |ts| ==> ts[k] != []
  {
    RebuildFrom(RemoveSpaces(expr), 0, ts);
  }

  /** Each token is a single operator or parenthesis, or a number token; a number token
      takes the whole run of digits and dots, so the next token does not start with one. */
  lemma TokenKinds(expr: string, ts: seq<string>)
    requires Tokens(expr) == Ok(ts)
    ensures forall k :: 0 <= k < |ts| ==> IsSymbolToken(ts[k]) != IsNumberToken(ts[k])
    ensures forall k :: 0 <= k < |ts| - 1 && IsNumberToken(ts[k]) ==> ts[k + 1] != [] && !IsNumChar(ts[k + 1][0])
  {
    var s := RemoveSpaces(expr);
    RebuildFrom(s, 0, ts);
    ShapesFrom(s, 0, ts);
    MaximalFrom(s, 0, ts);
  }

  /** A token that starts with a sign is a signed number exactly when it is the first
      token or follows one of + - * / ( ; otherwise it is the operator alone. */
  lemma UnarySignRule(expr: string, ts: seq<string>)
    requires Tokens(expr) == Ok(ts)
    ensures forall k :: 0 <= k < |ts| ==>
              ts[k] != [] && (IsSign(ts[k][0]) ==> (|ts[k]| > 1 <==> k == 0 || IsUnaryContext(ts[k - 1])))
  {
    var s := RemoveSpaces(expr);
    RebuildFrom(s, 0, ts);
    SignRuleFrom(s, 0, ts);
  }

  /** No run of digits and dots in `s` holds more than one dot. */
  ghost predicate OneDotPerRun(s: string) {
    forall a: nat, e: nat :: IsRun(s, a, e) ==> Dots(s[a..e]) <= 1
  }

  /** At most one dot per number: on success no run of digits and dots of the input holds
      two dots, and the malformed number error only comes from a run that does. */
  lemma AtMostOneDot(expr: string)
    ensures Tokens(expr).Ok? ==> OneDotPerRun(RemoveSpaces(expr))
    ensures Tokens(expr) == Err(MalformedNumber) ==> !OneDotPerRun(RemoveSpaces(expr))
  {
    var s := RemoveSpaces(expr);
    if Tokens(expr).Ok? {
      RunsFrom(s, 0, Tokens(expr).value);
    } else if Tokens(expr) == Err(MalformedNumber) {
      MalformedFrom(s, 0);
    }
  }

  /** Only spaces are dropped: every other character of an accepted expression is a
      digit, a dot, an operator or a parenthesis, and an invalid character error names a
      character of the input that is none of these (a tab, for one). */
  lemma CharacterErrors(expr: string)
    ensures Tokens(expr).Ok? ==> forall c :: c in expr && c != ' ' ==> IsAllowed(c)
    ensures Tokens(expr).Err? && Tokens(expr).error.InvalidCharacter? ==>
      var c := Tokens(expr).error.c; c in expr && c != ' ' && !IsAllowed(c)
    ensures Tokens(expr) == Err(DanglingUnarySign) ==>
      exists m :: 0 <= m < |RemoveSpaces(expr)| && DanglingAt(RemoveSpaces(expr), m)
  {
    var s := RemoveSpaces(expr);
    RemoveSpacesCounts(expr);
    if Tokens(expr).Ok? {
      AllowedFrom(s, 0, Tokens(expr).value);
      forall c | c in expr && c != ' ' ensures IsAllowed(c) {
        assert multiset(s)[c] == multiset(expr)[c] > 0;
        var m :| 0 <= m < |s| && s[m] == c;
      }
    } else if Tokens(expr).error.InvalidCharacter? {
      var c := Tokens(expr).error.c;
      InvalidCharacterFrom(s, 0, c);
      var m :| 0 <= m < |s| && s[m] == c;
      assert multiset(s)[c] > 0;
    } else if Tokens(expr) == Err(DanglingUnarySign) {
      DanglingFrom(s, 0);
    }
  }

  /** The signed number at the end of "2++3". */
  lemma SignedTail()
    ensures TokensFrom("2++3", 2) == Ok(["+3"])
  {
    var s := "2++3";
    assert s[3..3] == [] && s[3..4] == "3";
    assert ScanRun(s, 3, 3, 0) == Ok(4);
    assert TokensFrom(s, 4) == Ok([]);
    assert s[2..4] == "+3" && ["+3"] + [] == ["+3"];
  }

  lemma DoublePlusFrom()
    ensures TokensFrom("2++3", 0) == Ok(["2", "+", "+3"])
  {
    var s := "2++3";
    SignedTail();
    assert [s[1]] == "+" && ["+"] + ["+3"] == ["+", "+3"];
    assert TokensFrom(s, 1) == Ok(["+", "+3"]);
    assert s[0..1] == "2" && ["2"] + ["+", "+3"] == ["2", "+", "+3"];
    assert ScanRun(s, 0, 0, 0) == Ok(1);
  }

  /** A sign after an operator followed by a digit is unary, so a doubled plus is accepted. */
  lemma DoublePlusIsUnary()
    ensures Tokens("2++3") == Ok(["2", "+", "+3"])
    ensures Tokens("2 ++ 3") == Ok(["2", "+", "+3"])
  {
    DoublePlusFrom();
    NoSpaces("2++3");
    assert RemoveSpaces("2 ++ 3") == "2++3";
  }

  /** A lone dot is a number token for the tokenizer. */
  lemma LoneDot()
    ensures Tokens(".") == Ok(["."])
  {
    var s := ".";
    assert ScanRun(s, 0, 0, 0) == Ok(1);
    assert TokensFrom(s, 1) == Ok([]);
    assert s[0..1] == "." && ["."] + [] == ["."];
    assert TokensFrom(s, 0) == Ok(["."]);
  }

  lemma EmptyInput()
    ensures Tokens("") == Err(EmptyExpression) && Tokens("   ") == Err(EmptyExpression)
  {
  }

  lemma TwoDots()
    ensures Tokens("1..2") == Err(MalformedNumber)
  {
    var s := "1..2";
    assert s[0..1] == "1" && Dots("1") == 0;
    assert s[0..2] == "1." && Dots("1.") == 1;
    assert ScanRun(s, 0, 2, 1) == Err(MalformedNumber);
    assert ScanRun(s, 0, 1, 0) == Err(MalformedNumber);
    assert ScanRun(s, 0, 0, 0) == Err(MalformedNumber);
  }

  /** Only ' ' is removed: a tab is an invalid character. */
  lemma TabIsInvalid()
    ensures Tokens("1\t+2") == Err(InvalidCharacter('\t'))
  {
    var s := "1\t+2";
    assert s[0..1] == "1";
    assert ScanRun(s, 0, 0, 0) == Ok(1);
    assert TokensFrom(s, 1) == Err(InvalidCharacter('\t'));
  }

  lemma SignWithoutNumber()
    ensures Tokens("3*-") == Err(DanglingUnarySign)
  {
    var s := "3*-";
    assert TokensFrom(s, 2) == Err(DanglingUnarySign);
    assert TokensFrom(s, 1) == Err(DanglingUnarySign);
    assert s[0..1] == "3";
    assert ScanRun(s, 0, 0, 0) == Ok(1);
  }

  /** A string of digits and no dots. */
  predicate DigitsOnlyText(d: string) {
    forall m :: 0 <= m < |d| ==> IsDigit(d[m])
  }

  lemma {:induction false} DigitsHaveNoDots(x: string)
    requires DigitsOnlyText(x)
    ensures Dots(x) == 0
    decreases |x|
  {
    if x != [] {
      DigitsHaveNoDots(x[..|x| - 1]);
    }
  }

  /** A run of digits from `start` goes to the end of `s`. */
  lemma {:induction false} ScanDigits(s: string, start: nat, k: nat)
    requires start <= k <= |s| && DigitsOnlyText(s[start..])
    ensures forall m :: start <= m < k ==> IsNumChar(s[m])
    ensures Dots(s[start..k]) == 0
    ensures ScanRun(s, start, k, 0) == Ok(|s|)
    decreases |s| - k
  {
    assert forall m :: start <= m < |s| ==> s[m] == s[start..][m - start];
    DigitsHaveNoDots(s[start..k]);
    if k < |s| {
      ScanDigits(s, start, k + 1);
    }
  }

  /** A non-empty string of digits, bare or after a minus, is one number token. */
  lemma IntegerToken(d: string)
    requires d != [] && DigitsOnlyText(d)
    ensures Tokens(d) == Ok([d])
    ensures Tokens("-" + d) == Ok(["-" + d])
  {
    NoSpaces(d);
    ScanDigits(d, 0, 0);
    assert d[0..|d|] == d;
    assert TokensFrom(d, 0) == Cons(d, TokensFrom(d, |d|));
    var none: seq<string> := [];
    assert [d] + none == [d];
    NegativeToken(d);
  }

  lemma NegativeToken(d: string)
    requires d != [] && DigitsOnlyText(d)
    ensures Tokens("-" + d) == Ok(["-" + d])
  {
    var s := "-" + d;
    assert s[1..] == d;
    assert forall k :: 0 <= k < |s| ==> s[k] != ' ';
    NoSpaces(s);
    ScanDigits(s, 1, 1);
    assert s[0..|s|] == s;
    assert IsSign(s[0]) && IsNumChar(s[1]);
    assert TokensFrom(s, 0) == Cons(s, TokensFrom(s, |s|));
    var none: seq<string> := [];
    assert [s] + none == [s];
  }

  /** Removing spaces distributes over concatenation. */
  lemma {:induction false} RemoveSpacesAppend(a: string, b: string)
    ensures RemoveSpaces(a + b) == RemoveSpaces(a) + RemoveSpaces(b)
    decreases |a|
  {
    if a == [] {
      assert a + b == b;
    } else {
      assert (a + b)[0] == a[0] && (a + b)[1..] == a[1..] + b;
      RemoveSpacesAppend(a[1..], b);
    }
  }

  /** `rest` with one more token at its end. */
  function Append(rest: Result<seq<string>>, t: string): Result<seq<string>> {
    match rest
    case Ok(ts) => Ok(ts + [t])
    case Err(e) => Err(e)
  }

  /** A scan result moved one position on. */
  function Shift(r: Result<nat>): Result<nat> {
    match r
    case Ok(k) => Ok(k + 1)
    case Err(e) => Err(e)
  }

  lemma ConsAppend(t: string, rest: Result<seq<string>>, u: string)
    ensures Cons(t, Append(rest, u)) == Append(Cons(t, rest), u)
  {
    if rest.Ok? {
      assert [t] + (rest.value + [u]) == ([t] + rest.value) + [u];
    }
  }

  /** `t` is `s` between a pair of parentheses. */
  predicate Wraps(t: string, s: string) {
    |t| == |s| + 2 && t[0] == '(' && t[|s| + 1] == ')' &&
    forall m :: 0 <= m < |s| ==> t[m + 1] == s[m]
  }

  lemma WrapsSlice(t: string, s: string, a: nat, e: nat)
    requires Wraps(t, s) && a <= e <= |s|
    ensures t[a + 1..e + 1] == s[a..e]
  {
  }

  /** A run of `s` is a run of `t`, one position later. */
  lemma WrapsRun(t: string, s: string, a: nat, e: nat)
    requires Wraps(t, s) && a <= e <= |s|
    requires forall m :: a <= m < e ==> IsNumChar(s[m])
    ensures forall m :: a + 1 <= m < e + 1 ==> IsNumChar(t[m])
    ensures Dots(t[a + 1..e + 1]) == Dots(s[a..e])
  {
    forall m | a + 1 <= m < e + 1
      ensures IsNumChar(t[m])
    {
      assert t[(m - 1) + 1] == s[m - 1];
    }
    WrapsSlice(t, s, a, e);
  }

  /** A longer stretch holds at least as many dots. */
  lemma DotsGrow(u: string, a: nat, b: nat, c: nat)
    requires a <= b <= c <= |u|
    ensures Dots(u[a..b]) <= Dots(u[a..c])
  {
    assert u[a..c] == u[a..b] + u[b..c];
    DotsConcat(u[a..b], u[b..c]);
  }

  /** No run from `a` goes past the end `e` of a maximal run from `a`. */
  lemma RunWithin(u: string, a: nat, e: nat, e': nat)
    requires IsRun(u, a, e) && (e == |u| || !IsNumChar(u[e])) && IsRun(u, a, e')
    ensures e' <= e
  {
  }

  /** A maximal run with at most one dot is scanned to its end. */
  lemma ScanToEnd(u: string, a: nat, e: nat)
    requires IsRun(u, a, e) && (e == |u| || !IsNumChar(u[e])) && Dots(u[a..e]) <= 1
    ensures ScanRun(u, a, a, 0) == Ok(e)
  {
    var r := ScanRun(u, a, a, 0);
    if r.Ok? {
      RunWithin(u, a, e, r.value);
      RunWithin(u, a, r.value, e);
    } else {
      var x :| a < x && IsRun(u, a, x) && Dots(u[a..x]) == 2;
      RunWithin(u, a, e, x);
      DotsGrow(u, a, x, e);
      assert false;
    }
  }

  /** A run with two dots makes the scan fail. */
  lemma ScanFails(u: string, a: nat, x: nat)
    requires IsRun(u, a, x) && Dots(u[a..x]) >= 2
    ensures ScanRun(u, a, a, 0) == Err(MalformedNumber)
  {
    var r := ScanRun(u, a, a, 0);
    if r.Ok? {
      RunWithin(u, a, r.value, x);
      DotsGrow(u, a, x, r.value);
      assert false;
    }
  }

  /** Inside parentheses a successful scan ends one position later. */
  lemma GroupScanOk(t: string, s: string, j: nat, e: nat)
    requires Wraps(t, s) && j <= |s| && ScanRun(s, j, j, 0) == Ok(e)
    ensures ScanRun(t, j + 1, j + 1, 0) == Ok(e + 1)
  {
    WrapsRun(t, s, j, e);
    assert !IsNumChar(t[e + 1]) by {
      if e < |s| {
        assert t[e + 1] == s[e];
      }
    }
    ScanToEnd(t, j + 1, e + 1);
  }

  /** Inside parentheses a scan that meets a second dot meets it too. */
  lemma GroupScanErr(t: string, s: string, j: nat)
    requires Wraps(t, s) && j <= |s| && ScanRun(s, j, j, 0).Err?
    ensures ScanRun(t, j + 1, j + 1, 0) == Err(MalformedNumber)
  {
    var x :| j < x && IsRun(s, j, x) && Dots(s[j..x]) == 2;
    WrapsRun(t, s, j, x);
    ScanFails(t, j + 1, x + 1);
  }

  /** Inside parentheses a run scans as it does alone, one position later. */
  lemma GroupScan(t: string, s: string, j: nat)
    requires Wraps(t, s) && j <= |s|
    ensures ScanRun(t, j + 1, j + 1, 0) == Shift(ScanRun(s, j, j, 0))
  {
    if ScanRun(s, j, j, 0).Ok? {
      GroupScanOk(t, s, j, ScanRun(s, j, j, 0).value);
    } else {
      GroupScanErr(t, s, j);
    }
  }

  /** After the last character of `s` only the closing parenthesis is left. */
  lemma GroupEnd(t: string, s: string)
    requires Wraps(t, s)
    ensures TokensFrom(t, |s| + 1) == Ok([")"])
  {
    var i := |s| + 1;
    assert [t[i]] == ")";
    assert TokensFrom(t, i + 1) == Ok([]);
    var none: seq<string> := [];
    assert [")"] + none == [")"];
  }

  /** Inside parentheses the scan from `i` yields the tokens of `s` from `i`, then ")". */
  lemma {:induction false} GroupFrom(t: string, s: string, i: nat)
    requires Wraps(t, s) && i <= |s|
    ensures TokensFrom(t, i + 1) == Append(TokensFrom(s, i), ")")
    decreases |s| - i, 1
  {
    if i == |s| {
      GroupEnd(t, s);
      assert TokensFrom(s, i) == Ok([]);
      var none: seq<string> := [];
      assert none + [")"] == [")"];
    } else {
      assert t[i + 1] == s[i];
      assert i > 0 ==> t[(i - 1) + 1] == s[i - 1];
      assert (i == 0 || PrecedesUnary(s[i - 1])) <==> PrecedesUnary(t[i]);
      if IsSign(s[i]) && (i == 0 || PrecedesUnary(s[i - 1])) {
        assert i + 1 < |s| ==> t[(i + 1) + 1] == s[i + 1];
        if i + 1 < |s| && IsNumChar(s[i + 1]) {
          GroupRun(t, s, i, i + 1);
        } else {
          assert TokensFrom(t, i + 1) == Err(DanglingUnarySign);
        }
      } else if IsNumChar(s[i]) {
        GroupRun(t, s, i, i);
      } else if IsSymbol(s[i]) {
        GroupFrom(t, s, i + 1);
        ConsAppend([s[i]], TokensFrom(s, i + 1), ")");
      }
    }
  }

  /** The number token that starts at `i` with its digits at `j`, inside parentheses. */
  lemma {:induction false} GroupRun(t: string, s: string, i: nat, j: nat)
    requires Wraps(t, s) && i <= j < |s| && IsNumChar(s[j])
    ensures
      (match ScanRun(t, j + 1, j + 1, 0)
       case Err(e) => Err(e)
       case Ok(k) => Cons(t[i + 1..k], TokensFrom(t, k)))
      ==
      Append(match ScanRun(s, j, j, 0)
             case Err(e) => Err(e)
             case Ok(k) => Cons(s[i..k], TokensFrom(s, k)), ")")
    decreases |s| - i, 0
  {
    GroupScan(t, s, j);
    if ScanRun(s, j, j, 0).Ok? {
      var k := ScanRun(s, j, j, 0).value;
      WrapsSlice(t, s, i, k);
      GroupFrom(t, s, k);
      ConsAppend(s[i..k], TokensFrom(s, k), ")");
    }
  }

  /** Parentheses keep their place when the spaces go. */
  lemma GroupSpaces(expr: string)
    ensures RemoveSpaces("(" + expr + ")") == "(" + RemoveSpaces(expr) + ")"
  {
    RemoveSpacesAppend("(", expr);
    RemoveSpacesAppend("(" + expr, ")");
    assert RemoveSpaces("(") == "(" by { assert "("[1..] == []; }
    assert RemoveSpaces(")") == ")" by { assert ")"[1..] == []; }
  }

  lemma WrapsGroup(s: string)
    ensures Wraps("(" + s + ")", s)
  {
  }

  /** The scan of `s` between parentheses starts with the "(" token. */
  lemma GroupStart(t: string, s: string)
    requires Wraps(t, s)
    ensures TokensFrom(t, 0) == Cons("(", Append(TokensFrom(s, 0), ")"))
  {
    GroupFrom(t, s, 0);
    assert [t[0]] == "(";
  }

  /** Parentheses around an expression that tokenizes add one token on each side. */
  lemma GroupTokens(expr: string)
    requires Tokens(expr).Ok?
    ensures Tokens("(" + expr + ")") == Ok(["("] + Tokens(expr).value + [")"])
  {
    var s := RemoveSpaces(expr);
    var t := "(" + s + ")";
    GroupSpaces(expr);
    WrapsGroup(s);
    GroupStart(t, s);
    var ts := Tokens(expr).value;
    assert ["("] + (ts + [")"]) == ["("] + ts + [")"];
  }
}
