# Calculator pipeline, modelled and proved in Dafny

The system evaluates arithmetic expressions given as strings: numbers, the four
operators `+ - * /`, parentheses and unary signs. `calculate` in `src/main.py` is a
pipeline of three stages and a final step:

1. the tokenizer drops the spaces and cuts the rest into number, operator and
   parenthesis tokens;
2. the shunting-yard converter turns the tokens into postfix order, checking where
   operators and parentheses may stand;
3. the postfix evaluator reads each number as an integer or an exact decimal, and
   applies the promoting operators on a value stack;
4. an integral decimal result is turned into an integer.

Numbers are arbitrary-precision integers or exact decimals. Addition, subtraction and
multiplication stay integral on two integers. Division always produces a decimal and
rejects a zero divisor. The four list folds (sum, subtraction, product, division) use
the same promoting operators.

Modules, one concern each:

- `Results` (results.dfy): the error kinds, `Result` and `Option`.
- `Numbers` (numbers.dfy): `Number = Int | Dec`, promotion, and the four operators.
- `Folds` (folds.dfy): the four folds, as loops over an accumulator.
- `Tokens` (tokens.dfy): how the converter and the evaluator classify token strings,
  operator precedence, and the stack height of a postfix sequence.
- `Tokenizer` and `TokenizerFacts` (tokenizer.dfy): the scanner, as a specification
  function `Tokens` and as the loop `Tokenize`, and what its tokens are.
- `ShuntingYard` and `ShuntingYardFacts` (shunting_yard.dfy,
  shunting_yard_facts.dfy): the converter as a step function `Step`, its fold
  `Postfix`, and the loop `ToRpn`. The facts cover:
  - exactly which token sequences it accepts;
  - which error it reports otherwise;
  - what its output contains.
- `Evaluator` and `EvaluatorFacts` (evaluator.dfy): literal parsing, the stack machine
  `Evaluation`, the loop `EvalRpn`, and the value and height facts.
- `Grammar` (grammar.dfy): expression trees as an independent reference. The
  converter turns the infix printing of every tree into its postfix flattening, and
  evaluating the flattening is evaluating the tree. Precedence and left associativity
  therefore come out as in ordinary arithmetic.
- `Calculator` and `CalculatorFacts` (calculator.dfy): the whole pipeline as
  `Calculation` and as the method `Calculate`, plus end-to-end facts on concrete
  expressions.

Each loop of the source is a method whose postcondition equals a specification
function or is stated through one. The source's properties are proved as lemmas about those functions.

## Model

| member | source | states |
|---|---|---|
| Numbers.ToDecimal | src/main.py:45-46 | the result is a decimal of the same value; a decimal is returned unchanged |
| Numbers.Promote | src/main.py:48-57 | both values kept; the flag is set iff division forces it or either operand is a decimal; then both are decimals, otherwise both are returned unchanged |
| Numbers.Add | src/main.py:59-61 | value is the sum; integral iff both operands are integers |
| Numbers.Sub | src/main.py:63-65 | value is the difference; integral iff both operands are integers |
| Numbers.Mul | src/main.py:67-69 | value is the product; integral iff both operands are integers |
| Numbers.Div | src/main.py:71-75 | fails iff the divisor is zero (integer or decimal), with DivisionByZero; otherwise a decimal whose product with the divisor is the dividend |
| Numbers.AddMulCommute | src/main.py:59-69 | addition and multiplication commute, in value and in representation |
| Folds.SumAll | src/main.py:12-16 | the value is the sum of all values (0 for none); integral iff every operand is |
| Folds.SubtractAll | src/main.py:19-25 | 0 for no operands; otherwise the first minus the sum of the rest; integral iff every operand is |
| Folds.MultiplyAll | src/main.py:28-32 | the value is the product of all values (1 for none); integral iff every operand is |
| Folds.DivideAll | src/main.py:35-41 | 0 for no operands; fails with DivisionByZero iff some divisor is zero; a single operand is returned as is; otherwise a decimal that, multiplied by all divisors, gives the first operand |
| Tokenizer.RemoveSpacesCounts | src/main.py:81 | removing spaces keeps every other character exactly as often, and no space |
| Tokenizer.ScanRun | src/main.py:101-108 | the scan ends at the end of the maximal run of digits and dots; it fails with MalformedNumber exactly at a run holding two dots |
| Tokenizer.ScanNumber | src/main.py:115-122 | the inner scanning loop computes ScanRun |
| TokenizerFacts.ScanToEnd | src/main.py:101-108 | conversely, a maximal run with at most one dot is scanned to its end |
| TokenizerFacts.ScanFails | src/main.py:101-108 | conversely, any run holding two dots makes the scan fail with MalformedNumber |
| Tokenizer.TokensFrom | src/main.py:93-133 | the only errors of the scan are a dangling sign, a malformed number and an invalid character |
| Tokenizer.Tokens | src/main.py:78-134 | EmptyExpression iff nothing but spaces is given |
| Tokenizer.Tokenize | src/main.py:78-134 | the scanning loop computes Tokens |
| TokenizerFacts.FirstToken | src/main.py:93-131 | the first token is a non-empty piece of the input, a symbol or a number token, maximal when a number; a sign token is signed iff it stands where a sign is unary; the scan goes on at its end |
| TokenizerFacts.TokensRebuildInput | src/main.py:79-134 | concatenated, the tokens are the input without its spaces; no token is empty |
| TokenizerFacts.TokenKinds | src/main.py:93-131 | each token is exactly one of an operator or parenthesis character or a number token; a number token is never followed by a digit or a dot |
| TokenizerFacts.UnarySignRule | src/main.py:97-111 | a token that starts with a sign is longer than the sign alone (the sign with its run of digits and dots) iff it is first or follows one of + - * / ( |
| TokenizerFacts.AtMostOneDot | src/main.py:101-122 | on success no run of digits and dots holds two dots; MalformedNumber only for input where one does |
| TokenizerFacts.CharacterErrors | src/main.py:133 | every non-space character of an accepted input is allowed; an invalid character error names a character of the input that is not; a dangling-sign error points at a unary sign without a digit or dot after it |
| TokenizerFacts.IntegerToken | src/main.py:97-118 | a run of digits, bare or after a leading '-', is a single number token |
| TokenizerFacts.GroupTokens | src/main.py:78-134 | parentheses around an expression that tokenizes add a "(" token before its tokens and a ")" token after them |
| TokenizerFacts.DoublePlusIsUnary | src/main.py:97-111 | "2++3" and "2 ++ 3" tokenize as 2, +, +3 |
| TokenizerFacts.LoneDot | src/main.py:114-124 | a lone "." is a number token |
| TokenizerFacts.EmptyInput | src/main.py:81-83 | "" and "   " are empty expressions |
| TokenizerFacts.TwoDots | src/main.py:118-121 | "1..2" is a malformed number |
| TokenizerFacts.TabIsInvalid | src/main.py:133 | only ' ' is removed, so a tab is an invalid character |
| TokenizerFacts.SignWithoutNumber | src/main.py:99-100 | "3*-" ends in a dangling unary sign |
| Tokens.Classify | src/main.py:144 | a string is a number token iff it is no operator or parenthesis; its text is kept |
| Tokens.ClassifyText | src/main.py:144-147 | classification inverts the token text for every token a classification can produce |
| Tokens.Prec | src/main.py:138 | + and - have precedence 1, * and / precedence 2 |
| ShuntingYard.PopWhileAtLeast | src/main.py:152-153 | pops exactly a top segment of operators of precedence at least p, and stops at an empty stack, a parenthesis or a weaker operator |
| ShuntingYard.PopWhileAtLeastOutput | src/main.py:152-153 | the popped operators reach the output top first |
| ShuntingYard.PopUntilOpen | src/main.py:166-167 | pops exactly the entries above the topmost "(" |
| ShuntingYard.PopUntilOpenOutput | src/main.py:166-167 | the popped entries reach the output top first |
| ShuntingYard.Drain | src/main.py:177-181 | succeeds iff no parenthesis is left, then appends the stack top first; otherwise UnbalancedParens |
| ShuntingYard.ToRpn | src/main.py:137-183 | the conversion loop computes Postfix |
| ShuntingYardFacts.PopWhileAtLeastExact | src/main.py:152-153 | above a weaker entry, a segment of strong operators is popped exactly |
| ShuntingYardFacts.PopUntilOpenExact | src/main.py:166-170 | a segment without "(" above a "(" is popped exactly |
| ShuntingYardFacts.RunInv | src/main.py:143-172 | the loop runs through iff every token is allowed where it stands; then the marker, stack shape, parenthesis balance, output contents and output height invariant hold |
| ShuntingYardFacts.PostfixAccepts | src/main.py:137-183 | the converter accepts iff every token is allowed, the input ends in a value and its parentheses balance |
| ShuntingYardFacts.RunLift | src/main.py:143-172 | a conversion that succeeds succeeds the same way after an extra "(": the same output, the "(" kept at the bottom of the stack |
| ShuntingYardFacts.PostfixGroup | src/main.py:137-183 | parentheses around a token sequence that converts give the same postfix output |
| ShuntingYardFacts.PostfixContents | src/main.py:143-183 | the output holds exactly the non-parenthesis tokens of the input, with the numbers in input order |
| ShuntingYardFacts.PostfixDepth | src/main.py:137-183 | the output leaves one value on a stack machine, plus one per juxtaposition of values, and never runs short of operands |
| ShuntingYardFacts.StepRejects | src/main.py:149-169 | a token that is not allowed fails with MisplacedOperator, MisplacedCloseParen or UnbalancedParens, as its position decides |
| ShuntingYardFacts.RunRejects | src/main.py:143-172 | the loop stops with that error at the first token that is not allowed |
| ShuntingYardFacts.PostfixRejects | src/main.py:149-169 | the first token that is not allowed decides the converter's error |
| ShuntingYardFacts.PostfixFinalErrors | src/main.py:174-180 | with every token allowed, no value at the end gives IncompleteExpression, and an unclosed "(" gives UnbalancedParens |
| Evaluator.ParseNumber | src/main.py:186-192 | succeeds iff the token is a literal; a decimal iff it contains a '.'; otherwise an InvalidLiteral error naming the token |
| Evaluator.ErrorPersists | src/main.py:196-202 | an error on a prefix of the postfix sequence is the error of the whole |
| Evaluator.EvalRpn | src/main.py:194-221 | the evaluation loop computes Evaluation |
| EvaluatorFacts.IntegerLiteral | src/main.py:191-192 | a run of digits, bare or after '+' or '-', reads as the integer it spells, leading zeros included ("007", "-007") |
| EvaluatorFacts.IntRoundTrip | src/main.py:192 | every integer, printed in decimal with an optional '-', reads back as itself |
| EvaluatorFacts.DecimalLiteral | src/main.py:188-190 | a literal a.b is the decimal a + b / 10^len(b), with no binary rounding |
| EvaluatorFacts.SignedLiteral | src/main.py:186-192 | '+' changes nothing and '-' negates, with the same kind of number |
| EvaluatorFacts.NoDigitNoLiteral | src/main.py:186-192 | ".", "-." and "+" are rejected as literals |
| EvaluatorFacts.StackHeight | src/main.py:196-216 | a successful run leaves as many values as the postfix shape predicts; MissingOperands only when the shape underflows, and an underflowing shape always fails |
| EvaluatorFacts.Underflow | src/main.py:201-202 | an operator that meets fewer than two values fails with MissingOperands, and the run stops there |
| EvaluatorFacts.StackErrors | src/main.py:196-216 | the only run errors are an unreadable literal, missing operands and a zero divisor |
| EvaluatorFacts.EvaluationHeight | src/main.py:218-220 | a value comes out only for a shape leaving one value; any other height is InvalidExpression |
| Grammar.RunPrint | src/main.py:143-172 | reading the infix printing of a tree emits its operands and inner operators and stacks its pending operators, whenever the operator on top of the stack binds less tightly than the tree |
| Grammar.PostfixPrint | src/main.py:137-183 | the converter turns the printing of every well-printed tree into its postfix flattening |
| Grammar.LeftAssociative | src/main.py:152-154 | x - y - z becomes x y - z - |
| Grammar.TimesBeforePlus | src/main.py:138-154 | x + y * z becomes x y z * + |
| Grammar.GroupFirst | src/main.py:158-172 | ( x + y ) * z becomes x y + z * |
| Grammar.EvalFlatten | src/main.py:196-216 | the flattening of a tree pushes the tree's value on any stack, or fails as the tree does |
| Grammar.EvaluationFlatten | src/main.py:194-221 | evaluating the flattening is evaluating the tree |
| Grammar.PrintEvaluates | src/main.py:137-221 | conversion then evaluation of a printing gives the value of the tree |
| Calculator.Normalize | src/main.py:229-237 | the value is kept; integral iff the input is an integer or a decimal with an integral value; integers are unchanged |
| Calculator.Calculate | src/main.py:224-237 | the pipeline computes Calculation: the first failing stage's error, or the normalized value |
| CalculatorFacts.NormalizeIdempotent | src/main.py:229-237 | normalizing twice is normalizing once |
| CalculatorFacts.CalculationTree | src/main.py:224-237 | an expression whose tokens print a tree computes the tree's normalized value |
| CalculatorFacts.SimpleOperation | src/main.py:224-237 | digit, operator, digit computes the operator on the two integers |
| CalculatorFacts.Divisions | src/main.py:71-75 | "7/2" is the decimal 3.5, "8/4" the integer 2, "1/0" a division by zero |
| CalculatorFacts.IntegerOperations | src/main.py:59-69 | "6*7" is 42 and "2-9" is -7, both integers |
| CalculatorFacts.IntegerResult | src/main.py:224-237 | the printed form of every integer, negative ones included, computes that integer |
| CalculatorFacts.GroupKeepsResult | src/main.py:224-237 | parentheses around an expression that converts to postfix change nothing: the same value or the same evaluation error |
| CalculatorFacts.DoublePlus | src/main.py:97-111 | "2++3" and "2 ++ 3" compute 5 |
| CalculatorFacts.Empty | src/main.py:81-83 | "" and blank expressions fail with EmptyExpression |
| CalculatorFacts.Juxtaposition | src/main.py:218-220 | "2(3)" passes the converter and fails in the evaluator with InvalidExpression |
| CalculatorFacts.Unclosed | src/main.py:177-180 | "(1+2" fails with UnbalancedParens |

## Left out

- Float output: a non-integral result is returned as a Python `float` (src/main.py:234). The model returns the exact decimal, and binary floating point is not modelled.
- Numbers.Add, Numbers.Sub, Numbers.Mul, Numbers.Div: decimal arithmetic is exact rationals. The 50-digit precision and ROUND_HALF_EVEN rounding (src/main.py:5-7) apply to every decimal operation in the source and are not modelled. So `10**50 + 0.1` keeps its `.1` here, where the source rounds it away. And `1/3*3` is the integer 1 here, where the source computes 0.99…9 and returns it as a float. The source's context also keeps the default exponent limit (Emax 999999) with the Overflow trap on, so a decimal result beyond 10^999999 raises there; the model has no exponent limit.
- Evaluator.ParseNumber: `int()` and `Decimal()` accept more forms than the tokenizer can produce (underscores, exponents, surrounding whitespace, `Infinity`, `NaN`). The model reads exactly an optional sign, digits and at most one '.'. It reports `InvalidLiteral` for a token without a digit (".", "-."), where the library raises its own exception. CPython's `int()` also refuses decimal strings longer than 4300 digits (a ValueError under the default `sys.get_int_max_str_digits()`); the model reads integer literals of any length, so `EvaluatorFacts.IntRoundTrip` and `CalculatorFacts.IntegerResult` hold for integers the source rejects.
- Tokenizer.IsDigit: `str.isdigit` in the number branch (src/main.py:114) is modelled on ASCII digits. For a non-ASCII digit such as '²', the source appends an empty token and never advances. The model reports such a character as an invalid character.
- Errors are one `Error` datatype. The Python exception classes (`ValueError`, `SyntaxError`, `ZeroDivisionError`) and their messages are not modelled.
- The `expr is None` check (src/main.py:79-80) is left out: a Dafny string is never absent.
- Tokens.Classify: the converter and the evaluator compare token strings against fixed symbol sets. The model does this comparison once, with `Classify`, before conversion; `ClassifyText` shows nothing is lost.
- There is a second, floating-point-only variant of the pipeline in the repository. It is not part of this model.

## Doubled operators

A doubled operator such as "2 ++ 3" looks like an error, but the code accepts it. The
second `+` follows an operator and a digit follows it, so it is read as a unary sign
(src/main.py:97-111), and the expression computes 5. The model follows the code:
`TokenizerFacts.DoublePlusIsUnary` and `CalculatorFacts.DoublePlus`.
