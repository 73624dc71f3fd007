# simple-calc in Dafny

simple-calc evaluates integer arithmetic expressions over `+ - * / %` and parentheses.
It has two implementations. Both split the text into tokens with a regular expression,
turn the tokens into reverse Polish notation (RPN) with the shunting-yard algorithm, and
evaluate the RPN list on a stack:

- `python_support/Calculator.py`: a `Calculator` class that keeps the last expression,
  its RPN list and its value. Before tokenizing, it rewrites a leading or
  parenthesised unary minus as a subtraction from zero. Division and modulo floor.
- `src/main.rs`: the free functions `tokenize`, `get_rpn` and `evaluate` on `i32`.
  Division and remainder truncate toward zero.

This project models both implementations and proves what they compute.

Shared modules:

- `Seqs`: sequence helpers and the `Result` type.
- `Arith`: floor and truncating division, and the `i32` range.
- `Lexing`: the token pattern, as the function `Lex`.
- `Infix`: an expression tree and its minimally parenthesised text (`Render`). The
  theorems use it to speak about the text of *any* expression.

Python side:

- `PyTokenize`: the unary-minus rewrites and `tokenize`.
- `PyRpn`: the shunting-yard state machine of `_rpn`, including the IndexError that an
  unmatched `)` raises.
- `PyEval`: the value stack of `_eval`. It holds `int`s and the strings that a stray
  `(` leaves behind. It also has the `-1` sentinel.
- `PyInfix`: the RPN list and value that the Python pipeline produces for the text of an
  expression tree.
- `PyCalculator`: the class, with its loops written as methods. Each method is proved
  to compute the function that specifies it.
- `PyExamples`: the unit tests in `python_support/test.py`.

Rust side:

- `RsRpn`: `get_rpn` as a state machine, and what reaches its output.
- `RsEval`: `evaluate` with its panics. The arithmetic is that of a debug build.
- `RsMain`: the three functions as loops. Each is proved to compute its specification
  function.
- `RsInfix`: a simulation between the two RPN conversions, and `get_rpn` and `evaluate`
  on the text of an expression tree.
- `RsExamples`: the unit tests in `src/main.rs`, and the points where the two
  implementations differ.
- `ExampleTexts`: the tokens of the literal test texts of both files.

Main results:

- For the text of every expression tree, both pipelines produce its postfix form.
  Python evaluates it with floor division. Rust evaluates it with truncating, panicking
  `i32` arithmetic. See `PyCalculator.EvaluateRender`, `RsInfix.RpnRender` and
  `RsInfix.EvaluateRender`. On the Python side this holds for any text whose tokens,
  after the unary-minus rewrite, are those of the tree, however the text is spaced
  (`PyCalculator.EvaluateTokens`). The unit tests of both files are instances.
- Python's `_rpn` fails (IndexError) exactly when some `)` has no open `(` before it. In
  every case it keeps the numbers in order and the operators as a multiset. See
  `PyRpn.ToRpnFails` and `PyRpn.ToRpnOutput`.
- Rust's `get_rpn` never fails. It keeps the operands in order and the operators as a
  multiset, and drops every `)`. Whenever Python's `_rpn` succeeds, the two agree item
  for item. See `RsRpn.ToRpnContents` and `RsInfix.ToRpnAgrees`.

Where behaviour differs from the way it is sometimes described, the model follows the
code. For `-7 / 2` and `-7 % 2`, the leading-minus rewrite makes the text `0-7 / 2`. That
parses as `0 - (7 // 2)`, so Python returns -3 and -1, not the -4 and 1 that floor
division of -7 would give (`PyExamples.NegativeDivision`).

## Model

| member | source | states |
|---|---|---|
| Arith.FloorDiv | python_support/Calculator.py:86-87 | Python `//`: the quotient rounded toward negative infinity, characterised by its bounds for either sign of the divisor |
| Arith.FloorMod | python_support/Calculator.py:88-89 | Python `%`: quotient times divisor plus remainder is the dividend, and the remainder takes the divisor's sign |
| Arith.TruncDiv | src/main.rs:73-77 | Rust `/` on `i32`: the quotient rounded toward zero, so the product never exceeds the dividend in magnitude and has its sign |
| Arith.TruncRem | src/main.rs:78-82 | Rust `%` on `i32`: the remainder complements the truncated quotient, is smaller than the divisor in magnitude and takes the dividend's sign |
| Arith.NegativeSevenByTwo | python_support/Calculator.py:86-89 | -7 by 2 gives -4 and 1 under floor semantics, -3 and -1 under truncation |
| Lexing.RunLength | src/main.rs:5 | `\d+` takes the longest run: every character inside the run is a digit, and the next one is not |
| Lexing.Lex | src/main.rs:3-11 | the successive matches of the token pattern: every token is a digit run or a single operator or parenthesis |
| Lexing.LexKeepsTokenChars | python_support/Calculator.py:29-32 | tokenizing drops exactly the characters that belong to no token, and keeps the rest in order |
| Lexing.LexSkip | src/main.rs:5-6 | a character that no alternative of the pattern matches is skipped |
| Lexing.LexDigitRun | src/main.rs:5-6 | a maximal digit run is one token |
| Lexing.LexSymbol | src/main.rs:5-6 | an operator or parenthesis is a one-character token |
| Lexing.LexCons | src/main.rs:5-6 | a character in front of text adds itself as a token when it belongs to the pattern and does not run into a following digit, and adds nothing when it does not belong |
| Lexing.BlankToken | src/main.rs:5-6 | a blank followed by a one-character token contributes exactly that token |
| Lexing.LexAppend | src/main.rs:3-11 | tokenizing two texts that do not join two digits is tokenizing each in turn |
| Lexing.LexConcat | src/main.rs:3-11 | a list of tokens written back to back, with no two digit runs touching, tokenizes back to itself |
| Lexing.LexPieces | src/main.rs:3-11 | tokens separated by single blanks tokenize to the tokens without the blanks |
| Lexing.LexChar | src/main.rs:5 | one character is one token exactly when it is a digit, an operator or a parenthesis |
| Lexing.NatToDigits | src/main.rs:83 | the decimal numeral of `n` is a digit run whose value is `n` |
| Infix.LexRender | src/main.rs:3-11 | tokenizing the text of an expression gives back its tokens |
| PyTokenize.Tokenize | python_support/Calculator.py:25-33 | the tokens, written back to back, are the rewritten text minus every character outside the pattern |
| PyTokenize.LeadingMinus | python_support/Calculator.py:26 | whitespace and a minus at the very start become `0-` |
| PyTokenize.NoLeadingMinus | python_support/Calculator.py:26 | text whose first non-blank character is not a minus is left unchanged |
| PyTokenize.RewriteLeadingStripped | python_support/Calculator.py:26 | after blanks are removed, the first rewrite only puts a `0` in front of a leading minus |
| PyTokenize.ParenMinus | python_support/Calculator.py:27 | `(`, whitespace and a minus become `(0-` |
| PyTokenize.RewriteParenStripped | python_support/Calculator.py:27 | after blanks are removed, the second rewrite only inserts `0` between each `(` and a following minus |
| PyTokenize.RewriteParenNoParen | python_support/Calculator.py:27 | text without `(` passes through the second rewrite unchanged |
| PyTokenize.RewriteParenConcat | python_support/Calculator.py:27 | tokens with no `(` followed by `-` are unchanged by the second rewrite |
| PyTokenize.LeadingKept | python_support/Calculator.py:26 | text that starts with neither whitespace nor a minus is left unchanged by the first rewrite |
| PyTokenize.LeadingMinusOnly | python_support/Calculator.py:26-27 | a leading minus followed by text without `(` gets a `0` in front, and nothing else changes |
| PyTokenize.ParenNoMinus | python_support/Calculator.py:27 | a `(` followed directly by neither whitespace nor a minus is left as it is |
| PyTokenize.ParenMinusBetween | python_support/Calculator.py:27 | in text whose only `(` is followed by a minus, that minus alone gets a `0` in front |
| PyTokenize.ParenPlainBetween | python_support/Calculator.py:27 | text whose only `(` is followed by neither whitespace nor a minus is left unchanged |
| PyRpn.PrecedenceRanks | python_support/Calculator.py:35-43 | `+ -` rank exactly 1, `* / %` exactly 2, the parentheses exactly 0 and every other text -1, so exactly the five operators rank 1 or above |
| PyRpn.PopHigherPops | python_support/Calculator.py:51-54 | the inner loop pops exactly the run of entries on top that rank at least the incoming operator, appending them top first |
| PyRpn.PopToParenFails | python_support/Calculator.py:60-63 | the `)` loop succeeds exactly when a `(` is on the stack, and otherwise raises IndexError |
| PyRpn.PopToParenPops | python_support/Calculator.py:60-63 | on success, the `)` loop removes everything above the topmost `(` and that `(` as well |
| PyRpn.RunAppend | python_support/Calculator.py:49-66 | running the token loop over two lists in a row is running it over their concatenation |
| PyRpn.StepKeepsRising | python_support/Calculator.py:49-66 | between parentheses, operator precedence strictly rises toward the top of the stack |
| PyRpn.StepKeepsEntries | python_support/Calculator.py:49-66 | the stack only ever holds operators and `(` |
| PyRpn.RunKeepsShape | python_support/Calculator.py:49-66 | the stack's shape invariant holds after any run of tokens |
| PyRpn.PopHigherKeepsParens | python_support/Calculator.py:51-54 | the operator loop pops only operators, never a `(` |
| PyRpn.StepCount | python_support/Calculator.py:49-66 | each token changes the number of `(` on the stack by its own `(` count minus its `)` count |
| PyRpn.RunCount | python_support/Calculator.py:49-66 | after a run, the open `(` count is the opens minus the closes of the tokens |
| PyRpn.StepOutput | python_support/Calculator.py:49-66 | each token adds its number, if any, to the numbers in the output, adds its operator to those in the output or on the stack, and sends no parenthesis to the output |
| PyRpn.RunOutput | python_support/Calculator.py:49-66 | a run sends every number token to the output in order, puts every operator token in the output or on the stack, keeps `)` off the stack and sends no parenthesis to the output |
| PyRpn.RunFailsIffUnmatched | python_support/Calculator.py:49-66 | the token loop raises IndexError exactly when some `)` finds no open `(` |
| PyRpn.ToRpnFails | python_support/Calculator.py:24-71 | `_rpn` fails exactly on token lists with an unmatched `)`, and the error is IndexError |
| PyRpn.ToRpnOutput | python_support/Calculator.py:24-71 | the RPN list holds the number tokens' values in order, each operator token once, no `)`, and one `(` for each `(` left unclosed |
| PyRpn.BalancedRpn | python_support/Calculator.py:24-71 | on balanced parentheses, `_rpn` succeeds and its output contains no parenthesis |
| PyEval.ExecAppend | python_support/Calculator.py:76-92 | evaluating two RPN lists in a row is evaluating their concatenation |
| PyEval.ExecHeight | python_support/Calculator.py:76-92 | after a successful run, the stack height is the items minus twice the operators |
| PyEval.OperandOrder | python_support/Calculator.py:78-89 | the value pushed first is the left operand: `a b -` gives `a - b`, `/` and `%` floor, and a zero divisor raises ZeroDivisionError |
| PyEval.Underflow | python_support/Calculator.py:78-79 | an operator that finds fewer than two values raises IndexError |
| PyEval.EvalSentinel | python_support/Calculator.py:94-97 | `_eval` returns the single remaining value, and -1 when the stack does not end with exactly one value |
| PyInfix.ApplyAgrees | python_support/Calculator.py:80-89 | on two ints, the operator arm is the floor-semantics operation of the tree |
| PyInfix.ExecPostfix | python_support/Calculator.py:76-92 | evaluating the postfix form of a tree pushes its value, or raises its error |
| PyInfix.EvalPostfix | python_support/Calculator.py:73-97 | `_eval` on the postfix form of a tree returns the tree's value |
| PyInfix.ShuntPrint | python_support/Calculator.py:49-66 | the token loop over a tree's tokens emits its postfix form, with what is still pending ranking at least the tree's root |
| PyInfix.PopHigherAll | python_support/Calculator.py:51-54 | the operator loop pops exactly a run of entries that rank at least the incoming operator |
| PyInfix.PopToParenAll | python_support/Calculator.py:60-63 | the `)` loop pops the operators above the matching `(` |
| PyInfix.ToRpnPrint | python_support/Calculator.py:24-71 | `_rpn` on the tokens of a tree gives its postfix form |
| PyInfix.TokenizeRender | python_support/Calculator.py:25-33 | the rewrites leave the text of a tree unchanged, and `tokenize` returns its tokens |
| PyInfix.PipelineRender | python_support/Calculator.py:24-97 | `_rpn` then `_eval` on the text of a tree give its postfix form and its value |
| PyCalculator.Calculator.constructor | python_support/Calculator.py:7-10 | a new calculator has the empty expression, an empty RPN list and value 0 |
| PyCalculator.Calculator.Evaluate | python_support/Calculator.py:12-16 | `evaluate` returns the expression's value or exception, and updates each field only if the computation before it did not raise |
| PyCalculator.Calculator.GetValue | python_support/Calculator.py:18-19 | `get_value` returns the stored value |
| PyCalculator.Calculator.GetRpn | python_support/Calculator.py:21-22 | `get_rpn` returns the stored RPN list |
| PyCalculator.Calculator.Rpn | python_support/Calculator.py:24-71 | the loops of `_rpn` compute the shunting-yard function of the tokens of the stored expression |
| PyCalculator.Calculator.Eval | python_support/Calculator.py:73-97 | the loop of `_eval` computes the evaluation function of the stored RPN list |
| PyCalculator.EvaluateThenGet | python_support/test.py:13-14 | after `evaluate`, `get_value` and `get_rpn` return its value and the RPN list of its text |
| PyCalculator.EvaluateRender | python_support/Calculator.py:12-16 | on the text of any tree, `evaluate` returns its floor-semantics value, or ZeroDivisionError |
| PyCalculator.EvaluateTokens | python_support/Calculator.py:12-16 | on any text whose tokens are those of a tree, however spaced and whatever its unary minus, `_rpn` gives the tree's postfix form and `evaluate` its floor-semantics value or ZeroDivisionError |
| PyCalculator.RpnOfText | python_support/Calculator.py:24-71 | on any text, `_rpn` raises IndexError exactly for an unmatched `)`, and otherwise keeps the numbers in order and the operators as a multiset |
| PyExamples.FirstTest | python_support/test.py:10-15 | the text `-3 + 4 * 2` has RPN `0 3 - 4 2 * +`, and `evaluate` returns 5 on it, as the matching test of TestEvaluateRPN expects |
| PyExamples.SecondTest | python_support/test.py:17-22 | the text `3 * (-4 + 2)` has RPN `3 0 4 - 2 + *`, and `evaluate` returns -6 on it, as the matching test of TestEvaluateRPN expects |
| PyExamples.ThirdTest | python_support/test.py:24-29 | the text `3 + 4 * 2 / (1 - 5) % 2` has RPN `3 4 2 * 1 5 - / 2 % +`, and `evaluate` returns 3 on it, as the matching test of TestEvaluateRPN expects |
| PyExamples.FirstRewrite | python_support/Calculator.py:26 | `-3 + 4 * 2` is rewritten to `0-3 + 4 * 2` |
| PyExamples.SecondRewrite | python_support/Calculator.py:27 | `3 * (-4 + 2)` is rewritten to `3 * (0-4 + 2)` |
| PyExamples.ThirdRewrite | python_support/Calculator.py:26-27 | `3 + 4 * 2 / (1 - 5) % 2` passes both rewrites unchanged |
| PyExamples.NegativeDivision | python_support/Calculator.py:86-89 | `evaluate` returns -3 on the text `-7 / 2` and -1 on `-7 % 2`, which the rewrite turns into `0 - 7 // 2` and `0 - 7 % 2`, while `(0-7)//2` would be -4 and `(0-7)%2` 1 |
| PyExamples.NegatedOperand | python_support/Calculator.py:86-89 | with the minus on the left operand, `/` and `%` floor: -7 by 2 gives -4 and 1 |
| PyExamples.DivisionByZero | python_support/Calculator.py:86-87 | `evaluate` on the text `1 / (2 - 2)` raises ZeroDivisionError, as does the floor value of its tree |
| ExampleTexts.ZeroDivisorLex | python_support/Calculator.py:32 | `1 / (2 - 2)` tokenizes to `1`, `/`, `(`, `2`, `-`, `2`, `)` |
| RsRpn.PrecedenceRanks | src/main.rs:16-22 | `+ -` rank exactly 1, `* / %` exactly 2 and everything else 0, so exactly the five operators rank 1 or above |
| RsRpn.IsArithChar | src/main.rs:29 | the operator arm matches exactly the one-character operator tokens |
| RsRpn.PopToParenMatched | src/main.rs:38-43 | with a `(` on the stack, `)` moves everything above the topmost `(` to the output and drops the `(` |
| RsRpn.PopToParenUnmatched | src/main.rs:38-43 | with no `(` on the stack, `)` moves the whole stack to the output, and the final pop does nothing |
| RsRpn.RunAppend | src/main.rs:27-46 | running the token loop over two lists in a row is running it over their concatenation |
| RsRpn.StepExtends | src/main.rs:27-46 | no token ever removes anything from the output: each step only appends |
| RsRpn.StepKeeps | src/main.rs:27-46 | each token keeps the stack free of `)`, sends an operand straight to the output, and puts an operator on the stack or in the output |
| RsRpn.RunKeeps | src/main.rs:27-46 | after any run, the output's operands are the tokens' operands in order, and the pending operators are exactly the tokens' operators |
| RsRpn.FlushKeeps | src/main.rs:47-49 | the drain adds no operand, moves every pending operator to the output and never emits `)` |
| RsRpn.ToRpnContents | src/main.rs:13-51 | `get_rpn` keeps the operands in order and the operators as a multiset, and drops every `)` |
| RsEval.ParseI32 | src/main.rs:83 | whatever `parse::<i32>` accepts is a value in the `i32` range |
| RsEval.ParseDigits | src/main.rs:83 | a digit run parses to its value exactly when that value is at most `i32::MAX` |
| RsEval.ParseSigned | src/main.rs:83 | after `+`, a digit run parses to its value up to `i32::MAX`; after `-`, to its negation down to `i32::MIN`; beyond those bounds parsing fails |
| RsEval.ParseShape | src/main.rs:83 | only a digit run, or a digit run after a single `+` or `-`, can parse |
| RsEval.Combine | src/main.rs:58-82 | an operator arm yields only `i32` values, and panics on overflow or a zero divisor |
| RsEval.Checked | src/main.rs:61 | a debug-build result is kept exactly when it fits in an `i32`, and otherwise panics with overflow |
| RsEval.ExecAppend | src/main.rs:56-85 | evaluating two RPN lists in a row is evaluating their concatenation |
| RsEval.ExecInI32 | src/main.rs:56-85 | the stack only ever holds `i32` values |
| RsEval.EvaluationInI32 | src/main.rs:53-87 | whatever `evaluate` returns is an `i32` |
| RsEval.OperandOrder | src/main.rs:63-82 | the value popped first is the right operand: `b a -` gives `b - a`, `/` and `%` truncate, and a zero divisor panics |
| RsEval.Underflow | src/main.rs:59-60 | an operator that finds fewer than two values panics on `unwrap` |
| RsEval.DivisionOverflow | src/main.rs:73-82 | `i32::MIN / -1` and `i32::MIN % -1` panic with overflow |
| RsMain.Tokenize | src/main.rs:3-11 | the `find_iter` loop collects exactly the tokens of the text |
| RsMain.GetRpn | src/main.rs:13-51 | the loops of `get_rpn` compute the shunting-yard function of the tokens |
| RsMain.Evaluate | src/main.rs:53-87 | the loop of `evaluate` computes the evaluation function of the RPN list, panics included |
| RsInfix.Items | python_support/Calculator.py:65-66 | each Rust token maps to the Python RPN item: a digit run to its number, anything else to itself |
| RsInfix.PopHigherAgrees | src/main.rs:30-34 | the Rust operator loop pops what the Python one pops |
| RsInfix.PopToParenAgrees | src/main.rs:38-43 | where Python's `)` loop succeeds, the Rust one does the same |
| RsInfix.StepAgrees | src/main.rs:27-46 | where a Python step succeeds, the Rust step leads to the corresponding state |
| RsInfix.RunAgrees | src/main.rs:27-46 | where the Python loop succeeds, the Rust loop leads to the corresponding state |
| RsInfix.ToRpnAgrees | src/main.rs:13-51 | where Python's `_rpn` succeeds, `get_rpn` gives the same RPN list, item for item |
| RsInfix.ItemsInjective | python_support/Calculator.py:65-66 | lists of tokens without leading zeros that map to the same items are equal |
| RsInfix.ToRpnCanonical | src/main.rs:13-51 | `get_rpn` introduces no token with leading zeros |
| RsInfix.PostfixCanonical | src/main.rs:13-51 | the postfix tokens of a tree have no leading zeros and map to its Python RPN items |
| RsInfix.RpnRender | src/main.rs:13-51 | `get_rpn` on the text of any tree gives its postfix tokens |
| RsInfix.CombineAgrees | src/main.rs:58-82 | each operator arm is the tree's `i32` operation |
| RsInfix.ExecPostfix | src/main.rs:56-85 | evaluating the postfix tokens of a tree pushes its `i32` value, or panics as it does |
| RsInfix.EvaluateRender | src/main.rs:53-87 | `evaluate` on the text of any tree returns its value under truncating, panicking `i32` arithmetic |
| RsExamples.FirstTest | src/main.rs:106-121 | `3+4*2` has RPN `3 4 2 * +` and value 11 |
| RsExamples.SecondTest | src/main.rs:106-121 | `3*(4+2)` has RPN `3 4 2 + *` and value 18 |
| RsExamples.ThirdTest | src/main.rs:106-121 | `3+4*2/(1-5)%2` has RPN `3 4 2 * 1 5 - / 2 % +` and value 3 |
| RsExamples.TokenizeTest | src/main.rs:94-104 | each of the three test strings tokenizes to the expected list: blanks dropped, each parenthesis a token of its own |
| ExampleTexts.SpacedSumLex | src/main.rs:95 | `3 + 4 * 2` tokenizes to `3`, `+`, `4`, `*`, `2` |
| ExampleTexts.SpacedGroupLex | src/main.rs:96-99 | `3 * (4 + 2)` tokenizes to `3`, `*`, `(`, `4`, `+`, `2`, `)` |
| ExampleTexts.PrecedenceLex | src/main.rs:100-103 | `3 + 4 * 2 / (1 - 5) % 2` tokenizes to its thirteen one-character tokens |
| ExampleTexts.RewrittenFirstLex | python_support/Calculator.py:32 | `0-3 + 4 * 2` tokenizes to `0`, `-`, `3`, `+`, `4`, `*`, `2` |
| ExampleTexts.RewrittenSecondLex | python_support/Calculator.py:32 | `3 * (0-4 + 2)` tokenizes to `3`, `*`, `(`, `0`, `-`, `4`, `+`, `2`, `)` |
| ExampleTexts.RewrittenNegatedLex | python_support/Calculator.py:32 | `0-7 / 2` and `0-7 % 2` tokenize to `0`, `-`, `7`, the operator, `2` |
| RsExamples.LeadingMinus | src/main.rs:64-65 | Rust has no unary minus: `-3` panics on the second `unwrap` of the `-` arm |
| RsExamples.UnmatchedClose | src/main.rs:38-43 | an unmatched `)` is dropped by Rust, while Python raises IndexError |

## Left out

- Unicode digits: `\d` in both regular expressions also matches non-ASCII decimal
  digits. The model's digits are `0`-`9`.
- Regular-expression machinery: `Lex` states the meaning of the token pattern directly,
  and the two substitutions are written out as functions.
- Release builds: Rust wraps around on overflow in a release build. The model panics, as
  the debug build used by `cargo test` does.
- RsEval.ParseI32: only ASCII digits are accepted. This does not restrict the model,
  since `get_rpn` only ever hands it tokens of the pattern.
- `Calculator.__str__`, the `__main__` block, Rust's `main` and all printing: output
  only.
- Python objects on the value stack: only `int`s and the strings that reach it are
  modelled. Every mix that Python rejects is a TypeError.
- Python `int` arithmetic is unbounded, and so is the model's value stack.
- PyRpn.Step: `int(token)` is modelled as succeeding on every digit run. Python 3.11 and
  later (and the 3.9.14 and 3.10.7 security releases) raise ValueError for a run longer
  than 4300 digits by default, a bound that `sys.set_int_max_str_digits` and
  `PYTHONINTMAXSTRDIGITS` change and that older releases lack. For such a text,
  `PyRpn.RunFailsIffUnmatched`, `PyRpn.ToRpnFails`, `PyCalculator.RpnOfText`,
  `PyInfix.PipelineRender`, `PyCalculator.EvaluateRender` and
  `PyCalculator.EvaluateTokens` describe an interpreter without that bound.
- PyEval.Apply: repeating a string by an `int` is modelled as always succeeding. Python
  raises OverflowError for a count beyond `sys.maxsize` (for example `N * "("` from the
  text `99999999999999999999*(`) and MemoryError when the result does not fit in memory.
  The end-to-end value theorems never reach this case, since a tree's postfix form puts
  no string on the stack. On such texts `PyCalculator.Calculator.Evaluate` returns the
  repeated string, as an interpreter with unbounded memory would.
- Redundant parentheses: the end-to-end theorems speak of texts whose tokens are those
  of a minimally parenthesised tree. A text such as `(3)` or `((1+2))` is covered only by
  the token-level results (`PyRpn.ToRpnOutput`, `RsRpn.ToRpnContents`), not by a value
  theorem.
