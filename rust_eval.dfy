/** The stack evaluation in `evaluate` (src/main.rs), described token by token, with
    Rust's `i32` arithmetic as a test build performs it: an addition, subtraction or
    multiplication that leaves the `i32` range panics, and so do a zero divisor and
    the one overflowing quotient `i32::MIN / -1` (and remainder `i32::MIN % -1`). The
    loop that carries it out is `RsMain.Evaluate`. */
module RsEval {
  import opened Seqs
  import opened Arith
  import opened Lexing
  import opened RsRpn

  /** The panics `evaluate` can raise. */
  datatype Panic =
    | UnwrapNone        // `stack.pop().unwrap()` on an empty stack
    | Overflow          // an arithmetic result outside the `i32` range
    | DivideByZero      // `/` or `%` with a zero divisor
    | ParseFailed       // `token.parse::<i32>().unwrap()` on a text that is no `i32`
    | IndexOutOfBounds  // `stack[0]` on an empty stack

  /** Rust's `str::parse::<i32>`: an optional `+` or `-` sign followed by at least one
      ASCII digit, whose value lies in the `i32` range. */
  function ParseI32(t: string): (r: Result<int, Panic>)
    ensures r.Ok? ==> InI32(r.value)
  {
    if |t| > 0 && t[0] == '-' then
      if IsDigits(t[1..]) && I32_MIN <= 0 - DigitsValue(t[1..]) then Ok(0 - DigitsValue(t[1..])) else Err(ParseFailed)
    else
      var digits := if |t| > 0 && t[0] == '+' then t[1..] else t;
      if IsDigits(digits) && DigitsValue(digits) <= I32_MAX then Ok(DigitsValue(digits)) else Err(ParseFailed)
  }

  /** A digit run parses to its value, unless that value is past `i32::MAX`. */
  lemma ParseDigits(t: string)
    requires IsDigits(t)
    ensures ParseI32(t) == if DigitsValue(t) <= I32_MAX then Ok(DigitsValue(t) as int) else Err(ParseFailed)
  {
    assert IsDigit(t[0]);
  }

  /** A `+` in front changes nothing; a `-` in front negates, and the digits may then
      reach one past `i32::MAX`, down to `i32::MIN`. */
  lemma ParseSigned(d: string)
    requires IsDigits(d)
    ensures ParseI32("+" + d) == if DigitsValue(d) <= I32_MAX then Ok(DigitsValue(d) as int) else Err(ParseFailed)
    ensures ParseI32("-" + d) == if DigitsValue(d) <= I32_MAX + 1 then Ok(-(DigitsValue(d) as int)) else Err(ParseFailed)
  {
    assert ("+" + d)[1..] == d;
    assert ("-" + d)[1..] == d;
  }

  /** Only digits, with at most one sign in front, parse. */
  lemma ParseShape(t: string)
    ensures ParseI32(t).Ok? ==> IsDigits(t) || (|t| > 1 && (t[0] == '+' || t[0] == '-') && IsDigits(t[1..]))
  {
  }

  /** One operator arm on the left operand `b` (popped second) and the right operand
      `a` (popped first). */
  function Combine(op: string, b: int, a: int): (r: Result<int, Panic>)
    requires IsArith(op)
    ensures r.Ok? ==> InI32(r.value)
  {
    if op == "+" then Checked(a + b)
    else if op == "-" then Checked(b - a)
    else if op == "*" then Checked(a * b)
    else if a == 0 then Err(DivideByZero)
    else if b == I32_MIN && a == -1 then Err(Overflow)
    else if op == "/" then Checked(TruncDiv(b, a))
    else Checked(TruncRem(b, a))
  }

  /** A result that must fit in an `i32`. */
  function Checked(x: int): (r: Result<int, Panic>)
    ensures r.Ok? <==> InI32(x)
    ensures r.Ok? ==> r.value == x
    ensures r.Err? ==> r.error == Overflow
  {
    if InI32(x) then Ok(x) else Err(Overflow)
  }

  /** The loop body for one token of the RPN list: an operator pops its right operand,
      then its left one, and pushes their combination; any other text is parsed and
      pushed. */
  function ExecToken(stack: seq<int>, token: string): Result<seq<int>, Panic>
  {
    if IsArith(token) then
      if |stack| < 2 then Err(UnwrapNone)
      else
        match Combine(token, stack[|stack| - 2], stack[|stack| - 1])
        case Err(p) => Err(p)
        case Ok(v) => Ok(stack[..|stack| - 2] + [v])
    else
      match ParseI32(token)
      case Err(p) => Err(p)
      case Ok(v) => Ok(stack + [v])
  }

  /** The `for` loop over the RPN list, stopping at the first panic. */
  function Exec(stack: seq<int>, rpn: seq<string>): Result<seq<int>, Panic>
    decreases |rpn|
  {
    if rpn == [] then Ok(stack)
    else
      match ExecToken(stack, rpn[0])
      case Err(p) => Err(p)
      case Ok(next) => Exec(next, rpn[1..])
  }

  /** `evaluate` after the loop: the bottom of the stack, whatever is above it. */
  function EvalRpn(rpn: seq<string>): Result<int, Panic>
  {
    match Exec([], rpn)
    case Err(p) => Err(p)
    case Ok(stack) => if stack == [] then Err(IndexOutOfBounds) else Ok(stack[0])
  }

  /** `evaluate` on a text. */
  function Evaluation(s: string): Result<int, Panic>
  {
    EvalRpn(ToRpn(Lex(s)))
  }

  /** Every value on the stack is an `i32`. */
  predicate AllI32(stack: seq<int>)
  {
    forall i :: 0 <= i < |stack| ==> InI32(stack[i])
  }

  /** Continuing an execution from the outcome of an earlier one. */
  function ExecFrom(r: Result<seq<int>, Panic>, rpn: seq<string>): Result<seq<int>, Panic>
  {
    match r
    case Err(p) => Err(p)
    case Ok(stack) => Exec(stack, rpn)
  }

  /** Executing two RPN lists in a row is executing their concatenation. */
  lemma {:induction false} ExecAppend(stack: seq<int>, a: seq<string>, b: seq<string>)
    ensures Exec(stack, a + b) == ExecFrom(Exec(stack, a), b)
    decreases |a|
  {
    ConsAppend(a, b);
    if a != [] {
      match ExecToken(stack, a[0])
      case Err(p) =>
      case Ok(next) => ExecAppend(next, a[1..], b);
    }
  }

  /** The stack only ever holds `i32` values. */
  lemma ExecTokenInI32(stack: seq<int>, token: string)
    requires AllI32(stack)
    requires ExecToken(stack, token).Ok?
    ensures AllI32(ExecToken(stack, token).value)
  {
    var s := ExecToken(stack, token).value;
    if IsArith(token) {
      assert forall i :: 0 <= i < |stack| - 2 ==> s[i] == stack[i];
    } else {
      assert forall i :: 0 <= i < |stack| ==> s[i] == stack[i];
    }
  }

  lemma {:induction false} ExecInI32(stack: seq<int>, rpn: seq<string>)
    requires AllI32(stack)
    requires Exec(stack, rpn).Ok?
    ensures AllI32(Exec(stack, rpn).value)
    decreases |rpn|
  {
    if rpn != [] {
      ExecTokenInI32(stack, rpn[0]);
      ExecInI32(ExecToken(stack, rpn[0]).value, rpn[1..]);
    }
  }

  /** Whatever `evaluate` returns is an `i32`. */
  lemma EvaluationInI32(s: string)
    requires Evaluation(s).Ok?
    ensures InI32(Evaluation(s).value)
  {
    ExecInI32([], ToRpn(Lex(s)));
  }

  /** The operand order: for `b a op`, the value pushed first is the left operand, so
      `b a -` leaves `b - a` and `b a /` the truncated quotient of `b` by `a`. */
  lemma OperandOrder(stack: seq<int>, b: int, a: int, op: string)
    requires IsArith(op) && InI32(b) && InI32(a)
    ensures ExecToken(stack + [b, a], op) ==
      match Combine(op, b, a)
      case Err(p) => Err(p)
      case Ok(v) => Ok(stack + [v])
    ensures op == "-" && InI32(b - a) ==> Combine(op, b, a) == Ok(b - a)
    ensures op == "/" && a != 0 && InI32(TruncDiv(b, a)) ==> Combine(op, b, a) == Ok(TruncDiv(b, a))
    ensures op == "%" && a != 0 && !(b == I32_MIN && a == -1) ==> Combine(op, b, a) == Ok(TruncRem(b, a))
    ensures (op == "/" || op == "%") && a == 0 ==> Combine(op, b, a) == Err(DivideByZero)
  {
    var s := stack + [b, a];
    assert s[..|s| - 2] == stack;
  }

  /** An operator meeting fewer than two values panics on the `unwrap` of a pop. */
  lemma Underflow(stack: seq<int>, op: string, rest: seq<string>)
    requires IsArith(op) && |stack| < 2
    ensures Exec(stack, [op] + rest) == Err(UnwrapNone)
  {
    assert ([op] + rest)[0] == op;
  }

  /** Both overflowing divisions panic: `i32::MIN / -1` and `i32::MIN % -1`. */
  lemma DivisionOverflow(op: string)
    requires op == "/" || op == "%"
    ensures ExecToken([I32_MIN, -1], op) == Err(Overflow)
  {
  }
}
