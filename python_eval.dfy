/** `Calculator._eval` (python_support/Calculator.py): evaluation of an RPN list on a
    value stack, described item by item. The loop that carries it out is
    `Calculator.Eval`. */
module PyEval {
  import opened Seqs
  import opened Arith
  import opened Lexing
  import opened PyRpn

  /** A Python object on the value stack. Besides ints, a `(` left unclosed reaches the
      RPN list as a string and `_eval` pushes it like any other non-operator item, so
      the stack can hold strings too (and `*` repeats them). */
  datatype Value = Int(i: int) | Text(s: string)

  /** Python's `s * n` on a string: `n` copies, none when `n` is not positive. */
  function Repeat(s: string, n: int): (r: string)
    ensures |r| == if n <= 0 then 0 else n * |s|
    decreases n
  {
    if n <= 0 then [] else s + Repeat(s, n - 1)
  }

  /** The operator `op` on its left and right operands, with Python's semantics for the
      combinations the stack can hold: ints combine arithmetically with floor `//` and
      `%`, strings concatenate under `+`, a string and an int repeat under `*`, and every
      other mix raises TypeError; a zero divisor raises ZeroDivisionError. */
  function Apply(op: string, left: Value, right: Value): Result<Value, Fault>
    requires IsOperator(op)
  {
    match (left, right)
    case (Int(a), Int(b)) =>
      if op == "+" then Ok(Int(a + b))
      else if op == "-" then Ok(Int(a - b))
      else if op == "*" then Ok(Int(a * b))
      else if b == 0 then Err(ZeroDivisionError)
      else if op == "/" then Ok(Int(FloorDiv(a, b)))
      else Ok(Int(FloorMod(a, b)))
    case (Text(s), Text(t)) =>
      if op == "+" then Ok(Text(s + t)) else Err(TypeError)
    case (Text(s), Int(n)) =>
      if op == "*" then Ok(Text(Repeat(s, n))) else Err(TypeError)
    case (Int(n), Text(s)) =>
      if op == "*" then Ok(Text(Repeat(s, n))) else Err(TypeError)
  }

  /** The loop body for one item: an operator pops the right operand, then the left one
      (IndexError when the stack runs out), and pushes their combination; anything else
      is pushed as it is. */
  function ExecItem(stack: seq<Value>, item: Item): Result<seq<Value>, Fault>
  {
    match item
    case Num(n) => Ok(stack + [Int(n)])
    case Sym(s) =>
      if !IsOperator(s) then Ok(stack + [Text(s)])
      else if |stack| < 2 then Err(IndexError)
      else
        match Apply(s, stack[|stack| - 2], stack[|stack| - 1])
        case Err(f) => Err(f)
        case Ok(v) => Ok(stack[..|stack| - 2] + [v])
  }

  /** The `for` loop over the RPN list, stopping at the first exception. */
  function Exec(stack: seq<Value>, items: seq<Item>): Result<seq<Value>, Fault>
    decreases |items|
  {
    if items == [] then Ok(stack)
    else
      match ExecItem(stack, items[0])
      case Err(f) => Err(f)
      case Ok(next) => Exec(next, items[1..])
  }

  /** `_eval` on an RPN list: the only value left on the stack, or the sentinel -1 when
      the stack ends up empty or with more than one value. */
  function EvalRpn(items: seq<Item>): Result<Value, Fault>
  {
    match Exec([], items)
    case Err(f) => Err(f)
    case Ok(stack) => if |stack| == 1 then Ok(stack[0]) else Ok(Int(-1))
  }

  /** Continuing an execution from the outcome of an earlier one. */
  function ExecFrom(r: Result<seq<Value>, Fault>, items: seq<Item>): Result<seq<Value>, Fault>
  {
    match r
    case Err(f) => Err(f)
    case Ok(stack) => Exec(stack, items)
  }

  /** Executing two RPN lists in a row is executing their concatenation. */
  lemma {:induction false} ExecAppend(stack: seq<Value>, a: seq<Item>, b: seq<Item>)
    ensures Exec(stack, a + b) == ExecFrom(Exec(stack, a), b)
    decreases |a|
  {
    ConsAppend(a, b);
    if a != [] {
      match ExecItem(stack, a[0])
      case Err(f) =>
      case Ok(next) => ExecAppend(next, a[1..], b);
    }
  }

  /** Every item pushes one value and every operator also pops two, so a run that
      succeeds leaves `|stack| + |items| - 2 * (number of operators)` values. */
  lemma {:induction false} ExecHeight(stack: seq<Value>, items: seq<Item>)
    requires Exec(stack, items).Ok?
    ensures |Exec(stack, items).value| == |stack| + |items| - 2 * |OperatorsOf(items)|
    decreases |items|
  {
    if items != [] {
      var next := ExecItem(stack, items[0]).value;
      ExecHeight(next, items[1..]);
    }
  }

  /** The operand order: the value pushed first is the left operand. So `a b -` leaves
      `a - b`, and `a b /` leaves the floor quotient of `a` by `b`. */
  lemma OperandOrder(stack: seq<Value>, a: int, b: int, op: string)
    requires IsOperator(op)
    ensures ExecItem(stack + [Int(a), Int(b)], Sym(op)) ==
      match Apply(op, Int(a), Int(b))
      case Err(f) => Err(f)
      case Ok(v) => Ok(stack + [v])
    ensures op == "-" ==> Apply(op, Int(a), Int(b)) == Ok(Int(a - b))
    ensures op == "/" && b != 0 ==> Apply(op, Int(a), Int(b)).value.i == FloorDiv(a, b)
    ensures op == "%" && b != 0 ==> Apply(op, Int(a), Int(b)).value.i == FloorMod(a, b)
    ensures (op == "/" || op == "%") && b == 0 ==> Apply(op, Int(a), Int(b)) == Err(ZeroDivisionError)
  {
    var s := stack + [Int(a), Int(b)];
    assert s[..|s| - 2] == stack;
  }

  /** An operator meeting fewer than two values raises IndexError. */
  lemma Underflow(stack: seq<Value>, op: string, rest: seq<Item>)
    requires IsOperator(op) && |stack| < 2
    ensures Exec(stack, [Sym(op)] + rest) == Err(IndexError)
  {
    assert ([Sym(op)] + rest)[0] == Sym(op);
  }

  /** `_eval` returns -1 exactly when the run succeeds with a stack of other than one
      value (or when that one value is itself -1), and returns the single value
      otherwise. */
  lemma {:induction false} EvalSentinel(items: seq<Item>)
    requires Exec([], items).Ok?
    ensures |Exec([], items).value| == |items| - 2 * |OperatorsOf(items)|
    ensures |items| - 2 * |OperatorsOf(items)| != 1 ==> EvalRpn(items) == Ok(Int(-1))
    ensures |items| - 2 * |OperatorsOf(items)| == 1 ==> EvalRpn(items) == Ok(Exec([], items).value[0])
  {
    ExecHeight([], items);
  }
}
