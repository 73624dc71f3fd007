/** The Rust calculator against the Python one and against the expressions it is meant
    for. Wherever the Python conversion succeeds, `get_rpn` produces the same list,
    token for token once texts are read as Python reads them; on the text of any
    expression printed with minimal parentheses, `get_rpn` yields exactly its postfix
    tokens and `evaluate` its value under `i32` arithmetic with truncating division. */
module RsInfix {
  import opened Seqs
  import opened Arith
  import opened Lexing
  import opened Infix
  import PyRpn
  import PyInfix
  import opened RsRpn
  import opened RsEval

  // ---------------------------------------------------------------------------
  // The Python conversion, seen from the Rust one

  /** How the Python conversion records a token in its output: a digit run as its int,
      anything else as the text itself. */
  function ItemOf(t: string): PyRpn.Item
  {
    if IsDigits(t) then PyRpn.Num(DigitsValue(t)) else PyRpn.Sym(t)
  }

  function Items(ts: seq<string>): (r: seq<PyRpn.Item>)
    ensures |r| == |ts|
    ensures forall i :: 0 <= i < |ts| ==> r[i] == ItemOf(ts[i])
  {
    if ts == [] then [] else [ItemOf(ts[0])] + Items(ts[1..])
  }

  lemma ItemsAppend(a: seq<string>, b: seq<string>)
    ensures Items(a + b) == Items(a) + Items(b)
  {
  }

  /** The Python state that mirrors a Rust state. */
  function Mirror(st: Shunt): PyRpn.Shunt
  {
    PyRpn.Shunt(Items(st.operands), st.operators)
  }

  /** The two `precedence` functions rank operators alike, and rank everything else
      below every operator. */
  lemma PrecedenceAgrees(x: string, p: int)
    requires p >= 1
    ensures (PyRpn.Precedence(x) >= p) == (Precedence(x) >= p)
  {
    IsArithChar(x);
    PyRpn.PrecedenceRanks(x);
    PrecedenceRanks(x);
    if IsArith(x) {
      assert x == [x[0]];
    }
  }

  /** An operator or `(`, as the stack holds, is recorded as its own text. */
  lemma StackEntryItem(x: string)
    requires IsArith(x) || x == "("
    ensures ItemOf(x) == PyRpn.Sym(x)
  {
    IsArithChar(x);
    assert !IsDigit(x[0]);
  }

  /** Moving the top of the stack to the output, seen in both states. */
  lemma MirrorMove(st: Shunt)
    requires st.operators != [] && StackEntries(st.operators)
    ensures var ops := st.operators;
      && StackEntries(DropLast(ops))
      && Mirror(Shunt(st.operands + [Last(ops)], DropLast(ops)))
         == PyRpn.Shunt(Mirror(st).rpn + [PyRpn.Sym(Last(ops))], DropLast(ops))
  {
    var ops := st.operators;
    var x := Last(ops);
    assert IsArith(x) || x == "(" by { assert x == ops[|ops| - 1]; }
    StackEntryItem(x);
    ItemsAppend(st.operands, [x]);
    assert forall i :: 0 <= i < |ops| - 1 ==> DropLast(ops)[i] == ops[i];
  }

  lemma {:induction false} PopHigherAgrees(st: Shunt, p: int)
    requires p >= 1 && StackEntries(st.operators)
    ensures PyRpn.PopHigher(Mirror(st), p) == Mirror(PopHigher(st, p))
    decreases |st.operators|
  {
    var ops := st.operators;
    if ops != [] {
      PrecedenceAgrees(Last(ops), p);
      if Precedence(Last(ops)) >= p {
        MirrorMove(st);
        PopHigherAgrees(Shunt(st.operands + [Last(ops)], DropLast(ops)), p);
      }
    }
  }

  lemma {:induction false} PopToParenAgrees(st: Shunt)
    requires StackEntries(st.operators)
    requires PyRpn.PopToParen(Mirror(st)).Ok?
    ensures PyRpn.PopToParen(Mirror(st)) == Ok(Mirror(PopToParen(st)))
    decreases |st.operators|
  {
    var ops := st.operators;
    if Last(ops) != "(" {
      MirrorMove(st);
      PopToParenAgrees(Shunt(st.operands + [Last(ops)], DropLast(ops)));
    }
  }

  /** Each token where the Python loop goes on, the Rust loop does the same. */
  lemma StepAgrees(st: Shunt, token: string)
    requires Tidy(st)
    requires PyRpn.Step(Mirror(st), token).Ok?
    ensures PyRpn.Step(Mirror(st), token) == Ok(Mirror(Step(st, token)))
  {
    IsArithChar(token);
    if IsArith(token) {
      PrecedenceAgrees(token, 1);
      assert PyRpn.Precedence(token) == Precedence(token) by {
        assert token == [token[0]];
      }
      PopHigherAgrees(st, Precedence(token));
    } else if token == ")" {
      PopToParenAgrees(st);
    } else if token != "(" {
      assert !PyRpn.IsOperator(token) && IsDigits(token);
      ItemsAppend(st.operands, [token]);
      assert Items([token]) == [PyRpn.Num(DigitsValue(token))];
    }
  }

  lemma {:induction false} RunAgrees(st: Shunt, tokens: seq<string>)
    requires Tidy(st)
    requires PyRpn.Run(Mirror(st), tokens).Ok?
    ensures PyRpn.Run(Mirror(st), tokens) == Ok(Mirror(Run(st, tokens)))
    decreases |tokens|
  {
    if tokens != [] {
      StepAgrees(st, tokens[0]);
      StepKeeps(st, tokens[0]);
      RunAgrees(Step(st, tokens[0]), tokens[1..]);
    }
  }

  /** Draining a stack of operators and `(` produces the same entries in both. */
  lemma {:induction false} ItemsReversed(ops: seq<string>)
    requires StackEntries(ops)
    ensures Items(Reversed(ops)) == PyRpn.SymsReversed(ops)
  {
    if ops != [] {
      var x := Last(ops);
      assert IsArith(x) || x == "(" by { assert x == ops[|ops| - 1]; }
      StackEntryItem(x);
      assert StackEntries(DropLast(ops)) by {
        assert forall i :: 0 <= i < |ops| - 1 ==> DropLast(ops)[i] == ops[i];
      }
      ItemsReversed(DropLast(ops));
      ItemsAppend([x], Reversed(DropLast(ops)));
    }
  }

  /** Wherever `_rpn` succeeds, `get_rpn` produces the same list, each digit token
      standing for the int `_rpn` puts in its place. So on genuine tokens the two differ
      only on a `)` with no `(` open, where Python raises IndexError and Rust goes on. */
  lemma ToRpnAgrees(tokens: seq<string>)
    requires PyRpn.ToRpn(tokens).Ok?
    ensures PyRpn.ToRpn(tokens).value == Items(ToRpn(tokens))
  {
    var init := Shunt([], []);
    assert Mirror(init) == PyRpn.Shunt([], []);
    RunAgrees(init, tokens);
    var st := Run(init, tokens);
    RunKeeps(init, tokens);
    ItemsReversed(st.operators);
    ItemsAppend(st.operands, Reversed(st.operators));
  }

  // ---------------------------------------------------------------------------
  // Texts that an int determines

  /** A digit run without superfluous leading zeros (any other text qualifies). */
  predicate Canonical(t: string)
  {
    IsDigits(t) ==> t == NatToDigits(DigitsValue(t))
  }

  predicate AllCanonical(ts: seq<string>)
  {
    forall t :: t in ts ==> Canonical(t)
  }

  /** Among such texts, the Python reading loses nothing. */
  lemma ItemsInjective(a: seq<string>, b: seq<string>)
    requires AllCanonical(a) && AllCanonical(b)
    requires Items(a) == Items(b)
    ensures a == b
  {
    forall i | 0 <= i < |a|
      ensures a[i] == b[i]
    {
      assert ItemOf(a[i]) == ItemOf(b[i]);
      assert a[i] in a && b[i] in b;
    }
  }

  predicate CanonicalState(st: Shunt)
  {
    AllCanonical(st.operands) && AllCanonical(st.operators)
  }

  /** Moving the top of the stack to the output keeps every entry canonical. */
  lemma MoveCanonical(st: Shunt)
    requires st.operators != [] && CanonicalState(st)
    ensures CanonicalState(Shunt(st.operands + [Last(st.operators)], DropLast(st.operators)))
  {
    var ops := st.operators;
    assert Last(ops) in ops;
    assert forall t :: t in DropLast(ops) ==> t in ops;
  }

  lemma {:induction false} PopHigherCanonical(st: Shunt, p: int)
    requires CanonicalState(st)
    ensures CanonicalState(PopHigher(st, p))
    decreases |st.operators|
  {
    if st.operators != [] && Precedence(Last(st.operators)) >= p {
      MoveCanonical(st);
      PopHigherCanonical(Shunt(st.operands + [Last(st.operators)], DropLast(st.operators)), p);
    }
  }

  lemma {:induction false} PopToParenCanonical(st: Shunt)
    requires CanonicalState(st)
    ensures CanonicalState(PopToParen(st))
    decreases |st.operators|
  {
    var ops := st.operators;
    if ops != [] && Last(ops) != "(" {
      MoveCanonical(st);
      PopToParenCanonical(Shunt(st.operands + [Last(ops)], DropLast(ops)));
    } else if ops != [] {
      assert forall t :: t in DropLast(ops) ==> t in ops;
    }
  }

  lemma {:induction false} RunCanonical(st: Shunt, tokens: seq<string>)
    requires CanonicalState(st) && AllCanonical(tokens)
    ensures CanonicalState(Run(st, tokens))
    decreases |tokens|
  {
    if tokens != [] {
      var t := tokens[0];
      assert t in tokens;
      if IsArith(t) {
        PopHigherCanonical(st, Precedence(t));
      } else if t == ")" {
        PopToParenCanonical(st);
      }
      assert forall x :: x in tokens[1..] ==> x in tokens;
      RunCanonical(Step(st, t), tokens[1..]);
    }
  }

  /** Canonical tokens give canonical RPN. */
  lemma ToRpnCanonical(tokens: seq<string>)
    requires AllCanonical(tokens)
    ensures AllCanonical(ToRpn(tokens))
  {
    RunCanonical(Shunt([], []), tokens);
    var st := Run(Shunt([], []), tokens);
    forall t | t in Reversed(st.operators) ensures t in st.operators {
      var i :| 0 <= i < |st.operators| && Reversed(st.operators)[i] == t;
      assert st.operators[|st.operators| - 1 - i] == t;
    }
  }

  lemma NumeralCanonical(n: nat)
    ensures Canonical(NatToDigits(n))
  {
  }

  lemma SymbolCanonical(op: BinOp)
    ensures Canonical(Symbol(op)) && ItemOf(Symbol(op)) == PyRpn.Sym(Symbol(op))
  {
    assert !IsDigit(Symbol(op)[0]);
  }

  lemma {:induction false} PrintCanonical(e: Expr)
    ensures AllCanonical(Print(e))
  {
    match e
    case Lit(n) =>
      NumeralCanonical(n);
    case Bin(op, l, r) =>
      PrintCanonical(l);
      PrintCanonical(r);
      SymbolCanonical(op);
      assert !IsDigits("(") && !IsDigits(")") by { SymbolTexts(); }
  }

  lemma {:induction false} PostfixCanonical(e: Expr)
    ensures AllCanonical(PostfixTokens(e))
    ensures Items(PostfixTokens(e)) == PyInfix.PostfixItems(e)
  {
    match e
    case Lit(n) =>
      NumeralCanonical(n);
    case Bin(op, l, r) =>
      PostfixCanonical(l);
      PostfixCanonical(r);
      SymbolCanonical(op);
      ItemsAppend(PostfixTokens(l), PostfixTokens(r));
      ItemsAppend(PostfixTokens(l) + PostfixTokens(r), [Symbol(op)]);
  }

  /** `get_rpn` on the text of an expression yields exactly its postfix tokens. */
  lemma RpnRender(e: Expr)
    ensures ToRpn(Lex(Render(e))) == PostfixTokens(e)
  {
    LexRender(e);
    PyInfix.ToRpnPrint(e);
    ToRpnAgrees(Print(e));
    PostfixCanonical(e);
    PrintCanonical(e);
    ToRpnCanonical(Print(e));
    ItemsInjective(ToRpn(Print(e)), PostfixTokens(e));
  }

  // ---------------------------------------------------------------------------
  // Evaluation

  /** A binary operator on `i32` values as Rust computes it, panicking on overflow and
      on a zero divisor. */
  function I32Apply(op: BinOp, a: int, b: int): Result<int, Panic>
  {
    match op
    case Add => Checked(a + b)
    case Sub => Checked(a - b)
    case Mul => Checked(a * b)
    case Div => if b == 0 then Err(DivideByZero) else Checked(TruncDiv(a, b))
    case Mod =>
      if b == 0 then Err(DivideByZero)
      else if a == I32_MIN && b == -1 then Err(Overflow)
      else Checked(TruncRem(a, b))
  }

  /** The value of an expression in `i32` arithmetic, the left operand first; a literal
      past `i32::MAX` does not parse. */
  function EvalI32(e: Expr): Result<int, Panic>
  {
    match e
    case Lit(n) => if n <= I32_MAX then Ok(n) else Err(ParseFailed)
    case Bin(op, l, r) =>
      match EvalI32(l)
      case Err(p) => Err(p)
      case Ok(a) =>
        match EvalI32(r)
        case Err(p) => Err(p)
        case Ok(b) => I32Apply(op, a, b)
  }

  /** The stack arms agree with the expression operators. */
  lemma CombineAgrees(op: BinOp, a: int, b: int)
    ensures IsArith(Symbol(op)) && Combine(Symbol(op), a, b) == I32Apply(op, a, b)
  {
    if op == Div && b == -1 && a == I32_MIN {
      assert TruncDiv(a, b) == -a;
    }
  }

  /** Executing the postfix tokens of `e` pushes the value of `e`, or panics as it does. */
  lemma {:induction false} ExecPostfix(stack: seq<int>, e: Expr)
    ensures Exec(stack, PostfixTokens(e)) ==
      match EvalI32(e)
      case Err(p) => Err(p)
      case Ok(v) => Ok(stack + [v])
    decreases e
  {
    match e
    case Lit(n) =>
      var t := NatToDigits(n);
      assert !IsArith(t) by { IsArithChar(t); assert IsDigit(t[0]); }
      ParseDigits(t);
      assert Exec(stack, [t]) == ExecFrom(ExecToken(stack, t), []);
    case Bin(op, l, r) =>
      var pl, pr, sym := PostfixTokens(l), PostfixTokens(r), [Symbol(op)];
      ExecAppend(stack, pl + pr, sym);
      ExecAppend(stack, pl, pr);
      ExecPostfix(stack, l);
      if EvalI32(l).Ok? {
        var a := EvalI32(l).value;
        ExecPostfix(stack + [a], r);
        if EvalI32(r).Ok? {
          var b := EvalI32(r).value;
          var two := stack + [a] + [b];
          assert two == stack + [a, b];
          CombineAgrees(op, a, b);
          assert two[..|two| - 2] == stack;
          assert Exec(two, sym) == ExecFrom(ExecToken(two, Symbol(op)), []);
        }
      }
  }

  /** `evaluate` on the text of any expression returns the expression's `i32` value,
      or panics exactly as evaluating it operator by operator does. */
  lemma EvaluateRender(e: Expr)
    ensures Evaluation(Render(e)) == EvalI32(e)
  {
    RpnRender(e);
    ExecPostfix([], e);
  }
}
