/** `Calculator._rpn` (python_support/Calculator.py): the shunting-yard conversion of
    the token list into an RPN list of ints and operator strings, described here one
    token at a time. The loop that carries it out is `Calculator.Rpn`. */
module PyRpn {
  import opened Seqs
  import opened Lexing

  /** An entry of the RPN list: an int, or a string taken off the operator stack (an
      operator, or a `(` that was never closed). */
  datatype Item = Num(n: int) | Sym(s: string)

  /** The exceptions the calculator lets escape. */
  datatype Fault = IndexError | ValueError | ZeroDivisionError | TypeError

  /** Membership in the module-level `op_allows` list of the five operators. */
  predicate IsOperator(t: string)
  {
    |t| == 1 && IsOperatorChar(t[0])
  }

  /** The nested `precedence`. */
  function Precedence(op: string): int
  {
    if |op| != 1 then -1
    else if op[0] == '+' || op[0] == '-' then 1
    else if op[0] == '*' || op[0] == '/' || op[0] == '%' then 2
    else if op[0] == '(' || op[0] == ')' then 0
    else -1
  }

  /** `+ -` rank 1, `* / %` rank 2, the parentheses 0 and every other text -1: every
      operator outranks the parenthesis sentinel, and anything else ranks below both. */
  lemma PrecedenceRanks(op: string)
    ensures Precedence(op) == 1 <==> op == "+" || op == "-"
    ensures Precedence(op) == 2 <==> op == "*" || op == "/" || op == "%"
    ensures Precedence(op) == 0 <==> op == "(" || op == ")"
    ensures !IsOperator(op) && op != "(" && op != ")" ==> Precedence(op) == -1
    ensures IsOperator(op) <==> Precedence(op) >= 1
    ensures op == "(" ==> Precedence(op) == 0
  {
  }

  /** The two lists `_rpn` builds: the output `rpn` and the stack `operators` (top last). */
  datatype Shunt = Shunt(rpn: seq<Item>, operators: seq<string>)

  /** The items that popping every entry of `ops` appends, top first. */
  function SymsReversed(ops: seq<string>): (r: seq<Item>)
    ensures |r| == |ops|
  {
    if ops == [] then [] else [Sym(Last(ops))] + SymsReversed(DropLast(ops))
  }

  /** Popping the upper part of a stack first, then the lower part. */
  lemma {:induction false} SymsReversedAppend(a: seq<string>, b: seq<string>)
    ensures SymsReversed(a + b) == SymsReversed(b) + SymsReversed(a)
    decreases |b|
  {
    SnocAppend(a, b);
    if b != [] {
      SymsReversedAppend(a, DropLast(b));
    }
  }

  /** The inner loop for an incoming operator of rank `p`: while the stack is not
      empty and its top ranks at least `p`, the top moves to the output. */
  function PopHigher(st: Shunt, p: int): Shunt
    decreases |st.operators|
  {
    if st.operators != [] && Precedence(Last(st.operators)) >= p then
      PopHigher(Shunt(st.rpn + [Sym(Last(st.operators))], DropLast(st.operators)), p)
    else
      st
  }

  /** PopHigher pops exactly the run of entries at the top of the stack that rank at
      least `p`, appending them to the output top first, and leaves the rest in place. */
  lemma {:induction false} PopHigherPops(st: Shunt, p: int)
    ensures var r := PopHigher(st, p);
      && |r.operators| <= |st.operators| && r.operators == st.operators[..|r.operators|]
      && r.rpn == st.rpn + SymsReversed(st.operators[|r.operators|..])
      && (forall i :: |r.operators| <= i < |st.operators| ==> Precedence(st.operators[i]) >= p)
      && (r.operators == [] || Precedence(Last(r.operators)) < p)
    decreases |st.operators|
  {
    var ops := st.operators;
    if ops != [] && Precedence(Last(ops)) >= p {
      var next := Shunt(st.rpn + [Sym(Last(ops))], DropLast(ops));
      PopHigherPops(next, p);
      var r := PopHigher(next, p);
      assert PopHigher(st, p) == r;
      PopOneMore(ops, |r.operators|);
    } else {
      assert ops[|ops|..] == [];
    }
  }

  /** Popping the top entry of `ops` in front of popping `ops[k..|ops| - 1]`. */
  lemma PopOneMore(ops: seq<string>, k: nat)
    requires k < |ops|
    ensures DropLast(ops)[..k] == ops[..k]
    ensures forall i :: k <= i < |ops| - 1 ==> DropLast(ops)[i] == ops[i]
    ensures SymsReversed(ops[k..]) == [Sym(Last(ops))] + SymsReversed(DropLast(ops)[k..])
  {
    assert ops[k..] == DropLast(ops)[k..] + [Last(ops)];
    SymsReversedAppend(DropLast(ops)[k..], [Last(ops)]);
    assert SymsReversed([Last(ops)]) == [Sym(Last(ops))];
  }

  /** The handling of `)`: operators move from the top of the stack to the output
      until a `(` is on top, and that `(` is dropped; looking at the top of an empty
      stack raises IndexError. */
  function PopToParen(st: Shunt): Result<Shunt, Fault>
    decreases |st.operators|
  {
    if st.operators == [] then Err(IndexError)
    else if Last(st.operators) == "(" then Ok(Shunt(st.rpn, DropLast(st.operators)))
    else PopToParen(Shunt(st.rpn + [Sym(Last(st.operators))], DropLast(st.operators)))
  }

  /** The `)` loop fails, with IndexError, exactly when the stack holds no `(`. */
  lemma {:induction false} PopToParenFails(st: Shunt)
    ensures PopToParen(st).Ok? <==> "(" in st.operators
    ensures PopToParen(st).Err? ==> PopToParen(st).error == IndexError
    decreases |st.operators|
  {
    var ops := st.operators;
    if ops != [] && Last(ops) != "(" {
      var d := DropLast(ops);
      assert ops == d + [Last(ops)];
      PopToParenFails(Shunt(st.rpn + [Sym(Last(ops))], d));
    }
  }

  /** When it succeeds, the `)` loop stops at the topmost `(`, pops everything above it
      to the output, top first, and discards the `(`. */
  lemma {:induction false} PopToParenPops(st: Shunt)
    requires PopToParen(st).Ok?
    ensures var k := |PopToParen(st).value.operators|;
      && k < |st.operators| && st.operators[k] == "(" && PopToParen(st).value.operators == st.operators[..k]
      && "(" !in st.operators[k + 1..]
      && PopToParen(st).value.rpn == st.rpn + SymsReversed(st.operators[k + 1..])
    decreases |st.operators|
  {
    var ops := st.operators;
    var d, x := DropLast(ops), Last(ops);
    if x == "(" {
      assert ops[|d| + 1..] == [];
    } else {
      var next := Shunt(st.rpn + [Sym(x)], d);
      PopToParenPops(next);
      var k := |PopToParen(next).value.operators|;
      PopOneMore(ops, k + 1);
      assert ops[k + 1..] == d[k + 1..] + [x];
    }
  }


  /** One pass of the `for token in tokenize(self.expr)` loop. A token that is neither
      an operator nor a parenthesis is converted with `int(token)`; the tokenizer only
      hands over digit runs there, and anything else would be a ValueError. */
  function Step(st: Shunt, token: string): Result<Shunt, Fault>
  {
    if IsOperator(token) then
      var popped := PopHigher(st, Precedence(token));
      Ok(Shunt(popped.rpn, popped.operators + [token]))
    else if token == "(" then Ok(Shunt(st.rpn, st.operators + [token]))
    else if token == ")" then PopToParen(st)
    else if IsDigits(token) then Ok(Shunt(st.rpn + [Num(DigitsValue(token))], st.operators))
    else Err(ValueError)
  }

  /** The whole `for` loop, stopping at the first exception. */
  function Run(st: Shunt, tokens: seq<string>): Result<Shunt, Fault>
    decreases |tokens|
  {
    if tokens == [] then Ok(st)
    else
      match Step(st, tokens[0])
      case Err(f) => Err(f)
      case Ok(next) => Run(next, tokens[1..])
  }

  /** After the last token, the operators left on the stack go to the output, top
      first. */
  function Flush(st: Shunt): seq<Item>
  {
    st.rpn + SymsReversed(st.operators)
  }

  /** `_rpn` on a token list: the RPN list, or the exception raised on the way. */
  function ToRpn(tokens: seq<string>): Result<seq<Item>, Fault>
  {
    match Run(Shunt([], []), tokens)
    case Err(f) => Err(f)
    case Ok(st) => Ok(Flush(st))
  }

  /** Continuing a run from the outcome of an earlier one. */
  function Continue(r: Result<Shunt, Fault>, tokens: seq<string>): Result<Shunt, Fault>
  {
    match r
    case Err(f) => Err(f)
    case Ok(st) => Run(st, tokens)
  }

  /** Running over two token lists in a row is running over their concatenation. */
  lemma {:induction false} RunAppend(st: Shunt, a: seq<string>, b: seq<string>)
    ensures Run(st, a + b) == Continue(Run(st, a), b)
    decreases |a|
  {
    ConsAppend(a, b);
    if a != [] {
      match Step(st, a[0])
      case Err(f) =>
      case Ok(next) => RunAppend(next, a[1..], b);
    }
  }

  // ---------------------------------------------------------------------------
  // The operator stack

  /** The shape of the operator stack: it holds operators and `(` only, and every
      operator outranks the entry below it, so above the topmost `(` the precedences
      strictly increase from bottom to top. */
  predicate StackShape(ops: seq<string>)
  {
    StackEntries(ops) && StackRising(ops)
  }

  predicate StackEntries(ops: seq<string>)
  {
    forall i :: 0 <= i < |ops| ==> IsOperator(ops[i]) || ops[i] == "("
  }

  predicate StackRising(ops: seq<string>)
  {
    forall i :: 0 < i < |ops| && ops[i] != "(" ==> Precedence(ops[i - 1]) < Precedence(ops[i])
  }

  /** Every accepted token keeps the stack in shape. */
  lemma StepKeepsShape(st: Shunt, token: string)
    requires StackShape(st.operators)
    requires Step(st, token).Ok?
    ensures StackShape(Step(st, token).value.operators)
  {
    StepKeepsEntries(st, token);
    StepKeepsRising(st, token);
  }

  lemma StepKeepsRising(st: Shunt, token: string)
    requires StackRising(st.operators)
    requires Step(st, token).Ok?
    ensures StackRising(Step(st, token).value.operators)
  {
    var ops := st.operators;
    if IsOperator(token) {
      var k := |PopHigher(st, Precedence(token)).operators|;
      assert Step(st, token).value.operators == ops[..k] + [token]
        && (k == 0 || Precedence(ops[k - 1]) < Precedence(token)) by {
        PopHigherPops(st, Precedence(token));
      }
      PushKeepsRising(ops[..k], token);
      StackRisingPrefix(ops, k);
    } else if token == "(" {
      PushKeepsRising(ops, token);
    } else if token == ")" {
      var k := |PopToParen(st).value.operators|;
      assert PopToParen(st).value.operators == ops[..k] by {
        PopToParenPops(st);
      }
      StackRisingPrefix(ops, k);
    }
  }

  lemma StackRisingPrefix(ops: seq<string>, k: nat)
    requires StackRising(ops) && k <= |ops|
    ensures StackRising(ops[..k])
  {
    assert forall i :: 0 <= i < k ==> ops[..k][i] == ops[i];
  }

  /** Pushing `(`, or an operator that outranks the top of the stack. */
  lemma PushKeepsRising(ops: seq<string>, token: string)
    requires StackRising(ops)
    requires token == "(" || ops == [] || Precedence(Last(ops)) < Precedence(token)
    ensures StackRising(ops + [token])
  {
    var ops' := ops + [token];
    forall i | 0 < i < |ops'| && ops'[i] != "("
      ensures Precedence(ops'[i - 1]) < Precedence(ops'[i])
    {
      if i < |ops| {
        assert ops'[i] == ops[i] && ops'[i - 1] == ops[i - 1];
      } else {
        assert ops'[i - 1] == Last(ops) && ops'[i] == token;
      }
    }
  }

  /** Every accepted token keeps the stack free of anything but operators and `(`. */
  lemma StepKeepsEntries(st: Shunt, token: string)
    requires StackEntries(st.operators)
    requires Step(st, token).Ok?
    ensures StackEntries(Step(st, token).value.operators)
  {
    var ops := st.operators;
    if IsOperator(token) {
      PopHigherPops(st, Precedence(token));
      var k := |PopHigher(st, Precedence(token)).operators|;
      var ops' := ops[..k] + [token];
      assert Step(st, token).value.operators == ops';
      forall i | 0 <= i < |ops'| ensures IsOperator(ops'[i]) || ops'[i] == "(" {
        if i < k { assert ops'[i] == ops[i]; }
      }
    } else if token == ")" {
      PopToParenPops(st);
      var k := |PopToParen(st).value.operators|;
      assert forall i :: 0 <= i < k ==> ops[..k][i] == ops[i];
    }
  }

  /** The shape of the stack is an invariant of the whole loop. */
  lemma {:induction false} RunKeepsShape(st: Shunt, tokens: seq<string>)
    requires StackShape(st.operators)
    requires Run(st, tokens).Ok?
    ensures StackShape(Run(st, tokens).value.operators)
    decreases |tokens|
  {
    if tokens != [] {
      StepKeepsShape(st, tokens[0]);
      RunKeepsShape(Step(st, tokens[0]).value, tokens[1..]);
    }
  }

  /** An incoming operator never pops a `(`: the entries it pops are operators. */
  lemma PopHigherKeepsParens(st: Shunt, token: string)
    requires IsOperator(token)
    ensures var r := PopHigher(st, Precedence(token));
      forall i :: |r.operators| <= i < |st.operators| ==> IsOperator(st.operators[i])
  {
    PopHigherPops(st, Precedence(token));
    PrecedenceRanks(token);
    forall op | op in st.operators {
      PrecedenceRanks(op);
    }
  }

  // ---------------------------------------------------------------------------
  // What reaches the output

  /** The ints of an RPN list, in order. */
  function Numbers(items: seq<Item>): seq<int>
  {
    if items == [] then []
    else (if items[0].Num? then [items[0].n] else []) + Numbers(items[1..])
  }

  /** The operator strings of an RPN list, in order. */
  function OperatorsOf(items: seq<Item>): seq<string>
  {
    if items == [] then []
    else (if items[0].Sym? && IsOperator(items[0].s) then [items[0].s] else []) + OperatorsOf(items[1..])
  }

  /** The values of the digit tokens, in order. */
  function NumberTokens(tokens: seq<string>): seq<int>
  {
    if tokens == [] then []
    else (if IsDigits(tokens[0]) then [DigitsValue(tokens[0]) as int] else []) + NumberTokens(tokens[1..])
  }

  /** The operator tokens, in order. */
  function OperatorTokens(tokens: seq<string>): seq<string>
  {
    if tokens == [] then []
    else (if IsOperator(tokens[0]) then [tokens[0]] else []) + OperatorTokens(tokens[1..])
  }

  lemma {:induction false} ItemsAppend(a: seq<Item>, b: seq<Item>)
    ensures Numbers(a + b) == Numbers(a) + Numbers(b)
    ensures OperatorsOf(a + b) == OperatorsOf(a) + OperatorsOf(b)
    ensures Count(Sym("("), a + b) == Count(Sym("("), a) + Count(Sym("("), b)
    ensures Count(Sym(")"), a + b) == Count(Sym(")"), a) + Count(Sym(")"), b)
  {
    NumbersAppend(a, b);
    OperatorsAppend(a, b);
    CountAppend(Sym("("), a, b);
    CountAppend(Sym(")"), a, b);
  }

  lemma {:induction false} NumbersAppend(a: seq<Item>, b: seq<Item>)
    ensures Numbers(a + b) == Numbers(a) + Numbers(b)
  {
    ConsAppend(a, b);
    if a != [] {
      NumbersAppend(a[1..], b);
    }
  }

  lemma {:induction false} OperatorsAppend(a: seq<Item>, b: seq<Item>)
    ensures OperatorsOf(a + b) == OperatorsOf(a) + OperatorsOf(b)
  {
    ConsAppend(a, b);
    if a != [] {
      OperatorsAppend(a[1..], b);
    }
  }

  lemma {:induction false} TokensAppend(a: seq<string>, b: seq<string>)
    ensures NumberTokens(a + b) == NumberTokens(a) + NumberTokens(b)
    ensures OperatorTokens(a + b) == OperatorTokens(a) + OperatorTokens(b)
  {
    ConsAppend(a, b);
    if a != [] {
      TokensAppend(a[1..], b);
    }
  }

  /** Popping stack entries onto the output adds no int, adds each operator among them,
      and adds each parenthesis among them. */
  /** What popping a single stack entry adds to the output. */
  lemma SingleItem(x: string)
    ensures Numbers([Sym(x)]) == []
    ensures OperatorsOf([Sym(x)]) == OperatorTokens([x])
    ensures Count(Sym("("), [Sym(x)]) == Count("(", [x])
    ensures Count(Sym(")"), [Sym(x)]) == Count(")", [x])
  {
    assert [Sym(x)][1..] == [];
    SingleCounts(x);
    SingleTokens(x);
  }

  lemma ItemsOfStack(ops: seq<string>)
    ensures Numbers(SymsReversed(ops)) == []
    ensures multiset(OperatorsOf(SymsReversed(ops))) == multiset(OperatorTokens(ops))
    ensures Count(Sym("("), SymsReversed(ops)) == Count("(", ops)
    ensures Count(Sym(")"), SymsReversed(ops)) == Count(")", ops)
  {
    NumbersOfStack(ops);
    OperatorsOfStack(ops);
    ParensOfStack(ops, "(");
    ParensOfStack(ops, ")");
  }

  lemma {:induction false} NumbersOfStack(ops: seq<string>)
    ensures Numbers(SymsReversed(ops)) == []
  {
    if ops != [] {
      var d, x := DropLast(ops), Last(ops);
      assert SymsReversed(ops) == [Sym(x)] + SymsReversed(d);
      NumbersOfStack(d);
      NumbersAppend([Sym(x)], SymsReversed(d));
      SingleItem(x);
    }
  }

  lemma {:induction false} OperatorsOfStack(ops: seq<string>)
    ensures multiset(OperatorsOf(SymsReversed(ops))) == multiset(OperatorTokens(ops))
  {
    if ops != [] {
      var d, x := DropLast(ops), Last(ops);
      assert SymsReversed(ops) == [Sym(x)] + SymsReversed(d);
      OperatorsOfStack(d);
      OperatorsAppend([Sym(x)], SymsReversed(d));
      SnocSplit(ops);
      TokensAppend(d, [x]);
      SingleItem(x);
      assert multiset(OperatorTokens(ops)) == multiset(OperatorTokens(d)) + multiset(OperatorTokens([x]));
    }
  }

  lemma {:induction false} ParensOfStack(ops: seq<string>, paren: string)
    requires paren == "(" || paren == ")"
    ensures Count(Sym(paren), SymsReversed(ops)) == Count(paren, ops)
  {
    if ops != [] {
      var d, x := DropLast(ops), Last(ops);
      assert SymsReversed(ops) == [Sym(x)] + SymsReversed(d);
      ParensOfStack(d, paren);
      CountAppend(Sym(paren), [Sym(x)], SymsReversed(d));
      SnocSplit(ops);
      CountAppend(paren, d, [x]);
      assert [Sym(x)][1..] == [] && [x][1..] == [];
    }
  }

  /** A one-token list holds a parenthesis exactly when the token is one. */
  lemma SingleCounts(t: string)
    ensures Count("(", [t]) == (if t == "(" then 1 else 0)
    ensures Count(")", [t]) == (if t == ")" then 1 else 0)
  {
    assert [t][1..] == [];
  }

  /** No operator is a parenthesis. */
  lemma OperatorNotParen(t: string)
    requires IsOperator(t)
    ensures t != "(" && t != ")"
  {
    assert "("[0] == '(' && ")"[0] == ')';
  }

  /** What one token does to the open parentheses on the stack: `(` adds one, `)`
      removes one, and nothing else changes their number. */
  lemma StepCount(st: Shunt, token: string)
    requires Step(st, token).Ok?
    ensures Count("(", Step(st, token).value.operators)
         == Count("(", st.operators) + Count("(", [token]) - Count(")", [token])
  {
    var ops := st.operators;
    var ops' := Step(st, token).value.operators;
    SingleCounts(token);
    if IsOperator(token) {
      OperatorNotParen(token);
      OperatorCount(st, token);
    } else if token == "(" {
      assert ops' == ops + [token];
      CountAppend("(", ops, [token]);
    } else if token == ")" {
      CloseCount(st);
    } else {
      assert ops' == ops;
    }
  }

  lemma OperatorCount(st: Shunt, token: string)
    requires IsOperator(token)
    ensures Count("(", Step(st, token).value.operators) == Count("(", st.operators)
  {
    var ops := st.operators;
    var k := |PopHigher(st, Precedence(token)).operators|;
    assert Step(st, token).value.operators == ops[..k] + [token] by {
      PopHigherPops(st, Precedence(token));
    }
    assert Count("(", ops[k..]) == 0 by {
      PopHigherKeepsParens(st, token);
      OperatorsOnly(ops[k..]);
    }
    assert Count("(", [token]) == 0 by {
      OperatorNotParen(token);
      SingleCounts(token);
    }
    TakeDrop(ops, k);
    CountAppend("(", ops[..k], ops[k..]);
    CountAppend("(", ops[..k], [token]);
  }

  lemma CloseCount(st: Shunt)
    requires PopToParen(st).Ok?
    ensures Count("(", PopToParen(st).value.operators) == Count("(", st.operators) - 1
  {
    var ops := st.operators;
    PopToParenPops(st);
    var k := |PopToParen(st).value.operators|;
    var upper := ops[k + 1..];
    assert ops == ops[..k] + (["("] + upper);
    CountAppend("(", ops[..k], ["("] + upper);
    CountAppend("(", ["("], upper);
    SingleCounts("(");
    CountPositive("(", upper);
  }

  /** The operators accounted for so far: those already in the output and those still
      waiting on the stack. */
  function Pending(st: Shunt): multiset<string>
  {
    multiset(OperatorsOf(st.rpn)) + multiset(OperatorTokens(st.operators))
  }

  /** The ints and operators a one-token list contributes. */
  lemma SingleTokens(t: string)
    ensures NumberTokens([t]) == (if IsDigits(t) then [DigitsValue(t) as int] else [])
    ensures OperatorTokens([t]) == (if IsOperator(t) then [t] else [])
  {
    assert [t][1..] == [];
  }

  /** Moving the top entries `upper` of the stack `lower + upper` to the output. */
  lemma MovedToOutput(rpn: seq<Item>, lower: seq<string>, upper: seq<string>)
    ensures Numbers(rpn + SymsReversed(upper)) == Numbers(rpn)
    ensures Pending(Shunt(rpn + SymsReversed(upper), lower)) == Pending(Shunt(rpn, lower + upper))
    ensures Count(Sym("("), rpn + SymsReversed(upper)) == Count(Sym("("), rpn) + Count("(", upper)
    ensures Count(Sym(")"), rpn + SymsReversed(upper)) == Count(Sym(")"), rpn) + Count(")", upper)
  {
    var out := SymsReversed(upper);
    assert Numbers(rpn + out) == Numbers(rpn) by {
      NumbersAppend(rpn, out);
      NumbersOfStack(upper);
      assert Numbers(rpn) + [] == Numbers(rpn);
    }
    assert multiset(OperatorsOf(rpn + out)) == multiset(OperatorsOf(rpn)) + multiset(OperatorTokens(upper)) by {
      OperatorsAppend(rpn, out);
      OperatorsOfStack(upper);
    }
    TokensAppend(lower, upper);
    CountAppend(Sym("("), rpn, out);
    CountAppend(Sym(")"), rpn, out);
    ParensOfStack(upper, "(");
    ParensOfStack(upper, ")");
  }

  /** No parenthesis among entries that are all operators. */
  lemma OperatorsOnly(ops: seq<string>)
    requires forall i :: 0 <= i < |ops| ==> IsOperator(ops[i])
    ensures Count("(", ops) == 0 && Count(")", ops) == 0
  {
    forall i | 0 <= i < |ops| ensures ops[i] != "(" && ops[i] != ")" {
      OperatorNotParen(ops[i]);
    }
    CountPositive("(", ops);
    CountPositive(")", ops);
  }

  /** The operator stack never holds a `)`. */
  lemma StepNoClose(st: Shunt, token: string)
    requires Count(")", st.operators) == 0
    requires Step(st, token).Ok?
    ensures Count(")", Step(st, token).value.operators) == 0
  {
    var ops := st.operators;
    if IsOperator(token) {
      var k := |PopHigher(st, Precedence(token)).operators|;
      assert Step(st, token).value.operators == ops[..k] + [token] by {
        PopHigherPops(st, Precedence(token));
      }
      PrefixCount(")", ops, k);
      CountAppend(")", ops[..k], [token]);
      OperatorNotParen(token);
      SingleCounts(token);
    } else if token == "(" {
      CountAppend(")", ops, [token]);
      SingleCounts(token);
    } else if token == ")" {
      var k := |PopToParen(st).value.operators|;
      assert PopToParen(st).value.operators == ops[..k] by {
        PopToParenPops(st);
      }
      PrefixCount(")", ops, k);
    }
  }

  lemma PrefixCount<T>(x: T, s: seq<T>, k: nat)
    requires k <= |s|
    ensures Count(x, s[..k]) <= Count(x, s)
  {
    assert s == s[..k] + s[k..];
    CountAppend(x, s[..k], s[k..]);
  }

  /** What one token does to the output: a digit token adds its value after all earlier
      ints, an operator joins the operators accounted for, a `)` moves operators from the
      stack to the output, and no parenthesis ever reaches the output. */
  lemma StepOutput(st: Shunt, token: string)
    requires Count(")", st.operators) == 0
    requires Step(st, token).Ok?
    ensures var st' := Step(st, token).value;
      && Numbers(st'.rpn) == Numbers(st.rpn) + NumberTokens([token])
      && Pending(st') == Pending(st) + multiset(OperatorTokens([token]))
      && Count(Sym("("), st'.rpn) == Count(Sym("("), st.rpn)
      && Count(Sym(")"), st'.rpn) == Count(Sym(")"), st.rpn)
  {
    SingleTokens(token);
    if IsOperator(token) {
      OperatorOutput(st, token);
    } else if token == "(" {
      OpenOutput(st);
    } else if token == ")" {
      CloseOutput(st);
    } else {
      DigitsOutput(st, token);
    }
  }

  lemma OpenOutput(st: Shunt)
    ensures Step(st, "(") == Ok(Shunt(st.rpn, st.operators + ["("]))
    ensures Pending(Step(st, "(").value) == Pending(st)
  {
    assert !IsOperator("(");
    TokensAppend(st.operators, ["("]);
    SingleTokens("(");
  }

  lemma DigitsOutput(st: Shunt, token: string)
    requires IsDigits(token)
    ensures var st' := Step(st, token).value;
      && Numbers(st'.rpn) == Numbers(st.rpn) + [DigitsValue(token) as int]
      && Pending(st') == Pending(st)
      && Count(Sym("("), st'.rpn) == Count(Sym("("), st.rpn)
      && Count(Sym(")"), st'.rpn) == Count(Sym(")"), st.rpn)
  {
    var num := Num(DigitsValue(token));
    assert Step(st, token) == Ok(Shunt(st.rpn + [num], st.operators)) by {
      assert !IsOperator(token) && token != "(" && token != ")" by {
        assert token[0] != '(' && token[0] != ')' && !IsOperatorChar(token[0]);
      }
    }
    NumberMoves(st, num);
  }

  /** An int appended to the output. */
  lemma NumberMoves(st: Shunt, num: Item)
    requires num.Num?
    ensures var st' := Shunt(st.rpn + [num], st.operators);
      && Numbers(st'.rpn) == Numbers(st.rpn) + [num.n]
      && Pending(st') == Pending(st)
      && Count(Sym("("), st'.rpn) == Count(Sym("("), st.rpn)
      && Count(Sym(")"), st'.rpn) == Count(Sym(")"), st.rpn)
  {
    ItemsAppend(st.rpn, [num]);
    assert [num][1..] == [];
    assert OperatorsOf(st.rpn) + [] == OperatorsOf(st.rpn);
  }

  lemma OperatorOutput(st: Shunt, token: string)
    requires IsOperator(token)
    ensures var st' := Step(st, token).value;
      && Numbers(st'.rpn) == Numbers(st.rpn)
      && Pending(st') == Pending(st) + multiset{token}
      && Count(Sym("("), st'.rpn) == Count(Sym("("), st.rpn)
      && Count(Sym(")"), st'.rpn) == Count(Sym(")"), st.rpn)
  {
    var ops := st.operators;
    var k := |PopHigher(st, Precedence(token)).operators|;
    assert Step(st, token) == Ok(Shunt(st.rpn + SymsReversed(ops[k..]), ops[..k] + [token])) by {
      PopHigherPops(st, Precedence(token));
    }
    assert Count("(", ops[k..]) == 0 && Count(")", ops[k..]) == 0 by {
      PopHigherKeepsParens(st, token);
      OperatorsOnly(ops[k..]);
    }
    OperatorMoves(st, k, token);
  }

  /** An incoming operator that pops the operators above position `k` and takes their
      place on the stack. */
  lemma OperatorMoves(st: Shunt, k: nat, token: string)
    requires k <= |st.operators| && IsOperator(token)
    requires Count("(", st.operators[k..]) == 0 && Count(")", st.operators[k..]) == 0
    ensures var st' := Shunt(st.rpn + SymsReversed(st.operators[k..]), st.operators[..k] + [token]);
      && Numbers(st'.rpn) == Numbers(st.rpn)
      && Pending(st') == Pending(st) + multiset{token}
      && Count(Sym("("), st'.rpn) == Count(Sym("("), st.rpn)
      && Count(Sym(")"), st'.rpn) == Count(Sym(")"), st.rpn)
  {
    var ops := st.operators;
    TakeDrop(ops, k);
    MovedToOutput(st.rpn, ops[..k], ops[k..]);
    TokensAppend(ops[..k], [token]);
    SingleTokens(token);
  }


  lemma CloseOutput(st: Shunt)
    requires Count(")", st.operators) == 0
    requires PopToParen(st).Ok?
    ensures var st' := PopToParen(st).value;
      && Numbers(st'.rpn) == Numbers(st.rpn)
      && Pending(st') == Pending(st)
      && Count(Sym("("), st'.rpn) == Count(Sym("("), st.rpn)
      && Count(Sym(")"), st'.rpn) == Count(Sym(")"), st.rpn)
  {
    var ops := st.operators;
    PopToParenPops(st);
    var k := |PopToParen(st).value.operators|;
    var upper := ops[k + 1..];
    MovedToOutput(st.rpn, ops[..k], upper);
    ClosePending(st, k);
    CountPositive("(", upper);
    SplitAt(ops, k);
    CountAppend(")", ops[..k], [ops[k]] + upper);
    CountAppend(")", [ops[k]], upper);
  }

  /** Discarding the `(` leaves the operators waiting on the stack unchanged. */
  lemma ClosePending(st: Shunt, k: nat)
    requires k < |st.operators| && st.operators[k] == "("
    ensures OperatorTokens(st.operators) == OperatorTokens(st.operators[..k] + st.operators[k + 1..])
  {
    var ops := st.operators;
    var upper := ops[k + 1..];
    SplitAt(ops, k);
    TokensAppend(ops[..k], [ops[k]] + upper);
    TokensAppend([ops[k]], upper);
    TokensAppend(ops[..k], upper);
    SingleTokens(ops[k]);
    assert !IsOperator(ops[k]);
  }

  /** A successful run is a successful first step followed by a successful run on the
      remaining tokens. */
  lemma RunStep(st: Shunt, tokens: seq<string>)
    requires tokens != [] && Run(st, tokens).Ok?
    ensures Step(st, tokens[0]).Ok?
    ensures Run(st, tokens) == Run(Step(st, tokens[0]).value, tokens[1..])
  {
  }

  /** The first token's share of the digit, operator and parenthesis tokens. */
  lemma TokensCons(tokens: seq<string>)
    requires tokens != []
    ensures NumberTokens(tokens) == NumberTokens([tokens[0]]) + NumberTokens(tokens[1..])
    ensures OperatorTokens(tokens) == OperatorTokens([tokens[0]]) + OperatorTokens(tokens[1..])
    ensures Count("(", tokens) == Count("(", [tokens[0]]) + Count("(", tokens[1..])
    ensures Count(")", tokens) == Count(")", [tokens[0]]) + Count(")", tokens[1..])
  {
    SingleTokens(tokens[0]);
    SingleCounts(tokens[0]);
  }

  /** Over a whole run, the ints of the output are the digit tokens in order, every
      operator token is accounted for once, and no parenthesis reaches the output. */
  lemma {:induction false} RunOutput(st: Shunt, tokens: seq<string>)
    requires Count(")", st.operators) == 0
    requires Run(st, tokens).Ok?
    ensures var st' := Run(st, tokens).value;
      && Count(")", st'.operators) == 0
      && Numbers(st'.rpn) == Numbers(st.rpn) + NumberTokens(tokens)
      && Pending(st') == Pending(st) + multiset(OperatorTokens(tokens))
      && Count(Sym("("), st'.rpn) == Count(Sym("("), st.rpn)
      && Count(Sym(")"), st'.rpn) == Count(Sym(")"), st.rpn)
    decreases |tokens|
  {
    if tokens != [] {
      RunStep(st, tokens);
      var next := Step(st, tokens[0]).value;
      StepOutput(st, tokens[0]);
      StepNoClose(st, tokens[0]);
      RunOutput(next, tokens[1..]);
      TokensCons(tokens);
      AppendAssoc(Numbers(st.rpn), NumberTokens([tokens[0]]), NumberTokens(tokens[1..]));
    } else {
      assert Numbers(st.rpn) + NumberTokens(tokens) == Numbers(st.rpn);
    }
  }

  /** Over a whole run, the open parentheses on the stack are those opened minus those
      closed. */
  lemma {:induction false} RunCount(st: Shunt, tokens: seq<string>)
    requires Run(st, tokens).Ok?
    ensures Count("(", Run(st, tokens).value.operators)
         == Count("(", st.operators) + Count("(", tokens) - Count(")", tokens)
    decreases |tokens|
  {
    if tokens != [] {
      RunStep(st, tokens);
      StepCount(st, tokens[0]);
      RunCount(Step(st, tokens[0]).value, tokens[1..]);
      TokensCons(tokens);
    }
  }

  /** Every `)` finds a `(` still open before it, starting with `open` already open. */
  predicate ClosesMatched(tokens: seq<string>, open: nat)
    decreases |tokens|
  {
    if tokens == [] then true
    else if tokens[0] == "(" then ClosesMatched(tokens[1..], open + 1)
    else if tokens[0] == ")" then open > 0 && ClosesMatched(tokens[1..], open - 1)
    else ClosesMatched(tokens[1..], open)
  }

  /** Every parenthesis is matched. */
  predicate Balanced(tokens: seq<string>)
  {
    ClosesMatched(tokens, 0) && Count("(", tokens) == Count(")", tokens)
  }

  /** On genuine tokens the loop fails exactly when some `)` has no `(` open before it. */
  lemma {:induction false} RunFailsIffUnmatched(st: Shunt, tokens: seq<string>)
    requires AllLexemes(tokens)
    ensures Run(st, tokens).Err? <==> !ClosesMatched(tokens, Count("(", st.operators))
    ensures Run(st, tokens).Err? ==> Run(st, tokens).error == IndexError
    decreases |tokens|
  {
    if tokens != [] {
      var t := tokens[0];
      var open := Count("(", st.operators);
      CountPositive("(", st.operators);
      PopToParenFails(st);
      assert IsLexeme(t);
      assert !IsOperator(t) && t != "(" && t != ")" ==> IsDigits(t) by {
        if !IsDigits(t) {
          assert |t| == 1 && IsSymbolChar(t[0]);
          assert t == [t[0]];
        }
      }
      if Step(st, t).Ok? {
        var next := Step(st, t).value;
        StepCount(st, t);
        assert Count("(", [t]) == (if t == "(" then 1 else 0);
        assert Count(")", [t]) == (if t == ")" then 1 else 0);
        assert AllLexemes(tokens[1..]) by {
          assert forall i :: 0 <= i < |tokens[1..]| ==> tokens[1..][i] == tokens[i + 1];
        }
        RunFailsIffUnmatched(next, tokens[1..]);
      }
    }
  }

  /** `_rpn` fails, with IndexError, exactly on token lists with an unmatched `)`. */
  lemma ToRpnFails(tokens: seq<string>)
    requires AllLexemes(tokens)
    ensures ToRpn(tokens).Err? <==> !ClosesMatched(tokens, 0)
    ensures ToRpn(tokens).Err? ==> ToRpn(tokens).error == IndexError
  {
    RunFailsIffUnmatched(Shunt([], []), tokens);
  }

  /** When `_rpn` succeeds, the ints of the RPN list are the digit tokens in input
      order, each operator token appears exactly once, no `)` appears, and `(` appears
      once per `(` left unclosed. */
  lemma ToRpnOutput(tokens: seq<string>)
    requires ToRpn(tokens).Ok?
    ensures var items := ToRpn(tokens).value;
      && Numbers(items) == NumberTokens(tokens)
      && multiset(OperatorsOf(items)) == multiset(OperatorTokens(tokens))
      && Sym(")") !in items
      && Count(Sym("("), items) == Count("(", tokens) - Count(")", tokens)
  {
    var init := Shunt([], []);
    var st := Run(init, tokens).value;
    assert Pending(init) == multiset{};
    RunOutput(init, tokens);
    RunCount(init, tokens);
    MovedToOutput(st.rpn, [], st.operators);
    assert [] + st.operators == st.operators;
    assert Pending(Shunt(Flush(st), [])) == multiset(OperatorsOf(Flush(st)));
    CountPositive(Sym(")"), Flush(st));
  }

  /** On balanced tokens `_rpn` succeeds and its output holds no parenthesis at all. */
  lemma BalancedRpn(tokens: seq<string>)
    requires AllLexemes(tokens) && Balanced(tokens)
    ensures ToRpn(tokens).Ok?
    ensures Sym("(") !in ToRpn(tokens).value && Sym(")") !in ToRpn(tokens).value
  {
    ToRpnFails(tokens);
    ToRpnOutput(tokens);
    CountPositive(Sym("("), ToRpn(tokens).value);
  }
}
