/** `get_rpn` in src/main.rs: the shunting-yard conversion of the token list into a
    list of token texts in postfix order, described one token at a time. Unlike the
    Python version it never fails: a `)` with no `(` open pops the whole operator stack
    and the final pop of the missing `(` does nothing. The loops that carry it out are
    `RsMain.GetRpn`. */
module RsRpn {
  import opened Seqs
  import opened Lexing

  /** The tokens of the first match arm: the five operators. */
  predicate IsArith(t: string)
  {
    t == "+" || t == "-" || t == "*" || t == "/" || t == "%"
  }

  /** The nested `precedence`: 1 for `+ -`, 2 for `* / %`, 0 for everything else (the
      only other entry the stack ever holds is `(`). */
  function Precedence(op: string): int
  {
    if op == "+" || op == "-" then 1
    else if op == "*" || op == "/" || op == "%" then 2
    else 0
  }

  /** `+ -` rank 1, `* / %` rank 2, and every other text ranks 0: exactly the
      operators rank at 1 or above. */
  lemma PrecedenceRanks(op: string)
    ensures Precedence(op) == 1 <==> op == "+" || op == "-"
    ensures Precedence(op) == 2 <==> op == "*" || op == "/" || op == "%"
    ensures !IsArith(op) ==> Precedence(op) == 0
    ensures IsArith(op) <==> Precedence(op) >= 1
    ensures Precedence(op) <= 2
  {
  }

  /** An operator is a one-character text made of an operator character. */
  lemma IsArithChar(t: string)
    ensures IsArith(t) <==> |t| == 1 && IsOperatorChar(t[0])
  {
    if |t| == 1 && IsOperatorChar(t[0]) {
      assert t == [t[0]];
    }
  }

  /** The two vectors `get_rpn` builds: `operands`, the output, and `operators`, the
      stack (top last). */
  datatype Shunt = Shunt(operands: seq<string>, operators: seq<string>)

  /** The loop for an incoming operator of rank `p`: while the stack is non-empty and
      its top ranks at least `p`, pop the top onto the output. */
  function PopHigher(st: Shunt, p: int): Shunt
    decreases |st.operators|
  {
    if st.operators != [] && Precedence(Last(st.operators)) >= p then
      PopHigher(Shunt(st.operands + [Last(st.operators)], DropLast(st.operators)), p)
    else
      st
  }

  /** The arm for `)`: pop onto the output until the top is `(` or the stack is empty,
      then pop once more, which discards the `(` or, on an empty stack, does nothing. */
  function PopToParen(st: Shunt): Shunt
    decreases |st.operators|
  {
    if st.operators == [] then st
    else if Last(st.operators) == "(" then Shunt(st.operands, DropLast(st.operators))
    else PopToParen(Shunt(st.operands + [Last(st.operators)], DropLast(st.operators)))
  }

  /** One pass of `for token in tokens`: anything that is neither an operator nor a
      parenthesis goes straight to the output. */
  function Step(st: Shunt, token: string): Shunt
  {
    if IsArith(token) then
      var popped := PopHigher(st, Precedence(token));
      Shunt(popped.operands, popped.operators + [token])
    else if token == "(" then Shunt(st.operands, st.operators + [token])
    else if token == ")" then PopToParen(st)
    else Shunt(st.operands + [token], st.operators)
  }

  /** The whole `for` loop. */
  function Run(st: Shunt, tokens: seq<string>): Shunt
    decreases |tokens|
  {
    if tokens == [] then st else Run(Step(st, tokens[0]), tokens[1..])
  }

  /** The final loop that pops every remaining operator onto the output. */
  function Flush(st: Shunt): seq<string>
  {
    st.operands + Reversed(st.operators)
  }

  /** `get_rpn` on a token list. */
  function ToRpn(tokens: seq<string>): seq<string>
  {
    Flush(Run(Shunt([], []), tokens))
  }

  /** The `)` arm stops at the topmost `(` when there is one: it moves the entries
      above it to the output, top first, and discards it. */
  lemma {:induction false} PopToParenMatched(operands: seq<string>, lower: seq<string>, upper: seq<string>)
    requires "(" !in upper
    ensures PopToParen(Shunt(operands, lower + ["("] + upper)) == Shunt(operands + Reversed(upper), lower)
    decreases |upper|
  {
    var ops := lower + ["("] + upper;
    if upper == [] {
      assert ops == lower + ["("];
      assert Last(ops) == "(" && DropLast(ops) == lower;
      assert operands + Reversed(upper) == operands;
    } else {
      var x, d := Last(upper), DropLast(upper);
      assert Last(ops) == x && DropLast(ops) == lower + ["("] + d;
      assert x in upper;
      assert "(" !in d by { assert forall i :: 0 <= i < |d| ==> d[i] == upper[i]; }
      PopToParenMatched(operands + [x], lower, d);
      assert Reversed(upper) == [x] + Reversed(d);
      assert operands + [x] + Reversed(d) == operands + Reversed(upper);
    }
  }

  /** With no `(` on the stack, a `)` does not fail: it empties the whole stack onto
      the output, top first. */
  lemma {:induction false} PopToParenUnmatched(st: Shunt)
    requires "(" !in st.operators
    ensures PopToParen(st) == Shunt(st.operands + Reversed(st.operators), [])
    decreases |st.operators|
  {
    var ops := st.operators;
    if ops == [] {
      assert st.operands + Reversed(ops) == st.operands;
    } else {
      var x, d := Last(ops), DropLast(ops);
      assert x in ops;
      assert "(" !in d by { assert forall i :: 0 <= i < |d| ==> d[i] == ops[i]; }
      PopToParenUnmatched(Shunt(st.operands + [x], d));
      assert Reversed(ops) == [x] + Reversed(d);
      assert st.operands + [x] + Reversed(d) == st.operands + Reversed(ops);
    }
  }

  /** Running over two token lists in a row is running over their concatenation. */
  lemma {:induction false} RunAppend(st: Shunt, a: seq<string>, b: seq<string>)
    ensures Run(st, a + b) == Run(Run(st, a), b)
    decreases |a|
  {
    ConsAppend(a, b);
    if a != [] {
      RunAppend(Step(st, a[0]), a[1..], b);
    }
  }

  /** Nothing is ever taken back from the output: each token only appends to it. */
  lemma StepExtends(st: Shunt, token: string)
    ensures |st.operands| <= |Step(st, token).operands|
    ensures Step(st, token).operands[..|st.operands|] == st.operands
  {
    if IsArith(token) {
      PopHigherExtends(st, Precedence(token));
    } else if token == ")" {
      PopToParenExtends(st);
    }
  }

  lemma {:induction false} PopHigherExtends(st: Shunt, p: int)
    ensures |st.operands| <= |PopHigher(st, p).operands|
    ensures PopHigher(st, p).operands[..|st.operands|] == st.operands
    decreases |st.operators|
  {
    if st.operators != [] && Precedence(Last(st.operators)) >= p {
      var next := Shunt(st.operands + [Last(st.operators)], DropLast(st.operators));
      PopHigherExtends(next, p);
      PrefixOfPrefix(PopHigher(next, p).operands, next.operands, st.operands);
    }
  }

  lemma {:induction false} PopToParenExtends(st: Shunt)
    ensures |st.operands| <= |PopToParen(st).operands|
    ensures PopToParen(st).operands[..|st.operands|] == st.operands
    decreases |st.operators|
  {
    if st.operators != [] && Last(st.operators) != "(" {
      var next := Shunt(st.operands + [Last(st.operators)], DropLast(st.operators));
      PopToParenExtends(next);
      PrefixOfPrefix(PopToParen(next).operands, next.operands, st.operands);
    }
  }

  /** A prefix of a prefix is a prefix. */
  lemma PrefixOfPrefix(c: seq<string>, b: seq<string>, a: seq<string>)
    requires |b| <= |c| && c[..|b|] == b
    requires |a| <= |b| && b[..|a|] == a
    ensures c[..|a|] == a
  {
    assert forall i :: 0 <= i < |a| ==> c[i] == b[i];
  }

  // ---------------------------------------------------------------------------
  // What reaches the output

  /** Texts that are neither operators nor parentheses: the operands, which the last
      match arm sends straight to the output. */
  predicate IsOperand(t: string)
  {
    !IsArith(t) && t != "(" && t != ")"
  }

  /** The entries of `ts` that satisfy `p`, in order. */
  function Filter(ts: seq<string>, p: string -> bool): seq<string>
  {
    if ts == [] then [] else (if p(ts[0]) then [ts[0]] else []) + Filter(ts[1..], p)
  }

  lemma {:induction false} FilterAppend(a: seq<string>, b: seq<string>, p: string -> bool)
    ensures Filter(a + b, p) == Filter(a, p) + Filter(b, p)
  {
    ConsAppend(a, b);
    if a != [] {
      FilterAppend(a[1..], b, p);
    }
  }

  /** What the stack may hold: operators and `(`. */
  predicate StackEntries(ops: seq<string>)
  {
    forall i :: 0 <= i < |ops| ==> IsArith(ops[i]) || ops[i] == "("
  }

  /** The operators accounted for: those in the output and those still on the stack. */
  function Pending(st: Shunt): multiset<string>
  {
    multiset(Filter(st.operands, IsArith)) + multiset(Filter(st.operators, IsArith))
  }

  /** The invariant of the loop: the stack holds operators and `(` only, and no `)`
      has reached the output. */
  predicate Tidy(st: Shunt)
  {
    StackEntries(st.operators) && ")" !in st.operands
  }

  /** Moving the top of the stack to the output adds no operand, keeps every operator
      accounted for once, and adds no `)`. */
  lemma MoveTop(st: Shunt)
    requires st.operators != [] && Tidy(st)
    ensures var next := Shunt(st.operands + [Last(st.operators)], DropLast(st.operators));
      && Tidy(next)
      && Filter(next.operands, IsOperand) == Filter(st.operands, IsOperand)
      && Pending(next) == Pending(st)
  {
    var ops, x := st.operators, Last(st.operators);
    assert IsArith(x) || x == "(" by { assert x == ops[|ops| - 1]; }
    assert x != ")";
    assert ops == DropLast(ops) + [x];
    MoveFilters(st.operands, DropLast(ops), x);
    assert StackEntries(DropLast(ops)) by {
      assert forall i :: 0 <= i < |ops| - 1 ==> DropLast(ops)[i] == ops[i];
    }
  }

  /** The filters of one non-operand entry moved from the stack `lower + [x]` to the
      output. */
  lemma MoveFilters(out: seq<string>, lower: seq<string>, x: string)
    requires IsArith(x) || x == "("
    ensures Filter(out + [x], IsOperand) == Filter(out, IsOperand)
    ensures multiset(Filter(out + [x], IsArith)) + multiset(Filter(lower, IsArith))
         == multiset(Filter(out, IsArith)) + multiset(Filter(lower + [x], IsArith))
  {
    FilterAppend(out, [x], IsOperand);
    FilterAppend(out, [x], IsArith);
    FilterAppend(lower, [x], IsArith);
    assert [x][1..] == [];
    assert Filter(out, IsOperand) + [] == Filter(out, IsOperand);
  }

  lemma {:induction false} PopHigherKeeps(st: Shunt, p: int)
    requires Tidy(st)
    ensures Tidy(PopHigher(st, p))
    ensures Filter(PopHigher(st, p).operands, IsOperand) == Filter(st.operands, IsOperand)
    ensures Pending(PopHigher(st, p)) == Pending(st)
    decreases |st.operators|
  {
    if st.operators != [] && Precedence(Last(st.operators)) >= p {
      MoveTop(st);
      PopHigherKeeps(Shunt(st.operands + [Last(st.operators)], DropLast(st.operators)), p);
    }
  }

  lemma {:induction false} PopToParenKeeps(st: Shunt)
    requires Tidy(st)
    ensures Tidy(PopToParen(st))
    ensures Filter(PopToParen(st).operands, IsOperand) == Filter(st.operands, IsOperand)
    ensures Pending(PopToParen(st)) == Pending(st)
    decreases |st.operators|
  {
    var ops := st.operators;
    if ops != [] && Last(ops) != "(" {
      MoveTop(st);
      PopToParenKeeps(Shunt(st.operands + [Last(ops)], DropLast(ops)));
    } else if ops != [] {
      assert ops == DropLast(ops) + ["("];
      FilterAppend(DropLast(ops), ["("], IsArith);
      assert !IsArith("(") && ["("][1..] == [];
      assert Filter(DropLast(ops), IsArith) + [] == Filter(DropLast(ops), IsArith);
      assert StackEntries(DropLast(ops)) by {
        assert forall i :: 0 <= i < |ops| - 1 ==> DropLast(ops)[i] == ops[i];
      }
    }
  }

  /** Pushing a token onto the stack. */
  lemma PushKeeps(st: Shunt, token: string)
    requires Tidy(st) && (IsArith(token) || token == "(")
    ensures Tidy(Shunt(st.operands, st.operators + [token]))
    ensures Pending(Shunt(st.operands, st.operators + [token])) == Pending(st) + multiset(Filter([token], IsArith))
  {
    FilterAppend(st.operators, [token], IsArith);
  }

  /** One token: an operand joins the output after the earlier operands, an operator
      joins those accounted for, and the loop invariant is kept. */
  lemma StepKeeps(st: Shunt, token: string)
    requires Tidy(st)
    ensures Tidy(Step(st, token))
    ensures Filter(Step(st, token).operands, IsOperand) == Filter(st.operands, IsOperand) + Filter([token], IsOperand)
    ensures Pending(Step(st, token)) == Pending(st) + multiset(Filter([token], IsArith))
  {
    assert [token][1..] == [];
    if IsArith(token) {
      PopHigherKeeps(st, Precedence(token));
      PushKeeps(PopHigher(st, Precedence(token)), token);
    } else if token == "(" {
      PushKeeps(st, token);
    } else if token == ")" {
      PopToParenKeeps(st);
    } else {
      FilterAppend(st.operands, [token], IsOperand);
      FilterAppend(st.operands, [token], IsArith);
    }
  }

  lemma {:induction false} RunKeeps(st: Shunt, tokens: seq<string>)
    requires Tidy(st)
    ensures Tidy(Run(st, tokens))
    ensures Filter(Run(st, tokens).operands, IsOperand) == Filter(st.operands, IsOperand) + Filter(tokens, IsOperand)
    ensures Pending(Run(st, tokens)) == Pending(st) + multiset(Filter(tokens, IsArith))
    decreases |tokens|
  {
    if tokens == [] {
      assert Filter(st.operands, IsOperand) + [] == Filter(st.operands, IsOperand);
    } else {
      var t, rest := tokens[0], tokens[1..];
      var next := Step(st, t);
      StepKeeps(st, t);
      RunKeeps(next, rest);
      assert Run(st, tokens) == Run(next, rest);
      TokensSplit(tokens);
      AppendAssoc(Filter(st.operands, IsOperand), Filter([t], IsOperand), Filter(rest, IsOperand));
    }
  }

  /** The first token's share of the operands and operators. */
  lemma TokensSplit(tokens: seq<string>)
    requires tokens != []
    ensures Filter(tokens, IsOperand) == Filter([tokens[0]], IsOperand) + Filter(tokens[1..], IsOperand)
    ensures multiset(Filter(tokens, IsArith)) == multiset(Filter([tokens[0]], IsArith)) + multiset(Filter(tokens[1..], IsArith))
  {
    assert tokens == [tokens[0]] + tokens[1..];
    FilterAppend([tokens[0]], tokens[1..], IsOperand);
    FilterAppend([tokens[0]], tokens[1..], IsArith);
  }

  /** The final drain moves the stack to the output under the same accounting. */
  lemma {:induction false} FlushKeeps(st: Shunt)
    requires Tidy(st)
    ensures Filter(Flush(st), IsOperand) == Filter(st.operands, IsOperand)
    ensures multiset(Filter(Flush(st), IsArith)) == Pending(st)
    ensures ")" !in Flush(st)
    decreases |st.operators|
  {
    var ops := st.operators;
    if ops == [] {
      assert Flush(st) == st.operands + [] == st.operands;
      assert Filter(ops, IsArith) == [];
    } else {
      var x, d := Last(ops), DropLast(ops);
      var next := Shunt(st.operands + [x], d);
      MoveTop(st);
      FlushKeeps(next);
      assert Reversed(ops) == [x] + Reversed(d);
      AppendAssoc(st.operands, [x], Reversed(d));
    }
  }

  /** `get_rpn` never fails and loses or invents nothing: its output holds the operands
      of the input in input order, every operator of the input exactly once, and no
      `)`. */
  lemma ToRpnContents(tokens: seq<string>)
    ensures Filter(ToRpn(tokens), IsOperand) == Filter(tokens, IsOperand)
    ensures multiset(Filter(ToRpn(tokens), IsArith)) == multiset(Filter(tokens, IsArith))
    ensures ")" !in ToRpn(tokens)
  {
    var init := Shunt([], []);
    RunKeeps(init, tokens);
    FlushKeeps(Run(init, tokens));
  }
}
