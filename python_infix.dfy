/** The Python calculator on well-formed expressions: on the text of any expression
    printed with minimal parentheses, tokenizing, the shunting-yard conversion and the
    stack evaluation together compute the value the expression denotes under Python's
    floor division, with ZeroDivisionError where a divisor is zero. */
module PyInfix {
  import opened Seqs
  import opened Arith
  import opened Lexing
  import opened Infix
  import opened PyTokenize
  import opened PyRpn
  import opened PyEval

  /** A binary operator on Python ints. */
  function FloorApply(op: BinOp, a: int, b: int): Result<int, Fault>
  {
    match op
    case Add => Ok(a + b)
    case Sub => Ok(a - b)
    case Mul => Ok(a * b)
    case Div => if b == 0 then Err(ZeroDivisionError) else Ok(FloorDiv(a, b))
    case Mod => if b == 0 then Err(ZeroDivisionError) else Ok(FloorMod(a, b))
  }

  /** The value of an expression, evaluating the left operand before the right one. */
  function EvalFloor(e: Expr): Result<int, Fault>
  {
    match e
    case Lit(n) => Ok(n)
    case Bin(op, l, r) =>
      match EvalFloor(l)
      case Err(f) => Err(f)
      case Ok(a) =>
        match EvalFloor(r)
        case Err(f) => Err(f)
        case Ok(b) => FloorApply(op, a, b)
  }

  /** The RPN list of an expression, as `_rpn` represents it. */
  function PostfixItems(e: Expr): seq<Item>
  {
    match e
    case Lit(n) => [Num(n)]
    case Bin(op, l, r) => PostfixItems(l) + PostfixItems(r) + [Sym(Symbol(op))]
  }

  /** The printed operator is an operator token of the expected rank. */
  lemma SymbolRank(op: BinOp)
    ensures IsOperator(Symbol(op)) && Precedence(Symbol(op)) == Prec(op)
  {
  }

  /** On two ints the stack operators agree with the expression operators. */
  lemma ApplyAgrees(op: BinOp, a: int, b: int)
    ensures Apply(Symbol(op), Int(a), Int(b)) ==
      match FloorApply(op, a, b)
      case Err(f) => Err(f)
      case Ok(v) => Ok(Int(v))
  {
  }

  // ---------------------------------------------------------------------------
  // Evaluation

  /** Executing the RPN list of `e` pushes the value of `e`, or stops with its error. */
  lemma {:induction false} ExecPostfix(stack: seq<Value>, e: Expr)
    ensures Exec(stack, PostfixItems(e)) ==
      match EvalFloor(e)
      case Err(f) => Err(f)
      case Ok(v) => Ok(stack + [Int(v)])
    decreases e
  {
    match e
    case Lit(n) =>
      assert Exec(stack + [Int(n)], []) == Ok(stack + [Int(n)]);
    case Bin(op, l, r) =>
      var pl, pr, sym := PostfixItems(l), PostfixItems(r), [Sym(Symbol(op))];
      ExecAppend(stack, pl + pr, sym);
      ExecAppend(stack, pl, pr);
      ExecPostfix(stack, l);
      if EvalFloor(l).Ok? {
        var a := EvalFloor(l).value;
        ExecPostfix(stack + [Int(a)], r);
        if EvalFloor(r).Ok? {
          var b := EvalFloor(r).value;
          var two := stack + [Int(a)] + [Int(b)];
          assert two == stack + [Int(a), Int(b)];
          SymbolRank(op);
          OperandOrder(stack, a, b, Symbol(op));
          ApplyAgrees(op, a, b);
          match ExecItem(two, Sym(Symbol(op)))
          case Err(f) =>
          case Ok(next) =>
            assert Exec(two, sym) == Exec(next, []);
        }
      }
  }

  /** `_eval` returns the value of `e` from its RPN list. */
  lemma EvalPostfix(e: Expr)
    ensures EvalRpn(PostfixItems(e)) ==
      match EvalFloor(e)
      case Err(f) => Err(f)
      case Ok(v) => Ok(Int(v))
  {
    ExecPostfix([], e);
  }

  // ---------------------------------------------------------------------------
  // Conversion

  /** Every entry of `ts` ranks at least `p`. */
  predicate RankAtLeast(ts: seq<string>, p: int)
  {
    forall i :: 0 <= i < |ts| ==> Precedence(ts[i]) >= p
  }

  /** An incoming operator of rank `p` pops an upper part of the stack that all ranks at
      least `p`, and stops at an entry ranking below `p`. */
  lemma {:induction false} PopHigherAll(rpn: seq<Item>, ops: seq<string>, upper: seq<string>, p: int)
    requires RankAtLeast(upper, p)
    requires ops == [] || Precedence(Last(ops)) < p
    ensures PopHigher(Shunt(rpn, ops + upper), p) == Shunt(rpn + SymsReversed(upper), ops)
    decreases |upper|
  {
    SnocAppend(ops, upper);
    if upper != [] {
      var x, d := Last(upper), DropLast(upper);
      assert RankAtLeast(d, p);
      PopHigherAll(rpn + [Sym(x)], ops, d, p);
      AppendAssoc(rpn, [Sym(x)], SymsReversed(d));
    }
  }

  /** A `)` pops an upper part of operators to the output and discards the `(` below it. */
  lemma {:induction false} PopToParenAll(rpn: seq<Item>, ops: seq<string>, upper: seq<string>)
    requires RankAtLeast(upper, 1)
    ensures PopToParen(Shunt(rpn, ops + ["("] + upper)) == Ok(Shunt(rpn + SymsReversed(upper), ops))
    decreases |upper|
  {
    var below := ops + ["("];
    SnocAppend(below, upper);
    if upper == [] {
      SnocAppend(ops, ["("]);
      assert Last(["("]) == "(" && DropLast(["("]) == [];
      assert ops + [] == ops && rpn + SymsReversed(upper) == rpn;
      assert PopToParen(Shunt(rpn, below)) == Ok(Shunt(rpn, ops));
    } else {
      var x, d := Last(upper), DropLast(upper);
      assert x != "(" by {
        assert Precedence(x) >= 1;
      }
      assert RankAtLeast(d, 1);
      PopToParenAll(rpn + [Sym(x)], ops, d);
      AppendAssoc(rpn, [Sym(x)], SymsReversed(d));
    }
  }

  /** The operand `x` of some operator, in parentheses or not. */
  function Operand(x: Expr, paren: bool): seq<string>
  {
    if paren then Parenthesized(Print(x)) else Print(x)
  }

  /** The conversion of a printed expression leaves its RPN list split between the output
      (a prefix `out`) and the top of the stack (`pending`, all ranking at least the
      expression's own operator), provided the stack below ranks lower than that. */
  lemma {:induction false} ShuntPrint(st: Shunt, e: Expr) returns (out: seq<Item>, pending: seq<string>)
    requires e.Bin? ==> st.operators == [] || Precedence(Last(st.operators)) < Prec(e.op)
    ensures Run(st, Print(e)) == Ok(Shunt(st.rpn + out, st.operators + pending))
    ensures out + SymsReversed(pending) == PostfixItems(e)
    ensures e.Lit? ==> pending == []
    ensures e.Bin? ==> RankAtLeast(pending, Prec(e.op))
    decreases e, 2
  {
    match e
    case Lit(n) =>
      out, pending := [Num(n)], [];
      ShuntLiteral(st, n);
      assert st.operators + [] == st.operators;
    case Bin(_, _, _) =>
      out, pending := ShuntBin(st, e);
  }

  /** ShuntPrint for a binary expression: the left operand's RPN list and the right
      operand's output reach the output, and the operator stays pending beneath what
      the right operand left pending. */
  lemma {:induction false} ShuntBin(st: Shunt, e: Expr) returns (out: seq<Item>, pending: seq<string>)
    requires e.Bin?
    requires st.operators == [] || Precedence(Last(st.operators)) < Prec(e.op)
    ensures Run(st, Print(e)) == Ok(Shunt(st.rpn + out, st.operators + pending))
    ensures out + SymsReversed(pending) == PostfixItems(e)
    ensures RankAtLeast(pending, Prec(e.op))
    decreases e, 1
  {
    var op, l, r := e.op, e.left, e.right;
    var sym := Symbol(op);
    LeftAndOperator(st, e);
    var st2 := Shunt(st.rpn + PostfixItems(l), st.operators + [sym]);
    SymbolRank(op);
    var outR, pendR := OperandShunt(st2, r, ParenRight(r, op));
    out, pending := PostfixItems(l) + outR, [sym] + pendR;
    assert Shunt(st2.rpn + outR, st2.operators + pendR) == Shunt(st.rpn + out, st.operators + pending) by {
      AppendAssoc(st.rpn, PostfixItems(l), outR);
      AppendAssoc(st.operators, [sym], pendR);
    }
    assert Run(st, Print(e)) == Ok(Shunt(st.rpn + out, st.operators + pending)) by {
      var gl, gr := Operand(l, ParenLeft(l, op)), Operand(r, ParenRight(r, op));
      assert Print(e) == gl + [sym] + gr;
      RunAppend(st, gl + [sym], gr);
    }
    BinAssemble(PostfixItems(l), outR, pendR, sym);
    assert RankAtLeast(pending, Prec(op)) by {
      assert RankAtLeast(pendR, Prec(op));
    }
  }

  /** The left operand of a binary expression, then its operator: the operator pops
      whatever the operand left pending, so the output gains the operand's whole RPN
      list and the operator takes its place on the stack. */
  lemma {:induction false} LeftAndOperator(st: Shunt, e: Expr)
    requires e.Bin?
    requires st.operators == [] || Precedence(Last(st.operators)) < Prec(e.op)
    ensures Run(st, Operand(e.left, ParenLeft(e.left, e.op)) + [Symbol(e.op)])
      == Ok(Shunt(st.rpn + PostfixItems(e.left), st.operators + [Symbol(e.op)]))
    decreases e, 0
  {
    var l, op := e.left, e.op;
    var gl := Operand(l, ParenLeft(l, op));
    var outL, pendL := OperandShunt(st, l, ParenLeft(l, op));
    assert RankAtLeast(pendL, Prec(op));
    OperatorAfterLeft(st.rpn + outL, st.operators, pendL, op);
    RunAppend(st, gl, [Symbol(op)]);
    AppendAssoc(st.rpn, outL, SymsReversed(pendL));
  }

  /** A literal goes straight to the output. */
  lemma ShuntLiteral(st: Shunt, n: nat)
    ensures Run(st, Print(Lit(n))) == Ok(Shunt(st.rpn + [Num(n)], st.operators))
  {
    var t := NatToDigits(n);
    assert !IsOperator(t) && t != "(" && t != ")" by {
      assert t[0] in "0123456789";
    }
    assert Print(Lit(n)) == [t];
    assert Step(st, t) == Ok(Shunt(st.rpn + [Num(n)], st.operators));
    assert Run(st, [t]) == Run(Shunt(st.rpn + [Num(n)], st.operators), []);
  }

  /** The operator of a binary expression pops what its left operand left pending and
      takes its place on the stack. */
  lemma OperatorAfterLeft(rpn: seq<Item>, ops: seq<string>, pendL: seq<string>, op: BinOp)
    requires RankAtLeast(pendL, Prec(op))
    requires ops == [] || Precedence(Last(ops)) < Prec(op)
    ensures Run(Shunt(rpn, ops + pendL), [Symbol(op)]) == Ok(Shunt(rpn + SymsReversed(pendL), ops + [Symbol(op)]))
  {
    SymbolRank(op);
    PopHigherAll(rpn, ops, pendL, Prec(op));
    var next := Shunt(rpn + SymsReversed(pendL), ops + [Symbol(op)]);
    assert Step(Shunt(rpn, ops + pendL), Symbol(op)) == Ok(next);
    assert Run(Shunt(rpn, ops + pendL), [Symbol(op)]) == Run(next, []);
  }

  /** The RPN list of a binary expression, split as the conversion leaves it. */
  lemma BinAssemble(left: seq<Item>, outR: seq<Item>, pendR: seq<string>, sym: string)
    ensures (left + outR) + SymsReversed([sym] + pendR) == left + (outR + SymsReversed(pendR)) + [Sym(sym)]
  {
    SymsReversedAppend([sym], pendR);
    assert SymsReversed([sym]) == [Sym(sym)];
    var c := SymsReversed(pendR);
    AppendAssoc(left, outR, c + [Sym(sym)]);
    AppendAssoc(outR, c, [Sym(sym)]);
    AppendAssoc(left, outR + c, [Sym(sym)]);
  }

  /** The conversion of one operand: in parentheses, it moves the operand's whole RPN
      list to the output and leaves the stack as it was. */
  lemma {:induction false} OperandShunt(st: Shunt, x: Expr, paren: bool) returns (out: seq<Item>, pending: seq<string>)
    requires !paren && x.Bin? ==> st.operators == [] || Precedence(Last(st.operators)) < Prec(x.op)
    ensures Run(st, Operand(x, paren)) == Ok(Shunt(st.rpn + out, st.operators + pending))
    ensures out + SymsReversed(pending) == PostfixItems(x)
    ensures paren || x.Lit? ==> pending == []
    ensures x.Bin? ==> RankAtLeast(pending, Prec(x.op))
    decreases x, 3
  {
    if !paren {
      out, pending := ShuntPrint(st, x);
    } else {
      var inner := Shunt(st.rpn, st.operators + ["("]);
      RunAppend(st, ["("] + Print(x), [")"]);
      RunAppend(st, ["("], Print(x));
      assert Run(st, ["("]) == Ok(inner);
      var o, q := ShuntPrint(inner, x);
      assert RankAtLeast(q, 1);
      var s3 := Shunt(st.rpn + o, st.operators + ["("] + q);
      PopToParenAll(st.rpn + o, st.operators, q);
      out, pending := o + SymsReversed(q), [];
      AppendAssoc(st.rpn, o, SymsReversed(q));
      assert Run(s3, [")"]) == Ok(Shunt(st.rpn + out, st.operators)) by {
        assert !IsOperator(")") && ")" != "(";
        assert Step(s3, ")") == PopToParen(s3);
      }
      assert st.operators + [] == st.operators;
    }
  }

  /** `_rpn` turns the printed tokens of `e` into the RPN list of `e`. */
  lemma ToRpnPrint(e: Expr)
    ensures ToRpn(Print(e)) == Ok(PostfixItems(e))
  {
    var out, pending := ShuntPrint(Shunt([], []), e);
    assert [] + out == out && [] + pending == pending;
  }

  // ---------------------------------------------------------------------------
  // Tokenizing

  /** The rendered text of `e` needs no unary-minus rewriting, and the tokenizer gives
      back exactly the printed tokens. */
  lemma TokenizeRender(e: Expr)
    ensures RewriteUnary(Render(e)) == Render(e)
    ensures Tokenize(Render(e)) == Print(e)
  {
    var ts := Print(e);
    PrintShape(e);
    assert ts[0] != [] by {
      assert IsLexeme(ts[0]);
    }
    var s := Render(e);
    assert s[0] == ts[0][0];
    assert !IsSpace(s[0]) && s[0] != '-' by {
      if ts[0] == "(" {
      } else {
        assert IsDigit(ts[0][0]);
      }
    }
    assert Strip(s) == [s[0]] + Strip(s[1..]);
    NoLeadingMinus(s);
    assert forall i :: 0 <= i < |ts| - 1 ==> !(ts[i] == "(" && ts[i + 1] == "-") by {
      forall i | 0 <= i < |ts| - 1 ensures !(ts[i] == "(" && ts[i + 1] == "-") {
        assert Adjacent(ts[i], ts[i + 1]);
      }
    }
    RewriteParenConcat(ts);
    LexRender(e);
  }

  /** The whole pipeline of `Calculator.evaluate` on the rendered text of `e`. */
  lemma PipelineRender(e: Expr)
    ensures ToRpn(Tokenize(Render(e))) == Ok(PostfixItems(e))
    ensures EvalRpn(PostfixItems(e)) ==
      match EvalFloor(e)
      case Err(f) => Err(f)
      case Ok(v) => Ok(Int(v))
  {
    TokenizeRender(e);
    ToRpnPrint(e);
    EvalPostfix(e);
  }
}
