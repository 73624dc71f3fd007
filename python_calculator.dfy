/** The `Calculator` class of python_support/Calculator.py: it remembers the last
    expression, its RPN list and its value, and recomputes the latter two with the
    loops of `_rpn` and `_eval`. */
module PyCalculator {
  import opened Seqs
  import opened Lexing
  import opened Infix
  import opened PyTokenize
  import opened PyRpn
  import opened PyEval
  import opened PyInfix

  /** What `evaluate` computes for an expression text: the value, or the exception that
      escapes from `_rpn` or `_eval`. */
  function Evaluation(expr: string): Result<Value, Fault>
  {
    match ToRpn(Tokenize(expr))
    case Err(f) => Err(f)
    case Ok(items) => EvalRpn(items)
  }

  class Calculator {
    var expr: string
    var rpn: seq<Item>
    var value: Value

    constructor()
      ensures expr == "" && rpn == [] && value == Int(0)
    {
      expr := "";
      rpn := [];
      value := Int(0);
    }

    /** `evaluate`: records the expression, then the RPN list, then the value, each
        assignment happening only if the computation before it did not raise. */
    method Evaluate(e: string) returns (r: Result<Value, Fault>)
      modifies this
      ensures r == Evaluation(e)
      ensures expr == e
      ensures ToRpn(Tokenize(e)).Ok? ==> rpn == ToRpn(Tokenize(e)).value
      ensures ToRpn(Tokenize(e)).Err? ==> rpn == old(rpn)
      ensures r.Ok? ==> value == r.value
      ensures r.Err? ==> value == old(value)
    {
      expr := e;
      var items := Rpn();
      if items.Err? {
        return Err(items.error);
      }
      rpn := items.value;
      var v := Eval();
      if v.Err? {
        return Err(v.error);
      }
      value := v.value;
      return Ok(value);
    }

    /** `get_value`. */
    method GetValue() returns (v: Value)
      ensures v == value
    {
      return value;
    }

    /** `get_rpn`. */
    method GetRpn() returns (items: seq<Item>)
      ensures items == rpn
    {
      return rpn;
    }

    /** `_rpn`: the shunting-yard loop over the tokens of `expr`, with its two inner
        popping loops and the final drain of the operator stack. */
    method Rpn() returns (r: Result<seq<Item>, Fault>)
      ensures r == ToRpn(Tokenize(expr))
    {
      var tokens := Tokenize(expr);
      var out: seq<Item> := [];
      var operators: seq<string> := [];
      var i := 0;
      while i < |tokens|
        invariant 0 <= i <= |tokens|
        invariant Run(Shunt([], []), tokens) == Run(Shunt(out, operators), tokens[i..])
      {
        var token := tokens[i];
        ghost var before := Shunt(out, operators);
        assert tokens[i..] == [token] + tokens[i + 1..];
        if IsOperator(token) {
          var p := Precedence(token);
          while operators != [] && Precedence(Last(operators)) >= p
            invariant PopHigher(before, p) == PopHigher(Shunt(out, operators), p)
            decreases |operators|
          {
            out := out + [Sym(Last(operators))];
            operators := DropLast(operators);
          }
          operators := operators + [token];
        } else if token == "(" {
          operators := operators + [token];
        } else if token == ")" {
          while operators != [] && Last(operators) != "("
            invariant PopToParen(before) == PopToParen(Shunt(out, operators))
            decreases |operators|
          {
            out := out + [Sym(Last(operators))];
            operators := DropLast(operators);
          }
          if operators == [] {
            return Err(IndexError);
          }
          operators := DropLast(operators);
        } else if IsDigits(token) {
          out := out + [Num(DigitsValue(token))];
        } else {
          return Err(ValueError);
        }
        assert Step(before, token) == Ok(Shunt(out, operators));
        i := i + 1;
      }
      assert Run(Shunt(out, operators), tokens[i..]) == Ok(Shunt(out, operators));
      ghost var last := Shunt(out, operators);
      while operators != []
        invariant Flush(last) == out + SymsReversed(operators)
        decreases |operators|
      {
        AppendAssoc(out, [Sym(Last(operators))], SymsReversed(DropLast(operators)));
        out := out + [Sym(Last(operators))];
        operators := DropLast(operators);
      }
      assert out + [] == out;
      return Ok(out);
    }

    /** `_eval`: the value-stack loop over `rpn`, then the size check on what is left. */
    method Eval() returns (r: Result<Value, Fault>)
      ensures r == EvalRpn(rpn)
    {
      var stack: seq<Value> := [];
      var i := 0;
      while i < |rpn|
        invariant 0 <= i <= |rpn|
        invariant Exec([], rpn) == Exec(stack, rpn[i..])
      {
        var item := rpn[i];
        ghost var before := stack;
        assert rpn[i..] == [item] + rpn[i + 1..];
        if item.Sym? && IsOperator(item.s) {
          if stack == [] {
            return Err(IndexError);
          }
          var right := Last(stack);
          stack := DropLast(stack);
          if stack == [] {
            return Err(IndexError);
          }
          var left := Last(stack);
          stack := DropLast(stack);
          assert stack == before[..|before| - 2];
          var combined := Apply(item.s, left, right);
          if combined.Err? {
            return Err(combined.error);
          }
          stack := stack + [combined.value];
        } else if item.Num? {
          stack := stack + [Int(item.n)];
        } else {
          stack := stack + [Text(item.s)];
        }
        assert ExecItem(before, item) == Ok(stack);
        i := i + 1;
      }
      assert Exec(stack, rpn[i..]) == Ok(stack);
      if |stack| == 1 {
        return Ok(stack[0]);
      }
      return Ok(Int(-1));
    }
  }

  /** After `evaluate`, the getters return what it computed. */
  method EvaluateThenGet(c: Calculator, e: string) returns (r: Result<Value, Fault>, v: Value, items: seq<Item>)
    modifies c
    ensures r == Evaluation(e)
    ensures r.Ok? ==> v == r.value && items == ToRpn(Tokenize(e)).value
  {
    r := c.Evaluate(e);
    v := c.GetValue();
    items := c.GetRpn();
  }

  /** On the text of any expression, `evaluate` returns the expression's value under
      Python's floor division and modulo, or ZeroDivisionError when some divisor is
      zero. */
  lemma EvaluateRender(e: Expr)
    ensures Evaluation(Render(e)) ==
      match EvalFloor(e)
      case Err(f) => Err(f)
      case Ok(v) => Ok(Int(v))
  {
    PipelineRender(e);
  }

  /** Any text whose tokens are those of the minimally parenthesized expression `e`,
      however it is spaced or written with unary minus: `_rpn` gives the postfix
      order of `e` and `evaluate` its value under floor division. */
  lemma EvaluateTokens(expr: string, e: Expr)
    requires Tokenize(expr) == Print(e)
    ensures ToRpn(Tokenize(expr)) == Ok(PostfixItems(e))
    ensures Evaluation(expr) ==
      match EvalFloor(e)
      case Err(f) => Err(f)
      case Ok(v) => Ok(Int(v))
  {
    ToRpnPrint(e);
    EvalPostfix(e);
  }

  /** `_rpn` raises IndexError exactly on text whose tokens have a `)` with no `(` open
      before it, and otherwise produces every digit token's value in order and every
      operator token exactly once. */
  lemma RpnOfText(expr: string)
    ensures ToRpn(Tokenize(expr)).Err? <==> !ClosesMatched(Tokenize(expr), 0)
    ensures ToRpn(Tokenize(expr)).Err? ==> ToRpn(Tokenize(expr)).error == IndexError
    ensures ToRpn(Tokenize(expr)).Ok? ==>
      Numbers(ToRpn(Tokenize(expr)).value) == NumberTokens(Tokenize(expr))
      && multiset(OperatorsOf(ToRpn(Tokenize(expr)).value)) == multiset(OperatorTokens(Tokenize(expr)))
  {
    ToRpnFails(Tokenize(expr));
    if ToRpn(Tokenize(expr)).Ok? {
      ToRpnOutput(Tokenize(expr));
    }
  }
}
