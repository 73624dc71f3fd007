/** The three functions of src/main.rs as the loops they are: `tokenize` walks the
    text match by match, `get_rpn` runs the shunting-yard loops over two vectors, and
    `evaluate` runs the value stack. Each is proved to compute the function that
    describes it; a panic is returned as an `Err`. */
module RsMain {
  import opened Seqs
  import opened Arith
  import opened Lexing
  import opened RsRpn
  import opened RsEval

  /** `tokenize`: the successive matches of the token pattern, left to right. */
  method Tokenize(s: string) returns (tokens: seq<string>)
    ensures tokens == Lex(s)
  {
    tokens := [];
    var i := 0;
    while i < |s|
      invariant 0 <= i <= |s|
      invariant Lex(s) == tokens + Lex(s[i..])
    {
      if IsDigit(s[i]) {
        var j := i + 1;
        while j < |s| && IsDigit(s[j])
          invariant i < j <= |s|
          invariant forall k :: i <= k < j ==> IsDigit(s[k])
        {
          j := j + 1;
        }
        assert Lex(s[i..]) == [s[i..j]] + Lex(s[j..]) by {
          assert s[i..] == s[i..j] + s[j..];
          LexDigitRun(s[i..j], s[j..]);
        }
        AppendAssoc(tokens, [s[i..j]], Lex(s[j..]));
        tokens := tokens + [s[i..j]];
        i := j;
      } else if IsSymbolChar(s[i]) {
        assert Lex(s[i..]) == [[s[i]]] + Lex(s[i + 1..]) by {
          assert s[i..] == [s[i]] + s[i + 1..];
          LexSymbol(s[i], s[i + 1..]);
        }
        AppendAssoc(tokens, [[s[i]]], Lex(s[i + 1..]));
        tokens := tokens + [[s[i]]];
        i := i + 1;
      } else {
        assert s[i..][1..] == s[i + 1..];
        i := i + 1;
      }
    }
    assert tokens + [] == tokens;
  }

  /** `get_rpn`: the token loop with its two inner popping loops, then the drain of the
      operator stack. */
  method GetRpn(expr: string) returns (rpn: seq<string>)
    ensures rpn == ToRpn(Lex(expr))
  {
    var tokens := Tokenize(expr);
    var operands: seq<string> := [];
    var operators: seq<string> := [];
    var i := 0;
    while i < |tokens|
      invariant 0 <= i <= |tokens|
      invariant Run(Shunt([], []), tokens) == Run(Shunt(operands, operators), tokens[i..])
    {
      var token := tokens[i];
      ghost var before := Shunt(operands, operators);
      assert tokens[i..] == [token] + tokens[i + 1..];
      if token == "+" || token == "-" || token == "*" || token == "/" || token == "%" {
        while operators != [] && Precedence(Last(operators)) >= Precedence(token)
          invariant PopHigher(before, Precedence(token)) == PopHigher(Shunt(operands, operators), Precedence(token))
          decreases |operators|
        {
          operands := operands + [Last(operators)];
          operators := DropLast(operators);
        }
        operators := operators + [token];
      } else if token == "(" {
        operators := operators + [token];
      } else if token == ")" {
        while operators != [] && Last(operators) != "("
          invariant PopToParen(before) == PopToParen(Shunt(operands, operators))
          decreases |operators|
        {
          operands := operands + [Last(operators)];
          operators := DropLast(operators);
        }
        if operators != [] {
          operators := DropLast(operators);
        }
      } else {
        operands := operands + [token];
      }
      assert Step(before, token) == Shunt(operands, operators);
      i := i + 1;
    }
    ghost var last := Shunt(operands, operators);
    while operators != []
      invariant Flush(last) == operands + Reversed(operators)
      decreases |operators|
    {
      AppendAssoc(operands, [Last(operators)], Reversed(DropLast(operators)));
      operands := operands + [Last(operators)];
      operators := DropLast(operators);
    }
    assert operands + [] == operands;
    return operands;
  }

  /** `evaluate`: the value-stack loop over the RPN list, then `stack[0]`. */
  method Evaluate(s: string) returns (r: Result<int, Panic>)
    ensures r == Evaluation(s)
  {
    var rpn := GetRpn(s);
    var stack: seq<int> := [];
    var i := 0;
    while i < |rpn|
      invariant 0 <= i <= |rpn|
      invariant Exec([], rpn) == Exec(stack, rpn[i..])
    {
      var token := rpn[i];
      ghost var before := stack;
      assert rpn[i..] == [token] + rpn[i + 1..];
      if IsArith(token) {
        if stack == [] {
          return Err(UnwrapNone);
        }
        var a := Last(stack);
        stack := DropLast(stack);
        if stack == [] {
          return Err(UnwrapNone);
        }
        var b := Last(stack);
        stack := DropLast(stack);
        assert stack == before[..|before| - 2];
        var v: int;
        if token == "+" {
          v := a + b;
        } else if token == "-" {
          v := b - a;
        } else if token == "*" {
          v := a * b;
        } else {
          if a == 0 {
            return Err(DivideByZero);
          }
          if b == I32_MIN && a == -1 {
            return Err(Overflow);
          }
          v := if token == "/" then TruncDiv(b, a) else TruncRem(b, a);
        }
        if !InI32(v) {
          return Err(Overflow);
        }
        stack := stack + [v];
      } else {
        var parsed := ParseI32(token);
        if parsed.Err? {
          return Err(parsed.error);
        }
        stack := stack + [parsed.value];
      }
      assert ExecToken(before, token) == Ok(stack);
      i := i + 1;
    }
    assert Exec(stack, rpn[i..]) == Ok(stack);
    if stack == [] {
      return Err(IndexOutOfBounds);
    }
    return Ok(stack[0]);
  }
}
