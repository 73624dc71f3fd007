/** The expressions of python_support/test.py, and the negative-division cases, worked
    through the model: the unary-minus rewrite on the literal texts, then the RPN list
    and value of the expression the rewritten text spells. */
module PyExamples {
  import opened Seqs
  import opened Lexing
  import opened Infix
  import opened PyTokenize
  import opened PyRpn
  import opened PyEval
  import opened PyInfix
  import opened PyCalculator
  import opened ExampleTexts

  /** test.py's first expression: RPN `0 3 - 4 2 * +`, value 5. */
  lemma FirstTest()
    ensures ToRpn(Tokenize("-3 + 4 * 2")) == Ok([Num(0), Num(3), Sym("-"), Num(4), Num(2), Sym("*"), Sym("+")])
    ensures Evaluation("-3 + 4 * 2") == Ok(Int(5))
  {
    FirstRun("-3 + 4 * 2");
  }

  /** test.py's second expression: RPN `3 0 4 - 2 + *`, value -6. */
  lemma SecondTest()
    ensures ToRpn(Tokenize("3 * (-4 + 2)")) == Ok([Num(3), Num(0), Num(4), Sym("-"), Num(2), Sym("+"), Sym("*")])
    ensures Evaluation("3 * (-4 + 2)") == Ok(Int(-6))
  {
    SecondRun("3 * (-4 + 2)");
  }

  /** test.py's third expression: RPN `3 4 2 * 1 5 - / 2 % +`, value 3, since 8 // -4
      is -2 and -2 % 2 is 0. */
  lemma ThirdTest()
    ensures ToRpn(Tokenize("3 + 4 * 2 / (1 - 5) % 2"))
      == Ok([Num(3), Num(4), Num(2), Sym("*"), Num(1), Num(5), Sym("-"), Sym("/"), Num(2), Sym("%"), Sym("+")])
    ensures Evaluation("3 + 4 * 2 / (1 - 5) % 2") == Ok(Int(3))
  {
    ThirdRun("3 + 4 * 2 / (1 - 5) % 2");
  }

  /** A leading minus binds more loosely than `/` and `%`: `-7 / 2` is rewritten to
      `0-7 / 2`, that is 0 - (7 // 2) = -3, and `-7 % 2` to 0 - (7 % 2) = -1; only with
      parentheses, `(-7) / 2` and `(-7) % 2`, does floor rounding give -4 and 1. */
  lemma NegativeDivision()
    ensures Evaluation("-7 / 2") == Ok(Int(-3))
    ensures Evaluation("-7 % 2") == Ok(Int(-1))
    ensures EvalFloor(Bin(Sub, Lit(0), Bin(Div, Lit(7), Lit(2)))) == Ok(-3)
    ensures EvalFloor(Bin(Sub, Lit(0), Bin(Mod, Lit(7), Lit(2)))) == Ok(-1)
    ensures EvalFloor(Bin(Div, Bin(Sub, Lit(0), Lit(7)), Lit(2))) == Ok(-4)
    ensures EvalFloor(Bin(Mod, Bin(Sub, Lit(0), Lit(7)), Lit(2))) == Ok(1)
  {
    NegatedRun("-7 / 2", '/', Bin(Sub, Lit(0), Bin(Div, Lit(7), Lit(2))));
    NegatedRun("-7 % 2", '%', Bin(Sub, Lit(0), Bin(Mod, Lit(7), Lit(2))));
    NegatedOperand();
  }

  /** With the minus on the left operand itself, `/` and `%` floor: -4 and 1. */
  lemma NegatedOperand()
    ensures EvalFloor(Bin(Div, Bin(Sub, Lit(0), Lit(7)), Lit(2))) == Ok(-4)
    ensures EvalFloor(Bin(Mod, Bin(Sub, Lit(0), Lit(7)), Lit(2))) == Ok(1)
  {
  }

  /** A divisor that evaluates to zero raises ZeroDivisionError from `evaluate`. */
  lemma DivisionByZero()
    ensures Evaluation("1 / (2 - 2)") == Err(ZeroDivisionError)
    ensures EvalFloor(Bin(Div, Lit(1), Bin(Sub, Lit(2), Lit(2)))) == Err(ZeroDivisionError)
  {
    ZeroDivisorRun("1 / (2 - 2)", Bin(Div, Lit(1), Bin(Sub, Lit(2), Lit(2))));
  }

  // ---------------------------------------------------------------------------
  // Each text: its rewrite, its tokens, and the expression whose printed tokens they are

  lemma FirstRun(s: string)
    requires s == "-3 + 4 * 2"
    ensures ToRpn(Tokenize(s)) == Ok([Num(0), Num(3), Sym("-"), Num(4), Num(2), Sym("*"), Sym("+")])
    ensures Evaluation(s) == Ok(Int(5))
  {
    var e := Bin(Add, Bin(Sub, Lit(0), Lit(3)), Bin(Mul, Lit(4), Lit(2)));
    FirstRewrite(s);
    RewrittenFirstLex("0-3 + 4 * 2");
    FirstTree(e);
    EvaluateTokens(s, e);
  }

  /** A leading minus becomes `0-`. */
  lemma FirstRewrite(s: string)
    requires s == "-3 + 4 * 2"
    ensures RewriteUnary(s) == "0-3 + 4 * 2"
  {
    assert s == "-" + "3 + 4 * 2";
    LeadingMinusOnly("3 + 4 * 2");
  }

  lemma FirstTree(e: Expr)
    requires e == Bin(Add, Bin(Sub, Lit(0), Lit(3)), Bin(Mul, Lit(4), Lit(2)))
    ensures Print(e) == ["0", "-", "3", "+", "4", "*", "2"]
    ensures PostfixItems(e) == [Num(0), Num(3), Sym("-"), Num(4), Num(2), Sym("*"), Sym("+")]
    ensures EvalFloor(e) == Ok(5)
  {
  }

  lemma SecondRun(s: string)
    requires s == "3 * (-4 + 2)"
    ensures ToRpn(Tokenize(s)) == Ok([Num(3), Num(0), Num(4), Sym("-"), Num(2), Sym("+"), Sym("*")])
    ensures Evaluation(s) == Ok(Int(-6))
  {
    var e := Bin(Mul, Lit(3), Bin(Add, Bin(Sub, Lit(0), Lit(4)), Lit(2)));
    SecondRewrite(s);
    RewrittenSecondLex("3 * (0-4 + 2)");
    SecondTree(e);
    EvaluateTokens(s, e);
  }

  lemma SecondTree(e: Expr)
    requires e == Bin(Mul, Lit(3), Bin(Add, Bin(Sub, Lit(0), Lit(4)), Lit(2)))
    ensures Print(e) == ["3", "*", "(", "0", "-", "4", "+", "2", ")"]
    ensures PostfixItems(e) == [Num(3), Num(0), Num(4), Sym("-"), Num(2), Sym("+"), Sym("*")]
    ensures EvalFloor(e) == Ok(-6)
  {
  }

  /** A minus just inside a parenthesis becomes `0-`. */
  lemma SecondRewrite(s: string)
    requires s == "3 * (-4 + 2)"
    ensures RewriteUnary(s) == "3 * (0-4 + 2)"
  {
    LeadingKept(s);
    assert s == "3 * " + "(-" + "4 + 2)";
    ParenMinusBetween("3 * ", "4 + 2)");
  }

  lemma ThirdRun(s: string)
    requires s == "3 + 4 * 2 / (1 - 5) % 2"
    ensures ToRpn(Tokenize(s))
      == Ok([Num(3), Num(4), Num(2), Sym("*"), Num(1), Num(5), Sym("-"), Sym("/"), Num(2), Sym("%"), Sym("+")])
    ensures Evaluation(s) == Ok(Int(3))
  {
    var e := Bin(Add, Lit(3), Bin(Mod, Bin(Div, Bin(Mul, Lit(4), Lit(2)), Bin(Sub, Lit(1), Lit(5))), Lit(2)));
    ThirdRewrite(s);
    PrecedenceLex(s);
    ThirdPrint(e);
    ThirdPostfix(e);
    EvaluateTokens(s, e);
  }

  lemma ThirdPrint(e: Expr)
    requires e == Bin(Add, Lit(3), Bin(Mod, Bin(Div, Bin(Mul, Lit(4), Lit(2)), Bin(Sub, Lit(1), Lit(5))), Lit(2)))
    ensures Print(e) == ["3", "+", "4", "*", "2", "/", "(", "1", "-", "5", ")", "%", "2"]
  {
  }

  lemma ThirdPostfix(e: Expr)
    requires e == Bin(Add, Lit(3), Bin(Mod, Bin(Div, Bin(Mul, Lit(4), Lit(2)), Bin(Sub, Lit(1), Lit(5))), Lit(2)))
    ensures PostfixItems(e) == [Num(3), Num(4), Num(2), Sym("*"), Num(1), Num(5), Sym("-"), Sym("/"), Num(2), Sym("%"), Sym("+")]
    ensures EvalFloor(e) == Ok(3)
  {
  }

  /** With no minus after its parenthesis, the text is left as it is. */
  lemma ThirdRewrite(s: string)
    requires s == "3 + 4 * 2 / (1 - 5) % 2"
    ensures RewriteUnary(s) == s
  {
    LeadingKept(s);
    assert s == "3 + 4 * 2 / " + "(" + "1 - 5) % 2";
    ParenPlainBetween("3 + 4 * 2 / ", "1 - 5) % 2");
  }

  lemma ZeroDivisorRun(s: string, e: Expr)
    requires s == "1 / (2 - 2)"
    requires e == Bin(Div, Lit(1), Bin(Sub, Lit(2), Lit(2)))
    ensures Evaluation(s) == Err(ZeroDivisionError)
    ensures EvalFloor(e) == Err(ZeroDivisionError)
  {
    ZeroDivisorRewrite(s);
    ZeroDivisorLex(s);
    ZeroDivisorTree(e);
    EvaluateTokens(s, e);
  }

  lemma ZeroDivisorTree(e: Expr)
    requires e == Bin(Div, Lit(1), Bin(Sub, Lit(2), Lit(2)))
    ensures Print(e) == ["1", "/", "(", "2", "-", "2", ")"]
    ensures EvalFloor(e) == Err(ZeroDivisionError)
  {
  }

  /** The `(` is followed by a digit, so neither rewrite applies. */
  lemma ZeroDivisorRewrite(s: string)
    requires s == "1 / (2 - 2)"
    ensures RewriteUnary(s) == s
  {
    LeadingKept(s);
    assert s == "1 / " + "(" + "2 - 2)";
    ParenPlainBetween("1 / ", "2 - 2)");
  }

  /** `-7 / 2` and `-7 % 2`: the leading minus becomes `0-`, so the text spells
      0 - (7 op 2). */
  lemma NegatedRun(s: string, c: char, e: Expr)
    requires (s == "-7 / 2" && c == '/' && e == Bin(Sub, Lit(0), Bin(Div, Lit(7), Lit(2))))
      || (s == "-7 % 2" && c == '%' && e == Bin(Sub, Lit(0), Bin(Mod, Lit(7), Lit(2))))
    ensures Evaluation(s) == Ok(Int(if c == '/' then -3 else -1))
    ensures EvalFloor(e) == Ok(if c == '/' then -3 else -1)
  {
    assert s == ['-', '7', ' ', c, ' ', '2'];
    NegatedRewrite(s, c);
    RewrittenNegatedLex(['0', '-', '7', ' ', c, ' ', '2'], c);
    NegatedTree(c, e);
    EvaluateTokens(s, e);
  }

  lemma NegatedTree(c: char, e: Expr)
    requires (c == '/' && e == Bin(Sub, Lit(0), Bin(Div, Lit(7), Lit(2))))
      || (c == '%' && e == Bin(Sub, Lit(0), Bin(Mod, Lit(7), Lit(2))))
    ensures Print(e) == ["0", "-", "7", [c], "2"]
    ensures EvalFloor(e) == Ok(if c == '/' then -3 else -1)
  {
  }

  lemma NegatedRewrite(s: string, c: char)
    requires c == '/' || c == '%'
    requires s == ['-', '7', ' ', c, ' ', '2']
    ensures RewriteUnary(s) == ['0', '-', '7', ' ', c, ' ', '2']
  {
    var rest := ['7', ' ', c, ' ', '2'];
    assert s == "-" + rest;
    LeadingMinusOnly(rest);
  }
}
