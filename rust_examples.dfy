/** The unit tests of src/main.rs and the behaviours the two calculators do not share,
    worked through the model. The test texts are built up from their parts, since the
    general theorems say what happens to the text of any expression. */
module RsExamples {
  import opened Seqs
  import opened Arith
  import opened Lexing
  import opened Infix
  import PyRpn
  import opened RsRpn
  import opened RsEval
  import opened RsInfix
  import opened ExampleTexts

  /** The text of a one-digit literal. */
  lemma Digit(n: nat)
    requires n < 10
    ensures Print(Lit(n)) == [[(('0' as int) + n) as char]]
    ensures Render(Lit(n)) == [(('0' as int) + n) as char]
    ensures PostfixTokens(Lit(n)) == [[(('0' as int) + n) as char]]
    ensures EvalI32(Lit(n)) == Ok(n)
  {
    assert Concat([NatToDigits(n)]) == NatToDigits(n) + Concat([]);
  }

  /** `3+4*2`: RPN `3 4 2 * +`, value 11. */
  lemma FirstText() returns (e: Expr)
    ensures Render(e) == "3+4*2"
    ensures PostfixTokens(e) == ["3", "4", "2", "*", "+"]
    ensures EvalI32(e) == Ok(11)
  {
    Digit(2);
    Digit(3);
    Digit(4);
    var m := Bin(Mul, Lit(4), Lit(2));
    RenderBin(Mul, Lit(4), Lit(2));
    assert Render(m) == "4*2";
    e := Bin(Add, Lit(3), m);
    RenderBin(Add, Lit(3), m);
    assert Render(e) == "3" + "+" + "4*2";
  }

  /** test_get_rpn and test_evaluate on `3+4*2`. */
  lemma FirstTest()
    ensures ToRpn(Lex("3+4*2")) == ["3", "4", "2", "*", "+"]
    ensures Evaluation("3+4*2") == Ok(11)
  {
    var e := FirstText();
    RpnRender(e);
    EvaluateRender(e);
  }

  /** `3*(4+2)`: RPN `3 4 2 + *`, value 18. */
  lemma SecondText() returns (e: Expr)
    ensures Render(e) == "3*(4+2)"
    ensures PostfixTokens(e) == ["3", "4", "2", "+", "*"]
    ensures EvalI32(e) == Ok(18)
  {
    Digit(2);
    Digit(3);
    Digit(4);
    var a := Bin(Add, Lit(4), Lit(2));
    RenderBin(Add, Lit(4), Lit(2));
    assert Render(a) == "4+2";
    e := Bin(Mul, Lit(3), a);
    RenderBin(Mul, Lit(3), a);
    assert Render(e) == "3" + "*" + ("(" + "4+2" + ")");
  }

  /** test_get_rpn and test_evaluate on `3*(4+2)`. */
  lemma SecondTest()
    ensures ToRpn(Lex("3*(4+2)")) == ["3", "4", "2", "+", "*"]
    ensures Evaluation("3*(4+2)") == Ok(18)
  {
    var e := SecondText();
    RpnRender(e);
    EvaluateRender(e);
  }

  /** `4*2`. */
  lemma Product() returns (m: Expr)
    ensures m == Bin(Mul, Lit(4), Lit(2))
    ensures Render(m) == "4*2" && PostfixTokens(m) == ["4", "2", "*"] && EvalI32(m) == Ok(8)
  {
    Digit(2);
    Digit(4);
    m := Bin(Mul, Lit(4), Lit(2));
    RenderBin(Mul, Lit(4), Lit(2));
  }

  /** `1-5`. */
  lemma Difference() returns (s: Expr)
    ensures s.Bin? && s.op == Sub
    ensures Render(s) == "1-5" && PostfixTokens(s) == ["1", "5", "-"] && EvalI32(s) == Ok(-4)
  {
    Digit(1);
    Digit(5);
    s := Bin(Sub, Lit(1), Lit(5));
    RenderBin(Sub, Lit(1), Lit(5));
  }

  /** `4*2/(1-5)`: 8 / -4 is -2. */
  lemma Quotient() returns (d: Expr)
    ensures d.Bin? && d.op == Div
    ensures Render(d) == "4*2/(1-5)"
    ensures PostfixTokens(d) == ["4", "2", "*", "1", "5", "-", "/"]
    ensures EvalI32(d) == Ok(-2)
  {
    var m := Product();
    var s := Difference();
    d := Bin(Div, m, s);
    RenderBin(Div, m, s);
    assert Render(d) == "4*2" + "/" + ("(" + "1-5" + ")");
    assert PostfixTokens(d) == ["4", "2", "*"] + ["1", "5", "-"] + ["/"];
    assert TruncDiv(8, -4) == -2;
  }

  /** `4*2/(1-5)%2`: -2 % 2 is 0. */
  lemma Remainder() returns (r: Expr)
    ensures r.Bin? && r.op == Mod
    ensures Render(r) == "4*2/(1-5)%2"
    ensures PostfixTokens(r) == ["4", "2", "*", "1", "5", "-", "/", "2", "%"]
    ensures EvalI32(r) == Ok(0)
  {
    Digit(2);
    var d := Quotient();
    r := Bin(Mod, d, Lit(2));
    RenderBin(Mod, d, Lit(2));
    assert Render(r) == "4*2/(1-5)" + "%" + "2";
    assert PostfixTokens(r) == ["4", "2", "*", "1", "5", "-", "/"] + ["2"] + ["%"];
    assert TruncRem(-2, 2) == 0;
  }

  /** `3+4*2/(1-5)%2`: RPN `3 4 2 * 1 5 - / 2 % +`, value 3. */
  lemma ThirdText() returns (e: Expr)
    ensures Render(e) == "3+4*2/(1-5)%2"
    ensures PostfixTokens(e) == ["3", "4", "2", "*", "1", "5", "-", "/", "2", "%", "+"]
    ensures EvalI32(e) == Ok(3)
  {
    var r := Remainder();
    e := Bin(Add, Lit(3), r);
    ThreePlusText(r);
    ThreePlusPostfix(r);
    Digit(3);
  }

  lemma ThreePlusText(r: Expr)
    requires r.Bin? && r.op == Mod && Render(r) == "4*2/(1-5)%2"
    ensures Render(Bin(Add, Lit(3), r)) == "3+4*2/(1-5)%2"
  {
    Digit(3);
    RenderBin(Add, Lit(3), r);
    assert Render(Bin(Add, Lit(3), r)) == "3" + "+" + "4*2/(1-5)%2";
  }

  lemma ThreePlusPostfix(r: Expr)
    requires PostfixTokens(r) == ["4", "2", "*", "1", "5", "-", "/", "2", "%"]
    ensures PostfixTokens(Bin(Add, Lit(3), r)) == ["3", "4", "2", "*", "1", "5", "-", "/", "2", "%", "+"]
  {
    Digit(3);
    assert PostfixTokens(Bin(Add, Lit(3), r)) == ["3"] + ["4", "2", "*", "1", "5", "-", "/", "2", "%"] + ["+"];
  }

  /** test_get_rpn and test_evaluate on `3+4*2/(1-5)%2`. */
  lemma ThirdTest()
    ensures ToRpn(Lex("3+4*2/(1-5)%2")) == ["3", "4", "2", "*", "1", "5", "-", "/", "2", "%", "+"]
    ensures Evaluation("3+4*2/(1-5)%2") == Ok(3)
  {
    var e := ThirdText();
    RpnRender(e);
    EvaluateRender(e);
  }

  /** test_tokenize: blanks separate tokens and are dropped, and each parenthesis is a
      token of its own. */
  lemma TokenizeTest()
    ensures Lex("3 + 4 * 2") == ["3", "+", "4", "*", "2"]
    ensures Lex("3 * (4 + 2)") == ["3", "*", "(", "4", "+", "2", ")"]
    ensures Lex("3 + 4 * 2 / (1 - 5) % 2") == ["3", "+", "4", "*", "2", "/", "(", "1", "-", "5", ")", "%", "2"]
  {
    SpacedSumLex("3 + 4 * 2");
    SpacedGroupLex("3 * (4 + 2)");
    PrecedenceLex("3 + 4 * 2 / (1 - 5) % 2");
  }

  /** `-3`: the minus finds no left operand and `evaluate` panics on the second
      `unwrap`. */
  lemma LeadingMinus()
    ensures Evaluation("-3") == Err(UnwrapNone)
  {
    LexMinusThree();
    RpnMinusThree();
    assert Exec([], ["3", "-"]) == Err(UnwrapNone) by {
      ParseDigits("3");
      assert Exec([], ["3", "-"]) == Exec([3], ["-"]);
    }
  }

  lemma LexMinusThree()
    ensures Lex("-3") == ["-", "3"]
  {
    LexSymbol('-', "3");
    LexDigitRun("3", []);
    assert "-3" == ['-'] + "3" && "3" + [] == "3";
  }

  lemma RpnMinusThree()
    ensures ToRpn(["-", "3"]) == ["3", "-"]
  {
    assert Run(Shunt([], []), ["-", "3"]) == Shunt(["3"], ["-"]);
  }

  /** A `)` with nothing open: Python raises IndexError, Rust drops it. */
  lemma UnmatchedClose()
    ensures ToRpn(["3", ")", "+", "4"]) == ["3", "4", "+"]
    ensures PyRpn.ToRpn(["3", ")", "+", "4"]) == Err(PyRpn.IndexError)
  {
  }
}
