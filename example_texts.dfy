/** The literal texts of the unit tests in python_support/test.py and src/main.rs, and
    what the token pattern makes of each. A text is first shown equal to its characters
    nested one token at a time; a lemma over character parameters then tokenizes that
    nesting, one token per step, from the end of the text back to its start. */
module ExampleTexts {
  import opened Lexing

  // ---------------------------------------------------------------------------
  // The texts

  /** Rust's first `test_tokenize` string. */
  lemma SpacedSumLex(s: string)
    requires s == "3 + 4 * 2"
    ensures Lex(s) == ["3", "+", "4", "*", "2"]
  {
    SpacedSumShape('3', '+', '4', '*', '2');
    assert s == ['3'] + ([' ', '+'] + ([' ', '4'] + ([' ', '*'] + [' ', '2'])));
  }

  /** Rust's second `test_tokenize` string. */
  lemma SpacedGroupLex(s: string)
    requires s == "3 * (4 + 2)"
    ensures Lex(s) == ["3", "*", "(", "4", "+", "2", ")"]
  {
    SpacedGroupShape('3', '*', '(', '4', '+', '2', ')');
    SpacedGroupSpelled();
  }

  lemma SpacedGroupSpelled()
    ensures "3 * (4 + 2)" == ['3'] + ([' ', '*'] + ([' ', '('] + (['4'] + ([' ', '+'] + ([' ', '2'] + [')'])))))
  {
  }

  /** A text whose divisor evaluates to zero. */
  lemma ZeroDivisorLex(s: string)
    requires s == "1 / (2 - 2)"
    ensures Lex(s) == ["1", "/", "(", "2", "-", "2", ")"]
  {
    var t := ['1'] + ([' ', '/'] + ([' ', '('] + (['2'] + ([' ', '-'] + ([' ', '2'] + [')'])))));
    ZeroDivisorSpelled(s, t);
    SpacedGroupShape('1', '/', '(', '2', '-', '2', ')');
    ZeroDivisorTokens();
  }

  lemma ZeroDivisorSpelled(s: string, t: string)
    requires s == "1 / (2 - 2)"
    requires t == ['1'] + ([' ', '/'] + ([' ', '('] + (['2'] + ([' ', '-'] + ([' ', '2'] + [')'])))))
    ensures s == t
  {
  }

  lemma ZeroDivisorTokens()
    ensures [['1']] + ([['/']] + ([['(']] + ([['2']] + ([['-']] + ([['2']] + [[')']])))))
      == ["1", "/", "(", "2", "-", "2", ")"]
  {
  }

  /** Python's first text after the unary-minus rewrite. */
  lemma RewrittenFirstLex(s: string)
    requires s == "0-3 + 4 * 2"
    ensures Lex(s) == ["0", "-", "3", "+", "4", "*", "2"]
  {
    RewrittenFirstShape('0', '-', '3', '+', '4', '*', '2');
    RewrittenFirstSpelled();
  }

  lemma RewrittenFirstSpelled()
    ensures "0-3 + 4 * 2" == ['0'] + (['-'] + (['3'] + ([' ', '+'] + ([' ', '4'] + ([' ', '*'] + [' ', '2'])))))
  {
  }

  /** Python's second text after the unary-minus rewrite. */
  lemma RewrittenSecondLex(s: string)
    requires s == "3 * (0-4 + 2)"
    ensures Lex(s) == ["3", "*", "(", "0", "-", "4", "+", "2", ")"]
  {
    RewrittenSecondShape('3', '*', '(', '0', '-', '4', '+', '2', ')');
    RewrittenSecondSpelled();
  }

  lemma RewrittenSecondSpelled()
    ensures "3 * (0-4 + 2)" == ['3'] + ([' ', '*'] + ([' ', '('] + (['0'] + (['-'] + (['4'] + ([' ', '+'] + ([' ', '2'] + [')'])))))))
  {
  }

  /** The third text of both test suites, which the rewrite leaves alone. */
  lemma PrecedenceLex(s: string)
    requires s == "3 + 4 * 2 / (1 - 5) % 2"
    ensures Lex(s) == ["3", "+", "4", "*", "2", "/", "(", "1", "-", "5", ")", "%", "2"]
  {
    PrecedenceShape('3', '+', '4', '*', '2', '/', '(', '1', '-', '5', ')', '%', '2');
    PrecedenceSpelled();
  }

  lemma PrecedenceSpelled()
    ensures "3 + 4 * 2 / (1 - 5) % 2" == ['3'] + ([' ', '+'] + ([' ', '4'] + ([' ', '*'] + ([' ', '2'] + ([' ', '/'] + ([' ', '('] + (['1'] + ([' ', '-'] + ([' ', '5'] + ([')'] + ([' ', '%'] + [' ', '2'])))))))))))
  {
  }

  /** `-7 / 2` and `-7 % 2` after the unary-minus rewrite. */
  lemma RewrittenNegatedLex(u: string, c: char)
    requires c == '/' || c == '%'
    requires u == ['0', '-', '7', ' ', c, ' ', '2']
    ensures Lex(u) == ["0", "-", "7", [c], "2"]
  {
    RewrittenNegatedShape('0', '-', '7', c, '2');
    assert u == ['0'] + (['-'] + (['7'] + ([' ', c] + [' ', '2'])));
  }

  // ---------------------------------------------------------------------------
  // Their token lists, one character parameter per token

  lemma SpacedSumShape(a: char, b: char, c: char, d: char, e: char)
    requires IsDigit(a) && IsDigit(c) && IsDigit(e)
    requires IsSymbolChar(b) && IsSymbolChar(d)
    ensures Lex([a] + ([' ', b] + ([' ', c] + ([' ', d] + [' ', e])))) == [[a]] + ([[b]] + ([[c]] + ([[d]] + [[e]])))
  {
    var t4 := [' ', e];
    BlankToken(e, []);
    assert t4 + [] == t4;
    var t3 := [' ', d] + t4;
    BlankToken(d, t4);
    var t2 := [' ', c] + t3;
    BlankToken(c, t3);
    var t1 := [' ', b] + t2;
    BlankToken(b, t2);
    LexCons(a, t1);
  }

  lemma SpacedGroupShape(a: char, b: char, c: char, d: char, e: char, f: char, g: char)
    requires IsDigit(a) && IsDigit(d) && IsDigit(f)
    requires IsSymbolChar(b) && IsSymbolChar(c) && IsSymbolChar(e) && IsSymbolChar(g)
    ensures Lex([a] + ([' ', b] + ([' ', c] + ([d] + ([' ', e] + ([' ', f] + [g]))))))
      == [[a]] + ([[b]] + ([[c]] + ([[d]] + ([[e]] + ([[f]] + [[g]])))))
  {
    var t6 := [g];
    LexSymbol(g, []);
    assert t6 + [] == t6;
    var r6 := [[g]];
    assert Lex(t6) == r6;
    var t5 := [' ', f] + t6;
    BlankToken(f, t6);
    var r5 := [[f]] + r6;
    assert Lex(t5) == r5;
    var t4 := [' ', e] + t5;
    BlankToken(e, t5);
    var r4 := [[e]] + r5;
    assert Lex(t4) == r4;
    var t3 := [d] + t4;
    LexCons(d, t4);
    var r3 := [[d]] + r4;
    assert Lex(t3) == r3;
    var t2 := [' ', c] + t3;
    BlankToken(c, t3);
    var r2 := [[c]] + r3;
    assert Lex(t2) == r2;
    var t1 := [' ', b] + t2;
    BlankToken(b, t2);
    var r1 := [[b]] + r2;
    assert Lex(t1) == r1;
    LexCons(a, t1);
  }

  lemma RewrittenFirstShape(a: char, b: char, c: char, d: char, e: char, f: char, g: char)
    requires IsDigit(a) && IsDigit(c) && IsDigit(e) && IsDigit(g)
    requires IsSymbolChar(b) && IsSymbolChar(d) && IsSymbolChar(f)
    ensures Lex([a] + ([b] + ([c] + ([' ', d] + ([' ', e] + ([' ', f] + [' ', g]))))))
      == [[a]] + ([[b]] + ([[c]] + ([[d]] + ([[e]] + ([[f]] + [[g]])))))
  {
    var t6 := [' ', g];
    BlankToken(g, []);
    assert t6 + [] == t6;
    var r6 := [[g]];
    assert Lex(t6) == r6;
    var t5 := [' ', f] + t6;
    BlankToken(f, t6);
    var r5 := [[f]] + r6;
    assert Lex(t5) == r5;
    var t4 := [' ', e] + t5;
    BlankToken(e, t5);
    var r4 := [[e]] + r5;
    assert Lex(t4) == r4;
    var t3 := [' ', d] + t4;
    BlankToken(d, t4);
    var r3 := [[d]] + r4;
    assert Lex(t3) == r3;
    var t2 := [c] + t3;
    LexCons(c, t3);
    var r2 := [[c]] + r3;
    assert Lex(t2) == r2;
    var t1 := [b] + t2;
    LexCons(b, t2);
    var r1 := [[b]] + r2;
    assert Lex(t1) == r1;
    LexCons(a, t1);
  }

  lemma RewrittenSecondShape(a: char, b: char, c: char, d: char, e: char, f: char, g: char, h: char, i: char)
    requires IsDigit(a) && IsDigit(d) && IsDigit(f) && IsDigit(h)
    requires IsSymbolChar(b) && IsSymbolChar(c) && IsSymbolChar(e) && IsSymbolChar(g) && IsSymbolChar(i)
    ensures Lex([a] + ([' ', b] + ([' ', c] + ([d] + ([e] + ([f] + ([' ', g] + ([' ', h] + [i]))))))))
      == [[a]] + ([[b]] + ([[c]] + ([[d]] + ([[e]] + ([[f]] + ([[g]] + ([[h]] + [[i]])))))))
  {
    var t8 := [i];
    LexSymbol(i, []);
    assert t8 + [] == t8;
    var r8 := [[i]];
    assert Lex(t8) == r8;
    var t7 := [' ', h] + t8;
    BlankToken(h, t8);
    var r7 := [[h]] + r8;
    assert Lex(t7) == r7;
    var t6 := [' ', g] + t7;
    BlankToken(g, t7);
    var r6 := [[g]] + r7;
    assert Lex(t6) == r6;
    var t5 := [f] + t6;
    LexCons(f, t6);
    var r5 := [[f]] + r6;
    assert Lex(t5) == r5;
    var t4 := [e] + t5;
    LexCons(e, t5);
    var r4 := [[e]] + r5;
    assert Lex(t4) == r4;
    var t3 := [d] + t4;
    LexCons(d, t4);
    var r3 := [[d]] + r4;
    assert Lex(t3) == r3;
    var t2 := [' ', c] + t3;
    BlankToken(c, t3);
    var r2 := [[c]] + r3;
    assert Lex(t2) == r2;
    var t1 := [' ', b] + t2;
    BlankToken(b, t2);
    var r1 := [[b]] + r2;
    assert Lex(t1) == r1;
    LexCons(a, t1);
  }

  lemma PrecedenceShape(a: char, b: char, c: char, d: char, e: char, f: char, g: char, h: char, i: char, j: char, k: char, l: char, m: char)
    requires IsDigit(a) && IsDigit(c) && IsDigit(e) && IsDigit(h) && IsDigit(j) && IsDigit(m)
    requires IsSymbolChar(b) && IsSymbolChar(d) && IsSymbolChar(f) && IsSymbolChar(g) && IsSymbolChar(i) && IsSymbolChar(k) && IsSymbolChar(l)
    ensures Lex([a] + ([' ', b] + ([' ', c] + ([' ', d] + ([' ', e] + ([' ', f] + ([' ', g] + ([h] + ([' ', i] + ([' ', j] + ([k] + ([' ', l] + [' ', m]))))))))))))
      == [[a]] + ([[b]] + ([[c]] + ([[d]] + ([[e]] + ([[f]] + ([[g]] + ([[h]] + ([[i]] + ([[j]] + ([[k]] + ([[l]] + [[m]])))))))))))
  {
    var t12 := [' ', m];
    BlankToken(m, []);
    assert t12 + [] == t12;
    var r12 := [[m]];
    assert Lex(t12) == r12;
    var t11 := [' ', l] + t12;
    BlankToken(l, t12);
    var r11 := [[l]] + r12;
    assert Lex(t11) == r11;
    var t10 := [k] + t11;
    LexCons(k, t11);
    var r10 := [[k]] + r11;
    assert Lex(t10) == r10;
    var t9 := [' ', j] + t10;
    BlankToken(j, t10);
    var r9 := [[j]] + r10;
    assert Lex(t9) == r9;
    var t8 := [' ', i] + t9;
    BlankToken(i, t9);
    var r8 := [[i]] + r9;
    assert Lex(t8) == r8;
    var t7 := [h] + t8;
    LexCons(h, t8);
    var r7 := [[h]] + r8;
    assert Lex(t7) == r7;
    var t6 := [' ', g] + t7;
    BlankToken(g, t7);
    var r6 := [[g]] + r7;
    assert Lex(t6) == r6;
    var t5 := [' ', f] + t6;
    BlankToken(f, t6);
    var r5 := [[f]] + r6;
    assert Lex(t5) == r5;
    var t4 := [' ', e] + t5;
    BlankToken(e, t5);
    var r4 := [[e]] + r5;
    assert Lex(t4) == r4;
    var t3 := [' ', d] + t4;
    BlankToken(d, t4);
    var r3 := [[d]] + r4;
    assert Lex(t3) == r3;
    var t2 := [' ', c] + t3;
    BlankToken(c, t3);
    var r2 := [[c]] + r3;
    assert Lex(t2) == r2;
    var t1 := [' ', b] + t2;
    BlankToken(b, t2);
    var r1 := [[b]] + r2;
    assert Lex(t1) == r1;
    LexCons(a, t1);
  }

  lemma RewrittenNegatedShape(a: char, b: char, c: char, d: char, e: char)
    requires IsDigit(a) && IsDigit(c) && IsDigit(e)
    requires IsSymbolChar(b) && IsSymbolChar(d)
    ensures Lex([a] + ([b] + ([c] + ([' ', d] + [' ', e])))) == [[a]] + ([[b]] + ([[c]] + ([[d]] + [[e]])))
  {
    var t4 := [' ', e];
    BlankToken(e, []);
    assert t4 + [] == t4;
    var t3 := [' ', d] + t4;
    BlankToken(d, t4);
    var t2 := [c] + t3;
    LexCons(c, t3);
    var t1 := [b] + t2;
    LexCons(b, t2);
    LexCons(a, t1);
  }
}
