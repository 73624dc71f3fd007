/** Well-formed infix expressions over non-negative literals and the five binary
    operators, printed with the fewest parentheses that keep their meaning under the
    precedence (`* / %` above `+ -`) and left associativity both calculators implement.
    The printed tokens are the inputs for which the end-to-end theorems of the two
    calculators are stated. */
module Infix {
  import opened Seqs
  import opened Lexing

  datatype BinOp = Add | Sub | Mul | Div | Mod

  function Symbol(op: BinOp): (s: string)
    ensures |s| == 1 && IsOperatorChar(s[0])
  {
    match op
    case Add => "+"
    case Sub => "-"
    case Mul => "*"
    case Div => "/"
    case Mod => "%"
  }

  /** Binding strength: multiplicative operators bind tighter than additive ones. */
  function Prec(op: BinOp): nat
  {
    if op == Add || op == Sub then 1 else 2
  }

  datatype Expr = Lit(n: nat) | Bin(op: BinOp, left: Expr, right: Expr)

  /** A left operand needs parentheses only when it binds more loosely than its parent. */
  predicate ParenLeft(l: Expr, op: BinOp)
  {
    l.Bin? && Prec(l.op) < Prec(op)
  }

  /** A right operand needs them also at equal strength, since operators group to the left. */
  predicate ParenRight(r: Expr, op: BinOp)
  {
    r.Bin? && Prec(r.op) <= Prec(op)
  }

  function Parenthesized(ts: seq<string>): seq<string>
  {
    ["("] + ts + [")"]
  }

  /** The tokens of `e` in infix order with minimal parentheses. */
  function Print(e: Expr): seq<string>
  {
    match e
    case Lit(n) => [NatToDigits(n)]
    case Bin(op, l, r) =>
      (if ParenLeft(l, op) then Parenthesized(Print(l)) else Print(l))
      + [Symbol(op)]
      + (if ParenRight(r, op) then Parenthesized(Print(r)) else Print(r))
  }

  /** The text of `e`: its tokens with nothing in between, as in "3+4*2/(1-5)%2". */
  function Render(e: Expr): string
  {
    Concat(Print(e))
  }

  /** The text of an operation is the text of its operands around its operator, each
      operand in parentheses where it needs them. */
  lemma RenderBin(op: BinOp, l: Expr, r: Expr)
    ensures Render(Bin(op, l, r)) ==
      (if ParenLeft(l, op) then "(" + Render(l) + ")" else Render(l))
      + Symbol(op)
      + (if ParenRight(r, op) then "(" + Render(r) + ")" else Render(r))
  {
    var lt := if ParenLeft(l, op) then Parenthesized(Print(l)) else Print(l);
    var rt := if ParenRight(r, op) then Parenthesized(Print(r)) else Print(r);
    ConcatAppend(lt + [Symbol(op)], rt);
    ConcatAppend(lt, [Symbol(op)]);
    assert Concat([Symbol(op)]) == Symbol(op) by { assert [Symbol(op)][1..] == []; }
    ParenthesizedText(Print(l));
    ParenthesizedText(Print(r));
  }

  lemma ParenthesizedText(ts: seq<string>)
    ensures Concat(Parenthesized(ts)) == "(" + Concat(ts) + ")"
  {
    ConcatAppend(["("] + ts, [")"]);
    ConcatAppend(["("], ts);
    assert Concat(["("]) == "(" by { assert ["("][1..] == []; }
    assert Concat([")"]) == ")" by { assert [")"][1..] == []; }
  }

  /** The tokens of `e` in postfix (Reverse Polish) order. */
  function PostfixTokens(e: Expr): seq<string>
  {
    match e
    case Lit(n) => [NatToDigits(n)]
    case Bin(op, l, r) => PostfixTokens(l) + PostfixTokens(r) + [Symbol(op)]
  }

  /** Two tokens that may stand next to each other in printed text: digit runs never
      touch, and `-` never directly follows `(`. */
  predicate Adjacent(a: string, b: string)
  {
    !(IsDigits(a) && IsDigits(b)) && !(a == "(" && b == "-")
  }

  /** Facts about the three one-character texts that the proofs below compare. */
  lemma SymbolTexts()
    ensures !IsDigits("(") && !IsDigits(")") && !IsDigits("-") && "(" != "-" && ")" != "("
  {
    assert "("[0] == '(' && ")"[0] == ')' && "-"[0] == '-';
  }

  predicate Chained(ts: seq<string>)
  {
    forall i :: 0 <= i < |ts| - 1 ==> Adjacent(ts[i], ts[i + 1])
  }

  lemma ChainedAppend(a: seq<string>, b: seq<string>)
    requires Chained(a) && Chained(b) && a != [] && b != []
    requires Adjacent(Last(a), b[0])
    ensures Chained(a + b)
  {
    forall i | 0 <= i < |a + b| - 1
      ensures Adjacent((a + b)[i], (a + b)[i + 1])
    {
      if i < |a| - 1 {
        assert (a + b)[i] == a[i] && (a + b)[i + 1] == a[i + 1];
      } else if i == |a| - 1 {
        assert (a + b)[i] == Last(a) && (a + b)[i + 1] == b[0];
      } else {
        assert (a + b)[i] == b[i - |a|] && (a + b)[i + 1] == b[i - |a| + 1];
      }
    }
  }

  /** Joining two printable token runs that may touch. */
  lemma JoinShape(a: seq<string>, b: seq<string>)
    requires a != [] && b != []
    requires AllLexemes(a) && AllLexemes(b) && Chained(a) && Chained(b)
    requires Adjacent(Last(a), b[0])
    ensures AllLexemes(a + b) && Chained(a + b)
    ensures (a + b)[0] == a[0] && Last(a + b) == Last(b)
  {
    ChainedAppend(a, b);
    forall i | 0 <= i < |a + b| ensures IsLexeme((a + b)[i]) {
      if i < |a| { assert (a + b)[i] == a[i]; } else { assert (a + b)[i] == b[i - |a|]; }
    }
  }

  /** Printed tokens are genuine tokens, begin with an operand, end with one, and fit
      together so that writing them out and tokenizing gives them back. */
  lemma {:induction false} PrintShape(e: Expr)
    ensures Print(e) != [] && AllLexemes(Print(e)) && Chained(Print(e))
    ensures IsDigits(Print(e)[0]) || Print(e)[0] == "("
    ensures IsDigits(Last(Print(e))) || Last(Print(e)) == ")"
    decreases e, 0
  {
    match e
    case Lit(n) =>
    case Bin(op, l, r) =>
      var lt := GroupShape(l, ParenLeft(l, op));
      var rt := GroupShape(r, ParenRight(r, op));
      var sym := [Symbol(op)];
      assert Print(e) == lt + sym + rt;
      assert AllLexemes(sym) && Chained(sym) by {
        assert IsLexeme(Symbol(op)) by { assert IsSymbolChar(Symbol(op)[0]); }
      }
      assert !IsDigits(Symbol(op)) && Symbol(op) != "(" by {
        assert !IsDigit(Symbol(op)[0]);
        assert "("[0] == '(';
      }
      assert Adjacent(Last(lt), sym[0]) by { SymbolTexts(); }
      JoinShape(lt, sym);
      assert Adjacent(Last(lt + sym), rt[0]) by { SymbolTexts(); }
      JoinShape(lt + sym, rt);
  }

  lemma {:induction false} GroupShape(e: Expr, paren: bool) returns (ts: seq<string>)
    ensures ts == if paren then Parenthesized(Print(e)) else Print(e)
    ensures ts != [] && AllLexemes(ts) && Chained(ts)
    ensures IsDigits(ts[0]) || ts[0] == "("
    ensures IsDigits(Last(ts)) || Last(ts) == ")"
    decreases e, 1
  {
    PrintShape(e);
    ts := Print(e);
    if paren {
      var open, close := ["("], [")"];
      assert AllLexemes(open) && AllLexemes(close) && Chained(open) && Chained(close) by {
        assert IsSymbolChar("("[0]) && IsSymbolChar(")"[0]);
      }
      assert Adjacent(Last(open), ts[0]) && Adjacent(Last(open + ts), close[0]) by {
        SymbolTexts();
      }
      JoinShape(open, ts);
      JoinShape(open + ts, close);
      ts := Parenthesized(ts);
    }
  }

  /** Tokenizing the rendered text yields exactly the printed tokens. */
  lemma LexRender(e: Expr)
    ensures Lex(Render(e)) == Print(e)
  {
    PrintShape(e);
    LexConcat(Print(e));
  }
}
