/** The nested `tokenize` of `Calculator._rpn` (python_support/Calculator.py): two
    regular-expression substitutions that turn a unary minus into a subtraction from
    zero, then `re.findall` of the token pattern. */
module PyTokenize {
  import opened Seqs
  import opened Lexing

  /** Python's `\s` on text: the characters for which `str.isspace()` holds. */
  predicate IsSpace(c: char)
  {
    c == ' ' || '\t' <= c <= '\r' || '\U{1C}' <= c <= '\U{1F}' || c == '\U{85}' || c == '\U{A0}'
    || c == '\U{1680}' || '\U{2000}' <= c <= '\U{200A}' || c == '\U{2028}' || c == '\U{2029}'
    || c == '\U{202F}' || c == '\U{205F}' || c == '\U{3000}'
  }

  predicate AllSpace(s: string)
  {
    forall i :: 0 <= i < |s| ==> IsSpace(s[i])
  }

  /** The first substitution: a minus sign preceded only by whitespace at the very
      start becomes `0-`, and that whitespace goes with it. */
  function RewriteLeading(s: string): string
  {
    var n := RunLength(s, IsSpace);
    if n < |s| && s[n] == '-' then "0-" + s[n + 1..] else s
  }

  /** The second substitution: scanning left to right, each `(` followed by optional
      whitespace and a minus sign becomes `(0-`. */
  function RewriteParen(s: string): string
    decreases |s|
  {
    if s == [] then []
    else if s[0] == '(' then
      var n := RunLength(s[1..], IsSpace);
      if 1 + n < |s| && s[1 + n] == '-' then "(0-" + RewriteParen(s[n + 2..])
      else "(" + RewriteParen(s[1..])
    else [s[0]] + RewriteParen(s[1..])
  }

  /** Both substitutions, in the order the source applies them. */
  function RewriteUnary(expr: string): string
  {
    RewriteParen(RewriteLeading(expr))
  }

  /** `tokenize(expr)`: the tokens of the rewritten text, which written back to back are
      that text with every character outside `\d + - * / % ( )` removed. */
  function Tokenize(expr: string): (tokens: seq<string>)
    ensures AllLexemes(tokens)
    ensures Concat(tokens) == Keep(RewriteUnary(expr))
  {
    LexKeepsTokenChars(RewriteUnary(expr));
    Lex(RewriteUnary(expr))
  }

  /** The text without its whitespace. */
  function Strip(s: string): string
  {
    if s == [] then []
    else if IsSpace(s[0]) then Strip(s[1..])
    else [s[0]] + Strip(s[1..])
  }

  /** Reference for the parenthesis rewrite on text without whitespace: `(-` becomes `(0-`. */
  function ZeroAfterParen(t: string): string
  {
    if t == [] then []
    else if |t| >= 2 && t[0] == '(' && t[1] == '-' then "(0-" + ZeroAfterParen(t[2..])
    else [t[0]] + ZeroAfterParen(t[1..])
  }

  lemma {:induction false} StripAppend(a: string, b: string)
    ensures Strip(a + b) == Strip(a) + Strip(b)
  {
    if a == [] {
      assert a + b == b;
    } else {
      assert (a + b)[1..] == a[1..] + b;
      StripAppend(a[1..], b);
    }
  }

  lemma {:induction false} StripSpaces(s: string)
    requires AllSpace(s)
    ensures Strip(s) == []
  {
    if s != [] {
      StripSpaces(s[1..]);
    }
  }

  /** Whitespace, a minus, then anything: the leading rewrite applies. */
  lemma LeadingMinus(ws: string, rest: string)
    requires AllSpace(ws)
    ensures RewriteLeading(ws + "-" + rest) == "0-" + rest
  {
    var s := ws + "-" + rest;
    var n := RunLength(s, IsSpace);
    assert forall i :: 0 <= i < |ws| ==> s[i] == ws[i];
    assert s[|ws|] == '-';
    assert n == |ws|;
    assert s[n + 1..] == rest;
  }

  /** When the first non-space character is not a minus, the leading rewrite changes nothing. */
  lemma NoLeadingMinus(s: string)
    requires Strip(s) == [] || Strip(s)[0] != '-'
    ensures RewriteLeading(s) == s
  {
    var n := RunLength(s, IsSpace);
    if n < |s| {
      assert s == s[..n] + s[n..];
      StripAppend(s[..n], s[n..]);
      StripSpaces(s[..n]);
      assert Strip(s[n..]) == [s[n]] + Strip(s[n + 1..]) by {
        assert s[n..][1..] == s[n + 1..];
      }
    }
  }

  /** Up to whitespace, the leading rewrite puts a `0` in front of a leading minus and
      does nothing else. */
  lemma RewriteLeadingStripped(s: string)
    ensures Strip(RewriteLeading(s)) ==
      if Strip(s) != [] && Strip(s)[0] == '-' then "0" + Strip(s) else Strip(s)
  {
    var n := RunLength(s, IsSpace);
    assert Strip(s) == Strip(s[n..]) by {
      assert s == s[..n] + s[n..];
      StripAppend(s[..n], s[n..]);
      StripSpaces(s[..n]);
    }
    if n < |s| {
      var x := Strip(s[n + 1..]);
      assert Strip(s[n..]) == [s[n]] + x by {
        assert s[n..][1..] == s[n + 1..];
      }
      if s[n] == '-' {
        LeadingDashStripped(s, n);
        assert "0" + ("-" + x) == "0-" + x;
      } else {
        assert RewriteLeading(s) == s;
      }
    } else {
      assert RewriteLeading(s) == s;
      assert s[n..] == [];
    }
  }

  lemma LeadingDashStripped(s: string, n: nat)
    requires n == RunLength(s, IsSpace) && n < |s| && s[n] == '-'
    ensures Strip(RewriteLeading(s)) == "0-" + Strip(s[n + 1..])
  {
    var u := "0-" + s[n + 1..];
    assert Strip(u) == "0-" + Strip(s[n + 1..]) by {
      assert Strip("0-") == "0-" by {
        assert "0-"[1..] == "-";
        assert "-"[1..] == [];
      }
      StripAppend("0-", s[n + 1..]);
    }
    assert RewriteLeading(s) == u;
  }
  /** `(`, whitespace, a minus, then anything: the parenthesis rewrite applies there. */
  lemma ParenMinus(ws: string, rest: string)
    requires AllSpace(ws)
    ensures RewriteParen("(" + ws + "-" + rest) == "(0-" + RewriteParen(rest)
  {
    var s := "(" + ws + "-" + rest;
    var n := RunLength(s[1..], IsSpace);
    assert forall i :: 0 <= i < |ws| ==> s[1..][i] == ws[i];
    assert s[1..][|ws|] == '-';
    assert n == |ws|;
    assert s[n + 2..] == rest;
  }

  /** `(` directly followed by neither whitespace nor a minus is left as it is. */
  lemma ParenNoMinus(rest: string)
    requires rest == [] || (!IsSpace(rest[0]) && rest[0] != '-')
    ensures RewriteParen("(" + rest) == "(" + RewriteParen(rest)
  {
    var s := "(" + rest;
    assert s[1..] == rest;
    assert RunLength(rest, IsSpace) == 0;
  }

  /** Text that starts with neither whitespace nor a minus passes the leading rewrite
      unchanged. */
  lemma LeadingKept(s: string)
    requires s != [] && !IsSpace(s[0]) && s[0] != '-'
    ensures RewriteLeading(s) == s
  {
    assert RunLength(s, IsSpace) == 0;
  }

  /** A leading minus, then text with no parenthesis: the only rewrite is the `0`
      put in front. */
  lemma LeadingMinusOnly(rest: string)
    requires '(' !in rest
    ensures RewriteUnary("-" + rest) == "0-" + rest
  {
    LeadingMinus("", rest);
    assert "" + "-" + rest == "-" + rest;
    var u := "0-" + rest;
    assert '(' !in u;
    RewriteParenNoParen(u, "");
    assert u + "" == u;
  }

  /** The one parenthesis of `a + "(-" + b` is rewritten, and nothing else. */
  lemma ParenMinusBetween(a: string, b: string)
    requires '(' !in a && '(' !in b
    ensures RewriteParen(a + "(-" + b) == a + "(0-" + b
  {
    assert a + "(-" + b == a + ("(" + "" + "-" + b);
    RewriteParenNoParen(a, "(" + "" + "-" + b);
    ParenMinus("", b);
    RewriteParenNoParen(b, "");
    assert b + "" == b;
    assert a + ("(0-" + b) == a + "(0-" + b;
  }

  /** A parenthesis followed by neither whitespace nor a minus is the only one in
      `a + "(" + b`: the text passes unchanged. */
  lemma ParenPlainBetween(a: string, b: string)
    requires '(' !in a && '(' !in b
    requires b == [] || (!IsSpace(b[0]) && b[0] != '-')
    ensures RewriteParen(a + "(" + b) == a + "(" + b
  {
    assert a + "(" + b == a + ("(" + b);
    RewriteParenNoParen(a, "(" + b);
    ParenNoMinus(b);
    RewriteParenNoParen(b, "");
    assert b + "" == b;
  }

  /** Up to whitespace, the parenthesis rewrite is the plain `(-` to `(0-` replacement. */
  lemma {:induction false} RewriteParenStripped(s: string)
    ensures Strip(RewriteParen(s)) == ZeroAfterParen(Strip(s))
    decreases |s|
  {
    if s == [] {
    } else if s[0] == '(' {
      var n := RunLength(s[1..], IsSpace);
      StripAfterParen(s, n);
      if 1 + n < |s| && s[1 + n] == '-' {
        RewriteParenStripped(s[n + 2..]);
        ParenDashStripped(s, n);
      } else {
        RewriteParenStripped(s[1..]);
        ParenNoDashStripped(s, n);
      }
    } else {
      RewriteParenStripped(s[1..]);
      if !IsSpace(s[0]) {
        assert ([s[0]] + Strip(s[1..]))[1..] == Strip(s[1..]);
      }
    }
  }

  /** Stripping a `(` and the whitespace after it. */
  lemma StripAfterParen(s: string, n: nat)
    requires s != [] && s[0] == '('
    requires n == RunLength(s[1..], IsSpace)
    ensures Strip(s) == "(" + Strip(s[1 + n..])
    ensures Strip(s[1..]) == Strip(s[1 + n..])
  {
    StripBlankRun(s[1..], n);
    assert s[1..][n..] == s[1 + n..];
    assert Strip(s) == [s[0]] + Strip(s[1..]) by {
      assert !IsSpace(s[0]);
    }
  }

  /** Stripping drops a leading run of whitespace. */
  lemma StripBlankRun(t: string, n: nat)
    requires n == RunLength(t, IsSpace)
    ensures Strip(t) == Strip(t[n..])
  {
    var ws := t[..n];
    assert AllSpace(ws);
    assert t == ws + t[n..];
    StripAppend(ws, t[n..]);
    StripSpaces(ws);
  }
  /** The step of RewriteParenStripped where `(`, whitespace and `-` are rewritten. */
  lemma ParenDashStripped(s: string, n: nat)
    requires s != [] && s[0] == '('
    requires n == RunLength(s[1..], IsSpace)
    requires 1 + n < |s| && s[1 + n] == '-'
    requires Strip(s) == "(" + Strip(s[1 + n..])
    requires Strip(RewriteParen(s[n + 2..])) == ZeroAfterParen(Strip(s[n + 2..]))
    ensures Strip(RewriteParen(s)) == ZeroAfterParen(Strip(s))
  {
    var rest := s[n + 2..];
    assert Strip(RewriteParen(s)) == "(0-" + Strip(RewriteParen(rest)) by {
      assert RewriteParen(s) == "(0-" + RewriteParen(rest);
      StripAppend("(0-", RewriteParen(rest));
      assert Strip("(0-") == "(0-" by {
        assert "(0-"[1..] == "0-" && "0-"[1..] == "-" && "-"[1..] == [];
      }
    }
    var t := "(-" + Strip(rest);
    assert Strip(s) == t by {
      assert Strip(s[1 + n..]) == "-" + Strip(rest) by { assert s[1 + n..][1..] == rest; }
    }
    assert ZeroAfterParen(t) == "(0-" + ZeroAfterParen(Strip(rest)) by {
      assert t[0] == '(' && t[1] == '-' && t[2..] == Strip(rest);
    }
  }
  /** The step of RewriteParenStripped where a `(` is not followed by a minus. */
  lemma ParenNoDashStripped(s: string, n: nat)
    requires s != [] && s[0] == '('
    requires n == RunLength(s[1..], IsSpace)
    requires !(1 + n < |s| && s[1 + n] == '-')
    requires Strip(s) == "(" + Strip(s[1 + n..])
    requires Strip(s[1..]) == Strip(s[1 + n..])
    requires Strip(RewriteParen(s[1..])) == ZeroAfterParen(Strip(s[1..]))
    ensures Strip(RewriteParen(s)) == ZeroAfterParen(Strip(s))
  {
    var x := Strip(s[1 + n..]);
    assert x == [] || x[0] != '-' by {
      if 1 + n < |s| {
        assert !IsSpace(s[1 + n]);
        assert x == [s[1 + n]] + Strip(s[2 + n..]) by { assert s[1 + n..][1..] == s[2 + n..]; }
      } else {
        assert s[1 + n..] == [];
      }
    }
    assert ("(" + x)[1..] == x;
    assert RewriteParen(s) == "(" + RewriteParen(s[1..]);
    StripAppend("(", RewriteParen(s[1..]));
  }

  /** The parenthesis rewrite passes over text that holds no `(`. */
  lemma {:induction false} RewriteParenNoParen(a: string, b: string)
    requires '(' !in a
    ensures RewriteParen(a + b) == a + RewriteParen(b)
  {
    if a != [] {
      assert (a + b)[0] == a[0] && (a + b)[1..] == a[1..] + b;
      RewriteParenNoParen(a[1..], b);
    } else {
      assert a + b == b;
    }
  }

  /** Tokens written back to back, with no `(` directly before a `-`, are left alone by
      the parenthesis rewrite. */
  lemma {:induction false} RewriteParenConcat(ts: seq<string>)
    requires AllLexemes(ts)
    requires forall i :: 0 <= i < |ts| - 1 ==> !(ts[i] == "(" && ts[i + 1] == "-")
    ensures RewriteParen(Concat(ts)) == Concat(ts)
  {
    if ts != [] {
      var x := Concat(ts[1..]);
      RewriteParenConcat(ts[1..]);
      if ts[0] == "(" {
        assert Concat(ts) == "(" + x;
        var s := "(" + x;
        assert s[1..] == x;
        if x != [] {
          var t := ts[1];
          assert x == t + Concat(ts[2..]) by { assert ts[1..][1..] == ts[2..]; }
          assert IsLexeme(t) && t != "-";
          assert x[0] == t[0];
          assert !IsSpace(x[0]) && x[0] != '-' by {
            if IsDigits(t) { assert IsDigit(t[0]); } else { assert t == [t[0]]; }
          }
          assert RunLength(x, IsSpace) == 0;
        }
      } else {
        assert '(' !in ts[0] by {
          if IsDigits(ts[0]) {
            assert forall i :: 0 <= i < |ts[0]| ==> ts[0][i] != '(';
          } else {
            assert ts[0] == [ts[0][0]];
          }
        }
        RewriteParenNoParen(ts[0], x);
      }
    }
  }
}
