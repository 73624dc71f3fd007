/** The token pattern both implementations share: `\d+` or one of `+ - * / % ( )`,
    matched left to right and without overlap, with everything between matches
    skipped. Python runs it with `re.findall`, Rust with `Regex::find_iter`. Digits
    are the ASCII digits. */
module Lexing {
  import opened Seqs

  predicate IsDigit(c: char)
  {
    '0' <= c <= '9'
  }

  predicate IsOperatorChar(c: char)
  {
    c == '+' || c == '-' || c == '*' || c == '/' || c == '%'
  }

  /** The characters that form a token of their own. */
  predicate IsSymbolChar(c: char)
  {
    IsOperatorChar(c) || c == '(' || c == ')'
  }

  predicate IsTokenChar(c: char)
  {
    IsDigit(c) || IsSymbolChar(c)
  }

  predicate AllDigits(s: string)
  {
    forall i :: 0 <= i < |s| ==> IsDigit(s[i])
  }

  /** A match of `\d+`. */
  predicate IsDigits(s: string)
  {
    |s| > 0 && AllDigits(s)
  }

  /** A match of the whole token pattern. */
  predicate IsLexeme(s: string)
  {
    IsDigits(s) || (|s| == 1 && IsSymbolChar(s[0]))
  }

  predicate AllLexemes(ts: seq<string>)
  {
    forall i :: 0 <= i < |ts| ==> IsLexeme(ts[i])
  }

  /** The length of the longest prefix of `s` whose characters all satisfy `p`. */
  function RunLength(s: string, p: char -> bool): (n: nat)
    ensures n <= |s|
    ensures forall i :: 0 <= i < n ==> p(s[i])
    ensures n < |s| ==> !p(s[n])
  {
    if s == [] || !p(s[0]) then 0 else 1 + RunLength(s[1..], p)
  }

  /** `findall` / `find_iter` of the token pattern over `s`, as the list of matched texts. */
  function Lex(s: string): (tokens: seq<string>)
    ensures AllLexemes(tokens)
    decreases |s|
  {
    if s == [] then []
    else if IsDigit(s[0]) then
      var n := RunLength(s, IsDigit);
      [s[..n]] + Lex(s[n..])
    else if IsSymbolChar(s[0]) then [[s[0]]] + Lex(s[1..])
    else Lex(s[1..])
  }

  /** The characters of `s` that belong to some token, in order. */
  function Keep(s: string): string
  {
    if s == [] then []
    else if IsTokenChar(s[0]) then [s[0]] + Keep(s[1..])
    else Keep(s[1..])
  }

  /** The texts of `ts` written one after the other. */
  function Concat(ts: seq<string>): string
  {
    if ts == [] then [] else ts[0] + Concat(ts[1..])
  }

  /** Writing two token lists out one after the other. */
  lemma {:induction false} ConcatAppend(a: seq<string>, b: seq<string>)
    ensures Concat(a + b) == Concat(a) + Concat(b)
  {
    if a == [] {
      assert a + b == b;
    } else {
      assert (a + b)[1..] == a[1..] + b;
      ConcatAppend(a[1..], b);
    }
  }

  /** A character outside every token is skipped. */
  lemma LexSkip(c: char, rest: string)
    requires !IsTokenChar(c)
    ensures Lex([c] + rest) == Lex(rest)
  {
    assert ([c] + rest)[1..] == rest;
  }

  lemma {:induction false} KeepAppend(a: string, b: string)
    ensures Keep(a + b) == Keep(a) + Keep(b)
  {
    if a == [] {
      assert a + b == b;
    } else {
      assert (a + b)[1..] == a[1..] + b;
      KeepAppend(a[1..], b);
    }
  }

  lemma {:induction false} KeepTokenChars(s: string)
    requires forall i :: 0 <= i < |s| ==> IsTokenChar(s[i])
    ensures Keep(s) == s
  {
    if s != [] {
      KeepTokenChars(s[1..]);
    }
  }

  /** Nothing is lost or invented by tokenizing: the tokens, written back to back, are
      exactly the input with every non-token character (whitespace included) removed. */
  lemma {:induction false} LexKeepsTokenChars(s: string)
    ensures Concat(Lex(s)) == Keep(s)
    decreases |s|
  {
    if s == [] {
    } else if IsDigit(s[0]) {
      var n := RunLength(s, IsDigit);
      assert s == s[..n] + s[n..];
      KeepAppend(s[..n], s[n..]);
      KeepTokenChars(s[..n]);
      LexKeepsTokenChars(s[n..]);
      assert Lex(s) == [s[..n]] + Lex(s[n..]);
      assert Lex(s)[1..] == Lex(s[n..]);
    } else if IsSymbolChar(s[0]) {
      LexKeepsTokenChars(s[1..]);
      assert Lex(s)[1..] == Lex(s[1..]);
    } else {
      LexKeepsTokenChars(s[1..]);
    }
  }

  /** Maximal munch: a run of digits that is not followed by another digit is one token. */
  lemma LexDigitRun(d: string, rest: string)
    requires IsDigits(d)
    requires rest == [] || !IsDigit(rest[0])
    ensures Lex(d + rest) == [d] + Lex(rest)
  {
    var s := d + rest;
    var n := RunLength(s, IsDigit);
    assert forall i :: 0 <= i < |d| ==> s[i] == d[i];
    assert |d| < |s| ==> s[|d|] == rest[0];
    assert n == |d|;
    assert s[..n] == d && s[n..] == rest;
  }

  /** A lone operator or parenthesis character is one token. */
  lemma LexSymbol(c: char, rest: string)
    requires IsSymbolChar(c)
    ensures Lex([c] + rest) == [[c]] + Lex(rest)
  {
    assert ([c] + rest)[1..] == rest;
  }

  /** One character in front of text: a token of its own when it is a token character
      that does not run into a following digit, nothing when it is not. */
  lemma LexCons(c: char, rest: string)
    requires !IsDigit(c) || rest == [] || !IsDigit(rest[0])
    ensures Lex([c] + rest) == (if IsTokenChar(c) then [[c]] else []) + Lex(rest)
  {
    if IsDigit(c) {
      LexDigitRun([c], rest);
    } else if IsSymbolChar(c) {
      LexSymbol(c, rest);
    } else {
      LexSkip(c, rest);
    }
  }

  /** A blank, then a one-character token that the next character does not extend. */
  lemma BlankToken(c: char, rest: string)
    requires IsSymbolChar(c) || (IsDigit(c) && (rest == [] || !IsDigit(rest[0])))
    ensures Lex([' ', c] + rest) == [[c]] + Lex(rest)
  {
    LexCons(c, rest);
    LexCons(' ', [c] + rest);
    assert [' ', c] + rest == [' '] + ([c] + rest);
  }

  /** No two digit tokens stand side by side: when they are written back to back,
      they do not merge. */
  predicate Separated(ts: seq<string>)
  {
    forall i :: 0 <= i < |ts| - 1 ==> !(IsDigits(ts[i]) && IsDigits(ts[i + 1]))
  }

  /** Tokenizing is a left inverse of writing tokens back to back, when no two digit
      tokens are adjacent. */
  lemma {:induction false} LexConcat(ts: seq<string>)
    requires AllLexemes(ts) && Separated(ts)
    ensures Lex(Concat(ts)) == ts
  {
    if ts != [] {
      var rest := Concat(ts[1..]);
      assert AllLexemes(ts[1..]) && Separated(ts[1..]) by {
        forall i | 0 <= i < |ts[1..]| - 1
          ensures !(IsDigits(ts[1..][i]) && IsDigits(ts[1..][i + 1]))
        {
          assert ts[1..][i] == ts[i + 1] && ts[1..][i + 1] == ts[i + 2];
        }
      }
      LexConcat(ts[1..]);
      if IsDigits(ts[0]) {
        assert rest == [] || !IsDigit(rest[0]) by {
          if ts[1..] != [] {
            var t := ts[1];
            assert Concat(ts[1..]) == t + Concat(ts[2..]) by { assert ts[1..][1..] == ts[2..]; }
            assert !IsDigits(t);
            assert |t| == 1 && IsSymbolChar(t[0]);
            assert rest[0] == t[0];
          } else {
            assert rest == [];
          }
        }
        LexDigitRun(ts[0], rest);
      } else {
        assert ts[0] == [ts[0][0]];
        LexSymbol(ts[0][0], rest);
      }
    }
  }

  /** Tokenizing splits over a concatenation that does not cut through a digit run. */
  lemma {:induction false} LexAppend(a: string, b: string)
    requires a == [] || b == [] || !IsDigit(a[|a| - 1]) || !IsDigit(b[0])
    ensures Lex(a + b) == Lex(a) + Lex(b)
    decreases |a|
  {
    if a == [] {
      assert a + b == b;
    } else if IsDigit(a[0]) {
      var n := RunLength(a, IsDigit);
      if n < |a| {
        assert Lex(a + b) == Lex(a) + Lex(b) by {
          assert RunLength(a + b, IsDigit) == n by {
            RunLengthAppend(a, b, IsDigit);
          }
          assert (a + b)[..n] == a[..n] && (a + b)[n..] == a[n..] + b;
          LexAppend(a[n..], b);
        }
      } else {
        assert Lex(a + b) == Lex(a) + Lex(b) by {
          assert a[..n] == a && a[n..] == [];
          LexDigitRun(a, b);
          assert Lex(a) == [a] + Lex([]);
        }
      }
    } else {
      assert Lex(a + b) == Lex(a) + Lex(b) by {
        ConsAppend(a, b);
        LexAppend(a[1..], b);
      }
    }
  }

  /** A run that stops inside `a` stops at the same place in `a + b`. */
  lemma {:induction false} RunLengthAppend(a: string, b: string, p: char -> bool)
    requires RunLength(a, p) < |a|
    ensures RunLength(a + b, p) == RunLength(a, p)
    decreases |a|
  {
    ConsAppend(a, b);
    if p(a[0]) {
      RunLengthAppend(a[1..], b, p);
    }
  }

  /** One character on its own is one token, or none. */
  lemma LexChar(c: char)
    ensures Lex([c]) == if IsDigit(c) || IsSymbolChar(c) then [[c]] else []
  {
    if IsDigit(c) {
      LexDigitRun([c], []);
      assert [c] + [] == [c];
    } else if IsSymbolChar(c) {
      LexSymbol(c, []);
      assert [c] + [] == [c];
    } else {
      assert [c][1..] == [];
    }
  }

  /** The tokens among pieces of text that are tokens or single blanks. */
  function NonBlank(ps: seq<string>): seq<string>
  {
    if ps == [] then [] else (if ps[0] == " " then [] else [ps[0]]) + NonBlank(ps[1..])
  }

  /** Text written as tokens and single blanks tokenizes to the tokens, provided no
      two digit runs touch: blanks separate tokens and are then dropped. */
  lemma {:induction false} LexPieces(ps: seq<string>)
    requires forall i :: 0 <= i < |ps| ==> IsLexeme(ps[i]) || ps[i] == " "
    requires Separated(ps)
    ensures Lex(Concat(ps)) == NonBlank(ps)
  {
    if ps != [] {
      var rest := Concat(ps[1..]);
      assert Separated(ps[1..]) by {
        forall i | 0 <= i < |ps[1..]| - 1
          ensures !(IsDigits(ps[1..][i]) && IsDigits(ps[1..][i + 1]))
        {
          assert ps[1..][i] == ps[i + 1] && ps[1..][i + 1] == ps[i + 2];
        }
      }
      assert forall i :: 0 <= i < |ps[1..]| ==> IsLexeme(ps[1..][i]) || ps[1..][i] == " " by {
        assert forall i :: 0 <= i < |ps[1..]| ==> ps[1..][i] == ps[i + 1];
      }
      LexPieces(ps[1..]);
      if ps[0] == " " {
        assert Concat(ps) == [' '] + rest;
        assert ([' '] + rest)[1..] == rest;
      } else if IsDigits(ps[0]) {
        assert rest == [] || !IsDigit(rest[0]) by {
          if ps[1..] != [] {
            var t := ps[1];
            assert Concat(ps[1..]) == t + Concat(ps[2..]) by { assert ps[1..][1..] == ps[2..]; }
            assert !IsDigits(t);
            assert |t| == 1 && (IsSymbolChar(t[0]) || t[0] == ' ');
            assert rest[0] == t[0];
          } else {
            assert rest == [];
          }
        }
        LexDigitRun(ps[0], rest);
      } else {
        assert ps[0] == [ps[0][0]];
        LexSymbol(ps[0][0], rest);
      }
    }
  }

  /** The value of a decimal digit string (Python `int(token)`, Rust `token.parse()`
      before the range check). */
  function DigitsValue(s: string): nat
    requires AllDigits(s)
  {
    if s == [] then 0
    else DigitsValue(s[..|s| - 1]) * 10 + ((s[|s| - 1] as int) - ('0' as int))
  }

  /** The decimal numeral of `n`, without leading zeros. */
  function NatToDigits(n: nat): (s: string)
    ensures IsDigits(s) && DigitsValue(s) == n
  {
    var last := [(('0' as int) + n % 10) as char];
    if n < 10 then last
    else
      var prefix := NatToDigits(n / 10);
      assert (prefix + last)[..|prefix|] == prefix;
      prefix + last
  }
}
