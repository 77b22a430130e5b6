/** What the tokenizer does with any text: it keeps every character but white space, and takes the longest tokens. */
module ExprTokens {
  import opened ExprSyntax

  // ---- Nothing is lost ----

  /** The text without its white space. */
  function Solid(s: string): string {
    if s == "" then "" else (if IsSpace(s[0]) then "" else [s[0]]) + Solid(s[1..])
  }

  function Flat(tokens: seq<string>): string {
    if tokens == [] then "" else tokens[0] + Flat(tokens[1..])
  }

  lemma {:induction false} LowerAppend(a: string, b: string)
    ensures LowerText(a + b) == LowerText(a) + LowerText(b)
  {
    if a == "" {
      assert a + b == b;
    } else {
      assert (a + b)[1..] == a[1..] + b;
      LowerAppend(a[1..], b);
    }
  }

  lemma {:induction false} LowerTwice(s: string)
    ensures LowerText(LowerText(s)) == LowerText(s)
  {
    if s != "" {
      LowerTwice(s[1..]);
    }
  }

  lemma {:induction false} SolidPrefix(s: string, n: nat)
    requires n <= |s| && forall i :: 0 <= i < n ==> !IsSpace(s[i])
    ensures Solid(s) == s[..n] + Solid(s[n..])
  {
    if n > 0 {
      SolidPrefix(s[1..], n - 1);
      assert s[..n] == [s[0]] + s[1..][..n - 1];
      assert s[1..][n - 1..] == s[n..];
    } else {
      assert s[0..] == s;
    }
  }

  lemma {:induction false} SpanHasNoSpace(s: string)
    ensures forall i :: 0 <= i < NumberSpan(s) ==> InNumber(s[i])
    ensures forall i :: 0 <= i < IdentSpan(s) ==> InIdent(s[i])
    ensures NumberSpan(s) < |s| ==> !InNumber(s[NumberSpan(s)])
    ensures IdentSpan(s) < |s| ==> !InIdent(s[IdentSpan(s)])
  {
    if s != "" {
      SpanHasNoSpace(s[1..]);
    }
  }

  lemma WordIsNoSpace(c: char)
    requires c == '=' || InNumber(c) || InIdent(c)
    ensures !IsSpace(c)
  {
  }

  lemma TokenIsSolid(s: string)
    requires s != "" && !IsSpace(s[0])
    ensures forall i :: 0 <= i < TokenSpan(s) ==> !IsSpace(s[i])
  {
    SpanHasNoSpace(s);
    forall i | 0 <= i < TokenSpan(s)
      ensures !IsSpace(s[i])
    {
      assert i == 0 || s[i] == '=' || InNumber(s[i]) || InIdent(s[i]);
      if i > 0 {
        WordIsNoSpace(s[i]);
      }
    }
  }

  /** The tokens of a text, written one after the other, are the text without its white space, up to case. */
  lemma {:induction false} TokensKeepText(s: string)
    ensures LowerText(Flat(Tokens(s))) == LowerText(Solid(s))
    decreases |s|
  {
    hide TokenSpan, IsSpace;
    if s != "" {
      if IsSpace(s[0]) {
        TokensKeepText(s[1..]);
        assert Solid(s) == Solid(s[1..]);
      } else {
        var n := TokenSpan(s);
        TokensKeepText(s[n..]);
        TokenIsSolid(s);
        SolidPrefix(s, n);
        assert ([TokenAt(s)] + Tokens(s[n..]))[1..] == Tokens(s[n..]);
        LowerAppend(TokenAt(s), Flat(Tokens(s[n..])));
        LowerAppend(s[..n], Solid(s[n..]));
        LowerTwice(s[..n]);
      }
    }
  }

  // ---- Where tokens end, with or without spaces ----

  lemma {:induction false} NumberRun(word: string, rest: string)
    requires forall i :: 0 <= i < |word| ==> InNumber(word[i])
    requires rest == "" || !InNumber(rest[0])
    ensures NumberSpan(word + rest) == |word|
  {
    if word == "" {
      assert word + rest == rest;
    } else {
      assert (word + rest)[1..] == word[1..] + rest;
      NumberRun(word[1..], rest);
    }
  }

  lemma {:induction false} IdentRun(word: string, rest: string)
    requires forall i :: 0 <= i < |word| ==> InIdent(word[i])
    requires rest == "" || !InIdent(rest[0])
    ensures IdentSpan(word + rest) == |word|
  {
    if word == "" {
      assert word + rest == rest;
    } else {
      assert (word + rest)[1..] == word[1..] + rest;
      IdentRun(word[1..], rest);
    }
  }

  /** A run of digits and points is one token, up to the first other character. */
  lemma NumberToken(word: string, rest: string)
    requires word != "" && forall i :: 0 <= i < |word| ==> '0' <= word[i] <= '9' || word[i] == '.'
    requires rest == "" || !('0' <= rest[0] <= '9' || rest[0] == '.')
    ensures Tokens(word + rest) == [word] + Tokens(rest)
  {
    var s := word + rest;
    NumberRun(word, rest);
    assert s[0] == word[0] && s[..|word|] == word && s[|word|..] == rest;
  }

  predicate LetterOrUnderscore(c: char) {
    'a' <= c <= 'z' || 'A' <= c <= 'Z' || c == '_'
  }

  /** A word is one token, up to the first character that is neither letter, digit nor underscore, in lower case. */
  lemma IdentToken(word: string, rest: string)
    requires word != "" && LetterOrUnderscore(word[0])
    requires forall i :: 0 <= i < |word| ==> LetterOrUnderscore(word[i]) || '0' <= word[i] <= '9'
    requires rest == "" || !(LetterOrUnderscore(rest[0]) || '0' <= rest[0] <= '9')
    ensures Tokens(word + rest) == [LowerText(word)] + Tokens(rest)
  {
    var s := word + rest;
    IdentRun(word, rest);
    assert s[0] == word[0] && s[..|word|] == word && s[|word|..] == rest;
  }

  /** A comparison takes an equals sign behind it; every other sign stands alone. */
  lemma SignToken(c: char, rest: string)
    requires c in "()+-*/<>=!"
    ensures Tokens([c] + rest)
         == if c in "<>=!" && rest != "" && rest[0] == '=' then [[c, '=']] + Tokens(rest[1..]) else [[c]] + Tokens(rest)
  {
    hide Tokens;
    var s := [c] + rest;
    assert s[1..] == rest && s[..1] == [c];
    SignSpan(c, s);
    SolidTokens(s);
    if c in "<>=!" && rest != "" && rest[0] == '=' {
      assert s[..2] == [c, '='] && s[2..] == rest[1..];
    }
  }

  lemma SignSpan(c: char, s: string)
    requires c in "()+-*/<>=!" && s != "" && s[0] == c
    ensures !IsSpace(c) && !StartsIdent(c)
    ensures TokenSpan(s) == if c in "<>=!" && |s| > 1 && s[1] == '=' then 2 else 1
  {
  }

  lemma SolidTokens(s: string)
    requires s != "" && !IsSpace(s[0])
    ensures Tokens(s) == [TokenAt(s)] + Tokens(s[TokenSpan(s)..])
  {
  }

  // ---- Numerals, and texts with nothing in them ----

  predicate Digits(s: string) {
    forall i :: 0 <= i < |s| ==> '0' <= s[i] <= '9'
  }

  lemma {:induction false} DotsOfDigits(s: string)
    ensures Digits(s) ==> Dots(s) == 0
    ensures Dots(s) == 0 && (forall i :: 0 <= i < |s| ==> InNumber(s[i])) ==> Digits(s)
  {
    if s != "" {
      DotsOfDigits(s[1..]);
      assert forall i :: 0 < i < |s| ==> s[i] == s[1..][i - 1];
    }
  }

  lemma {:induction false} DotsAt(s: string, i: nat)
    requires i < |s| && s[i] == '.'
    ensures Dots(s) == Dots(s[..i]) + 1 + Dots(s[i + 1..])
  {
    if i > 0 {
      DotsAt(s[1..], i - 1);
      assert s[1..][..i - 1] == s[..i][1..] && s[1..][i..] == s[i + 1..];
    } else {
      assert s[..0] == "";
    }
  }

  /** The point at index i, with digits on both sides, at least one in all. */
  predicate PointAt(s: string, i: nat) {
    i < |s| && s[i] == '.' && Digits(s[..i]) && Digits(s[i + 1..]) && |s| > 1
  }

  /** A numeral is a run of digits, or digits around one point; a point alone is none. */
  lemma NumeralsExactly(s: string)
    ensures IsNumeral(s) <==> (s != "" && Digits(s)) || exists i: nat :: PointAt(s, i)
  {
    DotsOfDigits(s);
    if s != "" && Digits(s) {
      assert IsDigit(s[0]);
    } else if i: nat :| PointAt(s, i) {
      PointIsNumeral(s, i);
    } else if IsNumeral(s) {
      var i := FirstDot(s);
      DotsAt(s, i);
      DotsOfDigits(s[..i]);
      DotsOfDigits(s[i + 1..]);
      assert PointAt(s, i);
    }
  }

  lemma PointIsNumeral(s: string, i: nat)
    requires PointAt(s, i)
    ensures IsNumeral(s)
  {
    DotsAt(s, i);
    DotsOfDigits(s[..i]);
    DotsOfDigits(s[i + 1..]);
    forall j | 0 <= j < |s|
      ensures InNumber(s[j])
    {
      assert j < i ==> s[j] == s[..i][j];
      assert j > i ==> s[j] == s[i + 1..][j - i - 1];
    }
    var d := if i > 0 then 0 else 1;
    assert i > 0 ==> s[0] == s[..i][0];
    assert i == 0 ==> s[1] == s[1..][0];
    assert IsDigit(s[d]);
  }

  lemma {:induction false} FirstDot(s: string) returns (i: nat)
    requires (forall i :: 0 <= i < |s| ==> InNumber(s[i])) && !Digits(s)
    ensures i < |s| && s[i] == '.'
  {
    if s[0] == '.' {
      i := 0;
    } else {
      assert forall j :: 0 < j < |s| ==> s[j] == s[1..][j - 1];
      var j := FirstDot(s[1..]);
      i := j + 1;
    }
  }

  /** A text of nothing but white space has no tokens and is rejected as ending too early. */
  lemma {:induction false} BlankIsRejected(s: string)
    requires forall i :: 0 <= i < |s| ==> s[i] in " \t\n\r"
    ensures Tokens(s) == [] && ParseText(s) == Rejected(UnexpectedEnd)
  {
    hide OrAt;
    if s != "" {
      BlankIsRejected(s[1..]);
    } else {
      NothingToParse();
    }
  }

  lemma NothingToParse()
    ensures ParseTokens([]) == Rejected(UnexpectedEnd)
  {
    assert UnaryAt([], 0) == Bad(UnexpectedEnd);
  }
}
