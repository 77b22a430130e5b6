/** Printing an expression and parsing the text gives the expression back, exactly for printable leaves. */
module ExprRoundTrip {
  import opened Errors
  import opened ExprSyntax
  import opened ExprTokens

  // ---- The tokens of a printed expression ----

  function UnaryToken(op: UnaryOp): string {
    match op
    case Neg => "-"
    case Not => "not"
  }

  function ShownTokens(e: Expr): (tokens: seq<string>)
    ensures |tokens| > 0
  {
    match e
    case Literal(text) => [text]
    case Column(name) => [name]
    case Binary(lhs, op, rhs) => ["("] + ShownTokens(lhs) + [OpText(op)] + ShownTokens(rhs) + [")"]
    case Unary(op, inner) => ["(", UnaryToken(op)] + ShownTokens(inner) + [")"]
  }

  /** A text at whose start every token before it has ended. */
  predicate Delimits(rest: string) {
    rest == "" || rest[0] == ' ' || rest[0] == ')'
  }

  lemma {:induction false} LowerStays(word: string)
    requires forall i :: 0 <= i < |word| ==> Lower(word[i]) == word[i]
    ensures LowerText(word) == word
  {
    if word != "" {
      LowerStays(word[1..]);
    }
  }

  /** A word is one token when it starts the text and something delimits it. */
  lemma WordToken(word: string, rest: string)
    requires LowerIdent(word) || IsNumeral(word)
    requires Delimits(rest)
    ensures Tokens(word + rest) == [word] + Tokens(rest)
  {
    var s := word + rest;
    assert s[0] == word[0];
    if IsNumeral(word) {
      NumberRun(word, rest);
    } else {
      IdentRun(word, rest);
      LowerStays(word);
    }
    assert s[..|word|] == word;
    assert s[|word|..] == rest;
  }

  lemma WordsAreIdents()
    ensures LowerIdent("inf") && LowerIdent("infinity") && LowerIdent("nan") && LowerIdent("not")
    ensures LowerIdent("and") && LowerIdent("or")
  {
  }

  lemma CharToken(c: char, rest: string)
    requires c == '(' || c == ')' || c == '-'
    ensures Tokens([c] + rest) == [[c]] + Tokens(rest)
  {
    var s := [c] + rest;
    assert s[..1] == [c];
    assert s[1..] == rest;
  }

  lemma SpaceToken(rest: string)
    ensures Tokens(" " + rest) == Tokens(rest)
  {
    assert (" " + rest)[1..] == rest;
  }

  /** An operator between spaces is one token. */
  lemma OpToken(op: BinOp, rest: string)
    requires Delimits(rest)
    ensures Tokens(OpText(op) + rest) == [OpText(op)] + Tokens(rest)
  {
    var text := OpText(op);
    if op.And? || op.Or? {
      WordsAreIdents();
      WordToken(text, rest);
    } else {
      var s := text + rest;
      assert s[..|text|] == text;
      assert s[|text|..] == rest;
    }
  }

  lemma UnaryTokens(op: UnaryOp, rest: string)
    ensures Tokens(UnaryText(op) + rest) == [UnaryToken(op)] + Tokens(rest)
  {
    if op.Neg? {
      CharToken('-', rest);
    } else {
      WordsAreIdents();
      WordToken("not", " " + rest);
      assert "not " + rest == "not" + (" " + rest);
      SpaceToken(rest);
    }
  }

  /** Tokenizing a printed expression finds exactly its tokens, whatever delimited text follows. */
  lemma {:induction false} TokensOfShown(e: Expr, rest: string)
    requires Printable(e)
    requires Delimits(rest)
    ensures Tokens(Show(e) + rest) == ShownTokens(e) + Tokens(rest)
    decreases e
  {
    hide Tokens;
    WordsAreIdents();
    match e {
      case Literal(text) => WordToken(text, rest);
      case Column(name) => WordToken(name, rest);
      case Binary(lhs, op, rhs) => BinaryTokens(lhs, op, rhs, rest);
      case Unary(op, inner) => UnaryTokensOfShown(op, inner, rest);
    }
  }

  lemma RightNested<T>(a: seq<T>, b: seq<T>, c: seq<T>, d: seq<T>, e: seq<T>, rest: seq<T>)
    ensures a + b + c + d + e + rest == a + (b + (c + (d + (e + rest))))
  {
    assert a + b + c + d + e + rest == a + b + c + d + (e + rest);
    assert a + b + c + d + (e + rest) == a + b + c + (d + (e + rest));
    assert a + b + c + (d + (e + rest)) == a + b + (c + (d + (e + rest)));
  }

  lemma {:induction false} BinaryTokens(lhs: Expr, op: BinOp, rhs: Expr, rest: string)
    requires Printable(lhs) && Printable(rhs)
    ensures Tokens(Show(Binary(lhs, op, rhs)) + rest) == ShownTokens(Binary(lhs, op, rhs)) + Tokens(rest)
    decreases Binary(lhs, op, rhs), 0
  {
    hide Tokens, OpText;
    var e := ")" + rest;
    var d := Show(rhs) + e;
    var c := " " + d;
    var b := OpText(op) + c;
    var a := Show(lhs) + (" " + b);
    BinaryTextParts(lhs, op, rhs, rest);
    CharToken('(', a);
    TokensOfShown(lhs, " " + b);
    SpaceToken(b);
    OpToken(op, c);
    SpaceToken(d);
    TokensOfShown(rhs, e);
    CharToken(')', rest);
    RightNested(["("], ShownTokens(lhs), [OpText(op)], ShownTokens(rhs), [")"], Tokens(rest));
  }

  lemma BinaryTextParts(lhs: Expr, op: BinOp, rhs: Expr, rest: string)
    ensures Show(Binary(lhs, op, rhs)) + rest
         == "(" + (Show(lhs) + (" " + (OpText(op) + (" " + (Show(rhs) + (")" + rest))))))
  {
    hide OpText;
    RightNested("(", Show(lhs), " ", OpText(op), " ", Show(rhs) + (")" + rest));
    assert "(" + Show(lhs) + " " + OpText(op) + " " + Show(rhs) + ")" + rest
        == "(" + Show(lhs) + " " + OpText(op) + " " + (Show(rhs) + (")" + rest));
  }

  lemma UnaryTextParts(op: UnaryOp, inner: Expr, rest: string)
    ensures Show(Unary(op, inner)) + rest == "(" + (UnaryText(op) + (Show(inner) + (")" + rest)))
  {
    hide UnaryText;
    RightNested("(", UnaryText(op), Show(inner), ")", "", rest);
  }

  lemma {:induction false} UnaryTokensOfShown(op: UnaryOp, inner: Expr, rest: string)
    requires Printable(inner)
    ensures Tokens(Show(Unary(op, inner)) + rest) == ShownTokens(Unary(op, inner)) + Tokens(rest)
    decreases Unary(op, inner), 0
  {
    hide Tokens, UnaryText, UnaryToken, Show, Printable;
    var b := Show(inner) + (")" + rest);
    UnaryTextParts(op, inner, rest);
    CharToken('(', UnaryText(op) + b);
    UnaryTokens(op, b);
    TokensOfShown(inner, ")" + rest);
    CharToken(')', rest);
    var i := ShownTokens(inner);
    assert ["("] + [UnaryToken(op)] == ["(", UnaryToken(op)];
    RightNested(["("], [UnaryToken(op)], i, [")"], [], Tokens(rest));
  }

  // ---- Parsing the tokens of a printed expression ----

  /** The token list holds `part` at position p. */
  predicate Holds(tokens: seq<string>, p: nat, part: seq<string>) {
    p + |part| <= |tokens| && tokens[p..p + |part|] == part
  }

  /** Nothing follows that any level would take as an operator. */
  predicate Ends(tokens: seq<string>, p: nat) {
    p == |tokens| || (p < |tokens| && tokens[p] == ")")
  }

  // What one level reads alone, the next level up reads alone, when no operator of its own follows.

  lemma MulAlone(tokens: seq<string>, p: nat, e: Expr, q: nat)
    requires p < q <= |tokens|
    requires UnaryAt(tokens, p) == Got(e, q)
    requires MulOp(Peek(tokens, q)).None?
    ensures MulAt(tokens, p) == Got(e, q)
  {
  }

  lemma AddAlone(tokens: seq<string>, p: nat, e: Expr, q: nat)
    requires p < q <= |tokens|
    requires MulAt(tokens, p) == Got(e, q)
    requires AddOp(Peek(tokens, q)).None?
    ensures AddAt(tokens, p) == Got(e, q)
  {
  }

  lemma CmpAlone(tokens: seq<string>, p: nat, e: Expr, q: nat)
    requires p < q <= |tokens|
    requires AddAt(tokens, p) == Got(e, q)
    requires CmpOp(Peek(tokens, q)).None?
    ensures CmpAt(tokens, p) == Got(e, q)
  {
  }

  lemma AndAlone(tokens: seq<string>, p: nat, e: Expr, q: nat)
    requires p < q <= |tokens|
    requires CmpAt(tokens, p) == Got(e, q)
    requires AndOp(Peek(tokens, q)).None?
    ensures AndAt(tokens, p) == Got(e, q)
  {
  }

  lemma OrAlone(tokens: seq<string>, p: nat, e: Expr, q: nat)
    requires p < q <= |tokens|
    requires AndAt(tokens, p) == Got(e, q)
    requires OrOp(Peek(tokens, q)).None?
    ensures OrAt(tokens, p) == Got(e, q)
  {
  }

  // One application at its own level.

  lemma MulPair(tokens: seq<string>, p: nat, lhs: Expr, q: nat, op: BinOp, rhs: Expr, end: nat)
    requires p < q < |tokens| && q + 1 < end <= |tokens|
    requires UnaryAt(tokens, p) == Got(lhs, q) && MulOp(Peek(tokens, q)) == Some(op)
    requires UnaryAt(tokens, q + 1) == Got(rhs, end) && MulOp(Peek(tokens, end)).None?
    ensures MulAt(tokens, p) == Got(Binary(lhs, op, rhs), end)
  {
    assert MulRest(tokens, Binary(lhs, op, rhs), end) == Got(Binary(lhs, op, rhs), end);
  }

  lemma AddPair(tokens: seq<string>, p: nat, lhs: Expr, q: nat, op: BinOp, rhs: Expr, end: nat)
    requires p < q < |tokens| && q + 1 < end <= |tokens|
    requires MulAt(tokens, p) == Got(lhs, q) && AddOp(Peek(tokens, q)) == Some(op)
    requires MulAt(tokens, q + 1) == Got(rhs, end) && AddOp(Peek(tokens, end)).None?
    ensures AddAt(tokens, p) == Got(Binary(lhs, op, rhs), end)
  {
    assert AddRest(tokens, Binary(lhs, op, rhs), end) == Got(Binary(lhs, op, rhs), end);
  }

  lemma AndPair(tokens: seq<string>, p: nat, lhs: Expr, q: nat, rhs: Expr, end: nat)
    requires p < q < |tokens| && q + 1 < end <= |tokens|
    requires CmpAt(tokens, p) == Got(lhs, q) && tokens[q] == "and"
    requires CmpAt(tokens, q + 1) == Got(rhs, end) && AndOp(Peek(tokens, end)).None?
    ensures AndAt(tokens, p) == Got(Binary(lhs, And, rhs), end)
  {
    assert AndRest(tokens, Binary(lhs, And, rhs), end) == Got(Binary(lhs, And, rhs), end);
  }

  lemma OrPair(tokens: seq<string>, p: nat, lhs: Expr, q: nat, rhs: Expr, end: nat)
    requires p < q < |tokens| && q + 1 < end <= |tokens|
    requires AndAt(tokens, p) == Got(lhs, q) && tokens[q] == "or"
    requires AndAt(tokens, q + 1) == Got(rhs, end) && OrOp(Peek(tokens, end)).None?
    ensures OrAt(tokens, p) == Got(Binary(lhs, Or, rhs), end)
  {
    assert OrRest(tokens, Binary(lhs, Or, rhs), end) == Got(Binary(lhs, Or, rhs), end);
  }

  /** An operator of the given rank, or none: 0 for products up to 4 for `or`, 5 for no operator. */
  function Rank(token: Option<string>): nat {
    if MulOp(token).Some? then 0
    else if AddOp(token).Some? then 1
    else if CmpOp(token).Some? then 2
    else if AndOp(token).Some? then 3
    else if OrOp(token).Some? then 4
    else 5
  }

  /** A single operand is read alone at every level below the operator that follows it. */
  lemma OperandAlone(tokens: seq<string>, p: nat, e: Expr, q: nat)
    requires p < q <= |tokens|
    requires UnaryAt(tokens, p) == Got(e, q)
    ensures var rank := Rank(Peek(tokens, q));
            && (rank >= 1 ==> MulAt(tokens, p) == Got(e, q))
            && (rank >= 2 ==> AddAt(tokens, p) == Got(e, q))
            && (rank >= 3 ==> CmpAt(tokens, p) == Got(e, q))
            && (rank >= 4 ==> AndAt(tokens, p) == Got(e, q))
            && (rank >= 5 ==> OrAt(tokens, p) == Got(e, q))
  {
    hide UnaryAt, MulAt, AddAt, CmpAt, AndAt, OrAt;
    var rank := Rank(Peek(tokens, q));
    if rank >= 1 { MulAlone(tokens, p, e, q); }
    if rank >= 2 { AddAlone(tokens, p, e, q); }
    if rank >= 3 { CmpAlone(tokens, p, e, q); }
    if rank >= 4 { AndAlone(tokens, p, e, q); }
    if rank >= 5 { OrAlone(tokens, p, e, q); }
  }

  lemma OpRanks(op: BinOp)
    ensures var token := Some(OpText(op));
            match Rank(token)
            case 0 => MulOp(token) == Some(op)
            case 1 => AddOp(token) == Some(op)
            case 2 => CmpOp(token) == Some(op)
            case 3 => op.And?
            case 4 => op.Or?
            case _ => false
  {
  }

  lemma EndRank(tokens: seq<string>, q: nat)
    requires Ends(tokens, q)
    ensures Rank(Peek(tokens, q)) == 5
  {
  }

  /** Two operands around an operator are read as one application of it, whatever its level. */
  lemma Application(tokens: seq<string>, p: nat, lhs: Expr, q: nat, op: BinOp, rhs: Expr, end: nat)
    requires p < q < |tokens| && q + 1 < end <= |tokens|
    requires UnaryAt(tokens, p) == Got(lhs, q)
    requires tokens[q] == OpText(op)
    requires UnaryAt(tokens, q + 1) == Got(rhs, end)
    requires Ends(tokens, end)
    ensures OrAt(tokens, p) == Got(Binary(lhs, op, rhs), end)
  {
    hide UnaryAt, MulAt, AddAt, CmpAt, AndAt, OrAt, OpText;
    OperandAlone(tokens, p, lhs, q);
    OperandAlone(tokens, q + 1, rhs, end);
    OpRanks(op);
    EndRank(tokens, end);
    var e, rank := Binary(lhs, op, rhs), Rank(Peek(tokens, q));
    if rank == 0 { MulPair(tokens, p, lhs, q, op, rhs, end); }
    if rank == 1 { AddPair(tokens, p, lhs, q, op, rhs, end); }
    if rank == 3 { AndTokens(tokens, q, op); AndPair(tokens, p, lhs, q, rhs, end); }
    if rank == 4 { AndTokens(tokens, q, op); OrPair(tokens, p, lhs, q, rhs, end); }
    if rank == 2 { CmpPair(tokens, p, lhs, q, op, rhs, end); }
    if rank <= 0 { AddAlone(tokens, p, e, end); }
    if rank <= 1 { CmpAlone(tokens, p, e, end); }
    if rank <= 2 { AndAlone(tokens, p, e, end); }
    if rank <= 3 { OrAlone(tokens, p, e, end); }
  }

  lemma CmpPair(tokens: seq<string>, p: nat, lhs: Expr, q: nat, op: BinOp, rhs: Expr, end: nat)
    requires p < q < |tokens| && q + 1 < end <= |tokens|
    requires AddAt(tokens, p) == Got(lhs, q) && CmpOp(Peek(tokens, q)) == Some(op)
    requires AddAt(tokens, q + 1) == Got(rhs, end)
    ensures CmpAt(tokens, p) == Got(Binary(lhs, op, rhs), end)
  {
  }

  lemma AndTokens(tokens: seq<string>, q: nat, op: BinOp)
    requires q < |tokens| && tokens[q] == OpText(op)
    ensures op.And? ==> tokens[q] == "and"
    ensures op.Or? ==> tokens[q] == "or"
  {
  }

  /** No leaf is spelled like a sign or a parenthesis. */
  lemma LeafTokens(token: string)
    requires IsNumber(token) || ColumnName(token)
    ensures token != "(" && token != "-" && token != "not"
    ensures ColumnName(token) ==> IsIdent(token) && !IsNumber(token)
  {
  }

  lemma HoldsSplit(tokens: seq<string>, p: nat, a: seq<string>, b: seq<string>)
    requires Holds(tokens, p, a + b)
    ensures Holds(tokens, p, a) && Holds(tokens, p + |a|, b)
  {
    var n := |a| + |b|;
    assert (a + b)[..|a|] == a && (a + b)[|a|..] == b;
    assert tokens[p..p + n][..|a|] == tokens[p..p + |a|];
    assert tokens[p..p + n][|a|..] == tokens[p + |a|..p + n];
  }

  lemma HoldsOne(tokens: seq<string>, p: nat, token: string)
    requires Holds(tokens, p, [token])
    ensures p < |tokens| && tokens[p] == token
  {
    assert tokens[p..p + 1][0] == tokens[p];
  }

  lemma BinaryParts(tokens: seq<string>, p: nat, l: seq<string>, op: string, r: seq<string>)
    requires Holds(tokens, p, ["("] + l + [op] + r + [")"])
    ensures var q, end := p + 1 + |l|, p + 2 + |l| + |r|;
            && end < |tokens|
            && tokens[p] == "(" && tokens[q] == op && tokens[end] == ")"
            && Holds(tokens, p + 1, l) && Holds(tokens, q + 1, r)
  {
    hide Holds;
    HoldsSplit(tokens, p, ["("] + l + [op] + r, [")"]);
    HoldsSplit(tokens, p, ["("] + l + [op], r);
    HoldsSplit(tokens, p, ["("] + l, [op]);
    HoldsSplit(tokens, p, ["("], l);
    HoldsOne(tokens, p, "(");
    HoldsOne(tokens, p + 1 + |l|, op);
    HoldsOne(tokens, p + 2 + |l| + |r|, ")");
  }

  /** The parser reads a printed operand back wherever its tokens stand. */
  lemma {:induction false} UnaryOfShown(e: Expr, tokens: seq<string>, p: nat)
    requires Printable(e)
    requires Holds(tokens, p, ShownTokens(e))
    ensures UnaryAt(tokens, p) == Got(e, p + |ShownTokens(e)|)
    decreases e
  {
    match e {
      case Literal(text) =>
        LeafTokens(text);
        assert tokens[p] == text;
      case Column(name) =>
        LeafTokens(name);
        assert tokens[p] == name;
      case Binary(lhs, op, rhs) => ApplicationOfShown(lhs, op, rhs, tokens, p);
      case Unary(op, inner) => SignOfShown(op, inner, tokens, p);
    }
  }

  lemma {:induction false} ApplicationOfShown(lhs: Expr, op: BinOp, rhs: Expr, tokens: seq<string>, p: nat)
    requires Printable(lhs) && Printable(rhs)
    requires Holds(tokens, p, ShownTokens(Binary(lhs, op, rhs)))
    ensures UnaryAt(tokens, p) == Got(Binary(lhs, op, rhs), p + |ShownTokens(Binary(lhs, op, rhs))|)
    decreases Binary(lhs, op, rhs), 0
  {
    hide Printable, OrAt, OpText, UnaryAt, Holds;
    var l, r := ShownTokens(lhs), ShownTokens(rhs);
    BinaryParts(tokens, p, l, OpText(op), r);
    var q, end := p + 1 + |l|, p + 2 + |l| + |r|;
    UnaryOfShown(lhs, tokens, p + 1);
    UnaryOfShown(rhs, tokens, q + 1);
    Application(tokens, p + 1, lhs, q, op, rhs, end);
    Parenthesized(tokens, p, Binary(lhs, op, rhs), end);
  }

  lemma Parenthesized(tokens: seq<string>, p: nat, e: Expr, end: nat)
    requires p + 1 < end < |tokens|
    requires tokens[p] == "(" && tokens[end] == ")"
    requires OrAt(tokens, p + 1) == Got(e, end)
    ensures UnaryAt(tokens, p) == Got(e, end + 1)
  {
    hide OrAt;
  }

  lemma SignParts(tokens: seq<string>, p: nat, sign: string, i: seq<string>)
    requires Holds(tokens, p, ["(", sign] + i + [")"])
    ensures p + 2 + |i| < |tokens|
    ensures tokens[p] == "(" && tokens[p + 1] == sign && tokens[p + 2 + |i|] == ")"
    ensures Holds(tokens, p + 2, i)
  {
    hide Holds;
    HoldsSplit(tokens, p, ["(", sign] + i, [")"]);
    HoldsSplit(tokens, p, ["(", sign], i);
    assert ["("] + [sign] == ["(", sign];
    HoldsSplit(tokens, p, ["("], [sign]);
    HoldsOne(tokens, p, "(");
    HoldsOne(tokens, p + 1, sign);
    HoldsOne(tokens, p + 2 + |i|, ")");
  }

  lemma Signed(tokens: seq<string>, p: nat, op: UnaryOp, e: Expr, end: nat)
    requires p + 1 < end <= |tokens|
    requires tokens[p] == UnaryToken(op)
    requires UnaryAt(tokens, p + 1) == Got(e, end)
    ensures UnaryAt(tokens, p) == Got(Unary(op, e), end)
  {
  }

  lemma {:induction false} SignOfShown(op: UnaryOp, inner: Expr, tokens: seq<string>, p: nat)
    requires Printable(inner)
    requires Holds(tokens, p, ShownTokens(Unary(op, inner)))
    ensures UnaryAt(tokens, p) == Got(Unary(op, inner), p + |ShownTokens(Unary(op, inner))|)
    decreases Unary(op, inner), 0
  {
    hide Printable, OrAt, UnaryAt, UnaryToken, Holds, Rank;
    var i := ShownTokens(inner);
    SignParts(tokens, p, UnaryToken(op), i);
    var end := p + 2 + |i|;
    UnaryOfShown(inner, tokens, p + 2);
    Signed(tokens, p + 1, op, inner, end);
    OperandAlone(tokens, p + 1, Unary(op, inner), end);
    EndRank(tokens, end);
    Parenthesized(tokens, p, Unary(op, inner), end);
  }

  /** Printing and parsing give the expression back. */
  lemma ParseOfShow(e: Expr)
    requires Printable(e)
    ensures ParseText(Show(e)) == Parsed(e)
  {
    hide Printable, OrAt, UnaryAt, Rank, ShownTokens, Show, Tokens;
    var tokens := ShownTokens(e);
    TokensOfShown(e, "");
    assert Show(e) + "" == Show(e);
    assert Tokens("") == [] by {
      NoTokens();
    }
    assert tokens + [] == tokens;
    assert tokens[0..|tokens|] == tokens;
    UnaryOfShown(e, tokens, 0);
    OperandAlone(tokens, 0, e, |tokens|);
    EndRank(tokens, |tokens|);
  }

  lemma NoTokens()
    ensures Tokens("") == []
  {
  }

  // ---- And only then ----

  lemma {:induction false} LowerTextLowers(s: string)
    requires forall i :: 0 <= i < |s| ==> InIdent(s[i])
    ensures forall i :: 0 <= i < |s| ==> InIdent(LowerText(s)[i]) && Lower(LowerText(s)[i]) == LowerText(s)[i]
    ensures s != "" && StartsIdent(s[0]) ==> StartsIdent(LowerText(s)[0])
  {
    if s != "" {
      LowerTextLowers(s[1..]);
    }
  }

  lemma {:induction false} SpanIsIdent(s: string)
    ensures forall i :: 0 <= i < IdentSpan(s) ==> InIdent(s[i])
  {
    if s != "" && InIdent(s[0]) {
      SpanIsIdent(s[1..]);
      forall i | 0 <= i < IdentSpan(s)
        ensures InIdent(s[i])
      {
        assert i > 0 ==> s[i] == s[1..][i - 1];
      }
    }
  }

  lemma TokenIsLower(s: string)
    requires s != "" && !IsSpace(s[0])
    ensures IsIdent(TokenAt(s)) ==> LowerIdent(TokenAt(s))
  {
    if StartsIdent(s[0]) {
      SpanIsIdent(s);
      LowerTextLowers(s[..TokenSpan(s)]);
    } else {
      assert TokenAt(s)[0] == s[0];
    }
  }

  /** The tokenizer leaves every identifier in lower case. */
  lemma {:induction false} TokensAreWellSpelled(s: string)
    ensures WellSpelled(Tokens(s))
    decreases |s|
  {
    hide TokenAt, TokenSpan, LowerIdent, IsIdent, IsSpace;
    if s != "" {
      if IsSpace(s[0]) {
        TokensAreWellSpelled(s[1..]);
      } else {
        TokenIsLower(s);
        TokensAreWellSpelled(s[TokenSpan(s)..]);
      }
    }
  }

  /**
   * The exact condition: the text of an expression parses back to the expression if and only if its
   * literals are spelled as numbers and its columns are lower-case identifiers other than `not`, `inf`,
   * `infinity` and `nan`.
   */
  lemma RoundTripExactly(e: Expr)
    ensures ParseText(Show(e)) == Parsed(e) <==> Printable(e)
  {
    hide Printable, OrAt, Tokens, Show, WellSpelled;
    TokensAreWellSpelled(Show(e));
    if Printable(e) {
      ParseOfShow(e);
    }
  }

  /** A parsed expression prints to a text that parses to the same expression. */
  lemma ShowOfParse(source: string, e: Expr)
    requires ParseText(source) == Parsed(e)
    ensures ParseText(Show(e)) == Parsed(e)
  {
    hide Printable, OrAt, Tokens, Show, WellSpelled;
    TokensAreWellSpelled(source);
    ParseOfShow(e);
  }
}
