/** The tokenizer and the recursive-descent parser of expr-lite, with their position and their loops. */
module ExprParser {
  import opened Errors
  import opened ExprSyntax

  // ---- The tokenizer ----

  /** The digits and dots from `start` on. */
  method TakeNumber(source: string, start: nat) returns (end: nat)
    requires start <= |source|
    ensures end == start + NumberSpan(source[start..])
  {
    end := start;
    while end < |source| && InNumber(source[end])
      invariant start <= end <= |source|
      invariant start + NumberSpan(source[start..]) == end + NumberSpan(source[end..])
    {
      assert source[end..][1..] == source[end + 1..];
      end := end + 1;
    }
  }

  method TakeIdent(source: string, start: nat) returns (end: nat)
    requires start <= |source|
    ensures end == start + IdentSpan(source[start..])
  {
    end := start;
    while end < |source| && InIdent(source[end])
      invariant start <= end <= |source|
      invariant start + IdentSpan(source[start..]) == end + IdentSpan(source[end..])
    {
      assert source[end..][1..] == source[end + 1..];
      end := end + 1;
    }
  }

  /** One token, starting at a character that is not white space. */
  method TakeToken(source: string, start: nat) returns (token: string, end: nat)
    requires start < |source| && !IsSpace(source[start])
    ensures token == TokenAt(source[start..])
    ensures end == start + TokenSpan(source[start..])
  {
    var c := source[start];
    end := start + 1;
    if c == '<' || c == '>' || c == '=' || c == '!' {
      if end < |source| && source[end] == '=' {
        end := end + 1;
      }
    } else if InNumber(c) {
      end := TakeNumber(source, start);
    } else if StartsIdent(c) {
      end := TakeIdent(source, start);
    }
    assert source[start..end] == source[start..][..end - start];
    token := if StartsIdent(c) then LowerText(source[start..end]) else source[start..end];
  }

  /** `tokenize`. */
  method Tokenize(source: string) returns (tokens: seq<string>)
    ensures tokens == Tokens(source)
  {
    hide TokenSpan, TokenAt, IsSpace;
    tokens := [];
    var pos := 0;
    while pos < |source|
      invariant pos <= |source|
      invariant Tokens(source) == tokens + Tokens(source[pos..])
    {
      if IsSpace(source[pos]) {
        assert source[pos..][1..] == source[pos + 1..];
        pos := pos + 1;
      } else {
        ghost var rest := source[pos..];
        var token, end := TakeToken(source, pos);
        assert rest[TokenSpan(rest)..] == source[end..];
        tokens := tokens + [token];
        pos := end;
      }
    }
  }

  // ---- The parser ----

  class Parser {
    const tokens: seq<string>
    var pos: nat

    constructor (tokens: seq<string>)
      ensures this.tokens == tokens && pos == 0
    {
      this.tokens := tokens;
      pos := 0;
    }

    /** The result and the new position are what the grammar says at the old position. */
    predicate Follows(p: Parse, r: Outcome)
      reads this
    {
      match p
      case Got(e, next) => r == Parsed(e) && pos == next
      case Bad(error) => r == Rejected(error)
    }

    function Next(): Option<string>
      reads this
    {
      Peek(tokens, pos)
    }

    method Advance() returns (token: Option<string>)
      requires pos <= |tokens|
      modifies this
      ensures token == old(Next()) && pos == old(pos) + 1
    {
      token := Next();
      pos := pos + 1;
    }

    method ParseAtom() returns (r: Outcome)
      requires pos <= |tokens|
      requires Next() != Some("not")
      modifies this
      ensures Follows(AtomAt(tokens, old(pos)), r)
      decreases |tokens| - pos, 0
    {
      var token := Advance();
      if token.None? {
        return Rejected(UnexpectedEnd);
      }
      if token.value == "(" {
        r := ParseOr();
        if r.Rejected? {
          return;
        }
        var close := Advance();
        if close.None? {
          return Rejected(UnexpectedEnd);
        }
        if close.value != ")" {
          return Rejected(UnexpectedToken(close.value));
        }
        return;
      }
      if IsNumber(token.value) {
        return Parsed(Literal(token.value));
      }
      if IsIdent(token.value) {
        return Parsed(Column(token.value));
      }
      return Rejected(UnexpectedToken(token.value));
    }

    method ParseUnary() returns (r: Outcome)
      requires pos <= |tokens|
      modifies this
      ensures Follows(UnaryAt(tokens, old(pos)), r)
      decreases |tokens| - pos, 1
    {
      if Next() == Some("-") {
        var _ := Advance();
        r := ParseUnary();
        if r.Parsed? {
          r := Parsed(Unary(Neg, r.expr));
        }
      } else if Next() == Some("not") {
        var _ := Advance();
        r := ParseUnary();
        if r.Parsed? {
          r := Parsed(Unary(Not, r.expr));
        }
      } else {
        r := ParseAtom();
      }
    }

    method ParseMul() returns (r: Outcome)
      requires pos <= |tokens|
      modifies this
      ensures Follows(MulAt(tokens, old(pos)), r)
      decreases |tokens| - pos, 2
    {
      r := ParseUnary();
      if r.Rejected? {
        return;
      }
      while MulOp(Next()).Some?
        invariant old(pos) < pos <= |tokens|
        invariant r.Parsed?
        invariant MulAt(tokens, old(pos)) == MulRest(tokens, r.expr, pos)
        decreases |tokens| - pos
      {
        var op := MulOp(Next()).value;
        var _ := Advance();
        var rhs := ParseUnary();
        if rhs.Rejected? {
          return rhs;
        }
        r := Parsed(Binary(r.expr, op, rhs.expr));
      }
    }

    method ParseAdd() returns (r: Outcome)
      requires pos <= |tokens|
      modifies this
      ensures Follows(AddAt(tokens, old(pos)), r)
      decreases |tokens| - pos, 3
    {
      r := ParseMul();
      if r.Rejected? {
        return;
      }
      while AddOp(Next()).Some?
        invariant old(pos) < pos <= |tokens|
        invariant r.Parsed?
        invariant AddAt(tokens, old(pos)) == AddRest(tokens, r.expr, pos)
        decreases |tokens| - pos
      {
        var op := AddOp(Next()).value;
        var _ := Advance();
        var rhs := ParseMul();
        if rhs.Rejected? {
          return rhs;
        }
        r := Parsed(Binary(r.expr, op, rhs.expr));
      }
    }

    method ParseCmp() returns (r: Outcome)
      requires pos <= |tokens|
      modifies this
      ensures Follows(CmpAt(tokens, old(pos)), r)
      decreases |tokens| - pos, 4
    {
      r := ParseAdd();
      if r.Rejected? || CmpOp(Next()).None? {
        return;
      }
      var op := CmpOp(Next()).value;
      var _ := Advance();
      var rhs := ParseAdd();
      if rhs.Rejected? {
        return rhs;
      }
      return Parsed(Binary(r.expr, op, rhs.expr));
    }

    method ParseAnd() returns (r: Outcome)
      requires pos <= |tokens|
      modifies this
      ensures Follows(AndAt(tokens, old(pos)), r)
      decreases |tokens| - pos, 5
    {
      r := ParseCmp();
      if r.Rejected? {
        return;
      }
      while AndOp(Next()).Some?
        invariant old(pos) < pos <= |tokens|
        invariant r.Parsed?
        invariant AndAt(tokens, old(pos)) == AndRest(tokens, r.expr, pos)
        decreases |tokens| - pos
      {
        var _ := Advance();
        var rhs := ParseCmp();
        if rhs.Rejected? {
          return rhs;
        }
        r := Parsed(Binary(r.expr, And, rhs.expr));
      }
    }

    method ParseOr() returns (r: Outcome)
      requires pos <= |tokens|
      modifies this
      ensures Follows(OrAt(tokens, old(pos)), r)
      decreases |tokens| - pos, 6
    {
      r := ParseAnd();
      if r.Rejected? {
        return;
      }
      while OrOp(Next()).Some?
        invariant old(pos) < pos <= |tokens|
        invariant r.Parsed?
        invariant OrAt(tokens, old(pos)) == OrRest(tokens, r.expr, pos)
        decreases |tokens| - pos
      {
        var _ := Advance();
        var rhs := ParseAnd();
        if rhs.Rejected? {
          return rhs;
        }
        r := Parsed(Binary(r.expr, Or, rhs.expr));
      }
    }

    /** The entry point: nothing may be left over. */
    method ParseExpr() returns (r: Outcome)
      requires pos == 0
      modifies this
      ensures r == ParseTokens(tokens)
    {
      var e := ParseOr();
      if e.Rejected? {
        return Rejected(e.error);
      }
      if pos < |tokens| {
        return Rejected(UnexpectedToken(Join(tokens[pos..])));
      }
      return Parsed(e.expr);
    }
  }

  /** `parse_expr`: terminates on every text and answers what the grammar says. */
  method ParseSource(source: string) returns (r: Outcome)
    ensures r == ParseText(source)
  {
    var tokens := Tokenize(source);
    var parser := new Parser(tokens);
    r := parser.ParseExpr();
  }
}
