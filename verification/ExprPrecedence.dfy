/**
 * How the grammar groups text without parentheses: products before sums before comparisons before `and`
 * before `or`, to the left among operators of one level, and no chain of comparisons.
 */
module ExprPrecedence {
  import opened ExprSyntax
  import opened ExprRoundTrip

  // ---- Levels ----

  /** How tightly an operator binds. */
  function Level(op: BinOp): (level: nat)
    ensures 1 <= level <= 5
  {
    match op
    case Or => 1
    case And => 2
    case Eq => 3
    case Neq => 3
    case Lt => 3
    case Le => 3
    case Gt => 3
    case Ge => 3
    case Add => 4
    case Sub => 4
    case Mul => 5
    case Div => 5
  }

  /** An operand is as tight as its operator; leaves and prefix operators are tightest. */
  function Tightness(e: Expr): (level: nat)
    ensures 1 <= level <= 6
  {
    if e.Binary? then Level(e.op) else 6
  }

  /** What a left operand has to be to go without parentheses: comparisons do not chain, the others do. */
  function LeftPlace(op: BinOp): (level: nat)
    ensures 1 <= level <= 5
  {
    if Level(op) == 3 then 4 else Level(op)
  }

  // ---- Printing with as few parentheses as possible ----

  /** The text of an operand at a place that wants the given tightness. */
  function Terse(e: Expr, place: nat): string
    decreases e, 1
  {
    if Tightness(e) < place then "(" + Bare(e) + ")" else Bare(e)
  }

  function Bare(e: Expr): string
    decreases e, 0
  {
    match e
    case Literal(text) => text
    case Column(name) => name
    case Binary(lhs, op, rhs) => Terse(lhs, LeftPlace(op)) + " " + OpText(op) + " " + Terse(rhs, Level(op) + 1)
    case Unary(op, inner) => UnaryText(op) + Terse(inner, 6)
  }

  function TerseTokens(e: Expr, place: nat): (tokens: seq<string>)
    ensures |tokens| > 0
    decreases e, 1
  {
    if Tightness(e) < place then ["("] + BareTokens(e) + [")"] else BareTokens(e)
  }

  function BareTokens(e: Expr): (tokens: seq<string>)
    ensures |tokens| > 0
    decreases e, 0
  {
    match e
    case Literal(text) => [text]
    case Column(name) => [name]
    case Binary(lhs, op, rhs) => TerseTokens(lhs, LeftPlace(op)) + [OpText(op)] + TerseTokens(rhs, Level(op) + 1)
    case Unary(op, inner) => [UnaryToken(op)] + TerseTokens(inner, 6)
  }

  // ---- The tokens of such a text ----

  lemma {:induction false} TokensOfTerse(e: Expr, place: nat, rest: string)
    requires Printable(e)
    requires Delimits(rest)
    ensures Tokens(Terse(e, place) + rest) == TerseTokens(e, place) + Tokens(rest)
    decreases e, 1
  {
    hide Tokens, Bare, BareTokens;
    if Tightness(e) < place {
      assert Terse(e, place) + rest == "(" + (Bare(e) + (")" + rest));
      CharToken('(', Bare(e) + (")" + rest));
      TokensOfBare(e, ")" + rest);
      CharToken(')', rest);
      RightNested(["("], BareTokens(e), [")"], [], [], Tokens(rest));
    } else {
      TokensOfBare(e, rest);
    }
  }

  lemma {:induction false} TokensOfBare(e: Expr, rest: string)
    requires Printable(e)
    requires Delimits(rest)
    ensures Tokens(Bare(e) + rest) == BareTokens(e) + Tokens(rest)
    decreases e, 0
  {
    hide Tokens, UnaryText, UnaryToken, OpText, Terse, TerseTokens;
    WordsAreIdents();
    match e {
      case Literal(text) => WordToken(text, rest);
      case Column(name) => WordToken(name, rest);
      case Unary(op, inner) =>
        assert Bare(e) + rest == UnaryText(op) + (Terse(inner, 6) + rest);
        UnaryTokens(op, Terse(inner, 6) + rest);
        TokensOfTerse(inner, 6, rest);
        RightNested([UnaryToken(op)], TerseTokens(inner, 6), [], [], [], Tokens(rest));
      case Binary(lhs, op, rhs) =>
        var r := Terse(rhs, Level(op) + 1) + rest;
        RightNested(Terse(lhs, LeftPlace(op)), " ", OpText(op), " ", Terse(rhs, Level(op) + 1), rest);
        TokensOfTerse(lhs, LeftPlace(op), " " + (OpText(op) + (" " + r)));
        SpaceToken(OpText(op) + (" " + r));
        OpToken(op, " " + r);
        SpaceToken(r);
        TokensOfTerse(rhs, Level(op) + 1, rest);
        RightNested(TerseTokens(lhs, LeftPlace(op)), [OpText(op)], TerseTokens(rhs, Level(op) + 1), [], [],
                    Tokens(rest));
    }
  }

  // ---- The levels of the grammar ----

  /** What the grammar reads at a position, at a level. */
  function LevelAt(level: nat, tokens: seq<string>, pos: nat): Parse
    requires 1 <= level <= 6 && pos <= |tokens|
  {
    match level
    case 1 => OrAt(tokens, pos)
    case 2 => AndAt(tokens, pos)
    case 3 => CmpAt(tokens, pos)
    case 4 => AddAt(tokens, pos)
    case 5 => MulAt(tokens, pos)
    case _ => UnaryAt(tokens, pos)
  }

  /** What the grammar goes on to read at a level after a first operand. */
  function RestAt(level: nat, tokens: seq<string>, lhs: Expr, pos: nat): Parse
    requires 1 <= level <= 6 && pos <= |tokens|
  {
    match level
    case 1 => OrRest(tokens, lhs, pos)
    case 2 => AndRest(tokens, lhs, pos)
    case 3 =>
      (match CmpOp(Peek(tokens, pos))
       case None => Got(lhs, pos)
       case Some(op) =>
         match AddAt(tokens, pos + 1)
         case Bad(error) => Bad(error)
         case Got(rhs, end) => Got(Binary(lhs, op, rhs), end))
    case 4 => AddRest(tokens, lhs, pos)
    case 5 => MulRest(tokens, lhs, pos)
    case _ => Got(lhs, pos)
  }

  /** The level of the operator at a position, or zero if there is none. */
  function Follow(tokens: seq<string>, pos: nat): (level: nat)
    ensures level <= 5
  {
    5 - Rank(Peek(tokens, pos))
  }

  lemma OpFollows(tokens: seq<string>, pos: nat, op: BinOp)
    requires pos < |tokens| && tokens[pos] == OpText(op)
    ensures Follow(tokens, pos) == Level(op)
  {
  }

  /** A level reads an operand of the next one, and then goes on. */
  lemma LevelThenRest(level: nat, tokens: seq<string>, pos: nat, lhs: Expr, next: nat)
    requires 1 <= level <= 5 && pos < next <= |tokens|
    requires LevelAt(level + 1, tokens, pos) == Got(lhs, next)
    ensures LevelAt(level, tokens, pos) == RestAt(level, tokens, lhs, next)
  {
    hide UnaryAt, MulRest, AddRest, AndRest, OrRest;
  }

  /** It stops before an operator of another level. */
  lemma RestStops(level: nat, tokens: seq<string>, lhs: Expr, pos: nat)
    requires 1 <= level <= 6 && pos <= |tokens|
    requires Follow(tokens, pos) != level
    ensures RestAt(level, tokens, lhs, pos) == Got(lhs, pos)
  {
  }

  /** It takes an operator of its own level with the operand behind it. */
  lemma RestTakes(level: nat, tokens: seq<string>, lhs: Expr, pos: nat, op: BinOp, rhs: Expr, end: nat)
    requires level == Level(op) && pos + 1 < end <= |tokens|
    requires tokens[pos] == OpText(op)
    requires LevelAt(level + 1, tokens, pos + 1) == Got(rhs, end)
    ensures level != 3 ==> RestAt(level, tokens, lhs, pos) == RestAt(level, tokens, Binary(lhs, op, rhs), end)
    ensures level == 3 ==> RestAt(level, tokens, lhs, pos) == Got(Binary(lhs, op, rhs), end)
  {
    hide UnaryAt, MulAt, AddAt, CmpAt, AndAt;
    OpRanks(op);
    if op.And? || op.Or? {
      AndTokens(tokens, pos, op);
    }
  }

  // ---- Reading an operand without parentheses ----

  /** The level reads the operand and stands behind it, ready for a further operator unless it was a comparison. */
  predicate Reads(level: nat, tokens: seq<string>, pos: nat, e: Expr, next: nat) {
    && 1 <= level <= 6 && pos < next <= |tokens|
    && LevelAt(level, tokens, pos)
       == if level == Tightness(e) == 3 then Got(e, next) else RestAt(level, tokens, e, next)
  }

  /** What one level has read, a looser level reads too, when no operator in between follows. */
  lemma {:induction false} Loosen(from: nat, level: nat, tokens: seq<string>, pos: nat, e: Expr, next: nat)
    requires 1 <= level < from <= 6 && pos < next <= |tokens|
    requires LevelAt(from, tokens, pos) == Got(e, next)
    requires Follow(tokens, next) <= level || from <= Follow(tokens, next)
    ensures LevelAt(level, tokens, pos) == RestAt(level, tokens, e, next)
    decreases from
  {
    hide LevelAt, RestAt, Follow;
    LevelThenRest(from - 1, tokens, pos, e, next);
    if level < from - 1 {
      RestStops(from - 1, tokens, e, next);
      Loosen(from - 1, level, tokens, pos, e, next);
    }
  }

  lemma LoosenRead(from: nat, level: nat, tokens: seq<string>, pos: nat, e: Expr, next: nat)
    requires 1 <= level < from <= 6 && level != Tightness(e)
    requires Reads(from, tokens, pos, e, next)
    requires Follow(tokens, next) <= level
    ensures Reads(level, tokens, pos, e, next)
  {
    hide LevelAt, RestAt, Follow;
    RestStops(from, tokens, e, next);
    Loosen(from, level, tokens, pos, e, next);
  }

  /** Reading alone: no operator of the level follows. */
  lemma ReadsAlone(level: nat, tokens: seq<string>, pos: nat, e: Expr, next: nat)
    requires Reads(level, tokens, pos, e, next)
    requires Follow(tokens, next) != level
    ensures LevelAt(level, tokens, pos) == Got(e, next)
  {
    hide LevelAt, RestAt, Follow;
    RestStops(level, tokens, e, next);
  }

  /** An application is read at its own level, once its operands are read at theirs. */
  lemma ReadsApplication(tokens: seq<string>, pos: nat, lhs: Expr, op: BinOp, mid: nat, rhs: Expr, next: nat)
    requires mid < |tokens| && tokens[mid] == OpText(op)
    requires Reads(LeftPlace(op), tokens, pos, lhs, mid)
    requires Reads(Level(op) + 1, tokens, mid + 1, rhs, next)
    requires Follow(tokens, next) <= Level(op)
    ensures Reads(Level(op), tokens, pos, Binary(lhs, op, rhs), next)
  {
    hide LevelAt, RestAt, Follow, OpText;
    OpFollows(tokens, mid, op);
    ReadsAlone(Level(op) + 1, tokens, mid + 1, rhs, next);
    if Level(op) == 3 {
      ReadsAlone(4, tokens, pos, lhs, mid);
      LevelThenRest(3, tokens, pos, lhs, mid);
    }
    RestTakes(Level(op), tokens, lhs, mid, op, rhs, next);
  }

  /** Tokens in parentheses, taken apart. */
  lemma ParenParts(tokens: seq<string>, p: nat, inner: seq<string>)
    requires Holds(tokens, p, ["("] + inner + [")"])
    ensures p + 1 + |inner| < |tokens|
    ensures tokens[p] == "(" && tokens[p + 1 + |inner|] == ")" && Holds(tokens, p + 1, inner)
  {
    hide Holds;
    HoldsSplit(tokens, p, ["("] + inner, [")"]);
    HoldsSplit(tokens, p, ["("], inner);
    HoldsOne(tokens, p, "(");
    HoldsOne(tokens, p + 1 + |inner|, ")");
  }

  lemma InfixParts(tokens: seq<string>, p: nat, l: seq<string>, op: string, r: seq<string>)
    requires Holds(tokens, p, l + [op] + r)
    ensures p + |l| < |tokens| && tokens[p + |l|] == op
    ensures Holds(tokens, p, l) && Holds(tokens, p + |l| + 1, r)
  {
    hide Holds;
    HoldsSplit(tokens, p, l + [op], r);
    HoldsSplit(tokens, p, l, [op]);
    HoldsOne(tokens, p + |l|, op);
  }

  /** An operand at its place is read by the level of that place. */
  lemma {:induction false} ReadsTerse(e: Expr, place: nat, tokens: seq<string>, p: nat)
    requires Printable(e) && 1 <= place <= 6
    requires Holds(tokens, p, TerseTokens(e, place))
    requires Follow(tokens, p + |TerseTokens(e, place)|) <= place
    ensures Reads(place, tokens, p, e, p + |TerseTokens(e, place)|)
    decreases e, 2
  {
    if Tightness(e) >= place {
      ReadsBare(e, place, tokens, p);
    } else {
      hide Holds, OrAt, UnaryAt, MulAt, AddAt, CmpAt, AndAt, MulRest, AddRest, AndRest, OrRest, Rank, Printable,
           BareTokens;
      var inner := BareTokens(e);
      var end := p + 1 + |inner|;
      ParenParts(tokens, p, inner);
      EndRank(tokens, end);
      ReadsBare(e, 1, tokens, p + 1);
      ReadsAlone(1, tokens, p + 1, e, end);
      Parenthesized(tokens, p, e, end);
      if place < 6 {
        Loosen(6, place, tokens, p, e, end + 1);
      }
    }
  }

  lemma {:induction false} ReadsBare(e: Expr, place: nat, tokens: seq<string>, p: nat)
    requires Printable(e) && 1 <= place <= Tightness(e)
    requires Holds(tokens, p, BareTokens(e))
    requires Follow(tokens, p + |BareTokens(e)|) <= place
    ensures Reads(place, tokens, p, e, p + |BareTokens(e)|)
    decreases e, 1
  {
    match e {
      case Binary(lhs, op, rhs) => ReadsInfix(lhs, op, rhs, place, tokens, p);
      case Unary(op, inner) => ReadsPrefix(op, inner, place, tokens, p);
      case Literal(text) => ReadsLeaf(e, text, place, tokens, p);
      case Column(name) => ReadsLeaf(e, name, place, tokens, p);
    }
  }

  lemma ReadsLeaf(e: Expr, text: string, place: nat, tokens: seq<string>, p: nat)
    requires Printable(e) && 1 <= place <= 6
    requires e == Literal(text) || e == Column(text)
    requires Holds(tokens, p, [text])
    requires Follow(tokens, p + 1) <= place
    ensures Reads(place, tokens, p, e, p + 1)
  {
    HoldsOne(tokens, p, text);
    LeafTokens(text);
    assert UnaryAt(tokens, p) == Got(e, p + 1);
    hide UnaryAt, MulAt, AddAt, CmpAt, AndAt, OrAt, MulRest, AddRest, AndRest, OrRest, Rank, Printable, Holds;
    if place < 6 {
      Loosen(6, place, tokens, p, e, p + 1);
    }
  }

  lemma {:induction false} ReadsPrefix(op: UnaryOp, inner: Expr, place: nat, tokens: seq<string>, p: nat)
    requires Printable(inner) && 1 <= place <= 6
    requires Holds(tokens, p, BareTokens(Unary(op, inner)))
    requires Follow(tokens, p + |BareTokens(Unary(op, inner))|) <= place
    ensures Reads(place, tokens, p, Unary(op, inner), p + |BareTokens(Unary(op, inner))|)
    decreases Unary(op, inner), 0
  {
    hide UnaryAt, MulAt, AddAt, CmpAt, AndAt, OrAt, MulRest, AddRest, AndRest, OrRest, Rank, Printable, Holds,
         UnaryToken;
    var end := p + |BareTokens(Unary(op, inner))|;
    HoldsSplit(tokens, p, [UnaryToken(op)], TerseTokens(inner, 6));
    HoldsOne(tokens, p, UnaryToken(op));
    ReadsTerse(inner, 6, tokens, p + 1);
    Signed(tokens, p, op, inner, end);
    if place < 6 {
      Loosen(6, place, tokens, p, Unary(op, inner), end);
    }
  }

  lemma {:induction false} ReadsInfix(lhs: Expr, op: BinOp, rhs: Expr, place: nat, tokens: seq<string>, p: nat)
    requires Printable(lhs) && Printable(rhs) && 1 <= place <= Level(op)
    requires Holds(tokens, p, BareTokens(Binary(lhs, op, rhs)))
    requires Follow(tokens, p + |BareTokens(Binary(lhs, op, rhs))|) <= place
    ensures Reads(place, tokens, p, Binary(lhs, op, rhs), p + |BareTokens(Binary(lhs, op, rhs))|)
    decreases Binary(lhs, op, rhs), 0
  {
    hide LevelAt, RestAt, Rank, Printable, Holds, OpText, Reads, Follow, TerseTokens;
    var e := Binary(lhs, op, rhs);
    var l, r := TerseTokens(lhs, LeftPlace(op)), TerseTokens(rhs, Level(op) + 1);
    var mid, end := p + |l|, p + |BareTokens(e)|;
    InfixParts(tokens, p, l, OpText(op), r);
    OpFollows(tokens, mid, op);
    ReadsTerse(lhs, LeftPlace(op), tokens, p);
    ReadsTerse(rhs, Level(op) + 1, tokens, mid + 1);
    ReadsApplication(tokens, p, lhs, op, mid, rhs, end);
    if place < Level(op) {
      LoosenRead(Level(op), place, tokens, p, e, end);
    }
  }

  // ---- The grammar on unparenthesised text ----

  /** A token list that holds an operand and nothing else is parsed as that operand. */
  lemma ParsesTerse(e: Expr)
    requires Printable(e)
    ensures ParseTokens(BareTokens(e)) == Parsed(e)
  {
    hide UnaryAt, MulAt, AddAt, CmpAt, AndAt, OrAt, MulRest, AddRest, AndRest, OrRest, Rank, Printable, BareTokens;
    var tokens := BareTokens(e);
    assert tokens[0..|tokens|] == tokens;
    EndRank(tokens, |tokens|);
    ReadsBare(e, 1, tokens, 0);
    ReadsAlone(1, tokens, 0, e, |tokens|);
  }

  /**
   * Precedence and associativity: an expression printed with parentheses only where an operand binds less
   * tightly than its place requires is parsed back to exactly that expression.
   */
  lemma ParseOfBare(e: Expr)
    requires Printable(e)
    ensures ParseText(Bare(e)) == Parsed(e)
  {
    hide Printable, OrAt, Tokens, Bare, BareTokens;
    TokensOfBare(e, "");
    NoTokens();
    assert Bare(e) + "" == Bare(e);
    assert BareTokens(e) + [] == BareTokens(e);
    ParsesTerse(e);
  }

  /** Two operators between three operands that need no parentheses of their own. */
  function Chain(a: Expr, op1: BinOp, b: Expr, op2: BinOp, c: Expr): string {
    Bare(a) + " " + OpText(op1) + " " + Bare(b) + " " + OpText(op2) + " " + Bare(c)
  }

  /**
   * Any two operators in a row: the tighter one takes the operand between them, of two equally tight ones
   * the left one does, and two comparisons are rejected at the second one.
   */
  lemma GroupsExactly(a: Expr, op1: BinOp, b: Expr, op2: BinOp, c: Expr)
    requires Printable(a) && Printable(b) && Printable(c)
    requires Tightness(a) == Tightness(b) == Tightness(c) == 6
    ensures ParseText(Chain(a, op1, b, op2, c))
         == if Level(op1) == Level(op2) == 3 then
              Rejected(UnexpectedToken(Join([OpText(op2)] + BareTokens(c))))
            else if Level(op1) >= Level(op2) then Parsed(Binary(Binary(a, op1, b), op2, c))
            else Parsed(Binary(a, op1, Binary(b, op2, c)))
  {
    hide Printable, OrAt, Tokens, Level, OpText, ParseText, Bare;
    if Level(op1) == Level(op2) == 3 {
      ChainRejected(a, op1, b, op2, c);
    } else if Level(op1) >= Level(op2) {
      LeftChain(a, op1, b, op2, c);
      PrintableChain(a, op1, b, op2, c);
      ParseOfBare(Binary(Binary(a, op1, b), op2, c));
    } else {
      RightChain(a, op1, b, op2, c);
      PrintableChain(a, op1, b, op2, c);
      ParseOfBare(Binary(a, op1, Binary(b, op2, c)));
    }
  }

  lemma PrintableChain(a: Expr, op1: BinOp, b: Expr, op2: BinOp, c: Expr)
    requires Printable(a) && Printable(b) && Printable(c)
    ensures Printable(Binary(Binary(a, op1, b), op2, c)) && Printable(Binary(a, op1, Binary(b, op2, c)))
  {
  }

  lemma BareInfix(lhs: Expr, op: BinOp, rhs: Expr)
    requires Tightness(lhs) >= LeftPlace(op) && Tightness(rhs) > Level(op)
    ensures Bare(Binary(lhs, op, rhs)) == Bare(lhs) + " " + OpText(op) + " " + Bare(rhs)
  {
    hide OpText;
    assert Terse(lhs, LeftPlace(op)) == Bare(lhs) && Terse(rhs, Level(op) + 1) == Bare(rhs);
  }

  lemma LeftChain(a: Expr, op1: BinOp, b: Expr, op2: BinOp, c: Expr)
    requires Tightness(a) == Tightness(b) == Tightness(c) == 6
    requires Level(op1) >= Level(op2) && !(Level(op1) == Level(op2) == 3)
    ensures Bare(Binary(Binary(a, op1, b), op2, c)) == Chain(a, op1, b, op2, c)
  {
    hide OpText, Bare;
    BareInfix(a, op1, b);
    BareInfix(Binary(a, op1, b), op2, c);
  }

  lemma RightChain(a: Expr, op1: BinOp, b: Expr, op2: BinOp, c: Expr)
    requires Tightness(a) == Tightness(b) == Tightness(c) == 6
    requires Level(op1) < Level(op2)
    ensures Bare(Binary(a, op1, Binary(b, op2, c))) == Chain(a, op1, b, op2, c)
  {
    hide OpText, Bare;
    BareInfix(b, op2, c);
    BareInfix(a, op1, Binary(b, op2, c));
    Regroups(Bare(a) + " " + OpText(op1) + " ", Bare(b), " ", OpText(op2), " ", Bare(c));
  }

  lemma Regroups(x: string, a: string, b: string, c: string, d: string, e: string)
    ensures x + (a + b + c + d + e) == x + a + b + c + d + e
  {
    assert x + (a + b + c + d + e) == x + (a + b + c + d) + e;
    assert x + (a + b + c + d) == x + (a + b + c) + d;
    assert x + (a + b + c) == x + (a + b) + c;
    assert x + (a + b) == x + a + b;
  }

  /** A comparison behind a comparison is left over when the whole of the first one has been read. */
  lemma ChainRejected(a: Expr, op1: BinOp, b: Expr, op2: BinOp, c: Expr)
    requires Printable(a) && Printable(b) && Printable(c)
    requires Tightness(a) == Tightness(b) == Tightness(c) == 6
    requires Level(op1) == Level(op2) == 3
    ensures ParseText(Chain(a, op1, b, op2, c))
         == Rejected(UnexpectedToken(Join([OpText(op2)] + BareTokens(c))))
  {
    hide Printable, OrAt, Tokens, OpText, Bare, BareTokens, UnaryAt, MulAt, AddAt, CmpAt, AndAt, MulRest, AddRest,
         AndRest, OrRest, Rank, Holds;
    var e := Binary(a, op1, b);
    var first, rest := BareTokens(e), [OpText(op2)] + BareTokens(c);
    var tokens := first + rest;
    ChainTokens(a, op1, b, op2, c);
    assert tokens[..|first|] == first && tokens[|first|..] == rest;
    assert tokens[0..0 + |first|] == first;
    OpFollows(tokens, |first|, op2);
    HoldsFirst(tokens, first);
    ReadsInfix(a, op1, b, 3, tokens, 0);
    Loosen(3, 1, tokens, 0, e, |first|);
    RestStops(1, tokens, e, |first|);
  }

  lemma HoldsFirst(tokens: seq<string>, first: seq<string>)
    requires first <= tokens
    ensures Holds(tokens, 0, first)
  {
  }

  lemma ChainTokens(a: Expr, op1: BinOp, b: Expr, op2: BinOp, c: Expr)
    requires Printable(a) && Printable(b) && Printable(c)
    requires Tightness(a) == Tightness(b) == Tightness(c) == 6
    ensures Tokens(Chain(a, op1, b, op2, c)) == BareTokens(Binary(a, op1, b)) + ([OpText(op2)] + BareTokens(c))
  {
    hide Printable, Tokens, OpText, Level;
    var e := Binary(a, op1, b);
    var rest := OpText(op2) + (" " + Bare(c));
    assert Bare(e) == Bare(a) + " " + OpText(op1) + " " + Bare(b);
    assert Chain(a, op1, b, op2, c) == Bare(e) + (" " + rest);
    PrintablePair(a, op1, b);
    TokensOfBare(e, " " + rest);
    SpaceToken(rest);
    OpToken(op2, " " + Bare(c));
    SpaceToken(Bare(c));
    TokensOfBare(c, "");
    NoTokens();
    assert Bare(c) + "" == Bare(c);
    assert BareTokens(c) + [] == BareTokens(c);
  }

  lemma PrintablePair(a: Expr, op: BinOp, b: Expr)
    requires Printable(a) && Printable(b)
    ensures Printable(Binary(a, op, b))
  {
  }
}
