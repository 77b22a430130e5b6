/** expr-lite: abstract syntax, printer, tokenizer and the grammar that the parser implements. */
module ExprSyntax {
  import opened Errors

  datatype BinOp = Add | Sub | Mul | Div | Eq | Neq | Lt | Le | Gt | Ge | And | Or

  datatype UnaryOp = Neg | Not

  /** A literal carries its spelling; what number that denotes is not modelled. */
  datatype Expr =
    | Literal(text: string)
    | Column(name: string)
    | Binary(lhs: Expr, op: BinOp, rhs: Expr)
    | Unary(uop: UnaryOp, inner: Expr)

  datatype ParseError = UnexpectedEnd | UnexpectedToken(token: string)

  // ---- Printing ----

  function OpText(op: BinOp): string {
    match op
    case Add => "+"
    case Sub => "-"
    case Mul => "*"
    case Div => "/"
    case Eq => "=="
    case Neq => "!="
    case Lt => "<"
    case Le => "<="
    case Gt => ">"
    case Ge => ">="
    case And => "and"
    case Or => "or"
  }

  function UnaryText(op: UnaryOp): string {
    match op
    case Neg => "-"
    case Not => "not "
  }

  /** `Display for Expr`: every operator application in parentheses. */
  function Show(e: Expr): string {
    match e
    case Literal(text) => text
    case Column(name) => name
    case Binary(lhs, op, rhs) => "(" + Show(lhs) + " " + OpText(op) + " " + Show(rhs) + ")"
    case Unary(op, inner) => "(" + UnaryText(op) + Show(inner) + ")"
  }

  // ---- Characters ----

  predicate IsDigit(c: char) {
    '0' <= c <= '9'
  }

  predicate IsLower(c: char) {
    'a' <= c <= 'z'
  }

  predicate IsAlpha(c: char) {
    IsLower(c) || 'A' <= c <= 'Z'
  }

  predicate StartsIdent(c: char) {
    IsAlpha(c) || c == '_'
  }

  predicate InIdent(c: char) {
    IsAlpha(c) || IsDigit(c) || c == '_'
  }

  predicate InNumber(c: char) {
    IsDigit(c) || c == '.'
  }

  predicate IsSpace(c: char) {
    c == ' ' || c == '\t' || c == '\n' || c == '\r'
  }

  function Lower(c: char): char {
    if 'A' <= c <= 'Z' then (c as int - 'A' as int + 'a' as int) as char else c
  }

  function LowerText(s: string): (t: string)
    ensures |t| == |s|
  {
    if s == "" then "" else [Lower(s[0])] + LowerText(s[1..])
  }

  // ---- Tokens ----

  /** The length of the longest prefix of numeral characters. */
  function NumberSpan(s: string): (n: nat)
    ensures n <= |s|
  {
    if s == "" || !InNumber(s[0]) then 0 else 1 + NumberSpan(s[1..])
  }

  function IdentSpan(s: string): (n: nat)
    ensures n <= |s|
  {
    if s == "" || !InIdent(s[0]) then 0 else 1 + IdentSpan(s[1..])
  }

  /** The length of the token at the start of a string that does not start with white space. */
  function TokenSpan(s: string): (n: nat)
    requires s != "" && !IsSpace(s[0])
    ensures 0 < n <= |s|
  {
    var c := s[0];
    if c == '<' || c == '>' || c == '=' || c == '!' then (if |s| > 1 && s[1] == '=' then 2 else 1)
    else if InNumber(c) then NumberSpan(s)
    else if StartsIdent(c) then IdentSpan(s)
    else 1
  }

  function TokenAt(s: string): (token: string)
    requires s != "" && !IsSpace(s[0])
    ensures token != ""
  {
    var text := s[..TokenSpan(s)];
    if StartsIdent(s[0]) then LowerText(text) else text
  }

  /** The tokens of a source text. */
  function Tokens(s: string): seq<string> {
    if s == "" then []
    else if IsSpace(s[0]) then Tokens(s[1..])
    else [TokenAt(s)] + Tokens(s[TokenSpan(s)..])
  }

  // ---- Leaves ----

  predicate IsIdent(token: string) {
    token != "" && StartsIdent(token[0])
  }

  function Dots(s: string): nat {
    if s == "" then 0 else (if s[0] == '.' then 1 else 0) + Dots(s[1..])
  }

  /** Digits with at most one point and at least one digit. */
  predicate IsNumeral(token: string) {
    && (forall i :: 0 <= i < |token| ==> InNumber(token[i]))
    && Dots(token) <= 1
    && (exists i :: 0 <= i < |token| && IsDigit(token[i]))
  }

  /** The tokens that read as an f64: numerals, and three words. */
  predicate IsNumber(token: string) {
    IsNumeral(token) || token == "inf" || token == "infinity" || token == "nan"
  }

  // ---- Which expressions can come back ----

  /** Lower-case letters, digits and underscores, not starting with a digit. */
  predicate LowerIdent(name: string) {
    && name != "" && StartsIdent(name[0])
    && (forall i :: 0 <= i < |name| ==> InIdent(name[i]) && Lower(name[i]) == name[i])
  }

  predicate ColumnName(name: string) {
    LowerIdent(name) && name != "not" && !IsNumber(name)
  }

  /** Literals are spelled as numbers, columns as lower-case identifiers that are neither `not` nor a number. */
  predicate Printable(e: Expr) {
    match e
    case Literal(text) => IsNumber(text)
    case Column(name) => ColumnName(name)
    case Binary(lhs, op, rhs) => Printable(lhs) && Printable(rhs)
    case Unary(op, inner) => Printable(inner)
  }

  /** Identifier tokens are in lower case, as the tokenizer leaves them. */
  predicate WellSpelled(tokens: seq<string>) {
    forall i :: 0 <= i < |tokens| && IsIdent(tokens[i]) ==> LowerIdent(tokens[i])
  }

  // ---- The grammar ----

  datatype Parse = Got(expr: Expr, next: nat) | Bad(error: ParseError)

  /** The token at a position, if there is one. */
  function Peek(tokens: seq<string>, pos: nat): Option<string> {
    if pos < |tokens| then Some(tokens[pos]) else None
  }

  /** A parse consumes at least one token and yields only printable leaves. */
  predicate Advances(tokens: seq<string>, pos: nat, p: Parse) {
    p.Got? ==> pos < p.next <= |tokens| && (WellSpelled(tokens) ==> Printable(p.expr))
  }

  predicate Continues(tokens: seq<string>, lhs: Expr, pos: nat, p: Parse) {
    p.Got? ==> pos <= p.next <= |tokens| && (WellSpelled(tokens) && Printable(lhs) ==> Printable(p.expr))
  }

  function AtomAt(tokens: seq<string>, pos: nat): (p: Parse)
    requires pos <= |tokens|
    requires Peek(tokens, pos) != Some("not")
    ensures Advances(tokens, pos, p)
    decreases |tokens| - pos, 0
  {
    if pos == |tokens| then Bad(UnexpectedEnd)
    else if tokens[pos] == "(" then
      match OrAt(tokens, pos + 1)
      case Bad(error) => Bad(error)
      case Got(inner, next) =>
        if next == |tokens| then Bad(UnexpectedEnd)
        else if tokens[next] != ")" then Bad(UnexpectedToken(tokens[next]))
        else Got(inner, next + 1)
    else if IsNumber(tokens[pos]) then Got(Literal(tokens[pos]), pos + 1)
    else if IsIdent(tokens[pos]) then Got(Column(tokens[pos]), pos + 1)
    else Bad(UnexpectedToken(tokens[pos]))
  }

  function UnaryAt(tokens: seq<string>, pos: nat): (p: Parse)
    requires pos <= |tokens|
    ensures Advances(tokens, pos, p)
    decreases |tokens| - pos, 1
  {
    if Peek(tokens, pos) == Some("-") then
      match UnaryAt(tokens, pos + 1)
      case Bad(error) => Bad(error)
      case Got(inner, next) => Got(Unary(Neg, inner), next)
    else if Peek(tokens, pos) == Some("not") then
      match UnaryAt(tokens, pos + 1)
      case Bad(error) => Bad(error)
      case Got(inner, next) => Got(Unary(Not, inner), next)
    else AtomAt(tokens, pos)
  }

  function MulOp(token: Option<string>): Option<BinOp> {
    if token == Some("*") then Some(Mul) else if token == Some("/") then Some(Div) else None
  }

  function AddOp(token: Option<string>): Option<BinOp> {
    if token == Some("+") then Some(Add) else if token == Some("-") then Some(Sub) else None
  }

  function CmpOp(token: Option<string>): Option<BinOp> {
    if token == Some("==") then Some(Eq)
    else if token == Some("!=") then Some(Neq)
    else if token == Some("<") then Some(Lt)
    else if token == Some("<=") then Some(Le)
    else if token == Some(">") then Some(Gt)
    else if token == Some(">=") then Some(Ge)
    else None
  }

  function AndOp(token: Option<string>): Option<BinOp> {
    if token == Some("and") then Some(And) else None
  }

  function OrOp(token: Option<string>): Option<BinOp> {
    if token == Some("or") then Some(Or) else None
  }

  function MulAt(tokens: seq<string>, pos: nat): (p: Parse)
    requires pos <= |tokens|
    ensures Advances(tokens, pos, p)
    decreases |tokens| - pos, 2
  {
    match UnaryAt(tokens, pos)
    case Bad(error) => Bad(error)
    case Got(lhs, next) => MulRest(tokens, lhs, next)
  }

  /** The loop of the level: further operands to the right of what has been read so far. */
  function MulRest(tokens: seq<string>, lhs: Expr, pos: nat): (p: Parse)
    requires pos <= |tokens|
    ensures Continues(tokens, lhs, pos, p)
    decreases |tokens| - pos, 2
  {
    match MulOp(Peek(tokens, pos))
    case None => Got(lhs, pos)
    case Some(op) =>
      match UnaryAt(tokens, pos + 1)
      case Bad(error) => Bad(error)
      case Got(rhs, next) => MulRest(tokens, Binary(lhs, op, rhs), next)
  }

  function AddAt(tokens: seq<string>, pos: nat): (p: Parse)
    requires pos <= |tokens|
    ensures Advances(tokens, pos, p)
    decreases |tokens| - pos, 3
  {
    match MulAt(tokens, pos)
    case Bad(error) => Bad(error)
    case Got(lhs, next) => AddRest(tokens, lhs, next)
  }

  function AddRest(tokens: seq<string>, lhs: Expr, pos: nat): (p: Parse)
    requires pos <= |tokens|
    ensures Continues(tokens, lhs, pos, p)
    decreases |tokens| - pos, 3
  {
    match AddOp(Peek(tokens, pos))
    case None => Got(lhs, pos)
    case Some(op) =>
      match MulAt(tokens, pos + 1)
      case Bad(error) => Bad(error)
      case Got(rhs, next) => AddRest(tokens, Binary(lhs, op, rhs), next)
  }

  /** At most one comparison: they do not chain. */
  function CmpAt(tokens: seq<string>, pos: nat): (p: Parse)
    requires pos <= |tokens|
    ensures Advances(tokens, pos, p)
    decreases |tokens| - pos, 4
  {
    match AddAt(tokens, pos)
    case Bad(error) => Bad(error)
    case Got(lhs, next) =>
      match CmpOp(Peek(tokens, next))
      case None => Got(lhs, next)
      case Some(op) =>
        match AddAt(tokens, next + 1)
        case Bad(error) => Bad(error)
        case Got(rhs, end) => Got(Binary(lhs, op, rhs), end)
  }

  function AndAt(tokens: seq<string>, pos: nat): (p: Parse)
    requires pos <= |tokens|
    ensures Advances(tokens, pos, p)
    decreases |tokens| - pos, 5
  {
    match CmpAt(tokens, pos)
    case Bad(error) => Bad(error)
    case Got(lhs, next) => AndRest(tokens, lhs, next)
  }

  function AndRest(tokens: seq<string>, lhs: Expr, pos: nat): (p: Parse)
    requires pos <= |tokens|
    ensures Continues(tokens, lhs, pos, p)
    decreases |tokens| - pos, 5
  {
    match AndOp(Peek(tokens, pos))
    case None => Got(lhs, pos)
    case Some(op) =>
      match CmpAt(tokens, pos + 1)
      case Bad(error) => Bad(error)
      case Got(rhs, next) => AndRest(tokens, Binary(lhs, op, rhs), next)
  }

  function OrAt(tokens: seq<string>, pos: nat): (p: Parse)
    requires pos <= |tokens|
    ensures Advances(tokens, pos, p)
    decreases |tokens| - pos, 6
  {
    match AndAt(tokens, pos)
    case Bad(error) => Bad(error)
    case Got(lhs, next) => OrRest(tokens, lhs, next)
  }

  function OrRest(tokens: seq<string>, lhs: Expr, pos: nat): (p: Parse)
    requires pos <= |tokens|
    ensures Continues(tokens, lhs, pos, p)
    decreases |tokens| - pos, 6
  {
    match OrOp(Peek(tokens, pos))
    case None => Got(lhs, pos)
    case Some(op) =>
      match AndAt(tokens, pos + 1)
      case Bad(error) => Bad(error)
      case Got(rhs, next) => OrRest(tokens, Binary(lhs, op, rhs), next)
  }

  function Join(tokens: seq<string>): string {
    if tokens == [] then ""
    else if |tokens| == 1 then tokens[0]
    else tokens[0] + " " + Join(tokens[1..])
  }

  datatype Outcome = Parsed(expr: Expr) | Rejected(error: ParseError)

  /** The whole token list must be one expression. */
  function ParseTokens(tokens: seq<string>): Outcome {
    match OrAt(tokens, 0)
    case Bad(error) => Rejected(error)
    case Got(e, next) =>
      if next < |tokens| then Rejected(UnexpectedToken(Join(tokens[next..]))) else Parsed(e)
  }

  function ParseText(source: string): Outcome {
    ParseTokens(Tokens(source))
  }
}
