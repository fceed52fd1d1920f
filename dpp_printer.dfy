/** A printer for D++ expressions: the partner of the expression parser of
    src/ParsesIndex.rs (lines 189-319). The printer puts every binary
    operation in parentheses, so reading its output back exercises every
    level of the parser. */
module DppPrinter {
  import opened Outcomes
  import opened DppTokens
  import opened DppAst
  import opened DppGrammar

  /** How loosely an operator binds: the depth of its binary level (0 for
      `*` `/`, 1 for `+` `-`, 2 for `>` `>=` `<` `<=`, 3 for `==` `!=`), 4
      for `=`, and 5 for every other text, at which no level of the parser
      stops. Read off the characters, which keeps proofs about it cheap. */
  function Rank(op: string): nat {
    if |op| == 1 then
      var c := op[0];
      if c == '*' || c == '/' then 0
      else if c == '+' || c == '-' then 1
      else if c == '>' || c == '<' then 2
      else if c == '=' then 4
      else 5
    else if |op| == 2 && op[1] == '=' then
      var c := op[0];
      if c == '>' || c == '<' then 2
      else if c == '=' || c == '!' then 3
      else 5
    else 5
  }

  /** `op` is `!` or `-`, the operators `parse_unary` accepts. */
  predicate IsUnaryOperator(op: string) {
    |op| == 1 && (op[0] == '!' || op[0] == '-')
  }

  /** `op` is one of the operators `level` loops over. */
  predicate InLevel(op: string, level: Level) {
    Rank(op) == Depth(level)
  }

  /** The level whose loop an operator of rank below 4 belongs to. */
  function LevelAt(d: nat): Level
    requires d < 4
  {
    if d == 0 then Factor else if d == 1 then Term else if d == 2 then Comparison else Equality
  }

  /** The trees the expression parser can build. */
  ghost predicate IsExpr(e: AstNode) {
    match e
    case Literal(_) => true
    case Identifier(_) => true
    case UnaryOperation(op, operand) => IsUnaryOperator(op) && IsExpr(operand)
    case BinaryOperation(left, op, right) =>
      && (Rank(op) < 4 || (Rank(op) == 4 && left.Identifier?))
      && IsExpr(left) && IsExpr(right)
    case _ => false
  }

  function Tok(tokenType: TokenType, value: string): Token {
    Token(tokenType, value, 0, 0)
  }

  /** The tokens of `e`, with every binary operation in parentheses. */
  function Print(e: AstNode): seq<Token> {
    match e
    case Literal(v) => [Tok(TokenType.Literal, v)]
    case Identifier(n) => [Tok(TokenType.Identifier, n)]
    case UnaryOperation(op, operand) => [Tok(Operator, op)] + Print(operand)
    case BinaryOperation(left, op, right) =>
      [Tok(Separator, "(")] + Print(left) + [Tok(Operator, op)] + Print(right) + [Tok(Separator, ")")]
    case _ => []
  }

  /** The number of tokens `Print(e)` has. */
  function Width(e: AstNode): nat {
    match e
    case UnaryOperation(_, operand) => 1 + Width(operand)
    case BinaryOperation(left, _, right) => Width(left) + Width(right) + 3
    case Literal(_) => 1
    case Identifier(_) => 1
    case _ => 0
  }

  /** `Print(e)` read off `toks` from `pos` on, one token at a time. */
  ghost predicate PrintedAt(toks: seq<Token>, pos: nat, e: AstNode)
    decreases e
  {
    match e
    case Literal(v) => Check(toks, pos, TokenType.Literal, "") && toks[pos].value == v
    case Identifier(n) => Check(toks, pos, TokenType.Identifier, "") && toks[pos].value == n
    case UnaryOperation(op, operand) =>
      Check(toks, pos, Operator, "") && toks[pos].value == op && PrintedAt(toks, pos + 1, operand)
    case BinaryOperation(left, op, right) =>
      var mid := pos + 1 + Width(left);
      var end := mid + 1 + Width(right);
      && Check(toks, pos, Separator, "(")
      && PrintedAt(toks, pos + 1, left)
      && Check(toks, mid, Operator, "") && toks[mid].value == op
      && PrintedAt(toks, mid + 1, right)
      && Check(toks, end, Separator, ")")
    case _ => false
  }

  /** `s` occurs in `toks` starting at `pos`. */
  ghost predicate Occurs(toks: seq<Token>, pos: nat, s: seq<Token>) {
    pos + |s| <= |toks| && forall i :: 0 <= i < |s| ==> toks[pos + i] == s[i]
  }

  /** The token at `n` stops every level of rank `d` or below. */
  predicate QuietAt(toks: seq<Token>, n: nat, d: int) {
    !(n < |toks| && toks[n].tokenType == Operator && Rank(toks[n].value) <= d)
  }

  /** The rungs of the expression grammar, tightest first: `parse_unary`,
      the four binary levels, then `parse_assignment`. */
  function Rung(k: nat, toks: seq<Token>, pos: nat): Result<Parsed<AstNode>>
    requires k <= 5 && pos <= |toks|
  {
    if k == 0 then UnaryAt(toks, pos)
    else if k <= 4 then BinaryAt(LevelAt(k - 1), toks, pos)
    else AssignmentAt(toks, pos)
  }

}
