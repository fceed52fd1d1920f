/** The recursive-descent parser of src/ParsesIndex.rs (lines 58-380) as pure
    functions of the token vector and the cursor. Each `XAt(toks, pos)` is
    what the method `parse_x` computes when `current == pos`: the node it
    builds and where it leaves `current`, or the message it fails with. */
module DppGrammar {
  import opened Outcomes
  import opened DppTokens
  import opened DppAst

  datatype Parsed<+T> = Parsed(node: T, next: nat)

  /** `check` (lines 340-347): false at the end; an empty `value` matches any
      token of the type. */
  predicate Check(toks: seq<Token>, pos: nat, tokenType: TokenType, value: string) {
    pos < |toks| && toks[pos].tokenType == tokenType && (|value| == 0 || toks[pos].value == value)
  }

  /** `match_any` (lines 330-338): tries the options in order and stops at
      the first that checks. */
  predicate CheckAny(toks: seq<Token>, pos: nat, options: seq<(TokenType, string)>): (found: bool)
    ensures found ==> pos < |toks|
  {
    |options| > 0 && (Check(toks, pos, options[0].0, options[0].1) || CheckAny(toks, pos, options[1..]))
  }

  /** `match_any` succeeds iff one of its options checks. */
  lemma {:induction false} CheckAnyIff(toks: seq<Token>, pos: nat, options: seq<(TokenType, string)>)
    ensures CheckAny(toks, pos, options) <==> exists option :: option in options && Check(toks, pos, option.0, option.1)
  {
    if |options| > 0 {
      CheckAnyIff(toks, pos, options[1..]);
      if Check(toks, pos, options[0].0, options[0].1) {
        assert options[0] in options;
      } else if exists option :: option in options && Check(toks, pos, option.0, option.1) {
        var option :| option in options && Check(toks, pos, option.0, option.1);
        assert option in options[1..];
      }
    }
  }

  function ExpectMessage(tokenType: TokenType, value: string): string {
    "Expected token: " + TypeName(tokenType) + " '" + value + "'"
  }

  /** `expect_token` (lines 364-371): the cursor after the expected token. */
  function Expect(toks: seq<Token>, pos: nat, tokenType: TokenType, value: string): (r: Result<nat>)
    ensures r.Ok? <==> Check(toks, pos, tokenType, value)
    ensures r.Ok? ==> r.value == pos + 1
    ensures r.Err? ==> r.msg == ExpectMessage(tokenType, value)
  {
    if Check(toks, pos, tokenType, value) then Ok(pos + 1) else Err(ExpectMessage(tokenType, value))
  }

  /** `expect_identifier` (lines 373-379). */
  function ExpectIdentifier(toks: seq<Token>, pos: nat): (r: Result<Parsed<string>>)
    ensures r.Ok? <==> Check(toks, pos, TokenType.Identifier, "")
    ensures r.Ok? ==> r.value == Parsed(toks[pos].value, pos + 1)
    ensures r.Err? ==> r.msg == "Expected identifier"
  {
    if Check(toks, pos, TokenType.Identifier, "") then Ok(Parsed(toks[pos].value, pos + 1))
    else Err("Expected identifier")
  }

  /** The vector ends in the EOF marker, as every output of `tokenize` does. */
  predicate EndsInEof(toks: seq<Token>) {
    |toks| > 0 && IsEofToken(toks[|toks| - 1])
  }

  /** The cursor `i` has not moved past a final EOF marker: no parse function
      consumes it, since none checks for a Separator `EOF`. */
  predicate BeforeEof(toks: seq<Token>, i: nat) {
    EndsInEof(toks) ==> i < |toks|
  }

  /** The four left-associative binary levels, loosest first. */
  datatype Level = Equality | Comparison | Term | Factor

  /** The options each level passes to `match_any` (lines 216-219, 235-240,
      256-259, 275-278). */
  function Operators(level: Level): seq<(TokenType, string)> {
    match level
    case Equality => [(Operator, "=="), (Operator, "!=")]
    case Comparison => [(Operator, ">"), (Operator, ">="), (Operator, "<"), (Operator, "<=")]
    case Term => [(Operator, "+"), (Operator, "-")]
    case Factor => [(Operator, "*"), (Operator, "/")]
  }

  const UnaryOperators: seq<(TokenType, string)> := [(Operator, "!"), (Operator, "-")]

  /** How many binary levels lie below `level`; orders the calls the parser
      makes without moving the cursor. */
  function Depth(level: Level): nat {
    match level
    case Factor => 0
    case Term => 1
    case Comparison => 2
    case Equality => 3
  }

  /** `parse_expression` (lines 189-191). */
  function ExpressionAt(toks: seq<Token>, pos: nat): (r: Result<Parsed<AstNode>>)
    requires pos <= |toks|
    decreases |toks| - pos, 11
    ensures r.Ok? ==> pos < r.value.next <= |toks| && BeforeEof(toks, r.value.next)
  {
    AssignmentAt(toks, pos)
  }

  /** `parse_assignment` (lines 193-211): right-associative, and only a bare
      identifier may be assigned to. */
  function AssignmentAt(toks: seq<Token>, pos: nat): (r: Result<Parsed<AstNode>>)
    requires pos <= |toks|
    decreases |toks| - pos, 10
    ensures r.Ok? ==> pos < r.value.next <= |toks| && BeforeEof(toks, r.value.next)
  {
    var target :- BinaryAt(Equality, toks, pos);
    if Check(toks, target.next, Operator, "=") then
      var value :- AssignmentAt(toks, target.next + 1);
      if target.node.Identifier? then Ok(Parsed(BinaryOperation(target.node, "=", value.node), value.next))
      else Err("Invalid assignment target")
    else Ok(target)
  }

  /** `parse_equality`, `parse_comparison`, `parse_term` and `parse_factor`
      (lines 213-289): an operand, then the loop of `RestAt`. */
  function BinaryAt(level: Level, toks: seq<Token>, pos: nat): (r: Result<Parsed<AstNode>>)
    requires pos <= |toks|
    decreases |toks| - pos, 2 * Depth(level) + 3
    ensures r.Ok? ==> pos < r.value.next <= |toks| && BeforeEof(toks, r.value.next)
  {
    var left :- OperandAt(level, toks, pos);
    RestAt(level, toks, left.node, left.next)
  }

  /** The parse function each level calls for its operands. */
  function OperandAt(level: Level, toks: seq<Token>, pos: nat): (r: Result<Parsed<AstNode>>)
    requires pos <= |toks|
    decreases |toks| - pos, 2 * Depth(level) + 2
    ensures r.Ok? ==> pos < r.value.next <= |toks| && BeforeEof(toks, r.value.next)
  {
    match level
    case Equality => BinaryAt(Comparison, toks, pos)
    case Comparison => BinaryAt(Term, toks, pos)
    case Term => BinaryAt(Factor, toks, pos)
    case Factor => UnaryAt(toks, pos)
  }

  /** The `while self.match_any(..)` loop of a level: each operator found
      makes the tree built so far the left child of a new node. */
  function RestAt(level: Level, toks: seq<Token>, left: AstNode, pos: nat): (r: Result<Parsed<AstNode>>)
    requires pos <= |toks|
    decreases |toks| - pos, 0
    ensures r.Ok? ==> pos <= r.value.next <= |toks| && (BeforeEof(toks, pos) ==> BeforeEof(toks, r.value.next))
  {
    if CheckAny(toks, pos, Operators(level)) then
      var right :- OperandAt(level, toks, pos + 1);
      RestAt(level, toks, BinaryOperation(left, toks[pos].value, right.node), right.next)
    else Ok(Parsed(left, pos))
  }

  /** `parse_unary` (lines 291-305). */
  function UnaryAt(toks: seq<Token>, pos: nat): (r: Result<Parsed<AstNode>>)
    requires pos <= |toks|
    decreases |toks| - pos, 1
    ensures r.Ok? ==> pos < r.value.next <= |toks| && BeforeEof(toks, r.value.next)
  {
    if CheckAny(toks, pos, UnaryOperators) then
      var operand :- UnaryAt(toks, pos + 1);
      Ok(Parsed(UnaryOperation(toks[pos].value, operand.node), operand.next))
    else PrimaryAt(toks, pos)
  }

  /** `parse_primary` (lines 307-319): a parenthesised expression yields the
      inner node itself. */
  function PrimaryAt(toks: seq<Token>, pos: nat): (r: Result<Parsed<AstNode>>)
    requires pos <= |toks|
    decreases |toks| - pos, 0
    ensures r.Ok? ==> pos < r.value.next <= |toks| && BeforeEof(toks, r.value.next)
  {
    if Check(toks, pos, TokenType.Literal, "") then Ok(Parsed(AstNode.Literal(toks[pos].value), pos + 1))
    else if Check(toks, pos, TokenType.Identifier, "") then Ok(Parsed(AstNode.Identifier(toks[pos].value), pos + 1))
    else if Check(toks, pos, Separator, "(") then
      var inner :- ExpressionAt(toks, pos + 1);
      var close :- Expect(toks, inner.next, Separator, ")");
      Ok(Parsed(inner.node, close))
    else Err("Expected expression")
  }

  /** `parse_type` (lines 138-141). */
  function TypeAt(toks: seq<Token>, pos: nat): (r: Result<Parsed<AstNode>>)
    ensures r.Ok? <==> Check(toks, pos, TokenType.Identifier, "")
    ensures r.Ok? ==> r.value == Parsed(AstNode.Type(toks[pos].value), pos + 1)
  {
    var name :- ExpectIdentifier(toks, pos);
    Ok(Parsed(AstNode.Type(name.node), name.next))
  }

  /** `parse_variable_declaration` (lines 163-181), after `let`. */
  function VariableDeclarationAt(toks: seq<Token>, pos: nat): (r: Result<Parsed<AstNode>>)
    requires pos <= |toks|
    ensures r.Ok? ==> pos < r.value.next <= |toks| && BeforeEof(toks, r.value.next)
    ensures r.Ok? ==> r.value.node.VariableDeclaration?
  {
    var name :- ExpectIdentifier(toks, pos);
    var colon :- Expect(toks, name.next, Separator, ":");
    var varType :- TypeAt(toks, colon);
    if Check(toks, varType.next, Operator, "=") then
      var init :- ExpressionAt(toks, varType.next + 1);
      var semicolon :- Expect(toks, init.next, Separator, ";");
      Ok(Parsed(VariableDeclaration(name.node, varType.node, Some(init.node)), semicolon))
    else
      var semicolon :- Expect(toks, varType.next, Separator, ";");
      Ok(Parsed(VariableDeclaration(name.node, varType.node, None), semicolon))
  }

  /** `parse_expression_statement` (lines 183-187). */
  function ExpressionStatementAt(toks: seq<Token>, pos: nat): (r: Result<Parsed<AstNode>>)
    requires pos <= |toks|
    ensures r.Ok? ==> pos < r.value.next <= |toks| && BeforeEof(toks, r.value.next)
    ensures r.Ok? ==> r.value.node.Expression?
  {
    var e :- ExpressionAt(toks, pos);
    var semicolon :- Expect(toks, e.next, Separator, ";");
    Ok(Parsed(AstNode.Expression(e.node), semicolon))
  }

  /** `parse_statement` (lines 155-161). */
  function StatementAt(toks: seq<Token>, pos: nat): (r: Result<Parsed<AstNode>>)
    requires pos <= |toks|
    ensures r.Ok? ==> pos < r.value.next <= |toks| && BeforeEof(toks, r.value.next)
  {
    if Check(toks, pos, Keyword, "let") then VariableDeclarationAt(toks, pos + 1)
    else ExpressionStatementAt(toks, pos)
  }

  /** The loop of `parse_block`: statements until `}` or the end, then the
      `}` itself. */
  function StatementsAt(toks: seq<Token>, pos: nat, done: seq<AstNode>): (r: Result<Parsed<AstNode>>)
    requires pos <= |toks|
    decreases |toks| - pos
    ensures r.Ok? ==> pos < r.value.next <= |toks| && BeforeEof(toks, r.value.next)
    ensures r.Ok? ==> r.value.node.Block? && done <= r.value.node.statements
  {
    if !Check(toks, pos, Separator, "}") && pos < |toks| then
      var statement :- StatementAt(toks, pos);
      StatementsAt(toks, statement.next, done + [statement.node])
    else
      var close :- Expect(toks, pos, Separator, "}");
      Ok(Parsed(AstNode.Block(done), close))
  }

  /** `parse_block` (lines 143-153). */
  function BlockAt(toks: seq<Token>, pos: nat): (r: Result<Parsed<AstNode>>)
    requires pos <= |toks|
    ensures r.Ok? ==> pos < r.value.next <= |toks| && BeforeEof(toks, r.value.next)
    ensures r.Ok? ==> r.value.node.Block?
  {
    var open :- Expect(toks, pos, Separator, "{");
    StatementsAt(toks, open, [])
  }

  /** The loop of `parse_parameters`: `name: type`, repeated while a comma
      follows. */
  function ParameterListAt(toks: seq<Token>, pos: nat, done: seq<AstNode>): (r: Result<Parsed<seq<AstNode>>>)
    requires pos <= |toks|
    decreases |toks| - pos
    ensures r.Ok? ==> pos < r.value.next <= |toks| && BeforeEof(toks, r.value.next)
    ensures r.Ok? ==> done < r.value.node
  {
    var name :- ExpectIdentifier(toks, pos);
    var colon :- Expect(toks, name.next, Separator, ":");
    var paramType :- TypeAt(toks, colon);
    var params := done + [VariableDeclaration(name.node, paramType.node, None)];
    if Check(toks, paramType.next, Separator, ",") then ParameterListAt(toks, paramType.next + 1, params)
    else Ok(Parsed(params, paramType.next))
  }

  /** `parse_parameters` (lines 115-136): empty when `)` comes first. */
  function ParametersAt(toks: seq<Token>, pos: nat): (r: Result<Parsed<seq<AstNode>>>)
    requires pos <= |toks|
    ensures r.Ok? ==> pos <= r.value.next <= |toks| && (BeforeEof(toks, pos) ==> BeforeEof(toks, r.value.next))
  {
    if Check(toks, pos, Separator, ")") then Ok(Parsed([], pos)) else ParameterListAt(toks, pos, [])
  }

  /** `parse_function_declaration` (lines 98-113), after `fn`. */
  function FunctionDeclarationAt(toks: seq<Token>, pos: nat): (r: Result<Parsed<AstNode>>)
    requires pos <= |toks|
    ensures r.Ok? ==> pos < r.value.next <= |toks| && BeforeEof(toks, r.value.next)
  {
    var name :- ExpectIdentifier(toks, pos);
    var open :- Expect(toks, name.next, Separator, "(");
    var params :- ParametersAt(toks, open);
    var close :- Expect(toks, params.next, Separator, ")");
    var arrow :- Expect(toks, close, Separator, "->");
    var returnType :- TypeAt(toks, arrow);
    var body :- BlockAt(toks, returnType.next);
    Ok(Parsed(FunctionDeclaration(name.node, params.node, returnType.node, body.node), body.next))
  }

  /** `parse_declaration` (lines 88-96). */
  function DeclarationAt(toks: seq<Token>, pos: nat): (r: Result<Parsed<AstNode>>)
    requires pos <= |toks|
    ensures r.Ok? ==> pos < r.value.next <= |toks| && BeforeEof(toks, r.value.next)
  {
    if Check(toks, pos, Keyword, "fn") then FunctionDeclarationAt(toks, pos + 1)
    else if Check(toks, pos, Keyword, "let") then VariableDeclarationAt(toks, pos + 1)
    else Err("Expected declaration")
  }

  /** `parse` (lines 74-86): declarations until the cursor reaches the end of
      the vector. */
  function ProgramAt(toks: seq<Token>, pos: nat, done: seq<AstNode>): (r: Result<AstNode>)
    requires pos <= |toks|
    decreases |toks| - pos
    ensures r.Ok? ==> r.value.Program? && done <= r.value.declarations
  {
    if pos < |toks| then
      var declaration :- DeclarationAt(toks, pos);
      ProgramAt(toks, declaration.next, done + [declaration.node])
    else Ok(Program(done))
  }

  /** `parse` never succeeds on a vector ending in the EOF marker: no
      declaration consumes the marker, and at the marker `parse_declaration`
      finds neither `fn` nor `let`. */
  lemma {:induction false} ProgramFailsBeforeEof(toks: seq<Token>, pos: nat, done: seq<AstNode>)
    requires EndsInEof(toks) && pos < |toks|
    decreases |toks| - pos
    ensures ProgramAt(toks, pos, done).Err?
  {
    var d := DeclarationAt(toks, pos);
    if d.Ok? {
      ProgramFailsBeforeEof(toks, d.value.next, done + [d.value.node]);
    }
  }

  /** The declaration `parse` fails on when it reaches the EOF marker. */
  lemma DeclarationAtEof(toks: seq<Token>)
    requires EndsInEof(toks)
    ensures DeclarationAt(toks, |toks| - 1) == Err("Expected declaration")
  {
  }

  /** A function declaration needs a Separator `->` after its parameters:
      without one anywhere in the vector, `parse_function_declaration`
      fails. */
  lemma FunctionNeedsArrow(toks: seq<Token>, pos: nat)
    requires pos <= |toks|
    requires forall k :: 0 <= k < |toks| ==> !Check(toks, k, Separator, "->")
    ensures FunctionDeclarationAt(toks, pos).Err?
  {
  }
}
