/** The `Parser` of src/ParsesIndex.rs (lines 58-380): a recursive-descent
    parser that advances one shared cursor over an immutable token vector.
    Every `parse_x` method is proved to agree with the function `XAt` of
    DppGrammar taken at the cursor it starts from. */
module DppParser {
  import opened Outcomes
  import opened DppTokens
  import opened DppAst
  import opened DppGrammar

  /** What a method returning `r` and leaving the cursor at `cursor` must do
      to agree with the grammar's `spec`: the same node and the same cursor
      on success, the same message on failure. */
  predicate Agrees<T(==)>(spec: Result<Parsed<T>>, r: Result<T>, cursor: nat) {
    match spec
    case Ok(p) => r == Ok(p.node) && cursor == p.next
    case Err(m) => r == Err(m)
  }

  class Parser {
    const tokens: seq<Token>
    var current: nat
    var ast: Option<AstNode>

    /** `advance` never moves the cursor past the end of the vector. */
    predicate Valid()
      reads this
    {
      current <= |tokens|
    }

    /** `Parser::new` (lines 66-72). */
    constructor (tokens: seq<Token>)
      ensures this.tokens == tokens && current == 0 && ast == None
      ensures Valid()
    {
      this.tokens := tokens;
      current := 0;
      ast := None;
    }

    /** `is_at_end` (lines 356-358): the cursor is past the last token.
        The EOF marker the lexer appends is a token like any other, so the
        cursor on it is not at the end. */
    predicate IsAtEnd(): (atEnd: bool)
      reads this
      ensures !atEnd <==> current < |tokens|
      ensures EndsInEof(tokens) && current == |tokens| - 1 ==> !atEnd
    {
      current >= |tokens|
    }

    /** `check` (lines 340-347). */
    predicate Check(tokenType: TokenType, value: string): (found: bool)
      reads this
      ensures found <==> DppGrammar.Check(tokens, current, tokenType, value)
      ensures found ==> !IsAtEnd()
    {
      if IsAtEnd() then false
      else
        var token := tokens[current];
        token.tokenType == tokenType && (|value| == 0 || token.value == value)
    }

    /** `previous` (lines 360-362): the token just consumed. */
    function Previous(): (t: Token)
      reads this
      requires 0 < current <= |tokens|
      ensures t == tokens[current - 1] && DppGrammar.Check(tokens, current - 1, t.tokenType, t.value)
    {
      tokens[current - 1]
    }

    /** `advance` (lines 349-354), without its returned reference, which no
        caller uses. */
    method Advance()
      requires Valid()
      modifies this`current
      ensures Valid()
      ensures current == if old(current) < |tokens| then old(current) + 1 else old(current)
    {
      if !IsAtEnd() {
        current := current + 1;
      }
    }

    /** `match_token` (lines 321-328). */
    method MatchToken(tokenType: TokenType, value: string) returns (found: bool)
      requires Valid()
      modifies this`current
      ensures Valid()
      ensures found == DppGrammar.Check(tokens, old(current), tokenType, value)
      ensures current == if found then old(current) + 1 else old(current)
    {
      found := Check(tokenType, value);
      if found {
        Advance();
      }
    }

    /** `match_any` (lines 330-338): the options are tried in order. */
    method MatchAny(options: seq<(TokenType, string)>) returns (found: bool)
      requires Valid()
      modifies this`current
      ensures Valid()
      ensures found == CheckAny(tokens, old(current), options)
      ensures current == if found then old(current) + 1 else old(current)
    {
      var i := 0;
      while i < |options|
        invariant i <= |options| && current == old(current)
        invariant CheckAny(tokens, current, options) == CheckAny(tokens, current, options[i..])
      {
        assert options[i..][1..] == options[i + 1..];
        var matched := Check(options[i].0, options[i].1);
        if matched {
          Advance();
          return true;
        }
        i := i + 1;
      }
      return false;
    }

    /** `expect_token` (lines 364-371): on failure the cursor stays. */
    method ExpectToken(tokenType: TokenType, value: string) returns (r: Result<()>)
      requires Valid()
      modifies this`current
      ensures Valid()
      ensures r.Ok? <==> Expect(tokens, old(current), tokenType, value).Ok?
      ensures r.Ok? ==> current == Expect(tokens, old(current), tokenType, value).value
      ensures r.Err? ==> r.msg == Expect(tokens, old(current), tokenType, value).msg && current == old(current)
    {
      var found := Check(tokenType, value);
      if found {
        Advance();
        return Ok(());
      }
      return Err(ExpectMessage(tokenType, value));
    }

    /** `expect_identifier` (lines 373-379): on failure the cursor stays. */
    method ExpectIdentifier() returns (r: Result<string>)
      requires Valid()
      modifies this`current
      ensures Valid()
      ensures Agrees(DppGrammar.ExpectIdentifier(tokens, old(current)), r, current)
      ensures r.Err? ==> current == old(current)
    {
      var found := MatchToken(TokenType.Identifier, "");
      if found {
        return Ok(Previous().value);
      }
      return Err("Expected identifier");
    }

    /** `parse` (lines 74-86): declarations until the end of the vector; the
        program is also stored in `ast`. */
    method Parse() returns (r: Result<AstNode>)
      requires Valid()
      modifies this`current, this`ast
      ensures Valid()
      ensures r == ProgramAt(tokens, old(current), [])
      ensures r.Ok? ==> ast == Some(r.value)
      ensures r.Err? ==> ast == old(ast)
    {
      var nodes := [];
      while !IsAtEnd()
        invariant Valid()
        invariant ProgramAt(tokens, current, nodes) == ProgramAt(tokens, old(current), [])
        invariant ast == old(ast)
        decreases |tokens| - current
      {
        var node := ParseDeclaration();
        if node.Err? {
          return Err(node.msg);
        }
        nodes := nodes + [node.value];
      }
      ast := Some(Program(nodes));
      return Ok(Program(nodes));
    }

    /** `parse_declaration` (lines 88-96). */
    method ParseDeclaration() returns (r: Result<AstNode>)
      requires Valid()
      modifies this`current
      ensures Valid()
      ensures Agrees(DeclarationAt(tokens, old(current)), r, current)
    {
      var isFunction := MatchToken(Keyword, "fn");
      if isFunction {
        r := ParseFunctionDeclaration();
        return;
      }
      var isVariable := MatchToken(Keyword, "let");
      if isVariable {
        r := ParseVariableDeclaration();
        return;
      }
      return Err("Expected declaration");
    }

    /** `parse_function_declaration` (lines 98-113). */
    method ParseFunctionDeclaration() returns (r: Result<AstNode>)
      requires Valid()
      modifies this`current
      ensures Valid()
      ensures Agrees(FunctionDeclarationAt(tokens, old(current)), r, current)
    {
      var name :- ExpectIdentifier();
      var _ :- ExpectToken(Separator, "(");
      var parameters :- ParseParameters();
      var _ :- ExpectToken(Separator, ")");
      var _ :- ExpectToken(Separator, "->");
      var returnType :- ParseType();
      var body :- ParseBlock();
      return Ok(FunctionDeclaration(name, parameters, returnType, body));
    }

    /** `parse_parameters` (lines 115-136). */
    method ParseParameters() returns (r: Result<seq<AstNode>>)
      requires Valid()
      modifies this`current
      ensures Valid()
      ensures Agrees(ParametersAt(tokens, old(current)), r, current)
    {
      var parameters := [];
      var empty := Check(Separator, ")");
      if empty {
        return Ok(parameters);
      }
      while true
        invariant Valid() && old(current) <= current
        invariant ParameterListAt(tokens, current, parameters) == ParametersAt(tokens, old(current))
        decreases |tokens| - current
      {
        var name :- ExpectIdentifier();
        var _ :- ExpectToken(Separator, ":");
        var paramType :- ParseType();
        parameters := parameters + [VariableDeclaration(name, paramType, None)];
        var more := MatchToken(Separator, ",");
        if !more {
          return Ok(parameters);
        }
      }
    }

    /** `parse_type` (lines 138-141). */
    method ParseType() returns (r: Result<AstNode>)
      requires Valid()
      modifies this`current
      ensures Valid()
      ensures Agrees(TypeAt(tokens, old(current)), r, current)
    {
      var name :- ExpectIdentifier();
      return Ok(AstNode.Type(name));
    }

    /** `parse_block` (lines 143-153). */
    method ParseBlock() returns (r: Result<AstNode>)
      requires Valid()
      modifies this`current
      ensures Valid()
      ensures Agrees(BlockAt(tokens, old(current)), r, current)
    {
      var _ :- ExpectToken(Separator, "{");
      var statements := [];
      while !Check(Separator, "}") && !IsAtEnd()
        invariant Valid()
        invariant StatementsAt(tokens, current, statements) == BlockAt(tokens, old(current))
        decreases |tokens| - current
      {
        var statement :- ParseStatement();
        statements := statements + [statement];
      }
      var _ :- ExpectToken(Separator, "}");
      return Ok(Block(statements));
    }

    /** `parse_statement` (lines 155-161). */
    method ParseStatement() returns (r: Result<AstNode>)
      requires Valid()
      modifies this`current
      ensures Valid()
      ensures Agrees(StatementAt(tokens, old(current)), r, current)
    {
      var isVariable := MatchToken(Keyword, "let");
      if isVariable {
        r := ParseVariableDeclaration();
      } else {
        r := ParseExpressionStatement();
      }
    }

    /** `parse_variable_declaration` (lines 163-181). */
    method ParseVariableDeclaration() returns (r: Result<AstNode>)
      requires Valid()
      modifies this`current
      ensures Valid()
      ensures Agrees(VariableDeclarationAt(tokens, old(current)), r, current)
    {
      var name :- ExpectIdentifier();
      var _ :- ExpectToken(Separator, ":");
      var varType :- ParseType();
      var initializer := None;
      var isAssignment := MatchToken(Operator, "=");
      if isAssignment {
        var value :- ParseExpression();
        initializer := Some(value);
      }
      var _ :- ExpectToken(Separator, ";");
      return Ok(VariableDeclaration(name, varType, initializer));
    }

    /** `parse_expression_statement` (lines 183-187). */
    method ParseExpressionStatement() returns (r: Result<AstNode>)
      requires Valid()
      modifies this`current
      ensures Valid()
      ensures Agrees(ExpressionStatementAt(tokens, old(current)), r, current)
    {
      var e :- ParseExpression();
      var _ :- ExpectToken(Separator, ";");
      return Ok(AstNode.Expression(e));
    }

    /** `parse_expression` (lines 189-191). */
    method ParseExpression() returns (r: Result<AstNode>)
      requires Valid()
      modifies this`current
      decreases |tokens| - current, 11
      ensures Valid()
      ensures Agrees(ExpressionAt(tokens, old(current)), r, current)
    {
      r := ParseAssignment();
    }

    /** `parse_assignment` (lines 193-211). */
    method ParseAssignment() returns (r: Result<AstNode>)
      requires Valid()
      modifies this`current
      decreases |tokens| - current, 10
      ensures Valid()
      ensures Agrees(AssignmentAt(tokens, old(current)), r, current)
    {
      var target :- ParseBinary(Equality);
      var isAssignment := MatchToken(Operator, "=");
      if !isAssignment {
        return Ok(target);
      }
      var value :- ParseAssignment();
      if target.Identifier? {
        return Ok(BinaryOperation(target, "=", value));
      }
      return Err("Invalid assignment target");
    }

    /** `parse_equality`, `parse_comparison`, `parse_term` and `parse_factor`
        (lines 213-289), which differ only in their operators and in the
        method they call for operands. */
    method ParseBinary(level: Level) returns (r: Result<AstNode>)
      requires Valid()
      modifies this`current
      decreases |tokens| - current, 2 * Depth(level) + 3
      ensures Valid()
      ensures Agrees(BinaryAt(level, tokens, old(current)), r, current)
    {
      var expr :- ParseOperand(level);
      while true
        invariant Valid() && old(current) < current
        invariant RestAt(level, tokens, expr, current) == BinaryAt(level, tokens, old(current))
        decreases |tokens| - current
      {
        var found := MatchAny(Operators(level));
        if !found {
          return Ok(expr);
        }
        var operator := Previous().value;
        var right :- ParseOperand(level);
        expr := BinaryOperation(expr, operator, right);
      }
    }

    /** The method each binary level calls for its operands. */
    method ParseOperand(level: Level) returns (r: Result<AstNode>)
      requires Valid()
      modifies this`current
      decreases |tokens| - current, 2 * Depth(level) + 2
      ensures Valid()
      ensures Agrees(OperandAt(level, tokens, old(current)), r, current)
    {
      match level
      case Equality => r := ParseBinary(Comparison);
      case Comparison => r := ParseBinary(Term);
      case Term => r := ParseBinary(Factor);
      case Factor => r := ParseUnary();
    }

    /** `parse_unary` (lines 291-305). */
    method ParseUnary() returns (r: Result<AstNode>)
      requires Valid()
      modifies this`current
      decreases |tokens| - current, 1
      ensures Valid()
      ensures Agrees(UnaryAt(tokens, old(current)), r, current)
    {
      var found := MatchAny(UnaryOperators);
      if found {
        var operator := Previous().value;
        var operand :- ParseUnary();
        return Ok(UnaryOperation(operator, operand));
      }
      r := ParsePrimary();
    }

    /** `parse_primary` (lines 307-319). */
    method ParsePrimary() returns (r: Result<AstNode>)
      requires Valid()
      modifies this`current
      decreases |tokens| - current, 0
      ensures Valid()
      ensures Agrees(PrimaryAt(tokens, old(current)), r, current)
    {
      var isLiteral := MatchToken(TokenType.Literal, "");
      if isLiteral {
        return Ok(AstNode.Literal(Previous().value));
      }
      var isIdentifier := MatchToken(TokenType.Identifier, "");
      if isIdentifier {
        return Ok(AstNode.Identifier(Previous().value));
      }
      var isGroup := MatchToken(Separator, "(");
      if isGroup {
        var e :- ParseExpression();
        var _ :- ExpectToken(Separator, ")");
        return Ok(e);
      }
      return Err("Expected expression");
    }
  }
}
