/** Tokens of the D++ front end (src/ParsesIndex.rs, lines 6-25) and the
    character classes the lexer tests. Only ASCII input is modelled, so
    Rust's `is_alphanumeric` and `is_digit(10)` are the ASCII classes. */
module DppTokens {

  datatype TokenType = Identifier | Keyword | Operator | Literal | Separator | Comment | Whitespace

  /** `column` is the index of the token's first character in the input
      (the lexer's `start`), not a column within a line. */
  datatype Token = Token(tokenType: TokenType, value: string, line: nat, column: nat)

  /** The name Rust's derived `Debug` prints for a token type. */
  function TypeName(t: TokenType): string {
    match t
    case Identifier => "Identifier"
    case Keyword => "Keyword"
    case Operator => "Operator"
    case Literal => "Literal"
    case Separator => "Separator"
    case Comment => "Comment"
    case Whitespace => "Whitespace"
  }

  const Keywords: set<string> := {"fn", "let", "if", "else", "while", "return"}

  predicate IsAscii(c: char) { c as int < 128 }

  predicate IsDigit(c: char) { '0' <= c <= '9' }

  predicate IsAlpha(c: char) { 'a' <= c <= 'z' || 'A' <= c <= 'Z' }

  /** A character that may start a word: `'a'..='z' | 'A'..='Z' | '_'`. */
  predicate IsWordStart(c: char) { IsAlpha(c) || c == '_' }

  /** A character that continues a word: `is_alphanumeric() || == '_'`. */
  predicate IsWordChar(c: char) { IsAlpha(c) || IsDigit(c) || c == '_' }

  /** The characters `scan_token` skips without emitting a token. */
  predicate IsBlank(c: char) { c == ' ' || c == '\r' || c == '\t' || c == '\n' }

  predicate IsSeparatorChar(c: char) {
    c == '(' || c == ')' || c == '{' || c == '}' || c == ',' || c == ';' || c == ':'
  }

  predicate IsOperatorChar(c: char) {
    c == '+' || c == '-' || c == '*' || c == '/' || c == '=' || c == '!' || c == '<' || c == '>'
  }

  /** Every character `scan_token` has an arm for, except the opening quote
      of a string literal (which can still fail). */
  predicate IsPlainChar(c: char) {
    IsSeparatorChar(c) || IsOperatorChar(c) || IsDigit(c) || IsWordStart(c) || IsBlank(c)
  }

  /** A character for which `scan_token` reports "Unexpected character". */
  predicate IsUnexpected(c: char) { !IsPlainChar(c) && c != '"' }

  /** The symbol of the token at the end of every token stream. */
  const EofValue: string := "EOF"

  predicate IsEofToken(t: Token) {
    t.tokenType == Separator && t.value == EofValue
  }
}

/** The abstract syntax tree of src/ParsesIndex.rs, lines 27-56. Every child is
    owned by its parent, so a datatype models it exactly. */
module DppAst {
  import opened Outcomes

  datatype AstNode =
    | Program(declarations: seq<AstNode>)
    | FunctionDeclaration(name: string, parameters: seq<AstNode>, returnType: AstNode, body: AstNode)
    | VariableDeclaration(name: string, varType: AstNode, initializer: Option<AstNode>)
    | Type(typeName: string)
    | Block(statements: seq<AstNode>)
    | Expression(expr: AstNode)
    | BinaryOperation(left: AstNode, operator: string, right: AstNode)
    | UnaryOperation(operator: string, operand: AstNode)
    | Literal(text: string)
    | Identifier(id: string)
}
