# D++ front end and C helpers, modelled in Dafny

The repository prototypes a compiler front end for a small language called
D++. It has two parts.

The Rust part is src/ParsesIndex.rs:
- a lexer that turns source text into tokens with line and column;
- a recursive-descent parser that builds an `ASTNode` tree;
- three passes over that tree: a symbol table, a check for undefined identifiers, and an optimizer that changes nothing;
- a lowering to a textual stack IR (`push`, `load`, `store`, operator lines);
- a code generator that expands each IR line into x86 assembly text.

The C part is three independent files:
- src/parser.c: a chained hash set of tokens (`hash`, `insert`, `lookup`), a token rewrite (`complexProcessing`) and a `strtok` tokenizer;
- src/Lexer.c: a one-token-at-a-time scanner;
- src/StringsAndArrows.c: a growable string buffer that builds a long "arrow" string.

Each part takes the source's own form. Stateful objects become classes whose methods update fields: the Rust `Lexer` and `Parser`, the C hash table, the C lexer and the C string buffer. Loops become methods with loop invariants. Each method is proved against a pure specification function, and the properties the program promises are lemmas about those functions.

Module layout:
- `Outcomes`: `Option` and `Result`; `Err` carries a message, like the Rust `Result<T, String>`.
- `DppTokens`, `DppAst`: token types, tokens, character classes and the syntax tree.
- `DppLexer`: the Rust lexer. `Lexed(input, toks, upto)` states that `toks` is the token stream of `input[..upto]`: faithful slices, maximal munch, only blanks between tokens, correct line numbers.
- `DppGrammar`: the parser as pure functions from a token vector and a cursor to `Result<Parsed(node, next)>`.
- `DppParser`: the `Parser` class. Every `parse_*` method agrees with its grammar function: the same node and cursor on success, the same message on failure.
- `DppPrinter`, `DppRoundTrip`: a printer of expressions into tokens, and the proof that `parse_expression` reads every printed expression back.
- `DppPrecedence`: precedence and associativity on unparenthesised input, and the invalid assignment target.
- `DppPasses`: the symbol table, semantic analysis and the optimizer.
- `DppIr`: IR generation, and a small machine that reads IR back into trees.
- `DppCodegen`: target code generation, and the stack depth of the generated assembly.
- `CHashSet`: src/parser.c.
- `CLexer`: src/Lexer.c.
- `ArrowStrings`: src/StringsAndArrows.c.

## Model

| member | source | states |
|---|---|---|
| DppLexer.NextQuote | src/ParsesIndex.rs:510-515 | the result is within the input, and is a quote whenever it is not the end of the input |
| DppLexer.WordEnd | src/ParsesIndex.rs:544-546 | the end lies within the input and is not followed by a word character |
| DppLexer.DigitsEnd | src/ParsesIndex.rs:528-530 | the end lies within the input and is not followed by a digit |
| DppLexer.WordSpan | src/ParsesIndex.rs:544-546 | every character before the end of the identifier loop is a word character |
| DppLexer.DigitsSpan | src/ParsesIndex.rs:528-530 | every character before the end of the digit loop is a digit |
| DppLexer.LinesUnchanged | src/ParsesIndex.rs:455 | a span without a line feed leaves the line count unchanged |
| DppLexer.LexedSkip | src/ParsesIndex.rs:454-455 | skipping a blank keeps the stream a faithful token stream of the longer prefix |
| DppLexer.LexedAppend | src/ParsesIndex.rs:499-507 | appending a faithful token at the current column extends the token stream |
| DppLexer.LexedToken | src/ParsesIndex.rs:499-507 | every token of a lexed stream is the exact slice of the input it claims, and tokens do not overlap |
| DppLexer.ColumnsIncrease | src/ParsesIndex.rs:402-406 | columns strictly increase along the token stream |
| DppLexer.KeywordIff | src/ParsesIndex.rs:548-552 | a word is a Keyword token exactly when it is one of `fn`, `let`, `if`, `else`, `while`, `return` |
| DppLexer.NumberEnd | src/ParsesIndex.rs:527-538 | a number literal consumes at least its first digit and stays within the input |
| DppLexer.NumberLines | src/ParsesIndex.rs:527-541 | a number literal spans no line feed |
| DppLexer.WordLines | src/ParsesIndex.rs:543-555 | an identifier spans no line feed |
| DppLexer.NumberShape | src/ParsesIndex.rs:527-538 | a number literal is digits, optionally a `.` and more digits |
| DppLexer.NumberScanned | src/ParsesIndex.rs:527-541 | `number` adds a Literal token for the slice up to the number's end, on the line where the number starts |
| DppLexer.WordScanned | src/ParsesIndex.rs:543-555 | `identifier` adds the maximal word, as a Keyword exactly when it is reserved |
| DppLexer.Lexer.constructor | src/ParsesIndex.rs:392-400 | no tokens, cursor at 0, line 1, and the lexing invariant holds |
| DppLexer.Lexer.Advance | src/ParsesIndex.rs:470-474 | returns the character at the cursor and moves the cursor by one |
| DppLexer.Lexer.MatchChar | src/ParsesIndex.rs:476-485 | consumes the next character exactly when it is the expected one |
| DppLexer.Lexer.IsAtEnd | src/ParsesIndex.rs:495-497 | true exactly when the cursor has passed the last character |
| DppLexer.Lexer.Peek | src/ParsesIndex.rs:487-493 | NUL at the end; any other result is the character at the cursor, inside the input |
| DppLexer.Lexer.AddToken | src/ParsesIndex.rs:499-507 | appends the token for `input[start..current]` with the current line and `start` as column |
| DppLexer.Lexer.StringLiteral | src/ParsesIndex.rs:509-525 | on a closing quote, adds the quoted slice and counts its line feeds; without one, fails with "Unterminated string" and adds nothing |
| DppLexer.Lexer.SkipDigits | src/ParsesIndex.rs:528-530 | the cursor stops at the end of the digit run |
| DppLexer.Lexer.Number | src/ParsesIndex.rs:527-541 | adds the number token the scan specification gives and keeps the line count right |
| DppLexer.Lexer.SkipWordChars | src/ParsesIndex.rs:544-546 | the cursor stops at the end of the word run |
| DppLexer.Lexer.Identifier | src/ParsesIndex.rs:543-555 | adds the word token the scan specification gives and keeps the line count right |
| DppLexer.Lexer.ScanToken | src/ParsesIndex.rs:418-468 | the arm taken agrees with the scan specification: the same error message, or the same token and new cursor |
| DppLexer.Lexer.ScanSymbol | src/ParsesIndex.rs:421-450 | separators and operators add one token; `==`, `!=`, `<=` and `>=` are read as two-character operators |
| DppLexer.Lexer.AddEof | src/ParsesIndex.rs:408-413 | appends Separator "EOF" on the last line at column `len`, after a complete stream |
| DppLexer.Lexer.Tokenize | src/ParsesIndex.rs:402-416 | on success, the token stream of the whole input followed by the EOF marker; on failure, the stream up to the offending character and its error |
| DppLexer.SymbolTokenAt | src/ParsesIndex.rs:421-450 | a separator or operator arm adds a faithful token that ends where the next scan starts |
| DppLexer.StringTokenAt | src/ParsesIndex.rs:509-525 | a terminated string literal is a faithful token ending just past its closing quote |
| DppLexer.NumberTokenAt | src/ParsesIndex.rs:527-541 | a number is a faithful, maximal token |
| DppLexer.WordTokenAt | src/ParsesIndex.rs:543-555 | a word is a faithful, maximal token |
| DppLexer.ScanAtFails | src/ParsesIndex.rs:418-468 | a scan fails exactly on a character no arm accepts ("Unexpected character: c") or an unterminated string ("Unterminated string") |
| DppLexer.ScanAtToken | src/ParsesIndex.rs:418-468 | every token a scan adds is a faithful slice ending where the next scan starts |
| DppLexer.ScanAtLexed | src/ParsesIndex.rs:418-468 | a successful scan moves forward and extends the token stream of the prefix read so far |
| DppLexer.NoArrowAndSlashIsOperator | src/ParsesIndex.rs:456-463 | no token is the `->` separator, `/` is always an operator and no `//` comment is ever recognised, because the arm on line 422 comes first |
| DppGrammar.CheckAny | src/ParsesIndex.rs:330-338 | `match_any` matches only before the end of the vector |
| DppGrammar.CheckAnyIff | src/ParsesIndex.rs:330-338 | `match_any` succeeds iff one of its options checks |
| DppGrammar.Expect | src/ParsesIndex.rs:364-371 | succeeds iff the token checks, moving past it; otherwise fails with "Expected ..." |
| DppGrammar.ExpectIdentifier | src/ParsesIndex.rs:373-379 | succeeds iff an identifier comes next, returning its text; otherwise "Expected identifier" |
| DppGrammar.ExpressionAt | src/ParsesIndex.rs:189-191 | on success the cursor moves forward and not past the EOF marker |
| DppGrammar.AssignmentAt | src/ParsesIndex.rs:193-211 | on success the cursor moves forward and not past the EOF marker |
| DppGrammar.BinaryAt | src/ParsesIndex.rs:213-289 | on success the cursor moves forward and not past the EOF marker |
| DppGrammar.OperandAt | src/ParsesIndex.rs:213-289 | on success the cursor moves forward and not past the EOF marker |
| DppGrammar.RestAt | src/ParsesIndex.rs:213-289 | the operator loop never moves the cursor back nor past the EOF marker |
| DppGrammar.UnaryAt | src/ParsesIndex.rs:291-305 | on success the cursor moves forward and not past the EOF marker |
| DppGrammar.PrimaryAt | src/ParsesIndex.rs:307-319 | on success the cursor moves forward and not past the EOF marker |
| DppGrammar.TypeAt | src/ParsesIndex.rs:138-141 | succeeds iff an identifier comes next, yielding a `Type` node of its text |
| DppGrammar.VariableDeclarationAt | src/ParsesIndex.rs:163-181 | on success yields a `VariableDeclaration` and moves the cursor forward |
| DppGrammar.ExpressionStatementAt | src/ParsesIndex.rs:183-187 | on success yields an `Expression` node and moves the cursor forward |
| DppGrammar.StatementAt | src/ParsesIndex.rs:155-161 | on success the cursor moves forward and not past the EOF marker |
| DppGrammar.StatementsAt | src/ParsesIndex.rs:143-153 | on success yields a block that extends the statements read so far |
| DppGrammar.BlockAt | src/ParsesIndex.rs:143-153 | on success yields a `Block` and moves the cursor forward |
| DppGrammar.ParameterListAt | src/ParsesIndex.rs:115-136 | on success yields a longer parameter list and moves the cursor forward |
| DppGrammar.ParametersAt | src/ParsesIndex.rs:115-136 | the parameter list never moves the cursor back nor past the EOF marker |
| DppGrammar.FunctionDeclarationAt | src/ParsesIndex.rs:98-113 | on success the cursor moves forward and not past the EOF marker |
| DppGrammar.DeclarationAt | src/ParsesIndex.rs:88-96 | on success the cursor moves forward and not past the EOF marker |
| DppGrammar.ProgramAt | src/ParsesIndex.rs:74-86 | on success yields a `Program` that extends the declarations read so far |
| DppGrammar.ProgramFailsBeforeEof | src/ParsesIndex.rs:74-86 | `parse` never succeeds on a vector that ends in the lexer's EOF marker |
| DppGrammar.DeclarationAtEof | src/ParsesIndex.rs:88-96 | at the EOF marker `parse_declaration` fails with "Expected declaration" |
| DppGrammar.FunctionNeedsArrow | src/ParsesIndex.rs:98-113 | without a Separator `->` in the vector, every function declaration fails |
| DppParser.Parser.constructor | src/ParsesIndex.rs:66-72 | the parser holds the tokens, its cursor is 0 and it has no tree yet |
| DppParser.Parser.Check | src/ParsesIndex.rs:340-347 | agrees with the grammar's `check`, which is false at the end |
| DppParser.Parser.Advance | src/ParsesIndex.rs:349-354 | moves the cursor by one unless it is at the end |
| DppParser.Parser.IsAtEnd | src/ParsesIndex.rs:356-358 | true exactly when the cursor has passed the last token; on the EOF marker it is false |
| DppParser.Parser.Previous | src/ParsesIndex.rs:360-362 | the token just before the cursor, which checks as its own type and value |
| DppParser.Parser.MatchToken | src/ParsesIndex.rs:321-328 | consumes the token exactly when it checks |
| DppParser.Parser.MatchAny | src/ParsesIndex.rs:330-338 | consumes one token exactly when one of the options checks |
| DppParser.Parser.ExpectToken | src/ParsesIndex.rs:364-371 | agrees with `Expect`; the cursor stays on failure |
| DppParser.Parser.ExpectIdentifier | src/ParsesIndex.rs:373-379 | agrees with the grammar's `expect_identifier`; the cursor stays on failure |
| DppParser.Parser.Parse | src/ParsesIndex.rs:74-86 | returns the grammar's program and stores it in `ast` on success |
| DppParser.Parser.ParseDeclaration | src/ParsesIndex.rs:88-96 | agrees with `DeclarationAt` in node, cursor and error message |
| DppParser.Parser.ParseFunctionDeclaration | src/ParsesIndex.rs:98-113 | agrees with `FunctionDeclarationAt` |
| DppParser.Parser.ParseParameters | src/ParsesIndex.rs:115-136 | agrees with `ParametersAt` |
| DppParser.Parser.ParseType | src/ParsesIndex.rs:138-141 | agrees with `TypeAt` |
| DppParser.Parser.ParseBlock | src/ParsesIndex.rs:143-153 | agrees with `BlockAt` |
| DppParser.Parser.ParseStatement | src/ParsesIndex.rs:155-161 | agrees with `StatementAt` |
| DppParser.Parser.ParseVariableDeclaration | src/ParsesIndex.rs:163-181 | agrees with `VariableDeclarationAt` |
| DppParser.Parser.ParseExpressionStatement | src/ParsesIndex.rs:183-187 | agrees with `ExpressionStatementAt` |
| DppParser.Parser.ParseExpression | src/ParsesIndex.rs:189-191 | agrees with `ExpressionAt` |
| DppParser.Parser.ParseAssignment | src/ParsesIndex.rs:193-211 | agrees with `AssignmentAt` |
| DppParser.Parser.ParseBinary | src/ParsesIndex.rs:213-289 | each of the four binary levels agrees with `BinaryAt` for that level |
| DppParser.Parser.ParseOperand | src/ParsesIndex.rs:213-289 | the call each level makes for its operands agrees with `OperandAt` |
| DppParser.Parser.ParseUnary | src/ParsesIndex.rs:291-305 | agrees with `UnaryAt` |
| DppParser.Parser.ParsePrimary | src/ParsesIndex.rs:307-319 | agrees with `PrimaryAt` |
| DppRoundTrip.CheckAnyOperator | src/ParsesIndex.rs:330-338 | `match_any` on operator options checks for an operator among them |
| DppRoundTrip.OperatorsOfLevel | src/ParsesIndex.rs:213-289 | a level's options are exactly the operators of its precedence |
| DppRoundTrip.CheckAnyLevel | src/ParsesIndex.rs:213-289 | a level's loop continues exactly on an operator of that level |
| DppRoundTrip.CheckAnyUnary | src/ParsesIndex.rs:291-305 | `parse_unary` takes exactly `!` and `-` |
| DppRoundTrip.LevelPasses | src/ParsesIndex.rs:213-289 | a level passes its operand up unchanged when no operator of the level follows |
| DppRoundTrip.LevelStep | src/ParsesIndex.rs:213-289 | one pass of a level's loop builds `BinaryOperation(left, op, right)` |
| DppRoundTrip.Climb | src/ParsesIndex.rs:189-305 | a node no following token continues passes up unchanged through every looser level |
| DppRoundTrip.UnaryReads | src/ParsesIndex.rs:291-319 | `parse_unary` reads any printed expression back in full |
| DppRoundTrip.ParenReads | src/ParsesIndex.rs:307-319 | a parenthesised expression is read as the inner node itself |
| DppRoundTrip.AssignmentReads | src/ParsesIndex.rs:193-211 | `x = e`, with `x` an identifier and `e` printed in full, is read as that assignment |
| DppRoundTrip.LevelBuilds | src/ParsesIndex.rs:213-289 | `left op right` is read by the level of `op` |
| DppRoundTrip.RoundTrip | src/ParsesIndex.rs:189-319 | wherever the printed tokens of an expression occur, `parse_expression` reads that expression back and stops right after them |
| DppPrecedence.LeftNesting | src/ParsesIndex.rs:213-289 | two operators of one level nest to the left: `a - b - c` gives `(a - b) - c` |
| DppPrecedence.TighterSecond | src/ParsesIndex.rs:213-289 | when the second operator binds tighter, it takes the right operand: `a + b * c` gives `a + (b * c)` |
| DppPrecedence.TighterFirst | src/ParsesIndex.rs:213-289 | when the first operator binds tighter, it takes the left operand: `a * b + c` gives `(a * b) + c` |
| DppPrecedence.SameRank | src/ParsesIndex.rs:213-289 | two operators of the same precedence nest to the left, from unary operands up |
| DppPrecedence.ThreeOperands | src/ParsesIndex.rs:189-289 | `parse_expression` on `a op1 b op2 c` nests to the left exactly when `op1` binds at least as tightly as `op2`, and to the right otherwise |
| DppPrecedence.InvalidTarget | src/ParsesIndex.rs:193-211 | a target that is not a bare identifier gives "Invalid assignment target" once the value is read; an error in the value comes first |
| DppPrecedence.AssignmentNestsRight | src/ParsesIndex.rs:193-211 | `x = y = v` gives `x = (y = v)`: assignment nests to the right |
| DppPrecedence.IdentifierTarget | src/ParsesIndex.rs:193-195 | an identifier token followed by `=` reaches `parse_assignment` as a bare `Identifier` target |
| DppPrecedence.IdentifiersNestRight | src/ParsesIndex.rs:193-211 | the bare chain of identifier tokens `x = y = v` gives `x = (y = v)` |
| DppPasses.TraverseAst | src/ParsesIndex.rs:622-652 | the table after the walk is the old one with the node's declarations inserted in order |
| DppPasses.TraverseAll | src/ParsesIndex.rs:645-649 | the loop over children inserts their declarations in order |
| DppPasses.GenerateSymbolTable | src/ParsesIndex.rs:619-656 | the table is the top-level declarations inserted into an empty map in order |
| DppPasses.InsertAllAppend | src/ParsesIndex.rs:645-649 | inserting two runs of entries is inserting the first, then the second |
| DppPasses.InsertAllFinds | src/ParsesIndex.rs:626-643 | a name is present iff it was already present or some entry names it; its value comes from the last such entry |
| DppPasses.SymbolTableOf | src/ParsesIndex.rs:619-656 | the table names exactly the declared names, each with the type of its last declaration |
| DppPasses.FirstUndefinedFinds | src/ParsesIndex.rs:671-674 | nothing is reported iff every name is defined; otherwise a missing name is reported whose predecessors are all defined |
| DppPasses.FirstUndefinedAppend | src/ParsesIndex.rs:680-684 | checking two runs in order reports the first run's error, or else the second's |
| DppPasses.CheckNodeReports | src/ParsesIndex.rs:660-688 | `check_node` succeeds iff every identifier it reaches is defined, and otherwise reports the first undefined one |
| DppPasses.CheckAllReports | src/ParsesIndex.rs:680-684 | the loop over children reports the first undefined identifier among them |
| DppPasses.CheckNode | src/ParsesIndex.rs:660-688 | an error names an identifier the node reaches that the table lacks, as "Undefined variable: " and its name |
| DppPasses.CheckAll | src/ParsesIndex.rs:680-684 | an error names an identifier some child reaches that the table lacks |
| DppPasses.SemanticAnalysis | src/ParsesIndex.rs:659-691 | succeeds iff every identifier the tree reaches is defined, and otherwise reports the first undefined one |
| DppPasses.OptimizeAst | src/ParsesIndex.rs:694-715 | leaves the tree unchanged |
| DppPasses.OptimizeNode | src/ParsesIndex.rs:695-712 | the optimizer returns every tree unchanged |
| DppPasses.OptimizeAll | src/ParsesIndex.rs:705-709 | the loop over children returns them unchanged |
| DppIr.GenerateNodeIr | src/ParsesIndex.rs:721-761 | appends exactly the IR lines of the node to the vector |
| DppIr.AppendParamLines | src/ParsesIndex.rs:725-729 | appends one `  param name` line per declared parameter |
| DppIr.GenerateAll | src/ParsesIndex.rs:734-736 | appends the statements' IR in order |
| DppIr.GenerateIr | src/ParsesIndex.rs:718-765 | returns the node's IR; a whole program yields no IR because `Program` has no arm |
| DppIr.RunAppend | src/ParsesIndex.rs:721-761 | running two runs of IR is running the first, then the second |
| DppIr.NotKeywordLine | src/ParsesIndex.rs:747-751 | an operator line is never a `push`, `load` or `store` line |
| DppIr.BinaryLine | src/ParsesIndex.rs:744-748 | the `op op` line combines the two values on top of the stack with `op` |
| DppIr.UnaryLine | src/ParsesIndex.rs:749-752 | the `op` line applies `op` to the value on top of the stack |
| DppIr.RunExpression | src/ParsesIndex.rs:744-758 | the IR of an expression is its post-order spelling: running it pushes the expression itself |
| DppIr.RunStatement | src/ParsesIndex.rs:738-743 | a declaration's IR stores its initializer under its name and leaves the stack as it was |
| DppIr.RunBlock | src/ParsesIndex.rs:733-737 | a block's IR stores each initialised declaration in order and leaves the stack as it was |
| DppCodegen.WordLength | src/ParsesIndex.rs:772 | the first word lies within the line and is non-empty when the line starts with a character that is not Unicode White_Space |
| DppCodegen.TrimColons | src/ParsesIndex.rs:775 | the result is a prefix without a trailing `:`, and only `:` characters were removed |
| DppCodegen.GenerateTargetCode | src/ParsesIndex.rs:768-820 | the output is the expansions of the IR lines, one after the other |
| DppCodegen.ExpandInstruction | src/ParsesIndex.rs:771-817 | appends the expansion of one IR line |
| DppCodegen.WordsAcross | src/ParsesIndex.rs:772 | a word, any Unicode White_Space character and more text split into that word and the rest's words |
| DppCodegen.WordsOfLine | src/ParsesIndex.rs:772 | a word, a space and more text split into that word and the rest's words |
| DppCodegen.NoBreakSpaceSplits | src/ParsesIndex.rs:772-789 | `push`, a no-break space and `x` split into two words and expand to `    push x` |
| DppCodegen.WordsOfWord | src/ParsesIndex.rs:772 | a single word splits into itself |
| DppCodegen.AsmLength | src/ParsesIndex.rs:771-817 | the output has as many lines as the per-instruction counts add up to |
| DppCodegen.AsmAppend | src/ParsesIndex.rs:771-817 | each IR line is expanded independently of the others |
| DppCodegen.ExpandPush | src/ParsesIndex.rs:787-789 | `push v` becomes a single push of `v` |
| DppCodegen.ExpandLoad | src/ParsesIndex.rs:790-793 | `load n` becomes a move from `[n]` and a push |
| DppCodegen.ExpandArithmetic | src/ParsesIndex.rs:798-812 | `+ +`, `- -`, `* *` and `/ /` become two pops, the operation and a push |
| DppCodegen.LoadBalance | src/ParsesIndex.rs:790-793 | a load raises the stack depth by one |
| DppCodegen.OperationBalance | src/ParsesIndex.rs:798-812 | an arithmetic operation takes two values and leaves one |
| DppCodegen.BinaryAsm | src/ParsesIndex.rs:744-748 | the assembly of a binary operation is its operands', then its operation's |
| DppCodegen.ArithBalance | src/ParsesIndex.rs:771-817 | the assembly of an arithmetic expression pushes exactly one value and never pops an empty stack |
| DppCodegen.ExpandMinus | src/ParsesIndex.rs:798-803 | the bare line of unary minus is expanded as a binary subtraction |
| DppCodegen.SubtractionUnderflows | src/ParsesIndex.rs:798-812 | a subtraction on a one-value stack pops an empty stack |
| DppCodegen.UnaryMinusUnderflows | src/ParsesIndex.rs:749-752 | negation pops an empty stack when it starts on an empty stack, and otherwise leaves the depth unchanged instead of replacing its operand |
| DppCodegen.ExpandComparison | src/ParsesIndex.rs:813-815 | comparison lines have no translation |
| DppCodegen.ComparisonKeepsOperands | src/ParsesIndex.rs:813-815 | a comparison leaves both operands on the stack |
| CHashSet.Fold | src/parser.c:23-24 | the running hash stays below 2^32 |
| CHashSet.Hash | src/parser.c:21-26 | the bucket index is below `HASH_TABLE_SIZE` |
| CHashSet.ComputeHash | src/parser.c:21-26 | the loop computes `Hash` of the string |
| CHashSet.FoldIsPoly | src/parser.c:23-24 | the 32-bit hash is the polynomial `sum s[i] * 31^(n-1-i)` reduced modulo 2^32 |
| CHashSet.HashTable.constructor | src/parser.c:98-99 | every bucket is empty and nothing is stored |
| CHashSet.HashTable.Insert | src/parser.c:29-43 | the content is prepended to its hash's bucket, every other bucket is unchanged, and the stored set grows by exactly the content |
| CHashSet.HashTable.Lookup | src/parser.c:46-53 | finds a content iff it is stored, in its bucket or anywhere |
| CHashSet.HashTable.ComplexProcessing | src/parser.c:55-74 | leaves every bucket unchanged when the rewritten token is already stored; otherwise prepends it to its hash's bucket and leaves the other buckets unchanged; never stores a content twice |
| CHashSet.ToChar | src/parser.c:67 | `(char) k` is the signed char congruent to `k` modulo 256 |
| CHashSet.CStr | src/parser.c:69-72 | the C string is the longest NUL-free prefix of the buffer |
| CHashSet.Rewrite | src/parser.c:60-69 | the loop writes the rewritten token |
| CHashSet.RewrittenLength | src/parser.c:60-68 | the rewrite writes one character per input character |
| CHashSet.RewrittenPrefix | src/parser.c:60-68 | later characters do not change what was written for earlier ones |
| CHashSet.RewrittenAt | src/parser.c:61-67 | an alphanumeric character stays; any other becomes `(char) k` for the running sum `k` |
| CHashSet.AlnumKept | src/parser.c:61-63 | an alphanumeric token is stored as it is |
| CHashSet.CStrOfCString | src/parser.c:69 | a buffer without NUL is read whole |
| CHashSet.NulCutsEntry | src/parser.c:66-73 | `a.` is stored as `a`: the `.` at position 1 makes `k` zero and writes a NUL |
| CHashSet.RunLength | src/parser.c:88-91 | the run ends at the first delimiter and contains none |
| CHashSet.Tokenize | src/parser.c:77-94 | the token array holds exactly the `strtok` tokens, at most 1000, each cut to 100 characters |
| CHashSet.RunEnd | src/parser.c:88-91 | the scan stops after the run of non-delimiters |
| CHashSet.TokensAtDelimiter | src/parser.c:88-91 | leading delimiters are skipped |
| CHashSet.TokensAtRun | src/parser.c:88-91 | a run of non-delimiters is the next token |
| CHashSet.TokenizeJoin | src/parser.c:77-94 | tokenizing fields joined by spaces gives the fields back, up to the cap |
| CHashSet.TokensShape | src/parser.c:88-92 | at most `cap` tokens come out, each non-empty, at most 100 long and free of delimiters |
| CLexer.SkipSpaces | src/Lexer.c:49-51 | the first non-space at or after `p`, with only spaces before it |
| CLexer.WordEnd | src/Lexer.c:56-58 | the end of the identifier, which only identifier characters precede |
| CLexer.DigitEnd | src/Lexer.c:73-75 | the end of the number, which only digits precede |
| CLexer.Scan | src/Lexer.c:44-95 | the token starts at or after the cursor, and the new cursor is past its start but at most just past the NUL |
| CLexer.Lexer.constructor | src/Lexer.c:28-31 | holds the input with the cursor at 0 |
| CLexer.Lexer.PeekChar | src/Lexer.c:39-41 | the character at the cursor; on C text it is NUL exactly at the end |
| CLexer.Lexer.NextChar | src/Lexer.c:34-36 | returns the character at the cursor, the NUL at the end included, and advances |
| CLexer.Lexer.NextToken | src/Lexer.c:44-95 | returns the token `Scan` gives and moves the cursor where `Scan` says |
| CLexer.Lexer.SkipBlanks | src/Lexer.c:46-51 | stops just past the first non-space character and returns it |
| CLexer.Lexer.ReadWord | src/Lexer.c:56-58 | the cursor stops at the end of the identifier |
| CLexer.Lexer.ReadDigits | src/Lexer.c:73-75 | the cursor stops at the end of the number |
| CLexer.WordToken | src/Lexer.c:54-67 | an identifier token is the maximal word, a keyword iff it reads `function` or `var` |
| CLexer.NumberToken | src/Lexer.c:71-80 | a number token is the maximal run of digits |
| CLexer.EndIsOperator | src/Lexer.c:84-89 | at the end of input `strchr` finds the NUL, so the token is an operator with an empty value, not `TOKEN_EOF` |
| CLexer.UnknownIsEof | src/Lexer.c:91-94 | a character that starts no token is consumed and reported as `TOKEN_EOF` |
| CLexer.EofNeverAtEnd | src/Lexer.c:44-95 | `TOKEN_EOF` never comes from the end of the input; an empty value means `TOKEN_EOF` or the end |
| CLexer.SampleFirst | src/Lexer.c:99-105 | the sample program's first token is the keyword `function` |
| CLexer.SampleSecond | src/Lexer.c:99-105 | its second token is the identifier `test` |
| CLexer.SampleThird | src/Lexer.c:99-107 | its third token is the `(` reported as `TOKEN_EOF`, which ends the loop |
| ArrowStrings.Buffer.constructor | src/StringsAndArrows.c:51-58 | an empty string in a fresh buffer of the given size |
| ArrowStrings.Buffer.Append | src/StringsAndArrows.c:27-41 | the content gains the segment; when the segment does not fit, the capacity becomes twice what is needed, and otherwise the block stays |
| ArrowStrings.Buffer.Concatenate | src/StringsAndArrows.c:39-40 | `strcat` writes the segment and its NUL after the current string |
| ArrowStrings.RoundLength | src/StringsAndArrows.c:62-65 | one round of components and separators is 57 characters |
| ArrowStrings.ArrowsLength | src/StringsAndArrows.c:61-65 | `n` rounds are `57 * n` characters |
| ArrowStrings.ComponentsAreStrings | src/StringsAndArrows.c:44-46 | the components and the separator contain no NUL |
| ArrowStrings.GenerateArrowString | src/StringsAndArrows.c:43-66 | the result is 100 rounds of components, each followed by `---`: 5700 characters |
| ArrowStrings.AppendRound | src/StringsAndArrows.c:62-65 | one round appends every component followed by the separator |
| ArrowStrings.AppendPiece | src/StringsAndArrows.c:63-64 | appends a component, then `---` |

## Left out

- `main` and `read_keywords` in src/ParsesIndex.rs (lines 558-616): file and console I/O; the driver only chains the modelled stages.
- Debug printing of tokens and trees: Rust's `Debug` output formatting is not modelled.
- The Rust source as shown does not compile: it moves out of boxed nodes (`**var_type`). The model takes each of those moves to be a clone.
- DppLexer.Lexer.Tokenize: requires ASCII input, because Rust's `is_alphanumeric` also accepts non-ASCII letters. It also requires that the input does not end in a digit followed by `.`. That covers every input on which the `unwrap` on line 532 panics (a number that stops at a final `.`), and panics are not modelled. It also excludes inputs that end in a word or a string literal followed by a digit and `.`, such as `x1.` or `"a1.`. On those the source does not panic: it returns Err("Unexpected character: .") or Err("Unterminated string"), and `Tokenize`'s Err contract says nothing about them.
- DppLexer.Lexer.ScanToken: requires only what the `unwrap` on line 532 needs at its own start: when the scan starts on a digit, the `.` that may end the digits is not the last character (`NumberSafe`).
- Rust's `usize` line and column counters are unbounded integers: overflow is out of reach for any input that fits in memory.
- The Rust lexer's `//` comment arm (lines 456-463) is unreachable, because the arm on line 422 takes every `/`. The model shows this as `NoArrowAndSlashIsOperator` and has no comment arm.
- DppCodegen.GenerateTargetCode: requires every IR line to have a first word, and a second where `parts[1]` is read. An empty line would make the source panic; the IR generator never produces one for the trees the parser builds.
- DppIr and DppCodegen describe the IR of `Program` as empty, because `generate_node_ir` has no arm for it. A program's IR comes only from calling these on its parts.
- Optimizer idempotence: `OptimizeNode` returns its input, so running it twice is the identity; no separate lemma.
- `parseDPlusPlus` and `main` in src/parser.c (lines 97-120): printing, and a loop over a token array that `tokenize` leaves partly uninitialised (undefined behaviour).
- `malloc`, `realloc` and `strdup` failure in all three C files: the model assumes allocation succeeds; the `exit` paths are not modelled.
- CHashSet.HashTable.Insert: requires a content shorter than 100 characters. A longer one loses its NUL in `strncpy`, and the `strcmp` in `lookup` then reads past the buffer.
- CHashSet.HashTable.ComplexProcessing: requires a token shorter than 100 characters, the size of `modifiedToken`. It also requires positive (ASCII) characters, since `isalnum` on a negative `char` is undefined.
- CHashSet: an insert followed by a lookup is stated through the two method contracts (`Stored()` grows by the content; `Lookup` finds exactly `Stored()`), not as a separate lemma.
- CLexer.Lexer.NextToken: requires the token's value to fit the 256-byte `value` buffer. It also requires the input to be ASCII without NUL, because the `<ctype.h>` classifiers are undefined on negative `char`s.
- CLexer: reading past the NUL at the end of the input is undefined behaviour, so every operation requires `pos <= |input|`. The `do ... while` loop of `main` in src/Lexer.c (lines 98-110) is shown only through its first three tokens.
- `size_t` overflow of lengths and capacities in src/StringsAndArrows.c is not modelled: lengths are unbounded naturals.
- `main` in src/StringsAndArrows.c (lines 9-25): printing and `free`.
- The modules/ding headers are not part of this model: they are not used by the files modelled.
