/** `generate_ir` of src/ParsesIndex.rs (lines 718-765): a post-order walk
    that appends one text line per instruction to an IR vector. Its partner
    is `Run`, a stack machine that reads the lines back into trees: running
    the IR of an expression pushes that very expression. */
module DppIr {
  import opened Outcomes
  import opened DppTokens
  import opened DppAst

  /** The lines `generate_node_ir` appends for `node`. Programs, expression
      statements and types produce nothing. */
  function Ir(node: AstNode): seq<string>
    decreases node
  {
    match node
    case FunctionDeclaration(name, params, _, body) =>
      ["function " + name + ":"] + ParamLines(params) + Ir(body) + ["end_function"]
    case Block(statements) => IrOfAll(statements)
    case VariableDeclaration(name, _, initializer) =>
      if initializer.Some? then Ir(initializer.value) + ["store " + name] else []
    case BinaryOperation(left, operator, right) => Ir(left) + Ir(right) + [operator + " " + operator]
    case UnaryOperation(operator, operand) => Ir(operand) + [operator]
    case Literal(value) => ["push " + value]
    case Identifier(name) => ["load " + name]
    case _ => []
  }

  function IrOfAll(nodes: seq<AstNode>): seq<string>
    decreases nodes
  {
    if |nodes| == 0 then [] else IrOfAll(nodes[..|nodes| - 1]) + Ir(nodes[|nodes| - 1])
  }

  /** One `  param name` line per parameter that is a declaration. */
  function ParamLines(params: seq<AstNode>): seq<string> {
    if |params| == 0 then []
    else
      var last := params[|params| - 1];
      ParamLines(params[..|params| - 1]) + (if last.VariableDeclaration? then ["  param " + last.name] else [])
  }

  /** `generate_node_ir` (lines 721-761) appending to the vector `ir`. */
  method GenerateNodeIr(node: AstNode, ir: seq<string>) returns (out: seq<string>)
    decreases node
    ensures out == ir + Ir(node)
  {
    match node
    case FunctionDeclaration(name, params, _, body) =>
      out := AppendParamLines(params, ir + ["function " + name + ":"]);
      out := GenerateNodeIr(body, out);
      out := out + ["end_function"];
    case Block(statements) =>
      out := GenerateAll(statements, ir);
    case VariableDeclaration(name, _, initializer) =>
      out := ir;
      if initializer.Some? {
        out := GenerateNodeIr(initializer.value, out);
        out := out + ["store " + name];
      }
    case BinaryOperation(left, operator, right) =>
      out := GenerateNodeIr(left, ir);
      out := GenerateNodeIr(right, out);
      out := out + [operator + " " + operator];
    case UnaryOperation(operator, operand) =>
      out := GenerateNodeIr(operand, ir);
      out := out + [operator];
    case Literal(value) =>
      out := ir + ["push " + value];
    case Identifier(name) =>
      out := ir + ["load " + name];
    case _ =>
      out := ir;
  }

  /** The `for param in parameters` loop of `generate_node_ir`. */
  method AppendParamLines(params: seq<AstNode>, ir: seq<string>) returns (out: seq<string>)
    ensures out == ir + ParamLines(params)
  {
    out := ir;
    for i := 0 to |params|
      invariant out == ir + ParamLines(params[..i])
    {
      assert params[..i + 1][..i] == params[..i];
      if params[i].VariableDeclaration? {
        out := out + ["  param " + params[i].name];
      }
    }
    assert params[..|params|] == params;
  }

  /** The `for stmt in statements` loop of `generate_node_ir`. */
  method GenerateAll(statements: seq<AstNode>, ir: seq<string>) returns (out: seq<string>)
    decreases statements
    ensures out == ir + IrOfAll(statements)
  {
    out := ir;
    for i := 0 to |statements|
      invariant out == ir + IrOfAll(statements[..i])
    {
      assert statements[..i + 1][..i] == statements[..i];
      assert statements[i] in statements;
      out := GenerateNodeIr(statements[i], out);
    }
    assert statements[..|statements|] == statements;
  }

  /** `generate_ir` (lines 718-765). */
  method GenerateIr(ast: AstNode) returns (ir: seq<string>)
    ensures ir == Ir(ast)
    ensures ast.Program? ==> ir == []
  {
    ir := GenerateNodeIr(ast, []);
  }

  // ---------------------------------------------------------------------
  // Reading the IR back
  // ---------------------------------------------------------------------

  /** An operator the lexer can produce: operator characters only, so its
      line can be told apart from `push`, `load` and `store` lines. */
  predicate IsOperatorText(op: string) {
    |op| > 0 && forall i :: 0 <= i < |op| ==> IsOperatorChar(op[i])
  }

  /** An expression whose operators the lexer could have produced. */
  predicate IsIrExpr(e: AstNode) {
    match e
    case Literal(_) => true
    case Identifier(_) => true
    case UnaryOperation(op, operand) => IsOperatorText(op) && IsIrExpr(operand)
    case BinaryOperation(left, op, right) => IsOperatorText(op) && IsIrExpr(left) && IsIrExpr(right)
    case _ => false
  }

  /** The state of the reading machine: a stack of trees and the
      assignments made so far. */
  datatype Machine = Machine(stack: seq<AstNode>, stored: seq<(string, AstNode)>)

  /** One IR line run on the machine; `None` when the line is not an
      expression or store instruction or the stack is too short. */
  function Step(m: Machine, line: string): Option<Machine> {
    if "push " <= line then Some(m.(stack := m.stack + [AstNode.Literal(line[5..])]))
    else if "load " <= line then Some(m.(stack := m.stack + [AstNode.Identifier(line[5..])]))
    else if "store " <= line then
      if |m.stack| == 0 then None
      else Some(Machine(m.stack[..|m.stack| - 1], m.stored + [(line[6..], m.stack[|m.stack| - 1])]))
    else if IsOperatorText(line) then
      if |m.stack| == 0 then None
      else
        var n := |m.stack| - 1;
        Some(m.(stack := m.stack[..n] + [UnaryOperation(line, m.stack[n])]))
    else if |line| % 2 == 1 && line[|line| / 2] == ' ' && IsOperatorText(line[..|line| / 2])
            && line[..|line| / 2] == line[|line| / 2 + 1..] then
      if |m.stack| < 2 then None
      else
        var n := |m.stack| - 2;
        Some(m.(stack := m.stack[..n] + [BinaryOperation(m.stack[n], line[..|line| / 2], m.stack[n + 1])]))
    else None
  }

  /** The lines run one after the other. */
  function Run(m: Machine, lines: seq<string>): Option<Machine>
    decreases |lines|
  {
    if |lines| == 0 then Some(m)
    else
      var last := lines[|lines| - 1];
      match Run(m, lines[..|lines| - 1])
      case None => None
      case Some(m') => Step(m', last)
  }

  lemma {:induction false} RunAppend(m: Machine, a: seq<string>, b: seq<string>)
    decreases |b|
    ensures Run(m, a + b) == match Run(m, a) case None => None case Some(m') => Run(m', b)
  {
    if |b| == 0 {
      assert a + b == a;
    } else {
      var n := |b| - 1;
      assert (a + b)[..|a + b| - 1] == a + b[..n];
      assert (a + b)[|a + b| - 1] == b[n];
      RunAppend(m, a, b[..n]);
    }
  }

  /** A line that starts with an operator character is neither a `push`,
      a `load` nor a `store` line. */
  lemma NotKeywordLine(line: string)
    requires |line| > 0 && IsOperatorChar(line[0])
    ensures !("push " <= line) && !("load " <= line) && !("store " <= line)
  {
  }

  /** A binary operator's line, `op op`, is read as that operator. */
  lemma BinaryLine(m: Machine, op: string, a: AstNode, b: AstNode)
    requires IsOperatorText(op)
    ensures Step(Machine(m.stack + [a, b], m.stored), op + " " + op)
            == Some(Machine(m.stack + [BinaryOperation(a, op, b)], m.stored))
  {
    var line := op + " " + op;
    assert line[0] == op[0];
    NotKeywordLine(line);
    assert line[|line| / 2] == ' ';
    assert !IsOperatorChar(line[|op|]);
    assert line[..|line| / 2] == op;
    assert line[|line| / 2 + 1..] == op;
    var s := m.stack + [a, b];
    assert s[..|s| - 2] == m.stack;
  }

  /** A unary operator's line is read as that operator. */
  lemma UnaryLine(m: Machine, op: string, a: AstNode)
    requires IsOperatorText(op)
    ensures Step(Machine(m.stack + [a], m.stored), op) == Some(Machine(m.stack + [UnaryOperation(op, a)], m.stored))
  {
    NotKeywordLine(op);
    var s := m.stack + [a];
    assert s[..|s| - 1] == m.stack;
  }

  /** Running the IR of an expression pushes the expression itself and
      stores nothing: the IR is a faithful post-order spelling of the tree. */
  lemma {:induction false} RunExpression(m: Machine, e: AstNode)
    requires IsIrExpr(e)
    decreases e
    ensures Run(m, Ir(e)) == Some(Machine(m.stack + [e], m.stored))
  {
    match e
    case Literal(v) =>
      assert ("push " + v)[5..] == v;
      assert [] + ["push " + v] == ["push " + v];
    case Identifier(n) =>
      assert ("load " + n)[5..] == n;
      assert "push "[0] == 'p' && ("load " + n)[0] == 'l';
      assert [] + ["load " + n] == ["load " + n];
    case UnaryOperation(op, operand) =>
      RunExpression(m, operand);
      RunAppend(m, Ir(operand), [op]);
      UnaryLine(m, op, operand);
      assert Ir(operand) + [op] == Ir(e);
      assert [] + [op] == [op];
    case BinaryOperation(left, op, right) =>
      var ml := Machine(m.stack + [left], m.stored);
      RunExpression(m, left);
      RunExpression(ml, right);
      assert ml.stack + [right] == m.stack + [left, right];
      RunAppend(m, Ir(left), Ir(right));
      RunAppend(m, Ir(left) + Ir(right), [op + " " + op]);
      BinaryLine(m, op, left, right);
      assert [] + [op + " " + op] == [op + " " + op];
  }

  /** A declaration that a block can lower: one whose initializer, if any,
      the machine can read. Expression statements lower to nothing. */
  predicate IsIrStatement(s: AstNode) {
    (s.VariableDeclaration? && (s.initializer.Some? ==> IsIrExpr(s.initializer.value))) || s.Expression?
  }

  /** The assignments a run of statements makes, in order. */
  function Assignments(statements: seq<AstNode>): seq<(string, AstNode)> {
    if |statements| == 0 then []
    else
      var last := statements[|statements| - 1];
      Assignments(statements[..|statements| - 1])
        + (if last.VariableDeclaration? && last.initializer.Some? then [(last.name, last.initializer.value)] else [])
  }

  /** Running the IR of one statement stores the declared value, if any,
      under the declared name and leaves the stack as it was. */
  lemma RunStatement(m: Machine, s: AstNode)
    requires IsIrStatement(s)
    ensures Run(m, Ir(s)) == Some(Machine(m.stack, m.stored + Assignments([s])))
  {
    assert [s][..0] == [];
    if s.VariableDeclaration? && s.initializer.Some? {
      var value, line := s.initializer.value, "store " + s.name;
      RunExpression(m, value);
      RunAppend(m, Ir(value), [line]);
      var top := Machine(m.stack + [value], m.stored);
      assert line[6..] == s.name;
      assert "push "[1] == 'u' && line[1] == 't';
      assert "load "[0] == 'l' && line[0] == 's';
      assert top.stack[..|top.stack| - 1] == m.stack;
      assert Ir(s) == Ir(value) + [line];
      assert [line][..0] == [];
      assert Run(top, [line]) == Step(top, line);
      assert Step(top, line) == Some(Machine(m.stack, m.stored + [(s.name, value)]));
      assert Assignments([s]) == [(s.name, value)];
    } else {
      assert m.stored + [] == m.stored;
    }
  }

  /** Running the IR of a block stores each initialised declaration's value
      under its name, in order, and leaves the stack as it was; expression
      statements leave no trace. */
  lemma {:induction false} RunBlock(m: Machine, statements: seq<AstNode>)
    requires forall i :: 0 <= i < |statements| ==> IsIrStatement(statements[i])
    decreases |statements|
    ensures Run(m, IrOfAll(statements)) == Some(Machine(m.stack, m.stored + Assignments(statements)))
  {
    if |statements| == 0 {
      assert m.stored + [] == m.stored;
    } else {
      var n := |statements| - 1;
      var front, last := statements[..n], statements[n];
      RunBlock(m, front);
      var mid := Machine(m.stack, m.stored + Assignments(front));
      assert IrOfAll(statements) == IrOfAll(front) + Ir(last);
      RunAppend(m, IrOfAll(front), Ir(last));
      RunStatement(mid, last);
      assert [last][..0] == [];
      assert Assignments(statements) == Assignments(front) + Assignments([last]);
      assert mid.stored + Assignments([last]) == m.stored + Assignments(statements);
    }
  }
}
