/** The passes src/ParsesIndex.rs runs on the syntax tree before lowering it:
    `generate_symbol_table` (lines 619-656), `semantic_analysis` (lines
    659-691) and `optimize_ast` (lines 694-715). */
module DppPasses {
  import opened Outcomes
  import opened DppAst

  type SymbolTable = map<string, string>

  // ---------------------------------------------------------------------
  // generate_symbol_table
  // ---------------------------------------------------------------------

  /** `param_types.join(", ")`. */
  function Join(parts: seq<string>, separator: string): string {
    if |parts| == 0 then ""
    else if |parts| == 1 then parts[0]
    else parts[0] + separator + Join(parts[1..], separator)
  }

  /** The types of the parameters that are declarations of a named type;
      any other parameter is skipped. */
  function ParamTypes(params: seq<AstNode>): seq<string> {
    if |params| == 0 then []
    else
      var last := params[|params| - 1];
      ParamTypes(params[..|params| - 1])
        + (if last.VariableDeclaration? && last.varType.Type? then [last.varType.typeName] else [])
  }

  /** The type a function is recorded with: `fn(t1, t2) -> r`, where `r` is
      `void` when the return type is not a named type. */
  function Signature(params: seq<AstNode>, returnType: AstNode): string {
    "fn(" + Join(ParamTypes(params), ", ") + ") -> "
      + (if returnType.Type? then returnType.typeName else "void")
  }

  /** The insertions `traverse_ast` makes for `node`, in order. It descends
      through programs and blocks only, so nothing inside a function body and
      no parameter is recorded. */
  function Entries(node: AstNode): seq<(string, string)>
    decreases node
  {
    match node
    case VariableDeclaration(name, varType, _) =>
      if varType.Type? then [(name, varType.typeName)] else []
    case FunctionDeclaration(name, params, returnType, _) => [(name, Signature(params, returnType))]
    case Program(nodes) => EntriesOfAll(nodes)
    case Block(nodes) => EntriesOfAll(nodes)
    case _ => []
  }

  function EntriesOfAll(nodes: seq<AstNode>): seq<(string, string)>
    decreases nodes
  {
    if |nodes| == 0 then []
    else EntriesOfAll(nodes[..|nodes| - 1]) + Entries(nodes[|nodes| - 1])
  }

  /** `HashMap::insert` of each entry in turn: a later entry for a name
      replaces an earlier one. */
  function InsertAll(table: SymbolTable, entries: seq<(string, string)>): SymbolTable {
    if |entries| == 0 then table
    else
      var last := entries[|entries| - 1];
      InsertAll(table, entries[..|entries| - 1])[last.0 := last.1]
  }

  /** `traverse_ast` (lines 622-652) on a table it updates. */
  method TraverseAst(node: AstNode, table: SymbolTable) returns (updated: SymbolTable)
    decreases node
    ensures updated == InsertAll(table, Entries(node))
  {
    match node
    case VariableDeclaration(name, varType, _) =>
      updated := table;
      if varType.Type? {
        updated := table[name := varType.typeName];
      }
    case FunctionDeclaration(name, params, returnType, _) =>
      var paramTypes := [];
      for i := 0 to |params|
        invariant paramTypes == ParamTypes(params[..i])
      {
        assert params[..i + 1][..i] == params[..i];
        var param := params[i];
        if param.VariableDeclaration? && param.varType.Type? {
          paramTypes := paramTypes + [param.varType.typeName];
        }
      }
      assert params[..|params|] == params;
      var retType := if returnType.Type? then returnType.typeName else "void";
      updated := table[name := "fn(" + Join(paramTypes, ", ") + ") -> " + retType];
    case Program(nodes) =>
      updated := TraverseAll(nodes, table);
    case Block(nodes) =>
      updated := TraverseAll(nodes, table);
    case _ =>
      updated := table;
  }

  /** The `for node in nodes` loop of `traverse_ast`. */
  method TraverseAll(nodes: seq<AstNode>, table: SymbolTable) returns (updated: SymbolTable)
    decreases nodes
    ensures updated == InsertAll(table, EntriesOfAll(nodes))
  {
    updated := table;
    for i := 0 to |nodes|
      invariant updated == InsertAll(table, EntriesOfAll(nodes[..i]))
    {
      assert nodes[..i + 1][..i] == nodes[..i];
      assert nodes[i] in nodes;
      var next := TraverseAst(nodes[i], updated);
      InsertAllAppend(table, EntriesOfAll(nodes[..i]), Entries(nodes[i]));
      updated := next;
    }
    assert nodes[..|nodes|] == nodes;
  }

  /** `generate_symbol_table` (lines 619-656). */
  method GenerateSymbolTable(ast: AstNode) returns (table: SymbolTable)
    ensures table == InsertAll(map[], Entries(ast))
  {
    table := TraverseAst(ast, map[]);
  }

  /** Inserting two runs of entries is inserting the first, then the second. */
  lemma {:induction false} InsertAllAppend(table: SymbolTable, first: seq<(string, string)>, second: seq<(string, string)>)
    decreases |second|
    ensures InsertAll(table, first + second) == InsertAll(InsertAll(table, first), second)
  {
    if |second| > 0 {
      var n := |second| - 1;
      var all := first + second;
      assert all[..|all| - 1] == first + second[..n];
      assert all[|all| - 1] == second[n];
      InsertAllAppend(table, first, second[..n]);
      assert InsertAll(table, all) == InsertAll(table, first + second[..n])[second[n].0 := second[n].1];
    } else {
      assert first + second == first;
    }
  }

  /** A name is in the table iff it was already there or some entry names
      it; the value is that of the last entry naming it, or the old value
      when none does. */
  lemma {:induction false} InsertAllFinds(table: SymbolTable, entries: seq<(string, string)>, name: string)
    decreases |entries|
    ensures name in InsertAll(table, entries) <==> name in table || exists i :: 0 <= i < |entries| && entries[i].0 == name
    ensures forall i :: (0 <= i < |entries| && entries[i].0 == name && (forall j :: i < j < |entries| ==> entries[j].0 != name))
              ==> InsertAll(table, entries)[name] == entries[i].1
    ensures ((forall i :: 0 <= i < |entries| ==> entries[i].0 != name) && name in table)
              ==> InsertAll(table, entries)[name] == table[name]
  {
    if |entries| > 0 {
      var n := |entries| - 1;
      var front := entries[..n];
      InsertAllFinds(table, front, name);
      if exists i :: 0 <= i < n && front[i].0 == name {
        var i :| 0 <= i < n && front[i].0 == name;
        assert entries[i].0 == name;
      }
      if exists i :: 0 <= i < |entries| && entries[i].0 == name {
        var i :| 0 <= i < |entries| && entries[i].0 == name;
        if i < n {
          assert front[i].0 == name;
        }
      }
      forall i | 0 <= i < |entries| && entries[i].0 == name && (forall j :: i < j < |entries| ==> entries[j].0 != name)
        ensures InsertAll(table, entries)[name] == entries[i].1
      {
        if i < n {
          assert entries[n].0 != name;
          assert front[i].0 == name;
          forall j | i < j < n
            ensures front[j].0 != name
          {
            assert front[j] == entries[j];
          }
        }
      }
      if (forall i :: 0 <= i < |entries| ==> entries[i].0 != name) && name in table {
        assert entries[n].0 != name;
        forall i | 0 <= i < n
          ensures front[i].0 != name
        {
          assert front[i] == entries[i];
        }
      }
    }
  }

  /** The table `generate_symbol_table` builds names exactly the declared
      names, each with the type of its last declaration. */
  lemma SymbolTableOf(ast: AstNode, name: string)
    ensures var entries := Entries(ast);
      && (name in InsertAll(map[], entries) <==> exists i :: 0 <= i < |entries| && entries[i].0 == name)
      && forall i :: 0 <= i < |entries| && entries[i].0 == name && (forall j :: i < j < |entries| ==> entries[j].0 != name)
           ==> InsertAll(map[], entries)[name] == entries[i].1
  {
    InsertAllFinds(map[], Entries(ast), name);
  }

  // ---------------------------------------------------------------------
  // semantic_analysis
  // ---------------------------------------------------------------------

  /** `check_node` (lines 660-688): the first identifier, in left-to-right
      order, that the table lacks is reported. */
  function CheckNode(node: AstNode, table: SymbolTable): (r: Result<()>)
    decreases node
    ensures r.Err? ==> exists name :: name in Reached(node) && name !in table && r.msg == "Undefined variable: " + name
  {
    match node
    case BinaryOperation(left, _, right) =>
      var _ :- CheckNode(left, table);
      CheckNode(right, table)
    case UnaryOperation(_, operand) => CheckNode(operand, table)
    case Identifier(name) =>
      if name !in table then Err("Undefined variable: " + name) else Ok(())
    case FunctionDeclaration(_, _, _, body) => CheckNode(body, table)
    case Program(nodes) => CheckAll(nodes, table)
    case Block(nodes) => CheckAll(nodes, table)
    case _ => Ok(())
  }

  /** The `for node in nodes` loop of `check_node`, stopping at the first
      error. */
  function CheckAll(nodes: seq<AstNode>, table: SymbolTable): (r: Result<()>)
    decreases nodes
    ensures r.Err? ==> exists name :: name in ReachedAll(nodes) && name !in table && r.msg == "Undefined variable: " + name
  {
    if |nodes| == 0 then Ok(())
    else
      var _ :- CheckNode(nodes[0], table);
      CheckAll(nodes[1..], table)
  }

  /** `semantic_analysis` (lines 659-691). */
  function SemanticAnalysis(ast: AstNode, table: SymbolTable): (r: Result<()>)
    ensures r == Verdict(Reached(ast), table)
  {
    CheckNodeReports(ast, table);
    CheckNode(ast, table)
  }

  /** The identifiers `check_node` looks at, in the order it visits them: it
      reaches identifiers only through operators, programs, blocks and
      function bodies, never through an `Expression` node or an
      initializer. */
  function Reached(node: AstNode): seq<string>
    decreases node
  {
    match node
    case BinaryOperation(left, _, right) => Reached(left) + Reached(right)
    case UnaryOperation(_, operand) => Reached(operand)
    case Identifier(name) => [name]
    case FunctionDeclaration(_, _, _, body) => Reached(body)
    case Program(nodes) => ReachedAll(nodes)
    case Block(nodes) => ReachedAll(nodes)
    case _ => []
  }

  function ReachedAll(nodes: seq<AstNode>): seq<string>
    decreases nodes
  {
    if |nodes| == 0 then [] else Reached(nodes[0]) + ReachedAll(nodes[1..])
  }

  /** The first name of `names` the table lacks. */
  function FirstUndefined(names: seq<string>, table: SymbolTable): Option<string> {
    if |names| == 0 then None
    else if names[0] !in table then Some(names[0])
    else FirstUndefined(names[1..], table)
  }

  /** `FirstUndefined` finds nothing iff every name is in the table, and
      otherwise finds a missing name all of whose predecessors are present. */
  lemma {:induction false} FirstUndefinedFinds(names: seq<string>, table: SymbolTable)
    ensures FirstUndefined(names, table).None? <==> forall i :: 0 <= i < |names| ==> names[i] in table
    ensures FirstUndefined(names, table).Some? ==>
              exists i :: 0 <= i < |names| && names[i] == FirstUndefined(names, table).value
                && names[i] !in table && forall j :: 0 <= j < i ==> names[j] in table
  {
    if |names| > 0 && names[0] in table {
      var rest := names[1..];
      FirstUndefinedFinds(rest, table);
      assert forall j :: 1 <= j < |names| ==> names[j] == rest[j - 1];
      if FirstUndefined(rest, table).Some? {
        var i :| 0 <= i < |rest| && rest[i] == FirstUndefined(rest, table).value
                 && rest[i] !in table && forall j :: 0 <= j < i ==> rest[j] in table;
        assert names[i + 1] == rest[i];
      }
    }
  }

  /** The error that analysing `names` in order reports. */
  function Verdict(names: seq<string>, table: SymbolTable): Result<()> {
    match FirstUndefined(names, table)
    case None => Ok(())
    case Some(name) => Err("Undefined variable: " + name)
  }

  lemma {:induction false} FirstUndefinedAppend(a: seq<string>, b: seq<string>, table: SymbolTable)
    decreases |a|
    ensures FirstUndefined(a + b, table)
            == if FirstUndefined(a, table).Some? then FirstUndefined(a, table) else FirstUndefined(b, table)
  {
    if |a| > 0 {
      assert (a + b)[0] == a[0];
      assert (a + b)[1..] == a[1..] + b;
      FirstUndefinedAppend(a[1..], b, table);
    } else {
      assert a + b == b;
    }
  }

  /** `semantic_analysis` succeeds iff every identifier it reaches is in the
      table, and otherwise names the first one that is not. */
  lemma {:induction false} CheckNodeReports(node: AstNode, table: SymbolTable)
    decreases node
    ensures CheckNode(node, table) == Verdict(Reached(node), table)
  {
    match node
    case BinaryOperation(left, _, right) =>
      CheckNodeReports(left, table);
      CheckNodeReports(right, table);
      FirstUndefinedAppend(Reached(left), Reached(right), table);
    case UnaryOperation(_, operand) => CheckNodeReports(operand, table);
    case Identifier(name) =>
      assert [name][1..] == [];
      assert FirstUndefined([name], table) == if name in table then None else Some(name);
    case FunctionDeclaration(_, _, _, body) => CheckNodeReports(body, table);
    case Program(nodes) => CheckAllReports(nodes, table);
    case Block(nodes) => CheckAllReports(nodes, table);
    case _ =>
  }

  lemma {:induction false} CheckAllReports(nodes: seq<AstNode>, table: SymbolTable)
    decreases nodes
    ensures CheckAll(nodes, table) == Verdict(ReachedAll(nodes), table)
  {
    if |nodes| > 0 {
      CheckNodeReports(nodes[0], table);
      CheckAllReports(nodes[1..], table);
      FirstUndefinedAppend(Reached(nodes[0]), ReachedAll(nodes[1..]), table);
    }
  }

  // ---------------------------------------------------------------------
  // optimize_ast
  // ---------------------------------------------------------------------

  /** `optimize_node` (lines 695-712): it walks operators, programs and
      blocks but rewrites nothing, so every tree comes back unchanged. */
  function OptimizeNode(node: AstNode): (optimized: AstNode)
    decreases node
    ensures optimized == node
  {
    match node
    case BinaryOperation(left, operator, right) => BinaryOperation(OptimizeNode(left), operator, OptimizeNode(right))
    case UnaryOperation(operator, operand) => UnaryOperation(operator, OptimizeNode(operand))
    case Program(nodes) => Program(OptimizeAll(nodes))
    case Block(nodes) => Block(OptimizeAll(nodes))
    case _ => node
  }

  function OptimizeAll(nodes: seq<AstNode>): (optimized: seq<AstNode>)
    decreases nodes
    ensures optimized == nodes
  {
    if |nodes| == 0 then [] else [OptimizeNode(nodes[0])] + OptimizeAll(nodes[1..])
  }

  /** `optimize_ast` (lines 694-715). */
  function OptimizeAst(ast: AstNode): (optimized: AstNode)
    ensures optimized == ast
  {
    OptimizeNode(ast)
  }
}
