/** `generate_target_code` of src/ParsesIndex.rs (lines 768-820): each IR
    line is split into words and expanded on its own into x86 assembly
    lines. The partner is the stack discipline of the output: the assembly
    of an arithmetic expression pushes exactly one value and never pops an
    empty stack. */
module DppCodegen {
  import opened Outcomes
  import opened DppTokens
  import opened DppAst
  import opened DppIr

  /** Rust's `char::is_whitespace`: the characters with the Unicode
      White_Space property, U+0009 to U+000D, U+0020, U+0085, U+00A0,
      U+1680, U+2000 to U+200A, U+2028, U+2029, U+202F, U+205F and
      U+3000. */
  predicate IsSpace(c: char) {
    var k := c as int;
    || 9 <= k <= 13 || k == 0x20 || k == 0x85 || k == 0xA0 || k == 0x1680
    || 0x2000 <= k <= 0x200A || k == 0x2028 || k == 0x2029 || k == 0x202F
    || k == 0x205F || k == 0x3000
  }

  /** The length of the word `s` starts with. */
  function WordLength(s: string): (n: nat)
    ensures n <= |s|
    ensures |s| > 0 && !IsSpace(s[0]) ==> n > 0
  {
    if |s| == 0 || IsSpace(s[0]) then 0 else 1 + WordLength(s[1..])
  }

  /** `split_whitespace`: the maximal runs of non-space characters. */
  function Words(s: string): seq<string>
    decreases |s|
  {
    if |s| == 0 then []
    else if IsSpace(s[0]) then Words(s[1..])
    else
      var n := WordLength(s);
      [s[..n]] + Words(s[n..])
  }

  /** `trim_end_matches(':')`. */
  function TrimColons(s: string): (r: string)
    ensures r <= s && (|r| > 0 ==> r[|r| - 1] != ':')
    ensures forall i :: |r| <= i < |s| ==> s[i] == ':'
  {
    if |s| > 0 && s[|s| - 1] == ':' then TrimColons(s[..|s| - 1]) else s
  }

  /** An IR line `generate_target_code` can expand without panicking: it
      has a first word, and a second one when the first needs it. */
  predicate WellFormed(line: string) {
    var parts := Words(line);
    |parts| > 0
    && ((parts[0] == "function" || parts[0] == "push" || parts[0] == "load" || parts[0] == "store") ==> |parts| > 1)
  }

  /** The assembly lines for one IR line (lines 772-816). */
  function Expand(line: string): seq<string>
    requires WellFormed(line)
  {
    var parts := Words(line);
    var op := parts[0];
    if op == "function" then [TrimColons(parts[1]) + ":", "    push rbp", "    mov rbp, rsp"]
    else if op == "end_function" then ["    mov rsp, rbp", "    pop rbp", "    ret"]
    else if op == "param" then []
    else if op == "push" then ["    push " + parts[1]]
    else if op == "load" then ["    mov rax, [" + parts[1] + "]", "    push rax"]
    else if op == "store" then ["    pop rax", "    mov [" + parts[1] + "], rax"]
    else if op == "+" then ["    pop rbx", "    pop rax", "    add rax, rbx", "    push rax"]
    else if op == "-" then ["    pop rbx", "    pop rax", "    sub rax, rbx", "    push rax"]
    else if op == "*" then ["    pop rbx", "    pop rax", "    imul rax, rbx", "    push rax"]
    else if op == "/" then ["    pop rbx", "    pop rax", "    xor rdx, rdx", "    idiv rbx", "    push rax"]
    else []
  }

  /** IR every line of which can be expanded. */
  predicate Expandable(ir: seq<string>) {
    forall i :: 0 <= i < |ir| ==> WellFormed(ir[i])
  }

  /** The whole program: the expansions one after the other. */
  function Asm(ir: seq<string>): seq<string>
    requires Expandable(ir)
  {
    if |ir| == 0 then [] else Asm(ir[..|ir| - 1]) + Expand(ir[|ir| - 1])
  }

  /** `generate_target_code` (lines 768-820). */
  method GenerateTargetCode(ir: seq<string>) returns (asm: seq<string>)
    requires Expandable(ir)
    ensures asm == Asm(ir)
  {
    asm := [];
    for i := 0 to |ir|
      invariant asm == Asm(ir[..i])
    {
      assert ir[..i + 1][..i] == ir[..i];
      asm := ExpandInstruction(asm, ir[i]);
    }
    assert ir[..|ir|] == ir;
  }

  /** The body of the loop of `generate_target_code` (lines 771-817). */
  method ExpandInstruction(asm: seq<string>, instruction: string) returns (out: seq<string>)
    requires WellFormed(instruction)
    ensures out == asm + Expand(instruction)
  {
    out := asm;
    var parts := Words(instruction);
    var op := parts[0];
    if op == "function" {
      out := out + [TrimColons(parts[1]) + ":"];
      out := out + ["    push rbp"];
      out := out + ["    mov rbp, rsp"];
    } else if op == "end_function" {
      out := out + ["    mov rsp, rbp"];
      out := out + ["    pop rbp"];
      out := out + ["    ret"];
    } else if op == "param" {
    } else if op == "push" {
      out := out + ["    push " + parts[1]];
    } else if op == "load" {
      out := out + ["    mov rax, [" + parts[1] + "]"];
      out := out + ["    push rax"];
    } else if op == "store" {
      out := out + ["    pop rax"];
      out := out + ["    mov [" + parts[1] + "], rax"];
    } else if op == "+" || op == "-" || op == "*" || op == "/" {
      out := out + ["    pop rbx"];
      out := out + ["    pop rax"];
      if op == "+" {
        out := out + ["    add rax, rbx"];
      } else if op == "-" {
        out := out + ["    sub rax, rbx"];
      } else if op == "*" {
        out := out + ["    imul rax, rbx"];
      } else {
        out := out + ["    xor rdx, rdx"];
        out := out + ["    idiv rbx"];
      }
      out := out + ["    push rax"];
    }
  }

  // ---------------------------------------------------------------------
  // Words
  // ---------------------------------------------------------------------

  /** A non-empty text without whitespace: one word. */
  predicate IsWord(w: string) {
    |w| > 0 && forall i :: 0 <= i < |w| ==> !IsSpace(w[i])
  }

  lemma {:induction false} WordLengthOfWord(w: string, rest: string)
    requires IsWord(w) && (|rest| == 0 || IsSpace(rest[0]))
    decreases |w|
    ensures WordLength(w + rest) == |w|
  {
    var s := w + rest;
    assert s[0] == w[0];
    if |w| == 1 {
      assert s[1..] == rest;
    } else {
      assert s[1..] == w[1..] + rest;
      WordLengthOfWord(w[1..], rest);
    }
  }

  /** A word followed by any whitespace character and more text splits
      into that word and the words of the rest. */
  lemma WordsAcross(w: string, sep: char, rest: string)
    requires IsWord(w) && IsSpace(sep)
    ensures Words(w + [sep] + rest) == [w] + Words(rest)
  {
    var s := w + [sep] + rest;
    WordLengthOfWord(w, [sep] + rest);
    assert s == w + ([sep] + rest);
    assert s[..|w|] == w;
    assert s[|w|..] == [sep] + rest;
    assert ([sep] + rest)[1..] == rest;
  }

  /** A word followed by a space and more text splits into that word and
      the words of the rest. */
  lemma WordsOfLine(w: string, rest: string)
    requires IsWord(w)
    ensures Words(w + " " + rest) == [w] + Words(rest)
  {
    WordsAcross(w, ' ', rest);
  }

  /** A no-break space (U+00A0) separates words too: `push`, a no-break
      space and `x` is the instruction `push x`. */
  lemma NoBreakSpaceSplits()
    ensures Words("push\U{00A0}x") == ["push", "x"]
    ensures WellFormed("push\U{00A0}x") && Expand("push\U{00A0}x") == ["    push x"]
  {
    assert "push\U{00A0}x" == "push" + ['\U{00A0}'] + "x";
    WordsAcross("push", '\U{00A0}', "x");
    WordsOfWord("x");
    assert "    push " + "x" == "    push x";
  }

  /** A single word splits into itself. */
  lemma WordsOfWord(w: string)
    requires IsWord(w)
    ensures Words(w) == [w]
  {
    WordLengthOfWord(w, "");
    assert w + "" == w;
    assert w[..|w|] == w;
  }

  // ---------------------------------------------------------------------
  // Length of the output
  // ---------------------------------------------------------------------

  /** How many assembly lines an instruction expands to: three for
      `function` and `end_function`, one for `push`, two for `load` and
      `store`, four for `+`, `-` and `*`, five for `/` and none for anything
      else. */
  function Cost(line: string): nat
    requires WellFormed(line)
  {
    var op := Words(line)[0];
    if op == "function" || op == "end_function" then 3
    else if op == "push" then 1
    else if op == "load" || op == "store" then 2
    else if op == "+" || op == "-" || op == "*" then 4
    else if op == "/" then 5
    else 0
  }

  function TotalCost(ir: seq<string>): nat
    requires Expandable(ir)
  {
    if |ir| == 0 then 0 else TotalCost(ir[..|ir| - 1]) + Cost(ir[|ir| - 1])
  }

  /** The output has as many lines as the instructions' costs add up to. */
  lemma {:induction false} AsmLength(ir: seq<string>)
    requires Expandable(ir)
    ensures |Asm(ir)| == TotalCost(ir)
  {
    if |ir| > 0 {
      AsmLength(ir[..|ir| - 1]);
    }
  }

  lemma ExpandableAppend(a: seq<string>, b: seq<string>)
    requires Expandable(a) && Expandable(b)
    ensures Expandable(a + b)
  {
    forall i | 0 <= i < |a + b|
      ensures WellFormed((a + b)[i])
    {
      if i < |a| {
        assert (a + b)[i] == a[i];
      } else {
        assert (a + b)[i] == b[i - |a|];
      }
    }
  }

  /** Each instruction is expanded on its own. */
  lemma {:induction false} AsmAppend(a: seq<string>, b: seq<string>)
    requires Expandable(a) && Expandable(b)
    decreases |b|
    ensures Expandable(a + b) && Asm(a + b) == Asm(a) + Asm(b)
  {
    ExpandableAppend(a, b);
    if |b| == 0 {
      assert a + b == a;
    } else {
      var n := |b| - 1;
      assert (a + b)[..|a + b| - 1] == a + b[..n];
      assert (a + b)[|a + b| - 1] == b[n];
      AsmAppend(a, b[..n]);
    }
  }

  // ---------------------------------------------------------------------
  // Stack discipline
  // ---------------------------------------------------------------------

  /** What an assembly line does to the depth of the machine stack. */
  function Effect(line: string): int {
    if "    push " <= line then 1 else if "    pop " <= line then -1 else 0
  }

  /** The depth after the lines, starting from `depth`; `None` once a line
      pops an empty stack. */
  function Balance(lines: seq<string>, depth: int): Option<int>
    decreases |lines|
  {
    if |lines| == 0 then Some(depth)
    else
      match Balance(lines[..|lines| - 1], depth)
      case None => None
      case Some(d) =>
        var d' := d + Effect(lines[|lines| - 1]);
        if d' < 0 then None else Some(d')
  }

  lemma {:induction false} BalanceAppend(a: seq<string>, b: seq<string>, depth: int)
    decreases |b|
    ensures Balance(a + b, depth) == match Balance(a, depth) case None => None case Some(d) => Balance(b, d)
  {
    if |b| == 0 {
      assert a + b == a;
    } else {
      var n := |b| - 1;
      assert (a + b)[..|a + b| - 1] == a + b[..n];
      assert (a + b)[|a + b| - 1] == b[n];
      BalanceAppend(a, b[..n], depth);
    }
  }

  /** Running `a` then `b` is running `b` from where `a` left the stack. */
  lemma BalanceThen(a: seq<string>, b: seq<string>, depth: int, middle: int)
    requires Balance(a, depth) == Some(middle)
    ensures Balance(a + b, depth) == Balance(b, middle)
  {
    BalanceAppend(a, b, depth);
  }

  /** A one-line program. */
  lemma BalanceOne(line: string, depth: int)
    ensures Balance([line], depth) == if depth + Effect(line) < 0 then None else Some(depth + Effect(line))
  {
    assert [line][..0] == [];
  }

  /** The lines that push, pop and neither. */
  lemma Effects(n: string)
    ensures Effect("    push rax") == 1
    ensures Effect("    pop rbx") == -1 && Effect("    pop rax") == -1
    ensures Effect("    mov rax, [" + n + "]") == 0
    ensures Effect("    add rax, rbx") == 0 && Effect("    sub rax, rbx") == 0 && Effect("    imul rax, rbx") == 0
    ensures Effect("    xor rdx, rdx") == 0 && Effect("    idiv rbx") == 0
  {
    assert "    pop rbx"[5] != "    push "[5];
    assert "    pop rax"[5] != "    push "[5];
    var mov := "    mov rax, [" + n + "]";
    assert mov[4] == 'm';
    assert "    add rax, rbx"[4] == 'a';
    assert "    sub rax, rbx"[4] == 's' && "    sub rax, rbx"[5] == 'u';
    assert "    imul rax, rbx"[4] == 'i';
    assert "    xor rdx, rdx"[4] == 'x';
    assert "    idiv rbx"[4] == 'i';
  }

  predicate IsArithmetic(op: string) {
    op == "+" || op == "-" || op == "*" || op == "/"
  }

  /** An expression over single-word operands and the four operators
      `generate_target_code` translates. */
  predicate IsArithExpr(e: AstNode) {
    match e
    case Literal(v) => IsWord(v)
    case Identifier(n) => IsWord(n)
    case BinaryOperation(left, op, right) => IsArithmetic(op) && IsArithExpr(left) && IsArithExpr(right)
    case _ => false
  }

  /** `push v` becomes one push. */
  lemma ExpandPush(v: string)
    requires IsWord(v)
    ensures WellFormed("push " + v) && Expand("push " + v) == ["    push " + v]
  {
    WordsOfLine("push", v);
    WordsOfWord(v);
    assert "push " + v == "push" + " " + v;
  }

  /** `load n` becomes a move and a push. */
  lemma ExpandLoad(n: string)
    requires IsWord(n)
    ensures WellFormed("load " + n) && Expand("load " + n) == ["    mov rax, [" + n + "]", "    push rax"]
  {
    WordsOfLine("load", n);
    WordsOfWord(n);
    assert "load " + n == "load" + " " + n;
  }

  /** The lines of an arithmetic operator: two pops, the operation, a push. */
  function OperationLines(op: string): seq<string> {
    if op == "+" then ["    pop rbx", "    pop rax", "    add rax, rbx", "    push rax"]
    else if op == "-" then ["    pop rbx", "    pop rax", "    sub rax, rbx", "    push rax"]
    else if op == "*" then ["    pop rbx", "    pop rax", "    imul rax, rbx", "    push rax"]
    else ["    pop rbx", "    pop rax", "    xor rdx, rdx", "    idiv rbx", "    push rax"]
  }

  /** An arithmetic operator's line, `op op`, becomes its operation. */
  lemma ExpandArithmetic(op: string)
    requires IsArithmetic(op)
    ensures WellFormed(op + " " + op) && Expand(op + " " + op) == OperationLines(op)
  {
    WordsOfLine(op, op);
    WordsOfWord(op);
  }

  /** The lines of one move and one push raise the depth by one. */
  lemma LoadBalance(n: string, depth: int)
    requires depth >= 0
    ensures Balance(["    mov rax, [" + n + "]", "    push rax"], depth) == Some(depth + 1)
  {
    var mov := "    mov rax, [" + n + "]";
    Effects(n);
    BalanceOne(mov, depth);
    BalanceOne("    push rax", depth);
    BalanceAppend([mov], ["    push rax"], depth);
    assert [mov] + ["    push rax"] == [mov, "    push rax"];
  }

  /** The lines of an operation take two values and leave one. */
  lemma OperationBalance(op: string, depth: int)
    requires depth >= 2
    ensures Balance(OperationLines(op), depth) == Some(depth - 1)
  {
    Effects("");
    var lines := OperationLines(op);
    var pops := ["    pop rbx", "    pop rax"];
    BalanceOne("    pop rbx", depth);
    BalanceAppend(["    pop rbx"], ["    pop rax"], depth);
    BalanceOne("    pop rax", depth - 1);
    assert ["    pop rbx"] + ["    pop rax"] == pops;
    assert Balance(pops, depth) == Some(depth - 2);
    var middle := lines[2..|lines| - 1];
    assert lines == pops + middle + ["    push rax"];
    BalanceAppend(pops, middle, depth);
    BalanceAppend(pops + middle, ["    push rax"], depth);
    BalanceOne("    push rax", depth - 2);
    if |middle| == 1 {
      BalanceOne(middle[0], depth - 2);
      assert [middle[0]] == middle;
    } else {
      BalanceOne(middle[0], depth - 2);
      BalanceOne(middle[1], depth - 2);
      BalanceAppend([middle[0]], [middle[1]], depth - 2);
      assert [middle[0]] + [middle[1]] == middle;
    }
  }

  /** Every line of the IR of an arithmetic expression can be expanded. */
  lemma {:induction false} ArithExpandable(e: AstNode)
    requires IsArithExpr(e)
    decreases e
    ensures Expandable(Ir(e))
  {
    match e
    case Literal(v) => ExpandPush(v);
    case Identifier(n) => ExpandLoad(n);
    case BinaryOperation(left, op, right) =>
      ArithExpandable(left);
      ArithExpandable(right);
      ExpandArithmetic(op);
      ExpandableAppend(Ir(left), Ir(right));
      ExpandableAppend(Ir(left) + Ir(right), [op + " " + op]);
  }

  /** The assembly of a binary operation: its operands', then its
      operation's. */
  lemma BinaryAsm(left: AstNode, op: string, right: AstNode)
    requires IsArithExpr(BinaryOperation(left, op, right))
    ensures Expandable(Ir(left)) && Expandable(Ir(right)) && Expandable(Ir(BinaryOperation(left, op, right)))
    ensures Asm(Ir(BinaryOperation(left, op, right))) == Asm(Ir(left)) + Asm(Ir(right)) + OperationLines(op)
  {
    var line := op + " " + op;
    ArithExpandable(left);
    ArithExpandable(right);
    ExpandArithmetic(op);
    assert Ir(BinaryOperation(left, op, right)) == Ir(left) + Ir(right) + [line];
    AsmAppend(Ir(left), Ir(right));
    assert Expandable([line]);
    AsmAppend(Ir(left) + Ir(right), [line]);
    assert [line][..0] == [];
    assert Asm([line]) == Expand(line);
  }

  /** The assembly of a literal or an identifier pushes one value. */
  lemma LeafBalance(e: AstNode, depth: int)
    requires IsArithExpr(e) && !e.BinaryOperation? && depth >= 0
    ensures Expandable(Ir(e)) && Balance(Asm(Ir(e)), depth) == Some(depth + 1)
  {
    if e.Literal? {
      ExpandPush(e.text);
      assert Ir(e)[..0] == [];
      assert Asm(Ir(e)) == ["    push " + e.text];
      BalanceOne("    push " + e.text, depth);
    } else {
      ExpandLoad(e.id);
      assert Ir(e)[..0] == [];
      assert Asm(Ir(e)) == ["    mov rax, [" + e.id + "]", "    push rax"];
      LoadBalance(e.id, depth);
    }
  }

  /** The assembly of an arithmetic expression pushes exactly one value and
      never pops an empty stack. */
  lemma {:induction false} ArithBalance(e: AstNode, depth: int)
    requires IsArithExpr(e) && depth >= 0
    decreases e
    ensures Expandable(Ir(e)) && Balance(Asm(Ir(e)), depth) == Some(depth + 1)
  {
    if e.BinaryOperation? {
      var left, op, right := e.left, e.operator, e.right;
      ArithBalance(left, depth);
      ArithBalance(right, depth + 1);
      BinaryAsm(left, op, right);
      BalanceAppend(Asm(Ir(left)), Asm(Ir(right)), depth);
      BalanceAppend(Asm(Ir(left)) + Asm(Ir(right)), OperationLines(op), depth);
      OperationBalance(op, depth + 2);
    } else {
      LeafBalance(e, depth);
    }
  }

  /** One more instruction at the end adds its expansion at the end. */
  lemma AsmSnoc(ir: seq<string>, line: string)
    requires Expandable(ir) && WellFormed(line)
    ensures Expandable(ir + [line]) && Asm(ir + [line]) == Asm(ir) + Expand(line)
  {
    ExpandableAppend(ir, [line]);
    assert (ir + [line])[..|ir|] == ir;
  }

  /** The line of unary minus is expanded as a subtraction. */
  lemma ExpandMinus()
    ensures WellFormed("-") && Expand("-") == OperationLines("-")
  {
    WordsOfWord("-");
  }

  /** A subtraction on a stack holding one value pops an empty stack. */
  lemma SubtractionUnderflows()
    ensures Balance(OperationLines("-"), 1) == None
  {
    Effects("");
    var lines := OperationLines("-");
    BalanceOne("    pop rbx", 1);
    BalanceAppend(["    pop rbx"], ["    pop rax"], 1);
    BalanceOne("    pop rax", 0);
    assert lines == ["    pop rbx"] + ["    pop rax"] + lines[2..];
    BalanceAppend(["    pop rbx"] + ["    pop rax"], lines[2..], 1);
  }

  /** The assembly of a negation: its operand's, then a subtraction. */
  lemma MinusAsm(e: AstNode)
    requires Expandable(Ir(e))
    ensures Expandable(Ir(UnaryOperation("-", e)))
    ensures Asm(Ir(UnaryOperation("-", e))) == Asm(Ir(e)) + OperationLines("-")
  {
    ExpandMinus();
    AsmSnoc(Ir(e), "-");
    assert Ir(UnaryOperation("-", e)) == Ir(e) + ["-"];
  }

  /** Unary minus reaches the code generator as the bare line `-`, which is
      expanded as a binary subtraction: it takes a value that is not its
      operand's, so on an empty stack it pops once too often, and otherwise
      leaves the depth unchanged instead of replacing the operand. */
  lemma UnaryMinusUnderflows(e: AstNode, depth: int)
    requires IsArithExpr(e) && depth >= 0
    ensures Expandable(Ir(UnaryOperation("-", e)))
    ensures Balance(Asm(Ir(UnaryOperation("-", e))), depth) == if depth == 0 then None else Some(depth)
  {
    ArithBalance(e, depth);
    MinusAsm(e);
    SubtractionAfter(Asm(Ir(e)), depth);
  }

  /** A subtraction after lines that push one value. */
  lemma SubtractionAfter(lines: seq<string>, depth: int)
    requires depth >= 0 && Balance(lines, depth) == Some(depth + 1)
    ensures Balance(lines + OperationLines("-"), depth) == if depth == 0 then None else Some(depth)
  {
    BalanceThen(lines, OperationLines("-"), depth, depth + 1);
    if depth > 0 {
      OperationBalance("-", depth + 1);
    } else {
      SubtractionUnderflows();
    }
  }

  predicate IsComparison(op: string) {
    op == "==" || op == "!=" || op == "<" || op == ">" || op == "<=" || op == ">="
  }

  /** A comparison operator's line has no translation. */
  lemma ExpandComparison(op: string)
    requires IsComparison(op)
    ensures WellFormed(op + " " + op) && Expand(op + " " + op) == []
  {
    WordsOfLine(op, op);
    WordsOfWord(op);
  }

  /** A comparison has no translation: its line expands to nothing, so both
      operands stay on the stack. */
  lemma ComparisonKeepsOperands(left: AstNode, op: string, right: AstNode, depth: int)
    requires IsArithExpr(left) && IsArithExpr(right) && IsComparison(op) && depth >= 0
    ensures Expandable(Ir(BinaryOperation(left, op, right)))
    ensures Balance(Asm(Ir(BinaryOperation(left, op, right))), depth) == Some(depth + 2)
  {
    var line := op + " " + op;
    ArithBalance(left, depth);
    ArithBalance(right, depth + 1);
    ExpandComparison(op);
    AsmAppend(Ir(left), Ir(right));
    AsmSnoc(Ir(left) + Ir(right), line);
    assert Ir(BinaryOperation(left, op, right)) == Ir(left) + Ir(right) + [line];
    assert Asm(Ir(left)) + Asm(Ir(right)) + [] == Asm(Ir(left)) + Asm(Ir(right));
    BalanceAppend(Asm(Ir(left)), Asm(Ir(right)), depth);
  }
}
