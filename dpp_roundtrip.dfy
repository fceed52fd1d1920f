/** The proof that the expression parser of src/ParsesIndex.rs reads back
    the tree `DppPrinter.Print` printed. */
module DppRoundTrip {
  import opened Outcomes
  import opened DppTokens
  import opened DppAst
  import opened DppGrammar
  import opened DppPrinter

  lemma {:induction false} PrintWidth(e: AstNode)
    ensures |Print(e)| == Width(e)
  {
    match e
    case UnaryOperation(_, operand) => PrintWidth(operand);
    case BinaryOperation(left, _, right) => PrintWidth(left); PrintWidth(right);
    case _ =>
  }

  /** A piece of an occurring sequence occurs at the matching place. */
  lemma OccursInside(toks: seq<Token>, pos: nat, s: seq<Token>, k: nat, piece: seq<Token>)
    requires Occurs(toks, pos, s) && k + |piece| <= |s|
    requires s[k..k + |piece|] == piece
    ensures Occurs(toks, pos + k, piece)
  {
    forall i | 0 <= i < |piece|
      ensures toks[pos + k + i] == piece[i]
    {
      assert piece[i] == s[k + i];
    }
  }

  /** Where each token of a printed binary operation sits. */
  lemma PrintBinary(left: AstNode, op: string, right: AstNode)
    ensures var p, l, r := Print(BinaryOperation(left, op, right)), Print(left), Print(right);
      && |p| == |l| + |r| + 3
      && p[0] == Tok(Separator, "(") && p[1 + |l|] == Tok(Operator, op) && p[2 + |l| + |r|] == Tok(Separator, ")")
      && p[1..1 + |l|] == l
      && p[2 + |l|..2 + |l| + |r|] == r
  {
    var l, r := Print(left), Print(right);
    var a := [Tok(Separator, "(")] + l;
    var b := a + [Tok(Operator, op)];
    var c := b + r;
    assert Print(BinaryOperation(left, op, right)) == c + [Tok(Separator, ")")];
    assert a[1..] == l;
    assert c[|b|..] == r;
  }

  /** Where a printed binary operation occurs, so do its opening
      parenthesis, its two operands and its operator. */
  lemma BinaryPieces(toks: seq<Token>, pos: nat, left: AstNode, op: string, right: AstNode)
    requires Occurs(toks, pos, Print(BinaryOperation(left, op, right)))
    ensures Occurs(toks, pos + 1, Print(left)) && Occurs(toks, pos + 2 + Width(left), Print(right))
    ensures Check(toks, pos, Separator, "(")
    ensures Check(toks, pos + 1 + Width(left), Operator, "") && toks[pos + 1 + Width(left)].value == op
  {
    var p := Print(BinaryOperation(left, op, right));
    var l, r := Print(left), Print(right);
    PrintWidth(left);
    PrintWidth(right);
    PrintBinary(left, op, right);
    assert toks[pos] == p[0];
    OccursInside(toks, pos, p, 1, l);
    assert toks[pos + 1 + |l|] == p[1 + |l|];
    OccursInside(toks, pos, p, 2 + |l|, r);
  }

  /** Where a printed binary operation occurs, so does its closing
      parenthesis. */
  lemma BinaryPiecesClosed(toks: seq<Token>, pos: nat, left: AstNode, op: string, right: AstNode)
    requires Occurs(toks, pos, Print(BinaryOperation(left, op, right)))
    ensures Check(toks, pos + 2 + Width(left) + Width(right), Separator, ")")
  {
    var p := Print(BinaryOperation(left, op, right));
    PrintWidth(left);
    PrintWidth(right);
    PrintBinary(left, op, right);
    assert toks[pos + 2 + |Print(left)| + |Print(right)|] == p[2 + |Print(left)| + |Print(right)|];
  }

  /** Wherever `Print(e)` occurs, `PrintedAt` reads `e` there. */
  lemma {:induction false} PrintedWhereOccurs(toks: seq<Token>, pos: nat, e: AstNode)
    requires IsExpr(e) == true && Occurs(toks, pos, Print(e))
    decreases e
    ensures PrintedAt(toks, pos, e) == true
  {
    var p := Print(e);
    match e
    case Literal(_) => assert toks[pos] == p[0];
    case Identifier(_) => assert toks[pos] == p[0];
    case UnaryOperation(op, operand) =>
      assert toks[pos] == p[0];
      assert p[1..1 + |Print(operand)|] == Print(operand);
      OccursInside(toks, pos, p, 1, Print(operand));
      PrintedWhereOccurs(toks, pos + 1, operand);
    case BinaryOperation(left, op, right) =>
      BinaryPieces(toks, pos, left, op, right);
      BinaryPiecesClosed(toks, pos, left, op, right);
      PrintedWhereOccurs(toks, pos + 1, left);
      PrintedWhereOccurs(toks, pos + 2 + Width(left), right);
  }

  /** `match_any` on options that are all non-empty operators checks for an
      operator among them. */
  lemma {:induction false} CheckAnyOperator(toks: seq<Token>, n: nat, options: seq<(TokenType, string)>)
    requires forall i :: 0 <= i < |options| ==> options[i].0 == Operator && options[i].1 != ""
    ensures CheckAny(toks, n, options) <==>
      n < |toks| && toks[n].tokenType == Operator && (Operator, toks[n].value) in options
  {
    if |options| > 0 {
      CheckAnyOperator(toks, n, options[1..]);
      assert options == [options[0]] + options[1..];
    }
  }

  /** The options of a level are exactly the operators of its rank. */
  lemma OperatorsOfLevel(v: string, level: Level)
    ensures (Operator, v) in Operators(level) <==> InLevel(v, level)
  {
    if InLevel(v, level) {
      match level
      case Equality =>
        if v[0] == '=' { assert v == "=="; } else { assert v == "!="; }
      case Comparison =>
        if |v| == 1 {
          if v[0] == '>' { assert v == ">"; } else { assert v == "<"; }
        } else {
          if v[0] == '>' { assert v == ">="; } else { assert v == "<="; }
        }
      case Term =>
        if v[0] == '+' { assert v == "+"; } else { assert v == "-"; }
      case Factor =>
        if v[0] == '*' { assert v == "*"; } else { assert v == "/"; }
    }
  }

  /** `match_any` on a level's options checks an operator of that level. */
  lemma CheckAnyLevel(toks: seq<Token>, n: nat, level: Level)
    ensures CheckAny(toks, n, Operators(level)) <==>
      n < |toks| && toks[n].tokenType == Operator && InLevel(toks[n].value, level)
  {
    CheckAnyOperator(toks, n, Operators(level));
    if n < |toks| {
      OperatorsOfLevel(toks[n].value, level);
    }
  }

  /** `match_any` on the unary options checks for `!` or `-`. */
  lemma CheckAnyUnary(toks: seq<Token>, n: nat)
    ensures CheckAny(toks, n, UnaryOperators) <==>
      n < |toks| && toks[n].tokenType == Operator && IsUnaryOperator(toks[n].value)
  {
    CheckAnyOperator(toks, n, UnaryOperators);
    if n < |toks| && IsUnaryOperator(toks[n].value) {
      var v := toks[n].value;
      if v[0] == '!' { assert v == "!"; } else { assert v == "-"; }
    }
  }

  /** Rank 4 is the text `=` alone. */
  lemma AssignRank(op: string)
    requires Rank(op) == 4
    ensures op == "="
  {
    assert op == [op[0]];
  }

  /** A binary level passes an operand up unchanged when the next token is
      not one of its operators. */
  lemma LevelPasses(level: Level, toks: seq<Token>, pos: nat, e: AstNode, n: nat)
    requires pos <= |toks|
    requires OperandAt(level, toks, pos) == Ok(Parsed(e, n))
    requires !(n < |toks| && toks[n].tokenType == Operator && InLevel(toks[n].value, level))
    ensures BinaryAt(level, toks, pos) == Ok(Parsed(e, n))
  {
    CheckAnyLevel(toks, n, level);
    assert RestAt(level, toks, e, n) == Ok(Parsed(e, n));
  }

  /** An operator belongs to exactly the level its rank names. */
  lemma LevelRank(op: string, level: Level)
    ensures InLevel(op, level) <==> Rank(op) < 4 && LevelAt(Rank(op)) == level
  {
  }

  /** The rung above rung `d` is the level whose operands rung `d` reads. */
  lemma RungLevel(d: nat, toks: seq<Token>, pos: nat)
    requires d < 4 && pos <= |toks|
    ensures Rung(d, toks, pos) == OperandAt(LevelAt(d), toks, pos)
    ensures Rung(d + 1, toks, pos) == BinaryAt(LevelAt(d), toks, pos)
  {
  }

  /** A node that the token at `n` does not continue passes up unchanged
      through every looser rung. */
  lemma {:induction false} Climb(k: nat, j: nat, toks: seq<Token>, pos: nat, e: AstNode, n: nat)
    requires k <= j <= 5 && pos <= |toks|
    requires Rung(k, toks, pos) == Ok(Parsed(e, n))
    requires QuietAt(toks, n, j - 1)
    decreases j - k
    ensures Rung(j, toks, pos) == Ok(Parsed(e, n))
  {
    if k < j {
      if k < 4 {
        RungLevel(k, toks, pos);
        LevelPasses(LevelAt(k), toks, pos, e, n);
      }
      Climb(k + 1, j, toks, pos, e, n);
    }
  }

  /** One pass of a level's loop: an operand, one operator of the level, an
      operand, then a token the level does not continue with. */
  lemma LevelStep(level: Level, toks: seq<Token>, pos: nat, left: AstNode, mid: nat, right: AstNode, end: nat)
    requires pos <= |toks|
    requires OperandAt(level, toks, pos) == Ok(Parsed(left, mid))
    requires mid < |toks| && toks[mid].tokenType == Operator && InLevel(toks[mid].value, level)
    requires OperandAt(level, toks, mid + 1) == Ok(Parsed(right, end))
    requires !(end < |toks| && toks[end].tokenType == Operator && InLevel(toks[end].value, level))
    ensures BinaryAt(level, toks, pos) == Ok(Parsed(BinaryOperation(left, toks[mid].value, right), end))
  {
    CheckAnyLevel(toks, mid, level);
    CheckAnyLevel(toks, end, level);
    assert RestAt(level, toks, BinaryOperation(left, toks[mid].value, right), end)
      == Ok(Parsed(BinaryOperation(left, toks[mid].value, right), end));
  }

  /** `LevelStep` in terms of rungs: rung `d + 1` joins two operands read
      by rung `d` around an operator of rank `d`. */
  lemma RungStep(d: nat, toks: seq<Token>, pos: nat, left: AstNode, mid: nat, right: AstNode, end: nat)
    requires d < 4 && pos <= |toks|
    requires Rung(d, toks, pos) == Ok(Parsed(left, mid))
    requires mid < |toks| && toks[mid].tokenType == Operator && Rank(toks[mid].value) == d
    requires Rung(d, toks, mid + 1) == Ok(Parsed(right, end))
    requires QuietAt(toks, end, d)
    ensures Rung(d + 1, toks, pos) == Ok(Parsed(BinaryOperation(left, toks[mid].value, right), end))
  {
    var level := LevelAt(d);
    RungLevel(d, toks, pos);
    RungLevel(d, toks, mid + 1);
    LevelRank(toks[mid].value, level);
    if end < |toks| {
      LevelRank(toks[end].value, level);
    }
    LevelStep(level, toks, pos, left, mid, right, end);
  }

  /** A printed expression is read by every rung whose operators do not
      continue it. */
  lemma {:induction false} RungReads(k: nat, toks: seq<Token>, pos: nat, e: AstNode)
    requires k <= 5 && pos <= |toks| && IsExpr(e) == true && PrintedAt(toks, pos, e) == true
    requires QuietAt(toks, pos + Width(e), k - 1)
    decreases e, 4
    ensures Rung(k, toks, pos) == Ok(Parsed(e, pos + Width(e)))
  {
    UnaryReads(toks, pos, e);
    Climb(0, k, toks, pos, e, pos + Width(e));
  }

  lemma {:induction false} UnaryReads(toks: seq<Token>, pos: nat, e: AstNode)
    requires pos <= |toks| && IsExpr(e) == true && PrintedAt(toks, pos, e) == true
    decreases e, 3
    ensures UnaryAt(toks, pos) == Ok(Parsed(e, pos + Width(e)))
  {
    CheckAnyUnary(toks, pos);
    if e.UnaryOperation? {
      UnaryReads(toks, pos + 1, e.operand);
    } else if e.BinaryOperation? {
      BinaryExpr(e.left, e.operator, e.right);
      BinaryPrinted(toks, pos, e.left, e.operator, e.right);
      BinaryClosed(toks, pos, e.left, e.operator, e.right);
      BracketReads(toks, pos, e.left, e.operator, e.right);
    }
  }

  /** What `IsExpr` says about a binary operation. */
  lemma BinaryExpr(left: AstNode, op: string, right: AstNode)
    requires IsExpr(BinaryOperation(left, op, right)) == true
    ensures IsExpr(left) == true && IsExpr(right) == true
    ensures Rank(op) < 4 || (Rank(op) == 4 && left.Identifier?)
  {
  }

  /** What `PrintedAt` says about a binary operation up to its right operand. */
  lemma BinaryPrinted(toks: seq<Token>, pos: nat, left: AstNode, op: string, right: AstNode)
    requires PrintedAt(toks, pos, BinaryOperation(left, op, right))
    ensures Check(toks, pos, Separator, "(") && PrintedAt(toks, pos + 1, left)
    ensures Check(toks, pos + 1 + Width(left), Operator, "") && toks[pos + 1 + Width(left)].value == op
    ensures PrintedAt(toks, pos + 1 + Width(left) + 1, right)
  {
  }

  /** A printed binary operation ends with its closing parenthesis. */
  lemma BinaryClosed(toks: seq<Token>, pos: nat, left: AstNode, op: string, right: AstNode)
    requires PrintedAt(toks, pos, BinaryOperation(left, op, right))
    ensures Check(toks, pos + 1 + Width(left) + 1 + Width(right), Separator, ")")
  {
  }

  /** `(left op right)`: `parse_primary` reads the parenthesised expression. */
  lemma {:induction false} BracketReads(toks: seq<Token>, pos: nat, left: AstNode, op: string, right: AstNode)
    requires IsExpr(left) == true && IsExpr(right) == true
    requires Rank(op) < 4 || (Rank(op) == 4 && left.Identifier?)
    requires Check(toks, pos, Separator, "(") && PrintedAt(toks, pos + 1, left) == true
    requires Check(toks, pos + 1 + Width(left), Operator, "") && toks[pos + 1 + Width(left)].value == op
    requires PrintedAt(toks, pos + 1 + Width(left) + 1, right) == true
    requires Check(toks, pos + 1 + Width(left) + 1 + Width(right), Separator, ")")
    decreases BinaryOperation(left, op, right), 2
    ensures PrimaryAt(toks, pos) == Ok(Parsed(BinaryOperation(left, op, right), pos + 1 + Width(left) + 1 + Width(right) + 1))
  {
    var end := pos + 1 + Width(left) + 1 + Width(right);
    if Rank(op) == 4 {
      AssignRank(op);
      AssignmentReads(toks, pos + 1, left, right);
      ParenReads(toks, pos, BinaryOperation(left, "=", right), end);
    } else {
      LevelReads(toks, pos + 1, left, op, right);
      ParenReads(toks, pos, BinaryOperation(left, op, right), end);
    }
  }

  /** `parse_primary` at `(`: the expression inside, then the `)`. */
  lemma ParenReads(toks: seq<Token>, pos: nat, e: AstNode, end: nat)
    requires Check(toks, pos, Separator, "(")
    requires AssignmentAt(toks, pos + 1) == Ok(Parsed(e, end))
    requires Check(toks, end, Separator, ")")
    ensures PrimaryAt(toks, pos) == Ok(Parsed(e, end + 1))
  {
    assert ExpressionAt(toks, pos + 1) == AssignmentAt(toks, pos + 1);
  }

  /** `left = right` followed by `)`: the target passes up to
      `parse_assignment`, which reads the value recursively. */
  lemma {:induction false} AssignmentReads(toks: seq<Token>, pos: nat, left: AstNode, right: AstNode)
    requires IsExpr(left) == true && IsExpr(right) == true && left.Identifier? && pos <= |toks|
    requires PrintedAt(toks, pos, left) == true
    requires Check(toks, pos + Width(left), Operator, "") && toks[pos + Width(left)].value == "="
    requires PrintedAt(toks, pos + Width(left) + 1, right) == true
    requires QuietAt(toks, pos + Width(left) + 1 + Width(right), 4)
    decreases BinaryOperation(left, "=", right), 1
    ensures AssignmentAt(toks, pos) == Ok(Parsed(BinaryOperation(left, "=", right), pos + Width(left) + 1 + Width(right)))
  {
    var mid := pos + Width(left);
    RungReads(4, toks, pos, left);
    RungReads(5, toks, mid + 1, right);
  }

  /** `left op right` for an operator of a binary level, followed by `)`:
      the level's loop builds the node, and it passes up unchanged. */
  lemma {:induction false} LevelReads(toks: seq<Token>, pos: nat, left: AstNode, op: string, right: AstNode)
    requires IsExpr(left) == true && IsExpr(right) == true && pos <= |toks| && Rank(op) < 4
    requires PrintedAt(toks, pos, left) == true
    requires Check(toks, pos + Width(left), Operator, "") && toks[pos + Width(left)].value == op
    requires PrintedAt(toks, pos + Width(left) + 1, right) == true
    requires QuietAt(toks, pos + Width(left) + 1 + Width(right), 4)
    decreases BinaryOperation(left, op, right), 1
    ensures AssignmentAt(toks, pos) == Ok(Parsed(BinaryOperation(left, op, right), pos + Width(left) + 1 + Width(right)))
  {
    var end := pos + Width(left) + 1 + Width(right);
    LevelBuilds(toks, pos, left, op, right);
    Climb(Rank(op) + 1, 5, toks, pos, BinaryOperation(left, op, right), end);
  }

  /** The level of `op` reads `left op right`. */
  lemma {:induction false} LevelBuilds(toks: seq<Token>, pos: nat, left: AstNode, op: string, right: AstNode)
    requires IsExpr(left) == true && IsExpr(right) == true && pos <= |toks| && Rank(op) < 4
    requires PrintedAt(toks, pos, left) == true
    requires Check(toks, pos + Width(left), Operator, "") && toks[pos + Width(left)].value == op
    requires PrintedAt(toks, pos + Width(left) + 1, right) == true
    requires QuietAt(toks, pos + Width(left) + 1 + Width(right), 4)
    decreases BinaryOperation(left, op, right), 0
    ensures Rung(Rank(op) + 1, toks, pos) == Ok(Parsed(BinaryOperation(left, op, right), pos + Width(left) + 1 + Width(right)))
  {
    var mid := pos + Width(left);
    var end := mid + 1 + Width(right);
    var d := Rank(op);
    RungReads(d, toks, pos, left);
    RungReads(d, toks, mid + 1, right);
    RungStep(d, toks, pos, left, mid, right, end);
  }

  /** Round trip: wherever the printed tokens of `e` occur, followed by
      anything but an operator, `parse_expression` reads `e` back there and
      leaves the cursor right after them. */
  lemma RoundTrip(toks: seq<Token>, pos: nat, e: AstNode)
    requires IsExpr(e) && Occurs(toks, pos, Print(e)) && QuietAt(toks, pos + |Print(e)|, 4)
    ensures ExpressionAt(toks, pos) == Ok(Parsed(e, pos + |Print(e)|))
  {
    PrintWidth(e);
    PrintedWhereOccurs(toks, pos, e);
    RungReads(5, toks, pos, e);
  }
}
