/** Precedence and associativity of the expression parser of
    src/ParsesIndex.rs (lines 193-305) on unparenthesised input: `*` and
    `/` bind tighter than `+` and `-`, which bind tighter than the
    comparisons and then `==` and `!=`; each of these levels nests a chain
    of its operators to the left; `=` nests to the right and takes only a
    bare identifier as its target. */
module DppPrecedence {
  import opened Outcomes
  import opened DppTokens
  import opened DppAst
  import opened DppGrammar
  import opened DppPrinter
  import opened DppRoundTrip

  /** The token at `n` is an operator of rank `d`. */
  predicate OperatorOfRank(toks: seq<Token>, n: nat, d: nat) {
    n < |toks| && toks[n].tokenType == Operator && Rank(toks[n].value) == d
  }

  /** Two operators of the same level: the loop of that level makes the
      first operation the left operand of the second, `a - b - c` reading
      as `(a - b) - c`. */
  lemma {:induction false} LeftNesting(level: Level, toks: seq<Token>, pos: nat, a: AstNode, m1: nat, b: AstNode, m2: nat, c: AstNode, end: nat)
    requires pos <= |toks|
    requires OperandAt(level, toks, pos) == Ok(Parsed(a, m1))
    requires m1 < |toks| && toks[m1].tokenType == Operator && InLevel(toks[m1].value, level)
    requires OperandAt(level, toks, m1 + 1) == Ok(Parsed(b, m2))
    requires m2 < |toks| && toks[m2].tokenType == Operator && InLevel(toks[m2].value, level)
    requires OperandAt(level, toks, m2 + 1) == Ok(Parsed(c, end))
    requires !(end < |toks| && toks[end].tokenType == Operator && InLevel(toks[end].value, level))
    ensures BinaryAt(level, toks, pos)
      == Ok(Parsed(BinaryOperation(BinaryOperation(a, toks[m1].value, b), toks[m2].value, c), end))
  {
    CheckAnyLevel(toks, m1, level);
    CheckAnyLevel(toks, m2, level);
    CheckAnyLevel(toks, end, level);
    var ab := BinaryOperation(a, toks[m1].value, b);
    var abc := BinaryOperation(ab, toks[m2].value, c);
    assert RestAt(level, toks, abc, end) == Ok(Parsed(abc, end));
    assert RestAt(level, toks, ab, m2) == Ok(Parsed(abc, end));
  }

  /** An operand `parse_unary` reads passes up unchanged to rung `d` when
      the next token is an operator of rank `d` or looser. */
  lemma {:induction false} OperandClimbs(d: nat, toks: seq<Token>, pos: nat, a: AstNode, n: nat, r: nat)
    requires d <= r < 4 && pos <= |toks|
    requires UnaryAt(toks, pos) == Ok(Parsed(a, n))
    requires OperatorOfRank(toks, n, r)
    ensures Rung(d, toks, pos) == Ok(Parsed(a, n))
  {
    Climb(0, d, toks, pos, a, n);
  }

  /** `a op1 b op2 c` with `op2` binding tighter than `op1`: the level of
      `op1` reads `a op1 (b op2 c)`, as `a + b * c` reads `a + (b * c)`. */
  lemma {:induction false} TighterSecond(toks: seq<Token>, pos: nat, a: AstNode, m1: nat, b: AstNode, m2: nat, c: AstNode, end: nat, h: nat, l: nat)
    requires l < h < 4 && pos <= |toks|
    requires UnaryAt(toks, pos) == Ok(Parsed(a, m1)) && OperatorOfRank(toks, m1, h)
    requires UnaryAt(toks, m1 + 1) == Ok(Parsed(b, m2)) && OperatorOfRank(toks, m2, l)
    requires UnaryAt(toks, m2 + 1) == Ok(Parsed(c, end))
    requires QuietAt(toks, end, h)
    ensures Rung(h + 1, toks, pos)
      == Ok(Parsed(BinaryOperation(a, toks[m1].value, BinaryOperation(b, toks[m2].value, c)), end))
  {
    var bc := BinaryOperation(b, toks[m2].value, c);
    OperandClimbs(h, toks, pos, a, m1, h);
    OperandClimbs(l, toks, m1 + 1, b, m2, l);
    Climb(0, l, toks, m2 + 1, c, end);
    RungStep(l, toks, m1 + 1, b, m2, c, end);
    Climb(l + 1, h, toks, m1 + 1, bc, end);
    RungStep(h, toks, pos, a, m1, bc, end);
  }

  /** `a op1 b op2 c` with `op1` binding tighter than `op2`: the level of
      `op2` reads `(a op1 b) op2 c`, as `a * b + c` reads `(a * b) + c`. */
  lemma {:induction false} TighterFirst(toks: seq<Token>, pos: nat, a: AstNode, m1: nat, b: AstNode, m2: nat, c: AstNode, end: nat, l: nat, h: nat)
    requires l < h < 4 && pos <= |toks|
    requires UnaryAt(toks, pos) == Ok(Parsed(a, m1)) && OperatorOfRank(toks, m1, l)
    requires UnaryAt(toks, m1 + 1) == Ok(Parsed(b, m2)) && OperatorOfRank(toks, m2, h)
    requires UnaryAt(toks, m2 + 1) == Ok(Parsed(c, end))
    requires QuietAt(toks, end, h)
    ensures Rung(h + 1, toks, pos)
      == Ok(Parsed(BinaryOperation(BinaryOperation(a, toks[m1].value, b), toks[m2].value, c), end))
  {
    var ab := BinaryOperation(a, toks[m1].value, b);
    OperandClimbs(l, toks, pos, a, m1, l);
    OperandClimbs(l, toks, m1 + 1, b, m2, h);
    RungStep(l, toks, pos, a, m1, b, m2);
    Climb(l + 1, h, toks, pos, ab, m2);
    Climb(0, h, toks, m2 + 1, c, end);
    RungStep(h, toks, pos, ab, m2, c, end);
  }

  /** `a op1 b op2 c` with both operators of rank `d`: the level of rank
      `d` nests to the left. */
  lemma {:induction false} SameRank(toks: seq<Token>, pos: nat, a: AstNode, m1: nat, b: AstNode, m2: nat, c: AstNode, end: nat, d: nat)
    requires d < 4 && pos <= |toks|
    requires UnaryAt(toks, pos) == Ok(Parsed(a, m1)) && OperatorOfRank(toks, m1, d)
    requires UnaryAt(toks, m1 + 1) == Ok(Parsed(b, m2)) && OperatorOfRank(toks, m2, d)
    requires UnaryAt(toks, m2 + 1) == Ok(Parsed(c, end))
    requires QuietAt(toks, end, d)
    ensures Rung(d + 1, toks, pos)
      == Ok(Parsed(BinaryOperation(BinaryOperation(a, toks[m1].value, b), toks[m2].value, c), end))
  {
    var level := LevelAt(d);
    OperandClimbs(d, toks, pos, a, m1, d);
    OperandClimbs(d, toks, m1 + 1, b, m2, d);
    Climb(0, d, toks, m2 + 1, c, end);
    RungLevel(d, toks, pos);
    RungLevel(d, toks, m1 + 1);
    RungLevel(d, toks, m2 + 1);
    LevelRank(toks[m1].value, level);
    LevelRank(toks[m2].value, level);
    if end < |toks| {
      LevelRank(toks[end].value, level);
    }
    LeftNesting(level, toks, pos, a, m1, b, m2, c, end);
  }

  /** Precedence and associativity of two binary operators, read by
      `parse_expression`: `a op1 b op2 c` nests to the left exactly when
      `op1` binds at least as tightly as `op2`. */
  lemma {:induction false} ThreeOperands(toks: seq<Token>, pos: nat, a: AstNode, m1: nat, b: AstNode, m2: nat, c: AstNode, end: nat)
    requires pos <= |toks|
    requires UnaryAt(toks, pos) == Ok(Parsed(a, m1))
    requires m1 < |toks| && toks[m1].tokenType == Operator && Rank(toks[m1].value) < 4
    requires UnaryAt(toks, m1 + 1) == Ok(Parsed(b, m2))
    requires m2 < |toks| && toks[m2].tokenType == Operator && Rank(toks[m2].value) < 4
    requires UnaryAt(toks, m2 + 1) == Ok(Parsed(c, end))
    requires QuietAt(toks, end, 4)
    ensures var op1, op2 := toks[m1].value, toks[m2].value;
      ExpressionAt(toks, pos) == Ok(Parsed(
        if Rank(op1) <= Rank(op2) then BinaryOperation(BinaryOperation(a, op1, b), op2, c)
        else BinaryOperation(a, op1, BinaryOperation(b, op2, c)), end))
  {
    var op1, op2 := toks[m1].value, toks[m2].value;
    var r1, r2 := Rank(op1), Rank(op2);
    var e := if r1 <= r2 then BinaryOperation(BinaryOperation(a, op1, b), op2, c)
      else BinaryOperation(a, op1, BinaryOperation(b, op2, c));
    var top := if r1 <= r2 then r2 else r1;
    if r1 < r2 {
      TighterFirst(toks, pos, a, m1, b, m2, c, end, r1, r2);
    } else if r1 == r2 {
      SameRank(toks, pos, a, m1, b, m2, c, end, r1);
    } else {
      TighterSecond(toks, pos, a, m1, b, m2, c, end, r1, r2);
    }
    Climb(top + 1, 5, toks, pos, e, end);
  }

  /** `parse_assignment` with a target that is not a bare identifier: once
      the value after `=` has been read, the result is "Invalid assignment
      target"; an error in the value is reported first. */
  lemma {:induction false} InvalidTarget(toks: seq<Token>, pos: nat, target: AstNode, m: nat)
    requires pos <= |toks|
    requires BinaryAt(Equality, toks, pos) == Ok(Parsed(target, m))
    requires Check(toks, m, Operator, "=") && !target.Identifier?
    ensures AssignmentAt(toks, m + 1).Ok? ==> AssignmentAt(toks, pos) == Err("Invalid assignment target")
    ensures AssignmentAt(toks, m + 1).Err? ==> AssignmentAt(toks, pos) == Err(AssignmentAt(toks, m + 1).msg)
  {
  }

  /** `x = y = v`: the value of the first assignment is the second
      assignment, so `=` nests to the right. */
  lemma {:induction false} AssignmentNestsRight(toks: seq<Token>, pos: nat, x: AstNode, m1: nat, y: AstNode, m2: nat, v: AstNode, end: nat)
    requires pos <= |toks|
    requires BinaryAt(Equality, toks, pos) == Ok(Parsed(x, m1)) && x.Identifier?
    requires Check(toks, m1, Operator, "=")
    requires BinaryAt(Equality, toks, m1 + 1) == Ok(Parsed(y, m2)) && y.Identifier?
    requires Check(toks, m2, Operator, "=")
    requires AssignmentAt(toks, m2 + 1) == Ok(Parsed(v, end))
    ensures AssignmentAt(toks, pos) == Ok(Parsed(BinaryOperation(x, "=", BinaryOperation(y, "=", v)), end))
  {
    assert AssignmentAt(toks, m1 + 1) == Ok(Parsed(BinaryOperation(y, "=", v), end));
  }

  /** A bare identifier followed by `=` is the target `parse_equality`
      hands to `parse_assignment`. */
  lemma {:induction false} IdentifierTarget(toks: seq<Token>, pos: nat)
    requires Check(toks, pos, TokenType.Identifier, "") && Check(toks, pos + 1, Operator, "=")
    ensures BinaryAt(Equality, toks, pos) == Ok(Parsed(AstNode.Identifier(toks[pos].value), pos + 1))
  {
    CheckAnyUnary(toks, pos);
    assert UnaryAt(toks, pos) == Ok(Parsed(AstNode.Identifier(toks[pos].value), pos + 1));
    assert Rank(toks[pos + 1].value) == 4;
    Climb(0, 4, toks, pos, AstNode.Identifier(toks[pos].value), pos + 1);
    RungLevel(3, toks, pos);
  }

  /** The bare chain `x = y = v`, with `x` and `y` identifier tokens, reads
      as `x = (y = v)`. */
  lemma {:induction false} IdentifiersNestRight(toks: seq<Token>, pos: nat, v: AstNode, end: nat)
    requires Check(toks, pos, TokenType.Identifier, "") && Check(toks, pos + 1, Operator, "=")
    requires Check(toks, pos + 2, TokenType.Identifier, "") && Check(toks, pos + 3, Operator, "=")
    requires AssignmentAt(toks, pos + 4) == Ok(Parsed(v, end))
    ensures AssignmentAt(toks, pos) == Ok(Parsed(BinaryOperation(AstNode.Identifier(toks[pos].value), "=",
      BinaryOperation(AstNode.Identifier(toks[pos + 2].value), "=", v)), end))
  {
    IdentifierTarget(toks, pos);
    IdentifierTarget(toks, pos + 2);
    AssignmentNestsRight(toks, pos, AstNode.Identifier(toks[pos].value), pos + 1,
      AstNode.Identifier(toks[pos + 2].value), pos + 3, v, end);
  }
}
