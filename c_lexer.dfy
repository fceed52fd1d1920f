/** The one-token-at-a-time scanner of src/Lexer.c. The input is a C
    string: its characters, then a NUL that `lexer_next_char` may read as
    the character at index `|input|`. Reading further is undefined
    behaviour, so every operation requires `pos <= |input|`. */
module CLexer {

  /** `TokenType` (lines 6-13). */
  datatype CTokenType = TokenIdentifier | TokenNumber | TokenOperator | TokenKeyword | TokenEof

  /** `Token` (lines 16-19); the value is the string before the NUL. */
  datatype CToken = CToken(kind: CTokenType, value: string)

  /** Input the `<ctype.h>` classifiers may be given: ASCII without NUL. */
  predicate IsText(input: string) {
    forall i :: 0 <= i < |input| ==> 0 < input[i] as int < 128
  }

  /** `isspace` in the C locale: space, `\t`, `\n`, `\v`, `\f`, `\r`. */
  predicate IsSpace(c: char) {
    c == ' ' || 9 <= c as int <= 13
  }

  predicate IsDigit(c: char) {
    '0' <= c <= '9'
  }

  predicate IsAlpha(c: char) {
    'a' <= c <= 'z' || 'A' <= c <= 'Z'
  }

  /** What continues an identifier (line 56): `isalnum` or `_`. */
  predicate IsWordChar(c: char) {
    IsAlpha(c) || IsDigit(c) || c == '_'
  }

  /** The characters `strchr` finds in the operator string of line 84:
      `+`, `-`, `*`, `/`, `=` and, as section 7.24.5.2 of ISO C11 has it,
      the terminating NUL. */
  predicate IsOperatorChar(c: char) {
    c == '+' || c == '-' || c == '*' || c == '/' || c == '=' || c == '\0'
  }

  /** The character at index `i`, the NUL at the end included. */
  function At(input: string, i: nat): char
    requires i <= |input|
  {
    if i < |input| then input[i] else '\0'
  }

  /** The index of the first character at or after `p` that is not a
      space (the NUL at the end is not one). */
  function SkipSpaces(input: string, p: nat): (q: nat)
    requires p <= |input|
    decreases |input| - p
    ensures p <= q <= |input| && !IsSpace(At(input, q))
    ensures forall k :: p <= k < q ==> IsSpace(input[k])
  {
    if p < |input| && IsSpace(input[p]) then SkipSpaces(input, p + 1) else p
  }

  /** The end of the run of identifier characters from `p`. */
  function WordEnd(input: string, p: nat): (q: nat)
    requires p <= |input|
    decreases |input| - p
    ensures p <= q <= |input| && !IsWordChar(At(input, q))
    ensures forall k :: p <= k < q ==> IsWordChar(input[k])
  {
    if p < |input| && IsWordChar(input[p]) then WordEnd(input, p + 1) else p
  }

  /** The end of the run of digits from `p`. */
  function DigitEnd(input: string, p: nat): (q: nat)
    requires p <= |input|
    decreases |input| - p
    ensures p <= q <= |input| && !IsDigit(At(input, q))
    ensures forall k :: p <= k < q ==> IsDigit(input[k])
  {
    if p < |input| && IsDigit(input[p]) then DigitEnd(input, p + 1) else p
  }

  /** A token, the index of its first character and the new `pos`. */
  datatype Scanned = Scanned(token: CToken, start: nat, next: nat)

  /** What `lexer_next_token` (lines 44-95) returns from `pos == p`. */
  function Scan(input: string, p: nat): (s: Scanned)
    requires p <= |input|
    ensures p <= s.start < s.next <= |input| + 1
  {
    var start := SkipSpaces(input, p);
    var c := At(input, start);
    if IsAlpha(c) || c == '_' then
      var end := WordEnd(input, start + 1);
      var value := input[start..end];
      var kind := if value == "function" || value == "var" then TokenKeyword else TokenIdentifier;
      Scanned(CToken(kind, value), start, end)
    else if IsDigit(c) then
      var end := DigitEnd(input, start + 1);
      Scanned(CToken(TokenNumber, input[start..end]), start, end)
    else if IsOperatorChar(c) then
      Scanned(CToken(TokenOperator, if c == '\0' then "" else [c]), start, start + 1)
    else
      Scanned(CToken(TokenEof, ""), start, start + 1)
  }

  /** `Lexer` (lines 22-25). */
  class Lexer {
    const input: string
    var pos: nat

    /** `lexer_init` (lines 28-31). */
    constructor (text: string)
      ensures input == text && pos == 0
    {
      input := text;
      pos := 0;
    }

    /** `lexer_peek_char` (lines 39-41): the character at the cursor, or
        the terminating NUL; on C text the NUL marks exactly the end. */
    function PeekChar(): (c: char)
      reads this
      requires pos <= |input|
      ensures pos < |input| ==> c == input[pos]
      ensures IsText(input) ==> (c == '\0' <==> pos == |input|)
    {
      At(input, pos)
    }

    /** `lexer_next_char` (lines 34-36). */
    method NextChar() returns (c: char)
      requires pos <= |input|
      modifies this`pos
      ensures c == At(input, old(pos)) && pos == old(pos) + 1
    {
      c := At(input, pos);
      pos := pos + 1;
    }

    /** `lexer_next_token` (lines 44-95). The value buffer holds 255
        characters and a NUL, so the token read must fit. */
    method NextToken() returns (token: CToken)
      requires IsText(input) && pos <= |input|
      requires |Scan(input, pos).token.value| < 256
      modifies this`pos
      ensures token == Scan(input, old(pos)).token && pos == Scan(input, old(pos)).next
    {
      var c := SkipBlanks();
      var start := pos - 1;
      if IsAlpha(c) || c == '_' {
        ReadWord();
        var value := input[start..pos];
        var kind := TokenIdentifier;
        if value == "function" || value == "var" {
          kind := TokenKeyword;
        }
        return CToken(kind, value);
      }
      if IsDigit(c) {
        ReadDigits();
        return CToken(TokenNumber, input[start..pos]);
      }
      if IsOperatorChar(c) {
        return CToken(TokenOperator, if c == '\0' then "" else [c]);
      }
      return CToken(TokenEof, "");
    }

    /** The first character and the whitespace loop of
        `lexer_next_token` (lines 46-51): `c` is the first character that
        is not a space, and `pos` is just past it. */
    method SkipBlanks() returns (c: char)
      requires pos <= |input|
      modifies this`pos
      ensures pos == SkipSpaces(input, old(pos)) + 1 && c == At(input, pos - 1)
    {
      ghost var p := pos;
      c := NextChar();
      while IsSpace(c)
        invariant 1 <= pos <= |input| + 1 && c == At(input, pos - 1)
        invariant SkipSpaces(input, pos - 1) == SkipSpaces(input, p)
        decreases |input| + 1 - pos
      {
        c := NextChar();
      }
    }

    /** The loop of lines 56-58: on to the end of the identifier. */
    method ReadWord()
      requires 0 < pos <= |input|
      modifies this`pos
      ensures pos == WordEnd(input, old(pos))
    {
      while IsWordChar(PeekChar())
        invariant old(pos) <= pos <= |input|
        invariant WordEnd(input, pos) == WordEnd(input, old(pos))
        decreases |input| - pos
      {
        var _ := NextChar();
      }
    }

    /** The loop of lines 73-75: on to the end of the number. */
    method ReadDigits()
      requires 0 < pos <= |input|
      modifies this`pos
      ensures pos == DigitEnd(input, old(pos))
    {
      while IsDigit(PeekChar())
        invariant old(pos) <= pos <= |input|
        invariant DigitEnd(input, pos) == DigitEnd(input, old(pos))
        decreases |input| - pos
      {
        var _ := NextChar();
      }
    }
  }

  // ---------------------------------------------------------------------
  // Properties of a scan
  // ---------------------------------------------------------------------

  /** A word token is the maximal run of identifier characters from a
      letter or `_`, and a keyword exactly when it reads `function` or
      `var`. */
  lemma WordToken(input: string, p: nat)
    requires p <= |input|
    requires var c := At(input, SkipSpaces(input, p)); IsAlpha(c) || c == '_'
    ensures var s := Scan(input, p);
      && s.token.value == input[s.start..s.next]
      && (s.next == |input| || !IsWordChar(input[s.next]))
      && (forall k :: s.start <= k < s.next ==> IsWordChar(input[k]))
      && (s.token.kind == TokenKeyword <==> s.token.value in {"function", "var"})
      && (s.token.kind == TokenIdentifier <==> s.token.value !in {"function", "var"})
  {
    var s := Scan(input, p);
    var start := SkipSpaces(input, p);
    assert IsWordChar(input[start]);
  }

  /** A number token is the maximal run of digits from a digit. */
  lemma NumberToken(input: string, p: nat)
    requires p <= |input|
    requires IsDigit(At(input, SkipSpaces(input, p)))
    ensures var s := Scan(input, p);
      && s.token.kind == TokenNumber
      && s.token.value == input[s.start..s.next]
      && (s.next == |input| || !IsDigit(input[s.next]))
      && (forall k :: s.start <= k < s.next ==> IsDigit(input[k]))
  {
  }

  /** Only blanks left: `strchr` finds the NUL, so the token is an
      operator with an empty value rather than `TOKEN_EOF`, and `pos`
      steps past the NUL. */
  lemma EndIsOperator(input: string, p: nat)
    requires p <= |input|
    requires forall k :: p <= k < |input| ==> IsSpace(input[k])
    ensures Scan(input, p) == Scanned(CToken(TokenOperator, ""), |input|, |input| + 1)
  {
  }

  /** A character that starts no token (a bracket, `;`, ...) is consumed
      and reported as `TOKEN_EOF` with an empty value. */
  lemma UnknownIsEof(input: string, p: nat)
    requires p <= |input|
    requires var c := At(input, SkipSpaces(input, p)); !IsWordChar(c) && !IsOperatorChar(c)
    ensures Scan(input, p).token == CToken(TokenEof, "")
    ensures Scan(input, p).next == SkipSpaces(input, p) + 1
  {
  }

  /** A scan never yields a token with an empty value except the
      end-of-input operator and `TOKEN_EOF`, and never a `TOKEN_EOF` at
      the end of the input. */
  lemma {:induction false} EofNeverAtEnd(input: string, p: nat)
    requires IsText(input) && p <= |input|
    ensures Scan(input, p).token.kind == TokenEof ==> Scan(input, p).start < |input|
    ensures |Scan(input, p).token.value| == 0 <==>
      (Scan(input, p).token.kind == TokenEof || Scan(input, p).start == |input|)
  {
    var s := Scan(input, p);
    if s.start < |input| && IsWordChar(input[s.start]) {
      assert |s.token.value| == s.next - s.start;
    }
  }

  /** The program of `main` (lines 98-110). */
  const Sample := "function test(var x) { return x + 1; }"

  /** `main` stops after three tokens: `function`, `test` and the `(`
      after it, which is reported as `TOKEN_EOF`. */
  lemma SampleFirst()
    ensures Scan(Sample, 0) == Scanned(CToken(TokenKeyword, "function"), 0, 8)
  {
    var code := Sample;
    assert WordEnd(code, 8) == 8;
    assert WordEnd(code, 7) == 8;
    assert WordEnd(code, 6) == 8;
    assert WordEnd(code, 5) == 8;
    assert WordEnd(code, 4) == 8;
    assert WordEnd(code, 3) == 8;
    assert WordEnd(code, 2) == 8;
    assert WordEnd(code, 1) == 8;
    assert code[0..8] == "function";
  }

  lemma SampleSecond()
    ensures Scan(Sample, 8) == Scanned(CToken(TokenIdentifier, "test"), 9, 13)
  {
    var code := Sample;
    assert SkipSpaces(code, 9) == 9;
    assert SkipSpaces(code, 8) == 9;
    assert WordEnd(code, 13) == 13;
    assert WordEnd(code, 12) == 13;
    assert WordEnd(code, 11) == 13;
    assert WordEnd(code, 10) == 13;
    assert code[9..13] == "test";
  }

  lemma SampleThird()
    ensures Scan(Sample, 13) == Scanned(CToken(TokenEof, ""), 13, 14)
  {
    assert SkipSpaces(Sample, 13) == 13;
  }
}
