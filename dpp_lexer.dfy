/** The character-level scanner of src/ParsesIndex.rs (struct `Lexer`,
    lines 383-556), as a class whose fields are the Rust struct's.

    What a token stream means is stated once, by `Lexed(input, toks, upto)`:
    every token is a well-shaped, maximal slice of the input carrying the line
    it ends on, tokens appear in input order, and everything between them is
    blank. `Tokenize` ends with `Lexed` over the whole input plus the EOF token. */
module DppLexer {
  import opened Outcomes
  import opened DppTokens

  /** Index just past the token's last character. */
  function End(t: Token): nat { t.column + |t.value| }

  /** Number of line feeds in `input[..i]`. */
  function LinesBefore(input: string, i: nat): nat
    requires i <= |input|
  {
    if i == 0 then 0 else LinesBefore(input, i - 1) + (if input[i - 1] == '\n' then 1 else 0)
  }

  /** `input[lo..hi]` is a word: a letter or `_`, then word characters. */
  ghost predicate WordRun(input: string, lo: nat, hi: nat) {
    && lo < hi <= |input| && IsWordStart(input[lo])
    && forall j :: lo < j < hi ==> IsWordChar(input[j])
  }

  /** `input[lo..hi]` is a number: digits, or digits, `.` and digits. */
  ghost predicate NumberRun(input: string, lo: nat, hi: nat) {
    && lo < hi <= |input|
    && ((forall j :: lo <= j < hi ==> IsDigit(input[j]))
        || exists d :: lo < d < hi - 1 && input[d] == '.' && forall j :: lo <= j < hi && j != d ==> IsDigit(input[j]))
  }

  /** `input[lo..hi]` is a string literal: a quote, no quote, a quote. */
  ghost predicate StringRun(input: string, lo: nat, hi: nat) {
    && lo + 2 <= hi <= |input| && input[lo] == '"' && input[hi - 1] == '"'
    && forall j :: lo < j < hi - 1 ==> input[j] != '"'
  }

  /** The operator characters `match_char('=')` may extend. */
  predicate IsComparisonStart(c: char) { c == '=' || c == '!' || c == '<' || c == '>' }

  /** The only kinds of slice `scan_token` emits, by token type: one
      separator; one operator character or one of `==`, `!=`, `<=`, `>=`; a
      word, which is a Keyword exactly when it is reserved; a string or a
      number literal. */
  ghost predicate Shaped(input: string, t: Token)
    requires End(t) <= |input|
  {
    var lo, hi := t.column, End(t);
    match t.tokenType
    case Separator => hi == lo + 1 && IsSeparatorChar(input[lo])
    case Operator =>
      || (hi == lo + 1 && IsOperatorChar(input[lo]))
      || (hi == lo + 2 && IsComparisonStart(input[lo]) && input[lo + 1] == '=')
    case Keyword => WordRun(input, lo, hi) && t.value in Keywords
    case Identifier => WordRun(input, lo, hi) && t.value !in Keywords
    case Literal => StringRun(input, lo, hi) || NumberRun(input, lo, hi)
    case _ => false
  }

  /** The scanner takes as much as it can: a word or a digit run is not
      followed by a character that would extend it, and `=`, `!`, `<`, `>`
      alone are not followed by `=`. */
  ghost predicate Maximal(input: string, t: Token)
    requires End(t) <= |input|
  {
    var lo, e := t.column, End(t);
    && ((t.tokenType == Identifier || t.tokenType == Keyword) ==> e == |input| || !IsWordChar(input[e]))
    && ((t.tokenType == Literal && lo < e && IsDigit(input[lo])) ==> e == |input| || !IsDigit(input[e]))
    && ((t.tokenType == Operator && e == lo + 1 && IsComparisonStart(input[lo])) ==> e == |input| || input[e] != '=')
  }

  /** Token `t` is exactly the slice of `input` it claims to be. */
  ghost predicate TokenAt(input: string, t: Token) {
    && End(t) <= |input|
    && t.value == input[t.column..End(t)]
    && Shaped(input, t)
    && Maximal(input, t)
    && t.line == 1 + LinesBefore(input, End(t))
  }

  ghost predicate BlankBetween(input: string, lo: nat, hi: nat) {
    hi <= |input| && forall i :: lo <= i < hi ==> IsBlank(input[i])
  }

  /** `toks` is the token stream of `input[..upto]`: the last token is a
      faithful slice followed only by blanks up to `upto`, and the tokens
      before it are the stream of the input before its column. */
  ghost predicate Lexed(input: string, toks: seq<Token>, upto: nat)
    decreases |toks|
  {
    && upto <= |input|
    && if toks == [] then BlankBetween(input, 0, upto)
       else
         var t := toks[|toks| - 1];
         && End(t) <= upto
         && TokenAt(input, t)
         && BlankBetween(input, End(t), upto)
         && Lexed(input, toks[..|toks| - 1], t.column)
  }

  predicate EndsInDigitDot(s: string) {
    |s| >= 2 && s[|s| - 1] == '.' && IsDigit(s[|s| - 2])
  }

  /** The first quote at or after `i`, or `|input|` if there is none. */
  function NextQuote(input: string, i: nat): (q: nat)
    requires i <= |input|
    ensures i <= q <= |input|
    ensures q < |input| ==> input[q] == '"'
    decreases |input| - i
  {
    if i == |input| || input[i] == '"' then i else NextQuote(input, i + 1)
  }

  /** The end of the run of word characters starting at `i`. */
  function WordEnd(input: string, i: nat): (e: nat)
    requires i <= |input|
    ensures i <= e <= |input|
    ensures e < |input| ==> !IsWordChar(input[e])
    decreases |input| - i
  {
    if i == |input| || !IsWordChar(input[i]) then i else WordEnd(input, i + 1)
  }

  /** The end of the run of digits starting at `i`. */
  function DigitsEnd(input: string, i: nat): (e: nat)
    requires i <= |input|
    ensures i <= e <= |input|
    ensures e < |input| ==> !IsDigit(input[e])
    decreases |input| - i
  {
    if i == |input| || !IsDigit(input[i]) then i else DigitsEnd(input, i + 1)
  }

  /** Each run function stops at the first character outside its run: no
      such character comes before the end it returns, and any `e` with that
      property is that end. */
  lemma {:induction false} NextQuoteSpan(input: string, i: nat)
    requires i <= |input|
    ensures forall j :: i <= j < NextQuote(input, i) ==> input[j] != '"'
    decreases |input| - i
  {
    if i < |input| && input[i] != '"' {
      NextQuoteSpan(input, i + 1);
    }
  }

  lemma {:induction false} NextQuoteIs(input: string, i: nat, q: nat)
    requires i <= q <= |input| && (q == |input| || input[q] == '"')
    requires forall j :: i <= j < q ==> input[j] != '"'
    ensures NextQuote(input, i) == q
    decreases q - i
  {
    if i < q {
      NextQuoteIs(input, i + 1, q);
    }
  }

  lemma {:induction false} WordSpan(input: string, i: nat)
    requires i <= |input|
    ensures forall j :: i <= j < WordEnd(input, i) ==> IsWordChar(input[j])
    decreases |input| - i
  {
    if i < |input| && IsWordChar(input[i]) {
      WordSpan(input, i + 1);
    }
  }

  lemma {:induction false} WordEndIs(input: string, i: nat, e: nat)
    requires i <= e <= |input| && (e == |input| || !IsWordChar(input[e]))
    requires forall j :: i <= j < e ==> IsWordChar(input[j])
    ensures WordEnd(input, i) == e
    decreases e - i
  {
    if i < e {
      WordEndIs(input, i + 1, e);
    }
  }

  lemma {:induction false} DigitsSpan(input: string, i: nat)
    requires i <= |input|
    ensures forall j :: i <= j < DigitsEnd(input, i) ==> IsDigit(input[j])
    decreases |input| - i
  {
    if i < |input| && IsDigit(input[i]) {
      DigitsSpan(input, i + 1);
    }
  }

  lemma {:induction false} DigitsEndIs(input: string, i: nat, e: nat)
    requires i <= e <= |input| && (e == |input| || !IsDigit(input[e]))
    requires forall j :: i <= j < e ==> IsDigit(input[j])
    ensures DigitsEnd(input, i) == e
    decreases e - i
  {
    if i < e {
      DigitsEndIs(input, i + 1, e);
    }
  }

  /** Line feeds outside `input[i..j]` are all that `LinesBefore` counts. */
  lemma {:induction false} LinesUnchanged(input: string, i: nat, j: nat)
    requires i <= j <= |input|
    requires forall k :: i <= k < j ==> input[k] != '\n'
    ensures LinesBefore(input, j) == LinesBefore(input, i)
    decreases j - i
  {
    if i < j {
      LinesUnchanged(input, i, j - 1);
    }
  }

  lemma LexedSkip(input: string, toks: seq<Token>, upto: nat)
    requires Lexed(input, toks, upto) && upto < |input| && IsBlank(input[upto])
    ensures Lexed(input, toks, upto + 1)
  {
  }

  lemma LexedAppend(input: string, toks: seq<Token>, upto: nat, t: Token)
    requires Lexed(input, toks, upto) && t.column == upto && TokenAt(input, t)
    ensures Lexed(input, toks + [t], End(t))
  {
    assert (toks + [t])[..|toks|] == toks;
  }

  /** Every token of a lexed stream is a faithful slice ending by `upto`. */
  lemma {:induction false} LexedToken(input: string, toks: seq<Token>, upto: nat, k: nat)
    requires Lexed(input, toks, upto) && k < |toks|
    ensures TokenAt(input, toks[k]) && End(toks[k]) <= upto
    ensures k + 1 < |toks| ==> End(toks[k]) <= toks[k + 1].column
    decreases |toks|
  {
    var init := toks[..|toks| - 1];
    if k < |toks| - 1 {
      LexedToken(input, init, toks[|toks| - 1].column, k);
      assert init[k] == toks[k];
      if k + 1 < |init| {
        assert init[k + 1] == toks[k + 1];
      }
    }
  }

  /** Columns strictly increase along a lexed stream. */
  lemma {:induction false} ColumnsIncrease(input: string, toks: seq<Token>, upto: nat, j: nat, k: nat)
    requires Lexed(input, toks, upto)
    requires j < k < |toks|
    ensures toks[j].column < toks[k].column
    decreases k - j
  {
    LexedToken(input, toks, upto, j);
    if j + 1 < k {
      ColumnsIncrease(input, toks, upto, j + 1, k);
    }
  }

  /** A word is a Keyword token iff it is one of the six reserved words. */
  lemma KeywordIff(input: string, toks: seq<Token>, upto: nat, k: nat)
    requires Lexed(input, toks, upto) && k < |toks|
    requires toks[k].tokenType == Identifier || toks[k].tokenType == Keyword
    ensures toks[k].tokenType == Keyword <==> toks[k].value in Keywords
  {
    LexedToken(input, toks, upto, k);
  }

  /** No lexed token is the `->` separator a function declaration expects,
      and `/` is always an Operator: the comment arm at line 456 is shadowed
      by the operator arm at line 422. */
  lemma NoArrowAndSlashIsOperator(input: string, toks: seq<Token>, upto: nat, k: nat)
    requires Lexed(input, toks, upto) && k < |toks|
    ensures !(toks[k].tokenType == Separator && toks[k].value == "->")
    ensures toks[k].value == "/" ==> toks[k].tokenType == Operator
    ensures toks[k].value == "//" ==> false
  {
    LexedToken(input, toks, upto, k);
  }

  /** Where `number` stops for a literal starting at `p`: the digits, then
      a `.` and more digits if a digit follows the `.`. */
  function NumberEnd(input: string, p: nat): (e: nat)
    requires p < |input|
    ensures p < e <= |input|
  {
    var d := DigitsEnd(input, p + 1);
    if d + 1 < |input| && input[d] == '.' && IsDigit(input[d + 1]) then DigitsEnd(input, d + 1) else d
  }

  /** The `unwrap` in `number` (line 532) does not panic: a `.` right after
      the digits at `p` is not the last character. */
  predicate NumberSafe(input: string, p: nat)
    requires p < |input|
  {
    var d := DigitsEnd(input, p + 1);
    d < |input| && input[d] == '.' ==> d + 1 < |input|
  }

  lemma NumberSafeFrom(input: string, p: nat)
    requires p < |input| && IsDigit(input[p]) && !EndsInDigitDot(input)
    ensures NumberSafe(input, p)
  {
    DigitsSpan(input, p + 1);
  }

  /** A number or a word spans no line feed after its first character. */
  lemma NumberLines(input: string, p: nat)
    requires p < |input| && IsDigit(input[p])
    ensures LinesBefore(input, NumberEnd(input, p)) == LinesBefore(input, p + 1)
  {
    var d := DigitsEnd(input, p + 1);
    DigitsSpan(input, p + 1);
    LinesUnchanged(input, p + 1, d);
    if d + 1 < |input| && input[d] == '.' && IsDigit(input[d + 1]) {
      DigitsSpan(input, d + 1);
      LinesUnchanged(input, d, DigitsEnd(input, d + 1));
    }
  }

  lemma WordLines(input: string, p: nat)
    requires p < |input|
    ensures LinesBefore(input, WordEnd(input, p + 1)) == LinesBefore(input, p + 1)
  {
    WordSpan(input, p + 1);
    LinesUnchanged(input, p + 1, WordEnd(input, p + 1));
  }

  lemma NumberShape(input: string, p: nat)
    requires p < |input| && IsDigit(input[p])
    ensures NumberRun(input, p, NumberEnd(input, p))
  {
    var d := DigitsEnd(input, p + 1);
    DigitsSpan(input, p + 1);
    if d + 1 < |input| && input[d] == '.' && IsDigit(input[d + 1]) {
      DigitsSpan(input, d + 1);
      assert forall j :: p <= j < NumberEnd(input, p) && j != d ==> IsDigit(input[j]);
    }
  }

  /** The token at `input[p..e]`, carrying the line it ends on. */
  function SliceToken(input: string, tokenType: TokenType, p: nat, e: nat): Token
    requires p <= e <= |input|
  {
    Token(tokenType, input[p..e], 1 + LinesBefore(input, e), p)
  }

  /** One call of `scan_token` at `p`: the token it adds, if any, and where
      the next scan starts. */
  datatype Scanned = Scanned(token: Option<Token>, next: nat)

  function Emits(s: Scanned): seq<Token> {
    if s.token.Some? then [s.token.value] else []
  }

  /** The separator and operator arms of `scan_token`. */
  function ScanSymbolAt(input: string, p: nat): Scanned
    requires p < |input|
  {
    var c := input[p];
    if IsSeparatorChar(c) then
      Scanned(Some(SliceToken(input, Separator, p, p + 1)), p + 1)
    else if c == '=' || c == '!' || c == '<' || c == '>' then
      var e := if p + 1 < |input| && input[p + 1] == '=' then p + 2 else p + 1;
      Scanned(Some(SliceToken(input, Operator, p, e)), e)
    else
      Scanned(Some(SliceToken(input, Operator, p, p + 1)), p + 1)
  }

  /** `string`: up to and including the next quote, which must exist. */
  function ScanStringAt(input: string, p: nat): Result<Scanned>
    requires p < |input|
  {
    var q := NextQuote(input, p + 1);
    if q == |input| then Err("Unterminated string")
    else Ok(Scanned(Some(SliceToken(input, Literal, p, q + 1)), q + 1))
  }

  function ScanNumberAt(input: string, p: nat): Scanned
    requires p < |input|
  {
    var e := NumberEnd(input, p);
    Scanned(Some(SliceToken(input, Literal, p, e)), e)
  }

  function ScanWordAt(input: string, p: nat): Scanned
    requires p < |input|
  {
    var e := WordEnd(input, p + 1);
    var text := input[p..e];
    Scanned(Some(SliceToken(input, if text in Keywords then Keyword else Identifier, p, e)), e)
  }

  /** The token `number`, `identifier` and `string` add, given the line
      the scan started on. */
  lemma NumberScanned(input: string, p: nat, line: nat)
    requires p < |input| && IsDigit(input[p]) && line == 1 + LinesBefore(input, p + 1)
    ensures ScanNumberAt(input, p) == Scanned(Some(Token(Literal, input[p..NumberEnd(input, p)], line, p)), NumberEnd(input, p))
  {
    NumberLines(input, p);
  }

  lemma WordScanned(input: string, p: nat, line: nat)
    requires p < |input| && line == 1 + LinesBefore(input, p + 1)
    ensures var e := WordEnd(input, p + 1); var text := input[p..e];
      ScanWordAt(input, p) == Scanned(Some(Token(if text in Keywords then Keyword else Identifier, text, line, p)), e)
  {
    WordLines(input, p);
  }

  /** What `scan_token` (lines 418-468) does with the character at `p`. The
      comment arm for `//` (line 456) is absent: the arm at line 422 takes
      every `/` first. */
  function ScanAt(input: string, p: nat): Result<Scanned>
    requires p < |input|
  {
    var c := input[p];
    if IsSeparatorChar(c) || IsOperatorChar(c) then Ok(ScanSymbolAt(input, p))
    else if c == '"' then ScanStringAt(input, p)
    else if IsDigit(c) then Ok(ScanNumberAt(input, p))
    else if IsWordStart(c) then Ok(ScanWordAt(input, p))
    else if IsBlank(c) then Ok(Scanned(None, p + 1))
    else Err("Unexpected character: " + [c])
  }

  /** Each arm adds a faithful token that ends where the next scan starts. */
  ghost predicate AddsTokenAt(input: string, s: Scanned, p: nat) {
    s.token.Some? && s.token.value.column == p && End(s.token.value) == s.next && TokenAt(input, s.token.value)
  }

  lemma SymbolTokenAt(input: string, p: nat)
    requires p < |input| && (IsSeparatorChar(input[p]) || IsOperatorChar(input[p]))
    ensures AddsTokenAt(input, ScanSymbolAt(input, p), p)
  {
  }

  lemma StringTokenAt(input: string, p: nat)
    requires p < |input| && input[p] == '"' && ScanStringAt(input, p).Ok?
    ensures AddsTokenAt(input, ScanStringAt(input, p).value, p)
  {
    NextQuoteSpan(input, p + 1);
  }

  lemma NumberTokenAt(input: string, p: nat)
    requires p < |input| && IsDigit(input[p])
    ensures AddsTokenAt(input, ScanNumberAt(input, p), p)
  {
    NumberShape(input, p);
  }

  lemma WordTokenAt(input: string, p: nat)
    requires p < |input| && IsWordStart(input[p])
    ensures AddsTokenAt(input, ScanWordAt(input, p), p)
  {
    WordSpan(input, p + 1);
  }

  /** A scan fails exactly on a character no arm accepts and on a string
      literal with no closing quote, with the source's two messages. */
  lemma ScanAtFails(input: string, p: nat)
    requires p < |input|
    ensures ScanAt(input, p).Err? <==> IsUnexpected(input[p]) || (input[p] == '"' && NextQuote(input, p + 1) == |input|)
    ensures ScanAt(input, p).Err? && input[p] == '"' ==> ScanAt(input, p).msg == "Unterminated string"
    ensures ScanAt(input, p).Err? && input[p] != '"' ==> ScanAt(input, p).msg == "Unexpected character: " + [input[p]]
  {
  }

  /** The token a successful scan adds is a faithful slice ending where the
      next scan starts. */
  lemma ScanAtToken(input: string, p: nat)
    requires p < |input| && ScanAt(input, p).Ok? && ScanAt(input, p).value.token.Some?
    ensures AddsTokenAt(input, ScanAt(input, p).value, p)
  {
    var c := input[p];
    if IsSeparatorChar(c) || IsOperatorChar(c) {
      SymbolTokenAt(input, p);
    } else if c == '"' {
      StringTokenAt(input, p);
    } else if IsDigit(c) {
      NumberTokenAt(input, p);
    } else {
      WordTokenAt(input, p);
    }
  }

  /** A successful scan moves forward and extends the stream of `input[..p]`
      to the stream of `input[..next]`. */
  lemma ScanAtLexed(input: string, toks: seq<Token>, p: nat)
    requires Lexed(input, toks, p) && p < |input| && ScanAt(input, p).Ok?
    ensures var s := ScanAt(input, p).value;
      p < s.next <= |input| && Lexed(input, toks + Emits(s), s.next)
  {
    var s := ScanAt(input, p).value;
    if s.token.None? {
      assert toks + Emits(s) == toks;
      LexedSkip(input, toks, p);
    } else {
      ScanAtToken(input, p);
      LexedAppend(input, toks, p, s.token.value);
    }
  }

  class Lexer {
    const input: string
    var tokens: seq<Token>
    var start: nat
    var current: nat
    var line: nat

    /** Between two scans: the emitted tokens are the token stream of
        `input[..current]` and `line` is one more than the line feeds read. */
    ghost predicate Valid()
      reads this
    {
      && Lexed(input, tokens, current)
      && line == 1 + LinesBefore(input, current)
    }

    constructor (input: string)
      ensures this.input == input
      ensures tokens == [] && start == 0 && current == 0 && line == 1
      ensures Valid()
    {
      this.input := input;
      tokens := [];
      start := 0;
      current := 0;
      line := 1;
    }

    /** `is_at_end` (lines 495-497): no character is left to read. */
    predicate IsAtEnd(): (atEnd: bool)
      reads this
      ensures !atEnd <==> current < |input|
    {
      current >= |input|
    }

    /** The next character, or NUL at the end (`peek`, lines 487-493). A
        character that is not NUL lies inside the input, so none of the
        scanning loops runs past the end. */
    function Peek(): (c: char)
      reads this
      ensures IsAtEnd() ==> c == '\0'
      ensures c != '\0' ==> current < |input| && c == input[current]
    {
      if IsAtEnd() then '\0' else input[current]
    }

    method Advance() returns (c: char)
      requires current < |input|
      modifies this`current
      ensures c == input[old(current)] && current == old(current) + 1
    {
      c := input[current];
      current := current + 1;
    }

    method MatchChar(expected: char) returns (matched: bool)
      modifies this`current
      ensures matched == (old(current) < |input| && input[old(current)] == expected)
      ensures current == old(current) + (if matched then 1 else 0)
    {
      if IsAtEnd() {
        return false;
      }
      if input[current] != expected {
        return false;
      }
      current := current + 1;
      matched := true;
    }

    method AddToken(tokenType: TokenType)
      requires start <= current <= |input|
      modifies this`tokens
      ensures tokens == old(tokens) + [Token(tokenType, input[start..current], line, start)]
    {
      var text := input[start..current];
      tokens := tokens + [Token(tokenType, text, line, start)];
    }

    /** `string`: the opening quote has been consumed. */
    method StringLiteral() returns (r: Result<()>)
      requires start < |input| && input[start] == '"' && current == start + 1
      requires line == 1 + LinesBefore(input, current)
      modifies this`current, this`line, this`tokens
      ensures var s := ScanStringAt(input, start);
        && r.Err? == s.Err?
        && (s.Err? ==> r.msg == s.msg && tokens == old(tokens) && current == |input|)
        && (s.Ok? ==> current == s.value.next && tokens == old(tokens) + Emits(s.value))
      ensures current <= |input| && line == 1 + LinesBefore(input, current)
    {
      while Peek() != '"' && !IsAtEnd()
        invariant start < current <= |input|
        invariant forall j :: start < j < current ==> input[j] != '"'
        invariant line == 1 + LinesBefore(input, current)
        invariant tokens == old(tokens)
        decreases |input| - current
      {
        if Peek() == '\n' {
          line := line + 1;
        }
        var _ := Advance();
      }
      NextQuoteIs(input, start + 1, current);
      if IsAtEnd() {
        return Err("Unterminated string");
      }
      var _ := Advance();
      AddToken(Literal);
      r := Ok(());
    }

    /** The `while self.peek().is_digit(10)` loops of `number`. */
    method SkipDigits()
      requires current <= |input|
      modifies this`current
      ensures current == DigitsEnd(input, old(current))
    {
      ghost var from := current;
      while IsDigit(Peek())
        invariant from <= current <= |input|
        invariant forall j :: from <= j < current ==> IsDigit(input[j])
        decreases |input| - current
      {
        var _ := Advance();
      }
      DigitsEndIs(input, from, current);
    }

    /** `number`: the first digit has been consumed. */
    method Number()
      requires start < |input| && IsDigit(input[start]) && current == start + 1
      requires NumberSafe(input, start) && line == 1 + LinesBefore(input, current)
      modifies this`current, this`tokens
      ensures var s := ScanNumberAt(input, start);
        current == s.next && tokens == old(tokens) + Emits(s)
      ensures line == 1 + LinesBefore(input, current)
    {
      SkipDigits();
      if Peek() == '.' && IsDigit(input[current + 1]) {
        var _ := Advance();
        SkipDigits();
      }
      NumberScanned(input, start, line);
      AddToken(Literal);
    }

    /** The `while self.peek().is_alphanumeric() || self.peek() == '_'` loop
        of `identifier`. */
    method SkipWordChars()
      requires current <= |input|
      modifies this`current
      ensures current == WordEnd(input, old(current))
    {
      ghost var from := current;
      while IsWordChar(Peek())
        invariant from <= current <= |input|
        invariant forall j :: from <= j < current ==> IsWordChar(input[j])
        decreases |input| - current
      {
        var _ := Advance();
      }
      WordEndIs(input, from, current);
    }

    /** `identifier`: the first letter or underscore has been consumed; the
        six reserved words become Keyword tokens. */
    method Identifier()
      requires start < |input| && IsWordStart(input[start]) && current == start + 1
      requires line == 1 + LinesBefore(input, current)
      modifies this`current, this`tokens
      ensures var s := ScanWordAt(input, start);
        current == s.next && tokens == old(tokens) + Emits(s)
      ensures line == 1 + LinesBefore(input, current)
    {
      SkipWordChars();
      WordScanned(input, start, line);
      var text := input[start..current];
      var tokenType := if text in Keywords then Keyword else DppTokens.Identifier;
      AddToken(tokenType);
    }

    /** `scan_token`: scans the token starting at `start`, as `ScanAt` says. */
    method ScanToken() returns (r: Result<()>)
      requires start == current < |input| && line == 1 + LinesBefore(input, current)
      requires IsDigit(input[start]) ==> NumberSafe(input, start)
      modifies this`current, this`line, this`tokens
      ensures var s := ScanAt(input, old(current));
        && r.Err? == s.Err?
        && (s.Err? ==> r.msg == s.msg && tokens == old(tokens))
        && (s.Ok? ==> current == s.value.next && tokens == old(tokens) + Emits(s.value))
      ensures current <= |input| && line == 1 + LinesBefore(input, current)
    {
      var c := Advance();
      if IsSeparatorChar(c) || IsOperatorChar(c) {
        ScanSymbol(c);
      } else if c == '"' {
        r := StringLiteral();
        return;
      } else if IsDigit(c) {
        Number();
      } else if IsWordStart(c) {
        Identifier();
      } else if c == ' ' || c == '\r' || c == '\t' {
      } else if c == '\n' {
        line := line + 1;
      } else {
        return Err("Unexpected character: " + [c]);
      }
      r := Ok(());
    }

    /** The separator and operator arms of `scan_token`: `c` has been
        consumed. For `=`, `!`, `<` and `>` both arms of the source add an
        Operator token, one or two characters long. */
    method ScanSymbol(c: char)
      requires start < |input| && current == start + 1 && c == input[start]
      requires IsSeparatorChar(c) || IsOperatorChar(c)
      requires line == 1 + LinesBefore(input, current)
      modifies this`current, this`tokens
      ensures var s := ScanSymbolAt(input, start);
        current == s.next && tokens == old(tokens) + Emits(s)
      ensures line == 1 + LinesBefore(input, current)
    {
      if IsSeparatorChar(c) {
        AddToken(Separator);
      } else if c == '+' || c == '-' || c == '*' || c == '/' {
        AddToken(Operator);
      } else {
        var _ := MatchChar('=');
        AddToken(Operator);
      }
    }

    /** The `EOF` separator `tokenize` pushes once the input is used up. */
    method AddEof()
      requires current == |input| && Lexed(input, tokens, current)
      requires line == 1 + LinesBefore(input, current)
      modifies this`tokens
      ensures tokens == old(tokens) + [Token(Separator, EofValue, 1 + LinesBefore(input, |input|), |input|)]
      ensures Lexed(input, tokens[..|tokens| - 1], |input|)
    {
      ghost var scanned := tokens;
      tokens := tokens + [Token(Separator, EofValue, line, current)];
      assert tokens[..|tokens| - 1] == scanned;
    }

    /** `tokenize`: scans to the end of the input and appends the EOF token.
        On success the result is the stream of the whole input followed by
        Separator "EOF" on the last line; on failure the tokens so far are
        the stream up to the offending character, which is reported. */
    method Tokenize() returns (r: Result<seq<Token>>)
      requires Valid()
      requires forall i :: 0 <= i < |input| ==> IsAscii(input[i])
      requires !EndsInDigitDot(input)
      modifies this
      ensures r.Ok? ==> tokens == r.value && |r.value| > 0
      ensures r.Ok? ==> var ts := r.value;
        && Lexed(input, ts[..|ts| - 1], |input|)
        && ts[|ts| - 1] == Token(Separator, EofValue, 1 + LinesBefore(input, |input|), |input|)
        && old(tokens) <= ts
      ensures r.Err? ==> start < |input| && Lexed(input, tokens, start) && ScanAt(input, start).Err? && r.msg == ScanAt(input, start).msg
    {
      while !IsAtEnd()
        invariant Valid() && current <= |input|
        invariant old(tokens) <= tokens
        decreases |input| - current
      {
        start := current;
        ghost var before := tokens;
        if IsDigit(input[start]) {
          NumberSafeFrom(input, start);
        }
        var scanned := ScanToken();
        if scanned.Err? {
          return Err(scanned.msg);
        }
        ScanAtLexed(input, before, start);
      }
      AddEof();
      r := Ok(tokens);
    }
  }
}
