/** The chained hash set of src/parser.c: `hash`, `insert`, `lookup`,
    `complexProcessing` and `tokenize`. A C `char` is signed (as on x86-64)
    and a C string is the sequence of its characters before the NUL. */
module CHashSet {

  /** A signed C `char`. */
  type CChar = c: int | -128 <= c < 128

  /** A C string: no NUL inside. */
  predicate IsCString(s: seq<CChar>) {
    forall i :: 0 <= i < |s| ==> s[i] != 0
  }

  /** Text that is ASCII and NUL-free: what `isalnum` may be given. */
  predicate IsAscii(s: seq<CChar>) {
    forall i :: 0 <= i < |s| ==> 0 < s[i]
  }

  /** `MAX_TOKEN_LENGTH`, `MAX_TOKENS` and `HASH_TABLE_SIZE` (lines 6-8). */
  const MaxTokenLength := 100
  const MaxTokens := 1000
  const TableSize := 101
  const Word := 0x1_0000_0000

  // ---------------------------------------------------------------------
  // hash
  // ---------------------------------------------------------------------

  /** `hashval` after the loop of `hash` (lines 23-24): each character,
      sign-extended, plus 31 times the previous value, in unsigned 32-bit
      arithmetic. */
  function Fold(s: seq<CChar>): (h: nat)
    ensures h < Word
  {
    if |s| == 0 then 0 else (s[|s| - 1] + 31 * Fold(s[..|s| - 1])) % Word
  }

  /** `hash` (lines 21-26). */
  function Hash(s: seq<CChar>): (h: nat)
    ensures h < TableSize
  {
    Fold(s) % TableSize
  }

  /** `hash` with its loop. */
  method ComputeHash(s: seq<CChar>) returns (h: nat)
    ensures h == Hash(s)
  {
    var hashval: nat := 0;
    for i := 0 to |s|
      invariant hashval == Fold(s[..i])
    {
      assert s[..i + 1][..i] == s[..i];
      hashval := (s[i] + 31 * hashval) % Word;
    }
    assert s[..|s|] == s;
    h := hashval % TableSize;
  }

  /** The fold without wrap-around: the polynomial `sum s[i] * 31^(n-1-i)`
      over the sign-extended characters. */
  function Poly(s: seq<CChar>): int {
    if |s| == 0 then 0 else s[|s| - 1] + 31 * Poly(s[..|s| - 1])
  }

  /** The 32-bit fold is that polynomial reduced modulo 2^32: wrapping at
      every step is the same as wrapping once at the end. */
  lemma {:induction false} FoldIsPoly(s: seq<CChar>)
    ensures Fold(s) == Poly(s) % Word
  {
    if |s| > 0 {
      var p := s[..|s| - 1];
      FoldIsPoly(p);
      ModStep(s[|s| - 1], Poly(p), Fold(p));
    }
  }

  lemma ModStep(c: int, p: int, f: int)
    requires f == p % Word
    ensures (c + 31 * f) % Word == (c + 31 * p) % Word
  {
    var q := p / Word;
    assert p == q * Word + f;
    assert c + 31 * p == (c + 31 * f) + (31 * q) * Word;
  }

  // ---------------------------------------------------------------------
  // The table
  // ---------------------------------------------------------------------

  /** `HashTable` (lines 10-18): 101 buckets, each a chain of contents
      with the head first. */
  class HashTable {
    const table: array<seq<seq<CChar>>>

    /** Every stored content sits in the bucket of its hash and is a C
        string that `strncpy` copied with its NUL. */
    predicate Valid()
      reads this, table
    {
      table.Length == TableSize
      && forall b, j :: 0 <= b < table.Length && 0 <= j < |table[b]| ==>
           Hash(table[b][j]) == b && IsCString(table[b][j]) && |table[b][j]| < MaxTokenLength
    }

    /** No bucket holds the same content twice. */
    predicate Distinct()
      reads this, table
    {
      forall b :: 0 <= b < table.Length ==> NoRepeats(table[b])
    }

    /** Everything stored, in any bucket. */
    function Stored(): set<seq<CChar>>
      reads this, table
    {
      set b, j | 0 <= b < table.Length && 0 <= j < |table[b]| :: table[b][j]
    }

    /** `memset(&hashtable, 0, sizeof(hashtable))` (line 99). */
    constructor ()
      ensures Valid() && Distinct() && Stored() == {}
      ensures fresh(table)
    {
      table := new seq<seq<CChar>>[TableSize](_ => []);
    }

    /** `insert` (lines 29-43): prepend to the bucket of the content's hash. */
    method Insert(content: seq<CChar>)
      requires Valid() && IsCString(content) && |content| < MaxTokenLength
      modifies table
      ensures Valid()
      ensures table[Hash(content)] == [content] + old(table[Hash(content)])
      ensures forall b :: 0 <= b < table.Length && b != Hash(content) ==> table[b] == old(table[b])
      ensures Stored() == old(Stored()) + {content}
    {
      var h := ComputeHash(content);
      table[h] := [content] + table[h];
      assert table[h][0] == content;
      forall x | x in old(Stored()) ensures x in Stored() {
        var b, j :| 0 <= b < table.Length && 0 <= j < |old(table[b])| && old(table[b][j]) == x;
        if b == h {
          assert table[b][j + 1] == x;
        } else {
          assert table[b][j] == x;
        }
      }
      forall x | x in Stored() ensures x in old(Stored()) + {content} {
        var b, j :| 0 <= b < table.Length && 0 <= j < |table[b]| && table[b][j] == x;
        if b == h && j > 0 {
          assert old(table[b][j - 1]) == x;
        } else if b != h {
          assert old(table[b][j]) == x;
        }
      }
    }

    /** `lookup` (lines 46-53): walk the chain of the content's bucket.
        Because every content sits in its own bucket, this finds exactly
        the stored contents. */
    method Lookup(content: seq<CChar>) returns (found: bool)
      requires Valid() && IsCString(content)
      ensures found <==> content in table[Hash(content)]
      ensures found <==> content in Stored()
    {
      var h := ComputeHash(content);
      var chain := table[h];
      found := false;
      var j := 0;
      while j < |chain|
        invariant 0 <= j <= |chain|
        invariant content !in chain[..j]
      {
        if chain[j] == content {
          found := true;
          return;
        }
        assert chain[..j + 1] == chain[..j] + [chain[j]];
        j := j + 1;
      }
      assert chain[..j] == chain;
    }

    /** `complexProcessing` (lines 55-74): rewrite the token and store the
        result unless it is already there, so a table filled only through
        here never holds a content twice. */
    method ComplexProcessing(token: seq<CChar>)
      requires Valid() && IsAscii(token) && |token| < MaxTokenLength
      modifies table
      ensures Valid()
      ensures Distinct() <== old(Distinct())
      ensures Stored() == old(Stored()) + {Entry(token)}
      ensures Entry(token) in old(Stored()) ==>
        forall b :: 0 <= b < table.Length ==> table[b] == old(table[b])
      ensures Entry(token) !in old(Stored()) ==>
        && table[Hash(Entry(token))] == [Entry(token)] + old(table[Hash(Entry(token))])
        && forall b :: 0 <= b < table.Length && b != Hash(Entry(token)) ==> table[b] == old(table[b])
    {
      var modified := Rewrite(token);
      RewrittenLength(token);
      var entry := CStr(modified);
      var present := Lookup(entry);
      if !present {
        ghost var chain := table[Hash(entry)];
        Insert(entry);
        if old(Distinct()) {
          PrependNoRepeats(entry, chain);
        }
      }
    }
  }

  /** A chain without two equal contents. */
  predicate NoRepeats(chain: seq<seq<CChar>>) {
    forall i, j :: 0 <= i < j < |chain| ==> chain[i] != chain[j]
  }

  lemma PrependNoRepeats(x: seq<CChar>, chain: seq<seq<CChar>>)
    requires NoRepeats(chain) && x !in chain
    ensures NoRepeats([x] + chain)
  {
    var c := [x] + chain;
    forall i, j | 0 <= i < j < |c|
      ensures c[i] != c[j]
    {
      assert c[j] == chain[j - 1];
      if i > 0 {
        assert c[i] == chain[i - 1];
      }
    }
  }

  // ---------------------------------------------------------------------
  // complexProcessing
  // ---------------------------------------------------------------------

  /** `isalnum` in the C locale. */
  predicate IsAlnum(c: CChar) {
    '0' as int <= c <= '9' as int || 'A' as int <= c <= 'Z' as int || 'a' as int <= c <= 'z' as int
  }

  /** `(char) k`: the value congruent to `k` modulo 256 in the range of a
      signed `char`. */
  function ToChar(k: int): (c: CChar)
    ensures (k - c) % 256 == 0
  {
    (k + 128) % 256 - 128
  }

  /** What a non-alphanumeric character at position `i` adds to `k`
      (line 66): `c & i` for an even character, `c | i` for an odd one. */
  function Mix(c: CChar, i: nat): int
    requires 0 < c && i < 128
  {
    if c % 2 == 0 then ((c as bv8) & (i as bv8)) as int else ((c as bv8) | (i as bv8)) as int
  }

  /** The state of the loop of `complexProcessing`: the characters of
      `modifiedToken` written so far and the running `k`. */
  datatype Rewriting = Rewriting(out: seq<CChar>, k: int)

  /** One step of the loop (lines 61-67) at position `i`. */
  function RewriteStep(r: Rewriting, c: CChar, i: nat): Rewriting
    requires 0 < c && i < 128
  {
    if IsAlnum(c) then Rewriting(r.out + [c], r.k)
    else
      var k := r.k + Mix(c, i);
      Rewriting(r.out + [ToChar(k)], k)
  }

  /** The loop state after the whole token (lines 60-68). */
  function Process(token: seq<CChar>): Rewriting
    requires IsAscii(token) && |token| < 128
  {
    if |token| == 0 then Rewriting([], 0)
    else RewriteStep(Process(token[..|token| - 1]), token[|token| - 1], |token| - 1)
  }

  function Rewritten(token: seq<CChar>): seq<CChar>
    requires IsAscii(token) && |token| < 128
  {
    Process(token).out
  }

  /** The string `strcmp` and `strncpy` see in `modifiedToken`: the
      characters before the first NUL, which `(char) k` may produce. */
  function CStr(s: seq<CChar>): (r: seq<CChar>)
    ensures IsCString(r) && r <= s
    ensures |r| < |s| ==> s[|r|] == 0
  {
    if |s| == 0 || s[0] == 0 then [] else [s[0]] + CStr(s[1..])
  }

  /** What `complexProcessing` stores for a token. */
  function Entry(token: seq<CChar>): seq<CChar>
    requires IsAscii(token) && |token| < 128
  {
    CStr(Rewritten(token))
  }

  /** The loop of `complexProcessing`. */
  method Rewrite(token: seq<CChar>) returns (modified: seq<CChar>)
    requires IsAscii(token) && |token| < MaxTokenLength
    ensures modified == Rewritten(token)
  {
    modified := [];
    var k := 0;
    for i := 0 to |token|
      invariant Rewriting(modified, k) == Process(token[..i])
    {
      assert token[..i + 1][..i] == token[..i];
      var c := token[i];
      if IsAlnum(c) {
        modified := modified + [c];
      } else {
        k := k + Mix(c, i);
        modified := modified + [ToChar(k)];
      }
    }
    assert token[..|token|] == token;
  }

  /** The rewrite writes one character per input character. */
  lemma {:induction false} RewrittenLength(token: seq<CChar>)
    requires IsAscii(token) && |token| < 128
    ensures |Rewritten(token)| == |token|
  {
    if |token| > 0 {
      RewrittenLength(token[..|token| - 1]);
    }
  }

  /** Later characters do not change what was written for earlier ones. */
  lemma {:induction false} RewrittenPrefix(token: seq<CChar>, m: nat)
    requires IsAscii(token) && |token| < 128 && m <= |token|
    decreases |token|
    ensures |Rewritten(token)| == |token| && Rewritten(token[..m]) == Rewritten(token)[..m]
  {
    RewrittenLength(token);
    if m < |token| {
      var n := |token| - 1;
      RewrittenLength(token[..n]);
      RewrittenPrefix(token[..n], m);
      assert token[..n][..m] == token[..m];
      assert Rewritten(token)[..n] == Rewritten(token[..n]);
    } else {
      assert token[..m] == token;
    }
  }

  /** An alphanumeric character stays in place; any other one becomes
      `(char) k`, `k` being the running sum of `Mix` up to and including
      its position. */
  lemma RewrittenAt(token: seq<CChar>, i: nat)
    requires IsAscii(token) && |token| < 128 && i < |token|
    ensures |Rewritten(token)| == |token|
    ensures Rewritten(token)[i] == if IsAlnum(token[i]) then token[i] else ToChar(Process(token[..i + 1]).k)
  {
    RewrittenLength(token);
    RewrittenPrefix(token, i + 1);
    assert token[..i + 1][..i] == token[..i];
    RewrittenLength(token[..i]);
  }

  /** An alphanumeric token is stored as it is. */
  lemma {:induction false} AlnumKept(token: seq<CChar>)
    requires IsAscii(token) && |token| < 128
    requires forall i :: 0 <= i < |token| ==> IsAlnum(token[i])
    ensures Entry(token) == token
  {
    RewrittenLength(token);
    forall i | 0 <= i < |token|
      ensures Rewritten(token)[i] == token[i]
    {
      RewrittenAt(token, i);
    }
    assert Rewritten(token) == token;
    CStrOfCString(token);
  }

  lemma {:induction false} CStrOfCString(s: seq<CChar>)
    requires IsCString(s)
    ensures CStr(s) == s
  {
    if |s| > 0 {
      CStrOfCString(s[1..]);
    }
  }

  /** `.` at position 1 adds `46 & 1 == 0` to `k`, so `(char) k` is a NUL
      and cuts the entry short: `a.` is stored as `a`, and processing `a`
      afterwards finds it already there. */
  lemma NulCutsEntry()
    ensures Entry(['a' as int, '.' as int]) == ['a' as int]
    ensures Entry(['a' as int]) == ['a' as int]
  {
    var a: seq<CChar> := ['a' as int];
    var t: seq<CChar> := ['a' as int, '.' as int];
    assert t[..1] == a && a[..0] == [];
    assert Process(a) == Rewriting(a, 0);
    assert Mix('.' as int, 1) == 0;
    var r: seq<CChar> := ['a' as int, 0];
    assert Rewritten(t) == r;
    assert r[1..] == [0];
    assert CStr(r) == [r[0]] + CStr(r[1..]);
    assert a[1..] == [];
    assert CStr(a) == [a[0]] + CStr(a[1..]);
  }

  // ---------------------------------------------------------------------
  // tokenize
  // ---------------------------------------------------------------------

  /** The delimiters of `tokenize` (line 79): space, tab, CR, LF, VT, FF. */
  predicate IsDelimiter(c: CChar) {
    c == 32 || c == 9 || c == 13 || c == 10 || c == 11 || c == 12
  }

  /** The length of the run of non-delimiters `s` starts with. */
  function RunLength(s: seq<CChar>): (n: nat)
    ensures n <= |s|
    ensures forall i :: 0 <= i < n ==> !IsDelimiter(s[i])
    ensures n < |s| ==> IsDelimiter(s[n])
  {
    if |s| == 0 || IsDelimiter(s[0]) then 0 else 1 + RunLength(s[1..])
  }

  /** `strncpy(tokens[i], token, MAX_TOKEN_LENGTH)`: at most 100 characters
      are kept. */
  function Copy(t: seq<CChar>): seq<CChar> {
    if |t| < MaxTokenLength then t else t[..MaxTokenLength]
  }

  /** The tokens `strtok` yields from `s`, at most `cap` of them, each as
      `strncpy` copies it. */
  function Tokens(s: seq<CChar>, cap: nat): seq<seq<CChar>>
    decreases |s|
  {
    if cap == 0 || |s| == 0 then []
    else if IsDelimiter(s[0]) then Tokens(s[1..], cap)
    else
      var n := RunLength(s);
      [Copy(s[..n])] + Tokens(s[n..], cap - 1)
  }

  /** `tokenize` (lines 77-94). */
  method Tokenize(source: seq<CChar>) returns (tokens: seq<seq<CChar>>)
    requires IsCString(source)
    ensures tokens == Tokens(source, MaxTokens)
  {
    tokens := [];
    var i := 0;
    while i < |source| && |tokens| < MaxTokens
      invariant 0 <= i <= |source| && |tokens| <= MaxTokens
      invariant tokens + Tokens(source[i..], MaxTokens - |tokens|) == Tokens(source, MaxTokens)
      decreases |source| - i
    {
      var rest := Tokens(source[i..], MaxTokens - |tokens|);
      if IsDelimiter(source[i]) {
        TokensAtDelimiter(source, i, MaxTokens - |tokens|);
        i := i + 1;
      } else {
        var j := RunEnd(source, i);
        var token := Copy(source[i..j]);
        TokensAtRun(source, i, MaxTokens - |tokens|);
        assert rest == [token] + Tokens(source[j..], MaxTokens - |tokens| - 1);
        tokens := tokens + [token];
        i := j;
      }
    }
    TokensDone(source[i..], MaxTokens - |tokens|);
  }

  lemma TokensDone(s: seq<CChar>, cap: nat)
    requires cap == 0 || |s| == 0
    ensures Tokens(s, cap) == []
  {
  }

  /** The scan of `strtok` over one token: the index after the run of
      non-delimiters from `i`. */
  method RunEnd(source: seq<CChar>, i: nat) returns (j: nat)
    requires i <= |source|
    ensures j == i + RunLength(source[i..])
  {
    j := i;
    while j < |source| && !IsDelimiter(source[j])
      invariant i <= j <= |source|
      invariant forall m :: i <= m < j ==> !IsDelimiter(source[m])
    {
      j := j + 1;
    }
    RunOf(source[i..], j - i);
  }

  lemma TokensAtDelimiter(source: seq<CChar>, i: nat, cap: nat)
    requires i < |source| && IsDelimiter(source[i]) && cap > 0
    ensures Tokens(source[i..], cap) == Tokens(source[i + 1..], cap)
  {
    assert source[i..][1..] == source[i + 1..];
  }

  lemma TokensAtRun(source: seq<CChar>, i: nat, cap: nat)
    requires i < |source| && !IsDelimiter(source[i]) && cap > 0
    ensures var j := i + RunLength(source[i..]);
      Tokens(source[i..], cap) == [Copy(source[i..j])] + Tokens(source[j..], cap - 1)
  {
    var n := RunLength(source[i..]);
    assert source[i..][..n] == source[i..i + n];
    assert source[i..][n..] == source[i + n..];
  }

  lemma RunOf(s: seq<CChar>, n: nat)
    requires n <= |s|
    requires forall m :: 0 <= m < n ==> !IsDelimiter(s[m])
    requires n == |s| || IsDelimiter(s[n])
    ensures RunLength(s) == n
  {
  }

  /** A token for the round trip: non-empty, short enough for `strncpy`
      to keep whole, and free of delimiters. */
  predicate IsField(t: seq<CChar>) {
    0 < |t| < MaxTokenLength && forall i :: 0 <= i < |t| ==> !IsDelimiter(t[i])
  }

  /** The fields joined by single spaces. */
  function JoinFields(ts: seq<seq<CChar>>): seq<CChar> {
    if |ts| == 0 then [] else ts[0] + [32] + JoinFields(ts[1..])
  }

  /** Tokenizing space-separated fields gives them back, up to the cap. */
  lemma {:induction false} TokenizeJoin(ts: seq<seq<CChar>>, cap: nat)
    requires forall k :: 0 <= k < |ts| ==> IsField(ts[k])
    requires |ts| <= cap
    ensures Tokens(JoinFields(ts), cap) == ts
  {
    if |ts| > 0 {
      FieldThenSpace(ts[0], JoinFields(ts[1..]), cap);
      TokenizeJoin(ts[1..], cap - 1);
      assert ts == [ts[0]] + ts[1..];
    }
  }

  /** A field and a space before more text: the field is the first token. */
  lemma FieldThenSpace(t: seq<CChar>, more: seq<CChar>, cap: nat)
    requires IsField(t) && cap > 0
    ensures Tokens(t + [32] + more, cap) == [t] + Tokens(more, cap - 1)
  {
    var rest := [32] + more;
    var s := t + rest;
    assert t + [32] + more == s;
    RunOf(s, |t|);
    assert s[..|t|] == t;
    assert s[|t|..] == rest;
    assert rest[1..] == more;
  }

  /** At most `cap` tokens come out, each non-empty and free of
      delimiters. */
  lemma {:induction false} TokensShape(s: seq<CChar>, cap: nat)
    decreases |s|
    ensures |Tokens(s, cap)| <= cap
    ensures forall k :: 0 <= k < |Tokens(s, cap)| ==>
              0 < |Tokens(s, cap)[k]| <= MaxTokenLength
              && forall m :: 0 <= m < |Tokens(s, cap)[k]| ==> !IsDelimiter(Tokens(s, cap)[k][m])
  {
    if cap == 0 || |s| == 0 {
    } else if IsDelimiter(s[0]) {
      TokensShape(s[1..], cap);
    } else {
      var n := RunLength(s);
      TokensShape(s[n..], cap - 1);
    }
  }
}
