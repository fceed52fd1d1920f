/** The growable string buffer of src/StringsAndArrows.c:
    `appendArrowSegment` and `generateArrowString`. The buffer is a
    `char` array holding a NUL-terminated string; `length` and `capacity`
    are the `*currentLength` and `*maxLength` the C functions update
    in place. */
module ArrowStrings {

  /** A C string literal: no NUL inside. */
  predicate IsCString(s: string) {
    forall i :: 0 <= i < |s| ==> s[i] != '\0'
  }

  /** The heap buffer with its length and capacity. */
  class Buffer {
    var data: array<char>
    var length: nat
    var capacity: nat

    /** The buffer holds `length` characters and their NUL, and
        `capacity` is its allocated size. */
    predicate Valid()
      reads this, data
    {
      data.Length == capacity && length < capacity && data[length] == '\0'
      && forall i :: 0 <= i < length ==> data[i] != '\0'
    }

    /** The string the buffer holds. */
    function Content(): string
      reads this, data
      requires Valid()
    {
      data[..length]
    }

    /** `malloc(maxLength)` and `(*result)[0] = '\0'` (lines 51 and 58
        of `generateArrowString`): an empty string in a fresh buffer. */
    constructor (maxLength: nat)
      requires maxLength > 0
      ensures Valid() && Content() == "" && capacity == maxLength && fresh(data)
    {
      data := new char[maxLength](_ => '\0');
      length := 0;
      capacity := maxLength;
    }

    /** `appendArrowSegment` (lines 27-41). When the segment and its NUL do
        not fit, the capacity becomes twice what they need and the old
        bytes move to the new block; then `strcat` writes the segment after
        the current string. */
    method Append(segment: string)
      requires Valid() && IsCString(segment)
      modifies this, data
      ensures Valid()
      ensures Content() == old(Content()) + segment
      ensures length == old(length) + |segment|
      ensures old(length) + |segment| + 1 > old(capacity) ==>
                capacity == (old(length) + |segment| + 1) * 2 && fresh(data)
      ensures old(length) + |segment| + 1 <= old(capacity) ==>
                capacity == old(capacity) && data == old(data)
    {
      var segmentLength := |segment|;
      if length + segmentLength + 1 > capacity {
        capacity := (length + segmentLength + 1) * 2;
        var grown := new char[capacity](_ => '\0');
        forall i | 0 <= i < data.Length {
          grown[i] := data[i];
        }
        data := grown;
      }
      Concatenate(segment);
    }

    /** `strcat(*dest, segment)` followed by `*currentLength +=
        segmentLength` (lines 39-40). */
    method Concatenate(segment: string)
      requires data.Length == capacity && length + |segment| < capacity
      requires forall i :: 0 <= i < length ==> data[i] != '\0'
      requires IsCString(segment)
      modifies this`length, data
      ensures Valid()
      ensures data[..length] == old(data[..length]) + segment
      ensures length == old(length) + |segment|
    {
      var i := 0;
      while i < |segment|
        invariant 0 <= i <= |segment| && length == old(length) && data.Length == capacity
        invariant data[..length] == old(data[..length])
        invariant data[length..length + i] == segment[..i]
      {
        data[length + i] := segment[i];
        i := i + 1;
      }
      data[length + |segment|] := '\0';
      assert data[..length + |segment|] == data[..length] + data[length..length + |segment|];
      length := length + |segment|;
    }
  }

  /** The nine arrow components of `generateArrowString` (lines 44-46). */
  const Components: seq<string> := ["<--", "-->", "<->", "<|>", "<<>>", "==>", "<==", "><", "<<-->>"]

  /** The separator appended after every component (line 64). */
  const Separator := "---"

  /** The components, each followed by the separator. */
  function Pieces(cs: seq<string>): string {
    if |cs| == 0 then "" else Pieces(cs[..|cs| - 1]) + cs[|cs| - 1] + Separator
  }

  /** `n` rounds of all the components. */
  function Arrows(n: nat): string {
    if n == 0 then "" else Arrows(n - 1) + Pieces(Components)
  }

  /** One round is 57 characters long: 30 of components and 27 of
      separators. */
  lemma RoundLength()
    ensures |Pieces(Components)| == 57
  {
    var cs := Components;
    assert cs[..1][..0] == [];
    assert |Pieces(cs[..1])| == 6;
    assert cs[..2][..1] == cs[..1];
    assert |Pieces(cs[..2])| == 12;
    assert cs[..3][..2] == cs[..2];
    assert |Pieces(cs[..3])| == 18;
    assert cs[..4][..3] == cs[..3];
    assert |Pieces(cs[..4])| == 24;
    assert cs[..5][..4] == cs[..4];
    assert |Pieces(cs[..5])| == 31;
    assert cs[..6][..5] == cs[..5];
    assert |Pieces(cs[..6])| == 37;
    assert cs[..7][..6] == cs[..6];
    assert |Pieces(cs[..7])| == 43;
    assert cs[..8][..7] == cs[..7];
    assert |Pieces(cs[..8])| == 48;
    assert cs[..9][..8] == cs[..8];
    assert cs[..9] == cs;
  }

  /** `n` rounds are `57 * n` characters long. */
  lemma {:induction false} ArrowsLength(n: nat)
    ensures |Arrows(n)| == 57 * n
  {
    RoundLength();
    if n > 0 {
      ArrowsLength(n - 1);
    }
  }

  /** Every piece of the output is a string literal without NUL. */
  lemma ComponentsAreStrings()
    ensures forall j :: 0 <= j < |Components| ==> IsCString(Components[j])
    ensures IsCString(Separator)
  {
  }

  /** `generateArrowString` (lines 43-66): 100 rounds of the components,
      each followed by the separator, 5700 characters in all. */
  method GenerateArrowString() returns (result: Buffer)
    ensures fresh(result) && fresh(result.data) && result.Valid()
    ensures result.Content() == Arrows(100)
    ensures result.length == 5700
  {
    result := new Buffer(1024);
    for i := 0 to 100
      invariant fresh(result) && fresh(result.data) && result.Valid()
      invariant result.Content() == Arrows(i)
    {
      ComponentsAreStrings();
      AppendRound(result, Components);
    }
    ArrowsLength(100);
  }

  /** The inner loop of `generateArrowString` (lines 62-65): every
      component, each followed by the separator. */
  method AppendRound(b: Buffer, components: seq<string>)
    requires b.Valid()
    requires forall j :: 0 <= j < |components| ==> IsCString(components[j])
    modifies b, b.data
    ensures b.Valid() && b.Content() == old(b.Content()) + Pieces(components)
    ensures b.data == old(b.data) || fresh(b.data)
  {
    ghost var before := b.Content();
    for j := 0 to |components|
      invariant b.Valid() && (b.data == old(b.data) || fresh(b.data))
      invariant b.Content() == before + Pieces(components[..j])
    {
      ghost var done := Pieces(components[..j]);
      AppendPiece(b, components[j]);
      assert components[..j + 1][..j] == components[..j];
      assert Pieces(components[..j + 1]) == done + components[j] + Separator;
    }
    assert components[..|components|] == components;
  }

  /** The body of the inner loop (lines 63-64): a component, then the
      separator. */
  method AppendPiece(b: Buffer, component: string)
    requires b.Valid() && IsCString(component)
    modifies b, b.data
    ensures b.Valid() && b.Content() == old(b.Content()) + (component + Separator)
    ensures b.data == old(b.data) || fresh(b.data)
  {
    b.Append(component);
    b.Append(Separator);
  }
}
