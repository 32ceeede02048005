/** Byte strings and the few operations of Go's `bytes` and `strings`
    packages that the splitter relies on: prefix test, first-occurrence
    search and whitespace trimming. Go strings are byte strings, so both
    packages are modelled over the same type. */
module Bytes {

  newtype byte = x: int | 0 <= x < 256

  type bytes = seq<byte>

  /** The ASCII white-space bytes trimmed by `strings.TrimSpace`:
      tab, newline, vertical tab, form feed, carriage return and space. */
  predicate IsSpace(b: byte) {
    (9 <= b <= 13) || b == 32
  }

  predicate AllSpace(s: bytes) {
    forall i :: 0 <= i < |s| ==> IsSpace(s[i])
  }

  /** `strings.HasPrefix(s, p)`. */
  predicate HasPrefix(s: bytes, p: bytes) {
    |p| <= |s| && s[..|p|] == p
  }

  /** `p` occurs in `s` starting at offset `j`. */
  predicate OccursAt(s: bytes, p: bytes, j: int) {
    0 <= j && j + |p| <= |s| && s[j..j + |p|] == p
  }

  /** `bytes.Index(s, p)`: the offset of the first occurrence of `p` in `s`,
      or -1 when there is none. */
  function Index(s: bytes, p: bytes): (r: int)
    ensures -1 <= r
    ensures r >= 0 ==> OccursAt(s, p, r)
    ensures r >= 0 ==> forall j :: 0 <= j < r ==> !OccursAt(s, p, j)
    ensures r == -1 ==> forall j :: 0 <= j ==> !OccursAt(s, p, j)
    decreases |s|
  {
    if |s| < |p| then -1
    else if s[..|p|] == p then 0
    else
      var i := Index(s[1..], p);
      OccursShift(s, p, 1);
      if i < 0 then -1 else i + 1
  }

  /** Occurrences in a suffix are occurrences in the whole, shifted. */
  lemma OccursShift(s: bytes, p: bytes, k: nat)
    requires k <= |s|
    ensures forall j :: k <= j ==> (OccursAt(s, p, j) <==> OccursAt(s[k..], p, j - k))
  {
    forall j | k <= j
      ensures OccursAt(s, p, j) <==> OccursAt(s[k..], p, j - k)
    {
      if j + |p| <= |s| {
        assert s[k..][j - k..j - k + |p|] == s[j..j + |p|];
      }
    }
  }

  /** `strings.TrimLeft` over `IsSpace`. */
  function TrimLeft(s: bytes): (r: bytes)
    ensures |r| <= |s| && r == s[|s| - |r|..]
    ensures AllSpace(s[..|s| - |r|])
    ensures |r| > 0 ==> !IsSpace(r[0])
    decreases |s|
  {
    if |s| > 0 && IsSpace(s[0]) then TrimLeft(s[1..]) else s
  }

  /** `strings.TrimRight` over `IsSpace`. */
  function TrimRight(s: bytes): (r: bytes)
    ensures |r| <= |s| && r == s[..|r|]
    ensures AllSpace(s[|r|..])
    ensures |r| > 0 ==> !IsSpace(r[|r| - 1])
    decreases |s|
  {
    if |s| > 0 && IsSpace(s[|s| - 1]) then TrimRight(s[..|s| - 1]) else s
  }

  /** `strings.TrimSpace` / `bytes.TrimSpace`, restricted to ASCII white space. */
  function TrimSpace(s: bytes): (r: bytes)
    ensures |r| <= |s|
    ensures |r| > 0 ==> !IsSpace(r[0]) && !IsSpace(r[|r| - 1])
    ensures AllSpace(s) ==> r == []
  {
    TrimRight(TrimLeft(s))
  }

  /** What `TrimSpace` removes is white space at both ends and nothing else:
      the result is the slice `s[a..a + |TrimSpace(s)|]` and everything
      outside it is white space. */
  lemma TrimSpaceIsSlice(s: bytes) returns (a: nat)
    ensures a + |TrimSpace(s)| <= |s| && TrimSpace(s) == s[a..a + |TrimSpace(s)|]
    ensures AllSpace(s[..a]) && AllSpace(s[a + |TrimSpace(s)|..])
  {
    var l := TrimLeft(s);
    var r := TrimRight(l);
    a := |s| - |l|;
    assert l == s[a..];
    assert r == l[..|r|];
    assert s[a..a + |r|] == s[a..][..|r|];
    assert s[a + |r|..] == s[a..][|r|..];
  }

  /** A string without white space at either end is left as it is. */
  lemma {:induction false} TrimSpaceOfTrimmed(s: bytes)
    requires |s| > 0 ==> !IsSpace(s[0]) && !IsSpace(s[|s| - 1])
    ensures TrimSpace(s) == s
  {
  }

  /** Trimming twice is trimming once. */
  lemma TrimSpaceIdempotent(s: bytes)
    ensures TrimSpace(TrimSpace(s)) == TrimSpace(s)
  {
    TrimSpaceOfTrimmed(TrimSpace(s));
  }
}
