/** What `splitFront` returns for whole documents: the shape of the token
    sequence, and front matter and body for documents without front
    matter, with an unterminated block, and with a closed block. */
module Extraction {
  import opened Bytes
  import opened Front

  /** A buffer that does not open with the delimiter is a single token. */
  lemma TokensOfFlush(m: Matter, data: bytes)
    requires m.Valid() && |data| > 0 && !Opens(m.delim, data)
    ensures Tokens(m, data) == [data]
  {
    SplitFlush(m, data, false);
  }

  /** An opened block without a closing delimiter is a single token. */
  lemma TokensOfUnterminated(m: Matter, data: bytes)
    requires m.Valid() && Opens(m.delim, data)
    requires forall k :: !ClosesAt(m.delim, data, k)
    ensures Tokens(m, data) == [data]
  {
    SplitUnterminated(m, data, false);
  }

  /** A block closed at `k` is the first token; the remaining tokens are
      those of the rest, which starts with the closing delimiter. */
  lemma TokensOfDelimited(m: Matter, data: bytes, k: int)
    requires m.Valid() && Opens(m.delim, data) && ClosesAt(m.delim, data, k)
    ensures Tokens(m, data) == [data[..k]] + Tokens(m, data[k..])
    ensures HasPrefix(data[k..], m.delim)
  {
    SplitDelimited(m, data, false, k);
  }

  /** Input that starts with the delimiter yields a first token that does too. */
  lemma FirstTokenLed(m: Matter, data: bytes)
    requires m.Valid() && HasPrefix(data, m.delim)
    ensures |Tokens(m, data)| > 0 && HasPrefix(Tokens(m, data)[0], m.delim)
  {
    if !Opens(m.delim, data) {
      TokensOfFlush(m, data);
    } else if k :| ClosesAt(m.delim, data, k) {
      TokensOfDelimited(m, data, k);
      assert data[..k][..3] == data[..3];
    } else {
      TokensOfUnterminated(m, data);
    }
  }

  /** No leading delimiter: no front matter, `ErrIsEmpty`, and the whole
      input, trimmed, is the body (the empty string for empty input). */
  lemma ExtractNoFront(m: Matter, input: bytes)
    requires m.Valid() && !HasPrefix(input, m.delim)
    ensures Extract(m, input) == Extracted([], TrimSpace(input), Some(IsEmpty))
  {
    if |input| > 0 {
      TokensOfFlush(m, input);
      assert BodyFrom(m.delim, [input], 0) == input;
    }
  }

  /** The delimiter and nothing to close it: the trimmed remainder is the
      front-matter candidate, the body is empty, and `ErrIsEmpty` is
      returned exactly when the candidate is shorter than three bytes. */
  lemma ExtractUnterminated(m: Matter, input: bytes)
    requires m.Valid() && HasPrefix(input, m.delim)
    requires forall k :: !ClosesAt(m.delim, input, k)
    ensures var front := TrimSpace(input[3..]);
      Extract(m, input) == Extracted(front, [], if |front| < 3 then Some(IsEmpty) else None)
  {
    if Opens(m.delim, input) {
      TokensOfUnterminated(m, input);
    } else {
      TokensOfFlush(m, input);
    }
    assert BodyFrom(m.delim, [input], 0) == [];
  }

  /** The body contributions of the tokens after a closed block are the bytes
      after the closing delimiter. */
  lemma BodyAfterClose(m: Matter, rest: bytes)
    requires m.Valid()
    ensures BodyFrom(m.delim, Tokens(m, m.delim + rest), 1) == rest
  {
    var data := m.delim + rest;
    assert HasPrefix(data, m.delim);
    FirstTokenLed(m, data);
    var toks := Tokens(m, data);
    BodyFromVerbatim(m.delim, toks[1..], 2);
    assert Concat(toks) == toks[0] + Concat(toks[1..]);
    assert toks[0] == m.delim + toks[0][3..];
  }

  /** A document `delim + mid + delim + rest` whose first closing delimiter
      is the one after `mid` (so `mid` is not empty and holds no delimiter):
      the front matter is `mid` trimmed and the body is `rest` trimmed, with
      every later delimiter in `rest` kept verbatim. */
  lemma {:induction false} ExtractDelimited(m: Matter, mid: bytes, rest: bytes)
    requires m.Valid() && |mid| > 0
    requires forall j :: 3 <= j < 3 + |mid| ==> !OccursAt(m.delim + mid + m.delim + rest, m.delim, j)
    ensures var front := TrimSpace(mid);
      Extract(m, m.delim + mid + m.delim + rest) ==
      Extracted(front, TrimSpace(rest), if |front| < 3 then Some(IsEmpty) else None)
  {
    var input := m.delim + mid + m.delim + rest;
    var k := 3 + |mid|;
    assert input[..3] == m.delim;
    assert input[k..k + 3] == m.delim;
    assert ClosesAt(m.delim, input, k);
    TokensOfDelimited(m, input, k);
    assert input[..k] == m.delim + mid;
    assert input[k..] == m.delim + rest;
    assert (m.delim + mid)[3..] == mid;
    var later := Tokens(m, m.delim + rest);
    assert Tokens(m, input) == [m.delim + mid] + later;
    BodyAfterClose(m, rest);
    assert BodyFrom(m.delim, [m.delim + mid] + later, 0) == BodyFrom(m.delim, later, 1);
  }
}
