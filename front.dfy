/** The front-matter splitter of `front.go`: the tokenizer step `split`
    (with `sniffDelim`), the token sequence a `bufio.Scanner` produces by
    driving it over an in-memory input, and the classification of those
    tokens into front-matter text and body text done by `splitFront`. */
module Front {
  import opened Bytes

  datatype Option<T> = None | Some(value: T)

  datatype Result<T> = Success(value: T) | Failure(error: Error)

  /** The errors the package returns: its sentinel `ErrIsEmpty`, and the
      errors the JSON and YAML libraries report, carried as their message. */
  datatype Error = IsEmpty | Library(message: string)

  /** `Matter`: a splitter bound to one delimiter. */
  datatype Matter = Matter(delim: bytes) {
    /** Delimiters are exactly three bytes long; `sniffDelim` compares three
        bytes and the classifier strips three. */
    predicate Valid() {
      |delim| == 3
    }
  }

  /** What one step of a `bufio.SplitFunc` returns: how many bytes to consume
      and the token, if any (the `err` result of `split` is always nil). */
  datatype Step = Step(advance: int, token: Option<bytes>)

  /** `sniffDelim`: the first three bytes of the buffer, but only once at
      least four bytes are buffered. */
  function SniffDelim(input: bytes): (r: Result<bytes>)
    ensures r.Success? <==> |input| >= 4
    ensures r.Success? ==> |r.value| == 3 && HasPrefix(input, r.value)
    ensures r.Failure? ==> r.error == IsEmpty
  {
    if |input| < 4 then Failure(IsEmpty) else Success(input[..3])
  }

  /** The buffer opens with the delimiter, as `split` can tell. */
  predicate Opens(delim: bytes, data: bytes) {
    |data| >= 4 && HasPrefix(data, delim)
  }

  /** `k` is where the closing delimiter starts: the first occurrence of the
      delimiter after the opening one, provided it does not follow that one
      immediately. */
  predicate ClosesAt(delim: bytes, data: bytes, k: int) {
    k > 3 && OccursAt(data, delim, k) &&
    forall j :: 3 <= j < k ==> !OccursAt(data, delim, j)
  }

  /** `Matter.split`: one tokenizer step over the buffered `data`. */
  function Split(m: Matter, data: bytes, atEOF: bool): (r: Step)
    requires m.Valid()
    ensures r.token.None? <==> atEOF && |data| == 0
    ensures r.token.None? ==> r.advance == 0
    ensures r.token.Some? ==> r.advance == |r.token.value| <= |data| && r.token.value == data[..r.advance]
    ensures 0 <= r.advance <= |data|
    ensures |data| > 0 ==> r.advance > 0
  {
    if atEOF && |data| == 0 then Step(0, None)
    else
      var sniffed := SniffDelim(data);
      if sniffed.Failure? || sniffed.value != m.delim then Step(|data|, Some(data))
      else
        var x := Index(data, m.delim);
        if x >= 0 then
          var next := Index(data[x + |m.delim|..], m.delim);
          if next > 0 then Step(next + |m.delim|, Some(data[..next + |m.delim|]))
          else Step(|data|, Some(data))
        else if atEOF then Step(|data|, Some(data))
        else Step(0, None)
  }

  /** Flush rule: a buffer that does not open with the delimiter (fewer than
      four bytes, or a different first three) is one token, fully consumed. */
  lemma SplitFlush(m: Matter, data: bytes, atEOF: bool)
    requires m.Valid() && |data| > 0 && !Opens(m.delim, data)
    ensures Split(m, data, atEOF) == Step(|data|, Some(data))
  {
  }

  /** Delimited rule: a buffer that opens with the delimiter and closes it at
      `k` yields the token `data[..k]`, and what is left starts with the
      closing delimiter. */
  lemma {:induction false} SplitDelimited(m: Matter, data: bytes, atEOF: bool, k: int)
    requires m.Valid() && Opens(m.delim, data) && ClosesAt(m.delim, data, k)
    ensures Split(m, data, atEOF) == Step(k, Some(data[..k]))
    ensures HasPrefix(data[k..], m.delim)
  {
    assert Index(data, m.delim) == 0;
    OccursShift(data, m.delim, 3);
    var next := Index(data[3..], m.delim);
    assert OccursAt(data[3..], m.delim, k - 3);
    assert OccursAt(data, m.delim, next + 3);
    assert data[k..][..3] == data[k..k + 3];
  }

  /** Unterminated rule: a buffer that opens with the delimiter but has no
      closing one (none at all, or only one right after the opening) is one
      token, fully consumed, whether or not more input may follow. */
  lemma {:induction false} SplitUnterminated(m: Matter, data: bytes, atEOF: bool)
    requires m.Valid() && Opens(m.delim, data)
    requires forall k :: !ClosesAt(m.delim, data, k)
    ensures Split(m, data, atEOF) == Step(|data|, Some(data))
  {
    assert Index(data, m.delim) == 0;
    OccursShift(data, m.delim, 3);
    var next := Index(data[3..], m.delim);
    if next > 0 {
      assert ClosesAt(m.delim, data, next + 3);
    }
  }

  /** Apart from the empty buffer, the step does not depend on `atEOF`:
      it never asks for more input. */
  lemma SplitIgnoresEOF(m: Matter, data: bytes)
    requires m.Valid() && |data| > 0
    ensures Split(m, data, true) == Split(m, data, false)
    ensures Split(m, data, false).token.Some?
  {
  }

  /** The tokens a `bufio.Scanner` yields when it drives `split` over an
      input held entirely in its buffer: `atEOF` is false while bytes remain,
      and the scan ends at the empty buffer. */
  function Tokens(m: Matter, data: bytes): (r: seq<bytes>)
    requires m.Valid()
    ensures forall i :: 0 <= i < |r| ==> |r[i]| > 0
    ensures Concat(r) == data
    decreases |data|
  {
    if |data| == 0 then []
    else
      var st := Split(m, data, false);
      var t := st.token.value;
      var rest := Tokens(m, data[st.advance..]);
      assert data == t + data[st.advance..];
      [t] + rest
  }

  /** The tokens joined in order. */
  function Concat(toks: seq<bytes>): bytes {
    if toks == [] then [] else toks[0] + Concat(toks[1..])
  }

  lemma {:induction false} ConcatSnoc(toks: seq<bytes>, t: bytes)
    ensures Concat(toks + [t]) == Concat(toks) + t
  {
    if toks != [] {
      assert (toks + [t])[1..] == toks[1..] + [t];
      ConcatSnoc(toks[1..], t);
    }
  }

  /** What the token at index `n` adds to the body: nothing for an opening
      token 0, the token without its leading delimiter for a delimiter-led
      token 1, the whole token otherwise. */
  function Contribution(delim: bytes, n: nat, text: bytes): bytes
    requires |delim| == 3
  {
    if n == 0 && HasPrefix(text, delim) then []
    else if n == 1 && HasPrefix(text, delim) then text[3..]
    else text
  }

  /** The body contributions of `toks`, the first of which has index `n`. */
  function BodyFrom(delim: bytes, toks: seq<bytes>, n: nat): bytes
    requires |delim| == 3
  {
    if toks == [] then [] else Contribution(delim, n, toks[0]) + BodyFrom(delim, toks[1..], n + 1)
  }

  lemma {:induction false} BodyFromSnoc(delim: bytes, toks: seq<bytes>, n: nat, t: bytes)
    requires |delim| == 3
    ensures BodyFrom(delim, toks + [t], n) == BodyFrom(delim, toks, n) + Contribution(delim, n + |toks|, t)
  {
    if toks != [] {
      assert (toks + [t])[1..] == toks[1..] + [t];
      BodyFromSnoc(delim, toks[1..], n + 1, t);
    }
  }

  /** From index 2 on, every token goes to the body verbatim. */
  lemma {:induction false} BodyFromVerbatim(delim: bytes, toks: seq<bytes>, n: nat)
    requires |delim| == 3 && n >= 2
    ensures BodyFrom(delim, toks, n) == Concat(toks)
  {
    if toks != [] {
      BodyFromVerbatim(delim, toks[1..], n + 1);
    }
  }

  /** The front-matter candidate: token 0 without its delimiter, trimmed,
      when token 0 is delimiter-led; empty otherwise. */
  function FrontText(delim: bytes, toks: seq<bytes>): bytes
    requires |delim| == 3
  {
    if |toks| > 0 && HasPrefix(toks[0], delim) then TrimSpace(toks[0][3..]) else []
  }

  /** The three results of `splitFront`. */
  datatype Extracted = Extracted(front: bytes, body: bytes, err: Option<Error>)

  /** The classification `splitFront` performs on the token sequence. */
  function Classify(delim: bytes, toks: seq<bytes>): (r: Extracted)
    requires |delim| == 3
    ensures r.err == Some(IsEmpty) <==> |r.front| < 3
    ensures r.err.None? || r.err == Some(IsEmpty)
    ensures |r.front| > 0 ==> !IsSpace(r.front[0]) && !IsSpace(r.front[|r.front| - 1])
    ensures |r.body| > 0 ==> !IsSpace(r.body[0]) && !IsSpace(r.body[|r.body| - 1])
  {
    var front := FrontText(delim, toks);
    Extracted(front, TrimSpace(BodyFrom(delim, toks, 0)), if |front| < 3 then Some(IsEmpty) else None)
  }

  /** What `splitFront` returns for a whole input. */
  function Extract(m: Matter, input: bytes): Extracted
    requires m.Valid()
  {
    Classify(m.delim, Tokens(m, input))
  }

  /** One scan step keeps the loop invariant of `SplitFront`: the token
      sequence still to come loses its first token... */
  lemma ScanTokens(m: Matter, input: bytes, toks: seq<bytes>, rest: bytes, text: bytes, advance: int)
    requires m.Valid() && |rest| > 0
    requires Split(m, rest, false) == Step(advance, Some(text))
    requires Tokens(m, input) == toks + Tokens(m, rest)
    ensures Tokens(m, input) == (toks + [text]) + Tokens(m, rest[advance..])
  {
    assert Tokens(m, rest) == [text] + Tokens(m, rest[advance..]);
  }

  /** ... the consumed bytes grow by that token... */
  lemma ScanConcat(toks: seq<bytes>, rest: bytes, text: bytes, advance: int, input: bytes)
    requires 0 <= advance <= |rest| && text == rest[..advance]
    requires Concat(toks) + rest == input
    ensures Concat(toks + [text]) + rest[advance..] == input
  {
    ConcatSnoc(toks, text);
    assert rest == text + rest[advance..];
  }

  /** ... and the front-matter candidate and the body follow the token's
      classification. */
  lemma ScanClassify(delim: bytes, toks: seq<bytes>, text: bytes)
    requires |delim| == 3
    ensures FrontText(delim, toks + [text]) ==
      if toks == [] && HasPrefix(text, delim) then TrimSpace(text[3..]) else FrontText(delim, toks)
    ensures BodyFrom(delim, toks + [text], 0) == BodyFrom(delim, toks, 0) + Contribution(delim, |toks|, text)
  {
    BodyFromSnoc(delim, toks, 0, text);
    if toks != [] {
      assert (toks + [text])[0] == toks[0];
    }
  }

  /** `Matter.splitFront`: scan the input token by token, counting tokens in
      `n`, keeping the front-matter candidate and accumulating the body. */
  method SplitFront(m: Matter, input: bytes) returns (front: bytes, body: bytes, err: Option<Error>)
    requires m.Valid()
    ensures Extracted(front, body, err) == Extract(m, input)
    ensures err == Some(IsEmpty) <==> |front| < 3
  {
    var rest := input;
    var builder: bytes := [];
    var n := 0;
    front := [];
    ghost var toks: seq<bytes> := [];
    while true
      invariant n == |toks|
      invariant Tokens(m, input) == toks + Tokens(m, rest)
      invariant Concat(toks) + rest == input
      invariant front == FrontText(m.delim, toks)
      invariant builder == BodyFrom(m.delim, toks, 0)
      decreases |rest|
    {
      var st := Split(m, rest, rest == []);
      if st.token.None? {
        break;
      }
      assert st == Split(m, rest, false);
      var text := st.token.value;
      assert Tokens(m, rest) == [text] + Tokens(m, rest[st.advance..]);
      var hasDelim := HasPrefix(text, m.delim);
      ScanTokens(m, input, toks, rest, text, st.advance);
      ScanConcat(toks, rest, text, st.advance, input);
      ScanClassify(m.delim, toks, text);
      if n == 0 && hasDelim {
        front := TrimSpace(text[3..]);
      } else if n == 1 && hasDelim {
        builder := builder + text[3..];
      } else {
        builder := builder + text;
      }
      n := n + 1;
      toks := toks + [text];
      rest := rest[st.advance..];
    }
    assert Tokens(m, input) == toks;
    body := TrimSpace(builder);
    if |front| < 3 {
      err := Some(IsEmpty);
    } else {
      err := None;
    }
  }
}
