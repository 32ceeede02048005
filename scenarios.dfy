/** Worked documents for the delimiter `+++`, written as byte displays
    (the text of each is given beside it). */
module Scenarios {
  import opened Bytes
  import opened Front
  import opened Extraction

  /** `+++` */
  const Plus: Matter := Matter([43, 43, 43])

  /** `"\ntitle: Hello\n"` */
  const TitleBlock: bytes := [10, 116, 105, 116, 108, 101, 58, 32, 72, 101, 108, 108, 111, 10]

  /** `"\n# Body\n"` */
  const BodyText: bytes := [10, 35, 32, 66, 111, 100, 121, 10]

  lemma TitleBlockTrims()
    ensures TrimSpace(TitleBlock) == [116, 105, 116, 108, 101, 58, 32, 72, 101, 108, 108, 111]
  {
    assert TrimLeft(TitleBlock[1..]) == TitleBlock[1..];
    assert TitleBlock[1..][..|TitleBlock| - 2] == [116, 105, 116, 108, 101, 58, 32, 72, 101, 108, 108, 111];
  }

  lemma BodyTextTrims()
    ensures TrimSpace(BodyText) == [35, 32, 66, 111, 100, 121]
  {
    assert TrimLeft(BodyText[1..]) == BodyText[1..];
    assert BodyText[1..][..|BodyText| - 2] == [35, 32, 66, 111, 100, 121];
  }

  /** The title block holds no `+++`, so the first closing delimiter is the
      one after it. */
  lemma TitleBlockHasNoDelim(rest: bytes)
    ensures forall j :: 3 <= j < 3 + |TitleBlock| ==> !OccursAt(Plus.delim + TitleBlock + Plus.delim + rest, Plus.delim, j)
  {
    var input := Plus.delim + TitleBlock + Plus.delim + rest;
    forall j | 3 <= j < 3 + |TitleBlock| ensures !OccursAt(input, Plus.delim, j) {
      assert input[j] != 43 || input[j + 1] != 43;
    }
  }

  /** `"+++\ntitle: Hello\n+++\n# Body\n"`: front matter `title: Hello`,
      body `# Body`, no error. */
  lemma TitleAndBody()
    ensures Plus.Valid()
    ensures Extract(Plus, Plus.delim + TitleBlock + Plus.delim + BodyText) ==
      Extracted([116, 105, 116, 108, 101, 58, 32, 72, 101, 108, 108, 111], [35, 32, 66, 111, 100, 121], None)
  {
    TitleBlockHasNoDelim(BodyText);
    ExtractDelimited(Plus, TitleBlock, BodyText);
    TitleBlockTrims();
    BodyTextTrims();
  }

  /** The empty document: `ErrIsEmpty` and an empty body. */
  lemma EmptyDocument()
    ensures Plus.Valid()
    ensures Extract(Plus, []) == Extracted([], [], Some(IsEmpty))
  {
    ExtractNoFront(Plus, []);
  }

  /** `"# Just body\n"`: no front matter, `ErrIsEmpty`, body `# Just body`. */
  lemma JustBody()
    ensures Plus.Valid()
    ensures Extract(Plus, [35, 32, 74, 117, 115, 116, 32, 98, 111, 100, 121, 10]) == Extracted([], [35, 32, 74, 117, 115, 116, 32, 98, 111, 100, 121], Some(IsEmpty))
  {
    var input: bytes := [35, 32, 74, 117, 115, 116, 32, 98, 111, 100, 121, 10];
    assert input[..3] != Plus.delim by {
      assert input[0] != Plus.delim[0];
    }
    ExtractNoFront(Plus, input);
    assert TrimLeft(input) == input;
    assert input[..|input| - 1] == [35, 32, 74, 117, 115, 116, 32, 98, 111, 100, 121];
  }

  /** `"\nx\n+++\ny: 2\n+++\n"` */
  const LaterBlocks: bytes := [10, 120, 10, 43, 43, 43, 10, 121, 58, 32, 50, 10, 43, 43, 43, 10]

  lemma LaterBlocksTrims()
    ensures TrimSpace(LaterBlocks) == [120, 10, 43, 43, 43, 10, 121, 58, 32, 50, 10, 43, 43, 43]
  {
    assert TrimLeft(LaterBlocks[1..]) == LaterBlocks[1..];
    assert LaterBlocks[1..][..|LaterBlocks| - 2] == [120, 10, 43, 43, 43, 10, 121, 58, 32, 50, 10, 43, 43, 43];
  }

  /** Only the first pair of delimiters bounds front matter: for
      `"+++\ntitle: Hello\n+++\nx\n+++\ny: 2\n+++\n"` the second block,
      delimiters included, is body text. */
  lemma SecondBlockIsBody()
    ensures Plus.Valid()
    ensures Extract(Plus, Plus.delim + TitleBlock + Plus.delim + LaterBlocks) ==
      Extracted([116, 105, 116, 108, 101, 58, 32, 72, 101, 108, 108, 111], [120, 10, 43, 43, 43, 10, 121, 58, 32, 50, 10, 43, 43, 43], None)
  {
    TitleBlockHasNoDelim(LaterBlocks);
    ExtractDelimited(Plus, TitleBlock, LaterBlocks);
    TitleBlockTrims();
    LaterBlocksTrims();
  }

  /** `"\nbody"` */
  const AfterEmpty: bytes := [10, 98, 111, 100, 121]

  lemma AfterEmptyTrims()
    ensures TrimSpace(AfterEmpty) == [98, 111, 100, 121]
  {
    assert TrimLeft(AfterEmpty) == AfterEmpty[1..];
  }

  /** `"+++\n+++\nbody"`: an empty block between two delimiters gives an
      empty candidate, so `ErrIsEmpty`, with the body still returned. */
  lemma EmptyBlock()
    ensures Plus.Valid()
    ensures Extract(Plus, Plus.delim + [10] + Plus.delim + AfterEmpty) == Extracted([], [98, 111, 100, 121], Some(IsEmpty))
  {
    var input := Plus.delim + [10] + Plus.delim + AfterEmpty;
    assert input[3] == 10;
    ExtractDelimited(Plus, [10], AfterEmpty);
    AfterEmptyTrims();
  }

  /** `"++++++\nbody"`: a closing delimiter right after the opening one is
      not recognised (`split` accepts only a later one), so the whole input
      is a single token and everything after the first three bytes, trimmed,
      becomes the front-matter candidate; the body is empty. */
  lemma AdjacentDelimiters()
    ensures Plus.Valid()
    ensures Extract(Plus, [43, 43, 43, 43, 43, 43, 10, 98, 111, 100, 121]) == Extracted([43, 43, 43, 10, 98, 111, 100, 121], [], None)
  {
    var input: bytes := [43, 43, 43, 43, 43, 43, 10, 98, 111, 100, 121];
    assert HasPrefix(input, Plus.delim);
    assert OccursAt(input, Plus.delim, 3) by {
      assert input[3..6] == Plus.delim;
    }
    ExtractUnterminated(Plus, input);
    TrimSpaceOfTrimmed(input[3..]);
  }
}
