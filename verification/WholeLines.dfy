/**
 When slices that are whole lines merge well: two of them, and a whole file
 (internal/adapters/contextretrieval/exact.go, `wholeSpan`) with anything cut from it (golang.go).
 */
module WholeLines {
  import opened Wrappers
  import opened Evidence
  import opened SpanMerge
  import opened SliceMerge
  import opened SliceFamilies

  ghost predicate StandsAt(bytes: string, p: int, line: int, text: string) {
    HoldsAt(bytes, p, text) && LineAt(bytes, p) == line
  }

  lemma TextIsLaid(text: Text)
    requires text.Valid()
    ensures Laid(text.Bytes(), 0, 1, text.lines, text.terminated)
  {
    assert text.Bytes()[..0] == "";
  }

  /** A whole line occurs once on its line. */
  lemma WholeLineIsUnique(bytes: string, q: int, line: int, xs: seq<string>, ended: bool, k: nat, p: int)
    requires Laid(bytes, q, line, xs, ended) && |bytes| == q + Size(xs, ended)
    requires (k == 0 ==> q == 0) && (k > 0 ==> 0 < q && bytes[q - 1] == '\n')
    requires StandsAt(bytes, p, line, xs[0])
    ensures p == q
  {
    StartsLater(bytes, q, k, p);
    if q < p {
      FirstLineHolds(bytes, q, line, xs, ended);
      FirstLine(xs, ended);
      NothingFollows(bytes, q, p, xs[0], AfterFirst(xs, ended));
    }
  }

  // ---------- quotations ----------

  lemma QuotationIsSlice(text: Text, span: Span, content: string)
    requires text.Valid() && Quotes(text, span, content)
    ensures IsSlice(text.Bytes(), span, content)
  {
    var k := span.startLine - 1;
    QuotesMatchSlice(text, span, content);
    TextIsLaid(text);
    LaidParts(text.Bytes(), 0, 1, text.lines, text.terminated, k, Offset(text.lines, k), Head(text.lines, k),
              text.lines[k..]);
  }

  /** Two quotations of one document merge well exactly if the union does not get a newline that
      the document lacks. */
  lemma QuotationsMergeWell(text: Text, a: Candidate, b: Candidate)
    requires text.Valid() && Quotes(text, a.span, a.content) && Quotes(text, b.span, b.content)
    requires Overlap(a.span, b.span)
    ensures MergeWell(a, b) <==> !Overshoots(text, a.span, b.span)
  {
    QuotationIsSlice(text, a.span, a.content);
    QuotationIsSlice(text, b.span, b.content);
    OvershootingIsStale(text, a, b);
    MergeIsLiveExactly(text.Bytes(), a, b);
  }

  // ---------- a whole file ----------

  ghost predicate QuotesAll(text: Text, c: Candidate) {
    Quotes(text, c.span, c.content) && c.span.startLine == 1 && c.span.endLine == |text.lines|
  }

  /** Nothing goes further than a file that ends in a newline and ends before that newline. */
  lemma {:induction false} NothingGoesFurther(bytes: string, q: int, xs: seq<string>, y: seq<string>, ended: bool,
                                              content: string)
    requires xs != [] && xs < y && q >= 0 && |bytes| == q + Size(xs, true) && EndsInNewline(bytes)
    requires HoldsAt(bytes, q, content) && content == Join(y) + Newline(ended)
    ensures EndsInNewline(content)
  {
    JoinGrows(xs, y);
    assert |content| == |bytes| - q;
  }

  /** What ends in a newline ends before a file that does not. */
  lemma {:induction false} NewlineComesBefore(bytes: string, q: int, xs: seq<string>, y: seq<string>, content: string)
    requires xs != [] && y != [] && (xs <= y || y <= xs) && q >= 0 && |bytes| == q + Size(xs, false)
    requires HoldsAt(bytes, q, content) && content == Join(y) + Newline(true)
    ensures |y| < |xs|
  {
    if xs <= y { JoinNoShorter(xs, y); }
  }

  lemma {:induction false} JoinNoShorter(short: seq<string>, long: seq<string>)
    requires short != [] && short <= long
    ensures |Join(short)| <= |Join(long)|
  {
    if short < long {
      JoinGrows(short, long);
    } else {
      assert short == long;
    }
  }

  lemma FileLines(text: Text, whole: Candidate)
    requires text.Valid() && QuotesAll(text, whole)
    ensures Pieces(whole.content) == text.lines && (EndsInNewline(whole.content) <==> text.terminated)
    ensures whole.span.startByte == 0 && |text.Bytes()| == Size(text.lines, text.terminated)
    ensures text.terminated ==> EndsInNewline(text.Bytes())
  {
    LinesOfQuotation(text, whole.span, whole.content);
    assert text.lines[0..|text.lines|] == text.lines;
  }

  lemma FileMergesInOrder(text: Text, whole: Candidate, c: Candidate, y: seq<string>, j: nat, content: string,
                          aligned: bool)
    requires text.Valid() && QuotesAll(text, whole) && y == Pieces(c.content)
    requires Ready(text.Bytes(), whole, c, text.lines, y, j, content, aligned)
    requires SliceMatches(text.Bytes(), c.span, c.content)
    ensures aligned && (NewlineTooMany(whole, c) <==> !text.terminated && EndsInNewline(c.content))
  {
    var bytes, x := text.Bytes(), text.lines;
    FileLines(text, whole);
    FileIsAligned(bytes, text.terminated, whole, c, x, y, j, content, aligned);
    PiecesFacts(c.content);
    if text.terminated && c.span.endLine > whole.span.endLine {
      NothingGoesFurther(bytes, c.span.startByte, x[j..], y, EndsInNewline(c.content), c.content);
    }
    if !text.terminated && EndsInNewline(c.content) {
      NewlineComesBefore(bytes, c.span.startByte, x[j..], y, c.content);
    }
  }

  lemma FileIsAligned(bytes: string, ended: bool, whole: Candidate, c: Candidate, x: seq<string>, y: seq<string>,
                      j: nat, content: string, aligned: bool)
    requires Ready(bytes, whole, c, x, y, j, content, aligned) && |bytes| == Size(x, ended)
    requires whole.span.startByte == 0 && whole.span.startLine == 1 && (EndsInNewline(whole.content) <==> ended)
    ensures aligned && |bytes| == c.span.startByte + Size(x[j..], ended)
  {
    var q, head, xs := Offset(x, j), Head(x, j), x[j..];
    LaidParts(bytes, 0, 1, x, ended, j, q, head, xs);
    FirstLineHolds(bytes, c.span.startByte, c.span.startLine, y, EndsInNewline(c.content));
    WholeLineIsUnique(bytes, q, 1 + j, xs, ended, j, c.span.startByte);
  }

  /** A whole file merges well with every live slice of it that it merges with, except, exactly, with
      those that end in a newline if the file does not. */
  lemma FileMergesWell(text: Text, whole: Candidate, c: Candidate)
    requires text.Valid() && QuotesAll(text, whole) && IsSlice(text.Bytes(), c.span, c.content)
    requires Merged(whole, c).Some?
    ensures MergeWell(whole, c) <==> text.terminated || !EndsInNewline(c.content)
    ensures MergeWell(c, whole) <==> text.terminated || !EndsInNewline(c.content)
  {
    FileLines(text, whole);
    if !(whole.span == c.span && whole.content == c.content) {
      var x, y, j := Pieces(whole.content), Pieces(c.content), c.span.startLine - 1;
      QuotationIsSlice(text, whole.span, whole.content);
      GetReady(text.Bytes(), whole, c, x, y, j, Merged(whole, c).value.content, Aligned(whole, c));
      FileMergesInOrder(text, whole, c, y, j, Merged(whole, c).value.content, Aligned(whole, c));
    }
    MergeIsSymmetric(whole, c);
  }
}
