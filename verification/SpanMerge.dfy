/**
 Merging of overlapping quotations and deduplication of evidence
 (internal/contextretrieval/quality.go, `qualityMergeSpans` and `qualityDeduplicate`).
 */
module SpanMerge {
  import opened Wrappers
  import opened Evidence

  predicate Overlap(a: Span, b: Span) {
    !(a.startLine > b.endLine || b.startLine > a.endLine)
  }

  predicate Within(line: int, s: Span) {
    s.startLine <= line <= s.endLine
  }

  function Height(s: Span): int {
    s.endLine - s.startLine + 1
  }

  function Min(x: int, y: int): int {
    if y < x then y else x
  }

  function Max(x: int, y: int): int {
    if y > x then y else x
  }

  function Union(a: Span, b: Span): Span {
    Span(Min(a.startLine, b.startLine), Max(a.endLine, b.endLine), Min(a.startByte, b.startByte),
        Max(a.endByte, b.endByte))
  }

  /** The line of the union, from `a` where both have it. */
  function LineOf(aLines: seq<string>, a: Span, bLines: seq<string>, b: Span, line: int): string
    requires |aLines| == Height(a) && |bLines| == Height(b) && (Within(line, a) || Within(line, b))
  {
    if Within(line, a) then aLines[line - a.startLine] else bLines[line - b.startLine]
  }

  predicate AgreeAt(aLines: seq<string>, a: Span, bLines: seq<string>, b: Span, line: int)
    requires |aLines| == Height(a) && |bLines| == Height(b)
  {
    Within(line, a) && Within(line, b) ==> aLines[line - a.startLine] == bLines[line - b.startLine]
  }

  predicate AgreeTo(aLines: seq<string>, a: Span, bLines: seq<string>, b: Span, end: int)
    requires |aLines| == Height(a) && |bLines| == Height(b)
  {
    forall line | Union(a, b).startLine <= line < end :: AgreeAt(aLines, a, bLines, b, line)
  }

  function UnionLines(aLines: seq<string>, a: Span, bLines: seq<string>, b: Span): (r: seq<string>)
    requires |aLines| == Height(a) && |bLines| == Height(b) && Height(a) >= 1 && Height(b) >= 1 && Overlap(a, b)
    ensures |r| == Height(Union(a, b))
    ensures forall i | 0 <= i < |r| :: r[i] == LineOf(aLines, a, bLines, b, Union(a, b).startLine + i)
  {
    var u := Union(a, b);
    seq(Height(u), i requires 0 <= i < Height(u) => LineOf(aLines, a, bLines, b, u.startLine + i))
  }

  /** The part of the merge that works on lines; `newline` is appended at the end. */
  function MergeLines(aLines: seq<string>, a: Span, bLines: seq<string>, b: Span, newline: bool): Option<string>
    requires |aLines| >= 1 && |bLines| >= 1 && Overlap(a, b)
  {
    if |aLines| != Height(a) || |bLines| != Height(b) then None
    else if !AgreeTo(aLines, a, bLines, b, Union(a, b).endLine + 1) then None
    else Some(Join(UnionLines(aLines, a, bLines, b)) + if newline then "\n" else "")
  }

  function MergedContent(a: Span, aText: string, b: Span, bText: string): Option<string>
    requires Overlap(a, b)
  {
    if a == b && aText == bText then Some(aText)
    else MergeLines(Split(Chomp(aText)), a, Split(Chomp(bText)), b, EndsInNewline(aText) || EndsInNewline(bText))
  }

  /** The specification of `qualityMergeSpans`. */
  function Merged(a: Candidate, b: Candidate): Option<Candidate> {
    if !Overlap(a.span, b.span) then None
    else
      match MergedContent(a.span, a.content, b.span, b.content)
      case None => None
      case Some(content) => Some(a.(span := Union(a.span, b.span), content := content))
  }

  method MergeSpans(a: Candidate, b: Candidate) returns (r: Option<Candidate>)
    ensures r == Merged(a, b)
  {
    if a.span.startLine > b.span.endLine || b.span.startLine > a.span.endLine {
      return None;
    }
    if a.span == b.span && a.content == b.content {
      return Some(a);
    }
    var aLines, bLines := Split(Chomp(a.content)), Split(Chomp(b.content));
    var newline := EndsInNewline(a.content) || EndsInNewline(b.content);
    var content := MergeByLine(aLines, a.span, bLines, b.span, newline);
    r := match content case None => None case Some(text) => Some(a.(span := Union(a.span, b.span), content := text));
  }

  method MergeByLine(aLines: seq<string>, a: Span, bLines: seq<string>, b: Span, newline: bool)
    returns (r: Option<string>)
    requires |aLines| >= 1 && |bLines| >= 1 && Overlap(a, b)
    ensures r == MergeLines(aLines, a, bLines, b, newline)
  {
    if |aLines| != Height(a) || |bLines| != Height(b) {
      return None;
    }
    var start, end := Union(a, b).startLine, Union(a, b).endLine;
    var lines := [];
    for line := start to end + 1
      invariant |lines| == line - start
      invariant forall i | 0 <= i < |lines| :: lines[i] == LineOf(aLines, a, bLines, b, start + i)
      invariant AgreeTo(aLines, a, bLines, b, line)
    {
      if Within(line, a) && Within(line, b) && aLines[line - a.startLine] != bLines[line - b.startLine] {
        assert !AgreeAt(aLines, a, bLines, b, line);
        return None;
      }
      lines := lines + [LineOf(aLines, a, bLines, b, line)];
    }
    assert lines == UnionLines(aLines, a, bLines, b);
    r := Some(Join(lines) + if newline then "\n" else "");
  }

  // ---------- merging is exact ----------

  lemma {:induction false} OffsetsGrow(lines: seq<string>, j: nat, k: nat)
    requires j < k <= |lines|
    ensures Offset(lines, j) + |lines[k - 1]| + 1 <= Offset(lines, k)
  {
    if j < k - 1 { OffsetsGrow(lines, j, k - 1); }
  }

  lemma {:induction false} StartsGrow(lines: seq<string>, j: nat, k: nat)
    requires j <= |lines| && k <= |lines|
    ensures Offset(lines, Min(j, k)) == Min(Offset(lines, j), Offset(lines, k))
  {
    if j < k { OffsetsGrow(lines, j, k); }
    if k < j { OffsetsGrow(lines, k, j); }
  }

  lemma EndsGrow(text: Text, j: nat, k: nat)
    requires text.Valid() && 1 <= j <= |text.lines| && 1 <= k <= |text.lines|
    ensures EndOffset(text, Max(j, k)) == Max(EndOffset(text, j), EndOffset(text, k))
  {
    if j < k { OffsetsGrow(text.lines, j, k); }
    if k < j { OffsetsGrow(text.lines, k, j); }
  }

  predicate InText(text: Text, s: Span) {
    1 <= s.startLine <= s.endLine <= |text.lines|
  }

  function LinesIn(text: Text, s: Span): seq<string>
    requires InText(text, s)
  {
    text.lines[s.startLine - 1..s.endLine]
  }

  lemma UnionOfLines(text: Text, a: Span, b: Span)
    requires Overlap(a, b) && InText(text, a) && InText(text, b)
    ensures AgreeTo(LinesIn(text, a), a, LinesIn(text, b), b, Union(a, b).endLine + 1)
    ensures UnionLines(LinesIn(text, a), a, LinesIn(text, b), b) == LinesIn(text, Union(a, b))
  {
    var merged, whole := UnionLines(LinesIn(text, a), a, LinesIn(text, b), b), LinesIn(text, Union(a, b));
    forall i | 0 <= i < |whole| ensures merged[i] == whole[i] {
      assert whole[i] == text.lines[Union(a, b).startLine - 1 + i];
    }
  }

  /** The union ends in a last line without a newline, and one of the two spans ends before. */
  predicate Overshoots(text: Text, a: Span, b: Span) {
    !text.terminated && a.endLine != b.endLine && Max(a.endLine, b.endLine) == |text.lines|
  }

  lemma MergedLinesAreExact(text: Text, a: Span, b: Span)
    requires Overlap(a, b) && InText(text, a) && InText(text, b)
    ensures MergeLines(LinesIn(text, a), a, LinesIn(text, b), b, text.Ended(a.endLine) || text.Ended(b.endLine))
              == Some(TextWith(text, Union(a, b), Overshoots(text, a, b)))
  {
    UnionOfLines(text, a, b);
    var joined := Join(LinesIn(text, Union(a, b)));
    assert joined + "" + "\n" == joined + "\n" && joined + "\n" + "" == joined + "\n"
        && joined + "" + "" == joined + "";
  }

  lemma MergedContentIsExact(text: Text, a: Span, aText: string, b: Span, bText: string)
    requires text.Valid() && Overlap(a, b) && Quotes(text, a, aText) && Quotes(text, b, bText)
    ensures MergedContent(a, aText, b, bText) == Some(TextWith(text, Union(a, b), Overshoots(text, a, b)))
  {
    if a == b && aText == bText {
      assert aText + "" == aText;
    } else {
      LinesOfQuotation(text, a, aText);
      LinesOfQuotation(text, b, bText);
      MergedLinesAreExact(text, a, b);
    }
  }

  lemma UnionBytes(text: Text, a: Span, b: Span)
    requires text.Valid() && InText(text, a) && InText(text, b)
    requires a.startByte == Offset(text.lines, a.startLine - 1) && a.endByte == EndOffset(text, a.endLine)
    requires b.startByte == Offset(text.lines, b.startLine - 1) && b.endByte == EndOffset(text, b.endLine)
    ensures Union(a, b).startByte == Offset(text.lines, Union(a, b).startLine - 1)
    ensures Union(a, b).endByte == EndOffset(text, Union(a, b).endLine)
  {
    StartsGrow(text.lines, a.startLine - 1, b.startLine - 1);
    EndsGrow(text, a.endLine, b.endLine);
  }

  /** The text of lines of a document, with one newline too many if `tooLong`. */
  function TextWith(text: Text, span: Span, tooLong: bool): string
    requires InText(text, span)
  {
    SpanText(text, span.startLine, span.endLine) + if tooLong then "\n" else ""
  }

  lemma MergedHasContent(a: Candidate, b: Candidate, content: string)
    requires Overlap(a.span, b.span) && MergedContent(a.span, a.content, b.span, b.content) == Some(content)
    ensures Merged(a, b) == Some(a.(span := Union(a.span, b.span), content := content))
  {
  }

  /** Two overlapping quotations of one document always merge, into exactly the lines and bytes of
      the union; only if the union reaches an unterminated last line that one of them does not
      reach does the result carry one newline too many. */
  lemma MergeIsExact(text: Text, a: Candidate, b: Candidate)
    requires text.Valid() && Overlap(a.span, b.span)
    requires Quotes(text, a.span, a.content) && Quotes(text, b.span, b.content)
    ensures var u, tooLong := Union(a.span, b.span), Overshoots(text, a.span, b.span);
            && Merged(a, b) == Some(a.(span := u, content := TextWith(text, u, tooLong)))
            && (Quotes(text, u, TextWith(text, u, tooLong)) <==> !tooLong)
  {
    var u, tooLong := Union(a.span, b.span), Overshoots(text, a.span, b.span);
    MergedContentIsExact(text, a.span, a.content, b.span, b.content);
    MergedHasContent(a, b, TextWith(text, u, tooLong));
    UnionBytes(text, a.span, b.span);
    QuotesUnlessTooLong(text, u, TextWith(text, u, tooLong), tooLong);
  }

  lemma QuotesUnlessTooLong(text: Text, span: Span, content: string, tooLong: bool)
    requires InText(text, span)
    requires content == TextWith(text, span, tooLong)
    requires span.startByte == Offset(text.lines, span.startLine - 1) && span.endByte == EndOffset(text, span.endLine)
    ensures Quotes(text, span, content) <==> !tooLong
  {
    var exact := SpanText(text, span.startLine, span.endLine);
    assert |exact + "\n"| == |exact| + 1 && exact + "" == exact;
  }

  lemma TooLongIsNoSlice(text: Text, span: Span, content: string)
    requires text.Valid() && InText(text, span) && content == SpanText(text, span.startLine, span.endLine) + "\n"
    requires span.startByte == Offset(text.lines, span.startLine - 1) && span.endByte == EndOffset(text, span.endLine)
    ensures !SliceMatches(text.Bytes(), span, content)
  {
    SpanLength(text, span.startLine, span.endLine);
    assert |content| == span.endByte - span.startByte + 1;
  }

  /** A result with a newline too many no longer passes the check on live bytes.  (SliceMerge has
      the condition for slices that are not whole lines.) */
  lemma OvershootingIsStale(text: Text, a: Candidate, b: Candidate)
    requires text.Valid() && Overlap(a.span, b.span)
    requires Quotes(text, a.span, a.content) && Quotes(text, b.span, b.content)
    ensures Merged(a, b).Some?
    ensures var m := Merged(a, b).value;
                SliceMatches(text.Bytes(), m.span, m.content) <==> !Overshoots(text, a.span, b.span)
  {
    MergeIsExact(text, a, b);
    UnionBytes(text, a.span, b.span);
    ExactOrTooLong(text, Union(a.span, b.span), Merged(a, b).value.content, Overshoots(text, a.span, b.span));
  }

  lemma ExactOrTooLong(text: Text, span: Span, content: string, tooLong: bool)
    requires text.Valid() && InText(text, span)
    requires content == TextWith(text, span, tooLong)
    requires span.startByte == Offset(text.lines, span.startLine - 1) && span.endByte == EndOffset(text, span.endLine)
    ensures SliceMatches(text.Bytes(), span, content) <==> !tooLong
  {
    if tooLong {
      TooLongIsNoSlice(text, span, content);
    } else {
      assert content == SpanText(text, span.startLine, span.endLine);
      QuotesMatchSlice(text, span, content);
    }
  }

  // ---------- deduplication ----------

  /** The id of merged evidence, a hash of these fields. */
  type IdRule = (Origin, Span) -> string

  const DEDUPLICATED := "deduplicated_evidence"

  function DedupLink(id: string): Link {
    Link(DEDUPLICATED, "", "", "", "", id)
  }

  /** What becomes of two candidates that merge. */
  function Combined(idOf: IdRule, existing: Candidate, candidate: Candidate, merged: Candidate): Candidate {
    var id := if merged.span != existing.span then idOf(merged.origin, merged.span) else merged.id;
    merged.(id := id,
            facets := existing.facets + candidate.facets,
            limitations := existing.limitations + candidate.limitations,
            links := existing.links + candidate.links
                     + (if existing.id != id then {DedupLink(existing.id)} else {})
                     + (if candidate.id != id then {DedupLink(candidate.id)} else {}),
            required := existing.required || candidate.required,
            exactMatch := existing.exactMatch || candidate.exactMatch,
            distance := Min(merged.distance, candidate.distance))
  }

  /** What a candidate shows of its origin. */
  datatype Mark =
    | Line(of: Origin, line: int)
    | FacetOf(of: Origin, facet: string)
    | LimitationOf(of: Origin, limitation: string)
    | RequiredOf(of: Origin)
    | ExactOf(of: Origin)

  function Marks(c: Candidate): set<Mark> {
    LineMarks(c.origin, c.span) + TextMarks(c.origin, c.facets, c.limitations)
        + FlagMarks(c.origin, c.required, c.exactMatch)
  }

  function LineMarks(of: Origin, span: Span): set<Mark> {
    set n | span.startLine <= n <= span.endLine :: Line(of, n)
  }

  function TextMarks(of: Origin, facets: set<string>, limitations: set<string>): set<Mark> {
    (set f | f in facets :: FacetOf(of, f)) + (set l | l in limitations :: LimitationOf(of, l))
  }

  function FlagMarks(of: Origin, required: bool, exactMatch: bool): set<Mark> {
    (if required then {RequiredOf(of)} else {}) + (if exactMatch then {ExactOf(of)} else {})
  }

  ghost predicate Shows(s: seq<Candidate>, m: Mark) {
    exists i :: 0 <= i < |s| && m in Marks(s[i])
  }

  /** The same lines, facets, limitations and flags per origin. */
  ghost predicate SameMarks(s: seq<Candidate>, t: seq<Candidate>) {
    forall m :: Shows(s, m) <==> Shows(t, m)
  }

  function Traces(c: Candidate): set<string> {
    {c.id} + set l | l in c.links && l.kind == DEDUPLICATED :: l.evidenceId
  }

  /** `r` stands for `c`: it quotes at least its lines and bytes, answers its facets, is required
      if it was, and names its id. */
  ghost predicate Absorbs(r: Candidate, c: Candidate) {
    && r.origin == c.origin && r.span.Covers(c.span)
    && c.facets <= r.facets && (c.required ==> r.required) && Traces(c) <= Traces(r)
  }

  ghost predicate Absorbed(s: seq<Candidate>, c: Candidate) {
    exists i :: 0 <= i < |s| && Absorbs(s[i], c)
  }

  ghost predicate AllAbsorbed(s: seq<Candidate>, inputs: seq<Candidate>) {
    forall i | 0 <= i < |inputs| :: Absorbed(s, inputs[i])
  }

  lemma UnionMarks(idOf: IdRule, a: Candidate, b: Candidate)
    requires a.origin == b.origin && Merged(a, b).Some?
    ensures var c := Combined(idOf, a, b, Merged(a, b).value);
            Marks(c) == Marks(a) + Marks(b) && Absorbs(c, a) && Absorbs(c, b)
  {
    MergedHasLines(a, b);
    CombinedMarks(a, b, Combined(idOf, a, b, Merged(a, b).value));
  }

  lemma CombinedMarks(a: Candidate, b: Candidate, c: Candidate)
    requires a.origin == b.origin == c.origin && Overlap(a.span, b.span) && c.span == Union(a.span, b.span)
    requires a.span.startLine <= a.span.endLine && b.span.startLine <= b.span.endLine
    requires c.facets == a.facets + b.facets && c.limitations == a.limitations + b.limitations
    requires c.required == (a.required || b.required) && c.exactMatch == (a.exactMatch || b.exactMatch)
    requires c.links
                 == a.links + b.links + (if a.id != c.id then {DedupLink(a.id)} else {})
                     + (if b.id != c.id then {DedupLink(b.id)} else {})
    ensures Marks(c) == Marks(a) + Marks(b) && Absorbs(c, a) && Absorbs(c, b)
  {
    HasTraces(a, b, c);
    UnionLineMarks(a.origin, a.span, b.span);
    UnionTextMarks(a.origin, a.facets, a.limitations, b.facets, b.limitations);
    assert FlagMarks(c.origin, c.required, c.exactMatch)
        == FlagMarks(a.origin, a.required, a.exactMatch) + FlagMarks(b.origin, b.required, b.exactMatch);
  }

  lemma UnionLineMarks(of: Origin, a: Span, b: Span)
    requires Overlap(a, b)
    requires a.startLine <= a.endLine && b.startLine <= b.endLine
    ensures LineMarks(of, Union(a, b)) == LineMarks(of, a) + LineMarks(of, b)
  {
  }

  lemma UnionTextMarks(of: Origin, aFacets: set<string>, aLimitations: set<string>, bFacets: set<string>,
                       bLimitations: set<string>)
    ensures TextMarks(of, aFacets + bFacets, aLimitations + bLimitations)
                == TextMarks(of, aFacets, aLimitations) + TextMarks(of, bFacets, bLimitations)
  {
  }

  /** Candidates that merge have at least one line each. */
  lemma MergedHasLines(a: Candidate, b: Candidate)
    requires Merged(a, b).Some?
    ensures a.span.startLine <= a.span.endLine && b.span.startLine <= b.span.endLine
  {
  }

  lemma HasTraces(a: Candidate, b: Candidate, c: Candidate)
    requires c.links
                 == a.links + b.links + (if a.id != c.id then {DedupLink(a.id)} else {})
                     + (if b.id != c.id then {DedupLink(b.id)} else {})
    ensures Traces(a) <= Traces(c) && Traces(b) <= Traces(c)
  {
    assert a.id != c.id ==> DedupLink(a.id) in c.links;
    assert b.id != c.id ==> DedupLink(b.id) in c.links;
  }

  lemma AppendKeepsMarks(inputs: seq<Candidate>, s: seq<Candidate>, c: Candidate)
    requires SameMarks(inputs, s) && AllAbsorbed(s, inputs)
    ensures SameMarks(inputs + [c], s + [c]) && AllAbsorbed(s + [c], inputs + [c])
  {
    forall m ensures Shows(inputs + [c], m) <==> Shows(s + [c], m) {
      ShowsAppend(inputs, c, m);
      ShowsAppend(s, c, m);
    }
    forall i | 0 <= i < |inputs| + 1 ensures Absorbed(s + [c], (inputs + [c])[i]) {
      if i < |inputs| {
        var k :| 0 <= k < |s| && Absorbs(s[k], inputs[i]);
        assert Absorbs((s + [c])[k], (inputs + [c])[i]);
      } else {
        assert Absorbs((s + [c])[|s|], c);
      }
    }
  }

  lemma ShowsAppend(s: seq<Candidate>, c: Candidate, m: Mark)
    ensures Shows(s + [c], m) <==> Shows(s, m) || m in Marks(c)
  {
    var t := s + [c];
    if Shows(s, m) {
      var i :| 0 <= i < |s| && m in Marks(s[i]);
      assert m in Marks(t[i]);
    }
    assert t[|s|] == c;
    if Shows(t, m) {
      var i :| 0 <= i < |t| && m in Marks(t[i]);
      if i < |s| { assert m in Marks(s[i]); }
    }
  }

  lemma ShowsReplace(s: seq<Candidate>, k: nat, c: Candidate, r: Candidate, m: Mark)
    requires k < |s| && Marks(r) == Marks(s[k]) + Marks(c)
    ensures Shows(s[k := r], m) <==> Shows(s, m) || m in Marks(c)
  {
    var t := s[k := r];
    if Shows(s, m) {
      var i :| 0 <= i < |s| && m in Marks(s[i]);
      assert m in Marks(t[i]);
    }
    assert t[k] == r;
    if Shows(t, m) {
      var i :| 0 <= i < |t| && m in Marks(t[i]);
      if i != k { assert m in Marks(s[i]); }
    }
  }

  lemma ReplaceKeepsMarks(inputs: seq<Candidate>, s: seq<Candidate>, k: nat, c: Candidate, r: Candidate)
    requires SameMarks(inputs, s) && AllAbsorbed(s, inputs)
    requires k < |s| && Marks(r) == Marks(s[k]) + Marks(c) && Absorbs(r, s[k]) && Absorbs(r, c)
    ensures SameMarks(inputs + [c], s[k := r]) && AllAbsorbed(s[k := r], inputs + [c])
  {
    forall m ensures Shows(inputs + [c], m) <==> Shows(s[k := r], m) {
      ShowsAppend(inputs, c, m);
      ShowsReplace(s, k, c, r, m);
    }
    forall i | 0 <= i < |inputs| + 1 ensures Absorbed(s[k := r], (inputs + [c])[i]) {
      if i < |inputs| {
        var j :| 0 <= j < |s| && Absorbs(s[j], inputs[i]);
        assert Absorbs(s[k := r][j], inputs[i]);
      } else {
        assert Absorbs(s[k := r][k], c);
      }
    }
  }

  /** Which document a candidate quotes is a matter of its origin. */
  ghost predicate AllQuote(documents: map<Origin, Text>, s: seq<Candidate>) {
    forall i | 0 <= i < |s| :: QuotesItsDocument(documents, s[i])
  }

  ghost predicate QuotesItsDocument(documents: map<Origin, Text>, c: Candidate) {
    && c.origin in documents && documents[c.origin].Valid() && documents[c.origin].terminated
    && Quotes(documents[c.origin], c.span, c.content)
  }

  lemma CombinedQuotes(idOf: IdRule, documents: map<Origin, Text>, a: Candidate, b: Candidate)
    requires a.origin == b.origin && QuotesItsDocument(documents, a) && QuotesItsDocument(documents, b)
    requires Merged(a, b).Some?
    ensures QuotesItsDocument(documents, Combined(idOf, a, b, Merged(a, b).value))
  {
    MergeIsExact(documents[a.origin], a, b);
  }

  predicate Merges(existing: Candidate, candidate: Candidate) {
    existing.origin == candidate.origin && Merged(existing, candidate).Some?
  }

  function FirstMerge(s: seq<Candidate>, c: Candidate, i: nat): (k: nat)
    requires i <= |s|
    ensures i <= k <= |s| && (k < |s| ==> Merges(s[k], c))
    decreases |s| - i
  {
    if i == |s| || Merges(s[i], c) then i else FirstMerge(s, c, i + 1)
  }

  /** One round: merge into the first result of the same origin that merges, or append. */
  function Absorb(idOf: IdRule, s: seq<Candidate>, c: Candidate): seq<Candidate> {
    var k := FirstMerge(s, c, 0);
    if k < |s| then s[k := Combined(idOf, s[k], c, Merged(s[k], c).value)] else s + [c]
  }

  /** The specification of `qualityDeduplicate`, for the first `n` candidates. */
  function Deduped(idOf: IdRule, candidates: seq<Candidate>, n: nat): seq<Candidate>
    requires n <= |candidates|
  {
    if n == 0 then [] else Absorb(idOf, Deduped(idOf, candidates, n - 1), candidates[n - 1])
  }

  lemma AbsorbKeepsMarks(idOf: IdRule, inputs: seq<Candidate>, s: seq<Candidate>, c: Candidate)
    requires SameMarks(inputs, s) && AllAbsorbed(s, inputs)
    ensures SameMarks(inputs + [c], Absorb(idOf, s, c)) && AllAbsorbed(Absorb(idOf, s, c), inputs + [c])
  {
    var k := FirstMerge(s, c, 0);
    if k < |s| {
      UnionMarks(idOf, s[k], c);
      ReplaceKeepsMarks(inputs, s, k, c, Combined(idOf, s[k], c, Merged(s[k], c).value));
    } else {
      AppendKeepsMarks(inputs, s, c);
    }
  }

  /** Whatever the order, nothing that an input shows is lost, nothing is shown that no input shows,
      and each input has a result that stands for it. */
  lemma {:induction false} DedupedKeepsMarks(idOf: IdRule, candidates: seq<Candidate>, n: nat)
    requires n <= |candidates|
    ensures SameMarks(candidates[..n], Deduped(idOf, candidates, n))
    ensures AllAbsorbed(Deduped(idOf, candidates, n), candidates[..n])
  {
    if n > 0 {
      DedupedKeepsMarks(idOf, candidates, n - 1);
      assert candidates[..n] == candidates[..n - 1] + [candidates[n - 1]];
      AbsorbKeepsMarks(idOf, candidates[..n - 1], Deduped(idOf, candidates, n - 1), candidates[n - 1]);
    }
  }

  /** A property of candidates that merging keeps. */
  ghost predicate MergingKeeps(idOf: IdRule, good: Candidate -> bool) {
    forall a: Candidate, b: Candidate | good(a) && good(b) && Merges(a, b) :: good(MergedInto(idOf, a, b))
  }

  function MergedInto(idOf: IdRule, a: Candidate, b: Candidate): Candidate
    requires Merges(a, b)
  {
    Combined(idOf, a, b, Merged(a, b).value)
  }

  lemma {:induction false} DedupedKeeps(idOf: IdRule, good: Candidate -> bool, cs: seq<Candidate>, n: nat)
    requires n <= |cs| && MergingKeeps(idOf, good) && forall i | 0 <= i < |cs| :: good(cs[i])
    ensures forall i | 0 <= i < |Deduped(idOf, cs, n)| :: good(Deduped(idOf, cs, n)[i])
  {
    if n > 0 {
      var s, c := Deduped(idOf, cs, n - 1), cs[n - 1];
      DedupedKeeps(idOf, good, cs, n - 1);
      var k := FirstMerge(s, c, 0);
      if k < |s| { assert good(MergedInto(idOf, s[k], c)); }
    }
  }

  /** Over newline-terminated documents every result quotes its document exactly. */
  lemma {:induction false} DedupedQuotes(idOf: IdRule, documents: map<Origin, Text>, candidates: seq<Candidate>)
    requires AllQuote(documents, candidates)
    ensures AllQuote(documents, Deduped(idOf, candidates, |candidates|))
  {
    var good := (c: Candidate) => QuotesItsDocument(documents, c);
    forall a: Candidate, b: Candidate | good(a) && good(b) && Merges(a, b) ensures good(MergedInto(idOf, a, b)) {
      CombinedQuotes(idOf, documents, a, b);
    }
    DedupedKeeps(idOf, good, candidates, |candidates|);
  }

  /** `qualityDeduplicate`. */
  method Deduplicate(idOf: IdRule, candidates: seq<Candidate>) returns (result: seq<Candidate>)
    ensures result == Deduped(idOf, candidates, |candidates|)
    ensures SameMarks(candidates, result) && AllAbsorbed(result, candidates)
  {
    result := [];
    for i := 0 to |candidates|
      invariant result == Deduped(idOf, candidates, i)
    {
      result := AbsorbOne(idOf, result, candidates[i]);
    }
    DedupedKeepsMarks(idOf, candidates, |candidates|);
    assert candidates[..|candidates|] == candidates;
  }

  method AbsorbOne(idOf: IdRule, existing: seq<Candidate>, candidate: Candidate) returns (result: seq<Candidate>)
    ensures result == Absorb(idOf, existing, candidate)
  {
    for index := 0 to |existing|
      invariant FirstMerge(existing, candidate, 0) == FirstMerge(existing, candidate, index)
    {
      if existing[index].origin == candidate.origin {
        var merged := MergeSpans(existing[index], candidate);
        if merged.Some? {
          return existing[index := Combined(idOf, existing[index], candidate, merged.value)];
        }
      }
    }
    return existing + [candidate];
  }
}
