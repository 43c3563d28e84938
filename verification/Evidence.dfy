/**
 Evidence candidates and the lines of documents they quote
 (internal/contextretrieval/model.go, quality.go, engine.go `verifyCandidates`).

 `Origin` holds the fields that the deduplication key hashes.  Lists that the program keeps
 sorted and without repetition (facet ids, limitations, links) are sets.
 */
module Evidence {

  datatype Status = Complete | Partial | Blocked | Unsupported | Stale | Invalid | Unknown | Unset

  datatype Provenance =
    | TrustedPolicy | TrustedProjectMetadata | ProjectSource | ProjectTest | ProjectDoc | ExternalContent
    | GeneratedContent

  datatype Freshness = Current | StaleEvidence | DirtySnapshot | Unverified | Missing | Invalidated

  datatype Role = PRIMARY | SUPPORTING | CONTEXT

  datatype Span = Span(startLine: int, endLine: int, startByte: int, endByte: int)
  {
    predicate Covers(s: Span) {
      startLine <= s.startLine && s.endLine <= endLine && startByte <= s.startByte && s.endByte <= endByte
    }
  }

  datatype Link = Link(kind: string, sourceIdentity: string, relativePath: string, symbol: string, expectedHash: string,
                       evidenceId: string)

  datatype Origin = Origin(source: string, revision: string, snapshot: string, contentHash: string, path: string,
                           symbol: string,
                           kind: string, claimType: string, claimKey: string, claimValue: string,
                           provenance: Provenance, freshness: Freshness)

  datatype Candidate = Candidate(id: string, origin: Origin, span: Span, content: string, facets: set<string>,
                                 required: bool,
                                 exactMatch: bool, distance: int, limitations: set<string>, links: set<Link>,
                                 role: Role, query: string, resolver: string, resolverVersion: string,
                                 expectedHash: string)

  // ---------- lines ----------

  /** `strings.Split(s, "\n")`. */
  function Split(s: string): (lines: seq<string>)
    ensures |lines| >= 1
  {
    if s == "" then [""]
    else if s[0] == '\n' then [""] + Split(s[1..])
    else
      var rest := Split(s[1..]);
      [[s[0]] + rest[0]] + rest[1..]
  }

  /** `strings.Join(lines, "\n")`. */
  function Join(lines: seq<string>): string {
    if lines == [] then ""
    else if |lines| == 1 then lines[0]
    else lines[0] + ("\n" + Join(lines[1..]))
  }

  /** `strings.TrimSuffix(s, "\n")`. */
  function Chomp(s: string): string {
    if EndsInNewline(s) then s[..|s| - 1] else s
  }

  predicate EndsInNewline(s: string) {
    s != "" && s[|s| - 1] == '\n'
  }

  ghost predicate IsLine(s: string) {
    '\n' !in s
  }

  lemma {:induction false} SplitOfLine(line: string)
    requires IsLine(line)
    ensures Split(line) == [line]
  {
    if line != "" {
      assert line[0] in line && forall c | c in line[1..] :: c in line;
      SplitOfLine(line[1..]);
      assert line == [line[0]] + line[1..];
    }
  }

  lemma {:induction false} SplitOfFirstLine(line: string, rest: string)
    requires IsLine(line)
    ensures Split(line + ("\n" + rest)) == [line] + Split(rest)
  {
    var s := line + ("\n" + rest);
    if line == "" {
      assert s == "\n" + rest && s[1..] == rest;
    } else {
      assert line[0] in line && forall c | c in line[1..] :: c in line;
      assert s[0] == line[0] && s[1..] == line[1..] + ("\n" + rest);
      SplitOfFirstLine(line[1..], rest);
      assert line == [line[0]] + line[1..];
      assert ([line[1..]] + Split(rest))[1..] == Split(rest);
    }
  }

  lemma {:induction false} SplitOfJoin(lines: seq<string>)
    requires lines != [] && forall i | 0 <= i < |lines| :: IsLine(lines[i])
    ensures Split(Join(lines)) == lines
  {
    if |lines| == 1 {
      SplitOfLine(lines[0]);
    } else {
      SplitOfJoin(lines[1..]);
      SplitOfFirstLine(lines[0], Join(lines[1..]));
      assert lines == [lines[0]] + lines[1..];
    }
  }

  lemma ChompTerminated(s: string)
    ensures Chomp(s + "\n") == s && EndsInNewline(s + "\n")
  {
    assert (s + "\n")[..|s|] == s;
  }

  lemma {:induction false} JoinEnd(lines: seq<string>)
    requires lines != [] && lines[|lines| - 1] != "" && forall i | 0 <= i < |lines| :: IsLine(lines[i])
    ensures !EndsInNewline(Join(lines))
  {
    if |lines| == 1 {
      assert lines[0][|lines[0]| - 1] in lines[0];
    } else {
      JoinEnd(lines[1..]);
      JoinIsNonempty(lines[1..]);
      var tail := Join(lines[1..]);
      assert Join(lines)[|Join(lines)| - 1] == tail[|tail| - 1];
    }
  }

  lemma {:induction false} JoinIsNonempty(lines: seq<string>)
    requires lines != [] && lines[|lines| - 1] != ""
    ensures Join(lines) != ""
  {
    if |lines| > 1 { JoinIsNonempty(lines[1..]); }
  }

  // ---------- documents and their spans ----------

  /** A document by its lines.  `terminated` says whether the last line ends in a newline; an
      empty line after the last newline is not a line. */
  datatype Text = Text(lines: seq<string>, terminated: bool)
  {
    ghost predicate Valid() {
      && lines != []
      && (forall i | 0 <= i < |lines| :: IsLine(lines[i]))
      && (terminated || lines[|lines| - 1] != "")
    }

    function Bytes(): string {
      Join(lines) + if terminated then "\n" else ""
    }

    /** Whether line `e`, counted from one, ends in a newline. */
    predicate Ended(e: int) {
      terminated || e < |lines|
    }
  }

  /** What lines `s` to `e` look like in the file. */
  function SpanText(text: Text, s: int, e: int): string
    requires 1 <= s <= e <= |text.lines|
  {
    Join(text.lines[s - 1..e]) + if text.Ended(e) then "\n" else ""
  }

  /** Where line `k`, counted from zero, begins. */
  function Offset(lines: seq<string>, k: nat): nat
    requires k <= |lines|
  {
    if k == 0 then 0 else Offset(lines, k - 1) + |lines[k - 1]| + 1
  }

  function EndOffset(text: Text, e: nat): int
    requires 1 <= e <= |text.lines|
  {
    Offset(text.lines, e) - if text.Ended(e) then 0 else 1
  }

  /** The candidate quotes exactly these lines of the document. */
  ghost predicate Quotes(text: Text, span: Span, content: string) {
    && 1 <= span.startLine <= span.endLine <= |text.lines|
    && content == SpanText(text, span.startLine, span.endLine)
    && span.startByte == Offset(text.lines, span.startLine - 1)
    && span.endByte == EndOffset(text, span.endLine)
  }

  /** The check of `verifyCandidates` on live bytes. */
  predicate SliceMatches(bytes: string, span: Span, content: string) {
    0 <= span.startByte <= span.endByte <= |bytes| && bytes[span.startByte..span.endByte] == content
  }

  lemma {:induction false} JoinLength(lines: seq<string>, k: nat)
    requires k < |lines|
    ensures |Join(lines[k..])| == Offset(lines, |lines|) - Offset(lines, k) - 1
    decreases |lines| - k
  {
    if k + 1 < |lines| {
      JoinLength(lines, k + 1);
      assert lines[k..][1..] == lines[k + 1..];
    } else {
      assert lines[k..] == [lines[k]];
    }
  }

  /** Dropping whole lines from the front drops their bytes. */
  lemma {:induction false} DropLines(text: Text, k: nat)
    requires k < |text.lines|
    ensures Offset(text.lines, k) <= |text.Bytes()|
    ensures text.Bytes()[Offset(text.lines, k)..] == Text(text.lines[k..], text.terminated).Bytes()
  {
    if k == 0 {
      assert text.lines[0..] == text.lines;
    } else {
      DropLines(text, k - 1);
      var rest := Text(text.lines[k - 1..], text.terminated).Bytes();
      assert text.lines[k - 1..][1..] == text.lines[k..];
      var n, m := Offset(text.lines, k - 1), |text.lines[k - 1]| + 1;
      assert rest[m..] == Text(text.lines[k..], text.terminated).Bytes();
      assert text.Bytes()[n..][m..] == text.Bytes()[n + m..];
    }
  }

  /** Keeping whole lines from the front keeps their bytes. */
  lemma {:induction false} TakeLines(text: Text, k: nat)
    requires 0 < k <= |text.lines|
    ensures var taken := Join(text.lines[..k]) + if text.Ended(k) then "\n" else ""; taken <= text.Bytes()
    decreases k
  {
    if k == |text.lines| {
      assert text.lines[..k] == text.lines;
    } else if k == 1 {
      assert text.lines[..1] == [text.lines[0]];
    } else {
      var rest := Text(text.lines[1..], text.terminated);
      TakeLines(rest, k - 1);
      assert text.lines[..k][1..] == rest.lines[..k - 1];
      var head, taken := text.lines[0] + "\n", Join(rest.lines[..k - 1]) + "\n";
      assert text.Bytes() == head + rest.Bytes();
      assert Join(text.lines[..k]) + "\n" == head + taken;
    }
  }

  /** Quoting lines passes the check on live bytes. */
  lemma QuotesMatchSlice(text: Text, span: Span, content: string)
    requires text.Valid() && Quotes(text, span, content)
    ensures SliceMatches(text.Bytes(), span, content)
  {
    var from := Text(text.lines[span.startLine - 1..], text.terminated);
    DropLines(text, span.startLine - 1);
    SpanBeginsRest(text, span.startLine, span.endLine);
    SpanLength(text, span.startLine, span.endLine);
    PrefixOfDrop(text.Bytes(), span.startByte, from.Bytes(), content);
  }

  lemma SpanBeginsRest(text: Text, s: int, e: int)
    requires 1 <= s <= e <= |text.lines|
    ensures SpanText(text, s, e) <= Text(text.lines[s - 1..], text.terminated).Bytes()
  {
    var from := Text(text.lines[s - 1..], text.terminated);
    TakeLines(from, e - s + 1);
    assert from.lines[..e - s + 1] == text.lines[s - 1..e];
  }

  lemma PrefixOfDrop(bytes: string, n: nat, rest: string, content: string)
    requires n <= |bytes| && bytes[n..] == rest && content <= rest
    ensures n + |content| <= |bytes| && bytes[n..n + |content|] == content
  {
    assert bytes[n..][..|content|] == bytes[n..n + |content|];
  }

  lemma {:induction false} SpanLength(text: Text, s: int, e: int)
    requires 1 <= s <= e <= |text.lines|
    ensures |SpanText(text, s, e)| == EndOffset(text, e) - Offset(text.lines, s - 1)
  {
    JoinLength(text.lines[..e], s - 1);
    assert text.lines[..e][s - 1..] == text.lines[s - 1..e];
    OffsetOfPrefix(text.lines, e, e);
    OffsetOfPrefix(text.lines, e, s - 1);
  }

  lemma {:induction false} OffsetOfPrefix(lines: seq<string>, e: nat, k: nat)
    requires k <= e <= |lines|
    ensures Offset(lines[..e], k) == Offset(lines, k)
  {
    if k > 0 { OffsetOfPrefix(lines, e, k - 1); }
  }

  ghost predicate AreLines(lines: seq<string>, ended: bool) {
    lines != [] && (forall i | 0 <= i < |lines| :: IsLine(lines[i])) && (ended || lines[|lines| - 1] != "")
  }

  lemma {:induction false} SplitOfWhole(lines: seq<string>, ended: bool, content: string)
    requires AreLines(lines, ended) && content == Join(lines) + if ended then "\n" else ""
    ensures Split(Chomp(content)) == lines && (EndsInNewline(content) <==> ended)
  {
    SplitOfJoin(lines);
    if ended {
      ChompTerminated(Join(lines));
    } else {
      JoinEnd(lines);
      assert Join(lines) + "" == Join(lines);
    }
  }

  lemma SpanLinesAreLines(text: Text, s: int, e: int)
    requires text.Valid() && 1 <= s <= e <= |text.lines|
    ensures AreLines(text.lines[s - 1..e], text.Ended(e))
  {
  }

  /** The lines of a quotation are those of the document. */
  lemma LinesOfQuotation(text: Text, span: Span, content: string)
    requires text.Valid() && Quotes(text, span, content)
    ensures Split(Chomp(content)) == text.lines[span.startLine - 1..span.endLine]
    ensures EndsInNewline(content) <==> text.Ended(span.endLine)
  {
    SpanLinesAreLines(text, span.startLine, span.endLine);
    SplitOfWhole(text.lines[span.startLine - 1..span.endLine], text.Ended(span.endLine), content);
  }
}
