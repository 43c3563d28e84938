/**
 Merging of byte slices (internal/contextretrieval/quality.go, `qualityMergeSpans`) as resolvers
 cut them: a slice may begin inside a line and need not end in a newline, as the nodes of a Go
 syntax tree do (internal/adapters/contextretrieval/golang.go).  The merge works on lines and
 the later check on bytes (engine.go, `verifyCandidates`), so they can disagree.
 */
module SliceMerge {
  import opened Wrappers
  import opened Evidence
  import opened SpanMerge

  // ---------- line numbers ----------

  function Newlines(s: string): nat {
    if s == "" then 0 else Newlines(s[..|s| - 1]) + if s[|s| - 1] == '\n' then 1 else 0
  }

  /** The line, counted from one, that holds the byte at `p`. */
  function LineAt(bytes: string, p: int): int
    requires 0 <= p <= |bytes|
  {
    1 + Newlines(bytes[..p])
  }

  lemma {:induction false} NewlinesAdd(s: string, t: string)
    ensures Newlines(s + t) == Newlines(s) + Newlines(t)
  {
    if t == "" {
      assert s + t == s;
    } else {
      NewlinesAdd(s, t[..|t| - 1]);
      assert (s + t)[..|s + t| - 1] == s + t[..|t| - 1];
    }
  }

  lemma {:induction false} NoNewlines(s: string)
    ensures Newlines(s) == 0 <==> IsLine(s)
  {
    if s != "" {
      NoNewlines(s[..|s| - 1]);
      assert s == s[..|s| - 1] + [s[|s| - 1]];
    }
  }

  /** Two places on one line have no newline between them. */
  lemma SameLine(bytes: string, p: int, q: int)
    requires 0 <= p <= q <= |bytes| && LineAt(bytes, p) == LineAt(bytes, q)
    ensures forall i | p <= i < q :: bytes[i] != '\n'
  {
    NewlinesAdd(bytes[..p], bytes[p..q]);
    assert bytes[..p] + bytes[p..q] == bytes[..q];
    NoNewlines(bytes[p..q]);
    forall i | p <= i < q ensures bytes[i] != '\n' {
      assert bytes[p..q][i - p] in bytes[p..q];
    }
  }

  // ---------- lines of a text ----------

  lemma {:induction false} SplitIsLines(s: string)
    ensures forall i | 0 <= i < |Split(s)| :: IsLine(Split(s)[i])
    ensures Join(Split(s)) == s
  {
    if s != "" {
      SplitIsLines(s[1..]);
      var rest := Split(s[1..]);
      if s[0] == '\n' {
        assert Split(s)[1..] == rest && Join(Split(s)) == "" + ("\n" + Join(rest));
      } else {
        assert Split(s)[1..] == rest[1..];
        assert Join(Split(s)) == [s[0]] + Join(rest);
      }
    }
  }

  /** The first `k` lines with their newlines. */
  function Head(lines: seq<string>, k: nat): string
    requires k <= |lines|
  {
    if k == 0 then "" else Head(lines, k - 1) + (lines[k - 1] + "\n")
  }

  lemma {:induction false} HeadFacts(lines: seq<string>, k: nat)
    requires k <= |lines| && forall i | 0 <= i < |lines| :: IsLine(lines[i])
    ensures |Head(lines, k)| == Offset(lines, k) && Newlines(Head(lines, k)) == k
    ensures k > 0 ==> EndsInNewline(Head(lines, k))
  {
    if k > 0 {
      HeadFacts(lines, k - 1);
      var line := lines[k - 1];
      NewlinesAdd(Head(lines, k - 1), line + "\n");
      NewlinesAdd(line, "\n");
      NoNewlines(line);
      assert Newlines("\n") == 1 by { assert "\n"[..0] == ""; }
    }
  }

  lemma {:induction false} HeadOfTail(lines: seq<string>, k: nat)
    requires 0 < k <= |lines|
    ensures Head(lines, k) == lines[0] + ("\n" + Head(lines[1..], k - 1))
  {
    if k > 1 {
      HeadOfTail(lines, k - 1);
      Reassociate(lines[0], "\n", Head(lines[1..], k - 2), lines[k - 1] + "\n");
    }
  }

  lemma Reassociate(a: string, b: string, c: string, d: string)
    ensures a + (b + c) + d == a + (b + (c + d))
  {
  }

  lemma {:induction false} JoinSplits(lines: seq<string>, k: nat)
    requires k < |lines|
    ensures Join(lines) == Head(lines, k) + Join(lines[k..])
  {
    if k == 0 {
      assert lines[0..] == lines;
    } else {
      JoinSplits(lines[1..], k - 1);
      HeadOfTail(lines, k);
      assert lines[1..][k - 1..] == lines[k..];
      Reassociate(lines[0], "\n", Head(lines[1..], k - 1), Join(lines[k..]));
    }
  }

  lemma {:induction false} HeadOfPrefix(lines: seq<string>, more: seq<string>, k: nat)
    requires k <= |lines| && k <= |more| && forall i | 0 <= i < k :: lines[i] == more[i]
    ensures Head(lines, k) == Head(more, k)
  {
    if k > 0 { HeadOfPrefix(lines, more, k - 1); }
  }

  // ---------- slices ----------

  /** The lines that the merge sees in a content. */
  function Pieces(content: string): seq<string> {
    Split(Chomp(content))
  }

  function Newline(present: bool): string {
    if present then "\n" else ""
  }

  lemma PiecesFacts(content: string)
    ensures forall i | 0 <= i < |Pieces(content)| :: IsLine(Pieces(content)[i])
    ensures content == Join(Pieces(content)) + Newline(EndsInNewline(content))
  {
    SplitIsLines(Chomp(content));
    if EndsInNewline(content) { assert content == content[..|content| - 1] + "\n"; }
  }

  /** The content is what the document holds between the offsets, and the first line number is
      that of the first byte. */
  ghost predicate IsSlice(bytes: string, span: Span, content: string) {
    SliceMatches(bytes, span, content) && span.startLine == LineAt(bytes, span.startByte)
  }

  /** Where the piece of a line begins in the document. */
  function PieceStart(span: Span, content: string, line: int): int
    requires span.startLine <= line <= span.startLine + |Pieces(content)|
  {
    span.startByte + Offset(Pieces(content), line - span.startLine)
  }

  /** The first line that both have begins at one place for both. */
  predicate Aligned(a: Candidate, b: Candidate)
    requires Merged(a, b).Some?
  {
    var first := Max(a.span.startLine, b.span.startLine);
    PieceStart(a.span, a.content, first) == PieceStart(b.span, b.content, first)
  }

  /** One of the two ends in a newline, and the other goes further and does not. */
  predicate NewlineTooMany(a: Candidate, b: Candidate) {
    || (a.span.endLine < b.span.endLine && EndsInNewline(a.content) && !EndsInNewline(b.content))
    || (b.span.endLine < a.span.endLine && EndsInNewline(b.content) && !EndsInNewline(a.content))
  }

  // ---------- the shape of a merge ----------

  lemma {:induction false} AgreementIsSymmetric(x: seq<string>, a: Span, y: seq<string>, b: Span)
    requires |x| == Height(a) && |y| == Height(b) && Height(a) >= 1 && Height(b) >= 1 && Overlap(a, b)
    ensures AgreeTo(x, a, y, b, Union(a, b).endLine + 1) <==> AgreeTo(y, b, x, a, Union(b, a).endLine + 1)
    ensures AgreeTo(x, a, y, b, Union(a, b).endLine + 1) ==> UnionLines(x, a, y, b) == UnionLines(y, b, x, a)
  {
    assert Union(a, b) == Union(b, a);
    forall line ensures AgreeAt(x, a, y, b, line) <==> AgreeAt(y, b, x, a, line) {
    }
    if AgreeTo(x, a, y, b, Union(a, b).endLine + 1) {
      forall i | 0 <= i < Height(Union(a, b)) ensures UnionLines(x, a, y, b)[i] == UnionLines(y, b, x, a)[i] {
        assert AgreeAt(x, a, y, b, Union(a, b).startLine + i);
      }
    }
  }

  /** Which of the two comes first does not show in the merged text. */
  lemma MergeIsSymmetric(a: Candidate, b: Candidate)
    requires Merged(a, b).Some?
    ensures Merged(b, a).Some? && Merged(b, a).value.span == Merged(a, b).value.span
    ensures Merged(b, a).value.content == Merged(a, b).value.content
    ensures Aligned(a, b) <==> Aligned(b, a)
  {
    if !(a.span == b.span && a.content == b.content) {
      AgreementIsSymmetric(Pieces(a.content), a.span, Pieces(b.content), b.span);
    }
  }

  /** `b` begins on the same line as `a` or further down. */
  predicate InOrder(a: Candidate, b: Candidate) {
    a.span.startLine <= b.span.startLine
        && (a.span.startLine == b.span.startLine ==> a.span.startByte <= b.span.startByte)
  }

  /** The text of two runs of lines, the second of which begins `j` lines into the first. */
  ghost predicate Joins(x: seq<string>, y: seq<string>, j: nat, newline: bool, content: string) {
    && x != [] && y != [] && j < |x| && x[j] == y[0]
    && if |x| - j >= |y| then y <= x[j..] && content == Join(x) + Newline(newline)
       else x[j..] < y && content == Head(x, j) + Join(y) + Newline(newline)
  }

  lemma EarlierGoesFurther(x: seq<string>, a: Span, y: seq<string>, b: Span)
    requires |x| == Height(a) && |y| == Height(b) && Height(a) >= 1 && Height(b) >= 1 && Overlap(a, b)
    requires a.startLine <= b.startLine && a.endLine >= b.endLine
    ensures UnionLines(x, a, y, b) == x
  {
    var u := UnionLines(x, a, y, b);
    forall i | 0 <= i < |x| ensures u[i] == x[i] {
      assert u[i] == LineOf(x, a, y, b, a.startLine + i);
    }
    assert |u| == |x|;
  }

  lemma LaterGoesFurther(x: seq<string>, a: Span, y: seq<string>, b: Span)
    requires |x| == Height(a) && |y| == Height(b) && Height(a) >= 1 && Height(b) >= 1 && Overlap(a, b)
    requires a.startLine <= b.startLine && a.endLine < b.endLine
    requires AgreeTo(x, a, y, b, Union(a, b).endLine + 1)
    ensures UnionLines(x, a, y, b) == x[..b.startLine - a.startLine] + y
  {
    var u, w := UnionLines(x, a, y, b), x[..b.startLine - a.startLine] + y;
    forall i | 0 <= i < |u| ensures u[i] == w[i] {
      assert AgreeAt(x, a, y, b, a.startLine + i);
      assert u[i] == LineOf(x, a, y, b, a.startLine + i);
    }
    assert |u| == |w|;
  }

  lemma SharedLines(x: seq<string>, a: Span, y: seq<string>, b: Span, j: nat)
    requires |x| == Height(a) && |y| == Height(b) && Height(a) >= 1 && Height(b) >= 1 && Overlap(a, b)
    requires j == b.startLine - a.startLine && AgreeTo(x, a, y, b, Union(a, b).endLine + 1)
    ensures j < |x| && x[j] == y[0] && if |x| - j >= |y| then y <= x[j..] else x[j..] < y
  {
    forall i | j <= i < |x| && i - j < |y| ensures x[i] == y[i - j] {
      assert AgreeAt(x, a, y, b, a.startLine + i);
    }
  }

  lemma MergedLines(x: seq<string>, a: Span, y: seq<string>, b: Span, newline: bool, j: nat)
    requires |x| >= 1 && |y| >= 1 && Overlap(a, b) && j == b.startLine - a.startLine
    requires MergeLines(x, a, y, b, newline).Some?
    ensures |x| == Height(a) && |y| == Height(b) && Joins(x, y, j, newline, MergeLines(x, a, y, b, newline).value)
  {
    SharedLines(x, a, y, b, j);
    if a.endLine >= b.endLine {
      EarlierGoesFurther(x, a, y, b);
    } else {
      LaterGoesFurther(x, a, y, b);
      JoinSplits(x[..j] + y, j);
      HeadOfPrefix(x[..j] + y, x, j);
      assert (x[..j] + y)[j..] == y;
    }
  }

  /** The merged text, of candidates that are not the same quotation. */
  lemma MergedText(a: Candidate, b: Candidate, x: seq<string>, y: seq<string>, j: nat, newline: bool, content: string)
    requires Merged(a, b).Some? && !(a.span == b.span && a.content == b.content)
    requires x == Pieces(a.content) && y == Pieces(b.content) && j == b.span.startLine - a.span.startLine
    requires newline == (EndsInNewline(a.content) || EndsInNewline(b.content)) && content == Merged(a, b).value.content
    ensures |x| == Height(a.span) && |y| == Height(b.span)
    ensures Joins(x, y, j, newline, content)
  {
    MergedLines(x, a.span, y, b.span, newline, j);
  }

  // ---------- in the document ----------

  /** The document holds this text from `p` on. */
  ghost predicate HoldsAt(bytes: string, p: int, text: string) {
    0 <= p && p + |text| <= |bytes| && bytes[p..p + |text|] == text
  }

  lemma HoldsBoth(bytes: string, p: int, s: string, t: string)
    ensures HoldsAt(bytes, p, s + t) <==> HoldsAt(bytes, p, s) && HoldsAt(bytes, p + |s|, t)
  {
    if HoldsAt(bytes, p, s + t) {
      assert bytes[p..p + |s|] == (s + t)[..|s|];
      assert bytes[p + |s|..p + |s| + |t|] == (s + t)[|s|..];
    }
    if HoldsAt(bytes, p, s) && HoldsAt(bytes, p + |s|, t) {
      assert bytes[p..p + |s + t|] == bytes[p..p + |s|] + bytes[p + |s|..p + |s| + |t|];
    }
  }

  lemma {:induction false} LineAfter(bytes: string, p: int, head: string)
    requires HoldsAt(bytes, p, head)
    ensures LineAt(bytes, p + |head|) == LineAt(bytes, p) + Newlines(head)
    ensures EndsInNewline(head) ==> bytes[p + |head| - 1] == '\n'
  {
    assert bytes[..p] + bytes[p..p + |head|] == bytes[..p + |head|];
    NewlinesAdd(bytes[..p], head);
    if EndsInNewline(head) { assert bytes[p..p + |head|][|head| - 1] == '\n'; }
  }

  lemma Regroup(x: string, y: string, z: string)
    ensures x + y + z == x + (y + z)
  {
  }

  /** The document holds these lines from `p`, on line `line`. */
  ghost predicate Laid(bytes: string, p: int, line: int, x: seq<string>, ended: bool) {
    && x != [] && (forall i | 0 <= i < |x| :: IsLine(x[i]))
    && HoldsAt(bytes, p, Join(x) + Newline(ended)) && LineAt(bytes, p) == line
  }

  function Size(x: seq<string>, ended: bool): nat {
    |Join(x)| + |Newline(ended)|
  }

  lemma PartsHold(bytes: string, p: int, whole: string, head: string, rest: string, end: string)
    requires HoldsAt(bytes, p, whole + end) && whole == head + rest
    ensures HoldsAt(bytes, p, head) && HoldsAt(bytes, p + |head|, rest + end)
  {
    Regroup(head, rest, end);
    HoldsBoth(bytes, p, head, rest + end);
  }

  lemma {:induction false} PartsOfLines(x: seq<string>, j: nat)
    requires j < |x| && forall i | 0 <= i < |x| :: IsLine(x[i])
    ensures Join(x) == Head(x, j) + Join(x[j..]) && |Head(x, j)| == Offset(x, j) && Newlines(Head(x, j)) == j
    ensures j > 0 ==> EndsInNewline(Head(x, j))
  {
    HeadFacts(x, j);
    JoinSplits(x, j);
  }

  lemma {:induction false} PartsAreLaid(bytes: string, p: int, line: int, whole: string, head: string, rest: string,
                                        xs: seq<string>, ended: bool, q: int, n: nat)
    requires q == p + |head| && n == Newlines(head)
    requires HoldsAt(bytes, p, whole + Newline(ended)) && LineAt(bytes, p) == line && whole == head + rest
    requires xs != [] && (forall i | 0 <= i < |xs| :: IsLine(xs[i])) && rest == Join(xs)
    ensures HoldsAt(bytes, p, head) && Laid(bytes, q, line + n, xs, ended)
    ensures EndsInNewline(head) ==> q > p && bytes[q - 1] == '\n'
  {
    PartsHold(bytes, p, whole, head, rest, Newline(ended));
    LineAfter(bytes, p, head);
  }

  /** The part of the lines before `j`, and the part `xs` from `j` on, at `q`. */
  lemma {:induction false} LaidParts(bytes: string, p: int, line: int, x: seq<string>, ended: bool, j: nat, q: int,
                                     head: string, xs: seq<string>)
    requires Laid(bytes, p, line, x, ended) && j < |x| && q == p + Offset(x, j) && head == Head(x, j) && xs == x[j..]
    ensures Join(x) == head + Join(xs) && q == p + |head| && HoldsAt(bytes, p, head)
    ensures Laid(bytes, q, line + j, xs, ended)
    ensures j > 0 ==> 0 < q && bytes[q - 1] == '\n'
  {
    PartsOfLines(x, j);
    var whole, rest := Join(x), Join(xs);
    assert xs != [];
    assert forall i | 0 <= i < |xs| :: IsLine(xs[i]);
    PartsAreLaid(bytes, p, line, whole, head, rest, xs, ended, q, j);
  }

  lemma {:induction false} JoinGrows(short: seq<string>, long: seq<string>)
    requires short != [] && short < long
    ensures |Join(short)| < |Join(long)|
  {
    assert short[0] == long[0];
    if |short| > 1 {
      JoinGrows(short[1..], long[1..]);
    }
  }

  ghost predicate LiveAt(bytes: string, start: int, end: int, content: string) {
    HoldsAt(bytes, start, content) && end == start + |content|
  }

  lemma SliceIsLive(bytes: string, span: Span, content: string)
    ensures SliceMatches(bytes, span, content) <==> LiveAt(bytes, span.startByte, span.endByte, content)
  {
  }

  // ---------- the first common line at one place ----------

  /** The second goes further: the text is the lines before it, then the second. */
  lemma LaterIsLive(bytes: string, p: int, head: string, r: int, rest: string, ea: bool, eb: bool, aSize: nat,
                    content: string)
    requires r == p + |head| && HoldsAt(bytes, p, head) && HoldsAt(bytes, r, rest + Newline(eb))
    requires content == head + rest + Newline(ea || eb) && aSize <= |head| + |rest|
    ensures Min(p, r) == p && (LiveAt(bytes, p, Max(p + aSize, r + |rest| + |Newline(eb)|), content) <==> !(ea && !eb))
  {
    if !(ea && !eb) {
      assert content == head + (rest + Newline(eb));
      HoldsBoth(bytes, p, head, rest + Newline(eb));
    }
  }

  /** The first goes as far or further: the text is the first, with a newline if either has one. */
  lemma EarlierIsLive(bytes: string, p: int, head: string, rest: string, ea: bool, r: int, shared: string, eb: bool,
                      content: string)
    requires r == p + |head| && HoldsAt(bytes, p, head + rest + Newline(ea)) && HoldsAt(bytes, r, shared + Newline(eb))
    requires content == head + rest + Newline(ea || eb) && (shared == rest || |shared| < |rest|)
    ensures Min(p, r) == p
    ensures LiveAt(bytes, p, Max(p + |head| + |rest| + |Newline(ea)|, r + |shared| + |Newline(eb)|), content)
       <==> !(shared != rest && eb && !ea)
  {
    if shared == rest && eb && !ea {
      assert head + rest + Newline(ea) == head + rest;
      HoldsBoth(bytes, p, head, rest);
      assert content == head + (shared + Newline(eb));
      HoldsBoth(bytes, p, head, shared + Newline(eb));
    }
  }

  lemma {:induction false} AlignedIsLive(bytes: string, p: int, la: int, x: seq<string>, ea: bool, r: int, lb: int,
                                         y: seq<string>, eb: bool, j: nat, content: string)
    requires Laid(bytes, p, la, x, ea) && Laid(bytes, r, lb, y, eb) && Joins(x, y, j, ea || eb, content)
    requires r == p + Offset(x, j)
    ensures Min(p, r) == p
    ensures LiveAt(bytes, p, Max(p + Size(x, ea), r + Size(y, eb)), content)
       <==> !(|x| - j < |y| && ea && !eb) && !(|x| - j > |y| && eb && !ea)
  {
    var head, xs := Head(x, j), x[j..];
    LaidParts(bytes, p, la, x, ea, j, r, head, xs);
    if |xs| < |y| {
      JoinGrows(xs, y);
      LaterIsLive(bytes, p, head, r, Join(y), ea, eb, Size(x, ea), content);
    } else {
      if |xs| > |y| {
        assert y < xs;
        JoinGrows(y, xs);
      } else {
        assert y == xs;
      }
      EarlierIsLive(bytes, p, head, Join(xs), ea, r, Join(y), eb, content);
    }
  }

  // ---------- the first common line at two places ----------

  /** Equal pieces at two places of one line end apart, so no newline follows the first. */
  lemma NothingFollows(bytes: string, p: int, q: int, t: string, after: string)
    requires p < q && IsLine(t) && HoldsAt(bytes, p, t + after) && HoldsAt(bytes, q, t)
    requires LineAt(bytes, p) == LineAt(bytes, q)
    ensures after == "" || after[0] != '\n'
  {
    if after != "" {
      var i := p + |t|;
      assert bytes[p..p + |t + after|][|t|] == after[0];
      SameLine(bytes, p, q);
      if q <= i {
        assert bytes[i] == bytes[q..q + |t|][i - q] && t[i - q] in t;
      }
    }
  }

  /** What follows the first line. */
  function AfterFirst(x: seq<string>, ended: bool): string
    requires x != []
  {
    if |x| == 1 then Newline(ended) else "\n" + Join(x[1..]) + Newline(ended)
  }

  lemma {:induction false} FirstLine(x: seq<string>, ended: bool)
    requires x != []
    ensures Join(x) + Newline(ended) == x[0] + AfterFirst(x, ended)
    ensures AfterFirst(x, ended) != "" ==> AfterFirst(x, ended)[0] == '\n'
    ensures AfterFirst(x, ended) == "" ==> x == [x[0]] && !ended
  {
  }

  lemma FirstLineHolds(bytes: string, p: int, line: int, x: seq<string>, ended: bool)
    requires Laid(bytes, p, line, x, ended)
    ensures HoldsAt(bytes, p, x[0] + AfterFirst(x, ended)) && HoldsAt(bytes, p, x[0]) && IsLine(x[0])
  {
    FirstLine(x, ended);
    HoldsBoth(bytes, p, x[0], AfterFirst(x, ended));
  }

  /** The second cannot begin before the place of its line in the first. */
  lemma StartsLater(bytes: string, q: int, j: nat, r: int)
    requires 0 <= q <= |bytes| && 0 <= r <= |bytes| && LineAt(bytes, q) == LineAt(bytes, r)
    requires (j == 0 ==> q <= r) && (j > 0 ==> 0 < q && bytes[q - 1] == '\n')
    ensures q <= r
  {
    if r < q { SameLine(bytes, r, q); }
  }

  /** The lines that the two share are the last of the first, which ends without a newline. */
  lemma SharedIsLast(bytes: string, q: int, line: int, xs: seq<string>, ea: bool, r: int, y: seq<string>, eb: bool)
    requires Laid(bytes, q, line, xs, ea) && Laid(bytes, r, line, y, eb) && q < r && xs[0] == y[0]
    ensures xs == [y[0]] && !ea
  {
    FirstLineHolds(bytes, q, line, xs, ea);
    FirstLineHolds(bytes, r, line, y, eb);
    NothingFollows(bytes, q, r, y[0], AfterFirst(xs, ea));
    FirstLine(xs, ea);
  }

  lemma {:induction false} MisalignedIsNotLive(bytes: string, p: int, la: int, x: seq<string>, ea: bool, r: int,
                                               lb: int, y: seq<string>, eb: bool, j: nat, content: string)
    requires Laid(bytes, p, la, x, ea) && Laid(bytes, r, lb, y, eb) && Joins(x, y, j, ea || eb, content)
    requires la + j == lb && r != p + Offset(x, j) && (j == 0 ==> p <= r)
    ensures Min(p, r) == p
    ensures !LiveAt(bytes, p, Max(p + Size(x, ea), r + Size(y, eb)), content)
  {
    var q, head, xs := p + Offset(x, j), Head(x, j), x[j..];
    LaidParts(bytes, p, la, x, ea, j, q, head, xs);
    StartsLater(bytes, q, j, r);
    SharedIsLast(bytes, q, lb, xs, ea, r, y, eb);
    LengthDiffers(x, y, j, eb, content, head, xs);
  }

  lemma {:induction false} LengthDiffers(x: seq<string>, y: seq<string>, j: nat, eb: bool, content: string,
                                         head: string, xs: seq<string>)
    requires Joins(x, y, j, eb, content) && head == Head(x, j) && xs == x[j..] && xs == [y[0]]
    requires Join(x) == head + Join(xs)
    ensures |content| == |head| + Size(y, eb) && Size(y, eb) >= |y[0]| && |Join(x)| == |head| + |y[0]|
  {
    FirstLine(y, eb);
    if |x| - j >= |y| { assert y == xs; }
  }

  // ---------- when a merge is live ----------

  /** The lines of a candidate, laid out where its span says. */
  ghost predicate LaidAs(bytes: string, c: Candidate, x: seq<string>) {
    && Laid(bytes, c.span.startByte, c.span.startLine, x, EndsInNewline(c.content))
    && c.span.endByte == c.span.startByte + Size(x, EndsInNewline(c.content)) && |x| == Height(c.span)
  }

  lemma SliceIsLaid(bytes: string, c: Candidate, x: seq<string>)
    requires IsSlice(bytes, c.span, c.content) && x == Pieces(c.content) && |x| == Height(c.span)
    ensures LaidAs(bytes, c, x)
  {
    PiecesFacts(c.content);
    LinesAreLaid(bytes, c, x);
  }

  lemma {:induction false} LinesAreLaid(bytes: string, c: Candidate, x: seq<string>)
    requires IsSlice(bytes, c.span, c.content) && |x| == Height(c.span) && x != [] && forall i | 0 <= i < |x| ::
                 IsLine(x[i])
    requires c.content == Join(x) + Newline(EndsInNewline(c.content))
    ensures LaidAs(bytes, c, x)
  {
  }

  lemma {:induction false} AlignedInOrder(a: Candidate, b: Candidate, x: seq<string>, j: nat, aligned: bool)
    requires Merged(a, b).Some? && x == Pieces(a.content) && j == b.span.startLine - a.span.startLine
    requires aligned == Aligned(a, b)
    ensures j <= |x| && (aligned <==> b.span.startByte == a.span.startByte + Offset(x, j))
  {
    assert Offset(Pieces(b.content), 0) == 0;
  }

  /** What is known of two slices that merge: their lines `x` and `y`, and the merged text. */
  ghost predicate Ready(bytes: string, a: Candidate, b: Candidate, x: seq<string>, y: seq<string>, j: nat,
                        content: string, aligned: bool)
  {
    && LaidAs(bytes, a, x) && LaidAs(bytes, b, y) && InOrder(a, b) && j == b.span.startLine - a.span.startLine
    && Joins(x, y, j, EndsInNewline(a.content) || EndsInNewline(b.content), content)
    && j <= |x| && (aligned <==> b.span.startByte == a.span.startByte + Offset(x, j))
  }

  lemma GetReady(bytes: string, a: Candidate, b: Candidate, x: seq<string>, y: seq<string>, j: nat, content: string,
                 aligned: bool)
    requires IsSlice(bytes, a.span, a.content) && IsSlice(bytes, b.span, b.content) && Merged(a, b).Some?
    requires InOrder(a, b)
    requires !(a.span == b.span && a.content == b.content)
    requires x == Pieces(a.content) && y == Pieces(b.content) && j == b.span.startLine - a.span.startLine
    requires content == Merged(a, b).value.content && aligned == Aligned(a, b)
    ensures Ready(bytes, a, b, x, y, j, content, aligned)
  {
    var newline := EndsInNewline(a.content) || EndsInNewline(b.content);
    MergedText(a, b, x, y, j, newline, content);
    AlignedInOrder(a, b, x, j, aligned);
    SliceIsLaid(bytes, a, x);
    SliceIsLaid(bytes, b, y);
  }

  /** The condition on the parts of the two slices. */
  lemma JoinedIsLive(bytes: string, a: Candidate, b: Candidate, x: seq<string>, y: seq<string>, j: nat, content: string,
                     aligned: bool)
    requires Ready(bytes, a, b, x, y, j, content, aligned)
    ensures var u := Union(a.span, b.span);
            && u.startByte == a.span.startByte && u.startLine == a.span.startLine
            && (SliceMatches(bytes, u, content) <==> aligned && !NewlineTooMany(a, b))
  {
    var ea, eb := EndsInNewline(a.content), EndsInNewline(b.content);
    SliceIsLive(bytes, Union(a.span, b.span), content);
    if aligned {
      AlignedIsLive(bytes, a.span.startByte, a.span.startLine, x, ea, b.span.startByte, b.span.startLine, y, eb, j,
                    content);
    } else {
      MisalignedIsNotLive(bytes, a.span.startByte, a.span.startLine, x, ea, b.span.startByte, b.span.startLine, y, eb,
                          j, content);
    }
  }

  lemma MergeInOrder(bytes: string, a: Candidate, b: Candidate)
    requires IsSlice(bytes, a.span, a.content) && IsSlice(bytes, b.span, b.content) && Merged(a, b).Some?
    requires InOrder(a, b)
    requires !(a.span == b.span && a.content == b.content)
    ensures var m := Merged(a, b).value;
            && m.span.startByte == a.span.startByte && m.span.startLine == a.span.startLine
            && (SliceMatches(bytes, m.span, m.content) <==> Aligned(a, b) && !NewlineTooMany(a, b))
  {
    var m := Merged(a, b).value;
    var x, y, j := Pieces(a.content), Pieces(b.content), b.span.startLine - a.span.startLine;
    GetReady(bytes, a, b, x, y, j, m.content, Aligned(a, b));
    JoinedIsLive(bytes, a, b, x, y, j, m.content, Aligned(a, b));
  }

  /** The exact condition: two live slices merge into a live slice if and only if the first line
      that both have begins at one place for both, and the one that goes further ends in a
      newline if the other does. */
  lemma MergeIsLiveExactly(bytes: string, a: Candidate, b: Candidate)
    requires IsSlice(bytes, a.span, a.content) && IsSlice(bytes, b.span, b.content) && Merged(a, b).Some?
    ensures var m := Merged(a, b).value;
            && (SliceMatches(bytes, m.span, m.content) <==> Aligned(a, b) && !NewlineTooMany(a, b))
            && (SliceMatches(bytes, m.span, m.content) ==> IsSlice(bytes, m.span, m.content))
  {
    if a.span == b.span && a.content == b.content {
      assert Merged(a, b).value.span == a.span;
    } else if InOrder(a, b) {
      MergeInOrder(bytes, a, b);
    } else {
      MergeIsSymmetric(a, b);
      MergeInOrder(bytes, b, a);
    }
  }

  /** Two slices with one text on one line merge, but not into a live slice. */
  lemma RepeatedTextIsSpoiled(a: Candidate, b: Candidate)
    requires a.span == Span(1, 1, 0, 1) && b.span == Span(1, 1, 3, 4) && a.content == b.content == "F"
    ensures var bytes := "F; F\n";
            && IsSlice(bytes, a.span, a.content) && IsSlice(bytes, b.span, b.content)
            && Merged(a, b).Some? && !NewlineTooMany(a, b)
            && !SliceMatches(bytes, Merged(a, b).value.span, Merged(a, b).value.content)
  {
    var bytes := "F; F\n";
    assert bytes[3..4] == "F" && bytes[..0] == "" && bytes[..3] == "F; ";
    NoNewlines("F; ");
    SplitOfLine("F");
    assert Chomp("F") == "F" && Pieces("F") == ["F"];
    assert AgreeTo(["F"], a.span, ["F"], b.span, 2);
    assert Merged(a, b).Some?;
    assert Offset(["F"], 0) == 0;
    MergeIsLiveExactly(bytes, a, b);
  }
}
