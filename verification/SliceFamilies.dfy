/**
 When merging keeps evidence live over any number of merges
 (internal/contextretrieval/quality.go, `qualityMergeSpans` and `qualityDeduplicate`): it is
 enough that every two of the slices that resolvers returned merge into a live slice, if they
 merge at all.
 */
module SliceFamilies {
  import opened Wrappers
  import opened Evidence
  import opened SpanMerge
  import opened SliceMerge
  import opened LineRuns

  /** If the two merge, then into a live slice. */
  predicate MergeWell(a: Candidate, b: Candidate) {
    Merged(a, b).Some? ==> Aligned(a, b) && !NewlineTooMany(a, b)
  }

  ghost predicate AllMergeWell(s: set<Candidate>) {
    forall a, b | a in s && b in s :: MergeWell(a, b)
  }

  // ---------- slices as runs of lines ----------

  function RunOf(c: Candidate): LineRun {
    LineRun(c.span.startLine, Pieces(c.content), c.span.startByte, EndsInNewline(c.content))
  }

  /** The line numbers of the span match the lines of the content. */
  predicate HasHeight(c: Candidate) {
    |Pieces(c.content)| == Height(c.span)
  }

  lemma AgreeIsAgreement(x: seq<string>, a: Span, y: seq<string>, b: Span, v: LineRun, w: LineRun)
    requires |x| == Height(a) && |y| == Height(b) && x != [] && y != [] && Overlap(a, b)
    requires v.first == a.startLine && v.lines == x && w.first == b.startLine && w.lines == y
    ensures AgreeTo(x, a, y, b, Union(a, b).endLine + 1) <==> Agree(v, w)
  {
    if Agree(v, w) {
      forall line | Union(a, b).startLine <= line < Union(a, b).endLine + 1 ensures AgreeAt(x, a, y, b, line) {
        if v.Has(line) && w.Has(line) { assert v.TextAt(line) == w.TextAt(line); }
      }
    }
    if AgreeTo(x, a, y, b, Union(a, b).endLine + 1) {
      forall line | v.Has(line) && w.Has(line) ensures v.TextAt(line) == w.TextAt(line) {
        assert AgreeAt(x, a, y, b, line);
      }
    }
  }

  /** Slices merge exactly if their runs meet and agree. */
  lemma MergesIfAgree(a: Candidate, b: Candidate)
    requires HasHeight(a) && HasHeight(b)
    ensures Merged(a, b).Some? <==> Meet(RunOf(a), RunOf(b)) && Agree(RunOf(a), RunOf(b))
  {
    if Overlap(a.span, b.span) {
      AgreeIsAgreement(Pieces(a.content), a.span, Pieces(b.content), b.span, RunOf(a), RunOf(b));
    }
  }

  lemma AlignedIsInPlace(a: Candidate, b: Candidate)
    requires HasHeight(a) && HasHeight(b) && Merged(a, b).Some? && Meet(RunOf(a), RunOf(b))
    ensures Aligned(a, b) <==> InPlace(RunOf(a), RunOf(b))
    ensures NewlineTooMany(a, b) <==> EndsDiffer(RunOf(a), RunOf(b))
  {
  }

  /** Only copies merge with a slice whose line numbers do not match. */
  lemma OthersAreCopies(a: Candidate, b: Candidate)
    requires Merged(a, b).Some? && !(HasHeight(a) && HasHeight(b))
    ensures a.span == b.span && a.content == b.content
    ensures Merged(a, b).value.span == a.span && Merged(a, b).value.content == a.content
  {
  }

  // ---------- the run of a merge ----------

  ghost predicate AllLines(x: seq<string>) {
    forall i | 0 <= i < |x| :: IsLine(x[i])
  }

  /** If the last line of a text is empty, the text is, or it ends in a newline. */
  lemma EmptyLastPiece(content: string)
    requires Pieces(content)[|Pieces(content)| - 1] == ""
    ensures content == "" || EndsInNewline(content)
  {
    var x, k := Pieces(content), |Pieces(content)| - 1;
    PiecesFacts(content);
    JoinSplits(x, k);
    HeadFacts(x, k);
    assert x[k..] == [""] && Join([""]) == "";
    assert content == Head(x, k) + Newline(EndsInNewline(content));
  }

  /** Lines that are joined and split again are the same lines. */
  lemma {:induction false} PiecesOfText(z: seq<string>, newline: bool, content: string)
    requires z != [] && AllLines(z) && content == Join(z) + Newline(newline)
    requires EndsInNewline(content) == newline
    ensures Pieces(content) == z
  {
    SplitOfJoin(z);
    if newline {
      ChompTerminated(Join(z));
    } else {
      assert content == Join(z);
    }
  }

  lemma {:induction false} UnendedText(z: seq<string>, content: string)
    requires z != [] && AllLines(z) && content == Join(z) + Newline(false)
    requires z[|z| - 1] != "" || z == [""]
    ensures !EndsInNewline(content)
  {
    assert content == Join(z);
    if z[|z| - 1] != "" { JoinEnd(z); }
  }

  /** The merged lines `z` with both runs in them. */
  ghost predicate HoldsBothRuns(z: seq<string>, first: int, v: LineRun, w: LineRun) {
    var u := LineRun(first, z, 0, false);
    && z != [] && u.Last() == (if v.Last() < w.Last() then w.Last() else v.Last())
    && first == (if w.first < v.first then w.first else v.first)
    && Agree(v, u) && Agree(w, u)
  }

  lemma UnionHoldsBoth(x: seq<string>, a: Span, y: seq<string>, b: Span, v: LineRun, w: LineRun)
    requires |x| == Height(a) && |y| == Height(b) && x != [] && y != [] && Overlap(a, b) && Agree(v, w)
    requires v.first == a.startLine && v.lines == x && w.first == b.startLine && w.lines == y
    ensures HoldsBothRuns(UnionLines(x, a, y, b), Union(a, b).startLine, v, w)
  {
    var z, first := UnionLines(x, a, y, b), Union(a, b).startLine;
    var u := LineRun(first, z, 0, false);
    forall line | v.Has(line) && u.Has(line) ensures v.TextAt(line) == u.TextAt(line) {
      assert z[line - first] == LineOf(x, a, y, b, line);
    }
    forall line | w.Has(line) && u.Has(line) ensures w.TextAt(line) == u.TextAt(line) {
      assert z[line - first] == LineOf(x, a, y, b, line);
      if v.Has(line) { assert v.TextAt(line) == w.TextAt(line); }
    }
  }

  /** If neither run ends in a newline, the last merged line is not empty, unless both are. */
  lemma LastOfUnion(a: Candidate, b: Candidate, z: seq<string>, first: int)
    requires Meet(RunOf(a), RunOf(b)) && HoldsBothRuns(z, first, RunOf(a), RunOf(b))
    requires !EndsInNewline(a.content) && !EndsInNewline(b.content)
    ensures z[|z| - 1] != "" || z == [""]
  {
    var v, w, u := RunOf(a), RunOf(b), LineRun(first, z, 0, false);
    var last := u.Last();
    if z[|z| - 1] == "" {
      assert u.TextAt(last) == "";
      if v.Last() == last { EmptyAtEnd(a, u); }
      if w.Last() == last { EmptyAtEnd(b, u); }
    }
  }

  lemma EmptyAtEnd(c: Candidate, u: LineRun)
    requires u.lines != [] && u.Last() == RunOf(c).Last() && u.TextAt(u.Last()) == "" && Agree(RunOf(c), u)
    requires u.first <= RunOf(c).first && !EndsInNewline(c.content)
    ensures RunOf(c).first == u.Last()
  {
    var v := RunOf(c);
    assert v.TextAt(v.Last()) == "";
    EmptyLastPiece(c.content);
    assert Pieces("") == [""];
  }

  /** What the merge makes of two runs. */
  lemma MergedRun(a: Candidate, b: Candidate)
    requires HasHeight(a) && HasHeight(b) && Merged(a, b).Some?
    ensures var m := Merged(a, b).value;
            && HasHeight(m) && HoldsBothRuns(Pieces(m.content), m.span.startLine, RunOf(a), RunOf(b))
            && (EndsInNewline(m.content) <==> EndsInNewline(a.content) || EndsInNewline(b.content))
  {
    MergesIfAgree(a, b);
    if !(a.span == b.span && a.content == b.content) {
      var z, newline := UnionLines(Pieces(a.content), a.span, Pieces(b.content), b.span), EndsInNewline(a.content)
          || EndsInNewline(b.content);
      UnionHoldsBoth(Pieces(a.content), a.span, Pieces(b.content), b.span, RunOf(a), RunOf(b));
      MergedRunOf(a, b, z, newline, Merged(a, b).value.content);
    }
  }

  lemma {:induction false} MergedRunOf(a: Candidate, b: Candidate, z: seq<string>, newline: bool, content: string)
    requires Meet(RunOf(a), RunOf(b)) && HoldsBothRuns(z, Union(a.span, b.span).startLine, RunOf(a), RunOf(b))
    requires content == Join(z) + Newline(newline) && newline == (EndsInNewline(a.content) || EndsInNewline(b.content))
    ensures Pieces(content) == z && EndsInNewline(content) == newline
  {
    PiecesFacts(a.content);
    PiecesFacts(b.content);
    UnionIsLines(z, Union(a.span, b.span).startLine, RunOf(a), RunOf(b));
    if newline {
      ChompTerminated(Join(z));
    } else {
      LastOfUnion(a, b, z, Union(a.span, b.span).startLine);
      UnendedText(z, content);
    }
    PiecesOfText(z, newline, content);
  }

  lemma UnionIsLines(z: seq<string>, first: int, v: LineRun, w: LineRun)
    requires Meet(v, w) && HoldsBothRuns(z, first, v, w) && AllLines(v.lines) && AllLines(w.lines)
    ensures AllLines(z)
  {
    var u := LineRun(first, z, 0, false);
    forall i | 0 <= i < |z| ensures IsLine(z[i]) {
      var line := first + i;
      if v.Has(line) { assert v.TextAt(line) == u.TextAt(line); } else { assert w.TextAt(line) == u.TextAt(line); }
    }
  }

  // ---------- what has been merged from slices ----------

  function Runs(parts: set<Candidate>): set<LineRun> {
    set p | p in parts :: RunOf(p)
  }

  /** A live slice that was merged from these parts, or a copy of one of them. */
  ghost predicate Grown(bytes: string, c: Candidate, parts: set<Candidate>) {
    && IsSlice(bytes, c.span, c.content)
    && if HasHeight(c) then (forall p | p in parts :: HasHeight(p)) && MadeOf(RunOf(c), Runs(parts))
       else exists p :: p in parts && p.span == c.span && p.content == c.content
  }

  lemma GrowsFromItself(bytes: string, c: Candidate)
    requires IsSlice(bytes, c.span, c.content)
    ensures Grown(bytes, c, {c})
  {
    if HasHeight(c) {
      IsMadeOfItself(RunOf(c));
      assert Runs({c}) == {RunOf(c)} by {
        assert c in {c};
      }
    }
  }

  lemma PartsFit(parts: set<Candidate>)
    requires AllMergeWell(parts) && forall p | p in parts :: HasHeight(p)
    ensures AllFit(Runs(parts))
  {
    forall v, w | v in Runs(parts) && w in Runs(parts) ensures Fits(v, w) {
      var p :| p in parts && RunOf(p) == v;
      var q :| q in parts && RunOf(q) == w;
      MergesIfAgree(p, q);
      assert MergeWell(p, q);
      if Meet(v, w) && Agree(v, w) { AlignedIsInPlace(p, q); }
    }
  }

  lemma InOrderIsUnion(bytes: string, a: Candidate, b: Candidate)
    requires IsSlice(bytes, a.span, a.content) && IsSlice(bytes, b.span, b.content) && HasHeight(a) && HasHeight(b)
    requires Merged(a, b).Some? && InOrder(a, b) && Aligned(a, b)
    ensures IsUnion(RunOf(Merged(a, b).value), RunOf(a), RunOf(b))
  {
    var m := Merged(a, b).value;
    var u, v, w := RunOf(m), RunOf(a), RunOf(b);
    MergesIfAgree(a, b);
    AlignedIsInPlace(a, b);
    MergedRun(a, b);
    assert m.span.startByte == a.span.startByte by {
      if !(a.span == b.span && a.content == b.content) { MergeInOrder(bytes, a, b); }
    }
    RunsInUnion(u, v, w);
  }

  lemma RunsInUnion(u: LineRun, v: LineRun, w: LineRun)
    requires Meet(v, w) && HoldsBothRuns(u.lines, u.first, v, w) && v.first <= w.first && u.at == v.at && InPlace(v, w)
    ensures PartOf(v, u) && PartOf(w, u)
  {
    var z := LineRun(u.first, u.lines, 0, false);
    forall line | v.Has(line) && u.Has(line) ensures v.TextAt(line) == u.TextAt(line) {
      assert v.TextAt(line) == z.TextAt(line);
    }
    forall line | w.Has(line) && u.Has(line) ensures w.TextAt(line) == u.TextAt(line) {
      assert w.TextAt(line) == z.TextAt(line);
    }
    assert u.PlaceOf(v.first) == u.at;
    PartPlace(v, u, w.first);
    assert w.PlaceOf(w.first) == w.at;
  }

  lemma UnionTurns(u: LineRun, v: LineRun, w: LineRun)
    requires IsUnion(u, v, w)
    ensures IsUnion(u, w, v)
  {
  }

  lemma MergeIsUnion(bytes: string, a: Candidate, b: Candidate)
    requires IsSlice(bytes, a.span, a.content) && IsSlice(bytes, b.span, b.content) && HasHeight(a) && HasHeight(b)
    requires Merged(a, b).Some? && Aligned(a, b)
    ensures IsUnion(RunOf(Merged(a, b).value), RunOf(a), RunOf(b))
  {
    if InOrder(a, b) {
      InOrderIsUnion(bytes, a, b);
    } else {
      MergeIsSymmetric(a, b);
      InOrderIsUnion(bytes, b, a);
      UnionTurns(RunOf(Merged(b, a).value), RunOf(b), RunOf(a));
    }
  }

  lemma RunsOfUnion(ps: set<Candidate>, qs: set<Candidate>)
    ensures Runs(ps + qs) == Runs(ps) + Runs(qs)
  {
    forall v ensures v in Runs(ps + qs) <==> v in Runs(ps) + Runs(qs) {
      if v in Runs(ps) { var p :| p in ps && RunOf(p) == v; assert p in ps + qs; }
      if v in Runs(qs) { var q :| q in qs && RunOf(q) == v; assert q in ps + qs; }
    }
  }

  /** What has been merged from slices that merge well merges well. */
  lemma GrownMergeWell(bytes: string, a: Candidate, ps: set<Candidate>, b: Candidate, qs: set<Candidate>)
    requires Grown(bytes, a, ps) && Grown(bytes, b, qs) && AllMergeWell(ps + qs) && Merged(a, b).Some?
    requires HasHeight(a) && HasHeight(b)
    ensures Aligned(a, b) && !NewlineTooMany(a, b)
  {
    MergesIfAgree(a, b);
    RunsOfUnion(ps, qs);
    PartsFit(ps + qs);
    MadeFit(RunOf(a), Runs(ps), RunOf(b), Runs(qs));
    AlignedIsInPlace(a, b);
  }

  /** So the merge is live, and has been merged from the parts of both. */
  lemma MergeGrows(bytes: string, a: Candidate, ps: set<Candidate>, b: Candidate, qs: set<Candidate>)
    requires Grown(bytes, a, ps) && Grown(bytes, b, qs) && AllMergeWell(ps + qs) && Merged(a, b).Some?
    ensures Grown(bytes, Merged(a, b).value, ps + qs)
  {
    var m := Merged(a, b).value;
    if HasHeight(a) && HasHeight(b) {
      GrownMergeWell(bytes, a, ps, b, qs);
      MergeIsLiveExactly(bytes, a, b);
      MergeIsUnion(bytes, a, b);
      MergedRun(a, b);
      MergesIfAgree(a, b);
      AlignedIsInPlace(a, b);
      RunsOfUnion(ps, qs);
      UnionIsMade(RunOf(m), RunOf(a), Runs(ps), RunOf(b), Runs(qs));
    } else {
      OthersAreCopies(a, b);
      var p :| p in ps && p.span == a.span && p.content == a.content;
      assert p in ps + qs;
    }
  }

  // ---------- deduplication ----------

  /** The candidate is live in the document of its origin, and has been merged from inputs. */
  ghost predicate GrownFrom(documents: map<Origin, string>, inputs: seq<Candidate>, c: Candidate) {
    c.origin in documents && exists parts ::
        AmongInputs(inputs, c.origin, parts) && Grown(documents[c.origin], c, parts)
  }

  ghost predicate AmongInputs(inputs: seq<Candidate>, origin: Origin, parts: set<Candidate>) {
    forall p | p in parts :: p in inputs && p.origin == origin
  }

  /** Each input is a live slice, and any two of one origin that merge, merge into a live slice. */
  ghost predicate InputsMergeWell(documents: map<Origin, string>, inputs: seq<Candidate>) {
    && (forall c | c in inputs :: c.origin in documents && IsSlice(documents[c.origin], c.span, c.content))
    && (forall a, b | a in inputs && b in inputs && a.origin == b.origin :: MergeWell(a, b))
  }

  lemma MergedIntoGrows(idOf: IdRule, bytes: string, a: Candidate, ps: set<Candidate>, b: Candidate, qs: set<Candidate>)
    requires Grown(bytes, a, ps) && Grown(bytes, b, qs) && AllMergeWell(ps + qs) && Merges(a, b)
    ensures Grown(bytes, MergedInto(idOf, a, b), ps + qs) && MergedInto(idOf, a, b).origin == a.origin
  {
    MergeGrows(bytes, a, ps, b, qs);
    SameGrowth(bytes, Merged(a, b).value, MergedInto(idOf, a, b), ps + qs);
  }

  lemma CombinedGrows(idOf: IdRule, documents: map<Origin, string>, inputs: seq<Candidate>, a: Candidate, b: Candidate)
    requires InputsMergeWell(documents, inputs)
    requires GrownFrom(documents, inputs, a) && GrownFrom(documents, inputs, b) && Merges(a, b)
    ensures GrownFrom(documents, inputs, MergedInto(idOf, a, b))
  {
    var ps :| AmongInputs(inputs, a.origin, ps) && Grown(documents[a.origin], a, ps);
    var qs :| AmongInputs(inputs, b.origin, qs) && Grown(documents[b.origin], b, qs);
    MergedIntoGrows(idOf, documents[a.origin], a, ps, b, qs);
    assert AmongInputs(inputs, a.origin, ps + qs);
  }

  /** Growth is a matter of span and content. */
  lemma SameGrowth(bytes: string, c: Candidate, k: Candidate, parts: set<Candidate>)
    requires Grown(bytes, c, parts) && k.span == c.span && k.content == c.content
    ensures Grown(bytes, k, parts)
  {
    assert RunOf(k) == RunOf(c);
  }

  /** Pairs of inputs decide: if those merge well, every result of any chain of merges is live,
      in whatever order the inputs come. */
  lemma {:induction false} DedupedStayLive(idOf: IdRule, documents: map<Origin, string>, inputs: seq<Candidate>)
    requires InputsMergeWell(documents, inputs)
    ensures forall r | r in Deduped(idOf, inputs, |inputs|) ::
              r.origin in documents && IsSlice(documents[r.origin], r.span, r.content)
  {
    var good := (c: Candidate) => GrownFrom(documents, inputs, c);
    forall i | 0 <= i < |inputs| ensures good(inputs[i]) {
      var c := inputs[i];
      GrowsFromItself(documents[c.origin], c);
      assert AmongInputs(inputs, c.origin, {c});
    }
    forall a: Candidate, b: Candidate | good(a) && good(b) && Merges(a, b) ensures good(MergedInto(idOf, a, b)) {
      CombinedGrows(idOf, documents, inputs, a, b);
    }
    DedupedKeeps(idOf, good, inputs, |inputs|);
    forall r | r in Deduped(idOf, inputs, |inputs|)
      ensures r.origin in documents && IsSlice(documents[r.origin], r.span, r.content)
    {
      assert good(r);
    }
  }
}
