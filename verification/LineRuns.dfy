/**
 Runs of lines placed in a document, as the merge of evidence sees a slice
 (internal/contextretrieval/quality.go, `qualityMergeSpans`), and runs that were merged from
 others.  If every two of the parts may be merged, so may what has been merged from them.
 */
module LineRuns {
  import opened Evidence

  /** Lines from line `first` on, the first piece at offset `at`; `ended` says whether a newline
      follows the last one. */
  datatype LineRun = LineRun(first: int, lines: seq<string>, at: int, ended: bool)
  {
    function Last(): int {
      first + |lines| - 1
    }

    predicate Has(line: int) {
      first <= line <= Last()
    }

    function TextAt(line: int): string
      requires Has(line)
    {
      lines[line - first]
    }

    /** Where the piece of a line begins. */
    function PlaceOf(line: int): int
      requires Has(line)
    {
      at + Offset(lines, line - first)
    }
  }

  predicate Meet(v: LineRun, w: LineRun) {
    v.lines != [] && w.lines != [] && v.first <= w.Last() && w.first <= v.Last()
  }

  /** They have the same text on every line that both have. */
  ghost predicate Agree(v: LineRun, w: LineRun) {
    forall line | v.Has(line) && w.Has(line) :: v.TextAt(line) == w.TextAt(line)
  }

  function FirstCommon(v: LineRun, w: LineRun): int {
    if v.first < w.first then w.first else v.first
  }

  /** The first line that both have begins at one place. */
  predicate InPlace(v: LineRun, w: LineRun)
    requires Meet(v, w)
  {
    v.PlaceOf(FirstCommon(v, w)) == w.PlaceOf(FirstCommon(v, w))
  }

  /** One of them ends in a newline, and the other goes further and does not. */
  predicate EndsDiffer(v: LineRun, w: LineRun) {
    || (v.Last() < w.Last() && v.ended && !w.ended)
    || (w.Last() < v.Last() && w.ended && !v.ended)
  }

  /** If the two merge, they merge well. */
  ghost predicate Fits(v: LineRun, w: LineRun) {
    Meet(v, w) && Agree(v, w) ==> InPlace(v, w) && !EndsDiffer(v, w)
  }

  ghost predicate AllFit(parts: set<LineRun>) {
    forall v, w | v in parts && w in parts :: Fits(v, w)
  }

  // ---------- moving along common lines ----------

  lemma {:induction false} OffsetStep(lines: seq<string>, k: nat)
    requires k < |lines|
    ensures Offset(lines, k + 1) == Offset(lines, k) + |lines[k]| + 1
  {
  }

  /** Along common lines two runs keep their distance. */
  lemma {:induction false} KeepDistance(v: LineRun, w: LineRun, from: int, steps: nat)
    requires Agree(v, w) && v.Has(from) && w.Has(from) && v.Has(from + steps) && w.Has(from + steps)
    ensures v.PlaceOf(from + steps) - v.PlaceOf(from) == w.PlaceOf(from + steps) - w.PlaceOf(from)
  {
    if steps > 0 {
      var line := from + steps - 1;
      KeepDistance(v, w, from, steps - 1);
      assert v.TextAt(line) == w.TextAt(line);
      OffsetStep(v.lines, line - v.first);
      OffsetStep(w.lines, line - w.first);
    }
  }

  lemma InPlaceAt(v: LineRun, w: LineRun, line: int)
    requires Meet(v, w) && Agree(v, w) && v.Has(line) && w.Has(line)
    ensures InPlace(v, w) <==> v.PlaceOf(line) == w.PlaceOf(line)
  {
    KeepDistance(v, w, FirstCommon(v, w), line - FirstCommon(v, w));
  }

  // ---------- parts ----------

  /** The lines of `p` are lines of `m`, in the same place. */
  ghost predicate PartOf(p: LineRun, m: LineRun) {
    p.lines != [] && m.first <= p.first && p.Last() <= m.Last() && Agree(p, m) && p.at == m.PlaceOf(p.first)
  }

  lemma PartPlace(p: LineRun, m: LineRun, line: int)
    requires PartOf(p, m) && p.Has(line)
    ensures m.Has(line) && p.TextAt(line) == m.TextAt(line) && p.PlaceOf(line) == m.PlaceOf(line)
  {
    assert p.PlaceOf(p.first) == p.at;
    KeepDistance(p, m, p.first, line - p.first);
  }

  lemma PartOfPart(p: LineRun, m: LineRun, u: LineRun)
    requires PartOf(p, m) && PartOf(m, u)
    ensures PartOf(p, u)
  {
    forall line | p.Has(line) ensures p.TextAt(line) == u.TextAt(line) {
      PartPlace(p, m, line);
      PartPlace(m, u, line);
    }
    PartPlace(m, u, p.first);
  }

  lemma IsItsPart(m: LineRun)
    requires m.lines != []
    ensures PartOf(m, m)
  {
    assert m.PlaceOf(m.first) == m.at;
  }

  ghost predicate Linked(m: LineRun, parts: set<LineRun>, line: int) {
    exists p :: p in parts && p.first <= line < p.Last()
  }

  /** `m` was merged from the parts: they lie in it, cover it without a gap between two lines, and
      decide how it ends. */
  ghost predicate MadeOf(m: LineRun, parts: set<LineRun>) {
    && m.lines != [] && parts != {} && (forall p | p in parts :: PartOf(p, m))
    && (forall line | m.first <= line < m.Last() :: Linked(m, parts, line))
    && (m.ended <==> EndedByPart(m, parts))
  }

  ghost predicate EndedByPart(m: LineRun, parts: set<LineRun>) {
    exists p :: p in parts && p.Last() == m.Last() && p.ended
  }

  lemma IsMadeOfItself(m: LineRun)
    requires m.lines != []
    ensures MadeOf(m, {m})
  {
    IsItsPart(m);
    forall line | m.first <= line < m.Last() ensures Linked(m, {m}, line) {
      assert m in {m};
    }
    assert m.ended ==> m in {m} && m.Last() == m.Last();
  }

  lemma PartAt(m: LineRun, parts: set<LineRun>, line: int) returns (p: LineRun)
    requires MadeOf(m, parts) && m.Has(line)
    ensures p in parts && p.Has(line)
  {
    if line < m.Last() {
      assert Linked(m, parts, line);
      p :| p in parts && p.first <= line < p.Last();
    } else if m.first < line {
      assert Linked(m, parts, line - 1);
      p :| p in parts && p.first <= line - 1 < p.Last();
      assert PartOf(p, m);
    } else {
      p :| p in parts;
      assert PartOf(p, m);
    }
  }

  /** Parts of agreeing runs agree. */
  lemma PartsAgree(p: LineRun, m: LineRun, q: LineRun, n: LineRun)
    requires PartOf(p, m) && PartOf(q, n) && Agree(m, n)
    ensures Agree(p, q)
  {
    forall line | p.Has(line) && q.Has(line) ensures p.TextAt(line) == q.TextAt(line) {
      PartPlace(p, m, line);
      PartPlace(q, n, line);
    }
  }

  // ---------- what holds of the parts holds of the whole ----------

  /** A part that ends in a newline, whoever it is a part of, makes the run it lies in end so. */
  lemma {:induction false} NewlineIsHandedOn(n: LineRun, parts: set<LineRun>, p: LineRun)
    requires MadeOf(n, parts) && AllFit(parts) && p in parts && p.ended
    ensures n.ended
    decreases n.Last() - p.Last()
  {
    assert PartOf(p, n);
    if p.Last() < n.Last() {
      assert Linked(n, parts, p.Last());
      var q :| q in parts && q.first <= p.Last() < q.Last();
      assert PartOf(q, n);
      PartsAgree(p, n, q, n);
      assert Fits(p, q);
      NewlineIsHandedOn(n, parts, q);
    }
  }

  /** A run that ends in a newline is not continued by one that does not. */
  lemma NoEndDiffers(m: LineRun, ms: set<LineRun>, n: LineRun, ns: set<LineRun>)
    requires MadeOf(m, ms) && MadeOf(n, ns) && AllFit(ms + ns) && Meet(m, n) && Agree(m, n)
    ensures !(m.Last() < n.Last() && m.ended && !n.ended)
  {
    if m.Last() < n.Last() && m.ended {
      var p :| p in ms && p.Last() == m.Last() && p.ended;
      assert PartOf(p, m);
      assert Linked(n, ns, m.Last());
      var q :| q in ns && q.first <= m.Last() < q.Last();
      assert PartOf(q, n);
      PartsAgree(p, m, q, n);
      assert p in ms + ns && q in ms + ns && Fits(p, q);
      NewlineIsHandedOn(n, ns, q);
    }
  }

  lemma AgreementTurns(m: LineRun, n: LineRun)
    requires Agree(m, n)
    ensures Agree(n, m)
  {
  }

  /** Runs merged from parts that fit one another fit one another. */
  lemma MadeFit(m: LineRun, ms: set<LineRun>, n: LineRun, ns: set<LineRun>)
    requires MadeOf(m, ms) && MadeOf(n, ns) && AllFit(ms + ns) && Meet(m, n) && Agree(m, n)
    ensures InPlace(m, n) && !EndsDiffer(m, n)
  {
    var line := FirstCommon(m, n);
    var p := PartAt(m, ms, line);
    var q := PartAt(n, ns, line);
    assert PartOf(p, m) && PartOf(q, n);
    PartsAgree(p, m, q, n);
    assert p in ms + ns && q in ms + ns && Fits(p, q);
    InPlaceAt(p, q, line);
    PartPlace(p, m, line);
    PartPlace(q, n, line);
    NoEndDiffers(m, ms, n, ns);
    AgreementTurns(m, n);
    assert ns + ms == ms + ns;
    NoEndDiffers(n, ns, m, ms);
  }

  // ---------- merging ----------

  /** `u` is the merge of `m` and `n`. */
  ghost predicate IsUnion(u: LineRun, m: LineRun, n: LineRun) {
    && u.lines != [] && u.Last() == (if m.Last() < n.Last() then n.Last() else m.Last())
    && PartOf(m, u) && PartOf(n, u) && (u.first == m.first || u.first == n.first)
    && (u.ended <==> m.ended || n.ended)
  }

  lemma UnionIsLinked(u: LineRun, m: LineRun, ms: set<LineRun>, n: LineRun, ns: set<LineRun>, line: int)
    requires MadeOf(m, ms) && MadeOf(n, ns) && Meet(m, n) && IsUnion(u, m, n) && u.first <= line < u.Last()
    ensures Linked(u, ms + ns, line)
  {
    if m.first <= line < m.Last() {
      assert Linked(m, ms, line);
      var p :| p in ms && p.first <= line < p.Last();
      assert p in ms + ns;
    } else {
      assert Linked(n, ns, line);
      var p :| p in ns && p.first <= line < p.Last();
      assert p in ms + ns;
    }
  }

  lemma UnionIsEnded(u: LineRun, m: LineRun, ms: set<LineRun>, n: LineRun, ns: set<LineRun>)
    requires MadeOf(m, ms) && MadeOf(n, ns) && IsUnion(u, m, n) && !EndsDiffer(m, n)
    ensures u.ended <==> EndedByPart(u, ms + ns)
  {
    if u.ended {
      if m.ended && m.Last() == u.Last() {
        var p :| p in ms && p.Last() == m.Last() && p.ended;
        assert p in ms + ns;
      } else {
        var p :| p in ns && p.Last() == n.Last() && p.ended;
        assert p in ms + ns;
      }
    }
    if EndedByPart(u, ms + ns) {
      var p :| p in ms + ns && p.Last() == u.Last() && p.ended;
      if p in ms { assert PartOf(p, m); } else { assert PartOf(p, n); }
    }
  }

  /** What merges is made of the parts of both. */
  lemma UnionIsMade(u: LineRun, m: LineRun, ms: set<LineRun>, n: LineRun, ns: set<LineRun>)
    requires MadeOf(m, ms) && MadeOf(n, ns) && Meet(m, n) && IsUnion(u, m, n) && !EndsDiffer(m, n)
    ensures MadeOf(u, ms + ns)
  {
    forall p | p in ms + ns ensures PartOf(p, u) {
      if p in ms { PartOfPart(p, m, u); } else { PartOfPart(p, n, u); }
    }
    forall line | u.first <= line < u.Last() ensures Linked(u, ms + ns, line) {
      UnionIsLinked(u, m, ms, n, ns, line);
    }
    UnionIsEnded(u, m, ms, n, ns);
    var p :| p in ms;
    assert p in ms + ns;
  }
}
