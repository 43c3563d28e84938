/**
 When the evidence of a run stays live: if any two slices that resolvers return merge into a live
 slice, whenever they merge at all, so does everything that a run merges, and no pack of a run is
 ever a stale base.  And what happens to a pack that holds spoiled evidence.
 */
module LiveRuns {
  import opened Wrappers
  import opened Evidence
  import opened SpanMerge
  import opened SliceMerge
  import opened SliceFamilies
  import opened WholeLines
  import opened ContextPack
  import opened Packing
  import opened Retrieval
  import opened Expansion
  import opened ExpansionLaws
  import opened RunItems

  function BytesOf(env: Env, c: Candidate): string
    requires HasPins(env, c)
  {
    env.documents[FileOf(c)].content
  }

  /** Every slice that a resolver returns carries the line number of its first byte, and any two of
      one unit that merge, merge into a live slice (SliceMerge.MergeIsLiveExactly). */
  ghost predicate ResolversMergeWell(env: Env) {
    && (forall c | Retrievable(env, c) :: IsSlice(BytesOf(env, c), c.span, c.content))
    && (forall a, b | Retrievable(env, a) && Retrievable(env, b) && SameUnit(a.origin, b.origin) :: MergeWell(a, b))
  }

  ghost predicate RetrievedParts(env: Env, origin: Origin, parts: set<Candidate>) {
    forall p | p in parts :: Retrievable(env, p) && SameUnit(p.origin, origin)
  }

  /** Live, and merged from what resolvers returned. */
  ghost predicate GrownLive(env: Env, c: Candidate) {
    HasPins(env, c) && exists parts :: RetrievedParts(env, c.origin, parts) && Grown(BytesOf(env, c), c, parts)
  }

  ghost function GrowthIn(env: Env): Candidate -> bool {
    (c: Candidate) => GrownLive(env, c)
  }

  lemma RetrievableIsGrown(env: Env, c: Candidate)
    requires ResolversMergeWell(env) && Retrievable(env, c)
    ensures GrownLive(env, c)
  {
    GrowsFromItself(BytesOf(env, c), c);
    assert RetrievedParts(env, c.origin, {c});
  }

  lemma SliceStaysGrown(env: Env, a: Candidate, b: Candidate)
    requires GrownLive(env, a) && SameSlice(a, b)
    ensures GrownLive(env, b)
  {
    var parts :| RetrievedParts(env, a.origin, parts) && Grown(BytesOf(env, a), a, parts);
    SameGrowth(BytesOf(env, a), a, b, parts);
    assert RetrievedParts(env, b.origin, parts);
  }

  lemma PartsMergeWell(env: Env, origin: Origin, ps: set<Candidate>, qs: set<Candidate>)
    requires ResolversMergeWell(env) && RetrievedParts(env, origin, ps) && RetrievedParts(env, origin, qs)
    ensures RetrievedParts(env, origin, ps + qs) && AllMergeWell(ps + qs)
  {
    forall a, b | a in ps + qs && b in ps + qs ensures MergeWell(a, b) {
      assert SameUnit(a.origin, b.origin);
    }
  }

  lemma MergedIsGrown(env: Env, a: Candidate, b: Candidate)
    requires ResolversMergeWell(env) && GrownLive(env, a) && GrownLive(env, b) && Merges(a, b)
    ensures GrownLive(env, MergedInto(env.idOf, a, b))
  {
    var ps :| RetrievedParts(env, a.origin, ps) && Grown(BytesOf(env, a), a, ps);
    var qs :| RetrievedParts(env, b.origin, qs) && Grown(BytesOf(env, b), b, qs);
    PartsMergeWell(env, a.origin, ps, qs);
    MergedIntoGrows(env.idOf, BytesOf(env, a), a, ps, b, qs);
  }

  lemma GrowthLasts(env: Env)
    requires ResolversMergeWell(env)
    ensures Lasts(env, GrowthIn(env))
  {
    var good := GrowthIn(env);
    forall c: Candidate | Retrievable(env, c) ensures good(c) {
      RetrievableIsGrown(env, c);
    }
    forall a: Candidate, b: Candidate | good(a) && SameSlice(a, b) ensures good(b) {
      SliceStaysGrown(env, a, b);
    }
    forall a: Candidate, b: Candidate | good(a) && good(b) && Merges(a, b) ensures good(MergedInto(env.idOf, a, b)) {
      MergedIsGrown(env, a, b);
    }
  }

  lemma GrownPackIsLive(env: Env, p: Pack)
    requires Holds(GrowthIn(env), p)
    ensures AllLive(env, p.evidence)
  {
    forall i | 0 <= i < |p.evidence| ensures Live(env, p.evidence[i]) {
      assert GrowthIn(env)(p.evidence[i]);
    }
  }

  /** With the snapshot unchanged, only evidence that does not match live bytes makes a base stale. */
  lemma LiveIsNotStale(env: Env, plan: Plan, p: Pack, request: ExpandRequest)
    requires SourceSet(env) == p.sources && AllLive(env, p.evidence)
    ensures ExpandStep(env, plan, p, request) != Failure(StaleBase)
  {
  }

  /** If what resolvers return merges well in pairs, the evidence of every pack of a run matches the
      live bytes, so expanding it never reports a stale base. */
  lemma RunsNeverGetStale(env: Env, current: Plan, p: Pack, request: ExpandRequest)
    requires env.Valid() && IsCurrent(current) && env.validId(current.requestId)
    requires ResolversMergeWell(env) && Honest(env, current, p)
    ensures AllLive(env, p.evidence)
    ensures Expand(env, current, p, request) != Failure(StaleBase)
  {
    GrowthLasts(env);
    RunHas(env, GrowthIn(env), current, p.plan.history, |p.plan.history|);
    GrownPackIsLive(env, p);
    RunsAreAccepted(env, current, p, request);
    LiveIsNotStale(env, current, p, request);
  }

  // ---------- spoiled evidence ----------

  /** No check before the one on live bytes answers. */
  predicate ReachesLiveCheck(env: Env, plan: Plan, p: Pack, request: ExpandRequest) {
    && Refusal(env, plan, p, request).None? && p.used.expandCount < plan.admission.maxExpandDepth
    && RemainingFits(plan.admission.budget, p.used, request.remaining)
    && !ReusesIdentity(p, RequestedFacet(env, request))
  }

  /** The answer to a pack that holds evidence that is not live. */
  ghost predicate StaleExactly(env: Env, plan: Plan, p: Pack, request: ExpandRequest,
                               answer: Result<Delta, ExpandError>)
  {
    && (answer == Failure(StaleBase) <==> !AllLive(env, p.evidence) && ReachesLiveCheck(env, plan, p, request))
    && (!AllLive(env, p.evidence) && answer.Success? ==> answer.value == FailedDelta(p))
  }

  lemma StepIsStaleExactly(env: Env, plan: Plan, p: Pack, request: ExpandRequest)
    requires SourceSet(env) == p.sources
    ensures StaleExactly(env, plan, p, request, ExpandStep(env, plan, p, request))
  {
  }

  lemma HonestHasSources(env: Env, plan: Plan, p: Pack)
    requires env.Valid() && IsCurrent(plan) && Honest(env, plan, p)
    ensures SourceSet(env) == p.sources
  {
    HonestIsWellKept(env, plan, p);
  }

  /** With the snapshot unchanged, an expansion of a pack of a run reports a stale base exactly if
      some of its evidence is not live and no earlier check answers first; and such a pack is
      never extended. */
  lemma SpoiledIsStaleExactly(env: Env, current: Plan, p: Pack, request: ExpandRequest)
    requires env.Valid() && IsCurrent(current) && env.validId(current.requestId) && Honest(env, current, p)
    ensures StaleExactly(env, current, p, request, Expand(env, current, p, request))
  {
    HonestHasSources(env, current, p);
    RunsAreAccepted(env, current, p, request);
    StepIsStaleExactly(env, current, p, request);
  }

  // ---------- resolvers that meet the condition ----------

  /** The lines of the documents that have any. */
  ghost predicate AreTexts(env: Env, texts: map<(string, string), Text>) {
    forall key | key in env.documents && env.documents[key].content != "" ::
      key in texts && texts[key].Valid() && env.documents[key].content == texts[key].Bytes()
  }

  /** One is the whole file, which ends in a newline if the other does. */
  ghost predicate FileAndPart(text: Text, whole: Candidate, c: Candidate) {
    QuotesAll(text, whole) && (text.terminated || !EndsInNewline(c.content))
  }

  ghost predicate BothQuote(text: Text, a: Candidate, b: Candidate) {
    Quotes(text, a.span, a.content) && Quotes(text, b.span, b.content) && !Overshoots(text, a.span, b.span)
  }

  /** Two slices of one file: apart, the same, both of whole lines, or one of them the whole file. */
  ghost predicate UsualPair(text: Text, a: Candidate, b: Candidate) {
    || !Overlap(a.span, b.span) || (a.span == b.span && a.content == b.content)
    || BothQuote(text, a, b) || FileAndPart(text, a, b) || FileAndPart(text, b, a)
  }

  /** What resolvers return for one symbol and kind: declarations that share no line, quotations of
      whole lines, and the whole file. */
  ghost predicate ResolversAreUsual(env: Env, texts: map<(string, string), Text>)
    requires AreTexts(env, texts)
  {
    && (forall c | Retrievable(env, c) :: IsSlice(BytesOf(env, c), c.span, c.content))
    && (forall a, b | Retrievable(env, a) && Retrievable(env, b) && SameUnit(a.origin, b.origin) ::
          BytesOf(env, a) == "" || UsualPair(texts[FileOf(a)], a, b))
  }

  lemma EmptySlices(a: Candidate, b: Candidate)
    requires IsSlice("", a.span, a.content) && IsSlice("", b.span, b.content)
    ensures MergeWell(a, b)
  {
  }

  lemma UsualPairMergesWell(text: Text, a: Candidate, b: Candidate)
    requires text.Valid() && UsualPair(text, a, b)
    requires IsSlice(text.Bytes(), a.span, a.content) && IsSlice(text.Bytes(), b.span, b.content)
    ensures MergeWell(a, b)
  {
    if Merged(a, b).Some? && FileAndPart(text, a, b) {
      FileMergesWell(text, a, b);
    } else if Merged(a, b).Some? && FileAndPart(text, b, a) {
      MergeIsSymmetric(a, b);
      FileMergesWell(text, b, a);
    } else if BothQuote(text, a, b) && Overlap(a.span, b.span) {
      QuotationsMergeWell(text, a, b);
    }
  }

  /** Such resolvers meet the condition. */
  lemma UsualResolversMergeWell(env: Env, texts: map<(string, string), Text>)
    requires AreTexts(env, texts) && ResolversAreUsual(env, texts)
    ensures ResolversMergeWell(env)
  {
    forall a, b | Retrievable(env, a) && Retrievable(env, b) && SameUnit(a.origin, b.origin) ensures MergeWell(a, b) {
      if BytesOf(env, a) == "" {
        EmptySlices(a, b);
      } else {
        UsualPairMergesWell(texts[FileOf(a)], a, b);
      }
    }
  }
}
