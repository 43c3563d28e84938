/**
 What all evidence of a run has in common (internal/contextretrieval/engine.go, `Prepare` and
 `expand`): whatever resolvers give every slice, verification and filter leave alone and merging
 keeps, every item of every pack of every run has.
 */
module RunItems {
  import opened Wrappers
  import opened Evidence
  import opened SpanMerge
  import opened ContextPack
  import opened Packing
  import opened Retrieval
  import opened Expansion
  import opened ExpansionLaws

  /** Some plan makes a resolver return it, and it matches live bytes. */
  ghost predicate Retrievable(env: Env, c: Candidate) {
    Live(env, c) && exists plan: Plan, facets: seq<Facet> :: c in env.retrieve(plan, facets).candidates
  }

  function FileOf(c: Candidate): (string, string) {
    (c.origin.source, c.origin.path)
  }

  /** The candidate carries the pins of its document. */
  predicate HasPins(env: Env, c: Candidate) {
    && FileOf(c) in env.documents
    && var doc := env.documents[FileOf(c)];
       c.origin.contentHash == doc.contentHash && c.origin.revision == doc.revision && c.origin.snapshot == doc.snapshot
  }

  /** The same but for what verification and filter decide. */
  predicate SameUnit(a: Origin, b: Origin) {
    a == b.(provenance := a.provenance, freshness := a.freshness)
  }

  predicate SameSlice(a: Candidate, b: Candidate) {
    SameUnit(a.origin, b.origin) && a.span == b.span && a.content == b.content
  }

  /** A property of pinned slices that resolvers give and merging keeps. */
  ghost predicate Lasts(env: Env, good: Candidate -> bool) {
    && (forall c: Candidate | good(c) :: HasPins(env, c))
    && (forall c: Candidate | Retrievable(env, c) :: good(c))
    && (forall a: Candidate, b: Candidate | good(a) && SameSlice(a, b) :: good(b))
    && MergingKeeps(env.idOf, good)
  }

  lemma {:induction false} VerifiedHave(env: Env, good: Candidate -> bool, plan: Plan, cs: seq<Candidate>)
    requires Lasts(env, good) && forall i | 0 <= i < |cs| && Live(env, cs[i]) :: good(cs[i])
    ensures All(good, AllVerified(env, plan, cs))
  {
    if cs != [] {
      var last := cs[|cs| - 1];
      VerifiedHave(env, good, plan, cs[..|cs| - 1]);
      if Live(env, last) { assert SameSlice(last, Verified(env, plan, last)); }
    }
  }

  lemma {:induction false} RetrievedHave(env: Env, good: Candidate -> bool, plan: Plan, p: Plan, facets: seq<Facet>)
    requires Lasts(env, good)
    ensures All(good, AllVerified(env, plan, env.retrieve(p, facets).candidates))
  {
    var cs := env.retrieve(p, facets).candidates;
    forall i | 0 <= i < |cs| && Live(env, cs[i]) ensures good(cs[i]) {
      assert Retrievable(env, cs[i]);
    }
    VerifiedHave(env, good, plan, cs);
  }

  lemma KeptIsSameSlice(env: Env, plan: Plan, all: seq<Candidate>, c: Candidate)
    requires env.Valid() && HasPins(env, c) && Judge(env, plan, all, c).Kept?
    ensures SameSlice(c, Judge(env, plan, all, c).candidate)
  {
  }

  lemma AnalyzedHave(env: Env, good: Candidate -> bool, plan: Plan, candidates: seq<Candidate>)
    requires env.Valid() && Lasts(env, good) && All(good, candidates)
    ensures forall c | c in Analyzed(env, plan, candidates).candidates :: good(c)
  {
    forall all: seq<Candidate> ensures JudgingTurns(JudgeOf(env, plan, all), good, good) {
      forall c: Candidate | good(c) && JudgeOf(env, plan, all)(c).Kept?
        ensures good(JudgeOf(env, plan, all)(c).candidate)
      {
        KeptIsSameSlice(env, plan, all, c);
      }
    }
    AnalyzedAre(env, plan, good, good, candidates);
  }

  // ---------- over a run ----------

  ghost predicate Holds(good: Candidate -> bool, p: Pack) {
    forall c | c in p.evidence :: good(c)
  }

  lemma PreparedHas(env: Env, good: Candidate -> bool, plan: Plan)
    requires env.Valid() && Lasts(env, good)
    ensures Holds(good, Prepare(env, plan))
  {
    RetrievedHave(env, good, plan, plan, plan.required + plan.optional);
    AnalyzedHave(env, good, plan, AllVerified(env, plan, env.retrieve(plan, plan.required + plan.optional).candidates));
    BuiltFollows(env, PrepareInput(env, plan));
  }

  lemma CombinedHave(env: Env, good: Candidate -> bool, plan: Plan, evidence: seq<Candidate>, more: seq<Candidate>)
    requires Lasts(env, good) && AllLive(env, evidence) && (forall c | c in evidence :: good(c)) && All(good, more)
    ensures All(good, Prior(env, plan, evidence) + more)
  {
    var combined := Prior(env, plan, evidence) + more;
    forall i | 0 <= i < |combined| ensures good(combined[i]) {
      if i < |evidence| { assert SameSlice(evidence[i], combined[i]); }
    }
  }

  lemma ExtensionHas(env: Env, good: Candidate -> bool, plan: Plan, base: Pack, request: ExpandRequest, d: Delta)
    requires env.Valid() && IsCurrent(plan) && Lasts(env, good)
    requires WellKept(env, plan, base) && Holds(good, base) && Extends(env, plan, base, request, d)
    ensures Holds(good, d.pack)
  {
    var facet := RequestedFacet(env, request);
    var expanded := ExpandedPlan(plan, base, facet, request);
    var found := AllVerified(env, expanded, env.retrieve(expanded, [facet]).candidates);
    RetrievedHave(env, good, expanded, expanded, [facet]);
    CombinedHave(env, good, plan, base.evidence, found);
    AnalyzedHave(env, good, expanded, Prior(env, plan, base.evidence) + found);
    ExtensionFollows(env, plan, base, request, d);
  }

  lemma {:induction false} FoldKeeps(inv: Pack -> bool, start: Pack, step: Step, history: seq<ExpandRequest>, n: nat)
    requires n <= |history| && inv(start) && Fold(start, step, history, n).Success?
    requires forall p: Pack, request: ExpandRequest | inv(p) && step(p, request).Success? ::
                 inv(step(p, request).value.pack)
    ensures inv(Fold(start, step, history, n).value)
  {
    if n > 0 { FoldKeeps(inv, start, step, history, n - 1); }
  }

  lemma StepHas(env: Env, good: Candidate -> bool, plan: Plan, p: Pack, request: ExpandRequest)
    requires env.Valid() && IsCurrent(plan) && Lasts(env, good)
    requires WellKept(env, plan, p) && Holds(good, p) && ExpandStep(env, plan, p, request).Success?
    ensures var q := ExpandStep(env, plan, p, request).value.pack; WellKept(env, plan, q) && Holds(good, q)
  {
    StepIsWellKept(env, plan, p, request);
    ExtendCases(env, plan, p, request);
    var d := ExpandStep(env, plan, p, request).value;
    if d != FailedDelta(p) { ExtensionHas(env, good, plan, p, request, d); }
  }

  /** Every pack that a run passes through is well kept, and its evidence has the property. */
  lemma {:induction false} RunHas(env: Env, good: Candidate -> bool, plan: Plan, history: seq<ExpandRequest>, n: nat)
    requires env.Valid() && IsCurrent(plan) && Lasts(env, good)
    requires n <= |history| && Fold(Prepare(env, plan), StepOf(env, plan), history, n).Success?
    ensures var p := Fold(Prepare(env, plan), StepOf(env, plan), history, n).value;
            WellKept(env, plan, p) && Holds(good, p)
  {
    var inv := (q: Pack) => WellKept(env, plan, q) && Holds(good, q);
    PrepareIsWellKept(env, plan);
    PreparedHas(env, good, plan);
    forall q: Pack, request: ExpandRequest | inv(q) && StepOf(env, plan)(q, request).Success?
      ensures inv(StepOf(env, plan)(q, request).value.pack)
    {
      StepHas(env, good, plan, q, request);
    }
    FoldKeeps(inv, Prepare(env, plan), StepOf(env, plan), history, n);
  }
}
