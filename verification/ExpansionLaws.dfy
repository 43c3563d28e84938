/**
 What holds over every run of expansions on an unchanged snapshot: replay accepts exactly the
 packs of honest histories, counters follow the history, and no evidence is lost.
 */
module ExpansionLaws {
  import opened Wrappers
  import opened Evidence
  import opened Ranking
  import opened SpanMerge
  import opened PackMeter
  import opened ContextPack
  import opened Packing
  import opened PackingLaws
  import opened PackGuarantees
  import opened Retrieval
  import opened Expansion

  /** The plan of a current request: nothing is expanded yet, and the token budget is an int far
      below its limit. */
  predicate IsCurrent(plan: Plan) {
    plan.history == [] && plan.admission.budget.maxContextTokens < TWO_62
  }

  /** A pack that `Prepare` and successful expansions of one current request lead to. */
  ghost predicate Honest(env: Env, plan: Plan, p: Pack) {
    Replayed(env, plan, p.plan.history) == Success(p)
  }

  // ---------- what packing keeps ----------

  /** The parts of a pack that packing copies from its input, and its account. */
  ghost predicate Follows(env: Env, input: Input, p: Pack) {
    && p.plan == NormalPlan(env.codec, input.plan) && p.requestId == input.plan.requestId && p.sources == input.sources
    && Canonical(env.codec, p) == p
    && Accounted(env.codec, p) && p.used.expandCount == input.previous.expandCount
    && p.used.cumulativeSourceBytes >= input.previous.cumulativeSourceBytes
    && p.used.cumulativeContextTokens >= input.previous.cumulativeContextTokens
    && (forall c | c in p.evidence :: c in input.quality.candidates)
  }

  lemma BuiltFollows(env: Env, input: Input)
    requires env.Valid() && Nested(input.previous)
    ensures Follows(env, input, Built(env.codec, input))
  {
    PackIsAccounted(env.codec, input);
    FilledGrows(env.codec, input);
    CheckedKeeps(env.codec, input);
    FinishFacts(env.codec, input.previous, Checked(env.codec, input));
    EveryCandidateIsAccountedFor(env.codec, input);
    MembersOf(Built(env.codec, input).evidence, input.quality.candidates);
  }

  lemma MembersOf(s: seq<Candidate>, t: seq<Candidate>)
    requires multiset(s) <= multiset(t)
    ensures forall c | c in s :: c in t
  {
    forall c | c in s ensures c in t {
      assert c in multiset(s);
      assert c in multiset(t);
    }
  }

  // ---------- every honest pack ----------

  ghost predicate EvidenceSound(env: Env, p: Pack) {
    forall c | c in p.evidence :: Sound(env, c)
  }

  /** What every pack of a run satisfies. */
  ghost predicate WellKept(env: Env, plan: Plan, p: Pack) {
    && Accounted(env.codec, p) && EvidenceSound(env, p)
    && p.requestId == plan.requestId && p.plan.requestId == plan.requestId
    && p.plan.admission == NormalAdmission(env.codec, plan.admission) && p.sources == SourceSet(env)
    && Canonical(env.codec, p) == p
    && p.used.expandCount == |p.plan.history| <= plan.admission.maxExpandDepth
  }

  lemma {:induction false} VerifiedHaveBareHashes(env: Env, plan: Plan, cs: seq<Candidate>)
    requires env.Valid()
    ensures BareHashes(AllVerified(env, plan, cs))
  {
    if cs != [] { VerifiedHaveBareHashes(env, plan, cs[..|cs| - 1]); }
  }

  lemma AnalyzedEvidenceIsSound(env: Env, input: Input, plan: Plan, candidates: seq<Candidate>)
    requires env.Valid() && Nested(input.previous) && BareHashes(candidates)
    requires input.quality == Analyzed(env, plan, candidates)
    ensures EvidenceSound(env, Built(env.codec, input))
  {
    BuiltFollows(env, input);
    AnalyzedIsSound(env, plan, candidates);
  }

  lemma PrepareIsWellKept(env: Env, plan: Plan)
    requires env.Valid() && IsCurrent(plan)
    ensures WellKept(env, plan, Prepare(env, plan)) && Prepare(env, plan).plan.history == []
  {
    var input := PrepareInput(env, plan);
    var found := env.retrieve(plan, plan.required + plan.optional);
    BuiltFollows(env, input);
    VerifiedHaveBareHashes(env, plan, found.candidates);
    AnalyzedEvidenceIsSound(env, input, plan, AllVerified(env, plan, found.candidates));
  }

  lemma {:induction false} WithOldKeeps(plan: Plan, initial: set<string>, earlier: seq<Facet>, n: nat)
    requires n <= |earlier|
    ensures var q := WithOld(plan, initial, earlier, n);
            q.admission == plan.admission && q.requestId == plan.requestId && q.history == plan.history
  {
    if n > 0 { WithOldKeeps(plan, initial, earlier, n - 1); }
  }

  lemma ExpandedPlanKeeps(plan: Plan, base: Pack, facet: Facet, request: ExpandRequest)
    ensures var q := ExpandedPlan(plan, base, facet, request);
            q.admission == plan.admission && q.requestId == plan.requestId && q.history == base.plan.history + [request]
  {
    var first := WithFacet(plan, facet);
    var earlier := base.plan.required + base.plan.optional;
    WithOldKeeps(first, FacetIds(first), earlier, |earlier|);
  }

  /** The answer is a pack of its own and not the base. */
  ghost predicate Extends(env: Env, plan: Plan, base: Pack, request: ExpandRequest, d: Delta) {
    && !d.failed && AllLive(env, base.evidence)
    && d.pack == Built(env.codec, ExpandInput(env, plan, base, request))
    && !OverBudget(d.pack) && !CostsTooMuch(env.codec, base, d.pack, request)
    && base.used.expandCount < plan.admission.maxExpandDepth
    && RemainingFits(plan.admission.budget, base.used, request.remaining)
  }

  lemma ExtendCases(env: Env, plan: Plan, base: Pack, request: ExpandRequest)
    ensures var r := Extend(env, plan, base, request);
            r.Success? ==> r.value == FailedDelta(base) || Extends(env, plan, base, request, r.value)
  {
  }

  /** An account within the budget can be built on. */
  lemma SpentIsNested(env: Env, plan: Plan, base: Pack, remaining: Budget)
    requires Accounted(env.codec, base) && IsCurrent(plan) && RemainingFits(plan.admission.budget, base.used, remaining)
    ensures Nested(Again(base.used))
  {
  }

  lemma PriorHasBareHashes(env: Env, plan: Plan, evidence: seq<Candidate>, more: seq<Candidate>)
    requires env.Valid() && AllLive(env, evidence) && BareHashes(more)
    ensures BareHashes(Prior(env, plan, evidence) + more)
  {
    var prior := Prior(env, plan, evidence);
    forall i | 0 <= i < |prior + more|
      ensures Bare((prior + more)[i].origin.contentHash) == (prior + more)[i].origin.contentHash
    {
      if i < |prior| { assert Live(env, evidence[i]); }
    }
  }

  lemma ExtensionFollows(env: Env, plan: Plan, base: Pack, request: ExpandRequest, d: Delta)
    requires env.Valid() && IsCurrent(plan) && Accounted(env.codec, base) && Extends(env, plan, base, request, d)
    ensures Follows(env, ExpandInput(env, plan, base, request), d.pack) && EvidenceSound(env, d.pack)
  {
    var input := ExpandInput(env, plan, base, request);
    var facet := RequestedFacet(env, request);
    var expanded := ExpandedPlan(plan, base, facet, request);
    var found := env.retrieve(expanded, [facet]);
    SpentIsNested(env, plan, base, request.remaining);
    BuiltFollows(env, input);
    VerifiedHaveBareHashes(env, expanded, found.candidates);
    PriorHasBareHashes(env, plan, base.evidence, AllVerified(env, expanded, found.candidates));
    AnalyzedEvidenceIsSound(env, input, expanded,
                            Prior(env, plan, base.evidence) + AllVerified(env, expanded, found.candidates));
  }

  lemma ExtensionIsWellKept(env: Env, plan: Plan, base: Pack, request: ExpandRequest, d: Delta)
    requires env.Valid() && IsCurrent(plan) && WellKept(env, plan, base) && Extends(env, plan, base, request, d)
    ensures WellKept(env, plan, d.pack) && d.pack.plan.history == base.plan.history + [request]
  {
    ExtensionFollows(env, plan, base, request, d);
    ExpandedPlanKeeps(plan, base, RequestedFacet(env, request), request);
  }

  /** What one step makes of a well-kept pack. */
  ghost predicate KeepsWell(env: Env, plan: Plan, p: Pack, request: ExpandRequest, r: Result<Delta, ExpandError>) {
    r.Success? ==>
        WellKept(env, plan, r.value.pack)
        && (r.value.pack == p || r.value.pack.plan.history == p.plan.history + [request])
  }

  ghost predicate GoodStep(env: Env, plan: Plan, step: Step) {
    forall p: Pack, request: ExpandRequest | WellKept(env, plan, p) ::
        KeepsWell(env, plan, p, request, step(p, request))
  }

  lemma StepIsWellKept(env: Env, plan: Plan, p: Pack, request: ExpandRequest)
    requires env.Valid() && IsCurrent(plan) && WellKept(env, plan, p)
    ensures KeepsWell(env, plan, p, request, ExpandStep(env, plan, p, request))
  {
    ExtendCases(env, plan, p, request);
    var r := ExpandStep(env, plan, p, request);
    if r.Success? && r.value != FailedDelta(p) { ExtensionIsWellKept(env, plan, p, request, r.value); }
  }

  lemma StepIsGood(env: Env, plan: Plan)
    requires env.Valid() && IsCurrent(plan)
    ensures GoodStep(env, plan, StepOf(env, plan))
  {
    forall p: Pack, request: ExpandRequest | WellKept(env, plan, p)
      ensures KeepsWell(env, plan, p, request, StepOf(env, plan)(p, request))
    {
      StepIsWellKept(env, plan, p, request);
    }
  }

  lemma {:induction false} FoldIsWellKept(env: Env, plan: Plan, start: Pack, step: Step, history: seq<ExpandRequest>,
                                          n: nat)
    requires GoodStep(env, plan, step) && WellKept(env, plan, start) && n <= |history|
    requires Fold(start, step, history, n).Success?
    ensures WellKept(env, plan, Fold(start, step, history, n).value)
  {
    if n > 0 {
      FoldIsWellKept(env, plan, start, step, history, n - 1);
      var p := Fold(start, step, history, n - 1).value;
      assert KeepsWell(env, plan, p, history[n - 1], step(p, history[n - 1]));
    }
  }

  lemma ReplayedIsWellKept(env: Env, plan: Plan, history: seq<ExpandRequest>)
    requires env.Valid() && IsCurrent(plan) && Replayed(env, plan, history).Success?
    ensures WellKept(env, plan, Replayed(env, plan, history).value)
  {
    PrepareIsWellKept(env, plan);
    StepIsGood(env, plan);
    FoldIsWellKept(env, plan, Prepare(env, plan), StepOf(env, plan), history, |history|);
  }

  /** In every pack of a run the expansion count is the length of the history and within the
      depth limit, the account is its own, and the evidence is sound. */
  lemma HonestIsWellKept(env: Env, plan: Plan, p: Pack)
    requires env.Valid() && IsCurrent(plan) && Honest(env, plan, p)
    ensures WellKept(env, plan, p)
  {
    ReplayedIsWellKept(env, plan, p.plan.history);
  }

  // ---------- runs are honest ----------

  lemma PrepareIsHonest(env: Env, plan: Plan)
    requires env.Valid() && IsCurrent(plan)
    ensures Honest(env, plan, Prepare(env, plan))
  {
    PrepareIsWellKept(env, plan);
  }

  lemma {:induction false} FoldOfPrefix(start: Pack, step: Step, h: seq<ExpandRequest>, more: seq<ExpandRequest>,
                                        n: nat)
    requires n <= |h|
    ensures Fold(start, step, h + more, n) == Fold(start, step, h, n)
  {
    if n > 0 {
      FoldOfPrefix(start, step, h, more, n - 1);
      assert (h + more)[n - 1] == h[n - 1];
    }
  }

  /** Whatever an honest pack is expanded to is honest. */
  lemma StepIsHonest(env: Env, plan: Plan, p: Pack, request: ExpandRequest)
    requires env.Valid() && IsCurrent(plan) && Honest(env, plan, p) && ExpandStep(env, plan, p, request).Success?
    ensures Honest(env, plan, ExpandStep(env, plan, p, request).value.pack)
  {
    HonestIsWellKept(env, plan, p);
    StepIsWellKept(env, plan, p, request);
    OneMore(Prepare(env, plan), StepOf(env, plan), p.plan.history, request, p);
  }

  lemma {:induction false} OneMore(start: Pack, step: Step, h: seq<ExpandRequest>, request: ExpandRequest, p: Pack)
    requires Fold(start, step, h, |h|) == Success(p) && step(p, request).Success?
    ensures Fold(start, step, h + [request], |h + [request]|) == Success(step(p, request).value.pack)
  {
    FoldOfPrefix(start, step, h, [request], |h|);
    assert (h + [request])[|h|] == request;
  }

  // ---------- replay accepts exactly honest histories ----------

  /** The base is the pack `o` with another request id in its plan. */
  function Relabelled(o: Pack, planId: string): Pack {
    o.(plan := o.plan.(requestId := planId))
  }

  /** `Expand` trusts the base. */
  ghost predicate Accepted(env: Env, current: Plan, base: Pack) {
    && Accounted(env.codec, base)
    && NormalAdmission(env.codec, current.admission) == NormalAdmission(env.codec, base.plan.admission)
    && SourceSet(env) == base.sources && ReplayError(env, current, base) == None
  }

  lemma SameMeaning(codec: Codec, o: Pack, base: Pack)
    requires Meaning(codec, o) == Meaning(codec, base) && o.used == base.used && o.requestId == base.requestId
    requires Canonical(codec, o) == o
    ensures Canonical(codec, base) == Relabelled(o, base.plan.requestId)
  {
    var c := Canonical(codec, base);
    assert c.plan == o.plan.(requestId := c.plan.requestId) by {
      assert Meaning(codec, o).plan == Meaning(codec, base).plan;
    }
    assert Meaning(codec, o)
        == c.(requestId := "", plan := c.plan.(requestId := ""),
            used := c.used.(contextTokens := 0, cumulativeContextTokens := 0));
  }

  /** The base is the pack `o`, up to the order of its lists and the copy of the request id. */
  ghost predicate IsCopyOf(codec: Codec, base: Pack, o: Pack) {
    Canonical(codec, base) == Relabelled(o, base.plan.requestId)
  }

  lemma AcceptedIsHonest(env: Env, current: Plan, base: Pack)
    requires env.Valid() && IsCurrent(current) && Accepted(env, current, base)
    ensures var plan := current.(requestId := base.requestId);
            exists o :: Honest(env, plan, o) && IsCopyOf(env.codec, base, o)
    ensures env.validId(base.requestId)
  {
    var plan := current.(requestId := base.requestId);
    var history := base.plan.history;
    var o := Replayed(env, plan, history).value;
    ReplayedIsWellKept(env, plan, history);
    SameMeaning(env.codec, o, base);
    assert o.plan.history == history;
    assert Honest(env, plan, o);
  }

  lemma HonestIsAccepted(env: Env, current: Plan, o: Pack, base: Pack)
    requires env.Valid() && IsCurrent(current) && env.validId(base.requestId) && Accounted(env.codec, base)
    requires Honest(env, current.(requestId := base.requestId), o) && IsCopyOf(env.codec, base, o)
    ensures Accepted(env, current, base)
  {
    HonestIsWellKept(env, current.(requestId := base.requestId), o);
    CopyHasMeaning(env.codec, base, o);
  }

  lemma CopyHasMeaning(codec: Codec, base: Pack, o: Pack)
    requires IsCopyOf(codec, base, o) && Canonical(codec, o) == o
    ensures Meaning(codec, o) == Meaning(codec, base) && o.used == base.used && base.plan.history == o.plan.history
    ensures NormalAdmission(codec, base.plan.admission) == o.plan.admission && base.sources == o.sources
    ensures base.requestId == o.requestId
  {
    assert NormalPlan(codec, base.plan) == o.plan.(requestId := base.plan.requestId);
  }

  /** A base is accepted exactly if it is the pack of an honest run under its own request id, up
      to the order of its lists and the copy of that id inside its plan. */
  lemma ReplayAcceptsExactlyHonest(env: Env, current: Plan, base: Pack)
    requires env.Valid() && IsCurrent(current)
    ensures Accepted(env, current, base) <==>
              && Accounted(env.codec, base) && env.validId(base.requestId)
              && exists o :: Honest(env, current.(requestId := base.requestId), o) && IsCopyOf(env.codec, base, o)
  {
    if Accepted(env, current, base) { AcceptedIsHonest(env, current, base); }
    if && Accounted(env.codec, base) && env.validId(base.requestId)
       && exists o :: Honest(env, current.(requestId := base.requestId), o) && IsCopyOf(env.codec, base, o)
    {
      var o :| Honest(env, current.(requestId := base.requestId), o) && IsCopyOf(env.codec, base, o);
      HonestIsAccepted(env, current, o, base);
    }
  }

  /** With one fixed current request, each pack of a run is accepted as the next base, and
      expanding it answers what the unreplayed step answers. */
  lemma RunsAreAccepted(env: Env, current: Plan, p: Pack, request: ExpandRequest)
    requires env.Valid() && IsCurrent(current) && env.validId(current.requestId) && Honest(env, current, p)
    ensures Accepted(env, current, p)
    ensures Expand(env, current, p, request) == ExpandStep(env, current, p, request)
  {
    HonestIsWellKept(env, current, p);
    assert current.(requestId := p.requestId) == current;
    assert Relabelled(p, p.plan.requestId) == p && IsCopyOf(env.codec, p, p);
    HonestIsAccepted(env, current, p, p);
  }

  // ---------- no evidence is lost ----------

  /** Each authored item that does not look like a secret has an authored item that contains it. */
  ghost predicate KeepsEvidence(env: Env, base: Pack, pack: Pack) {
    forall i | 0 <= i < |base.evidence| :: KeepsItem(env, base.evidence[i], pack)
  }

  ghost predicate KeepsItem(env: Env, c: Candidate, pack: Pack) {
    Authored(c) && !env.secret(c.content) ==> Survives(pack, c)
  }

  ghost predicate Survives(pack: Pack, c: Candidate) {
    exists r :: r in pack.evidence && Contains(r, c) && Authored(r)
  }

  lemma ItemSurvives(env: Env, plan: Plan, base: Pack, request: ExpandRequest, d: Delta, i: nat)
    requires env.Valid() && EvidenceSound(env, base) && Extends(env, plan, base, request, d)
    requires i < |base.evidence| && Authored(base.evidence[i]) && !env.secret(base.evidence[i].content)
    ensures Survives(d.pack, base.evidence[i])
  {
    var facet := RequestedFacet(env, request);
    var expanded := ExpandedPlan(plan, base, facet, request);
    var prior := Prior(env, plan, base.evidence);
    var combined := prior + AllVerified(env, expanded, env.retrieve(expanded, [facet]).candidates);
    var c := prior[i];
    assert combined[i] == c;
    VerifiedStaysSound(env, plan, base.evidence[i]);
    var r := AnalysisKeepsSound(env, expanded, combined, c);
    UnlessUnsatisfiedMandatoryIsIn(env.codec, ExpandInput(env, plan, base, request), r);
    assert r in d.pack.evidence && Contains(r, base.evidence[i]) && Authored(r);
  }

  lemma VerifiedStaysSound(env: Env, plan: Plan, c: Candidate)
    requires Sound(env, c) && Authored(c) && Live(env, c)
    ensures var v := Verified(env, plan, c).(required := true); Sound(env, v) && Authored(v)
  {
  }

  lemma ExtensionKeepsEvidence(env: Env, plan: Plan, base: Pack, request: ExpandRequest, d: Delta)
    requires env.Valid() && EvidenceSound(env, base) && Extends(env, plan, base, request, d)
    ensures KeepsEvidence(env, base, d.pack)
  {
    forall i | 0 <= i < |base.evidence| ensures KeepsItem(env, base.evidence[i], d.pack) {
      if Authored(base.evidence[i]) && !env.secret(base.evidence[i].content) {
        ItemSurvives(env, plan, base, request, d, i);
      }
    }
  }

  /** A pack that reports no failed budget exceeds none. */
  lemma SilentFits(codec: Codec, input: Input)
    requires PriorBytesFit(input) && !OverBudget(Built(codec, input))
    ensures Violation(codec, Built(codec, input)) == Fits
  {
    OnlyTokensCanOverrun(codec, input);
    assert EnvelopeUnsatisfied(ContextTokens).code == BUDGET_UNSATISFIED;
  }

  lemma SpentFits(used: BudgetUsed, b: Budget, remaining: Budget)
    requires used.cumulativeSourceBytes >= used.sourceBytes && RemainingFits(b, used, remaining)
    ensures CumulativeBytes(Again(used), 0) <= b.maxSourceBytes
  {
  }

  /** An extension fits all four budgets. */
  lemma ExtensionFitsBudgets(env: Env, plan: Plan, base: Pack, request: ExpandRequest, d: Delta)
    requires env.Valid() && IsCurrent(plan) && Accounted(env.codec, base) && Extends(env, plan, base, request, d)
    ensures Violation(env.codec, d.pack) == Fits
  {
    ExpandedPlanKeeps(plan, base, RequestedFacet(env, request), request);
    SpentFits(base.used, plan.admission.budget, request.remaining);
    SilentFits(env.codec, ExpandInput(env, plan, base, request));
  }

  lemma CopyIsSound(env: Env, base: Pack, o: Pack)
    requires IsCopyOf(env.codec, base, o) && EvidenceSound(env, o)
    ensures EvidenceSound(env, base)
  {
    SortedMembers(ByRank(env.codec.key), base.evidence);
    assert o.evidence == StableSort(ByRank(env.codec.key), base.evidence);
  }

  /** The main result about `Expand`: whatever base it is given, an answer is either the base
      unchanged, or a pack that keeps the evidence of the base, costs no less than the base,
      fits every budget, and is one step further on an honest run. */
  lemma ExpandLosesNothing(env: Env, current: Plan, base: Pack, request: ExpandRequest)
    requires env.Valid() && IsCurrent(current) && Expand(env, current, base, request).Success?
    ensures var d := Expand(env, current, base, request).value;
            && Accepted(env, current, base)
            && (d == FailedDelta(base)
                || (&& KeepsEvidence(env, base, d.pack) && Violation(env.codec, d.pack) == Fits
                    && d.pack.used.cumulativeSourceBytes >= base.used.cumulativeSourceBytes
                    && d.pack.used.cumulativeContextTokens >= base.used.cumulativeContextTokens
                    && d.pack.used.expandCount == base.used.expandCount + 1 <= current.admission.maxExpandDepth
                    && d.pack.plan.history == base.plan.history + [request]))
  {
    var d := Expand(env, current, base, request).value;
    AcceptedIsHonest(env, current, base);
    var plan := current.(requestId := base.requestId);
    var o :| Honest(env, plan, o) && IsCopyOf(env.codec, base, o);
    HonestIsWellKept(env, plan, o);
    CopyIsSound(env, base, o);
    ExtendCases(env, current, base, request);
    if d != FailedDelta(base) {
      ExtensionKeepsEvidence(env, current, base, request, d);
      ExtensionFitsBudgets(env, current, base, request, d);
      ExtensionFollows(env, current, base, request, d);
      ExpandedPlanKeeps(current, base, RequestedFacet(env, request), request);
    }
  }
}
