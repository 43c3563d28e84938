/**
 The engine itself (internal/contextretrieval/engine.go): its loops, proved against the functions
 of Retrieval and Expansion.
 */
module Engine {
  import opened Wrappers
  import opened Evidence
  import opened Ranking
  import opened SpanMerge
  import opened PackMeter
  import opened ContextPack
  import opened Packing
  import opened PackBuilder
  import opened Retrieval
  import opened Expansion
  import opened ExpansionLaws

  class Engine {
    const env: Env

    constructor (env: Env)
      ensures this.env == env
    {
      this.env := env;
    }

    /** `verifyCandidates`. */
    method VerifyCandidates(plan: Plan, candidates: seq<Candidate>)
      returns (accepted: seq<Candidate>, notes: set<Diagnostic>)
      ensures accepted == AllVerified(env, plan, candidates) && notes == VerifyNotes(env, candidates)
    {
      accepted, notes := [], {};
      for i := 0 to |candidates|
        invariant accepted == AllVerified(env, plan, candidates[..i]) && notes == VerifyNotes(env, candidates[..i])
      {
        var c := candidates[i];
        assert candidates[..i + 1][..i] == candidates[..i];
        GatherOneMore(VerifyNote(env), candidates, i);
        if Live(env, c) {
          accepted := accepted + [Verified(env, plan, c)];
          notes := notes + env.cite(c).diagnostics;
        } else {
          notes := notes + {SpanUnverified(c)};
        }
      }
      assert candidates[..|candidates|] == candidates;
    }

    /** `analyzeQuality`. */
    method AnalyzeQuality(plan: Plan, candidates: seq<Candidate>) returns (quality: Quality)
      ensures quality == Analyzed(env, plan, candidates)
    {
      var input := StableSort(ByKey(env.codec.key), candidates);
      var judge := JudgeOf(env, plan, input);
      var kept, claims := JudgeAll(judge, input);
      var notes := Report(NoteBy(plan, judge), input);
      var omissions := Report(OmissionBy(plan, judge), input);
      var results := Deduplicate(env.idOf, kept);
      quality := Quality(StableSort(ByRank(env.codec.key), results), notes, env.conflicts(claims), omissions);
    }

    method JudgeAll(judge: Judging, input: seq<Candidate>) returns (kept: seq<Candidate>, claims: seq<Candidate>)
      ensures kept == KeptOf(judge, input) && claims == ClaimsOf(judge, input)
    {
      kept, claims := [], [];
      for i := 0 to |input|
        invariant kept == KeptOf(judge, input[..i]) && claims == ClaimsOf(judge, input[..i])
      {
        assert input[..i + 1][..i] == input[..i];
        match judge(input[i])
        case Rejected(_) =>
        case Withheld(claim) => claims := claims + [claim];
        case Kept(candidate) =>
          claims := claims + [candidate];
          kept := kept + [candidate];
      }
      assert input[..|input|] == input;
    }

    method Report<T(==)>(report: Candidate -> set<T>, input: seq<Candidate>) returns (all: set<T>)
      ensures all == Gather(report, input)
    {
      all := {};
      for i := 0 to |input|
        invariant all == Gather(report, input[..i])
      {
        GatherOneMore(report, input, i);
        all := all + report(input[i]);
      }
      assert input[..|input|] == input;
    }

    /** `Prepare`. */
    method Prepare(plan: Plan) returns (pack: Pack)
      requires env.Valid() && IsCurrent(plan)
      ensures pack == Expansion.Prepare(env, plan)
    {
      var found := env.retrieve(plan, plan.required + plan.optional);
      var verified, notes := VerifyCandidates(plan, found.candidates);
      var quality := AnalyzeQuality(plan, verified);
      pack := BuildPack(env.codec, Input(plan, SourceSet(env), quality, env.coverage + found.coverage,
                                         env.diagnostics + found.diagnostics + notes, NOTHING_USED));
    }

    /** The plan of an expansion, with the facets of earlier ones. */
    method PlanExpansion(plan: Plan, base: Pack, facet: Facet, request: ExpandRequest) returns (expanded: Plan)
      ensures expanded == ExpandedPlan(plan, base, facet, request)
    {
      var first := WithFacet(plan, facet);
      expanded := first;
      if base.plan.history != [] {
        var earlier := base.plan.required + base.plan.optional;
        for i := 0 to |earlier|
          invariant expanded == WithOld(first, FacetIds(first), earlier, i)
        {
          if earlier[i].id !in FacetIds(first) {
            expanded := WithFacet(expanded, earlier[i]);
          }
        }
      }
      expanded := expanded.(history := base.plan.history + [request]);
    }

    /** Everything after the base is accepted. */
    method Extend(plan: Plan, base: Pack, request: ExpandRequest) returns (r: Result<Delta, ExpandError>)
      requires env.Valid() && IsCurrent(plan) && Accounted(env.codec, base)
      ensures r == Expansion.Extend(env, plan, base, request)
    {
      var facet := RequestedFacet(env, request);
      if base.used.expandCount >= plan.admission.maxExpandDepth
          || !RemainingFits(plan.admission.budget, base.used, request.remaining) {
        return Success(FailedDelta(base));
      }
      if ReusesIdentity(base, facet) {
        return Failure(InvalidRequest);
      }
      var prior, priorNotes := VerifyCandidates(plan, base.evidence);
      VerifiedCount(env, plan, base.evidence);
      if |prior| != |base.evidence| {
        return Failure(StaleBase);
      }
      SpentIsNested(env, plan, base, request.remaining);
      var pack := Repack(plan, base, request, prior, priorNotes);
      r := Answer(base, pack, request);
    }

    method Answer(base: Pack, pack: Pack, request: ExpandRequest) returns (r: Result<Delta, ExpandError>)
      ensures r == Success(if OverBudget(pack) || CostsTooMuch(env.codec, base, pack, request) then FailedDelta(base)
                           else NewDelta(base, pack))
    {
      if OverBudget(pack) || CostsTooMuch(env.codec, base, pack, request) {
        return Success(FailedDelta(base));
      }
      r := Success(NewDelta(base, pack));
    }

    method Repack(plan: Plan, base: Pack, request: ExpandRequest, prior: seq<Candidate>, priorNotes: set<Diagnostic>)
      returns (pack: Pack)
      requires env.Valid() && AllLive(env, base.evidence) && Nested(Again(base.used))
      requires prior == AllVerified(env, plan, base.evidence) && priorNotes == VerifyNotes(env, base.evidence)
      ensures pack == Built(env.codec, ExpandInput(env, plan, base, request))
    {
      var facet := RequestedFacet(env, request);
      var expanded := PlanExpansion(plan, base, facet, request);
      var found := env.retrieve(expanded, [facet]);
      var verified, notes := VerifyCandidates(expanded, found.candidates);
      var required := Require(plan, base.evidence, prior);
      var quality := AnalyzeQuality(expanded, required + verified);
      pack := BuildPack(env.codec, Input(expanded, SourceSet(env), quality, base.coverage + found.coverage,
                                         base.unresolved + priorNotes + found.diagnostics + notes, Again(base.used)));
    }

    /** The loop that makes the evidence of the base required. */
    method Require(ghost plan: Plan, ghost evidence: seq<Candidate>, prior: seq<Candidate>)
      returns (required: seq<Candidate>)
      requires AllLive(env, evidence) && prior == AllVerified(env, plan, evidence)
      ensures required == Prior(env, plan, evidence)
    {
      AllLiveAreVerified(env, plan, evidence);
      required := prior;
      for i := 0 to |required|
        invariant |required| == |prior|
        invariant forall k | 0 <= k < |prior| :: required[k] == if k < i then prior[k].(required := true) else prior[k]
      {
        required := required[i := required[i].(required := true)];
      }
    }

    /** `expand` without replay. */
    method ExpandStep(plan: Plan, base: Pack, request: ExpandRequest) returns (r: Result<Delta, ExpandError>)
      requires env.Valid() && IsCurrent(plan)
      ensures r == Expansion.ExpandStep(env, plan, base, request)
    {
      var refusal := Refusal(env, plan, base, request);
      if refusal.Some? {
        return Failure(refusal.value);
      }
      r := Extend(plan, base, request);
    }

    /** The replay: from `Prepare`, step by step through the history of the base. */
    method Replay(current: Plan, base: Pack) returns (e: Option<ExpandError>)
      requires env.Valid() && IsCurrent(current)
      ensures e == ReplayError(env, current, base)
    {
      if !env.validId(base.requestId) || |base.plan.history| > current.admission.maxExpandDepth {
        return Some(InvalidRequest);
      }
      var plan, history := current.(requestId := base.requestId), base.plan.history;
      var start := Prepare(plan);
      var original := start;
      for i := 0 to |history|
        invariant Fold(start, StepOf(env, plan), history, i) == Success(original)
      {
        var delta := ExpandStep(plan, original, history[i]);
        if delta.Failure? {
          FailureStays(start, StepOf(env, plan), history, i + 1, |history|);
          return Some(delta.error);
        }
        original := delta.value.pack;
      }
      if Meaning(env.codec, original) != Meaning(env.codec, base) || original.used != base.used {
        return Some(InvalidRequest);
      }
      return None;
    }

    /** `Expand`. */
    method Expand(current: Plan, base: Pack, request: ExpandRequest) returns (r: Result<Delta, ExpandError>)
      requires env.Valid() && IsCurrent(current)
      ensures r == Expansion.Expand(env, current, base, request)
    {
      var refusal := Refusal(env, current, base, request);
      if refusal.Some? {
        return Failure(refusal.value);
      }
      var replayed := Replay(current, base);
      if replayed.Some? {
        return Failure(replayed.value);
      }
      r := Extend(current, base, request);
    }
  }

  lemma GatherOneMore<T>(report: Candidate -> set<T>, cs: seq<Candidate>, i: nat)
    requires i < |cs|
    ensures Gather(report, cs[..i + 1]) == Gather(report, cs[..i]) + report(cs[i])
  {
    var longer, shorter := cs[..i + 1], cs[..i];
    assert longer == shorter + [cs[i]];
    forall d ensures d in Gather(report, longer) <==> d in Gather(report, shorter) || d in report(cs[i]) {
      if k :| 0 <= k < |shorter| && d in report(shorter[k]) { assert d in report(longer[k]); }
      assert longer[i] == cs[i];
    }
  }

  /** Counting the accepted candidates finds out whether all of them match. */
  lemma {:induction false} VerifiedCount(env: Env, plan: Plan, cs: seq<Candidate>)
    ensures |AllVerified(env, plan, cs)| <= |cs|
    ensures |AllVerified(env, plan, cs)| == |cs| <==> AllLive(env, cs)
  {
    if cs != [] {
      var fewer := cs[..|cs| - 1];
      VerifiedCount(env, plan, fewer);
      assert AllLive(env, cs) <==> AllLive(env, fewer) && Live(env, cs[|cs| - 1]) by {
        if AllLive(env, fewer) && Live(env, cs[|cs| - 1]) {
          forall i | 0 <= i < |cs| ensures Live(env, cs[i]) {
            if i < |fewer| { assert Live(env, fewer[i]); }
          }
        }
      }
    }
  }

  lemma {:induction false} AllLiveAreVerified(env: Env, plan: Plan, cs: seq<Candidate>)
    requires AllLive(env, cs)
    ensures |AllVerified(env, plan, cs)| == |cs|
    ensures forall i | 0 <= i < |cs| :: AllVerified(env, plan, cs)[i] == Verified(env, plan, cs[i])
  {
    if cs != [] {
      var fewer := cs[..|cs| - 1];
      forall i | 0 <= i < |fewer| ensures Live(env, fewer[i]) {
        assert fewer[i] == cs[i];
      }
      AllLiveAreVerified(env, plan, fewer);
      assert Live(env, cs[|cs| - 1]);
    }
  }

  lemma {:induction false} FailureStays(start: Pack, step: Step, history: seq<ExpandRequest>, n: nat, m: nat)
    requires n <= m <= |history| && Fold(start, step, history, n).Failure?
    ensures Fold(start, step, history, m) == Fold(start, step, history, n)
  {
    if n < m { FailureStays(start, step, history, n, m - 1); }
  }
}
