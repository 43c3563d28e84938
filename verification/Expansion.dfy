/**
 Expansion of a context pack (internal/contextretrieval/engine.go, `Prepare`, `expand`,
 `checkRemainingBudget`, `additionalBudgetExceeded`, `failedDelta`) on an unchanged snapshot.
 */
module Expansion {
  import opened Wrappers
  import opened Evidence
  import opened PackMeter
  import opened ContextPack
  import opened Packing
  import opened Retrieval

  datatype ExpandError = InvalidRequest | ScopeChange | StaleBase

  /** `failed` marks the answer of `failedDelta`, which carries the base unchanged. */
  datatype Delta = Delta(status: Status, pack: Pack, added: set<string>, failed: bool)

  // ---------- preparing ----------

  ghost function Prepare(env: Env, plan: Plan): Pack {
    Built(env.codec, PrepareInput(env, plan))
  }

  function SourceSet(env: Env): set<Source> {
    set i | 0 <= i < |env.sources| :: env.sources[i]
  }

  function PrepareInput(env: Env, plan: Plan): Input {
    var found := env.retrieve(plan, plan.required + plan.optional);
    Input(plan, SourceSet(env), Analyzed(env, plan, AllVerified(env, plan, found.candidates)),
        env.coverage + found.coverage,
          env.diagnostics + found.diagnostics + VerifyNotes(env, found.candidates), NOTHING_USED)
  }

  // ---------- the plan of an expansion ----------

  function RequestedFacet(env: Env, request: ExpandRequest): Facet {
    if request.facet.resolver == "" then request.facet.(resolver := env.resolverFor(request.facet.query))
        else request.facet
  }

  function WithFacet(plan: Plan, facet: Facet): Plan {
    if facet.required then plan.(required := plan.required + [facet]) else plan.(optional := plan.optional + [facet])
  }

  function FacetIds(plan: Plan): set<string> {
    set i | 0 <= i < |plan.required + plan.optional| :: (plan.required + plan.optional)[i].id
  }

  /** Facets of earlier expansions that the plan does not have. */
  function WithOld(plan: Plan, initial: set<string>, earlier: seq<Facet>, n: nat): Plan
    requires n <= |earlier|
  {
    if n == 0 then plan
    else
      var before := WithOld(plan, initial, earlier, n - 1);
      if earlier[n - 1].id in initial then before else WithFacet(before, earlier[n - 1])
  }

  function ExpandedPlan(plan: Plan, base: Pack, facet: Facet, request: ExpandRequest): Plan {
    var first := WithFacet(plan, facet);
    var earlier := base.plan.required + base.plan.optional;
    var all := if base.plan.history == [] then first else WithOld(first, FacetIds(first), earlier, |earlier|);
    all.(history := base.plan.history + [request])
  }

  // ---------- budgets of an expansion ----------

  /** `checkRemainingBudget`. */
  predicate RemainingFits(b: Budget, used: BudgetUsed, remaining: Budget) {
    && used.cumulativeSourceBytes <= b.maxSourceBytes
    && used.cumulativeContextTokens + used.reservedPromptTokens <= b.maxContextTokens
    && (remaining.maxSourceBytes > 0 ==> remaining.maxSourceBytes <= b.maxSourceBytes - used.cumulativeSourceBytes)
    && (remaining.maxContextTokens > 0
        ==> remaining.maxContextTokens <= b.maxContextTokens - used.cumulativeContextTokens - used.reservedPromptTokens)
  }

  function EvidenceIds(evidence: seq<Candidate>): set<string> {
    set i | 0 <= i < |evidence| :: evidence[i].id
  }

  function NewBytesFrom(earlier: set<string>, source: string): Candidate -> nat {
    (c: Candidate) => if c.id !in earlier && c.origin.source == source then |c.content| else 0
  }

  /** The two checks on what the expansion itself may cost. */
  predicate CostsTooMuch(codec: Codec, base: Pack, pack: Pack, request: ExpandRequest) {
    var b := request.remaining;
    || (b.maxSourceBytes > 0 && pack.used.cumulativeSourceBytes - base.used.cumulativeSourceBytes > b.maxSourceBytes)
    || (b.maxContextTokens > 0
         && pack.used.cumulativeContextTokens - base.used.cumulativeContextTokens > b.maxContextTokens)
    || (b.reservedPromptTokens > 0
        && pack.used.cumulativeContextTokens + b.reservedPromptTokens > pack.plan.admission.budget.maxContextTokens)
    || (b.perFacetTokens > 0 && Sum(TokensFor(codec.weight, request.facet.id), pack.evidence) > b.perFacetTokens)
    || (b.perSourceBytes > 0 && exists i | 0 <= i < |pack.evidence| ::
          Sum(NewBytesFrom(EvidenceIds(base.evidence), pack.evidence[i].origin.source),
              pack.evidence) > b.perSourceBytes)
  }

  // ---------- one expansion ----------

  /** The checks before the base is replayed. */
  function Refusal(env: Env, plan: Plan, base: Pack, request: ExpandRequest): Option<ExpandError> {
    if !Accounted(env.codec, base) then Some(InvalidRequest)
    else if NormalAdmission(env.codec, plan.admission) != NormalAdmission(env.codec, base.plan.admission) then
        Some(ScopeChange)
    else if !env.selector(request) then Some(InvalidRequest)
    else if request.facet.source !in plan.admission.sources
            || (request.facet.path != "" && !env.admits(request.facet.source, request.facet.path)) then
                 Some(ScopeChange)
    else if SourceSet(env) != base.sources then Some(StaleBase)
    else None
  }

  predicate ReusesIdentity(base: Pack, facet: Facet) {
    exists i | 0 <= i < |base.plan.required + base.plan.optional| ::
      (base.plan.required + base.plan.optional)[i].id == facet.id
          && (base.plan.required + base.plan.optional)[i] != facet
  }

  predicate AllLive(env: Env, evidence: seq<Candidate>) {
    forall i | 0 <= i < |evidence| :: Live(env, evidence[i])
  }

  /** The evidence of the base, verified again and required from now on. */
  function Prior(env: Env, plan: Plan, evidence: seq<Candidate>): (r: seq<Candidate>)
    requires AllLive(env, evidence)
    ensures |r| == |evidence| && forall i | 0 <= i < |r| :: r[i] == Verified(env, plan, evidence[i]).(required := true)
  {
    seq(|evidence|, i requires 0 <= i < |evidence| => Verified(env, plan, evidence[i]).(required := true))
  }

  function Again(used: BudgetUsed): BudgetUsed {
    used.(expandCount := used.expandCount + 1)
  }

  /** What the packer is given.  The base is verified under the caller's plan `plan`, everything
      else uses the expanded plan. */
  function ExpandInput(env: Env, plan: Plan, base: Pack, request: ExpandRequest): Input
    requires AllLive(env, base.evidence)
  {
    var facet := RequestedFacet(env, request);
    var expanded := ExpandedPlan(plan, base, facet, request);
    var found := env.retrieve(expanded, [facet]);
    var combined := Prior(env, plan, base.evidence) + AllVerified(env, expanded, found.candidates);
    Input(expanded, SourceSet(env), Analyzed(env, expanded, combined), base.coverage + found.coverage,
          base.unresolved + VerifyNotes(env, base.evidence) + found.diagnostics + VerifyNotes(env, found.candidates),
              Again(base.used))
  }

  function FailedDelta(base: Pack): Delta {
    Delta(Blocked, base, {}, true)
  }

  function NewDelta(base: Pack, pack: Pack): Delta {
    Delta(pack.status, pack, EvidenceIds(pack.evidence) - EvidenceIds(base.evidence), false)
  }

  predicate OverBudget(pack: Pack) {
    exists d | d in pack.unresolved :: d.code == BUDGET_UNSATISFIED
  }

  /** Everything after the base has been accepted. */
  ghost function Extend(env: Env, plan: Plan, base: Pack, request: ExpandRequest): Result<Delta, ExpandError> {
    if base.used.expandCount >= plan.admission.maxExpandDepth then Success(FailedDelta(base))
    else if !RemainingFits(plan.admission.budget, base.used, request.remaining) then Success(FailedDelta(base))
    else if ReusesIdentity(base, RequestedFacet(env, request)) then Failure(InvalidRequest)
    else if !AllLive(env, base.evidence) then Failure(StaleBase)
    else
      var pack := Built(env.codec, ExpandInput(env, plan, base, request));
      Success(if OverBudget(pack) || CostsTooMuch(env.codec, base, pack, request) then FailedDelta(base)
          else NewDelta(base, pack))
  }

  /** `expand` without replay. */
  ghost function ExpandStep(env: Env, plan: Plan, base: Pack, request: ExpandRequest): Result<Delta, ExpandError> {
    match Refusal(env, plan, base, request)
    case Some(e) => Failure(e)
    case None => Extend(env, plan, base, request)
  }

  // ---------- replay ----------

  type Step = (Pack, ExpandRequest) -> Result<Delta, ExpandError>

  ghost function StepOf(env: Env, plan: Plan): Step {
    (p: Pack, request: ExpandRequest) => ExpandStep(env, plan, p, request)
  }

  /** The pack after the first `n` steps of a history. */
  ghost function Fold(start: Pack, step: Step, history: seq<ExpandRequest>, n: nat): Result<Pack, ExpandError>
    requires n <= |history|
  {
    if n == 0 then Success(start)
    else
      match Fold(start, step, history, n - 1)
      case Failure(e) => Failure(e)
      case Success(p) =>
        match step(p, history[n - 1])
        case Failure(e) => Failure(e)
        case Success(d) => Success(d.pack)
  }

  /** The whole of a history, from `Prepare`. */
  ghost function Replayed(env: Env, plan: Plan, history: seq<ExpandRequest>): Result<Pack, ExpandError> {
    Fold(Prepare(env, plan), StepOf(env, plan), history, |history|)
  }

  /** What the semantic digest binds: the normalized pack without request ids and token counts. */
  function Meaning(codec: Codec, p: Pack): Pack {
    var c := Canonical(codec, p);
    c.(requestId := "", plan := c.plan.(requestId := ""),
        used := c.used.(contextTokens := 0, cumulativeContextTokens := 0))
  }

  ghost function ReplayError(env: Env, current: Plan, base: Pack): Option<ExpandError> {
    var plan := current.(requestId := base.requestId);
    var history := base.plan.history;
    if !env.validId(base.requestId) then Some(InvalidRequest)
    else if |history| > current.admission.maxExpandDepth then Some(InvalidRequest)
    else
      match Replayed(env, plan, history)
      case Failure(e) => Some(e)
      case Success(original) =>
        if Meaning(env.codec, original) == Meaning(env.codec, base) && original.used == base.used then None
            else Some(InvalidRequest)
  }

  /** `Expand`: `current` is the plan of the caller's current request. */
  ghost function Expand(env: Env, current: Plan, base: Pack, request: ExpandRequest): Result<Delta, ExpandError> {
    match Refusal(env, current, base, request)
    case Some(e) => Failure(e)
    case None =>
      match ReplayError(env, current, base)
      case Some(e) => Failure(e)
      case None => Extend(env, current, base, request)
  }
}
