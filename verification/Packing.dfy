/**
 Greedy packing of evidence under four budgets (internal/contextretrieval/pack.go, `BuildPack`,
 `packBudgetViolation`, `qualityPackWorse`).
 */
module Packing {
  import opened Evidence
  import opened Ranking
  import opened PackMeter
  import opened ContextPack

  /** What the quality analysis hands over. */
  datatype Quality = Quality(candidates: seq<Candidate>, diagnostics: set<Diagnostic>, conflicts: set<Conflict>,
                             omissions: set<Omission>)

  datatype Input = Input(plan: Plan, sources: set<Source>, quality: Quality, coverage: seq<CoverageRow>,
                         diagnostics: set<Diagnostic>, previous: BudgetUsed)

  // ---------- status ----------

  predicate Severe(s: Status) {
    s == Blocked || s == Invalid
  }

  predicate Fine(s: Status) {
    s == Unset || s == Complete
  }

  /** `qualityPackWorse`. */
  function Worse(current: Status, next: Status): Status {
    if Severe(current) then current
    else if Severe(next) then next
    else if current == Partial || next == Partial then Partial
    else next
  }

  function Severity(s: Status): nat {
    match s
    case Complete => 0
    case Partial => 1
    case Blocked => 2
    case Invalid => 2
    case _ => 1
  }

  /** Combining statuses never improves the current one, except that COMPLETE wipes out the four
      statuses that the packer itself never produces. */
  lemma WorseNeverImproves(current: Status, next: Status)
    ensures (Severity(Worse(current, next)) < Severity(current))
         == (next == Complete && current in {Unsupported, Stale, Unknown, Unset})
    ensures Severity(Worse(current, next)) >= Severity(next)
  {
  }

  // ---------- budgets ----------

  datatype Reason = Fits | CumulativeSourceBytes | ContextTokens | PerSourceBytes | PerFacetTokens

  function ReasonText(r: Reason): string {
    match r
    case Fits => ""
    case CumulativeSourceBytes => "CUMULATIVE_SOURCE_BYTES"
    case ContextTokens => "CONTEXT_TOKENS"
    case PerSourceBytes => "PER_SOURCE_BYTES"
    case PerFacetTokens => "PER_FACET_TOKENS"
  }

  predicate SourceOver(budget: Budget, evidence: seq<Candidate>) {
    budget.perSourceBytes > 0
    && exists i | 0 <= i < |evidence| :: Sum(BytesFrom(evidence[i].origin.source), evidence) > budget.perSourceBytes
  }

  predicate FacetOver(codec: Codec, budget: Budget, evidence: seq<Candidate>) {
    budget.perFacetTokens > 0
    && exists i | 0 <= i < |evidence| :: exists f | f in evidence[i].facets ::
         Sum(TokensFor(codec.weight, f), evidence) > budget.perFacetTokens
  }

  predicate BytesOver(budget: Budget, used: BudgetUsed) {
    budget.maxSourceBytes > 0 && used.cumulativeSourceBytes > budget.maxSourceBytes
  }

  predicate TokensOver(budget: Budget, used: BudgetUsed) {
    budget.maxContextTokens > 0
    && (used.contextTokens + budget.reservedPromptTokens > budget.maxContextTokens
        || used.cumulativeContextTokens + budget.reservedPromptTokens > budget.maxContextTokens)
  }

  /** `packBudgetViolation`: the first budget that is exceeded. */
  function Violation(codec: Codec, p: Pack): Reason {
    var budget := p.plan.admission.budget;
    if BytesOver(budget, p.used) then CumulativeSourceBytes
    else if TokensOver(budget, p.used) then ContextTokens
    else if SourceOver(budget, p.evidence) then PerSourceBytes
    else if FacetOver(codec, budget, p.evidence) then PerFacetTokens
    else Fits
  }

  // ---------- the start ----------

  function ConflictIds(conflicts: set<Conflict>): set<string> {
    set c, id | c in conflicts && id in c.evidenceIds :: id
  }

  predicate Mandatory(plan: Plan, conflicts: set<Conflict>, c: Candidate) {
    || c.required || c.origin.provenance == TrustedPolicy || c.id in ConflictIds(conflicts)
    || (exists link | link in c.links :: link.evidenceId in ConflictIds(conflicts))
    || (exists i | 0 <= i < |plan.required| :: plan.required[i].id in c.facets)
  }

  function Before(plan: Plan, conflicts: set<Conflict>, key: Key): (Candidate, Candidate) -> bool {
    (a: Candidate, b: Candidate) =>
      if Mandatory(plan, conflicts, a) != Mandatory(plan, conflicts, b) then Mandatory(plan, conflicts, a)
          else RankLess(key, a, b)
  }

  /** A successful exclusion of a named file by policy. */
  predicate IsLedger(d: Diagnostic) {
    d.code == "EXCLUDED_BY_POLICY" && d.status == Complete && d.facetId == "" && d.evidenceId == "" && d.path != ""
  }

  function LedgerOf(ds: set<Diagnostic>, source: string): set<Diagnostic> {
    set d | d in ds && IsLedger(d) && d.source == source
  }

  function Entry(codec: Codec, ds: set<Diagnostic>, d: Diagnostic): Diagnostic {
    var ledger := LedgerOf(ds, d.source);
    if |ledger| == 1 then d
    else Diagnostic("EXCLUDED_BY_POLICY", Complete, d.source, "", "", "", codec.ledgerText(ledger))
  }

  /** `compactPolicyExclusions`. */
  function Compact(codec: Codec, ds: set<Diagnostic>): set<Diagnostic> {
    (set d | d in ds && !IsLedger(d)) + (set d | d in ds && IsLedger(d) :: Entry(codec, ds, d))
  }

  lemma CompactKeepsTrouble(codec: Codec, ds: set<Diagnostic>)
    ensures forall d: Diagnostic | !Fine(d.status) :: d in Compact(codec, ds) <==> d in ds
  {
  }

  function Questions(codec: Codec, input: Input): set<Diagnostic> {
    Compact(codec, input.plan.unresolved + input.diagnostics + input.quality.diagnostics)
  }

  predicate RouteStops(a: Admission) {
    a.ownerReview || Severe(a.routeStatus)
  }

  /** The status after everything but the evidence has been looked at. */
  ghost function StartStatus(codec: Codec, input: Input): Status {
    if RouteStops(input.plan.admission) || exists d :: d in Questions(codec, input) && Severe(d.status) then Blocked
    else if !Fine(input.plan.admission.routeStatus) || (exists d :: d in Questions(codec, input) && !Fine(d.status))
            || (exists i :: 0 <= i < |input.coverage| && !input.coverage[i].complete)
                 || input.quality.conflicts != {} then Partial
    else Complete
  }

  function EmptyPack(codec: Codec, input: Input, status: Status): Pack {
    Pack(input.plan.requestId, input.plan, input.sources, status, [], input.coverage, Questions(codec, input),
         input.quality.conflicts, input.quality.omissions,
         NOTHING_USED.(reservedPromptTokens := input.plan.admission.budget.reservedPromptTokens,
             expandCount := input.previous.expandCount))
  }

  // ---------- placing candidates ----------

  function Trial(codec: Codec, previous: BudgetUsed, p: Pack, c: Candidate): Pack {
    MeasuredPack(codec, p.(evidence := p.evidence + [c]), previous)
  }

  function OmissionOf(c: Candidate, reason: Reason, mandatory: bool): Omission {
    Omission(c.id, c.origin.source, c.origin.path, ReasonText(reason), mandatory)
  }

  const BUDGET_UNSATISFIED := "BUDGET_UNSATISFIED"

  function Unsatisfied(c: Candidate): Diagnostic {
    Diagnostic(BUDGET_UNSATISFIED, Blocked, c.origin.source, c.origin.path, "", c.id,
               "required or conflicting evidence does not fit the context budget")
  }

  function Omit(p: Pack, c: Candidate, reason: Reason): Pack {
    var mandatory := Mandatory(p.plan, p.conflicts, c);
    var q := p.(omissions := p.omissions + {OmissionOf(c, reason, mandatory)});
    if mandatory then q.(status := Blocked, unresolved := q.unresolved + {Unsatisfied(c)}) else q
  }

  function Place(codec: Codec, previous: BudgetUsed, p: Pack, c: Candidate): Pack {
    var trial := Trial(codec, previous, p, c);
    if Violation(codec, trial) == Fits then trial else Omit(p, c, Violation(codec, trial))
  }

  /** One candidate's turn. */
  type Turn = (Pack, Candidate) -> Pack

  function PlaceTurn(codec: Codec, previous: BudgetUsed): Turn {
    (p: Pack, c: Candidate) => Place(codec, previous, p, c)
  }

  function PlaceAll(turn: Turn, p: Pack, cs: seq<Candidate>, n: nat): Pack
    requires n <= |cs|
  {
    if n == 0 then p else turn(PlaceAll(turn, p, cs, n - 1), cs[n - 1])
  }

  // ---------- facets and policies ----------

  predicate FacetFound(evidence: seq<Candidate>, id: string) {
    exists i | 0 <= i < |evidence| :: id in evidence[i].facets
  }

  /** The search state of a facet: the last coverage row that has one. */
  function SearchState(coverage: seq<CoverageRow>, id: string): RequirementState {
    if coverage == [] then NotVerified
    else
      var row := coverage[|coverage| - 1];
      if row.facetId == id && row.state != NoState then
        if !row.complete && row.state == NotFound then NotVerified else row.state
      else SearchState(coverage[..|coverage| - 1], id)
  }

  function StateText(s: RequirementState): string {
    match s
    case Found => "FOUND"
    case NotFound => "NOT_FOUND_AFTER_COMPLETE_SEARCH"
    case NotVerified => "NOT_VERIFIED"
    case OmittedByLimit => "OMITTED_BY_LIMIT"
    case Unreadable => "UNREADABLE"
    case RequirementUnsupported => "UNSUPPORTED"
    case ExcludedByPolicy => "EXCLUDED_BY_POLICY"
    case NoState => ""
  }

  predicate ExcludedAsSecret(diagnostics: set<Diagnostic>, facet: Facet) {
    exists d | d in diagnostics ::
      d.code == "SECRET_CONTENT_EXCLUDED" && d.source == facet.source
          && (d.path == facet.path || (d.path != "" && d.path + "/" <= facet.path))
  }

  function MissingFacet(input: Input, facet: Facet): Diagnostic {
    var searched := SearchState(input.coverage, facet.id);
    var state := if searched == Found then OmittedByLimit else searched;
    var secret := state == ExcludedByPolicy && ExcludedAsSecret(input.diagnostics, facet);
    var code := if secret then "REQUIRED_EVIDENCE_EXCLUDED_BY_SECURITY"
                else if facet.kind == "contract" || facet.query == "contract" then "MISSING_REQUIRED_CONTRACT"
                else "REQUIRED_EVIDENCE_" + StateText(state);
    Diagnostic(code, Partial, facet.source, facet.path, facet.id, "",
               "required facet has no selected current evidence; search state: " + StateText(state))
  }

  type Diagnosis = Facet -> Diagnostic

  function Diagnose(input: Input): Diagnosis {
    (facet: Facet) => MissingFacet(input, facet)
  }

  function CheckFacet(diagnose: Diagnosis, p: Pack, facet: Facet): Pack {
    if FacetFound(p.evidence, facet.id) then p
    else p.(unresolved := p.unresolved + {diagnose(facet)}, status := Worse(p.status, Partial))
  }

  function CheckFacets(diagnose: Diagnosis, required: seq<Facet>, p: Pack, n: nat): Pack
    requires n <= |required|
  {
    if n == 0 then p else CheckFacet(diagnose, CheckFacets(diagnose, required, p, n - 1), required[n - 1])
  }

  predicate IsPin(hash: string) {
    var bare := Bare(hash);
    |bare| == 64 && forall i | 0 <= i < 64 :: '0' <= bare[i] <= '9' || 'a' <= bare[i] <= 'f'
  }

  function Bare(hash: string): string {
    if "sha256:" <= hash then hash[7..] else hash
  }

  /** `EqualContentHash`. */
  predicate SameHash(a: string, b: string) {
    IsPin(a) && IsPin(b) && Bare(a) == Bare(b)
  }

  function WithoutSuffix(s: string, suffix: string): string {
    if |suffix| <= |s| && s[|s| - |suffix|..] == suffix then s[..|s| - |suffix|] else s
  }

  predicate PathCovered(scope: string, relative: string) {
    if scope == "." || scope == "" then true
    else
      var bare := WithoutSuffix(WithoutSuffix(scope, "/"), "/**");
      relative == bare || bare + "/" <= relative
  }

  /** `PolicyApplies`. */
  predicate Applies(plan: Plan, policy: Policy) {
    || policy.scope == "."
    || (exists i | 0 <= i < |plan.required| :: BringsIn(plan.required[i], policy))
    || (exists i | 0 <= i < |plan.optional| :: BringsIn(plan.optional[i], policy))
  }

  predicate BringsIn(facet: Facet, policy: Policy) {
    && facet.source == policy.source && facet.path != policy.path && facet.kind != "policy"
    && facet.path != "" && PathCovered(policy.scope, facet.path)
  }

  predicate IsPolicy(origin: Origin, policy: Policy) {
    && origin.provenance == TrustedPolicy && origin.source == policy.source
    && origin.path == policy.path && SameHash(origin.contentHash, policy.contentHash)
  }

  predicate PolicyFound(evidence: seq<Candidate>, policy: Policy) {
    exists i | 0 <= i < |evidence| :: IsPolicy(evidence[i].origin, policy)
  }

  function MissingPolicy(policy: Policy): Diagnostic {
    Diagnostic("TRUSTED_POLICY_INVALIDATED", Blocked, policy.source, policy.path, "", "",
        "registered policy bytes are missing, changed or omitted")
  }

  function CheckPolicy(plan: Plan, p: Pack, policy: Policy): Pack {
    if Applies(plan, policy) && !PolicyFound(p.evidence, policy)
    then p.(status := Blocked, unresolved := p.unresolved + {MissingPolicy(policy)})
    else p
  }

  function CheckPolicies(plan: Plan, p: Pack, n: nat): Pack
    requires n <= |plan.admission.policies|
  {
    if n == 0 then p else CheckPolicy(plan, CheckPolicies(plan, p, n - 1), plan.admission.policies[n - 1])
  }

  // ---------- the end ----------

  function EnvelopeUnsatisfied(reason: Reason): Diagnostic {
    Diagnostic(BUDGET_UNSATISFIED, Blocked, "", "", "", "",
        "canonical package envelope and prompt reserve exceed budget: " + ReasonText(reason))
  }

  function Finish(codec: Codec, previous: BudgetUsed, p: Pack): Pack {
    var m := MeasuredPack(codec, p, previous);
    var reason := Violation(codec, m);
    Canonical(codec, if reason == Fits then m
                     else MeasuredPack(codec,
                         m.(status := Blocked, unresolved := m.unresolved + {EnvelopeUnsatisfied(reason)}), previous))
  }

  function Queue(codec: Codec, input: Input): seq<Candidate> {
    StableSort(Before(input.plan, input.quality.conflicts, codec.key), input.quality.candidates)
  }

  ghost function Filled(codec: Codec, input: Input): Pack {
    var queue := Queue(codec, input);
    PlaceAll(PlaceTurn(codec, input.previous), EmptyPack(codec, input, StartStatus(codec, input)), queue, |queue|)
  }

  ghost function Answered(codec: Codec, input: Input): Pack {
    CheckFacets(Diagnose(input), input.plan.required, Filled(codec, input), |input.plan.required|)
  }

  ghost function Checked(codec: Codec, input: Input): Pack {
    CheckPolicies(input.plan, Answered(codec, input), |input.plan.admission.policies|)
  }

  /** The specification of `BuildPack`. */
  ghost function Built(codec: Codec, input: Input): Pack {
    Finish(codec, input.previous, Checked(codec, input))
  }
}
