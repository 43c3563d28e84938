/**
 The main results about `BuildPack` (internal/contextretrieval/pack.go), for every input.
 */
module PackGuarantees {
  import Ordering
  import opened Evidence
  import opened Ranking
  import opened PackMeter
  import opened ContextPack
  import opened Packing
  import opened PackingLaws

  lemma {:induction false} TurnsKeep(turn: Turn, good: Pack -> bool, p: Pack, cs: seq<Candidate>, n: nat)
    requires n <= |cs| && good(p)
    requires forall q: Pack, c: Candidate | good(q) :: good(turn(q, c))
    ensures good(PlaceAll(turn, p, cs, n))
  {
    if n > 0 { TurnsKeep(turn, good, p, cs, n - 1); }
  }

  // ---------- the budgets that depend on the evidence ----------

  predicate EvidenceFits(codec: Codec, budget: Budget, previous: BudgetUsed, evidence: seq<Candidate>) {
    && !(budget.maxSourceBytes > 0 && CumulativeBytes(previous, Bytes(evidence)) > budget.maxSourceBytes)
    && !SourceOver(budget, evidence) && !FacetOver(codec, budget, evidence)
  }

  predicate Fitting(codec: Codec, budget: Budget, previous: BudgetUsed, p: Pack) {
    p.plan.admission.budget == budget && EvidenceFits(codec, budget, previous, p.evidence)
  }

  lemma PlaceFits(codec: Codec, budget: Budget, previous: BudgetUsed, p: Pack, c: Candidate)
    requires Fitting(codec, budget, previous, p)
    ensures Fitting(codec, budget, previous, Place(codec, previous, p, c))
  {
  }

  /** The costs of earlier packs fit the byte budget. */
  predicate PriorBytesFit(input: Input) {
    var max := input.plan.admission.budget.maxSourceBytes;
    max > 0 ==> CumulativeBytes(input.previous, 0) <= max
  }

  lemma FilledFits(codec: Codec, input: Input)
    requires PriorBytesFit(input)
    ensures Fitting(codec, input.plan.admission.budget, input.previous, Filled(codec, input))
  {
    var budget, start := input.plan.admission.budget, EmptyPack(codec, input, StartStatus(codec, input));
    var good := (p: Pack) => Fitting(codec, budget, input.previous, p);
    forall q: Pack, c: Candidate | good(q) ensures good(PlaceTurn(codec, input.previous)(q, c)) {
      PlaceFits(codec, budget, input.previous, q, c);
    }
    TurnsKeep(PlaceTurn(codec, input.previous), good, start, Queue(codec, input), |Queue(codec, input)|);
  }

  lemma {:induction false} SortKeepsOver(codec: Codec, budget: Budget, less: (Candidate, Candidate) -> bool,
                                         evidence: seq<Candidate>)
    ensures SourceOver(budget, StableSort(less, evidence)) <==> SourceOver(budget, evidence)
    ensures FacetOver(codec, budget, StableSort(less, evidence)) <==> FacetOver(codec, budget, evidence)
  {
    var sorted := StableSort(less, evidence);
    SortedMembers(less, evidence);
    forall source: string ensures Sum(BytesFrom(source), sorted) == Sum(BytesFrom(source), evidence) {
      SortKeepsSum(BytesFrom(source), less, evidence);
    }
    forall f: string ensures Sum(TokensFor(codec.weight, f), sorted) == Sum(TokensFor(codec.weight, f), evidence) {
      SortKeepsSum(TokensFor(codec.weight, f), less, evidence);
    }
    SourceOverMembers(budget, evidence, sorted);
    SourceOverMembers(budget, sorted, evidence);
    FacetOverMembers(codec, budget, evidence, sorted);
    FacetOverMembers(codec, budget, sorted, evidence);
  }

  lemma {:induction false} SourceOverMembers(budget: Budget, s: seq<Candidate>, t: seq<Candidate>)
    requires forall c :: c in s <==> c in t
    requires forall source: string :: Sum(BytesFrom(source), s) == Sum(BytesFrom(source), t)
    ensures SourceOver(budget, s) ==> SourceOver(budget, t)
  {
    if SourceOver(budget, s) {
      var i :| 0 <= i < |s| && Sum(BytesFrom(s[i].origin.source), s) > budget.perSourceBytes;
      assert s[i] in t;
      var j :| 0 <= j < |t| && t[j] == s[i];
    }
  }

  lemma {:induction false} FacetOverMembers(codec: Codec, budget: Budget, s: seq<Candidate>, t: seq<Candidate>)
    requires forall c :: c in s <==> c in t
    requires forall f: string :: Sum(TokensFor(codec.weight, f), s) == Sum(TokensFor(codec.weight, f), t)
    ensures FacetOver(codec, budget, s) ==> FacetOver(codec, budget, t)
  {
    if FacetOver(codec, budget, s) {
      var i :| 0 <= i < |s| && exists f | f in s[i].facets ::
          Sum(TokensFor(codec.weight, f), s) > budget.perFacetTokens;
      var f :| f in s[i].facets && Sum(TokensFor(codec.weight, f), s) > budget.perFacetTokens;
      assert s[i] in t;
      var j :| 0 <= j < |t| && t[j] == s[i];
      assert f in t[j].facets && Sum(TokensFor(codec.weight, f), t) > budget.perFacetTokens;
    }
  }

  lemma CanonicalKeepsViolation(codec: Codec, p: Pack)
    ensures Violation(codec, Canonical(codec, p)) == Violation(codec, p)
  {
    SortKeepsOver(codec, p.plan.admission.budget, ByRank(codec.key), p.evidence);
  }

  lemma MeasuredOverrunsTokensOnly(codec: Codec, previous: BudgetUsed, p: Pack)
    requires EvidenceFits(codec, p.plan.admission.budget, previous, p.evidence)
    ensures var v := Violation(codec, MeasuredPack(codec, p, previous)); v == Fits || v == ContextTokens
  {
  }

  /** When the costs of earlier packs fit, the only budget a finished pack can exceed is the token
      budget, and then it is BLOCKED and says why. */
  lemma OnlyTokensCanOverrun(codec: Codec, input: Input)
    requires PriorBytesFit(input)
    ensures var r := Built(codec, input);
            && (Violation(codec, r) == Fits || Violation(codec, r) == ContextTokens)
            && (Violation(codec, r) == ContextTokens ==>
                 r.status == Blocked && EnvelopeUnsatisfied(ContextTokens) in r.unresolved)
  {
    var p := Checked(codec, input);
    FilledFits(codec, input);
    CheckedKeeps(codec, input);
    FinishOverrunsTokensOnly(codec, input.previous, p);
  }

  lemma FinishOverrunsTokensOnly(codec: Codec, previous: BudgetUsed, p: Pack)
    requires EvidenceFits(codec, p.plan.admission.budget, previous, p.evidence)
    ensures var r := Finish(codec, previous, p);
            && (Violation(codec, r) == Fits || Violation(codec, r) == ContextTokens)
            && (Violation(codec, r) == ContextTokens ==>
                 r.status == Blocked && EnvelopeUnsatisfied(ContextTokens) in r.unresolved)
  {
    var m := MeasuredPack(codec, p, previous);
    var reason := Violation(codec, m);
    var marked := m.(status := Blocked, unresolved := m.unresolved + {EnvelopeUnsatisfied(reason)});
    MeasuredOverrunsTokensOnly(codec, previous, p);
    if reason == Fits {
      CanonicalKeepsViolation(codec, m);
    } else {
      MeasuredOverrunsTokensOnly(codec, previous, marked);
      CanonicalKeepsViolation(codec, MeasuredPack(codec, marked, previous));
    }
  }

  // ---------- accounting ----------

  predicate Measurable(p: Pack) {
    Startable(p.used) && p.used.reservedPromptTokens == p.plan.admission.budget.reservedPromptTokens
  }

  lemma PlaceIsMeasurable(codec: Codec, previous: BudgetUsed, p: Pack, c: Candidate)
    requires codec.Valid() && Nested(previous) && Measurable(p)
    ensures Measurable(Place(codec, previous, p, c))
  {
    MeasuredPackIsAccounted(codec, p.(evidence := p.evidence + [c]), previous);
  }

  lemma CheckedIsMeasurable(codec: Codec, input: Input)
    requires codec.Valid() && Nested(input.previous)
    ensures Measurable(Checked(codec, input))
  {
    var start := EmptyPack(codec, input, StartStatus(codec, input));
    var good := (p: Pack) => Measurable(p);
    forall q: Pack, c: Candidate | good(q) ensures good(PlaceTurn(codec, input.previous)(q, c)) {
      PlaceIsMeasurable(codec, input.previous, q, c);
    }
    TurnsKeep(PlaceTurn(codec, input.previous), good, start, Queue(codec, input), |Queue(codec, input)|);
    CheckedKeeps(codec, input);
  }

  lemma CanonicalIsAccounted(codec: Codec, p: Pack)
    requires Accounted(codec, p)
    ensures Accounted(codec, Canonical(codec, p))
  {
    CanonicalTwice(codec, p);
    SortKeepsSum(ContentBytes(), ByRank(codec.key), p.evidence);
  }

  /** Every returned pack passes the accounting of `VerifyDigest`: its counts describe its own
      encoding, and they are an account that the next pack can build on. */
  lemma PackIsAccounted(codec: Codec, input: Input)
    requires codec.Valid() && Nested(input.previous)
    ensures var r := Built(codec, input);
            && Accounted(codec, r) && r.used.expandCount == input.previous.expandCount
            && r.used.cumulativeSourceBytes == CumulativeBytes(input.previous, Bytes(r.evidence))
            && r.used.cumulativeContextTokens >= input.previous.cumulativeContextTokens
  {
    var p := Checked(codec, input);
    CheckedIsMeasurable(codec, input);
    FilledGrows(codec, input);
    CheckedKeeps(codec, input);
    FinishIsAccounted(codec, input.previous, p);
  }

  lemma FinishIsAccounted(codec: Codec, previous: BudgetUsed, p: Pack)
    requires codec.Valid() && Nested(previous) && Measurable(p)
    ensures var r := Finish(codec, previous, p);
            && Accounted(codec, r) && r.used.expandCount == p.used.expandCount
            && r.used.cumulativeSourceBytes == CumulativeBytes(previous, Bytes(r.evidence))
            && r.used.cumulativeContextTokens >= previous.cumulativeContextTokens
  {
    var m := MeasuredPack(codec, p, previous);
    var reason := Violation(codec, m);
    MeasuredPackIsAccounted(codec, p, previous);
    SortKeepsSum(ContentBytes(), ByRank(codec.key), p.evidence);
    if reason == Fits {
      CanonicalIsAccounted(codec, m);
    } else {
      var marked := m.(status := Blocked, unresolved := m.unresolved + {EnvelopeUnsatisfied(reason)});
      MeasuredPackIsAccounted(codec, marked, previous);
      CanonicalIsAccounted(codec, MeasuredPack(codec, marked, previous));
    }
  }

  // ---------- candidates ----------

  /** `q` is `p` after its end: counted, normalized, and possibly BLOCKED for its envelope. */
  ghost predicate Finished(codec: Codec, p: Pack, q: Pack) {
    && Coherent(q) && q.plan == NormalPlan(codec, p.plan) && q.conflicts == p.conflicts
    && q.coverage == Ordering.SortBy(codec.rowHash, p.coverage)
    && Canonical(codec, q) == q
    && q.requestId == p.requestId && q.sources == p.sources
    && multiset(q.evidence) == multiset(p.evidence) && (forall c :: c in q.evidence <==> c in p.evidence)
    && p.unresolved <= q.unresolved && q.omissions == p.omissions && (p.status == Blocked ==> q.status == Blocked)
    && (forall d | d in q.unresolved :: d in p.unresolved || d.code == BUDGET_UNSATISFIED)
  }

  lemma FinishFacts(codec: Codec, previous: BudgetUsed, p: Pack)
    requires Coherent(p)
    ensures Finished(codec, p, Finish(codec, previous, p))
  {
    var m := MeasuredPack(codec, p, previous);
    var reason := Violation(codec, m);
    if reason == Fits {
      OrderedIsFinished(codec, p, m);
    } else {
      var marked := m.(status := Blocked, unresolved := m.unresolved + {EnvelopeUnsatisfied(reason)});
      OrderedIsFinished(codec, p, MeasuredPack(codec, marked, previous));
    }
  }

  lemma {:induction false} SortedRowsComplete(codec: Codec, rows: seq<CoverageRow>)
    ensures (forall i | 0 <= i < |Ordering.SortBy(codec.rowHash, rows)| ::
                Ordering.SortBy(codec.rowHash, rows)[i].complete) <==> (forall i | 0 <= i < |rows| :: rows[i].complete)
  {
    var sorted := Ordering.SortBy(codec.rowHash, rows);
    Ordering.SortByKeepsElements(codec.rowHash, rows);
    RowsComplete(rows, sorted);
    RowsComplete(sorted, rows);
  }

  lemma RowsComplete(rows: seq<CoverageRow>, others: seq<CoverageRow>)
    requires forall r :: r in rows <==> r in others
    ensures (forall i | 0 <= i < |rows| :: rows[i].complete) ==> (forall i | 0 <= i < |others| :: others[i].complete)
  {
    forall i | 0 <= i < |others| && (forall k | 0 <= k < |rows| :: rows[k].complete) ensures others[i].complete {
      assert others[i] in rows;
    }
  }

  lemma NormalStaysCoherent(codec: Codec, q: Pack)
    requires Coherent(q)
    ensures Coherent(Canonical(codec, q))
  {
    SortedRowsComplete(codec, q.coverage);
  }

  lemma BlockedIsCoherent(p: Pack, q: Pack)
    requires Coherent(p)
    requires q == p.(used := q.used) || exists reason ::
                 q == p.(used := q.used, status := Blocked, unresolved := p.unresolved + {EnvelopeUnsatisfied(reason)})
    ensures Coherent(q) && p.unresolved <= q.unresolved
    ensures (forall d | d in q.unresolved :: d in p.unresolved || d.code == BUDGET_UNSATISFIED)
    ensures p.status == Blocked ==> q.status == Blocked
  {
    if q != p.(used := q.used) {
      var reason :|
          q == p.(used := q.used, status := Blocked, unresolved := p.unresolved + {EnvelopeUnsatisfied(reason)});
      SettledGrows(p.unresolved, EnvelopeUnsatisfied(reason));
    }
  }

  lemma OrderedIsFinished(codec: Codec, p: Pack, q: Pack)
    requires Coherent(p)
    requires q == p.(used := q.used) || exists reason ::
                 q == p.(used := q.used, status := Blocked, unresolved := p.unresolved + {EnvelopeUnsatisfied(reason)})
    ensures Finished(codec, p, Canonical(codec, q))
  {
    BlockedIsCoherent(p, q);
    NormalStaysCoherent(codec, q);
    SortedMembers(ByRank(codec.key), q.evidence);
    CanonicalTwice(codec, q);
  }

  /** Every candidate ends in the evidence or among the omissions; an omitted mandatory one makes
      the pack BLOCKED with BUDGET_UNSATISFIED, and no evidence comes from anywhere else. */
  lemma EveryCandidateIsAccountedFor(codec: Codec, input: Input)
    ensures var r := Built(codec, input);
            && (forall c | c in input.quality.candidates :: c in r.evidence || Omitted(input.plan, r, c))
            && multiset(r.evidence) <= multiset(input.quality.candidates)
            && input.quality.omissions <= r.omissions
  {
    var p, r := Checked(codec, input), Built(codec, input);
    FilledGrows(codec, input);
    CheckedKeeps(codec, input);
    CheckedTakes(codec, input);
    FinishFacts(codec, input.previous, p);
    forall c | c in input.quality.candidates ensures c in r.evidence || Omitted(input.plan, r, c) {
      CheckedSettles(codec, input, c);
      if c !in p.evidence {
        var reason: Reason :| OmittedFor(input.plan, p, c, reason);
        assert OmittedFor(input.plan, r, c, reason);
      }
    }
  }

  /** If nothing is reported as not fitting, every mandatory candidate is in the pack. */
  lemma UnlessUnsatisfiedMandatoryIsIn(codec: Codec, input: Input, c: Candidate)
    requires c in input.quality.candidates && Mandatory(input.plan, input.quality.conflicts, c)
    requires forall d | d in Built(codec, input).unresolved :: d.code != BUDGET_UNSATISFIED
    ensures c in Built(codec, input).evidence
  {
    var r := Built(codec, input);
    EveryCandidateIsAccountedFor(codec, input);
    FilledGrows(codec, input);
    CheckedKeeps(codec, input);
    FinishFacts(codec, input.previous, Checked(codec, input));
    assert Unsatisfied(c) !in r.unresolved by {
      assert Unsatisfied(c).code == BUDGET_UNSATISFIED;
    }
  }

  // ---------- the status ----------

  /** Once worsened, the status never improves: not while candidates are placed, not while facets
      and policies are checked, not at the end. */
  lemma StatusNeverImproves(codec: Codec, input: Input)
    ensures var start, filled, answered, checked := StartStatus(codec, input), Filled(codec, input),
                Answered(codec, input), Checked(codec, input);
            && Severity(start) <= Severity(filled.status) <= Severity(answered.status) <= Severity(checked.status)
            && Severity(checked.status) <= Severity(Built(codec, input).status)
    ensures Usual(Built(codec, input).status)
  {
    FilledGrows(codec, input);
    AnsweredKeeps(codec, input);
    CheckedKeeps(codec, input);
    FinishFacts(codec, input.previous, Checked(codec, input));
    FinishOnlyBlocks(codec, input.previous, Checked(codec, input));
  }

  lemma FinishOnlyBlocks(codec: Codec, previous: BudgetUsed, p: Pack)
    ensures Finish(codec, previous, p).status == p.status || Finish(codec, previous, p).status == Blocked
  {
  }

  // ---------- what COMPLETE means ----------

  ghost predicate AllFacetsFound(plan: Plan, evidence: seq<Candidate>) {
    forall i | 0 <= i < |plan.required| :: FacetFound(evidence, plan.required[i].id)
  }

  ghost predicate AllPoliciesFound(plan: Plan, evidence: seq<Candidate>) {
    forall i | 0 <= i < |plan.admission.policies| && Applies(plan, plan.admission.policies[i]) ::
        PolicyFound(evidence, plan.admission.policies[i])
  }

  lemma FoundInMembers(plan: Plan, s: seq<Candidate>, t: seq<Candidate>)
    requires forall c :: c in s <==> c in t
    ensures AllFacetsFound(plan, s) ==> AllFacetsFound(plan, t)
    ensures AllPoliciesFound(plan, s) ==> AllPoliciesFound(plan, t)
  {
    forall id: string | FacetFound(s, id) ensures FacetFound(t, id) {
      var i :| 0 <= i < |s| && id in s[i].facets;
      assert s[i] in t;
      var j :| 0 <= j < |t| && t[j] == s[i];
    }
    forall policy: Policy | PolicyFound(s, policy) ensures PolicyFound(t, policy) {
      var i :| 0 <= i < |s| && IsPolicy(s[i].origin, policy);
      assert s[i] in t;
      var j :| 0 <= j < |t| && t[j] == s[i];
    }
  }

  /** Unresolved questions of a checked pack are those it started with, budget failures, or there
      is a missing facet or policy. */
  ghost predicate Explained(questions: set<Diagnostic>, plan: Plan, p: Pack) {
    forall d | d in p.unresolved ::
      d in questions || d.code == BUDGET_UNSATISFIED || !AllFacetsFound(plan, p.evidence)
          || !AllPoliciesFound(plan, p.evidence)
  }

  predicate OnlyBudget(questions: set<Diagnostic>, p: Pack) {
    forall d | d in p.unresolved :: d in questions || d.code == BUDGET_UNSATISFIED
  }

  lemma PlaceAddsOnlyBudget(codec: Codec, previous: BudgetUsed, questions: set<Diagnostic>, p: Pack, c: Candidate)
    requires OnlyBudget(questions, p)
    ensures OnlyBudget(questions, Place(codec, previous, p, c))
  {
    assert Unsatisfied(c).code == BUDGET_UNSATISFIED;
  }

  lemma FilledIsExplained(codec: Codec, input: Input)
    ensures OnlyBudget(Questions(codec, input), Filled(codec, input))
  {
    var questions := Questions(codec, input);
    var good := (p: Pack) => OnlyBudget(questions, p);
    forall q: Pack, c: Candidate | good(q) ensures good(PlaceTurn(codec, input.previous)(q, c)) {
      PlaceAddsOnlyBudget(codec, input.previous, questions, q, c);
    }
    TurnsKeep(PlaceTurn(codec, input.previous), good, EmptyPack(codec, input, StartStatus(codec, input)),
              Queue(codec, input), |Queue(codec, input)|);
  }

  lemma {:induction false} FacetsExplain(diagnose: Diagnosis, questions: set<Diagnostic>, plan: Plan, p: Pack, n: nat)
    requires n <= |plan.required| && Explained(questions, plan, p) && Coherent(p) && Alarming(diagnose)
    ensures Explained(questions, plan, CheckFacets(diagnose, plan.required, p, n))
  {
    CheckFacetsKeep(diagnose, plan.required, p, n);
    if n > 0 {
      FacetsExplain(diagnose, questions, plan, p, n - 1);
      CheckFacetsKeep(diagnose, plan.required, p, n - 1);
    }
  }

  lemma {:induction false} PoliciesExplain(questions: set<Diagnostic>, plan: Plan, p: Pack, n: nat)
    requires n <= |plan.admission.policies| && Explained(questions, plan, p) && Coherent(p)
    ensures Explained(questions, plan, CheckPolicies(plan, p, n))
  {
    CheckPoliciesKeep(plan, p, n);
    if n > 0 {
      PoliciesExplain(questions, plan, p, n - 1);
      CheckPoliciesKeep(plan, p, n - 1);
    }
  }

  lemma CheckedIsExplained(codec: Codec, input: Input)
    ensures Explained(Questions(codec, input), input.plan, Checked(codec, input))
  {
    FilledIsExplained(codec, input);
    DiagnosesAreAlarming(input);
    FilledGrows(codec, input);
    FacetsExplain(Diagnose(input), Questions(codec, input), input.plan, Filled(codec, input), |input.plan.required|);
    AnsweredKeeps(codec, input);
    PoliciesExplain(Questions(codec, input), input.plan, Answered(codec, input), |input.plan.admission.policies|);
  }

  /** No budget was reported as exceeded. */
  ghost predicate Satisfied(ds: set<Diagnostic>) {
    forall d | d in ds :: d.code == BUDGET_UNSATISFIED ==> Fine(d.status)
  }

  /** Nothing outside the evidence stands against COMPLETE. */
  ghost predicate ClearInput(input: Input) {
    && !RouteStops(input.plan.admission) && Fine(input.plan.admission.routeStatus)
    && (forall i | 0 <= i < |input.coverage| :: input.coverage[i].complete) && input.quality.conflicts == {}
  }

  /** COMPLETE, exactly: the route needs no owner, coverage is complete, there is no conflict and
      no open question, everything mandatory fits, every required facet has evidence, and every
      applicable trusted policy has evidence with exactly its hash. */
  lemma CompleteExactly(codec: Codec, input: Input)
    ensures var r := Built(codec, input);
            r.status == Complete <==>
              && ClearInput(input) && Settled(Questions(codec, input)) && Satisfied(r.unresolved)
              && AllFacetsFound(input.plan, r.evidence) && AllPoliciesFound(input.plan, r.evidence)
  {
    var p, r := Checked(codec, input), Built(codec, input);
    FilledGrows(codec, input);
    CheckedKeeps(codec, input);
    GrowsTransitive(EmptyPack(codec, input, StartStatus(codec, input)), Filled(codec, input), p);
    FinishFacts(codec, input.previous, p);
    FoundInMembers(input.plan, p.evidence, r.evidence);
    FoundInMembers(input.plan, r.evidence, p.evidence);
    ClearIsClear(codec, input, p, r);
    if r.status == Complete {
      CompleteHasAll(codec, input);
    } else {
      CheckedIsExplained(codec, input);
      NothingElseStands(Questions(codec, input), input.plan, p, r);
    }
  }

  lemma ClearIsClear(codec: Codec, input: Input, p: Pack, r: Pack)
    requires p.plan == input.plan && p.coverage == input.coverage && p.conflicts == input.quality.conflicts
    requires Finished(codec, p, r)
    ensures Clear(r) <==> ClearInput(input)
  {
    SortedRowsComplete(codec, p.coverage);
  }

  /** If nothing is missing and no budget failed, what is unresolved was so from the start. */
  lemma NothingElseStands(questions: set<Diagnostic>, plan: Plan, p: Pack, r: Pack)
    requires Explained(questions, plan, p) && forall d | d in r.unresolved ::
                 d in p.unresolved || d.code == BUDGET_UNSATISFIED
    ensures AllFacetsFound(plan, p.evidence) && AllPoliciesFound(plan, p.evidence)
            && Satisfied(r.unresolved) && Settled(questions)
            ==> Settled(r.unresolved)
  {
  }

  lemma CompleteHasAll(codec: Codec, input: Input)
    requires Built(codec, input).status == Complete
    ensures AllFacetsFound(input.plan, Checked(codec, input).evidence)
    ensures AllPoliciesFound(input.plan, Checked(codec, input).evidence)
  {
    var p := Checked(codec, input);
    FilledGrows(codec, input);
    CheckedKeeps(codec, input);
    FinishFacts(codec, input.previous, p);
    DiagnosesAreAlarming(input);
    forall i | 0 <= i < |input.plan.required| ensures FacetFound(p.evidence, input.plan.required[i].id) {
      CheckedAnswersFacet(codec, input, i);
      AnsweredAndSettled(Diagnose(input), p, input.plan.required[i]);
    }
    forall i | 0 <= i < |input.plan.admission.policies| && Applies(input.plan, input.plan.admission.policies[i])
      ensures PolicyFound(p.evidence, input.plan.admission.policies[i])
    {
      CheckedAnswersPolicy(codec, input, i);
      PolicyAnsweredAndSettled(input.plan, p, i);
    }
  }

  lemma AnsweredAndSettled(diagnose: Diagnosis, p: Pack, facet: Facet)
    requires FacetAnswered(diagnose, p, facet) && Settled(p.unresolved) && Alarming(diagnose)
    ensures FacetFound(p.evidence, facet.id)
  {
    assert diagnose(facet) !in p.unresolved;
  }

  lemma PolicyAnsweredAndSettled(plan: Plan, p: Pack, i: nat)
    requires i < |plan.admission.policies| && Applies(plan, plan.admission.policies[i])
    requires PolicyAnswered(plan, p, i) && Settled(p.unresolved)
    ensures PolicyFound(p.evidence, plan.admission.policies[i])
  {
    assert MissingPolicy(plan.admission.policies[i]) !in p.unresolved;
  }
}
