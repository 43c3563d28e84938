/**
 What every pack that `BuildPack` returns satisfies: accounting of its own size, where each
 candidate ends, which budgets hold, and what COMPLETE means.
 */
module PackingLaws {
  import opened Evidence
  import opened Ranking
  import opened PackMeter
  import opened ContextPack
  import opened Packing

  // ---------- how a pack develops ----------

  /** From `p` to a later state `q` of the same packing: nothing is taken back. */
  ghost predicate Grows(p: Pack, q: Pack) {
    && q.plan == p.plan && q.requestId == p.requestId && q.sources == p.sources
    && q.coverage == p.coverage && q.conflicts == p.conflicts
    && p.evidence <= q.evidence && p.omissions <= q.omissions && p.unresolved <= q.unresolved
    && (p.status == Blocked ==> q.status == Blocked) && Severity(p.status) <= Severity(q.status)
    && q.used.reservedPromptTokens == p.used.reservedPromptTokens && q.used.expandCount == p.used.expandCount
  }

  predicate Usual(s: Status) {
    s == Complete || s == Partial || s == Blocked
  }

  ghost predicate Settled(ds: set<Diagnostic>) {
    forall d | d in ds :: Fine(d.status)
  }

  /** Nothing outside the evidence stands against COMPLETE. */
  ghost predicate Clear(p: Pack) {
    && !RouteStops(p.plan.admission) && Fine(p.plan.admission.routeStatus)
    && (forall i | 0 <= i < |p.coverage| :: p.coverage[i].complete) && p.conflicts == {}
  }

  /** COMPLETE says exactly that nothing is unresolved. */
  ghost predicate Coherent(p: Pack) {
    Usual(p.status) && (p.status == Complete <==> Clear(p) && Settled(p.unresolved))
  }

  lemma StartIsCoherent(codec: Codec, input: Input)
    ensures Coherent(EmptyPack(codec, input, StartStatus(codec, input)))
  {
  }

  lemma SettledGrows(ds: set<Diagnostic>, d: Diagnostic)
    requires !Fine(d.status)
    ensures !Settled(ds + {d})
  {
    assert d in ds + {d};
  }

  /** Taking a candidate in changes the evidence and the counts. */
  lemma TakingGrows(p: Pack, c: Candidate, used: BudgetUsed)
    requires Coherent(p) && used.reservedPromptTokens == p.used.reservedPromptTokens
    requires used.expandCount == p.used.expandCount
    ensures var q := p.(evidence := p.evidence + [c], used := used); Grows(p, q) && Coherent(q)
  {
  }

  lemma OmittingGrows(p: Pack, c: Candidate, reason: Reason)
    requires Coherent(p)
    ensures Grows(p, Omit(p, c, reason)) && Coherent(Omit(p, c, reason)) && Omit(p, c, reason).evidence == p.evidence
  {
    SettledGrows(p.unresolved, Unsatisfied(c));
  }

  lemma PlaceGrows(codec: Codec, previous: BudgetUsed, p: Pack, c: Candidate)
    requires Coherent(p)
    ensures var q := Place(codec, previous, p, c);
            && Grows(p, q) && Coherent(q)
            && (q.evidence == p.evidence || q.evidence == p.evidence + [c])
  {
    var trial := Trial(codec, previous, p, c);
    TakingGrows(p, c, trial.used);
    OmittingGrows(p, c, Violation(codec, trial));
  }

  /** Diagnoses of missing facets are never fine. */
  ghost predicate Alarming(diagnose: Diagnosis) {
    forall facet: Facet :: !Fine(diagnose(facet).status)
  }

  lemma DiagnosesAreAlarming(input: Input)
    ensures Alarming(Diagnose(input))
  {
  }

  lemma CheckFacetGrows(diagnose: Diagnosis, p: Pack, facet: Facet)
    requires Coherent(p) && Alarming(diagnose)
    ensures var q := CheckFacet(diagnose, p, facet);
            && Grows(p, q) && Coherent(q) && q.evidence == p.evidence && q.used == p.used
            && (FacetFound(p.evidence, facet.id) || diagnose(facet) in q.unresolved)
  {
    SettledGrows(p.unresolved, diagnose(facet));
  }

  lemma CheckPolicyGrows(plan: Plan, p: Pack, policy: Policy)
    requires Coherent(p)
    ensures var q := CheckPolicy(plan, p, policy);
                Grows(p, q) && Coherent(q) && q.evidence == p.evidence && q.used == p.used
    ensures var q := CheckPolicy(plan, p, policy);
                !Applies(plan, policy) || PolicyFound(p.evidence, policy) || MissingPolicy(policy) in q.unresolved
  {
    SettledGrows(p.unresolved, MissingPolicy(policy));
  }

  // ---------- where each candidate ends ----------

  /** The candidate was left out for a budget, and if it was mandatory the pack says so for good. */
  ghost predicate Omitted(plan: Plan, q: Pack, c: Candidate) {
    exists reason: Reason :: OmittedFor(plan, q, c, reason)
  }

  ghost predicate OmittedFor(plan: Plan, q: Pack, c: Candidate, reason: Reason) {
    var mandatory := Mandatory(plan, q.conflicts, c);
    && reason != Fits && OmissionOf(c, reason, mandatory) in q.omissions
    && (mandatory ==> q.status == Blocked && Unsatisfied(c) in q.unresolved)
  }

  ghost predicate Settles(plan: Plan, q: Pack, c: Candidate) {
    c in q.evidence || Omitted(plan, q, c)
  }

  lemma SettlesForGood(plan: Plan, p: Pack, q: Pack, c: Candidate)
    requires Grows(p, q) && Settles(plan, p, c)
    ensures Settles(plan, q, c)
  {
    if c !in p.evidence {
      var reason: Reason :| OmittedFor(plan, p, c, reason);
      assert OmittedFor(plan, q, c, reason);
    }
  }

  lemma PlaceSettles(codec: Codec, previous: BudgetUsed, p: Pack, c: Candidate)
    ensures Settles(p.plan, Place(codec, previous, p, c), c)
  {
    var trial := Trial(codec, previous, p, c);
    if Violation(codec, trial) == Fits {
      assert trial.evidence[|p.evidence|] == c;
    } else {
      assert OmittedFor(p.plan, Omit(p, c, Violation(codec, trial)), c, Violation(codec, trial));
    }
  }

  lemma GrowsTransitive(p: Pack, q: Pack, r: Pack)
    requires Grows(p, q) && Grows(q, r)
    ensures Grows(p, r)
  {
  }

  /** What a turn does to any coherent pack. */
  ghost predicate GoodTurn(turn: Turn) {
    forall p: Pack, c: Candidate | Coherent(p) :: WellPlaced(p, c, turn(p, c))
  }

  ghost predicate WellPlaced(p: Pack, c: Candidate, q: Pack) {
    && Grows(p, q) && Coherent(q) && Settles(p.plan, q, c)
    && (q.evidence == p.evidence || q.evidence == p.evidence + [c])
  }

  lemma PlaceTurnIsGood(codec: Codec, previous: BudgetUsed)
    ensures GoodTurn(PlaceTurn(codec, previous))
  {
    forall p: Pack, c: Candidate | Coherent(p) ensures WellPlaced(p, c, PlaceTurn(codec, previous)(p, c)) {
      PlaceGrows(codec, previous, p, c);
      PlaceSettles(codec, previous, p, c);
    }
  }

  lemma {:induction false} PlaceAllGrows(turn: Turn, p: Pack, cs: seq<Candidate>, n: nat)
    requires n <= |cs| && Coherent(p) && GoodTurn(turn)
    ensures Grows(p, PlaceAll(turn, p, cs, n)) && Coherent(PlaceAll(turn, p, cs, n))
  {
    if n > 0 {
      var before := PlaceAll(turn, p, cs, n - 1);
      PlaceAllGrows(turn, p, cs, n - 1);
      assert WellPlaced(before, cs[n - 1], turn(before, cs[n - 1]));
      GrowsTransitive(p, before, turn(before, cs[n - 1]));
    }
  }

  lemma {:induction false} PlaceAllSettles(turn: Turn, p: Pack, cs: seq<Candidate>, n: nat, k: nat)
    requires k < n <= |cs| && Coherent(p) && GoodTurn(turn)
    ensures Settles(p.plan, PlaceAll(turn, p, cs, n), cs[k])
  {
    var before := PlaceAll(turn, p, cs, n - 1);
    PlaceAllGrows(turn, p, cs, n - 1);
    assert WellPlaced(before, cs[n - 1], turn(before, cs[n - 1]));
    if k < n - 1 {
      PlaceAllSettles(turn, p, cs, n - 1, k);
      SettlesForGood(p.plan, before, turn(before, cs[n - 1]), cs[k]);
    }
  }

  /** Evidence is taken from the candidates, each at most as often as it is there. */
  lemma {:induction false} PlaceAllTakes(turn: Turn, p: Pack, cs: seq<Candidate>, n: nat)
    requires n <= |cs| && Coherent(p) && GoodTurn(turn) && p.evidence == []
    ensures multiset(PlaceAll(turn, p, cs, n).evidence) <= multiset(cs[..n])
  {
    if n > 0 {
      var before := PlaceAll(turn, p, cs, n - 1);
      PlaceAllTakes(turn, p, cs, n - 1);
      PlaceAllGrows(turn, p, cs, n - 1);
      assert WellPlaced(before, cs[n - 1], turn(before, cs[n - 1]));
      assert cs[..n] == cs[..n - 1] + [cs[n - 1]];
    }
  }

  ghost predicate FacetAnswered(diagnose: Diagnosis, q: Pack, facet: Facet) {
    FacetFound(q.evidence, facet.id) || diagnose(facet) in q.unresolved
  }

  /** Later checks keep the evidence. */
  ghost predicate Keeps(p: Pack, q: Pack) {
    Grows(p, q) && Coherent(q) && q.evidence == p.evidence && q.used == p.used
  }

  lemma GrowsItself(p: Pack)
    ensures Grows(p, p)
  {
  }

  lemma {:induction false} CheckFacetsKeep(diagnose: Diagnosis, required: seq<Facet>, p: Pack, n: nat)
    requires n <= |required| && Coherent(p) && Alarming(diagnose)
    ensures Keeps(p, CheckFacets(diagnose, required, p, n))
  {
    if n > 0 {
      var before := CheckFacets(diagnose, required, p, n - 1);
      CheckFacetsKeep(diagnose, required, p, n - 1);
      CheckFacetGrows(diagnose, before, required[n - 1]);
      GrowsTransitive(p, before, CheckFacet(diagnose, before, required[n - 1]));
    } else {
      GrowsItself(p);
    }
  }

  lemma {:induction false} CheckFacetsAnswer(diagnose: Diagnosis, required: seq<Facet>, p: Pack, n: nat, i: nat)
    requires i < n <= |required| && Coherent(p) && Alarming(diagnose)
    ensures FacetAnswered(diagnose, CheckFacets(diagnose, required, p, n), required[i])
  {
    CheckFacetsKeep(diagnose, required, p, n - 1);
    CheckFacetGrows(diagnose, CheckFacets(diagnose, required, p, n - 1), required[n - 1]);
    if i < n - 1 { CheckFacetsAnswer(diagnose, required, p, n - 1, i); }
  }

  ghost predicate PolicyAnswered(plan: Plan, q: Pack, i: nat)
    requires i < |plan.admission.policies|
  {
    var policy := plan.admission.policies[i];
    !Applies(plan, policy) || PolicyFound(q.evidence, policy) || MissingPolicy(policy) in q.unresolved
  }

  lemma {:induction false} CheckPoliciesKeep(plan: Plan, p: Pack, n: nat)
    requires n <= |plan.admission.policies| && Coherent(p)
    ensures Keeps(p, CheckPolicies(plan, p, n))
  {
    if n > 0 {
      CheckPoliciesKeep(plan, p, n - 1);
      CheckPolicyGrows(plan, CheckPolicies(plan, p, n - 1), plan.admission.policies[n - 1]);
      GrowsTransitive(p, CheckPolicies(plan, p, n - 1), CheckPolicies(plan, p, n));
    } else {
      GrowsItself(p);
    }
  }

  lemma {:induction false} CheckPoliciesAnswer(plan: Plan, p: Pack, n: nat, i: nat)
    requires i < n <= |plan.admission.policies| && Coherent(p)
    ensures PolicyAnswered(plan, CheckPolicies(plan, p, n), i)
  {
    CheckPoliciesKeep(plan, p, n - 1);
    CheckPolicyGrows(plan, CheckPolicies(plan, p, n - 1), plan.admission.policies[n - 1]);
    if i < n - 1 { CheckPoliciesAnswer(plan, p, n - 1, i); }
  }

  // ---------- the state that the end of `BuildPack` starts from ----------

  lemma FilledGrows(codec: Codec, input: Input)
    ensures Grows(EmptyPack(codec, input, StartStatus(codec, input)), Filled(codec, input))
    ensures Coherent(Filled(codec, input))
  {
    StartIsCoherent(codec, input);
    PlaceTurnIsGood(codec, input.previous);
    PlaceAllGrows(PlaceTurn(codec, input.previous), EmptyPack(codec, input, StartStatus(codec, input)),
                  Queue(codec, input), |Queue(codec, input)|);
  }

  lemma AnsweredKeeps(codec: Codec, input: Input)
    ensures Coherent(Filled(codec, input)) && Keeps(Filled(codec, input), Answered(codec, input))
  {
    FilledGrows(codec, input);
    DiagnosesAreAlarming(input);
    CheckFacetsKeep(Diagnose(input), input.plan.required, Filled(codec, input), |input.plan.required|);
  }

  lemma CheckedKeeps(codec: Codec, input: Input)
    ensures Keeps(Answered(codec, input), Checked(codec, input)) && Keeps(Filled(codec, input), Checked(codec, input))
  {
    AnsweredKeeps(codec, input);
    CheckPoliciesKeep(input.plan, Answered(codec, input), |input.plan.admission.policies|);
    GrowsTransitive(Filled(codec, input), Answered(codec, input), Checked(codec, input));
  }

  lemma CheckedSettles(codec: Codec, input: Input, c: Candidate)
    requires c in input.quality.candidates
    ensures Settles(input.plan, Checked(codec, input), c)
  {
    var queue, start := Queue(codec, input), EmptyPack(codec, input, StartStatus(codec, input));
    SortedMembers(Before(input.plan, input.quality.conflicts, codec.key), input.quality.candidates);
    var k :| 0 <= k < |queue| && queue[k] == c;
    StartIsCoherent(codec, input);
    PlaceTurnIsGood(codec, input.previous);
    PlaceAllSettles(PlaceTurn(codec, input.previous), start, queue, |queue|, k);
    CheckedKeeps(codec, input);
    SettlesForGood(input.plan, Filled(codec, input), Checked(codec, input), c);
  }

  lemma CheckedAnswersFacet(codec: Codec, input: Input, i: nat)
    requires i < |input.plan.required|
    ensures FacetAnswered(Diagnose(input), Checked(codec, input), input.plan.required[i])
  {
    FilledGrows(codec, input);
    DiagnosesAreAlarming(input);
    CheckFacetsAnswer(Diagnose(input), input.plan.required, Filled(codec, input), |input.plan.required|, i);
    CheckedKeeps(codec, input);
  }

  lemma CheckedAnswersPolicy(codec: Codec, input: Input, i: nat)
    requires i < |input.plan.admission.policies|
    ensures PolicyAnswered(input.plan, Checked(codec, input), i)
  {
    AnsweredKeeps(codec, input);
    CheckPoliciesAnswer(input.plan, Answered(codec, input), |input.plan.admission.policies|, i);
  }

  lemma CheckedTakes(codec: Codec, input: Input)
    ensures multiset(Checked(codec, input).evidence) <= multiset(input.quality.candidates)
  {
    var queue := Queue(codec, input);
    StartIsCoherent(codec, input);
    PlaceTurnIsGood(codec, input.previous);
    PlaceAllTakes(PlaceTurn(codec, input.previous), EmptyPack(codec, input, StartStatus(codec, input)), queue, |queue|);
    assert queue[..|queue|] == queue;
    CheckedKeeps(codec, input);
  }
}
