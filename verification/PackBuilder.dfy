/**
 The loops of `BuildPack` and `packBudgetViolation` (internal/contextretrieval/pack.go), proved
 against the specification in Packing.
 */
module PackBuilder {
  import opened Evidence
  import opened Ranking
  import opened PackMeter
  import opened ContextPack
  import opened Packing
  import opened PackingLaws
  import opened PackGuarantees

  // ---------- the budgets ----------

  function Get(counts: map<string, nat>, key: string): nat {
    if key in counts then counts[key] else 0
  }

  ghost predicate CountsBytes(perSource: map<string, nat>, evidence: seq<Candidate>) {
    && (forall source: string :: Get(perSource, source) == Sum(BytesFrom(source), evidence))
    && (forall source: string :: source in perSource <==>
         exists i :: 0 <= i < |evidence| && evidence[i].origin.source == source)
  }

  ghost predicate CountsTokens(codec: Codec, perFacet: map<string, nat>, evidence: seq<Candidate>) {
    && (forall f: string :: Get(perFacet, f) == Sum(TokensFor(codec.weight, f), evidence))
    && (forall f: string :: f in perFacet <==> FacetFound(evidence, f))
  }

  method BytesPerSource(evidence: seq<Candidate>) returns (perSource: map<string, nat>)
    ensures CountsBytes(perSource, evidence)
  {
    perSource := map[];
    for i := 0 to |evidence|
      invariant CountsBytes(perSource, evidence[..i])
    {
      var c := evidence[i];
      assert evidence[..i + 1] == evidence[..i] + [c];
      CountSource(perSource, evidence[..i], c);
      perSource := perSource[c.origin.source := Get(perSource, c.origin.source) + |c.content|];
    }
    assert evidence[..|evidence|] == evidence;
  }

  lemma CountSource(perSource: map<string, nat>, evidence: seq<Candidate>, c: Candidate)
    requires CountsBytes(perSource, evidence)
    ensures CountsBytes(perSource[c.origin.source := Get(perSource, c.origin.source) + |c.content|], evidence + [c])
  {
    var longer, counts := evidence + [c], perSource[c.origin.source := Get(perSource, c.origin.source) + |c.content|];
    forall source: string ensures Get(counts, source) == Sum(BytesFrom(source), longer) {
      SumOfAppend(BytesFrom(source), evidence, c);
    }
    forall source: string
      ensures source in counts <==> exists i :: 0 <= i < |longer| && longer[i].origin.source == source
    {
      if i :| 0 <= i < |evidence| && evidence[i].origin.source == source { assert longer[i].origin.source == source; }
      assert longer[|evidence|] == c;
    }
  }

  method TokensPerFacet(codec: Codec, evidence: seq<Candidate>) returns (perFacet: map<string, nat>)
    ensures CountsTokens(codec, perFacet, evidence)
  {
    perFacet := map[];
    for i := 0 to |evidence|
      invariant CountsTokens(codec, perFacet, evidence[..i])
    {
      var c := evidence[i];
      assert evidence[..i + 1] == evidence[..i] + [c];
      var tokens, before := codec.weight(c), perFacet;
      var remaining := c.facets;
      while remaining != {}
        invariant remaining <= c.facets
        invariant forall f: string :: f in perFacet <==> f in before || f in c.facets - remaining
        invariant forall f: string ::
                  Get(perFacet, f) == Get(before, f) + if f in c.facets - remaining then tokens else 0
        decreases remaining
      {
        var facet :| facet in remaining;
        perFacet := perFacet[facet := Get(perFacet, facet) + tokens];
        remaining := remaining - {facet};
      }
      CountFacets(codec, before, perFacet, evidence[..i], c);
    }
    assert evidence[..|evidence|] == evidence;
  }

  lemma CountFacets(codec: Codec, before: map<string, nat>, after: map<string, nat>, evidence: seq<Candidate>,
                    c: Candidate)
    requires CountsTokens(codec, before, evidence)
    requires forall f: string :: f in after <==> f in before || f in c.facets
    requires forall f: string :: Get(after, f) == Get(before, f) + if f in c.facets then codec.weight(c) else 0
    ensures CountsTokens(codec, after, evidence + [c])
  {
    var longer := evidence + [c];
    forall f: string ensures Get(after, f) == Sum(TokensFor(codec.weight, f), longer) {
      SumOfAppend(TokensFor(codec.weight, f), evidence, c);
    }
    forall f: string ensures f in after <==> FacetFound(longer, f) {
      if i :| 0 <= i < |evidence| && f in evidence[i].facets { assert f in longer[i].facets; }
      assert longer[|evidence|] == c;
    }
  }

  method AnyAbove(counts: map<string, nat>, limit: nat) returns (above: bool)
    ensures above <==> exists key :: key in counts && counts[key] > limit
  {
    var remaining := counts.Keys;
    while remaining != {}
      invariant remaining <= counts.Keys
      invariant forall key | key in counts && counts[key] > limit :: key in remaining
      decreases remaining
    {
      var key :| key in remaining;
      if counts[key] > limit {
        return true;
      }
      remaining := remaining - {key};
    }
    return false;
  }

  /** `packBudgetViolation`. */
  method BudgetViolation(codec: Codec, p: Pack) returns (r: Reason)
    ensures r == Violation(codec, p)
  {
    var budget := p.plan.admission.budget;
    if BytesOver(budget, p.used) {
      return CumulativeSourceBytes;
    }
    if TokensOver(budget, p.used) {
      return ContextTokens;
    }
    var perSource := BytesPerSource(p.evidence);
    var perFacet := TokensPerFacet(codec, p.evidence);
    var sourceOver := AnyAbove(perSource, budget.perSourceBytes);
    var facetOver := AnyAbove(perFacet, budget.perFacetTokens);
    AboveIsOver(codec, budget, p.evidence, perSource, perFacet);
    if budget.perSourceBytes > 0 && sourceOver {
      return PerSourceBytes;
    }
    if budget.perFacetTokens > 0 && facetOver {
      return PerFacetTokens;
    }
    return Fits;
  }

  lemma AboveIsOver(codec: Codec, budget: Budget, evidence: seq<Candidate>, perSource: map<string, nat>,
                    perFacet: map<string, nat>)
    requires CountsBytes(perSource, evidence) && CountsTokens(codec, perFacet, evidence)
    ensures SourceOver(budget, evidence) <==>
                budget.perSourceBytes > 0 && exists key :: key in perSource && perSource[key] > budget.perSourceBytes
    ensures FacetOver(codec, budget, evidence) <==>
                budget.perFacetTokens > 0 && exists key :: key in perFacet && perFacet[key] > budget.perFacetTokens
  {
    if key :| key in perSource && perSource[key] > budget.perSourceBytes {
      assert Get(perSource, key) == Sum(BytesFrom(key), evidence);
      var i :| 0 <= i < |evidence| && evidence[i].origin.source == key;
    }
    if SourceOver(budget, evidence) {
      var i :| 0 <= i < |evidence| && Sum(BytesFrom(evidence[i].origin.source), evidence) > budget.perSourceBytes;
      assert Get(perSource, evidence[i].origin.source) > budget.perSourceBytes;
      assert evidence[i].origin.source in perSource;
    }
    if key :| key in perFacet && perFacet[key] > budget.perFacetTokens {
      assert Get(perFacet, key) == Sum(TokensFor(codec.weight, key), evidence);
      var i :| 0 <= i < |evidence| && key in evidence[i].facets;
    }
    if FacetOver(codec, budget, evidence) {
      var i :| 0 <= i < |evidence| && exists f | f in evidence[i].facets ::
          Sum(TokensFor(codec.weight, f), evidence) > budget.perFacetTokens;
      var f :| f in evidence[i].facets && Sum(TokensFor(codec.weight, f), evidence) > budget.perFacetTokens;
      assert Get(perFacet, f) > budget.perFacetTokens;
      assert FacetFound(evidence, f);
    }
  }

  // ---------- the status before any evidence ----------

  method InitialStatus(codec: Codec, input: Input) returns (status: Status)
    ensures status == StartStatus(codec, input)
  {
    var admission := input.plan.admission;
    status := Complete;
    if admission.ownerReview || Severe(admission.routeStatus) {
      status := Blocked;
    }
    if !Fine(admission.routeStatus) && status == Complete {
      status := Partial;
    }
    ghost var route := status;
    for i := 0 to |input.coverage|
      invariant status == if (exists k :: 0 <= k < i && !input.coverage[k].complete) then Worse(route, Partial)
                else route
    {
      if !input.coverage[i].complete {
        status := Worse(status, Partial);
      }
    }
    var questions := Questions(codec, input);
    status := AskAll(questions, status);
    if input.quality.conflicts != {} {
      status := Worse(status, Partial);
    }
  }

  /** The loop over the open questions, in any order. */
  method AskAll(questions: set<Diagnostic>, before: Status) returns (status: Status)
    requires Usual(before)
    ensures status == if before == Blocked || (exists d :: d in questions && Severe(d.status)) then Blocked
                      else if before == Partial || (exists d :: d in questions && !Fine(d.status)) then Partial
                      else Complete
  {
    status := before;
    var remaining := questions;
    while remaining != {}
      invariant remaining <= questions && Usual(status)
      invariant status == Blocked <==>
                before == Blocked || exists d :: d in questions && d !in remaining && Severe(d.status)
      invariant status == Complete <==>
                before == Complete && forall d | d in questions && d !in remaining :: Fine(d.status)
      decreases remaining
    {
      var d :| d in remaining;
      if Severe(d.status) {
        status := Blocked;
      } else if !Fine(d.status) {
        status := Worse(status, Partial);
      }
      remaining := remaining - {d};
    }
  }

  // ---------- packing ----------

  method MeasurePack(codec: Codec, p: Pack, previous: BudgetUsed) returns (q: Pack)
    requires codec.Valid() && Nested(previous) && Measurable(p)
    ensures q == MeasuredPack(codec, p, previous)
  {
    var used := Measure(Envelope(codec, p, previous), p.used, previous, Bytes(p.evidence));
    q := p.(used := used);
  }

  method TryCandidate(codec: Codec, previous: BudgetUsed, p: Pack, c: Candidate) returns (q: Pack)
    requires codec.Valid() && Nested(previous) && Measurable(p)
    ensures q == PlaceTurn(codec, previous)(p, c) && Measurable(q)
  {
    PlaceIsMeasurable(codec, previous, p, c);
    var trial := MeasurePack(codec, p.(evidence := p.evidence + [c]), previous);
    var reason := BudgetViolation(codec, trial);
    if reason != Fits {
      var mandatory := Mandatory(p.plan, p.conflicts, c);
      q := p.(omissions := p.omissions + {OmissionOf(c, reason, mandatory)});
      if mandatory {
        q := q.(status := Blocked, unresolved := q.unresolved + {Unsatisfied(c)});
      }
    } else {
      q := trial;
    }
  }

  /** `BuildPack`. */
  method BuildPack(codec: Codec, input: Input) returns (pack: Pack)
    requires codec.Valid() && Nested(input.previous)
    ensures pack == Built(codec, input)
    ensures Accounted(codec, pack)
  {
    var status := InitialStatus(codec, input);
    var queue := Queue(codec, input);
    var filled := Fill(codec, input, EmptyPack(codec, input, status), queue);
    var answered := AnswerFacets(Diagnose(input), input.plan.required, filled);
    var checked := AnswerPolicies(input.plan, answered);
    CheckedIsMeasurable(codec, input);
    PackIsAccounted(codec, input);
    pack := End(codec, input.previous, checked);
  }

  method Fill(codec: Codec, input: Input, start: Pack, queue: seq<Candidate>) returns (pack: Pack)
    requires codec.Valid() && Nested(input.previous) && Measurable(start)
    ensures pack == PlaceAll(PlaceTurn(codec, input.previous), start, queue, |queue|)
  {
    pack := start;
    for i := 0 to |queue|
      invariant pack == PlaceAll(PlaceTurn(codec, input.previous), start, queue, i) && Measurable(pack)
    {
      pack := TryCandidate(codec, input.previous, pack, queue[i]);
    }
  }

  method AnswerFacets(diagnose: Diagnosis, required: seq<Facet>, filled: Pack) returns (pack: Pack)
    ensures pack == CheckFacets(diagnose, required, filled, |required|)
  {
    pack := filled;
    for i := 0 to |required|
      invariant pack == CheckFacets(diagnose, required, filled, i)
    {
      if !FacetFound(pack.evidence, required[i].id) {
        pack := pack.(unresolved := pack.unresolved + {diagnose(required[i])}, status := Worse(pack.status, Partial));
      }
    }
  }

  method AnswerPolicies(plan: Plan, answered: Pack) returns (pack: Pack)
    ensures pack == CheckPolicies(plan, answered, |plan.admission.policies|)
  {
    pack := answered;
    var policies := plan.admission.policies;
    for i := 0 to |policies|
      invariant pack == CheckPolicies(plan, answered, i)
    {
      if Applies(plan, policies[i]) && !PolicyFound(pack.evidence, policies[i]) {
        pack := pack.(status := Blocked, unresolved := pack.unresolved + {MissingPolicy(policies[i])});
      }
    }
  }

  method End(codec: Codec, previous: BudgetUsed, checked: Pack) returns (pack: Pack)
    requires codec.Valid() && Nested(previous) && Measurable(checked)
    ensures pack == Finish(codec, previous, checked)
  {
    pack := MeasurePack(codec, checked, previous);
    MeasuredPackIsAccounted(codec, checked, previous);
    var reason := BudgetViolation(codec, pack);
    if reason != Fits {
      pack := pack.(status := Blocked, unresolved := pack.unresolved + {EnvelopeUnsatisfied(reason)});
      pack := MeasurePack(codec, pack, previous);
    }
    pack := Canonical(codec, pack);
  }
}
