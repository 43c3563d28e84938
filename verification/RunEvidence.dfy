/**
 What becomes of an item of evidence over a whole run of expansions
 (internal/contextretrieval/engine.go, `expand`).
 */
module RunEvidence {
  import opened Wrappers
  import opened Evidence
  import opened SpanMerge
  import opened PackMeter
  import opened ContextPack
  import opened Retrieval
  import opened Expansion
  import opened ExpansionLaws
  import opened RunItems
  import opened SecretPattern

  /** All evidence is live, and some that has come to contain the item looks like a secret. */
  ghost predicate SecretAround(env: Env, p: Pack, c: Candidate) {
    AllLive(env, p.evidence) && exists s :: s in p.evidence && Contains(s, c) && Authored(s) && env.secret(s.content)
  }

  lemma ContainsIsTransitive(a: Candidate, b: Candidate, c: Candidate)
    requires Contains(a, b) && Contains(b, c)
    ensures Contains(a, c)
  {
  }

  lemma KeptInTurn(env: Env, base: Pack, pack: Pack, c: Candidate)
    requires KeepsEvidence(env, base, pack) && Survives(base, c) && AllLive(env, base.evidence)
    requires !SecretAround(env, base, c)
    ensures Survives(pack, c)
  {
    var r :| r in base.evidence && Contains(r, c) && Authored(r);
    var i :| 0 <= i < |base.evidence| && base.evidence[i] == r;
    assert KeepsItem(env, base.evidence[i], pack);
    var s :| s in pack.evidence && Contains(s, r) && Authored(s);
    ContainsIsTransitive(s, r, c);
  }

  /** What one step makes of an item of a well-kept pack. */
  ghost predicate KeepsInStep(env: Env, c: Candidate, p: Pack, r: Result<Delta, ExpandError>) {
    r.Success? && Survives(p, c) && !SecretAround(env, p, c) ==> Survives(r.value.pack, c)
  }

  lemma StepKeepsItem(env: Env, plan: Plan, p: Pack, request: ExpandRequest, c: Candidate)
    requires env.Valid() && IsCurrent(plan) && WellKept(env, plan, p)
    ensures KeepsInStep(env, c, p, ExpandStep(env, plan, p, request))
  {
    ExtendCases(env, plan, p, request);
    var r := ExpandStep(env, plan, p, request);
    if r.Success? && r.value != FailedDelta(p) && Survives(p, c) && !SecretAround(env, p, c) {
      ExtensionKeepsEvidence(env, plan, p, request, r.value);
      KeptInTurn(env, p, r.value.pack, c);
    }
  }

  ghost predicate StepKeeps(env: Env, plan: Plan, c: Candidate, step: Step) {
    forall p: Pack, request: ExpandRequest | WellKept(env, plan, p) :: KeepsInStep(env, c, p, step(p, request))
  }

  lemma StepOfKeeps(env: Env, plan: Plan, c: Candidate)
    requires env.Valid() && IsCurrent(plan)
    ensures StepKeeps(env, plan, c, StepOf(env, plan))
  {
    forall p: Pack, request: ExpandRequest | WellKept(env, plan, p)
      ensures KeepsInStep(env, c, p, StepOf(env, plan)(p, request))
    {
      StepKeepsItem(env, plan, p, request, c);
    }
  }

  ghost predicate SecretIn(env: Env, r: Result<Pack, ExpandError>, c: Candidate) {
    r.Success? && SecretAround(env, r.value, c)
  }

  /** Between steps `n` and `m` of the run the item has become part of such evidence. */
  ghost predicate SecretBetween(env: Env, start: Pack, step: Step, history: seq<ExpandRequest>, c: Candidate, n: nat,
                                m: nat)
    requires n <= m <= |history|
  {
    exists k :: n <= k < m && SecretIn(env, Fold(start, step, history, k), c)
  }

  lemma {:induction false} FoldKeepsItem(env: Env, plan: Plan, start: Pack, step: Step, history: seq<ExpandRequest>,
                                         c: Candidate, n: nat, m: nat)
    requires GoodStep(env, plan, step) && StepKeeps(env, plan, c, step) && WellKept(env, plan, start)
    requires n <= m <= |history|
    requires Fold(start, step, history, n).Success? && Fold(start, step, history, m).Success?
    requires Survives(Fold(start, step, history, n).value, c)
    ensures SecretBetween(env, start, step, history, c, n, m) || Survives(Fold(start, step, history, m).value, c)
  {
    if n < m {
      FoldKeepsItem(env, plan, start, step, history, c, n, m - 1);
      if SecretBetween(env, start, step, history, c, n, m - 1) {
        var k :| n <= k < m - 1 && SecretIn(env, Fold(start, step, history, k), c);
      } else {
        var p := Fold(start, step, history, m - 1).value;
        FoldIsWellKept(env, plan, start, step, history, m - 1);
        assert KeepsInStep(env, c, p, step(p, history[m - 1]));
        assert SecretAround(env, p, c) ==> SecretIn(env, Fold(start, step, history, m - 1), c);
      }
    }
  }

  /** Over any run, in any repository: an authored item of a pack is contained in an item of every
      later pack of the run, unless live evidence that has come to contain it looks like a secret. */
  lemma RunsKeepUnlessSecret(env: Env, plan: Plan, p: Pack, q: Pack, c: Candidate)
    requires env.Valid() && IsCurrent(plan) && Honest(env, plan, p) && Honest(env, plan, q)
    requires p.plan.history <= q.plan.history && c in p.evidence && Authored(c)
    ensures SecretBetween(env, Prepare(env, plan), StepOf(env, plan), q.plan.history, c, |p.plan.history|,
                |q.plan.history|)
         || Survives(q, c)
  {
    var start, step, h, all := Prepare(env, plan), StepOf(env, plan), p.plan.history, q.plan.history;
    PrepareIsWellKept(env, plan);
    StepIsGood(env, plan);
    StepOfKeeps(env, plan, c);
    PrefixIsPack(start, step, h, all, p);
    IsInItself(p, c);
    FoldKeepsItem(env, plan, start, step, all, c, |h|, |all|);
  }

  lemma {:induction false} PrefixIsPack(start: Pack, step: Step, h: seq<ExpandRequest>, all: seq<ExpandRequest>,
                                        p: Pack)
    requires h <= all && Fold(start, step, h, |h|) == Success(p)
    ensures Fold(start, step, all, |h|) == Success(p)
  {
    assert all == h + all[|h|..];
    FoldOfPrefix(start, step, h, all[|h|..], |h|);
  }

  lemma IsInItself(p: Pack, c: Candidate)
    requires c in p.evidence && Authored(c)
    ensures Survives(p, c)
  {
    assert Contains(c, c);
  }

  // ---------- files that hold no secret ----------

  /** No text of a document, from where one slice begins to where another of its unit ends, looks
      like a secret. */
  ghost predicate NoSecrets(env: Env) {
    forall a, b | Retrievable(env, a) && Retrievable(env, b) && SameUnit(a.origin, b.origin) :: NoSecretIn(env, a, b)
  }

  predicate NoSecretIn(env: Env, a: Candidate, b: Candidate)
    requires Live(env, a) && Live(env, b) && FileOf(a) == FileOf(b)
  {
    a.span.startByte <= b.span.endByte ==>
        !env.secret(env.documents[FileOf(a)].content[a.span.startByte..b.span.endByte])
  }

  ghost predicate BeginsLike(env: Env, c: Candidate, a: Candidate) {
    Retrievable(env, a) && SameUnit(a.origin, c.origin) && a.span.startByte == c.span.startByte
  }

  ghost predicate EndsLike(env: Env, c: Candidate, b: Candidate) {
    Retrievable(env, b) && SameUnit(b.origin, c.origin) && b.span.endByte == c.span.endByte
  }

  /** The item begins and ends where slices of its unit do. */
  ghost predicate HasSliceEnds(env: Env, c: Candidate) {
    HasPins(env, c) && (exists a :: BeginsLike(env, c, a)) && exists b :: EndsLike(env, c, b)
  }

  ghost function SliceEndsIn(env: Env): Candidate -> bool {
    (c: Candidate) => HasSliceEnds(env, c)
  }

  lemma SameSliceHasEnds(env: Env, c: Candidate, k: Candidate)
    requires HasSliceEnds(env, c) && SameSlice(c, k)
    ensures HasSliceEnds(env, k)
  {
    var a :| BeginsLike(env, c, a);
    var b :| EndsLike(env, c, b);
    assert BeginsLike(env, k, a) && EndsLike(env, k, b);
  }

  /** Merging keeps the ends. */
  lemma MergedHasEnds(env: Env, c: Candidate, k: Candidate)
    requires HasSliceEnds(env, c) && HasSliceEnds(env, k) && Merges(c, k)
    ensures HasSliceEnds(env, MergedInto(env.idOf, c, k))
  {
    var m := MergedInto(env.idOf, c, k);
    var from, to := if k.span.startByte < c.span.startByte then k else c, if k.span.endByte > c.span.endByte then k
        else c;
    var a :| BeginsLike(env, from, a);
    var b :| EndsLike(env, to, b);
    assert BeginsLike(env, m, a) && EndsLike(env, m, b);
  }

  lemma SliceEndsLast(env: Env)
    ensures Lasts(env, SliceEndsIn(env))
  {
    var good := SliceEndsIn(env);
    forall c: Candidate | Retrievable(env, c) ensures good(c) {
      assert BeginsLike(env, c, c) && EndsLike(env, c, c);
    }
    forall a: Candidate, b: Candidate | good(a) && SameSlice(a, b) ensures good(b) {
      SameSliceHasEnds(env, a, b);
    }
    forall a: Candidate, b: Candidate | good(a) && good(b) && Merges(a, b) ensures good(MergedInto(env.idOf, a, b)) {
      MergedHasEnds(env, a, b);
    }
  }

  lemma LiveIsNoSecret(env: Env, c: Candidate)
    requires NoSecrets(env) && HasSliceEnds(env, c) && Live(env, c)
    ensures !env.secret(c.content)
  {
    var a :| BeginsLike(env, c, a);
    var b :| EndsLike(env, c, b);
    assert NoSecretIn(env, a, b);
  }

  lemma NoSecretAround(env: Env, p: Pack, c: Candidate)
    requires NoSecrets(env) && Holds(SliceEndsIn(env), p)
    ensures !SecretAround(env, p, c)
  {
    if AllLive(env, p.evidence) {
      forall s | s in p.evidence ensures !env.secret(s.content) {
        assert SliceEndsIn(env)(s);
        LiveIsNoSecret(env, s);
      }
    }
  }

  /** Over any run, if the documents hold no secret between the ends of slices: every authored item
      of a pack is contained in an authored item of every later pack of the run. */
  lemma RunsKeepEvidence(env: Env, plan: Plan, p: Pack, q: Pack, c: Candidate)
    requires env.Valid() && IsCurrent(plan) && NoSecrets(env) && Honest(env, plan, p) && Honest(env, plan, q)
    requires p.plan.history <= q.plan.history && c in p.evidence && Authored(c)
    ensures Survives(q, c)
  {
    var start, step, all := Prepare(env, plan), StepOf(env, plan), q.plan.history;
    SliceEndsLast(env);
    RunsKeepUnlessSecret(env, plan, p, q, c);
    forall k | |p.plan.history| <= k < |all| ensures !SecretIn(env, Fold(start, step, all, k), c) {
      if Fold(start, step, all, k).Success? {
        RunHas(env, SliceEndsIn(env), plan, all, k);
        NoSecretAround(env, Fold(start, step, all, k).value, c);
      }
    }
  }

  // ---------- what the loader sees to ----------

  /** The program's pattern decides, the loader lets no file in that matches it, and resolvers do not
      cut inside words. */
  ghost predicate LoadedCleanly(env: Env) {
    && (forall t: string :: env.secret(t) <==> LooksSecret(t))
    && (forall key | key in env.documents :: !env.secret(env.documents[key].content))
    && (forall c | Retrievable(env, c) :: CutsNoWords(env, c))
  }

  predicate CutsNoWords(env: Env, c: Candidate)
    requires HasPins(env, c)
  {
    var bytes := env.documents[FileOf(c)].content;
    CutsNoWord(bytes, c.span.startByte) && CutsNoWord(bytes, c.span.endByte)
  }

  lemma LoaderKeepsSecretsOut(env: Env)
    requires LoadedCleanly(env)
    ensures NoSecrets(env)
  {
    forall a, b | Retrievable(env, a) && Retrievable(env, b) && SameUnit(a.origin, b.origin)
      ensures NoSecretIn(env, a, b)
    {
      var bytes, from, to := env.documents[FileOf(a)].content, a.span.startByte, b.span.endByte;
      assert CutsNoWords(env, a) && CutsNoWords(env, b);
      if from <= to && LooksSecret(bytes[from..to]) { SecretPartShows(bytes, from, to); }
    }
  }

  // ---------- what looks like a secret is lost ----------

  predicate SameFile(a: Candidate, b: Candidate) {
    a.origin.source == b.origin.source && a.origin.path == b.origin.path
  }

  ghost predicate AllSecret(env: Env, c: Candidate, s: seq<Candidate>) {
    forall i | 0 <= i < |s| && SameFile(s[i], c) :: env.secret(s[i].content)
  }

  ghost function SecretOf(env: Env, c: Candidate): Candidate -> bool {
    (x: Candidate) => SameFile(x, c) ==> env.secret(x.content)
  }

  function OtherFile(c: Candidate): Candidate -> bool {
    (x: Candidate) => !SameFile(x, c)
  }

  lemma JudgingDropsSecrets(env: Env, plan: Plan, all: seq<Candidate>, c: Candidate)
    ensures JudgingTurns(JudgeOf(env, plan, all), SecretOf(env, c), OtherFile(c))
  {
  }

  lemma AnalysisDropsSecrets(env: Env, plan: Plan, candidates: seq<Candidate>, c: Candidate)
    requires All(SecretOf(env, c), candidates)
    ensures forall r | r in Analyzed(env, plan, candidates).candidates :: !SameFile(r, c)
  {
    forall all: seq<Candidate> ensures JudgingTurns(JudgeOf(env, plan, all), SecretOf(env, c), OtherFile(c)) {
      JudgingDropsSecrets(env, plan, all, c);
    }
    assert MergingKeeps(env.idOf, OtherFile(c));
    AnalyzedAre(env, plan, SecretOf(env, c), OtherFile(c), candidates);
    var results := Analyzed(env, plan, candidates).candidates;
    forall r | r in results ensures !SameFile(r, c) {
      var i :| 0 <= i < |results| && results[i] == r;
      assert OtherFile(c)(results[i]);
    }
  }

  lemma PriorIsSecret(env: Env, plan: Plan, c: Candidate, evidence: seq<Candidate>, more: seq<Candidate>)
    requires AllLive(env, evidence) && AllSecret(env, c, evidence) && AllSecret(env, c, more)
    ensures All(SecretOf(env, c), Prior(env, plan, evidence) + more)
  {
    var all := Prior(env, plan, evidence) + more;
    forall i | 0 <= i < |all| ensures SecretOf(env, c)(all[i]) {
      if i < |evidence| {
        assert SameFile(all[i], c) ==> SameFile(evidence[i], c);
      } else {
        assert all[i] == more[i - |evidence|];
      }
    }
  }

  /** An extension keeps nothing of a file all of whose evidence looks like a secret. */
  lemma SecretsAreLost(env: Env, plan: Plan, base: Pack, request: ExpandRequest, d: Delta, c: Candidate)
    requires env.Valid() && Nested(Again(base.used)) && Extends(env, plan, base, request, d)
    requires AllSecret(env, c, base.evidence)
    requires var facet := RequestedFacet(env, request);
             AllSecret(env, c, env.retrieve(ExpandedPlan(plan, base, facet, request), [facet]).candidates)
    ensures !Survives(d.pack, c)
  {
    var facet := RequestedFacet(env, request);
    var expanded := ExpandedPlan(plan, base, facet, request);
    var found := AllVerified(env, expanded, env.retrieve(expanded, [facet]).candidates);
    VerifiedStaySecret(env, expanded, c, env.retrieve(expanded, [facet]).candidates);
    PriorIsSecret(env, plan, c, base.evidence, found);
    AnalysisDropsSecrets(env, expanded, Prior(env, plan, base.evidence) + found, c);
    BuiltFollows(env, ExpandInput(env, plan, base, request));
  }

  lemma {:induction false} VerifiedStaySecret(env: Env, plan: Plan, c: Candidate, found: seq<Candidate>)
    requires AllSecret(env, c, found)
    ensures AllSecret(env, c, AllVerified(env, plan, found))
  {
    if found != [] {
      VerifiedStaySecret(env, plan, c, found[..|found| - 1]);
    }
  }
}
