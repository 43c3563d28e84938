/**
 The read-only world of one retrieval and the two filters that evidence passes
 (internal/contextretrieval/engine.go `verifyCandidates`, quality.go `analyzeQuality`).

 Everything the program asks of other code is a function of the snapshot: resolvers, citation
 checks, the secret pattern, the pins of generated evidence, and claim conflicts.
 */
module Retrieval {
  import opened Wrappers
  import opened Ordering
  import opened Evidence
  import opened Ranking
  import opened SpanMerge
  import opened ContextPack
  import opened Packing

  datatype Document = Document(revision: string, snapshot: string, contentHash: string, content: string, external: bool)

  datatype Retrieved = Retrieved(candidates: seq<Candidate>, coverage: seq<CoverageRow>, diagnostics: set<Diagnostic>)

  datatype Citation = Citation(limitations: set<string>, diagnostics: set<Diagnostic>)

  /** What the input pins of generated evidence say. */
  datatype PinCheck = PinsHold | PinsUnverified | PinsStale

  datatype Env = Env(
    codec: Codec,
    sources: seq<Source>,
    documents: map<(string, string), Document>,
    coverage: seq<CoverageRow>,
    diagnostics: set<Diagnostic>,
    retrieve: (Plan, seq<Facet>) -> Retrieved,
    cite: Candidate -> Citation,
    admits: (string, string) -> bool,
    knownQuery: string -> bool,
    knownClaim: string -> bool,
    secret: string -> bool,
    pins: (seq<Candidate>, Candidate) -> PinCheck,
    role: Candidate -> Role,
    conflicts: seq<Candidate> -> set<Conflict>,
    idOf: IdRule,
    selector: ExpandRequest -> bool,
    resolverFor: string -> string,
    validId: string -> bool)
  {
    ghost predicate Valid() {
      && codec.Valid()
      && (forall o: Origin, s: Span :: idOf(o, s) != "")
      && (forall k | k in documents :: Bare(documents[k].contentHash) == documents[k].contentHash)
    }
  }

  // ---------- verification against live bytes ----------

  predicate Registered(plan: Plan, origin: Origin, i: nat)
    requires i <= |plan.admission.policies|
    decreases |plan.admission.policies| - i
  {
    if i == |plan.admission.policies| then false
    else
      var policy := plan.admission.policies[i];
      if policy.source == origin.source && policy.path == origin.path
          && SameHash(policy.contentHash, origin.contentHash)
      then Applies(plan, policy)
      else Registered(plan, origin, i + 1)
  }

  predicate PolicyMatches(plan: Plan, origin: Origin) {
    exists i | 0 <= i < |plan.admission.policies| ::
      && plan.admission.policies[i].source == origin.source && plan.admission.policies[i].path == origin.path
      && SameHash(plan.admission.policies[i].contentHash, origin.contentHash)
      && Applies(plan, plan.admission.policies[i])
  }

  predicate Live(env: Env, c: Candidate) {
    && (c.origin.source, c.origin.path) in env.documents
    && var doc := env.documents[(c.origin.source, c.origin.path)];
       && c.origin.contentHash == doc.contentHash && c.origin.revision == doc.revision
       && c.origin.snapshot == doc.snapshot
       && SliceMatches(doc.content, c.span, c.content)
  }

  /** What an accepted candidate becomes. */
  function Verified(env: Env, plan: Plan, c: Candidate): Candidate
    requires Live(env, c)
  {
    var external := env.documents[(c.origin.source, c.origin.path)].external;
    var provenance := if PolicyMatches(plan, c.origin) then TrustedPolicy else if external then ExternalContent
        else c.origin.provenance;
    c.(origin := c.origin.(provenance := provenance), limitations := c.limitations + env.cite(c).limitations)
  }

  function SpanUnverified(c: Candidate): Diagnostic {
    Diagnostic("SOURCE_SPAN_UNVERIFIED", Partial, c.origin.source, c.origin.path, "", "",
               "Resolver evidence does not match the admitted source snapshot.")
  }

  function AllVerified(env: Env, plan: Plan, cs: seq<Candidate>): seq<Candidate> {
    if cs == [] then []
    else
      var last := cs[|cs| - 1];
      AllVerified(env, plan, cs[..|cs| - 1]) + if Live(env, last) then [Verified(env, plan, last)] else []
  }

  function VerifyNote(env: Env): Candidate -> set<Diagnostic> {
    (c: Candidate) => if Live(env, c) then env.cite(c).diagnostics else {SpanUnverified(c)}
  }

  /** Everything that some rule reports about the candidates of a list. */
  function Gather<T(==)>(report: Candidate -> set<T>, cs: seq<Candidate>): set<T> {
    set i, d | 0 <= i < |cs| && d in report(cs[i]) :: d
  }

  function VerifyNotes(env: Env, cs: seq<Candidate>): set<Diagnostic> {
    Gather(VerifyNote(env), cs)
  }

  // ---------- the quality filter ----------

  /** What becomes of one candidate: dropped, kept as a claim only, or kept. */
  datatype Verdict = Rejected(code: string) | Withheld(claim: Candidate) | Kept(candidate: Candidate)

  function SourceOf(sources: seq<Source>, identity: string): Option<Source> {
    if sources == [] then None
    else if sources[|sources| - 1].identity == identity then Some(sources[|sources| - 1])
    else SourceOf(sources[..|sources| - 1], identity)
  }

  predicate CoherentSpan(s: Span) {
    1 <= s.startLine <= s.endLine && 0 <= s.startByte <= s.endByte
  }

  predicate Pinned(env: Env, c: Candidate) {
    && c.id != "" && c.origin.revision != "" && c.origin.snapshot != "" && c.resolver != "" && c.resolverVersion != ""
    && env.knownQuery(c.query) && IsPin(c.origin.contentHash)
  }

  function BareLinks(links: set<Link>): set<Link> {
    set l | l in links :: l.(expectedHash := Bare(l.expectedHash))
  }

  function Prepared(plan: Plan, c: Candidate): Candidate {
    c.(origin := c.origin.(contentHash := Bare(c.origin.contentHash)), expectedHash := Bare(c.expectedHash),
        links := BareLinks(c.links),
       required := c.required || exists i | 0 <= i < |plan.required| :: plan.required[i].id in c.facets)
  }

  /** The reason to drop a candidate, or "". */
  function Rejection(env: Env, c: Candidate): string {
    if SourceOf(env.sources, c.origin.source).None? || !env.admits(c.origin.source, c.origin.path) then
        "EVIDENCE_SCOPE_REJECTED"
    else if !Pinned(env, c) then "EVIDENCE_PROVENANCE_INVALID"
    else if !CoherentSpan(c.span) then "EVIDENCE_SPAN_INVALID"
    else if !env.knownClaim(c.origin.claimType) then "EVIDENCE_CLASSIFICATION_INVALID"
    else if env.secret(c.content) || env.secret(c.origin.claimValue) then "SECRET_CONTENT_EXCLUDED"
    else ""
  }

  function TrustOf(plan: Plan, origin: Origin): Provenance {
    if Registered(plan, origin, 0) then TrustedPolicy
    else if origin.provenance == TrustedPolicy then ProjectDoc
    else origin.provenance
  }

  function FreshnessOf(source: Source, c: Candidate): Freshness {
    var pinned := if c.origin.snapshot != source.snapshot || c.origin.revision != source.revision then Invalidated
        else c.origin.freshness;
    var current := if c.expectedHash != "" && !SameHash(c.expectedHash, c.origin.contentHash) then StaleEvidence
        else pinned;
    if current == Current && source.dirty then DirtySnapshot else current
  }

  const UNREGISTERED := "retrieved policy-shaped text is unregistered inert evidence"
  const GENERATED_VERIFIED :=
      "generated input content verified in admitted snapshots; captured Git revisions are not certified by this check"

  function Graded(env: Env, plan: Plan, all: seq<Candidate>, c: Candidate, source: Source): Candidate {
    var provenance := TrustOf(plan, c.origin);
    var demoted := c.origin.provenance == TrustedPolicy && provenance == ProjectDoc;
    var grade := FreshnessOf(source, c);
    var pins := env.pins(all, c);
    var graded := c.(origin := c.origin.(provenance := provenance,
                                         freshness := if provenance != GeneratedContent || pins.PinsHold? then grade
                                                      else if pins.PinsStale? then StaleEvidence else Unverified),
                     limitations := c.limitations + (if demoted then {UNREGISTERED} else {})
                                    + (if provenance == GeneratedContent && pins.PinsHold? then {GENERATED_VERIFIED}
                                        else {}));
    graded.(role := env.role(graded))
  }

  /** The filter of `analyzeQuality`; `all` is the whole input, which generated evidence is
      checked against. */
  function Judge(env: Env, plan: Plan, all: seq<Candidate>, candidate: Candidate): Verdict {
    var c := Prepared(plan, candidate);
    var code := Rejection(env, c);
    if code != "" then Rejected(code)
    else
      var graded := Graded(env, plan, all, c, SourceOf(env.sources, c.origin.source).value);
      if Fresh(graded) then Kept(graded) else Withheld(graded)
  }

  function FreshnessText(f: Freshness): string {
    match f
    case Current => "CURRENT"
    case StaleEvidence => "STALE"
    case DirtySnapshot => "DIRTY_SNAPSHOT"
    case Unverified => "UNVERIFIED"
    case Missing => "MISSING"
    case Invalidated => "INVALIDATED"
  }

  function NoteOn(c: Candidate, code: string, message: string): Diagnostic {
    Diagnostic(code, Partial, c.origin.source, c.origin.path, "", c.id, message)
  }

  function NotesOf(plan: Plan, candidate: Candidate, verdict: Verdict): set<Diagnostic> {
    match verdict
    case Rejected(code) => {NoteOn(Prepared(plan, candidate), code, "evidence was rejected")}
    case Withheld(claim) => GradeNotes(candidate, claim)
        + {NoteOn(claim, "EVIDENCE_FRESHNESS_" + FreshnessText(claim.origin.freshness),
            "noncurrent evidence was withheld; claim conflict remains observable")}
    case Kept(graded) => GradeNotes(candidate, graded)
  }

  function GradeNotes(candidate: Candidate, graded: Candidate): set<Diagnostic> {
    (if candidate.origin.provenance == TrustedPolicy && graded.origin.provenance == ProjectDoc
     then {NoteOn(graded, "UNREGISTERED_POLICY_AS_DATA", "policy trust requires exact caller registration")} else {})
    + (if graded.origin.provenance == GeneratedContent && GENERATED_VERIFIED !in graded.limitations
       then {NoteOn(graded, if graded.origin.freshness == StaleEvidence then "GENERATED_INPUT_STALE"
           else "GENERATED_INPUT_UNVERIFIED",
                    "generated evidence requires current validated input pins")} else {})
  }

  function OmissionsOf(plan: Plan, candidate: Candidate, verdict: Verdict): set<Omission> {
    match verdict
    case Rejected(code) =>
      var c := Prepared(plan, candidate);
      {Omission(c.id, c.origin.source, c.origin.path, code, c.required)}
    case Withheld(c) => {Omission(c.id, c.origin.source, c.origin.path,
        "FRESHNESS_" + FreshnessText(c.origin.freshness), c.required)}
    case Kept(_) => {}
  }

  type Judging = Candidate -> Verdict

  function JudgeOf(env: Env, plan: Plan, all: seq<Candidate>): Judging {
    (c: Candidate) => Judge(env, plan, all, c)
  }

  function KeptOf(judge: Judging, cs: seq<Candidate>): seq<Candidate> {
    if cs == [] then []
    else
      var verdict := judge(cs[|cs| - 1]);
      KeptOf(judge, cs[..|cs| - 1]) + if verdict.Kept? then [verdict.candidate] else []
  }

  function ClaimsOf(judge: Judging, cs: seq<Candidate>): seq<Candidate> {
    if cs == [] then []
    else
      ClaimsOf(judge, cs[..|cs| - 1])
      + match judge(cs[|cs| - 1]) case Kept(c) => [c] case Withheld(c) => [c] case Rejected(_) => []
  }

  function ByKey(key: Key): (Candidate, Candidate) -> bool {
    (a: Candidate, b: Candidate) => Less(key(a), key(b))
  }

  function NoteBy(plan: Plan, judge: Judging): Candidate -> set<Diagnostic> {
    (c: Candidate) => NotesOf(plan, c, judge(c))
  }

  function OmissionBy(plan: Plan, judge: Judging): Candidate -> set<Omission> {
    (c: Candidate) => OmissionsOf(plan, c, judge(c))
  }

  /** `AnalyzeQualityWithDocuments`. */
  function Analyzed(env: Env, plan: Plan, candidates: seq<Candidate>): Quality {
    var input := StableSort(ByKey(env.codec.key), candidates);
    var judge := JudgeOf(env, plan, input);
    var kept := KeptOf(judge, input);
    Quality(StableSort(ByRank(env.codec.key), Deduped(env.idOf, kept, |kept|)),
            Gather(NoteBy(plan, judge), input), env.conflicts(ClaimsOf(judge, input)),
                Gather(OmissionBy(plan, judge), input))
  }

  // ---------- what passes stays passable ----------

  /** What the filter guarantees of kept evidence, apart from its text. */
  predicate Sound(env: Env, c: Candidate) {
    && SourceOf(env.sources, c.origin.source).Some? && env.admits(c.origin.source, c.origin.path)
    && Pinned(env, c) && Bare(c.origin.contentHash) == c.origin.contentHash
    && CoherentSpan(c.span) && env.knownClaim(c.origin.claimType) && !env.secret(c.origin.claimValue)
    && var source := SourceOf(env.sources, c.origin.source).value;
       && c.origin.snapshot == source.snapshot && c.origin.revision == source.revision
       && (c.expectedHash == "" || SameHash(c.expectedHash, c.origin.contentHash))
       && Fresh(c) && !(c.origin.freshness == Current && source.dirty)
  }

  /** Everything but generated evidence. */
  predicate Authored(c: Candidate) {
    c.origin.provenance != GeneratedContent
  }

  /** The same quotation, whatever its classification. */
  predicate SameQuotation(c: Candidate, k: Candidate) {
    && k.origin.source == c.origin.source && k.origin.path == c.origin.path
    && k.origin.contentHash == c.origin.contentHash
    && k.span == c.span && k.content == c.content && k.facets == c.facets && (c.required ==> k.required)
  }

  /** Sound authored evidence passes the filter again under any plan, unless its text has come to
      look like a secret. */
  lemma SoundIsKept(env: Env, plan: Plan, all: seq<Candidate>, c: Candidate)
    requires Sound(env, c) && Authored(c)
    ensures var v := Judge(env, plan, all, c);
            if env.secret(c.content) then v == Rejected("SECRET_CONTENT_EXCLUDED")
            else v.Kept? && SameQuotation(c, v.candidate) && Authored(v.candidate)
  {
    var p := Prepared(plan, c);
    assert p.origin == c.origin;
    BareMatches(c.expectedHash, c.origin.contentHash);
  }

  lemma BareMatches(a: string, b: string)
    ensures SameHash(a, b) ==> SameHash(Bare(a), b)
    ensures SameHash(a, b) ==> Bare(a) != ""
    ensures a == "" ==> Bare(a) == ""
  {
    if SameHash(a, b) { BareIsBare(a); }
  }

  /** What the filter keeps is sound. */
  lemma KeptIsSound(env: Env, plan: Plan, all: seq<Candidate>, c: Candidate)
    requires Bare(c.origin.contentHash) == c.origin.contentHash && Judge(env, plan, all, c).Kept?
    ensures Sound(env, Judge(env, plan, all, c).candidate)
  {
  }

  lemma BareIsBare(hash: string)
    requires IsPin(hash)
    ensures Bare(Bare(hash)) == Bare(hash) && IsPin(Bare(hash))
  {
    var bare := Bare(hash);
    assert '0' <= bare[0] <= '9' || 'a' <= bare[0] <= 'f';
  }

  lemma CombinedIsSound(env: Env, a: Candidate, b: Candidate)
    requires env.Valid() && Sound(env, a) && Sound(env, b) && Merges(a, b)
    ensures Sound(env, Combined(env.idOf, a, b, Merged(a, b).value))
  {
    assert env.idOf(a.origin, Union(a.span, b.span)) != "";
  }

  ghost predicate AllSound(env: Env, cs: seq<Candidate>) {
    forall i | 0 <= i < |cs| :: Sound(env, cs[i])
  }

  predicate BareHashes(cs: seq<Candidate>) {
    forall i | 0 <= i < |cs| :: Bare(cs[i].origin.contentHash) == cs[i].origin.contentHash
  }

  /** Whatever the filter keeps of candidates like `before` is like `after`. */
  ghost predicate JudgingTurns(judge: Judging, before: Candidate -> bool, after: Candidate -> bool) {
    forall c: Candidate | before(c) :: judge(c).Kept? ==> after(judge(c).candidate)
  }

  ghost predicate All(good: Candidate -> bool, cs: seq<Candidate>) {
    forall i | 0 <= i < |cs| :: good(cs[i])
  }

  lemma {:induction false} KeptAre(judge: Judging, before: Candidate -> bool, after: Candidate -> bool,
                                   cs: seq<Candidate>)
    requires All(before, cs) && JudgingTurns(judge, before, after)
    ensures All(after, KeptOf(judge, cs))
  {
    if cs != [] {
      KeptAre(judge, before, after, cs[..|cs| - 1]);
      assert before(cs[|cs| - 1]);
    }
  }

  lemma {:induction false} SortedAre(less: (Candidate, Candidate) -> bool, good: Candidate -> bool, cs: seq<Candidate>)
    requires All(good, cs)
    ensures All(good, StableSort(less, cs))
  {
    var sorted := StableSort(less, cs);
    SortedMembers(less, cs);
    forall i | 0 <= i < |sorted| ensures good(sorted[i]) {
      assert sorted[i] in cs;
    }
  }

  /** What the filter makes of all candidates, and merging keeps, holds of everything that the
      analysis hands over. */
  lemma AnalyzedAre(env: Env, plan: Plan, before: Candidate -> bool, after: Candidate -> bool,
                    candidates: seq<Candidate>)
    requires All(before, candidates) && MergingKeeps(env.idOf, after)
    requires forall all: seq<Candidate> :: JudgingTurns(JudgeOf(env, plan, all), before, after)
    ensures All(after, Analyzed(env, plan, candidates).candidates)
  {
    var input := StableSort(ByKey(env.codec.key), candidates);
    var kept := KeptOf(JudgeOf(env, plan, input), input);
    SortedAre(ByKey(env.codec.key), before, candidates);
    KeptAre(JudgeOf(env, plan, input), before, after, input);
    DedupedKeeps(env.idOf, after, kept, |kept|);
    SortedAre(ByRank(env.codec.key), after, Deduped(env.idOf, kept, |kept|));
  }

  /** Evidence that the analysis hands over is sound. */
  lemma AnalyzedIsSound(env: Env, plan: Plan, candidates: seq<Candidate>)
    requires env.Valid() && BareHashes(candidates)
    ensures AllSound(env, Analyzed(env, plan, candidates).candidates)
  {
    var before := (c: Candidate) => Bare(c.origin.contentHash) == c.origin.contentHash;
    var after := (c: Candidate) => Sound(env, c);
    forall all: seq<Candidate> ensures JudgingTurns(JudgeOf(env, plan, all), before, after) {
      forall c: Candidate | before(c) && JudgeOf(env, plan, all)(c).Kept?
        ensures after(JudgeOf(env, plan, all)(c).candidate)
      {
        KeptIsSound(env, plan, all, c);
      }
    }
    forall a: Candidate, b: Candidate | after(a) && after(b) && Merges(a, b) ensures after(MergedInto(env.idOf, a, b)) {
      CombinedIsSound(env, a, b);
    }
    AnalyzedAre(env, plan, before, after, candidates);
  }

  lemma {:induction false} KeptHas(judge: Judging, cs: seq<Candidate>, c: Candidate)
    requires c in cs && judge(c).Kept?
    ensures judge(c).candidate in KeptOf(judge, cs)
  {
    var last := |cs| - 1;
    assert cs == cs[..last] + [cs[last]];
    if c in cs[..last] {
      KeptHas(judge, cs[..last], c);
    }
  }

  lemma AnalysisAbsorbs(env: Env, plan: Plan, candidates: seq<Candidate>, k: Candidate) returns (r: Candidate)
    requires var input := StableSort(ByKey(env.codec.key), candidates); k in KeptOf(JudgeOf(env, plan, input), input)
    ensures r in Analyzed(env, plan, candidates).candidates && Absorbs(r, k)
  {
    var input := StableSort(ByKey(env.codec.key), candidates);
    var kept := KeptOf(JudgeOf(env, plan, input), input);
    r := ResultAbsorbs(env, kept, k);
    SortedMembers(ByRank(env.codec.key), Deduped(env.idOf, kept, |kept|));
  }

  lemma ResultAbsorbs(env: Env, kept: seq<Candidate>, k: Candidate) returns (r: Candidate)
    requires k in kept
    ensures r in Deduped(env.idOf, kept, |kept|) && Absorbs(r, k)
  {
    var results := Deduped(env.idOf, kept, |kept|);
    DedupedKeepsMarks(env.idOf, kept, |kept|);
    assert kept[..|kept|] == kept;
    var i :| 0 <= i < |kept| && kept[i] == k;
    assert Absorbed(results, kept[i]);
    var j :| 0 <= j < |results| && Absorbs(results[j], k);
    r := results[j];
  }

  /** Sound authored evidence is never lost by the analysis unless it looks like a secret: some
      result quotes at least its lines, answers its facets, and is required if it was. */
  lemma AnalysisKeepsSound(env: Env, plan: Plan, candidates: seq<Candidate>, c: Candidate) returns (r: Candidate)
    requires c in candidates && Sound(env, c) && Authored(c) && !env.secret(c.content)
    ensures r in Analyzed(env, plan, candidates).candidates && Contains(r, c) && Authored(r)
    ensures (c.required ==> r.required)
  {
    var input := StableSort(ByKey(env.codec.key), candidates);
    SortedMembers(ByKey(env.codec.key), candidates);
    SoundIsKept(env, plan, input, c);
    KeptHas(JudgeOf(env, plan, input), input, c);
    r := AnalysisAbsorbs(env, plan, candidates, Judge(env, plan, input, c).candidate);
  }

  /** `r` quotes the same bytes of the same file as `c`, and possibly more. */
  predicate Contains(r: Candidate, c: Candidate) {
    && r.origin.source == c.origin.source && r.origin.path == c.origin.path
    && r.origin.contentHash == c.origin.contentHash
    && r.span.Covers(c.span) && c.facets <= r.facets
  }
}
