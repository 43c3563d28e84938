/**
 The plan and the pack of context retrieval (internal/contextretrieval/model.go), as far as
 packing and expansion depend on them.  A pack is modelled without the lists that
 `projectPack` derives from its evidence.  Lists that normalization sorts and dedupes
 (diagnostics, omissions, conflicts) are sets.
 */
module ContextPack {
  import Ordering
  import opened Evidence
  import opened Ranking
  import opened PackMeter

  datatype RequirementState =
    | Found | NotFound | NotVerified | OmittedByLimit | Unreadable | RequirementUnsupported | ExcludedByPolicy | NoState

  datatype Diagnostic = Diagnostic(code: string, status: Status, source: string, path: string, facetId: string,
                                   evidenceId: string, message: string)

  datatype CoverageRow = CoverageRow(source: string, facetId: string, stage: string, state: RequirementState,
                                     complete: bool)

  datatype Conflict = Conflict(id: string, evidenceIds: set<string>, values: set<string>)

  datatype Omission = Omission(evidenceId: string, source: string, path: string, reason: string, required: bool)

  datatype Facet = Facet(id: string, kind: string, query: string, source: string, path: string, symbol: string,
                         text: string,
                         resolver: string, claimType: string, required: bool)

  datatype Policy = Policy(source: string, path: string, contentHash: string, scope: string)

  datatype Budget = Budget(maxSourceBytes: nat, maxContextTokens: nat, reservedPromptTokens: nat,
                           perFacetTokens: nat, perSourceBytes: nat)

  datatype ExpandRequest = ExpandRequest(facet: Facet, reason: string, remaining: Budget)

  datatype Source = Source(identity: string, revision: string, snapshot: string, dirty: bool)

  /** What `admissionIdentity` binds of a plan.  `rest` stands for the fields that are only
      compared: read scopes, route text, versions, task and purpose. */
  datatype Admission = Admission(sources: set<string>, routeStatus: Status, ownerReview: bool, policies: seq<Policy>,
                                 budget: Budget, maxExpandDepth: nat, maxResults: nat, rest: string)

  datatype Plan = Plan(requestId: string, admission: Admission, required: seq<Facet>, optional: seq<Facet>,
                       unresolved: set<Diagnostic>, history: seq<ExpandRequest>)

  datatype Pack = Pack(requestId: string, plan: Plan, sources: set<Source>, status: Status, evidence: seq<Candidate>,
                       coverage: seq<CoverageRow>, unresolved: set<Diagnostic>, conflicts: set<Conflict>,
                       omissions: set<Omission>, used: BudgetUsed)

  function Recounted(p: Pack, tokens: nat, cumulative: nat): Pack {
    p.(used := p.used.(contextTokens := tokens, cumulativeContextTokens := cumulative))
  }

  /** The encodings, as functions: the length of the canonical JSON of a pack without the digits of
      its two token counts, the tokens of one candidate's JSON, the text that breaks rank ties,
      the hashes that normalization sorts by, and the text that binds a ledger of policy exclusions. */
  datatype Codec = Codec(size: Pack -> nat, weight: Candidate -> nat, key: Key, rowHash: CoverageRow -> string,
                         facetHash: Facet -> string, policyHash: Policy -> string,
                         ledgerText: set<Diagnostic> -> string)
  {
    /** Lengths fit a 64-bit int, and the two counts are not part of them. */
    ghost predicate Valid() {
      && (forall p: Pack :: size(p) < TWO_62)
      && (forall p: Pack, t: nat, c: nat :: size(Recounted(p, t, c)) == size(p))
    }
  }

  function NormalAdmission(codec: Codec, a: Admission): Admission {
    a.(policies := Ordering.SortBy(codec.policyHash, a.policies))
  }

  /** `normalizePlan`. */
  function NormalPlan(codec: Codec, plan: Plan): Plan {
    plan.(admission := NormalAdmission(codec, plan.admission),
          required := Ordering.SortBy(codec.facetHash, plan.required),
              optional := Ordering.SortBy(codec.facetHash, plan.optional))
  }

  /** `normalizePack`: evidence in rank order, the other lists by hash. */
  function Canonical(codec: Codec, p: Pack): Pack {
    p.(plan := NormalPlan(codec, p.plan), evidence := StableSort(ByRank(codec.key), p.evidence),
       coverage := Ordering.SortBy(codec.rowHash, p.coverage))
  }

  /** Normalizing twice is normalizing once. */
  lemma CanonicalTwice(codec: Codec, p: Pack)
    ensures Canonical(codec, Canonical(codec, p)) == Canonical(codec, p)
  {
    RankIsAsymmetric(codec.key);
    SortTwice(ByRank(codec.key), p.evidence);
    Ordering.SortByTwice(codec.rowHash, p.coverage);
    Ordering.SortByTwice(codec.facetHash, p.plan.required);
    Ordering.SortByTwice(codec.facetHash, p.plan.optional);
    Ordering.SortByTwice(codec.policyHash, p.plan.admission.policies);
  }

  function Sum(of: Candidate -> nat, evidence: seq<Candidate>): nat {
    if evidence == [] then 0 else of(evidence[0]) + Sum(of, evidence[1..])
  }

  function ContentBytes(): Candidate -> nat {
    (c: Candidate) => |c.content|
  }

  function BytesFrom(source: string): Candidate -> nat {
    (c: Candidate) => if c.origin.source == source then |c.content| else 0
  }

  function TokensFor(weight: Candidate -> nat, facet: string): Candidate -> nat {
    (c: Candidate) => if facet in c.facets then weight(c) else 0
  }

  function Bytes(evidence: seq<Candidate>): nat {
    Sum(ContentBytes(), evidence)
  }

  // ---------- sums do not depend on the order ----------

  lemma {:induction false} InsertKeepsSum(of: Candidate -> nat, less: (Candidate, Candidate) -> bool, x: Candidate,
                                          s: seq<Candidate>)
    ensures Sum(of, InsertRanked(less, x, s)) == of(x) + Sum(of, s)
  {
    if s != [] && less(s[0], x) {
      InsertKeepsSum(of, less, x, s[1..]);
    }
  }

  lemma {:induction false} SortKeepsSum(of: Candidate -> nat, less: (Candidate, Candidate) -> bool, s: seq<Candidate>)
    ensures Sum(of, StableSort(less, s)) == Sum(of, s)
  {
    if s != [] {
      SortKeepsSum(of, less, s[1..]);
      InsertKeepsSum(of, less, s[0], StableSort(less, s[1..]));
    }
  }

  lemma {:induction false} SumOfAppend(of: Candidate -> nat, s: seq<Candidate>, c: Candidate)
    ensures Sum(of, s + [c]) == Sum(of, s) + of(c)
  {
    if s == [] {
      assert [c][1..] == [];
    } else {
      assert (s + [c])[1..] == s[1..] + [c];
      SumOfAppend(of, s[1..], c);
    }
  }

  // ---------- measuring a pack ----------

  /** The pack as `measurePack` encodes it, with its byte counts set. */
  function WithBytes(p: Pack, previous: BudgetUsed): Pack {
    p.(used :=
        p.used.(sourceBytes := Bytes(p.evidence),
            cumulativeSourceBytes := CumulativeBytes(previous, Bytes(p.evidence))))
  }

  function Envelope(codec: Codec, p: Pack, previous: BudgetUsed): nat {
    codec.size(Canonical(codec, WithBytes(p, previous)))
  }

  /** `measurePack` on a pack. */
  function MeasuredPack(codec: Codec, p: Pack, previous: BudgetUsed): Pack {
    p.(used := Measured(Envelope(codec, p, previous), p.used, previous, Bytes(p.evidence)))
  }

  /** The accounting that `VerifyDigest` demands of a pack. */
  predicate Accounted(codec: Codec, p: Pack) {
    && p.used.sourceBytes == Bytes(p.evidence)
    && p.used.contextTokens
         == TokensOf(EncodedLength(codec.size(Canonical(codec, p)), p.used.contextTokens,
             p.used.cumulativeContextTokens))
    && p.used.cumulativeSourceBytes >= p.used.sourceBytes
    && p.used.cumulativeContextTokens >= p.used.contextTokens
    && p.used.reservedPromptTokens == p.plan.admission.budget.reservedPromptTokens
  }

  /** An account that the next pack can build on: what the union pack cost so far covers its own cost. */
  predicate Nested(previous: BudgetUsed) {
    && previous.cumulativeSourceBytes >= previous.sourceBytes
    && previous.cumulativeContextTokens >= previous.contextTokens
    && previous.Small()
  }

  /** Counts that the meter can start from. */
  predicate Startable(used: BudgetUsed) {
    used.contextTokens < 2 * TWO_62 && used.cumulativeContextTokens < 2 * TWO_62
  }

  lemma MeasuredPackIsAccounted(codec: Codec, p: Pack, previous: BudgetUsed)
    requires codec.Valid() && Nested(previous) && Startable(p.used)
    requires p.used.reservedPromptTokens == p.plan.admission.budget.reservedPromptTokens
    ensures Accounted(codec, MeasuredPack(codec, p, previous))
    ensures Startable(MeasuredPack(codec, p, previous).used)
    ensures MeasuredPack(codec, p, previous).used.cumulativeSourceBytes == CumulativeBytes(previous, Bytes(p.evidence))
    ensures MeasuredPack(codec, p, previous).used.cumulativeContextTokens >= previous.cumulativeContextTokens
  {
    var envelope, bytes := Envelope(codec, p, previous), Bytes(p.evidence);
    var m := MeasuredPack(codec, p, previous);
    MeasuredIsConsistent(envelope, p.used, previous, bytes);
    CumulativeCoversCurrent(envelope, previous, m.used.contextTokens, m.used.cumulativeContextTokens);
    SizeOfMeasured(codec, p, previous);
    ConsistentIsSmall(envelope, previous, m.used.contextTokens, m.used.cumulativeContextTokens);
  }

  lemma SizeOfMeasured(codec: Codec, p: Pack, previous: BudgetUsed)
    requires codec.Valid()
    ensures codec.size(Canonical(codec, MeasuredPack(codec, p, previous))) == Envelope(codec, p, previous)
  {
    var m, q := Canonical(codec, MeasuredPack(codec, p, previous)), Canonical(codec, WithBytes(p, previous));
    assert m == Recounted(q, m.used.contextTokens, m.used.cumulativeContextTokens);
  }

  lemma {:induction false} FewDigits(n: nat)
    ensures Digits(n) <= n + 1
  {
    if n >= 10 { FewDigits(n / 10); }
  }

  lemma ConsistentIsSmall(envelope: nat, previous: BudgetUsed, t: nat, c: nat)
    requires envelope < TWO_62 && previous.Small() && Consistent(envelope, previous, t, c)
    ensures t < TWO_62 && c < 2 * TWO_62
  {
    FewDigits(t);
    FewDigits(c);
    assert c <= TWO_62 + t;
    Pow10Of19();
    DigitsBound(t, 19);
    DigitsBound(c, 19);
  }
}
