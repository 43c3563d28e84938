/**
 Relations of the architecture catalog (internal/architecturecatalog/builder.go,
 `buildRelations`, and identity.go, `ValidateStableGraphIDs`).

 The builder keeps one relation per `relationKey`; the validator then rejects the catalog
 when two kept relations share an edge id.  The two notions of identity differ: the key
 uses project ids and raw text, the edge id uses reference ids and trimmed text.
 */
module RelationCatalog {
  import opened Ordering
  import opened StableIdentity

  /** `described` and `describedConfidence` are those of the description: its evidence stands in for
      missing evidence, its confidence for whatever is declared. */
  datatype Relation = Relation(
    kind: string,
    sourceProject: string,
    targetProject: string,
    externalTarget: string,
    operationId: string,
    transport: string,
    contract: string,
    direction: string,
    evidence: seq<string>,
    described: seq<string>,
    describedConfidence: real,
    confidence: real,
    sourceReference: string,
    targetReference: string,
    edgeId: string)

  /** What an edge id is computed from. */
  datatype EdgeTuple = EdgeTuple(source: string, kind: string, target: string, external: string,
                                 operation: string, transport: string, contract: string, direction: string)
  {
    function Trimmed(): EdgeTuple {
      EdgeTuple(TrimSpace(source), TrimSpace(kind), TrimSpace(target), TrimSpace(external),
                TrimSpace(operation), TrimSpace(transport), TrimSpace(contract), TrimSpace(direction))
    }

    function Values(): seq<string> {
      [source, kind, target, external, operation, transport, contract, direction]
    }

    /** `StableEdgeID` returns an id. */
    predicate HasId() {
      var t := Trimmed();
      t.source != "" && t.kind != "" && (t.target != "" || t.external != "")
    }
  }

  function StableEdgeId(hash: Hash, t: EdgeTuple): string {
    if t.HasId() then GraphId(hash, "edge-", t.Trimmed().Values()) else ""
  }

  /** Two tuples have the same edge id exactly when they are the same after trimming. */
  lemma EdgeIdIdentifies(hash: Hash, a: EdgeTuple, b: EdgeTuple)
    requires a.HasId() && b.HasId() && Fit(a.Trimmed().Values(), 4) && Fit(b.Trimmed().Values(), 4)
    ensures Collide(hash, GraphIdBytes(a.Trimmed().Values()), GraphIdBytes(b.Trimmed().Values()))
         || (StableEdgeId(hash, a) == StableEdgeId(hash, b) <==> a.Trimmed() == b.Trimmed())
  {
    if StableEdgeId(hash, a) == StableEdgeId(hash, b) {
      GraphIdIsInjective(hash, a.Trimmed().Values(), b.Trimmed().Values(), "edge-");
      var v, w := a.Trimmed().Values(), b.Trimmed().Values();
      if v == w {
        assert forall i | 0 <= i < 8 :: v[i] == w[i];
      }
    }
  }

  /** A way to name edges; the program's is `StableEdgeId` with SHA-256. */
  type IdScheme = EdgeTuple -> string

  ghost predicate Sized(t: EdgeTuple) {
    Fit(t.Trimmed().Values(), 4)
  }

  /** The scheme names every complete tuple, and identifies it up to trimming. */
  ghost predicate Faithful(idOf: IdScheme) {
    && (forall a: EdgeTuple | a.HasId() :: idOf(a) != "")
    && (forall a: EdgeTuple, b: EdgeTuple | a.HasId() && b.HasId() && Sized(a) && Sized(b) :: idOf(a) == idOf(b) <==>
         a.Trimmed() == b.Trimmed())
  }

  /** `stableKey`: the parts joined by NUL. */
  function JoinParts(parts: seq<string>): string {
    if parts == [] then ""
    else if |parts| == 1 then parts[0]
    else parts[0] + "\0" + JoinParts(parts[1..])
  }

  ghost predicate NulFree(parts: seq<string>) {
    forall p | p in parts :: '\0' !in p
  }

  lemma {:induction false} JoinPartsIsInjective(a: seq<string>, b: seq<string>)
    requires |a| == |b| && NulFree(a) && NulFree(b) && JoinParts(a) == JoinParts(b)
    ensures a == b
  {
    if |a| == 1 {
      assert a == [a[0]] && b == [b[0]];
    } else if |a| > 1 {
      assert a[0] in a && b[0] in b;
      SplitAtNul(a[0], JoinParts(a[1..]), b[0], JoinParts(b[1..]));
      assert forall p | p in a[1..] :: p in a;
      assert forall p | p in b[1..] :: p in b;
      JoinPartsIsInjective(a[1..], b[1..]);
      assert a == [a[0]] + a[1..] && b == [b[0]] + b[1..];
    }
  }

  lemma SplitAtNul(n: string, p: string, m: string, q: string)
    requires '\0' !in n && '\0' !in m && n + "\0" + p == m + "\0" + q
    ensures n == m && p == q
  {
    var s := n + "\0" + p;
    var i := if |n| <= |m| then |n| else |m|;
    assert s[i] == (n + "\0")[i] && s[i] == (m + "\0")[i];
    assert |n| == |m|;
    assert n == s[..|n|] && m == s[..|m|];
    assert p == s[|n| + 1..] && q == s[|m| + 1..];
  }

  function KeyParts(r: Relation): seq<string> {
    [r.kind, r.sourceProject, r.targetProject, r.externalTarget, r.operationId, r.transport, r.contract, r.direction]
  }

  function RelationKey(r: Relation): string {
    JoinParts(KeyParts(r))
  }

  /** Reference ids of the projects; a missing key reads as "" as in Go. */
  type References = map<string, string>

  function Lookup(refs: References, project: string): string {
    if project in refs then refs[project] else ""
  }

  /** What `ValidateStableGraphIDs` has established of the services: every project has its own
      non-empty reference id, which `graphID` produced, so it has no space at its ends. */
  ghost predicate Distinct(refs: References) {
    && "" !in refs
    && (forall p | p in refs :: refs[p] != "" && TrimSpace(refs[p]) == refs[p])
    && (forall p, q | p in refs && q in refs && refs[p] == refs[q] :: p == q)
  }

  function TupleOf(r: Relation): EdgeTuple {
    EdgeTuple(r.sourceReference, r.kind, r.targetReference, r.externalTarget, r.operationId, r.transport, r.contract,
        r.direction)
  }

  function Or(value: string, fallback: string): string {
    if TrimSpace(value) != "" then TrimSpace(value) else fallback
  }

  function EvidenceOf(r: Relation): seq<string> {
    UniqueAppend([], if r.evidence == [] then r.described else r.evidence)
  }

  /** The first half of `add`: defaults, references and edge id. */
  function Normalize(idOf: IdScheme, refs: References, r: Relation): Relation {
    var n := r.(
      evidence := EvidenceOf(r),
      confidence := r.describedConfidence,
      transport := TrimSpace(r.transport),
      contract := TrimSpace(r.contract),
      direction := Or(r.direction, "outbound"),
      externalTarget := if r.targetProject == "" then Or(r.externalTarget, "unknown") else r.externalTarget,
      sourceReference := Lookup(refs, r.sourceProject),
      targetReference := Lookup(refs, r.targetProject));
    n.(edgeId := idOf(TupleOf(n)))
  }

  /** What the callers of `add` supply: a known source, a resolved or external target. */
  ghost predicate Declared(refs: References, r: Relation) {
    && r.sourceProject in refs && (r.targetProject == "" || r.targetProject in refs)
    && TrimSpace(r.kind) == r.kind != ""
  }

  lemma {:induction false} TrimLeftFacts(s: string)
    ensures TrimLeft(s) == "" || !IsSpace(TrimLeft(s)[0])
    ensures TrimLeft(TrimLeft(s)) == TrimLeft(s)
  {
    if s != "" && IsSpace(s[0]) { TrimLeftFacts(s[1..]); }
  }

  lemma {:induction false} TrimRightFacts(s: string)
    ensures TrimRight(s) == "" || !IsSpace(TrimRight(s)[|TrimRight(s)| - 1])
    ensures TrimRight(TrimRight(s)) == TrimRight(s)
    ensures TrimRight(s) <= s
  {
    if s != "" && IsSpace(s[|s| - 1]) { TrimRightFacts(s[..|s| - 1]); }
  }

  lemma TrimIsIdempotent(s: string)
    ensures TrimSpace(TrimSpace(s)) == TrimSpace(s)
  {
    var l := TrimLeft(s);
    TrimLeftFacts(s);
    TrimRightFacts(l);
    var t := TrimRight(l);
    if t != "" {
      assert t[0] == l[0];
      assert TrimLeft(t) == t;
    }
  }

  lemma OrIsTrimmed(value: string, fallback: string)
    requires fallback == "outbound" || fallback == "unknown"
    ensures TrimSpace(Or(value, fallback)) == Or(value, fallback) != ""
  {
    TrimIsIdempotent(value);
    assert TrimLeft("outbound") == "outbound" && TrimRight("outbound") == "outbound";
    assert TrimLeft("unknown") == "unknown" && TrimRight("unknown") == "unknown";
  }

  /** What the two identities compare: project ids instead of reference ids. */
  function Identity(r: Relation): EdgeTuple {
    EdgeTuple(r.sourceProject, r.kind, r.targetProject, r.externalTarget, r.operationId, r.transport, r.contract,
        r.direction)
  }

  /** Identity up to the spaces around a resolved target's text and an operation id. */
  function LooseIdentity(r: Relation): EdgeTuple {
    Identity(r).(external := TrimSpace(r.externalTarget), operation := TrimSpace(r.operationId))
  }

  ghost predicate IsNormalized(idOf: IdScheme, refs: References, r: Relation) {
    && Declared(refs, r)
    && TrimSpace(r.transport) == r.transport && TrimSpace(r.contract) == r.contract
    && TrimSpace(r.direction) == r.direction
    && (r.targetProject == "" ==> TrimSpace(r.externalTarget) == r.externalTarget != "")
    && r.sourceReference == Lookup(refs, r.sourceProject) && r.targetReference == Lookup(refs, r.targetProject)
    && r.edgeId == idOf(TupleOf(r))
    && Sized(TupleOf(r))
  }

  lemma NormalizeIsNormalized(idOf: IdScheme, refs: References, r: Relation)
    requires Declared(refs, r) && Sized(TupleOf(Normalize(idOf, refs, r)))
    ensures IsNormalized(idOf, refs, Normalize(idOf, refs, r))
  {
    TrimIsIdempotent(r.transport);
    TrimIsIdempotent(r.contract);
    OrIsTrimmed(r.direction, "outbound");
    OrIsTrimmed(r.externalTarget, "unknown");
  }

  lemma BlankIsTrimmed()
    ensures TrimSpace("") == ""
  {
  }

  /** Normalized relations share an edge id exactly when they agree up to those spaces. */
  lemma EdgeIdComparesLoosely(idOf: IdScheme, refs: References, a: Relation, b: Relation)
    requires Faithful(idOf) && Distinct(refs) && IsNormalized(idOf, refs, a) && IsNormalized(idOf, refs, b)
    ensures a.edgeId != ""
    ensures (a.edgeId == b.edgeId <==> LooseIdentity(a) == LooseIdentity(b))
  {
    BlankIsTrimmed();
    assert TupleOf(a).HasId() && TupleOf(b).HasId();
  }

  /** Relations with trimmed targets and operation ids that the builder keeps apart never
      share an edge id. */
  lemma KeysAgreeWithEdgeIds(idOf: IdScheme, refs: References, a: Relation, b: Relation)
    requires Faithful(idOf) && Distinct(refs) && IsNormalized(idOf, refs, a) && IsNormalized(idOf, refs, b)
    requires TrimSpace(a.externalTarget) == a.externalTarget && TrimSpace(a.operationId) == a.operationId
    requires TrimSpace(b.externalTarget) == b.externalTarget && TrimSpace(b.operationId) == b.operationId
    requires RelationKey(a) != RelationKey(b)
    ensures a.edgeId != b.edgeId
  {
    EdgeIdComparesLoosely(idOf, refs, a, b);
  }

  // ---------- the builder and the validator ----------

  class RelationBuilder {
    const idOf: IdScheme
    const refs: References
    var relations: seq<Relation>
    var seen: map<string, nat>

    constructor (idOf: IdScheme, refs: References)
      ensures this.idOf == idOf && this.refs == refs && relations == [] && seen == map[] && Valid()
    {
      this.idOf, this.refs, relations, seen := idOf, refs, [], map[];
    }

    /** One relation per key, found through `seen`. */
    ghost predicate Valid()
      reads this
    {
      && (forall k | k in seen :: seen[k] < |relations| && RelationKey(relations[seen[k]]) == k)
      && (forall i | 0 <= i < |relations| ::
            RelationKey(relations[i]) in seen && seen[RelationKey(relations[i])] == i)
    }

    method Add(relation: Relation)
      requires Valid()
      modifies this
      ensures Valid()
      ensures Added(old(relations), relations, old(seen), Normalize(idOf, refs, relation))
    {
      var n := Normalize(idOf, refs, relation);
      var key := RelationKey(n);
      if key in seen {
        var i := seen[key];
        relations := relations[i := Merge(relations[i], n)];
      } else {
        seen := seen[key := |relations|];
        relations := relations + [n];
      }
    }

    /** `buildRelations`, given the declarations in the order it meets them. */
    method AddAll(declared: seq<Relation>)
      requires Valid() && relations == []
      requires AllAddable(idOf, refs, declared)
      modifies this
      ensures Valid()
      ensures AllNormalized(idOf, refs, relations)
      ensures DistinctKeys(relations)
      ensures AllRepresented(relations, NormalizeAll(idOf, refs, declared))
    {
      for i := 0 to |declared|
        invariant Valid()
        invariant AllNormalized(idOf, refs, relations)
        invariant AllRepresented(relations, NormalizeAll(idOf, refs, declared[..i]))
      {
        ghost var before, index := relations, seen;
        Add(declared[i]);
        AddStep(idOf, refs, declared, i, before, relations, index);
      }
      assert declared[..|declared|] == declared;
    }
  }

  ghost predicate Addable(idOf: IdScheme, refs: References, r: Relation) {
    Declared(refs, r) && Sized(TupleOf(Normalize(idOf, refs, r)))
  }

  ghost predicate AllAddable(idOf: IdScheme, refs: References, declared: seq<Relation>) {
    forall i | 0 <= i < |declared| :: Addable(idOf, refs, declared[i])
  }

  ghost predicate AllNormalized(idOf: IdScheme, refs: References, relations: seq<Relation>) {
    forall i | 0 <= i < |relations| :: IsNormalized(idOf, refs, relations[i])
  }

  ghost predicate DistinctKeys(relations: seq<Relation>) {
    forall i, j | 0 <= i < j < |relations| :: RelationKey(relations[i]) != RelationKey(relations[j])
  }

  lemma AddableNormalizes(idOf: IdScheme, refs: References, r: Relation)
    requires Addable(idOf, refs, r)
    ensures IsNormalized(idOf, refs, Normalize(idOf, refs, r))
  {
    NormalizeIsNormalized(idOf, refs, r);
  }

  lemma {:induction false} NormalizeAllOfLonger(idOf: IdScheme, refs: References, declared: seq<Relation>, i: nat)
    requires i < |declared|
    ensures NormalizeAll(idOf, refs, declared[..i + 1])
         == NormalizeAll(idOf, refs, declared[..i]) + [Normalize(idOf, refs, declared[i])]
  {
    assert declared[..i + 1][..i] == declared[..i];
  }

  lemma {:induction false} AddStep(idOf: IdScheme, refs: References, declared: seq<Relation>, i: nat,
                before: seq<Relation>, after: seq<Relation>, seen: map<string, nat>)
    requires i < |declared| && AllAddable(idOf, refs, declared)
    requires AllNormalized(idOf, refs, before)
    requires AllRepresented(before, NormalizeAll(idOf, refs, declared[..i]))
    requires Added(before, after, seen, Normalize(idOf, refs, declared[i]))
    ensures AllNormalized(idOf, refs, after)
    ensures AllRepresented(after, NormalizeAll(idOf, refs, declared[..i + 1]))
  {
    var n := Normalize(idOf, refs, declared[i]);
    AddKeepsRepresentatives(before, after, seen, n, NormalizeAll(idOf, refs, declared[..i]));
    NormalizeAllOfLonger(idOf, refs, declared, i);
    assert Addable(idOf, refs, declared[i]);
    AddableNormalizes(idOf, refs, declared[i]);
    MergeIsNormalized(idOf, refs, before, after, seen, n);
  }

  function NormalizeAll(idOf: IdScheme, refs: References, declared: seq<Relation>): seq<Relation> {
    if declared == [] then []
    else
      var last := |declared| - 1;
      NormalizeAll(idOf, refs, declared[..last]) + [Normalize(idOf, refs, declared[last])]
  }

  /** Every declaration has a kept relation that stands for it. */
  ghost predicate AllRepresented(kept: seq<Relation>, declared: seq<Relation>) {
    forall d | d in declared :: exists r :: r in kept && Represents(r, d)
  }

  /** `relations` after adding `n`, in terms of the index. */
  ghost predicate Added(before: seq<Relation>, after: seq<Relation>, seen: map<string, nat>, n: Relation) {
    && (forall k | k in seen :: seen[k] < |before| && RelationKey(before[seen[k]]) == k)
    && after == if RelationKey(n) in seen
                then before[seen[RelationKey(n)] := Merge(before[seen[RelationKey(n)]], n)]
                else before + [n]
  }

  lemma MergeIsNormalized(idOf: IdScheme, refs: References, before: seq<Relation>, after: seq<Relation>,
                          seen: map<string, nat>, n: Relation)
    requires Added(before, after, seen, n)
    requires IsNormalized(idOf, refs, n) && AllNormalized(idOf, refs, before)
    ensures AllNormalized(idOf, refs, after)
  {
    if RelationKey(n) in seen {
      var i := seen[RelationKey(n)];
      KeepsNormalized(idOf, refs, before[i], n);
      OneChanged(idOf, refs, before, after, i, Merge(before[i], n));
    }
  }

  lemma OneChanged(idOf: IdScheme, refs: References, before: seq<Relation>, after: seq<Relation>, i: nat, r: Relation)
    requires i < |before| && after == before[i := r] && AllNormalized(idOf, refs, before) && IsNormalized(idOf, refs, r)
    ensures AllNormalized(idOf, refs, after)
  {
  }

  lemma KeepsNormalized(idOf: IdScheme, refs: References, kept: Relation, again: Relation)
    requires IsNormalized(idOf, refs, kept)
    ensures IsNormalized(idOf, refs, Merge(kept, again))
  {
    assert TupleOf(Merge(kept, again)) == TupleOf(kept);
  }

  /** A second declaration of a kept relation adds its evidence and may raise its confidence. */
  function Merge(kept: Relation, again: Relation): Relation {
    kept.(evidence := UniqueAppend(kept.evidence, again.evidence),
          confidence := if again.confidence > kept.confidence then again.confidence else kept.confidence)
  }

  /** `uniqueEvidence(append(...))`. */
  function UniqueAppend(kept: seq<string>, more: seq<string>): (r: seq<string>)
    ensures forall e :: e in r <==> e in kept || e in more
    decreases |more|
  {
    if more == [] then kept
    else
      assert more == [more[0]] + more[1..];
      UniqueAppend(if more[0] in kept then kept else kept + [more[0]], more[1..])
  }

  /** Nothing a declaration says is lost in the relation that stands for it. */
  ghost predicate Represents(kept: Relation, declared: Relation) {
    && RelationKey(kept) == RelationKey(declared)
    && (forall e | e in declared.evidence :: e in kept.evidence)
    && kept.confidence >= declared.confidence
  }

  lemma AddKeepsRepresentatives(before: seq<Relation>, after: seq<Relation>, seen: map<string, nat>, n: Relation,
                                earlier: seq<Relation>)
    requires Added(before, after, seen, n) && AllRepresented(before, earlier)
    ensures AllRepresented(after, earlier + [n])
  {
    forall d | d in earlier ensures exists r :: r in after && Represents(r, d) {
      var r :| r in before && Represents(r, d);
      var i :| 0 <= i < |before| && before[i] == r;
      assert after[i] in after && Represents(after[i], d);
    }
    var at := if RelationKey(n) in seen then seen[RelationKey(n)] else |before|;
    assert after[at] in after && Represents(after[at], n);
  }

  predicate OwnId(idOf: IdScheme, r: Relation) {
    r.edgeId != "" && r.edgeId == idOf(TupleOf(r))
  }

  predicate AllOwnIds(idOf: IdScheme, relations: seq<Relation>, k: nat)
    requires k <= |relations|
  {
    k == 0 || (AllOwnIds(idOf, relations, k - 1) && OwnId(idOf, relations[k - 1]))
  }

  lemma {:induction false} OwnIdOfAll(idOf: IdScheme, relations: seq<Relation>, k: nat)
    requires k <= |relations|
    ensures AllOwnIds(idOf, relations, k) <==> forall i | 0 <= i < k :: OwnId(idOf, relations[i])
  {
    if k > 0 { OwnIdOfAll(idOf, relations, k - 1); }
  }

  lemma {:induction false} AllOwnIdsOfFewer(idOf: IdScheme, relations: seq<Relation>, k: nat, n: nat)
    requires k <= n <= |relations| && !AllOwnIds(idOf, relations, k)
    ensures !AllOwnIds(idOf, relations, n)
  {
    if k < n { AllOwnIdsOfFewer(idOf, relations, k, n - 1); }
  }

  /** The references of a relation are those of its projects, and an unresolved one names its target. */
  predicate OwnReferences(refs: References, r: Relation) {
    && r.sourceReference != "" && r.sourceReference == Lookup(refs, r.sourceProject)
    && if r.targetProject != "" then r.targetReference != "" && r.targetReference == Lookup(refs, r.targetProject)
       else r.targetReference == "" && TrimSpace(r.externalTarget) != ""
  }

  /** What the validator asks of the relations: references of their own projects, ids that are the
      ids of their tuples, no two the same. */
  ghost predicate Accepted(idOf: IdScheme, refs: References, relations: seq<Relation>) {
    && (forall i | 0 <= i < |relations| :: OwnReferences(refs, relations[i]))
    && AllOwnIds(idOf, relations, |relations|)
    && (forall i, j | 0 <= i < j < |relations| :: relations[i].edgeId != relations[j].edgeId)
  }

  ghost predicate LooselyDistinct(relations: seq<Relation>) {
    forall i, j | 0 <= i < j < |relations| :: LooseIdentity(relations[i]) != LooseIdentity(relations[j])
  }

  /** `ValidateStableGraphIDs`, the loop over the relations. */
  method ValidateEdges(idOf: IdScheme, refs: References, relations: seq<Relation>) returns (ok: bool)
    ensures ok <==> Accepted(idOf, refs, relations)
  {
    var edgeIds := {};
    for k := 0 to |relations|
      invariant forall id :: id in edgeIds <==> exists i :: 0 <= i < k && relations[i].edgeId == id
      invariant forall i | 0 <= i < k :: OwnReferences(refs, relations[i])
      invariant AllOwnIds(idOf, relations, k)
      invariant forall i, j | 0 <= i < j < k :: relations[i].edgeId != relations[j].edgeId
    {
      if !OwnReferences(refs, relations[k]) {
        return false;
      }
      if !OwnId(idOf, relations[k]) {
        AllOwnIdsOfFewer(idOf, relations, k + 1, |relations|);
        return false;
      }
      if relations[k].edgeId in edgeIds {
        return false;
      }
      edgeIds := edgeIds + {relations[k].edgeId};
    }
    return true;
  }

  lemma NormalizedOwnsReferences(idOf: IdScheme, refs: References, r: Relation)
    requires Distinct(refs) && IsNormalized(idOf, refs, r)
    ensures OwnReferences(refs, r)
  {
  }

  /** The validator accepts what the builder produced exactly when no two kept relations agree
      up to the spaces around a resolved target's text or an operation id. */
  lemma AcceptedIffLooselyDistinct(idOf: IdScheme, refs: References, relations: seq<Relation>)
    requires Faithful(idOf) && Distinct(refs) && AllNormalized(idOf, refs, relations)
    ensures Accepted(idOf, refs, relations) <==> LooselyDistinct(relations)
  {
    forall i | 0 <= i < |relations| ensures OwnId(idOf, relations[i]) && OwnReferences(refs, relations[i]) {
      NormalizedOwnsReferences(idOf, refs, relations[i]);
      EdgeIdComparesLoosely(idOf, refs, relations[i], relations[i]);
    }
    OwnIdOfAll(idOf, relations, |relations|);
    forall i, j | 0 <= i < j < |relations|
      ensures relations[i].edgeId == relations[j].edgeId <==> LooseIdentity(relations[i]) == LooseIdentity(relations[j])
    {
      EdgeIdComparesLoosely(idOf, refs, relations[i], relations[j]);
    }
  }

  /** The edge ids of two relations of the catalog differ, and the bytes hashed for them collide. */
  ghost predicate EdgesCollide(hash: Hash, relations: seq<Relation>) {
    exists i, j :: 0 <= i < |relations| && 0 <= j < |relations|
      && Collide(hash, GraphIdBytes(TupleOf(relations[i]).Trimmed().Values()),
           GraphIdBytes(TupleOf(relations[j]).Trimmed().Values()))
  }

  lemma EdgeIdComparesOrCollides(hash: Hash, refs: References, a: Relation, b: Relation)
    requires var idOf := (t: EdgeTuple) => StableEdgeId(hash, t);
             Distinct(refs) && IsNormalized(idOf, refs, a) && IsNormalized(idOf, refs, b)
    ensures a.edgeId != ""
    ensures (a.edgeId == b.edgeId <==> LooseIdentity(a) == LooseIdentity(b))
         || Collide(hash, GraphIdBytes(TupleOf(a).Trimmed().Values()), GraphIdBytes(TupleOf(b).Trimmed().Values()))
  {
    BlankIsTrimmed();
    assert TupleOf(a).HasId() && TupleOf(b).HasId();
    EdgeIdIdentifies(hash, TupleOf(a), TupleOf(b));
  }

  /** The same of the program's own ids, whatever the hash: otherwise the bytes hashed for two
      relations of this very catalog collide. */
  lemma AcceptedOrEdgesCollide(hash: Hash, refs: References, relations: seq<Relation>)
    requires var idOf := (t: EdgeTuple) => StableEdgeId(hash, t); Distinct(refs) && AllNormalized(idOf, refs, relations)
    ensures var idOf := (t: EdgeTuple) => StableEdgeId(hash, t);
            (Accepted(idOf, refs, relations) <==> LooselyDistinct(relations)) || EdgesCollide(hash, relations)
  {
    var idOf := (t: EdgeTuple) => StableEdgeId(hash, t);
    if !EdgesCollide(hash, relations) {
      forall i | 0 <= i < |relations| ensures OwnId(idOf, relations[i]) && OwnReferences(refs, relations[i]) {
        NormalizedOwnsReferences(idOf, refs, relations[i]);
        EdgeIdComparesOrCollides(hash, refs, relations[i], relations[i]);
      }
      OwnIdOfAll(idOf, relations, |relations|);
      forall i, j | 0 <= i < j < |relations|
        ensures relations[i].edgeId == relations[j].edgeId <==>
                    LooseIdentity(relations[i]) == LooseIdentity(relations[j])
      {
        EdgeIdComparesOrCollides(hash, refs, relations[i], relations[j]);
      }
    }
  }

  ghost predicate TrimmedTexts(r: Relation) {
    TrimSpace(r.externalTarget) == r.externalTarget && TrimSpace(r.operationId) == r.operationId
  }

  /** With trimmed targets and operation ids the validator never rejects the builder's output. */
  lemma TrimmedTextsAreAccepted(idOf: IdScheme, refs: References, relations: seq<Relation>)
    requires Faithful(idOf) && Distinct(refs) && AllNormalized(idOf, refs, relations)
    requires forall i | 0 <= i < |relations| :: TrimmedTexts(relations[i])
    requires DistinctKeys(relations)
    ensures Accepted(idOf, refs, relations)
  {
    AcceptedIffLooselyDistinct(idOf, refs, relations);
    forall i, j | 0 <= i < j < |relations| ensures LooseIdentity(relations[i]) != LooseIdentity(relations[j]) {
      assert RelationKey(relations[i]) != RelationKey(relations[j]);
      assert TrimmedTexts(relations[i]) && TrimmedTexts(relations[j]);
    }
  }

  /** Two declarations whose targets differ by a trailing space and resolve to one project are
      kept apart by the builder and then make the validator reject the whole catalog. */
  lemma UntrimmedTargetIsRejected(idOf: IdScheme, refs: References, a: Relation, b: Relation)
    requires Faithful(idOf) && OwnId(idOf, a) && OwnId(idOf, b)
    requires TupleOf(a).HasId() && Sized(TupleOf(a))
    requires b == a.(externalTarget := a.externalTarget + " ", edgeId := b.edgeId)
    ensures RelationKey(a) != RelationKey(b)
    ensures !Accepted(idOf, refs, [a, b])
  {
    SpacedKeysDiffer(a, b);
    SpacedTargetTrims(TupleOf(a), TupleOf(b));
    SharedIdIsRejected(idOf, refs, a, b);
  }

  lemma SharedIdIsRejected(idOf: IdScheme, refs: References, a: Relation, b: Relation)
    requires a.edgeId == b.edgeId
    ensures !Accepted(idOf, refs, [a, b])
  {
    assert [a, b][0].edgeId == [a, b][1].edgeId;
  }

  lemma SpacedKeysDiffer(a: Relation, b: Relation)
    requires b == a.(externalTarget := a.externalTarget + " ", edgeId := b.edgeId)
    ensures RelationKey(a) != RelationKey(b)
  {
    assert KeyParts(b) == KeyParts(a)[3 := KeyParts(a)[3] + " "];
    KeyLength(KeyParts(a), 3, KeyParts(b));
  }

  lemma SpacedTargetTrims(a: EdgeTuple, b: EdgeTuple)
    requires b == a.(external := a.external + " ")
    ensures a.Trimmed() == b.Trimmed()
  {
    TrailingSpaceIsTrimmed(a.external);
  }

  lemma {:induction false} TrimLeftOfSpaced(s: string)
    ensures TrimRight(TrimLeft(s + " ")) == TrimRight(TrimLeft(s))
  {
    if s == "" {
      assert TrimLeft(" ") == TrimLeft(" "[1..]) == "";
    } else if IsSpace(s[0]) {
      assert (s + " ")[1..] == s[1..] + " ";
      TrimLeftOfSpaced(s[1..]);
    } else {
      assert (s + " ")[..|s|] == s;
    }
  }

  lemma TrailingSpaceIsTrimmed(s: string)
    ensures TrimSpace(s + " ") == TrimSpace(s)
  {
    TrimLeftOfSpaced(s);
  }

  lemma {:induction false} KeyLength(a: seq<string>, i: nat, b: seq<string>)
    requires i < |a| && b == a[i := a[i] + " "]
    ensures |JoinParts(b)| == |JoinParts(a)| + 1
  {
    if |a| > 1 {
      if i == 0 {
        assert b[1..] == a[1..];
      } else {
        assert b[1..] == a[1..][i - 1 := a[1..][i - 1] + " "];
        KeyLength(a[1..], i - 1, b[1..]);
      }
    }
  }
}
