/**
 External targets of a fleet graph (internal/architecturecatalog/fleet_external.go,
 `ResolveFleetExternals`).

 Edges that an owner directly asserted towards a reviewed literal get an external reference
 as their target.  The method rewrites the edges, references and diagnostics of the graph
 in place; an edge that changes its target also changes its id.
 */
module FleetExternals {
  import opened Ordering
  import opened StableIdentity
  import opened RelationCatalog

  const OUTBOUND_DEPENDENCY := "outbound_dependency"
  const OPERATION_INTERACTION := "operation_external_interaction"
  const EDGE_TARGET_UNRESOLVED := "EDGE_TARGET_UNRESOLVED"

  datatype GraphEdge = GraphEdge(id: string, tuple: EdgeTuple, pins: seq<string>)

  datatype GraphReference = GraphReference(id: string, sourceIdentity: string, manifestId: string, external: bool,
                                           pins: seq<string>)

  datatype GraphDiagnostic = GraphDiagnostic(code: string, edgeId: string, message: string)

  /** A way to name references; the program's is `StableReferenceID`. */
  type ReferenceScheme = (string, string) -> string

  ghost predicate SizedReference(identity: string, manifest: string) {
    Fit(ReferenceValues(identity, manifest), 4)
  }

  /** What every scheme has that appends a digest to a prefix. */
  ghost predicate NamesReferences(refOf: ReferenceScheme) {
    forall a: string, m: string | TrimSpace(a) != "" :: refOf(a, m) != "" && TrimSpace(refOf(a, m)) == refOf(a, m)
  }

  /** The scheme names these references apart. */
  ghost predicate ReferencesApart(refOf: ReferenceScheme, pairs: set<(string, string)>) {
    forall p, q | p in pairs && q in pairs && refOf(p.0, p.1) == refOf(q.0, q.1) ::
      ReferenceValues(p.0, p.1) == ReferenceValues(q.0, q.1)
  }

  /** The scheme names these edges apart. */
  ghost predicate EdgesApart(idOf: IdScheme, tuples: set<EdgeTuple>) {
    forall a, b | a in tuples && b in tuples && idOf(a) == idOf(b) :: a.Trimmed() == b.Trimmed()
  }

  ghost predicate IgnoresSpaces(idOf: IdScheme) {
    forall a: EdgeTuple, b: EdgeTuple | a.Trimmed() == b.Trimmed() :: idOf(a) == idOf(b)
  }

  /** A digest in hexadecimal. */
  ghost predicate IsHex(s: string) {
    s != "" && forall c | c in s :: '0' <= c <= '9' || 'a' <= c <= 'f'
  }

  lemma StableReferenceIdNames(hash: Hash)
    requires forall x :: IsHex(hash(x))
    ensures NamesReferences((a, m) => StableReferenceId(hash, a, m))
  {
    forall a: string, m: string | TrimSpace(a) != ""
      ensures StableReferenceId(hash, a, m) != ""
      ensures TrimSpace(StableReferenceId(hash, a, m)) == StableReferenceId(hash, a, m)
    {
      var digest := hash(GraphIdBytes(ReferenceValues(a, m)));
      assert IsHex(digest);
      assert digest[|digest| - 1] in digest;
      assert ("ref-" + digest)[|"ref-" + digest| - 1] == digest[|digest| - 1];
      UnspacedIsTrimmed("ref-" + digest);
    }
  }

  lemma UnspacedIsTrimmed(s: string)
    requires s != "" && !IsSpace(s[0]) && !IsSpace(s[|s| - 1])
    ensures TrimSpace(s) == s
  {
  }

  /** A direct assertion of the owner: unresolved, towards a reviewed literal, with evidence. */
  predicate IsAuthored(literals: set<string>, r: Relation) {
    && r.targetReference == "" && r.externalTarget in literals
    && r.confidence > 0.0 && r.evidence != []
    && r.transport != "" && r.transport != "unknown"
    && (r.kind == OUTBOUND_DEPENDENCY || r.kind == OPERATION_INTERACTION)
  }

  function ExternalIdentity(t: EdgeTuple): string {
    "external:" + t.transport + ":" + t.external
  }

  function ExternalReference(refOf: ReferenceScheme, t: EdgeTuple): string {
    refOf(ExternalIdentity(t), t.external)
  }

  function Resolved(idOf: IdScheme, refOf: ReferenceScheme, e: GraphEdge): GraphEdge {
    var t := e.tuple.(target := ExternalReference(refOf, e.tuple));
    e.(id := idOf(t), tuple := t)
  }

  function ResolveIn(idOf: IdScheme, refOf: ReferenceScheme, authored: set<string>, e: GraphEdge): GraphEdge {
    if e.id in authored then Resolved(idOf, refOf, e) else e
  }

  function EdgeId(): GraphEdge -> string {
    (e: GraphEdge) => e.id
  }

  function ReferenceId(): GraphReference -> string {
    (r: GraphReference) => r.id
  }

  /** The graph that `Export` produces from the relations of an accepted catalog. */
  ghost predicate Exported(idOf: IdScheme, refOf: ReferenceScheme, literals: set<string>, relations: seq<Relation>,
                           edges: seq<GraphEdge>, references: seq<GraphReference>)
  {
    && (exists refs :: Accepted(idOf, refs, relations))
    && DistinctBy(EdgeId(), edges)
    && DistinctBy(ReferenceId(), references)
    && (forall l | l in literals :: l != "" && TrimSpace(l) == l)
    && (forall i | 0 <= i < |edges| :: FromRelation(idOf, refOf, relations, edges[i]))
    && (forall r | r in references :: FromProject(refOf, r))
    && (forall e | e in edges && e.tuple.target != "" :: exists r :: r in references && r.id == e.tuple.target)
  }

  ghost predicate FromRelation(idOf: IdScheme, refOf: ReferenceScheme, relations: seq<Relation>, e: GraphEdge) {
    && (exists i :: 0 <= i < |relations| && relations[i].edgeId == e.id && TupleOf(relations[i]) == e.tuple)
    && e.tuple.HasId() && Sized(e.tuple) && e.id == idOf(e.tuple)
    && Sized(Resolved(idOf, refOf, e).tuple) && SizedReference(ExternalIdentity(e.tuple), e.tuple.external)
  }

  /** A project reference; no project calls itself "external:". */
  ghost predicate FromProject(refOf: ReferenceScheme, r: GraphReference) {
    && TrimSpace(r.sourceIdentity) != "" && !("external:" <= TrimSpace(r.sourceIdentity))
    && SizedReference(r.sourceIdentity, r.manifestId)
    && r.id == refOf(r.sourceIdentity, r.manifestId)
  }

  /** What edge ids are computed from, before and after resolving. */
  ghost function TuplesIn(refOf: ReferenceScheme, edges: seq<GraphEdge>): set<EdgeTuple> {
    (set e | e in edges :: e.tuple) + (set e | e in edges :: e.tuple.(target := ExternalReference(refOf, e.tuple)))
  }

  /** What reference ids are computed from. */
  ghost function PairsIn(edges: seq<GraphEdge>, references: seq<GraphReference>): set<(string, string)> {
    (set e | e in edges :: (ExternalIdentity(e.tuple), e.tuple.external))
        + (set r | r in references :: (r.sourceIdentity, r.manifestId))
  }

  /** The ids of this graph are apart. */
  ghost predicate IdsApart(idOf: IdScheme, refOf: ReferenceScheme, edges: seq<GraphEdge>,
                           references: seq<GraphReference>)
  {
    && NamesReferences(refOf) && IgnoresSpaces(idOf)
    && EdgesApart(idOf, TuplesIn(refOf, edges)) && ReferencesApart(refOf, PairsIn(edges, references))
  }

  /** The ids of the authored relations. */
  ghost predicate AreAuthoredIds(literals: set<string>, relations: seq<Relation>, ids: set<string>) {
    forall id :: id in ids <==>
        exists i :: 0 <= i < |relations| && IsAuthored(literals, relations[i]) && relations[i].edgeId == id
  }

  lemma AuthoredEdgeIsUnresolved(idOf: IdScheme, refOf: ReferenceScheme, literals: set<string>,
                                 relations: seq<Relation>,
                                 ids: set<string>, e: GraphEdge)
    requires (exists refs :: Accepted(idOf, refs, relations)) && AreAuthoredIds(literals, relations, ids)
    requires FromRelation(idOf, refOf, relations, e) && e.id in ids
    ensures e.tuple.target == "" && e.tuple.external in literals
  {
    var i :| 0 <= i < |relations| && IsAuthored(literals, relations[i]) && relations[i].edgeId == e.id;
    var j :| 0 <= j < |relations| && relations[j].edgeId == e.id && TupleOf(relations[j]) == e.tuple;
    assert i == j;
  }

  lemma ExternalIdentityIsTrimmed(t: EdgeTuple)
    requires t.external != "" && TrimSpace(t.external) == t.external
    ensures TrimSpace(ExternalIdentity(t)) == ExternalIdentity(t) && "external:" <= ExternalIdentity(t)
  {
    TrimmedHasUnspacedEnd(t.external);
    var s := ExternalIdentity(t);
    assert s[|s| - 1] == t.external[|t.external| - 1] && s[0] == 'e';
    assert "external:" + (t.transport + ":" + t.external) == s;
    UnspacedIsTrimmed(s);
  }

  lemma TrimmedHasUnspacedEnd(s: string)
    requires s != "" && TrimSpace(s) == s
    ensures !IsSpace(s[|s| - 1])
  {
    TrimLeftFacts(s);
    TrimRightFacts(TrimLeft(s));
  }

  /** An external reference never has the id of a project reference. */
  lemma ExternalIsNoProject(refOf: ReferenceScheme, t: EdgeTuple, r: GraphReference)
    requires FromProject(refOf, r) && t.external != "" && TrimSpace(t.external) == t.external
    requires ReferencesApart(refOf, {(ExternalIdentity(t), t.external), (r.sourceIdentity, r.manifestId)})
    ensures ExternalReference(refOf, t) != r.id
  {
    ExternalIdentityIsTrimmed(t);
    assert ReferenceValues(ExternalIdentity(t), t.external)[0] != ReferenceValues(r.sourceIdentity, r.manifestId)[0];
  }

  lemma ResolvedHasId(refOf: ReferenceScheme, t: EdgeTuple)
    requires NamesReferences(refOf) && t.HasId() && t.external != "" && TrimSpace(t.external) == t.external
    ensures var ref := ExternalReference(refOf, t);
            ref != "" && TrimSpace(ref) == ref && t.(target := ref).HasId()
                && t.(target := ref).Trimmed() == t.Trimmed().(target := ref)
  {
    ExternalIdentityIsTrimmed(t);
  }

  /** Edges with different ids still have different ids afterwards. */
  lemma ResolvingKeepsApart(idOf: IdScheme, refOf: ReferenceScheme, literals: set<string>, relations: seq<Relation>,
                            edges: seq<GraphEdge>, references: seq<GraphReference>, ids: set<string>, i: nat, j: nat)
    requires IdsApart(idOf, refOf, edges, references)
    requires Exported(idOf, refOf, literals, relations, edges, references) && AreAuthoredIds(literals, relations, ids)
    requires i < |edges| && j < |edges| && edges[i].id != edges[j].id && edges[i].id in ids
    ensures ResolveIn(idOf, refOf, ids, edges[i]).id != ResolveIn(idOf, refOf, ids, edges[j]).id
  {
    var a, b := edges[i], edges[j];
    assert a in edges && b in edges;
    assert FromRelation(idOf, refOf, relations, a) && FromRelation(idOf, refOf, relations, b);
    AuthoredEdgeIsUnresolved(idOf, refOf, literals, relations, ids, a);
    ResolvedHasId(refOf, a.tuple);
    var ref := ExternalReference(refOf, a.tuple);
    if b.id in ids {
      AuthoredEdgeIsUnresolved(idOf, refOf, literals, relations, ids, b);
      ResolvedHasId(refOf, b.tuple);
      TuplesAreApart(idOf, refOf, edges, Resolved(idOf, refOf, a).tuple, Resolved(idOf, refOf, b).tuple);
      if Resolved(idOf, refOf, a).id == Resolved(idOf, refOf, b).id {
        SameBeforeResolving(a.tuple, b.tuple, ref, ExternalReference(refOf, b.tuple));
      }
    } else {
      TuplesAreApart(idOf, refOf, edges, Resolved(idOf, refOf, a).tuple, b.tuple);
      if Resolved(idOf, refOf, a).id == b.id {
        assert TrimSpace(b.tuple.target) == ref;
        assert b.tuple.target != "" by { BlankIsTrimmed(); }
        var r :| r in references && r.id == b.tuple.target;
        assert FromProject(refOf, r);
        ExternalIsNoProject(refOf, a.tuple, r);
      }
    }
  }

  lemma TuplesAreApart(idOf: IdScheme, refOf: ReferenceScheme, edges: seq<GraphEdge>, t: EdgeTuple, u: EdgeTuple)
    requires EdgesApart(idOf, TuplesIn(refOf, edges)) && t in TuplesIn(refOf, edges) && u in TuplesIn(refOf, edges)
    ensures idOf(t) == idOf(u) ==> t.Trimmed() == u.Trimmed()
  {
  }

  lemma SameBeforeResolving(a: EdgeTuple, b: EdgeTuple, r: string, q: string)
    requires a.target == b.target
    requires a.Trimmed().(target := r) == b.Trimmed().(target := q)
    ensures a.Trimmed() == b.Trimmed()
  {
  }

  // ---------- what happens to the whole graph ----------

  function ResolveAll(idOf: IdScheme, refOf: ReferenceScheme, ids: set<string>,
                      edges: seq<GraphEdge>): (r: seq<GraphEdge>)
    ensures |r| == |edges| && forall i | 0 <= i < |r| :: r[i] == ResolveIn(idOf, refOf, ids, edges[i])
  {
    seq(|edges|, i requires 0 <= i < |edges| => ResolveIn(idOf, refOf, ids, edges[i]))
  }

  /** The ids of the edges of the graph that get a target. */
  function ResolvedIds(ids: set<string>, edges: seq<GraphEdge>): set<string> {
    set i | 0 <= i < |edges| && edges[i].id in ids :: edges[i].id
  }

  /** The diagnostics that stay: all but the unresolved targets of the resolved edges. */
  function Remaining(diagnostics: seq<GraphDiagnostic>, resolved: set<string>): (r: seq<GraphDiagnostic>)
    ensures forall d :: d in r <==> d in diagnostics && !(d.code == EDGE_TARGET_UNRESOLVED && d.edgeId in resolved)
  {
    if diagnostics == [] then []
    else
      var last := diagnostics[|diagnostics| - 1];
      assert diagnostics == diagnostics[..|diagnostics| - 1] + [last];
      Remaining(diagnostics[..|diagnostics| - 1], resolved)
      + if last.code == EDGE_TARGET_UNRESOLVED && last.edgeId in resolved then [] else [last]
  }

  lemma ResolvingKeepsDistinct(idOf: IdScheme, refOf: ReferenceScheme, literals: set<string>, relations: seq<Relation>,
                               edges: seq<GraphEdge>, references: seq<GraphReference>, ids: set<string>)
    requires IdsApart(idOf, refOf, edges, references)
    requires Exported(idOf, refOf, literals, relations, edges, references) && AreAuthoredIds(literals, relations, ids)
    ensures DistinctBy(EdgeId(), ResolveAll(idOf, refOf, ids, edges))
  {
    var r := ResolveAll(idOf, refOf, ids, edges);
    forall i, j | 0 <= i < j < |r| ensures EdgeId()(r[i]) != EdgeId()(r[j]) {
      assert EdgeId()(edges[i]) != EdgeId()(edges[j]);
      if edges[i].id in ids {
        ResolvingKeepsApart(idOf, refOf, literals, relations, edges, references, ids, i, j);
      } else if edges[j].id in ids {
        ResolvingKeepsApart(idOf, refOf, literals, relations, edges, references, ids, j, i);
      }
    }
  }

  ghost predicate Keyed(external: map<string, GraphReference>) {
    forall id | id in external :: external[id].id == id
  }

  function MakeExternal(refOf: ReferenceScheme, external: map<string, GraphReference>,
                        e: GraphEdge): (r: map<string, GraphReference>)
    ensures Keyed(external) ==> Keyed(r)
  {
    var id := ExternalReference(refOf, e.tuple);
    var pins := if id in external then external[id].pins else [];
    external[id := GraphReference(id, ExternalIdentity(e.tuple), e.tuple.external, true, SortUnique(pins + e.pins))]
  }

  /** The external references of the resolved edges among the first `k`. */
  function ExternalsOf(refOf: ReferenceScheme, ids: set<string>, edges: seq<GraphEdge>,
                       k: nat): (r: map<string, GraphReference>)
    requires k <= |edges|
    ensures Keyed(r)
  {
    if k == 0 then map[]
    else
      var before := ExternalsOf(refOf, ids, edges, k - 1);
      if edges[k - 1].id in ids then MakeExternal(refOf, before, edges[k - 1]) else before
  }

  lemma {:induction false} ExternalsCover(refOf: ReferenceScheme, ids: set<string>, edges: seq<GraphEdge>, k: nat,
                                          i: nat)
    requires i < k <= |edges| && edges[i].id in ids
    ensures ExternalReference(refOf, edges[i].tuple) in ExternalsOf(refOf, ids, edges, k)
  {
    if i < k - 1 { ExternalsCover(refOf, ids, edges, k - 1, i); }
  }

  lemma {:induction false} FindExternal(refOf: ReferenceScheme, ids: set<string>, edges: seq<GraphEdge>, k: nat,
                                        id: string)
    returns (i: nat)
    requires k <= |edges| && id in ExternalsOf(refOf, ids, edges, k)
    ensures i < k && edges[i].id in ids && id == ExternalReference(refOf, edges[i].tuple)
  {
    if edges[k - 1].id in ids && id == ExternalReference(refOf, edges[k - 1].tuple) {
      i := k - 1;
    } else {
      i := FindExternal(refOf, ids, edges, k - 1, id);
    }
  }

  /** The references of a map, in the order of a listing of its keys. */
  function Listed(external: map<string, GraphReference>, listing: seq<string>): (r: seq<GraphReference>)
    requires forall k | k in listing :: k in external
    ensures |r| == |listing| && forall i | 0 <= i < |r| :: r[i] == external[listing[i]]
  {
    seq(|listing|, i requires 0 <= i < |listing| => external[listing[i]])
  }

  /** The appended references are new and different from each other. */
  lemma {:induction false} AppendedAreDistinct(idOf: IdScheme, refOf: ReferenceScheme, literals: set<string>,
                                               relations: seq<Relation>,
                            edges: seq<GraphEdge>, references: seq<GraphReference>, ids: set<string>,
                            listing: seq<string>)
    requires IdsApart(idOf, refOf, edges, references)
    requires Exported(idOf, refOf, literals, relations, edges, references) && AreAuthoredIds(literals, relations, ids)
    requires forall k :: k in listing <==> k in ExternalsOf(refOf, ids, edges, |edges|)
    requires forall i, j | 0 <= i < j < |listing| :: listing[i] != listing[j]
    ensures DistinctBy(ReferenceId(), references + Listed(ExternalsOf(refOf, ids, edges, |edges|), listing))
  {
    var external := ExternalsOf(refOf, ids, edges, |edges|);
    var more := Listed(external, listing);
    forall i | 0 <= i < |more| ensures more[i].id == listing[i] {
      assert listing[i] in listing;
    }
    forall i, j | 0 <= i < |references| && 0 <= j < |more| ensures references[i].id != more[j].id {
      assert listing[j] in listing;
      ExternalIdIsNew(idOf, refOf, literals, relations, edges, references, ids, listing[j], i);
    }
    AppendKeepsDistinct(references, more);
  }

  lemma {:induction false} ExternalIdIsNew(idOf: IdScheme, refOf: ReferenceScheme, literals: set<string>,
                                           relations: seq<Relation>,
                        edges: seq<GraphEdge>, references: seq<GraphReference>, ids: set<string>, id: string, i: nat)
    requires IdsApart(idOf, refOf, edges, references)
    requires Exported(idOf, refOf, literals, relations, edges, references) && AreAuthoredIds(literals, relations, ids)
    requires id in ExternalsOf(refOf, ids, edges, |edges|) && i < |references|
    ensures references[i].id != id
  {
    var k := FindExternal(refOf, ids, edges, |edges|, id);
    assert FromRelation(idOf, refOf, relations, edges[k]);
    AuthoredEdgeIsUnresolved(idOf, refOf, literals, relations, ids, edges[k]);
    assert references[i] in references;
    ExternalIsNoProject(refOf, edges[k].tuple, references[i]);
  }

  lemma AppendKeepsDistinct(a: seq<GraphReference>, b: seq<GraphReference>)
    requires DistinctBy(ReferenceId(), a) && forall i, j | 0 <= i < j < |b| :: b[i].id != b[j].id
    requires forall i, j | 0 <= i < |a| && 0 <= j < |b| :: a[i].id != b[j].id
    ensures DistinctBy(ReferenceId(), a + b)
  {
    forall i, j | 0 <= i < j < |a + b| ensures ReferenceId()((a + b)[i]) != ReferenceId()((a + b)[j]) {
      if j < |a| {
        assert ReferenceId()(a[i]) != ReferenceId()(a[j]);
      } else if i < |a| {
        assert a[i].id != b[j - |a|].id;
      } else {
        assert b[i - |a|].id != b[j - |a|].id;
      }
    }
  }

  lemma ListedHas(external: map<string, GraphReference>, listing: seq<string>, id: string)
    requires Keyed(external) && (forall k | k in listing :: k in external) && id in listing
    ensures exists r :: r in Listed(external, listing) && r.id == id
  {
    var k :| 0 <= k < |listing| && listing[k] == id;
    assert Listed(external, listing)[k] in Listed(external, listing);
  }

  /** Every target of the rewritten edges is among the old and the appended references. */
  lemma {:induction false} NoTargetDangles(idOf: IdScheme, refOf: ReferenceScheme, literals: set<string>,
                                           relations: seq<Relation>,
                        edges: seq<GraphEdge>, references: seq<GraphReference>, ids: set<string>, listing: seq<string>,
                        e: GraphEdge)
    requires Exported(idOf, refOf, literals, relations, edges, references)
    requires forall k :: k in listing <==> k in ExternalsOf(refOf, ids, edges, |edges|)
    requires e in ResolveAll(idOf, refOf, ids, edges) && e.tuple.target != ""
    ensures exists r ::
                r in references + Listed(ExternalsOf(refOf, ids, edges, |edges|), listing) && r.id == e.tuple.target
  {
    var external := ExternalsOf(refOf, ids, edges, |edges|);
    var all := ResolveAll(idOf, refOf, ids, edges);
    var i :| 0 <= i < |all| && all[i] == e;
    if edges[i].id in ids {
      ExternalsCover(refOf, ids, edges, |edges|, i);
      ListedHas(external, listing, e.tuple.target);
    } else {
      assert edges[i] in edges;
    }
  }

  // ---------- the program's ids ----------

  function StableEdges(hash: Hash): IdScheme {
    (t: EdgeTuple) => StableEdgeId(hash, t)
  }

  function StableReferences(hash: Hash): ReferenceScheme {
    (identity: string, manifest: string) => StableReferenceId(hash, identity, manifest)
  }

  /** The bytes hashed for two edges, or for two references, of this very graph collide. */
  ghost predicate GraphCollides(hash: Hash, edges: seq<GraphEdge>, references: seq<GraphReference>) {
    || (exists a, b :: a in TuplesIn(StableReferences(hash), edges) && b in TuplesIn(StableReferences(hash), edges)
                       && Collide(hash, GraphIdBytes(a.Trimmed().Values()), GraphIdBytes(b.Trimmed().Values())))
    || (exists p, q :: p in PairsIn(edges, references) && q in PairsIn(edges, references)
                       && Collide(hash, GraphIdBytes(ReferenceValues(p.0, p.1)),
                            GraphIdBytes(ReferenceValues(q.0, q.1))))
  }

  lemma {:induction false} BeginsUnspaced(s: string)
    requires s != "" && !IsSpace(s[0])
    ensures TrimRight(s) != "" && TrimSpace(s) == TrimRight(s)
  {
    if IsSpace(s[|s| - 1]) { BeginsUnspaced(s[..|s| - 1]); }
  }

  /** A resolved edge has an id. */
  lemma TargetGivesId(refOf: ReferenceScheme, t: EdgeTuple)
    requires NamesReferences(refOf) && t.HasId()
    ensures t.(target := ExternalReference(refOf, t)).HasId()
  {
    assert ExternalIdentity(t)[0] == 'e';
    BeginsUnspaced(ExternalIdentity(t));
  }

  lemma TupleHasId(hash: Hash, literals: set<string>, relations: seq<Relation>, edges: seq<GraphEdge>,
                   references: seq<GraphReference>, e: GraphEdge)
    requires NamesReferences(StableReferences(hash)) && e in edges
    requires Exported(StableEdges(hash), StableReferences(hash), literals, relations, edges, references)
    ensures e.tuple.HasId() && Sized(e.tuple)
    ensures var t := e.tuple.(target := ExternalReference(StableReferences(hash), e.tuple)); t.HasId() && Sized(t)
  {
    var i :| 0 <= i < |edges| && edges[i] == e;
    assert FromRelation(StableEdges(hash), StableReferences(hash), relations, edges[i]);
    TargetGivesId(StableReferences(hash), e.tuple);
  }

  lemma PairIsSized(hash: Hash, literals: set<string>, relations: seq<Relation>, edges: seq<GraphEdge>,
                    references: seq<GraphReference>, p: (string, string))
    requires p in PairsIn(edges, references)
    requires Exported(StableEdges(hash), StableReferences(hash), literals, relations, edges, references)
    ensures SizedReference(p.0, p.1) && TrimSpace(p.0) != ""
  {
    forall r | r in references
      ensures SizedReference(r.sourceIdentity, r.manifestId) && TrimSpace(r.sourceIdentity) != ""
    {
      assert FromProject(StableReferences(hash), r);
    }
    forall e | e in edges
      ensures SizedReference(ExternalIdentity(e.tuple), e.tuple.external) && TrimSpace(ExternalIdentity(e.tuple)) != ""
    {
      EdgeNamesReference(hash, literals, relations, edges, references, e);
    }
  }

  lemma EdgeNamesReference(hash: Hash, literals: set<string>, relations: seq<Relation>, edges: seq<GraphEdge>,
                           references: seq<GraphReference>, e: GraphEdge)
    requires Exported(StableEdges(hash), StableReferences(hash), literals, relations, edges, references) && e in edges
    ensures SizedReference(ExternalIdentity(e.tuple), e.tuple.external) && TrimSpace(ExternalIdentity(e.tuple)) != ""
  {
    var i :| 0 <= i < |edges| && edges[i] == e;
    assert FromRelation(StableEdges(hash), StableReferences(hash), relations, edges[i]);
    assert ExternalIdentity(e.tuple)[0] == 'e';
    BeginsUnspaced(ExternalIdentity(e.tuple));
  }

  lemma TuplesAreSized(hash: Hash, literals: set<string>, relations: seq<Relation>, edges: seq<GraphEdge>,
                       references: seq<GraphReference>, t: EdgeTuple)
    requires NamesReferences(StableReferences(hash)) && t in TuplesIn(StableReferences(hash), edges)
    requires Exported(StableEdges(hash), StableReferences(hash), literals, relations, edges, references)
    ensures t.HasId() && Sized(t)
  {
    forall e | e in edges
      ensures e.tuple.HasId() && Sized(e.tuple)
      ensures var u := e.tuple.(target := ExternalReference(StableReferences(hash), e.tuple)); u.HasId() && Sized(u)
    {
      TupleHasId(hash, literals, relations, edges, references, e);
    }
  }

  /** The ids that the program computes, whatever the hash, keep the edges and references of a graph
      apart, or the bytes hashed for two of them collide. */
  lemma StableIdsAreApart(hash: Hash, literals: set<string>, relations: seq<Relation>, edges: seq<GraphEdge>,
                          references: seq<GraphReference>)
    requires (forall x :: IsHex(hash(x)))
    requires Exported(StableEdges(hash), StableReferences(hash), literals, relations, edges, references)
    ensures IdsApart(StableEdges(hash), StableReferences(hash), edges, references)
                || GraphCollides(hash, edges, references)
  {
    StableReferenceIdNames(hash);
    var tuples, pairs := TuplesIn(StableReferences(hash), edges), PairsIn(edges, references);
    if !GraphCollides(hash, edges, references) {
      forall a, b | a in tuples && b in tuples && StableEdgeId(hash, a) == StableEdgeId(hash, b)
        ensures a.Trimmed() == b.Trimmed()
      {
        TuplesAreSized(hash, literals, relations, edges, references, a);
        TuplesAreSized(hash, literals, relations, edges, references, b);
        EdgeIdIdentifies(hash, a, b);
      }
      forall p, q | p in pairs && q in pairs && StableReferenceId(hash, p.0, p.1) == StableReferenceId(hash, q.0, q.1)
        ensures ReferenceValues(p.0, p.1) == ReferenceValues(q.0, q.1)
      {
        PairIsSized(hash, literals, relations, edges, references, p);
        PairIsSized(hash, literals, relations, edges, references, q);
        GraphIdIsInjective(hash, ReferenceValues(p.0, p.1), ReferenceValues(q.0, q.1), "ref-");
      }
    }
  }

  class FleetGraph {
    var edges: seq<GraphEdge>
    var references: seq<GraphReference>
    var diagnostics: seq<GraphDiagnostic>

    constructor (edges: seq<GraphEdge>, references: seq<GraphReference>, diagnostics: seq<GraphDiagnostic>)
      ensures this.edges == edges && this.references == references && this.diagnostics == diagnostics
    {
      this.edges, this.references, this.diagnostics := edges, references, diagnostics;
    }

    method ResolveExternals(idOf: IdScheme, refOf: ReferenceScheme, literals: set<string>, relations: seq<Relation>)
      requires Exported(idOf, refOf, literals, relations, edges, references)
      modifies this
      ensures exists ids :: AreAuthoredIds(literals, relations, ids)
                && edges == SortBy(EdgeId(), ResolveAll(idOf, refOf, ids, old(edges)))
                && diagnostics == Remaining(old(diagnostics), ResolvedIds(ids, old(edges)))
      ensures |edges| == |old(edges)|
      ensures IdsApart(idOf, refOf, old(edges), old(references))
              ==> DistinctBy(EdgeId(), edges) && DistinctBy(ReferenceId(), references)
      ensures forall r | r in old(references) :: r in references
      ensures forall e | e in edges && e.tuple.target != "" :: exists r :: r in references && r.id == e.tuple.target
    {
      ghost var edges0 := edges;
      var ids := AuthoredIds(literals, relations);
      var external, resolved := ResolveEdges(idOf, refOf, ids);
      var listing := ListKeys(external.Keys);
      if IdsApart(idOf, refOf, edges0, references) {
        ResolvingKeepsDistinct(idOf, refOf, literals, relations, edges0, references, ids);
        AppendedAreDistinct(idOf, refOf, literals, relations, edges0, references, ids, listing);
      }
      forall e | e in edges && e.tuple.target != ""
        ensures exists r :: r in references + Listed(external, listing) && r.id == e.tuple.target
      {
        NoTargetDangles(idOf, refOf, literals, relations, old(edges), references, ids, listing, e);
      }
      references := references + Listed(external, listing);
      diagnostics := Remaining(diagnostics, resolved);
      Sort();
    }

    /** The two sorts at the end. */
    method Sort()
      modifies this`edges, this`references
      ensures edges == SortBy(EdgeId(), old(edges))
      ensures |edges| == |old(edges)| && forall e :: e in edges <==> e in old(edges)
      ensures forall r :: r in references <==> r in old(references)
      ensures DistinctBy(EdgeId(), old(edges)) ==> DistinctBy(EdgeId(), edges)
      ensures DistinctBy(ReferenceId(), old(references)) ==> DistinctBy(ReferenceId(), references)
    {
      SortByKeepsElements(EdgeId(), edges);
      SortByKeepsElements(ReferenceId(), references);
      if DistinctBy(EdgeId(), edges) { SortByKeepsDistinct(EdgeId(), edges); }
      if DistinctBy(ReferenceId(), references) { SortByKeepsDistinct(ReferenceId(), references); }
      references := SortBy(ReferenceId(), references);
      edges := SortBy(EdgeId(), edges);
    }

    method AuthoredIds(literals: set<string>, relations: seq<Relation>) returns (ids: set<string>)
      ensures AreAuthoredIds(literals, relations, ids)
    {
      ids := {};
      for k := 0 to |relations|
        invariant forall id :: id in ids <==>
                  exists i :: 0 <= i < k && IsAuthored(literals, relations[i]) && relations[i].edgeId == id
      {
        if IsAuthored(literals, relations[k]) {
          ids := ids + {relations[k].edgeId};
        }
      }
    }

    /** The loop over the edges, which rewrites them where they are. */
    method ResolveEdges(idOf: IdScheme, refOf: ReferenceScheme, ids: set<string>)
      returns (external: map<string, GraphReference>, resolved: set<string>)
      modifies this`edges
      ensures edges == ResolveAll(idOf, refOf, ids, old(edges))
      ensures external == ExternalsOf(refOf, ids, old(edges), |old(edges)|)
      ensures resolved == ResolvedIds(ids, old(edges))
    {
      external, resolved := map[], {};
      for k := 0 to |edges|
        invariant |edges| == |old(edges)|
        invariant forall i | 0 <= i < k :: edges[i] == ResolveIn(idOf, refOf, ids, old(edges)[i])
        invariant forall i | k <= i < |edges| :: edges[i] == old(edges)[i]
        invariant external == ExternalsOf(refOf, ids, old(edges), k)
        invariant resolved == set i | 0 <= i < k && old(edges)[i].id in ids :: old(edges)[i].id
      {
        var e := edges[k];
        if e.id in ids {
          resolved := resolved + {e.id};
          external := MakeExternal(refOf, external, e);
          edges := edges[k := Resolved(idOf, refOf, e)];
        }
      }
    }
  }
}
