/**
 Distribution of managed assets to a repository: the drift classification and the proposal of
 `BuildDistributionProposal` (internal/agentcontrol/distribution.go) and the approval-bound
 protocol of `DistributionService` (internal/agentcontrol/service.go).

 A SHA-256 checksum of a file tree is represented by the tree it is the checksum of, and the
 fingerprint of a proposal by the material it is computed from: StableIdentity shows that
 equal checksums mean equal trees up to a collision of the hash.
 */
module Distribution {
  import opened Wrappers
  import opened Ordering
  import opened StableIdentity

  type FileTree = map<string, string>

  datatype Checksum = Sha256(tree: FileTree)

  datatype Ownership = MANAGED | LOCAL | GENERATED

  datatype AssetState = Missing | Current | Stale | LocallyModified | Conflicting

  /** An asset of the catalog; the global policy is not distributed to repositories. */
  datatype Asset = Asset(id: string, isGlobalPolicy: bool, kind: string, sourcePath: string, version: string,
                         targetPath: string, files: FileTree)

  datatype Catalog = Catalog(assets: seq<Asset>, digest: string)

  datatype FileChecksum = FileChecksum(path: string, checksum: Checksum)

  datatype ProvenanceEntry = ProvenanceEntry(assetId: string, kind: string, sourcePath: string, ownership: Ownership,
                                             version: string, targetPath: string, checksum: Checksum,
                                             files: seq<FileChecksum>)

  datatype Manifest = Manifest(schema: int, ownership: Ownership, generator: string, assets: seq<ProvenanceEntry>)

  const NO_MANIFEST := Manifest(0, LOCAL, "", [])
  const MANIFEST_SCHEMA := 1
  const GENERATOR := "course-dev-orchestrator/agentcontrol-v1"

  datatype TargetAsset = TargetAsset(present: bool, unsafe: bool, files: FileTree)

  const ABSENT := TargetAsset(false, false, map[])

  datatype Snapshot = Snapshot(root: string, revision: string, assets: map<string, TargetAsset>,
                               provenance: Manifest, hasProvenance: bool)

  datatype Change = Change(assetId: string, targetPath: string, state: AssetState, current: Option<Checksum>,
                           previous: Option<Checksum>, desired: Checksum, source: Asset, actual: TargetAsset)

  /** What the fingerprint covers of a change. */
  datatype Row = Row(assetId: string, targetPath: string, state: AssetState, current: Option<Checksum>,
                     previous: Option<Checksum>, desired: Checksum)

  datatype Fingerprint = Fingerprint(root: string, revision: string, catalogDigest: string, rows: seq<Row>,
                                     retained: seq<string>, next: Manifest)

  datatype Proposal = Proposal(root: string, revision: string, catalogDigest: string, changes: seq<Change>,
                               retained: seq<string>, next: Manifest)
  {
    function Print(): Fingerprint {
      Fingerprint(root, revision, catalogDigest, Rows(changes), retained, next)
    }
  }

  function RowOf(c: Change): Row {
    Row(c.assetId, c.targetPath, c.state, c.current, c.previous, c.desired)
  }

  function Rows(changes: seq<Change>): (rows: seq<Row>)
    ensures |rows| == |changes| && forall i | 0 <= i < |rows| :: rows[i] == RowOf(changes[i])
  {
    seq(|changes|, i requires 0 <= i < |changes| => RowOf(changes[i]))
  }

  // ---------- classification ----------

  /** `matchesProvenance`: every recorded file and the tree as a whole. */
  predicate MatchesProvenance(files: FileTree, prior: ProvenanceEntry) {
    && |files| == |prior.files|
    && (forall e | e in prior.files :: e.path in files && Sha256(map[e.path := files[e.path]]) == e.checksum)
    && Sha256(files) == prior.checksum
  }

  function Classify(asset: Asset, actual: TargetAsset, prior: Option<ProvenanceEntry>): AssetState {
    if prior.Some? && (prior.value.ownership != MANAGED || prior.value.targetPath != asset.targetPath
                       || prior.value.sourcePath != asset.sourcePath) then Conflicting
    else if actual.unsafe then Conflicting
    else if !actual.present then Missing
    else if Sha256(actual.files) == Sha256(asset.files) then Current
    else if prior.None? then Conflicting
    else if MatchesProvenance(actual.files, prior.value) then Stale
    else LocallyModified
  }

  function ChangeOf(asset: Asset, actual: TargetAsset, prior: Option<ProvenanceEntry>): Change {
    Change(asset.id, asset.targetPath, Classify(asset, actual, prior),
           if actual.present && !actual.unsafe then Some(Sha256(actual.files)) else None,
           if prior.Some? then Some(prior.value.checksum) else None,
           Sha256(asset.files), asset, actual)
  }

  /** The last entry of an asset, as the `previous` map holds it. */
  function Prior(entries: seq<ProvenanceEntry>, id: string): (r: Option<ProvenanceEntry>)
    ensures r.Some? ==> r.value in entries && r.value.assetId == id
    ensures r.None? ==> forall e | e in entries :: e.assetId != id
  {
    if entries == [] then None
    else
      var last := |entries| - 1;
      assert entries == entries[..last] + [entries[last]];
      if entries[last].assetId == id then Some(entries[last]) else Prior(entries[..last], id)
  }

  function Actual(snapshot: Snapshot, id: string): TargetAsset {
    if id in snapshot.assets then snapshot.assets[id] else ABSENT
  }

  /** The changes in catalog order, before they are sorted. */
  function ChangesOf(assets: seq<Asset>, snapshot: Snapshot): seq<Change> {
    if assets == [] then []
    else
      var last := assets[|assets| - 1];
      ChangesOf(assets[..|assets| - 1], snapshot)
      + if last.isGlobalPolicy then []
        else [ChangeOf(last, Actual(snapshot, last.id), Prior(snapshot.provenance.assets, last.id))]
  }

  predicate Retains(state: AssetState) {
    state == Conflicting || state == LocallyModified
  }

  function RetainedOf(changes: seq<Change>): seq<string> {
    if changes == [] then []
    else
      RetainedOf(changes[..|changes| - 1])
      + if Retains(changes[|changes| - 1].state) then [changes[|changes| - 1].assetId] else []
  }

  /** Entries of assets the catalog no longer has. */
  function Orphans(entries: seq<ProvenanceEntry>, desired: set<string>): seq<string> {
    if entries == [] then []
    else
      Orphans(entries[..|entries| - 1], desired)
      + if entries[|entries| - 1].assetId in desired then [] else [entries[|entries| - 1].assetId]
  }

  function DesiredIds(assets: seq<Asset>): set<string> {
    set i | 0 <= i < |assets| && !assets[i].isGlobalPolicy :: assets[i].id
  }

  function ChangeId(): Change -> string {
    (c: Change) => c.assetId
  }

  function PathOf(): FileChecksum -> string {
    (f: FileChecksum) => f.path
  }

  // ---------- the next provenance ----------

  ghost function FileChecksums(files: FileTree, names: seq<string>): seq<FileChecksum>
    requires forall n | n in names :: n in files
  {
    if names == [] then []
    else
      var last := names[|names| - 1];
      FileChecksums(files, names[..|names| - 1]) + [FileChecksum(last, Sha256(map[last := files[last]]))]
  }

  ghost function EntryOf(asset: Asset): ProvenanceEntry {
    ProvenanceEntry(asset.id, asset.kind, asset.sourcePath, MANAGED, asset.version, asset.targetPath,
                    Sha256(asset.files), FileChecksums(asset.files, SortedKeys(asset.files.Keys)))
  }

  function SortFiles(e: ProvenanceEntry): ProvenanceEntry {
    e.(files := SortBy(PathOf(), e.files))
  }

  function PreviousById(entries: seq<ProvenanceEntry>): map<string, ProvenanceEntry> {
    if entries == [] then map[]
    else PreviousById(entries[..|entries| - 1])[entries[|entries| - 1].assetId := SortFiles(entries[|entries| - 1])]
  }

  ghost function WithCatalog(byId: map<string, ProvenanceEntry>, assets: seq<Asset>): map<string, ProvenanceEntry> {
    if assets == [] then byId
    else
      var last := assets[|assets| - 1];
      var before := WithCatalog(byId, assets[..|assets| - 1]);
      if last.isGlobalPolicy then before else before[last.id := EntryOf(last)]
  }

  function EntriesInOrder(byId: map<string, ProvenanceEntry>, ids: seq<string>): (r: seq<ProvenanceEntry>)
    requires forall k | k in ids :: k in byId
    ensures |r| == |ids| && forall i | 0 <= i < |r| :: r[i] == byId[ids[i]]
  {
    seq(|ids|, i requires 0 <= i < |ids| => byId[ids[i]])
  }

  ghost function NextManifest(assets: seq<Asset>, previous: seq<ProvenanceEntry>): Manifest {
    var byId := WithCatalog(PreviousById(previous), assets);
    Manifest(MANIFEST_SCHEMA, GENERATED, GENERATOR, EntriesInOrder(byId, SortedKeys(byId.Keys)))
  }

  // ---------- the proposal ----------

  /** The text checks that are left abstract: safe paths and checksum spelling. */
  type PathRule = string -> bool

  /** `ValidateDistributionManifest`. */
  predicate ValidManifest(rule: PathRule, m: Manifest, present: bool) {
    present ==>
      && m.schema == MANIFEST_SCHEMA && m.ownership == GENERATED && m.generator != ""
      && (forall i | 0 <= i < |m.assets| :: ValidEntry(rule, m.assets[i]))
      && (forall i, j | 0 <= i < j < |m.assets| :: m.assets[i].assetId != m.assets[j].assetId)
  }

  predicate ValidEntry(rule: PathRule, e: ProvenanceEntry) {
    && e.assetId != "" && e.version != "" && e.ownership != GENERATED
    && ".agents/" <= e.targetPath && rule(e.targetPath)
    && e.files != [] && (forall f | f in e.files :: rule(f.path))
    && (forall i, j | 0 <= i < j < |e.files| :: e.files[i].path != e.files[j].path)
  }

  ghost function ProposalOf(catalog: Catalog, snapshot: Snapshot): Proposal {
    var changes := ChangesOf(catalog.assets, snapshot);
    Proposal(snapshot.root, snapshot.revision, catalog.digest,
             SortBy(ChangeId(), changes),
             Sort(RetainedOf(changes) + Orphans(snapshot.provenance.assets, DesiredIds(catalog.assets))),
             NextManifest(catalog.assets, snapshot.provenance.assets))
  }

  predicate Plannable(rule: PathRule, snapshot: Snapshot) {
    TrimSpace(snapshot.root) != "" && TrimSpace(snapshot.revision) != ""
    && ValidManifest(rule, snapshot.provenance, snapshot.hasProvenance)
  }

  // ---------- what the catalog loader guarantees ----------

  predicate ValidAsset(rule: PathRule, a: Asset) {
    && a.id != "" && a.version != "" && ".agents/" <= a.targetPath && rule(a.targetPath)
    && a.files != map[] && (forall n | n in a.files :: rule(n))
  }

  /** `ValidateCatalog`, as far as distribution depends on it. */
  ghost predicate ValidCatalog(rule: PathRule, assets: seq<Asset>) {
    && (forall i | 0 <= i < |assets| && !assets[i].isGlobalPolicy :: ValidAsset(rule, assets[i]))
    && (forall i, j | 0 <= i < j < |assets| :: assets[i].id != assets[j].id)
    && (forall i, j | 0 <= i < j < |assets| && !assets[i].isGlobalPolicy && !assets[j].isGlobalPolicy ::
          assets[i].targetPath != assets[j].targetPath)
  }

  // ---------- changes ----------

  function ChangeFor(asset: Asset, snapshot: Snapshot): Change {
    ChangeOf(asset, Actual(snapshot, asset.id), Prior(snapshot.provenance.assets, asset.id))
  }

  lemma {:induction false} ChangesAreOfAssets(assets: seq<Asset>, snapshot: Snapshot)
    ensures forall c :: c in ChangesOf(assets, snapshot)
              <==> exists i :: 0 <= i < |assets| && !assets[i].isGlobalPolicy && c == ChangeFor(assets[i], snapshot)
  {
    if assets != [] {
      var fewer := assets[..|assets| - 1];
      ChangesAreOfAssets(fewer, snapshot);
      forall c ensures c in ChangesOf(assets, snapshot)
              <==> exists i :: 0 <= i < |assets| && !assets[i].isGlobalPolicy && c == ChangeFor(assets[i], snapshot)
      {
        if i :| 0 <= i < |assets| && !assets[i].isGlobalPolicy && c == ChangeFor(assets[i], snapshot) {
          if i < |fewer| { assert fewer[i] == assets[i]; }
        }
      }
    }
  }

  lemma SortedChangesAreOfAssets(catalog: Catalog, snapshot: Snapshot)
    ensures forall c :: c in ProposalOf(catalog, snapshot).changes
              <==> exists i ::
                  0 <= i < |catalog.assets| && !catalog.assets[i].isGlobalPolicy
                  && c == ChangeFor(catalog.assets[i], snapshot)
  {
    ChangesAreOfAssets(catalog.assets, snapshot);
    SortByKeepsElements(ChangeId(), ChangesOf(catalog.assets, snapshot));
  }

  /** No change of the proposal is a conflict or a local modification. */
  predicate Clean(changes: seq<Change>) {
    forall i | 0 <= i < |changes| :: !Retains(changes[i].state)
  }

  /** The check of the first proposal covers the second, because the fingerprint binds the
      states. */
  lemma FingerprintBindsStates(p: Proposal, q: Proposal)
    requires p.Print() == q.Print() && Clean(p.changes)
    ensures Clean(q.changes)
  {
    assert Rows(p.changes) == Rows(q.changes);
    forall i | 0 <= i < |q.changes| ensures !Retains(q.changes[i].state) {
      assert RowOf(p.changes[i]) == RowOf(q.changes[i]);
    }
  }

  /** What may be overwritten: nothing, the desired content itself, or exactly the content that
      provenance recorded for the same asset at the same place. */
  ghost predicate Replaceable(asset: Asset, actual: TargetAsset, prior: Option<ProvenanceEntry>) {
    && !actual.unsafe
    && (prior.Some? ==> prior.value.ownership == MANAGED && prior.value.targetPath == asset.targetPath
                        && prior.value.sourcePath == asset.sourcePath)
    && (actual.present ==> actual.files == asset.files || (prior.Some? && prior.value.checksum == Sha256(actual.files)))
  }

  lemma UnretainedIsReplaceable(asset: Asset, actual: TargetAsset, prior: Option<ProvenanceEntry>)
    requires !Retains(Classify(asset, actual, prior))
    ensures Replaceable(asset, actual, prior)
  {
  }

  // ---------- the repository ----------

  /** Managed targets by path; a symbolic link or special file makes a target unsafe. */
  datatype RepoState = RepoState(root: string, revision: string, trees: map<string, FileTree>, unsafe: set<string>,
                                 manifest: Option<Manifest>)
  {
    function TargetAt(path: string): TargetAsset {
      if path in unsafe then TargetAsset(true, true, map[])
      else if path in trees then TargetAsset(true, false, trees[path])
      else ABSENT
    }

    function Provenance(): Manifest {
      if manifest.Some? then manifest.value else NO_MANIFEST
    }
  }

  function AssetsAt(assets: seq<Asset>, s: RepoState): map<string, TargetAsset> {
    if assets == [] then map[]
    else
      var last := assets[|assets| - 1];
      var before := AssetsAt(assets[..|assets| - 1], s);
      if last.isGlobalPolicy then before else before[last.id := s.TargetAt(last.targetPath)]
  }

  function SnapshotOf(assets: seq<Asset>, s: RepoState): Snapshot {
    Snapshot(s.root, s.revision, AssetsAt(assets, s), s.Provenance(), s.manifest.Some?)
  }

  lemma {:induction false} SnapshotShowsTargets(rule: PathRule, assets: seq<Asset>, s: RepoState, i: nat)
    requires ValidCatalog(rule, assets) && i < |assets| && !assets[i].isGlobalPolicy
    ensures Actual(SnapshotOf(assets, s), assets[i].id) == s.TargetAt(assets[i].targetPath)
  {
    var fewer := assets[..|assets| - 1];
    if i < |fewer| {
      assert fewer[i] == assets[i];
      SnapshotShowsTargets(rule, fewer, s, i);
      assert assets[i].id != assets[|assets| - 1].id;
    }
  }

  function WriteTrees(trees: map<string, FileTree>, changes: seq<Change>): map<string, FileTree> {
    if changes == [] then trees
    else
      var last := changes[|changes| - 1];
      WriteTrees(trees, changes[..|changes| - 1])[last.targetPath := last.source.files]
  }

  /** The adapter writes exactly the proposal. */
  function Written(s: RepoState, p: Proposal): RepoState {
    s.(trees := WriteTrees(s.trees, p.changes), manifest := Some(p.next))
  }

  /** The adapter's duty: the base revision, the manifest and the targets are still those of the
      snapshot the proposal was made from. */
  predicate Unchanged(s: RepoState, snapshot: Snapshot, p: Proposal) {
    && s.root == snapshot.root && s.revision == snapshot.revision
    && s.Provenance() == snapshot.provenance && s.manifest.Some? == snapshot.hasProvenance
    && forall c | c in p.changes :: s.TargetAt(c.targetPath) == c.actual
  }

  /** Everything this apply replaces may be replaced. */
  ghost predicate Safe(assets: seq<Asset>, s: RepoState) {
    forall i | 0 <= i < |assets| && !assets[i].isGlobalPolicy ::
      Replaceable(assets[i], s.TargetAt(assets[i].targetPath), Prior(s.Provenance().assets, assets[i].id))
  }

  /** The state after a whole apply from `s`. */
  ghost function Deployed(catalog: Catalog, s: RepoState): RepoState {
    Written(s, ProposalOf(catalog, SnapshotOf(catalog.assets, s)))
  }

  // ---------- writing a proposal ----------

  /** Different changes write different targets. */
  ghost predicate DistinctTargets(changes: seq<Change>) {
    forall i, j | 0 <= i < |changes| && 0 <= j < |changes| && changes[i].targetPath == changes[j].targetPath ::
      changes[i].source.files == changes[j].source.files
  }

  lemma {:induction false} WriteTreesWrites(trees: map<string, FileTree>, changes: seq<Change>)
    requires DistinctTargets(changes)
    ensures var r := WriteTrees(trees, changes);
            && (forall i | 0 <= i < |changes| ::
                 changes[i].targetPath in r && r[changes[i].targetPath] == changes[i].source.files)
            && (forall p | (forall i | 0 <= i < |changes| :: changes[i].targetPath != p) ::
                  (p in r <==> p in trees) && (p in r ==> r[p] == trees[p]))
  {
    if changes != [] {
      var fewer := changes[..|changes| - 1];
      WriteTreesWrites(trees, fewer);
      forall i | 0 <= i < |changes|
        ensures var r := WriteTrees(trees, changes);
                    changes[i].targetPath in r && r[changes[i].targetPath] == changes[i].source.files
      {
        if i < |fewer| { assert fewer[i] == changes[i]; }
      }
      forall p | (forall i | 0 <= i < |changes| :: changes[i].targetPath != p)
        ensures var r := WriteTrees(trees, changes); (p in r <==> p in trees) && (p in r ==> r[p] == trees[p])
      {
        assert changes[|changes| - 1].targetPath != p;
        forall i | 0 <= i < |fewer| ensures fewer[i].targetPath != p {
          assert fewer[i] == changes[i];
        }
      }
    }
  }

  lemma SourceOfChange(catalog: Catalog, snapshot: Snapshot, c: Change)
    requires c in ProposalOf(catalog, snapshot).changes
    ensures c.source in catalog.assets && !c.source.isGlobalPolicy && c.targetPath == c.source.targetPath
  {
    SortedChangesAreOfAssets(catalog, snapshot);
  }

  lemma ChangesWriteDistinctTargets(rule: PathRule, catalog: Catalog, snapshot: Snapshot)
    requires ValidCatalog(rule, catalog.assets)
    ensures DistinctTargets(ProposalOf(catalog, snapshot).changes)
  {
    var changes := ProposalOf(catalog, snapshot).changes;
    forall i, j | 0 <= i < |changes| && 0 <= j < |changes| && changes[i].targetPath == changes[j].targetPath
      ensures changes[i].source.files == changes[j].source.files
    {
      SourceOfChange(catalog, snapshot, changes[i]);
      SourceOfChange(catalog, snapshot, changes[j]);
      SameTargetSameAsset(rule, catalog.assets, changes[i].source, changes[j].source);
    }
  }

  lemma SameTargetSameAsset(rule: PathRule, assets: seq<Asset>, a: Asset, b: Asset)
    requires ValidCatalog(rule, assets) && a in assets && b in assets && !a.isGlobalPolicy && !b.isGlobalPolicy
    requires a.targetPath == b.targetPath
    ensures a == b
  {
  }

  /** After an apply every distributed asset holds the catalog's content, no other target
      changed, and provenance is the proposed one. */
  lemma DeployedHoldsCatalog(rule: PathRule, catalog: Catalog, s: RepoState)
    requires ValidCatalog(rule, catalog.assets)
    ensures var d := Deployed(catalog, s);
            && (forall i | 0 <= i < |catalog.assets| && !catalog.assets[i].isGlobalPolicy ::
                  catalog.assets[i].targetPath in d.trees
                      && d.trees[catalog.assets[i].targetPath] == catalog.assets[i].files)
            && (forall p | (forall i | 0 <= i < |catalog.assets| && !catalog.assets[i].isGlobalPolicy ::
                 catalog.assets[i].targetPath != p) ::
                  d.TargetAt(p) == s.TargetAt(p))
            && d.unsafe == s.unsafe && d.root == s.root && d.revision == s.revision
            && d.manifest == Some(NextManifest(catalog.assets, s.Provenance().assets))
  {
    var snapshot := SnapshotOf(catalog.assets, s);
    var changes := ProposalOf(catalog, snapshot).changes;
    var d := Deployed(catalog, s);
    SortedChangesAreOfAssets(catalog, snapshot);
    ChangesWriteDistinctTargets(rule, catalog, snapshot);
    WriteTreesWrites(s.trees, changes);
    forall i | 0 <= i < |catalog.assets| && !catalog.assets[i].isGlobalPolicy
      ensures catalog.assets[i].targetPath in d.trees
      ensures d.trees[catalog.assets[i].targetPath] == catalog.assets[i].files
    {
      var c := ChangeFor(catalog.assets[i], snapshot);
      assert c in changes;
      var k :| 0 <= k < |changes| && changes[k] == c;
    }
    forall p | (forall i | 0 <= i < |catalog.assets| && !catalog.assets[i].isGlobalPolicy ::
        catalog.assets[i].targetPath != p)
      ensures d.TargetAt(p) == s.TargetAt(p)
    {
      forall k | 0 <= k < |changes| ensures changes[k].targetPath != p {
        assert changes[k] in changes;
      }
    }
  }

  // ---------- the next provenance is stable ----------

  lemma {:induction false} PreviousByIdFacts(entries: seq<ProvenanceEntry>, id: string)
    ensures var byId := PreviousById(entries);
            && (id in byId <==> Prior(entries, id).Some?)
            && (id in byId ==> byId[id] == SortFiles(Prior(entries, id).value))
  {
    if entries != [] { PreviousByIdFacts(entries[..|entries| - 1], id); }
  }

  /** The asset that a catalog distributes under an id. */
  function Distributed(assets: seq<Asset>, id: string): (r: Option<Asset>)
    ensures r.Some? ==> r.value in assets && !r.value.isGlobalPolicy && r.value.id == id
    ensures r.None? ==> forall a | a in assets && !a.isGlobalPolicy :: a.id != id
  {
    if assets == [] then None
    else
      var last := |assets| - 1;
      assert assets == assets[..last] + [assets[last]];
      if !assets[last].isGlobalPolicy && assets[last].id == id then Some(assets[last])
          else Distributed(assets[..last], id)
  }

  /** What the manifest records of an asset once a catalog is distributed. */
  ghost function Recorded(assets: seq<Asset>, id: string, before: Option<ProvenanceEntry>): Option<ProvenanceEntry> {
    match Distributed(assets, id)
    case Some(asset) => Some(EntryOf(asset))
    case None => before
  }

  ghost function Lookup(byId: map<string, ProvenanceEntry>, id: string): Option<ProvenanceEntry> {
    if id in byId then Some(byId[id]) else None
  }

  lemma {:induction false} WithCatalogFacts(byId: map<string, ProvenanceEntry>, assets: seq<Asset>, id: string)
    ensures Lookup(WithCatalog(byId, assets), id) == Recorded(assets, id, Lookup(byId, id))
  {
    if assets != [] {
      WithCatalogFacts(byId, assets[..|assets| - 1], id);
    }
  }

  lemma {:induction false} PriorInOrder(byId: map<string, ProvenanceEntry>, id: string)
    requires Keyed(byId)
    ensures var entries := EntriesInOrder(byId, SortedKeys(byId.Keys));
            && (Prior(entries, id).Some? <==> id in byId)
            && (id in byId ==> Prior(entries, id) == Some(byId[id]))
  {
    var ids := SortedKeys(byId.Keys);
    var entries := EntriesInOrder(byId, ids);
    forall e | e in entries ensures e.assetId in byId && e == byId[e.assetId] {
      var i :| 0 <= i < |entries| && entries[i] == e;
      assert ids[i] in ids;
    }
    if id in byId {
      assert id in ids;
      var i :| 0 <= i < |ids| && ids[i] == id;
      assert entries[i] in entries && entries[i].assetId == id;
    }
  }

  ghost predicate Keyed(byId: map<string, ProvenanceEntry>) {
    forall k | k in byId :: byId[k].assetId == k
  }

  lemma {:induction false} ByIdIsKeyed(previous: seq<ProvenanceEntry>, assets: seq<Asset>)
    ensures Keyed(WithCatalog(PreviousById(previous), assets))
  {
    if assets != [] {
      ByIdIsKeyed(previous, assets[..|assets| - 1]);
    } else {
      var byId := PreviousById(previous);
      forall k | k in byId ensures byId[k].assetId == k {
        PreviousByIdFacts(previous, k);
      }
    }
  }

  function Tidied(entry: Option<ProvenanceEntry>): Option<ProvenanceEntry> {
    match entry
    case Some(e) => Some(SortFiles(e))
    case None => None
  }

  /** The next manifest records the catalog's entry of each distributed asset and keeps every
      other entry. */
  lemma {:induction false} PriorOfNext(assets: seq<Asset>, previous: seq<ProvenanceEntry>, id: string)
    ensures Prior(NextManifest(assets, previous).assets, id) == Recorded(assets, id, Tidied(Prior(previous, id)))
  {
    var byId := WithCatalog(PreviousById(previous), assets);
    ByIdIsKeyed(previous, assets);
    PriorInOrder(byId, id);
    WithCatalogFacts(PreviousById(previous), assets, id);
    PreviousByIdFacts(previous, id);
  }

  lemma FilesAreSortedAlready(e: ProvenanceEntry)
    ensures SortFiles(SortFiles(e)) == SortFiles(e)
  {
    SortByTwice(PathOf(), e.files);
  }

  /** Planning again on top of the next manifest proposes the same manifest. */
  lemma NextManifestIsStable(assets: seq<Asset>, previous: seq<ProvenanceEntry>)
    ensures NextManifest(assets, NextManifest(assets, previous).assets) == NextManifest(assets, previous)
  {
    var next := NextManifest(assets, previous).assets;
    var byId := WithCatalog(PreviousById(previous), assets);
    var again := WithCatalog(PreviousById(next), assets);
    forall id ensures Lookup(again, id) == Lookup(byId, id) {
      WithCatalogFacts(PreviousById(previous), assets, id);
      PreviousByIdFacts(previous, id);
      WithCatalogFacts(PreviousById(next), assets, id);
      PreviousByIdFacts(next, id);
      PriorOfNext(assets, previous, id);
      if Prior(previous, id).Some? { FilesAreSortedAlready(Prior(previous, id).value); }
    }
    SameMap(again, byId);
  }

  lemma SameMap(a: map<string, ProvenanceEntry>, b: map<string, ProvenanceEntry>)
    requires forall id :: Lookup(a, id) == Lookup(b, id)
    ensures a == b
  {
    forall id ensures id in a <==> id in b {
      assert Lookup(a, id) == Lookup(b, id);
    }
    forall id | id in a ensures a[id] == b[id] {
      assert Lookup(a, id) == Lookup(b, id);
    }
  }

  // ---------- the next provenance is valid ----------

  lemma {:induction false} FileChecksumsFacts(files: FileTree, names: seq<string>)
    requires forall n | n in names :: n in files
    ensures var r := FileChecksums(files, names);
            |r| == |names| && forall i | 0 <= i < |r| ::
                r[i] == FileChecksum(names[i], Sha256(map[names[i] := files[names[i]]]))
  {
    if names != [] { FileChecksumsFacts(files, names[..|names| - 1]); }
  }

  lemma EntryOfIsValid(rule: PathRule, asset: Asset)
    requires ValidAsset(rule, asset)
    ensures ValidEntry(rule, EntryOf(asset))
  {
    var names := SortedKeys(asset.files.Keys);
    var files := EntryOf(asset).files;
    FileChecksumsFacts(asset.files, names);
    var n :| n in asset.files;
    assert n in names;
    forall f | f in files ensures rule(f.path) {
      var i :| 0 <= i < |files| && files[i] == f;
      assert names[i] in names;
    }
    forall i, j | 0 <= i < j < |files| ensures files[i].path != files[j].path {
      if names[i] == names[j] { AscendingIsDistinct(names, i, j); }
    }
  }

  lemma SortFilesKeepsValid(rule: PathRule, e: ProvenanceEntry)
    requires ValidEntry(rule, e)
    ensures ValidEntry(rule, SortFiles(e))
  {
    SortByKeepsElements(PathOf(), e.files);
    SortByKeepsDistinct(PathOf(), e.files);
  }

  /** The next manifest passes the check that the next inspection makes. */
  lemma NextManifestIsValid(rule: PathRule, assets: seq<Asset>, previous: seq<ProvenanceEntry>)
    requires ValidCatalog(rule, assets) && forall e | e in previous :: ValidEntry(rule, e)
    ensures ValidManifest(rule, NextManifest(assets, previous), true)
  {
    var byId := WithCatalog(PreviousById(previous), assets);
    var ids := SortedKeys(byId.Keys);
    var entries := NextManifest(assets, previous).assets;
    ByIdIsKeyed(previous, assets);
    forall i | 0 <= i < |entries| ensures ValidEntry(rule, entries[i]) {
      assert ids[i] in ids;
      var id := entries[i].assetId;
      WithCatalogFacts(PreviousById(previous), assets, id);
      PreviousByIdFacts(previous, id);
      if Distributed(assets, id).Some? {
        EntryOfIsValid(rule, Distributed(assets, id).value);
      } else {
        SortFilesKeepsValid(rule, Prior(previous, id).value);
      }
    }
    forall i, j | 0 <= i < j < |entries| ensures entries[i].assetId != entries[j].assetId {
      assert ids[i] in ids && ids[j] in ids;
      if ids[i] == ids[j] { AscendingIsDistinct(ids, i, j); }
    }
  }

  // ---------- planning again right after an apply ----------

  lemma {:induction false} DistributedIs(rule: PathRule, assets: seq<Asset>, i: nat)
    requires ValidCatalog(rule, assets) && i < |assets| && !assets[i].isGlobalPolicy
    ensures Distributed(assets, assets[i].id) == Some(assets[i])
  {
    var r := Distributed(assets, assets[i].id);
    assert assets[i] in assets;
    var k :| 0 <= k < |assets| && assets[k] == r.value;
    assert k == i;
  }

  /** What classification sees of one asset after an apply. */
  ghost predicate Settled(asset: Asset, actual: TargetAsset, prior: Option<ProvenanceEntry>) {
    actual == TargetAsset(true, false, asset.files) && prior == Some(EntryOf(asset))
  }

  lemma SettledIsCurrent(asset: Asset, actual: TargetAsset, prior: Option<ProvenanceEntry>)
    requires Settled(asset, actual, prior)
    ensures Classify(asset, actual, prior) == Current
  {
  }

  lemma AssetSettles(rule: PathRule, catalog: Catalog, s: RepoState, i: nat)
    requires ValidCatalog(rule, catalog.assets) && Safe(catalog.assets, s)
    requires i < |catalog.assets| && !catalog.assets[i].isGlobalPolicy
    ensures var asset, snapshot := catalog.assets[i], SnapshotOf(catalog.assets, Deployed(catalog, s));
            Settled(asset, Actual(snapshot, asset.id), Prior(snapshot.provenance.assets, asset.id))
  {
    var asset := catalog.assets[i];
    DeployedHoldsCatalog(rule, catalog, s);
    SnapshotShowsTargets(rule, catalog.assets, Deployed(catalog, s), i);
    DistributedIs(rule, catalog.assets, i);
    PriorOfNext(catalog.assets, s.Provenance().assets, asset.id);
    assert Replaceable(asset, s.TargetAt(asset.targetPath), Prior(s.Provenance().assets, asset.id));
  }

  /** After an apply every asset is current, the manifest is the proposed one and would stay as
      it is, and a new proposal is accepted. */
  lemma ReplanAfterApply(rule: PathRule, catalog: Catalog, s: RepoState)
    requires ValidCatalog(rule, catalog.assets) && Plannable(rule, SnapshotOf(catalog.assets, s))
    requires Safe(catalog.assets, s)
    ensures var d := Deployed(catalog, s);
            var again := ProposalOf(catalog, SnapshotOf(catalog.assets, d));
            && Plannable(rule, SnapshotOf(catalog.assets, d))
            && (forall c | c in again.changes :: c.state == Current)
            && d.manifest == Some(again.next)
  {
    var d := Deployed(catalog, s);
    DeployedIsPlannable(rule, catalog, s);
    NextManifestIsStable(catalog.assets, s.Provenance().assets);
    var again := ProposalOf(catalog, SnapshotOf(catalog.assets, d));
    forall c | c in again.changes ensures c.state == Current {
      ChangeAfterApply(rule, catalog, s, c);
    }
  }

  lemma DeployedIsPlannable(rule: PathRule, catalog: Catalog, s: RepoState)
    requires ValidCatalog(rule, catalog.assets) && Plannable(rule, SnapshotOf(catalog.assets, s))
    ensures Plannable(rule, SnapshotOf(catalog.assets, Deployed(catalog, s)))
  {
    NextManifestIsValid(rule, catalog.assets, s.Provenance().assets);
  }

  lemma ChangeAfterApply(rule: PathRule, catalog: Catalog, s: RepoState, c: Change)
    requires ValidCatalog(rule, catalog.assets) && Safe(catalog.assets, s)
    requires c in ProposalOf(catalog, SnapshotOf(catalog.assets, Deployed(catalog, s))).changes
    ensures c.state == Current
  {
    var snapshot := SnapshotOf(catalog.assets, Deployed(catalog, s));
    SortedChangesAreOfAssets(catalog, snapshot);
    var i :| 0 <= i < |catalog.assets| && !catalog.assets[i].isGlobalPolicy
        && c == ChangeFor(catalog.assets[i], snapshot);
    AssetSettles(rule, catalog, s, i);
    SettledIsCurrent(catalog.assets[i], Actual(snapshot, catalog.assets[i].id),
                     Prior(snapshot.provenance.assets, catalog.assets[i].id));
  }
}
