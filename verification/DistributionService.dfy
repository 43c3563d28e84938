/**
 The loops of `BuildDistributionProposal` and `nextProvenance`, the protocol of
 `DistributionService` (internal/agentcontrol/service.go) over a repository that others edit
 between any two calls, and what holds over whole runs of edits and applies.
 */
module DistributionService {
  import opened Wrappers
  import opened Ordering
  import opened StableIdentity
  import opened Distribution

  // ---------- building a proposal ----------

  lemma {:induction false} FileChecksumsStep(files: FileTree, names: seq<string>, i: nat)
    requires i < |names| && forall n | n in names :: n in files
    ensures names[i] in files && (forall n | n in names[..i + 1] :: n in files)
    ensures FileChecksums(files, names[..i + 1])
                == FileChecksums(files, names[..i]) + [FileChecksum(names[i], Sha256(map[names[i] := files[names[i]]]))]
  {
    assert names[..i + 1][..i] == names[..i];
  }

  method ChecksumsOf(files: FileTree) returns (r: seq<FileChecksum>)
    ensures r == FileChecksums(files, SortedKeys(files.Keys))
  {
    var listing := ListKeys(files.Keys);
    var names := SortUnique(listing);
    r := [];
    for i := 0 to |names|
      invariant forall n | n in names[..i] :: n in files
      invariant r == FileChecksums(files, names[..i])
    {
      FileChecksumsStep(files, names, i);
      r := r + [FileChecksum(names[i], Sha256(map[names[i] := files[names[i]]]))];
    }
    assert names[..|names|] == names;
  }

  function EntryId(): ProvenanceEntry -> string {
    (e: ProvenanceEntry) => e.assetId
  }

  /** `nextProvenance`: the map is listed in any order and then sorted. */
  method NextProvenance(assets: seq<Asset>, previous: seq<ProvenanceEntry>) returns (m: Manifest)
    ensures m == NextManifest(assets, previous)
  {
    var byId: map<string, ProvenanceEntry> := map[];
    for i := 0 to |previous|
      invariant byId == PreviousById(previous[..i])
    {
      assert previous[..i + 1][..i] == previous[..i];
      byId := byId[previous[i].assetId := SortFiles(previous[i])];
    }
    assert previous[..|previous|] == previous;
    for i := 0 to |assets|
      invariant byId == WithCatalog(PreviousById(previous), assets[..i])
    {
      assert assets[..i + 1][..i] == assets[..i];
      if !assets[i].isGlobalPolicy {
        var files := ChecksumsOf(assets[i].files);
        byId := byId[assets[i].id := ProvenanceEntry(assets[i].id, assets[i].kind, assets[i].sourcePath, MANAGED,
                                                     assets[i].version, assets[i].targetPath, Sha256(assets[i].files),
                                                         files)];
      }
    }
    assert assets[..|assets|] == assets;
    ByIdIsKeyed(previous, assets);
    var entries := EntriesOf(byId);
    m := Manifest(MANIFEST_SCHEMA, GENERATED, GENERATOR, entries);
  }

  method EntriesOf(byId: map<string, ProvenanceEntry>) returns (entries: seq<ProvenanceEntry>)
    requires Keyed(byId)
    ensures entries == EntriesInOrder(byId, SortedKeys(byId.Keys))
  {
    var listing := ListKeys(byId.Keys);
    var listed := EntriesInOrder(byId, listing);
    entries := SortBy(EntryId(), listed);
    ListingIsSorted(byId, listing);
  }

  lemma EntriesAreListed(byId: map<string, ProvenanceEntry>, ids: seq<string>)
    requires forall k :: k in ids <==> k in byId
    ensures forall e :: e in EntriesInOrder(byId, ids) <==> exists k :: k in byId && byId[k] == e
  {
    var entries := EntriesInOrder(byId, ids);
    forall e ensures e in entries <==> exists k :: k in byId && byId[k] == e {
      if e in entries {
        var i :| 0 <= i < |entries| && entries[i] == e;
        assert ids[i] in ids;
      }
      if k :| k in byId && byId[k] == e {
        assert k in ids;
        var i :| 0 <= i < |ids| && ids[i] == k;
        assert entries[i] == e;
      }
    }
  }

  lemma ListingIsSorted(byId: map<string, ProvenanceEntry>, listing: seq<string>)
    requires Keyed(byId)
    requires forall k :: k in listing <==> k in byId
    requires forall i, j | 0 <= i < j < |listing| :: listing[i] != listing[j]
    ensures SortBy(EntryId(), EntriesInOrder(byId, listing)) == EntriesInOrder(byId, SortedKeys(byId.Keys))
  {
    var listed := EntriesInOrder(byId, listing);
    var ids := SortedKeys(byId.Keys);
    var ordered := EntriesInOrder(byId, ids);
    EntriesAreListed(byId, listing);
    EntriesAreListed(byId, ids);
    SortByKeepsElements(EntryId(), listed);
    SortByIsSorted(EntryId(), listed);
    assert DistinctBy(EntryId(), listed) by {
      forall i, j | 0 <= i < j < |listed| ensures EntryId()(listed[i]) != EntryId()(listed[j]) {
        assert listing[i] in listing && listing[j] in listing;
      }
    }
    SortByKeepsDistinct(EntryId(), listed);
    forall i, j | 0 <= i < j < |ordered|
      ensures EntryId()(ordered[i]) != EntryId()(ordered[j]) && !Less(EntryId()(ordered[j]), EntryId()(ordered[i]))
    {
      assert ids[i] in ids && ids[j] in ids;
      LessIsAsymmetric(ids[i], ids[j]);
    }
    SortedDistinctIsUnique(EntryId(), SortBy(EntryId(), listed), ordered);
  }

  method Latest(entries: seq<ProvenanceEntry>) returns (byId: map<string, ProvenanceEntry>)
    ensures forall id :: Lookup(byId, id) == Prior(entries, id)
  {
    byId := map[];
    for i := 0 to |entries|
      invariant forall id :: Lookup(byId, id) == Prior(entries[..i], id)
    {
      assert entries[..i + 1][..i] == entries[..i];
      byId := byId[entries[i].assetId := entries[i]];
    }
    assert entries[..|entries|] == entries;
  }

  method ChangeSeen(asset: Asset, snapshot: Snapshot, previous: map<string, ProvenanceEntry>) returns (change: Change)
    requires forall id :: Lookup(previous, id) == Prior(snapshot.provenance.assets, id)
    ensures change == ChangeFor(asset, snapshot)
  {
    var actual := if asset.id in snapshot.assets then snapshot.assets[asset.id] else ABSENT;
    assert Lookup(previous, asset.id) == Prior(snapshot.provenance.assets, asset.id);
    var prior := if asset.id in previous then Some(previous[asset.id]) else None;
    change := ChangeOf(asset, actual, prior);
  }

  lemma {:induction false} ChangesStep(assets: seq<Asset>, i: nat, snapshot: Snapshot)
    requires i < |assets|
    ensures ChangesOf(assets[..i + 1], snapshot)
              == ChangesOf(assets[..i], snapshot) + if assets[i].isGlobalPolicy then []
                  else [ChangeFor(assets[i], snapshot)]
  {
    assert assets[..i + 1][..i] == assets[..i];
  }

  lemma {:induction false} RetainedStep(changes: seq<Change>, change: Change)
    ensures RetainedOf(changes + [change]) == RetainedOf(changes) + if Retains(change.state) then [change.assetId]
                else []
  {
    assert (changes + [change])[..|changes|] == changes;
  }

  /** The loop over the catalog. */
  method Changes(assets: seq<Asset>, snapshot: Snapshot)
    returns (changes: seq<Change>, retained: seq<string>, desired: set<string>)
    ensures changes == ChangesOf(assets, snapshot) && retained == RetainedOf(changes) && desired == DesiredIds(assets)
  {
    var previous := Latest(snapshot.provenance.assets);
    changes, retained, desired := [], [], {};
    for i := 0 to |assets|
      invariant changes == ChangesOf(assets[..i], snapshot) && retained == RetainedOf(changes)
      invariant desired == DesiredIds(assets[..i])
    {
      ChangesStep(assets, i, snapshot);
      var asset := assets[i];
      DesiredIdsStep(assets, i);
      if !asset.isGlobalPolicy {
        desired := desired + {asset.id};
        var change := ChangeSeen(asset, snapshot, previous);
        RetainedStep(changes, change);
        changes := changes + [change];
        if Retains(change.state) {
          retained := retained + [asset.id];
        }
      }
    }
    assert assets[..|assets|] == assets;
  }

  lemma DesiredIdsStep(assets: seq<Asset>, i: nat)
    requires i < |assets|
    ensures DesiredIds(assets[..i + 1]) == DesiredIds(assets[..i]) + if assets[i].isGlobalPolicy then {}
                else {assets[i].id}
  {
    var longer, shorter := assets[..i + 1], assets[..i];
    forall id
      ensures id in DesiredIds(longer) <==>
                  id in DesiredIds(shorter) || (!assets[i].isGlobalPolicy && id == assets[i].id)
    {
      if id in DesiredIds(longer) {
        var k :| 0 <= k < |longer| && !longer[k].isGlobalPolicy && longer[k].id == id;
        if k < i { assert shorter[k] == longer[k]; }
      }
      if id in DesiredIds(shorter) {
        var k :| 0 <= k < |shorter| && !shorter[k].isGlobalPolicy && shorter[k].id == id;
        assert longer[k] == shorter[k];
      }
      assert longer[i] == assets[i];
    }
  }

  method OrphanIds(entries: seq<ProvenanceEntry>, desired: set<string>) returns (ids: seq<string>)
    ensures ids == Orphans(entries, desired)
  {
    ids := [];
    for i := 0 to |entries|
      invariant ids == Orphans(entries[..i], desired)
    {
      assert entries[..i + 1][..i] == entries[..i];
      if entries[i].assetId !in desired {
        ids := ids + [entries[i].assetId];
      }
    }
    assert entries[..|entries|] == entries;
  }

  /** `BuildDistributionProposal`. */
  method BuildProposal(rule: PathRule, catalog: Catalog, snapshot: Snapshot) returns (r: Option<Proposal>)
    ensures r == if Plannable(rule, snapshot) then Some(ProposalOf(catalog, snapshot)) else None
  {
    if !Plannable(rule, snapshot) {
      return None;
    }
    var changes, retained, desired := Changes(catalog.assets, snapshot);
    var orphans := OrphanIds(snapshot.provenance.assets, desired);
    var next := NextProvenance(catalog.assets, snapshot.provenance.assets);
    r := Some(Proposal(snapshot.root, snapshot.revision, catalog.digest, SortBy(ChangeId(), changes),
        Sort(retained + orphans), next));
  }

  // ---------- the repository and the service ----------

  /** What happens around one call: others may leave the repository in any state, and the call
      itself may fail, in which case it has no effect. */
  datatype Turn = Turn(edit: RepoState -> RepoState, fault: bool)

  datatype WriteRecord = WriteRecord(before: RepoState, after: RepoState)

  datatype ServiceError = RepositoryError | UnusableSnapshot | ApprovalRequired | ApplyConflict

  /** The repository adapter, whose contract is that it writes exactly the proposal, and only if
      the base revision, the manifest and the targets are those of the snapshot. */
  class Repository {
    var state: RepoState
    var clock: nat
    const world: nat -> Turn
    ghost var log: seq<WriteRecord>

    constructor (initial: RepoState, schedule: nat -> Turn)
      ensures state == initial && world == schedule && clock == 0 && log == []
    {
      state, clock, log := initial, 0, [];
      world := schedule;
    }

    method Snapshots(assets: seq<Asset>) returns (seen: map<string, TargetAsset>)
      ensures seen == AssetsAt(assets, state)
    {
      seen := map[];
      for i := 0 to |assets|
        invariant seen == AssetsAt(assets[..i], state)
      {
        assert assets[..i + 1][..i] == assets[..i];
        if !assets[i].isGlobalPolicy {
          seen := seen[assets[i].id := state.TargetAt(assets[i].targetPath)];
        }
      }
      assert assets[..|assets|] == assets;
    }

    method Inspect(catalog: Catalog) returns (r: Option<Snapshot>)
      modifies this
      ensures clock == old(clock) + 1 && log == old(log)
      ensures state == world(old(clock)).edit(old(state))
      ensures r == if world(old(clock)).fault then None else Some(SnapshotOf(catalog.assets, state))
    {
      var turn := world(clock);
      state, clock := turn.edit(state), clock + 1;
      if turn.fault {
        return None;
      }
      var seen := Snapshots(catalog.assets);
      r := Some(Snapshot(state.root, state.revision, seen, state.Provenance(), state.manifest.Some?));
    }

    method Write(snapshot: Snapshot, proposal: Proposal) returns (ok: bool)
      modifies this
      ensures clock == old(clock) + 1
      ensures var before := world(old(clock)).edit(old(state));
              && ok == (!world(old(clock)).fault && Unchanged(before, snapshot, proposal))
              && state == (if ok then Written(before, proposal) else before)
              && log == if ok then old(log) + [WriteRecord(before, state)] else old(log)
    {
      var turn := world(clock);
      state, clock := turn.edit(state), clock + 1;
      ok := !turn.fault && Unchanged(state, snapshot, proposal);
      if ok {
        ghost var before := state;
        state := Written(state, proposal);
        log := log + [WriteRecord(before, state)];
      }
    }
  }

  class Service {
    const repository: Repository
    const rule: PathRule

    constructor (repository: Repository, rule: PathRule)
      ensures this.repository == repository && this.rule == rule
    {
      this.repository, this.rule := repository, rule;
    }

    /** `DistributionService.Plan`. */
    method Plan(catalog: Catalog) returns (r: Result<Proposal, ServiceError>)
      modifies repository
      ensures repository.log == old(repository.log) && repository.clock == old(repository.clock) + 1
      ensures repository.state == repository.world(old(repository.clock)).edit(old(repository.state))
      ensures r == Planned(rule, catalog, repository.state, repository.world(old(repository.clock)).fault)
    {
      var snapshot := repository.Inspect(catalog);
      if snapshot.None? {
        return Failure(RepositoryError);
      }
      var proposal := BuildProposal(rule, catalog, snapshot.value);
      r := if proposal.Some? then Success(proposal.value) else Failure(UnusableSnapshot);
    }

    /** `DistributionService.Apply`.  The approval is `None` when its text is blank. */
    method Apply(catalog: Catalog, approved: Option<Fingerprint>) returns (r: Result<Proposal, ServiceError>)
      requires ValidCatalog(rule, catalog.assets)
      modifies repository
      ensures Logged(old(repository.log), repository.log, r)
      ensures r.Success? ==>
                var write := repository.log[|old(repository.log)|];
                && write.after == repository.state && RightlyApplied(rule, catalog, approved, write)
                && r.value == ProposalOf(catalog, SnapshotOf(catalog.assets, write.before))
      ensures approved.None? ==> r == Failure(ApprovalRequired) && repository.clock == old(repository.clock)
      ensures CalmFor(repository.world, old(repository.clock), 3) ==>
                (r.Success? <==> Applicable(rule, catalog, approved, old(repository.state)))
    {
      if approved.None? {
        return Failure(ApprovalRequired);
      }
      var planned := Plan(catalog);
      if planned.Failure? {
        return planned;
      }
      if planned.value.Print() != approved.value {
        return Failure(ApprovalRequired);
      }
      var conflict := FindConflict(planned.value.changes);
      if conflict {
        return Failure(ApplyConflict);
      }
      r := Commit(catalog, approved.value, planned.value);
    }

    /** The second half of an apply: inspect again, compare with the approval again, and write. */
    method Commit(catalog: Catalog, approved: Fingerprint, ghost planned: Proposal)
      returns (r: Result<Proposal, ServiceError>)
      requires ValidCatalog(rule, catalog.assets)
      requires planned.Print() == approved && Clean(planned.changes)
      modifies repository
      ensures Logged(old(repository.log), repository.log, r)
      ensures r.Success? ==>
                  AppliedAs(rule, catalog, Some(approved), repository.log[|old(repository.log)|], repository.state,
                  r.value)
      ensures CalmFor(repository.world, old(repository.clock), 2) ==>
                (Applicable(rule, catalog, Some(approved), old(repository.state)) ==> r.Success?)
    {
      var snapshot, current := Reconfirm(catalog, approved, planned);
      if current.Failure? {
        return current;
      }
      ghost var inspected := repository.state;
      InspectedIsUnchanged(rule, catalog, inspected);
      r := WriteProposal(catalog, approved, inspected, snapshot, current.value);
    }

    method Reconfirm(catalog: Catalog, approved: Fingerprint, ghost planned: Proposal)
      returns (snapshot: Snapshot, r: Result<Proposal, ServiceError>)
      requires planned.Print() == approved && Clean(planned.changes)
      modifies repository
      ensures repository.log == old(repository.log) && repository.clock == old(repository.clock) + 1
      ensures repository.state == repository.world(old(repository.clock)).edit(old(repository.state))
      ensures r.Success? ==>
                  snapshot == SnapshotOf(catalog.assets, repository.state) && r.value == ProposalOf(catalog, snapshot)
      ensures r.Success? <==>
                  !repository.world(old(repository.clock)).fault
                  && Applicable(rule, catalog, Some(approved), repository.state)
    {
      snapshot := Snapshot("", "", map[], NO_MANIFEST, false);
      var inspected := repository.Inspect(catalog);
      if inspected.None? {
        return snapshot, Failure(RepositoryError);
      }
      snapshot := inspected.value;
      var current := BuildProposal(rule, catalog, snapshot);
      if current.None? {
        return snapshot, Failure(UnusableSnapshot);
      }
      if current.value.Print() != approved {
        return snapshot, Failure(ApprovalRequired);
      }
      FingerprintBindsStates(planned, current.value);
      r := Success(current.value);
    }

    method WriteProposal(ghost catalog: Catalog, ghost approved: Fingerprint, ghost inspected: RepoState,
                         snapshot: Snapshot, proposal: Proposal)
      returns (r: Result<Proposal, ServiceError>)
      requires ValidCatalog(rule, catalog.assets) && Applicable(rule, catalog, Some(approved), inspected)
      requires snapshot == SnapshotOf(catalog.assets, inspected) && proposal == ProposalOf(catalog, snapshot)
      modifies repository
      ensures Logged(old(repository.log), repository.log, r)
      ensures r.Success? ==>
                  AppliedAs(rule, catalog, Some(approved), repository.log[|old(repository.log)|], repository.state,
                  r.value)
      ensures CalmTurn(repository.world(old(repository.clock))) ==>
                (Unchanged(old(repository.state), snapshot, proposal) ==> r.Success?)
    {
      var written := repository.Write(snapshot, proposal);
      if !written {
        return Failure(RepositoryError);
      }
      WriteIsRight(rule, catalog, Some(approved), inspected, repository.log[|old(repository.log)|], proposal);
      r := Success(proposal);
    }

    method FindConflict(changes: seq<Change>) returns (found: bool)
      ensures found <==> !Clean(changes)
    {
      for i := 0 to |changes|
        invariant Clean(changes[..i])
      {
        if Retains(changes[i].state) {
          assert !Clean(changes);
          return true;
        }
      }
      assert changes[..|changes|] == changes;
      return false;
    }
  }

  ghost function Planned(rule: PathRule, catalog: Catalog, s: RepoState, fault: bool): Result<Proposal, ServiceError> {
    if fault then Failure(RepositoryError)
    else if Plannable(rule, SnapshotOf(catalog.assets, s)) then
        Success(ProposalOf(catalog, SnapshotOf(catalog.assets, s)))
    else Failure(UnusableSnapshot)
  }

  /** A whole and approved apply: nothing was replaced that may not be, and the result is the
      catalog's content. */
  ghost predicate RightlyApplied(rule: PathRule, catalog: Catalog, approved: Option<Fingerprint>, write: WriteRecord) {
    && Applicable(rule, catalog, approved, write.before)
    && Safe(catalog.assets, write.before)
    && write.after == Deployed(catalog, write.before)
  }

  /** The state is one whose proposal is clean and has been approved. */
  ghost predicate Applicable(rule: PathRule, catalog: Catalog, approved: Option<Fingerprint>, s: RepoState) {
    var snapshot := SnapshotOf(catalog.assets, s);
    && Plannable(rule, snapshot)
    && Clean(ProposalOf(catalog, snapshot).changes)
    && approved == Some(ProposalOf(catalog, snapshot).Print())
  }

  /** Nobody edits and nothing fails for the next calls. */
  ghost predicate CalmFor(world: nat -> Turn, clock: nat, calls: nat) {
    forall t: nat | clock <= t < clock + calls :: CalmTurn(world(t))
  }

  ghost predicate CalmTurn(turn: Turn) {
    !turn.fault && forall s :: turn.edit(s) == s
  }

  /** A failed call wrote nothing, and a successful one wrote once. */
  ghost predicate Logged(before: seq<WriteRecord>, after: seq<WriteRecord>, r: Result<Proposal, ServiceError>) {
    if r.Success? then before < after && |after| == |before| + 1 else after == before
  }

  ghost predicate AppliedAs(rule: PathRule, catalog: Catalog, approved: Option<Fingerprint>, write: WriteRecord,
                            state: RepoState, proposal: Proposal)
  {
    && write.after == state && RightlyApplied(rule, catalog, approved, write)
    && proposal == ProposalOf(catalog, SnapshotOf(catalog.assets, write.before))
  }

  lemma WriteIsRight(rule: PathRule, catalog: Catalog, approved: Option<Fingerprint>, inspected: RepoState,
                     write: WriteRecord,
                     proposal: Proposal)
    requires ValidCatalog(rule, catalog.assets) && Applicable(rule, catalog, approved, inspected)
    requires proposal == ProposalOf(catalog, SnapshotOf(catalog.assets, inspected))
    requires Unchanged(write.before, SnapshotOf(catalog.assets, inspected), proposal)
    requires write.after == Written(write.before, proposal)
    ensures AppliedAs(rule, catalog, approved, write, write.after, proposal)
  {
    CleanIsSafe(rule, catalog, inspected);
    SameTargetsSamePlan(rule, catalog, inspected, write.before);
  }

  lemma CleanIsSafe(rule: PathRule, catalog: Catalog, s: RepoState)
    requires ValidCatalog(rule, catalog.assets) && Clean(ProposalOf(catalog, SnapshotOf(catalog.assets, s)).changes)
    ensures Safe(catalog.assets, s)
  {
    var snapshot := SnapshotOf(catalog.assets, s);
    var changes := ProposalOf(catalog, snapshot).changes;
    SortedChangesAreOfAssets(catalog, snapshot);
    forall i | 0 <= i < |catalog.assets| && !catalog.assets[i].isGlobalPolicy
      ensures Replaceable(catalog.assets[i], s.TargetAt(catalog.assets[i].targetPath),
                  Prior(s.Provenance().assets, catalog.assets[i].id))
    {
      SnapshotShowsTargets(rule, catalog.assets, s, i);
      var c := ChangeFor(catalog.assets[i], snapshot);
      assert c in changes;
      var k :| 0 <= k < |changes| && changes[k] == c;
      UnretainedIsReplaceable(catalog.assets[i], Actual(snapshot, catalog.assets[i].id),
                              Prior(s.Provenance().assets, catalog.assets[i].id));
    }
  }

  lemma InspectedIsUnchanged(rule: PathRule, catalog: Catalog, s: RepoState)
    requires ValidCatalog(rule, catalog.assets)
    ensures var snapshot := SnapshotOf(catalog.assets, s); Unchanged(s, snapshot, ProposalOf(catalog, snapshot))
  {
    var snapshot := SnapshotOf(catalog.assets, s);
    SortedChangesAreOfAssets(catalog, snapshot);
    forall c | c in ProposalOf(catalog, snapshot).changes ensures s.TargetAt(c.targetPath) == c.actual {
      var i :| 0 <= i < |catalog.assets| && !catalog.assets[i].isGlobalPolicy
          && c == ChangeFor(catalog.assets[i], snapshot);
      SnapshotShowsTargets(rule, catalog.assets, s, i);
    }
  }

  lemma {:induction false} SameAssetsAt(assets: seq<Asset>, s: RepoState, t: RepoState)
    requires forall i | 0 <= i < |assets| && !assets[i].isGlobalPolicy ::
                 s.TargetAt(assets[i].targetPath) == t.TargetAt(assets[i].targetPath)
    ensures AssetsAt(assets, s) == AssetsAt(assets, t)
  {
    if assets != [] {
      var fewer := assets[..|assets| - 1];
      forall i | 0 <= i < |fewer| && !fewer[i].isGlobalPolicy
        ensures s.TargetAt(fewer[i].targetPath) == t.TargetAt(fewer[i].targetPath)
      {
        assert fewer[i] == assets[i];
      }
      SameAssetsAt(fewer, s, t);
    }
  }

  /** The adapter's check makes the state it writes to as good as the one inspected. */
  lemma SameTargetsSamePlan(rule: PathRule, catalog: Catalog, inspected: RepoState, before: RepoState)
    requires ValidCatalog(rule, catalog.assets)
    requires var snapshot := SnapshotOf(catalog.assets, inspected);
                 Unchanged(before, snapshot, ProposalOf(catalog, snapshot))
    ensures SnapshotOf(catalog.assets, before) == SnapshotOf(catalog.assets, inspected)
    ensures Safe(catalog.assets, inspected) ==> Safe(catalog.assets, before)
  {
    var snapshot := SnapshotOf(catalog.assets, inspected);
    SortedChangesAreOfAssets(catalog, snapshot);
    forall i | 0 <= i < |catalog.assets| && !catalog.assets[i].isGlobalPolicy
      ensures before.TargetAt(catalog.assets[i].targetPath) == inspected.TargetAt(catalog.assets[i].targetPath)
    {
      assert ChangeFor(catalog.assets[i], snapshot) in ProposalOf(catalog, snapshot).changes;
      SnapshotShowsTargets(rule, catalog.assets, inspected, i);
    }
    SameAssetsAt(catalog.assets, before, inspected);
  }
}
