/**
 Whole runs of a repository: others edit files and even the generated manifest, catalogs are
 upgraded, and proposals are applied.  Whatever an apply replaces is the content it wants to
 write, or the very bytes that an earlier apply of the same run wrote for the same asset, or what
 an edited manifest says was written.
 */
module DistributionRuns {
  import opened Wrappers
  import opened Ordering
  import opened Distribution
  import opened DistributionService

  datatype Event =
    | Edit(revision: string, trees: map<string, FileTree>, unsafe: set<string>)
    | EditManifest(manifest: Option<Manifest>)
    | Deploy(catalog: Catalog)

  /** An approved apply goes through: the catalog is valid and its proposal is clean. */
  ghost predicate Accepts(rule: PathRule, catalog: Catalog, s: RepoState) {
    && ValidCatalog(rule, catalog.assets)
    && Applicable(rule, catalog, Some(ProposalOf(catalog, SnapshotOf(catalog.assets, s)).Print()), s)
  }

  ghost function Step(rule: PathRule, s: RepoState, e: Event): RepoState {
    match e
    case Edit(revision, trees, unsafe) => s.(revision := revision, trees := trees, unsafe := unsafe)
    case EditManifest(manifest) => s.(manifest := manifest)
    case Deploy(catalog) => if Accepts(rule, catalog, s) then Deployed(catalog, s) else s
  }

  /** The state after the first `n` events. */
  ghost function Run(rule: PathRule, initial: RepoState, events: seq<Event>, n: nat): RepoState
    requires n <= |events|
  {
    if n == 0 then initial else Step(rule, Run(rule, initial, events, n - 1), events[n - 1])
  }

  /** Event `k` was an apply that wrote this tree for this asset at this place. */
  ghost predicate Wrote(rule: PathRule, initial: RepoState, events: seq<Event>, k: nat, id: string, target: string,
                        tree: FileTree)
    requires k < |events|
  {
    && events[k].Deploy?
    && Accepts(rule, events[k].catalog, Run(rule, initial, events, k))
    && exists a ::
         a in events[k].catalog.assets && !a.isGlobalPolicy && a.id == id && a.targetPath == target && a.files == tree
  }

  /** Event `k` put a manifest into the repository that says so. */
  ghost predicate Claimed(events: seq<Event>, k: nat, id: string, target: string, tree: FileTree)
    requires k < |events|
  {
    && events[k].EditManifest? && events[k].manifest.Some?
    && exists e ::
         e in events[k].manifest.value.assets && e.assetId == id && e.targetPath == target && e.checksum.tree == tree
  }

  ghost predicate Vouched(rule: PathRule, initial: RepoState, events: seq<Event>, k: nat, id: string, target: string,
                          tree: FileTree)
    requires k < |events|
  {
    Wrote(rule, initial, events, k, id, target, tree) || Claimed(events, k, id, target, tree)
  }

  /** Every record of the manifest is the record of an apply that happened, or was edited into it. */
  ghost predicate Truthful(rule: PathRule, initial: RepoState, events: seq<Event>, n: nat)
    requires n <= |events|
  {
    forall e | e in Run(rule, initial, events, n).Provenance().assets :: Backed(rule, initial, events, n, e)
  }

  ghost predicate Backed(rule: PathRule, initial: RepoState, events: seq<Event>, n: nat, e: ProvenanceEntry)
    requires n <= |events|
  {
    exists k :: 0 <= k < n && Vouched(rule, initial, events, k, e.assetId, e.targetPath, e.checksum.tree)
  }

  lemma {:induction false} EntryOfNext(assets: seq<Asset>, previous: seq<ProvenanceEntry>, e: ProvenanceEntry)
    requires e in NextManifest(assets, previous).assets
    ensures Some(e) == Recorded(assets, e.assetId, Tidied(Prior(previous, e.assetId)))
  {
    var byId := WithCatalog(PreviousById(previous), assets);
    var ids := SortedKeys(byId.Keys);
    var entries := NextManifest(assets, previous).assets;
    ByIdIsKeyed(previous, assets);
    var i :| 0 <= i < |entries| && entries[i] == e;
    assert ids[i] in ids;
    WithCatalogFacts(PreviousById(previous), assets, e.assetId);
    PreviousByIdFacts(previous, e.assetId);
  }

  lemma {:induction false} ManifestStaysTruthful(rule: PathRule, initial: RepoState, events: seq<Event>, n: nat)
    requires initial.manifest.None? && n <= |events|
    ensures Truthful(rule, initial, events, n)
  {
    if n > 0 {
      ManifestStaysTruthful(rule, initial, events, n - 1);
      forall e | e in Run(rule, initial, events, n).Provenance().assets ensures Backed(rule, initial, events, n, e) {
        EntryStaysBacked(rule, initial, events, n, e);
      }
    }
  }

  lemma {:induction false} EntryStaysBacked(rule: PathRule, initial: RepoState, events: seq<Event>, n: nat,
                                            e: ProvenanceEntry)
    requires 0 < n <= |events| && Truthful(rule, initial, events, n - 1)
    requires e in Run(rule, initial, events, n).Provenance().assets
    ensures Backed(rule, initial, events, n, e)
  {
    var s := Run(rule, initial, events, n - 1);
    if events[n - 1].Deploy? && Accepts(rule, events[n - 1].catalog, s) {
      var assets := events[n - 1].catalog.assets;
      EntryOfNext(assets, s.Provenance().assets, e);
      if Distributed(assets, e.assetId).Some? {
        assert Vouched(rule, initial, events, n - 1, e.assetId, e.targetPath, e.checksum.tree);
      } else {
        var before := Prior(s.Provenance().assets, e.assetId).value;
        assert Backed(rule, initial, events, n - 1, before);
      }
    } else if events[n - 1].EditManifest? {
      assert Vouched(rule, initial, events, n - 1, e.assetId, e.targetPath, e.checksum.tree);
    } else {
      assert Backed(rule, initial, events, n - 1, e);
    }
  }

  /** The safety theorem over whole runs: what an apply replaces, an earlier apply wrote or an
      edited manifest vouches for; where nobody edits the manifest, an earlier apply wrote it. */
  lemma {:induction false} OnlyOwnBytesAreReplaced(rule: PathRule, initial: RepoState, events: seq<Event>, n: nat,
                                                   i: nat)
    requires initial.manifest.None? && n < |events| && events[n].Deploy?
    requires Accepts(rule, events[n].catalog, Run(rule, initial, events, n))
    requires i < |events[n].catalog.assets| && !events[n].catalog.assets[i].isGlobalPolicy
    ensures var asset := events[n].catalog.assets[i];
            var actual := Run(rule, initial, events, n).TargetAt(asset.targetPath);
            && !actual.unsafe
            && (actual.present && actual.files != asset.files ==>
                  exists k :: 0 <= k < n && Vouched(rule, initial, events, k, asset.id, asset.targetPath, actual.files))
    ensures Run(rule, initial, events, n + 1) == Deployed(events[n].catalog, Run(rule, initial, events, n))
  {
    var asset := events[n].catalog.assets[i];
    var s := Run(rule, initial, events, n);
    var actual := s.TargetAt(asset.targetPath);
    CleanIsSafe(rule, events[n].catalog, s);
    assert Replaceable(asset, actual, Prior(s.Provenance().assets, asset.id));
    ManifestStaysTruthful(rule, initial, events, n);
    if actual.present && actual.files != asset.files {
      assert Backed(rule, initial, events, n, Prior(s.Provenance().assets, asset.id).value);
    }
  }

  /** Content that somebody put at a target, and that no apply of the run wrote and no edited manifest
      claims, is never lost: every apply is refused as long as it is there, unless it is what the
      apply would write. */
  lemma {:induction false} ForeignContentBlocks(rule: PathRule, initial: RepoState, events: seq<Event>, n: nat, i: nat)
    requires initial.manifest.None? && n < |events| && events[n].Deploy?
    requires ValidCatalog(rule, events[n].catalog.assets)
    requires i < |events[n].catalog.assets| && !events[n].catalog.assets[i].isGlobalPolicy
    requires var asset := events[n].catalog.assets[i];
             var actual := Run(rule, initial, events, n).TargetAt(asset.targetPath);
             || actual.unsafe
             || (actual.present && actual.files != asset.files
                 && forall k | 0 <= k < n ::
                      !Vouched(rule, initial, events, k, asset.id, asset.targetPath, actual.files))
    ensures Run(rule, initial, events, n + 1) == Run(rule, initial, events, n)
  {
    DeployStep(rule, initial, events, n);
    if Accepts(rule, events[n].catalog, Run(rule, initial, events, n)) {
      OnlyOwnBytesAreReplaced(rule, initial, events, n, i);
      assert false;
    }
  }

  lemma DeployStep(rule: PathRule, initial: RepoState, events: seq<Event>, n: nat)
    requires n < |events| && events[n].Deploy?
    ensures var s := Run(rule, initial, events, n);
            Run(rule, initial, events, n + 1) == if Accepts(rule, events[n].catalog, s) then
                Deployed(events[n].catalog, s)
              else s
  {
  }

  /** Right after an apply, the same catalog is accepted again and changes nothing that counts:
      every asset is current and the manifest stays. */
  lemma ApplyingAgainIsCurrent(rule: PathRule, initial: RepoState, events: seq<Event>, n: nat)
    requires n < |events| && events[n].Deploy?
    requires Accepts(rule, events[n].catalog, Run(rule, initial, events, n))
    ensures var catalog, after := events[n].catalog, Run(rule, initial, events, n + 1);
            && Accepts(rule, catalog, after)
            && (forall c | c in ProposalOf(catalog, SnapshotOf(catalog.assets, after)).changes :: c.state == Current)
            && Deployed(catalog, after).manifest == after.manifest
  {
    DeployStep(rule, initial, events, n);
    AcceptedAgain(rule, events[n].catalog, Run(rule, initial, events, n));
  }

  lemma AcceptedAgain(rule: PathRule, catalog: Catalog, s: RepoState)
    requires Accepts(rule, catalog, s)
    ensures var after := Deployed(catalog, s);
            && Accepts(rule, catalog, after)
            && (forall c | c in ProposalOf(catalog, SnapshotOf(catalog.assets, after)).changes :: c.state == Current)
            && Deployed(catalog, after).manifest == after.manifest
  {
    CleanIsSafe(rule, catalog, s);
    ReplanAfterApply(rule, catalog, s);
  }
}
