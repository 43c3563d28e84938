/**
 Reconciliation converges in one run: what a successful plan leaves behind, and that a second run
 with the same discovery plans nothing.
 */
module ManifestConvergence {
  import opened Wrappers
  import opened Ordering
  import opened StableIdentity
  import opened ManifestPublish
  import opened ManifestReconcile
  import opened ManifestRelisting

  // ---------- paths never clash ----------

  lemma FullIsInjective(a: string, b: string)
    requires Full(a) == Full(b)
    ensures a == b
  {
    assert Full(a)[|ARCHITECTURE|..] == a && Full(b)[|ARCHITECTURE|..] == b;
  }

  /** The diagram of a generated id. */
  function DiagramPath(id: string): string {
    ARCHITECTURE + (ENDPOINTS + id + ".mmd")
  }

  lemma DiagramOfManifest(id: string)
    requires EndsInHex(id)
    ensures DiagramOf(ManifestOf(id)) == DiagramPath(id)
  {
    var stem := ENDPOINTS + id;
    assert ManifestOf(id)[|ManifestOf(id)| - 5..] == ".yaml" && ManifestOf(id)[..|ManifestOf(id)| - 5] == stem;
    assert stem[|stem| - 1] == id[|id| - 1];
    assert !EndsWith(stem, ".yml") by {
      if |stem| >= 4 { assert stem[|stem| - 4..][3] == stem[|stem| - 1]; }
    }
    assert DiagramOf(ManifestOf(id)) == ARCHITECTURE + stem + ".mmd";
  }

  lemma DiagramsAreApart(a: string, b: string)
    requires DiagramPath(a) == DiagramPath(b)
    ensures a == b
  {
    var n := |ARCHITECTURE| + |ENDPOINTS|;
    assert |a| == |b|;
    assert DiagramPath(a)[n..n + |a|] == a && DiagramPath(b)[n..n + |b|] == b;
  }

  /** Manifests and diagrams end differently. */
  lemma ManifestIsNoDiagram(a: string, b: string)
    ensures Full(ManifestOf(a)) != DiagramPath(b)
  {
    var m, d := Full(ManifestOf(a)), DiagramPath(b);
    assert m[|m| - 1] == 'l' && d[|d| - 1] == 'd';
  }

  /** No path below a directory is the service manifest. */
  lemma EndpointIsNoService(rest: string)
    ensures ARCHITECTURE + (ENDPOINTS + rest) != SERVICE
  {
    var p := ARCHITECTURE + (ENDPOINTS + rest);
    assert p[|ARCHITECTURE|] == 'e' && SERVICE[|ARCHITECTURE|] == 's';
  }

  lemma ManifestIsNoService(id: string)
    ensures Full(ManifestOf(id)) != SERVICE && DiagramPath(id) != SERVICE
  {
    assert ManifestOf(id) == ENDPOINTS + (id + ".yaml");
    EndpointIsNoService(id + ".yaml");
    assert ENDPOINTS + id + ".mmd" == ENDPOINTS + (id + ".mmd");
    EndpointIsNoService(id + ".mmd");
  }

  lemma VisibleIsTrimmed(s: string)
    requires s != "" && !IsSpace(s[0]) && !IsSpace(s[|s| - 1])
    ensures TrimSpace(s) == s
  {
  }

  /** A listed path is neither a diagram nor the service manifest. */
  lemma SafeIsNoDiagram(r: string, id: string)
    requires SafePath(r)
    ensures Full(r) != DiagramPath(id)
  {
    var d := ENDPOINTS + id + ".mmd";
    if r == d {
      assert d[0] == 'e' && d[|d| - 1] == 'd';
      VisibleIsTrimmed(d);
      NoYamlEnd(d);
    }
    if Full(r) == DiagramPath(id) { FullIsInjective(r, d); }
  }

  lemma NoYamlEnd(s: string)
    requires s != "" && s[|s| - 1] == 'd'
    ensures !EndsWith(s, ".yaml") && !EndsWith(s, ".yml")
  {
    if |s| >= 5 { assert s[|s| - 5..][4] == 'd'; }
    if |s| >= 4 { assert s[|s| - 4..][3] == 'd'; }
  }

  lemma SafeIsNoService(r: string)
    requires SafePath(r)
    ensures Full(r) != SERVICE
  {
    var s := "service.yaml";
    assert SERVICE == Full(s);
    OtherwiseUnsafe(s);
    if Full(r) == SERVICE { FullIsInjective(r, s); }
  }

  lemma OtherwiseUnsafe(s: string)
    requires s != "" && s[0] == 's' && !IsSpace(s[|s| - 1])
    ensures !SafePath(s)
  {
    VisibleIsTrimmed(s);
    assert ENDPOINTS[0] == 'e' && OPERATIONS[0] == 'o';
  }

  // ---------- the parts of a plan ----------

  /** What is planned and how the files are now. */
  ghost predicate Fits(files: Files, plan: seq<PlannedFile>) {
    forall i | 0 <= i < |plan| :: plan[i].Ready(files)
  }

  ghost predicate PathsWithin(plan: seq<PlannedFile>, allowed: string -> bool) {
    forall i | 0 <= i < |plan| :: allowed(plan[i].path)
  }

  lemma JoinPlans(files: Files, a: seq<PlannedFile>, b: seq<PlannedFile>, inA: string -> bool, inB: string -> bool)
    requires DistinctPaths(a) && DistinctPaths(b) && Fits(files, a) && Fits(files, b)
    requires PathsWithin(a, inA) && PathsWithin(b, inB) && forall p: string :: !(inA(p) && inB(p))
    ensures DistinctPaths(a + b) && Fits(files, a + b)
  {
    forall i, j | 0 <= i < j < |a + b| ensures (a + b)[i].path != (a + b)[j].path {
      if i < |a| <= j {
        assert inA(a[i].path) && inB(b[j - |a|].path);
      }
    }
  }

  /** The paths of a manifest that is removed. */
  predicate OfStale(path: string, id: string) {
    path == Full(ManifestOf(id)) || path == DiagramPath(id)
  }

  /** The id belongs to a stale manifest among the first `n`. */
  ghost predicate StaleId(view: View, known: set<string>, listed: seq<string>, n: nat, id: string)
    requires n <= |listed|
  {
    exists i :: 0 <= i < n && IsStale(view, known, listed[i]) && id == IdAt(view, listed[i])
  }

  /** Stale manifests are where their generated ids put them. */
  ghost predicate StaleInPlace(view: View, known: set<string>, listed: seq<string>) {
    forall i | 0 <= i < |listed| && IsStale(view, known, listed[i]) ::
      listed[i] == ManifestOf(IdAt(view, listed[i])) && EndsInHex(IdAt(view, listed[i]))
  }

  lemma {:induction false} RemovalPaths(files: Files, view: View, known: set<string>, listed: seq<string>, n: nat)
    requires n <= |listed| && StaleInPlace(view, known, listed) && NoDup(listed)
    ensures var plan := Removals(files, view, known, listed, n);
            && (forall k | 0 <= k < |plan| :: IsRemovalOf(files, view, known, listed, n, plan[k]))
            && DistinctPaths(plan)
  {
    if n > 0 {
      var r := listed[n - 1];
      var before, plan := Removals(files, view, known, listed, n - 1), Removals(files, view, known, listed, n);
      RemovalPaths(files, view, known, listed, n - 1);
      forall k | 0 <= k < |before| ensures IsRemovalOf(files, view, known, listed, n, before[k]) {
        assert IsRemovalOf(files, view, known, listed, n - 1, before[k]);
      }
      if IsStale(view, known, r) {
        DiagramOfManifest(IdAt(view, r));
        assert StaleId(view, known, listed, n, IdAt(view, r));
        OneMoreRemoval(files, view, known, listed, n, before);
      }
    }
  }

  ghost predicate IsRemovalOf(files: Files, view: View, known: set<string>, listed: seq<string>, n: nat, f: PlannedFile)
    requires n <= |listed|
  {
    && f.path in files && f == PlannedFile(f.path, files[f.path], "", true, true)
    && exists id :: StaleId(view, known, listed, n, id) && OfStale(f.path, id)
  }

  lemma OneMoreRemoval(files: Files, view: View, known: set<string>, listed: seq<string>, n: nat,
                       before: seq<PlannedFile>)
    requires 0 < n <= |listed| && StaleInPlace(view, known, listed) && NoDup(listed)
    requires IsStale(view, known, listed[n - 1])
    requires DistinctPaths(before)
    requires forall k | 0 <= k < |before| :: IsRemovalOf(files, view, known, listed, n - 1, before[k])
    ensures var id := IdAt(view, listed[n - 1]);
            DistinctPaths(before + (Removal(files, Full(ManifestOf(id))) + Removal(files, DiagramPath(id))))
  {
    var id := IdAt(view, listed[n - 1]);
    var more := Removal(files, Full(ManifestOf(id))) + Removal(files, DiagramPath(id));
    ManifestIsNoDiagram(id, id);
    forall k | 0 <= k < |before| ensures before[k].path != Full(ManifestOf(id)) && before[k].path != DiagramPath(id) {
      assert IsRemovalOf(files, view, known, listed, n - 1, before[k]);
      var other :| StaleId(view, known, listed, n - 1, other) && OfStale(before[k].path, other);
      StaleIdsDiffer(view, known, listed, n, other);
      OtherPathsDiffer(other, id);
    }
  }

  lemma StaleIdsDiffer(view: View, known: set<string>, listed: seq<string>, n: nat, other: string)
    requires 0 < n <= |listed| && StaleInPlace(view, known, listed) && NoDup(listed)
    requires IsStale(view, known, listed[n - 1])
    requires StaleId(view, known, listed, n - 1, other)
    ensures other != IdAt(view, listed[n - 1])
  {
    var i :| 0 <= i < n - 1 && IsStale(view, known, listed[i]) && other == IdAt(view, listed[i]);
    assert listed[i] != listed[n - 1];
  }

  lemma OtherPathsDiffer(a: string, b: string)
    requires a != b
    ensures forall p: string :: !(OfStale(p, a) && OfStale(p, b))
  {
    if Full(ManifestOf(a)) == Full(ManifestOf(b)) {
      FullIsInjective(ManifestOf(a), ManifestOf(b));
      ManifestIsInjective(a, b);
    }
    if DiagramPath(a) == DiagramPath(b) { DiagramsAreApart(a, b); }
    ManifestIsNoDiagram(a, b);
    ManifestIsNoDiagram(b, a);
  }

  ghost predicate Removes(plan: seq<PlannedFile>, path: string) {
    exists k :: 0 <= k < |plan| && plan[k].path == path && plan[k].remove
  }

  lemma RemovesMore(before: seq<PlannedFile>, more: seq<PlannedFile>, path: string)
    ensures Removes(before, path) || Removes(more, path) ==> Removes(before + more, path)
  {
    if k :| 0 <= k < |before| && before[k].path == path && before[k].remove {
      assert (before + more)[k] == before[k];
    }
    if k :| 0 <= k < |more| && more[k].path == path && more[k].remove {
      assert (before + more)[|before| + k] == more[k];
    }
  }

  /** Every stale manifest and its diagram, if any, are planned to be removed. */
  lemma {:induction false} StaleIsPlanned(files: Files, view: View, known: set<string>, listed: seq<string>, n: nat,
                                          i: nat)
    requires i < n <= |listed| && IsStale(view, known, listed[i])
    ensures Full(listed[i]) in files ==> Removes(Removals(files, view, known, listed, n), Full(listed[i]))
    ensures DiagramOf(listed[i]) in files ==> Removes(Removals(files, view, known, listed, n), DiagramOf(listed[i]))
  {
    var before, r := Removals(files, view, known, listed, n - 1), listed[n - 1];
    if i < n - 1 {
      StaleIsPlanned(files, view, known, listed, n - 1, i);
      var more := if IsStale(view, known, r) then Removal(files, Full(r)) + Removal(files, DiagramOf(r)) else [];
      RemovesMore(before, more, Full(listed[i]));
      RemovesMore(before, more, DiagramOf(listed[i]));
    } else {
      RemovalRemoves(files, Full(r));
      RemovalRemoves(files, DiagramOf(r));
      RemovesMore(Removal(files, Full(r)), Removal(files, DiagramOf(r)), Full(r));
      RemovesMore(Removal(files, Full(r)), Removal(files, DiagramOf(r)), DiagramOf(r));
      RemovesMore(before, Removal(files, Full(r)) + Removal(files, DiagramOf(r)), Full(r));
      RemovesMore(before, Removal(files, Full(r)) + Removal(files, DiagramOf(r)), DiagramOf(r));
    }
  }

  lemma RemovalRemoves(files: Files, path: string)
    ensures path in files ==> Removes(Removal(files, path), path)
  {
    if path in files { assert Removal(files, path)[0].path == path; }
  }

  // ---------- additions ----------

  ghost predicate IsAdditionOf(yaml: Yaml, serviceId: string, present: set<string>, discovered: map<string, string>,
                               keys: seq<string>, f: PlannedFile)
  {
    exists key ::
        key in keys && key in discovered && key !in present && f == AdditionOf(yaml, serviceId, discovered, key)
  }

  function AdditionOf(yaml: Yaml, serviceId: string, discovered: map<string, string>, key: string): PlannedFile
    requires key in discovered
  {
    PlannedFile(Full(ManifestOf(yaml.idOf(key))), "",
        yaml.renderOperation(Scaffold(yaml, serviceId, key, discovered[key])), false, false)
  }

  /** Identities without a manifest get different ids. */
  ghost predicate NewIdsDiffer(idOf: string -> string, present: set<string>, keys: seq<string>) {
    forall i, j | 0 <= i < j < |keys| && keys[i] !in present && keys[j] !in present :: idOf(keys[i]) != idOf(keys[j])
  }

  lemma {:induction false} AdditionsAre(yaml: Yaml, serviceId: string, present: set<string>,
                                        discovered: map<string, string>, keys: seq<string>)
    requires forall k | k in keys :: k in discovered
    ensures var plan := Additions(yaml, serviceId, present, discovered, keys);
            && (forall k | 0 <= k < |plan| :: IsAdditionOf(yaml, serviceId, present, discovered, keys, plan[k]))
            && (forall key | key in keys && key !in present :: AdditionOf(yaml, serviceId, discovered, key) in plan)
  {
    if keys != [] {
      var fewer, key := keys[..|keys| - 1], keys[|keys| - 1];
      assert keys == fewer + [key];
      assert forall k | k in fewer :: k in keys;
      AdditionsAre(yaml, serviceId, present, discovered, fewer);
      var before := Additions(yaml, serviceId, present, discovered, fewer);
      forall k | 0 <= k < |before| ensures IsAdditionOf(yaml, serviceId, present, discovered, keys, before[k]) {
        assert IsAdditionOf(yaml, serviceId, present, discovered, fewer, before[k]);
      }
    }
  }

  lemma {:induction false} AdditionsDiffer(yaml: Yaml, serviceId: string, present: set<string>,
                                           discovered: map<string, string>, keys: seq<string>)
    requires (forall k | k in keys :: k in discovered) && NewIdsDiffer(yaml.idOf, present, keys)
    ensures DistinctPaths(Additions(yaml, serviceId, present, discovered, keys))
  {
    if keys != [] {
      var fewer, key := keys[..|keys| - 1], keys[|keys| - 1];
      assert keys == fewer + [key];
      assert forall k | k in fewer :: k in keys;
      AdditionsDiffer(yaml, serviceId, present, discovered, fewer);
      AdditionsAre(yaml, serviceId, present, discovered, fewer);
      var before := Additions(yaml, serviceId, present, discovered, fewer);
      if key !in present {
        forall k | 0 <= k < |before| ensures before[k].path != AdditionOf(yaml, serviceId, discovered, key).path {
          assert IsAdditionOf(yaml, serviceId, present, discovered, fewer, before[k]);
          NewPathDiffers(yaml, serviceId, present, discovered, keys, before[k]);
        }
      }
    }
  }

  lemma NewPathDiffers(yaml: Yaml, serviceId: string, present: set<string>, discovered: map<string, string>,
                       keys: seq<string>, f: PlannedFile)
    requires (forall k | k in keys :: k in discovered) && NewIdsDiffer(yaml.idOf, present, keys)
    requires keys != [] && keys[|keys| - 1] !in present
    requires IsAdditionOf(yaml, serviceId, present, discovered, keys[..|keys| - 1], f)
    ensures f.path != Full(ManifestOf(yaml.idOf(keys[|keys| - 1])))
  {
    var fewer, last := keys[..|keys| - 1], |keys| - 1;
    var other :|
        other in fewer && other in discovered && other !in present
            && f == AdditionOf(yaml, serviceId, discovered, other);
    var i :| 0 <= i < |fewer| && fewer[i] == other;
    assert keys[i] !in present && keys[last] !in present;
    if Full(ManifestOf(yaml.idOf(other))) == Full(ManifestOf(yaml.idOf(keys[last]))) {
      FullIsInjective(ManifestOf(yaml.idOf(other)), ManifestOf(yaml.idOf(keys[last])));
      ManifestIsInjective(yaml.idOf(other), yaml.idOf(keys[last]));
    }
  }

  // ---------- the whole plan ----------

  /** The parsed state before a run, under names. */
  function ServiceIn(yaml: Yaml, files: Files): Service
    requires SERVICE in files && yaml.parseService(files[SERVICE]).Some?
  {
    yaml.parseService(files[SERVICE]).value
  }

  /** What the laws below start from. */
  ghost predicate Accepted(yaml: Yaml, files: Files, project: string, discovered: map<string, string>) {
    yaml.Valid() && Admissible(yaml, files, project, discovered)
  }

  lemma StaleAreInPlace(yaml: Yaml, files: Files, view: View, known: set<string>, listed: seq<string>)
    requires yaml.Valid() && StaleAreRemovable(yaml, files, view, known, listed)
    ensures StaleInPlace(view, known, listed)
  {
    forall i | 0 <= i < |listed| && IsStale(view, known, listed[i])
      ensures listed[i] == ManifestOf(IdAt(view, listed[i])) && EndsInHex(IdAt(view, listed[i]))
    {
      assert Removable(yaml, files, view(listed[i]).value, listed[i]);
    }
  }

  /** A valid next listing means that new identities got different ids. */
  lemma {:induction false} NewIdsAreDifferent(idOf: string -> string, view: View, listed: seq<string>,
                                              keys: seq<string>)
    requires NoDup(Sort(NonHttp(view, listed) + Places(idOf, view, listed, keys)))
    ensures NewIdsDiffer(idOf, HttpKeys(view, listed), keys)
    ensures NoDup(NonHttp(view, listed) + Places(idOf, view, listed, keys))
  {
    var others, places := NonHttp(view, listed), Places(idOf, view, listed, keys);
    NoDupOfPermutation(others + places, Sort(others + places));
    NoDupOfTail(others, places);
    PlacesDiffer(idOf, view, listed, keys);
  }

  lemma NoDupOfTail(a: seq<string>, b: seq<string>)
    requires NoDup(a + b)
    ensures NoDup(b)
  {
    forall i, j | 0 <= i < j < |b| ensures b[i] != b[j] {
      assert (a + b)[|a| + i] == b[i] && (a + b)[|a| + j] == b[j];
    }
  }

  lemma PlacesDiffer(idOf: string -> string, view: View, listed: seq<string>, keys: seq<string>)
    requires NoDup(Places(idOf, view, listed, keys))
    ensures NewIdsDiffer(idOf, HttpKeys(view, listed), keys)
  {
    var places := Places(idOf, view, listed, keys);
    forall i, j | 0 <= i < j < |keys| && keys[i] !in HttpKeys(view, listed) && keys[j] !in HttpKeys(view, listed)
      ensures idOf(keys[i]) != idOf(keys[j])
    {
      assert places[i] != places[j];
    }
  }

  /** The three kinds of paths in a plan. */
  ghost predicate RemovedPath(view: View, known: set<string>, listed: seq<string>, path: string) {
    exists id :: StaleId(view, known, listed, |listed|, id) && OfStale(path, id)
  }

  ghost predicate AddedPath(idOf: string -> string, view: View, listed: seq<string>, known: set<string>, path: string) {
    exists key :: IsAbsent(view, listed, known, key) && path == Full(ManifestOf(idOf(key)))
  }

  /** Added paths are where nothing is, so they are not those of stale manifests. */
  lemma AddedAreNotRemoved(yaml: Yaml, files: Files, view: View, service: Service, discovered: map<string, string>,
                           path: string)
    requires yaml.Valid() && Inspected(yaml, files, view, service, discovered)
    requires AddedPath(yaml.idOf, view, service.operations, discovered.Keys, path)
    ensures !RemovedPath(view, discovered.Keys, service.operations, path) && path != SERVICE
  {
    var listed, known := service.operations, discovered.Keys;
    var key :| IsAbsent(view, listed, known, key) && path == Full(ManifestOf(yaml.idOf(key)));
    assert Addable(yaml, files, Ids(view, listed), key);
    ManifestIsNoService(yaml.idOf(key));
    forall id | StaleId(view, known, listed, |listed|, id) ensures !OfStale(path, id) {
      var i :| 0 <= i < |listed| && IsStale(view, known, listed[i]) && id == IdAt(view, listed[i]);
      IdIsListed(view, listed, listed[i]);
      assert yaml.idOf(key) != id;
      ManifestIsNoDiagram(yaml.idOf(key), id);
      if Full(ManifestOf(yaml.idOf(key))) == Full(ManifestOf(id)) {
        FullIsInjective(ManifestOf(yaml.idOf(key)), ManifestOf(id));
        ManifestIsInjective(yaml.idOf(key), id);
      }
    }
  }

  lemma RemovedIsNoService(view: View, known: set<string>, listed: seq<string>, path: string)
    requires RemovedPath(view, known, listed, path)
    ensures path != SERVICE
  {
    var id :| StaleId(view, known, listed, |listed|, id) && OfStale(path, id);
    ManifestIsNoService(id);
  }

  lemma {:induction false} RemovalsFit(files: Files, view: View, known: set<string>, listed: seq<string>)
    requires StaleInPlace(view, known, listed) && NoDup(listed)
    ensures var plan := Removals(files, view, known, listed, |listed|);
            DistinctPaths(plan) && Fits(files, plan) && forall k | 0 <= k < |plan| ::
                RemovedPath(view, known, listed, plan[k].path)
  {
    RemovalPaths(files, view, known, listed, |listed|);
    var plan := Removals(files, view, known, listed, |listed|);
    forall k | 0 <= k < |plan| ensures plan[k].Ready(files) && RemovedPath(view, known, listed, plan[k].path) {
      assert IsRemovalOf(files, view, known, listed, |listed|, plan[k]);
    }
  }

  lemma {:induction false} AdditionsFit(yaml: Yaml, files: Files, view: View, service: Service,
                                        discovered: map<string, string>)
    requires Inspected(yaml, files, view, service, discovered)
    requires NewIdsDiffer(yaml.idOf, HttpKeys(view, service.operations), SortedKeys(discovered.Keys))
    ensures var plan :=
                Additions(yaml, service.id, HttpKeys(view, service.operations), discovered,
                          SortedKeys(discovered.Keys));
            && DistinctPaths(plan) && Fits(files, plan)
            && forall k | 0 <= k < |plan| ::
                 AddedPath(yaml.idOf, view, service.operations, discovered.Keys, plan[k].path)
  {
    var keys, present := SortedKeys(discovered.Keys), HttpKeys(view, service.operations);
    var plan := Additions(yaml, service.id, present, discovered, keys);
    AdditionsAre(yaml, service.id, present, discovered, keys);
    AdditionsDiffer(yaml, service.id, present, discovered, keys);
    forall k | 0 <= k < |plan|
      ensures plan[k].Ready(files) && AddedPath(yaml.idOf, view, service.operations, discovered.Keys, plan[k].path)
    {
      assert IsAdditionOf(yaml, service.id, present, discovered, keys, plan[k]);
      var key :|
          key in keys && key in discovered && key !in present
              && plan[k] == AdditionOf(yaml, service.id, discovered, key);
      assert Addable(yaml, files, Ids(view, service.operations), key);
      assert IsAbsent(view, service.operations, discovered.Keys, key);
    }
  }

  /** What the checks of a run say about the two listings. */
  lemma ListingsAreGood(yaml: Yaml, files: Files, project: string, discovered: map<string, string>)
    requires Accepted(yaml, files, project, discovered)
    ensures var service, view := ServiceIn(yaml, files), ViewOf(yaml, files);
            && Inspected(yaml, files, view, service, discovered)
            && ValidService(service) && ValidService(NextService(yaml, view, service, discovered))
  {
  }

  lemma ValidIsNoDup(service: Service)
    requires ValidService(service)
    ensures NoDup(service.operations)
  {
  }

  lemma PartsFit(yaml: Yaml, files: Files, view: View, service: Service, discovered: map<string, string>)
    requires yaml.Valid() && SERVICE in files && Inspected(yaml, files, view, service, discovered)
    requires ValidService(service) && ValidService(NextService(yaml, view, service, discovered))
    ensures Publishable(files, PlanFor(yaml, files, view, service, discovered))
  {
    var next := NextService(yaml, view, service, discovered);
    ValidIsNoDup(service);
    ValidIsNoDup(next);
    StaleAreInPlace(yaml, files, view, discovered.Keys, service.operations);
    NewIdsAreDifferent(yaml.idOf, view, service.operations, SortedKeys(discovered.Keys));
    PartsFitTogether(yaml, files, view, service, discovered,
                     ServiceChange(files[SERVICE], yaml.rewrite(files[SERVICE], next.operations, next.groups)));
  }

  lemma {:induction false} PartsFitTogether(yaml: Yaml, files: Files, view: View, service: Service,
                                            discovered: map<string, string>, change: seq<PlannedFile>)
    requires yaml.Valid() && Inspected(yaml, files, view, service, discovered)
    requires StaleInPlace(view, discovered.Keys, service.operations) && NoDup(service.operations)
    requires NewIdsDiffer(yaml.idOf, HttpKeys(view, service.operations), SortedKeys(discovered.Keys))
    requires DistinctPaths(change) && Fits(files, change) && forall k | 0 <= k < |change| :: change[k].path == SERVICE
    ensures Publishable(files, Removals(files, view, discovered.Keys, service.operations, |service.operations|)
                               + Additions(yaml, service.id, HttpKeys(view, service.operations), discovered,
                                   SortedKeys(discovered.Keys)) + change)
  {
    RemovalsFit(files, view, discovered.Keys, service.operations);
    AdditionsFit(yaml, files, view, service, discovered);
    ThreePartsFit(yaml, files, view, service, discovered,
        Removals(files, view, discovered.Keys, service.operations, |service.operations|),
                  Additions(yaml, service.id, HttpKeys(view, service.operations), discovered,
                      SortedKeys(discovered.Keys)), change);
  }

  /** A successful plan names each path once and describes the files as they are, so publishing it
      starts from a state that ManifestPublish accepts. */
  lemma PlanIsPublishable(yaml: Yaml, files: Files, project: string, discovered: map<string, string>)
    requires Accepted(yaml, files, project, discovered)
    ensures Publishable(files, PlanOf(yaml, files, discovered))
  {
    ListingsAreGood(yaml, files, project, discovered);
    PartsFit(yaml, files, ViewOf(yaml, files), ServiceIn(yaml, files), discovered);
  }

  lemma ThreePartsFit(yaml: Yaml, files: Files, view: View, service: Service, discovered: map<string, string>,
                      removals: seq<PlannedFile>, additions: seq<PlannedFile>, change: seq<PlannedFile>)
    requires yaml.Valid() && Inspected(yaml, files, view, service, discovered)
    requires DistinctPaths(removals) && Fits(files, removals)
    requires forall k | 0 <= k < |removals| :: RemovedPath(view, discovered.Keys, service.operations, removals[k].path)
    requires DistinctPaths(additions) && Fits(files, additions)
    requires forall k | 0 <= k < |additions| ::
                 AddedPath(yaml.idOf, view, service.operations, discovered.Keys, additions[k].path)
    requires DistinctPaths(change) && Fits(files, change) && forall k | 0 <= k < |change| :: change[k].path == SERVICE
    ensures Publishable(files, removals + additions + change)
  {
    var inR := (p: string) => RemovedPath(view, discovered.Keys, service.operations, p);
    var inA := (p: string) => AddedPath(yaml.idOf, view, service.operations, discovered.Keys, p);
    var inRA := (p: string) => inR(p) || inA(p);
    var inS := (p: string) => p == SERVICE;
    forall p: string ensures !(inR(p) && inA(p)) && !(inRA(p) && inS(p)) {
      if inA(p) { AddedAreNotRemoved(yaml, files, view, service, discovered, p); }
      if inR(p) { RemovedIsNoService(view, discovered.Keys, service.operations, p); }
    }
    JoinPlans(files, removals, additions, inR, inA);
    JoinedPaths(removals, additions, inR, inA);
    JoinPlans(files, removals + additions, change, inRA, inS);
    FitsEach(files, removals + additions + change);
  }

  lemma JoinedPaths(a: seq<PlannedFile>, b: seq<PlannedFile>, inA: string -> bool, inB: string -> bool)
    requires PathsWithin(a, inA) && PathsWithin(b, inB)
    ensures PathsWithin(a + b, (p: string) => inA(p) || inB(p))
  {
  }

  lemma FitsEach(files: Files, plan: seq<PlannedFile>)
    requires DistinctPaths(plan) && Fits(files, plan)
    ensures Publishable(files, plan)
  {
  }

  // ---------- the files after the run ----------

  /** What the repository holds after every planned file is published. */
  ghost predicate Landed(yaml: Yaml, files: Files, after: Files, view: View, service: Service,
                         discovered: map<string, string>)
  {
    && (forall p | RemovedPath(view, discovered.Keys, service.operations, p) :: p !in after)
    && (forall key | IsAbsent(view, service.operations, discovered.Keys, key) ::
          ContentOf(after, Full(ManifestOf(yaml.idOf(key))))
              == Some(yaml.renderOperation(Scaffold(yaml, service.id, key, discovered[key]))))
    && (forall p | !RemovedPath(view, discovered.Keys, service.operations, p)
                   && !AddedPath(yaml.idOf, view, service.operations, discovered.Keys, p) && p != SERVICE ::
          ContentOf(after, p) == ContentOf(files, p))
  }

  lemma {:induction false} PlannedContent(files: Files, plan: seq<PlannedFile>, i: nat)
    requires Publishable(files, plan) && i < |plan|
    ensures ContentOf(Progress(files, plan, |plan|), plan[i].path) == plan[i].After()
  {
    PublishedPlanHolds(files, plan, |plan|);
  }

  lemma {:induction false} UnplannedContent(files: Files, plan: seq<PlannedFile>, p: string)
    requires Publishable(files, plan) && forall i | 0 <= i < |plan| :: plan[i].path != p
    ensures ContentOf(Progress(files, plan, |plan|), p) == ContentOf(files, p)
  {
    PublishedPlanHolds(files, plan, |plan|);
  }

  lemma {:induction false} RemovesLands(files: Files, plan: seq<PlannedFile>, p: string)
    requires Publishable(files, plan) && (p in files ==> Removes(plan, p))
    requires p !in files ==> forall i | 0 <= i < |plan| :: plan[i].path != p
    ensures p !in Progress(files, plan, |plan|)
  {
    if p in files {
      var k :| 0 <= k < |plan| && plan[k].path == p && plan[k].remove;
      PlannedContent(files, plan, k);
    } else {
      UnplannedContent(files, plan, p);
    }
  }

  /** Where the entries of a plan point. */
  ghost predicate PlannedPath(yaml: Yaml, files: Files, view: View, service: Service, known: set<string>, p: string) {
    || (RemovedPath(view, known, service.operations, p) && p in files)
    || AddedPath(yaml.idOf, view, service.operations, known, p)
    || p == SERVICE
  }

  /** The two parts of a plan that are not the service manifest. */
  ghost function Parts(yaml: Yaml, files: Files, view: View, service: Service,
                       discovered: map<string, string>): seq<PlannedFile>
  {
    Removals(files, view, discovered.Keys, service.operations, |service.operations|)
    + Additions(yaml, service.id, HttpKeys(view, service.operations), discovered, SortedKeys(discovered.Keys))
  }

  lemma PartsPoint(yaml: Yaml, files: Files, view: View, service: Service, discovered: map<string, string>,
                   change: seq<PlannedFile>)
    requires StaleInPlace(view, discovered.Keys, service.operations) && NoDup(service.operations)
    requires forall k | 0 <= k < |change| :: change[k].path == SERVICE
    ensures var plan := Parts(yaml, files, view, service, discovered) + change;
            forall k | 0 <= k < |plan| :: PlannedPath(yaml, files, view, service, discovered.Keys, plan[k].path)
  {
    var known, keys, present := discovered.Keys, SortedKeys(discovered.Keys), HttpKeys(view, service.operations);
    var removals := Removals(files, view, known, service.operations, |service.operations|);
    var additions := Additions(yaml, service.id, present, discovered, keys);
    RemovalPaths(files, view, known, service.operations, |service.operations|);
    AdditionsAre(yaml, service.id, present, discovered, keys);
    forall k | 0 <= k < |removals| ensures PlannedPath(yaml, files, view, service, known, removals[k].path) {
      assert IsRemovalOf(files, view, known, service.operations, |service.operations|, removals[k]);
    }
    forall k | 0 <= k < |additions| ensures PlannedPath(yaml, files, view, service, known, additions[k].path) {
      assert IsAdditionOf(yaml, service.id, present, discovered, keys, additions[k]);
      var key :|
          key in keys && key in discovered && key !in present
              && additions[k] == AdditionOf(yaml, service.id, discovered, key);
      assert IsAbsent(view, service.operations, known, key);
    }
  }

  lemma StaleIsRemoved(yaml: Yaml, files: Files, view: View, service: Service, discovered: map<string, string>,
                       change: seq<PlannedFile>, p: string)
    requires StaleInPlace(view, discovered.Keys, service.operations)
    requires RemovedPath(view, discovered.Keys, service.operations, p) && p in files
    ensures Removes(Parts(yaml, files, view, service, discovered) + change, p)
  {
    var known, listed := discovered.Keys, service.operations;
    var additions := Additions(yaml, service.id, HttpKeys(view, listed), discovered, SortedKeys(known));
    var removals := Removals(files, view, known, listed, |listed|);
    var id :| StaleId(view, known, listed, |listed|, id) && OfStale(p, id);
    var i :| 0 <= i < |listed| && IsStale(view, known, listed[i]) && id == IdAt(view, listed[i]);
    DiagramOfManifest(id);
    StaleIsPlanned(files, view, known, listed, |listed|, i);
    RemovesMore(removals, additions, p);
    RemovesMore(removals + additions, change, p);
  }

  lemma AbsentIsAdded(yaml: Yaml, files: Files, view: View, service: Service, discovered: map<string, string>,
                      change: seq<PlannedFile>, key: string)
    returns (k: nat)
    requires IsAbsent(view, service.operations, discovered.Keys, key)
    ensures var plan := Parts(yaml, files, view, service, discovered) + change;
            k < |plan| && plan[k] == AdditionOf(yaml, service.id, discovered, key)
  {
    var keys, present := SortedKeys(discovered.Keys), HttpKeys(view, service.operations);
    var removals := Removals(files, view, discovered.Keys, service.operations, |service.operations|);
    var additions := Additions(yaml, service.id, present, discovered, keys);
    AdditionsAre(yaml, service.id, present, discovered, keys);
    k := MiddleIndex(removals, additions, change, AdditionOf(yaml, service.id, discovered, key));
  }

  lemma MiddleIndex(a: seq<PlannedFile>, b: seq<PlannedFile>, c: seq<PlannedFile>, f: PlannedFile) returns (k: nat)
    requires f in b
    ensures k < |a + b + c| && (a + b + c)[k] == f
  {
    var j :| 0 <= j < |b| && b[j] == f;
    k := |a| + j;
  }

  /** Publishing the plan leaves exactly what it says. */
  lemma {:induction false} PlanLands(yaml: Yaml, files: Files, view: View, service: Service,
                                     discovered: map<string, string>, change: seq<PlannedFile>)
    requires yaml.Valid() && SERVICE in files && Inspected(yaml, files, view, service, discovered)
    requires StaleInPlace(view, discovered.Keys, service.operations) && NoDup(service.operations)
    requires forall k | 0 <= k < |change| :: change[k].path == SERVICE
    requires Publishable(files, Parts(yaml, files, view, service, discovered) + change)
    ensures var plan := Parts(yaml, files, view, service, discovered) + change;
            Landed(yaml, files, Progress(files, plan, |plan|), view, service, discovered)
  {
    var plan := Parts(yaml, files, view, service, discovered) + change;
    var after := Progress(files, plan, |plan|);
    PartsPoint(yaml, files, view, service, discovered, change);
    forall p | RemovedPath(view, discovered.Keys, service.operations, p) ensures p !in after {
      if p in files { StaleIsRemoved(yaml, files, view, service, discovered, change, p); }
      RemovedIsNoService(view, discovered.Keys, service.operations, p);
      if AddedPath(yaml.idOf, view, service.operations, discovered.Keys, p) {
        AddedAreNotRemoved(yaml, files, view, service, discovered, p);
      }
      RemovesLands(files, plan, p);
    }
    forall key | IsAbsent(view, service.operations, discovered.Keys, key)
      ensures ContentOf(after, Full(ManifestOf(yaml.idOf(key))))
                  == Some(yaml.renderOperation(Scaffold(yaml, service.id, key, discovered[key])))
    {
      var k := AbsentIsAdded(yaml, files, view, service, discovered, change, key);
      PlannedContent(files, plan, k);
    }
    forall p | !RemovedPath(view, discovered.Keys, service.operations, p)
               && !AddedPath(yaml.idOf, view, service.operations, discovered.Keys, p) && p != SERVICE
      ensures ContentOf(after, p) == ContentOf(files, p)
    {
      UnplannedContent(files, plan, p);
    }
  }

  lemma {:induction false} ServiceLands(yaml: Yaml, files: Files, view: View, service: Service,
                                        discovered: map<string, string>)
    requires yaml.Valid() && SERVICE in files && Inspected(yaml, files, view, service, discovered)
    requires StaleInPlace(view, discovered.Keys, service.operations) && NoDup(service.operations)
    requires Publishable(files, PlanFor(yaml, files, view, service, discovered))
    ensures var plan, next := PlanFor(yaml, files, view, service, discovered),
                NextService(yaml, view, service, discovered);
            ContentOf(Progress(files, plan, |plan|), SERVICE)
                == Some(yaml.rewrite(files[SERVICE], next.operations, next.groups))
  {
    var next := NextService(yaml, view, service, discovered);
    PartsAvoidService(yaml, files, view, service, discovered);
    WrittenLands(files, Parts(yaml, files, view, service, discovered),
                 yaml.rewrite(files[SERVICE], next.operations, next.groups));
  }

  lemma {:induction false} WrittenLands(files: Files, parts: seq<PlannedFile>, written: Bytes)
    requires SERVICE in files && Publishable(files, parts + ServiceChange(files[SERVICE], written))
    requires forall k | 0 <= k < |parts| :: parts[k].path != SERVICE
    ensures var plan := parts + ServiceChange(files[SERVICE], written);
            ContentOf(Progress(files, plan, |plan|), SERVICE) == Some(written)
  {
    var plan := parts + ServiceChange(files[SERVICE], written);
    if files[SERVICE] == written {
      UnplannedContent(files, plan, SERVICE);
    } else {
      assert plan[|parts|].path == SERVICE;
      PlannedContent(files, plan, |parts|);
    }
  }

  lemma PartsAvoidService(yaml: Yaml, files: Files, view: View, service: Service, discovered: map<string, string>)
    requires yaml.Valid() && Inspected(yaml, files, view, service, discovered)
    requires StaleInPlace(view, discovered.Keys, service.operations) && NoDup(service.operations)
    ensures forall k | 0 <= k < |Parts(yaml, files, view, service, discovered)| ::
                Parts(yaml, files, view, service, discovered)[k].path != SERVICE
  {
    var known, keys, present := discovered.Keys, SortedKeys(discovered.Keys), HttpKeys(view, service.operations);
    var removals := Removals(files, view, known, service.operations, |service.operations|);
    var additions := Additions(yaml, service.id, present, discovered, keys);
    RemovalPaths(files, view, known, service.operations, |service.operations|);
    AdditionsAre(yaml, service.id, present, discovered, keys);
    forall k | 0 <= k < |removals| ensures removals[k].path != SERVICE {
      assert IsRemovalOf(files, view, known, service.operations, |service.operations|, removals[k]);
      RemovedIsNoService(view, known, service.operations, removals[k].path);
    }
    forall k | 0 <= k < |additions| ensures additions[k].path != SERVICE {
      assert IsAdditionOf(yaml, service.id, present, discovered, keys, additions[k]);
      var key :|
          key in keys && key in discovered && key !in present
              && additions[k] == AdditionOf(yaml, service.id, discovered, key);
      ManifestIsNoService(yaml.idOf(key));
    }
  }
}
