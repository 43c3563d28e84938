/**
 The loops of `ReconcileHTTPManifests` (internal/architecturemanifest/reconcile.go), proved to plan
 what ManifestReconcile specifies, and the whole run: plan, then publish.
 */
module ManifestPlanner {
  import opened Wrappers
  import opened Ordering
  import opened ManifestPublish
  import opened ManifestReconcile
  import opened ManifestRelisting
  import opened ManifestConvergence
  import opened ManifestSecondRun

  // ---------- the loop over the listed manifests ----------

  /** What the loop has gathered from the first manifests. */
  datatype Scan = Scan(ids: set<string>, httpIds: set<string>, places: map<string, string>, removals: seq<PlannedFile>)

  ghost predicate ScanOk(yaml: Yaml, files: Files, view: View, service: Service, known: set<string>, n: nat)
    requires n <= |service.operations|
  {
    var listed := service.operations[..n];
    && Readable(view, service.id, listed) && DistinctIdentities(view, known, listed)
    && StaleAreRemovable(yaml, files, view, known, listed)
  }

  ghost predicate Scanned(files: Files, view: View, service: Service, known: set<string>, n: nat, s: Scan)
    requires n <= |service.operations|
  {
    var listed := service.operations[..n];
    && s.ids == Ids(view, listed) && s.httpIds == HttpIds(view, listed)
    && s.removals == Removals(files, view, known, service.operations, n)
    && (forall key :: key in s.places <==> key in known && key in HttpKeys(view, listed))
    && (forall key | key in s.places :: s.places[key] == FindKey(view, service.operations, key, n))
  }

  /** The checks on one manifest, given what was gathered before it. */
  predicate OneOk(yaml: Yaml, files: Files, view: View, serviceId: string, known: set<string>, s: Scan, r: string) {
    && view(r).Some? && view(r).value.serviceId == serviceId && IdAt(view, r) !in s.ids
    && (IsHttp(view, r) ==>
          && ENDPOINTS <= r
          && if KeyAt(view, r) in known then KeyAt(view, r) !in s.places else Removable(yaml, files, view(r).value, r))
  }

  function Gathered(files: Files, view: View, known: set<string>, s: Scan, r: string): Scan {
    if !IsHttp(view, r) then s.(ids := s.ids + {IdAt(view, r)})
    else if KeyAt(view, r) in known then
      s.(ids := s.ids + {IdAt(view, r)}, httpIds := s.httpIds + {IdAt(view, r)},
          places := s.places[KeyAt(view, r) := r])
    else
      s.(ids := s.ids + {IdAt(view, r)}, httpIds := s.httpIds + {IdAt(view, r)},
         removals := s.removals + (Removal(files, Full(r)) + Removal(files, DiagramOf(r))))
  }

  lemma OneMoreId(view: View, listed: seq<string>, n: nat)
    requires n < |listed|
    ensures Ids(view, listed[..n + 1]) == Ids(view, listed[..n]) + {IdAt(view, listed[n])}
    ensures HttpIds(view, listed[..n + 1]) == HttpIds(view, listed[..n]) + if IsHttp(view, listed[n]) then
                {IdAt(view, listed[n])}
              else {}
    ensures HttpKeys(view, listed[..n + 1]) == HttpKeys(view, listed[..n]) + if IsHttp(view, listed[n]) then
                {KeyAt(view, listed[n])}
              else {}
  {
    var longer, shorter := listed[..n + 1], listed[..n];
    assert longer == shorter + [listed[n]];
    forall x ensures x in Ids(view, longer) <==> x in Ids(view, shorter) || x == IdAt(view, listed[n]) {
      if i :| 0 <= i < n && IdAt(view, shorter[i]) == x { assert longer[i] == shorter[i]; }
      assert longer[n] == listed[n];
    }
    HttpOneMore(view, shorter, listed[n]);
  }

  lemma HttpOneMore(view: View, listed: seq<string>, r: string)
    ensures HttpIds(view, listed + [r]) == HttpIds(view, listed) + if IsHttp(view, r) then {IdAt(view, r)} else {}
    ensures HttpKeys(view, listed + [r]) == HttpKeys(view, listed) + if IsHttp(view, r) then {KeyAt(view, r)} else {}
  {
    var longer := listed + [r];
    assert longer[|listed|] == r;
    forall x | x in HttpIds(view, listed) ensures x in HttpIds(view, longer) {
      var i :| 0 <= i < |listed| && IsHttp(view, listed[i]) && IdAt(view, listed[i]) == x;
      assert longer[i] == listed[i];
    }
    forall x | x in HttpKeys(view, listed) ensures x in HttpKeys(view, longer) {
      var i :| 0 <= i < |listed| && IsHttp(view, listed[i]) && KeyAt(view, listed[i]) == x;
      assert longer[i] == listed[i];
    }
  }

  lemma ScanStep(yaml: Yaml, files: Files, view: View, service: Service, known: set<string>, n: nat, s: Scan)
    requires n < |service.operations| && ScanOk(yaml, files, view, service, known, n)
    requires Scanned(files, view, service, known, n, s)
    requires OneOk(yaml, files, view, service.id, known, s, service.operations[n])
    ensures Scanned(files, view, service, known, n + 1, Gathered(files, view, known, s, service.operations[n]))
  {
    OneMoreId(view, service.operations, n);
  }

  lemma ScanStaysOk(yaml: Yaml, files: Files, view: View, service: Service, known: set<string>, n: nat, s: Scan)
    requires n < |service.operations| && ScanOk(yaml, files, view, service, known, n)
    requires Scanned(files, view, service, known, n, s)
    ensures OneOk(yaml, files, view, service.id, known, s, service.operations[n]) <==>
                ScanOk(yaml, files, view, service, known, n + 1)
  {
    var longer, shorter, r := service.operations[..n + 1], service.operations[..n], service.operations[n];
    assert longer == shorter + [r];
    if OneOk(yaml, files, view, service.id, known, s, r) {
      forall i, j | 0 <= i < j < n + 1 ensures IdAt(view, longer[i]) != IdAt(view, longer[j]) {
        IdIsListed(view, shorter, longer[i]);
      }
      forall i, j | 0 <= i < j < n + 1 && IsHttp(view, longer[i]) && IsHttp(view, longer[j])
          && KeyAt(view, longer[i]) in known
        ensures KeyAt(view, longer[i]) != KeyAt(view, longer[j])
      {
        HttpKeyIsListed(view, shorter, longer[i]);
      }
    }
    if ScanOk(yaml, files, view, service, known, n + 1) {
      LastIsNew(view, service.id, known, longer, n);
      assert longer[n] == r && longer[..n] == shorter;
    }
  }

  lemma LastIsNew(view: View, serviceId: string, known: set<string>, listed: seq<string>, n: nat)
    requires n < |listed| && Readable(view, serviceId, listed) && DistinctIdentities(view, known, listed)
    ensures IdAt(view, listed[n]) !in Ids(view, listed[..n])
    ensures IsHttp(view, listed[n]) && KeyAt(view, listed[n]) in known ==>
                KeyAt(view, listed[n]) !in HttpKeys(view, listed[..n])
  {
    var fewer := listed[..n];
    assert forall i | 0 <= i < n :: fewer[i] == listed[i] && IdAt(view, fewer[i]) != IdAt(view, listed[n]);
    if IsHttp(view, listed[n]) && KeyAt(view, listed[n]) in known {
      forall i | 0 <= i < n && IsHttp(view, fewer[i]) ensures KeyAt(view, fewer[i]) != KeyAt(view, listed[n]) {
        assert fewer[i] == listed[i];
        if KeyAt(view, listed[i]) in known { assert KeyAt(view, listed[i]) != KeyAt(view, listed[n]); }
      }
    }
  }

  lemma ScanPrefix(yaml: Yaml, files: Files, view: View, service: Service, known: set<string>, n: nat)
    requires n <= |service.operations| && ScanOk(yaml, files, view, service, known, |service.operations|)
    ensures ScanOk(yaml, files, view, service, known, n)
  {
    var all, some := service.operations[..|service.operations|], service.operations[..n];
    assert forall i | 0 <= i < n :: some[i] == all[i];
  }

  method ScanListed(yaml: Yaml, files: Files, view: View, service: Service, known: set<string>)
    returns (r: Option<Scan>)
    ensures r.Some? <==> ScanOk(yaml, files, view, service, known, |service.operations|)
    ensures r.Some? ==> Scanned(files, view, service, known, |service.operations|, r.value)
  {
    var s := Scan({}, {}, map[], []);
    for n := 0 to |service.operations|
      invariant ScanOk(yaml, files, view, service, known, n) && Scanned(files, view, service, known, n, s)
    {
      ScanStaysOk(yaml, files, view, service, known, n, s);
      if !OneOk(yaml, files, view, service.id, known, s, service.operations[n]) {
        if ScanOk(yaml, files, view, service, known, |service.operations|) {
          ScanPrefix(yaml, files, view, service, known, n + 1);
        }
        return None;
      }
      ScanStep(yaml, files, view, service, known, n, s);
      s := Gathered(files, view, known, s, service.operations[n]);
    }
    r := Some(s);
  }

  // ---------- the loop over discovery ----------

  /** What becomes of one discovered identity. */
  datatype Built = Built(additions: seq<PlannedFile>, place: string, name: string)

  /** What the first loop found out, once it is through. */
  ghost predicate ScanComplete(view: View, service: Service, known: set<string>, s: Scan) {
    && s.ids == Ids(view, service.operations)
    && (forall key :: key in s.places <==> key in known && key in HttpKeys(view, service.operations))
    && (forall key | key in s.places :: s.places[key] == FindKey(view, service.operations, key, |service.operations|))
  }

  function AdditionsFor(yaml: Yaml, serviceId: string, present: set<string>, discovered: map<string, string>,
                        key: string): seq<PlannedFile>
    requires key in discovered
  {
    if key in present then [] else [AdditionOf(yaml, serviceId, discovered, key)]
  }

  method BuildOne(yaml: Yaml, files: Files, view: View, service: Service, discovered: map<string, string>, scan: Scan,
                  key: string)
    returns (r: Option<Built>)
    requires ScanComplete(view, service, discovered.Keys, scan) && key in discovered
    ensures r.Some? <==>
                key in HttpKeys(view, service.operations) || Addable(yaml, files, Ids(view, service.operations), key)
    ensures r.Some? ==>
                r.value == Built(AdditionsFor(yaml, service.id, HttpKeys(view, service.operations), discovered, key),
                                         PlaceOf(yaml.idOf, view, service.operations, key),
                                             NameOf(yaml.idOf, view, service.operations, key))
  {
    if key in scan.places {
      return Some(Built([], scan.places[key], IdAt(view, scan.places[key])));
    }
    var id := yaml.idOf(key);
    if id in scan.ids || !ValidId(id) || Full(ManifestOf(id)) in files || DiagramOf(ManifestOf(id)) in files {
      return None;
    }
    var manifest := Scaffold(yaml, service.id, key, discovered[key]);
    r := Some(Built([PlannedFile(Full(ManifestOf(id)), "", yaml.renderOperation(manifest), false, false)],
        ManifestOf(id), id));
  }

  lemma {:induction false} AdditionsOfMore(yaml: Yaml, serviceId: string, present: set<string>,
                                           discovered: map<string, string>, done: seq<string>, key: string)
    requires key in discovered && forall k | k in done :: k in discovered
    ensures (forall k | k in done + [key] :: k in discovered)
    ensures Additions(yaml, serviceId, present, discovered, done + [key])
         == Additions(yaml, serviceId, present, discovered, done)
             + AdditionsFor(yaml, serviceId, present, discovered, key)
  {
    var longer := done + [key];
    assert longer[..|longer| - 1] == done && longer[|longer| - 1] == key;
  }

  lemma PlacesOfMore(idOf: string -> string, view: View, listed: seq<string>, done: seq<string>, key: string)
    ensures Places(idOf, view, listed, done + [key])
                == Places(idOf, view, listed, done) + [PlaceOf(idOf, view, listed, key)]
    ensures Names(idOf, view, listed, done + [key])
                == Names(idOf, view, listed, done) + [NameOf(idOf, view, listed, key)]
  {
  }

  /** The check on identities without a manifest. */
  function AddableIn(yaml: Yaml, files: Files, ids: set<string>): string -> bool {
    (key: string) => Addable(yaml, files, ids, key)
  }

  ghost predicate AllAddable(addable: string -> bool, present: set<string>, keys: seq<string>) {
    forall k | 0 <= k < |keys| :: keys[k] in present || addable(keys[k])
  }

  lemma TakeOneMore(s: seq<string>, i: nat)
    requires i < |s|
    ensures s[..i + 1] == s[..i] + [s[i]]
  {
  }

  method BuildHttp(yaml: Yaml, files: Files, view: View, service: Service, discovered: map<string, string>, scan: Scan,
                   keys: seq<string>)
    returns (ok: bool, additions: seq<PlannedFile>, places: seq<string>, names: seq<string>)
    requires ScanComplete(view, service, discovered.Keys, scan)
    requires forall k | k in keys :: k in discovered
    ensures ok <==>
                AllAddable(AddableIn(yaml, files, Ids(view, service.operations)), HttpKeys(view, service.operations),
                keys)
    ensures ok ==> additions == Additions(yaml, service.id, HttpKeys(view, service.operations), discovered, keys)
                   && places == Places(yaml.idOf, view, service.operations, keys)
                   && names == Names(yaml.idOf, view, service.operations, keys)
  {
    var listed := service.operations;
    ghost var addable, present := AddableIn(yaml, files, Ids(view, listed)), HttpKeys(view, listed);
    ok, additions, places, names := true, [], [], [];
    ghost var done := [];
    for i := 0 to |keys|
      invariant done == keys[..i] && ok && AllAddable(addable, present, done)
      invariant forall k | k in done :: k in discovered
      invariant additions == Additions(yaml, service.id, present, discovered, done)
      invariant places == Places(yaml.idOf, view, listed, done) && names == Names(yaml.idOf, view, listed, done)
    {
      assert keys[i] in keys;
      var built := BuildOne(yaml, files, view, service, discovered, scan, keys[i]);
      if built.None? {
        NotAddable(addable, present, keys, i);
        return false, [], [], [];
      }
      AdditionsOfMore(yaml, service.id, present, discovered, done, keys[i]);
      PlacesOfMore(yaml.idOf, view, listed, done, keys[i]);
      AddableMore(addable, present, done, keys[i]);
      TakeOneMore(keys, i);
      additions, places, names := additions + built.value.additions, places + [built.value.place],
          names + [built.value.name];
      done := done + [keys[i]];
    }
    assert done == keys;
  }

  lemma NotAddable(addable: string -> bool, present: set<string>, keys: seq<string>, i: nat)
    requires i < |keys| && keys[i] !in present && !addable(keys[i])
    ensures !AllAddable(addable, present, keys)
  {
  }

  lemma AddableMore(addable: string -> bool, present: set<string>, done: seq<string>, key: string)
    requires AllAddable(addable, present, done) && (key in present || addable(key))
    ensures AllAddable(addable, present, done + [key])
  {
  }

  // ---------- the loop over the groups ----------

  method Regroup(groups: seq<Group>, http: set<string>, otherwise: Group) returns (kept: seq<Group>, selected: Group)
    ensures kept == KeptGroups(groups, http) && selected == HttpGroup(groups, http, otherwise)
  {
    kept, selected := [], otherwise;
    var found := false;
    for i := 0 to |groups|
      invariant kept == KeptGroups(groups[..i], http)
      invariant found ==> selected == HttpGroup(groups, http, otherwise)
      invariant !found ==>
                selected == otherwise && HttpGroup(groups, http, otherwise) == HttpGroup(groups[i..], http, otherwise)
    {
      assert groups[..i + 1][..i] == groups[..i];
      assert groups[i..][1..] == groups[i + 1..];
      var retained := RetainedOf(groups[i].operations, http);
      if retained == [] && groups[i].operations != [] {
        if !found {
          selected, found := groups[i], true;
        }
      } else {
        kept := kept + [groups[i].(operations := retained)];
      }
    }
    assert groups[..|groups|] == groups;
  }

  method RetainedOf(ids: seq<string>, http: set<string>) returns (retained: seq<string>)
    ensures retained == Retained(ids, http)
  {
    retained := [];
    for i := 0 to |ids|
      invariant retained == Retained(ids[..i], http)
    {
      assert ids[..i + 1][..i] == ids[..i];
      if ids[i] !in http {
        retained := retained + [ids[i]];
      }
    }
    assert ids[..|ids|] == ids;
  }

  method Others(view: View, listed: seq<string>) returns (r: seq<string>)
    ensures r == NonHttp(view, listed)
  {
    r := [];
    for i := 0 to |listed|
      invariant r == NonHttp(view, listed[..i])
    {
      assert listed[..i + 1][..i] == listed[..i];
      if !IsHttp(view, listed[i]) {
        r := r + [listed[i]];
      }
    }
    assert listed[..|listed|] == listed;
  }

  // ---------- planning ----------

  /** `ReconcileHTTPManifests` up to publication. */
  method PlanFiles(yaml: Yaml, files: Files, project: string, discovered: map<string, string>)
    returns (r: Option<seq<PlannedFile>>)
    ensures r.Some? <==> Admissible(yaml, files, project, discovered)
    ensures r.Some? ==> r.value == PlanOf(yaml, files, discovered)
  {
    if discovered == map[] || !HasService(yaml, files, project) {
      return None;
    }
    var service := yaml.parseService(files[SERVICE]).value;
    r := PlanService(yaml, files, service, discovered);
  }

  method PlanService(yaml: Yaml, files: Files, service: Service, discovered: map<string, string>)
    returns (r: Option<seq<PlannedFile>>)
    requires SERVICE in files
    ensures var view := ViewOf(yaml, files);
            r.Some? <==>
                Inspected(yaml, files, view, service, discovered) && NextIsValid(yaml, files, view, service, discovered)
    ensures r.Some? ==> r.value == PlanFor(yaml, files, ViewOf(yaml, files), service, discovered)
  {
    var view := ViewOf(yaml, files);
    assert service.operations[..|service.operations|] == service.operations;
    var scan := ScanListed(yaml, files, view, service, discovered.Keys);
    if scan.None? || !Tidy(files, service.operations) || !GroupsKnown(service.groups, scan.value.ids) {
      return None;
    }
    var listing := ListKeys(discovered.Keys);
    var keys := SortUnique(listing);
    var addable, additions, places, names := BuildHttp(yaml, files, view, service, discovered, scan.value, keys);
    KeysOfDiscovered(yaml, files, view, service.operations, discovered, keys);
    if !addable {
      return None;
    }
    var others := Others(view, service.operations);
    var paths, ids := Sort(others + places), Sort(names);
    var kept, selected := Regroup(service.groups, scan.value.httpIds, NewGroup(yaml, discovered));
    if !GroupIsApart(kept, selected.id) {
      return None;
    }
    var groups := kept + [selected.(operations := ids)];
    var written := yaml.rewrite(files[SERVICE], paths, groups);
    if !ValidService(service.(operations := paths, groups := groups)) || yaml.parseService(written).None? {
      return None;
    }
    r := Some(scan.value.removals + additions + ServiceChange(files[SERVICE], written));
  }

  lemma KeysOfDiscovered(yaml: Yaml, files: Files, view: View, listed: seq<string>, discovered: map<string, string>,
                         keys: seq<string>)
    requires forall k :: k in keys <==> k in discovered
    ensures AllAddable(AddableIn(yaml, files, Ids(view, listed)), HttpKeys(view, listed), keys)
        <==> forall key | key in discovered && key !in HttpKeys(view, listed) ::
            Addable(yaml, files, Ids(view, listed), key)
  {
    var addable, present := AddableIn(yaml, files, Ids(view, listed)), HttpKeys(view, listed);
    if AllAddable(addable, present, keys) {
      forall key | key in discovered && key !in present ensures addable(key) {
        var k :| 0 <= k < |keys| && keys[k] == key;
      }
    }
    if forall key | key in discovered && key !in HttpKeys(view, listed) ::
        Addable(yaml, files, Ids(view, listed), key) {
      forall k | 0 <= k < |keys| ensures keys[k] in present || addable(keys[k]) {
        assert keys[k] in keys;
      }
    }
  }

  ghost predicate NextIsValid(yaml: Yaml, files: Files, view: View, service: Service, discovered: map<string, string>)
    requires SERVICE in files
  {
    var next := NextService(yaml, view, service, discovered);
    ValidService(next) && yaml.parseService(yaml.rewrite(files[SERVICE], next.operations, next.groups)).Some?
  }

  // ---------- the whole run ----------

  /** Nothing fails and nobody else touches the repository. */
  ghost predicate Calm(world: nat -> Turn) {
    forall t: nat :: world(t).edits == map[] && !world(t).fault
  }

  lemma CalmIsQuiet(world: nat -> Turn, plan: seq<PlannedFile>, since: nat)
    requires Calm(world) && forall f | f in plan :: f.WellFormed()
    ensures (forall p: string :: Quiet(world, p)) && CalmSince(world, plan, since)
  {
  }

  /** `ReconcileHTTPManifests`: plan from the files as they are, then publish.  In a calm repository
      it succeeds exactly on admissible inputs, and then leaves what the plan says, which a second
      run would not change (SecondRunPlansNothing). */
  method Reconcile(yaml: Yaml, disk: Disk, project: string, discovered: map<string, string>) returns (ok: bool)
    requires yaml.Valid()
    modifies disk
    ensures !Admissible(yaml, old(disk.files), project, discovered) ==>
                !ok && disk.files == old(disk.files) && disk.log == old(disk.log)
    ensures Calm(disk.world) ==> (ok <==> Admissible(yaml, old(disk.files), project, discovered))
    ensures Calm(disk.world) && ok ==>
                forall p :: ContentOf(disk.files, p) == ContentOf(After(yaml, old(disk.files), discovered), p)
    ensures old(disk.log) <= disk.log
  {
    var plan := PlanFiles(yaml, disk.files, project, discovered);
    if plan.None? {
      return false;
    }
    PlanIsPublishable(yaml, disk.files, project, discovered);
    if Calm(disk.world) { CalmIsQuiet(disk.world, plan.value, disk.clock); }
    var outcome, since := disk.Apply(plan.value);
    if Calm(disk.world) { CalmIsQuiet(disk.world, plan.value, since); }
    ok := outcome.Published?;
  }
}
