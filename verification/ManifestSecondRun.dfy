/**
 The convergence theorem: after one successful reconciliation the listing is exact, and a second
 run with the same discovery is accepted and plans nothing.
 */
module ManifestSecondRun {
  import opened Wrappers
  import opened Ordering
  import opened StableIdentity
  import opened ManifestPublish
  import opened ManifestReconcile
  import opened ManifestRelisting
  import opened ManifestConvergence

  /** The files after the plan is published. */
  ghost function After(yaml: Yaml, files: Files, discovered: map<string, string>): Files
    requires SERVICE in files && yaml.parseService(files[SERVICE]).Some?
  {
    Progress(files, PlanOf(yaml, files, discovered), |PlanOf(yaml, files, discovered)|)
  }

  // ---------- the listing ----------

  lemma ListedStays(yaml: Yaml, files: Files, after: Files, service: Service, discovered: map<string, string>,
                    r: string)
    requires yaml.Valid() && ValidService(service)
    requires Inspected(yaml, files, ViewOf(yaml, files), service, discovered)
    requires StaleInPlace(ViewOf(yaml, files), discovered.Keys, service.operations)
    requires Landed(yaml, files, after, ViewOf(yaml, files), service, discovered)
    requires r in service.operations && !IsStale(ViewOf(yaml, files), discovered.Keys, r)
    ensures ContentOf(after, Full(r)) == ContentOf(files, Full(r))
    ensures ViewOf(yaml, after)(r) == ViewOf(yaml, files)(r)
  {
    var view, known, listed := ViewOf(yaml, files), discovered.Keys, service.operations;
    var n :| 0 <= n < |listed| && listed[n] == r;
    assert SafePath(listed[n]) && view(listed[n]).Some?;
    SafeIsNoService(r);
    forall id | StaleId(view, known, listed, |listed|, id) ensures !OfStale(Full(r), id) {
      var i :| 0 <= i < |listed| && IsStale(view, known, listed[i]) && id == IdAt(view, listed[i]);
      SafeIsNoDiagram(r, id);
      if Full(r) == Full(ManifestOf(id)) { FullIsInjective(r, ManifestOf(id)); }
    }
    forall key | IsAbsent(view, listed, known, key) ensures Full(r) != Full(ManifestOf(yaml.idOf(key))) {
      assert Addable(yaml, files, Ids(view, listed), key);
    }
  }

  lemma PlaceRemains(idOf: string -> string, view: View, listed: seq<string>, known: set<string>, key: string)
    requires key in known
    ensures Remains(view, listed, known, idOf, PlaceOf(idOf, view, listed, key))
  {
    if key in HttpKeys(view, listed) {
      KeyIsFound(view, listed, key);
    } else {
      assert IsAbsent(view, listed, known, key);
    }
  }

  lemma {:induction false} RemainingIsPlaced(idOf: string -> string, view: View, listed: seq<string>,
                                             known: set<string>, keys: seq<string>, r: string)
    requires DistinctIdentities(view, known, listed) && (forall k :: k in keys <==> k in known)
    requires Remains(view, listed, known, idOf, r)
    ensures r in NonHttp(view, listed) || r in Places(idOf, view, listed, keys)
  {
    var places := Places(idOf, view, listed, keys);
    NonHttpMembers(view, listed);
    if r in listed && IsHttp(view, r) && KeyAt(view, r) in known {
      HttpKeyIsListed(view, listed, r);
      KeyIsFound(view, listed, KeyAt(view, r));
      SameIdentitySamePlace(view, known, listed, r, FindKey(view, listed, KeyAt(view, r), |listed|));
      var i :| 0 <= i < |keys| && keys[i] == KeyAt(view, r);
      assert places[i] == r;
    } else if key :| IsAbsent(view, listed, known, key) && r == ManifestOf(idOf(key)) {
      assert key in keys;
      var i :| 0 <= i < |keys| && keys[i] == key;
      assert places[i] == r;
    }
  }

  lemma RelistedMembers(yaml: Yaml, view: View, service: Service, discovered: map<string, string>, r: string)
    requires DistinctIdentities(view, discovered.Keys, service.operations)
    ensures r in NextService(yaml, view, service, discovered).operations <==>
                Remains(view, service.operations, discovered.Keys, yaml.idOf, r)
  {
    var listed, known, keys := service.operations, discovered.Keys, SortedKeys(discovered.Keys);
    var places := Places(yaml.idOf, view, listed, keys);
    SortKeepsElements(NonHttp(view, listed) + places);
    NonHttpMembers(view, listed);
    if r in places {
      var i :| 0 <= i < |keys| && places[i] == r;
      assert keys[i] in keys;
      PlaceRemains(yaml.idOf, view, listed, known, keys[i]);
    }
    if Remains(view, listed, known, yaml.idOf, r) { RemainingIsPlaced(yaml.idOf, view, listed, known, keys, r); }
  }

  lemma NewIsHeld(yaml: Yaml, files: Files, after: Files, service: Service, discovered: map<string, string>,
                  key: string)
    requires yaml.Valid() && Inspected(yaml, files, ViewOf(yaml, files), service, discovered)
    requires Landed(yaml, files, after, ViewOf(yaml, files), service, discovered)
    requires IsAbsent(ViewOf(yaml, files), service.operations, discovered.Keys, key)
    ensures HoldsNew(ViewOf(yaml, after), yaml.idOf, service.id, key)
    ensures yaml.idOf(key) !in Ids(ViewOf(yaml, files), service.operations)
  {
    assert Addable(yaml, files, Ids(ViewOf(yaml, files), service.operations), key);
    assert ContentOf(after, Full(ManifestOf(yaml.idOf(key))))
        == Some(yaml.renderOperation(Scaffold(yaml, service.id, key, discovered[key])));
  }

  /** The files after a run hold the next listing. */
  lemma RunRelists(yaml: Yaml, files: Files, after: Files, service: Service, discovered: map<string, string>)
    requires yaml.Valid() && ValidService(service)
    requires Inspected(yaml, files, ViewOf(yaml, files), service, discovered)
    requires StaleInPlace(ViewOf(yaml, files), discovered.Keys, service.operations)
    requires Landed(yaml, files, after, ViewOf(yaml, files), service, discovered)
    requires NoDup(NextService(yaml, ViewOf(yaml, files), service, discovered).operations)
    ensures Relisted(ViewOf(yaml, files), ViewOf(yaml, after), service.id, service.operations,
                     NextService(yaml, ViewOf(yaml, files), service, discovered).operations, discovered.Keys, yaml.idOf)
  {
    var view, known, listed := ViewOf(yaml, files), discovered.Keys, service.operations;
    var relisted := NextService(yaml, view, service, discovered).operations;
    forall r ensures r in relisted <==> Remains(view, listed, known, yaml.idOf, r) {
      RelistedMembers(yaml, view, service, discovered, r);
    }
    forall r | r in listed && !IsStale(view, known, r) ensures ViewOf(yaml, after)(r) == view(r) {
      ListedStays(yaml, files, after, service, discovered, r);
    }
    forall key | IsAbsent(view, listed, known, key)
      ensures HoldsNew(ViewOf(yaml, after), yaml.idOf, service.id, key) && yaml.idOf(key) !in Ids(view, listed)
    {
      NewIsHeld(yaml, files, after, service, discovered, key);
    }
  }

  // ---------- the directories ----------

  lemma NewNameIsPlain(id: string)
    requires ValidId(id)
    ensures !Contains(id + ".yaml", '/')
  {
    forall i | 0 <= i < |id + ".yaml"| ensures (id + ".yaml")[i] != '/' {
      if i < |id| { assert (id + ".yaml")[i] == id[i]; } else { assert (id + ".yaml")[i] == ".yaml"[i - |id|]; }
    }
  }

  lemma NewIsExpected(id: string, relisted: seq<string>)
    requires ValidId(id) && ManifestOf(id) in relisted
    ensures !Unexpected(ENDPOINTS, Full(ManifestOf(id)), relisted)
    ensures !Unexpected(OPERATIONS, Full(ManifestOf(id)), relisted)
  {
    var p, prefix := Full(ManifestOf(id)), ARCHITECTURE + ENDPOINTS;
    var name := id + ".yaml";
    NewNameIsPlain(id);
    assert p == prefix + name && p[|prefix|..] == name && ENDPOINTS + name == ManifestOf(id);
    assert p[|ARCHITECTURE|] == 'e' && (ARCHITECTURE + OPERATIONS)[|ARCHITECTURE|] == 'o';
  }

  /** A path that was expected stays expected unless its listing is dropped. */
  lemma StaysExpected(directory: string, p: string, listed: seq<string>, relisted: seq<string>)
    requires !Unexpected(directory, p, listed)
    requires forall r | r in listed && p == Full(r) :: r in relisted
    ensures !Unexpected(directory, p, relisted)
  {
    var prefix := ARCHITECTURE + directory;
    if prefix <= p {
      var name := p[|prefix|..];
      assert p == prefix + name;
      assert p == Full(directory + name);
    }
  }

  lemma StaysTidy(yaml: Yaml, files: Files, after: Files, view: View, service: Service, discovered: map<string, string>)
    requires Inspected(yaml, files, view, service, discovered)
    requires StaleInPlace(view, discovered.Keys, service.operations)
    requires Landed(yaml, files, after, view, service, discovered)
    ensures forall p | p in after && p != SERVICE ::
                ExpectedAfter(p, NextService(yaml, view, service, discovered).operations)
  {
    var listed, known := service.operations, discovered.Keys;
    var relisted := NextService(yaml, view, service, discovered).operations;
    forall p | p in after && p != SERVICE ensures ExpectedAfter(p, relisted) {
      if AddedPath(yaml.idOf, view, listed, known, p) {
        var key :| IsAbsent(view, listed, known, key) && p == Full(ManifestOf(yaml.idOf(key)));
        assert Addable(yaml, files, Ids(view, listed), key);
        RelistedMembers(yaml, view, service, discovered, ManifestOf(yaml.idOf(key)));
        NewIsExpected(yaml.idOf(key), relisted);
      } else {
        assert ContentOf(after, p) == ContentOf(files, p);
        forall r | r in listed && p == Full(r) ensures r in relisted {
          RelistedMembers(yaml, view, service, discovered, r);
          if IsStale(view, known, r) { StaleIsOfStale(view, known, listed, r); }
        }
        StaysExpected(ENDPOINTS, p, listed, relisted);
        StaysExpected(OPERATIONS, p, listed, relisted);
      }
    }
  }

  ghost predicate ExpectedAfter(p: string, relisted: seq<string>) {
    !Unexpected(ENDPOINTS, p, relisted) && !Unexpected(OPERATIONS, p, relisted)
  }

  lemma StaleIsOfStale(view: View, known: set<string>, listed: seq<string>, r: string)
    requires StaleInPlace(view, known, listed) && r in listed && IsStale(view, known, r)
    ensures RemovedPath(view, known, listed, Full(r))
  {
    var i :| 0 <= i < |listed| && listed[i] == r;
    assert StaleId(view, known, listed, |listed|, IdAt(view, r));
    assert OfStale(Full(r), IdAt(view, r));
  }

  lemma ServiceIsExpected(relisted: seq<string>)
    ensures ExpectedAfter(SERVICE, relisted)
  {
    assert SERVICE[|ARCHITECTURE|] == 's';
    assert (ARCHITECTURE + ENDPOINTS)[|ARCHITECTURE|] == 'e' && (ARCHITECTURE + OPERATIONS)[|ARCHITECTURE|] == 'o';
  }

  // ---------- the groups ----------

  /** Members of the kept groups are not HTTP, before and after. */
  lemma {:induction false} KeptAreApart(before: View, after: View, serviceId: string, listed: seq<string>,
                                        relisted: seq<string>,
                     known: set<string>, idOf: string -> string, groups: seq<Group>, i: nat)
    requires Relisted(before, after, serviceId, listed, relisted, known, idOf) && Readable(before, serviceId, listed)
    requires GroupsKnown(groups, Ids(before, listed)) && i < |KeptGroups(groups, HttpIds(before, listed))|
    requires KeptGroups(groups, HttpIds(before, listed))[i].operations != []
    ensures Untouched(KeptGroups(groups, HttpIds(before, listed))[i], HttpIds(after, relisted))
    ensures forall x | x in KeptGroups(groups, HttpIds(before, listed))[i].operations ::
                x in Ids(after, relisted) && x !in HttpIds(before, listed)
  {
    var http := HttpIds(before, listed);
    var k := KeptComeFrom(groups, http, i);
    RetainedMembers(groups[k].operations, http);
    forall x | x in KeptGroups(groups, http)[i].operations
      ensures x !in http && x in Ids(after, relisted) && x !in HttpIds(after, relisted)
    {
      var m :| 0 <= m < |groups[k].operations| && groups[k].operations[m] == x;
      OtherIdStays(before, after, serviceId, listed, relisted, known, idOf, x);
    }
  }

  lemma OtherIdStays(before: View, after: View, serviceId: string, listed: seq<string>, relisted: seq<string>,
                     known: set<string>, idOf: string -> string, x: string)
    requires Relisted(before, after, serviceId, listed, relisted, known, idOf) && Readable(before, serviceId, listed)
    requires x in Ids(before, listed) && x !in HttpIds(before, listed)
    ensures x in Ids(after, relisted) && x !in HttpIds(after, relisted)
  {
    var i :| 0 <= i < |listed| && IdAt(before, listed[i]) == x;
    var r := listed[i];
    assert r in listed && !IsHttp(before, r);
    assert r in relisted;
    IdIsListed(after, relisted, r);
    RelistedIsReadable(before, after, serviceId, listed, relisted, known, idOf);
    assert forall q | q in relisted && IdAt(after, q) == x :: q == r by {
      forall q | q in relisted && IdAt(after, q) == x ensures q == r {
        SameIdSamePlace(after, serviceId, relisted, r, q);
      }
    }
  }

  lemma NamesAreHttp(before: View, after: View, serviceId: string, listed: seq<string>, relisted: seq<string>,
                     known: set<string>, idOf: string -> string, keys: seq<string>)
    requires Relisted(before, after, serviceId, listed, relisted, known, idOf)
    requires DistinctIdentities(before, known, listed)
    requires forall k | k in keys :: k in known
    ensures forall x | x in Names(idOf, before, listed, keys) ::
                x in HttpIds(after, relisted) && x in Ids(after, relisted)
  {
    var names := Names(idOf, before, listed, keys);
    forall x | x in names ensures x in HttpIds(after, relisted) && x in Ids(after, relisted) {
      var i :| 0 <= i < |names| && names[i] == x;
      assert keys[i] in keys;
      PlaceStays(before, after, serviceId, listed, relisted, known, idOf, keys[i]);
      HttpKeyIsListed(after, relisted, PlaceOf(idOf, before, listed, keys[i]));
      IdIsListed(after, relisted, PlaceOf(idOf, before, listed, keys[i]));
    }
  }

  lemma NamesAreStable(before: View, after: View, serviceId: string, listed: seq<string>, relisted: seq<string>,
                       known: set<string>, idOf: string -> string, keys: seq<string>)
    requires Relisted(before, after, serviceId, listed, relisted, known, idOf)
    requires DistinctIdentities(before, known, listed)
    requires forall k | k in keys :: k in known
    ensures Names(idOf, after, relisted, keys) == Names(idOf, before, listed, keys)
  {
    forall i | 0 <= i < |keys| ensures NameOf(idOf, after, relisted, keys[i]) == NameOf(idOf, before, listed, keys[i]) {
      assert keys[i] in keys;
      PlacesAreStable(before, after, serviceId, listed, relisted, known, idOf, keys[i]);
    }
  }

  // ---------- the second run ----------

  /** Everything that is known of a run and the files it leaves. */
  ghost predicate Ran(yaml: Yaml, files: Files, after: Files, service: Service, next: Service,
                      discovered: map<string, string>)
  {
    && yaml.Valid() && discovered != map[] && SERVICE in files && ValidService(service) && ValidService(next)
    && next == NextService(yaml, ViewOf(yaml, files), service, discovered)
    && Inspected(yaml, files, ViewOf(yaml, files), service, discovered)
    && StaleInPlace(ViewOf(yaml, files), discovered.Keys, service.operations)
    && Landed(yaml, files, after, ViewOf(yaml, files), service, discovered)
    && ContentOf(after, SERVICE) == Some(yaml.rewrite(files[SERVICE], next.operations, next.groups))
    && yaml.parseService(yaml.rewrite(files[SERVICE], next.operations, next.groups)) == Some(next)
  }

  lemma RunLeaves(yaml: Yaml, files: Files, project: string, discovered: map<string, string>)
    requires Accepted(yaml, files, project, discovered)
    ensures var service := ServiceIn(yaml, files);
            Ran(yaml, files, After(yaml, files, discovered), service,
                NextService(yaml, ViewOf(yaml, files), service, discovered), discovered)
  {
    var service, view := ServiceIn(yaml, files), ViewOf(yaml, files);
    var next := NextService(yaml, view, service, discovered);
    ListingsAreGood(yaml, files, project, discovered);
    PlanIsPublishable(yaml, files, project, discovered);
    LeavesParts(yaml, files, view, service, discovered);
    RewritesTo(yaml, files[SERVICE], service, next);
  }

  lemma {:induction false} LeavesParts(yaml: Yaml, files: Files, view: View, service: Service,
                                       discovered: map<string, string>)
    requires yaml.Valid() && SERVICE in files && ValidService(service)
    requires Inspected(yaml, files, view, service, discovered)
    requires Publishable(files, PlanFor(yaml, files, view, service, discovered))
    ensures var plan, next := PlanFor(yaml, files, view, service, discovered),
                NextService(yaml, view, service, discovered);
            var after := Progress(files, plan, |plan|);
            && StaleInPlace(view, discovered.Keys, service.operations)
            && Landed(yaml, files, after, view, service, discovered)
            && ContentOf(after, SERVICE) == Some(yaml.rewrite(files[SERVICE], next.operations, next.groups))
  {
    var next := NextService(yaml, view, service, discovered);
    StaleAreInPlace(yaml, files, view, discovered.Keys, service.operations);
    ValidIsNoDup(service);
    var change := ServiceChange(files[SERVICE], yaml.rewrite(files[SERVICE], next.operations, next.groups));
    assert PlanFor(yaml, files, view, service, discovered) == Parts(yaml, files, view, service, discovered) + change;
    PlanLands(yaml, files, view, service, discovered, change);
    ServiceLands(yaml, files, view, service, discovered);
  }

  lemma RewritesTo(yaml: Yaml, before: Bytes, service: Service, next: Service)
    requires yaml.Valid() && yaml.parseService(before) == Some(service)
    requires next == service.(operations := next.operations, groups := next.groups)
    requires yaml.parseService(yaml.rewrite(before, next.operations, next.groups)).Some?
    ensures yaml.parseService(yaml.rewrite(before, next.operations, next.groups)) == Some(next)
  {
    assert yaml.RewritesWell(before, next.operations, next.groups);
  }

  lemma RanRelists(yaml: Yaml, files: Files, after: Files, service: Service, next: Service,
                   discovered: map<string, string>)
    requires Ran(yaml, files, after, service, next, discovered)
    ensures Relisted(ViewOf(yaml, files), ViewOf(yaml, after), service.id, service.operations, next.operations,
                discovered.Keys, yaml.idOf)
  {
    ValidIsNoDup(next);
    RunRelists(yaml, files, after, service, discovered);
  }

  /** The groups of the next service: the kept ones, and the HTTP group last. */
  ghost predicate GroupsSplit(yaml: Yaml, view: View, service: Service, next: Service, discovered: map<string, string>,
                              kept: seq<Group>, last: Group)
  {
    && kept == KeptGroups(service.groups, HttpIds(view, service.operations))
    && last.id == HttpGroup(service.groups, HttpIds(view, service.operations), NewGroup(yaml, discovered)).id
    && last.operations == Sort(Names(yaml.idOf, view, service.operations, SortedKeys(discovered.Keys)))
    && next.groups == kept + [last]
  }

  lemma SplitGroups(yaml: Yaml, view: View, service: Service, discovered: map<string, string>)
    returns (kept: seq<Group>, last: Group)
    ensures GroupsSplit(yaml, view, service, NextService(yaml, view, service, discovered), discovered, kept, last)
  {
    kept := KeptGroups(service.groups, HttpIds(view, service.operations));
    last := HttpGroup(service.groups, HttpIds(view, service.operations), NewGroup(yaml, discovered))
            .(operations := Sort(Names(yaml.idOf, view, service.operations, SortedKeys(discovered.Keys))));
  }

  /** Kept groups hold no HTTP id, the last group holds HTTP ids only, and all are listed. */
  lemma GroupsAfter(yaml: Yaml, files: Files, after: Files, service: Service, next: Service,
                    discovered: map<string, string>,
                    kept: seq<Group>, last: Group)
    requires Ran(yaml, files, after, service, next, discovered)
    requires GroupsSplit(yaml, ViewOf(yaml, files), service, next, discovered, kept, last)
    ensures var view := ViewOf(yaml, after);
            && (forall i | 0 <= i < |kept| :: Untouched(kept[i], HttpIds(view, next.operations))
                  && forall x | x in kept[i].operations :: x in Ids(view, next.operations))
            && last.operations != []
            && (forall x | x in last.operations ::
                 x in HttpIds(view, next.operations) && x in Ids(view, next.operations))
  {
    var before, view, known, keys := ViewOf(yaml, files), ViewOf(yaml, after), discovered.Keys,
        SortedKeys(discovered.Keys);
    RanRelists(yaml, files, after, service, next, discovered);
    forall i | 0 <= i < |kept|
      ensures Untouched(kept[i], HttpIds(view, next.operations)) && forall x | x in kept[i].operations ::
                  x in Ids(view, next.operations)
    {
      assert next.groups[i] == kept[i] && ValidGroup(next.groups[i]);
      KeptAreApart(before, view, service.id, service.operations, next.operations, known, yaml.idOf, service.groups, i);
    }
    assert next.groups[|kept|] == last && ValidGroup(next.groups[|kept|]);
    NamesAreHttp(before, view, service.id, service.operations, next.operations, known, yaml.idOf, keys);
    SortKeepsElements(Names(yaml.idOf, before, service.operations, keys));
  }

  /** The next service is what the second run arrives at again. */
  lemma NextIsStable(yaml: Yaml, files: Files, after: Files, service: Service, next: Service,
                     discovered: map<string, string>)
    requires Ran(yaml, files, after, service, next, discovered)
    ensures NextService(yaml, ViewOf(yaml, after), next, discovered) == next
    ensures KeptGroups(next.groups, HttpIds(ViewOf(yaml, after), next.operations))
                == KeptGroups(service.groups, HttpIds(ViewOf(yaml, files), service.operations))
    ensures HttpGroup(next.groups, HttpIds(ViewOf(yaml, after), next.operations), NewGroup(yaml, discovered)).id
         == HttpGroup(service.groups, HttpIds(ViewOf(yaml, files), service.operations), NewGroup(yaml, discovered)).id
  {
    var before, view, keys := ViewOf(yaml, files), ViewOf(yaml, after), SortedKeys(discovered.Keys);
    var kept, last := SplitGroups(yaml, before, service, discovered);
    RanRelists(yaml, files, after, service, next, discovered);
    GroupsAfter(yaml, files, after, service, next, discovered, kept, last);
    GroupsAreStable(kept, last, HttpIds(view, next.operations), NewGroup(yaml, discovered));
    NamesAreStable(before, view, service.id, service.operations, next.operations, discovered.Keys, yaml.idOf, keys);
    SortIsSorted(NonHttp(before, service.operations) + Places(yaml.idOf, before, service.operations, keys));
    ListingIsStable(before, view, service.id, service.operations, next.operations, discovered.Keys, yaml.idOf, keys);
  }

  lemma SecondIsInspected(yaml: Yaml, files: Files, after: Files, service: Service, next: Service,
                          discovered: map<string, string>)
    requires Ran(yaml, files, after, service, next, discovered)
    ensures Inspected(yaml, after, ViewOf(yaml, after), next, discovered)
  {
    var before, view, known := ViewOf(yaml, files), ViewOf(yaml, after), discovered.Keys;
    var kept, last := SplitGroups(yaml, before, service, discovered);
    RanRelists(yaml, files, after, service, next, discovered);
    RelistedIsReadable(before, view, service.id, service.operations, next.operations, known, yaml.idOf);
    RelistedIdentities(before, view, service.id, service.operations, next.operations, known, yaml.idOf);
    forall i | 0 <= i < |next.operations| ensures !IsStale(view, known, next.operations[i]) {
      NothingIsStale(before, view, service.id, service.operations, next.operations, known, yaml.idOf,
                     next.operations[i]);
    }
    StaysTidy(yaml, files, after, before, service, discovered);
    ServiceIsExpected(next.operations);
    TidyFrom(after, next.operations);
    GroupsAfter(yaml, files, after, service, next, discovered, kept, last);
    KnownGroups(kept, last, Ids(view, next.operations));
    NextIsStable(yaml, files, after, service, next, discovered);
  }

  lemma TidyFrom(after: Files, relisted: seq<string>)
    requires forall p | p in after && p != SERVICE :: ExpectedAfter(p, relisted)
    requires ExpectedAfter(SERVICE, relisted)
    ensures Tidy(after, relisted)
  {
    forall p | p in after ensures ExpectedAfter(p, relisted) {
    }
  }

  lemma KnownGroups(kept: seq<Group>, last: Group, ids: set<string>)
    requires forall i | 0 <= i < |kept| :: forall x | x in kept[i].operations :: x in ids
    requires forall x | x in last.operations :: x in ids
    ensures GroupsKnown(kept + [last], ids)
  {
  }

  lemma {:induction false} NothingToRemove(files: Files, view: View, known: set<string>, listed: seq<string>, n: nat)
    requires n <= |listed| && forall i | 0 <= i < |listed| :: !IsStale(view, known, listed[i])
    ensures Removals(files, view, known, listed, n) == []
  {
    if n > 0 { NothingToRemove(files, view, known, listed, n - 1); }
  }

  lemma {:induction false} NothingToAdd(yaml: Yaml, serviceId: string, present: set<string>,
                                        discovered: map<string, string>, keys: seq<string>)
    requires forall k | k in keys :: k in discovered && k in present
    ensures Additions(yaml, serviceId, present, discovered, keys) == []
  {
    if keys != [] {
      var last := |keys| - 1;
      assert keys == keys[..last] + [keys[last]];
      NothingToAdd(yaml, serviceId, present, discovered, keys[..last]);
    }
  }

  lemma YmlStaysAway(yaml: Yaml, files: Files, after: Files, view: View, service: Service,
                     discovered: map<string, string>)
    requires Landed(yaml, files, after, view, service, discovered) && SERVICE_YML !in files
    ensures SERVICE_YML !in after
  {
    forall id: string ensures !OfStale(SERVICE_YML, id) && SERVICE_YML != Full(ManifestOf(id)) {
      assert SERVICE_YML[|ARCHITECTURE|] == 's' && Full(ManifestOf(id))[|ARCHITECTURE|] == 'e'
          && DiagramPath(id)[|ARCHITECTURE|] == 'e';
    }
    assert |SERVICE_YML| != |SERVICE|;
    assert ContentOf(after, SERVICE_YML) == ContentOf(files, SERVICE_YML);
  }

  lemma SecondPlansNothing(yaml: Yaml, files: Files, after: Files, service: Service, next: Service,
                           discovered: map<string, string>)
    requires Ran(yaml, files, after, service, next, discovered)
    ensures SERVICE in after && PlanFor(yaml, after, ViewOf(yaml, after), next, discovered) == []
  {
    var before, view, known := ViewOf(yaml, files), ViewOf(yaml, after), discovered.Keys;
    RanRelists(yaml, files, after, service, next, discovered);
    forall i | 0 <= i < |next.operations| ensures !IsStale(view, known, next.operations[i]) {
      NothingIsStale(before, view, service.id, service.operations, next.operations, known, yaml.idOf,
                     next.operations[i]);
    }
    NothingToRemove(after, view, known, next.operations, |next.operations|);
    RelistedIdentities(before, view, service.id, service.operations, next.operations, known, yaml.idOf);
    NothingToAdd(yaml, next.id, HttpKeys(view, next.operations), discovered, SortedKeys(known));
    NextIsStable(yaml, files, after, service, next, discovered);
    assert yaml.RewritesWell(files[SERVICE], next.operations, next.groups);
  }

  /** The convergence theorem.  Right after a successful run, a second run with the same discovery
      is accepted and plans no file change. */
  lemma SecondRunPlansNothing(yaml: Yaml, files: Files, project: string, discovered: map<string, string>)
    requires Accepted(yaml, files, project, discovered)
    ensures var after := After(yaml, files, discovered);
            Accepted(yaml, after, project, discovered) && PlanOf(yaml, after, discovered) == []
  {
    var service, after := ServiceIn(yaml, files), After(yaml, files, discovered);
    var next := NextService(yaml, ViewOf(yaml, files), service, discovered);
    RunLeaves(yaml, files, project, discovered);
    YmlStaysAway(yaml, files, after, ViewOf(yaml, files), service, discovered);
    SecondIsInspected(yaml, files, after, service, next, discovered);
    NextIsStable(yaml, files, after, service, next, discovered);
    SecondPlansNothing(yaml, files, after, service, next, discovered);
    assert yaml.RewritesWell(files[SERVICE], next.operations, next.groups);
  }

  // ---------- the listing is exact ----------

  /** Distinct identities have distinct names, and every HTTP manifest has one of them. */
  lemma NamesAreExact(before: View, after: View, serviceId: string, listed: seq<string>, relisted: seq<string>,
                      known: set<string>, idOf: string -> string, keys: seq<string>)
    requires Relisted(before, after, serviceId, listed, relisted, known, idOf)
    requires DistinctIdentities(before, known, listed)
    requires Readable(before, serviceId, listed) && Ascending(keys) && forall k :: k in keys <==> k in known
    ensures NoDup(Names(idOf, before, listed, keys))
    ensures forall x | x in HttpIds(after, relisted) :: x in Names(idOf, before, listed, keys)
  {
    var names := Names(idOf, before, listed, keys);
    RelistedIsReadable(before, after, serviceId, listed, relisted, known, idOf);
    forall i, j | 0 <= i < j < |keys| ensures names[i] != names[j] {
      assert keys[i] in keys && keys[j] in keys;
      LessIsAsymmetric(keys[i], keys[j]);
      PlaceStays(before, after, serviceId, listed, relisted, known, idOf, keys[i]);
      PlaceStays(before, after, serviceId, listed, relisted, known, idOf, keys[j]);
      if names[i] == names[j] {
        SameIdSamePlace(after, serviceId, relisted, PlaceOf(idOf, before, listed, keys[i]),
                        PlaceOf(idOf, before, listed, keys[j]));
      }
    }
    NamesAreStable(before, after, serviceId, listed, relisted, known, idOf, keys);
    forall x | x in HttpIds(after, relisted) ensures x in names {
      var i :| 0 <= i < |relisted| && IsHttp(after, relisted[i]) && IdAt(after, relisted[i]) == x;
      NameOfListed(before, after, serviceId, listed, relisted, known, idOf, keys, relisted[i]);
    }
  }

  lemma NameOfListed(before: View, after: View, serviceId: string, listed: seq<string>, relisted: seq<string>,
                     known: set<string>, idOf: string -> string, keys: seq<string>, r: string)
    requires Relisted(before, after, serviceId, listed, relisted, known, idOf)
    requires DistinctIdentities(before, known, listed)
    requires (forall k :: k in keys <==> k in known) && r in relisted && IsHttp(after, r)
    ensures IdAt(after, r) in Names(idOf, before, listed, keys)
  {
    PlaceOfListed(before, after, serviceId, listed, relisted, known, idOf, keys, r);
    var places := Places(idOf, after, relisted, keys);
    var i :| 0 <= i < |places| && places[i] == r;
    assert keys[i] in keys;
    PlacesAreStable(before, after, serviceId, listed, relisted, known, idOf, keys[i]);
    PlaceStays(before, after, serviceId, listed, relisted, known, idOf, keys[i]);
    assert Names(idOf, before, listed, keys)[i] == IdAt(after, r);
  }

  /** The outcome of one successful run: the listed HTTP identities are exactly the discovered
      ones; each HTTP id is in exactly one group, once, and that group comes last; every other
      manifest is still listed with its content; and every group keeps its other members in order. */
  lemma ListingIsExact(yaml: Yaml, files: Files, project: string, discovered: map<string, string>)
    requires Accepted(yaml, files, project, discovered)
    ensures var service, view, after := ServiceIn(yaml, files), ViewOf(yaml, files), After(yaml, files, discovered);
            && SERVICE in after && yaml.parseService(after[SERVICE]).Some?
            && var next, seen := ServiceIn(yaml, after), ViewOf(yaml, after);
               && HttpKeys(seen, next.operations) == discovered.Keys
               && DistinctIdentities(seen, discovered.Keys, next.operations)
               && HttpIdsAreLast(seen, next)
               && (forall r | r in service.operations && !IsHttp(view, r) ::
                    r in next.operations && ContentOf(after, Full(r)) == ContentOf(files, Full(r)))
               && next.groups[..|next.groups| - 1] == KeptGroups(service.groups, HttpIds(view, service.operations))
  {
    var service, view, after := ServiceIn(yaml, files), ViewOf(yaml, files), After(yaml, files, discovered);
    var next, seen, keys := NextService(yaml, view, service, discovered), ViewOf(yaml, after),
        SortedKeys(discovered.Keys);
    RunLeaves(yaml, files, project, discovered);
    RanRelists(yaml, files, after, service, next, discovered);
    RelistedIdentities(view, seen, service.id, service.operations, next.operations, discovered.Keys, yaml.idOf);
    var kept, last := SplitGroups(yaml, view, service, discovered);
    LastGroupIsExact(yaml, files, after, service, next, discovered, kept, last);
    forall r | r in service.operations && !IsHttp(view, r)
      ensures r in next.operations && ContentOf(after, Full(r)) == ContentOf(files, Full(r))
    {
      RelistedMembers(yaml, view, service, discovered, r);
      ListedStays(yaml, files, after, service, discovered, r);
    }
    assert next.groups[..|next.groups| - 1] == kept;
  }

  /** All HTTP ids are in the last group, once each, and in no other. */
  ghost predicate HttpIdsAreLast(seen: View, service: Service) {
    && service.groups != []
    && NoDup(service.groups[|service.groups| - 1].operations)
    && (forall x :: x in service.groups[|service.groups| - 1].operations <==> x in HttpIds(seen, service.operations))
    && (forall i | 0 <= i < |service.groups| - 1 :: forall x | x in service.groups[i].operations ::
         x !in HttpIds(seen, service.operations))
  }

  lemma LastGroupIsExact(yaml: Yaml, files: Files, after: Files, service: Service, next: Service,
                         discovered: map<string, string>,
                         kept: seq<Group>, last: Group)
    requires Ran(yaml, files, after, service, next, discovered)
    requires GroupsSplit(yaml, ViewOf(yaml, files), service, next, discovered, kept, last)
    ensures HttpIdsAreLast(ViewOf(yaml, after), next)
  {
    var before, seen, keys := ViewOf(yaml, files), ViewOf(yaml, after), SortedKeys(discovered.Keys);
    var names := Names(yaml.idOf, before, service.operations, keys);
    RanRelists(yaml, files, after, service, next, discovered);
    GroupsAfter(yaml, files, after, service, next, discovered, kept, last);
    NamesAreExact(before, seen, service.id, service.operations, next.operations, discovered.Keys, yaml.idOf, keys);
    SortKeepsElements(names);
    NoDupOfPermutation(Sort(names), names);
    forall i | 0 <= i < |next.groups| - 1
      ensures forall x | x in next.groups[i].operations :: x !in HttpIds(seen, next.operations)
    {
      assert next.groups[i] == kept[i];
    }
  }
}
