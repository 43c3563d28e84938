/**
 How the listing of a service looks after a reconciliation: lemmas about two views of the
 repository, before and after, independent of how the files got there.
 */
module ManifestRelisting {
  import opened Wrappers
  import opened Ordering
  import opened ManifestReconcile

  ghost predicate NoDup(s: seq<string>) {
    forall i, j | 0 <= i < j < |s| :: s[i] != s[j]
  }

  lemma {:induction false} AtMostOnce(s: seq<string>, x: string)
    requires NoDup(s)
    ensures multiset(s)[x] <= 1
  {
    if s != [] {
      var last := |s| - 1;
      assert s == s[..last] + [s[last]];
      AtMostOnce(s[..last], x);
      if s[last] == x { assert x !in s[..last]; }
    }
  }

  /** Whether something occurs twice is a matter of the multiset. */
  lemma NoDupOfPermutation(s: seq<string>, t: seq<string>)
    requires multiset(s) == multiset(t) && NoDup(t)
    ensures NoDup(s)
  {
    forall i, j | 0 <= i < j < |s| ensures s[i] != s[j] {
      assert s == s[..j] + [s[j]] + s[j + 1..];
      AtMostOnce(t, s[j]);
      assert s[..j][i] == s[i];
    }
  }

  /** A sorted sequence without repetitions is the sorting of anything with its elements. */
  lemma {:induction false} SortedIsSort(s: seq<string>, t: seq<string>)
    requires Sorted(t) && NoDup(t) && NoDup(s) && forall x :: x in s <==> x in t
    ensures Sort(s) == t
  {
    SortIsSorted(s);
    SortKeepsElements(s);
    NoDupOfPermutation(Sort(s), s);
    StrictIsAscending(Sort(s));
    StrictIsAscending(t);
    AscendingIsUnique(Sort(s), t);
  }

  lemma StrictIsAscending(s: seq<string>)
    requires Sorted(s) && NoDup(s)
    ensures Ascending(s)
  {
    forall i, j | 0 <= i < j < |s| ensures Less(s[i], s[j]) {
      LessIsTotal(s[i], s[j]);
    }
  }

  // ---------- looking things up in a listing ----------

  lemma {:induction false} FindKeyFinds(view: View, listed: seq<string>, key: string, n: nat)
    requires n <= |listed|
    requires exists i :: 0 <= i < n && IsHttp(view, listed[i]) && KeyAt(view, listed[i]) == key
    ensures var r := FindKey(view, listed, key, n); r in listed && IsHttp(view, r) && KeyAt(view, r) == key
  {
    if !(IsHttp(view, listed[n - 1]) && KeyAt(view, listed[n - 1]) == key) {
      FindKeyFinds(view, listed, key, n - 1);
    }
  }

  lemma {:induction false} KeyIsFound(view: View, listed: seq<string>, key: string)
    requires key in HttpKeys(view, listed)
    ensures var r := FindKey(view, listed, key, |listed|); r in listed && IsHttp(view, r) && KeyAt(view, r) == key
  {
    FindKeyFinds(view, listed, key, |listed|);
  }

  lemma {:induction false} NonHttpMembers(view: View, listed: seq<string>)
    ensures forall r :: r in NonHttp(view, listed) <==> r in listed && !IsHttp(view, r)
    ensures NoDup(listed) ==> NoDup(NonHttp(view, listed))
  {
    if listed != [] {
      var last := |listed| - 1;
      assert listed == listed[..last] + [listed[last]];
      NonHttpMembers(view, listed[..last]);
      if NoDup(listed) { assert listed[last] !in listed[..last]; }
    }
  }

  /** One manifest of an identity. */
  lemma SameIdentitySamePlace(view: View, known: set<string>, listed: seq<string>, r: string, q: string)
    requires DistinctIdentities(view, known, listed) && r in listed && q in listed
    requires IsHttp(view, r) && IsHttp(view, q) && KeyAt(view, r) == KeyAt(view, q) && KeyAt(view, q) in known
    ensures r == q
  {
    var i :| 0 <= i < |listed| && listed[i] == r;
    var j :| 0 <= j < |listed| && listed[j] == q;
  }

  lemma SameIdSamePlace(view: View, serviceId: string, listed: seq<string>, r: string, q: string)
    requires Readable(view, serviceId, listed) && r in listed && q in listed && IdAt(view, r) == IdAt(view, q)
    ensures r == q
  {
    var i :| 0 <= i < |listed| && listed[i] == r;
    var j :| 0 <= j < |listed| && listed[j] == q;
  }

  // ---------- the listing after a run ----------

  /** A discovered identity that had no manifest. */
  ghost predicate IsAbsent(view: View, listed: seq<string>, known: set<string>, key: string) {
    key in known && key !in HttpKeys(view, listed)
  }

  /** The new manifest of an identity, as it can be read after the run. */
  ghost predicate HoldsNew(after: View, idOf: string -> string, serviceId: string, key: string) {
    var r := ManifestOf(idOf(key));
    && after(r).Some? && after(r).value.id == idOf(key) && after(r).value.kind == Http(key)
    && after(r).value.serviceId == serviceId
  }

  /** The path is listed after the run: it was and is not stale, or it is new. */
  ghost predicate Remains(view: View, listed: seq<string>, known: set<string>, idOf: string -> string, r: string) {
    || (r in listed && !IsStale(view, known, r))
    || exists key :: IsAbsent(view, listed, known, key) && r == ManifestOf(idOf(key))
  }

  /** What a run does to the listing and to the view of it. */
  ghost predicate Relisted(before: View, after: View, serviceId: string, listed: seq<string>, relisted: seq<string>,
                           known: set<string>, idOf: string -> string)
  {
    && NoDup(relisted)
    && (forall r :: r in relisted <==> Remains(before, listed, known, idOf, r))
    && (forall r | r in listed && !IsStale(before, known, r) :: after(r) == before(r))
    && (forall key | IsAbsent(before, listed, known, key) ::
          HoldsNew(after, idOf, serviceId, key) && idOf(key) !in Ids(before, listed))
  }

  /** How a relisted path came to be there: `key` is its identity if it is new. */
  lemma Provenance(before: View, after: View, serviceId: string, listed: seq<string>, relisted: seq<string>,
                   known: set<string>, idOf: string -> string, r: string) returns (isNew: bool, key: string)
    requires Relisted(before, after, serviceId, listed, relisted, known, idOf) && r in relisted
    ensures !isNew ==> r in listed && !IsStale(before, known, r) && after(r) == before(r)
    ensures isNew ==>
                IsAbsent(before, listed, known, key) && r == ManifestOf(idOf(key))
                && HoldsNew(after, idOf, serviceId, key)
  {
    isNew, key := false, "";
    if !(r in listed && !IsStale(before, known, r)) {
      isNew := true;
      key :| IsAbsent(before, listed, known, key) && r == ManifestOf(idOf(key));
    }
  }

  lemma ManifestIsInjective(a: string, b: string)
    requires ManifestOf(a) == ManifestOf(b)
    ensures a == b
  {
    assert ManifestOf(a)[|ENDPOINTS|..|ENDPOINTS| + |a|] == a;
    assert |a| == |b|;
    assert ManifestOf(b)[|ENDPOINTS|..|ENDPOINTS| + |b|] == b;
  }

  lemma IdIsListed(view: View, listed: seq<string>, r: string)
    requires r in listed
    ensures IdAt(view, r) in Ids(view, listed)
  {
    var i :| 0 <= i < |listed| && listed[i] == r;
  }

  lemma RelistedIsReadable(before: View, after: View, serviceId: string, listed: seq<string>, relisted: seq<string>,
                           known: set<string>, idOf: string -> string)
    requires Relisted(before, after, serviceId, listed, relisted, known, idOf) && Readable(before, serviceId, listed)
    ensures Readable(after, serviceId, relisted)
  {
    forall i | 0 <= i < |relisted|
      ensures after(relisted[i]).Some? && after(relisted[i]).value.serviceId == serviceId
              && (IsHttp(after, relisted[i]) ==> ENDPOINTS <= relisted[i])
    {
      var isNew, key := Provenance(before, after, serviceId, listed, relisted, known, idOf, relisted[i]);
      if !isNew { assert IsHttp(after, relisted[i]) == IsHttp(before, relisted[i]); }
    }
    forall i, j | 0 <= i < j < |relisted| ensures IdAt(after, relisted[i]) != IdAt(after, relisted[j]) {
      IdsStayDistinct(before, after, serviceId, listed, relisted, known, idOf, relisted[i], relisted[j]);
    }
  }

  lemma IdsStayDistinct(before: View, after: View, serviceId: string, listed: seq<string>, relisted: seq<string>,
                        known: set<string>, idOf: string -> string, r: string, q: string)
    requires Relisted(before, after, serviceId, listed, relisted, known, idOf) && Readable(before, serviceId, listed)
    requires r in relisted && q in relisted && r != q
    ensures IdAt(after, r) != IdAt(after, q)
  {
    var rNew, rKey := Provenance(before, after, serviceId, listed, relisted, known, idOf, r);
    var qNew, qKey := Provenance(before, after, serviceId, listed, relisted, known, idOf, q);
    if r in listed { IdIsListed(before, listed, r); }
    if q in listed { IdIsListed(before, listed, q); }
    if !rNew && !qNew && IdAt(before, r) == IdAt(before, q) { SameIdSamePlace(before, serviceId, listed, r, q); }
  }

  /** Each relisted HTTP manifest has a discovered identity. */
  lemma NothingIsStale(before: View, after: View, serviceId: string, listed: seq<string>, relisted: seq<string>,
                       known: set<string>, idOf: string -> string, r: string)
    requires Relisted(before, after, serviceId, listed, relisted, known, idOf) && r in relisted
    ensures !IsStale(after, known, r)
  {
    var isNew, key := Provenance(before, after, serviceId, listed, relisted, known, idOf, r);
  }

  lemma HttpKeyIsListed(view: View, listed: seq<string>, r: string)
    requires r in listed && IsHttp(view, r)
    ensures KeyAt(view, r) in HttpKeys(view, listed) && IdAt(view, r) in HttpIds(view, listed)
  {
    var i :| 0 <= i < |listed| && listed[i] == r;
  }

  /** Every discovered identity keeps its manifest and its name, or gets the new one. */
  lemma PlaceStays(before: View, after: View, serviceId: string, listed: seq<string>, relisted: seq<string>,
                   known: set<string>, idOf: string -> string, key: string)
    requires Relisted(before, after, serviceId, listed, relisted, known, idOf)
    requires DistinctIdentities(before, known, listed) && key in known
    ensures var r := PlaceOf(idOf, before, listed, key);
            && r in relisted && IsHttp(after, r) && KeyAt(after, r) == key
            && IdAt(after, r) == NameOf(idOf, before, listed, key)
  {
    if key in HttpKeys(before, listed) {
      KeyIsFound(before, listed, key);
    } else {
      assert IsAbsent(before, listed, known, key);
    }
  }

  lemma RelistedIdentities(before: View, after: View, serviceId: string, listed: seq<string>, relisted: seq<string>,
                           known: set<string>, idOf: string -> string)
    requires Relisted(before, after, serviceId, listed, relisted, known, idOf)
    requires DistinctIdentities(before, known, listed)
    ensures HttpKeys(after, relisted) == known
    ensures DistinctIdentities(after, known, relisted)
  {
    forall key | key in known ensures key in HttpKeys(after, relisted) {
      PlaceStays(before, after, serviceId, listed, relisted, known, idOf, key);
      HttpKeyIsListed(after, relisted, PlaceOf(idOf, before, listed, key));
    }
    forall key | key in HttpKeys(after, relisted) ensures key in known {
      KeyIsFound(after, relisted, key);
      NothingIsStale(before, after, serviceId, listed, relisted, known, idOf,
                     FindKey(after, relisted, key, |relisted|));
    }
    forall i, j | 0 <= i < j < |relisted| && IsHttp(after, relisted[i]) && IsHttp(after, relisted[j])
        && KeyAt(after, relisted[i]) in known
      ensures KeyAt(after, relisted[i]) != KeyAt(after, relisted[j])
    {
      if KeyAt(after, relisted[i]) == KeyAt(after, relisted[j]) {
        OnePlaceAfter(before, after, serviceId, listed, relisted, known, idOf, relisted[i], relisted[j]);
      }
    }
  }

  lemma OnePlaceAfter(before: View, after: View, serviceId: string, listed: seq<string>, relisted: seq<string>,
                      known: set<string>, idOf: string -> string, r: string, q: string)
    requires Relisted(before, after, serviceId, listed, relisted, known, idOf)
    requires DistinctIdentities(before, known, listed)
    requires r in relisted && q in relisted && IsHttp(after, r) && IsHttp(after, q)
    requires KeyAt(after, r) == KeyAt(after, q) && KeyAt(after, q) in known
    ensures r == q
  {
    var rNew, rKey := Provenance(before, after, serviceId, listed, relisted, known, idOf, r);
    var qNew, qKey := Provenance(before, after, serviceId, listed, relisted, known, idOf, q);
    if !rNew { HttpKeyIsListed(before, listed, r); }
    if !qNew { HttpKeyIsListed(before, listed, q); }
    if !rNew && !qNew { SameIdentitySamePlace(before, known, listed, r, q); }
  }

  /** The second run finds every identity where the first one left it. */
  lemma PlacesAreStable(before: View, after: View, serviceId: string, listed: seq<string>, relisted: seq<string>,
                        known: set<string>, idOf: string -> string, key: string)
    requires Relisted(before, after, serviceId, listed, relisted, known, idOf)
    requires DistinctIdentities(before, known, listed) && key in known
    ensures PlaceOf(idOf, after, relisted, key) == PlaceOf(idOf, before, listed, key)
    ensures NameOf(idOf, after, relisted, key) == NameOf(idOf, before, listed, key)
  {
    PlaceStays(before, after, serviceId, listed, relisted, known, idOf, key);
    RelistedIdentities(before, after, serviceId, listed, relisted, known, idOf);
    KeyIsFound(after, relisted, key);
    SameIdentitySamePlace(after, known, relisted, PlaceOf(idOf, before, listed, key),
                          FindKey(after, relisted, key, |relisted|));
  }

  /** Listing what is not HTTP and the places of all identities gives the sorted listing again. */
  lemma {:induction false} ListingIsStable(before: View, after: View, serviceId: string, listed: seq<string>,
                                           relisted: seq<string>,
                        known: set<string>, idOf: string -> string, keys: seq<string>)
    requires Relisted(before, after, serviceId, listed, relisted, known, idOf)
    requires DistinctIdentities(before, known, listed)
    requires Sorted(relisted) && Ascending(keys) && forall k :: k in keys <==> k in known
    ensures Sort(NonHttp(after, relisted) + Places(idOf, after, relisted, keys)) == relisted
  {
    var others, places := NonHttp(after, relisted), Places(idOf, after, relisted, keys);
    NonHttpMembers(after, relisted);
    forall i | 0 <= i < |keys|
      ensures places[i] in relisted && IsHttp(after, places[i]) && KeyAt(after, places[i]) == keys[i]
    {
      assert keys[i] in keys;
      PlacesAreStable(before, after, serviceId, listed, relisted, known, idOf, keys[i]);
      PlaceStays(before, after, serviceId, listed, relisted, known, idOf, keys[i]);
    }
    forall i, j | 0 <= i < j < |keys| ensures places[i] != places[j] {
      LessIsAsymmetric(keys[i], keys[j]);
    }
    forall r | r in relisted ensures r in others + places {
      if IsHttp(after, r) { PlaceOfListed(before, after, serviceId, listed, relisted, known, idOf, keys, r); }
    }
    assert NoDup(others + places);
    SortedIsSort(others + places, relisted);
  }

  lemma PlaceOfListed(before: View, after: View, serviceId: string, listed: seq<string>, relisted: seq<string>,
                      known: set<string>, idOf: string -> string, keys: seq<string>, r: string)
    requires Relisted(before, after, serviceId, listed, relisted, known, idOf)
    requires DistinctIdentities(before, known, listed)
    requires (forall k :: k in keys <==> k in known) && r in relisted && IsHttp(after, r)
    ensures r in Places(idOf, after, relisted, keys)
  {
    var key := KeyAt(after, r);
    NothingIsStale(before, after, serviceId, listed, relisted, known, idOf, r);
    RelistedIdentities(before, after, serviceId, listed, relisted, known, idOf);
    HttpKeyIsListed(after, relisted, r);
    KeyIsFound(after, relisted, key);
    SameIdentitySamePlace(after, known, relisted, r, FindKey(after, relisted, key, |relisted|));
    var i :| 0 <= i < |keys| && keys[i] == key;
    assert Places(idOf, after, relisted, keys)[i] == r;
  }

  // ---------- groups ----------

  lemma {:induction false} RetainedMembers(ids: seq<string>, http: set<string>)
    ensures forall x :: x in Retained(ids, http) <==> x in ids && x !in http
    ensures (forall x | x in ids :: x !in http) ==> Retained(ids, http) == ids
  {
    if ids != [] {
      var last := |ids| - 1;
      assert ids == ids[..last] + [ids[last]];
      RetainedMembers(ids[..last], http);
    }
  }

  /** Groups whose members are apart from the HTTP ids stay as they are. */
  ghost predicate Untouched(g: Group, http: set<string>) {
    g.operations != [] && forall x | x in g.operations :: x !in http
  }

  lemma {:induction false} UntouchedStays(g: Group, http: set<string>)
    requires Untouched(g, http)
    ensures !Emptied(g, http) && g.(operations := Retained(g.operations, http)) == g
  {
    RetainedMembers(g.operations, http);
  }

  lemma {:induction false} KeptStay(kept: seq<Group>, http: set<string>)
    requires forall i | 0 <= i < |kept| :: Untouched(kept[i], http)
    ensures KeptGroups(kept, http) == kept
  {
    if kept != [] {
      var fewer, last := kept[..|kept| - 1], kept[|kept| - 1];
      assert kept == fewer + [last];
      forall i | 0 <= i < |fewer| ensures Untouched(fewer[i], http) {
        assert fewer[i] == kept[i];
      }
      KeptStay(fewer, http);
      UntouchedStays(last, http);
    }
  }

  lemma {:induction false} LastIsHttpGroup(kept: seq<Group>, last: Group, http: set<string>, otherwise: Group)
    requires forall i | 0 <= i < |kept| :: Untouched(kept[i], http)
    requires Emptied(last, http)
    ensures HttpGroup(kept + [last], http, otherwise) == last
  {
    if kept != [] {
      UntouchedStays(kept[0], http);
      assert (kept + [last])[1..] == kept[1..] + [last];
      LastIsHttpGroup(kept[1..], last, http, otherwise);
    }
  }

  lemma MemberOrEmpty(s: seq<string>)
    ensures s == [] || exists x :: x in s
  {
    if s != [] { assert s[0] in s; }
  }

  /** The groups of a run stay as they are in the next run. */
  lemma {:induction false} GroupsAreStable(kept: seq<Group>, last: Group, http: set<string>, otherwise: Group)
    requires forall i | 0 <= i < |kept| :: Untouched(kept[i], http)
    requires last.operations != [] && forall x | x in last.operations :: x in http
    ensures KeptGroups(kept + [last], http) == kept
    ensures HttpGroup(kept + [last], http, otherwise) == last
  {
    RetainedMembers(last.operations, http);
    MemberOrEmpty(Retained(last.operations, http));
    assert (kept + [last])[..|kept|] == kept;
    KeptStay(kept, http);
    LastIsHttpGroup(kept, last, http, otherwise);
  }

  lemma {:induction false} KeptComeFrom(groups: seq<Group>, http: set<string>, i: nat) returns (k: nat)
    requires i < |KeptGroups(groups, http)|
    ensures k < |groups|
    ensures KeptGroups(groups, http)[i] == groups[k].(operations := Retained(groups[k].operations, http))
  {
    var last := |groups| - 1;
    if i < |KeptGroups(groups[..last], http)| {
      k := KeptComeFrom(groups[..last], http, i);
    } else {
      k := last;
    }
  }
}
