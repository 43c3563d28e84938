/**
 The order of evidence (internal/contextretrieval/quality.go, `qualityRankLess`) and sorting by
 it.  `Key` stands for `qualityCandidateKey`, the JSON text that breaks ties.
 */
module Ranking {
  import opened Ordering
  import opened Evidence

  type Key = Candidate -> string

  function RoleIndex(role: Role): int {
    match role
    case PRIMARY => 0
    case SUPPORTING => 1
    case CONTEXT => 2
  }

  predicate RankLess(key: Key, a: Candidate, b: Candidate) {
    if a.required != b.required then a.required
    else if RoleIndex(a.role) != RoleIndex(b.role) then RoleIndex(a.role) < RoleIndex(b.role)
    else if a.origin.freshness != b.origin.freshness then a.origin.freshness == Current
    else if a.exactMatch != b.exactMatch then a.exactMatch
    else if a.distance != b.distance then a.distance < b.distance
    else if (a.origin.provenance == ProjectTest) != (b.origin.provenance == ProjectTest) then
        a.origin.provenance == ProjectTest
    else Less(key(a), key(b))
  }

  /** Neither comes before the other. */
  predicate Tied(key: Key, a: Candidate, b: Candidate) {
    !RankLess(key, a, b) && !RankLess(key, b, a)
  }

  /** What is left after the quality filter. */
  predicate Fresh(c: Candidate) {
    c.origin.freshness == Current || c.origin.freshness == DirtySnapshot
  }

  /** Over the evidence that the quality filter lets through, the rank is a strict weak order, as
      a sort needs: it is irreflexive and transitive, and ties are transitive. */
  lemma RankIsStrictWeakOrder(key: Key, a: Candidate, b: Candidate, c: Candidate)
    requires Fresh(a) && Fresh(b) && Fresh(c)
    ensures !RankLess(key, a, a)
    ensures RankLess(key, a, b) && RankLess(key, b, c) ==> RankLess(key, a, c)
    ensures Tied(key, a, b) && Tied(key, b, c) ==> Tied(key, a, c)
  {
    RankIsIrreflexive(key, a);
    if RankLess(key, a, b) && RankLess(key, b, c) && Less(key(a), key(b)) && Less(key(b), key(c)) {
      LessIsTransitive(key(a), key(b), key(c));
    }
    if Tied(key, a, b) { TieIsEqualRank(key, a, b); }
    if Tied(key, b, c) { TieIsEqualRank(key, b, c); }
    if Tied(key, a, b) && Tied(key, b, c) { RankIsIrreflexive(key, c); }
  }

  lemma RankIsIrreflexive(key: Key, a: Candidate)
    ensures !RankLess(key, a, a)
  {
    if Less(key(a), key(a)) { LessIsAsymmetric(key(a), key(a)); }
  }

  /** Tied evidence agrees in everything that the rank looks at. */
  predicate EqualRank(key: Key, a: Candidate, b: Candidate) {
    && a.required == b.required && a.role == b.role && a.origin.freshness == b.origin.freshness
    && a.exactMatch == b.exactMatch && a.distance == b.distance
    && (a.origin.provenance == ProjectTest) == (b.origin.provenance == ProjectTest) && key(a) == key(b)
  }

  lemma TieIsEqualRank(key: Key, a: Candidate, b: Candidate)
    requires Fresh(a) && Fresh(b) && Tied(key, a, b)
    ensures EqualRank(key, a, b)
  {
    LessIsTotal(key(a), key(b));
  }

  /** With a third freshness the rank is no order: `b` ties with both `a` and `c`, and yet `c`
      comes before `a`. */
  lemma OtherFreshnessBreaksRank(key: Key, a: Candidate, b: Candidate, c: Candidate)
    requires a.origin.freshness == DirtySnapshot && Less(key(c), key(a))
    requires b == a.(origin := a.origin.(freshness := Unverified))
    requires c.required == a.required && c.role == a.role && c.origin == a.origin && c.exactMatch == a.exactMatch
    requires c.distance == a.distance
    ensures Tied(key, a, b) && Tied(key, b, c) && RankLess(key, c, a)
  {
  }

  // ---------- sorting ----------

  /** `sort.SliceStable`: an element goes before those that it is not above. */
  function InsertRanked(less: (Candidate, Candidate) -> bool, x: Candidate, s: seq<Candidate>): (r: seq<Candidate>)
    ensures multiset(r) == multiset{x} + multiset(s)
  {
    if s == [] || !less(s[0], x) then [x] + s
    else
      assert s == [s[0]] + s[1..];
      [s[0]] + InsertRanked(less, x, s[1..])
  }

  function StableSort(less: (Candidate, Candidate) -> bool, s: seq<Candidate>): (r: seq<Candidate>)
    ensures multiset(r) == multiset(s)
  {
    if s == [] then []
    else
      assert s == [s[0]] + s[1..];
      InsertRanked(less, s[0], StableSort(less, s[1..]))
  }

  lemma {:induction false} SortedMembers(less: (Candidate, Candidate) -> bool, s: seq<Candidate>)
    ensures |StableSort(less, s)| == |s|
    ensures forall c :: c in StableSort(less, s) <==> c in s
  {
    assert |StableSort(less, s)| == |multiset(StableSort(less, s))|;
    forall c ensures c in StableSort(less, s) <==> c in s {
      assert c in StableSort(less, s) <==> c in multiset(StableSort(less, s));
      assert c in s <==> c in multiset(s);
    }
  }

  ghost predicate Asymmetric(less: (Candidate, Candidate) -> bool) {
    forall a, b :: !(less(a, b) && less(b, a))
  }

  /** No element is above its predecessor. */
  predicate InOrder(less: (Candidate, Candidate) -> bool, s: seq<Candidate>) {
    forall i | 0 <= i < |s| - 1 :: !less(s[i + 1], s[i])
  }

  lemma {:induction false} InsertKeepsOrder(less: (Candidate, Candidate) -> bool, x: Candidate, s: seq<Candidate>)
    requires Asymmetric(less) && InOrder(less, s)
    ensures InOrder(less, InsertRanked(less, x, s))
    ensures InsertRanked(less, x, s)[0] == x || (s != [] && InsertRanked(less, x, s)[0] == s[0])
  {
    if s != [] && less(s[0], x) {
      InsertKeepsOrder(less, x, s[1..]);
      var t := InsertRanked(less, x, s[1..]);
      assert !less(t[0], s[0]) by {
        if t[0] != x { assert s[1..][0] == s[1]; }
      }
      var r := [s[0]] + t;
      forall i | 0 <= i < |r| - 1 ensures !less(r[i + 1], r[i]) {
        if i > 0 { assert !less(t[i - 1 + 1], t[i - 1]); }
      }
    }
  }

  lemma {:induction false} SortGivesOrder(less: (Candidate, Candidate) -> bool, s: seq<Candidate>)
    requires Asymmetric(less)
    ensures InOrder(less, StableSort(less, s))
  {
    if s != [] {
      SortGivesOrder(less, s[1..]);
      InsertKeepsOrder(less, s[0], StableSort(less, s[1..]));
    }
  }

  lemma {:induction false} SortOfOrdered(less: (Candidate, Candidate) -> bool, s: seq<Candidate>)
    requires InOrder(less, s)
    ensures StableSort(less, s) == s
  {
    if s != [] {
      forall i | 0 <= i < |s[1..]| - 1 ensures !less(s[1..][i + 1], s[1..][i]) {
        assert !less(s[i + 1 + 1], s[i + 1]);
      }
      SortOfOrdered(less, s[1..]);
      if |s| > 1 { assert !less(s[0 + 1], s[0]); }
    }
  }

  /** Sorting is idempotent, even where the rank is not transitive. */
  lemma {:induction false} SortTwice(less: (Candidate, Candidate) -> bool, s: seq<Candidate>)
    requires Asymmetric(less)
    ensures StableSort(less, StableSort(less, s)) == StableSort(less, s)
  {
    SortGivesOrder(less, s);
    SortOfOrdered(less, StableSort(less, s));
  }

  function ByRank(key: Key): (Candidate, Candidate) -> bool {
    (a, b) => RankLess(key, a, b)
  }

  lemma RankIsAsymmetric(key: Key)
    ensures Asymmetric(ByRank(key))
  {
    forall a, b ensures !(RankLess(key, a, b) && RankLess(key, b, a)) {
      if Less(key(a), key(b)) { LessIsAsymmetric(key(a), key(b)); }
    }
  }
}
