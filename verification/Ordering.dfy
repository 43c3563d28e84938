/**
 The order `sort.Strings` uses, and the one sorted sequence of a finite set of strings.
 Every place where the program ranges over a map and then sorts the keys is modelled by
 `SortedKeys`, whose value does not depend on the order in which the keys were met.
 */
module Ordering {

  /** Strict lexicographic order by code point, which for UTF-8 text is the byte order. */
  predicate Less(a: string, b: string) {
    |b| > 0 && (|a| == 0 || a[0] < b[0] || (a[0] == b[0] && Less(a[1..], b[1..])))
  }

  lemma {:induction false} LessIsTotal(a: string, b: string)
    ensures Less(a, b) || a == b || Less(b, a)
  {
    if |a| > 0 && |b| > 0 && a[0] == b[0] {
      LessIsTotal(a[1..], b[1..]);
      assert a == [a[0]] + a[1..] && b == [b[0]] + b[1..];
    }
  }

  lemma {:induction false} LessIsAsymmetric(a: string, b: string)
    requires Less(a, b)
    ensures !Less(b, a)
    ensures a != b
  {
    if |a| > 0 && a[0] == b[0] {
      LessIsAsymmetric(a[1..], b[1..]);
    }
  }

  lemma {:induction false} LessIsTransitive(a: string, b: string, c: string)
    requires Less(a, b) && Less(b, c)
    ensures Less(a, c)
  {
    if |a| > 0 && a[0] == b[0] == c[0] {
      LessIsTransitive(a[1..], b[1..], c[1..]);
    }
  }

  /** Sorted with no repetition. */
  ghost predicate Ascending(s: seq<string>) {
    forall i, j | 0 <= i < j < |s| :: Less(s[i], s[j])
  }

  /** One insertion step of a sort; a value that is already there is not repeated. */
  function Insert(x: string, s: seq<string>): (r: seq<string>) {
    if s == [] then [x]
    else if x == s[0] then s
    else if Less(x, s[0]) then [x] + s
    else [s[0]] + Insert(x, s[1..])
  }

  lemma {:induction false} InsertElements(x: string, s: seq<string>)
    ensures forall k :: k in Insert(x, s) <==> k == x || k in s
  {
    if s != [] && x != s[0] && !Less(x, s[0]) {
      InsertElements(x, s[1..]);
      assert s == [s[0]] + s[1..];
    }
  }

  lemma {:induction false} InsertAscending(x: string, s: seq<string>)
    requires Ascending(s)
    ensures Ascending(Insert(x, s))
  {
    if s != [] && x != s[0] {
      LessIsTotal(x, s[0]);
      if Less(x, s[0]) {
        forall j | 0 <= j < |s| ensures Less(x, s[j]) {
          if j > 0 { LessIsTransitive(x, s[0], s[j]); }
        }
      } else {
        InsertAscending(x, s[1..]);
        InsertElements(x, s[1..]);
        var t := Insert(x, s[1..]);
        forall j | 0 <= j < |t| ensures Less(s[0], t[j]) {
          assert t[j] in t;
          if t[j] != x {
            var k :| 0 <= k < |s[1..]| && s[1..][k] == t[j];
            assert s[k + 1] == t[j];
          }
        }
      }
    }
  }

  /** `sort.Strings`, which keeps repeated values. */
  function Sort(s: seq<string>): (r: seq<string>)
    ensures multiset(r) == multiset(s)
  {
    if s == [] then []
    else
      assert s == [s[0]] + s[1..];
      Place(s[0], Sort(s[1..]))
  }

  function Place(x: string, s: seq<string>): (r: seq<string>)
    ensures multiset(r) == multiset{x} + multiset(s)
  {
    if s == [] || !Less(s[0], x) then [x] + s
    else
      assert s == [s[0]] + s[1..];
      [s[0]] + Place(x, s[1..])
  }

  lemma {:induction false} SortKeepsElements(s: seq<string>)
    ensures forall x :: x in Sort(s) <==> x in s
  {
    forall x ensures x in Sort(s) <==> x in s {
      assert x in Sort(s) <==> x in multiset(Sort(s));
      assert x in s <==> x in multiset(s);
    }
  }

  ghost predicate Sorted(s: seq<string>) {
    forall i, j | 0 <= i < j < |s| :: !Less(s[j], s[i])
  }

  lemma {:induction false} PlaceIsSorted(x: string, s: seq<string>)
    requires Sorted(s)
    ensures Sorted(Place(x, s))
  {
    if s != [] {
      if Less(s[0], x) {
        PlaceIsSorted(x, s[1..]);
        var t := Place(x, s[1..]);
        forall j | 0 <= j < |t| ensures !Less(t[j], s[0]) {
          assert t[j] in multiset(t);
          if t[j] == x {
            LessIsAsymmetric(s[0], x);
          } else {
            assert t[j] in multiset(s[1..]);
            var k :| 0 <= k < |s[1..]| && s[1..][k] == t[j];
            assert s[k + 1] == t[j];
          }
        }
      } else {
        forall j | 0 <= j < |s| ensures !Less(s[j], x) {
          if j > 0 && Less(s[j], x) {
            LessIsTotal(s[0], s[j]);
            if Less(s[0], s[j]) { LessIsTransitive(s[0], s[j], x); }
          }
        }
      }
    }
  }

  lemma {:induction false} SortIsSorted(s: seq<string>)
    ensures Sorted(Sort(s))
  {
    if s != [] {
      SortIsSorted(s[1..]);
      PlaceIsSorted(s[0], Sort(s[1..]));
    }
  }

  /** `qualityStrings`, `sortedUnique`: sort, then drop equal neighbours. */
  function SortUnique(s: seq<string>): (r: seq<string>) {
    if s == [] then [] else Insert(s[0], SortUnique(s[1..]))
  }

  lemma {:induction false} SortUniqueIsSorted(s: seq<string>)
    ensures Ascending(SortUnique(s))
    ensures forall k :: k in SortUnique(s) <==> k in s
  {
    if s != [] {
      SortUniqueIsSorted(s[1..]);
      InsertAscending(s[0], SortUnique(s[1..]));
      InsertElements(s[0], SortUnique(s[1..]));
      assert s == [s[0]] + s[1..];
    }
  }

  /** There is only one ascending sequence with given elements. */
  lemma {:induction false} AscendingIsUnique(s: seq<string>, t: seq<string>)
    requires Ascending(s) && Ascending(t)
    requires forall k :: k in s <==> k in t
    ensures s == t
  {
    assert t != [] ==> t[0] in t;
    if s != [] {
      assert s[0] in s;
      var j :| 0 <= j < |t| && t[j] == s[0];
      assert t[0] in t;
      var i :| 0 <= i < |s| && s[i] == t[0];
      if i > 0 && j > 0 { LessIsAsymmetric(s[0], s[i]); }
      assert s[0] == t[0];
      forall k ensures k in s[1..] <==> k in t[1..] {
        TailMembers(s, k);
        TailMembers(t, k);
      }
      AscendingIsUnique(s[1..], t[1..]);
      assert s == [s[0]] + s[1..] && t == [t[0]] + t[1..];
    }
  }

  lemma TailMembers(s: seq<string>, k: string)
    requires Ascending(s) && s != []
    ensures k in s[1..] <==> k in s && k != s[0]
  {
    assert s == [s[0]] + s[1..];
    if k in s[1..] {
      var i :| 0 <= i < |s[1..]| && s[1..][i] == k;
      assert s[i + 1] == k;
      LessIsAsymmetric(s[0], s[i + 1]);
    }
  }

  lemma AscendingIsDistinct(s: seq<string>, i: nat, j: nat)
    requires Ascending(s) && i < |s| && j < |s| && s[i] == s[j]
    ensures i == j
  {
    if i < j { LessIsAsymmetric(s[i], s[j]); }
    if j < i { LessIsAsymmetric(s[j], s[i]); }
  }

  /** The keys of a map in sorted order, starting from any listing of them. */
  ghost function SortedKeys(ks: set<string>): (s: seq<string>)
    ensures Ascending(s)
    ensures forall k :: k in s <==> k in ks
  {
    if ks == {} then []
    else
      var k :| k in ks;
      var rest := SortedKeys(ks - {k});
      InsertAscending(k, rest);
      InsertElements(k, rest);
      Insert(k, rest)
  }

  /** However a map is iterated, sorting the keys gives `SortedKeys`. */
  lemma {:induction false} SortingAnyListing(listing: seq<string>, ks: set<string>)
    requires forall k :: k in listing <==> k in ks
    ensures SortUnique(listing) == SortedKeys(ks)
  {
    SortUniqueIsSorted(listing);
    AscendingIsUnique(SortUnique(listing), SortedKeys(ks));
  }

  /** Lists the keys of a map in an arbitrary order, as a `range` loop over it does. */
  method ListKeys(ks: set<string>) returns (listing: seq<string>)
    ensures forall k :: k in listing <==> k in ks
    ensures SortUnique(listing) == SortedKeys(ks)
    ensures forall i, j | 0 <= i < j < |listing| :: listing[i] != listing[j]
  {
    listing := [];
    var remaining := ks;
    while remaining != {}
      invariant remaining <= ks
      invariant forall k :: k in listing <==> k in ks - remaining
      invariant forall i, j | 0 <= i < j < |listing| :: listing[i] != listing[j]
      decreases remaining
    {
      var k :| k in remaining;
      assert k !in listing;
      listing := listing + [k];
      remaining := remaining - {k};
    }
    SortingAnyListing(listing, ks);
  }

  // ---------- sorting records by a key ----------

  /** `sort.Slice` with a string key. */
  function SortBy<T(==)>(key: T -> string, s: seq<T>): (r: seq<T>)
    ensures multiset(r) == multiset(s)
  {
    if s == [] then []
    else
      assert s == [s[0]] + s[1..];
      PlaceBy(key, s[0], SortBy(key, s[1..]))
  }

  function PlaceBy<T(==)>(key: T -> string, x: T, s: seq<T>): (r: seq<T>)
    ensures multiset(r) == multiset{x} + multiset(s)
  {
    if s == [] || !Less(key(s[0]), key(x)) then [x] + s
    else
      assert s == [s[0]] + s[1..];
      [s[0]] + PlaceBy(key, x, s[1..])
  }

  lemma {:induction false} SortByKeepsElements<T>(key: T -> string, s: seq<T>)
    ensures |SortBy(key, s)| == |s|
    ensures forall x :: x in SortBy(key, s) <==> x in s
  {
    assert |SortBy(key, s)| == |multiset(SortBy(key, s))|;
    forall x ensures x in SortBy(key, s) <==> x in s {
      assert x in SortBy(key, s) <==> x in multiset(SortBy(key, s));
      assert x in s <==> x in multiset(s);
    }
  }

  ghost predicate SortedBy<T(!new)>(key: T -> string, s: seq<T>) {
    forall i, j | 0 <= i < j < |s| :: !Less(key(s[j]), key(s[i]))
  }

  lemma {:induction false} PlaceByIsSorted<T(!new)>(key: T -> string, x: T, s: seq<T>)
    requires SortedBy(key, s)
    ensures SortedBy(key, PlaceBy(key, x, s))
  {
    if s != [] {
      if Less(key(s[0]), key(x)) {
        PlaceByIsSorted(key, x, s[1..]);
        var t := PlaceBy(key, x, s[1..]);
        forall j | 0 <= j < |t| ensures !Less(key(t[j]), key(s[0])) {
          assert t[j] in multiset(t);
          if t[j] == x {
            LessIsAsymmetric(key(s[0]), key(x));
          } else {
            assert t[j] in multiset(s[1..]);
            var k :| 0 <= k < |s[1..]| && s[1..][k] == t[j];
            assert s[k + 1] == t[j];
          }
        }
      } else {
        forall j | 0 <= j < |s| ensures !Less(key(s[j]), key(x)) {
          if j > 0 && Less(key(s[j]), key(x)) {
            LessIsTotal(key(s[0]), key(s[j]));
            if Less(key(s[0]), key(s[j])) { LessIsTransitive(key(s[0]), key(s[j]), key(x)); }
          }
        }
      }
    }
  }

  lemma {:induction false} SortByIsSorted<T(!new)>(key: T -> string, s: seq<T>)
    ensures SortedBy(key, SortBy(key, s))
  {
    if s != [] {
      SortByIsSorted(key, s[1..]);
      PlaceByIsSorted(key, s[0], SortBy(key, s[1..]));
    }
  }

  /** Sorting what is sorted already changes nothing. */
  lemma {:induction false} SortByOfSorted<T(!new)>(key: T -> string, s: seq<T>)
    requires SortedBy(key, s)
    ensures SortBy(key, s) == s
  {
    if s != [] {
      SortByOfSorted(key, s[1..]);
      assert s == [s[0]] + s[1..];
      if s[1..] != [] { assert !Less(key(s[1]), key(s[0])); }
    }
  }

  lemma {:induction false} SortByTwice<T(!new)>(key: T -> string, s: seq<T>)
    ensures SortBy(key, SortBy(key, s)) == SortBy(key, s)
  {
    SortByIsSorted(key, s);
    SortByOfSorted(key, SortBy(key, s));
  }

  /** No two elements have the same key. */
  ghost predicate DistinctBy<T>(key: T -> string, s: seq<T>) {
    forall i, j | 0 <= i < j < |s| :: key(s[i]) != key(s[j])
  }

  /** How often a key occurs is a matter of the multiset alone, so sorting keeps distinctness. */
  lemma {:induction false} PlaceByKeepsDistinct<T>(key: T -> string, x: T, s: seq<T>)
    requires DistinctBy(key, s) && forall y | y in s :: key(y) != key(x)
    ensures DistinctBy(key, PlaceBy(key, x, s))
  {
    if s != [] && Less(key(s[0]), key(x)) {
      assert forall y | y in s[1..] :: y in s;
      PlaceByKeepsDistinct(key, x, s[1..]);
      var t := PlaceBy(key, x, s[1..]);
      forall j | 0 <= j < |t| ensures key(t[j]) != key(s[0]) {
        assert t[j] in multiset(t);
        if t[j] != x {
          assert t[j] in multiset(s[1..]);
          var k :| 0 <= k < |s[1..]| && s[1..][k] == t[j];
          assert s[k + 1] == t[j];
        } else {
          assert s[0] in s;
        }
      }
    }
  }

  lemma {:induction false} SortByKeepsDistinct<T>(key: T -> string, s: seq<T>)
    requires DistinctBy(key, s)
    ensures DistinctBy(key, SortBy(key, s))
  {
    if s != [] {
      SortByKeepsDistinct(key, s[1..]);
      forall y | y in SortBy(key, s[1..]) ensures key(y) != key(s[0]) {
        assert y in multiset(SortBy(key, s[1..]));
        assert y in multiset(s[1..]);
        var k :| 0 <= k < |s[1..]| && s[1..][k] == y;
        assert s[k + 1] == y;
      }
      PlaceByKeepsDistinct(key, s[0], SortBy(key, s[1..]));
    }
  }

  /** There is only one sorted sequence of given elements with distinct keys, so the order in
      which the elements were met never shows. */
  lemma {:induction false} SortedDistinctIsUnique<T(!new)>(key: T -> string, s: seq<T>, t: seq<T>)
    requires SortedBy(key, s) && DistinctBy(key, s) && SortedBy(key, t) && DistinctBy(key, t)
    requires forall x :: x in s <==> x in t
    ensures s == t
  {
    assert t != [] ==> t[0] in t;
    if s != [] {
      assert s[0] in s;
      var j :| 0 <= j < |t| && t[j] == s[0];
      var i :| 0 <= i < |s| && s[i] == t[0];
      LessIsTotal(key(s[0]), key(t[0]));
      assert s[0] == t[0];
      forall x ensures x in s[1..] <==> x in t[1..] {
        RestMembers(key, s, x);
        RestMembers(key, t, x);
      }
      SortedDistinctIsUnique(key, s[1..], t[1..]);
      assert s == [s[0]] + s[1..] && t == [t[0]] + t[1..];
    }
  }

  lemma RestMembers<T>(key: T -> string, s: seq<T>, x: T)
    requires DistinctBy(key, s) && s != []
    ensures x in s[1..] <==> x in s && x != s[0]
  {
    assert s == [s[0]] + s[1..];
    if x in s[1..] {
      var i :| 0 <= i < |s[1..]| && s[1..][i] == x;
      assert s[i + 1] == x;
    }
  }
}
