/**
 Listings of the same things in different orders.
 */
module Permutations {

  ghost predicate Permuted<T>(a: seq<T>, b: seq<T>) {
    multiset(a) == multiset(b)
  }

  lemma {:induction false} SameMembers<T>(a: seq<T>, b: seq<T>)
    requires Permuted(a, b)
    ensures |a| == |b| && forall x :: x in a <==> x in b
  {
    assert |a| == |multiset(a)| && |b| == |multiset(b)|;
    forall x ensures x in a <==> x in b {
      assert x in a <==> x in multiset(a);
      assert x in b <==> x in multiset(b);
    }
  }

  lemma OneApart<T>(before: seq<T>, x: T, after: seq<T>)
    ensures multiset(before + [x] + after) == multiset(before + after) + multiset{x}
  {
    assert multiset(before + [x] + after) == multiset(before) + multiset{x} + multiset(after);
  }

  lemma Cancel<T>(m: multiset<T>, n: multiset<T>, x: T)
    requires m + multiset{x} == n + multiset{x}
    ensures m == n
  {
    assert m == m + multiset{x} - multiset{x};
  }

  /** Of two listings of the same things, the second holds the first one's last element somewhere. */
  lemma TakeOut<T>(a: seq<T>, b: seq<T>) returns (before: seq<T>, after: seq<T>)
    requires a != [] && Permuted(a, b)
    ensures b == before + [a[|a| - 1]] + after
    ensures Permuted(a[..|a| - 1], before + after)
  {
    var x, front := a[|a| - 1], a[..|a| - 1];
    assert x in multiset(a);
    var k :| 0 <= k < |b| && b[k] == x;
    before, after := b[..k], b[k + 1..];
    assert b == before + [x] + after;
    OneApart(before, x, after);
    assert a == front + [x];
    Cancel(multiset(front), multiset(before + after), x);
  }

  // ---------- counting ----------

  function Count<T>(p: T -> bool, s: seq<T>): nat {
    if s == [] then 0 else Count(p, s[..|s| - 1]) + if p(s[|s| - 1]) then 1 else 0
  }

  lemma {:induction false} CountOneMore<T>(p: T -> bool, s: seq<T>, x: T)
    ensures Count(p, s + [x]) == Count(p, s) + if p(x) then 1 else 0
  {
    assert (s + [x])[..|s|] == s;
  }

  lemma {:induction false} CountWithout<T>(p: T -> bool, a: seq<T>, x: T, b: seq<T>)
    ensures Count(p, a + [x] + b) == Count(p, a + b) + if p(x) then 1 else 0
  {
    if b == [] {
      assert a + [x] + b == a + [x] && a + b == a;
      CountOneMore(p, a, x);
    } else {
      var last, y := |b| - 1, b[|b| - 1];
      CountWithout(p, a, x, b[..last]);
      assert a + [x] + b == (a + [x] + b[..last]) + [y] && a + b == (a + b[..last]) + [y];
      CountOneMore(p, a + [x] + b[..last], y);
      CountOneMore(p, a + b[..last], y);
    }
  }

  lemma {:induction false} CountIgnoresOrder<T>(p: T -> bool, a: seq<T>, b: seq<T>)
    requires Permuted(a, b)
    ensures Count(p, a) == Count(p, b)
  {
    if a == [] {
      assert |b| == |multiset(b)|;
    } else {
      var before, after := TakeOut(a, b);
      CountWithout(p, before, a[|a| - 1], after);
      CountIgnoresOrder(p, a[..|a| - 1], before + after);
    }
  }

  // ---------- sorting out ----------

  function Filter<T>(p: T -> bool, s: seq<T>): seq<T> {
    if s == [] then [] else Filter(p, s[..|s| - 1]) + if p(s[|s| - 1]) then [s[|s| - 1]] else []
  }

  function Not<T>(p: T -> bool): T -> bool {
    x => !p(x)
  }

  lemma {:induction false} FilterHolds<T>(p: T -> bool, s: seq<T>)
    ensures forall x :: x in Filter(p, s) <==> x in s && p(x)
  {
    if s != [] {
      FilterHolds(p, s[..|s| - 1]);
      assert s == s[..|s| - 1] + [s[|s| - 1]];
    }
  }

  /** What is sorted out goes to the end, and nothing is lost. */
  lemma {:induction false} FilterSplits<T>(p: T -> bool, s: seq<T>)
    ensures Permuted(Filter(p, s) + Filter(Not(p), s), s)
  {
    if s != [] {
      var last, x := |s| - 1, s[|s| - 1];
      FilterSplits(p, s[..last]);
      assert s == s[..last] + [x];
    }
  }
}
