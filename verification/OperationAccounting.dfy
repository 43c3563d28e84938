/**
 Accounting of discovered operations against declared manifests: the counters of
 `applyDiscoveredOperations` (internal/architecturecatalog/builder.go) and their second
 implementation in `auditService` (internal/architecturemanifest/audit.go).

 Signatures are the normalized identities; `None` stands for an identity that cannot be
 normalized.
 */
module OperationAccounting {
  import opened Wrappers
  import opened Ordering
  import opened Permutations
  import opened StableIdentity

  datatype Kind = Http | NatsRequestReply | NatsEventSubscriber | Worker | Scheduled | Unknown

  datatype Discovered = Discovered(kind: Kind, signature: Option<string>, sourcePath: string)

  datatype Manifest = Manifest(kind: Kind, signature: Option<string>, evidencePaths: seq<string>)

  type Counts = map<string, nat>
  type BySource = map<string, seq<string>>

  function CountOf(counts: Counts, signature: string): nat {
    if signature in counts then counts[signature] else 0
  }

  predicate HasFallback(kind: Kind) {
    kind == Worker || kind == Scheduled
  }

  function KindName(kind: Kind): string {
    match kind
    case Worker => "worker"
    case Scheduled => "scheduled"
    case _ => ""
  }

  /** `catalogOperationSourceTypeKey`, `operationSourceTypeKey`. */
  function SourceTypeKey(kind: Kind, sourcePath: string): string {
    if TrimSpace(sourcePath) == "" then "" else KindName(kind) + "\0" + TrimSpace(sourcePath)
  }

  function Candidates(bySource: BySource, key: string): seq<string> {
    if key in bySource then bySource[key] else []
  }

  // ---------- sums over a map, whatever the order ----------

  ghost function Sum(counts: Counts, keys: set<string>): nat
    requires keys <= counts.Keys
  {
    if keys == {} then 0
    else
      var k :| k in keys;
      counts[k] + Sum(counts, keys - {k})
  }

  lemma {:induction false} SumTakes(counts: Counts, keys: set<string>, k: string)
    requires keys <= counts.Keys && k in keys
    ensures Sum(counts, keys) == counts[k] + Sum(counts, keys - {k})
  {
    var first :| first in keys && Sum(counts, keys) == counts[first] + Sum(counts, keys - {first});
    if first != k {
      SumTakes(counts, keys - {first}, k);
      SumTakes(counts, keys - {k}, first);
      assert keys - {first} - {k} == keys - {k} - {first};
    }
  }

  lemma {:induction false} SumGains(counts: Counts, keys: set<string>, k: string)
    requires keys <= counts.Keys && k in counts && k !in keys
    ensures Sum(counts, keys + {k}) == counts[k] + Sum(counts, keys)
  {
    SumTakes(counts, keys + {k}, k);
    assert keys + {k} - {k} == keys;
  }

  lemma {:induction false} SumSplits(counts: Counts, keys: set<string>, part: set<string>)
    requires part <= keys <= counts.Keys
    ensures Sum(counts, keys) == Sum(counts, part) + Sum(counts, keys - part)
  {
    if part == {} {
      assert keys - part == keys;
    } else {
      var k :| k in part;
      SumTakes(counts, keys, k);
      SumTakes(counts, part, k);
      SumSplits(counts, keys - {k}, part - {k});
      assert keys - {k} - (part - {k}) == keys - part;
    }
  }

  lemma {:induction false} SumIgnoresOthers(counts: Counts, more: Counts, keys: set<string>)
    requires keys <= counts.Keys && keys <= more.Keys
    requires forall k | k in keys :: counts[k] == more[k]
    ensures Sum(counts, keys) == Sum(more, keys)
  {
    if keys != {} {
      var k :| k in keys;
      SumTakes(counts, keys, k);
      SumTakes(more, keys, k);
      SumIgnoresOthers(counts, more, keys - {k});
    }
  }

  // ---------- the index of the manifests ----------

  function Normalizable(manifests: seq<Manifest>): nat {
    if manifests == [] then 0
    else (if manifests[|manifests| - 1].signature.Some? then 1 else 0) + Normalizable(manifests[..|manifests| - 1])
  }

  function Increment(counts: Counts, signature: string): Counts {
    counts[signature := CountOf(counts, signature) + 1]
  }

  lemma {:induction false} IncrementAddsOne(counts: Counts, signature: string)
    ensures Sum(Increment(counts, signature), Increment(counts, signature).Keys) == Sum(counts, counts.Keys) + 1
  {
    var more := Increment(counts, signature);
    SumTakes(more, more.Keys, signature);
    assert more.Keys - {signature} == counts.Keys - {signature};
    SumIgnoresOthers(counts, more, counts.Keys - {signature});
    if signature in counts {
      SumTakes(counts, counts.Keys, signature);
    } else {
      assert counts.Keys - {signature} == counts.Keys;
    }
  }

  /** Each candidate list names signatures of manifests, none twice. */
  ghost predicate WellIndexed(counts: Counts, bySource: BySource) {
    && "" !in bySource
    && forall key | key in bySource :: DistinctStrings(bySource[key]) && forall s | s in bySource[key] ::
         s in counts && s != ""
  }

  ghost predicate DistinctStrings(s: seq<string>) {
    forall i, j | 0 <= i < j < |s| :: s[i] != s[j]
  }

  function Declares(signature: string): Manifest -> bool {
    (m: Manifest) => m.signature == Some(signature)
  }

  /** How many manifests declare a signature. */
  function Declared(manifests: seq<Manifest>, signature: string): nat {
    Count(Declares(signature), manifests)
  }

  /** A declaration that an operation of the same kind and source path may fall back on. */
  ghost predicate Offers(m: Manifest, key: string, signature: string) {
    && HasFallback(m.kind) && m.signature == Some(signature) && key != ""
    && exists path :: path in m.evidencePaths && SourceTypeKey(m.kind, path) == key
  }

  ghost predicate Offered(manifests: seq<Manifest>, key: string, signature: string) {
    exists m :: m in manifests && Offers(m, key, signature)
  }

  /** The two maps say how often each signature is declared, and what is on offer where. */
  ghost predicate Indexes(manifests: seq<Manifest>, counts: Counts, bySource: BySource) {
    && (forall s :: CountOf(counts, s) == Declared(manifests, s))
    && (forall s | s in counts :: counts[s] > 0)
    && (forall key, s :: s in Candidates(bySource, key) <==> Offered(manifests, key, s))
  }

  /** The loop over the manifests; `unnormalizable` is counted by the audit only. */
  method IndexManifests(manifests: seq<Manifest>) returns (counts: Counts, bySource: BySource, unnormalizable: nat)
    requires forall m | m in manifests :: m.signature != Some("")
    ensures Indexes(manifests, counts, bySource)
    ensures Sum(counts, counts.Keys) == Normalizable(manifests)
    ensures unnormalizable + Normalizable(manifests) == |manifests|
    ensures WellIndexed(counts, bySource)
  {
    counts, bySource, unnormalizable := map[], map[], 0;
    for i := 0 to |manifests|
      invariant Indexes(manifests[..i], counts, bySource)
      invariant Sum(counts, counts.Keys) == Normalizable(manifests[..i])
      invariant unnormalizable + Normalizable(manifests[..i]) == i
      invariant WellIndexed(counts, bySource)
    {
      var m := manifests[i];
      assert m in manifests;
      assert manifests[..i + 1][..i] == manifests[..i];
      ghost var before := bySource;
      ghost var counted := counts;
      match m.signature {
        case None =>
          unnormalizable := unnormalizable + 1;
        case Some(signature) =>
          IncrementAddsOne(counts, signature);
          counts := Increment(counts, signature);
          if HasFallback(m.kind) {
            bySource := IndexEvidence(counts, bySource, m, signature);
          }
      }
      IndexesOneMore(manifests[..i], m, counted, before, counts, bySource);
      assert manifests[..i + 1] == manifests[..i] + [m];
    }
    assert manifests[..|manifests|] == manifests;
  }

  lemma IndexesOneMore(manifests: seq<Manifest>, m: Manifest, before: Counts, offered: BySource, counts: Counts,
                       bySource: BySource)
    requires Indexes(manifests, before, offered)
    requires counts == if m.signature.Some? then Increment(before, m.signature.value) else before
    requires forall key, s :: s in Candidates(bySource, key) <==> s in Candidates(offered, key) || Offers(m, key, s)
    ensures Indexes(manifests + [m], counts, bySource)
  {
    forall s ensures CountOf(counts, s) == Declared(manifests + [m], s) {
      CountOneMore(Declares(s), manifests, m);
      assert CountOf(before, s) == Declared(manifests, s);
    }
    forall key, s ensures s in Candidates(bySource, key) <==> Offered(manifests + [m], key, s) {
      if Offered(manifests + [m], key, s) {
        var one :| one in manifests + [m] && Offers(one, key, s);
        assert one == m || Offered(manifests, key, s);
      } else {
        assert forall one | one in manifests :: one in manifests + [m];
        assert m in manifests + [m];
      }
    }
  }

  lemma AppendKeepsIndex(counts: Counts, bySource: BySource, key: string, signature: string)
    requires WellIndexed(counts, bySource) && signature in counts && signature != "" && key != ""
    requires signature !in Candidates(bySource, key)
    ensures WellIndexed(counts, bySource[key := Candidates(bySource, key) + [signature]])
  {
  }

  ghost predicate OffersUnder(kind: Kind, paths: seq<string>, key: string) {
    key != "" && exists path :: path in paths && SourceTypeKey(kind, path) == key
  }

  method IndexEvidence(ghost counts: Counts, bySource: BySource, m: Manifest, signature: string)
    returns (indexed: BySource)
    requires WellIndexed(counts, bySource) && signature in counts && signature != ""
    requires HasFallback(m.kind) && m.signature == Some(signature)
    ensures WellIndexed(counts, indexed)
    ensures forall key, s :: s in Candidates(indexed, key) <==> s in Candidates(bySource, key) || Offers(m, key, s)
  {
    indexed := bySource;
    var paths := m.evidencePaths;
    for i := 0 to |paths|
      invariant WellIndexed(counts, indexed)
      invariant forall key, s :: s in Candidates(indexed, key)
                  <==> s in Candidates(bySource, key) || (s == signature && OffersUnder(m.kind, paths[..i], key))
    {
      var key := SourceTypeKey(m.kind, paths[i]);
      OneMorePath(m.kind, paths, i);
      if key != "" && signature !in Candidates(indexed, key) {
        AppendKeepsIndex(counts, indexed, key, signature);
        indexed := indexed[key := Candidates(indexed, key) + [signature]];
      }
    }
    assert paths[..|paths|] == paths;
    forall key, s ensures Offers(m, key, s) <==> s == signature && OffersUnder(m.kind, paths, key) {
    }
  }

  lemma OneMorePath(kind: Kind, paths: seq<string>, i: nat)
    requires i < |paths|
    ensures forall key :: OffersUnder(kind, paths[..i + 1], key)
              <==> OffersUnder(kind, paths[..i], key) || (key != "" && key == SourceTypeKey(kind, paths[i]))
  {
    assert paths[..i + 1] == paths[..i] + [paths[i]];
    forall key ensures OffersUnder(kind, paths[..i + 1], key)
              <==> OffersUnder(kind, paths[..i], key) || (key != "" && key == SourceTypeKey(kind, paths[i]))
    {
      if OffersUnder(kind, paths[..i], key) {
        var path :| path in paths[..i] && SourceTypeKey(kind, path) == key;
        assert path in paths[..i + 1];
      }
      assert paths[i] in paths[..i + 1];
    }
  }

  // ---------- the source fallback ----------

  /** The unused declarations that a source path leaves possible. */
  ghost function Open(candidates: seq<string>, counts: Counts, matched: set<string>): set<string> {
    set c | c in candidates && CountOf(counts, c) == 1 && c !in matched
  }

  /** `uniqueCatalogSourceOperationManifest`, `uniqueSourceOperationManifest`: the one open
      candidate, or nothing. */
  method UniqueFallback(op: Discovered, counts: Counts, bySource: BySource, matched: set<string>)
    returns (result: string)
    requires WellIndexed(counts, bySource)
    ensures result == Fallback(op, counts, bySource, matched)
  {
    result := "";
    if !HasFallback(op.kind) {
      return;
    }
    var candidates := Candidates(bySource, SourceTypeKey(op.kind, op.sourcePath));
    for i := 0 to |candidates|
      invariant result == "" ==> Open(candidates[..i], counts, matched) == {}
      invariant result != "" ==> Open(candidates[..i], counts, matched) == {result}
    {
      var c := candidates[i];
      assert c in candidates;
      assert candidates[..i + 1] == candidates[..i] + [c];
      if CountOf(counts, c) == 1 && c !in matched {
        assert c !in candidates[..i] by {
          assert forall k | 0 <= k < i :: candidates[k] != candidates[i];
        }
        if result != "" {
          assert {c, result} <= Open(candidates, counts, matched);
          NotSingleton(Open(candidates, counts, matched), c, result);
          return "";
        }
        result := c;
        assert Open(candidates[..i + 1], counts, matched) == {c};
      } else {
        assert Open(candidates[..i + 1], counts, matched) == Open(candidates[..i], counts, matched);
      }
    }
    assert candidates[..|candidates|] == candidates;
  }

  lemma NotSingleton(s: set<string>, x: string, y: string)
    requires x in s && y in s && x != y
    ensures forall z :: s != {z}
  {
    forall z ensures s != {z} {
      assert x !in {z} || y !in {z};
    }
  }

  ghost function Fallback(op: Discovered, counts: Counts, bySource: BySource, matched: set<string>): string {
    if !HasFallback(op.kind) then ""
    else
      var open := Open(Candidates(bySource, SourceTypeKey(op.kind, op.sourcePath)), counts, matched);
      if exists c :: open == {c} then (var c :| open == {c}; c) else ""
  }

  /** The order of the candidates is irrelevant. */
  lemma FallbackIgnoresOrder(op: Discovered, counts: Counts, bySource: BySource, other: BySource, matched: set<string>)
    requires forall key, c :: c in Candidates(bySource, key) <==> c in Candidates(other, key)
    ensures Fallback(op, counts, bySource, matched) == Fallback(op, counts, other, matched)
  {
    var key := SourceTypeKey(op.kind, op.sourcePath);
    assert Open(Candidates(bySource, key), counts, matched) == Open(Candidates(other, key), counts, matched);
  }

  // ---------- the counters ----------

  datatype Tally = Tally(total: nat, withManifests: nat, missing: nat, blocked: nat, matched: set<string>)

  const EMPTY := Tally(0, 0, 0, 0, {})

  /** One discovered operation.  `marking` says whether an ambiguous signature is marked as
      matched: the builder does, the audit does not. */
  ghost function Step(t: Tally, op: Discovered, counts: Counts, bySource: BySource, marking: bool): Tally {
    match op.signature
    case None => t.(total := t.total + 1, blocked := t.blocked + 1)
    case Some(s) =>
      if CountOf(counts, s) == 0 then
        var f := Fallback(op, counts, bySource, t.matched);
        if f != "" then t.(total := t.total + 1, withManifests := t.withManifests + 1, matched := t.matched + {f})
        else t.(total := t.total + 1, missing := t.missing + 1)
      else if CountOf(counts, s) == 1 then
        t.(total := t.total + 1, withManifests := t.withManifests + 1, matched := t.matched + {s})
      else
        t.(total := t.total + 1, blocked := t.blocked + 1, matched := if marking then t.matched + {s} else t.matched)
  }

  /** What one operation adds depends on the matched manifests only. */
  lemma StepAdds(t: Tally, op: Discovered, counts: Counts, bySource: BySource, marking: bool)
    ensures var all, one := Step(t, op, counts, bySource, marking),
                Step(Tally(0, 0, 0, 0, t.matched), op, counts, bySource, marking);
            && all.matched == one.matched && all.total == t.total + one.total
            && all.withManifests == t.withManifests + one.withManifests
            && all.missing == t.missing + one.missing && all.blocked == t.blocked + one.blocked
  {
  }

  ghost function Run(ops: seq<Discovered>, counts: Counts, bySource: BySource, marking: bool): Tally {
    if ops == [] then EMPTY
    else Step(Run(ops[..|ops| - 1], counts, bySource, marking), ops[|ops| - 1], counts, bySource, marking)
  }

  /** Every discovered operation is counted once, and only declared signatures are matched. */
  lemma {:induction false} EveryOperationIsCounted(ops: seq<Discovered>, counts: Counts, bySource: BySource,
                                                   marking: bool)
    ensures var t := Run(ops, counts, bySource, marking);
            && t.total == |ops| == t.withManifests + t.missing + t.blocked
            && t.matched <= counts.Keys
  {
    if ops != [] {
      var before := Run(ops[..|ops| - 1], counts, bySource, marking);
      EveryOperationIsCounted(ops[..|ops| - 1], counts, bySource, marking);
      FallbackIsOpen(ops[|ops| - 1], counts, bySource, before.matched);
    }
  }

  /** A fallback is an unused manifest of the operation's own source path, the only one. */
  lemma FallbackIsOpen(op: Discovered, counts: Counts, bySource: BySource, matched: set<string>)
    ensures var f := Fallback(op, counts, bySource, matched);
            f != "" ==> && f in counts && counts[f] == 1 && f !in matched
                        && f in Candidates(bySource, SourceTypeKey(op.kind, op.sourcePath))
                        && forall c | c in Open(Candidates(bySource, SourceTypeKey(op.kind, op.sourcePath)), counts,
                             matched) :: c == f
  {
    var f := Fallback(op, counts, bySource, matched);
    if f != "" {
      var open := Open(Candidates(bySource, SourceTypeKey(op.kind, op.sourcePath)), counts, matched);
      assert open == {f};
      assert f in open;
    }
  }

  /** The manifest that the `i`-th operation takes through the fallback, if any. */
  ghost function TakenBy(ops: seq<Discovered>, counts: Counts, bySource: BySource, marking: bool, i: nat): string
    requires i < |ops|
  {
    if ops[i].signature.Some? && CountOf(counts, ops[i].signature.value) == 0
    then Fallback(ops[i], counts, bySource, Run(ops[..i], counts, bySource, marking).matched)
    else ""
  }

  lemma {:induction false} MatchedGrows(ops: seq<Discovered>, counts: Counts, bySource: BySource, marking: bool, i: nat)
    requires i <= |ops|
    ensures Run(ops[..i], counts, bySource, marking).matched <= Run(ops, counts, bySource, marking).matched
  {
    if i < |ops| {
      assert ops[..|ops| - 1][..i] == ops[..i];
      MatchedGrows(ops[..|ops| - 1], counts, bySource, marking, i);
    } else {
      assert ops[..i] == ops;
    }
  }

  /** No manifest is taken twice through the fallback. */
  lemma FallbacksAreDistinct(ops: seq<Discovered>, counts: Counts, bySource: BySource, marking: bool, i: nat, j: nat)
    requires i < j < |ops|
    requires TakenBy(ops, counts, bySource, marking, i) != ""
    ensures TakenBy(ops, counts, bySource, marking, i) != TakenBy(ops, counts, bySource, marking, j)
  {
    var taken := TakenBy(ops, counts, bySource, marking, i);
    assert ops[..i + 1][..i] == ops[..i] && ops[..i + 1][i] == ops[i];
    assert taken in Run(ops[..i + 1], counts, bySource, marking).matched;
    assert ops[..j][..i + 1] == ops[..i + 1];
    MatchedGrows(ops[..j], counts, bySource, marking, i + 1);
    FallbackIsOpen(ops[j], counts, bySource, Run(ops[..j], counts, bySource, marking).matched);
  }

  /** The audit counts like the builder: the same operations are with or without a manifest,
      and the two sets of matched signatures differ only in ambiguous ones. */
  lemma {:induction false} AuditAgreesWithBuilder(ops: seq<Discovered>, counts: Counts, bySource: BySource)
    ensures var b, a := Run(ops, counts, bySource, true), Run(ops, counts, bySource, false);
            && a.(matched := {}) == b.(matched := {})
            && a.matched <= b.matched
            && forall s | s in b.matched && s !in a.matched :: CountOf(counts, s) > 1
  {
    if ops != [] {
      var last := ops[|ops| - 1];
      var b, a := Run(ops[..|ops| - 1], counts, bySource, true), Run(ops[..|ops| - 1], counts, bySource, false);
      AuditAgreesWithBuilder(ops[..|ops| - 1], counts, bySource);
      var candidates := Candidates(bySource, SourceTypeKey(last.kind, last.sourcePath));
      assert Open(candidates, counts, a.matched) == Open(candidates, counts, b.matched);
      assert Fallback(last, counts, bySource, a.matched) == Fallback(last, counts, bySource, b.matched);
    }
  }

  /** The order of the candidates never shows in the counters. */
  lemma {:induction false} RunIgnoresCandidateOrder(ops: seq<Discovered>, counts: Counts, bySource: BySource,
                                                    other: BySource,
                                                    marking: bool)
    requires forall key, c :: c in Candidates(bySource, key) <==> c in Candidates(other, key)
    ensures Run(ops, counts, bySource, marking) == Run(ops, counts, other, marking)
  {
    if ops != [] {
      RunIgnoresCandidateOrder(ops[..|ops| - 1], counts, bySource, other, marking);
      FallbackIgnoresOrder(ops[|ops| - 1], counts, bySource, other,
                           Run(ops[..|ops| - 1], counts, bySource, marking).matched);
    }
  }

  // ---------- the order in which the manifests are met ----------

  /** The manifests come out of a map: whatever order they are met in, the counters are the same. */
  lemma {:induction false} ManifestOrderIsIrrelevant(a: seq<Manifest>, b: seq<Manifest>, ops: seq<Discovered>,
                                                     marking: bool,
                                  counts: Counts, bySource: BySource, counts': Counts, bySource': BySource)
    requires Permuted(a, b)
    requires Indexes(a, counts, bySource) && Indexes(b, counts', bySource')
    ensures counts == counts'
    ensures Run(ops, counts, bySource, marking) == Run(ops, counts', bySource', marking)
  {
    forall s ensures CountOf(counts, s) == CountOf(counts', s) {
      CountIgnoresOrder(Declares(s), a, b);
    }
    assert counts == counts' by {
      forall s ensures s in counts <==> s in counts' {
        assert CountOf(counts, s) == CountOf(counts', s);
      }
      forall s | s in counts ensures counts[s] == counts'[s] {
        assert CountOf(counts, s) == CountOf(counts', s);
      }
    }
    forall key, c ensures c in Candidates(bySource, key) <==> c in Candidates(bySource', key) {
      SameMembers(a, b);
      assert Offered(a, key, c) <==> Offered(b, key, c);
    }
    RunIgnoresCandidateOrder(ops, counts, bySource, bySource', marking);
  }

  // ---------- the two implementations ----------

  /** The final loop over the manifest signatures, in an arbitrary order. */
  method CountUnmatched(counts: Counts, matched: set<string>) returns (n: nat)
    requires matched <= counts.Keys
    ensures n + Sum(counts, matched) == Sum(counts, counts.Keys)
  {
    n := 0;
    var signatures := ListKeys(counts.Keys);
    ghost var done := {};
    for i := 0 to |signatures|
      invariant done <= counts.Keys && done !! matched
      invariant forall k | 0 <= k < i :: signatures[k] in done || signatures[k] in matched
      invariant forall k | i <= k < |signatures| :: signatures[k] !in done
      invariant n == Sum(counts, done)
    {
      var s := signatures[i];
      assert s in signatures;
      if s !in matched {
        n := n + counts[s];
        SumGains(counts, done, s);
        done := done + {s};
      }
    }
    assert done == counts.Keys - matched;
    SumSplits(counts, counts.Keys, matched);
  }

  class Completeness {
    var total: nat
    var withManifests: nat
    var missing: nat
    var blocked: nat
    var withoutDiscovery: nat

    constructor ()
      ensures total == withManifests == missing == blocked == withoutDiscovery == 0
    {
      total, withManifests, missing, blocked, withoutDiscovery := 0, 0, 0, 0, 0;
    }

    /** `applyDiscoveredOperations`. */
    method ApplyDiscovered(ops: seq<Discovered>, counts: Counts, bySource: BySource)
      requires WellIndexed(counts, bySource) && total == withManifests == missing == blocked == withoutDiscovery == 0
      modifies this
      ensures var t := Run(ops, counts, bySource, true);
              && total == t.total && withManifests == t.withManifests && missing == t.missing && blocked == t.blocked
              && t.matched <= counts.Keys
              && withoutDiscovery + Sum(counts, t.matched) == Sum(counts, counts.Keys)
      ensures total == |ops| == withManifests + missing + blocked
    {
      var matched := CountOperations(ops, counts, bySource, true);
      EveryOperationIsCounted(ops, counts, bySource, true);
      withoutDiscovery := CountUnmatched(counts, matched);
    }

    /** One round of the loop over the discovered operations. */
    method CountOne(op: Discovered, counts: Counts, bySource: BySource, marking: bool, before: set<string>)
      returns (matched: set<string>)
      requires WellIndexed(counts, bySource)
      modifies this`total, this`withManifests, this`missing, this`blocked
      ensures var t := Step(Tally(0, 0, 0, 0, before), op, counts, bySource, marking);
              && matched == t.matched && total == old(total) + t.total
              && withManifests == old(withManifests) + t.withManifests
              && missing == old(missing) + t.missing && blocked == old(blocked) + t.blocked
    {
      matched := before;
      total := total + 1;
      match op.signature
      case None =>
        blocked := blocked + 1;
      case Some(signature) =>
        var n := CountOf(counts, signature);
        if n == 0 {
          var fallback := UniqueFallback(op, counts, bySource, matched);
          if fallback != "" {
            withManifests := withManifests + 1;
            matched := matched + {fallback};
          } else {
            missing := missing + 1;
          }
        } else if n == 1 {
          withManifests := withManifests + 1;
          matched := matched + {signature};
        } else {
          blocked := blocked + 1;
          if marking {
            matched := matched + {signature};
          }
        }
    }

    /** That loop, in either implementation. */
    method CountOperations(ops: seq<Discovered>, counts: Counts, bySource: BySource, marking: bool)
      returns (matched: set<string>)
      requires WellIndexed(counts, bySource)
      modifies this`total, this`withManifests, this`missing, this`blocked
      ensures var t := Run(ops, counts, bySource, marking);
              && matched == t.matched && total == old(total) + t.total
              && withManifests == old(withManifests) + t.withManifests
              && missing == old(missing) + t.missing && blocked == old(blocked) + t.blocked
    {
      matched := {};
      for i := 0 to |ops|
        invariant var t := Run(ops[..i], counts, bySource, marking);
              && matched == t.matched && total == old(total) + t.total
              && withManifests == old(withManifests) + t.withManifests
              && missing == old(missing) + t.missing && blocked == old(blocked) + t.blocked
      {
        assert ops[..i + 1][..i] == ops[..i];
        StepAdds(Run(ops[..i], counts, bySource, marking), ops[i], counts, bySource, marking);
        matched := CountOne(ops[i], counts, bySource, marking, matched);
      }
      assert ops[..|ops|] == ops;
    }

    /** The counters of `auditService`: un-normalizable manifests are blocked too. */
    method Audit(ops: seq<Discovered>, counts: Counts, bySource: BySource, unnormalizable: nat)
      requires WellIndexed(counts, bySource) && total == withManifests == missing == blocked == withoutDiscovery == 0
      modifies this
      ensures var b := Run(ops, counts, bySource, true);
              withManifests == b.withManifests && missing == b.missing && blocked == b.blocked + unnormalizable
    {
      blocked := unnormalizable;
      var matched := CountOperations(ops, counts, bySource, false);
      AuditAgreesWithBuilder(ops, counts, bySource);
    }
  }
}
