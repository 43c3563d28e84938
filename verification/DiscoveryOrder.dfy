/**
 When the order in which operations were discovered shows in the counters of
 `applyDiscoveredOperations` (internal/architecturecatalog/builder.go) and `auditService`
 (internal/architecturemanifest/audit.go), although it should not.
 */
module DiscoveryOrder {
  import opened Wrappers
  import opened Permutations
  import opened OperationAccounting

  /** What the loop over the discovered operations consults. */
  datatype Index = Index(counts: Counts, bySource: BySource, marking: bool)
  {
    ghost predicate Valid() {
      WellIndexed(counts, bySource)
    }

    /** The operation has the identity of exactly one manifest. */
    predicate Exact(op: Discovered) {
      op.signature.Some? && CountOf(counts, op.signature.value) == 1
    }

    predicate Ambiguous(op: Discovered) {
      op.signature.Some? && CountOf(counts, op.signature.value) > 1
    }

    /** The operation is left to the fallback. */
    predicate FallsBack(op: Discovered) {
      op.signature.Some? && CountOf(counts, op.signature.value) == 0 && HasFallback(op.kind)
    }

    /** The manifests that the fallback may choose from while nothing is matched. */
    ghost function Choices(op: Discovered): set<string> {
      Open(Candidates(bySource, SourceTypeKey(op.kind, op.sourcePath)), counts, {})
    }

    /** The identity that the operation marks as matched by itself. */
    predicate Names(op: Discovered, s: string) {
      op.signature == Some(s) && (Exact(op) || (marking && Ambiguous(op)))
    }
  }

  ghost function Tallied(x: Index, ops: seq<Discovered>): Tally {
    Run(ops, x.counts, x.bySource, x.marking)
  }

  /** The manifests that some operation names exactly. */
  ghost function Exacts(x: Index, ops: seq<Discovered>): set<string> {
    set op | op in ops && x.Exact(op) :: op.signature.value
  }

  ghost function Named(x: Index, ops: seq<Discovered>): set<string> {
    set op | op in ops && (x.Exact(op) || (x.marking && x.Ambiguous(op))) :: op.signature.value
  }

  ghost predicate IsSoleOf(x: Index, op: Discovered, c: string) {
    x.FallsBack(op) && x.Choices(op) == {c}
  }

  /** The manifests that are the only choice of some operation, and that no operation names. */
  ghost function Soles(x: Index, ops: seq<Discovered>): set<string> {
    set op, c | op in ops && c in x.Choices(op) && IsSoleOf(x, op, c) && c !in Exacts(x, ops) :: c
  }

  lemma SoleMembers(x: Index, ops: seq<Discovered>)
    ensures forall c :: c in Soles(x, ops) <==> c !in Exacts(x, ops) && exists op :: op in ops && IsSoleOf(x, op, c)
  {
    forall op, c | IsSoleOf(x, op, c) ensures c in x.Choices(op) {
      assert c in {c};
    }
  }

  /** The operation may get a manifest or not: one of its choices is no sole choice, and all the
      others can be taken before it. */
  ghost predicate Wavers(x: Index, op: Discovered, exacts: set<string>, soles: set<string>) {
    x.FallsBack(op) && exists c :: c in x.Choices(op) && c !in soles && x.Choices(op) - {c} <= exacts + soles
  }

  ghost predicate NoneWavers(x: Index, ops: seq<Discovered>, exacts: set<string>, soles: set<string>) {
    forall op | op in ops :: !Wavers(x, op, exacts, soles)
  }

  /** Every operation either chooses among sole choices only, or has at least two choices that
      nothing else can take. */
  ghost predicate OrderFree(x: Index, ops: seq<Discovered>) {
    NoneWavers(x, ops, Exacts(x, ops), Soles(x, ops))
  }

  function IsExact(x: Index): Discovered -> bool {
    (op: Discovered) => x.Exact(op)
  }

  function IsBlocked(x: Index): Discovered -> bool {
    (op: Discovered) => op.signature.None? || x.Ambiguous(op)
  }

  // ---------- one step ----------

  /** The manifest that the operation takes through the fallback, or "". */
  ghost function Taken(x: Index, op: Discovered, matched: set<string>): string {
    if x.FallsBack(op) then Fallback(op, x.counts, x.bySource, matched) else ""
  }

  /** What one operation does to the counters and to the matched manifests. */
  lemma StepFacts(x: Index, t: Tally, op: Discovered)
    ensures var u, c := Step(t, op, x.counts, x.bySource, x.marking), Taken(x, op, t.matched);
            && u.withManifests == t.withManifests + (if x.Exact(op) || c != "" then 1 else 0)
            && u.blocked == t.blocked + (if IsBlocked(x)(op) then 1 else 0)
            && u.matched == t.matched + (if c != "" then {c} else {}) + Named(x, [op])
            && (x.FallsBack(op) ==> Named(x, [op]) == {})
  {
    assert forall o | o in [op] :: o == op;
    assert [op][0] in [op];
    if op.signature.Some? && (x.Exact(op) || (x.marking && x.Ambiguous(op))) {
      assert Named(x, [op]) == {op.signature.value};
    } else {
      assert Named(x, [op]) == {};
    }
  }

  /** The fallback takes the one choice that is left. */
  lemma TakenIsLeft(x: Index, op: Discovered, matched: set<string>)
    requires x.Valid()
    ensures var c := Taken(x, op, matched);
            && (c != "" ==> x.FallsBack(op) && x.Choices(op) - matched == {c})
            && (forall d :: x.FallsBack(op) && x.Choices(op) - matched == {d} ==> c == d && c != "")
  {
    var candidates := Candidates(x.bySource, SourceTypeKey(op.kind, op.sourcePath));
    assert Open(candidates, x.counts, matched) == x.Choices(op) - matched;
    forall d | x.Choices(op) - matched == {d} ensures d != "" {
      assert d in x.Choices(op) && d in candidates;
    }
    forall c, d | x.Choices(op) - matched == {c} && x.Choices(op) - matched == {d} ensures c == d {
      assert d in {c};
    }
  }

  lemma TalliedOneMore(x: Index, ops: seq<Discovered>, op: Discovered)
    ensures Tallied(x, ops + [op]) == Step(Tallied(x, ops), op, x.counts, x.bySource, x.marking)
  {
    assert (ops + [op])[..|ops|] == ops;
  }

  lemma NamedOneMore(x: Index, ops: seq<Discovered>, op: Discovered)
    ensures Named(x, ops + [op]) == Named(x, ops) + Named(x, [op])
  {
    assert [op][0] in [op] && (ops + [op])[|ops|] in ops + [op];
    forall o | o in ops ensures o in ops + [op] {
    }
    forall o | o in ops + [op] ensures o in ops || o in [op] {
    }
  }

  lemma ExactsAreNamed(x: Index, ops: seq<Discovered>)
    ensures Exacts(x, ops) <= Named(x, ops)
    ensures forall c | c in Named(x, ops) && CountOf(x.counts, c) == 1 :: c in Exacts(x, ops)
  {
  }

  /** Blocked operations are blocked in any order. */
  lemma {:induction false} BlockedAreCounted(x: Index, ops: seq<Discovered>)
    ensures Tallied(x, ops).blocked == Count(IsBlocked(x), ops)
  {
    if ops != [] {
      var last := |ops| - 1;
      BlockedAreCounted(x, ops[..last]);
      StepFacts(x, Tallied(x, ops[..last]), ops[last]);
    }
  }

  // ---------- without wavering the order is irrelevant ----------

  ghost predicate Settled(x: Index, ops: seq<Discovered>, exacts: set<string>, soles: set<string>) {
    && NoneWavers(x, ops, exacts, soles) && Exacts(x, ops) <= exacts && exacts !! soles
    && forall c | c in soles :: CountOf(x.counts, c) == 1
  }

  lemma SettledPrefix(x: Index, ops: seq<Discovered>, op: Discovered, exacts: set<string>, soles: set<string>)
    requires Settled(x, ops + [op], exacts, soles)
    ensures Settled(x, ops, exacts, soles) && !Wavers(x, op, exacts, soles)
    ensures Named(x, [op]) !! soles
  {
    assert forall o | o in ops :: o in ops + [op];
    assert (ops + [op])[|ops|] in ops + [op];
  }

  /** Only sole choices are ever taken, and each of them once. */
  lemma {:induction false} OnlySolesAreTaken(x: Index, ops: seq<Discovered>, exacts: set<string>, soles: set<string>)
    requires x.Valid() && Settled(x, ops, exacts, soles)
    ensures OverSoles(Tallied(x, ops), Count(IsExact(x), ops), Named(x, ops), soles)
  {
    if ops != [] {
      var front, op := ops[..|ops| - 1], ops[|ops| - 1];
      assert ops == front + [op];
      SettledPrefix(x, front, op, exacts, soles);
      OnlySolesAreTaken(x, front, exacts, soles);
      TakenIsSole(x, front, op, exacts, soles);
      StepOverSoles(x, front, op, soles);
    }
  }

  lemma TakenIsSole(x: Index, ops: seq<Discovered>, op: Discovered, exacts: set<string>, soles: set<string>)
    requires x.Valid() && Settled(x, ops, exacts, soles) && !Wavers(x, op, exacts, soles)
    requires Tallied(x, ops).matched <= Named(x, ops) + soles
    ensures var c := Taken(x, op, Tallied(x, ops).matched); c != "" ==> c in soles && c !in Tallied(x, ops).matched
  {
    var matched := Tallied(x, ops).matched;
    TakenIsLeft(x, op, matched);
    ExactsAreNamed(x, ops);
    var c := Taken(x, op, matched);
    if c != "" {
      assert c in x.Choices(op) - matched;
      forall d | d in x.Choices(op) - {c} ensures d in exacts + soles {
        assert d !in x.Choices(op) - matched;
      }
    }
  }

  ghost predicate OverSoles(t: Tally, exact: nat, named: set<string>, soles: set<string>) {
    named <= t.matched <= named + soles && t.withManifests == exact + |t.matched * soles|
  }

  lemma AddToMatched(matched: set<string>, named: set<string>, c: string, soles: set<string>)
    requires named !! soles && (c != "" ==> c in soles && c !in matched)
    ensures var all := matched + (if c != "" then {c} else {}) + named;
                |all * soles| == |matched * soles| + if c != "" then 1 else 0
  {
    var all := matched + (if c != "" then {c} else {}) + named;
    if c != "" {
      assert all * soles == matched * soles + {c};
    } else {
      assert all * soles == matched * soles;
    }
  }

  lemma {:induction false} StepOverSoles(x: Index, ops: seq<Discovered>, op: Discovered, soles: set<string>)
    requires OverSoles(Tallied(x, ops), Count(IsExact(x), ops), Named(x, ops), soles) && Named(x, [op]) !! soles
    requires var c := Taken(x, op, Tallied(x, ops).matched); c != "" ==> c in soles && c !in Tallied(x, ops).matched
    ensures OverSoles(Tallied(x, ops + [op]), Count(IsExact(x), ops + [op]), Named(x, ops + [op]), soles)
  {
    var t := Tallied(x, ops);
    var c := Taken(x, op, t.matched);
    TalliedOneMore(x, ops, op);
    StepFacts(x, t, op);
    NamedOneMore(x, ops, op);
    CountOneMore(IsExact(x), ops, op);
    AddToMatched(t.matched, Named(x, [op]), c, soles);
    TakenFallsBack(x, op, t.matched);
  }

  lemma TakenFallsBack(x: Index, op: Discovered, matched: set<string>)
    ensures Taken(x, op, matched) != "" ==> x.FallsBack(op) && !x.Exact(op)
  {
  }

  /** A sole choice is taken as soon as its operation has been met. */
  lemma {:induction false} SolesAreTaken(x: Index, ops: seq<Discovered>, op: Discovered, c: string)
    requires x.Valid() && op in ops && x.FallsBack(op) && x.Choices(op) == {c}
    ensures c in Tallied(x, ops).matched
  {
    var front, last := ops[..|ops| - 1], ops[|ops| - 1];
    assert ops == front + [last];
    var t := Tallied(x, front);
    TalliedOneMore(x, front, last);
    StepFacts(x, t, last);
    if op in front {
      SolesAreTaken(x, front, op, c);
    } else if c !in t.matched {
      TakenIsLeft(x, op, t.matched);
      assert x.Choices(op) - t.matched == {c};
    }
  }

  lemma SolesAreMatched(x: Index, ops: seq<Discovered>)
    requires x.Valid()
    ensures forall c | c in Soles(x, ops) :: CountOf(x.counts, c) == 1
    ensures Soles(x, ops) <= Tallied(x, ops).matched
  {
    SoleMembers(x, ops);
    forall c | c in Soles(x, ops) ensures CountOf(x.counts, c) == 1 && c in Tallied(x, ops).matched {
      var op :| op in ops && IsSoleOf(x, op, c);
      assert c in x.Choices(op);
      SolesAreTaken(x, ops, op, c);
    }
  }

  /** The closed form of a run in which no operation wavers. */
  lemma {:induction false} SettledRun(x: Index, ops: seq<Discovered>, soles: set<string>)
    requires x.Valid() && soles == Soles(x, ops) && NoneWavers(x, ops, Exacts(x, ops), soles)
    ensures var t := Tallied(x, ops);
            && t.total == |ops| && t.withManifests == Count(IsExact(x), ops) + |soles|
            && t.blocked == Count(IsBlocked(x), ops) && t.missing == t.total - t.withManifests - t.blocked
            && t.matched == Named(x, ops) + soles
  {
    SolesAreMatched(x, ops);
    SolesAreSettled(x, ops);
    OnlySolesAreTaken(x, ops, Exacts(x, ops), soles);
    AllSoles(Tallied(x, ops), Count(IsExact(x), ops), Named(x, ops), soles);
    BlockedAreCounted(x, ops);
    EveryOperationIsCounted(ops, x.counts, x.bySource, x.marking);
  }

  lemma SolesAreSettled(x: Index, ops: seq<Discovered>)
    requires x.Valid() && NoneWavers(x, ops, Exacts(x, ops), Soles(x, ops))
    ensures Settled(x, ops, Exacts(x, ops), Soles(x, ops))
  {
    SolesAreMatched(x, ops);
    SoleMembers(x, ops);
  }

  lemma AllSoles(t: Tally, exact: nat, named: set<string>, soles: set<string>)
    requires OverSoles(t, exact, named, soles) && soles <= t.matched
    ensures t.matched == named + soles && t.withManifests == exact + |soles|
  {
    assert t.matched * soles == soles;
  }

  lemma SameSets(x: Index, a: seq<Discovered>, b: seq<Discovered>)
    requires Permuted(a, b)
    ensures Exacts(x, a) == Exacts(x, b) && Named(x, a) == Named(x, b) && Soles(x, a) == Soles(x, b)
  {
    SameMembers(a, b);
    assert Exacts(x, a) == Exacts(x, b);
  }

  lemma OrderFreeRunsAgree(x: Index, a: seq<Discovered>, b: seq<Discovered>)
    requires x.Valid() && Permuted(a, b) && OrderFree(x, a)
    ensures Tallied(x, a) == Tallied(x, b)
  {
    SameMembers(a, b);
    SameSets(x, a, b);
    SettledRun(x, a, Soles(x, a));
    SettledRun(x, b, Soles(x, a));
    CountIgnoresOrder(IsExact(x), a, b);
    CountIgnoresOrder(IsBlocked(x), a, b);
  }

  // ---------- a wavering operation shows the order ----------

  /** Going on, the operations with a manifest are at least the exact ones. */
  lemma {:induction false} ExactsAreCounted(x: Index, a: seq<Discovered>, b: seq<Discovered>)
    ensures Tallied(x, a + b).withManifests >= Tallied(x, a).withManifests + Count(IsExact(x), b)
  {
    if b == [] {
      assert a + b == a;
    } else {
      var front, op := b[..|b| - 1], b[|b| - 1];
      ExactsAreCounted(x, a, front);
      assert a + b == (a + front) + [op];
      TalliedOneMore(x, a + front, op);
      StepFacts(x, Tallied(x, a + front), op);
    }
  }

  /** What goes before a wavering operation so that it gets the manifest `c`. */
  ghost function Early(x: Index, exacts: set<string>, c: string): Discovered -> bool {
    (op: Discovered) => (x.Exact(op) && op.signature.value != c)
                        || (exists d :: IsSoleOf(x, op, d) && d !in exacts)
  }

  lemma {:induction false} EarlySets(x: Index, ops: seq<Discovered>, c: string)
    requires c !in Soles(x, ops)
    ensures var early := Filter(Early(x, Exacts(x, ops), c), ops);
            && Exacts(x, early) == Named(x, early) == Exacts(x, ops) - {c} && Soles(x, early) == Soles(x, ops)
  {
    var p := Early(x, Exacts(x, ops), c);
    var early := Filter(p, ops);
    FilterHolds(p, ops);
    SoleMembers(x, ops);
    SoleMembers(x, early);
    assert Exacts(x, early) == Exacts(x, ops) - {c};
    assert Named(x, early) == Exacts(x, early);
    forall d ensures d in Soles(x, early) <==> d in Soles(x, ops) {
      if d in Soles(x, early) {
        var op :| op in early && IsSoleOf(x, op, d);
        EarlyChoice(x, Exacts(x, ops), c, op, d);
      }
      if d in Soles(x, ops) {
        var op :| op in ops && IsSoleOf(x, op, d);
        EarlyChoice(x, Exacts(x, ops), c, op, d);
      }
    }
  }

  lemma EarlyChoice(x: Index, exacts: set<string>, c: string, op: Discovered, d: string)
    requires IsSoleOf(x, op, d)
    ensures Early(x, exacts, c)(op) <==> d !in exacts
  {
    forall e | IsSoleOf(x, op, e) ensures e == d {
      assert e in {d};
    }
  }

  /** Those come out as planned: the sole choices and the exact matches but `c` are taken. */
  lemma {:induction false} EarlyRun(x: Index, ops: seq<Discovered>, c: string)
    requires x.Valid() && c !in Soles(x, ops)
    ensures var early := Filter(Early(x, Exacts(x, ops), c), ops); var t := Tallied(x, early);
            && t.matched == (Exacts(x, ops) - {c}) + Soles(x, ops)
            && t.withManifests == Count(IsExact(x), early) + |Soles(x, ops)|
  {
    var p := Early(x, Exacts(x, ops), c);
    var early := Filter(p, ops);
    FilterHolds(p, ops);
    EarlySets(x, ops, c);
    forall op | op in early ensures !Wavers(x, op, Exacts(x, early), Soles(x, early)) {
      if x.FallsBack(op) {
        var d :| IsSoleOf(x, op, d) && d !in Exacts(x, ops);
        SoleMembers(x, ops);
        assert d in Soles(x, ops);
      }
    }
    SettledRun(x, early, Soles(x, early));
  }

  /** An order in which the wavering operation gets a manifest. */
  lemma GenerousOrder(x: Index, ops: seq<Discovered>, op: Discovered, c: string) returns (a: seq<Discovered>)
    requires x.Valid() && op in ops && x.FallsBack(op) && c in x.Choices(op) && c !in Soles(x, ops)
    requires x.Choices(op) - {c} <= Exacts(x, ops) + Soles(x, ops)
    ensures Permuted(a, ops) && Tallied(x, a).withManifests > Count(IsExact(x), ops) + |Soles(x, ops)|
  {
    var p := Early(x, Exacts(x, ops), c);
    var early, late := Filter(p, ops), Filter(Not(p), ops);
    FilterSplits(p, ops);
    FilterHolds(p, ops);
    FilterHolds(Not(p), ops);
    WavererIsLate(x, ops, op, c);
    var k :| 0 <= k < |late| && late[k] == op;
    var rest := late[..k] + late[k + 1..];
    assert late == late[..k] + [op] + late[k + 1..];
    OneApart(late[..k], op, late[k + 1..]);
    a := early + [op] + rest;
    assert multiset(a) == multiset(early) + multiset{op} + multiset(rest);
    assert multiset(early + late) == multiset(early) + multiset(late);
    EarlyRun(x, ops, c);
    OpTakesRest(x, early, op, c);
    ExactsAreCounted(x, early + [op], rest);
    CountIgnoresOrder(IsExact(x), ops, a);
    CountAppend(IsExact(x), early + [op], rest);
    CountOneMore(IsExact(x), early, op);
  }

  lemma WavererIsLate(x: Index, ops: seq<Discovered>, op: Discovered, c: string)
    requires op in ops && x.FallsBack(op) && c in x.Choices(op) && c !in Soles(x, ops)
    ensures !Early(x, Exacts(x, ops), c)(op)
  {
    SoleMembers(x, ops);
    forall d | IsSoleOf(x, op, d) ensures d in Exacts(x, ops) {
      assert c in {d};
      assert IsSoleOf(x, op, c);
    }
  }

  lemma OpTakesRest(x: Index, early: seq<Discovered>, op: Discovered, c: string)
    requires x.Valid() && x.FallsBack(op) && c in x.Choices(op)
    requires c !in Tallied(x, early).matched && x.Choices(op) - {c} <= Tallied(x, early).matched
    ensures Tallied(x, early + [op]).withManifests == Tallied(x, early).withManifests + 1
  {
    var t := Tallied(x, early);
    TalliedOneMore(x, early, op);
    StepFacts(x, t, op);
    assert x.Choices(op) - t.matched == {c};
    TakenIsLeft(x, op, t.matched);
  }

  lemma {:induction false} CountAppend(p: Discovered -> bool, a: seq<Discovered>, b: seq<Discovered>)
    ensures Count(p, a + b) == Count(p, a) + Count(p, b)
  {
    if b == [] {
      assert a + b == a;
    } else {
      var last := |b| - 1;
      CountAppend(p, a, b[..last]);
      assert (a + b)[..|a| + last] == a + b[..last];
    }
  }

  // The other order: first the operations with several choices or none, then those that need no
  // fallback, then those with one choice.

  ghost predicate Frugal(x: Index, ops: seq<Discovered>, soles: set<string>) {
    Tallied(x, ops).withManifests <= Count(IsExact(x), ops) + |Tallied(x, ops).matched * soles|
  }

  lemma FrugalStep(x: Index, ops: seq<Discovered>, op: Discovered, soles: set<string>)
    requires x.Valid() && Frugal(x, ops, soles)
    requires Taken(x, op, Tallied(x, ops).matched) == "" || Taken(x, op, Tallied(x, ops).matched) in soles
    ensures Frugal(x, ops + [op], soles)
  {
    var t, c := Tallied(x, ops), Taken(x, op, Tallied(x, ops).matched);
    TalliedOneMore(x, ops, op);
    StepFacts(x, t, op);
    TakenIsLeft(x, op, t.matched);
    CountOneMore(IsExact(x), ops, op);
    var u := Tallied(x, ops + [op]);
    if c != "" {
      assert c in x.Choices(op) - t.matched;
      Grows(t.matched * soles + {c}, u.matched * soles);
    } else {
      Grows(t.matched * soles, u.matched * soles);
    }
  }

  lemma {:induction false} Grows(a: set<string>, b: set<string>)
    requires a <= b
    ensures |a| <= |b|
  {
    assert b == a + (b - a);
  }

  ghost function Choosy(x: Index): Discovered -> bool {
    (op: Discovered) => x.FallsBack(op) && forall d :: !IsSoleOf(x, op, d)
  }

  ghost function Free(x: Index): Discovered -> bool {
    (op: Discovered) => !x.FallsBack(op)
  }

  lemma NothingTaken(x: Index, op: Discovered)
    requires x.Valid() && Choosy(x)(op)
    ensures x.FallsBack(op) && Taken(x, op, {}) == ""
  {
    TakenIsLeft(x, op, {});
    var c := Taken(x, op, {});
    assert x.Choices(op) - {} == x.Choices(op);
    assert !IsSoleOf(x, op, c);
  }

  lemma {:induction false} ChoosyRun(x: Index, ops: seq<Discovered>, soles: set<string>)
    requires x.Valid() && forall op | op in ops :: Choosy(x)(op)
    ensures Tallied(x, ops).matched == {} && Frugal(x, ops, soles)
  {
    if ops != [] {
      var front, op := ops[..|ops| - 1], ops[|ops| - 1];
      assert ops == front + [op];
      ChoosyRun(x, front, soles);
      NothingTaken(x, op);
      FrugalStep(x, front, op, soles);
      TalliedOneMore(x, front, op);
      StepFacts(x, Tallied(x, front), op);
    }
  }

  lemma {:induction false} FreeRun(x: Index, first: seq<Discovered>, ops: seq<Discovered>, soles: set<string>)
    requires x.Valid() && Frugal(x, first, soles) && forall op | op in ops :: Free(x)(op)
    ensures Frugal(x, first + ops, soles) && Named(x, ops) <= Tallied(x, first + ops).matched
  {
    if ops == [] {
      assert first + ops == first;
    } else {
      var front, op := ops[..|ops| - 1], ops[|ops| - 1];
      assert ops == front + [op] && first + ops == (first + front) + [op];
      FreeRun(x, first, front, soles);
      assert Free(x)(op);
      FrugalStep(x, first + front, op, soles);
      TalliedOneMore(x, first + front, op);
      StepFacts(x, Tallied(x, first + front), op);
      NamedOneMore(x, front, op);
    }
  }

  ghost predicate HasOneChoice(x: Index, op: Discovered) {
    exists d :: IsSoleOf(x, op, d)
  }

  lemma {:induction false} SingleRun(x: Index, first: seq<Discovered>, ops: seq<Discovered>, exacts: set<string>,
                                     soles: set<string>)
    requires x.Valid() && Frugal(x, first, soles) && exacts <= Tallied(x, first).matched
    requires forall op | op in ops :: HasOneChoice(x, op) && x.Choices(op) <= exacts + soles
    ensures Frugal(x, first + ops, soles) && exacts <= Tallied(x, first + ops).matched
  {
    if ops == [] {
      assert first + ops == first;
    } else {
      var front, op := ops[..|ops| - 1], ops[|ops| - 1];
      assert ops == front + [op] && first + ops == (first + front) + [op];
      SingleRun(x, first, front, exacts, soles);
      var t := Tallied(x, first + front);
      TakenIsLeft(x, op, t.matched);
      if Taken(x, op, t.matched) != "" {
        assert Taken(x, op, t.matched) in x.Choices(op) - t.matched;
        assert HasOneChoice(x, op) && x.Choices(op) <= exacts + soles;
      }
      FrugalStep(x, first + front, op, soles);
      TalliedOneMore(x, first + front, op);
      StepFacts(x, t, op);
    }
  }

  /** An order in which no operation gets more than its sole choice. */
  lemma FrugalOrder(x: Index, ops: seq<Discovered>) returns (b: seq<Discovered>)
    requires x.Valid()
    ensures Permuted(b, ops) && Tallied(x, b).withManifests <= Count(IsExact(x), ops) + |Soles(x, ops)|
  {
    var soles := Soles(x, ops);
    var choosy, others := Filter(Choosy(x), ops), Filter(Not(Choosy(x)), ops);
    var free, single := Filter(Free(x), others), Filter(Not(Free(x)), others);
    FilterSplits(Choosy(x), ops);
    FilterSplits(Free(x), others);
    b := choosy + free + single;
    assert choosy + free + single == choosy + (free + single);
    assert multiset(b) == multiset(choosy) + multiset(free + single);
    assert multiset(choosy + others) == multiset(choosy) + multiset(others);
    PhaseSets(x, ops);
    ChoosyRun(x, choosy, soles);
    FreeRun(x, choosy, free, soles);
    SingleRun(x, choosy + free, single, Exacts(x, ops), soles);
    CountIgnoresOrder(IsExact(x), b, ops);
    Grows(Tallied(x, b).matched * soles, soles);
  }

  lemma {:induction false} PhaseSets(x: Index, ops: seq<Discovered>)
    ensures var others := Filter(Not(Choosy(x)), ops);
            && (forall op | op in Filter(Choosy(x), ops) :: Choosy(x)(op))
            && (forall op | op in Filter(Free(x), others) :: Free(x)(op))
            && (forall op | op in Filter(Not(Free(x)), others) ::
                 HasOneChoice(x, op) && x.Choices(op) <= Exacts(x, ops) + Soles(x, ops))
            && Exacts(x, ops) <= Named(x, Filter(Free(x), others))
  {
    var others := Filter(Not(Choosy(x)), ops);
    FilterHolds(Choosy(x), ops);
    FilterHolds(Not(Choosy(x)), ops);
    FilterHolds(Free(x), others);
    FilterHolds(Not(Free(x)), others);
    forall op | op in Filter(Not(Free(x)), others)
      ensures HasOneChoice(x, op) && x.Choices(op) <= Exacts(x, ops) + Soles(x, ops)
    {
      var d :| IsSoleOf(x, op, d);
      SoleMembers(x, ops);
      assert op in ops;
    }
    forall c | c in Exacts(x, ops) ensures c in Named(x, Filter(Free(x), others)) {
      var op :| op in ops && x.Exact(op) && op.signature.value == c;
      assert Free(x)(op) && Not(Choosy(x))(op) && op in others;
    }
  }

  /** The order of discovery is irrelevant to the counters and the matched manifests if and only
      if no operation wavers; and where one does, two orders differ in the operations that miss
      a manifest. */
  lemma OrderIsIrrelevantExactly(x: Index, ops: seq<Discovered>)
    requires x.Valid()
    ensures (forall other | Permuted(ops, other) :: Tallied(x, other) == Tallied(x, ops)) <==> OrderFree(x, ops)
    ensures !OrderFree(x, ops) ==>
                exists a, b :: Permuted(ops, a) && Permuted(ops, b) && Tallied(x, a).missing < Tallied(x, b).missing
  {
    if OrderFree(x, ops) {
      forall other | Permuted(ops, other) ensures Tallied(x, other) == Tallied(x, ops) {
        OrderFreeRunsAgree(x, ops, other);
      }
    } else {
      var op :| op in ops && Wavers(x, op, Exacts(x, ops), Soles(x, ops));
      var c :| c in x.Choices(op) && c !in Soles(x, ops) && x.Choices(op) - {c} <= Exacts(x, ops) + Soles(x, ops);
      var a := GenerousOrder(x, ops, op, c);
      var b := FrugalOrder(x, ops);
      MissingDiffer(x, ops, a, b);
    }
  }

  lemma MissingDiffer(x: Index, ops: seq<Discovered>, a: seq<Discovered>, b: seq<Discovered>)
    requires Permuted(ops, a) && Permuted(ops, b) && Tallied(x, a).withManifests > Tallied(x, b).withManifests
    ensures Tallied(x, a).missing < Tallied(x, b).missing
  {
    SameMembers(ops, a);
    SameMembers(ops, b);
    EveryOperationIsCounted(a, x.counts, x.bySource, x.marking);
    EveryOperationIsCounted(b, x.counts, x.bySource, x.marking);
    BlockedAreCounted(x, a);
    BlockedAreCounted(x, b);
    CountIgnoresOrder(IsBlocked(x), a, b);
  }

  // ---------- an example ----------

  /** An exact match frees the fallback only for the operations after it. */
  lemma ExactMatchWavers(exact: Discovered, other: Discovered, a: string, b: string, y: string, x: Index)
    requires exact == Discovered(Worker, Some(a), "jobs.go") && other == Discovered(Worker, Some(y), "jobs.go")
    requires a != "" && b != "" && a != b && y != a && y != b
    requires x == Index(map[a := 1, b := 1], map[SourceTypeKey(Worker, "jobs.go") := [a, b]], true)
    ensures Wavers(x, other, Exacts(x, [exact, other]), Soles(x, [exact, other])) && !OrderFree(x, [exact, other])
  {
    var ops := [exact, other];
    assert ops[0] in ops && ops[1] in ops;
    assert x.Choices(other) == {a, b};
    assert a in Exacts(x, ops);
    assert a in x.Choices(other) && a !in {b};
    SoleMembers(x, ops);
    assert x.Choices(other) - {b} <= Exacts(x, ops);
  }
}
