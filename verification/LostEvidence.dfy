/**
 Why the loader must keep secrets out (internal/adapters/contextretrieval/filesystem.go:150-155):
 if a file that matches the secret pattern were admitted, two overlapping quotations that do not
 match could merge into text that does, and the next expansion would drop the merged item
 (internal/contextretrieval/quality.go, `analyzeQuality`).
 */
module LostEvidence {
  import opened Wrappers
  import opened Evidence
  import opened Ranking
  import opened SpanMerge
  import opened PackMeter
  import opened ContextPack
  import opened Packing
  import opened PackGuarantees
  import opened Retrieval
  import opened Expansion
  import opened ExpansionLaws
  import opened RunItems
  import opened RunEvidence
  import opened SecretPattern

  // ---------- packing with room to spare ----------

  predicate Roomy(plan: Plan) {
    var b := plan.admission.budget;
    && b.maxSourceBytes >= 100 && b.maxContextTokens >= 100 && b.reservedPromptTokens == 0 && b.perFacetTokens == 0
    && b.perSourceBytes == 0
    && plan.admission.policies == [] && plan.required == [] && plan.admission.budget.maxContextTokens < TWO_62
  }

  ghost predicate Weightless(codec: Codec) {
    codec.Valid() && forall p: Pack :: codec.size(p) == 0
  }

  predicate Little(used: BudgetUsed) {
    Nested(used) && used.cumulativeSourceBytes <= 24 && used.cumulativeContextTokens <= 24
  }

  lemma {:induction false} DigitsAreFew(n: nat)
    ensures Digits(n) <= n + 1
  {
    if n >= 10 { DigitsAreFew(n / 10); }
  }

  lemma CountsStayLittle(previous: BudgetUsed, t: nat, c: nat)
    requires Little(previous) && Consistent(0, previous, t, c)
    ensures t <= 12 && c <= previous.cumulativeContextTokens + 12
  {
    DigitsAreFew(t);
    DigitsAreFew(c);
  }

  /** Nothing that is this small exceeds a budget. */
  lemma MeasuredFits(codec: Codec, p: Pack, previous: BudgetUsed)
    requires Weightless(codec) && Little(previous) && Roomy(p.plan) && Bytes(p.evidence) <= 24
    requires p.used.contextTokens < TWO_62 && p.used.cumulativeContextTokens < TWO_62
    ensures var m := MeasuredPack(codec, p, previous);
            && Violation(codec, m) == Fits && m.used.cumulativeSourceBytes <= previous.cumulativeSourceBytes + 24
            && m.used.cumulativeContextTokens <= previous.cumulativeContextTokens + 12
            && m.used.contextTokens < TWO_62
  {
    MeasuredIsConsistent(Envelope(codec, p, previous), p.used, previous, Bytes(p.evidence));
    var m := MeasuredPack(codec, p, previous);
    CountsStayLittle(previous, m.used.contextTokens, m.used.cumulativeContextTokens);
  }

  /** Packing one small candidate, or none, takes it in and complains of nothing. */
  lemma RoomyBuild(codec: Codec, input: Input)
    requires Weightless(codec) && Little(input.previous) && Roomy(input.plan)
    requires |input.quality.candidates| <= 1 && Bytes(input.quality.candidates) <= 24
    ensures var p := Built(codec, input);
            && p.evidence == input.quality.candidates && p.unresolved == Questions(codec, input)
            && p.used.cumulativeContextTokens <= input.previous.cumulativeContextTokens + 12
            && p.used.cumulativeSourceBytes <= input.previous.cumulativeSourceBytes + 24
  {
    var cs := input.quality.candidates;
    var queue := Queue(codec, input);
    QueueOfOne(Before(input.plan, input.quality.conflicts, codec.key), cs);
    assert queue == cs;
    var turn, start := PlaceTurn(codec, input.previous), EmptyPack(codec, input, StartStatus(codec, input));
    var filled := PlaceAll(turn, start, queue, |queue|);
    if cs != [] {
      var p := start.(evidence := start.evidence + [cs[0]]);
      assert p.evidence == cs;
      MeasuredFits(codec, p, input.previous);
      assert PlaceAll(turn, start, queue, 0) == start;
      assert filled == Place(codec, input.previous, start, cs[0]) == MeasuredPack(codec, p, input.previous);
    }
    assert filled.evidence == cs && filled.plan == input.plan && filled.unresolved == Questions(codec, input);
    assert Checked(codec, input) == filled;
    MeasuredFits(codec, filled, input.previous);
    QueueOfOne(ByRank(codec.key), cs);
  }

  lemma {:induction false} QueueOfOne(less: (Candidate, Candidate) -> bool, cs: seq<Candidate>)
    requires |cs| <= 1
    ensures StableSort(less, cs) == cs
  {
    if cs != [] { assert cs[1..] == []; }
  }

  // ---------- the trap ----------

  function ContentPin(): string {
    seq(64, _ => '0')
  }

  const FIRST_LINES := "password\n:\n"
  const LAST_LINES := ":\n'12345678'\n"
  const ALL_LINES := "password\n:\n'12345678'\n"

  const FILE := Text(["password", ":", "'12345678'"], true)

  const ORIGIN := Origin("s", "r", "n", ContentPin(), "f", "", "definition", "", "", "", ProjectSource, Current)

  function Quotation(id: string, span: Span, content: string): Candidate {
    Candidate(id, ORIGIN, span, content, {}, false, true, 0, {}, {}, CONTEXT, "", "q", "1", "")
  }

  const FIRST := Quotation("1", Span(1, 2, 0, 11), FIRST_LINES)
  const LAST := Quotation("2", Span(2, 3, 9, 22), LAST_LINES)

  /** One file of three lines, which the loader let in although it looks like a secret; the first
      retrieval quotes the first two and the last two, later ones nothing. */
  ghost predicate IsTrap(env: Env) {
    && env.Valid() && Weightless(env.codec) && (forall c: Candidate :: env.codec.key(c) == "")
    && env.sources == [Source("s", "r", "n", false)]
    && env.documents == map[("s", "f") := Document("r", "n", ContentPin(), ALL_LINES, false)]
    && env.coverage == [] && env.diagnostics == {}
    && (forall plan: Plan, facets: seq<Facet> ::
          env.retrieve(plan, facets) == Retrieved(if plan.history == [] then [FIRST, LAST] else [], [], {}))
    && (forall c: Candidate :: env.cite(c) == Citation({}, {}) && env.role(c) == CONTEXT)
    && (forall s: string, p: string :: env.admits(s, p))
    && (forall q: string :: env.knownQuery(q) && env.knownClaim(q) && env.validId(q))
    && (forall t: string :: env.secret(t) <==> LooksSecret(t))
    && (forall cs: seq<Candidate> :: env.conflicts(cs) == {})
    && (forall r: ExpandRequest :: env.selector(r))
  }

  /** Such a repository can be thought of, but no loaded one is like it. */
  lemma TrapExists()
    ensures exists env :: IsTrap(env)
  {
    var size: Pack -> nat := _ => 0;
    var weight: Candidate -> nat := _ => 0;
    var key: Key := _ => "";
    var codec := Codec(size, weight, key, _ => "", _ => "", _ => "", _ => "");
    var env :=
        Env(codec, [Source("s", "r", "n", false)],
            map[("s", "f") := Document("r", "n", ContentPin(), ALL_LINES, false)], [], {},
                   (plan: Plan, facets: seq<Facet>) => Retrieved(if plan.history == [] then [FIRST, LAST]
                       else [], [], {}),
                   c => Citation({}, {}), (s, p) => true, q => true, q => true, t => LooksSecret(t),
                   (all, c) => PinsHold, c => CONTEXT, cs => {}, (o, s) => "m", r => true, q => "q", q => true);
    HashIsPin();
    assert IsTrap(env);
  }

  lemma HashIsPin()
    ensures IsPin(ContentPin()) && Bare(ContentPin()) == ContentPin()
  {
    assert ContentPin()[0] != "sha256:"[0];
  }

  function TrapPlan(): Plan {
    Plan("id", Admission({"s"}, Complete, false, [], Budget(100, 100, 0, 0, 0), 1, 1, ""), [], [], {}, [])
  }

  function TrapRequest(): ExpandRequest {
    ExpandRequest(Facet("x", "", "", "s", "", "", "", "q", "", false), "why", Budget(0, 0, 0, 0, 0))
  }

  // ---------- the run ----------

  lemma {:induction false} LinesOfFile(x: seq<string>)
    requires x == ["password", ":", "'12345678'"]
    ensures Join(x[0..2]) == "password\n:" && Join(x[1..3]) == ":\n'12345678'" && Join(x) == "password\n:\n'12345678'"
    ensures Offset(x, 1) == 9 && Offset(x, 2) == 11 && Offset(x, 3) == 22
  {
    assert x[0..2] == ["password", ":"] && x[1..3] == [":", "'12345678'"];
    assert x[0..2][1..] == [":"] && x[1..3][1..] == ["'12345678'"] && x[1..] == x[1..3];
  }

  lemma QuotationsOfFile()
    ensures FILE.Valid() && FILE.Bytes() == ALL_LINES
    ensures Quotes(FILE, FIRST.span, FIRST.content) && Quotes(FILE, LAST.span, LAST.content)
    ensures SpanText(FILE, 1, 3) == ALL_LINES
  {
    LinesOfFile(FILE.lines);
    assert FILE.lines[0..3] == FILE.lines;
  }

  /** The parts are too short to match, the whole does. */
  lemma OnlyWholeIsSecret()
    ensures !LooksSecret(FIRST_LINES) && !LooksSecret(LAST_LINES) && !LooksSecret("") && LooksSecret(ALL_LINES)
  {
    ShortIsNoSecret(FIRST_LINES);
    ShortIsNoSecret(LAST_LINES);
    ShortIsNoSecret("");
    var x := "password\n:\n'12345678'";
    assert x[..8] == "password" && x[8..9] == "\n" && x[9] == ':' && x[10..11] == "\n";
    assert AssignsAt(x, 8, 9, 11);
    MatchesAtStart(ALL_LINES, x);
  }

  lemma MatchesAtStart(t: string, x: string)
    requires x <= t && Assigns(x) && Boundary(t, 0)
    ensures LooksSecret(t)
  {
    assert t[0..|x|] == x && IsSecret(x, Boundary(t, 0), Boundary(t, |x|));
    assert OccursAt(SecretText(), t, 0, |x|);
  }

  /** The two quotations merge into the whole file. */
  lemma TheyMerge()
    ensures Merges(FIRST, LAST)
    ensures Merged(FIRST, LAST) == Some(FIRST.(span := Span(1, 3, 0, 22), content := ALL_LINES))
  {
    QuotationsOfFile();
    MergeIsExact(FILE, FIRST, LAST);
    assert ALL_LINES + "" == ALL_LINES;
  }

  function Whole(env: Env): Candidate {
    Combined(env.idOf, FIRST, LAST, FIRST.(span := Span(1, 3, 0, 22), content := ALL_LINES))
  }

  lemma BothLive(env: Env)
    requires IsTrap(env)
    ensures Live(env, FIRST) && Live(env, LAST) && Live(env, Whole(env))
  {
    assert ALL_LINES[0..11] == FIRST_LINES && ALL_LINES[9..22] == LAST_LINES && ALL_LINES[0..22] == ALL_LINES;
  }

  lemma {:induction false} BothVerified(env: Env)
    requires IsTrap(env)
    ensures AllVerified(env, TrapPlan(), [FIRST, LAST]) == [FIRST, LAST]
  {
    BothLive(env);
    assert Verified(env, TrapPlan(), FIRST) == FIRST && Verified(env, TrapPlan(), LAST) == LAST;
    assert [FIRST, LAST][..1] == [FIRST] && [FIRST][..0] == [];
    assert AllVerified(env, TrapPlan(), [FIRST]) == AllVerified(env, TrapPlan(), []) + [FIRST];
  }

  lemma BothKept(env: Env, all: seq<Candidate>, c: Candidate)
    requires IsTrap(env) && (c == FIRST || c == LAST)
    ensures Judge(env, TrapPlan(), all, c) == Kept(c)
  {
    HashIsPin();
    OnlyWholeIsSecret();
    assert Bare("") == "";
    assert Prepared(TrapPlan(), c) == c;
    assert SourceOf(env.sources, "s") == Some(env.sources[0]);
    assert Rejection(env, c) == "";
    assert Graded(env, TrapPlan(), all, c, env.sources[0]) == c;
  }

  lemma SortedBoth(env: Env)
    requires IsTrap(env)
    ensures StableSort(ByKey(env.codec.key), [FIRST, LAST]) == [FIRST, LAST]
  {
    var less := ByKey(env.codec.key);
    assert !Ordering.Less("", "");
    assert [FIRST, LAST][1..] == [LAST];
    QueueOfOne(less, [LAST]);
  }

  lemma {:induction false} KeptBoth(env: Env, all: seq<Candidate>)
    requires IsTrap(env)
    ensures KeptOf(JudgeOf(env, TrapPlan(), all), [FIRST, LAST]) == [FIRST, LAST]
    ensures forall c | c in [FIRST, LAST] :: JudgeOf(env, TrapPlan(), all)(c) == Kept(c)
  {
    BothKept(env, all, FIRST);
    BothKept(env, all, LAST);
    var judge := JudgeOf(env, TrapPlan(), all);
    assert [FIRST, LAST][..1] == [FIRST] && [FIRST][..0] == [];
    assert KeptOf(judge, [FIRST]) == KeptOf(judge, []) + [FIRST];
  }

  lemma DedupedBoth(env: Env)
    ensures Deduped(env.idOf, [FIRST, LAST], 2) == [Whole(env)]
  {
    TheyMerge();
    assert Deduped(env.idOf, [FIRST, LAST], 1) == Absorb(env.idOf, Deduped(env.idOf, [FIRST, LAST], 0), FIRST)
        == [FIRST];
    assert FirstMerge([FIRST], LAST, 0) == 0;
    assert Absorb(env.idOf, [FIRST], LAST) == [FIRST][0 := Whole(env)];
  }

  ghost predicate NoBudget(ds: set<Diagnostic>) {
    forall d | d in ds :: d.code != BUDGET_UNSATISFIED
  }

  ghost predicate QuietInput(input: Input) {
    NoBudget(input.plan.unresolved + input.diagnostics + input.quality.diagnostics)
  }

  lemma QualityDecides(input: Input)
    requires input.plan.unresolved == {} && NoBudget(input.diagnostics) && NoBudget(input.quality.diagnostics)
    ensures QuietInput(input)
  {
  }

  /** Live evidence without citations is verified silently. */
  lemma VerifyIsQuiet(env: Env, cs: seq<Candidate>)
    requires IsTrap(env) && AllLive(env, cs)
    ensures VerifyNotes(env, cs) == {}
  {
  }

  /** The first analysis hands over one item, the whole file. */
  lemma FirstAnalysis(env: Env)
    requires IsTrap(env)
    ensures Analyzed(env, TrapPlan(), [FIRST, LAST]).candidates == [Whole(env)]
  {
    var input := [FIRST, LAST];
    SortedBoth(env);
    KeptBoth(env, input);
    DedupedBoth(env);
    QueueOfOne(ByRank(env.codec.key), [Whole(env)]);
  }

  lemma GatherNone(report: Candidate -> set<Diagnostic>, cs: seq<Candidate>)
    requires forall c | c in cs :: report(c) == {}
    ensures Gather(report, cs) == {}
  {
  }

  lemma NothingToNote(plan: Plan, c: Candidate)
    requires c.origin.provenance == ProjectSource
    ensures NotesOf(plan, c, Kept(c)) == {}
  {
  }

  lemma FirstIsQuiet(env: Env)
    requires IsTrap(env)
    ensures Analyzed(env, TrapPlan(), [FIRST, LAST]).diagnostics == {}
  {
    var plan, input := TrapPlan(), [FIRST, LAST];
    SortedBoth(env);
    KeptBoth(env, input);
    forall c | c in input ensures NoteBy(plan, JudgeOf(env, plan, input))(c) == {} {
      NothingToNote(plan, c);
    }
    GatherNone(NoteBy(plan, JudgeOf(env, plan, input)), input);
  }

  lemma QuestionsAreQuiet(codec: Codec, input: Input)
    requires QuietInput(input)
    ensures NoBudget(Questions(codec, input))
  {
    assert "EXCLUDED_BY_POLICY" != BUDGET_UNSATISFIED;
  }

  lemma FirstRetrieval(env: Env)
    requires IsTrap(env)
    ensures var input := PrepareInput(env, TrapPlan());
            input.quality == Analyzed(env, TrapPlan(), [FIRST, LAST]) && input.diagnostics == {}
  {
    assert env.retrieve(TrapPlan(), TrapPlan().required + TrapPlan().optional) == Retrieved([FIRST, LAST], [], {});
    BothVerified(env);
    BothLive(env);
    VerifyIsQuiet(env, [FIRST, LAST]);
  }

  /** What the first retrieval gives the packer. */
  lemma FirstInput(env: Env, input: Input)
    requires IsTrap(env) && input == PrepareInput(env, TrapPlan())
    ensures input.plan == TrapPlan() && input.previous == NOTHING_USED && input.quality.candidates == [Whole(env)]
    ensures QuietInput(input)
  {
    FirstRetrieval(env);
    FirstAnalysis(env);
    FirstIsQuiet(env);
    QualityDecides(input);
  }

  lemma BytesOfWhole(env: Env)
    ensures Bytes([Whole(env)]) == 22
  {
    assert Whole(env).content == ALL_LINES && |ALL_LINES| == 22;
    assert ContentBytes()(Whole(env)) == 22;
    assert [Whole(env)][1..] == [];
    assert Sum(ContentBytes(), []) == 0;
  }

  ghost predicate Quiet(p: Pack) {
    NoBudget(p.unresolved) && p.used.cumulativeContextTokens <= 24 && p.used.cumulativeSourceBytes <= 24
  }

  lemma PackIsQuiet(env: Env, input: Input)
    requires Weightless(env.codec) && Little(input.previous) && Roomy(input.plan)
    requires |input.quality.candidates| <= 1 && Bytes(input.quality.candidates) <= 24
    requires QuietInput(input)
    ensures var p := Built(env.codec, input); p.evidence == input.quality.candidates && NoBudget(p.unresolved)
    ensures input.previous == NOTHING_USED ==> Quiet(Built(env.codec, input))
  {
    RoomyBuild(env.codec, input);
    QuestionsAreQuiet(env.codec, input);
  }

  /** The prepared pack holds the whole file, and no facets. */
  lemma BaseHoldsWhole(env: Env, input: Input, base: Pack)
    requires IsTrap(env) && input == PrepareInput(env, TrapPlan()) && base == Built(env.codec, input)
    ensures base.evidence == [Whole(env)] && Quiet(base) && base.plan.required == [] && base.plan.optional == []
  {
    FirstInput(env, input);
    BytesOfWhole(env);
    PackIsQuiet(env, input);
    BuiltFollows(env, input);
  }

  /** The second analysis drops it, and says so. */
  lemma {:induction false} SecondAnalysis(env: Env, plan: Plan, c: Candidate)
    requires Sound(env, c) && Authored(c) && env.secret(c.content)
    ensures Analyzed(env, plan, [c]).candidates == [] && NoBudget(Analyzed(env, plan, [c]).diagnostics)
  {
    var input := [c];
    QueueOfOne(ByKey(env.codec.key), input);
    SoundIsKept(env, plan, input, c);
    assert [c][..0] == [];
    assert KeptOf(JudgeOf(env, plan, input), input) == [];
    QueueOfOne(ByRank(env.codec.key), []);
    assert "SECRET_CONTENT_EXCLUDED" != BUDGET_UNSATISFIED;
    assert forall d | d in NoteBy(plan, JudgeOf(env, plan, input))(c) :: d.code == "SECRET_CONTENT_EXCLUDED";
  }

  function SecondPlan(): Plan {
    TrapPlan().(optional := [TrapRequest().facet], history := [TrapRequest()])
  }

  lemma SecondRetrieval(env: Env, base: Pack)
    requires IsTrap(env) && base.plan.history == []
    ensures RequestedFacet(env, TrapRequest()) == TrapRequest().facet
    ensures ExpandedPlan(TrapPlan(), base, TrapRequest().facet, TrapRequest()) == SecondPlan()
    ensures env.retrieve(SecondPlan(), [TrapRequest().facet]) == Retrieved([], [], {})
  {
  }

  lemma {:induction false} SecondCandidates(env: Env, evidence: seq<Candidate>)
    requires IsTrap(env) && AllLive(env, evidence) && evidence == [Whole(env)] && Sound(env, Whole(env))
    ensures var combined := Prior(env, TrapPlan(), evidence) + AllVerified(env, SecondPlan(), []);
            Analyzed(env, SecondPlan(), combined).candidates == []
                && NoBudget(Analyzed(env, SecondPlan(), combined).diagnostics)
  {
    var prior := Prior(env, TrapPlan(), evidence);
    OnlyWholeIsSecret();
    VerifiedStaysSound(env, TrapPlan(), Whole(env));
    assert prior == [prior[0]] && prior + AllVerified(env, SecondPlan(), []) == prior;
    SecondAnalysis(env, SecondPlan(), prior[0]);
  }

  /** What the expansion gives the packer: nothing. */
  lemma SecondInput(env: Env, base: Pack)
    requires IsTrap(env) && base.evidence == [Whole(env)] && Quiet(base) && base.plan.history == []
    requires Sound(env, Whole(env))
    ensures AllLive(env, base.evidence)
    ensures var input := ExpandInput(env, TrapPlan(), base, TrapRequest());
            && input.plan == SecondPlan() && input.previous == Again(base.used) && input.quality.candidates == []
            && QuietInput(input)
  {
    BothLive(env);
    SecondRetrieval(env, base);
    SecondCandidates(env, base.evidence);
    VerifyIsQuiet(env, base.evidence);
    VerifyIsQuiet(env, []);
  }

  lemma NothingReused(env: Env, base: Pack)
    requires base.plan.required == [] && base.plan.optional == []
    ensures !ReusesIdentity(base, RequestedFacet(env, TrapRequest()))
  {
  }

  /** The pack that the expansion builds is empty and within all budgets. */
  lemma EmptyPackBuilt(env: Env, base: Pack)
    requires IsTrap(env) && WellKept(env, TrapPlan(), base) && base.evidence == [Whole(env)] && Quiet(base)
    requires base.plan.history == []
    ensures AllLive(env, base.evidence)
    ensures var pack := Built(env.codec, ExpandInput(env, TrapPlan(), base, TrapRequest()));
            pack.evidence == [] && !OverBudget(pack) && !CostsTooMuch(env.codec, base, pack, TrapRequest())
  {
    assert Whole(env) in base.evidence;
    SecondInput(env, base);
    SpentIsLittle(env.codec, base);
    PackIsQuiet(env, ExpandInput(env, TrapPlan(), base, TrapRequest()));
  }

  lemma SpentIsLittle(codec: Codec, base: Pack)
    requires Accounted(codec, base) && Quiet(base)
    ensures Little(Again(base.used))
  {
  }

  /** The expansion succeeds with an empty pack. */
  lemma EmptyExtension(env: Env, base: Pack)
    requires IsTrap(env) && WellKept(env, TrapPlan(), base) && base.evidence == [Whole(env)] && Quiet(base)
    requires base.plan.history == []
    requires base.plan.required == [] && base.plan.optional == []
    ensures Extend(env, TrapPlan(), base, TrapRequest()).Success?
    ensures var d := Extend(env, TrapPlan(), base, TrapRequest()).value; !d.failed && d.pack.evidence == []
  {
    EmptyPackBuilt(env, base);
    NothingReused(env, base);
    assert RemainingFits(TrapPlan().admission.budget, base.used, TrapRequest().remaining);
  }

  /** A run of one expansion that loses an item: the pack it starts from is honest and holds the
      item, and nothing in the pack it answers contains it. */
  lemma ExpansionLosesEvidence(env: Env)
    requires IsTrap(env)
    ensures var base := Prepare(env, TrapPlan());
            && Honest(env, TrapPlan(), base) && Whole(env) in base.evidence && Authored(Whole(env))
            && var r := Expand(env, TrapPlan(), base, TrapRequest());
               r.Success? && !r.value.failed && !Survives(r.value.pack, Whole(env))
  {
    var plan, base := TrapPlan(), Prepare(env, TrapPlan());
    PrepareIsWellKept(env, plan);
    PrepareIsHonest(env, plan);
    BaseHoldsWhole(env, PrepareInput(env, plan), base);
    RunsAreAccepted(env, plan, base, TrapRequest());
    assert Refusal(env, plan, base, TrapRequest()) == None;
    EmptyExtension(env, base);
  }

  /** No such repository is loaded: its file looks like a secret, and that is where a slice begins
      and another ends. */
  lemma TrapIsNotLoaded(env: Env)
    requires IsTrap(env)
    ensures !NoSecrets(env) && !LoadedCleanly(env)
  {
    BothLive(env);
    OnlyWholeIsSecret();
    assert FIRST in env.retrieve(TrapPlan(), []).candidates && LAST in env.retrieve(TrapPlan(), []).candidates;
    assert ALL_LINES[0..22] == ALL_LINES;
    assert Retrievable(env, FIRST) && Retrievable(env, LAST) && !NoSecretIn(env, FIRST, LAST);
    if LoadedCleanly(env) { LoaderKeepsSecretsOut(env); }
  }
}
