# Verified models of the orchestrator's deterministic cores

This project models, in Dafny, the parts of the orchestrator whose correctness is a matter of
logic rather than of plumbing, and proves what they promise for every input and every run.

| Component | Source | Modules |
|---|---|---|
| Context packing and expansion | `internal/contextretrieval` | `Evidence`, `SpanMerge`, `SliceMerge`, `LineRuns`, `SliceFamilies`, `WholeLines`, `Ranking`, `PackMeter`, `ContextPack`, `Packing`, `PackingLaws`, `PackGuarantees`, `PackBuilder`, `Retrieval`, `Expansion`, `ExpansionLaws`, `RunItems`, `LiveRuns`, `SecretPattern`, `RunEvidence`, `LostEvidence`, `Engine` |
| Mounted-route resolution | `internal/discovery/go_routes.go` | `MountedRoutes` |
| Manifest reconciliation | `internal/architecturemanifest/reconcile.go` | `ManifestReconcile`, `ManifestPlanner`, `ManifestPublish`, `ManifestRelisting`, `ManifestConvergence`, `ManifestSecondRun` |
| Architecture catalog | `internal/architecturecatalog`, `internal/architecturemanifest/audit.go` | `StableIdentity`, `CanonicalJson`, `RelationCatalog`, `FleetExternals`, `OperationAccounting`, `DiscoveryOrder` |
| Managed-asset distribution, interface search | `internal/agentcontrol`, `internal/contractbaseline/verifier.go` | `Distribution`, `DistributionService`, `DistributionRuns`, `PortSearch` |

`Ordering` holds string order and sorting, `Permutations` listings in different orders, `Wrappers` the
Option and Result shapes.

Code that changes things step by step is modelled by methods and classes with loops
(`ManifestPublish.Disk`, `DistributionService.Service`, `MountedRoutes.Walker`, `Engine.Engine`, ...),
each proved against a specification function; the results about those functions are lemmas.
Everything the program asks of code that is not modelled (hashes, YAML, resolvers, the world that
edits files between two steps) is an arbitrary function or schedule, so the results hold for all of
them.

Every induction is written out as a recursive lemma; automatic induction is switched off throughout.

## What the proofs found

- `measurePack` always reaches a fixpoint within its eight attempts, but there can be two, so the
  counts depend on where the iteration starts (`PackMeter.FixpointIsNotUnique`). Replay is exact
  because it repeats the same starts.
- `qualityMergeSpans` works on lines while the check on live bytes works on bytes. Two live slices
  merge into a live slice if and only if the first line that both have begins at one place for both,
  and the slice that goes further ends in a newline if the other does (`SliceMerge.MergeIsLiveExactly`).
  Two slices with one text on one line fail it, as `func init() {}; func init() {}` gives
  (`SliceMerge.RepeatedTextIsSpoiled`). An expansion of a pack that holds such a merge is never extended,
  and is reported as a stale base unless an earlier check answers first (`LiveRuns.SpoiledIsStaleExactly`).
  Pairs decide over whole runs: if any two slices that resolvers can return for one symbol and kind meet
  that condition whenever they merge, so does everything merged from them, and no pack of a run is ever
  stale (`SliceFamilies.MergeGrows`, `LiveRuns.RunsNeverGetStale`). Mixed endings do no harm: a whole file
  and a declaration of it merge into live text, unless the file lacks a last newline that the other has
  (`WholeLines.FileMergesWell`).
- No run loses an authored item of evidence as long as no text of a file between the ends of slices looks
  like a secret (`RunEvidence.RunsKeepEvidence`). The loader sees to that
  (internal/adapters/contextretrieval/filesystem.go:150-155): a file in which some part that cuts no word
  matches the pattern matches it as a whole (`RunEvidence.LoaderKeepsSecretsOut`). Both conditions are
  needed: cut inside a word, a part can match though the file does not (`SecretPattern.CutWordHidesSecret`),
  and were such a file let in, two harmless quotations could merge into text that the next expansion drops
  (`LostEvidence.ExpansionLosesEvidence`).
- `qualityRankLess` is a strict weak order on the two freshness values that the filter lets through
  and on no third one (`Ranking.OtherFreshnessBreaksRank`).
- `qualityPackWorse` improves a status in exactly four cases, none of which the packer produces
  (`Packing.WorseNeverImproves`).
- `joinGoRoute` is associative in every case but one (`MountedRoutes.JoinAssociative`).
- Below its limit, the mounted-route walk finds every endpoint of a root path, up to one slash at its end,
  if and only if every cycle that a root reaches and that leads to a route is made of mounts at "" or "/";
  and exactly those endpoints if and only if it also finds those that a "/" mount on a cycle gives their
  slash, which it can miss (`MountedRoutes.Walker.Resolve`, `MountedRoutes.SlashCyclesLoseRoutes`).
- Two declarations whose resolved targets differ only in surrounding spaces get different relation
  keys and one edge id, so `Build` rejects the catalog (`RelationCatalog.UntrimmedTargetIsRejected`).
- `internal/architecturecatalog/builder.go:22` promises that input order is never retained. The order
  of manifests and of fallback candidates never shows in the counters
  (`OperationAccounting.ManifestOrderIsIrrelevant`). The order of discovered operations is irrelevant if
  and only if no operation wavers: each one that falls back either chooses among manifests that are sole
  choices of such operations, or has two choices that neither an exact match nor a sole choice takes
  (`DiscoveryOrder.OrderIsIrrelevantExactly`).
- The 32-bit length prefix of `graphID` is tight: 2^32 bytes already collide with a list of another
  shape (`StableIdentity.LongValueIsAmbiguous`).
- Publishing a plan overwrites an edit made between its check of a file and its write
  (`ManifestPublish.Disk.Publish`, `ManifestPublish.LoseEdit`); created files are immune.

## Model

| member | source | states |
|---|---|---|
| SliceMerge.MergeIsLiveExactly | internal/contextretrieval/quality.go:434-480 | for all live slices of one document, wherever they begin and end: the merge is live if and only if the first common line begins at one place for both and no newline is added at the end |
| SliceMerge.RepeatedTextIsSpoiled | internal/contextretrieval/quality.go:446-479 | two slices with one text on one line merge into a span that is not live |
| SpanMerge.MergeIsExact | internal/contextretrieval/quality.go:434-480 | quotations of whole lines always merge into exactly the union's lines and bytes, except, exactly, for one surplus newline at an unterminated last line |
| SpanMerge.OvershootingIsStale | internal/contextretrieval/engine.go:160-165 | for whole lines, merged text passes the live-bytes check if and only if it did not overshoot |
| SpanMerge.MergeSpans | internal/contextretrieval/quality.go:434-480 | the loop with its early exits computes the specified merge |
| SpanMerge.MergeByLine | internal/contextretrieval/quality.go:443-466 | the line loop: refusal on wrong line counts or disagreement, else the joined union |
| SpanMerge.DedupedKeepsMarks | internal/contextretrieval/quality.go:482-527 | for any order, results show exactly the lines, facets, limitations and flags of the inputs per origin, and each input has a result that contains its span and traces its id |
| SpanMerge.DedupedQuotes | internal/contextretrieval/quality.go:482-527 | over newline-terminated documents quotations of whole lines stay exact quotations |
| LineRuns.MadeFit | internal/contextretrieval/quality.go:443-466 | runs of lines that were merged, in whatever order, from parts that fit one another in pairs fit one another: the first common line is at one place and their ends agree |
| SliceFamilies.MergeGrows | internal/contextretrieval/quality.go:434-480 | what was merged from slices that merge well in pairs merges into a live slice again, whenever it merges |
| SliceFamilies.DedupedStayLive | internal/contextretrieval/quality.go:482-527 | if any two inputs of one origin that merge, merge into a live slice, every result of deduplication is live, for any document and order |
| WholeLines.QuotationsMergeWell | internal/contextretrieval/quality.go:434-480 | two overlapping quotations of whole lines merge into a live slice if and only if the union gets no newline that the document lacks |
| WholeLines.FileMergesWell | internal/adapters/contextretrieval/exact.go:49-55 | a whole file and any live slice that merges with it merge into a live slice, except, exactly, if the slice ends in a newline and the file does not |
| SpanMerge.Deduplicate | internal/contextretrieval/quality.go:482-527 | the nested loops compute that deduplication |
| Evidence.QuotesMatchSlice | internal/contextretrieval/engine.go:160-165 | whole quoted lines are the document's bytes between the span's offsets |
| Evidence.LinesOfQuotation | internal/contextretrieval/quality.go:441-442 | trimming one newline and splitting recovers the quoted lines |
| Ranking.RankIsStrictWeakOrder | internal/contextretrieval/quality.go:528-557 | on current and dirty evidence the rank is irreflexive, transitive, and its ties are transitive |
| Ranking.OtherFreshnessBreaksRank | internal/contextretrieval/quality.go:542-544 | with a third freshness ties are not transitive |
| Ranking.SortTwice | internal/contextretrieval/pack.go:319 | sorting evidence by rank is idempotent even then |
| PackMeter.MeasuredIsConsistent | internal/contextretrieval/pack.go:238-254 | from any earlier counts eight attempts reach counts that describe the very JSON containing them |
| PackMeter.Measure | internal/contextretrieval/pack.go:226-255 | the loop reaches that fixpoint and sets the byte counts |
| PackMeter.FixpointIsNotUnique | internal/contextretrieval/pack.go:238-254 | two different counts describe the same envelope |
| PackMeter.CumulativeCoversCurrent | internal/contextretrieval/pack.go:241-247 | exactly when the cumulative count covers the current one |
| ContextPack.MeasuredPackIsAccounted | internal/contextretrieval/pack.go:387-408 | a measured pack meets the digest check's accounting |
| ContextPack.CanonicalTwice | internal/contextretrieval/pack.go:292-328 | normalizing a pack is idempotent |
| Packing.WorseNeverImproves | internal/contextretrieval/pack.go:174-185 | exactly which pair of statuses improves, and that the result is at least as severe as the new one |
| Packing.CompactKeepsTrouble | internal/contextretrieval/pack.go:445-464 | compacting exclusion ledgers keeps every other diagnostic and adds none that counts against COMPLETE |
| PackingLaws.PlaceGrows | internal/contextretrieval/pack.go:85-103 | one candidate's turn takes nothing back and keeps COMPLETE equivalent to "nothing unresolved" |
| PackingLaws.PlaceAllSettles | internal/contextretrieval/pack.go:85-103 | after the greedy loop each candidate is in the evidence or omitted with its reason |
| PackGuarantees.EveryCandidateIsAccountedFor | internal/contextretrieval/pack.go:85-103 | in the finished pack each candidate is evidence or omitted; an omitted mandatory one means BLOCKED with BUDGET_UNSATISFIED; evidence is a sub-multiset of the candidates |
| PackGuarantees.UnlessUnsatisfiedMandatoryIsIn | internal/contextretrieval/pack.go:63-103 | without a BUDGET_UNSATISFIED diagnostic every mandatory candidate is in the pack |
| PackGuarantees.OnlyTokensCanOverrun | internal/contextretrieval/pack.go:157-165 | when earlier byte costs fit, a finished pack can exceed only the token budget, and then is BLOCKED and says so |
| PackGuarantees.PackIsAccounted | internal/contextretrieval/pack.go:387-408 | every returned pack passes the digest check's accounting and its cumulative costs do not fall |
| PackGuarantees.StatusNeverImproves | internal/contextretrieval/pack.go:35-56 | severity only grows through placing, facet checks, policy checks and the final measure |
| PackGuarantees.CompleteExactly | internal/contextretrieval/pack.go:35-165 | COMPLETE if and only if route, coverage, conflicts and questions are clear, no budget failed, every required facet has evidence and every applicable policy has exact-hash evidence |
| PackBuilder.BudgetViolation | internal/contextretrieval/pack.go:257-290 | the two counting maps find the first exceeded budget |
| PackBuilder.InitialStatus | internal/contextretrieval/pack.go:35-56 | the status loops arrive at the closed form, in any order of the questions |
| PackBuilder.TryCandidate | internal/contextretrieval/pack.go:86-102 | one round of the greedy loop |
| PackBuilder.AnswerFacets | internal/contextretrieval/pack.go:104-140 | the required-facet loop |
| PackBuilder.AnswerPolicies | internal/contextretrieval/pack.go:141-156 | the trusted-policy loop |
| PackBuilder.BuildPack | internal/contextretrieval/pack.go:18-172 | the whole function returns the specified pack, accounted |
| Retrieval.SoundIsKept | internal/contextretrieval/quality.go:213-318 | authored evidence that passed the filter once passes it again under any plan with the same quotation, unless its text looks like a secret |
| Retrieval.KeptIsSound | internal/contextretrieval/quality.go:233-318 | kept evidence is admitted, pinned, coherent and fresh for its source |
| Retrieval.AnalyzedIsSound | internal/contextretrieval/quality.go:203-326 | so is everything the analysis hands over after merging |
| Retrieval.AnalysisKeepsSound | internal/contextretrieval/quality.go:203-326 | each such item has a result containing its span, facets and required flag |
| ExpansionLaws.PrepareIsHonest | internal/contextretrieval/engine.go:19-48 | a prepared pack is the fold of its (empty) history |
| ExpansionLaws.StepIsHonest | internal/contextretrieval/engine.go:216-369 | expanding the fold of a history gives the fold of the pack's new history |
| ExpansionLaws.HonestIsWellKept | internal/contextretrieval/engine.go:257-282 | in every pack of a run the expansion count is the history length and at most the depth limit, the account is its own, the evidence sound, the admission unchanged |
| ExpansionLaws.RunsAreAccepted | internal/contextretrieval/engine.go:257-282 | with one fixed request every pack of a run is accepted as the next base, and replay does not change the answer |
| ExpansionLaws.ReplayAcceptsExactlyHonest | internal/contextretrieval/engine.go:257-282 | a base is accepted if and only if it is the pack of an honest run under its request id, up to list order and the plan's copy of that id |
| ExpansionLaws.ExtensionKeepsEvidence | internal/contextretrieval/engine.go:291-368 | each authored base item that does not look like a secret has an authored item in the new pack with the same source, path and hash that contains its span |
| RunItems.RunHas | internal/contextretrieval/engine.go:216-369 | what resolvers give every slice, verification and filter leave alone and merging keeps, every item of every pack of every run has |
| RunEvidence.RunsKeepEvidence | internal/contextretrieval/engine.go:216-369 | over every run, if no text of a document between the ends of retrievable slices looks like a secret, each authored item of a pack is contained in an authored item of every later pack |
| RunEvidence.LoaderKeepsSecretsOut | internal/adapters/contextretrieval/filesystem.go:150-155 | that condition follows from the loader's check of whole files with the program's pattern, if resolvers cut no word |
| SecretPattern.SecretPartShows | internal/contextretrieval/quality.go:22 | if a part of a text that cuts no word matches the secret pattern, the whole text does |
| SecretPattern.CutWordHidesSecret | internal/contextretrieval/quality.go:22 | cut inside a word, a part can match although the whole does not |
| RunEvidence.RunsKeepUnlessSecret | internal/contextretrieval/engine.go:216-369 | without any condition: each authored item is contained in an item of every later pack, unless live evidence that has come to contain it looks like a secret on the way |
| RunEvidence.SecretsAreLost | internal/contextretrieval/quality.go:240-247 | an extension keeps nothing of a file all of whose evidence looks like a secret |
| LostEvidence.ExpansionLosesEvidence | internal/contextretrieval/quality.go:240-247 | were a file that matches the pattern let in: an honest pack whose one item was merged from two quotations that do not match, and a successful expansion of it that holds nothing of the item |
| LostEvidence.TrapExists | internal/contextretrieval/quality.go:240-247 | a repository, as the loader never returns it, in which that happens |
| LostEvidence.TrapIsNotLoaded | internal/adapters/contextretrieval/filesystem.go:150-155 | every such repository violates the loader's check |
| ExpansionLaws.ExtensionFitsBudgets | internal/contextretrieval/engine.go:334-350 | an extension exceeds none of the four budgets |
| ExpansionLaws.ExpandLosesNothing | internal/contextretrieval/engine.go:216-369 | for any base, the answer is the unchanged base or a pack that keeps its evidence, never lowers cumulative costs, fits every budget and extends its history by one step |
| LiveRuns.RunsNeverGetStale | internal/contextretrieval/engine.go:291-294 | if any two retrievable slices of one symbol and kind that merge, merge into a live slice, no pack of a run is ever a stale base |
| LiveRuns.SpoiledIsStaleExactly | internal/contextretrieval/engine.go:278-294 | expanding a pack of a run reports a stale base exactly if some evidence is not live and no earlier check answers; such a pack is never extended |
| LiveRuns.UsualResolversMergeWell | internal/adapters/contextretrieval/exact.go:148-152 | whole files, quotations of whole lines and declarations that share no line, in any mixture, meet that condition |
| Engine.Engine.VerifyCandidates | internal/contextretrieval/engine.go:151-203 | the verification loop |
| Engine.Engine.AnalyzeQuality | internal/contextretrieval/quality.go:203-326 | the filter loop, deduplication and ranking |
| Engine.Engine.Prepare | internal/contextretrieval/engine.go:19-48 | retrieve, verify, analyze and pack as specified |
| Engine.Engine.PlanExpansion | internal/contextretrieval/engine.go:298-320 | the expanded plan keeps facets of earlier expansions |
| Engine.Engine.Extend | internal/contextretrieval/engine.go:280-369 | depth, budget, identity and liveness checks in order, then the new pack or the base |
| Engine.Engine.Replay | internal/contextretrieval/engine.go:257-282 | the replay loop decides acceptance as specified |
| Engine.Engine.Expand | internal/contextretrieval/engine.go:216-369 | admission, replay and extension in order |
| MountedRoutes.JoinAssociative | internal/discovery/go_routes.go:402-410 | associative if and only if not the one exceptional case |
| MountedRoutes.MountsFlatten | internal/discovery/go_routes.go:129-131 | mounting a router that mounts another equals mounting the joined prefix, with the same one exception |
| MountedRoutes.KeyIsInjective | internal/discovery/go_routes.go:118 | the memo key determines node and prefix for NUL-free node names |
| MountedRoutes.GraphBuilder.AddEdge | internal/discovery/go_routes.go:364-375 | drops empty, self and repeated edges, appends any other, changes nothing else |
| MountedRoutes.EveryPathIsWalked | internal/discovery/go_routes.go:112-147 | if all visited nodes are closed, every root path that leads to a route ends in a node entered under its prefix, up to a slash from a cycle |
| MountedRoutes.CutNodeIsHandled | internal/discovery/go_routes.go:118-124 | cutting at a node being visited loses nothing but a slash when cycles are blank mounts |
| MountedRoutes.Walker.Walk | internal/discovery/go_routes.go:112-132 | terminates on every graph, reports only simple-path endpoints, and closes what it visits below the limit |
| MountedRoutes.Walker.Resolve | internal/discovery/go_routes.go:106-147 | always sound; below the limit, all endpoints of root paths are found up to a final slash if and only if no cycle adds a prefix, and exactly they are found if and only if those with a slash from a cycle are; of the graph alone, it is enough that there are none of these and necessary that simple paths serve them |
| MountedRoutes.FoundExactly | internal/discovery/go_routes.go:106-147 | those two equivalences and the two conditions on the graph alone, for any finished walk |
| MountedRoutes.AliasCyclesAreHarmless | internal/discovery/go_routes.go:106-147 | graphs whose cycles only alias, and acyclic ones, meet both conditions |
| MountedRoutes.Walker.Roots | internal/discovery/go_routes.go:106-144 | the sorted roots are exactly the nodes without incoming mount that have routes or mounts |
| MountedRoutes.PrefixedCyclesLoseRoutes | internal/discovery/go_routes.go:118-131 | in every graph with a prefixed cycle that a root reaches and that leads to a route, any finite list misses a reachable endpoint |
| MountedRoutes.SlashCyclesLoseRoutes | internal/discovery/go_routes.go:118-131 | a "/" mount on a cycle can add an endpoint that no simple path serves |
| ManifestPlanner.ScanListed | internal/architecturemanifest/reconcile.go:86-134 | the loop over listed manifests accepts exactly readable, distinct, removable listings and gathers ids, places and removals |
| ManifestPlanner.BuildHttp | internal/architecturemanifest/reconcile.go:165-193 | the loop over discovery keeps or scaffolds each identity, or refuses |
| ManifestPlanner.Regroup | internal/architecturemanifest/reconcile.go:207-232 | groups lose HTTP members, the first emptied one becomes the HTTP group |
| ManifestPlanner.PlanFiles | internal/architecturemanifest/reconcile.go:61-246 | succeeds exactly on admissible inputs and plans the specified files |
| ManifestPlanner.Reconcile | internal/architecturemanifest/reconcile.go:42-266 | in a calm repository succeeds exactly on admissible inputs and leaves the planned files; a refusal writes nothing |
| ManifestConvergence.PlanIsPublishable | internal/architecturemanifest/reconcile.go:89-246 | a plan names each path once and describes the files as they are |
| ManifestConvergence.PlanLands | internal/architecturemanifest/reconcile.go:308-364 | publishing it removes stale manifests and diagrams, creates the new manifests and touches nothing else |
| ManifestSecondRun.ListingIsExact | internal/architecturemanifest/reconcile.go:194-246 | after one run listed HTTP identities equal discovery, each HTTP id is once in the last group and in no other, other manifests keep listing and content, other members keep their order |
| ManifestSecondRun.SecondRunPlansNothing | internal/architecturemanifest/reconcile.go:42-266 | a second run with the same discovery is accepted and plans no change |
| ManifestPublish.Disk.Check | internal/architecturemanifest/reconcile.go:366-375 | succeeds only if the file is as planned |
| ManifestPublish.Disk.Publish | internal/architecturemanifest/reconcile.go:345-362 | one check-and-write: others keep their content, success replaces exactly the expected content unless raced, and an edit raced in between is replaced |
| ManifestPublish.LoseEdit | internal/architecturemanifest/reconcile.go:345-362 | a schedule in which the bytes of another program are replaced |
| ManifestPublish.Disk.Rollback | internal/architecturemanifest/reconcile.go:321-344 | undoing in reverse restores every quiet path except those it reports, and never replaces bytes this run did not leave, unless raced |
| ManifestPublish.Disk.Apply | internal/architecturemanifest/reconcile.go:308-364 | for every schedule of edits and faults: published paths hold the plan, a refusal wrote nothing, a calm rollback restores everything, each write replaced what it expected or was raced |
| ManifestPublish.PublishedPlanHolds | internal/architecturemanifest/reconcile.go:345-363 | with distinct paths the last state holds every planned result and no other change |
| StableIdentity.FramesAreInjective | internal/architecturecatalog/identity.go:90-101 | length-prefixed frames determine the list of values that fit |
| StableIdentity.GraphIdBytesAreInjective | internal/architecturecatalog/identity.go:90-101 | the hashed bytes determine the values below 2^32 bytes |
| StableIdentity.LongValueIsAmbiguous | internal/architecturecatalog/identity.go:94-100 | at 2^32 bytes they do not |
| StableIdentity.GraphIdIsInjective | internal/architecturecatalog/identity.go:90-101 | equal ids mean equal values, or the very bytes hashed for the two lists collide |
| StableIdentity.StreamGraphId | internal/architecturecatalog/identity.go:90-101 | the streaming loop writes those bytes |
| StableIdentity.ChecksumBytesAreInjective | internal/agentcontrol/catalog.go:215-224 | the hashed bytes determine the file map |
| StableIdentity.ChecksumIsInjective | internal/agentcontrol/catalog.go:215-224 | equal checksums mean equal file maps, or the very bytes hashed for the two maps collide |
| StableIdentity.StreamChecksum | internal/agentcontrol/catalog.go:215-224 | for any iteration order of the map the stream is the same |
| CanonicalJson.RoundTrip | internal/architecturecatalog/export.go:245-333 | a decoder recovers every tree from its text and stops at its end |
| CanonicalJson.PrintIsInjective | internal/architecturecatalog/export.go:245-333 | different trees never print alike |
| CanonicalJson.GraphWriter.WriteString | internal/architecturecatalog/export.go:258-286 | the escaping loop |
| CanonicalJson.GraphWriter.Write | internal/architecturecatalog/export.go:287-328 | the recursive writer appends the printed tree, whatever order an object's keys are met in |
| CanonicalJson.CanonicalGraphJson | internal/architecturecatalog/export.go:245-333 | returns text that decodes to the value |
| RelationCatalog.EdgeIdIdentifies | internal/architecturecatalog/identity.go:35-42 | equal edge ids mean equal trimmed tuples, or the very bytes hashed for the two tuples collide |
| RelationCatalog.JoinPartsIsInjective | internal/architecturecatalog/builder.go:745-747 | NUL-joined keys determine their NUL-free parts |
| RelationCatalog.EdgeIdComparesLoosely | internal/architecturecatalog/builder.go:503-534 | among normalized relations edge ids are equal exactly if identities are, up to spaces in resolved targets and operation ids |
| RelationCatalog.KeysAgreeWithEdgeIds | internal/architecturecatalog/builder.go:503-534 | with trimmed texts, relations the key keeps apart never share an edge id |
| RelationCatalog.RelationBuilder.Add | internal/architecturecatalog/builder.go:503-534 | normalizes, with the evidence of the description in place of missing evidence and its confidence in any case, then appends or merges into the relation with the same key |
| RelationCatalog.RelationBuilder.AddAll | internal/architecturecatalog/builder.go:503-534 | every declaration is represented once by a normalized relation |
| RelationCatalog.ValidateEdges | internal/architecturecatalog/identity.go:63-88 | accepts exactly lists whose relations have the references of their projects and their own, distinct ids |
| RelationCatalog.AcceptedIffLooselyDistinct | internal/architecturecatalog/identity.go:63-88 | the validator accepts the builder's output exactly if no two relations are loosely identical |
| RelationCatalog.AcceptedOrEdgesCollide | internal/architecturecatalog/identity.go:63-88 | the same with the program's own hash, unless the bytes hashed for two relations of that catalog collide |
| RelationCatalog.TrimmedTextsAreAccepted | internal/architecturecatalog/builder.go:503-534 | with trimmed texts Build never fails on a duplicate edge |
| RelationCatalog.UntrimmedTargetIsRejected | internal/architecturecatalog/builder.go:503-534 | a target that differs by a space makes it fail |
| FleetExternals.ExternalIsNoProject | internal/architecturecatalog/fleet_external.go:31-44 | an external reference does not have a project's id, if the scheme names these two apart |
| FleetExternals.ResolvingKeepsDistinct | internal/architecturecatalog/fleet_external.go:25-48 | re-identified edges keep distinct ids, if the scheme names the edges and references of this graph apart |
| FleetExternals.NoTargetDangles | internal/architecturecatalog/fleet_external.go:25-51 | every target of a rewritten edge has a reference |
| FleetExternals.FleetGraph.ResolveExternals | internal/architecturecatalog/fleet_external.go:16-62 | keeps the edge count, old references and diagnostics except those of resolved edges, leaves no dangling target, and keeps ids unique if the scheme names this graph apart |
| FleetExternals.StableIdsAreApart | internal/architecturecatalog/identity.go:24-42 | the program's own ids name a graph apart, whatever the hash, unless the bytes hashed for two of its edges or two of its references collide |
| OperationAccounting.IndexManifests | internal/architecturecatalog/builder.go:151-165 | the two maps hold exactly how often each signature is declared and which signatures each source path offers; the counts sum to the normalizable manifests |
| OperationAccounting.UniqueFallback | internal/architecturecatalog/builder.go:297-316 | the loop finds the one open candidate, or none |
| OperationAccounting.EveryOperationIsCounted | internal/architecturecatalog/builder.go:256-290 | total = with manifests + missing + blocked |
| OperationAccounting.FallbacksAreDistinct | internal/architecturecatalog/builder.go:266-290 | no manifest is taken twice through the fallback |
| OperationAccounting.RunIgnoresCandidateOrder | internal/architecturecatalog/builder.go:297-316 | candidate order is irrelevant |
| OperationAccounting.ManifestOrderIsIrrelevant | internal/architecturecatalog/builder.go:151-166 | whatever order the map of manifests is met in, the counters are the same |
| DiscoveryOrder.OrderIsIrrelevantExactly | internal/architecturecatalog/builder.go:256-316 | every order of the discovered operations gives the same counters and matched manifests if and only if no operation wavers; otherwise two orders differ in the missing ones |
| DiscoveryOrder.ExactMatchWavers | internal/architecturecatalog/builder.go:256-316 | an operation with two choices, one of which an exact match takes, wavers |
| OperationAccounting.AuditAgreesWithBuilder | internal/architecturemanifest/audit.go:218-261 | both matchers count alike; their matched sets differ in ambiguous signatures only |
| OperationAccounting.Completeness.ApplyDiscovered | internal/architecturecatalog/builder.go:256-290 | counters add up, and manifests without discovery plus counts of matched signatures are all normalizable manifests |
| OperationAccounting.Completeness.Audit | internal/architecturemanifest/audit.go:218-261 | the audit's counters equal the builder's, blocked plus the un-normalizable manifests |
| PackMeter.DigitsOfNear | internal/contextretrieval/pack.go:239-240 | adding less than ten changes the number of digits by at most one |
| PortSearch.ExploredReachesNothing | internal/contractbaseline/verifier.go:380-419 | if every seen name is explored, nothing reachable declares an exported method |
| PortSearch.PortSearcher.Visit | internal/contractbaseline/verifier.go:386-416 | terminates on cyclic types; false means fully explored despite the shared set |
| PortSearch.CallableGoPort | internal/contractbaseline/verifier.go:380-419 | true exactly if a reachable interface declares an exported method |
| Distribution.FingerprintBindsStates | internal/agentcontrol/distribution.go:269-300 | a proposal with the fingerprint of a clean one is clean |
| Distribution.UnretainedIsReplaceable | internal/agentcontrol/distribution.go:148-163 | an asset that is neither conflicting nor modified holds nothing, the desired content, or exactly what provenance recorded |
| Distribution.NextManifestIsStable | internal/agentcontrol/distribution.go:184-210 | the next manifest of the next manifest is itself |
| Distribution.NextManifestIsValid | internal/agentcontrol/distribution.go:212-246 | the next manifest passes the next inspection's check |
| Distribution.DeployedHoldsCatalog | internal/agentcontrol/service.go:33-35 | after a write every distributed target holds the catalog's content and no other target changed |
| Distribution.ReplanAfterApply | internal/agentcontrol/distribution.go:113-182 | planning right after an apply reports every asset current and the same manifest |
| DistributionService.NextProvenance | internal/agentcontrol/distribution.go:184-210 | the loops over maps give the specified manifest for any iteration order |
| DistributionService.BuildProposal | internal/agentcontrol/distribution.go:113-182 | the loops build the specified proposal or refuse the snapshot |
| DistributionService.CleanIsSafe | internal/agentcontrol/service.go:50-54 | if the conflict check passes, every target may be replaced |
| DistributionService.Service.Plan | internal/agentcontrol/service.go:19-31 | inspects once and proposes, writing nothing |
| DistributionService.Service.Apply | internal/agentcontrol/service.go:36-67 | for every schedule of edits and faults a success wrote once, from an approved clean state, exactly the catalog's content; a failure wrote nothing; in calm it succeeds exactly on approved clean states |
| DistributionRuns.OnlyOwnBytesAreReplaced | internal/agentcontrol/service.go:36-67 | over every run of edits, of files and of the manifest itself, upgrades and applies, content an apply replaces is what it writes, or bytes that an earlier apply wrote or an edited manifest claims for the same asset at the same target |
| DistributionRuns.ForeignContentBlocks | internal/agentcontrol/distribution.go:148-163 | content that no apply wrote and no edited manifest claims blocks every apply while it is there |
| DistributionRuns.ApplyingAgainIsCurrent | internal/agentcontrol/service.go:36-67 | in a run, an apply can be repeated at once and finds everything current |

## Left out

- Hash functions: SHA-256 is an arbitrary function and injectivity holds up to a collision of named bytes;
  some results of `RelationCatalog` take an id scheme without collisions, and
  `RelationCatalog.AcceptedOrEdgesCollide` names the collision; `Distribution` represents a checksum by
  what it is the checksum of.
- YAML and JSON parsing, `go/ast`, `git`: values are already parsed. `ManifestReconcile.Yaml` states
  what is assumed of YAML: what is written is read back, and rewriting twice is rewriting once.
- Lengths count characters of the model's text; the source counts UTF-8 bytes.
- `ContextPack.Codec`: every pack is taken to have a JSON text shorter than 2^62 bytes, as every pack
  in memory has.
- ContextPack.CanonicalTwice: the derived id lists and the normal forms of routes, sources and scopes
  are not part of the model's pack.
- Symbolic links, permissions, temporary files, fsync: each file operation is one atomic step that
  has its effect or fails without one.
- `ManifestPlanner.Reconcile`: reads the repository as one snapshot before it publishes; edits
  during planning are caught by the checks of publication, which are modelled.
- Deadlines, cancellation, traces and latency in `internal/contextretrieval/engine.go`.
- The second load that detects a snapshot changing during resolution (engine.go:31-39, 325-331):
  expansion is modelled on an unchanged snapshot, with resolvers as functions of it.
- Request validation in `BuildPlan` (internal/contextretrieval/plan.go): a current plan is given, and
  only its request id may be invalid.
- Generated-input pins, claim conflicts and `ClaimAuthority` are arbitrary functions of the evidence. So is
  the secret pattern, except where `RunEvidence.LoadedCleanly` says that it is `SecretPattern.LooksSecret`;
  the loader's second pattern, which excludes more files, is not modelled.
- The lists that `projectPack` derives from the evidence, and texts of diagnostics beyond code and
  status, are part of a pack's encoded size only.
- Negative budgets: `BuildPlan` rejects them, so budgets are naturals.
- Diff text, Mermaid and Markdown rendering; `proposalDiff` is not part of the fingerprint model.
- The distribution adapter is not part of this model; its contract (write exactly the proposal, only
  onto the inspected state) is `DistributionService.Repository.Write`.
- Commit pins, exports and presentation of the catalog graph other than the canonical writer.
- Route extraction from Go syntax: the walk starts from the finished graph.
- Interaction kinds, per-kind counters and evidence merging order in the catalog builder.
- `cmd/*`, HTTP, Temporal, PostgreSQL, GitLab and Telegram wiring: plumbing over unseen libraries.
