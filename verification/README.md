# FreshDAG, verified

FreshDAG keeps an append-only log of observations made while artifacts are produced. From the
log it derives a dependency graph; on demand it probes each dependency of an artifact and issues
a certificate that says `valid`, `likely-valid`, `stale` or `unknown`. This project models that
pipeline end to end and proves what the verdict means.

Verify the whole project with `dafny verify dfyconfig.toml`.

## Layout

| files | what they model |
|---|---|
| `Primitives`, `Wrappers`, `Text`, `SortedSets` | instants, identifiers, optional values, results, strings, sets walked in order |
| `TrustClasses`, `Fingerprints`, `Dependencies`, `Ir`, `Paths`, `Identifiers` | the core vocabulary: trust order, wire forms, dependency identity, events, paths, event identifiers |
| `Order`, `ProducerStreams` | canonical linearization, duplicate findings, per-producer streams |
| `Coverage`, `Graph`, `ReverseIndex`, `Replays` | manifests and lookups, nodes and attribution, the reverse index, the whole replay |
| `FirstWins`, `NodeLists`, `GraphTheorems`, `RecordedEdges`, `Silences` | what replay means, stated over the canonical events alone |
| `Classifications`, `Emissions` | what replay reads out of each event and what a check puts into each, member by member |
| `TrustLedgers`, `ProbeRegistries`, `Edges`, `EdgeTheorems` | anti-thrash ledger, arbitration, the evaluation of one edge |
| `Validity`, `Certificates`, `Provenance`, `Seal`, `Engine` | aggregation, certificate rules, provenance, sealing, the check |
| `CheckedEdges`, `EngineTheorems`, `LogOrder` | what a whole check means and what it reads |
| `Evidence`, `Explanations` | the evidence, reasons and members of a certificate, read off the events, the manifests and the probes |
| `Feedback`, `FeedbackVerdicts`, `FeedbackCertificates` | what a check's output does to the next replay, the next verdict and the next certificate |
| `LedgerProjections` | what of the trust ledger can be rebuilt from the log |
| `WorkedExamples` | one small log followed to the end, through each way of losing its verdict |
| `LogReader`, `LogSink` | the tolerant scanner and the budgeted appender |
| `ETags`, `Https`, `HttpsTheorems`, `HttpsExamples` | the conditional-request probe |

## How it is modelled

- An instant is a number of nanoseconds, so offset spellings of one instant are one value.
- Code that updates state is a class or a method with the loop the code has, proved equal to a
  specification function; the theorems are about those functions. Vectors the code sorts out of
  ordered sets are sets here.
- An event carries the outcome of typed payload decoding in its `decoded` field, next to the raw
  payload members the code looks up by name.
- What a probe would answer is an arbitrary function of the probe, the key, the recorded
  fingerprint and the lifetime hint. A server is an arbitrary function of the request number and
  the request. Encoding and decoding of records are arbitrary functions, related only where a
  theorem asks that decoding undo encoding and that a record contain no newline. BLAKE3, and the
  hash of a serialized certificate, are arbitrary functions.
- A check is one call of `Engine.Check` at one instant; ledgers persist between calls.

## What the proofs found

- The engine's documentation says the order of the log does not matter
  (`crates/freshdag-engine/src/engine.rs:1206-1207`). The graph indeed does not depend on it,
  but the artifact's description and its provenance (recipe, adapter, start, end) are read from
  the first matching event in log order. `LogOrder.OrderIsIrrelevantExactlyWhen` gives the exact
  condition, `LogOrder.OrderMatters` an input, and `LogOrder.UsableInEveryOrder` what it does to a
  usable verdict, with `WorkedExamples.ReorderingCostsTheVerdict` for an input.
- The engine asks its caller to append a check's events to the log. A usable status survives that
  exactly when every consulted probe answered the recorded fingerprint and the engine, if it
  emitted anything, is itself a registered producer
  (`FeedbackVerdicts.UsableSurvivesChecksExactlyWhen`); the command line's comment at
  `crates/freshdag-cli/src/check.rs:13-27` describes the second half. A single `unknown`, even a
  retryable one, is replayed as an unproven exclusion, and no later certificate of the computation
  is usable (`Feedback.UnfaithfulAnswersStick`). A certificate is issued at all only while
  identifiers stay apart: two checks that emit anything in one millisecond make the log divergent
  (`FeedbackVerdicts.RunsStayDeterministicExactlyWhen`). `WorkedExamples` gives an input for each
  of the three and for a verdict that survives.
- Even a harmless check can change the next certificate. Without a recorded end the computation is
  taken to end with its latest event, which is now the engine's own, and the coverage list may
  gain the engine's manifest (`FeedbackCertificates.CertificateRepeatsExactlyWhen`).
- ADR 0007 wants the trust ledger folded from the log's reports, which do not carry the identity
  of the probe that answered. `LedgerProjections.LedgerIsProjectedExactlyWhen` says exactly when
  they suffice, and `LedgerProjections.LedgerIsNotAlwaysProjected` gives two checks for which they
  do not: the fold raises a class that the engine still holds back.
- Decision 3 of `docs/adr/0011-partial-coverage-is-a-closed-vocabulary-and-reaches-the-certificate.md`
  wants one implementation of silence semantics. There are two. The store looks an admission of
  partial coverage up under the kind's own name; the rule for discharging obligations honours
  wildcards too. `Silences.AbsenceIsOverstatedExactlyWhen` says exactly when the store calls an
  absence observed although no producer discharges the kind, and `Silences.SilenceCanBeOverstated`
  gives an input.
- Appending to a log with a torn tail glues the next record to the fragment
  (`LogReader.AppendAfterTornTail`).
- The `https` probe confirms a SHA-256 content hash for no body
  (`HttpsTheorems.OtherAlgorithmsNeverMatch`), reports a matching entity tag in normal form even
  when it was recorded in another spelling (`HttpsTheorems.MatchedFingerprint`), and demotes in
  silence when caching is forbidden without a validator, although its comment says a demotion is
  never silent (`HttpsTheorems.DemotionIsAnnouncedUnless`). `HttpsExamples` gives an input for each
  of the last two.
- The entity-tag parser accepts every entity tag, as its documentation says, but one: the strong
  tag that is a single slash is refused as a bad weakness prefix
  (`ETags.AcceptedExactlyWhen`, `ETags.OneSlashIsRefused`).
- The prefix of a custom fingerprint is not kept (`Fingerprints.ParseCollisions`), a probe
  identity is ambiguous when scheme and host part of two probes spell the same prefix
  (`ProbeRegistries.SharedIdentity`), which needs one scheme to be another continued by `@`
  (`ProbeRegistries.IdentityCollisions`), and engine identifiers repeat within one millisecond
  (`Identifiers.EngineIdCollisions`).

## Model

| member | source | states |
|---|---|---|
| `Engine.Engine.Check` | crates/freshdag-engine/src/engine.rs:162-374 | A check equals `Checked`: claim resolution, edges in turn, conflicts, the artifact and its provenance, sealing; only the ledger changes. |
| `Engine.Engine.constructor` | crates/freshdag-engine/src/engine.rs:1251-1261 | A built engine holds the replay of its log and an empty ledger. |
| `Engine.Engine.ComputationFor` | crates/freshdag-engine/src/engine.rs:378-395 | Succeeds exactly when one computation claims the artifact, and names it; otherwise says whether none or several do. |
| `Engine.Engine.EvaluateEdges` | crates/freshdag-engine/src/engine.rs:194-215 | The loop threads one ledger, one event list and one saturating sequence number through all edges. |
| `Engine.Engine.ApplyConflicts` | crates/freshdag-engine/src/engine.rs:217-287 | The loop equals `ConflictsApplied` and emits one diagnostic per conflict. |
| `Engine.Engine.Assemble` | crates/freshdag-engine/src/engine.rs:177-367 | Coverage, missing producers, artifact reasons and audited events are gathered as sealing expects them. |
| `EngineTheorems.CertificateIsTrue` | crates/freshdag-engine/src/engine.rs:162-374 | Every certificate issued carries the true status of the one computation that produced the artifact, its dependencies, and exactly the events that check emitted. |
| `EngineTheorems.VerdictIsExact` | crates/freshdag-engine/src/engine.rs:162-374 | Stale exactly when an unconflicted edge drifted; usable exactly when there are edges, no conflict, every edge supported and the evidence complete; valid exactly when moreover every recorded class is strong; unknown otherwise. |
| `EngineTheorems.AggregateIsTrue` | crates/freshdag-core/src/dependency/validity.rs:428-503 | Aggregating the final outcomes decides drift, support of every edge, and strength of every class. |
| `EngineTheorems.EvidenceDecidesReasons` | crates/freshdag-engine/src/engine.rs:289-347 | There is no artifact-scoped reason and a recipe exactly when producers are registered, nothing is unproven, effects and subprocesses are covered and a start names a recipe. |
| `Evidence.EvidenceMeaning` | crates/freshdag-engine/src/engine.rs:289-347 | Evidence is complete exactly when every contributing producer is registered, no event leaves a doubt, every effect seen is declared by name or family, a shell or agent was watched, and the first start gives a well-formed recipe hash; all said of the log and the manifests. |
| `Evidence.WatchesMeaning` | crates/freshdag-core/src/ir/coverage.rs:344-375 | A manifest discharges the obligation exactly when it is an observer's, declares `fs.read` or `fs.*`, and admits under either to nothing but over-approximating. |
| `Evidence.EffectsAndPatterns` | crates/freshdag-core/src/ir/coverage.rs:43-49 | The ten effect kinds, and for each the two patterns that reach it. |
| `Evidence.FamilyOrName` | crates/freshdag-core/src/ir/coverage.rs:43-49 | A pattern reaches a two-part kind exactly if it is its name or its family's wildcard. |
| `Evidence.RecipeIsTheFirstStarts` | crates/freshdag-engine/src/engine.rs:748-798 | There is a recipe exactly when the first start in the log says one by a well-formed hash. |
| `Explanations.CertificateSaysExactly` | crates/freshdag-engine/src/engine.rs:162-374 | Any certificate issued says exactly what log, manifests, probes and ledger bear out: schema, instant, dependencies, coverage, status, and the whole list of reasons in order. |
| `Explanations.CertificateIsExplained` | crates/freshdag-engine/src/seal.rs:293-505 | The reasons are, for each edge in turn, what was observed to its disadvantage, and then what speaks against the artifact as a whole, cause before symptom. |
| `Explanations.UnvouchedReadsForbidUse` | crates/freshdag-store/src/graph.rs:1000-1012 | A pure read without a hash of a path not written before, or an undecodable read, leaves every certificate of the computation stale or unknown, with the reason named. |
| `Explanations.UsableMeansWatched` | crates/freshdag-core/src/ir/coverage.rs:189-194 | A usable certificate of a computation that invoked `bash` or `task` lists an observer that declares file reads and admits about them to nothing but over-approximating. |
| `Explanations.ProductionDescribes` | crates/freshdag-engine/src/engine.rs:674-717 | What a production must say to describe its artifact, what each member of the description is read from, and which member is named when it is malformed. |
| `Explanations.GateMeaning` | crates/freshdag-core/src/certificate/mod.rs:446-500 | What the coverage gate finds and caps, for either authority, read off producers, shell invocations and observers. |
| `Explanations.ProvenanceMeaning` | crates/freshdag-engine/src/engine.rs:748-806 | Recipe, adapter, start and end, read off the members of the first start and end, and what stands in for a missing one. |
| `Explanations.CoveringAdapterMeaning` | crates/freshdag-engine/src/engine.rs:748-806 | Without a start the adapter is the least adapter of the coverage list by name and version, or the engine. |
| `EngineTheorems.SelfAuditsAreDead` | crates/freshdag-engine/src/engine.rs:162-374 | For every log, coverage, probes, ledger and instant a check returns a certificate or one of four errors, each only for its stated cause; no internal-inconsistency, aggregation, assembly, recipe or malformed-certificate error is reachable. |
| `EngineTheorems.ConflictsAlwaysApply` | crates/freshdag-engine/src/engine.rs:246-269 | Every recorded conflict finds its edge, and the edges end up as if evaluated alone and then overridden where conflicted. |
| `EngineTheorems.DueInputIsWellAssembled` | crates/freshdag-engine/src/engine.rs:289-367 | What a check hands to sealing always meets sealing's audits: producers accounted for, obligations covered or reasoned, edges explained. |
| `EngineTheorems.ProducersAreAccountedFor` | crates/freshdag-engine/src/seal.rs:260-283 | Each audited event's producer is declared in the coverage or accounted as missing. |
| `EngineTheorems.ClaimedIsProduced` | crates/freshdag-engine/src/engine.rs:718-731 | A node claims an artifact exactly when the log holds its production, so the lookup after a successful claim cannot miss. |
| `CheckedEdges.EdgesAreIndependent` | crates/freshdag-engine/src/engine.rs:194-215 | Although evaluated over one changing ledger, each edge gets the outcome it would get alone. |
| `CheckedEdges.ConflictsReachTheirEdges` | crates/freshdag-engine/src/engine.rs:217-287 | Conflicts apply exactly when each names an edge; precisely the conflicted edges become undecided. |
| `CheckedEdges.EmissionIsBounded` | crates/freshdag-engine/src/engine.rs:946-1015 | At most two events per dependency and one per conflict; identifiers distinct exactly up to 4096 events, and then increasing. |
| `RecordedEdges.NodesAreWellRecorded` | crates/freshdag-store/src/graph.rs:953-1129 | Every replayed dependency is keyed by its own identity, consistent, canonical and unique in its node, and every conflict names one. |
| `Edges.EvaluateEdge` | crates/freshdag-engine/src/engine.rs:398-672 | The decision procedure equals `Evaluated` in outcome, events, sequence number and ledger. |
| `Edges.Dispatch` | crates/freshdag-engine/src/engine.rs:537-671 | Dispatch, ledger bookkeeping, transition diagnostics and verdict equal `Dispatched`. |
| `Edges.GateWindow` | crates/freshdag-engine/src/engine.rs:435-480 | The lifetime gate is open exactly from one minute before the observation to the declared expiry, when that is representable and within the maximum. |
| `Edges.GateLifetime` | crates/freshdag-engine/src/engine.rs:435-480 | One declaration keeps the gate open for at most the maximum lifetime plus one minute. |
| `EdgeTheorems.VerdictMeaning` | crates/freshdag-engine/src/engine.rs:398-672 | An edge drifts exactly when the one probe that must answer saw a change, and matches exactly when confirmed without demotion or, if volatile, inside its lifetime with no change seen; a reason is carried exactly when it is not a strong match. |
| `EdgeTheorems.MatchedMeaning` | crates/freshdag-engine/src/engine.rs:398-672 | What a match records: a volatile edge what it was recorded as, any other what the confirming probe saw. |
| `Explanations.ReasonIsObserved` | crates/freshdag-engine/src/engine.rs:398-672 | For each reason code, an edge carries it exactly when that was observed: expired, unanswered, unprobed, undecided, drifted, demoted, or capped by its recorded class. |
| `Explanations.FinalReasonIs` | crates/freshdag-engine/src/engine.rs:217-287 | A recorded conflict replaces whatever else was observed. |
| `EdgeTheorems.VolatileIndifference` | crates/freshdag-engine/src/engine.rs:1054-1161 | Inside a validated lifetime only drift changes a volatile verdict; outside it no probe runs, nothing is emitted and the ledger stays. |
| `EdgeTheorems.EvaluationIsLocal` | crates/freshdag-engine/src/engine.rs:482-611 | Evaluating an edge leaves what the ledger holds about every other key. |
| `EdgeTheorems.OutcomeReadsOneKey` | crates/freshdag-engine/src/engine.rs:398-672 | An outcome depends on the ledger only through its own key, and not on the sequence number. |
| `EdgeTheorems.EdgeEvents` | crates/freshdag-engine/src/engine.rs:482-611 | At most two events per edge, and a probe result is logged exactly when a probe was consulted. |
| `Emissions.EdgeEmissions` | crates/freshdag-engine/src/engine.rs:398-672 | Every event an edge emits, member by member and in order: a vanished probe, a tie, or the answer and then what the ledger made of it. |
| `Emissions.ReportSays` | crates/freshdag-engine/src/engine.rs:808-904 | The probe report of each answer, member by member. |
| `Emissions.ConflictsAreAnnounced` | crates/freshdag-engine/src/engine.rs:217-287 | One diagnostic per conflict, in order, with the first and the conflicting fingerprint in their places. |
| `LogOrder.OrderIsIrrelevantExactlyWhen` | crates/freshdag-engine/src/engine.rs:674-798 | A deterministic log gives the same check in every physical order exactly when all productions of the artifact agree and, if the first is well formed, all starts say the same (instant, adapter, recipe, hash) and all ends lie at one instant. |
| `LogOrder.OrderMatters` | crates/freshdag-engine/src/engine.rs:748-798 | A deterministic log of two starts and one production certifies two different recipes in two orders. |
| `LogOrder.UsableInEveryOrder` | crates/freshdag-engine/src/engine.rs:748-798 | A usable status survives every reordering exactly when every start of the computation carries a usable recipe hash. |
| `LogOrder.RecipeMeaning` | crates/freshdag-engine/src/engine.rs:748-798 | The certified recipe is the one some start names, the frontmost if the log begins with a start, and absent without one. |
| `LogOrder.GateReadsMembers` | crates/freshdag-engine/src/seal.rs:178-258 | The coverage gate depends on which events there are, not on their order. |
| `Provenance.DescribeProvenance` | crates/freshdag-engine/src/engine.rs:748-798 | The record is read off the first start and first end, with the earliest and latest event and the first covering adapter in their absence. |
| `Feedback.FeedbackIsQuietExactlyWhenFaithful` | crates/freshdag-engine/src/engine.rs:541-611 | Appending a later check's events leaves every node's edges, conflicts and exclusions as they were exactly when each consulted probe answered a fingerprint that reads back as the recorded one. Whether verdicts survive is `FeedbackVerdicts`. |
| `Feedback.ManyChecksAreQuiet` | crates/freshdag-engine/src/engine.rs:808-903 | Over any number of checks of any computations with any ledgers, nothing has moved on any node exactly when every consulted probe answered faithfully throughout. |
| `Feedback.FaithfulMeaning` | crates/freshdag-core/src/dependency/fingerprint.rs:76-121 | For canonical answers, faithful means reporting the recorded fingerprint; an undecided probe is never faithful. |
| `Feedback.ReportOutcome` | crates/freshdag-store/src/graph.rs:1052-1129 | Replay reads an engine report as the same dependency with the reported fingerprint, or excludes it as unproven when there is none to read. |
| `Feedback.UnfaithfulAnswersTaint` | crates/freshdag-store/src/graph.rs:692-717 | One unfaithful answer, once appended, leaves a conflict or an unproven exclusion on the node. |
| `Feedback.UnfaithfulAnswersStick` | crates/freshdag-engine/src/engine.rs:217-333 | From then on no certificate a check issues for that computation is usable, whatever later events, answers and ledgers follow. |
| `FeedbackVerdicts.UsableSurvivesExactlyWhen` | crates/freshdag-engine/src/engine.rs:541-611 | A usable status survives a fed-back check of its computation exactly when the consulted probes were faithful and, if anything was emitted, the engine is a registered producer; then it is the same status. |
| `FeedbackVerdicts.UsableSurvivesChecksExactlyWhen` | crates/freshdag-cli/src/check.rs:13-27 | The same over any number of checks of any computations with any ledgers. |
| `FeedbackVerdicts.DeterminismSurvivesExactlyWhen` | crates/freshdag-engine/src/engine.rs:1004-1015 | The extended log replays deterministically exactly when the log did, the check does not diverge from itself and no logged event carries one of its identifiers. |
| `FeedbackVerdicts.SmallOutputsDoNotDiverge` | crates/freshdag-engine/src/engine.rs:1004-1015 | A check of at most 4096 events does not diverge from itself. |
| `FeedbackVerdicts.SharedExactlyInOneMillisecond` | crates/freshdag-engine/src/engine.rs:1004-1015 | Two checks that both emitted something share an identifier exactly when they fall into one millisecond. |
| `FeedbackVerdicts.RunsStayDeterministicExactlyWhen` | crates/freshdag-engine/src/engine.rs:1004-1015 | After any number of checks the log replays deterministically exactly when it did before and identifiers collide nowhere. |
| `FeedbackVerdicts.CertifiedExactlyWhen` | crates/freshdag-engine/src/engine.rs:162-192 | A check issues a certificate exactly when the replay is deterministic, one computation produced the artifact and its first production is well formed. |
| `FeedbackVerdicts.CertificateSurvivesChecksExactlyWhen` | crates/freshdag-cli/src/check.rs:13-27 | A usable certificate is issued again after any number of fed-back checks exactly when those of its computation were harmless and no identifiers collided; then with the same status. |
| `FeedbackVerdicts.ProducersAfter` | crates/freshdag-store/src/graph.rs:756-785 | A fed-back check makes the engine a contributing producer of its own computation, if it emitted anything, and changes no other attribution. |
| `FeedbackVerdicts.EvidenceAfter` | crates/freshdag-engine/src/engine.rs:289-347 | Complete evidence stays complete exactly when the check was of another computation, emitted nothing, or the engine is registered. |
| `FeedbackCertificates.RecordSurvivesExactlyWhen` | crates/freshdag-engine/src/engine.rs:748-798 | The provenance of a usable certificate survives fed-back checks exactly when those of its computation emitted nothing or the computation's end is recorded; otherwise the check is taken for the end. |
| `FeedbackCertificates.CoverageAfter` | crates/freshdag-engine/src/engine.rs:185-192 | The coverage list stays as it was exactly when nothing was emitted, or the engine's manifest is unregistered or listed already. |
| `FeedbackCertificates.CertificateRepeatsExactlyWhen` | crates/freshdag-engine/src/engine.rs:162-374 | A usable certificate is issued again to the last member, identifier included, exactly when the checks were harmless, identifiers stayed apart, and those of its computation emitted nothing or its end is recorded and the engine's manifest listed already. |
| `LedgerProjections.LedgerIsProjectedExactlyWhen` | crates/freshdag-engine/src/engine.rs:541-586 | Over any checks the trust ledger is the fold of the emitted reports, under an attribution of keys to probe identities, exactly when the attribution names the probe behind every match and every latest answer; some attribution does exactly when each key has one such probe. |
| `LedgerProjections.SettledRegistryProjects` | docs/adr/0007-anti-thrash-ledger-is-a-log-projection.md:72-85 | With unchanging registrations, and one scheme per key, some attribution makes the ledger a fold of the log. |
| `LedgerProjections.LedgerIsNotAlwaysProjected` | docs/adr/0007-anti-thrash-ledger-is-a-log-projection.md:41-45 | A better probe registered between two checks: no attribution fits, and folded without identities the events raise a class the ledger still holds back. |
| `LedgerProjections.EventsStayInOrder` | crates/freshdag-store/src/order.rs:54-58 | The canonical order of the events of checks made at increasing instants, of at most 4096 events each, is the order of emission. |
| `WorkedExamples.ValidIsCertified` | crates/freshdag-engine/src/engine.rs:162-374 | A start with a recipe, one hashed read and one production by a registered adapter, with one steady file probe: the certificate says valid. |
| `WorkedExamples.ReorderingCostsTheVerdict` | crates/freshdag-engine/src/engine.rs:748-798 | One deterministic log certified as valid, and as of no use once a later start without a recipe is moved to the front. |
| `WorkedExamples.HarmlessCheckKeepsValid` | crates/freshdag-engine/src/engine.rs:748-798 | One faithful check fed back with the engine registered: valid again, but not the same certificate. |
| `WorkedExamples.OneUnknownCostsTheVerdict` | crates/freshdag-store/src/graph.rs:1052-1129 | One retryable unknown fed back: the next certificate is not usable, though the file is what it was. |
| `WorkedExamples.UnregisteredEngineCostsTheVerdict` | crates/freshdag-cli/src/check.rs:13-27 | One faithful check fed back with the engine unregistered: the next certificate is not usable. |
| `WorkedExamples.OneMillisecondStopsChecking` | crates/freshdag-engine/src/engine.rs:1004-1015 | Two faithful checks a nanosecond apart fed back: the next check is refused as a nondeterministic replay. |
| `Seal.SealCertificate` | crates/freshdag-engine/src/seal.rs:293-505 | Sealing equals `Sealed`: aggregate, audit, gate, cap, sort, identify, emit or refuse. |
| `Seal.SealingSucceeds` | crates/freshdag-engine/src/seal.rs:293-505 | A well-assembled input always seals, with the aggregate status capped exactly when there is an artifact reason or no recipe. |
| `Seal.SealedIdentifiesItself` | crates/freshdag-engine/src/seal.rs:494-505 | Deriving the identifier of a sealed certificate gives the identifier it carries. |
| `Seal.AuditAgrees` | crates/freshdag-engine/src/seal.rs:338-372 | The keys the engine gives reasons for are exactly the keys aggregation flags. |
| `Seal.GateAddsNothing` | crates/freshdag-engine/src/seal.rs:178-258 | On a well-assembled input the gate succeeds and reports nothing that is not already a reason. |
| `Seal.SortByRankSorts` | crates/freshdag-engine/src/seal.rs:121-132 | Sorting artifact reasons keeps them all and puts causes before symptoms. |
| `Explanations.SortedIsListed` | crates/freshdag-engine/src/seal.rs:121-132 | Artifact reasons come out as deficit, unregistered producer, no dependencies, no recipe, unproven dependency, in whatever order they were found. |
| `Validity.Aggregate` | crates/freshdag-core/src/dependency/validity.rs:428-503 | The fold equals `Aggregated`, or reports mismatched lengths. |
| `Validity.FoldMeaning` | crates/freshdag-core/src/dependency/validity.rs:428-503 | Drift outranks doubt, doubt outranks a weak match, and only strong matches throughout leave valid. |
| `Validity.AggregateMeaning` | crates/freshdag-core/src/dependency/validity.rs:428-503 | No edges is unknown; valid carries no reason; otherwise exactly one reason per edge that is not a strong match. |
| `Validity.VerdictReasons` | crates/freshdag-core/src/dependency/validity.rs:428-503 | The reason aggregation gives for each verdict. |
| `Certificates.CheckInvariantsMeaning` | crates/freshdag-core/src/certificate/mod.rs:363-412 | A certificate passes exactly when it names the schema, coverage is non-empty, valid rests on strong classes, usable has a recipe, the rest has reasons and no dependency is a naked volatile. |
| `Certificates.FirstUndeclaredMeaning` | crates/freshdag-core/src/certificate/mod.rs:446-496 | The producer rule is satisfied exactly when every event's producer is declared, and otherwise names one that is not. |
| `Certificates.FirstSubprocessMeaning` | crates/freshdag-core/src/certificate/mod.rs:446-496 | The subprocess rule is triggered exactly when some event invokes a bash or task tool. |
| `TrustLedgers.TrustLedger.Observe` | crates/freshdag-engine/src/antithrash.rs:161-224 | One observation moves the ledger as `Observed` says and returns the transition. |
| `TrustLedgers.TrustLedger.NoteProbe` | crates/freshdag-engine/src/antithrash.rs:143-146 | Records the probe that last answered for a key and nothing else. |
| `TrustLedgers.PairsAreIndependent` | crates/freshdag-engine/src/antithrash.rs:161-224 | Over any interleaving a pair's entry is a function of its own observations. |
| `TrustLedgers.LastProbeIsLatest` | crates/freshdag-engine/src/antithrash.rs:138-146 | The last probe for a key is the one named by the latest call about that key. |
| `TrustLedgers.LedgerFollowsObservations` | crates/freshdag-engine/src/antithrash.rs:161-224 | A class rises exactly when the last two observations agree on a higher one, falls exactly when a lower one is seen, and a stored pending count is always 1. |
| `TrustLedgers.TransitionMeaning` | crates/freshdag-engine/src/antithrash.rs:161-224 | What one observation announces and leaves behind, case by case, the proposal's date included. |
| `TrustLedgers.AdoptionIsDamped` | crates/freshdag-engine/src/antithrash.rs:161-224 | Over n observations 2*escalations + demotions <= n and escalations <= 3 + 3*demotions. |
| `TrustClasses.RankSeparates` | crates/freshdag-core/src/dependency/trust.rs:42-67 | Two classes are equal or strictly ordered, in one direction only. |
| `TrustClasses.WeakerMeaning` | crates/freshdag-core/src/dependency/trust.rs:42-67 | The order of strength class by class, and which classes are strong. |
| `TrustClasses.TrustClassWireRoundTrip` | crates/freshdag-engine/src/engine.rs:1045-1052 | A class is read back from exactly the spelling it is written with. |
| `TrustClasses.TrustClassSpellings` | crates/freshdag-engine/src/engine.rs:1045-1052 | The four literal spellings, written and read. |
| `ProbeRegistries.ProbeRegistry.Register` | crates/freshdag-engine/src/registry.rs:197-212 | Refused, changing nothing, exactly when the identity is taken. |
| `ProbeRegistries.ProbeRegistry.Deregister` | crates/freshdag-engine/src/registry.rs:220-222 | Removes exactly that identity and says whether it was there. |
| `ProbeRegistries.ProbeRegistry.Select` | crates/freshdag-engine/src/registry.rs:254-298 | Selection has the one outcome arbitration allows for the key. |
| `ProbeRegistries.ArbitrationIsAFunction` | crates/freshdag-engine/src/registry.rs:254-298 | The registrations determine the outcome for a key. |
| `ProbeRegistries.SelectsTheSoleTop` | crates/freshdag-engine/src/registry.rs:254-298 | A probe is selected exactly when one matching registration outranks every other, and it is that one. |
| `ProbeRegistries.FailureMeaning` | crates/freshdag-engine/src/registry.rs:254-298 | No probe of the scheme, none that admits the key, or several of the highest priority, which are exactly the ones named. |
| `ProbeRegistries.AddingAProbe` | crates/freshdag-engine/src/registry.rs:254-298 | Adding a registration changes a selected or tied answer exactly when it matches at the winning priority or above. |
| `ProbeRegistries.RegistrationOrderIsIrrelevant` | crates/freshdag-engine/src/registry.rs:197-212 | Runs of accepted registrations of the same probes leave the same registry in any order. |
| `ProbeRegistries.AcceptedExactlyWhenDistinct` | crates/freshdag-engine/src/registry.rs:197-212 | A run of registrations is accepted exactly when identities differ pairwise. |
| `ProbeRegistries.PerformCalls` | crates/freshdag-engine/src/registry.rs:197-222 | Any interleaving of registrations and removals leaves the registry `AfterCalls` says. |
| `ProbeRegistries.LiveRegistrations` | crates/freshdag-engine/src/registry.rs:197-222 | Each identity's place is decided by the calls about that identity alone: the first accepted since its last removal. |
| `ProbeRegistries.OnlyLiveRegistrationsMatter` | crates/freshdag-engine/src/registry.rs:197-298 | Runs of calls that leave the same registrations live leave the same registry and the same answer for every key. |
| `ProbeRegistries.SharedIdentity` | crates/freshdag-engine/src/registry.rs:35-40 | Two given triples share an identity exactly when their priorities are equal and their scheme and host parts spell the same prefix. |
| `ProbeRegistries.IdentitySpellings` | crates/freshdag-engine/src/registry.rs:35-40 | How an identity is spelled. |
| `ProbeRegistries.IdentityCollisions` | crates/freshdag-engine/src/registry.rs:35-40 | Two schemes admit different triples with one identity exactly when one scheme is the other continued by `@`. |
| `ProbeRegistries.WildcardMeansProperSubdomain` | crates/freshdag-engine/src/registry.rs:320-329 | A leading wildcard admits exactly the proper subdomains of its suffix. |
| `ProbeRegistries.HostPatternMeaning` | crates/freshdag-engine/src/registry.rs:315-330 | No pattern admits every key; `*` any host; a leading wildcard proper subdomains; any other pattern the host it names. |
| `ProbeRegistries.HostPrefixStops` | crates/freshdag-engine/src/registry.rs:305-313 | The host is the longest prefix of the authority without a delimiter. |
| `ProbeRegistries.HostMeaning` | crates/freshdag-engine/src/registry.rs:305-313 | The host of a key is what follows its first `://` up to the first delimiter, if that is anything. |
| `Order.LinearizeSorts` | crates/freshdag-store/src/order.rs:54-58 | Linearising loses and invents nothing, and its output is in order. |
| `Order.LinearizedOrder` | crates/freshdag-store/src/order.rs:32-58 | Of two canonical events the earlier instant stands first, at one instant the producer smaller in character order, of one producer at one instant the smaller identifier. |
| `Order.StableSortUnique` | crates/freshdag-store/src/order.rs:54-58 | Order and stability determine the result, so it is the stable sort. |
| `Order.LinearizeStable` | crates/freshdag-store/src/order.rs:54-58 | Events with one key keep their input order. |
| `Order.LinearizeOrderIndependent` | crates/freshdag-store/src/order.rs:32-58 | The result is the same for every permutation exactly when no two different events share a key. |
| `Order.LinearizeAppend` | crates/freshdag-store/src/order.rs:54-58 | Canonically later events are appended to the linearization. |
| `Order.LaterInstantIsLater` | crates/freshdag-store/src/order.rs:32-39 | A later instant is later in the order, before the epoch as after it. |
| `Order.LinearizeChecked` | crates/freshdag-store/src/order.rs:133-155 | Returns the linearization and the findings of identifiers that occur more than once. |
| `Order.FindingsPermutation` | crates/freshdag-store/src/order.rs:123-155 | Findings and the determinism answer are the same for every permutation, divergent or not. |
| `Order.DeterministicMeansNoDivergence` | crates/freshdag-store/src/order.rs:123-125 | A log is deterministic exactly when no identifier is carried by two different events. |
| `ProducerStreams.FromLogOrder` | crates/freshdag-store/src/order.rs:193-220 | Groups by producer, sorts each stream by identifier, and reports every event that went backwards. |
| `ProducerStreams.SortByIdSorts` | crates/freshdag-store/src/order.rs:211-213 | Sorting keeps each producer's events, in identifier order, events of one identifier in their own order, and leaves an ordered stream as it is. |
| `ProducerStreams.SilentExactlyWhenInOrder` | crates/freshdag-store/src/order.rs:193-220 | Nothing is reported exactly when sorting changes no stream. |
| `Graph.BuildNodes` | crates/freshdag-store/src/graph.rs:647-754 | One pass over nested maps computes every computation's node and every defect. |
| `Classifications.ReadsAreJudged` | crates/freshdag-store/src/graph.rs:953-1050 | Each outcome of a read, exactly: malformed if undecodable; own output if written before; impure; unproven without a hash; otherwise a dependency. |
| `Classifications.ReadsAreRecorded` | crates/freshdag-store/src/graph.rs:953-1050 | Each member of the dependency a read stands for. |
| `Classifications.FilesAreKeyed` | crates/freshdag-store/src/graph.rs:953-1050 | The key and scheme of a read or write that is set aside. |
| `Classifications.ReportsAreJudged` | crates/freshdag-store/src/graph.rs:1052-1129 | Each outcome of a probe report, exactly: malformed, without a fingerprint, volatile without a lifetime, or a dependency. |
| `Classifications.ReportsAreRead` | crates/freshdag-store/src/graph.rs:1052-1129 | Each member of the dependency a report stands for, and the key and scheme of one set aside. |
| `Classifications.OthersAreJudged` | crates/freshdag-store/src/graph.rs:1131-1177 | Each outcome of every other event, exactly, and what is recorded of it. |
| `Classifications.MismatchesAreNoted` | crates/freshdag-store/src/graph.rs:1131-1155 | A production is at odds with its envelope exactly when it names another computation. |
| `Classifications.NodeIsUnprovenExactlyWhen` | crates/freshdag-store/src/graph.rs:733-736 | A node holds an unproven exclusion exactly when one of its events leaves a doubt. |
| `Graph.RecordOutcome` | crates/freshdag-store/src/graph.rs:682-744 | Books one classified event on a node and its edge index. |
| `Graph.BuildAttribution` | crates/freshdag-store/src/graph.rs:756-785 | Each computation is attributed the coverage lookup of its own producers and what they admit not to see, per pattern. |
| `Graph.CollectArtifactPaths` | crates/freshdag-store/src/graph.rs:887-907 | Collects every locatable artifact production with its position. |
| `Replays.Replay` | crates/freshdag-store/src/graph.rs:531-555 | The derived graph is the one replay of the log under the registered manifests: nodes, reverse index, attribution, defects, findings. |
| `Replays.ReplayIsDetermined` | crates/freshdag-store/src/graph.rs:531-555 | A log under given manifests has exactly one replay. |
| `Replays.DivergenceIsReported` | crates/freshdag-store/src/graph.rs:543-549 | The divergent-duplicate defects are exactly the divergent findings, once each, ascending; there is none exactly when the replay is deterministic. |
| `Replays.ReplayedNodesAreFiled` | crates/freshdag-store/src/graph.rs:647-754 | Replayed nodes are filed under their own identifier, as building the index asks. |
| `GraphTheorems.ReplayPermutation` | crates/freshdag-store/src/graph.rs:531-555 | Permuted logs replay to the same graph, index and defects included, when deterministic, and to the same findings, answer and count always. |
| `GraphTheorems.FirstObservationWins` | crates/freshdag-store/src/graph.rs:692-717 | Dependencies are the first canonical observation of each identity, unique; conflicts are exactly the later ones that differ. |
| `FirstWins.BookedMeansFirst` | crates/freshdag-store/src/graph.rs:692-717 | The index always points at the retained first observation and its event. |
| `GraphTheorems.ConflictFreeMeansAgreement` | crates/freshdag-store/src/graph.rs:692-717 | No conflicts exactly when all observations of one identity agree. |
| `GraphTheorems.OwnWritesJudgedInOrder` | crates/freshdag-store/src/graph.rs:953-1050 | A decodable read is a read of own output exactly when an earlier canonical write of the computation names that path; otherwise a pure hashed read is a dependency with the right producer. |
| `GraphTheorems.LatestProducerIsLatest` | crates/freshdag-store/src/graph.rs:911-925 | The producer found is the latest strictly earlier artifact of another computation at that path. |
| `GraphTheorems.ExcludedHoldsExclusions` | crates/freshdag-store/src/graph.rs:733-736 | An exclusion is on a node exactly when one of its events was classified so. |
| `GraphTheorems.ArtifactsHoldProductions` | crates/freshdag-store/src/graph.rs:1131-1155 | A computation claims an artifact exactly when one of its events produced it. |
| `GraphTheorems.ObligationsAreSubprocesses` | crates/freshdag-store/src/graph.rs:1157-1177 | A node has an obligation exactly when one of its events is a bash or task invocation. |
| `GraphTheorems.ObservationsAreConserved` | crates/freshdag-store/src/graph.rs:373-401 | Buckets sum to totals and match list lengths; node totals and unattributed events make up the log. |
| `GraphTheorems.OrphansAreReported` | crates/freshdag-store/src/graph.rs:655-668 | Exactly one orphan defect per edge-bearing event without a computation, in order. |
| `GraphTheorems.EdgeBearingKinds` | crates/freshdag-store/src/graph.rs:94-109 | The kinds of event that must belong to a computation. |
| `GraphTheorems.ReplayReportsOrphans` | crates/freshdag-store/src/graph.rs:543-549 | The orphan defects of a replayed graph, wherever they stand among its defects, are those. |
| `GraphTheorems.LaterEventsOnlyExtend` | crates/freshdag-store/src/graph.rs:647-754 | Canonically later events only extend each list of each node. |
| `ReverseIndex.BuildReverseIndex` | crates/freshdag-store/src/graph.rs:787-858 | The index agrees with the forward nodes: entries for exactly the reached identities, with their computations, artifacts and scheme. |
| `ReverseIndex.BlastRadius` | crates/freshdag-store/src/graph.rs:787-872 | A computation or artifact is listed under an identity exactly when the forward graph has the edge or the keyed unproven exclusion. |
| `ReverseIndex.IndexIsDetermined` | crates/freshdag-store/src/graph.rs:787-858 | The forward graph determines the index. |
| `GraphTheorems.IndexReadsTheLog` | crates/freshdag-store/src/graph.rs:787-872 | In a replay a computation is listed under an identity exactly when one of its canonical events was classified as an edge to it, and as unproven exactly when one was excluded there. |
| `Classifications.IndexReadsMembers` | crates/freshdag-store/src/graph.rs:787-872 | The index read off the members of the events: consumers are those that show a state of the identity, unproven those that leave a doubt about it. |
| `Silences.SilenceReadsTheLog` | crates/freshdag-store/src/graph.rs:597-611 | The meaning of a silence is read off log and manifests: uninterpretable, evidence of absence, or suspect with exactly the admissions made under the kind's name. |
| `Silences.AbsenceIsOverstatedExactlyWhen` | crates/freshdag-store/src/graph.rs:349-361 | Absence is claimed though no contributor discharges the kind exactly when the silent kind is covered, all are registered, none admits by name, and every covering contributor is blind under a wildcard; withheld though one discharges it exactly when a producer is unregistered or one admits by name. |
| `Silences.SilenceCanBeOverstated` | crates/freshdag-core/src/ir/coverage.rs:344-375 | An observer with an unsafe `fs.*` admission has its silence about reads taken as evidence of absence, although it does not discharge them. |
| `Coverage.CoverageRegistry.RegisterAt` | crates/freshdag-store/src/coverage.rs:173-201 | Files a manifest under its own producer version, replacing an earlier one. |
| `Coverage.CoverageRegistry.Lookup` | crates/freshdag-store/src/coverage.rs:263-273 | Returns the manifests of the observed producers and the producers without one. |
| `Coverage.LookupAccountsForEveryProducer` | crates/freshdag-store/src/coverage.rs:250-273 | No producer is lost or invented; complete exactly when all are registered. |
| `Coverage.LastRegistrationWins` | crates/freshdag-store/src/coverage.rs:173-201 | Over any run of registrations the latest manifest of each producer version is in force. |
| `Coverage.EffectDeficit` | crates/freshdag-engine/src/coverage.rs:61-72 | The observed effect kinds no producer covers. |
| `Coverage.EffectKindsAreTheEffectFamilies` | crates/freshdag-engine/src/coverage.rs:51-53 | The effect kinds are exactly the fs, proc and net families. |
| `LogReader.ScanReader` | crates/freshdag-store/src/reader.rs:179-226 | The line loop computes the scan, with its line and offset bookkeeping. |
| `LogReader.ReadLog` | crates/freshdag-store/src/reader.rs:132-158 | The strict read is the events, or the first defect. |
| `LogReader.NoByteIsSkipped` | crates/freshdag-store/src/reader.rs:179-226 | On arbitrary bytes every region is exactly one entry of the scan, the event or defect whose position is the number of events or defects before it, with the right line, offset and bytes; there is no other entry. |
| `LogReader.EveryCrashPoint` | crates/freshdag-store/src/reader.rs:179-226 | Scanning any prefix of a written log yields exactly the events wholly inside it and one truncated tail exactly when the cut is inside a record. |
| `LogReader.WrittenRoundTrip` | crates/freshdag-store/src/sink.rs:236-240 | A fully written log scans back to its events and no defect. |
| `LogReader.AppendAfterTornTail` | crates/freshdag-store/src/sink.rs:95-116 | After reopening on a torn tail, the next record's line parses as the glued fragment; exactly that one event is lost if it does not parse. |
| `LogSink.JsonlSink.constructor` | crates/freshdag-store/src/sink.rs:95-116 | Opening starts from the bytes already there, with nothing dropped. |
| `LogSink.JsonlSink.Append` | crates/freshdag-store/src/sink.rs:144-165 | Writes the record, or drops the newest event and announces the first drop. |
| `LogSink.JsonlSink.AppendAll` | crates/freshdag-store/src/sink.rs:173-178 | A run of appends equals the session's state and outcomes. |
| `LogSink.JsonlSink.Finish` | crates/freshdag-store/src/sink.rs:203-210 | Writes one summary exactly when something was dropped. |
| `LogSink.SurvivesExactlyWhenItFits` | crates/freshdag-store/src/sink.rs:212-220 | An event survives exactly when the true file length, its record and the 2048 bytes held back fit the budget. |
| `LogSink.RunIsRecorded` | crates/freshdag-store/src/sink.rs:144-165 | Earlier bytes stay a prefix; then all events to the first drop, one announcement, and the later events that fitted. |
| `LogSink.EveryAttemptIsAccountedFor` | crates/freshdag-store/src/sink.rs:144-165 | Appended plus dropped is the number of attempts, and survivors are a subsequence of them. |
| `LogSink.LengthIsBounded` | crates/freshdag-store/src/sink.rs:212-231 | The file never exceeds the larger of its initial length and the usable budget by more than the announcement. |
| `LogSink.BudgetIsKept` | crates/freshdag-store/src/sink.rs:212-231 | A file that starts 2048 bytes below its budget never exceeds it, if an announcement fits those bytes. |
| `LogSink.AnnouncementNamesTheDrop` | crates/freshdag-store/src/sink.rs:244-265 | What the announcement says of the dropped event. |
| `LogSink.DropsAreNumbered` | crates/freshdag-store/src/sink.rs:144-165 | Each drop is reported with the number of drops so far. |
| `LogSink.SummaryCountsTheDrops` | crates/freshdag-store/src/sink.rs:267-287 | What the closing summary says, the number of lost events included. |
| `LogSink.AlwaysValid` | crates/freshdag-store/src/sink.rs:222-231 | The byte count is the file length up to saturation, and a drop is announced exactly when one happened. |
| `LogSink.UnboundedDropsNothing` | crates/freshdag-store/src/sink.rs:212-220 | Without a budget nothing is dropped. |
| `LogSink.SinkRoundTrip` | crates/freshdag-store/src/sink.rs:144-165 | What a sink wrote onto a clean log is read back exactly, with no defect. |
| `Identifiers.SeededIdGen.NextId` | crates/freshdag-core/src/determinism.rs:248-271 | Mints the identifier of the current counter and advances it by one. |
| `Identifiers.SeededIdGen.ForProducer` | crates/freshdag-core/src/determinism.rs:197-203 | A producer's generator starts at 1 in the space of its derived tag. |
| `Identifiers.ProducerTag` | crates/freshdag-core/src/determinism.rs:212-234 | The hash loop computes the folded tag. |
| `Identifiers.TagsAvoidReserved` | crates/freshdag-core/src/determinism.rs:212-234 | Every derived tag lies in 1..=0xFFFE, whatever the name. |
| `Identifiers.FnvKnownValues` | crates/freshdag-core/src/determinism.rs:212-234 | The published offset basis, prime and hash of `a`. |
| `Identifiers.FoldedBits` | crates/freshdag-core/src/determinism.rs:212-234 | Each folded bit combines the four bits of the hash that lie 16 apart. |
| `Identifiers.TagMeaning` | crates/freshdag-core/src/determinism.rs:212-234 | A tag is one more than the fold, the last two folds sharing tags with the first two. |
| `Identifiers.SeededIdsOrdered` | crates/freshdag-core/src/determinism.rs:248-271 | Identifiers are version-7 shaped, increase bytewise exactly with the counter, and differ across tags. |
| `Identifiers.SeededIdParts` | crates/freshdag-core/src/determinism.rs:248-271 | Epoch, version, variant, tag and counter can each be read back from their bytes. |
| `Identifiers.EngineIdCollisions` | crates/freshdag-engine/src/engine.rs:1004-1015 | Two engine identifiers are equal exactly when millisecond and low 12 sequence bits are. |
| `Identifiers.EngineIdsOrdered` | crates/freshdag-engine/src/engine.rs:1004-1015 | Within a check they are version-7 shaped and increase with the sequence number below 4096. |
| `Identifiers.EngineIdParts` | crates/freshdag-engine/src/engine.rs:1004-1015 | Millisecond and low sequence bits can be read back from their bytes. |
| `Paths.LexicallyNormalize` | crates/freshdag-adapter-claude/src/paths.rs:73-103 | The push-and-pop loop computes the recursive normal form. |
| `Paths.ComponentsMeaning` | crates/freshdag-adapter-claude/src/paths.rs:42-103 | What each segment of a path string contributes: a name, a parent, nothing, or a lone `.`; a leading separator is the root. |
| `Paths.NormalizeDecidesMeaning` | crates/freshdag-adapter-claude/src/paths.rs:73-103 | Two paths lead everywhere to the same place exactly when their normal forms are equal. |
| `Paths.NormalFormShape` | crates/freshdag-adapter-claude/src/paths.rs:73-103 | Rootedness is kept, a rooted result has no `.` or `..`, and `..` occurs only in front. |
| `Paths.NormalizeIdempotent` | crates/freshdag-adapter-claude/src/paths.rs:73-103 | Normalising twice is normalising once. |
| `Paths.NormalizeThenJoin` | crates/freshdag-adapter-claude/src/paths.rs:73-103 | Normalising before joining a relative path loses nothing. |
| `Paths.ResolveAbsolute` | crates/freshdag-adapter-claude/src/paths.rs:42-65 | Resolution fails exactly on an empty path or a relative one without a directory, and is absolute exactly when the path or the directory is. |
| `Paths.ResolveKeepsMeaning` | crates/freshdag-adapter-claude/src/paths.rs:42-65 | The result leads where the tool's path would, and the raw form is kept exactly when it differs. |
| `Fingerprints.DisplayRoundTrip` | crates/freshdag-core/src/dependency/fingerprint.rs:76-121 | Writing and parsing undo each other exactly on canonical fingerprints. |
| `Fingerprints.ParseOfJoin` | crates/freshdag-core/src/dependency/fingerprint.rs:89-121 | What each prefix is read as. |
| `Fingerprints.RefusedExactlyWhen` | crates/freshdag-core/src/dependency/fingerprint.rs:89-121 | Which strings are refused, and why, exactly. |
| `Fingerprints.ParsedIsCanonical` | crates/freshdag-core/src/dependency/fingerprint.rs:89-121 | Everything accepted is canonical and survives being written and parsed again. |
| `Fingerprints.ParseCollisions` | crates/freshdag-core/src/dependency/fingerprint.rs:89-121 | Distinct strings read alike exactly when both prefixes are custom and the remainders agree. |
| `Fingerprints.UnknownNeverParses` | crates/freshdag-core/src/dependency/fingerprint.rs:89-121 | The token `unknown` never parses, whatever its casing. |
| `Dependencies.FromSchemeKeyIdempotent` | crates/freshdag-core/src/dependency/mod.rs:43-51 | Deriving an identity twice is deriving it once. |
| `Dependencies.IdentityMeaning` | crates/freshdag-core/src/dependency/mod.rs:43-51 | A key is its own identity exactly if it begins with its scheme and a colon; otherwise it is put in a URL of that scheme. |
| `Dependencies.FileKeySpellings` | crates/freshdag-core/src/dependency/mod.rs:108-118 | The edge's and the exclusion's spelling of a file key agree exactly when the path does not begin with `file:`. |
| `Https.CheckDetailed` | crates/freshdag-probes/src/https.rs:227-445 | The whole check equals `Checked`: verdict, reason and accumulated trace. |
| `Https.Fetch` | crates/freshdag-probes/src/https.rs:524-619 | The request loop terminates against every server and computes `FetchFrom`, reason and retry hint included. |
| `Https.StreamContentHash` | crates/freshdag-probes/src/https.rs:822-890 | The chunked body loop computes `DecideContentHash` and the bytes it charges. |
| `HttpsTheorems.FetchIsBounded` | crates/freshdag-probes/src/https.rs:524-619 | At most max_redirects + 2 requests, hops equal to chain length minus one, the planned condition on every request, never off TLS, and settling only on a 304 or 2xx actually answered. |
| `HttpsTheorems.MatchMeaning` | crates/freshdag-probes/src/https.rs:402-445 | A match exactly after a 304, or after a 2xx whose validator, immutability or whole-body hash is the recorded one, without conflicting entity tags. |
| `HttpsTheorems.DriftMeaning` | crates/freshdag-probes/src/https.rs:742-890 | Drift exactly on a 2xx without conflicting tags that shows a comparable state different from the record, which is the one reported. |
| `HttpsTheorems.ObservedClassMeaning` | crates/freshdag-probes/src/https.rs:623-690 | The class a response observes, read off its headers. |
| `HttpsTheorems.ReportedClassMeaning` | crates/freshdag-probes/src/https.rs:701-890 | The class a decided check reports. |
| `HttpsTheorems.RequestMeaning` | crates/freshdag-probes/src/https.rs:455-522 | When a request is made at all, and the condition it carries. |
| `HttpsTheorems.TurnMeaning` | crates/freshdag-probes/src/https.rs:524-619 | What one response leads to: settling, asking again, or giving up. |
| `HttpsTheorems.NextRoundMeaning` | crates/freshdag-probes/src/https.rs:524-619 | How the next round differs after a redirect and after a refused HEAD. |
| `HttpsTheorems.LastAnswerDecides` | crates/freshdag-probes/src/https.rs:524-619 | Fetching comes to what the last answer says, and gives up retryably exactly on a retryable transport error, a 429 or a 5xx. |
| `HttpsTheorems.RetryableExactlyWhen` | crates/freshdag-probes/src/https.rs:227-445 | When an undecided check is worth another try, over every way it can end undecided. |
| `HttpsTheorems.DiagnosticsMeaning` | crates/freshdag-probes/src/https.rs:402-817 | Each diagnostic of a check that settled, exactly when the response and the record give cause for it. |
| `HttpsTheorems.RateLimitIsNoted` | crates/freshdag-probes/src/https.rs:524-619 | The retry hint is that of a 429 that ended the fetch, and is noted exactly then. |
| `HttpsTheorems.FirstRequestMeaning` | crates/freshdag-probes/src/https.rs:524-560 | The first request goes to the key itself, as a HEAD exactly if preferred and no body is needed. |
| `HttpsTheorems.ChargeMeaning` | crates/freshdag-probes/src/https.rs:822-890 | What a body is charged: all of it within the cap, what was read when it exceeded the cap, nothing after a failed read. |
| `HttpsTheorems.AmbiguousMeaning` | crates/freshdag-probes/src/https.rs:623-650 | Entity tags conflict exactly when some field differs from the first. |
| `HttpsTheorems.ReasonsAreCut` | crates/freshdag-probes/src/https.rs:250-275 | A reason keeps its first 512 characters. |
| `HttpsTheorems.ChunkingIsIrrelevant` | crates/freshdag-probes/src/https.rs:822-890 | However the body is cut into reads, the decision is that of hashing the delivered bytes at once; over the cap first, then a failed read. |
| `HttpsTheorems.OtherAlgorithmsNeverMatch` | crates/freshdag-probes/src/https.rs:822-890 | A recorded SHA-256 hash is never confirmed by a body. |
| `HttpsTheorems.MatchedFingerprint` | crates/freshdag-probes/src/https.rs:701-817 | A match reports the recorded fingerprint except when a 2xx confirmed an entity tag recorded in another spelling. |
| `HttpsTheorems.MatchesFeedBack` | crates/freshdag-probes/src/https.rs:701-817 | Such a renamed tag is exactly the match that replay takes for a change. |
| `HttpsTheorems.DemotionIsAnnouncedUnless` | crates/freshdag-probes/src/https.rs:419-432 | A decided answer is silently weaker than the record exactly when caching is forbidden on a response without a validator. |
| `HttpsExamples.DemotionCanBeSilent` | crates/freshdag-probes/src/https.rs:419-432 | A 304 that forbids storing and has no validator: a versioned record is matched as volatile, without a diagnostic. |
| `HttpsExamples.MatchCanBeUnfaithful` | crates/freshdag-probes/src/https.rs:701-817 | A tag recorded as `w/"a"` and confirmed by a 2xx is reported as `W/"a"`, a match that replay takes for a change. |
| `ETags.WireIsNormal` | crates/freshdag-probes/src/https/etag.rs:97-137 | The wire form of a parsed tag parses back to the same tag. |
| `ETags.AcceptedExactlyWhen` | crates/freshdag-probes/src/https/etag.rs:76-137 | Every entity tag is accepted, marked as it says, and nothing else, except the strong tag that is one slash. |
| `ETags.OneSlashIsRefused` | crates/freshdag-probes/src/https/etag.rs:107-114 | That tag is a bad weakness prefix to the parser. |
| `ETags.TrimMeaning` | crates/freshdag-probes/src/https/etag.rs:98-98 | White space is taken off both ends and nowhere else. |
| `ETags.WhitespaceMeaning` | crates/freshdag-probes/src/https/etag.rs:98-98 | Which characters are white space. |
| `ETags.TagCharMeaning` | crates/freshdag-probes/src/https/etag.rs:125-133 | Which characters an opaque tag may hold. |
| `ETags.WeakExactlyWhenMarked` | crates/freshdag-probes/src/https/etag.rs:97-137 | A tag is weak exactly when it carries a weakness prefix. |

## Left out

- File, network and process I/O, fsync, locks and a poisoned ledger mutex: no logic to prove. A write that fails half-way appears as a crash point.
- Serialisation failures of an event: encoding is total here.
- JSON decoding of payloads: its outcome is part of the event.
- Seal.SealCertificate: the bytes a certificate is hashed from, and a failure to serialize it, are inside the given hash function; reason details and the configuration of a comparator, which is never set, are not kept.
- Reason details of a certificate and their truncation: prose.
- HttpsTheorems.ReasonsAreCut: counts characters where the original counts bytes; every reason the probe gives is plain ASCII up to the texts of its transport.
- The order of the coverage list and of sets that are vectors in the code: modelled as sets.
- Coverage.CoverageRegistry.RegisterAt: leaves out the registration record appended to the backing file, with its timestamp, and reading that file back.
- Replays.Replay: asks that every manifest is filed under the key it declares, which every registration keeps.
- Engine.Engine.constructor: asks the same of the coverage registry.
- Graph.BuildAttribution: asks the same; admissions are sets where the code sorts and deduplicates lists.
- Identifiers.SeededIdGen.NextId: requires a counter below its last value, because drawing past it aborts in the original.
- LogSink.JsonlSink.Append: counts drops without the 64-bit limit of the original's counter.
- LogReader.EveryCrashPoint: asks that decoding undo encoding and that a record hold no newline, which is what JSON serialisation provides and is not modelled.
- Https.CheckDetailed: header-name lookup, `Cache-Control` splitting, date syntax, URL parsing and joining enter as given values or functions.
- Https.Fetch: transports other than an arbitrary answer per request are not part of this model.
- Windows path prefixes: paths are Unix component sequences.
- `FixedClock` and the accessors of the graph: short lookups that would only add easy members.
- Coverage by session and by arbitrary event selection: the same lookup on another producer set.
- `TrustLedger::replay` and the `probe_identity` field ADR 0007 decides on: not in the code; the fold is stated here as the ADR describes it.
- Materialising and reloading the derived files, the command line, the adapter's hook compiler, its own sink, and the observer back ends: serialisation, presentation and table lookups.
