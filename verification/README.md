# Verified models of the messaging platform's stateful cores

A Dafny project that models the branching, stateful parts of the portfolio service and of its operations agent, and
proves what they keep over every input, every interleaving and every run. `dafny verify dfyconfig.toml` checks it.

| module | models |
|---|---|
| `JsonStructure` | the two explicit-stack walks over Python object graphs, which may share containers or be cyclic |
| `ConnectionPool` | pool replacement, checkout, return and `close_pool` as interleaved atomic steps, and the manager that takes them |
| `StabilityWindow` | the online `RecoveryWindow` against its whole history |
| `ObservationHistory` | the bounded follow-up history, its validator, and chains of follow-ups |
| `Recovery` | the recovery evaluator: the fold over captures, classification, and the recovered scan |
| `RecoveryMeaning` | its answers read off the captures alone |
| `FollowupReplay` | the incremental replay, against one evaluation of all captures |
| `FollowupMeaning` | which documents it stores and accepts, and how sessions without trouble proceed |
| `IncidentLifecycle` | the incident record's transitions, against the record validator |
| `IncidentAttachments` | which attachments a record accepts and what they make of it |
| `DiagnosisV3` | the v3 decision contract, its validator, and the deterministic checklist |
| `DiagnosisMeaning` | the contract's evidence rules, item by item |
| `DecisionRepair` | reading model answers, citation selection, and the scope of a repair |
| `DecisionWire` | dumping decisions and reading them back, and the repair checks on dumped ones |
| `Investigation` | the bounded investigation loop against a language model that may answer anything |
| `InvestigationEscapes`, `InvestigationTurns` | when a turn, and when a run, of that loop raises, goes on, passes or fails |
| `KafkaLag`, `KafkaMeaning`, `KafkaIssues` | single-bundle evaluation of the three Kafka series families, when it finds nothing wrong, and what it finds wrong |
| `Measurement`, `Calibration` | the two independent readings of the same series |
| `Activation`, `ActivationMeaning` | the production activation rule and the calibration candidate, and when a sequence is PRESENT |
| `BundleCaptures` | how a bundle becomes a capture of the recovery evaluator |
| `SteadyDrain`, `FollowupRuns`, `InvestigationRuns`, `SteadyGrowth` | concrete runs that recover, escape, pass, raise and activate, so that the theorems about such runs speak of something |

How the models are set up:

* A loop, or a method that updates fields, is a Dafny method or class proved equal to a specification function; the
  theorems are lemmas about that function.
* Objects with identity are containers in a heap of numbered containers (`JsonStructure`) or pool numbers
  (`ConnectionPool`). Each block under `_pool_lock` is one step; the gauge updates after it are steps of their own.
* Timestamps are integers (microseconds where a constant needs a unit). SHA-256 digests are taken to be injective: a
  digest is the value it is computed from, or an identifier compared for equality.
* Rates in `Recovery` are record deltas over the fixed 60 s window; the Kafka modules use exact reals, so
  `|rate gap - slope| <= 0.001` and the thresholds are taken without rounding. Offsets are integral there, so the floors
  (7000 records, 100 records/s) do not depend on how the quotient is rounded.
* A clock, a parser's verdict on an input, a model's answer or a tool's projection that may raise is a parameter.
* String labels are compared as strings. Partition loops run in the order of the sorted labels, which is a parameter.

Three findings.

* `run_scenario_v3` is documented to return every attempt but transport errors (ops_agent/scenario_agent_v3.py:101-104),
  and `run_runtime_v3` has the same loop. It does not. A turn also raises when the identifiers offered for citation are
  illegal; when the name of a single call cannot be looked up in a set (a list or object); when the arguments of an
  answered call are no text or nested too deeply; when the tool itself breaks; when some output item's type is a list or
  object, or the call has no identifier, once the tool has answered; when an early answer is no text; when any answer is
  nested too deeply; and when a first answer is a rejected object whose `observations` cannot be iterated over.
  `TurnRaisesExactlyWhen` and `RunRaisesExactlyWhen` say that a run raises exactly when it reaches a request whose
  response does one of these. `InvestigationRuns.RunCanRaise` and `InvestigationRuns.FirstResponseCanRaise` give runs
  that end so, and `RunReturns` conditions on the responses under which none does.
* `FollowupReplay.append` promises that invalid input poisons the session (ops_agent/followup_replay.py:50), but its
  handler catches four kinds of error only (lines 92-96). An infinite last offset raises `OverflowError` while the heads
  are read (lines 17-20, 64): nothing is stored, and the projection of the capture before it stays available
  (`FollowupRuns.InfiniteOffsetIsIgnored`). Lags whose sum is out of range raise `decimal.Overflow` in the evaluation:
  the document is stored and the session stays open (`FollowupRuns.HugeLagIsStored`), can never accept a document again
  (`StuckForever`), and a registry over it shows the step of an earlier document
  (`ProjectionIsVerifiedExactlyWhen`). A session fails closed exactly when no such error meets it while it is open
  (`FailsClosedExactlyWhen`).
* The boundary of a BLOCKED replay session, recorded as `first_boundary`, is overwritten by later rejected input
  (ops_agent/followup_replay.py:92-96); only that of a CLOSED session is final (`BlockedBoundaryChangesExactlyWhen`,
  `DecidedForever`); `FollowupRuns.BlockedBoundaryCanChange` is a session in which it happens.

## Model

| member | source | states |
|---|---|---|
| `JsonStructure.ValidateJsonStructure` | portfolio/event_envelope.py:46-92 | the stack walk ends on every finite graph, cyclic ones included, reports the same first problem as the recursive walk, and accepts exactly the values all of whose paths end in a clean value; an exit frame always finds its container active |
| `JsonStructure.PushChildren` | portfolio/event_envelope.py:77-92 | the first bad key decides; without one, the value of every entry, or every item, is on the stack in order, one level deeper |
| `JsonStructure.ChildrenAreContained` | portfolio/event_envelope.py:29-43 | what a walk schedules for a container is exactly what the container holds: the items of a list, the value of each entry of a dictionary and, for the NUL search, its keys |
| `JsonStructure.PendingChildren` | portfolio/event_envelope.py:72-92 | scheduling children on top of the stack means walking all of them before the rest, at no greater cost |
| `JsonStructure.ValidMeansAcceptable` | portfolio/event_envelope.py:46-92 | acceptance holds exactly when every path from the root, each value contained in the one before it, ends in a clean value: texts and keys without NUL or surrogate, string keys, finite numbers, at most the allowed number of containers |
| `JsonStructure.AcceptedContainerIsClean` | portfolio/event_envelope.py:76-92 | in an accepted dictionary every key is a clean string and every value is clean; in an accepted list every item is |
| `JsonStructure.FirstProblem` | portfolio/event_envelope.py:50-92 | of several problems: NUL before surrogates in a text, the last item of a list, any key before any value, depth before circularity |
| `JsonStructure.WalkProblemHasWitness` | portfolio/event_envelope.py:53-88 | whichever problem is reported, some path leads to a value that shows it |
| `JsonStructure.CircularReportIsReal` | portfolio/event_envelope.py:72-74 | the circularity error is raised only for a graph that has a cycle, never for a merely shared container |
| `JsonStructure.CycleIsUnacceptable` | portfolio/event_envelope.py:69-74 | a graph with a reachable cycle is never acceptable, whatever the limit |
| `JsonStructure.ContainsNul` | portfolio/event_envelope.py:20-43 | true exactly when a string with NUL can be reached, through keys too; the visited set loses nothing on shared or cyclic graphs |
| `JsonStructure.AllExpanded` | portfolio/event_envelope.py:29-43 | once the stack is empty every value on every path was handled |
| `JsonStructure.AcceptedHasNoNul` | portfolio/event_envelope.py:20-92 | what the validator accepts, the NUL search finds nothing in |
| `ConnectionPool.PoolManager.constructor` | portfolio/db.py:52-62 | starts in the initial state of the step system |
| `ConnectionPool.PoolManager.InstallPool` | portfolio/db.py:65-80 | takes exactly the install step: the new pool is current and open, and another pool that was current is closed by now exactly when none of its connections is out; no pool is closed twice |
| `ConnectionPool.PoolManager.CheckoutConnection` | portfolio/db.py:83-91 | takes the checkout step, or changes nothing when there is no pool or `getconn` raises |
| `ConnectionPool.PoolManager.ReturnConnection` | portfolio/db.py:94-108 | takes the return step whether or not `putconn` raises, and passes its error on |
| `ConnectionPool.PoolManager.CountIn` | portfolio/db.py:90 | the gauge step after a checkout |
| `ConnectionPool.PoolManager.CountOut` | portfolio/db.py:107-108 | the gauge step after a return |
| `ConnectionPool.PoolManager.DetachPools` | portfolio/db.py:126-134 | takes the detach step and yields the pools that remain to be closed |
| `ConnectionPool.PoolManager.CloseDetachedPool` | portfolio/db.py:135-136 | closes one detached pool, which was not closed before |
| `ConnectionPool.StepInv` | portfolio/db.py:65-136 | every step keeps the invariant: each installed pool is in one place, live counters equal connections out, retired pools have some out |
| `ConnectionPool.InstallReplaces` | portfolio/db.py:65-80 | the installed pool is current and not closed; a different old pool is closed by this step exactly when nothing of it is out, and retired otherwise; nothing else changes |
| `ConnectionPool.CheckoutTakesCurrent` | portfolio/db.py:83-91 | a checkout takes the current pool for its session and counts one more connection of it out |
| `ConnectionPool.ReturnClosesLast` | portfolio/db.py:94-106 | a return counts one connection less, and closes its pool exactly when the pool is retired and this was the last one |
| `ConnectionPool.CloseTakesAllPools` | portfolio/db.py:126-136 | `close_pool` leaves neither current nor retired pools, and has each of them closed once, which none was before |
| `ConnectionPool.LastInstallIsCurrent` | portfolio/db.py:65-80 | in every interleaving the current pool is that of the last install, unless `close_pool` came later |
| `ConnectionPool.NoneCurrentWithoutInstall` | portfolio/db.py:126-134 | and there is none before the first install and after a `close_pool` that no install followed |
| `ConnectionPool.SessionKeepsPool` | portfolio/db.py:83-108 | from its checkout to its return a session uses the pool that was last installed before the checkout, however often the pool is replaced |
| `ConnectionPool.PoolSafety` | portfolio/db.py:65-136 | in every interleaving: each pool closed at most once, live counters exact, a pool closed with connections out was taken away by `close_pool`, the gauge counts the sessions it should |
| `ConnectionPool.ClosedOnlyWhenUnused` | portfolio/db.py:76-106 | an install or a return closes a pool only when none of its connections is out |
| `ConnectionPool.WithoutClosePool` | portfolio/db.py:65-108 | without `close_pool`, retired pools are exactly the replaced ones with connections out, and all other replaced ones are closed |
| `ConnectionPool.QuiescentPoolsAreClosed` | portfolio/db.py:65-136 | no leak: a pool that is not current and has nothing out is closed once pending closes are done |
| `ConnectionPool.GaugeBalance` | portfolio/db.py:83-108 | gauge plus sessions between their lock and their gauge update equals checkouts minus returns, in every interleaving |
| `StabilityWindow.RecoveryWindow.constructor` | ops_agent/experiment_validation.py:46-52 | a new window has an empty history |
| `StabilityWindow.RecoveryWindow.InspectPod` | ops_agent/experiment_validation.py:61-66 | a pod is healthy when it has an identifier and containers that are all ready with integer restart counts; its container identities are collected either way |
| `StabilityWindow.RecoveryWindow.InspectPrimary` | ops_agent/experiment_validation.py:68-70 | the first pod with the primary's name decides |
| `StabilityWindow.RecoveryWindow.Inspect` | ops_agent/experiment_validation.py:58-71 | healthy means exact coverage of the expected names, healthy pods, the original primary, and a ready service |
| `StabilityWindow.IdentityMeans` | ops_agent/experiment_validation.py:60-67 | the identity of a sample lists exactly the containers with their pod name, uid, container name and restart count |
| `StabilityWindow.ChangeIsNoticed` | ops_agent/experiment_validation.py:60-77 | so a restart or a new uid, or a container that is gone, changes it |
| `StabilityWindow.RecoveryWindow.Advance` | ops_agent/experiment_validation.py:72-81 | appends the sample to the history and keeps `started` right for it; complete exactly when some stable suffix spans the required time |
| `StabilityWindow.RecoveryWindow.Observe` | ops_agent/experiment_validation.py:54-81 | one observation against the whole history |
| `StabilityWindow.RepeatedName` | ops_agent/experiment_validation.py:58-59 | comparing the count and the set of names rules out repeated names |
| `StabilityWindow.FirstPrimaryDecides` | ops_agent/experiment_validation.py:59-70 | under full coverage, looking at the first pod of the primary's name is looking at all of them |
| `StabilityWindow.StartsStep` | ops_agent/experiment_validation.py:72-79 | restarting, keeping or clearing `started` keeps it the time of the least sample from which everything is healthy, identical and without a gap |
| `StabilityWindow.StartsSpans` | ops_agent/experiment_validation.py:78-81 | the elapsed time since `started` reaches the required time exactly when some stable suffix spans it |
| `StabilityWindow.StableSpan` | ops_agent/experiment_validation.py:72-77 | a stable stretch spans at most the largest gap times its steps |
| `StabilityWindow.CompleteNeedsSamples` | ops_agent/experiment_validation.py:46-81 | completion forces enough samples: at least ten with the default 180 s and 21 s |
| `ObservationHistory.ExtendHistory` | ops_agent/observation_history.py:19-32 | the previous entries plus one for the previous record, cut to the last eight, counting each drop |
| `ObservationHistory.ValidateHistory` | ops_agent/observation_history.py:35-71 | accepts exactly the histories that meet the envelope, entry, order and tail conditions |
| `ObservationHistory.Follow` | ops_agent/grounded_assistant.py:237-251 | a follow-up yields its record exactly when the previous record verifies, its own history included, the identity is the same, time advances, and the new history is valid |
| `ObservationHistory.ChainHistory` | ops_agent/observation_history.py:19-32 | after n follow-ups the history holds exactly the last min(n, 8) predecessors in order and counts the other max(0, n - 8) as dropped |
| `ObservationHistory.ChainEntry` | ops_agent/observation_history.py:22-31 | each entry stems from one follow-up, in the order of the chain |
| `ObservationHistory.ChainIsAccepted` | ops_agent/grounded_assistant.py:239-251 | with fixed identity and advancing time no step of a chain of any length is refused on these checks |
| `Recovery.FoldCaptures` | ops_agent/recovery_evaluator.py:630-738 | the loop over captures computes each observation from the stream state that the earlier ones leave, or stops at the first capture whose reading raises |
| `Recovery.ClassifyOne` | ops_agent/recovery_evaluator.py:745-786 | one capture is classified by the window of at most three captures that ends there: UNKNOWN exactly when one of them has an issue, RECOVERING exactly when there are three, none has an issue and all drain |
| `Recovery.Classify` | ops_agent/recovery_evaluator.py:740-795 | all captures, with the matched windows |
| `Recovery.ScanRecovered` | ops_agent/recovery_evaluator.py:797-816 | the re-entry run of the scan, cut to its last three |
| `Recovery.EvaluateCaptures` | ops_agent/recovery_evaluator.py:630-893 | raw observations, states, windows, final state and completion, or the first error in reading a capture |
| `Recovery.EvaluateRecovery` | ops_agent/recovery_evaluator.py:590-918 | evaluates exactly the acceptable requests (a short incident identifier, 1 to 256 captures, one well-formed digest each) whose captures can all be read, and passes on the first error of the others; every state it reports agrees with the issues and slopes of its capture and the two before it |
| `Recovery.Causality` | ops_agent/recovery_evaluator.py:637-831 | the states of a prefix are the prefix of the states; under v2 only the last of either may differ, by being RECOVERED |
| `Recovery.StatesPrefix` | ops_agent/recovery_evaluator.py:744-795 | classification never looks ahead |
| `Recovery.StableWindowMeans` | ops_agent/recovery_evaluator.py:797-816 | the scan yields a window exactly when the last three captures are in the envelope and RECOVERING came by the first of them |
| `Recovery.RecoveredExactlyWhen` | ops_agent/recovery_evaluator.py:797-831 | the v2 result is RECOVERED exactly then |
| `Recovery.RecoveredGuarantees` | ops_agent/recovery_evaluator.py:668-831 | RECOVERED means at least five captures, never replaces UNKNOWN, reports the last three indexes, and these span 18 to 42 s of Kafka time |
| `SteadyDrain.DrainRecovers` | ops_agent/recovery_evaluator.py:797-831 | a steady drain inside the envelope is RECOVERED exactly from its fifth capture on, so the least length is reached |
| `Recovery.V1NeverRecovers` | ops_agent/recovery_evaluator.py:798 | under v1 no capture is RECOVERED |
| `Recovery.UsableCadence` | ops_agent/recovery_evaluator.py:668-679 | a usable capture follows its predecessor by 9 to 21 s of Kafka time |
| `Recovery.CommittedGuardIsImplied` | ops_agent/recovery_evaluator.py:542-556 | with consistent arithmetic draining is a negative slope, and the committed-rate guard adds nothing |
| `Recovery.IntegrityLossIsPermanent` | ops_agent/recovery_evaluator.py:691-696 | from the first global integrity issue on every capture is unusable and UNKNOWN |
| `Recovery.UnbrokenHistory` | ops_agent/recovery_evaluator.py:655-738 | before it, completion times strictly increase after activation, partitions never grow, and both offsets never decrease between any two captures |
| `RecoveryMeaning.IntactExactlyWhen` | ops_agent/recovery_evaluator.py:637-738 | the sequence keeps its integrity exactly as long as the activation, every capture by itself, and every pair of captures agree: scope, digests, identities, order, partitions and offsets |
| `RecoveryMeaning.IssuesExactlyWhen` | ops_agent/recovery_evaluator.py:637-734 | each of the issues of a capture with its exact cause in the captures and the activation: timestamps and offsets are compared with the captures before it, whatever became of those |
| `RecoveryMeaning.UsableExactlyWhen` | ops_agent/recovery_evaluator.py:637-738 | a capture has no issue exactly when the sequence is intact up to it, its Kafka time is 9 to 21 s after the one before, its evidence is in order, and its rates are there and agree |
| `RecoveryMeaning.StateExactlyWhen` | ops_agent/recovery_evaluator.py:740-795 | before any override a state is UNKNOWN exactly when the capture or one of the two before it is unusable, RECOVERING exactly when all three are there, usable and losing lag, and ACTIVE otherwise; only the last state under v2 is ever overridden |
| `RecoveryMeaning.RecoveredMeans` | ops_agent/recovery_evaluator.py:797-831 | a v2 sequence is RECOVERED exactly when its last three captures are usable with at most 22 records of lag, none gained, and 4499 to 4625 records in their minute, and RECOVERING came by the first of them |
| `RecoveryMeaning.ReportMeans` | ops_agent/recovery_evaluator.py:770-893 | the reported windows are exactly the three-capture windows that end in RECOVERING, in order; the evaluated captures are the last three, or all; the completion follows from policy and state |
| `FollowupReplay.Replay.constructor` | ops_agent/followup_replay.py:44-47 | a session starts as the empty run: waiting, with nothing stored |
| `FollowupReplay.Replay.Append` | ops_agent/followup_replay.py:49-96 | one append takes the session from the run over its documents to the run with this one added; it succeeds, rejects or lets an error escape exactly as its outcome says |
| `FollowupReplay.Replay.Store` | ops_agent/followup_replay.py:52-67 | what keeps a document from being stored, in order, and with what kind of error |
| `FollowupReplay.Replay.Registry` | ops_agent/followup_replay.py:98-118 | after any appends: answers exactly when every document left the session open, one was accepted, and the projection can be built; then with the last stored document and the last step |
| `FollowupReplay.DecidedForever` | ops_agent/followup_replay.py:62-96 | BLOCKED and CLOSED are never left, and a closed session's boundary never changes |
| `FollowupReplay.BlockedBoundaryChangesExactlyWhen` | ops_agent/followup_replay.py:92-96 | a blocked session stays blocked, and its boundary changes exactly when an append is rejected while the boundary is another one |
| `FollowupRuns.BlockedBoundaryCanChange` | ops_agent/followup_replay.py:71-96 | and it does change: an UNKNOWN capture sets the boundary to its index, a rejected document then overwrites it |
| `FollowupReplay.NextWhileOpen` | ops_agent/followup_replay.py:62-96 | what an open session becomes, by the outcome of the append and the evaluation of the whole prefix |
| `FollowupReplay.EligibleExactlyWhen` | ops_agent/followup_replay.py:49-96 | a session is open exactly when every document was usable and, with all stored before it, evaluates at once to an open state, or raised an error that escapes; ELIGIBLE when one was accepted |
| `FollowupReplay.OpenWithoutEscapes` | ops_agent/followup_replay.py:49-96 | without such an error an open session has accepted every document |
| `FollowupReplay.InvalidInputBlocksExactlyWhen` | ops_agent/followup_replay.py:50-96 | an unusable document blocks an open session exactly when its error is caught, and otherwise leaves status, step and boundary as they were |
| `FollowupReplay.FailsClosedExactlyWhen` | ops_agent/followup_replay.py:50-96 | a session fails closed, as documented, exactly when no error escapes while it is open |
| `FollowupRuns.InfiniteOffsetIsIgnored` | ops_agent/followup_replay.py:17-20 | an infinite offset after a good capture changes nothing, and the session stays ELIGIBLE |
| `FollowupRuns.HugeLagIsStored` | ops_agent/followup_replay.py:67-96 | a lag sum out of range is stored and leaves the session ELIGIBLE with the step before it |
| `FollowupReplay.AcceptedWasKept` | ops_agent/followup_replay.py:67-73 | the accepted documents are the first stored ones, and all of them unless one cannot be digested or evaluated |
| `FollowupReplay.StuckForever` | ops_agent/followup_replay.py:68-73 | once such a document is stored no later append succeeds |
| `FollowupReplay.ProjectionIsVerifiedExactlyWhen` | ops_agent/followup_replay.py:107-118 | a registry shows the step of the document it projects exactly when no such document is stored |
| `FollowupReplay.EligibleAgreesWithBatch` | ops_agent/followup_replay.py:71-76 | one evaluation of all accepted captures of an ELIGIBLE session marks each of them ACTIVE or RECOVERING |
| `FollowupReplay.ClosedByRecovery` | ops_agent/followup_replay.py:75-79 | a closed session was open until one document, with which the accepted ones evaluate at once to RECOVERED; its boundary is that document's index |
| `FollowupReplay.HeadsNeverDecrease` | ops_agent/followup_replay.py:63-66 | over the stored documents of an open session the partitions stay those of the activation and no offset ever decreases |
| `FollowupReplay.OpenChainIsGapless` | ops_agent/followup_replay.py:80-90 | following the step digests back from an open session meets every accepted document once, in order |
| `FollowupMeaning.StoredExactlyWhen` | ops_agent/followup_replay.py:52-67 | a document is stored exactly when fewer than 253 are, it can be parsed, and, before a decision, its heads have the same partitions as the last ones and no smaller offset |
| `FollowupMeaning.SucceedsExactlyWhen` | ops_agent/followup_replay.py:52-73 | an append succeeds exactly when its document is stored and all stored ones can be digested and, before a decision, evaluated |
| `FollowupMeaning.NextDecided` | ops_agent/followup_replay.py:62-96 | a decided session still stores documents, without evaluating them; a rejected one changes at most the boundary of a blocked session |
| `FollowupMeaning.FullSessionRejects` | ops_agent/followup_replay.py:52-53 | with 253 documents a session that is not closed is blocked by any further one |
| `FollowupMeaning.NeverMoreThan253` | ops_agent/followup_replay.py:52-53 | no session ever stores more |
| `FollowupMeaning.UntroubledRun` | ops_agent/followup_replay.py:67-91 | a session of documents without trouble stores all of them, and its status, boundary and last step are those of one evaluation of all captures: UNKNOWN blocks it and RECOVERED closes it |
| `FollowupRuns.SteadyDrainCloses` | ops_agent/followup_replay.py:71-79 | a steady drain leaves a session ELIGIBLE with four documents and closes it with the fifth |
| `IncidentLifecycle.CreationIsValid` | ops_agent/incident_lifecycle.py:122-191 | creation succeeds exactly for a PRESENT condition with one source identity and a logical incident, and yields a record the validator accepts |
| `IncidentLifecycle.AttachmentIsValid` | ops_agent/incident_lifecycle.py:194-370 | attaching to a valid record yields a valid record; materializing it fails only at a list limit |
| `IncidentAttachments.DiagnosisAttachesExactlyWhen` | ops_agent/incident_lifecycle.py:194-250 | a new diagnosis is attached exactly to an open record without one, if it fits detection and scope, passed its validator, is no earlier than any event, and there is room for an event; it adds that event and changes nothing else; an attached one is accepted again only as it is |
| `IncidentAttachments.EvaluationAttachesExactlyWhen` | ops_agent/incident_lifecycle.py:253-371 | a new evaluation is attached exactly if it fits incident, activation and scope, is no earlier than any event or evaluation, the record is closed or the evaluation not RECOVERED or under policy v2, and there is room; the new state, outcome, closing time, observation and events are given case by case |
| `IncidentAttachments.RecoveryCloses` | ops_agent/incident_lifecycle.py:341-370 | so any fitting RECOVERED evaluation under policy v2 closes an open incident, at its time |
| `IncidentAttachments.LifeOfAnIncident` | ops_agent/incident_lifecycle.py:122-371 | a concrete incident is created, recovering, diagnosed, closed by recovery, and not reopened by a later ACTIVE evaluation |
| `IncidentLifecycle.InvIsValid` | ops_agent/incident_models.py:233-281 | a record meeting the invariant has no validator problem but an exceeded list limit |
| `IncidentLifecycle.RunIsValid` | ops_agent/incident_lifecycle.py:194-370 | every record reachable by accepted and rejected attachments passes the validator; its state is the fold of its evaluations and that of its last event; it is closed exactly when some evaluation recovered, the first of these under policy v2 and at the closing time |
| `IncidentLifecycle.RunExtends` | ops_agent/incident_lifecycle.py:320-370 | over any run nothing attached is lost, and state, outcome and closing time of a closed record never change |
| `IncidentLifecycle.ReattachmentIsIdempotent` | ops_agent/incident_lifecycle.py:268-275 | attaching the same evaluation again, at any later point of any run, returns the record unchanged |
| `IncidentLifecycle.StateAfterMeans` | ops_agent/incident_lifecycle.py:324-369 | the state is CLOSED once some evaluation is RECOVERED, else that of the last evaluation that is not UNKNOWN, else ACTIVE |
| `DiagnosisV3.ValidateMeansAdmissible` | ops_agent/diagnosis_v3_validator.py:35-85 | the chain of rejections accepts exactly the admissible decisions: known citations, measured observations, sound candidates, agreeing conclusion, kept gaps |
| `DiagnosisV3.CandidatesSound` | ops_agent/diagnosis_v3_validator.py:63-80 | the per-candidate checks pass exactly when every candidate is sound |
| `DiagnosisMeaning.SignalMeans` | ops_agent/diagnosis_v3_validator.py:9-13 | which tool and flag each signal must be measured by |
| `DiagnosisMeaning.CandidateMeans` | ops_agent/diagnosis_v3_validator.py:14-23 | which tool and flag support and contradict each cause, and which causes can only be insufficient |
| `DiagnosisMeaning.AcceptedExactlyWhen` | ops_agent/diagnosis_v3_validator.py:26-85 | the validator accepts exactly the decisions whose identifiers are unique and known, whose observations and causes cite only fresh, successful results of the right tool with the right flag, whose conclusion agrees, and which name a gap when they abstain |
| `DiagnosisV3.MeasuringAtMostOne` | ops_agent/diagnosis_quality_v3.py:12-19 | with one item per tool at most one item measures a rule |
| `DiagnosisV3.FixedObservationsMean` | ops_agent/diagnosis_quality_v3.py:15-16 | the checklist observes exactly the signals that some item measures, each from such items |
| `DiagnosisV3.FixedHypothesesMean` | ops_agent/diagnosis_quality_v3.py:17-19 | and supports exactly the causes that some item supports |
| `DiagnosisV3.AcceptedWithinChecklist` | ops_agent/diagnosis_v3_validator.py:60-80 | every observation of an accepted decision is one of the checklist on the same evidence, citations included; its supported causes are the checklist's with the same support; none is CONFLICTED |
| `DiagnosisV3.ChecklistAcceptedExactlyWhen` | ops_agent/diagnosis_quality_v3.py:10-26 | the checklist's own decision is accepted exactly when identifiers are unique, the two kinds disjoint, and initial ones plus items that support no cause are at most 64 |
| `DecisionRepair.DecisionCitations` | ops_agent/citation_selection_v3.py:20-33 | the strings in citation position of an arbitrary JSON object, ignoring other shapes |
| `DecisionRepair.RemovableObservations` | ops_agent/diagnosis_repair_v3.py:32-55 | the observations a repair may drop, or an exception when they cannot be iterated over |
| `DecisionRepair.RemovableFromMeans` | ops_agent/diagnosis_repair_v3.py:38-55 | listed are exactly the observations that are well formed, the only mention of their signal, and contradicted by every citation, of which there is one at least |
| `DecisionRepair.MentionsMean` | ops_agent/diagnosis_repair_v3.py:45-46 | a signal counts as mentioned once exactly when one item mentions it and no other does |
| `DecisionRepair.ContradictedIsRejected` | ops_agent/diagnosis_repair_v3.py:47-54 | and no decision that keeps such an observation with one of its citations can be accepted |
| `DecisionRepair.DroppedWasContradicted` | ops_agent/diagnosis_repair_v3.py:68-80 | every signal that a repair in scope drops was such an observation |
| `DecisionRepair.RepairKeepsDiagnosis` | ops_agent/diagnosis_repair_v3.py:68-80 | a repair in scope adds no signal and no citation and supports exactly the causes of the first answer |
| `DecisionRepair.RepairKeepsChecklistSignals` | ops_agent/diagnosis_repair_v3.py:68-80 | with one item per tool it drops no signal that the checklist observes |
| `DecisionWire.DumpRoundTrip` | ops_agent/diagnosis_v3_models.py:19-76 | reading back the dump of a decision gives the decision if the model accepts it, and nothing otherwise |
| `DecisionWire.ReadExactlyWhen` | ops_agent/diagnosis_v3_models.py:32-76 | JSON is read as a decision exactly when it spells it: its seven fields in any order, in them the two fields of each observation and the five of each candidate, every name and list as dumped, and the model accepts the decision |
| `DecisionWire.DumpedCitations` | ops_agent/citation_selection_v3.py:20-33 | the loose collection of citations finds exactly those of a dumped decision |
| `DecisionWire.DumpedRemovable` | ops_agent/diagnosis_repair_v3.py:32-55 | what a repair may drop from a dumped decision: the only observation of its signal, if acquired items show the opposite flag at each citation |
| `DecisionWire.RepairScopeExactlyWhen` | ops_agent/diagnosis_repair_v3.py:68-80 | a repair of a dumped decision is in scope exactly when it adds no signal and no citation, keeps every cause with its status, and drops only such observations |
| `DecisionWire.RepeatingIsInScope` | ops_agent/diagnosis_repair_v3.py:68-80 | so repeating the first answer is always in scope |
| `Investigation.Registry.constructor` | ops_agent/runtime_evidence_v3.py:41-65 | no tool is called yet |
| `Investigation.Registry.Execute` | ops_agent/runtime_evidence_v3.py:85-88 | a tool answers once, and a failing projection still uses it up |
| `Investigation.PendingMeans` | ops_agent/investigation_gate_v3.py:15-25 | pending tools are the primary ones, and KEDA on a fresh OK shortfall, that were not called |
| `InvestigationTurns.PendingExactlyWhen` | ops_agent/investigation_gate_v3.py:15-25 | told item by item: the three primary tools, and KEDA exactly when a fresh, successful replica status shows a shortfall, none of them once it was called |
| `Investigation.GateFitsBudget` | ops_agent/investigation_gate_v3.py:15-25 | while the gate is closed pending and acquired tools together never exceed four |
| `Investigation.GateStaysOpen` | ops_agent/investigation_gate_v3.py:19-25 | once nothing is pending nothing becomes pending |
| `Investigation.GateNeverExhausts` | ops_agent/runtime_agent_v3.py:40-46 | in a reachable state the minimum-investigation exit is not taken, and exactly the pending tools are offered |
| `Investigation.RunV3` | ops_agent/runtime_agent_v3.py:22-115 | the loop over its mutable evidence, registry and answer takes exactly the run of turns of the specification |
| `Investigation.TurnIsSound` | ops_agent/runtime_agent_v3.py:38-113 | every turn leads from a reachable state to a reachable state or to a sound exit |
| `InvestigationTurns.JudgeExactlyWhen` | ops_agent/runtime_agent_v3.py:92-98 | an answer is accepted exactly when it can be read as a decision that cites only what was offered, is admissible and, as a repair, in scope |
| `InvestigationTurns.TurnContinuesExactlyWhen` | ops_agent/runtime_agent_v3.py:38-110 | a turn of a run under way goes on exactly when a single call of a tool on offer with no arguments is answered, and then keeps its item, or when a first answer object is refused and can be listed, and then keeps it for the repair; the repair is never denied for want of requests |
| `InvestigationTurns.TurnPassesExactlyWhen` | ops_agent/runtime_agent_v3.py:92-113 | it passes exactly when nothing is pending and the answer is accepted, with that decision |
| `InvestigationTurns.TurnFailsExactlyWhen` | ops_agent/runtime_agent_v3.py:63-104 | and fails exactly on an early answer, on parallel or surplus calls, on an invalid call, or on a refused answer that no repair can follow |
| `InvestigationTurns.RunEndsWithTurn` | ops_agent/runtime_agent_v3.py:38-115 | a run is decided by the first of its six turns that does not go on |
| `Investigation.EveryRunIsSound` | ops_agent/scenario_agent_v3.py:100-206 | against any model: at most six requests, four distinct tools, one repair; the two budget exits never occur; a passing run holds a validated decision that, if repaired, is in scope |
| `Investigation.PassingRunIsCovered` | ops_agent/runtime_agent_v3.py:84-113 | a passing run called all primary tools, and KEDA on a fresh OK shortfall |
| `Investigation.PassingRunCitesOffered` | ops_agent/citation_selection_v3.py:36-75 | a passing decision cites only what its last request offered: supplied identifiers, in a repair only those that the first answer cites |
| `Investigation.PassingRunWithinChecklist` | ops_agent/runtime_agent_v3.py:92-113 | a passing run concludes nothing beyond the deterministic checklist on its evidence |
| `Investigation.RepairedRunKeepsCauses` | ops_agent/runtime_agent_v3.py:92-113 | a repaired passing run supports exactly the causes of the first answer |
| `Investigation.RepairedRunKeepsSignals` | ops_agent/runtime_agent_v3.py:92-113 | and reports every checklist signal that the first answer mentions |
| `InvestigationEscapes.ListingRaisesExactlyWhen` | ops_agent/scenario_agent_v3.py:187-200 | listing removable observations raises exactly for a first, rejected answer object whose observations cannot be iterated over |
| `InvestigationEscapes.TurnRaisesExactlyWhen` | ops_agent/scenario_agent_v3.py:123-204 | in a reachable state a turn raises exactly under the guards of the raising branches, and ends with the transport error exactly when a request can be made and the transport fails |
| `InvestigationEscapes.RunRaisesExactlyWhen` | ops_agent/scenario_agent_v3.py:100-206 | a run raises, transport errors aside, exactly when it reaches a request whose response raises |
| `InvestigationRuns.RunCanRaise` | ops_agent/scenario_agent_v3.py:101-104 | so a run need not return: a concrete one raises at its fourth response |
| `InvestigationRuns.FirstResponseCanRaise` | ops_agent/scenario_agent_v3.py:147-177 | six shapes of the first response each make a run raise at once |
| `InvestigationEscapes.RunReturns` | ops_agent/scenario_agent_v3.py:100-206 | with legal evidence, and well-shaped responses to the requests it reaches, a run returns its attempt or ends with the transport error |
| `InvestigationRuns.RunCanPass` | ops_agent/runtime_agent_v3.py:92-113 | concrete runs over stale evidence (three tools) and over a replica shortfall (four) pass at once or after their repair |
| `InvestigationRuns.FirstAnswerPasses` | ops_agent/runtime_agent_v3.py:92-113 | whenever the required tools answer, an abstention that names a gap passes as the first answer |
| `InvestigationRuns.RepairPasses` | ops_agent/runtime_agent_v3.py:99-113 | and one that names none is refused and passes once its repair names it, also when the first answer follows four tool calls |
| `KafkaLag.ParseSeries` | ops_agent/evaluator.py:524-672 | stops at the first unusable sample with the issues up to there; otherwise the series, with grid, window and monotonicity issues |
| `KafkaLag.ReadFamily` | ops_agent/evaluator.py:675-798 | the first readable series of each partition, and every issue of the dependency on its own |
| `KafkaMeaning.SeriesSoundExactlyWhen` | ops_agent/evaluator.py:524-672 | a series raises no issue exactly when it has thirteen integral, non-negative samples five seconds apart which, for offsets but not for lag, never decrease |
| `KafkaMeaning.FamilySoundExactlyWhen` | ops_agent/evaluator.py:675-798 | a family raises no issue exactly when it is one sound item for each of the eight partitions, all from one source and on one grid |
| `KafkaLag.ComparePairs` | ops_agent/evaluator.py:904-944 | visiting the partitions in order finds a grid or arithmetic issue exactly when some three items of one partition disagree |
| `KafkaLag.EvaluateCore` | ops_agent/evaluator.py:876-1014 | the state and all issues of CORE_BACKLOG_PRESSURE |
| `KafkaLag.PairsByPartition` | ops_agent/evaluator.py:908-944 | agreement of all item triples is agreement at each visited partition |
| `KafkaLag.FamilyClean` | ops_agent/evaluator.py:675-798 | a family without issue has one usable, fresh, evenly spaced, integral, non-negative series for each of the eight partitions |
| `KafkaLag.PartitionAgrees` | ops_agent/evaluator.py:908-944 | without any issue the three series of a partition share one grid, and lag is end minus committed at every sample |
| `KafkaLag.ZeroTotalMeansAllZero` | ops_agent/evaluator.py:980-990 | non-negative lags sum to zero exactly when all of them are zero |
| `KafkaLag.AbsentMeansNoLag` | ops_agent/evaluator.py:972-1014 | CORE is ABSENT exactly when there is no issue and no partition has lag at any sample |
| `KafkaMeaning.BundleSoundExactlyWhen` | ops_agent/evaluator.py:876-1014 | a bundle raises no issue exactly when its three families are sound, share exporter and source time, and lag is end minus committed at every sample |
| `KafkaMeaning.AbsentExactlyWhen` | ops_agent/evaluator.py:972-1014 | so CORE is ABSENT exactly for such a bundle whose lag samples are all zero |
| `KafkaIssues.IssueExactlyWhen` | ops_agent/evaluator.py:524-1014 | each issue of a bundle with its exact cause: an item, a family as a whole, or the comparison of the families |
| `KafkaIssues.ItemRaisesExactlyWhen` | ops_agent/evaluator.py:524-672 | which issues one item raises: the scan records a bad value only up to the first unusable sample, and grid, window and order only for a series without one |
| `KafkaIssues.ChosenItems` | ops_agent/evaluator.py:755-765 | of each partition the first readable item is chosen |
| `KafkaIssues.ReadableValues` | ops_agent/evaluator.py:904-944 | and its times and values in the comparison are those of its samples |
| `KafkaLag.NoBacklogExactlyWhenCoreAbsent` | ops_agent/evaluator.py:1485-1514 | CORE is never PRESENT and its absence forces that of CONCENTRATION, so NO_BACKLOG is PRESENT exactly when CORE is ABSENT and never ABSENT |
| `Measurement.MeasureOver` | ops_agent/sequence_evaluator.py:231-275 | the accumulating loop over partitions: totals, window, rates and the arithmetic flag |
| `Measurement.Measure` | ops_agent/sequence_evaluator.py:212-275 | the measurement of a bundle, with its problems |
| `Measurement.LagIsConserved` | ops_agent/sequence_evaluator.py:253-267 | summed over any partitions of an issue-free bundle, end-offset change minus committed change is lag change |
| `Measurement.CleanBundleIsMeasured` | ops_agent/sequence_evaluator.py:212-275 | such a bundle always has a measurement without problems: the mismatch and window branches are unreachable and the arithmetic flag is true |
| `Calibration.Summarize` | ops_agent/calibration.py:173-248 | the summary's rows, anomalies, window and totals |
| `Calibration.SummaryAgrees` | ops_agent/calibration.py:173-315 | for an issue-free bundle the summary has no anomaly, eight rows and a 60 s window, and the same lag and rates as the measurement |
| `Activation.CaptureAgrees` | ops_agent/sequence_evaluator.py:278-383 | for a usable capture the two implementations see the same lag and agree on whether it qualifies |
| `Activation.CoreSequence` | ops_agent/sequence_evaluator.py:392-498 | the production verdict: problems, matched windows, state |
| `Activation.WindowMatches` | ops_agent/sequence_evaluator.py:424-438 | a slice of three qualifies as a whole exactly when its three captures do and grow |
| `Activation.Candidate` | ops_agent/calibration.py:340-450 | the candidate's windows and result |
| `Activation.RulesFindTheSameWindows` | ops_agent/calibration.py:403-421 | on a sequence without recorded problem both implementations find the same windows |
| `Activation.PresentExactlyWhenCandidateFinds` | ops_agent/sequence_evaluator.py:483-498 | production says PRESENT exactly when there is no problem and the candidate finds a window |
| `Activation.PresentMeansPressure` | ops_agent/sequence_evaluator.py:422-438 | behind PRESENT stand three captures with at least 7000 records of lag, 6000 of them gained and at least 6000 produced in their 60 s, and lag and Kafka time strictly increase between them |
| `ActivationMeaning.ObservedExactlyWhen` | ops_agent/sequence_evaluator.py:278-383 | a capture is usable exactly when its scope fits, its bundle is sound and its endpoint is identified; it qualifies with at least 7000 records of lag and 6000 gained |
| `ActivationMeaning.TroubleFreeExactlyWhen` | ops_agent/sequence_evaluator.py:392-480 | a sequence has no problem exactly when it is at least three such captures, each later than the one before by every clock, all of one endpoint and exporter |
| `ActivationMeaning.SequenceExactlyWhen` | ops_agent/sequence_evaluator.py:392-498 | it is PRESENT exactly when it has no problem and three consecutive captures qualify with increasing lag, reports exactly the starts of those, and is ABSENT exactly when there are none and its last capture shows no lag |
| `ActivationMeaning.TermsMean` | ops_agent/sequence_evaluator.py:244-262 | what is summed is the last lag sample of each partition, and the difference of last and first samples |
| `ActivationMeaning.SumOfEight` | ops_agent/sequence_evaluator.py:244-262 | over the eight partitions |
| `SteadyGrowth.SteadyBundleIsClean` | ops_agent/evaluator.py:876-1014 | bundles without any issue exist: eight partitions that gain records steadily |
| `SteadyGrowth.SteadyGrowthActivates` | ops_agent/sequence_evaluator.py:392-498 | and three such captures are PRESENT, with exactly the one window |
| `BundleCaptures.CleanBundleIsUsable` | ops_agent/recovery_evaluator.py:395-476 | a capture from an issue-free bundle carries no Kafka and no rate issue; its deltas are the sums over the partitions, and its offsets cover the eight partitions, committed at most end |
| `Activation.SequenceNoBacklog` | ops_agent/sequence_evaluator.py:526-556 | in a sequence NO_BACKLOG is ABSENT exactly when CORE is PRESENT, and PRESENT exactly when CORE is ABSENT |

## Left out

- Reason codes of recovery states and all rendered texts: values that decide no state.
- The lifecycle's artifact references, record digests and the identifier derived from the detection digest: digests are injective here, so the checks on them hold by construction.
- Parsing of incident identifiers into a logical incident: whether the sources name one, and which, is an input.
- Parsing of timestamps with time zones, and JSON text: inputs arrive parsed, or marked as rejected.
- Reuse of a pool object's `id` after it was freed: pools are numbered, and a new pool has a new number.
- `reconnect_pool`, `init_pool_with_retry` and `get_conn` as a whole: they are sequences of the modelled steps; PostgreSQL calls, health gauges and retries decide no bookkeeping.
- Float and Decimal rounding of rates: exact numbers, as explained above.
- Item-level selector, scope, coverage and timing checks of the evaluator: they are given as the codes that they raise.
- CleanBundleIsUsable: does not keep the names of the Kafka issues apart; a bundle with some has one code for each kind.
- Append: the policy file, whose reading may fail, is given; a document's parsing, heads, digest, evaluation and projection enter as what becomes of them.
- ParseSeries: does not compute the range-end, source-time, age and collection-interval checks; they enter as codes of the item.
- ReadFamily: does not compute the metric-name, topic, consumer-group and expectation checks; they enter as codes of the item.
- EvaluateRecovery: takes what becomes of reading a capture as given, unreadable partition labels included; it does not give the reason codes of the states, nor the descriptive context of its observations.
- Follow: the previous record's digest, facts, policy, catalogue and model status enter as one verdict; its history is validated.
- RunV3: the interpreter's own limits (memory, and recursion other than in reading an answer or arguments) raise in any code.
- Measure: requires every labelled series to have numeric samples, which its only caller guarantees; the path that reports a malformed series as invalid is not modelled.
- Scope check and endpoint provenance of a capture in a sequence: their outcome is given.
- The share and the dominant partitions of CONCENTRATION, facts, traces and evidence identifiers: descriptive values.
- Worker, KEDA, PostgreSQL and stage-latency context, histogram percentiles and calibration reports: descriptive values.
- DB_DEGRADED and WORKER_REPLICA_UNAVAILABLE: simple conditions that share nothing with the series arithmetic; the tool projections built on them are parameters.
- The forbidden-claim expression of the v3 validator: an arbitrary predicate on the gaps.
- Prompts, message history, schema text and token use of the investigation loop: they do not influence its control flow, since the model may answer anything.
- v1 and v2 diagnosis agents and the scorer: the v3 loop holds the harder forms of the same rules.
- The Kafka worker, the state store, HTTP and authentication: not part of this model.
