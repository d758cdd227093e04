/**
 Incident records of ops_agent/incident_lifecycle.py and the record validator of ops_agent/incident_models.py.

 Digests are injective, so an artifact or event stands for its own digest.  Times are integers.
 */
module IncidentLifecycle {
  import opened Prelude
  import R = Recovery

  datatype Lifecycle = Detected | Active | Recovering | Recovered | Closed

  datatype EventKind =
    | DetectedEvent | ActiveEvent | DiagnosisAttached | RecoveryObserved | RecoveringEvent | RecoveredEvent
    | ClosedEvent
    | ObservationUpdated

  /** An event is its own identifier. */
  datatype Event = Event(kind: EventKind, at: int, artifact: string, state: Lifecycle, reasons: seq<string>)

  datatype Detection = Detection(conditionEvaluation: string, digests: seq<string>, sourceIdentity: string,
                                 sourceIncident: Option<string>)

  datatype ActivationArtifact = ActivationArtifact(evaluationId: string, corePresent: bool, identities: set<string>,
                                                   digests: seq<string>, logicalIncident: Option<string>,
                                                   lastCompletedAt: int)

  datatype DiagnosisRun = DiagnosisRun(id: string, conditionEvaluation: string, digests: seq<string>, profile: string,
                                       clusterContext: string, validatorPassed: bool, completedAt: int, content: string)

  datatype RecoveryArtifact = RecoveryArtifact(id: string, incident: string, policy: R.Policy, profile: string,
                                               clusterContext: string, activationId: string,
                                               activationDigests: seq<string>,
                                               state: R.State, reasons: seq<string>, observedAt: int,
                                               digests: seq<string>)

  datatype Observation = Observation(state: R.State, usable: bool, reasons: seq<string>, digest: string, at: int)

  datatype Record = Record(
    detection: Detection, createdAt: int, detectedAt: int, closedAt: Option<int>,
    state: Lifecycle, recoveredOutcome: bool,
    diagnosis: Option<DiagnosisRun>, evaluations: seq<RecoveryArtifact>, current: Option<Observation>,
    timeline: seq<Event>)

  const PROFILE := "local-ha"
  const CLUSTER := "kind-messaging-ha"
  const MAX_EVENTS := 1024
  const MAX_EVALUATIONS := 256
  const MAX_EVENT_REASONS := 32
  const MAX_OBSERVATION_REASONS := 64

  // --------------------------------------------------------------- the record validator

  datatype Problem =
    | ListLimit | QualityMismatch | CreationAfterDetection | NotChronological | DuplicateEvent | BadOpening
    | DuplicateEvaluation | EvaluationsNotChronological | BadClosure | OpenWithOutcome

  predicate WithinCaps(r: Record) {
    && 2 <= |r.timeline| <= MAX_EVENTS
    && |r.evaluations| <= MAX_EVALUATIONS
    && (forall e :: e in r.timeline ==> 1 <= |e.reasons| <= MAX_EVENT_REASONS)
    && (r.current.Some? ==> |r.current.value.reasons| <= MAX_OBSERVATION_REASONS)
  }

  predicate Chronological(timeline: seq<Event>) {
    forall i, j :: 0 <= i < j < |timeline| ==> timeline[i].at <= timeline[j].at
  }

  predicate Distinct<T(==)>(s: seq<T>) { forall i, j :: 0 <= i < j < |s| ==> s[i] != s[j] }

  predicate DistinctEvaluations(evaluations: seq<RecoveryArtifact>) {
    forall i, j :: 0 <= i < j < |evaluations| ==> evaluations[i].id != evaluations[j].id
  }

  predicate EvaluationsChronological(evaluations: seq<RecoveryArtifact>) {
    forall i, j :: 0 <= i < j < |evaluations| ==> evaluations[i].observedAt <= evaluations[j].observedAt
  }

  function Kinds(timeline: seq<Event>, kind: EventKind): seq<Event> {
    if timeline == [] then []
    else
      var last := timeline[|timeline| - 1];
      Kinds(timeline[..|timeline| - 1], kind) + if last.kind == kind then [last] else []
  }

  predicate ProperClosure(r: Record) {
    && r.recoveredOutcome && r.closedAt.Some?
    && Kinds(r.timeline, RecoveredEvent) != []
    && |Kinds(r.timeline, ClosedEvent)| == 1
    && Kinds(r.timeline, ClosedEvent)[0].at == r.closedAt.value
  }

  /** The first complaint of the model validators, field limits included. */
  function RecordProblem(r: Record): Option<Problem> {
    if !WithinCaps(r) then Some(ListLimit)
    else if r.current.Some? && r.current.value.usable != (r.current.value.state != R.Unknown) then Some(QualityMismatch)
    else if r.createdAt > r.detectedAt then Some(CreationAfterDetection)
    else if !Chronological(r.timeline) then Some(NotChronological)
    else if !Distinct(r.timeline) then Some(DuplicateEvent)
    else if r.timeline[0].kind != DetectedEvent || r.timeline[1].kind != ActiveEvent then Some(BadOpening)
    else if !DistinctEvaluations(r.evaluations) then Some(DuplicateEvaluation)
    else if !EvaluationsChronological(r.evaluations) then Some(EvaluationsNotChronological)
    else if r.state == Closed && !ProperClosure(r) then Some(BadClosure)
    else if r.state != Closed && (r.recoveredOutcome || r.closedAt.Some?) then Some(OpenWithOutcome)
    else None
  }

  datatype Rejection =
    | ConditionNotPresent | SourceIdentityIncomplete | SourceIncidentAmbiguous
    | SameIdDifferentDigest | AlreadyDiagnosed | ClosedForDiagnosis | DetectionMismatch | ScopeMismatch
    | ValidatorNotPassed | WouldReorder | OnlyV2Closes
    | Invalid(problem: Problem)

  function Materialize(r: Record): Result<Record, Rejection> {
    var problem := RecordProblem(r);
    if problem.Some? then Err(Invalid(problem.value)) else Ok(r)
  }

  // --------------------------------------------------------------- transitions

  function Created(a: ActivationArtifact, sourceIdentity: string, incident: string): Record {
    var at := a.lastCompletedAt;
    Record(Detection(a.evaluationId, a.digests, sourceIdentity, Some(incident)),
           at, at, None, Active, false, None, [], None,
           [Event(DetectedEvent, at, a.evaluationId, Detected, ["DETERMINISTIC_CONDITION_PRESENT"]),
            Event(ActiveEvent, at, a.evaluationId, Active, ["WORKER_BACKLOG_INCIDENT_ACTIVATED"])])
  }

  /** `sourceIdentity` is the one element of the activation's identities when there is exactly one. */
  function CreateIncident(a: ActivationArtifact, sourceIdentity: string): Result<Record, Rejection>
    requires |a.identities| == 1 ==> sourceIdentity in a.identities
  {
    if !a.corePresent then Err(ConditionNotPresent)
    else if |a.identities| != 1 then Err(SourceIdentityIncomplete)
    else if a.logicalIncident.None? then Err(SourceIncidentAmbiguous)
    else Materialize(Created(a, sourceIdentity, a.logicalIncident.value))
  }

  function LastAt(r: Record): int
    requires r.timeline != []
  {
    r.timeline[|r.timeline| - 1].at
  }

  function WithDiagnosis(r: Record, d: DiagnosisRun): Record {
    r.(diagnosis := Some(d),
       timeline := r.timeline
         + [Event(DiagnosisAttached, d.completedAt, d.id, r.state, ["READ_ONLY_DIAGNOSIS_VALIDATED"])])
  }

  function AttachDiagnosis(r: Record, d: DiagnosisRun): Result<Record, Rejection>
    requires r.timeline != []
  {
    if r.diagnosis.Some? then
      if r.diagnosis.value.id != d.id then Err(AlreadyDiagnosed)
      else if r.diagnosis.value != d then Err(SameIdDifferentDigest)
      else Ok(r)
    else if r.state == Closed then Err(ClosedForDiagnosis)
    else if d.conditionEvaluation != r.detection.conditionEvaluation then Err(DetectionMismatch)
    else if d.profile != PROFILE || d.clusterContext != CLUSTER then Err(ScopeMismatch)
    else if d.digests != r.detection.digests then Err(DetectionMismatch)
    else if !d.validatorPassed then Err(ValidatorNotPassed)
    else if d.completedAt < LastAt(r) then Err(WouldReorder)
    else Materialize(WithDiagnosis(r, d))
  }

  /** The evaluation already attached under this identifier. */
  function Existing(evaluations: seq<RecoveryArtifact>, id: string): (r: Option<RecoveryArtifact>)
    ensures r.Some? <==> exists i :: 0 <= i < |evaluations| && evaluations[i].id == id
    ensures r.Some? ==> r.value in evaluations && r.value.id == id
  {
    if evaluations == [] then None
    else
      var n := |evaluations| - 1;
      if evaluations[n].id == id then Some(evaluations[n]) else Existing(evaluations[..n], id)
  }

  /** Event kind, next state and reasons for an evaluation of a record in state `before`. */
  function Transition(before: Lifecycle, e: RecoveryArtifact): (EventKind, Lifecycle, seq<string>) {
    if before == Closed then (ObservationUpdated, Closed, ["CLOSED_LIFECYCLE_PRESERVED"] + e.reasons)
    else match e.state
      case Active => (RecoveryObserved, Active, e.reasons)
      case Recovering => (RecoveringEvent, Recovering, e.reasons)
      case Unknown => (ObservationUpdated, before, ["OBSERVATION_QUALITY_UNKNOWN"] + e.reasons)
      case Recovered => (RecoveredEvent, Recovered, e.reasons)
  }

  /** The event of an evaluation, followed by the CLOSED event if it closes the incident. */
  function NewEvents(before: Lifecycle, e: RecoveryArtifact): seq<Event> {
    var (kind, next, reasons) := Transition(before, e);
    [Event(kind, e.observedAt, e.id, next, reasons)]
    + if next == Recovered then [Event(ClosedEvent, e.observedAt, e.id, Closed, ["DETERMINISTIC_RECOVERY_V2_COMPLETE"])]
      else []
  }

  function WithEvaluation(r: Record, e: RecoveryArtifact): Record
    requires e.digests != []
  {
    var next := Transition(r.state, e).1;
    var closing := next == Recovered;
    r.(evaluations := r.evaluations + [e],
       current := Some(Observation(e.state, e.state != R.Unknown, e.reasons, e.digests[|e.digests| - 1], e.observedAt)),
       timeline := r.timeline + NewEvents(r.state, e),
       state := if closing then Closed else next,
       recoveredOutcome := r.recoveredOutcome || closing,
       closedAt := if closing then Some(e.observedAt) else r.closedAt)
  }

  function AttachRecovery(r: Record, e: RecoveryArtifact): Result<Record, Rejection>
    requires r.timeline != [] && e.digests != []
  {
    var existing := Existing(r.evaluations, e.id);
    if existing.Some? then
      if existing.value != e then Err(SameIdDifferentDigest) else Ok(r)
    else if r.detection.sourceIncident.None? || e.incident != r.detection.sourceIncident.value then
      Err(DetectionMismatch)
    else if e.profile != PROFILE || e.clusterContext != CLUSTER then Err(ScopeMismatch)
    else if e.activationId != r.detection.conditionEvaluation || e.activationDigests != r.detection.digests then
      Err(DetectionMismatch)
    else if r.evaluations != [] && e.observedAt < r.evaluations[|r.evaluations| - 1].observedAt then Err(WouldReorder)
    else if e.observedAt < LastAt(r) then Err(WouldReorder)
    else if r.state != Closed && e.state == R.Recovered && e.policy != R.V2 then Err(OnlyV2Closes)
    else Materialize(WithEvaluation(r, e))
  }

  // --------------------------------------------------------------- invariant

  /** The lifecycle state that the attached evaluations determine: RECOVERED closes, UNKNOWN changes nothing. */
  function StateAfter(evaluations: seq<RecoveryArtifact>): Lifecycle {
    if evaluations == [] then Active
    else
      var before := StateAfter(evaluations[..|evaluations| - 1]);
      if before == Closed then Closed
      else match evaluations[|evaluations| - 1].state
        case Active => Active
        case Recovering => Recovering
        case Unknown => before
        case Recovered => Closed
  }

  /** Where the events after the first two come from. */
  ghost predicate Origin(evaluations: seq<RecoveryArtifact>, diagnosed: bool, e: Event) {
    && e.kind != DetectedEvent && e.kind != ActiveEvent
    && (if e.kind == DiagnosisAttached then diagnosed
        else exists i :: 0 <= i < |evaluations| && evaluations[i].id == e.artifact)
  }

  ghost predicate TimelineInv(timeline: seq<Event>, evaluations: seq<RecoveryArtifact>, diagnosed: bool) {
    && |timeline| >= 2
    && timeline[0].kind == DetectedEvent && timeline[1].kind == ActiveEvent
    && Chronological(timeline) && Distinct(timeline)
    && (forall k :: 2 <= k < |timeline| ==> Origin(evaluations, diagnosed, timeline[k]))
  }

  /** Closed records, and no others, have a RECOVERED event and one CLOSED event, at the closing time. */
  ghost predicate ClosureInv(r: Record) {
    if r.state == Closed then ProperClosure(r)
    else !r.recoveredOutcome && r.closedAt.None? && Kinds(r.timeline, ClosedEvent) == []
  }

  /** Evaluation k is the first RECOVERED one, by policy v2, and gives the closing time. */
  ghost predicate ClosedBy(evaluations: seq<RecoveryArtifact>, closedAt: Option<int>, k: nat) {
    && k < |evaluations| && evaluations[k].state == R.Recovered && evaluations[k].policy == R.V2
    && closedAt == Some(evaluations[k].observedAt)
    && forall i :: 0 <= i < k ==> evaluations[i].state != R.Recovered
  }

  ghost predicate ClosedBySome(evaluations: seq<RecoveryArtifact>, closedAt: Option<int>) {
    exists k: nat :: ClosedBy(evaluations, closedAt, k)
  }

  ghost predicate Inv(r: Record) {
    && TimelineInv(r.timeline, r.evaluations, r.diagnosis.Some?)
    && r.createdAt <= r.detectedAt
    && DistinctEvaluations(r.evaluations) && EvaluationsChronological(r.evaluations)
    && (r.current.Some? ==> r.current.value.usable == (r.current.value.state != R.Unknown))
    // The state is the fold of the evaluations and the state of the last event.
    && r.state == StateAfter(r.evaluations) == r.timeline[|r.timeline| - 1].state
    && ClosureInv(r)
    && (r.state == Closed ==> ClosedBySome(r.evaluations, r.closedAt))
  }

  lemma {:induction false} KindsConcat(timeline: seq<Event>, more: seq<Event>, kind: EventKind)
    ensures Kinds(timeline + more, kind) == Kinds(timeline, kind) + Kinds(more, kind)
    decreases |more|
  {
    if more == [] {
      assert timeline + more == timeline;
    } else {
      var n := |more| - 1;
      assert (timeline + more)[..|timeline| + n] == timeline + more[..n];
      KindsConcat(timeline, more[..n], kind);
    }
  }

  lemma KindsOfOne(e: Event, kind: EventKind)
    ensures Kinds([e], kind) == if e.kind == kind then [e] else []
  {
    assert [e][..0] == [];
  }

  lemma KindsOfTwo(x: Event, y: Event, kind: EventKind)
    ensures Kinds([x, y], kind) == (if x.kind == kind then [x] else []) + (if y.kind == kind then [y] else [])
  {
    assert [x, y][..1] == [x];
    KindsOfOne(x, kind);
  }

  lemma TimelineAppend(timeline: seq<Event>, evaluations: seq<RecoveryArtifact>, diagnosed: bool,
                       evaluations': seq<RecoveryArtifact>, diagnosed': bool, e: Event)
    requires TimelineInv(timeline, evaluations, diagnosed)
    requires evaluations <= evaluations' && (diagnosed ==> diagnosed') && Origin(evaluations', diagnosed', e)
    requires timeline[|timeline| - 1].at <= e.at && e !in timeline
    ensures TimelineInv(timeline + [e], evaluations', diagnosed')
  {
    var t := timeline + [e];
    assert forall k :: 0 <= k < |timeline| ==> t[k] == timeline[k] && timeline[k] in timeline;
    forall k | 2 <= k < |timeline| ensures Origin(evaluations', diagnosed', t[k]) {
      OriginKept(evaluations, diagnosed, evaluations', diagnosed', timeline[k]);
    }
  }

  lemma OriginKept(evaluations: seq<RecoveryArtifact>, diagnosed: bool,
                   evaluations': seq<RecoveryArtifact>, diagnosed': bool, e: Event)
    requires Origin(evaluations, diagnosed, e) && evaluations <= evaluations' && (diagnosed ==> diagnosed')
    ensures Origin(evaluations', diagnosed', e)
  {
    if e.kind != DiagnosisAttached {
      var i :| 0 <= i < |evaluations| && evaluations[i].id == e.artifact;
      assert evaluations'[i] == evaluations[i];
    }
  }

  /** An event that the record cannot yet explain is not in its timeline. */
  lemma UnexplainedIsNew(timeline: seq<Event>, evaluations: seq<RecoveryArtifact>, diagnosed: bool, e: Event)
    requires TimelineInv(timeline, evaluations, diagnosed) && !Origin(evaluations, diagnosed, e)
    requires e.kind != DetectedEvent && e.kind != ActiveEvent
    ensures e !in timeline
  {
    hide Origin, Chronological, Distinct;
  }

  lemma DiagnosisKeepsInv(r: Record, d: DiagnosisRun)
    requires Inv(r) && r.diagnosis.None? && r.state != Closed && d.completedAt >= LastAt(r)
    ensures Inv(WithDiagnosis(r, d))
  {
    hide TimelineInv, DistinctEvaluations, EvaluationsChronological, StateAfter, ProperClosure, Kinds, ClosedBySome;
    var e := Event(DiagnosisAttached, d.completedAt, d.id, r.state, ["READ_ONLY_DIAGNOSIS_VALIDATED"]);
    UnexplainedIsNew(r.timeline, r.evaluations, false, e);
    TimelineAppend(r.timeline, r.evaluations, false, r.evaluations, true, e);
    KindsConcat(r.timeline, [e], ClosedEvent);
    KindsOfOne(e, ClosedEvent);
  }

  lemma DistinctAppend(evaluations: seq<RecoveryArtifact>, e: RecoveryArtifact)
    requires DistinctEvaluations(evaluations) && Existing(evaluations, e.id).None?
    ensures DistinctEvaluations(evaluations + [e])
  {
    hide Existing;
    forall i | 0 <= i < |evaluations| ensures evaluations[i].id != e.id {}
  }

  lemma ChronologicalAppend(evaluations: seq<RecoveryArtifact>, e: RecoveryArtifact)
    requires EvaluationsChronological(evaluations)
    requires evaluations == [] || evaluations[|evaluations| - 1].observedAt <= e.observedAt
    ensures EvaluationsChronological(evaluations + [e])
  {}

  /** An evaluation that passed the guards of `AttachRecovery`. */
  ghost predicate Attachable(r: Record, e: RecoveryArtifact) {
    && e.digests != [] && r.timeline != []
    && Existing(r.evaluations, e.id).None?
    && (r.evaluations == [] || r.evaluations[|r.evaluations| - 1].observedAt <= e.observedAt)
    && LastAt(r) <= e.observedAt
    && (r.state != Closed && e.state == R.Recovered ==> e.policy == R.V2)
  }

  lemma NewEventsTimeline(timeline: seq<Event>, evaluations: seq<RecoveryArtifact>, diagnosed: bool,
                          before: Lifecycle, e: RecoveryArtifact)
    requires TimelineInv(timeline, evaluations, diagnosed)
    requires Existing(evaluations, e.id).None? && timeline[|timeline| - 1].at <= e.observedAt
    ensures TimelineInv(timeline + NewEvents(before, e), evaluations + [e], diagnosed)
  {
    hide TimelineInv, Existing;
    var events := NewEvents(before, e);
    var first := events[0];
    assert (evaluations + [e])[|evaluations|] == e;
    UnexplainedIsNew(timeline, evaluations, diagnosed, first);
    TimelineAppend(timeline, evaluations, diagnosed, evaluations + [e], diagnosed, first);
    if |events| == 2 {
      UnexplainedIsNew(timeline, evaluations, diagnosed, events[1]);
      TimelineAppend(timeline + [first], evaluations + [e], diagnosed, evaluations + [e], diagnosed, events[1]);
      assert timeline + events == timeline + [first] + [events[1]];
    } else {
      assert timeline + events == timeline + [first];
    }
  }

  lemma NewEventsKinds(before: Lifecycle, e: RecoveryArtifact)
    requires before != Recovered
    ensures var events, closing := NewEvents(before, e), Transition(before, e).1 == Recovered;
            && |events| == (if closing then 2 else 1)
            && Kinds(events, ClosedEvent) == (if closing then [events[1]] else [])
            && Kinds(events, RecoveredEvent) == (if closing then [events[0]] else [])
            && events[|events| - 1].state == (if closing then Closed else Transition(before, e).1)
            && (closing ==> events[1].at == e.observedAt)
  {
    hide Kinds;
    var events := NewEvents(before, e);
    if |events| == 2 {
      assert events == [events[0], events[1]];
      KindsOfTwo(events[0], events[1], ClosedEvent);
      KindsOfTwo(events[0], events[1], RecoveredEvent);
    } else {
      assert events == [events[0]];
      KindsOfOne(events[0], ClosedEvent);
      KindsOfOne(events[0], RecoveredEvent);
    }
  }

  lemma StateAfterAppend(evaluations: seq<RecoveryArtifact>, e: RecoveryArtifact)
    ensures var next := Transition(StateAfter(evaluations), e).1;
            StateAfter(evaluations + [e]) == if next == Recovered then Closed else next
    ensures StateAfter(evaluations) != Recovered
  {
    assert (evaluations + [e])[..|evaluations|] == evaluations;
    StateAfterMeans(evaluations);
  }

  lemma EvaluationClosure(r: Record, e: RecoveryArtifact)
    requires ClosureInv(r) && r.state != Recovered && e.digests != []
    ensures ClosureInv(WithEvaluation(r, e))
  {
    hide Kinds, NewEvents;
    KindsConcat(r.timeline, NewEvents(r.state, e), ClosedEvent);
    KindsConcat(r.timeline, NewEvents(r.state, e), RecoveredEvent);
    NewEventsKinds(r.state, e);
  }

  lemma EvaluationClosedBy(r: Record, e: RecoveryArtifact)
    requires e.digests != [] && r.state == StateAfter(r.evaluations)
    requires r.state != Closed && e.state == R.Recovered ==> e.policy == R.V2
    requires r.state == Closed ==> ClosedBySome(r.evaluations, r.closedAt)
    ensures WithEvaluation(r, e).state == Closed ==>
              ClosedBySome(WithEvaluation(r, e).evaluations, WithEvaluation(r, e).closedAt)
  {
    hide StateAfter, NewEvents;
    var t := WithEvaluation(r, e);
    if r.state == Closed {
      var k: nat :| ClosedBy(r.evaluations, r.closedAt, k);
      assert ClosedBy(t.evaluations, t.closedAt, k);
    } else if t.state == Closed {
      StateAfterMeans(r.evaluations);
      assert forall i :: 0 <= i < |r.evaluations| ==> !Closes(r.evaluations[i]);
      assert ClosedBy(t.evaluations, t.closedAt, |r.evaluations|);
    }
  }

  lemma EvaluationKeepsInv(r: Record, e: RecoveryArtifact)
    requires Inv(r) && Attachable(r, e)
    ensures Inv(WithEvaluation(r, e))
  {
    hide TimelineInv, DistinctEvaluations, EvaluationsChronological, ClosureInv, StateAfter, NewEvents, Existing,
         ClosedBySome;
    EvaluationClosedBy(r, e);
    NewEventsTimeline(r.timeline, r.evaluations, r.diagnosis.Some?, r.state, e);
    StateAfterAppend(r.evaluations, e);
    EvaluationClosure(r, e);
    NewEventsKinds(r.state, e);
    DistinctAppend(r.evaluations, e);
    ChronologicalAppend(r.evaluations, e);
  }

  /** The model validators find nothing in such a record but an exceeded list limit. */
  lemma InvIsValid(r: Record)
    requires Inv(r)
    ensures RecordProblem(r) == if WithinCaps(r) then None else Some(ListLimit)
  {
    hide Chronological, Distinct, DistinctEvaluations, EvaluationsChronological, ProperClosure, StateAfter, WithinCaps,
         Origin;
  }

  // --------------------------------------------------------------- runs

  datatype Action = Diagnose(run: DiagnosisRun) | Evaluate(evaluation: RecoveryArtifact)

  /** Recovery evaluations carry at least one source bundle. */
  predicate WellFormed(action: Action) { action.Evaluate? ==> action.evaluation.digests != [] }

  function Apply(r: Record, action: Action): Result<Record, Rejection>
    requires r.timeline != [] && WellFormed(action)
  {
    match action
    case Diagnose(d) => AttachDiagnosis(r, d)
    case Evaluate(e) => AttachRecovery(r, e)
  }

  lemma CreatedInv(a: ActivationArtifact, sourceIdentity: string, incident: string)
    ensures Inv(Created(a, sourceIdentity, incident)) && WithinCaps(Created(a, sourceIdentity, incident))
  {
    hide Kinds, ClosedBySome;
    var t := Created(a, sourceIdentity, incident);
    KindsOfTwo(t.timeline[0], t.timeline[1], ClosedEvent);
    assert t.timeline == [t.timeline[0], t.timeline[1]];
  }

  /**
   Creation and every accepted attachment satisfy the validator; what it rejects, it rejects for a list limit only.
   */
  lemma CreationIsValid(a: ActivationArtifact, sourceIdentity: string)
    requires |a.identities| == 1 ==> sourceIdentity in a.identities
    ensures var r := CreateIncident(a, sourceIdentity);
            && (r.Ok? <==> a.corePresent && |a.identities| == 1 && a.logicalIncident.Some?)
            && (r.Ok? ==> Inv(r.value) && WithinCaps(r.value) && RecordProblem(r.value) == None)
  {
    hide Inv, RecordProblem, WithinCaps, Created;
    if a.logicalIncident.Some? {
      CreatedInv(a, sourceIdentity, a.logicalIncident.value);
      InvIsValid(Created(a, sourceIdentity, a.logicalIncident.value));
    }
  }

  lemma AttachmentIsValid(r: Record, action: Action)
    requires Inv(r) && WellFormed(action)
    ensures var result := Apply(r, action);
            && (result.Ok? ==> Inv(result.value) && (result.value == r || RecordProblem(result.value) == None))
            && (result.Err? && result.error.Invalid? ==> result.error.problem == ListLimit)
  {
    hide Inv, RecordProblem, WithinCaps, WithEvaluation, WithDiagnosis, Existing, LastAt;
    assert r.timeline != [] by { InvIsValid(r); InvNonEmpty(r); }
    match action {
      case Diagnose(d) =>
        if r.diagnosis.None? && r.state != Closed && d.completedAt >= LastAt(r) {
          DiagnosisKeepsInv(r, d);
          InvIsValid(WithDiagnosis(r, d));
        }
      case Evaluate(e) =>
        if Attachable(r, e) {
          EvaluationKeepsInv(r, e);
          InvIsValid(WithEvaluation(r, e));
        }
    }
  }

  lemma InvNonEmpty(r: Record)
    requires Inv(r)
    ensures r.timeline != []
    ensures r.state == StateAfter(r.evaluations) == r.timeline[|r.timeline| - 1].state
    ensures r.state == Closed ==> ClosedBySome(r.evaluations, r.closedAt)
  {}

  /** The record after a run of attachments; rejected ones leave it unchanged. */
  function Run(r: Record, actions: seq<Action>): Record
    requires Inv(r) && forall a :: a in actions ==> WellFormed(a)
    ensures Inv(Run(r, actions))
    decreases |actions|
  {
    if actions == [] then r
    else
      var action := actions[0];
      AttachmentIsValid(r, action);
      InvNonEmpty(r);
      var result := Apply(r, action);
      Run(if result.Ok? then result.value else r, actions[1..])
  }

  /**
   Every reachable record satisfies the validator; its state is the fold of its evaluations and that of its last event;
   and it is closed exactly when some evaluation recovered, the first of these under policy v2 and at the closing time.
   */
  lemma {:induction false} RunIsValid(r: Record, actions: seq<Action>)
    requires Inv(r) && WithinCaps(r) && forall a :: a in actions ==> WellFormed(a)
    ensures RecordProblem(Run(r, actions)) == None
    ensures var t := Run(r, actions);
            t.timeline != [] && t.state == StateAfter(t.evaluations) == t.timeline[|t.timeline| - 1].state
    ensures var t := Run(r, actions); t.state == Closed <==> ClosedBySome(t.evaluations, t.closedAt)
    decreases |actions|
  {
    hide Inv, RecordProblem, WithinCaps, Apply, StateAfter;
    ClosedMeansClosing(Run(r, actions));
    InvIsValid(r);
    InvNonEmpty(r);
    if actions != [] {
      AttachmentIsValid(r, actions[0]);
      InvNonEmpty(r);
      var result := Apply(r, actions[0]);
      var next := if result.Ok? then result.value else r;
      InvIsValid(next);
      RunIsValid(next, actions[1..]);
    }
  }

  lemma ClosedMeansClosing(r: Record)
    requires Inv(r)
    ensures r.state == Closed <==> ClosedBySome(r.evaluations, r.closedAt)
  {
    hide StateAfter, TimelineInv, ClosureInv, DistinctEvaluations, EvaluationsChronological;
    StateAfterMeans(r.evaluations);
    if ClosedBySome(r.evaluations, r.closedAt) {
      var k: nat :| ClosedBy(r.evaluations, r.closedAt, k);
      assert Closes(r.evaluations[k]);
    }
  }

  /**
   Attachments only extend: evaluations and timeline grow, the detection stays, and a closed record keeps its closure.
   */
  ghost predicate Extends(r: Record, t: Record) {
    && r.evaluations <= t.evaluations && r.timeline <= t.timeline
    && t.detection == r.detection && t.createdAt == r.createdAt && t.detectedAt == r.detectedAt
    && (r.diagnosis.Some? ==> t.diagnosis == r.diagnosis)
    && (r.state == Closed ==> t.state == Closed && t.closedAt == r.closedAt && t.recoveredOutcome == r.recoveredOutcome)
  }

  lemma AttachmentExtends(r: Record, action: Action)
    requires r.timeline != [] && WellFormed(action) && Apply(r, action).Ok?
    ensures Extends(r, Apply(r, action).value)
  {
    hide RecordProblem, Existing;
  }

  /** Closure is final, and nothing attached is ever lost. */
  lemma {:induction false} RunExtends(r: Record, actions: seq<Action>)
    requires Inv(r) && forall a :: a in actions ==> WellFormed(a)
    ensures Extends(r, Run(r, actions))
    decreases |actions|
  {
    hide Inv, Apply;
    if actions != [] {
      AttachmentIsValid(r, actions[0]);
      InvNonEmpty(r);
      var result := Apply(r, actions[0]);
      if result.Ok? { AttachmentExtends(r, actions[0]); }
      RunExtends(if result.Ok? then result.value else r, actions[1..]);
    }
  }

  lemma ExistingUnique(evaluations: seq<RecoveryArtifact>, e: RecoveryArtifact)
    requires DistinctEvaluations(evaluations) && e in evaluations
    ensures Existing(evaluations, e.id) == Some(e)
  {
    hide Existing;
    var i :| 0 <= i < |evaluations| && evaluations[i] == e;
    var found := Existing(evaluations, e.id).value;
    var j :| 0 <= j < |evaluations| && evaluations[j] == found;
  }

  /** Re-attaching an evaluation returns the record unchanged, at any later point of any run. */
  lemma ReattachmentIsIdempotent(r: Record, e: RecoveryArtifact, actions: seq<Action>)
    requires Inv(r) && e.digests != [] && AttachRecovery(r, e).Ok?
    requires forall a :: a in actions ==> WellFormed(a)
    ensures Inv(AttachRecovery(r, e).value)
    ensures var later := Run(AttachRecovery(r, e).value, actions); AttachRecovery(later, e) == Ok(later)
  {
    AttachedIsKept(r, e);
    var attached := AttachRecovery(r, e).value;
    hide RecordProblem, ProperClosure, StateAfter, Existing, TimelineInv, DistinctEvaluations, ClosureInv,
         WithEvaluation;
    RunExtends(attached, actions);
    var later := Run(attached, actions);
    var i :| 0 <= i < |attached.evaluations| && attached.evaluations[i] == e;
    assert later.evaluations[i] == e;
    ExistingUnique(later.evaluations, e);
  }

  lemma AttachedIsKept(r: Record, e: RecoveryArtifact)
    requires Inv(r) && e.digests != [] && AttachRecovery(r, e).Ok?
    ensures Inv(AttachRecovery(r, e).value) && e in AttachRecovery(r, e).value.evaluations
  {
    hide Inv, RecordProblem, Existing;
    InvNonEmpty(r);
    AttachmentIsValid(r, Evaluate(e));
    if Existing(r.evaluations, e.id).None? {
      assert WithEvaluation(r, e).evaluations[|r.evaluations|] == e;
    }
  }

  /** An evaluation that closes; a record accepts such a one before closure only under policy v2. */
  predicate Closes(e: RecoveryArtifact) { e.state == R.Recovered }

  /** Evaluation `k` says RECOVERING and only UNKNOWN ones follow. */
  ghost predicate LastSaysRecovering(evaluations: seq<RecoveryArtifact>, k: nat) {
    && k < |evaluations| && evaluations[k].state == R.Recovering
    && forall i :: k < i < |evaluations| ==> evaluations[i].state == R.Unknown
  }

  ghost predicate SomeCloses(evaluations: seq<RecoveryArtifact>) {
    exists i :: 0 <= i < |evaluations| && Closes(evaluations[i])
  }

  /**
   The state without the fold: closed once a RECOVERED evaluation is attached, else the last one that is not UNKNOWN.
   */
  lemma {:induction false} StateAfterMeans(evaluations: seq<RecoveryArtifact>)
    ensures StateAfter(evaluations) == Closed <==> SomeCloses(evaluations)
    ensures StateAfter(evaluations) == Recovering <==>
              !SomeCloses(evaluations) && exists k: nat :: LastSaysRecovering(evaluations, k)
    ensures StateAfter(evaluations) in {Active, Recovering, Closed}
    decreases |evaluations|
  {
    if evaluations != [] {
      var n := |evaluations| - 1;
      var front, last := evaluations[..n], evaluations[n];
      assert evaluations == front + [last];
      StateAfterMeans(front);
      SomeClosesAppend(front, last);
      LastSaysRecoveringAppend(front, last);
    }
  }

  lemma SomeClosesAppend(front: seq<RecoveryArtifact>, last: RecoveryArtifact)
    ensures SomeCloses(front + [last]) <==> SomeCloses(front) || Closes(last)
  {
    var all := front + [last];
    assert all[|front|] == last && forall i :: 0 <= i < |front| ==> all[i] == front[i];
  }

  lemma LastSaysRecoveringAppend(front: seq<RecoveryArtifact>, last: RecoveryArtifact)
    ensures (exists k: nat :: LastSaysRecovering(front + [last], k)) <==>
              last.state == R.Recovering || (last.state == R.Unknown && exists k: nat :: LastSaysRecovering(front, k))
  {
    var all := front + [last];
    assert all[|front|] == last && forall i :: 0 <= i < |front| ==> all[i] == front[i];
    if last.state == R.Recovering { assert LastSaysRecovering(all, |front|); }
    if last.state == R.Unknown && exists k: nat :: LastSaysRecovering(front, k) {
      var k: nat :| LastSaysRecovering(front, k);
      assert LastSaysRecovering(all, k);
    }
    if exists k: nat :: LastSaysRecovering(all, k) {
      var k: nat :| LastSaysRecovering(all, k);
      if k < |front| { assert LastSaysRecovering(front, k); }
    }
  }
}
