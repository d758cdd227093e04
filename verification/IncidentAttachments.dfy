/**
 Which attachments an incident record accepts, what they make of it, and runs that close it.
 */
module IncidentAttachments {
  import opened Prelude
  import opened IncidentLifecycle
  import R = Recovery

  // --------------------------------------------------------------- diagnoses

  ghost predicate NothingAfter(r: Record, at: int) {
    && (forall event :: event in r.timeline ==> event.at <= at)
    && (forall x :: x in r.evaluations ==> x.observedAt <= at)
  }

  /** The diagnosis is of this incident's detection, in its scope, and valid. */
  ghost predicate DiagnosisFits(r: Record, d: DiagnosisRun) {
    && d.conditionEvaluation == r.detection.conditionEvaluation && d.digests == r.detection.digests
    && d.profile == "local-ha" && d.clusterContext == "kind-messaging-ha"
    && d.validatorPassed
  }

  /** The last event and the last evaluation are the latest ones. */
  lemma LastIsLatest(r: Record, at: int)
    requires Inv(r)
    ensures r.timeline != []
    ensures LastAt(r) <= at <==> forall event :: event in r.timeline ==> event.at <= at
    ensures (r.evaluations == [] || r.evaluations[|r.evaluations| - 1].observedAt <= at)
            <==> forall x :: x in r.evaluations ==> x.observedAt <= at
  {
    hide StateAfter, ClosureInv, DistinctEvaluations, Distinct, ClosedBySome, Origin;
    assert r.timeline[|r.timeline| - 1] in r.timeline;
  }

  /** The diagnosis comes no earlier than any event.  Only a list limit can still stop it. */
  ghost predicate DiagnosisAccepted(r: Record, d: DiagnosisRun) {
    && r.state != Closed && DiagnosisFits(r, d)
    && (forall event :: event in r.timeline ==> event.at <= d.completedAt)
    && |r.timeline| < 1024
  }

  /**
   A record takes one diagnosis, while it is open, and repeats of it; the diagnosis adds an event in the same state and
   changes nothing else.
   */
  lemma DiagnosisAttachesExactlyWhen(r: Record, d: DiagnosisRun)
    requires Inv(r) && WithinCaps(r)
    ensures r.timeline != []
    ensures AttachDiagnosis(r, d).Ok? <==>
              if r.diagnosis.Some? then r.diagnosis.value == d else DiagnosisAccepted(r, d)
    ensures AttachDiagnosis(r, d).Ok? ==>
              AttachDiagnosis(r, d).value ==
                if r.diagnosis.Some? then r
                else r.(diagnosis := Some(d), timeline := r.timeline
                     + [Event(DiagnosisAttached, d.completedAt, d.id, r.state, ["READ_ONLY_DIAGNOSIS_VALIDATED"])])
  {
    hide Inv, RecordProblem, NothingAfter, LastAt;
    LastIsLatest(r, d.completedAt);
    if r.diagnosis.None? && r.state != Closed && LastAt(r) <= d.completedAt {
      DiagnosisKeepsInv(r, d);
      InvIsValid(WithDiagnosis(r, d));
      DiagnosisRoom(r, d);
    }
  }

  lemma DiagnosisRoom(r: Record, d: DiagnosisRun)
    requires WithinCaps(r)
    ensures WithinCaps(WithDiagnosis(r, d)) <==> |r.timeline| < 1024
  {}

  // --------------------------------------------------------------- recovery evaluations

  /** The evaluation is of this incident and of the activation that detected it, in its scope. */
  ghost predicate EvaluationFits(r: Record, e: RecoveryArtifact) {
    && r.detection.sourceIncident == Some(e.incident)
    && e.activationId == r.detection.conditionEvaluation && e.activationDigests == r.detection.digests
    && e.profile == "local-ha" && e.clusterContext == "kind-messaging-ha"
  }

  /** The events that an evaluation adds to a record in state `before`. */
  ghost predicate Adds(before: Lifecycle, e: RecoveryArtifact, events: seq<Event>) {
    if before == Closed then
      events == [Event(ObservationUpdated, e.observedAt, e.id, Closed, ["CLOSED_LIFECYCLE_PRESERVED"] + e.reasons)]
    else match e.state
      case Active => events == [Event(RecoveryObserved, e.observedAt, e.id, Active, e.reasons)]
      case Recovering => events == [Event(RecoveringEvent, e.observedAt, e.id, Recovering, e.reasons)]
      case Unknown =>
        events == [Event(ObservationUpdated, e.observedAt, e.id, before, ["OBSERVATION_QUALITY_UNKNOWN"] + e.reasons)]
      case Recovered =>
        events == [Event(RecoveredEvent, e.observedAt, e.id, Recovered, e.reasons),
                   Event(ClosedEvent, e.observedAt, e.id, Closed, ["DETERMINISTIC_RECOVERY_V2_COMPLETE"])]
  }

  /** The list limits leave room: for the evaluation, for one or two events, and for 32 reasons in an event. */
  ghost predicate Room(r: Record, e: RecoveryArtifact) {
    var noted := r.state == Closed || e.state == R.Unknown;
    && |r.evaluations| < 256
    && |r.timeline| <= (if r.state != Closed && e.state == R.Recovered then 1022 else 1023)
    && (if noted then |e.reasons| <= 31 else 1 <= |e.reasons| <= 32)
  }

  ghost predicate EvaluationAccepted(r: Record, e: RecoveryArtifact) {
    && EvaluationFits(r, e) && NothingAfter(r, e.observedAt)
    && (r.state == Closed || e.state != R.Recovered || e.policy == R.V2)
    && Room(r, e)
  }

  /** What it makes of the record: RECOVERED closes an open one, and nothing changes a closed one's closure. */
  ghost predicate Evaluated(r: Record, e: RecoveryArtifact, t: Record)
    requires e.digests != []
  {
    && t.evaluations == r.evaluations + [e]
    && |r.timeline| <= |t.timeline| && t.timeline[..|r.timeline|] == r.timeline
    && Adds(r.state, e, t.timeline[|r.timeline|..])
    && t.current == Some(Observation(e.state, e.state != R.Unknown, e.reasons, e.digests[|e.digests| - 1],
                                     e.observedAt))
    && (t.detection, t.createdAt, t.detectedAt, t.diagnosis) == (r.detection, r.createdAt, r.detectedAt, r.diagnosis)
    && if r.state == Closed then (t.state, t.recoveredOutcome, t.closedAt) == (Closed, r.recoveredOutcome, r.closedAt)
       else match e.state
         case Active => (t.state, t.recoveredOutcome, t.closedAt) == (Active, false, None)
         case Recovering => (t.state, t.recoveredOutcome, t.closedAt) == (Recovering, false, None)
         case Unknown => (t.state, t.recoveredOutcome, t.closedAt) == (r.state, false, None)
         case Recovered => (t.state, t.recoveredOutcome, t.closedAt) == (Closed, true, Some(e.observedAt))
  }

  lemma EvaluationRoom(r: Record, e: RecoveryArtifact)
    requires WithinCaps(r) && e.digests != [] && r.state != Recovered
    ensures WithinCaps(WithEvaluation(r, e)) <==> Room(r, e)
  {
    var t := WithEvaluation(r, e);
    var events := NewEvents(r.state, e);
    assert forall x :: x in t.timeline <==> x in r.timeline || x in events;
    assert events[0] in events;
  }

  lemma EvaluationResult(r: Record, e: RecoveryArtifact)
    requires Inv(r) && e.digests != []
    ensures r.state != Recovered && Evaluated(r, e, WithEvaluation(r, e))
  {
    hide TimelineInv, DistinctEvaluations, EvaluationsChronological, StateAfter, ProperClosure;
    StateAfterMeans(r.evaluations);
    var t := WithEvaluation(r, e);
    assert t.timeline[..|r.timeline|] == r.timeline && t.timeline[|r.timeline|..] == NewEvents(r.state, e);
  }

  lemma AttachableIsMaterialized(r: Record, e: RecoveryArtifact)
    requires Inv(r) && WithinCaps(r) && Attachable(r, e)
    ensures Materialize(WithEvaluation(r, e)).Ok? <==> Room(r, e)
    ensures Materialize(WithEvaluation(r, e)).Ok? ==> Materialize(WithEvaluation(r, e)).value == WithEvaluation(r, e)
    ensures Materialize(WithEvaluation(r, e)) != Err(OnlyV2Closes)
  {
    hide Inv, WithinCaps, RecordProblem, Attachable, Room, WithEvaluation;
    assert e.digests != [] by { AttachableHasDigests(r, e); }
    EvaluationResult(r, e);
    EvaluationKeepsInv(r, e);
    InvIsValid(WithEvaluation(r, e));
    EvaluationRoom(r, e);
  }

  lemma AttachableHasDigests(r: Record, e: RecoveryArtifact)
    requires Attachable(r, e)
    ensures e.digests != []
  {}

  lemma NewEvaluation(r: Record, e: RecoveryArtifact)
    requires Inv(r) && WithinCaps(r) && e.digests != [] && r.timeline != [] && Existing(r.evaluations, e.id).None?
    ensures AttachRecovery(r, e).Ok? <==> EvaluationAccepted(r, e)
    ensures AttachRecovery(r, e).Ok? ==> Evaluated(r, e, AttachRecovery(r, e).value)
    ensures AttachRecovery(r, e) == Err(OnlyV2Closes) <==>
              && EvaluationFits(r, e) && NothingAfter(r, e.observedAt)
              && r.state != Closed && e.state == R.Recovered && e.policy == R.V1
  {
    LastIsLatest(r, e.observedAt);
    EvaluationResult(r, e);
    hide Inv, Room, Evaluated, LastAt, Existing, Materialize, WithEvaluation, WithinCaps;
    if Attachable(r, e) { AttachableIsMaterialized(r, e); }
  }

  /**
   A new evaluation is accepted exactly when it fits the incident, comes last, would not close it under policy v1, and
   the list limits leave room; an attached one only as it is.
   */
  lemma EvaluationAttachesExactlyWhen(r: Record, e: RecoveryArtifact)
    requires Inv(r) && WithinCaps(r) && e.digests != []
    ensures r.timeline != []
    ensures (exists x :: x in r.evaluations && x.id == e.id) ==>
              AttachRecovery(r, e) == if e in r.evaluations then Ok(r) else Err(SameIdDifferentDigest)
    ensures (forall x :: x in r.evaluations ==> x.id != e.id) ==>
              && (AttachRecovery(r, e).Ok? <==> EvaluationAccepted(r, e))
              && (AttachRecovery(r, e).Ok? ==> Evaluated(r, e, AttachRecovery(r, e).value))
              && (AttachRecovery(r, e) == Err(OnlyV2Closes) <==>
                    && EvaluationFits(r, e) && NothingAfter(r, e.observedAt)
                    && r.state != Closed && e.state == R.Recovered && e.policy == R.V1)
  {
    InvNonEmpty(r);
    hide Inv, WithinCaps, Materialize, EvaluationAccepted, Evaluated, EvaluationFits, NothingAfter, Existing, LastAt;
    if x :| x in r.evaluations && x.id == e.id {
      var i :| 0 <= i < |r.evaluations| && r.evaluations[i] == x;
      OnlyOneExists(r, e);
    } else {
      NewEvaluation(r, e);
    }
  }

  lemma OnlyOneExists(r: Record, e: RecoveryArtifact)
    requires Inv(r) && Existing(r.evaluations, e.id).Some?
    ensures Existing(r.evaluations, e.id) == Some(e) <==> e in r.evaluations
  {
    hide Existing, TimelineInv, StateAfter, ClosureInv;
    if e in r.evaluations { ExistingUnique(r.evaluations, e); }
  }

  // --------------------------------------------------------------- runs that close

  /** Any RECOVERED evaluation under policy v2 that fits and comes last closes an open incident, at its time. */
  lemma RecoveryCloses(r: Record, e: RecoveryArtifact)
    requires Inv(r) && WithinCaps(r) && r.state != Closed && e.digests != []
    requires (forall x :: x in r.evaluations ==> x.id != e.id) && EvaluationAccepted(r, e)
    requires e.state == R.Recovered
    ensures r.timeline != [] && AttachRecovery(r, e).Ok?
    ensures var t := AttachRecovery(r, e).value;
            t.state == Closed && t.recoveredOutcome && t.closedAt == Some(e.observedAt)
  {
    hide Inv, WithinCaps, EvaluationAccepted, AttachRecovery;
    EvaluationAttachesExactlyWhen(r, e);
  }

  function SomeActivation(): ActivationArtifact {
    ActivationArtifact("activation", true, {"source"}, ["digest"], Some("incident"), 10)
  }

  function Observed(id: string, state: R.State, at: int): RecoveryArtifact {
    RecoveryArtifact(id, "incident", R.V2, "local-ha", "kind-messaging-ha", "activation", ["digest"], state, ["REASON"],
                     at, ["bundle"])
  }

  function SomeDiagnosis(): DiagnosisRun {
    DiagnosisRun("diagnosis", "activation", ["digest"], "local-ha", "kind-messaging-ha", true, 30, "")
  }

  ghost predicate Sound(r: Record) { Inv(r) && WithinCaps(r) && r.timeline != [] }

  /** The life of an incident: recovering, diagnosed, recovered and so closed, and not reopened by what follows. */
  lemma LifeOfAnIncident()
    returns (created: Record, recovering: Record, diagnosed: Record, closed: Record, later: Record)
    ensures CreateIncident(SomeActivation(), "source") == Ok(created) && created.state == Active
    ensures Sound(created) && AttachRecovery(created, Observed("1", R.Recovering, 20)) == Ok(recovering)
    ensures Sound(recovering) && AttachDiagnosis(recovering, SomeDiagnosis()) == Ok(diagnosed)
    ensures Sound(diagnosed) && AttachRecovery(diagnosed, Observed("22", R.Recovered, 40)) == Ok(closed)
    ensures Sound(closed) && AttachRecovery(closed, Observed("333", R.Active, 50)) == Ok(later)
    ensures recovering.state == Recovering
    ensures diagnosed.state == Recovering && diagnosed.diagnosis == Some(SomeDiagnosis())
    ensures closed.state == Closed && closed.recoveredOutcome && closed.closedAt == Some(40)
    ensures later.state == Closed && later.closedAt == Some(40)
    ensures later.current.Some? && later.current.value.state == R.Active
  {
    hide Inv, WithinCaps, RecordProblem, AttachRecovery, AttachDiagnosis;
    var a := SomeActivation();
    assert a.identities == {"source"};
    CreationIsValid(a, "source");
    created := CreateIncident(a, "source").value;
    recovering := NextRecord(created, Observed("1", R.Recovering, 20));
    DiagnosisAttachesExactlyWhen(recovering, SomeDiagnosis());
    diagnosed := AttachDiagnosis(recovering, SomeDiagnosis()).value;
    AttachmentIsValid(recovering, Diagnose(SomeDiagnosis()));
    ValidIsWithin(diagnosed);
    closed := NextRecord(diagnosed, Observed("22", R.Recovered, 40));
    later := NextRecord(closed, Observed("333", R.Active, 50));
  }

  lemma NextRecord(r: Record, e: RecoveryArtifact) returns (t: Record)
    requires Inv(r) && WithinCaps(r) && e.digests != []
    requires (forall x :: x in r.evaluations ==> x.id != e.id) && EvaluationAccepted(r, e)
    ensures r.timeline != [] && AttachRecovery(r, e) == Ok(t)
    ensures Inv(t) && WithinCaps(t) && Evaluated(r, e, t)
  {
    hide Inv, RecordProblem, WithinCaps, AttachRecovery, EvaluationAccepted, Evaluated;
    EvaluationAttachesExactlyWhen(r, e);
    t := AttachRecovery(r, e).value;
    AttachmentIsValid(r, Evaluate(e));
    ValidIsWithin(t);
  }

  lemma ValidIsWithin(r: Record)
    ensures RecordProblem(r) == None ==> WithinCaps(r)
  {}
}
