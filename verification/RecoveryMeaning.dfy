/**
 What a recovery evaluation says about its captures, read off the captures alone: which captures are usable, which
 state follows each of them, and when a sequence is recovered.
 */
module RecoveryMeaning {
  import opened Prelude
  import opened Recovery

  // --------------------------------------------------------------- integrity of the sequence

  ghost predicate ActivationUsable(a: Activation) {
    a.corePresent && a.policyMatches && a.incidentsMatch && |a.identities| == 1
  }

  /** What a capture must satisfy by itself. */
  ghost predicate Faultless(a: Activation, c: Capture) {
    && c.scopeMatches && c.digestMatches && c.incidentMatches
    && c.conditionIdentity.Some? && c.conditionIdentity.value in a.identities
    && a.lastCompletedAt < c.startedAt && a.lastCompletedAt < c.completedAt
  }

  /** What holds between a capture and any later one. */
  ghost predicate Precedes(b: Capture, c: Capture) {
    && b.completedAt < c.completedAt
    && (b.recoveryIdentity.Some? ==> c.recoveryIdentity == b.recoveryIdentity)
    && (b.offsets != map[] ==> forall p :: p in c.offsets ==>
          p in b.offsets && b.offsets[p].end <= c.offsets[p].end && b.offsets[p].committed <= c.offsets[p].committed)
  }

  ghost predicate Intact(a: Activation, caps: seq<Capture>) {
    && ActivationUsable(a)
    && (forall j :: 0 <= j < |caps| ==> Faultless(a, caps[j]))
    && (forall j, k :: 0 <= j < k < |caps| ==> Precedes(caps[j], caps[k]))
  }

  ghost predicate FirstIdentity(caps: seq<Capture>, j: nat, identity: Option<string>) {
    && j < |caps| && caps[j].recoveryIdentity == identity
    && forall k :: 0 <= k < j ==> caps[k].recoveryIdentity.None?
  }

  /** The remembered identity is the first one seen. */
  ghost predicate RemembersIdentity(caps: seq<Capture>, identity: Option<string>) {
    if identity.None? then forall j :: 0 <= j < |caps| ==> caps[j].recoveryIdentity.None?
    else exists j :: FirstIdentity(caps, j, identity)
  }

  ghost predicate LastOffsets(caps: seq<Capture>, j: nat, offsets: Option<map<string, Offsets>>) {
    && j < |caps| && caps[j].offsets != map[] && offsets == Some(caps[j].offsets)
    && forall k :: j < k < |caps| ==> caps[k].offsets == map[]
  }

  /** The remembered offsets are those of the last capture that had any. */
  ghost predicate RemembersOffsets(caps: seq<Capture>, offsets: Option<map<string, Offsets>>) {
    if offsets.None? then forall j :: 0 <= j < |caps| ==> caps[j].offsets == map[]
    else exists j :: LastOffsets(caps, j, offsets)
  }

  /** What the loop variables hold after `caps`. */
  ghost predicate Remembers(a: Activation, caps: seq<Capture>, s: Stream) {
    && s.completedAt == (if caps == [] then a.lastCompletedAt else caps[|caps| - 1].completedAt)
    && s.kafkaSource == (if caps == [] then a.lastKafkaSource else caps[|caps| - 1].kafkaSource)
    && RemembersIdentity(caps, s.identity)
    && RemembersOffsets(caps, s.offsets)
  }

  lemma IdentityStep(front: seq<Capture>, identity: Option<string>, c: Capture)
    requires RemembersIdentity(front, identity)
    ensures RemembersIdentity(front + [c], if identity.None? then c.recoveryIdentity else identity)
  {
    var caps := front + [c];
    if identity.Some? {
      var j: nat :| FirstIdentity(front, j, identity);
      assert FirstIdentity(caps, j, identity);
    } else if c.recoveryIdentity.Some? {
      assert FirstIdentity(caps, |front|, c.recoveryIdentity);
    }
  }

  lemma OffsetsStep(front: seq<Capture>, offsets: Option<map<string, Offsets>>, c: Capture)
    requires RemembersOffsets(front, offsets)
    ensures RemembersOffsets(front + [c], if c.offsets != map[] then Some(c.offsets) else offsets)
  {
    var caps := front + [c];
    assert caps[|front|] == c;
    if c.offsets != map[] {
      assert LastOffsets(caps, |front|, Some(c.offsets));
    } else if offsets.Some? {
      var j: nat :| LastOffsets(front, j, offsets);
      assert LastOffsets(caps, j, offsets);
    }
  }

  lemma {:induction false} FoldRemembers(a: Activation, caps: seq<Capture>)
    ensures Remembers(a, caps, Fold(a, caps))
    decreases |caps|
  {
    hide CaptureIssues, Breaks, ActivationIssues, RemembersIdentity, RemembersOffsets;
    if caps == [] {
      NothingRemembered();
    } else {
      var front, c := caps[..|caps| - 1], caps[|caps| - 1];
      FoldRemembers(a, front);
      assert caps == front + [c];
      IdentityStep(front, Fold(a, front).identity, c);
      OffsetsStep(front, Fold(a, front).offsets, c);
    }
  }

  lemma NothingRemembered()
    ensures RemembersIdentity([], None) && RemembersOffsets([], None)
  {}

  /** The global issues of one capture, as conditions. */
  ghost predicate Accepted(a: Activation, s: Stream, c: Capture) {
    && ActivationUsable(a) && Faultless(a, c) && s.completedAt < c.completedAt
    && (s.identity.Some? ==> c.recoveryIdentity == s.identity)
    && (s.offsets.Some? ==> OffsetsContinue(s.offsets.value, c.offsets))
  }

  lemma ActivationIssuesMean(a: Activation)
    ensures ActivationIssues(a) == {} <==> ActivationUsable(a)
    ensures forall i :: i in ActivationIssues(a) ==> IsGlobal(i)
  {
    if !a.corePresent { assert ActivationStateNotPresent in ActivationIssues(a); }
    if !a.policyMatches { assert ActivationPolicyMismatch in ActivationIssues(a); }
    if !a.incidentsMatch { assert ActivationIncidentIdentityMismatch in ActivationIssues(a); }
    if |a.identities| != 1 { assert ActivationSourceIdentityUnusable in ActivationIssues(a); }
  }

  lemma BreaksExactlyWhen(a: Activation, s: Stream, c: Capture)
    requires s.completedAt >= a.lastCompletedAt
    ensures Breaks(CaptureIssues(a, s, c)) <==> !Accepted(a, s, c)
  {
    hide OffsetsContinue, ActivationIssues, EXPECTED_PARTITIONS, RateArithmetic;
    ActivationIssuesMean(a);
    var issues := CaptureIssues(a, s, c);
    var source, timing := SourceIssues(a, s, c), TimingIssues(a, s, c);
    if Accepted(a, s, c) {
      assert forall i :: i in issues ==>
                           i in ActivationIssues(a) || i in source || i in timing || i in EvidenceIssues(c);
      assert !exists i :: i in source && IsGlobal(i);
      assert !exists i :: i in timing && IsGlobal(i);
    } else if ActivationUsable(a) {
      if !c.scopeMatches { assert ScopeMismatch in issues; }
      else if !c.digestMatches { assert BundleDigestMismatch in issues; }
      else if !c.incidentMatches { assert IncidentIdentityMismatch in issues; }
      else if !IsActivationIdentity(a, c.conditionIdentity) { assert ConditionSourceIdentityMismatch in issues; }
      else if c.startedAt <= a.lastCompletedAt { assert CaptureNotPostActivation in issues; }
      else if c.completedAt <= s.completedAt { assert CollectionTimestampsReordered in issues; }
      else if s.identity.Some? && c.recoveryIdentity != s.identity { assert SourceIdentityMismatch in issues; }
      else { assert OffsetDecreaseOrReset in issues; }
    } else {
      assert ActivationIssues(a) <= issues;
      var i :| i in ActivationIssues(a);
      assert i in issues;
    }
  }

  /** The stream is unbroken exactly as long as the activation, every capture and every pair of captures agree. */
  lemma {:induction false} IntactExactlyWhen(a: Activation, caps: seq<Capture>)
    ensures !Fold(a, caps).broken <==> Intact(a, caps)
    decreases |caps|
  {
    hide CaptureIssues, Breaks, ActivationIssues, Precedes, Faultless, Accepted;
    if caps == [] {
      ActivationIssuesMean(a);
    } else {
      var n := |caps| - 1;
      var front, c, s := caps[..n], caps[n], Fold(a, caps[..n]);
      IntactExactlyWhen(a, front);
      assert caps == front + [c];
      assert Intact(a, caps) ==> Intact(a, front);
      if Intact(a, front) {
        FoldRemembers(a, front);
        LaterThanActivation(a, front, s);
        BreaksExactlyWhen(a, s, c);
        if Accepted(a, s, c) {
          forall j | 0 <= j < n ensures Precedes(caps[j], c) { AcceptedFollows(a, front, s, c, j); }
          assert Faultless(a, c) by { AcceptedIsFaultless(a, s, c); }
        } else if Intact(a, caps) {
          FollowerIsAccepted(a, front, s, c);
        }
      }
    }
  }

  lemma AcceptedIsFaultless(a: Activation, s: Stream, c: Capture)
    requires Accepted(a, s, c)
    ensures Faultless(a, c)
  {}

  lemma LaterThanActivation(a: Activation, front: seq<Capture>, s: Stream)
    requires Intact(a, front) && Remembers(a, front, s)
    ensures s.completedAt >= a.lastCompletedAt
  {}

  lemma AcceptedFollows(a: Activation, front: seq<Capture>, s: Stream, c: Capture, j: nat)
    requires Intact(a, front) && s == Fold(a, front) && !s.broken && Accepted(a, s, c) && j < |front|
    ensures Precedes(front[j], c)
  {
    hide Fold;
    var n := |front|;
    FoldRemembers(a, front);
    assert front[..n] == front;
    UnbrokenContinues(a, front, j, n);
    if j < n - 1 { assert Precedes(front[j], front[n - 1]); }
    if front[j].recoveryIdentity.Some? {
      var m: nat :| FirstIdentity(front, m, s.identity);
      if m < j { assert Precedes(front[m], front[j]); }
    }
    if front[j].offsets != map[] {
      OffsetsTransitive(front[j].offsets, s.offsets.value, c.offsets);
    }
  }

  lemma FollowerIsAccepted(a: Activation, front: seq<Capture>, s: Stream, c: Capture)
    requires Intact(a, front + [c]) && Remembers(a, front, s)
    ensures Accepted(a, s, c)
  {
    hide Faultless;
    var caps, n := front + [c], |front|;
    assert caps[n] == c && forall j :: 0 <= j < n ==> caps[j] == front[j];
    forall j | 0 <= j < n ensures Precedes(front[j], c) { assert Precedes(caps[j], caps[n]); }
    assert Faultless(a, caps[n]);
    assert s.completedAt < c.completedAt by { FaultlessIsLater(a, c); }
  }

  lemma FaultlessIsLater(a: Activation, c: Capture)
    requires Faultless(a, c)
    ensures a.lastCompletedAt < c.completedAt
  {}

  // --------------------------------------------------------------- usable captures

  /** The conditions that concern one capture and the Kafka time before it. */
  ghost predicate Measured(c: Capture, previous: Option<int>) {
    && c.partitionSet == ["0", "1", "2", "3", "4", "5", "6", "7"]
    && c.kafkaSource.Some? && previous.Some?
    && 9_000_000 <= c.kafkaSource.value - previous.value <= 21_000_000
    && c.evidenceIssues == {} && c.postgresReady == Some(true)
    && c.produce.Some? && c.committed.Some? && c.slope.Some?
    && c.produce.value - c.committed.value == c.slope.value
  }

  function KafkaBefore(a: Activation, caps: seq<Capture>, i: nat): Option<int>
    requires i <= |caps|
  {
    if i == 0 then a.lastKafkaSource else caps[i - 1].kafkaSource
  }

  lemma LocalIssuesMean(a: Activation, s: Stream, c: Capture)
    requires Accepted(a, s, c)
    ensures CaptureIssues(a, s, c) == {} <==> Measured(c, s.kafkaSource)
  {
    hide OffsetsContinue, ActivationIssues;
    ActivationIssuesMean(a);
    var issues := CaptureIssues(a, s, c);
    if Measured(c, s.kafkaSource) {
      assert SourceIssues(a, s, c) == {} && TimingIssues(a, s, c) == {} && EvidenceIssues(c) == {};
    } else if c.partitionSet != EXPECTED_PARTITIONS {
      assert PartitionIdentityMismatch in issues;
    } else if c.kafkaSource.None? || s.kafkaSource.None? {
      assert KafkaTimestampUnusable in issues;
    } else if c.kafkaSource.value <= s.kafkaSource.value {
      assert KafkaTimestampsReordered in issues;
    } else if !(INTERVAL_MIN <= c.kafkaSource.value - s.kafkaSource.value <= INTERVAL_MAX) {
      assert IntervalOutsideTolerance in issues;
    } else if c.postgresReady != Some(true) {
      assert PostgresNotAcceptable in issues;
    } else if RateArithmetic(c).None? {
      assert RateMeasurementUnavailable in issues;
    } else if RateArithmetic(c) == Some(false) {
      assert RateArithmeticMismatch in issues;
    } else {
      var code :| code in c.evidenceIssues;
      assert Evidence(code) in issues;
    }
  }

  /** A capture has no issue exactly when the sequence is intact up to it and its own measurements are in order. */
  lemma UsableExactlyWhen(a: Activation, caps: seq<Capture>, i: nat)
    requires i < |caps|
    ensures Raws(a, caps)[i].issues == {} <==>
            Intact(a, caps[..i + 1]) && Measured(caps[i], KafkaBefore(a, caps, i))
  {
    hide CaptureIssues, Breaks, Measured, Intact, Raws, Accepted;
    var front, s, c := caps[..i], Fold(a, caps[..i]), caps[i];
    RawsAt(a, caps, i);
    assert caps[..i + 1][..i] == front;
    IntactExactlyWhen(a, caps[..i + 1]);
    IntactExactlyWhen(a, front);
    FoldRemembers(a, front);
    if Intact(a, caps[..i + 1]) {
      assert !s.broken;
      LaterThanActivation(a, front, s);
      BreaksExactlyWhen(a, s, c);
      LocalIssuesMean(a, s, c);
    } else {
      assert SequenceIntegrityBroken in Raws(a, caps)[i].issues;
    }
  }

  /** An identity other than the first one seen, or none after one was seen. */
  ghost predicate IdentityChanges(caps: seq<Capture>, i: nat)
    requires i < |caps|
  {
    exists j: nat :: j < i && FirstIdentity(caps, j, caps[j].recoveryIdentity) && caps[j].recoveryIdentity.Some?
                     && caps[i].recoveryIdentity != caps[j].recoveryIdentity
  }

  /** A new partition or a smaller offset than in the last capture that had any. */
  ghost predicate OffsetsFall(caps: seq<Capture>, i: nat)
    requires i < |caps|
  {
    exists j: nat :: j < i && LastOffsets(caps[..i], j, Some(caps[j].offsets))
                     && !OffsetsContinue(caps[j].offsets, caps[i].offsets)
  }

  /** Which issue a capture has, and why. */
  ghost predicate Raised(a: Activation, caps: seq<Capture>, i: nat, issue: Issue)
    requires i < |caps|
  {
    var c, before := caps[i], KafkaBefore(a, caps, i);
    match issue
    case ActivationStateNotPresent => !a.corePresent
    case ActivationPolicyMismatch => !a.policyMatches
    case ActivationIncidentIdentityMismatch => !a.incidentsMatch
    case ActivationSourceIdentityUnusable => |a.identities| != 1
    case ScopeMismatch => !c.scopeMatches
    case BundleDigestMismatch => !c.digestMatches
    case IncidentIdentityMismatch => !c.incidentMatches
    case ConditionSourceIdentityMismatch =>
      if |a.identities| == 1 then !(c.conditionIdentity.Some? && c.conditionIdentity.value in a.identities)
      else c.conditionIdentity.Some?
    case SourceIdentityMismatch => IdentityChanges(caps, i)
    case PartitionIdentityMismatch => c.partitionSet != ["0", "1", "2", "3", "4", "5", "6", "7"]
    case OffsetDecreaseOrReset => OffsetsFall(caps, i)
    case CaptureNotPostActivation => c.startedAt <= a.lastCompletedAt
    case CollectionTimestampsReordered =>
      c.completedAt <= (if i == 0 then a.lastCompletedAt else caps[i - 1].completedAt)
    case KafkaTimestampUnusable => c.kafkaSource.None? || before.None?
    case KafkaTimestampsReordered => c.kafkaSource.Some? && before.Some? && c.kafkaSource.value <= before.value
    case IntervalOutsideTolerance =>
      && c.kafkaSource.Some? && before.Some? && c.kafkaSource.value > before.value
      && !(9_000_000 <= c.kafkaSource.value - before.value <= 21_000_000)
    case Evidence(code) => code in c.evidenceIssues
    case PostgresNotAcceptable => c.postgresReady != Some(true)
    case RateMeasurementUnavailable => c.produce.None? || c.committed.None? || c.slope.None?
    case RateArithmeticMismatch =>
      c.produce.Some? && c.committed.Some? && c.slope.Some? && c.produce.value - c.committed.value != c.slope.value
    case SequenceIntegrityBroken => !Intact(a, caps[..i + 1])
  }

  lemma IdentityMismatchMeans(a: Activation, caps: seq<Capture>, i: nat, s: Stream)
    requires i < |caps| && Remembers(a, caps[..i], s)
    ensures SourceIdentityMismatch in CaptureIssues(a, s, caps[i]) <==> IdentityChanges(caps, i)
  {
    hide CaptureIssues, SourceIssues, OffsetsContinue, RemembersOffsets;
    NoOtherSource(a, s, caps[i]);
    SourceChecks(a, s, caps[i]);
    var front := caps[..i];
    if s.identity.Some? {
      var j: nat :| FirstIdentity(front, j, s.identity);
      assert FirstIdentity(caps, j, caps[j].recoveryIdentity);
    }
    if k: nat :| k < i && FirstIdentity(caps, k, caps[k].recoveryIdentity) && caps[k].recoveryIdentity.Some?
                 && caps[i].recoveryIdentity != caps[k].recoveryIdentity {
      assert front[k] == caps[k];
    }
  }

  /** Each of the four groups of issues keeps to its own. */
  lemma NoOtherSource(a: Activation, s: Stream, c: Capture)
    ensures SourceIdentityMismatch in CaptureIssues(a, s, c) <==> SourceIdentityMismatch in SourceIssues(a, s, c)
    ensures OffsetDecreaseOrReset in CaptureIssues(a, s, c) <==> OffsetDecreaseOrReset in SourceIssues(a, s, c)
  {
    hide SourceIssues, ActivationIssues, TimingIssues, EvidenceIssues;
    ActivationIssueMeans(a, SourceIdentityMismatch);
    ActivationIssueMeans(a, OffsetDecreaseOrReset);
    TimingIssueMeans(a, s, c, SourceIdentityMismatch);
    TimingIssueMeans(a, s, c, OffsetDecreaseOrReset);
    EvidenceIssueMeans(c, SourceIdentityMismatch);
    EvidenceIssueMeans(c, OffsetDecreaseOrReset);
  }

  lemma OffsetMismatchMeans(a: Activation, caps: seq<Capture>, i: nat, s: Stream)
    requires i < |caps| && Remembers(a, caps[..i], s)
    ensures OffsetDecreaseOrReset in CaptureIssues(a, s, caps[i]) <==> OffsetsFall(caps, i)
  {
    hide CaptureIssues, SourceIssues, OffsetsContinue, RemembersIdentity;
    NoOtherSource(a, s, caps[i]);
    SourceChecks(a, s, caps[i]);
    var front := caps[..i];
    if s.offsets.Some? {
      var j: nat :| LastOffsets(front, j, s.offsets);
      assert LastOffsets(front, j, Some(caps[j].offsets));
    }
    if k: nat :| k < i && LastOffsets(front, k, Some(caps[k].offsets))
                 && !OffsetsContinue(caps[k].offsets, caps[i].offsets) {
      assert front[k] == caps[k];
    }
  }

  lemma ActivationIssueMeans(a: Activation, issue: Issue)
    ensures issue in ActivationIssues(a) <==>
              match issue
              case ActivationStateNotPresent => !a.corePresent
              case ActivationPolicyMismatch => !a.policyMatches
              case ActivationIncidentIdentityMismatch => !a.incidentsMatch
              case ActivationSourceIdentityUnusable => |a.identities| != 1
              case _ => false
  {
    hide Unless;
    UnlessMeans(a.corePresent, ActivationStateNotPresent);
    UnlessMeans(a.policyMatches, ActivationPolicyMismatch);
    UnlessMeans(a.incidentsMatch, ActivationIncidentIdentityMismatch);
    UnlessMeans(|a.identities| == 1, ActivationSourceIdentityUnusable);
  }

  lemma SourceIssueMeans(a: Activation, s: Stream, c: Capture, issue: Issue)
    requires issue !in {SourceIdentityMismatch, OffsetDecreaseOrReset}
    ensures issue in SourceIssues(a, s, c) <==>
              match issue
              case ScopeMismatch => !c.scopeMatches
              case BundleDigestMismatch => !c.digestMatches
              case IncidentIdentityMismatch => !c.incidentMatches
              case ConditionSourceIdentityMismatch => !IsActivationIdentity(a, c.conditionIdentity)
              case PartitionIdentityMismatch => c.partitionSet != ["0", "1", "2", "3", "4", "5", "6", "7"]
              case _ => false
  {
    hide SourceIssues, IsActivationIdentity, OffsetsContinue;
    SourceChecks(a, s, c);
  }

  /** Which of the checks of the source records which issue. */
  lemma SourceChecks(a: Activation, s: Stream, c: Capture)
    ensures forall i :: i in SourceIssues(a, s, c) <==>
              || (i == ScopeMismatch && !c.scopeMatches)
              || (i == BundleDigestMismatch && !c.digestMatches)
              || (i == IncidentIdentityMismatch && !c.incidentMatches)
              || (i == ConditionSourceIdentityMismatch && !IsActivationIdentity(a, c.conditionIdentity))
              || (i == SourceIdentityMismatch
                  && !((s.identity.None? && c.recoveryIdentity.Some?) || c.recoveryIdentity == s.identity))
              || (i == PartitionIdentityMismatch && c.partitionSet != ["0", "1", "2", "3", "4", "5", "6", "7"])
              || (i == OffsetDecreaseOrReset && s.offsets.Some? && !OffsetsContinue(s.offsets.value, c.offsets))
  {
    hide Unless, IsActivationIdentity, OffsetsContinue;
    UnlessMeans(c.scopeMatches, ScopeMismatch);
    UnlessMeans(c.digestMatches, BundleDigestMismatch);
    UnlessMeans(c.incidentMatches, IncidentIdentityMismatch);
    UnlessMeans(IsActivationIdentity(a, c.conditionIdentity), ConditionSourceIdentityMismatch);
    UnlessMeans((s.identity.None? && c.recoveryIdentity.Some?) || c.recoveryIdentity == s.identity,
                SourceIdentityMismatch);
    UnlessMeans(c.partitionSet == EXPECTED_PARTITIONS, PartitionIdentityMismatch);
    UnlessMeans(s.offsets.None? || OffsetsContinue(s.offsets.value, c.offsets), OffsetDecreaseOrReset);
  }

  lemma TimingIssueMeans(a: Activation, s: Stream, c: Capture, issue: Issue)
    ensures issue in TimingIssues(a, s, c) <==>
              match issue
              case CaptureNotPostActivation => c.startedAt <= a.lastCompletedAt
              case CollectionTimestampsReordered => c.completedAt <= s.completedAt
              case KafkaTimestampUnusable => c.kafkaSource.None? || s.kafkaSource.None?
              case KafkaTimestampsReordered =>
                c.kafkaSource.Some? && s.kafkaSource.Some? && c.kafkaSource.value <= s.kafkaSource.value
              case IntervalOutsideTolerance =>
                && c.kafkaSource.Some? && s.kafkaSource.Some? && c.kafkaSource.value > s.kafkaSource.value
                && !(9_000_000 <= c.kafkaSource.value - s.kafkaSource.value <= 21_000_000)
              case _ => false
  {}

  lemma EvidenceIssueMeans(c: Capture, issue: Issue)
    ensures issue in EvidenceIssues(c) <==>
              match issue
              case Evidence(code) => code in c.evidenceIssues
              case PostgresNotAcceptable => c.postgresReady != Some(true)
              case RateMeasurementUnavailable => c.produce.None? || c.committed.None? || c.slope.None?
              case RateArithmeticMismatch =>
                c.produce.Some? && c.committed.Some? && c.slope.Some?
                && c.produce.value - c.committed.value != c.slope.value
              case _ => false
  {}

  lemma OtherIssuesMean(a: Activation, caps: seq<Capture>, i: nat, s: Stream, issue: Issue)
    requires i < |caps| && Remembers(a, caps[..i], s)
    requires issue !in {SourceIdentityMismatch, OffsetDecreaseOrReset, SequenceIntegrityBroken}
    ensures issue in CaptureIssues(a, s, caps[i]) <==> Raised(a, caps, i, issue)
  {
    hide ActivationIssues, SourceIssues, TimingIssues, EvidenceIssues, RemembersIdentity, RemembersOffsets, Intact,
         IdentityChanges, OffsetsFall;
    ActivationIssueMeans(a, issue);
    SourceIssueMeans(a, s, caps[i], issue);
    TimingIssueMeans(a, s, caps[i], issue);
    EvidenceIssueMeans(caps[i], issue);
  }

  lemma NeverBrokenItself(a: Activation, s: Stream, c: Capture)
    ensures SequenceIntegrityBroken !in CaptureIssues(a, s, c)
  {
    hide ActivationIssues, SourceIssues, TimingIssues, EvidenceIssues;
    ActivationIssueMeans(a, SequenceIntegrityBroken);
    SourceIssueMeans(a, s, c, SequenceIntegrityBroken);
    TimingIssueMeans(a, s, c, SequenceIntegrityBroken);
    EvidenceIssueMeans(c, SequenceIntegrityBroken);
  }

  /** The issues of a capture, told from the captures alone. */
  lemma IssuesExactlyWhen(a: Activation, caps: seq<Capture>, i: nat, issue: Issue)
    requires i < |caps|
    ensures issue in Raws(a, caps)[i].issues <==> Raised(a, caps, i, issue)
  {
    hide CaptureIssues, Breaks, Intact, Raws, Remembers, IdentityChanges, OffsetsFall;
    var front, s := caps[..i], Fold(a, caps[..i]);
    RawsAt(a, caps, i);
    FoldRemembers(a, front);
    assert caps[..i + 1][..i] == front;
    IntactExactlyWhen(a, caps[..i + 1]);
    NeverBrokenItself(a, s, caps[i]);
    if issue == SourceIdentityMismatch {
      IdentityMismatchMeans(a, caps, i, s);
    } else if issue == OffsetDecreaseOrReset {
      OffsetMismatchMeans(a, caps, i, s);
    } else if issue != SequenceIntegrityBroken {
      OtherIssuesMean(a, caps, i, s, issue);
    }
  }

  ghost predicate Usable(a: Activation, caps: seq<Capture>, i: nat)
    requires i < |caps|
  {
    Intact(a, caps[..i + 1]) && Measured(caps[i], KafkaBefore(a, caps, i))
  }

  // --------------------------------------------------------------- states

  /** The last three captures up to `i` are there, and the lag falls in each. */
  ghost predicate Drains(caps: seq<Capture>, i: nat)
    requires i < |caps|
  {
    i >= 2 && Falls(caps[i - 2]) && Falls(caps[i - 1]) && Falls(caps[i])
  }

  /** `i` and its one or two predecessors are usable. */
  ghost predicate WindowUsable(a: Activation, caps: seq<Capture>, i: nat)
    requires i < |caps|
  {
    Usable(a, caps, i) && (i >= 1 ==> Usable(a, caps, i - 1)) && (i >= 2 ==> Usable(a, caps, i - 2))
  }

  /** UNKNOWN, RECOVERING or ACTIVE: which of them follows capture `i`, unless a stable window ends there. */
  lemma StateExactlyWhen(policy: Policy, a: Activation, caps: seq<Capture>, i: nat)
    requires i < |caps|
    ensures var state := Evaluate(policy, a, caps).states[i];
            state != Recovered ==>
              && (state == Unknown <==> !WindowUsable(a, caps, i))
              && (state == Recovering <==> WindowUsable(a, caps, i) && Drains(caps, i))
              && (state == Active <==> WindowUsable(a, caps, i) && !Drains(caps, i))
    ensures policy == V1 || i < |caps| - 1 ==> Evaluate(policy, a, caps).states[i] != Recovered
  {
    hide Raws, StateAt, StableWindow, Intact, Measured;
    ScanClassifies(a, caps, i);
    forall k | i - 2 <= k <= i && 0 <= k
      ensures Raws(a, caps)[k].issues == {} <==> Usable(a, caps, k)
      ensures Raws(a, caps)[k].capture == caps[k]
    {
      UsableExactlyWhen(a, caps, k);
      RawsAt(a, caps, k);
    }
  }

  // --------------------------------------------------------------- recovered

  /** The envelope: at most 22 records of lag, none gained, and an ingress of 75 to 77.08 records a second. */
  ghost predicate Settled(a: Activation, caps: seq<Capture>, i: nat)
    requires i < |caps|
  {
    var c := caps[i];
    && Usable(a, caps, i)
    && c.totalLag.Some? && c.totalLag.value <= 22
    && c.slope.Some? && c.slope.value <= 0
    && c.produce.Some? && 4499 <= c.produce.value <= 4625
  }

  lemma EnvelopeMeans(a: Activation, caps: seq<Capture>, i: nat)
    requires i < |caps|
    ensures InEnvelope(Raws(a, caps)[i]) <==> Settled(a, caps, i)
  {
    hide Raws, Intact;
    UsableExactlyWhen(a, caps, i);
    RawsAt(a, caps, i);
    if Usable(a, caps, i) { CommittedGuardIsImplied(caps[i]); }
  }

  /**
   A sequence is recovered under policy v2 exactly when its last three captures are settled and some three consecutive
   captures up to the first of them are usable and drain.
   */
  lemma RecoveredMeans(a: Activation, caps: seq<Capture>)
    requires caps != []
    ensures var n := |caps|;
            Evaluate(V2, a, caps).state == Recovered <==>
              && n >= 3 && Settled(a, caps, n - 3) && Settled(a, caps, n - 2) && Settled(a, caps, n - 1)
              && exists k :: 0 <= k <= n - 3 && WindowUsable(a, caps, k) && Drains(caps, k)
  {
    hide Raws, StateAt, InEnvelope, Settled, WindowUsable, Drains, Evaluate;
    var n := |caps|;
    RecoveredExactlyWhen(a, caps);
    if n >= 3 {
      EnvelopeMeans(a, caps, n - 3);
      EnvelopeMeans(a, caps, n - 2);
      EnvelopeMeans(a, caps, n - 1);
    }
    forall k | 0 <= k < n
      ensures StateAt(Raws(a, caps), k) == Recovering <==> WindowUsable(a, caps, k) && Drains(caps, k)
    {
      RecoveringMeans(a, caps, k);
    }
  }

  lemma RecoveringMeans(a: Activation, caps: seq<Capture>, i: nat)
    requires i < |caps|
    ensures StateAt(Raws(a, caps), i) == Recovering <==> WindowUsable(a, caps, i) && Drains(caps, i)
  {
    hide Raws, StateAt, WindowUsable, Drains;
    StateExactlyWhen(V1, a, caps, i);
  }

  /** The final state, the reported windows and the completion status follow from the states. */
  lemma ReportMeans(policy: Policy, a: Activation, caps: seq<Capture>)
    requires caps != []
    ensures var e, n := Evaluate(policy, a, caps), |caps|;
            && |e.states| == n && e.state == e.states[n - 1]
            && |e.evaluated| == (if n < 3 then n else 3)
            && (forall k :: 0 <= k < |e.evaluated| ==> e.evaluated[k] == n - |e.evaluated| + k)
            && (e.completion == CalibrationPending <==> policy == V1)
            && (e.completion == Complete <==> policy == V2 && e.state == Recovered)
            && (forall w :: w in e.matched <==>
                  |w| == 3 && w[1] == w[0] + 1 && w[2] == w[0] + 2 && w[2] < n
                  && WindowUsable(a, caps, w[2]) && Drains(caps, w[2]))
            && InOrder(e.matched)
  {
    hide Raws, StateAt, WindowUsable, Drains, InEnvelope;
    var raws, e, n := Raws(a, caps), Evaluate(policy, a, caps), |caps|;
    WindowsMean(raws);
    WindowsInOrder(raws);
    if e.evaluated != Tail(n) { StableWindowMeans(raws, States(raws)); }
    forall w: seq<nat> | |w| == 3 && w[2] < n
      ensures StateAt(raws, w[2]) == Recovering <==> WindowUsable(a, caps, w[2]) && Drains(caps, w[2])
    {
      RecoveringMeans(a, caps, w[2]);
    }
  }

  ghost predicate InOrder(windows: seq<seq<nat>>) {
    forall j, k :: 0 <= j < k < |windows| ==> |windows[j]| == |windows[k]| == 3 && windows[j][0] < windows[k][0]
  }

  /** Three consecutive indexes at whose end the scan says RECOVERING. */
  ghost predicate IsWindow(raws: seq<Raw>, w: seq<nat>) {
    |w| == 3 && w[1] == w[0] + 1 && w[2] == w[0] + 2 && w[2] < |raws| && StateAt(raws, w[2]) == Recovering
  }

  lemma {:induction false} WindowsMean(raws: seq<Raw>)
    ensures forall w :: w in Windows(raws) <==> IsWindow(raws, w)
    decreases |raws|
  {
    hide StateAt, IsWindow;
    if raws == [] {
      forall w ensures !IsWindow([], w) { NoWindow(w); }
    } else {
      var n := |raws| - 1;
      WindowsMean(raws[..n]);
      ScanNeedsThree(raws, n);
      forall w ensures w in Windows(raws) <==> IsWindow(raws, w) { WindowOfPrefix(raws, w); }
    }
  }

  lemma NoWindow(w: seq<nat>)
    ensures !IsWindow([], w)
  {}

  lemma WindowOfPrefix(raws: seq<Raw>, w: seq<nat>)
    requires raws != []
    ensures var n := |raws| - 1;
            IsWindow(raws, w) <==>
              IsWindow(raws[..n], w) || (StateAt(raws, n) == Recovering && n >= 2 && w == [n - 2, n - 1, n])
  {
    hide StateAt;
    var n := |raws| - 1;
    if |w| == 3 && w[2] < n { StateAtPrefix(raws, n, w[2]); }
  }

  lemma {:induction false} WindowsInOrder(raws: seq<Raw>)
    ensures InOrder(Windows(raws))
    decreases |raws|
  {
    hide StateAt;
    if raws != [] {
      var front := raws[..|raws| - 1];
      WindowsInOrder(front);
      WindowsMean(front);
      ScanNeedsThree(raws, |front|);
      forall j | 0 <= j < |Windows(front)| ensures IsWindow(front, Windows(front)[j]) {
        assert Windows(front)[j] in Windows(front);
      }
    }
  }

  lemma ScanNeedsThree(raws: seq<Raw>, i: nat)
    requires i < |raws|
    ensures StateAt(raws, i) == Recovering ==> i >= 2
  {}
}
