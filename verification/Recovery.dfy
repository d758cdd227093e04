/**
 Recovery evaluation of ops_agent/recovery_evaluator.py: a fold over post-activation captures, a three-capture
 classification scan, and the scan for a stable window inside the recovered envelope.

 Times are microseconds.  Rates over the fixed 60 s window are represented by their record deltas, so a comparison of
 rates is a comparison of deltas and the arithmetic check is exact.
 */
module Recovery {
  import opened Prelude

  datatype State = Active | Recovering | Unknown | Recovered

  datatype Policy = V1 | V2

  const RECOVERING_COUNT := 3
  const RECOVERED_COUNT := 3
  const INTERVAL_MIN := 9_000_000
  const INTERVAL_MAX := 21_000_000
  const RECOVERED_LAG_MAX := 22
  const RECOVERED_PRODUCE_MIN := 4499   // 74.98333333333333 records/s over 60 s
  const RECOVERED_PRODUCE_MAX := 4625   // 77.08333333333333 records/s over 60 s
  const MAX_CAPTURES := 256
  const EXPECTED_PARTITIONS: seq<string> := ["0", "1", "2", "3", "4", "5", "6", "7"]

  datatype Issue =
    | ActivationIncidentIdentityMismatch
    | ActivationPolicyMismatch
    | ActivationSourceIdentityUnusable
    | ActivationStateNotPresent
    | BundleDigestMismatch
    | CaptureNotPostActivation
    | CollectionTimestampsReordered
    | ConditionSourceIdentityMismatch
    | IncidentIdentityMismatch
    | OffsetDecreaseOrReset
    | ScopeMismatch
    | SourceIdentityMismatch
    | PartitionIdentityMismatch
    | KafkaTimestampUnusable
    | KafkaTimestampsReordered
    | IntervalOutsideTolerance
    | RateArithmeticMismatch
    | RateMeasurementUnavailable
    | PostgresNotAcceptable
    | Evidence(code: string)         // reported by the evidence checks of one capture
    | SequenceIntegrityBroken

  predicate IsGlobal(issue: Issue) {
    match issue
    case ActivationIncidentIdentityMismatch | ActivationPolicyMismatch | ActivationSourceIdentityUnusable
       | ActivationStateNotPresent | BundleDigestMismatch | CaptureNotPostActivation | CollectionTimestampsReordered
       | ConditionSourceIdentityMismatch | IncidentIdentityMismatch | OffsetDecreaseOrReset | ScopeMismatch
       | SourceIdentityMismatch => true
    case _ => false
  }

  datatype Activation = Activation(corePresent: bool, policyMatches: bool, incidentsMatch: bool,
                                   identities: set<string>, lastCompletedAt: int, lastKafkaSource: Option<int>)

  datatype Offsets = Offsets(end: int, committed: int)

  /** `reading`: what becomes of reading its bundle, before anything else of it is known. */
  datatype Capture = Capture(
    reading: Attempt, digestMatches: bool, incidentMatches: bool, scopeMatches: bool,
    startedAt: int, completedAt: int,
    conditionIdentity: Option<string>, recoveryIdentity: Option<string>,
    partitionSet: seq<string>, kafkaSource: Option<int>,
    evidenceIssues: set<string>, postgresReady: Option<bool>,
    totalLag: Option<int>, slope: Option<int>, produce: Option<int>, committed: Option<int>,
    offsets: map<string, Offsets>)

  function ActivationIssues(a: Activation): set<Issue> {
    Unless(a.corePresent, ActivationStateNotPresent)
    + Unless(a.policyMatches, ActivationPolicyMismatch)
    + Unless(a.incidentsMatch, ActivationIncidentIdentityMismatch)
    + Unless(|a.identities| == 1, ActivationSourceIdentityUnusable)
  }

  /** Whether `identity` is the activation's source identity, which exists only if its captures agree on one. */
  predicate IsActivationIdentity(a: Activation, identity: Option<string>) {
    if |a.identities| == 1 then identity.Some? && identity.value in a.identities else identity.None?
  }

  function RateArithmetic(c: Capture): Option<bool> {
    if c.produce.Some? && c.committed.Some? && c.slope.Some?
    then Some(c.produce.value - c.committed.value == c.slope.value) else None
  }

  // --------------------------------------------------------------- capture fold

  /** The variables the capture loop carries. */
  datatype Stream = Stream(completedAt: int, kafkaSource: Option<int>, identity: Option<string>, broken: bool,
                           offsets: Option<map<string, Offsets>>)

  function Start(a: Activation): Stream {
    Stream(a.lastCompletedAt, a.lastKafkaSource, None, ActivationIssues(a) != {}, None)
  }

  predicate OffsetsContinue(before: map<string, Offsets>, now: map<string, Offsets>) {
    forall p :: p in now ==> p in before && before[p].end <= now[p].end && before[p].committed <= now[p].committed
  }

  function TimingIssues(a: Activation, s: Stream, c: Capture): set<Issue> {
    Unless(c.startedAt > a.lastCompletedAt, CaptureNotPostActivation)
    + Unless(c.completedAt > s.completedAt, CollectionTimestampsReordered)
    + (if c.kafkaSource.None? || s.kafkaSource.None? then {KafkaTimestampUnusable}
       else
         var interval := c.kafkaSource.value - s.kafkaSource.value;
         if interval <= 0 then {KafkaTimestampsReordered}
         else Unless(INTERVAL_MIN <= interval <= INTERVAL_MAX, IntervalOutsideTolerance))
  }

  function SourceIssues(a: Activation, s: Stream, c: Capture): set<Issue> {
    Unless(c.scopeMatches, ScopeMismatch)
    + Unless(c.digestMatches, BundleDigestMismatch)
    + Unless(c.incidentMatches, IncidentIdentityMismatch)
    + Unless(IsActivationIdentity(a, c.conditionIdentity), ConditionSourceIdentityMismatch)
    + Unless((s.identity.None? && c.recoveryIdentity.Some?) || c.recoveryIdentity == s.identity, SourceIdentityMismatch)
    + Unless(c.partitionSet == EXPECTED_PARTITIONS, PartitionIdentityMismatch)
    + Unless(s.offsets.None? || OffsetsContinue(s.offsets.value, c.offsets), OffsetDecreaseOrReset)
  }

  function EvidenceIssues(c: Capture): set<Issue> {
    (set code | code in c.evidenceIssues :: Evidence(code))
    + Unless(c.postgresReady == Some(true), PostgresNotAcceptable)
    + (match RateArithmetic(c)
       case None => {RateMeasurementUnavailable}
       case Some(consistent) => Unless(consistent, RateArithmeticMismatch))
  }

  function CaptureIssues(a: Activation, s: Stream, c: Capture): set<Issue> {
    ActivationIssues(a) + SourceIssues(a, s, c) + TimingIssues(a, s, c) + EvidenceIssues(c)
  }

  predicate Breaks(issues: set<Issue>) { exists i :: i in issues && IsGlobal(i) }

  function Advance(a: Activation, s: Stream, c: Capture): Stream {
    Stream(c.completedAt, c.kafkaSource,
           if s.identity.None? then c.recoveryIdentity else s.identity,
           s.broken || Breaks(CaptureIssues(a, s, c)),
           if c.offsets != map[] then Some(c.offsets) else s.offsets)
  }

  /** The stream after all of `caps`. */
  function Fold(a: Activation, caps: seq<Capture>): Stream {
    if caps == [] then Start(a) else Advance(a, Fold(a, caps[..|caps| - 1]), caps[|caps| - 1])
  }

  /** One raw observation. */
  datatype Raw = Raw(capture: Capture, issues: set<Issue>) {
    predicate Usable() { issues == {} }
  }

  function Observe(a: Activation, s: Stream, c: Capture): Raw {
    var issues := CaptureIssues(a, s, c);
    Raw(c, if s.broken || Breaks(issues) then issues + {SequenceIntegrityBroken} else issues)
  }

  function Raws(a: Activation, caps: seq<Capture>): (raws: seq<Raw>)
    ensures |raws| == |caps|
  {
    if caps == [] then []
    else Raws(a, caps[..|caps| - 1]) + [Observe(a, Fold(a, caps[..|caps| - 1]), caps[|caps| - 1])]
  }

  /** The first trouble in reading the captures, in order. */
  function Reads(caps: seq<Capture>): Attempt {
    if caps == [] then Fine
    else
      var before := Reads(caps[..|caps| - 1]);
      if before != Fine then before else caps[|caps| - 1].reading
  }

  lemma {:induction false} ReadsPrefix(caps: seq<Capture>, n: nat)
    requires n <= |caps|
    ensures Reads(caps[..n]) != Fine ==> Reads(caps) == Reads(caps[..n])
    decreases |caps|
  {
    if n < |caps| {
      assert caps[..|caps| - 1][..n] == caps[..n];
      ReadsPrefix(caps[..|caps| - 1], n);
    } else {
      assert caps[..n] == caps;
    }
  }

  lemma {:induction false} ReadsFine(caps: seq<Capture>)
    ensures Reads(caps) == Fine <==> forall c :: c in caps ==> c.reading == Fine
    decreases |caps|
  {
    if caps != [] {
      var front, last := caps[..|caps| - 1], caps[|caps| - 1];
      assert caps == front + [last];
      ReadsFine(front);
    }
  }

  method FoldCaptures(a: Activation, caps: seq<Capture>) returns (reading: Attempt, raws: seq<Raw>)
    ensures reading == Reads(caps)
    ensures reading == Fine ==> raws == Raws(a, caps)
  {
    hide CaptureIssues, Breaks, ActivationIssues;
    reading := Fine;
    raws := [];
    var previousCollection := a.lastCompletedAt;
    var previousKafkaSource := a.lastKafkaSource;
    var expectedIdentity: Option<string> := None;
    var integrityBroken := ActivationIssues(a) != {};
    var previousOffsets: Option<map<string, Offsets>> := None;
    for i := 0 to |caps|
      invariant Reads(caps[..i]) == Fine && raws == Raws(a, caps[..i])
      invariant Fold(a, caps[..i])
             == Stream(previousCollection, previousKafkaSource, expectedIdentity, integrityBroken, previousOffsets)
    {
      assert caps[..i + 1][..i] == caps[..i];
      var c := caps[i];
      if c.reading != Fine {
        ReadsPrefix(caps, i + 1);
        return c.reading, [];
      }
      var s := Stream(previousCollection, previousKafkaSource, expectedIdentity, integrityBroken, previousOffsets);
      var issues := CaptureIssues(a, s, c);
      if expectedIdentity.None? && c.recoveryIdentity.Some? {
        expectedIdentity := c.recoveryIdentity;
      }
      if Breaks(issues) {
        integrityBroken := true;
      }
      if integrityBroken {
        issues := issues + {SequenceIntegrityBroken};
      }
      raws := raws + [Raw(c, issues)];
      previousCollection := c.completedAt;
      previousKafkaSource := c.kafkaSource;
      if c.offsets != map[] {
        previousOffsets := Some(c.offsets);
      }
    }
    assert caps[..|caps|] == caps;
  }

  // --------------------------------------------------------------- classification scan

  predicate Draining(c: Capture) {
    && c.slope.Some? && c.slope.value < 0
    && c.produce.Some? && c.committed.Some? && c.committed.value >= c.produce.value
    && RateArithmetic(c) == Some(true)
  }

  /** The state after capture `i`, from the window of at most three captures that ends there. */
  function StateAt(raws: seq<Raw>, i: nat): State
    requires i < |raws|
  {
    var first := if i + 1 >= RECOVERING_COUNT then i + 1 - RECOVERING_COUNT else 0;
    if exists k :: first <= k <= i && !raws[k].Usable() then Unknown
    else if i + 1 < RECOVERING_COUNT then Active
    else if forall k :: first <= k <= i ==> Draining(raws[k].capture) then Recovering
    else Active
  }

  function States(raws: seq<Raw>): (states: seq<State>)
    ensures |states| == |raws|
  {
    seq(|raws|, i requires 0 <= i < |raws| => StateAt(raws, i))
  }

  function Windows(raws: seq<Raw>): seq<seq<nat>> {
    if raws == [] then []
    else
      var n := |raws| - 1;
      Windows(raws[..n]) + if StateAt(raws, n) == Recovering then [[n - 2, n - 1, n]] else []
  }

  lemma StateAtPrefix(raws: seq<Raw>, n: nat, i: nat)
    requires i < n <= |raws|
    ensures StateAt(raws[..n], i) == StateAt(raws, i)
  {
    assert forall k :: 0 <= k < n ==> raws[..n][k] == raws[k];
  }

  /** The body of the scan: the state from the slice of captures that ends at `i`. */
  method ClassifyOne(raws: seq<Raw>, i: nat) returns (state: State)
    requires i < |raws|
    ensures state == StateAt(raws, i)
    ensures state == Unknown <==> exists k :: 0 <= k && i - 2 <= k <= i && raws[k].issues != {}
    ensures state == Recovering <==> i >= 2 && forall k :: i - 2 <= k <= i ==>
              raws[k].issues == {} && Draining(raws[k].capture)
    ensures state != Recovered
  {
    hide Draining;
    var available := if RECOVERING_COUNT <= i + 1 then RECOVERING_COUNT else i + 1;
    var first := i - available + 1;
    var candidate := raws[first..i + 1];
    assert forall k :: first <= k <= i ==> raws[k] == candidate[k - first];
    if exists k :: 0 <= k < |candidate| && !candidate[k].Usable() {
      ghost var k :| 0 <= k < |candidate| && !candidate[k].Usable();
      assert !raws[first + k].Usable();
      return Unknown;
    }
    if available < RECOVERING_COUNT {
      return Active;
    }
    assert candidate == [raws[i - 2], raws[i - 1], raws[i]];
    if forall k :: 0 <= k < |candidate| ==> Draining(candidate[k].capture) {
      return Recovering;
    }
    return Active;
  }

  method Classify(raws: seq<Raw>) returns (states: seq<State>, matched: seq<seq<nat>>)
    ensures states == States(raws) && matched == Windows(raws)
  {
    hide StateAt;
    states, matched := [], [];
    for i := 0 to |raws|
      invariant |states| == i && forall k :: 0 <= k < i ==> states[k] == StateAt(raws, k)
      invariant matched == Windows(raws[..i])
    {
      var state := ClassifyOne(raws, i);
      StateAtPrefix(raws, i + 1, i);
      assert raws[..i + 1][..i] == raws[..i];
      if state == Recovering {
        matched := matched + [[i - 2, i - 1, i]];
      }
      states := states + [state];
    }
    assert raws[..|raws|] == raws;
  }

  // --------------------------------------------------------------- recovered scan

  predicate InEnvelope(r: Raw) {
    var c := r.capture;
    && r.Usable()
    && c.postgresReady == Some(true)
    && RateArithmetic(c) == Some(true)
    && c.totalLag.Some? && c.totalLag.value <= RECOVERED_LAG_MAX
    && c.slope.Some? && c.slope.value <= 0
    && c.produce.Some? && RECOVERED_PRODUCE_MIN <= c.produce.value <= RECOVERED_PRODUCE_MAX
    && c.committed.Some? && c.committed.value >= c.produce.value
  }

  predicate Seen(states: seq<State>, n: nat)
    requires n <= |states|
  {
    exists k :: 0 <= k < n && states[k] == Recovering
  }

  /** Index `i` counts towards the stable window. */
  predicate Reenters(raws: seq<Raw>, states: seq<State>, i: nat)
    requires i < |raws| == |states|
  {
    Seen(states, i + 1) && InEnvelope(raws[i])
  }

  /** The stable window, if there is one: the last three captures. */
  function StableWindow(raws: seq<Raw>, states: seq<State>): seq<nat>
    requires |raws| == |states|
  {
    var n := |raws|;
    if n >= RECOVERED_COUNT && forall i :: n - RECOVERED_COUNT <= i < n ==> Reenters(raws, states, i)
    then [n - 3, n - 2, n - 1] else []
  }

  /** How many captures up to and excluding i re-enter without interruption. */
  function Streak(raws: seq<Raw>, states: seq<State>, i: nat): (n: nat)
    requires i <= |raws| == |states|
    ensures n <= i
  {
    if i > 0 && Reenters(raws, states, i - 1) then Streak(raws, states, i - 1) + 1 else 0
  }

  lemma {:induction false} StreakMeans(raws: seq<Raw>, states: seq<State>, i: nat, m: nat)
    requires m <= i <= |raws| == |states|
    ensures m <= Streak(raws, states, i) <==> forall k :: i - m <= k < i ==> Reenters(raws, states, k)
  {
    hide Reenters;
    if m > 0 { StreakMeans(raws, states, i - 1, m - 1); }
  }

  lemma SeenStep(states: seq<State>, i: nat)
    requires i < |states|
    ensures Seen(states, i + 1) <==> Seen(states, i) || states[i] == Recovering
  {}

  function Range(start: nat, count: nat): seq<nat> { seq(count, k requires 0 <= k => start + k) }

  method ScanRecovered(raws: seq<Raw>, states: seq<State>) returns (window: seq<nat>)
    requires |raws| == |states|
    ensures window == StableWindow(raws, states)
  {
    hide InEnvelope, Seen, Reenters, StableWindow, Streak, Range;
    StreakStart(raws, states);
    var recoveringSeen := false;
    var reentry: seq<nat> := [];
    for i := 0 to |raws|
      invariant recoveringSeen == Seen(states, i)
      invariant reentry == Range(i - Streak(raws, states, i), Streak(raws, states, i))
    {
      SeenStep(states, i);
      StreakStep(raws, states, i);
      if states[i] == Recovering {
        recoveringSeen := true;
      }
      if recoveringSeen && InEnvelope(raws[i]) {
        reentry := reentry + [i];
      } else {
        reentry := [];
      }
    }
    window := [];
    WindowOfStreak(raws, states);
    if |reentry| >= RECOVERED_COUNT {
      window := reentry[|reentry| - RECOVERED_COUNT..];
    }
  }

  lemma StreakStart(raws: seq<Raw>, states: seq<State>)
    requires |raws| == |states|
    ensures !Seen(states, 0) && Streak(raws, states, 0) == 0 && Range(0, 0) == []
  {}

  lemma StreakStep(raws: seq<Raw>, states: seq<State>, i: nat)
    requires i < |raws| == |states|
    ensures var before, after := Streak(raws, states, i), Streak(raws, states, i + 1);
            if Seen(states, i + 1) && InEnvelope(raws[i])
            then after == before + 1 && Range(i + 1 - after, after) == Range(i - before, before) + [i]
            else after == 0 && Range(i + 1, 0) == []
  {
    hide InEnvelope, Seen;
  }

  lemma WindowOfStreak(raws: seq<Raw>, states: seq<State>)
    requires |raws| == |states|
    ensures var n, streak := |raws|, Streak(raws, states, |raws|);
            && |Range(n - streak, streak)| == streak
            && StableWindow(raws, states)
               == if streak >= RECOVERED_COUNT then Range(n - streak, streak)[streak - RECOVERED_COUNT..] else []
  {
    hide Reenters, Streak;
    if |raws| >= RECOVERED_COUNT { StreakMeans(raws, states, |raws|, RECOVERED_COUNT); }
  }

  // --------------------------------------------------------------- evaluation

  datatype Completion = CalibrationPending | Complete | InProgress

  datatype Evaluation = Evaluation(raws: seq<Raw>, states: seq<State>, matched: seq<seq<nat>>, evaluated: seq<nat>,
                                   state: State, completion: Completion)

  function Tail(n: nat): seq<nat> {
    var first := if n >= RECOVERING_COUNT then n - RECOVERING_COUNT else 0;
    seq(n - first, k requires 0 <= k => first + k)
  }

  /** A stable window overrides the last state; the completion status follows from policy and state. */
  function Conclude(policy: Policy, raws: seq<Raw>, states: seq<State>, matched: seq<seq<nat>>,
                    window: seq<nat>): Evaluation
    requires states != []
  {
    var final := if window != [] then states[|states| - 1 := Recovered] else states;
    var state := final[|final| - 1];
    Evaluation(raws, final, matched, if window != [] then window else Tail(|states|), state,
               if policy == V1 then CalibrationPending else if state == Recovered then Complete else InProgress)
  }

  function Evaluate(policy: Policy, a: Activation, caps: seq<Capture>): Evaluation
    requires caps != []
  {
    var raws := Raws(a, caps);
    var states := States(raws);
    Conclude(policy, raws, states, Windows(raws), if policy == V2 then StableWindow(raws, states) else [])
  }

  method EvaluateCaptures(policy: Policy, a: Activation, caps: seq<Capture>) returns (r: Result<Evaluation, Attempt>)
    requires caps != []
    ensures r == if Reads(caps) == Fine then Ok(Evaluate(policy, a, caps)) else Err(Reads(caps))
  {
    var reading, raws := FoldCaptures(a, caps);
    if reading != Fine { return Err(reading); }
    var states, matched := Classify(raws);
    var window: seq<nat> := [];
    if policy == V2 {
      window := ScanRecovered(raws, states);
    }
    return Ok(Conclude(policy, raws, states, matched, window));
  }

  /** What a state after capture `i` says of the captures up to `i`, unless it is that of a stable window. */
  ghost predicate Classified(raws: seq<Raw>, i: nat, state: State)
    requires i < |raws|
  {
    var clean := raws[i].issues == {} && (i >= 1 ==> raws[i - 1].issues == {}) && (i >= 2 ==> raws[i - 2].issues == {});
    var falling := i >= 2 && Falls(raws[i - 2].capture) && Falls(raws[i - 1].capture) && Falls(raws[i].capture);
    match state
    case Unknown => !clean
    case Recovering => clean && falling
    case Active => clean && !falling
    case Recovered => clean && i >= 4
  }

  predicate Falls(c: Capture) { c.slope.Some? && c.slope.value < 0 }

  /** The issues of a capture without any say that PostgreSQL is ready and the rates are consistent. */
  lemma UsableRates(a: Activation, caps: seq<Capture>, i: nat)
    requires i < |caps| && Raws(a, caps)[i].issues == {}
    ensures Raws(a, caps)[i].capture == caps[i] && caps[i].postgresReady == Some(true)
    ensures RateArithmetic(caps[i]) == Some(true) && (Draining(caps[i]) <==> Falls(caps[i]))
  {
    hide Breaks, SourceIssues, TimingIssues, ActivationIssues;
    RawsAt(a, caps, i);
    var s := Fold(a, caps[..i]);
    assert EvidenceIssues(caps[i]) <= Raws(a, caps)[i].issues;
    assert PostgresNotAcceptable !in EvidenceIssues(caps[i]);
    assert RateMeasurementUnavailable !in EvidenceIssues(caps[i]) && RateArithmeticMismatch !in EvidenceIssues(caps[i]);
  }

  /** The state of the scan is UNKNOWN, RECOVERING or ACTIVE by the issues and slopes of captures `i - 2` to `i`. */
  lemma ScanClassifies(a: Activation, caps: seq<Capture>, i: nat)
    requires i < |caps|
    ensures Classified(Raws(a, caps), i, StateAt(Raws(a, caps), i)) && StateAt(Raws(a, caps), i) != Recovered
  {
    hide Draining, Raws;
    forall k | 0 <= k <= i ensures Raws(a, caps)[k].capture == caps[k] {
      RawsAt(a, caps, k);
    }
    forall k | 0 <= k <= i && Raws(a, caps)[k].issues == {}
      ensures Draining(Raws(a, caps)[k].capture) <==> Falls(Raws(a, caps)[k].capture)
    {
      UsableRates(a, caps, k);
    }
  }

  lemma AllClassified(policy: Policy, a: Activation, caps: seq<Capture>)
    requires caps != []
    ensures var e := Evaluate(policy, a, caps);
            forall i :: 0 <= i < |caps| ==> Classified(e.raws, i, e.states[i])
  {
    hide Raws, StateAt, StableWindow, Classified;
    var e := Evaluate(policy, a, caps);
    forall i | 0 <= i < |caps| ensures Classified(e.raws, i, e.states[i]) {
      ScanClassifies(a, caps, i);
      if e.states[i] == Recovered { RecoveredIsClassified(policy, a, caps, i); }
    }
  }

  lemma RecoveredIsClassified(policy: Policy, a: Activation, caps: seq<Capture>, i: nat)
    requires i < |caps| && Evaluate(policy, a, caps).states[i] == Recovered
    ensures Classified(Raws(a, caps), i, Recovered)
  {
    hide Raws, RateArithmetic, StateAt, StableWindow;
    ScanClassifies(a, caps, i);
    assert policy == V2 && i == |caps| - 1;
    RecoveredExactlyWhen(a, caps);
    RecoveredGuarantees(a, caps);
  }

  datatype Rejection =
    | InvalidIncident | NoCaptures | TooManyCaptures | DigestCount | MalformedDigest | Raised(reading: Attempt)

  predicate Sha256(s: string) { |s| == 64 && forall i :: 0 <= i < |s| ==> '0' <= s[i] <= '9' || 'a' <= s[i] <= 'f' }

  /** An acceptable request: a short incident, some captures but not too many, and one well-formed digest for each. */
  predicate Acceptable(incident: string, digests: seq<string>, count: nat) {
    1 <= |incident| <= 256 && 1 <= count <= MAX_CAPTURES && |digests| == count && forall d :: d in digests ==> Sha256(d)
  }

  method EvaluateRecovery(policy: Policy, a: Activation, incident: string, caps: seq<Capture>, digests: seq<string>)
    returns (r: Result<Evaluation, Rejection>)
    ensures r.Ok? <==> Acceptable(incident, digests, |caps|) && forall c :: c in caps ==> c.reading == Fine
    ensures r.Err? && r.error.Raised? <==> Acceptable(incident, digests, |caps|) && Reads(caps) != Fine
    ensures r.Err? && r.error.Raised? ==> r.error.reading == Reads(caps)
    ensures r.Ok? ==> r.value == Evaluate(policy, a, caps)
    ensures r.Ok? ==> forall i :: 0 <= i < |caps| ==> Classified(r.value.raws, i, r.value.states[i])
  {
    if incident == "" || |incident| > 256 { return Err(InvalidIncident); }
    if caps == [] { return Err(NoCaptures); }
    if |caps| > MAX_CAPTURES { return Err(TooManyCaptures); }
    if |digests| != |caps| { return Err(DigestCount); }
    if exists d :: d in digests && !Sha256(d) { return Err(MalformedDigest); }
    ReadsFine(caps);
    var evaluation := EvaluateCaptures(policy, a, caps);
    if evaluation.Err? { return Err(Raised(evaluation.error)); }
    AllClassified(policy, a, caps);
    return Ok(evaluation.value);
  }

  // --------------------------------------------------------------- causality

  lemma {:induction false} RawsAt(a: Activation, caps: seq<Capture>, i: nat)
    requires i < |caps|
    ensures Raws(a, caps)[i] == Observe(a, Fold(a, caps[..i]), caps[i])
    decreases |caps|
  {
    hide Observe, Advance;
    var n := |caps| - 1;
    if i < n {
      RawsAt(a, caps[..n], i);
      assert caps[..n][..i] == caps[..i];
    }
  }

  lemma RawsPrefix(a: Activation, caps: seq<Capture>, n: nat)
    requires n <= |caps|
    ensures Raws(a, caps[..n]) == Raws(a, caps)[..n]
  {
    forall i | 0 <= i < n ensures Raws(a, caps[..n])[i] == Raws(a, caps)[i] {
      RawsAt(a, caps[..n], i);
      RawsAt(a, caps, i);
      assert caps[..n][..i] == caps[..i];
    }
  }

  lemma StatesPrefix(a: Activation, caps: seq<Capture>, n: nat)
    requires n <= |caps|
    ensures States(Raws(a, caps[..n])) == States(Raws(a, caps))[..n]
  {
    RawsPrefix(a, caps, n);
    forall i | 0 <= i < n ensures StateAt(Raws(a, caps[..n]), i) == StateAt(Raws(a, caps), i) {
      StateAtPrefix(Raws(a, caps), n, i);
    }
  }

  /**
   Evaluating a prefix of the captures gives the prefix of the states: exactly under v1, up to the last state under v2,
   and there only by RECOVERED.
   */
  lemma Causality(policy: Policy, a: Activation, caps: seq<Capture>, n: nat)
    requires 0 < n <= |caps|
    ensures var part, whole := Evaluate(policy, a, caps[..n]).states, Evaluate(policy, a, caps).states;
            && |part| == n && |whole| == |caps|
            && (forall i :: 0 <= i < n - 1 ==> part[i] == whole[i])
            && (policy == V1 ==> part[n - 1] == whole[n - 1])
            && (part[n - 1] == whole[n - 1] || part[n - 1] == Recovered || (n == |caps| && whole[n - 1] == Recovered))
  {
    StatesPrefix(a, caps, n);
  }

  // --------------------------------------------------------------- what RECOVERED means

  lemma StableWindowMeans(raws: seq<Raw>, states: seq<State>)
    requires |raws| == |states|
    ensures var n := |raws|;
            StableWindow(raws, states) != [] <==>
              && n >= 3 && InEnvelope(raws[n - 3]) && InEnvelope(raws[n - 2]) && InEnvelope(raws[n - 1])
              && exists k :: 0 <= k <= n - 3 && states[k] == Recovering
  {
    hide InEnvelope;
    var n := |raws|;
    if n >= 3 && Seen(states, n - 2) {
      assert Seen(states, n - 1) && Seen(states, n);
    }
    if StableWindow(raws, states) != [] {
      assert Reenters(raws, states, n - 3) && Reenters(raws, states, n - 2) && Reenters(raws, states, n - 1);
    }
  }

  /**
   The override applies exactly when the last three captures are in the envelope and RECOVERING came by the first of
   them.
   */
  lemma RecoveredExactlyWhen(a: Activation, caps: seq<Capture>)
    requires caps != []
    ensures var raws, n := Raws(a, caps), |caps|;
            Evaluate(V2, a, caps).state == Recovered <==>
              && n >= 3 && InEnvelope(raws[n - 3]) && InEnvelope(raws[n - 2]) && InEnvelope(raws[n - 1])
              && exists k :: 0 <= k <= n - 3 && StateAt(raws, k) == Recovering
  {
    hide Raws, InEnvelope, StableWindow;
    var raws := Raws(a, caps);
    var states := States(raws);
    StableWindowMeans(raws, states);
    assert forall k :: 0 <= k < |raws| ==> states[k] == StateAt(raws, k) != Recovered;
  }

  lemma V1NeverRecovers(a: Activation, caps: seq<Capture>, i: nat)
    requires i < |caps|
    ensures Evaluate(V1, a, caps).states[i] != Recovered
  {}

  /** A usable capture has a Kafka timestamp 9 to 21 seconds after that of its predecessor. */
  lemma UsableCadence(a: Activation, caps: seq<Capture>, i: nat)
    requires 0 < i < |caps| && Raws(a, caps)[i].Usable()
    ensures caps[i - 1].kafkaSource.Some? && caps[i].kafkaSource.Some?
    ensures INTERVAL_MIN <= caps[i].kafkaSource.value - caps[i - 1].kafkaSource.value <= INTERVAL_MAX
  {
    hide Breaks, SourceIssues, EvidenceIssues, ActivationIssues;
    RawsAt(a, caps, i);
    assert caps[..i][..i - 1] == caps[..i - 1];
    var s := Fold(a, caps[..i]);
    assert TimingIssues(a, s, caps[i]) <= Raws(a, caps)[i].issues;
  }

  /**
   RECOVERED needs five captures; it never overrides UNKNOWN, reports the last three indexes, and their Kafka timestamps
   span 18 to 42 seconds.
   */
  lemma RecoveredGuarantees(a: Activation, caps: seq<Capture>)
    requires caps != [] && Evaluate(V2, a, caps).state == Recovered
    ensures |caps| >= 5
    ensures var e, n := Evaluate(V2, a, caps), |caps|;
            && StateAt(e.raws, n - 1) != Unknown
            && e.evaluated == [n - 3, n - 2, n - 1]
            && e.completion == Complete
            && caps[n - 3].kafkaSource.Some? && caps[n - 1].kafkaSource.Some?
            && 18_000_000 <= caps[n - 1].kafkaSource.value - caps[n - 3].kafkaSource.value <= 42_000_000
  {
    hide Observe, Advance, Raws, Draining, Reenters;
    RecoveredExactlyWhen(a, caps);
    var raws, n := Raws(a, caps), |caps|;
    var k :| 0 <= k <= n - 3 && StateAt(raws, k) == Recovering;
    assert k >= 2;
    StableWindowMeans(raws, States(raws));
    UsableCadence(a, caps, n - 1);
    UsableCadence(a, caps, n - 2);
  }

  /** With consistent arithmetic, the committed-rate guards follow: strictly while draining. */
  lemma CommittedGuardIsImplied(c: Capture)
    requires RateArithmetic(c) == Some(true)
    ensures Draining(c) <==> c.slope.value < 0
    ensures Draining(c) ==> c.committed.value > c.produce.value
    ensures c.slope.value <= 0 <==> c.committed.value >= c.produce.value
  {}

  // --------------------------------------------------------------- integrity

  lemma {:induction false} BrokenForever(a: Activation, caps: seq<Capture>, m: nat, n: nat)
    requires m <= n <= |caps| && Fold(a, caps[..m]).broken
    ensures Fold(a, caps[..n]).broken
    decreases n - m
  {
    hide CaptureIssues, Breaks;
    if m < n {
      BrokenForever(a, caps, m, n - 1);
      assert caps[..n][..n - 1] == caps[..n - 1];
    }
  }

  /** From the first capture with a global integrity issue on, every capture is unusable and UNKNOWN. */
  lemma IntegrityLossIsPermanent(a: Activation, caps: seq<Capture>, i: nat, j: nat)
    requires i <= j < |caps|
    requires Breaks(Raws(a, caps)[i].issues) || ActivationIssues(a) != {}
    ensures !Raws(a, caps)[j].Usable() && StateAt(Raws(a, caps), j) == Unknown
    ensures SequenceIntegrityBroken in Raws(a, caps)[j].issues
  {
    hide CaptureIssues, ActivationIssues, Raws;
    RawsAt(a, caps, i);
    RawsAt(a, caps, j);
    assert caps[..i + 1][..i] == caps[..i];
    assert caps[..0] == [];
    if ActivationIssues(a) != {} {
      BrokenForever(a, caps, 0, j);
    } else {
      assert Breaks(CaptureIssues(a, Fold(a, caps[..i]), caps[i]));
      assert Fold(a, caps[..i + 1]).broken;
      if i < j { BrokenForever(a, caps, i + 1, j); }
    }
  }

  /** What an unbroken stream says about an earlier capture `i`. */
  ghost predicate Continues(s: Stream, c: Capture) {
    && c.completedAt <= s.completedAt
    && (c.offsets != map[] ==> s.offsets.Some? && OffsetsContinue(c.offsets, s.offsets.value))
  }

  lemma {:induction false} UnbrokenContinues(a: Activation, caps: seq<Capture>, i: nat, n: nat)
    requires i < n <= |caps| && !Fold(a, caps[..n]).broken
    ensures Continues(Fold(a, caps[..n]), caps[i])
    decreases n
  {
    hide CaptureIssues, Breaks;
    assert caps[..n][..n - 1] == caps[..n - 1];
    if i < n - 1 {
      UnbrokenContinues(a, caps, i, n - 1);
      UnbrokenStep(a, Fold(a, caps[..n - 1]), caps[n - 1]);
    }
  }

  /** A capture that does not break the stream completes later than the last one and continues its offsets. */
  lemma UnbrokenStep(a: Activation, s: Stream, c: Capture)
    requires !Advance(a, s, c).broken
    ensures !s.broken && c.startedAt > a.lastCompletedAt && c.completedAt > s.completedAt
    ensures s.offsets.Some? ==> OffsetsContinue(s.offsets.value, c.offsets)
  {
    var issues := CaptureIssues(a, s, c);
    assert CaptureNotPostActivation !in issues;
    assert CollectionTimestampsReordered !in issues;
    assert OffsetDecreaseOrReset !in issues;
  }

  lemma OffsetsTransitive(x: map<string, Offsets>, y: map<string, Offsets>, z: map<string, Offsets>)
    requires OffsetsContinue(x, y) && OffsetsContinue(y, z)
    ensures OffsetsContinue(x, z)
  {}

  /**
   Before any loss of integrity: completion times strictly increase after the activation, and of two captures with
   offsets the later one has partitions of the earlier one only and neither of its offsets decreased.
   */
  lemma UnbrokenHistory(a: Activation, caps: seq<Capture>, i: nat, j: nat)
    requires i < j < |caps| && !Fold(a, caps[..j + 1]).broken
    ensures a.lastCompletedAt < caps[i].completedAt < caps[j].completedAt
    ensures caps[i].offsets != map[] ==> OffsetsContinue(caps[i].offsets, caps[j].offsets)
  {
    hide CaptureIssues, Breaks, OffsetsContinue;
    assert caps[..j + 1][..j] == caps[..j];
    UnbrokenStep(a, Fold(a, caps[..j]), caps[j]);
    UnbrokenContinues(a, caps, i, j);
    if caps[i].offsets != map[] {
      OffsetsTransitive(caps[i].offsets, Fold(a, caps[..j]).offsets.value, caps[j].offsets);
    }
    FirstIsLater(a, caps[..i + 1]) by {
      if Fold(a, caps[..i + 1]).broken { BrokenForever(a, caps, i + 1, j); }
    }
  }

  lemma {:induction false} FirstIsLater(a: Activation, caps: seq<Capture>)
    requires caps != [] && !Fold(a, caps).broken
    ensures a.lastCompletedAt < caps[|caps| - 1].completedAt
    decreases |caps|
  {
    hide CaptureIssues, Breaks, OffsetsContinue;
    var front := caps[..|caps| - 1];
    UnbrokenStep(a, Fold(a, front), caps[|caps| - 1]);
    if front != [] { FirstIsLater(a, front); }
  }
}
