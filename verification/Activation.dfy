/**
 Backlog activation over a sequence of captures: the production rule (`_capture` and `_core_sequence_result`,
 ops_agent/sequence_evaluator.py) and the calibration candidate (`evaluate_pressure_activation_candidate`,
 ops_agent/calibration.py), two implementations of one three-capture rule.
 */
module Activation {
  import opened Prelude
  import opened KafkaLag
  import opened Measurement
  import opened Calibration

  const WIDTH := 3
  const LAG_FLOOR := 7000
  const SLOPE_FLOOR := 100.0
  const RATE_TOLERANCE := 0.001

  /** A bundle, with its scope check decided; `endpoint` is its endpoint identity with scope and versions, if usable. */
  datatype Capture = Capture(
    bundle: Bundle, compatible: bool, endpoint: Option<string>, startedAt: int, completedAt: int, v1: bool)

  /** The digested parts of a source identity. */
  datatype Identity = Identity(endpoint: string, exporter: string, partitions: set<string>)

  datatype Observation = Observation(
    usable: bool, identity: Option<Identity>, partitions: set<string>, kafkaTime: Option<int>,
    startedAt: int, completedAt: int,
    totalLag: Option<int>, meetsLag: Option<bool>, meetsSlope: Option<bool>, consistent: Option<bool>)

  /** Python's `int` of a number: towards zero. */
  function Truncated(v: real): int { if v >= 0.0 then v.Floor else -(-v).Floor }

  /** The items that `_source_identity` reads. */
  function OkItems(items: seq<Item>): seq<Item> {
    if items == [] then []
    else OkItems(items[..|items| - 1]) + if items[|items| - 1].ok then [items[|items| - 1]] else []
  }

  function Sources(b: Bundle): seq<Item> { OkItems(b.end + b.committed + b.lag) }

  ghost function KafkaTimeOf(c: Capture): Option<int> {
    Only(set x | x in Sources(c.bundle) && x.sourceTime.Some? :: x.sourceTime.value)
  }

  ghost function IdentityOf(c: Capture): Option<Identity> {
    var exporter := Only(set x | x in Sources(c.bundle) :: x.exporter);
    if c.endpoint.Some? && exporter.Some? && KafkaTimeOf(c).Some?
    then Some(Identity(c.endpoint.value, exporter.value, Observed(Sources(c.bundle)))) else None
  }

  predicate Accepted(c: Capture) { c.compatible && CoreIssues(c.bundle) == {} }

  /** `_measurement` is asked only about a compatible bundle whose evidence has no issue. */
  function Asked(c: Capture, order: seq<string>): Reading
    requires Orders(order, PARTITIONS)
  {
    if Accepted(c) then
      CleanBundleIsMeasured(c.bundle, order);
      ReadingOf(c.bundle, order)
    else Reading(None, {})
  }

  ghost function Observe(c: Capture, order: seq<string>): Observation
    requires Orders(order, PARTITIONS)
  {
    var Reading(m, problems) := Asked(c, order);
    Observation(
      Accepted(c) && m.Some? && IdentityOf(c).Some? && problems == {},
      IdentityOf(c), Observed(Sources(c.bundle)), KafkaTimeOf(c), c.startedAt, c.completedAt,
      if m.Some? then Some(Truncated(m.value.totalLag)) else None,
      if m.Some? then Some(Truncated(m.value.totalLag) >= LAG_FLOOR) else None,
      if m.Some? then Some(m.value.slope >= SLOPE_FLOOR) else None,
      if m.Some? then Some(m.value.consistent) else None)
  }

  // --------------------------------------------------------------- the production rule

  datatype Trouble =
    | CaptureCountInsufficient | EvidenceUnusable | CaptureTimesNotIncreasing | KafkaTimesNotIncreasing
    | SourceIdentityMismatch | PartitionSetsDiffer | RateArithmeticMismatch

  predicate CaptureTimesIncrease(obs: seq<Observation>) {
    forall i :: 0 < i < |obs| ==> obs[i - 1].startedAt < obs[i].startedAt && obs[i - 1].completedAt < obs[i].completedAt
  }

  predicate KafkaTimesIncrease(obs: seq<Observation>) {
    && (forall i :: 0 <= i < |obs| ==> obs[i].kafkaTime.Some?)
    && forall i :: 0 < i < |obs| ==> obs[i - 1].kafkaTime.value < obs[i].kafkaTime.value
  }

  function Troubles(obs: seq<Observation>): set<Trouble> {
    Unless(|obs| >= WIDTH, CaptureCountInsufficient)
    + Unless(forall o :: o in obs ==> o.usable, EvidenceUnusable)
    + Unless(CaptureTimesIncrease(obs), CaptureTimesNotIncreasing)
    + Unless(KafkaTimesIncrease(obs), KafkaTimesNotIncreasing)
    + Unless((forall o :: o in obs ==> o.identity.Some?) && |set o | o in obs :: o.identity| == 1,
             SourceIdentityMismatch)
    + Unless(|set o | o in obs :: o.partitions| == 1, PartitionSetsDiffer)
    + Unless(forall o :: o in obs ==> o.consistent == Some(true), RateArithmeticMismatch)
  }

  predicate Qualifies(o: Observation) { o.meetsLag == Some(true) && o.meetsSlope == Some(true) }

  predicate Grew(before: Observation, after: Observation) {
    before.totalLag.Some? && after.totalLag.Some? ==> before.totalLag.value < after.totalLag.value
  }

  predicate Triple(a: Observation, b: Observation, c: Observation) {
    Qualifies(a) && Qualifies(b) && Qualifies(c) && Grew(a, b) && Grew(b, c)
  }

  /** The captures at start, start + 1 and start + 2 qualify and their lag increases. */
  predicate Matches(obs: seq<Observation>, start: nat) {
    start + WIDTH <= |obs| && Triple(obs[start], obs[start + 1], obs[start + 2])
  }

  function Matcher(obs: seq<Observation>): nat -> bool { (start: nat) => Matches(obs, start) }

  /** The matching window starts below n, ascending. */
  function Starts(n: nat, matches: nat -> bool): seq<nat> {
    if n == 0 then [] else Starts(n - 1, matches) + if matches(n - 1) then [n - 1] else []
  }

  function StartCount(captures: nat): nat { if captures >= WIDTH then captures - WIDTH + 1 else 0 }

  function MatchedStarts(obs: seq<Observation>): seq<nat> { Starts(StartCount(|obs|), Matcher(obs)) }

  datatype Verdict = Verdict(state: ConditionState, troubles: set<Trouble>, starts: seq<nat>)

  function VerdictOf(obs: seq<Observation>, base: ConditionState): Verdict {
    var troubles := Troubles(obs);
    if troubles != {} then Verdict(Unknown, troubles, [])
    else if MatchedStarts(obs) != [] then Verdict(Present, {}, MatchedStarts(obs))
    else Verdict(if base == Absent then Absent else Unknown, {}, [])
  }

  method CoreSequence(obs: seq<Observation>, base: ConditionState) returns (r: Verdict)
    ensures r == VerdictOf(obs, base)
  {
    hide Troubles;
    var troubles := Troubles(obs);
    var starts: seq<nat> := [];
    if troubles == {} {
      for start := 0 to StartCount(|obs|)
        invariant starts == Starts(start, Matcher(obs))
      {
        var window := obs[start..start + WIDTH];
        var qualifies := forall o :: o in window ==> Qualifies(o);
        var increasing := forall i :: 0 < i < WIDTH ==> Grew(window[i - 1], window[i]);
        WindowMatches(obs, start);
        if qualifies && increasing { starts := starts + [start]; }
      }
    }
    var state := if troubles != {} then Unknown
                 else if starts != [] then Present
                 else if base == Absent then Absent else Unknown;
    r := Verdict(state, troubles, starts);
  }

  lemma WindowMatches(obs: seq<Observation>, start: nat)
    requires start + WIDTH <= |obs|
    ensures var window := obs[start..start + WIDTH];
            Matches(obs, start)
            <==> && (forall o :: o in window ==> Qualifies(o))
                 && forall i :: 0 < i < WIDTH ==> Grew(window[i - 1], window[i])
  {
    hide Qualifies, Grew;
    var window := obs[start..start + WIDTH];
    assert window == [obs[start], obs[start + 1], obs[start + 2]];
    assert window[0] in window && window[1] in window && window[2] in window;
    if forall i :: 0 < i < WIDTH ==> Grew(window[i - 1], window[i]) {
      assert Grew(window[1 - 1], window[1]) && Grew(window[2 - 1], window[2]);
    }
  }

  // --------------------------------------------------------------- the calibration candidate

  /** A sample without a Kafka mapping is None. */
  type CandidateSample = Option<Summary>

  predicate UsableSample(x: CandidateSample) {
    && x.Some?
    && x.value.totalLag.Some? && x.value.slope.Some? && x.value.produce.Some? && x.value.committed.Some?
    && x.value.window == Some(SPAN) && x.value.rows == PARTITION_COUNT && x.value.anomalies == {}
  }

  function Abs(v: real): real { if v < 0.0 then -v else v }

  predicate Met(x: CandidateSample) {
    && UsableSample(x)
    && x.value.totalLag.value >= LAG_FLOOR as real
    && Abs(x.value.produce.value - x.value.committed.value - x.value.slope.value) <= RATE_TOLERANCE
    && x.value.slope.value >= SLOPE_FLOOR
  }

  predicate CandidateTriple(a: CandidateSample, b: CandidateSample, c: CandidateSample) {
    Met(a) && Met(b) && Met(c) && a.value.totalLag.value < b.value.totalLag.value < c.value.totalLag.value
  }

  predicate CandidateMatches(samples: seq<CandidateSample>, start: nat) {
    start + WIDTH <= |samples| && CandidateTriple(samples[start], samples[start + 1], samples[start + 2])
  }

  function CandidateMatcher(samples: seq<CandidateSample>): nat -> bool {
    (start: nat) => CandidateMatches(samples, start)
  }

  function CandidateStarts(samples: seq<CandidateSample>): seq<nat> {
    Starts(StartCount(|samples|), CandidateMatcher(samples))
  }

  function UsableCount(samples: seq<CandidateSample>): nat {
    if samples == [] then 0
    else UsableCount(samples[..|samples| - 1]) + if UsableSample(samples[|samples| - 1]) then 1 else 0
  }

  datatype CandidateResult = Found | NotFound | Indeterminate

  /** What one sample contributes: its lag when usable, and whether it meets the candidate. */
  datatype CandidateObservation = CandidateObservation(lag: Option<real>, met: bool)

  function CandidateObserve(x: CandidateSample): CandidateObservation {
    if UsableSample(x) then CandidateObservation(x.value.totalLag, Met(x)) else CandidateObservation(None, false)
  }

  method Candidate(samples: seq<CandidateSample>) returns (result: CandidateResult, starts: seq<nat>)
    ensures starts == CandidateStarts(samples)
    ensures result == if starts != [] then Found else if UsableCount(samples) >= WIDTH then NotFound else Indeterminate
  {
    hide UsableSample, Met, CandidateTriple, CandidateObserve;
    var observations: seq<CandidateObservation> := [];
    var usable := 0;
    for k := 0 to |samples|
      invariant |observations| == k && forall j :: 0 <= j < k ==> observations[j] == CandidateObserve(samples[j])
      invariant usable == UsableCount(samples[..k])
    {
      assert samples[..k + 1][..k] == samples[..k];
      if UsableSample(samples[k]) { usable := usable + 1; }
      observations := observations + [CandidateObserve(samples[k])];
    }
    assert samples[..|samples|] == samples;
    starts := [];
    for start := 0 to StartCount(|observations|)
      invariant starts == Starts(start, CandidateMatcher(samples))
    {
      var a, b, c := observations[start], observations[start + 1], observations[start + 2];
      CandidateWindow(samples[start], samples[start + 1], samples[start + 2]);
      if a.met && b.met && c.met {
        if a.lag.value < b.lag.value < c.lag.value { starts := starts + [start]; }
      }
    }
    result := if starts != [] then Found else if usable >= WIDTH then NotFound else Indeterminate;
  }

  lemma CandidateWindow(x: CandidateSample, y: CandidateSample, z: CandidateSample)
    ensures var a, b, c := CandidateObserve(x), CandidateObserve(y), CandidateObserve(z);
            && (a.met ==> a.lag.Some?) && (b.met ==> b.lag.Some?) && (c.met ==> c.lag.Some?)
            && (CandidateTriple(x, y, z) <==> a.met && b.met && c.met && a.lag.value < b.lag.value < c.lag.value)
  {}

  // --------------------------------------------------------------- agreement

  ghost function SampleOf(c: Capture, order: seq<string>): CandidateSample
    requires Orders(order, PARTITIONS)
  {
    Some(SummaryOf(c.bundle, order, c.v1))
  }

  ghost function Observations(captures: seq<Capture>, order: seq<string>): seq<Observation>
    requires Orders(order, PARTITIONS)
  {
    seq(|captures|, i requires 0 <= i < |captures| => Observe(captures[i], order))
  }

  ghost function Samples(captures: seq<Capture>, order: seq<string>): seq<CandidateSample>
    requires Orders(order, PARTITIONS)
  {
    seq(|captures|, i requires 0 <= i < |captures| => SampleOf(captures[i], order))
  }

  lemma IntegralLag(v: real)
    requires Integral(v)
    ensures Truncated(v) as real == v
  {
    if v < 0.0 { assert -v == (-v.Floor) as real; }
  }

  /** What the two implementations see of a usable capture. */
  lemma CaptureAgrees(c: Capture, order: seq<string>)
    requires Orders(order, PARTITIONS) && Observe(c, order).usable
    ensures CoreIssues(c.bundle) == {}
    ensures var o, x, m := Observe(c, order), SampleOf(c, order), Expected(c.bundle, order);
            && UsableSample(x) && x.value.totalLag.value == m.totalLag
            && o.totalLag.Some? && o.totalLag.value as real == m.totalLag && (Met(x) <==> Qualifies(o))
            && (Qualifies(o) <==> m.totalLag >= LAG_FLOOR as real && m.slope >= SLOPE_FLOOR)
            && m.produce == m.committed + m.slope && m.committed >= 0.0
  {
    hide CoreIssues, Orders, ReadingOf, SummaryOf, Sum, Changes, Latests, Truncated, Integral, IdentityOf, KafkaTimeOf,
         Sources, Observed;
    CleanBundleIsMeasured(c.bundle, order);
    SummaryAgrees(c.bundle, order, c.v1);
    OrderCovers(order);
    LagIsConserved(c.bundle, order);
    IntegralLag(Sum(order, Latests(c.bundle.lag)));
  }

  lemma OrderCovers(order: seq<string>)
    requires Orders(order, PARTITIONS)
    ensures forall p :: p in order ==> p in PARTITIONS
  {}

  lemma TripleAgrees(a: Capture, b: Capture, c: Capture, order: seq<string>)
    requires Orders(order, PARTITIONS)
    requires Observe(a, order).usable && Observe(b, order).usable && Observe(c, order).usable
    ensures Triple(Observe(a, order), Observe(b, order), Observe(c, order))
            <==> CandidateTriple(SampleOf(a, order), SampleOf(b, order), SampleOf(c, order))
  {
    hide Met, Qualifies, Observe, SampleOf, Orders, UsableSample, CoreIssues, Expected;
    CaptureAgrees(a, order);
    CaptureAgrees(b, order);
    CaptureAgrees(c, order);
    MetIsUsable(SampleOf(a, order));
    MetIsUsable(SampleOf(b, order));
    MetIsUsable(SampleOf(c, order));
  }

  lemma MetIsUsable(x: CandidateSample)
    ensures UsableSample(x) ==> x.Some? && x.value.totalLag.Some?
  {}

  lemma WindowAgrees(captures: seq<Capture>, order: seq<string>, start: nat)
    requires Orders(order, PARTITIONS) && forall i :: 0 <= i < |captures| ==> Observe(captures[i], order).usable
    ensures Matches(Observations(captures, order), start) <==> CandidateMatches(Samples(captures, order), start)
  {
    hide Triple, CandidateTriple, Observe, SampleOf, Orders;
    if start + WIDTH <= |captures| { TripleAgrees(captures[start], captures[start + 1], captures[start + 2], order); }
  }

  lemma {:induction false} SameStarts(n: nat, p: nat -> bool, q: nat -> bool)
    requires forall i: nat :: i < n ==> p(i) == q(i)
    ensures Starts(n, p) == Starts(n, q)
  {
    if n > 0 { SameStarts(n - 1, p, q); }
  }

  lemma NoTroubleIsUsable(captures: seq<Capture>, order: seq<string>)
    requires Orders(order, PARTITIONS) && Troubles(Observations(captures, order)) == {}
    ensures |captures| >= WIDTH && KafkaTimesIncrease(Observations(captures, order))
    ensures forall i :: 0 <= i < |captures| ==> Observe(captures[i], order).usable
  {
    hide Observe, CaptureTimesIncrease, KafkaTimesIncrease, Orders;
    var obs := Observations(captures, order);
    assert Troubles(obs) !! {CaptureCountInsufficient, EvidenceUnusable, KafkaTimesNotIncreasing};
    forall i | 0 <= i < |captures| ensures Observe(captures[i], order).usable { assert obs[i] in obs; }
  }

  /** Without a recorded problem both implementations find the same windows. */
  lemma RulesFindTheSameWindows(captures: seq<Capture>, order: seq<string>)
    requires Orders(order, PARTITIONS) && Troubles(Observations(captures, order)) == {}
    ensures MatchedStarts(Observations(captures, order)) == CandidateStarts(Samples(captures, order))
  {
    hide Matches, CandidateMatches, Troubles, Observe, SampleOf, Orders;
    NoTroubleIsUsable(captures, order);
    var obs, samples := Observations(captures, order), Samples(captures, order);
    forall i: nat | i < StartCount(|captures|) ensures Matches(obs, i) == CandidateMatches(samples, i) {
      WindowAgrees(captures, order, i);
    }
    SameStarts(StartCount(|captures|), Matcher(obs), CandidateMatcher(samples));
  }

  /** Production says PRESENT exactly when the sequence has no problem and the candidate finds a window. */
  lemma PresentExactlyWhenCandidateFinds(captures: seq<Capture>, order: seq<string>, base: ConditionState)
    requires Orders(order, PARTITIONS)
    ensures var obs := Observations(captures, order);
            VerdictOf(obs, base).state == Present <==>
              Troubles(obs) == {} && CandidateStarts(Samples(captures, order)) != []
  {
    hide Troubles, MatchedStarts, CandidateStarts, Observations, Samples, Orders;
    if Troubles(Observations(captures, order)) == {} { RulesFindTheSameWindows(captures, order); }
  }

  lemma {:induction false} StartsMember(n: nat, matches: nat -> bool, start: nat)
    ensures start in Starts(n, matches) <==> start < n && matches(start)
  {
    if n > 0 { StartsMember(n - 1, matches, start); }
  }

  function LagOf(c: Capture, order: seq<string>): real { Sum(order, Latests(c.bundle.lag)) }

  function LagGrowth(c: Capture, order: seq<string>): real { Sum(order, Changes(c.bundle.lag)) }

  function ProducedIn(c: Capture, order: seq<string>): real { Sum(order, Changes(c.bundle.end)) }

  /**
   A capture of an activation window: at least 7000 records behind, 6000 of them gained and produced within its 60 s.
   */
  ghost predicate Pressed(c: Capture, order: seq<string>) {
    && CoreIssues(c.bundle) == {}
    && LagOf(c, order) >= 7000.0 && LagGrowth(c, order) >= 6000.0 && ProducedIn(c, order) >= 6000.0
  }

  lemma QualifiedIsPressed(c: Capture, order: seq<string>)
    requires Orders(order, PARTITIONS) && Observe(c, order).usable && Qualifies(Observe(c, order))
    ensures Pressed(c, order)
    ensures Observe(c, order).totalLag.Some? && Observe(c, order).totalLag.value as real == LagOf(c, order)
  {
    hide Orders, Observe, SampleOf, Qualifies, Sum, Changes, Latests, CoreIssues, Met, UsableSample;
    CaptureAgrees(c, order);
  }

  /** Every window behind a PRESENT verdict: three pressed captures, later ones with later Kafka data and more lag. */
  lemma PresentMeansPressure(captures: seq<Capture>, order: seq<string>, base: ConditionState)
    requires Orders(order, PARTITIONS) && VerdictOf(Observations(captures, order), base).state == Present
    ensures var starts := VerdictOf(Observations(captures, order), base).starts;
            starts != [] && forall s: nat :: s in starts ==> PressureFrom(captures, order, s)
  {
    hide Orders, Troubles, Observe, Matches, KafkaTimesIncrease, PressureFrom;
    var obs := Observations(captures, order);
    NoTroubleIsUsable(captures, order);
    forall s: nat | s in MatchedStarts(obs) ensures PressureFrom(captures, order, s) {
      StartsMember(StartCount(|obs|), Matcher(obs), s);
      MatchIsPressure(captures, order, s);
    }
  }

  /** The later capture has later Kafka data and more lag. */
  ghost predicate Worsened(before: Capture, after: Capture, order: seq<string>) {
    && LagOf(before, order) < LagOf(after, order)
    && KafkaTimeOf(before).Some? && KafkaTimeOf(after).Some? && KafkaTimeOf(before).value < KafkaTimeOf(after).value
  }

  ghost predicate PressureFrom(captures: seq<Capture>, order: seq<string>, s: nat) {
    && s + WIDTH <= |captures|
    && Pressed(captures[s], order) && Pressed(captures[s + 1], order) && Pressed(captures[s + 2], order)
    && Worsened(captures[s], captures[s + 1], order) && Worsened(captures[s + 1], captures[s + 2], order)
  }

  lemma MatchIsPressure(captures: seq<Capture>, order: seq<string>, s: nat)
    requires Orders(order, PARTITIONS) && Matches(Observations(captures, order), s)
    requires forall i :: 0 <= i < |captures| ==> Observe(captures[i], order).usable
    requires KafkaTimesIncrease(Observations(captures, order))
    ensures PressureFrom(captures, order, s)
  {
    hide Orders, Pressed, LagOf, Qualifies, Observe;
    var obs := Observations(captures, order);
    QualifiedIsPressed(captures[s], order);
    QualifiedIsPressed(captures[s + 1], order);
    QualifiedIsPressed(captures[s + 2], order);
    KeepsKafkaTime(captures[s], order);
    KeepsKafkaTime(captures[s + 1], order);
    KeepsKafkaTime(captures[s + 2], order);
    assert obs[s + 1 - 1] == obs[s] && obs[s + 2 - 1] == obs[s + 1];
  }

  lemma KeepsKafkaTime(c: Capture, order: seq<string>)
    requires Orders(order, PARTITIONS)
    ensures Observe(c, order).kafkaTime == KafkaTimeOf(c)
  {}

  // --------------------------------------------------------------- the whole sequence

  datatype Evaluation = Evaluation(core: Verdict, noBacklog: ConditionState)

  function LastCompatible(captures: seq<Capture>): Option<Capture> {
    if captures == [] then None
    else if captures[|captures| - 1].compatible then Some(captures[|captures| - 1])
    else LastCompatible(captures[..|captures| - 1])
  }

  /**
   `evaluate_bundle_sequence`: the conditions of the last compatible capture, with CORE replaced by the sequence's.
   */
  ghost function EvaluateSequence(captures: seq<Capture>, order: seq<string>): Option<Evaluation>
    requires Orders(order, PARTITIONS)
  {
    var latest := LastCompatible(captures);
    if latest.None? then None
    else
      var core := VerdictOf(Observations(captures, order), CoreState(latest.value.bundle));
      Some(Evaluation(core, NoBacklog(core.state, ConcentrationState(latest.value.bundle))))
  }

  /**
   In a sequence NO_BACKLOG is exactly the negation of CORE: ABSENT for PRESENT, PRESENT for ABSENT, UNKNOWN for
   UNKNOWN.
   */
  lemma SequenceNoBacklog(captures: seq<Capture>, order: seq<string>)
    requires Orders(order, PARTITIONS) && EvaluateSequence(captures, order).Some?
    ensures var e := EvaluateSequence(captures, order).value;
            && (e.noBacklog == Absent <==> e.core.state == Present)
            && (e.noBacklog == Present <==> e.core.state == Absent)
  {
    hide CoreState, ConcentrationState, Observations, Troubles, MatchedStarts, Orders;
    NoBacklogExactlyWhenCoreAbsent(LastCompatible(captures).value.bundle);
  }
}
