/**
 The v3 diagnosis contract: decision model, evidence-role validator and deterministic checklist
 (ops_agent/diagnosis_v3_models.py, diagnosis_v3_validator.py, diagnosis_quality_v3.py).

 Whether gap texts carry a forbidden claim is a parameter.
 */
module DiagnosisV3 {
  import opened Prelude

  // --------------------------------------------------------------- evidence

  datatype Tool = StageLatency | PostgresHealth | ReplicaStatus | KedaStatus | OtherTool(name: string)

  datatype Flag =
    | AboveBaseline | WithinBaseline | CapacityShortfall | CapacityAvailable | PostgresDegraded | PostgresHealthy
    | OtherFlag(name: string)

  datatype Evidence = Evidence(id: string, tool: Tool, ok: bool, recent: bool, flag: Option<Flag>)

  datatype Rule = Rule(tool: Tool, flag: Flag)

  predicate Measures(e: Evidence, rule: Rule) { e.ok && e.recent && e.tool == rule.tool && e.flag == Some(rule.flag) }

  datatype Signal = StageElevated | ReplicaShortfall | GuardrailDegraded

  const SIGNALS := [StageElevated, ReplicaShortfall, GuardrailDegraded]

  datatype Cause =
    | WorkerCapacity | PostgresPressure | HotKey | PoisonRecord | SequenceContention | ConsumerRebalance

  const RULED_CAUSES := [WorkerCapacity, PostgresPressure]

  datatype Support = Supported | Insufficient | Conflicted

  function SignalRule(s: Signal): Rule {
    match s
    case StageElevated => Rule(StageLatency, AboveBaseline)
    case ReplicaShortfall => Rule(ReplicaStatus, CapacityShortfall)
    case GuardrailDegraded => Rule(PostgresHealth, PostgresDegraded)
  }

  function NegativeFlag(s: Signal): Flag {
    match s
    case StageElevated => WithinBaseline
    case ReplicaShortfall => CapacityAvailable
    case GuardrailDegraded => PostgresHealthy
  }

  predicate Ruled(c: Cause) { c.WorkerCapacity? || c.PostgresPressure? }

  function SupportRule(c: Cause): Rule
    requires Ruled(c)
  {
    if c.WorkerCapacity? then Rule(ReplicaStatus, CapacityShortfall) else Rule(PostgresHealth, PostgresDegraded)
  }

  function ConflictRule(c: Cause): Rule
    requires Ruled(c)
  {
    if c.WorkerCapacity? then Rule(ReplicaStatus, CapacityAvailable) else Rule(PostgresHealth, PostgresHealthy)
  }

  // --------------------------------------------------------------- decisions

  datatype ObservedSignal = ObservedSignal(signal: Signal, evidenceIds: seq<string>)

  datatype Candidate = Candidate(cause: Cause, status: Support, supporting: seq<string>, conflicting: seq<string>,
                                 gaps: seq<string>)

  datatype Decision = Decision(observations: seq<ObservedSignal>, hypotheses: seq<Candidate>, context: seq<string>,
                               gaps: seq<string>, supportedCandidates: bool)

  function Members<T(==)>(s: seq<T>): set<T> { set x | x in s }

  predicate Unique<T(==)>(s: seq<T>) { forall i, j :: 0 <= i < j < |s| ==> s[i] != s[j] }

  predicate ShortIds(ids: seq<string>, min: nat, max: nat) {
    min <= |ids| <= max && forall id :: id in ids ==> 1 <= |id| <= 256
  }

  predicate ShortCodes(codes: seq<string>, max: nat) {
    |codes| <= max && forall code :: code in codes ==> 1 <= |code| <= 128
  }

  function SignedIds(hypotheses: seq<Candidate>): set<string> {
    set h, id | h in hypotheses && id in h.supporting + h.conflicting :: id
  }

  predicate WellFormedObservation(o: ObservedSignal) { ShortIds(o.evidenceIds, 1, 16) && Unique(o.evidenceIds) }

  predicate WellFormedCandidate(h: Candidate) {
    && ShortIds(h.supporting, 0, 32) && Unique(h.supporting)
    && ShortIds(h.conflicting, 0, 32) && Unique(h.conflicting)
    && ShortCodes(h.gaps, 16)
    && (forall id :: id in h.supporting ==> id !in h.conflicting)
  }

  predicate DistinctSignals(observations: seq<ObservedSignal>) {
    forall i, j :: 0 <= i < j < |observations| ==> observations[i].signal != observations[j].signal
  }

  predicate DistinctCauses(hypotheses: seq<Candidate>) {
    forall i, j :: 0 <= i < j < |hypotheses| ==> hypotheses[i].cause != hypotheses[j].cause
  }

  predicate WellFormedObservations(observations: seq<ObservedSignal>) {
    |observations| <= 8 && DistinctSignals(observations) && forall o :: o in observations ==> WellFormedObservation(o)
  }

  predicate WellFormedHypotheses(hypotheses: seq<Candidate>) {
    |hypotheses| <= 8 && DistinctCauses(hypotheses) && forall h :: h in hypotheses ==> WellFormedCandidate(h)
  }

  predicate WellFormedContext(context: seq<string>, signed: set<string>) {
    ShortIds(context, 0, 64) && Unique(context) && forall id :: id in context ==> id !in signed
  }

  /** What the decision model accepts: list limits and the unique-roles validator. */
  predicate WellFormed(d: Decision) {
    && WellFormedObservations(d.observations)
    && WellFormedHypotheses(d.hypotheses)
    && WellFormedContext(d.context, SignedIds(d.hypotheses))
    && ShortCodes(d.gaps, 32)
  }

  function Citations(d: Decision): set<string> {
    Members(d.context)
    + (set o, id | o in d.observations && id in o.evidenceIds :: id)
    + SignedIds(d.hypotheses)
  }

  function ObservedSignals(d: Decision): set<Signal> { set o | o in d.observations :: o.signal }

  function SupportedCauses(d: Decision): set<Cause> { set h | h in d.hypotheses && h.status == Supported :: h.cause }

  // --------------------------------------------------------------- validator

  datatype Code =
    | ForbiddenClaim | DuplicateInputId | AmbiguousInputId | UnknownCitation | ObservationNotMeasured
    | SupportAnchorRequired | ConflictRequiresBothSides | GapRequired | CauseTelemetryUnavailable | RebalanceGapRequired
    | ContextIsNotCausalSupport | ConclusionMismatch | AbstentionGapRequired
    | CitationOutsideSelection | RepairOutOfScope | MalformedDecision | NotJson | TextExpected

  function RebalanceGap(): string { "CONSUMER_REBALANCE_TELEMETRY_UNAVAILABLE" }

  function DiscriminatorGap(): string { "CAUSAL_DISCRIMINATOR_UNAVAILABLE" }

  function AllGaps(d: Decision): seq<string> { d.gaps + CandidateGaps(d.hypotheses) }

  function CandidateGaps(hypotheses: seq<Candidate>): seq<string> {
    if hypotheses == [] then [] else hypotheses[0].gaps + CandidateGaps(hypotheses[1..])
  }

  function Ids(evidence: seq<Evidence>): seq<string> {
    seq(|evidence|, i requires 0 <= i < |evidence| => evidence[i].id)
  }

  function Find(evidence: seq<Evidence>, id: string): Option<Evidence> {
    if evidence == [] then None
    else if evidence[|evidence| - 1].id == id then Some(evidence[|evidence| - 1])
    else Find(evidence[..|evidence| - 1], id)
  }

  predicate Matches(evidence: seq<Evidence>, id: string, rule: Rule) {
    var e := Find(evidence, id);
    e.Some? && Measures(e.value, rule)
  }

  predicate AllMatch(evidence: seq<Evidence>, ids: seq<string>, rule: Rule) {
    forall id :: id in ids ==> Matches(evidence, id, rule)
  }

  function CandidateProblem(evidence: seq<Evidence>, h: Candidate): Option<Code> {
    if h.status == Supported && h.supporting == [] then Some(SupportAnchorRequired)
    else if h.status == Conflicted && (h.supporting == [] || h.conflicting == []) then Some(ConflictRequiresBothSides)
    else if h.status == Insufficient && h.gaps == [] then Some(GapRequired)
    else if !Ruled(h.cause) then
      if h.status != Insufficient || h.supporting != [] || h.conflicting != [] then Some(CauseTelemetryUnavailable)
      else if h.cause == ConsumerRebalance && RebalanceGap() !in h.gaps then Some(RebalanceGapRequired)
      else None
    else if !AllMatch(evidence, h.supporting, SupportRule(h.cause))
         || !AllMatch(evidence, h.conflicting, ConflictRule(h.cause))
    then Some(ContextIsNotCausalSupport)
    else None
  }

  function CandidatesProblem(evidence: seq<Evidence>, hypotheses: seq<Candidate>): Option<Code> {
    if hypotheses == [] then None
    else
      var first := CandidateProblem(evidence, hypotheses[0]);
      if first.Some? then first else CandidatesProblem(evidence, hypotheses[1..])
  }

  predicate Measured(evidence: seq<Evidence>, o: ObservedSignal) {
    AllMatch(evidence, o.evidenceIds, SignalRule(o.signal))
  }

  predicate HasSupported(d: Decision) { exists h :: h in d.hypotheses && h.status == Supported }

  /** The first complaint of `validate_decision_v3`. */
  function Validate(d: Decision, initial: seq<string>, evidence: seq<Evidence>,
                    forbidden: seq<string> -> bool): Option<Code> {
    if forbidden(AllGaps(d)) then Some(ForbiddenClaim)
    else if !Unique(Ids(evidence)) || !Unique(initial) then Some(DuplicateInputId)
    else if exists id :: id in initial && id in Ids(evidence) then Some(AmbiguousInputId)
    else if exists id :: id in Citations(d) && id !in initial && id !in Ids(evidence) then Some(UnknownCitation)
    else if exists o :: o in d.observations && !Measured(evidence, o) then Some(ObservationNotMeasured)
    else
      var candidates := CandidatesProblem(evidence, d.hypotheses);
      if candidates.Some? then candidates
      else if d.supportedCandidates != HasSupported(d) then Some(ConclusionMismatch)
      else if !HasSupported(d) && d.gaps == [] && (forall h :: h in d.hypotheses ==> h.gaps == []) then
        Some(AbstentionGapRequired)
      else None
  }

  /** What acceptance means for one candidate cause. */
  ghost predicate SoundCandidate(evidence: seq<Evidence>, h: Candidate) {
    && (h.status == Supported ==> h.supporting != [])
    && (h.status == Conflicted ==> h.supporting != [] && h.conflicting != [])
    && (h.status == Insufficient ==> h.gaps != [])
    && (if Ruled(h.cause) then
          && AllMatch(evidence, h.supporting, SupportRule(h.cause))
          && AllMatch(evidence, h.conflicting, ConflictRule(h.cause))
        else
          && h.status == Insufficient && h.supporting == [] && h.conflicting == []
          && (h.cause == ConsumerRebalance ==> RebalanceGap() in h.gaps))
  }

  lemma CandidateSound(evidence: seq<Evidence>, h: Candidate)
    ensures CandidateProblem(evidence, h).None? <==> SoundCandidate(evidence, h)
  {
    hide AllMatch;
  }

  lemma {:induction false} CandidatesSound(evidence: seq<Evidence>, hypotheses: seq<Candidate>)
    ensures CandidatesProblem(evidence, hypotheses).None? <==>
              forall h :: h in hypotheses ==> SoundCandidate(evidence, h)
    decreases |hypotheses|
  {
    hide CandidateProblem, SoundCandidate;
    if hypotheses != [] {
      assert hypotheses == [hypotheses[0]] + hypotheses[1..];
      CandidateSound(evidence, hypotheses[0]);
      CandidatesSound(evidence, hypotheses[1..]);
    }
  }

  /** Identifiers are unique, and none is both initial and acquired. */
  ghost predicate DistinctInputs(initial: seq<string>, evidence: seq<Evidence>) {
    Unique(Ids(evidence)) && Unique(initial) && forall id :: id in initial ==> id !in Ids(evidence)
  }

  ghost predicate CitesOnly(d: Decision, initial: seq<string>, evidence: seq<Evidence>) {
    forall id :: id in Citations(d) ==> id in initial || id in Ids(evidence)
  }

  ghost predicate AllMeasured(evidence: seq<Evidence>, observations: seq<ObservedSignal>) {
    forall o :: o in observations ==> Measured(evidence, o)
  }

  ghost predicate AllSound(evidence: seq<Evidence>, hypotheses: seq<Candidate>) {
    forall h :: h in hypotheses ==> SoundCandidate(evidence, h)
  }

  /** The conclusion agrees with the hypotheses, and an abstention names what is missing. */
  ghost predicate ConclusionAgrees(d: Decision) {
    && d.supportedCandidates == HasSupported(d)
    && (HasSupported(d) || d.gaps != [] || exists h :: h in d.hypotheses && h.gaps != [])
  }

  /** What acceptance means for a decision. */
  ghost predicate Admissible(d: Decision, initial: seq<string>, evidence: seq<Evidence>,
                             forbidden: seq<string> -> bool) {
    && !forbidden(AllGaps(d))
    && DistinctInputs(initial, evidence)
    && CitesOnly(d, initial, evidence)
    && AllMeasured(evidence, d.observations)
    && AllSound(evidence, d.hypotheses)
    && ConclusionAgrees(d)
  }

  /** The validator accepts exactly the admissible decisions. */
  lemma ValidateMeansAdmissible(d: Decision, initial: seq<string>, evidence: seq<Evidence>,
                                forbidden: seq<string> -> bool)
    ensures Validate(d, initial, evidence, forbidden).None? <==> Admissible(d, initial, evidence, forbidden)
  {
    hide Measured, SoundCandidate, CandidatesProblem, Citations, AllGaps, HasSupported, Unique, Ids;
    CandidatesSound(evidence, d.hypotheses);
  }

  lemma {:induction false} FindMeans(evidence: seq<Evidence>, id: string)
    ensures Find(evidence, id).Some? <==> id in Ids(evidence)
    ensures Find(evidence, id).Some? ==> Find(evidence, id).value in evidence && Find(evidence, id).value.id == id
    decreases |evidence|
  {
    if evidence != [] {
      var n := |evidence| - 1;
      FindMeans(evidence[..n], id);
      assert Ids(evidence) == Ids(evidence[..n]) + [evidence[n].id];
    }
  }

  /** With unique identifiers an item is found under its own. */
  lemma FindOwn(evidence: seq<Evidence>, i: nat)
    requires Unique(Ids(evidence)) && i < |evidence|
    ensures Find(evidence, evidence[i].id) == Some(evidence[i])
  {
    FindMeans(evidence, evidence[i].id);
    assert Ids(evidence)[i] == evidence[i].id;
    var e := Find(evidence, evidence[i].id).value;
    var j :| 0 <= j < |evidence| && evidence[j] == e;
    assert Ids(evidence)[j] == Ids(evidence)[i];
  }

  // --------------------------------------------------------------- checklist

  predicate OnePerTool(evidence: seq<Evidence>) {
    forall i, j :: 0 <= i < j < |evidence| ==> evidence[i].tool != evidence[j].tool
  }

  /** The items that measure `rule`, in order. */
  function Measuring(evidence: seq<Evidence>, rule: Rule): seq<Evidence> {
    if evidence == [] then []
    else
      var n := |evidence| - 1;
      Measuring(evidence[..n], rule) + if Measures(evidence[n], rule) then [evidence[n]] else []
  }

  function ObservationsFor(evidence: seq<Evidence>, signal: Signal): seq<ObservedSignal> {
    var items := Measuring(evidence, SignalRule(signal));
    seq(|items|, i requires 0 <= i < |items| => ObservedSignal(signal, [items[i].id]))
  }

  function FixedObservations(evidence: seq<Evidence>, signals: seq<Signal>): seq<ObservedSignal> {
    if signals == [] then [] else ObservationsFor(evidence, signals[0]) + FixedObservations(evidence, signals[1..])
  }

  function HypothesesFor(evidence: seq<Evidence>, cause: Cause): seq<Candidate>
    requires Ruled(cause)
  {
    var items := Measuring(evidence, SupportRule(cause));
    seq(|items|, i requires 0 <= i < |items| => Candidate(cause, Supported, [items[i].id], [], []))
  }

  function FixedHypotheses(evidence: seq<Evidence>, causes: seq<Cause>): seq<Candidate>
    requires forall c :: c in causes ==> Ruled(c)
  {
    if causes == [] then [] else HypothesesFor(evidence, causes[0]) + FixedHypotheses(evidence, causes[1..])
  }

  function Unsigned(evidence: seq<Evidence>, signed: set<string>): seq<string> {
    if evidence == [] then []
    else
      var n := |evidence| - 1;
      Unsigned(evidence[..n], signed) + if evidence[n].id in signed then [] else [evidence[n].id]
  }

  /** The decision that the evidence rules alone produce, before the model validates it. */
  function FixedDecision(initial: seq<string>, evidence: seq<Evidence>): Decision {
    var hypotheses := FixedHypotheses(evidence, RULED_CAUSES);
    Decision(FixedObservations(evidence, SIGNALS), hypotheses, initial + Unsigned(evidence, SignedIds(hypotheses)),
             if hypotheses != [] then [] else [DiscriminatorGap()], hypotheses != [])
  }

  ghost predicate MeasuredBy(evidence: seq<Evidence>, rule: Rule) { exists e :: e in evidence && Measures(e, rule) }

  lemma {:induction false} MeasuringMeans(evidence: seq<Evidence>, rule: Rule)
    ensures forall e :: e in Measuring(evidence, rule) <==> e in evidence && Measures(e, rule)
    decreases |evidence|
  {
    hide Measures;
    if evidence != [] {
      var n := |evidence| - 1;
      MeasuringMeans(evidence[..n], rule);
      assert evidence == evidence[..n] + [evidence[n]];
    }
  }

  lemma {:induction false} MeasuringAtMostOne(evidence: seq<Evidence>, rule: Rule)
    requires OnePerTool(evidence)
    ensures |Measuring(evidence, rule)| <= 1
    decreases |evidence|
  {
    if evidence != [] {
      var n := |evidence| - 1;
      MeasuringAtMostOne(evidence[..n], rule);
      MeasuringMeans(evidence[..n], rule);
      if Measuring(evidence[..n], rule) != [] {
        var e := Measuring(evidence[..n], rule)[0];
        assert e in Measuring(evidence[..n], rule);
        var i :| 0 <= i < n && evidence[..n][i] == e;
        assert evidence[i].tool != evidence[n].tool;
      }
    }
  }

  /** A checklist observation is one signal measured by one item. */
  ghost predicate FixedObservation(evidence: seq<Evidence>, o: ObservedSignal) {
    exists e :: e in evidence && Measures(e, SignalRule(o.signal)) && o.evidenceIds == [e.id]
  }

  lemma ObservationsForMean(evidence: seq<Evidence>, signal: Signal)
    ensures forall o :: o in ObservationsFor(evidence, signal) ==> o.signal == signal && FixedObservation(evidence, o)
    ensures MeasuredBy(evidence, SignalRule(signal)) ==> ObservationsFor(evidence, signal) != []
    ensures OnePerTool(evidence) ==> |ObservationsFor(evidence, signal)| <= 1
  {
    hide Measures, SignalRule, OnePerTool;
    var items := Measuring(evidence, SignalRule(signal));
    MeasuringMeans(evidence, SignalRule(signal));
    if OnePerTool(evidence) { MeasuringAtMostOne(evidence, SignalRule(signal)); }
    forall o: ObservedSignal | o in ObservationsFor(evidence, signal) ensures FixedObservation(evidence, o) {
      var i :| 0 <= i < |items| && ObservationsFor(evidence, signal)[i] == o;
      assert items[i] in items;
    }
  }

  lemma {:induction false} FixedObservationsMean(evidence: seq<Evidence>, signals: seq<Signal>)
    ensures forall o :: o in FixedObservations(evidence, signals) ==>
              o.signal in signals && FixedObservation(evidence, o)
    ensures forall s :: s in signals && MeasuredBy(evidence, SignalRule(s)) ==>
              exists o :: o in FixedObservations(evidence, signals) && o.signal == s
    decreases |signals|
  {
    hide MeasuredBy, SignalRule, ObservationsFor, FixedObservation;
    if signals != [] {
      var first, rest := ObservationsFor(evidence, signals[0]), FixedObservations(evidence, signals[1..]);
      ObservationsForMean(evidence, signals[0]);
      FixedObservationsMean(evidence, signals[1..]);
      forall s | s in signals && MeasuredBy(evidence, SignalRule(s))
        ensures exists o: ObservedSignal :: o in first + rest && o.signal == s
      {
        if s == signals[0] {
          assert first[0] in first && first[0] in first + rest;
        } else {
          var o :| o in rest && o.signal == s;
          assert o in first + rest;
        }
      }
    }
  }

  lemma {:induction false} FixedObservationsDistinct(evidence: seq<Evidence>, signals: seq<Signal>)
    requires OnePerTool(evidence) && Unique(signals)
    ensures DistinctSignals(FixedObservations(evidence, signals)) && |FixedObservations(evidence, signals)| <= |signals|
    decreases |signals|
  {
    hide OnePerTool, FixedObservation, ObservationsFor, DistinctSignals, SignalRule;
    if signals == [] {
      NoSignals();
    } else {
      ObservationsForMean(evidence, signals[0]);
      assert forall i :: 0 < i < |signals| ==> signals[i] != signals[0] && signals[1..][i - 1] == signals[i];
      FixedObservationsDistinct(evidence, signals[1..]);
      FixedObservationsMean(evidence, signals[1..]);
      DistinctSignalsAfter(ObservationsFor(evidence, signals[0]), FixedObservations(evidence, signals[1..]));
    }
  }

  lemma NoSignals()
    ensures DistinctSignals([]) && DistinctCauses([])
  {}

  lemma DistinctSignalsAfter(first: seq<ObservedSignal>, rest: seq<ObservedSignal>)
    requires |first| <= 1 && DistinctSignals(rest) && forall o, r :: o in first && r in rest ==> o.signal != r.signal
    ensures DistinctSignals(first + rest)
  {
    assert forall i :: 0 <= i < |rest| ==> rest[i] in rest;
  }

  /** A checklist hypothesis is a ruled cause supported by the one item that measures it. */
  ghost predicate FixedCandidate(evidence: seq<Evidence>, h: Candidate) {
    && Ruled(h.cause) && h.status == Supported && h.conflicting == [] && h.gaps == []
    && exists e :: e in evidence && Measures(e, SupportRule(h.cause)) && h.supporting == [e.id]
  }

  lemma HypothesesForMean(evidence: seq<Evidence>, cause: Cause)
    requires Ruled(cause)
    ensures forall h :: h in HypothesesFor(evidence, cause) ==> h.cause == cause && FixedCandidate(evidence, h)
    ensures MeasuredBy(evidence, SupportRule(cause)) ==> HypothesesFor(evidence, cause) != []
    ensures OnePerTool(evidence) ==> |HypothesesFor(evidence, cause)| <= 1
  {
    hide Measures, SupportRule, OnePerTool;
    var items := Measuring(evidence, SupportRule(cause));
    MeasuringMeans(evidence, SupportRule(cause));
    if OnePerTool(evidence) { MeasuringAtMostOne(evidence, SupportRule(cause)); }
    forall h: Candidate | h in HypothesesFor(evidence, cause) ensures FixedCandidate(evidence, h) {
      var i :| 0 <= i < |items| && HypothesesFor(evidence, cause)[i] == h;
      assert items[i] in items;
    }
  }

  lemma {:induction false} FixedHypothesesMean(evidence: seq<Evidence>, causes: seq<Cause>)
    requires forall c :: c in causes ==> Ruled(c)
    ensures forall h :: h in FixedHypotheses(evidence, causes) ==> h.cause in causes && FixedCandidate(evidence, h)
    ensures forall c :: c in causes && MeasuredBy(evidence, SupportRule(c)) ==>
              exists h :: h in FixedHypotheses(evidence, causes) && h.cause == c
    decreases |causes|
  {
    hide MeasuredBy, SupportRule, HypothesesFor, FixedCandidate;
    if causes != [] {
      var first, rest := HypothesesFor(evidence, causes[0]), FixedHypotheses(evidence, causes[1..]);
      HypothesesForMean(evidence, causes[0]);
      FixedHypothesesMean(evidence, causes[1..]);
      forall c | c in causes && MeasuredBy(evidence, SupportRule(c))
        ensures exists h: Candidate :: h in first + rest && h.cause == c
      {
        if c == causes[0] {
          assert first[0] in first && first[0] in first + rest;
        } else {
          var h :| h in rest && h.cause == c;
          assert h in first + rest;
        }
      }
    }
  }

  lemma {:induction false} FixedHypothesesDistinct(evidence: seq<Evidence>, causes: seq<Cause>)
    requires OnePerTool(evidence) && Unique(causes) && forall c :: c in causes ==> Ruled(c)
    ensures DistinctCauses(FixedHypotheses(evidence, causes)) && |FixedHypotheses(evidence, causes)| <= |causes|
    decreases |causes|
  {
    hide OnePerTool, FixedCandidate, HypothesesFor, DistinctCauses, SupportRule;
    if causes == [] {
      NoSignals();
    } else {
      HypothesesForMean(evidence, causes[0]);
      assert forall i :: 0 < i < |causes| ==> causes[i] != causes[0] && causes[1..][i - 1] == causes[i];
      FixedHypothesesDistinct(evidence, causes[1..]);
      FixedHypothesesMean(evidence, causes[1..]);
      DistinctCausesAfter(HypothesesFor(evidence, causes[0]), FixedHypotheses(evidence, causes[1..]));
    }
  }

  lemma DistinctCausesAfter(first: seq<Candidate>, rest: seq<Candidate>)
    requires |first| <= 1 && DistinctCauses(rest) && forall h, r :: h in first && r in rest ==> h.cause != r.cause
    ensures DistinctCauses(first + rest)
  {
    assert forall i :: 0 <= i < |rest| ==> rest[i] in rest;
  }

  // --------------------------------------------------------------- the checklist is the greatest accepted decision

  lemma MatchIsMeasured(evidence: seq<Evidence>, ids: seq<string>, rule: Rule)
    requires AllMatch(evidence, ids, rule) && ids != []
    ensures MeasuredBy(evidence, rule)
  {
    assert ids[0] in ids && Matches(evidence, ids[0], rule);
    FindMeans(evidence, ids[0]);
  }

  lemma ItemPerTool(evidence: seq<Evidence>, e: Evidence, f: Evidence)
    requires OnePerTool(evidence) && e in evidence && f in evidence && e.tool == f.tool
    ensures e == f
  {
    var i :| 0 <= i < |evidence| && evidence[i] == e;
    var j :| 0 <= j < |evidence| && evidence[j] == f;
  }

  lemma OneSidePerTool(evidence: seq<Evidence>, rule: Rule, other: Rule)
    requires OnePerTool(evidence) && rule.tool == other.tool && rule.flag != other.flag
    ensures !(MeasuredBy(evidence, rule) && MeasuredBy(evidence, other))
  {
    forall e, f | e in evidence && f in evidence && Measures(e, rule) ensures !Measures(f, other) {
      if f.tool == e.tool { ItemPerTool(evidence, e, f); }
    }
  }

  /** Unique citations of what one item measures name that item alone. */
  lemma CitesTheItem(evidence: seq<Evidence>, ids: seq<string>, rule: Rule, e: Evidence)
    requires OnePerTool(evidence) && e in evidence && Measures(e, rule)
    requires ids != [] && Unique(ids) && AllMatch(evidence, ids, rule)
    ensures ids == [e.id]
  {
    forall i | 0 <= i < |ids| ensures ids[i] == e.id {
      assert ids[i] in ids && Matches(evidence, ids[i], rule);
      FindMeans(evidence, ids[i]);
      ItemPerTool(evidence, Find(evidence, ids[i]).value, e);
    }
    assert ids[0] == ids[|ids| - 1];
  }

  /** A supported candidate is the checklist's, up to the gaps it names. */
  ghost predicate OnChecklist(h: Candidate, checklist: Decision) {
    h.conflicting == []
    && exists f :: f in checklist.hypotheses
                   && f.cause == h.cause && f.status == Supported && f.supporting == h.supporting
  }

  /**
   The observations of an accepted decision are observations of the checklist, citations included; its supported causes
   are the checklist's with the same support; and none is CONFLICTED.
   */
  lemma AcceptedWithinChecklist(d: Decision, initial: seq<string>, evidence: seq<Evidence>,
                                forbidden: seq<string> -> bool)
    requires OnePerTool(evidence) && WellFormed(d) && Validate(d, initial, evidence, forbidden).None?
    ensures forall o :: o in d.observations ==> o in FixedDecision(initial, evidence).observations
    ensures forall h :: h in d.hypotheses && h.status == Supported ==> OnChecklist(h, FixedDecision(initial, evidence))
    ensures ObservedSignals(d) <= ObservedSignals(FixedDecision(initial, evidence))
    ensures SupportedCauses(d) <= SupportedCauses(FixedDecision(initial, evidence))
    ensures forall h :: h in d.hypotheses ==> h.status != Conflicted
  {
    ValidateMeansAdmissible(d, initial, evidence, forbidden);
    hide Validate, Measured, SoundCandidate, WellFormedObservation, WellFormedCandidate, OnePerTool, FixedDecision,
         DistinctInputs, CitesOnly, ConclusionAgrees, AllGaps, DistinctSignals, DistinctCauses, OnChecklist;
    forall o | o in d.observations ensures o in FixedDecision(initial, evidence).observations {
      ObservedIsFixed(o, initial, evidence);
    }
    forall h | h in d.hypotheses
      ensures h.status != Conflicted
      ensures h.status == Supported ==> OnChecklist(h, FixedDecision(initial, evidence))
      ensures h.status == Supported ==> h.cause in SupportedCauses(FixedDecision(initial, evidence))
    {
      SupportedIsFixed(h, initial, evidence);
    }
  }

  lemma ObservedIsFixed(o: ObservedSignal, initial: seq<string>, evidence: seq<Evidence>)
    requires OnePerTool(evidence) && WellFormedObservation(o) && Measured(evidence, o)
    ensures o in FixedDecision(initial, evidence).observations
  {
    hide Measures, SignalRule, AllMatch, OnePerTool, Unique;
    MatchIsMeasured(evidence, o.evidenceIds, SignalRule(o.signal));
    FixedObservationsMean(evidence, SIGNALS);
    AllListed(o.signal);
    var f :| f in FixedObservations(evidence, SIGNALS) && f.signal == o.signal;
    var e :| e in evidence && Measures(e, SignalRule(f.signal)) && f.evidenceIds == [e.id];
    CitesTheItem(evidence, o.evidenceIds, SignalRule(o.signal), e);
    assert o == f;
  }

  lemma AllListed(s: Signal)
    ensures s in SIGNALS
  {
    match s
    case StageElevated => assert SIGNALS[0] == s;
    case ReplicaShortfall => assert SIGNALS[1] == s;
    case GuardrailDegraded => assert SIGNALS[2] == s;
  }

  lemma SupportedOnChecklist(h: Candidate, initial: seq<string>, evidence: seq<Evidence>)
    requires OnePerTool(evidence) && Ruled(h.cause) && h.status == Supported
    requires h.supporting != [] && Unique(h.supporting) && AllMatch(evidence, h.supporting, SupportRule(h.cause))
    requires h.conflicting == []
    ensures OnChecklist(h, FixedDecision(initial, evidence))
              && h.cause in SupportedCauses(FixedDecision(initial, evidence))
  {
    hide Measures, SupportRule, AllMatch, OnePerTool, Unique, FixedHypotheses, FixedObservations, Unsigned;
    MatchIsMeasured(evidence, h.supporting, SupportRule(h.cause));
    FixedHypothesesMean(evidence, RULED_CAUSES);
    assert RULED_CAUSES[0] == WorkerCapacity && RULED_CAUSES[1] == PostgresPressure;
    var f :| f in FixedHypotheses(evidence, RULED_CAUSES) && f.cause == h.cause;
    assert f in FixedDecision(initial, evidence).hypotheses && f.status == Supported;
    var e :| e in evidence && Measures(e, SupportRule(f.cause)) && f.supporting == [e.id];
    CitesTheItem(evidence, h.supporting, SupportRule(h.cause), e);
  }

  lemma SupportedIsFixed(h: Candidate, initial: seq<string>, evidence: seq<Evidence>)
    requires OnePerTool(evidence) && WellFormedCandidate(h) && SoundCandidate(evidence, h)
    ensures h.status != Conflicted
    ensures h.status == Supported ==> OnChecklist(h, FixedDecision(initial, evidence))
    ensures h.status == Supported ==> h.cause in SupportedCauses(FixedDecision(initial, evidence))
  {
    hide Measures, SupportRule, ConflictRule, AllMatch, OnePerTool, Unique, FixedDecision, OnChecklist, SupportedCauses;
    if Ruled(h.cause) {
      if h.supporting != [] { MatchIsMeasured(evidence, h.supporting, SupportRule(h.cause)); }
      if h.conflicting != [] { MatchIsMeasured(evidence, h.conflicting, ConflictRule(h.cause)); }
      RulesOppose(h.cause);
      OneSidePerTool(evidence, SupportRule(h.cause), ConflictRule(h.cause));
      if h.status == Supported { SupportedOnChecklist(h, initial, evidence); }
    }
  }

  lemma RulesOppose(c: Cause)
    requires Ruled(c)
    ensures SupportRule(c).tool == ConflictRule(c).tool && SupportRule(c).flag != ConflictRule(c).flag
  {}

  lemma {:induction false} UnsignedMeans(evidence: seq<Evidence>, signed: set<string>)
    ensures forall id :: id in Unsigned(evidence, signed) <==> id in Ids(evidence) && id !in signed
    ensures Unique(Ids(evidence)) ==> Unique(Unsigned(evidence, signed))
    decreases |evidence|
  {
    if evidence != [] {
      var n := |evidence| - 1;
      UnsignedMeans(evidence[..n], signed);
      assert Ids(evidence) == Ids(evidence[..n]) + [evidence[n].id];
      if Unique(Ids(evidence)) {
        assert Unique(Ids(evidence[..n])) by {
          assert forall i :: 0 <= i < n ==> Ids(evidence[..n])[i] == Ids(evidence)[i];
        }
        assert evidence[n].id !in Ids(evidence[..n]) by {
          assert Ids(evidence)[n] == evidence[n].id;
          assert forall i :: 0 <= i < n ==> Ids(evidence[..n])[i] == Ids(evidence)[i] != Ids(evidence)[n];
        }
      }
    }
  }

  /** The item supports a cause. */
  predicate Supports(e: Evidence) {
    Measures(e, SupportRule(WorkerCapacity)) || Measures(e, SupportRule(PostgresPressure))
  }

  /** The number of items that support no cause, and so remain context. */
  function ContextItems(evidence: seq<Evidence>): nat {
    if evidence == [] then 0
    else ContextItems(evidence[..|evidence| - 1]) + if Supports(evidence[|evidence| - 1]) then 0 else 1
  }

  /**
   The inputs the checklist can cite: unique, not colliding, and those that support no cause within the context limit.
   */
  ghost predicate CitableInputs(initial: seq<string>, evidence: seq<Evidence>) {
    DistinctInputs(initial, evidence) && |initial| + ContextItems(evidence) <= 64
  }

  lemma SignedMeans(evidence: seq<Evidence>, e: Evidence)
    requires OnePerTool(evidence) && Unique(Ids(evidence)) && e in evidence
    ensures e.id in SignedIds(FixedHypotheses(evidence, RULED_CAUSES)) <==> Supports(e)
  {
    hide Measures, SupportRule, OnePerTool, Unique;
    var hypotheses := FixedHypotheses(evidence, RULED_CAUSES);
    FixedHypothesesMean(evidence, RULED_CAUSES);
    assert RULED_CAUSES[0] == WorkerCapacity && RULED_CAUSES[1] == PostgresPressure;
    if e.id in SignedIds(hypotheses) {
      var h :| h in hypotheses && e.id in h.supporting + h.conflicting;
      var f :| f in evidence && Measures(f, SupportRule(h.cause)) && h.supporting == [f.id];
      SameId(evidence, e, f);
    }
    if Supports(e) {
      var cause := if Measures(e, SupportRule(WorkerCapacity)) then WorkerCapacity else PostgresPressure;
      assert MeasuredBy(evidence, SupportRule(cause));
      var h :| h in hypotheses && h.cause == cause;
      var f :| f in evidence && Measures(f, SupportRule(cause)) && h.supporting == [f.id];
      SameTool(evidence, e, f, SupportRule(cause));
      assert e.id in h.supporting + h.conflicting;
    }
  }

  lemma SameId(evidence: seq<Evidence>, e: Evidence, f: Evidence)
    requires Unique(Ids(evidence)) && e in evidence && f in evidence && e.id == f.id
    ensures e == f
  {
    var i :| 0 <= i < |evidence| && evidence[i] == e;
    var j :| 0 <= j < |evidence| && evidence[j] == f;
    assert Ids(evidence)[i] == Ids(evidence)[j];
  }

  lemma SameTool(evidence: seq<Evidence>, e: Evidence, f: Evidence, rule: Rule)
    requires OnePerTool(evidence) && e in evidence && f in evidence && Measures(e, rule) && Measures(f, rule)
    ensures e == f
  {
    ItemPerTool(evidence, e, f);
  }

  lemma {:induction false} UnsignedCount(evidence: seq<Evidence>, signed: set<string>)
    requires forall e :: e in evidence ==> (e.id in signed <==> Supports(e))
    ensures |Unsigned(evidence, signed)| == ContextItems(evidence)
    decreases |evidence|
  {
    hide Supports;
    if evidence != [] {
      var n := |evidence| - 1;
      assert evidence == evidence[..n] + [evidence[n]];
      UnsignedCount(evidence[..n], signed);
    }
  }

  lemma ContextSize(initial: seq<string>, evidence: seq<Evidence>)
    requires OnePerTool(evidence) && Unique(Ids(evidence))
    ensures |FixedDecision(initial, evidence).context| == |initial| + ContextItems(evidence)
  {
    hide Supports, FixedHypotheses, FixedObservations, SignedIds, OnePerTool, Unique, Ids;
    var signed := SignedIds(FixedHypotheses(evidence, RULED_CAUSES));
    forall e | e in evidence ensures e.id in signed <==> Supports(e) { SignedMeans(evidence, e); }
    UnsignedCount(evidence, signed);
  }

  ghost predicate ShortInputs(initial: seq<string>, evidence: seq<Evidence>) {
    forall id :: id in initial || id in Ids(evidence) ==> 1 <= |id| <= 256
  }

  lemma IdOfMember(evidence: seq<Evidence>, e: Evidence)
    requires e in evidence
    ensures e.id in Ids(evidence)
  {
    var i :| 0 <= i < |evidence| && evidence[i] == e;
    assert Ids(evidence)[i] == e.id;
  }

  lemma MatchOwn(evidence: seq<Evidence>, e: Evidence, rule: Rule)
    requires Unique(Ids(evidence)) && e in evidence && Measures(e, rule)
    ensures AllMatch(evidence, [e.id], rule)
  {
    var i :| 0 <= i < |evidence| && evidence[i] == e;
    FindOwn(evidence, i);
  }

  lemma FixedObservationIsFine(evidence: seq<Evidence>, o: ObservedSignal)
    requires Unique(Ids(evidence)) && ShortInputs([], evidence) && FixedObservation(evidence, o)
    ensures WellFormedObservation(o) && Measured(evidence, o)
    ensures forall id :: id in o.evidenceIds ==> id in Ids(evidence)
  {
    hide Measures, SignalRule, AllMatch;
    var e :| e in evidence && Measures(e, SignalRule(o.signal)) && o.evidenceIds == [e.id];
    IdOfMember(evidence, e);
    MatchOwn(evidence, e, SignalRule(o.signal));
  }

  lemma FixedObservationsAreFine(evidence: seq<Evidence>)
    requires OnePerTool(evidence) && Unique(Ids(evidence)) && ShortInputs([], evidence)
    ensures var os := FixedObservations(evidence, SIGNALS);
            && WellFormedObservations(os) && AllMeasured(evidence, os)
            && forall o, id :: o in os && id in o.evidenceIds ==> id in Ids(evidence)
  {
    FixedObservationsDistinct(evidence, SIGNALS);
    FixedObservationsMean(evidence, SIGNALS);
    hide FixedObservation, OnePerTool, Unique, ShortInputs, WellFormedObservation, Measured, FixedObservations;
    forall o | o in FixedObservations(evidence, SIGNALS)
      ensures WellFormedObservation(o) && Measured(evidence, o)
                && (forall id :: id in o.evidenceIds ==> id in Ids(evidence))
    {
      FixedObservationIsFine(evidence, o);
    }
  }

  lemma FixedCandidateIsFine(evidence: seq<Evidence>, h: Candidate)
    requires Unique(Ids(evidence)) && ShortInputs([], evidence) && FixedCandidate(evidence, h)
    ensures WellFormedCandidate(h) && SoundCandidate(evidence, h)
    ensures forall id :: id in h.supporting + h.conflicting ==> id in Ids(evidence)
  {
    hide Measures, SupportRule, ConflictRule, AllMatch;
    var e :| e in evidence && Measures(e, SupportRule(h.cause)) && h.supporting == [e.id];
    IdOfMember(evidence, e);
    MatchOwn(evidence, e, SupportRule(h.cause));
    NothingToMatch(evidence, ConflictRule(h.cause));
  }

  lemma NothingToMatch(evidence: seq<Evidence>, rule: Rule)
    ensures AllMatch(evidence, [], rule)
  {}

  lemma FixedHypothesesAreFine(evidence: seq<Evidence>)
    requires OnePerTool(evidence) && Unique(Ids(evidence)) && ShortInputs([], evidence)
    ensures var hs := FixedHypotheses(evidence, RULED_CAUSES);
            && WellFormedHypotheses(hs) && AllSound(evidence, hs) && AllSupported(hs)
            && (forall id :: id in SignedIds(hs) ==> id in Ids(evidence))
  {
    FixedHypothesesDistinct(evidence, RULED_CAUSES);
    FixedHypothesesMean(evidence, RULED_CAUSES);
    hide OnePerTool, Unique, ShortInputs, WellFormedCandidate, SoundCandidate, FixedHypotheses;
    forall h | h in FixedHypotheses(evidence, RULED_CAUSES)
      ensures WellFormedCandidate(h) && SoundCandidate(evidence, h)
      ensures forall id :: id in h.supporting + h.conflicting ==> id in Ids(evidence)
    {
      FixedCandidateIsFine(evidence, h);
    }
  }

  ghost predicate AllSupported(hypotheses: seq<Candidate>) {
    forall h :: h in hypotheses ==> h.gaps == [] && h.status == Supported
  }

  lemma {:induction false} NoCandidateGaps(hypotheses: seq<Candidate>)
    requires AllSupported(hypotheses)
    ensures CandidateGaps(hypotheses) == []
    decreases |hypotheses|
  {
    if hypotheses != [] {
      assert hypotheses[0] in hypotheses;
      NoCandidateGaps(hypotheses[1..]);
    }
  }

  lemma FixedContext(initial: seq<string>, evidence: seq<Evidence>)
    requires OnePerTool(evidence) && CitableInputs(initial, evidence) && ShortInputs(initial, evidence)
    requires forall id :: id in SignedIds(FixedHypotheses(evidence, RULED_CAUSES)) ==> id in Ids(evidence)
    ensures var d := FixedDecision(initial, evidence);
            && WellFormedContext(d.context, SignedIds(d.hypotheses))
            && (forall id :: id in d.context ==> id in initial || id in Ids(evidence))
  {
    hide FixedHypotheses, SignedIds, FixedObservations, OnePerTool, ContextItems;
    var signed := SignedIds(FixedHypotheses(evidence, RULED_CAUSES));
    ContextSize(initial, evidence);
    UnsignedMeans(evidence, signed);
    UniqueConcat(initial, Unsigned(evidence, signed));
  }

  lemma UniqueConcat(s: seq<string>, t: seq<string>)
    requires Unique(s) && Unique(t) && forall x :: x in s ==> x !in t
    ensures Unique(s + t)
  {
    assert forall i :: 0 <= i < |t| ==> t[i] in t;
  }

  lemma GapIsShort()
    ensures ShortCodes([], 32) && ShortCodes([DiscriminatorGap()], 32)
  {}

  lemma FixedFields(initial: seq<string>, evidence: seq<Evidence>)
    ensures var d := FixedDecision(initial, evidence);
            && d.observations == FixedObservations(evidence, SIGNALS)
            && d.hypotheses == FixedHypotheses(evidence, RULED_CAUSES)
            && d.gaps == (if d.hypotheses != [] then [] else [DiscriminatorGap()])
            && d.supportedCandidates == (d.hypotheses != [])
  {
    hide FixedObservations, FixedHypotheses, Unsigned, DiscriminatorGap;
  }

  lemma CitableFacts(initial: seq<string>, evidence: seq<Evidence>)
    requires CitableInputs(initial, evidence) && ShortInputs(initial, evidence)
    ensures Unique(Ids(evidence)) && ShortInputs([], evidence)
  {}

  /** The parts of the checklist's decision. */
  lemma FixedParts(initial: seq<string>, evidence: seq<Evidence>)
    requires OnePerTool(evidence) && CitableInputs(initial, evidence) && ShortInputs(initial, evidence)
    ensures var d := FixedDecision(initial, evidence);
            && WellFormed(d)
            && AllMeasured(evidence, d.observations) && AllSound(evidence, d.hypotheses) && AllSupported(d.hypotheses)
            && d.gaps == (if d.hypotheses != [] then [] else [DiscriminatorGap()])
            && d.supportedCandidates == (d.hypotheses != [])
  {
    hide FixedDecision, FixedObservations, FixedHypotheses, Unsigned, DistinctInputs, SignedIds, DiscriminatorGap,
         WellFormedObservations, WellFormedHypotheses, WellFormedContext, ShortCodes, AllMeasured, AllSound,
         AllSupported, CitableInputs, ShortInputs, OnePerTool, Ids, Unique;
    CitableFacts(initial, evidence);
    FixedObservationsAreFine(evidence);
    FixedHypothesesAreFine(evidence);
    FixedContext(initial, evidence);
    GapIsShort();
    FixedFields(initial, evidence);
  }

  lemma FixedCites(initial: seq<string>, evidence: seq<Evidence>)
    requires OnePerTool(evidence) && CitableInputs(initial, evidence) && ShortInputs(initial, evidence)
    ensures CitesOnly(FixedDecision(initial, evidence), initial, evidence)
  {
    hide FixedDecision, FixedObservations, FixedHypotheses, Unsigned, SignedIds, DiscriminatorGap,
         WellFormedObservations, WellFormedHypotheses, WellFormedContext, AllMeasured, AllSound, AllSupported,
         CitableInputs, ShortInputs, OnePerTool, Ids, Unique;
    CitableFacts(initial, evidence);
    FixedObservationsAreFine(evidence);
    FixedHypothesesAreFine(evidence);
    FixedContext(initial, evidence);
    FixedFields(initial, evidence);
  }

  /** Checklist hypotheses are all supported and have no gaps. */
  lemma FixedConclusion(d: Decision)
    requires AllSupported(d.hypotheses) && d.supportedCandidates == (d.hypotheses != [])
               && (d.hypotheses == [] ==> d.gaps != [])
    ensures ConclusionAgrees(d) && AllGaps(d) == d.gaps
  {
    NoCandidateGaps(d.hypotheses);
    hide CandidateGaps;
    if d.hypotheses != [] { assert d.hypotheses[0] in d.hypotheses; }
  }

  /**
   The checklist's own decision is accepted exactly when its inputs are citable; hence it is the greatest accepted one.
   */
  lemma ChecklistAcceptedExactlyWhen(initial: seq<string>, evidence: seq<Evidence>, forbidden: seq<string> -> bool)
    requires OnePerTool(evidence) && ShortInputs(initial, evidence)
    requires !forbidden([]) && !forbidden([DiscriminatorGap()])
    ensures var d := FixedDecision(initial, evidence);
            (WellFormed(d) && Validate(d, initial, evidence, forbidden).None?) <==> CitableInputs(initial, evidence)
  {
    var d := FixedDecision(initial, evidence);
    ValidateMeansAdmissible(d, initial, evidence, forbidden);
    if CitableInputs(initial, evidence) {
      FixedParts(initial, evidence);
      FixedCites(initial, evidence);
      hide FixedDecision, Validate, WellFormed, DistinctInputs, CitesOnly, AllMeasured, AllSound, AllSupported, AllGaps,
           DiscriminatorGap, OnePerTool, ShortInputs, ConclusionAgrees;
      FixedConclusion(d);
    } else if WellFormed(d) && DistinctInputs(initial, evidence) {
      hide FixedDecision, Validate, WellFormedObservations, WellFormedHypotheses, CitesOnly, AllMeasured, AllSound,
           ConclusionAgrees, AllGaps, Unique, ContextItems, OnePerTool;
      assert |d.context| <= 64;
      ContextSize(initial, evidence);
    }
  }
}
