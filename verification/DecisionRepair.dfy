/**
 Reading a model answer, and the scope of the one permitted repair (ops_agent/diagnosis_v3_models.py,
 citation_selection_v3.py, diagnosis_repair_v3.py).

 The answer is arbitrary JSON.  Where the source would raise on an odd shape, the functions below return `None`.
 */
module DecisionRepair {
  import opened Prelude
  import opened DiagnosisV3

  datatype Json =
    | JNull | JBool(b: bool) | JNum(n: int) | JStr(s: string)
    | JArr(items: seq<Json>)
    | JObj(fields: seq<(string, Json)>)

  // --------------------------------------------------------------- names on the wire

  function SignalName(s: Signal): string {
    match s
    case StageElevated => "WORKER_STAGE_ELEVATED"
    case ReplicaShortfall => "WORKER_REPLICA_SHORTFALL"
    case GuardrailDegraded => "POSTGRES_GUARDRAIL_DEGRADED"
  }

  function CauseName(c: Cause): string {
    match c
    case WorkerCapacity => "WORKER_CAPACITY_SHORTFALL_SUSPECTED"
    case PostgresPressure => "POSTGRES_GUARDRAIL_PRESSURE_SUSPECTED"
    case HotKey => "HOT_KEY_SUSPECTED"
    case PoisonRecord => "POISON_RECORD_RETRY_SUSPECTED"
    case SequenceContention => "SEQUENCE_CONTENTION_SUSPECTED"
    case ConsumerRebalance => "CONSUMER_REBALANCE_SUSPECTED"
  }

  function SupportName(s: Support): string {
    match s
    case Supported => "SUPPORTED"
    case Insufficient => "INSUFFICIENT"
    case Conflicted => "CONFLICTED"
  }

  function ParseSignal(j: Json): Option<Signal> {
    if j == JStr(SignalName(StageElevated)) then Some(StageElevated)
    else if j == JStr(SignalName(ReplicaShortfall)) then Some(ReplicaShortfall)
    else if j == JStr(SignalName(GuardrailDegraded)) then Some(GuardrailDegraded)
    else None
  }

  function ParseCause(j: Json): Option<Cause> {
    if j == JStr(CauseName(WorkerCapacity)) then Some(WorkerCapacity)
    else if j == JStr(CauseName(PostgresPressure)) then Some(PostgresPressure)
    else if j == JStr(CauseName(HotKey)) then Some(HotKey)
    else if j == JStr(CauseName(PoisonRecord)) then Some(PoisonRecord)
    else if j == JStr(CauseName(SequenceContention)) then Some(SequenceContention)
    else if j == JStr(CauseName(ConsumerRebalance)) then Some(ConsumerRebalance)
    else None
  }

  function ParseSupport(j: Json): Option<Support> {
    if j == JStr(SupportName(Supported)) then Some(Supported)
    else if j == JStr(SupportName(Insufficient)) then Some(Insufficient)
    else if j == JStr(SupportName(Conflicted)) then Some(Conflicted)
    else None
  }

  lemma SignalNamesDiffer(s: Signal, t: Signal)
    ensures SignalName(s) == SignalName(t) ==> s == t
  {
    assert |SignalName(s)| == |SignalName(t)| ==> s == t;
  }

  lemma CauseNamesDiffer(c: Cause, d: Cause)
    ensures CauseName(c) == CauseName(d) ==> c == d
  {
    assert "POISON_RECORD_RETRY_SUSPECTED"[0] != "SEQUENCE_CONTENTION_SUSPECTED"[0];
    assert CauseName(c) == CauseName(d) ==> |CauseName(c)| == |CauseName(d)| && CauseName(c)[0] == CauseName(d)[0];
  }

  lemma SupportNamesDiffer(s: Support, t: Support)
    ensures SupportName(s) == SupportName(t) ==> s == t
  {
    assert SupportName(s) == SupportName(t) ==> SupportName(s)[0] == SupportName(t)[0];
  }

  // --------------------------------------------------------------- reading JSON

  function Field(j: Json, key: string): Option<Json>
    requires j.JObj?
  {
    Lookup(j.fields, key)
  }

  function Lookup(fields: seq<(string, Json)>, key: string): Option<Json> {
    if fields == [] then None
    else if fields[0].0 == key then Some(fields[0].1)
    else Lookup(fields[1..], key)
  }

  function FieldOr(j: Json, key: string, default: Json): Json
    requires j.JObj?
  {
    var found := Field(j, key);
    if found.Some? then found.value else default
  }

  /** What a `for` loop over the value would see; numbers, booleans and null raise. */
  function Elements(j: Json): Option<seq<Json>> {
    match j
    case JArr(items) => Some(items)
    case JStr(s) => Some(seq(|s|, i requires 0 <= i < |s| => JStr([s[i]])))
    case JObj(fields) => Some(seq(|fields|, i requires 0 <= i < |fields| => JStr(fields[i].0)))
    case _ => None
  }

  predicate Hashable(j: Json) { !j.JArr? && !j.JObj? }

  function ParseStrings(j: Json): Option<seq<string>> {
    if j.JArr? && forall x :: x in j.items ==> x.JStr? then
      Some(seq(|j.items|, i requires 0 <= i < |j.items| => assert j.items[i] in j.items; j.items[i].s))
    else None
  }

  /** An observation object: both fields, nothing else, and one to sixteen short identifiers. */
  function ParseObservation(j: Json): Option<ObservedSignal> {
    if !j.JObj? || |j.fields| != 2 then None
    else
      var signal, ids := Field(j, "signal"), Field(j, "evidence_ids");
      if signal.None? || ids.None? then None
      else
        var s, strings := ParseSignal(signal.value), ParseStrings(ids.value);
        if s.Some? && strings.Some? && ShortIds(strings.value, 1, 16) then Some(ObservedSignal(s.value, strings.value))
        else None
  }

  function ParseCandidate(j: Json): Option<Candidate> {
    if !j.JObj? || |j.fields| != 5 then None
    else
      var cause := ParseCause(FieldOr(j, "hypothesis", JNull));
      var status := ParseSupport(FieldOr(j, "support_status", JNull));
      var supporting := ParseStrings(FieldOr(j, "supporting_evidence_ids", JNull));
      var conflicting := ParseStrings(FieldOr(j, "conflicting_evidence_ids", JNull));
      var gaps := ParseStrings(FieldOr(j, "evidence_gaps", JNull));
      if cause.Some? && status.Some? && supporting.Some? && conflicting.Some? && gaps.Some? then
        Some(Candidate(cause.value, status.value, supporting.value, conflicting.value, gaps.value))
      else None
  }

  function ParseObservations(items: seq<Json>): Option<seq<ObservedSignal>> {
    if items == [] then Some([])
    else
      var first, rest := ParseObservation(items[0]), ParseObservations(items[1..]);
      if first.Some? && rest.Some? then Some([first.value] + rest.value) else None
  }

  function ParseCandidates(items: seq<Json>): Option<seq<Candidate>> {
    if items == [] then Some([])
    else
      var first, rest := ParseCandidate(items[0]), ParseCandidates(items[1..]);
      if first.Some? && rest.Some? then Some([first.value] + rest.value) else None
  }

  function ParseConclusion(j: Json): Option<bool> {
    if j == JStr("SUPPORTED_CANDIDATES") then Some(true) else if j == JStr("ABSTAIN") then Some(false) else None
  }

  /** `AgentDecisionV3.model_validate`: exactly the seven fields, well typed, and the unique-roles validator. */
  function ParseDecision(j: Json): Option<Decision> {
    if !j.JObj? || |j.fields| != 7 then None
    else if FieldOr(j, "schema_version", JNull) != JStr("ops.diagnosis.decision.v3") then None
    else if FieldOr(j, "input_condition", JNull) != JStr("CORE_BACKLOG_PRESSURE=PRESENT") then None
    else
      var os, hs := FieldOr(j, "observations", JNull), FieldOr(j, "hypotheses", JNull);
      if !os.JArr? || !hs.JArr? then None
      else
        var observations, hypotheses := ParseObservations(os.items), ParseCandidates(hs.items);
        var context := ParseStrings(FieldOr(j, "context_evidence_ids", JNull));
        var gaps := ParseStrings(FieldOr(j, "investigation_gaps", JNull));
        var conclusion := ParseConclusion(FieldOr(j, "conclusion", JNull));
        if observations.None? || hypotheses.None? || context.None? || gaps.None? || conclusion.None? then None
        else
          var d := Decision(observations.value, hypotheses.value, context.value, gaps.value, conclusion.value);
          if WellFormed(d) then Some(d) else None
  }

  // --------------------------------------------------------------- citation selection

  function ListItems(j: Option<Json>): seq<Json> { if j.Some? && j.value.JArr? then j.value.items else [] }

  function StringItems(j: Option<Json>): set<string> { set x | x in ListItems(j) && x.JStr? :: x.s }

  function ObservationCitations(item: Json): set<string> {
    if item.JObj? then StringItems(Field(item, "evidence_ids")) else {}
  }

  function HypothesisCitations(item: Json): set<string> {
    if item.JObj? then
      StringItems(Field(item, "supporting_evidence_ids")) + StringItems(Field(item, "conflicting_evidence_ids"))
    else {}
  }

  function Gathered(items: seq<Json>, part: Json -> set<string>): set<string> {
    set item, id | item in items && id in part(item) :: id
  }

  /** `decision_citations`: the strings in citation position, ignoring everything of another shape. */
  function LooseCitations(j: Json): set<string>
    requires j.JObj?
  {
    StringItems(Field(j, "context_evidence_ids"))
    + Gathered(ListItems(Field(j, "observations")), ObservationCitations)
    + Gathered(ListItems(Field(j, "hypotheses")), HypothesisCitations)
  }

  lemma GatheredSnoc(items: seq<Json>, item: Json, part: Json -> set<string>)
    ensures Gathered(items + [item], part) == Gathered(items, part) + part(item)
  {
    assert forall x :: x in items + [item] <==> x in items || x == item;
  }

  method DecisionCitations(j: Json) returns (values: set<string>)
    requires j.JObj?
    ensures values == LooseCitations(j)
  {
    hide StringItems, ListItems, Field, Gathered, ObservationCitations, HypothesisCitations;
    values := StringItems(Field(j, "context_evidence_ids"));
    var observations, hypotheses := ListItems(Field(j, "observations")), ListItems(Field(j, "hypotheses"));
    ghost var context := values;
    NothingGathered();
    for i := 0 to |observations|
      invariant values == context + Gathered(observations[..i], ObservationCitations)
    {
      assert observations[..i + 1] == observations[..i] + [observations[i]];
      GatheredSnoc(observations[..i], observations[i], ObservationCitations);
      values := values + ObservationCitations(observations[i]);
    }
    assert observations[..|observations|] == observations;
    ghost var observed := values;
    for i := 0 to |hypotheses|
      invariant values == observed + Gathered(hypotheses[..i], HypothesisCitations)
    {
      assert hypotheses[..i + 1] == hypotheses[..i] + [hypotheses[i]];
      GatheredSnoc(hypotheses[..i], hypotheses[i], HypothesisCitations);
      values := values + HypothesisCitations(hypotheses[i]);
    }
    assert hypotheses[..|hypotheses|] == hypotheses;
  }

  lemma NothingGathered()
    ensures Gathered([], ObservationCitations) == {} && Gathered([], HypothesisCitations) == {}
  {}

  /** The identifiers offered to the model; none when the source raises. */
  function Selectable(initial: seq<string>, evidence: seq<Evidence>, original: Option<Json>): Option<set<string>>
    requires original.Some? ==> original.value.JObj?
  {
    var values := initial + Ids(evidence);
    var supplied := Members(values);
    var allowed := if original.Some? then supplied * LooseCitations(original.value) else supplied;
    if (exists id :: id in values && !(1 <= |id| <= 256)) || |allowed| > 256 then None else Some(allowed)
  }

  // --------------------------------------------------------------- repair scope

  const NO_ITEMS := JArr([])

  /** The raw observations, if iterating over them does not raise. */
  function RawObservations(original: Json): Option<seq<Json>>
    requires original.JObj?
  {
    Elements(FieldOr(original, "observations", NO_ITEMS))
  }

  function RawHypotheses(original: Json): Option<seq<Json>>
    requires original.JObj?
  {
    Elements(FieldOr(original, "hypotheses", NO_ITEMS))
  }

  predicate Objects(items: seq<Json>) { forall item :: item in items ==> item.JObj? }

  function Get(item: Json, key: string): Json
    requires item.JObj?
  {
    FieldOr(item, key, JNull)
  }

  /** The signals of the first answer, whatever they are. */
  function RawSignals(original: Json): Option<set<Json>>
    requires original.JObj?
  {
    var items := RawObservations(original);
    if items.Some? && Objects(items.value) && (forall item :: item in items.value ==> Hashable(Get(item, "signal")))
    then Some(set item | item in items.value :: Get(item, "signal")) else None
  }

  /** Hypothesis names with their statuses. */
  function RawPairs(original: Json): Option<set<(Json, Json)>>
    requires original.JObj?
  {
    var items := RawHypotheses(original);
    if items.Some? && Objects(items.value)
       && (forall item :: item in items.value ==>
          Hashable(Get(item, "hypothesis")) && Hashable(Get(item, "support_status")))
    then Some(set item | item in items.value :: (Get(item, "hypothesis"), Get(item, "support_status"))) else None
  }

  predicate Collectable(j: Json) {
    Elements(j).Some? && forall x :: x in Elements(j).value ==> Hashable(x)
  }

  function Collected(j: Json): set<Json>
    requires Collectable(j)
  {
    set x | x in Elements(j).value :: x
  }

  /** The citations of the first answer, if collecting them does not raise. */
  function RawCitations(original: Json): Option<set<Json>>
    requires original.JObj?
  {
    var context := FieldOr(original, "context_evidence_ids", NO_ITEMS);
    var os, hs := RawObservations(original), RawHypotheses(original);
    if Collectable(context) && os.Some? && hs.Some? && Objects(os.value) && Objects(hs.value)
       && (forall o :: o in os.value ==> Collectable(FieldOr(o, "evidence_ids", NO_ITEMS)))
       && (forall h :: h in hs.value ==> Collectable(FieldOr(h, "supporting_evidence_ids", NO_ITEMS))
                                         && Collectable(FieldOr(h, "conflicting_evidence_ids", NO_ITEMS)))
    then
      Some(Collected(context)
           + (set o, x | o in os.value && x in Collected(FieldOr(o, "evidence_ids", NO_ITEMS)) :: x)
           + (set h, x | h in hs.value && x in Collected(FieldOr(h, "supporting_evidence_ids", NO_ITEMS)) :: x)
           + (set h, x | h in hs.value && x in Collected(FieldOr(h, "conflicting_evidence_ids", NO_ITEMS)) :: x))
    else None
  }

  function NegativeRule(s: Signal): Rule { Rule(SignalRule(s).tool, NegativeFlag(s)) }

  function Mentions(items: seq<Json>, s: Signal): nat {
    if items == [] then 0
    else (if items[0].JObj? && Get(items[0], "signal") == JStr(SignalName(s)) then 1 else 0) + Mentions(items[1..], s)
  }

  predicate Contradicted(evidence: seq<Evidence>, o: ObservedSignal) {
    AllMatch(evidence, o.evidenceIds, NegativeRule(o.signal))
  }

  function RemovableFrom(items: seq<Json>, all: seq<Json>, evidence: seq<Evidence>): seq<ObservedSignal> {
    if items == [] then []
    else
      var o := ParseObservation(items[0]);
      (if o.Some? && Mentions(all, o.value.signal) == 1 && Contradicted(evidence, o.value) then [o.value] else [])
      + RemovableFrom(items[1..], all, evidence)
  }

  /** The observations a repair may remove; none when iterating over them raises. */
  function Removable(original: Json, evidence: seq<Evidence>): Option<seq<ObservedSignal>>
    requires original.JObj?
  {
    if !Unique(Ids(evidence)) then Some([])
    else
      var items := RawObservations(original);
      if items.None? then None else Some(RemovableFrom(items.value, items.value, evidence))
  }

  method RemovableObservations(original: Json, evidence: seq<Evidence>) returns (r: Option<seq<ObservedSignal>>)
    requires original.JObj?
    ensures r == Removable(original, evidence)
  {
    hide Mentions, Contradicted, ParseObservation, Unique, RawObservations;
    if !Unique(Ids(evidence)) { return Some([]); }
    var items := RawObservations(original);
    if items.None? { return None; }
    var result: seq<ObservedSignal> := [];
    for i := 0 to |items.value|
      invariant result + RemovableFrom(items.value[i..], items.value, evidence)
                  == RemovableFrom(items.value, items.value, evidence)
    {
      assert items.value[i..][1..] == items.value[i + 1..];
      var o := ParseObservation(items.value[i]);
      if o.Some? {
        var once := Mentions(items.value, o.value.signal) == 1;
        if once && Contradicted(evidence, o.value) { result := result + [o.value]; }
      }
    }
    assert items.value[|items.value|..] == [];
    assert result + [] == result;
    return Some(result);
  }

  function WireSignals(signals: set<Signal>): set<Json> { set s | s in signals :: JStr(SignalName(s)) }

  function WirePairs(d: Decision): set<(Json, Json)> {
    set h | h in d.hypotheses :: (JStr(CauseName(h.cause)), JStr(SupportName(h.status)))
  }

  function WireCitations(d: Decision): set<Json> { set id | id in Citations(d) :: JStr(id) }

  /** `enforce_repair_scope` returns rather than raises. */
  predicate InScope(original: Json, d: Decision, evidence: seq<Evidence>)
    requires original.JObj?
  {
    var before, removable := RawSignals(original), Removable(original, evidence);
    var pairs, citations := RawPairs(original), RawCitations(original);
    && before.Some? && removable.Some? && pairs.Some? && citations.Some?
    && WireSignals(ObservedSignals(d)) <= before.value
    && before.value - WireSignals(ObservedSignals(d)) <= WireSignals(set o | o in removable.value :: o.signal)
    && pairs.value == WirePairs(d)
    && WireCitations(d) <= citations.value
  }

  // --------------------------------------------------------------- what a repair can change

  /** Listed are exactly the items that can be read, whose signal is mentioned once, and that evidence contradicts. */
  lemma {:induction false} RemovableFromMeans(items: seq<Json>, all: seq<Json>, evidence: seq<Evidence>)
    ensures forall r :: r in RemovableFrom(items, all, evidence) <==>
              && Contradicted(evidence, r) && Mentions(all, r.signal) == 1
              && exists item :: item in items && ParseObservation(item) == Some(r)
    ensures forall r :: r in RemovableFrom(items, all, evidence) ==> r.evidenceIds != []
    decreases |items|
  {
    hide Contradicted, Mentions;
    if items != [] {
      RemovableFromMeans(items[1..], all, evidence);
      assert items == [items[0]] + items[1..];
      assert items[0] in items;
    }
  }

  predicate Mention(item: Json, s: Signal) { item.JObj? && Get(item, "signal") == JStr(SignalName(s)) }

  /** Exactly item `i` mentions the signal. */
  ghost predicate OnlyMention(items: seq<Json>, s: Signal, i: nat) {
    i < |items| && Mention(items[i], s) && forall j :: 0 <= j < |items| && j != i ==> !Mention(items[j], s)
  }

  lemma {:induction false} MentionsMean(items: seq<Json>, s: Signal)
    ensures Mentions(items, s) == 0 <==> forall j :: 0 <= j < |items| ==> !Mention(items[j], s)
    ensures Mentions(items, s) == 1 <==> exists i: nat :: OnlyMention(items, s, i)
    decreases |items|
  {
    hide Get;
    if items != [] {
      var rest := items[1..];
      MentionsMean(rest, s);
      assert forall j :: 0 <= j < |rest| ==> rest[j] == items[j + 1];
      assert forall j :: 0 < j < |items| ==> items[j] == rest[j - 1];
      if Mention(items[0], s) {
        if Mentions(rest, s) == 0 { assert OnlyMention(items, s, 0); }
      } else if i: nat :| OnlyMention(rest, s, i) {
        assert OnlyMention(items, s, i + 1);
      }
      if i: nat :| OnlyMention(items, s, i) {
        if i > 0 { assert OnlyMention(rest, s, i - 1); }
      }
    }
  }

  /** A contradicted observation could never have been accepted: its citations measure the opposite. */
  lemma ContradictedIsRejected(r: ObservedSignal, d: Decision, initial: seq<string>, evidence: seq<Evidence>,
                               forbidden: seq<string> -> bool, o: ObservedSignal, id: string)
    requires Contradicted(evidence, r)
    requires o in d.observations && o.signal == r.signal && id in o.evidenceIds && id in r.evidenceIds
    ensures Validate(d, initial, evidence, forbidden).Some?
  {
    hide DistinctInputs, CitesOnly, AllSound, ConclusionAgrees, AllGaps, Validate;
    ValidateMeansAdmissible(d, initial, evidence, forbidden);
    assert Matches(evidence, id, NegativeRule(r.signal));
    assert !Matches(evidence, id, SignalRule(o.signal));
    assert !Measured(evidence, o);
  }

  /** The causes the first answer supports. */
  ghost predicate RawSupports(original: Json, c: Cause)
    requires original.JObj?
  {
    RawPairs(original).Some? && (JStr(CauseName(c)), JStr(SupportName(Supported))) in RawPairs(original).value
  }

  /** A repair in scope adds no signal and no citation and supports exactly the causes of the first answer. */
  lemma RepairKeepsDiagnosis(original: Json, d: Decision, evidence: seq<Evidence>)
    requires original.JObj? && InScope(original, d, evidence)
    ensures forall s :: s in ObservedSignals(d) ==> JStr(SignalName(s)) in RawSignals(original).value
    ensures forall id :: id in Citations(d) ==> JStr(id) in RawCitations(original).value
    ensures forall c :: c in SupportedCauses(d) <==> RawSupports(original, c)
  {
    hide RawSignals, RawPairs, RawCitations, Removable, Citations, CauseName, SupportName, SignalName;
    forall s | s in ObservedSignals(d) ensures JStr(SignalName(s)) in RawSignals(original).value {
      assert JStr(SignalName(s)) in WireSignals(ObservedSignals(d));
    }
    forall id | id in Citations(d) ensures JStr(id) in RawCitations(original).value {
      assert JStr(id) in WireCitations(d);
    }
    forall c ensures c in SupportedCauses(d) <==> RawSupports(original, c) {
      SupportedOnWire(d, c);
    }
  }

  lemma SupportedOnWire(d: Decision, c: Cause)
    ensures c in SupportedCauses(d) <==> (JStr(CauseName(c)), JStr(SupportName(Supported))) in WirePairs(d)
  {
    hide CauseName, SupportName;
    var pair := (JStr(CauseName(c)), JStr(SupportName(Supported)));
    if pair in WirePairs(d) {
      var h :| h in d.hypotheses && pair == (JStr(CauseName(h.cause)), JStr(SupportName(h.status)));
      CauseNamesDiffer(c, h.cause);
      SupportNamesDiffer(Supported, h.status);
    }
  }

  /**
   Every signal a repair in scope drops was listed once in the first answer, as a valid observation whose non-empty
   citations all measure the signal's opposite.
   */
  lemma DroppedWasContradicted(original: Json, d: Decision, evidence: seq<Evidence>, signal: Json)
    returns (r: ObservedSignal)
    requires original.JObj? && InScope(original, d, evidence)
    requires signal in RawSignals(original).value && signal !in WireSignals(ObservedSignals(d))
    ensures signal == JStr(SignalName(r.signal)) && r.evidenceIds != []
    ensures Contradicted(evidence, r) && Mentions(RawObservations(original).value, r.signal) == 1
    ensures exists item :: item in RawObservations(original).value && ParseObservation(item) == Some(r)
  {
    hide RawSignals, RawPairs, RawCitations, Citations, SignalName, WirePairs, WireCitations, Contradicted, Mentions,
         ObservedSignals;
    var removable := Removable(original, evidence).value;
    assert signal in WireSignals(set o | o in removable :: o.signal);
    var s :| s in (set o | o in removable :: o.signal) && signal == JStr(SignalName(s));
    r :| r in removable && r.signal == s;
    RemovableFromMeans(RawObservations(original).value, RawObservations(original).value, evidence);
  }

  /** With one item per tool, a repair in scope drops no signal that the checklist observes. */
  lemma RepairKeepsChecklistSignals(original: Json, d: Decision, initial: seq<string>, evidence: seq<Evidence>,
                                    s: Signal)
    requires OnePerTool(evidence) && original.JObj? && InScope(original, d, evidence)
    requires s in ObservedSignals(FixedDecision(initial, evidence)) && JStr(SignalName(s)) in RawSignals(original).value
    ensures s in ObservedSignals(d)
  {
    hide RawSignals, InScope, SignalName, Contradicted, OnePerTool, FixedDecision;
    if s !in ObservedSignals(d) {
      WireSignal(d, s);
      var r := DroppedWasContradicted(original, d, evidence, JStr(SignalName(s)));
      SignalNamesDiffer(s, r.signal);
      ContradictedIsUnobserved(r, initial, evidence);
    }
  }

  lemma WireSignal(d: Decision, s: Signal)
    ensures JStr(SignalName(s)) in WireSignals(ObservedSignals(d)) <==> s in ObservedSignals(d)
  {
    hide SignalName, ObservedSignals;
    forall t | t in ObservedSignals(d) && SignalName(t) == SignalName(s) ensures t == s { SignalNamesDiffer(s, t); }
  }

  /** What measures a signal's opposite is not on the checklist. */
  lemma ContradictedIsUnobserved(r: ObservedSignal, initial: seq<string>, evidence: seq<Evidence>)
    requires OnePerTool(evidence) && Contradicted(evidence, r) && r.evidenceIds != []
    ensures r.signal !in ObservedSignals(FixedDecision(initial, evidence))
  {
    hide Measures, AllMatch, OnePerTool, FixedObservations;
    MatchIsMeasured(evidence, r.evidenceIds, NegativeRule(r.signal));
    OneSidePerTool(evidence, SignalRule(r.signal), NegativeRule(r.signal));
    FixedObservationsMean(evidence, SIGNALS);
  }
}
