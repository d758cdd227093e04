/**
 Decisions on the wire: dumping a decision to JSON and reading it back, and what the repair checks see of a dumped one
 (ops_agent/diagnosis_v3_models.py, citation_selection_v3.py, diagnosis_repair_v3.py).
 */
module DecisionWire {
  import opened Prelude
  import opened DiagnosisV3
  import opened DecisionRepair
  import DiagnosisMeaning

  // --------------------------------------------------------------- dumping

  function Texts(values: seq<string>): Json { JArr(seq(|values|, i requires 0 <= i < |values| => JStr(values[i]))) }

  function DumpSignal(s: Signal): Json {
    JStr(match s
         case StageElevated => "WORKER_STAGE_ELEVATED"
         case ReplicaShortfall => "WORKER_REPLICA_SHORTFALL"
         case GuardrailDegraded => "POSTGRES_GUARDRAIL_DEGRADED")
  }

  function DumpCause(c: Cause): Json {
    JStr(match c
         case WorkerCapacity => "WORKER_CAPACITY_SHORTFALL_SUSPECTED"
         case PostgresPressure => "POSTGRES_GUARDRAIL_PRESSURE_SUSPECTED"
         case HotKey => "HOT_KEY_SUSPECTED"
         case PoisonRecord => "POISON_RECORD_RETRY_SUSPECTED"
         case SequenceContention => "SEQUENCE_CONTENTION_SUSPECTED"
         case ConsumerRebalance => "CONSUMER_REBALANCE_SUSPECTED")
  }

  function DumpSupport(s: Support): Json {
    JStr(match s
         case Supported => "SUPPORTED"
         case Insufficient => "INSUFFICIENT"
         case Conflicted => "CONFLICTED")
  }

  function DumpObservation(o: ObservedSignal): Json {
    JObj([("signal", DumpSignal(o.signal)), ("evidence_ids", Texts(o.evidenceIds))])
  }

  function DumpCandidate(h: Candidate): Json {
    JObj([("hypothesis", DumpCause(h.cause)), ("support_status", DumpSupport(h.status)),
          ("supporting_evidence_ids", Texts(h.supporting)), ("conflicting_evidence_ids", Texts(h.conflicting)),
          ("evidence_gaps", Texts(h.gaps))])
  }

  function DumpObservations(observations: seq<ObservedSignal>): seq<Json> {
    seq(|observations|, i requires 0 <= i < |observations| => DumpObservation(observations[i]))
  }

  function DumpCandidates(hypotheses: seq<Candidate>): seq<Json> {
    seq(|hypotheses|, i requires 0 <= i < |hypotheses| => DumpCandidate(hypotheses[i]))
  }

  function Dump(d: Decision): Json {
    JObj([("schema_version", JStr("ops.diagnosis.decision.v3")),
          ("input_condition", JStr("CORE_BACKLOG_PRESSURE=PRESENT")),
          ("observations", JArr(DumpObservations(d.observations))),
          ("hypotheses", JArr(DumpCandidates(d.hypotheses))),
          ("context_evidence_ids", Texts(d.context)),
          ("investigation_gaps", Texts(d.gaps)),
          ("conclusion", JStr(if d.supportedCandidates then "SUPPORTED_CANDIDATES" else "ABSTAIN"))])
  }

  // --------------------------------------------------------------- fields

  lemma {:induction false} LookupAt(fields: seq<(string, Json)>, i: nat)
    requires i < |fields| && forall j :: 0 <= j < i ==> fields[j].0 != fields[i].0
    ensures Lookup(fields, fields[i].0) == Some(fields[i].1)
    decreases i
  {
    if i > 0 { LookupAt(fields[1..], i - 1); }
  }

  lemma ObservationFields(o: ObservedSignal)
    ensures var j := DumpObservation(o);
            Field(j, "signal") == Some(DumpSignal(o.signal)) && Field(j, "evidence_ids") == Some(Texts(o.evidenceIds))
  {
    hide Lookup, DumpSignal, Texts;
    var fields := DumpObservation(o).fields;
    assert |fields[0].0| != |fields[1].0|;
    LookupAt(fields, 0);
    LookupAt(fields, 1);
  }

  lemma CandidateFields(h: Candidate)
    ensures var j := DumpCandidate(h);
            && Field(j, "hypothesis") == Some(DumpCause(h.cause))
            && Field(j, "support_status") == Some(DumpSupport(h.status))
            && Field(j, "supporting_evidence_ids") == Some(Texts(h.supporting))
            && Field(j, "conflicting_evidence_ids") == Some(Texts(h.conflicting))
            && Field(j, "evidence_gaps") == Some(Texts(h.gaps))
  {
    hide Lookup, DumpCause, DumpSupport, Texts;
    var fields := DumpCandidate(h).fields;
    assert |fields[0].0| == 10 && |fields[1].0| == 14 && |fields[2].0| == 23 && |fields[3].0| == 24;
    assert |fields[4].0| == 13;
    LookupAt(fields, 0);
    LookupAt(fields, 1);
    LookupAt(fields, 2);
    LookupAt(fields, 3);
    LookupAt(fields, 4);
  }

  lemma DecisionField(d: Decision, i: nat)
    requires i < 7
    ensures var fields := Dump(d).fields; Lookup(fields, fields[i].0) == Some(fields[i].1)
  {
    hide Lookup, Texts, DumpObservations, DumpCandidates;
    var fields := Dump(d).fields;
    assert fields[3].0[0] != fields[6].0[0];
    forall j | 0 <= j < i ensures fields[j].0 != fields[i].0 {
      assert |fields[j].0| != |fields[i].0| || (j == 3 && i == 6);
    }
    LookupAt(fields, i);
  }

  lemma DecisionFields(d: Decision)
    ensures var j := Dump(d);
            && Field(j, "schema_version") == Some(JStr("ops.diagnosis.decision.v3"))
            && Field(j, "input_condition") == Some(JStr("CORE_BACKLOG_PRESSURE=PRESENT"))
            && Field(j, "observations") == Some(JArr(DumpObservations(d.observations)))
            && Field(j, "hypotheses") == Some(JArr(DumpCandidates(d.hypotheses)))
            && Field(j, "context_evidence_ids") == Some(Texts(d.context))
            && Field(j, "investigation_gaps") == Some(Texts(d.gaps))
            && Field(j, "conclusion")
               == Some(JStr(if d.supportedCandidates then "SUPPORTED_CANDIDATES" else "ABSTAIN"))
  {
    hide Lookup, Texts, DumpObservations, DumpCandidates;
    var fields := Dump(d).fields;
    assert fields[0].0 == "schema_version" && fields[1].0 == "input_condition" && fields[2].0 == "observations";
    assert fields[3].0 == "hypotheses" && fields[4].0 == "context_evidence_ids" && fields[5].0 == "investigation_gaps";
    assert fields[6].0 == "conclusion";
    DecisionField(d, 0);
    DecisionField(d, 1);
    DecisionField(d, 2);
    DecisionField(d, 3);
    DecisionField(d, 4);
    DecisionField(d, 5);
    DecisionField(d, 6);
  }

  // --------------------------------------------------------------- reading back

  lemma TextsParse(values: seq<string>)
    ensures ParseStrings(Texts(values)) == Some(values)
  {
    var j := Texts(values);
    assert ParseStrings(j).Some?;
    assert ParseStrings(j).value == values;
  }

  lemma SignalParses(s: Signal)
    ensures DumpSignal(s) == JStr(SignalName(s)) && ParseSignal(DumpSignal(s)) == Some(s)
  {
    SignalIsNamed(s);
    hide DumpSignal, SignalName;
    forall t ensures SignalName(s) == SignalName(t) ==> s == t { SignalNamesDiffer(s, t); }
  }

  lemma CauseParses(c: Cause)
    ensures DumpCause(c) == JStr(CauseName(c)) && ParseCause(DumpCause(c)) == Some(c)
  {
    CauseIsNamed(c);
    hide DumpCause, CauseName;
    forall d ensures CauseName(c) == CauseName(d) ==> c == d { CauseNamesDiffer(c, d); }
  }

  lemma SupportParses(u: Support)
    ensures DumpSupport(u) == JStr(SupportName(u)) && ParseSupport(DumpSupport(u)) == Some(u)
  {
    SupportIsNamed(u);
    hide DumpSupport, SupportName;
    forall v ensures SupportName(u) == SupportName(v) ==> u == v { SupportNamesDiffer(u, v); }
  }

  lemma SignalIsNamed(s: Signal)
    ensures DumpSignal(s) == JStr(SignalName(s))
  {}

  lemma CauseIsNamed(c: Cause)
    ensures DumpCause(c) == JStr(CauseName(c))
  {}

  lemma SupportIsNamed(u: Support)
    ensures DumpSupport(u) == JStr(SupportName(u))
  {}

  lemma ObservationParses(o: ObservedSignal)
    ensures ParseObservation(DumpObservation(o)) == if ShortIds(o.evidenceIds, 1, 16) then Some(o) else None
  {
    hide Field, ParseSignal, ParseStrings, DumpSignal, Texts;
    ObservationFields(o);
    SignalParses(o.signal);
    TextsParse(o.evidenceIds);
  }

  lemma CandidateParses(h: Candidate)
    ensures ParseCandidate(DumpCandidate(h)) == Some(h)
  {
    hide Field, ParseCause, ParseSupport, ParseStrings, DumpCause, DumpSupport, Texts;
    CandidateFields(h);
    CauseParses(h.cause);
    SupportParses(h.status);
    TextsParse(h.supporting);
    TextsParse(h.conflicting);
    TextsParse(h.gaps);
  }

  ghost predicate AllShort(observations: seq<ObservedSignal>) {
    forall o :: o in observations ==> ShortIds(o.evidenceIds, 1, 16)
  }

  lemma {:induction false} ObservationsParse(observations: seq<ObservedSignal>)
    ensures ParseObservations(DumpObservations(observations))
         == if AllShort(observations) then Some(observations) else None
    decreases |observations|
  {
    hide ParseObservation, DumpObservation, ShortIds;
    if observations != [] {
      var first, rest := observations[0], observations[1..];
      assert observations == [first] + rest;
      assert DumpObservations(observations)[1..] == DumpObservations(rest);
      ObservationParses(first);
      ObservationsParse(rest);
    }
  }

  lemma {:induction false} CandidatesParse(hypotheses: seq<Candidate>)
    ensures ParseCandidates(DumpCandidates(hypotheses)) == Some(hypotheses)
    decreases |hypotheses|
  {
    hide ParseCandidate, DumpCandidate;
    if hypotheses != [] {
      assert hypotheses == [hypotheses[0]] + hypotheses[1..];
      assert DumpCandidates(hypotheses)[1..] == DumpCandidates(hypotheses[1..]);
      CandidateParses(hypotheses[0]);
      CandidatesParse(hypotheses[1..]);
    }
  }

  lemma ConclusionParses(supported: bool)
    ensures ParseConclusion(JStr(if supported then "SUPPORTED_CANDIDATES" else "ABSTAIN")) == Some(supported)
  {
    assert |"SUPPORTED_CANDIDATES"| != |"ABSTAIN"|;
  }

  lemma WellFormedIsShort(d: Decision)
    ensures WellFormed(d) ==> AllShort(d.observations)
  {
    hide ShortIds, DistinctSignals, WellFormedHypotheses, WellFormedContext, ShortCodes;
  }

  /** Reading a dumped decision gives it back exactly when the model accepts it, and nothing otherwise. */
  lemma DumpRoundTrip(d: Decision)
    ensures ParseDecision(Dump(d)) == if WellFormed(d) then Some(d) else None
  {
    hide Field, WellFormed, ParseObservations, ParseCandidates, ParseStrings, ParseConclusion, Texts, DumpObservations,
         DumpCandidates, AllShort;
    DecisionFields(d);
    ObservationsParse(d.observations);
    CandidatesParse(d.hypotheses);
    TextsParse(d.context);
    TextsParse(d.gaps);
    ConclusionParses(d.supportedCandidates);
    WellFormedIsShort(d);
  }

  // --------------------------------------------------------------- which JSON is read at all

  /** Objects with the same fields, in any order: as many, and every field of `k` found in `j`. */
  ghost predicate Reordered(j: Json, k: Json) {
    j.JObj? && k.JObj? && |j.fields| == |k.fields|
    && forall i :: 0 <= i < |k.fields| ==> Lookup(j.fields, k.fields[i].0) == Some(k.fields[i].1)
  }

  lemma TextsOnly(j: Json, values: seq<string>)
    ensures ParseStrings(j) == Some(values) <==> j == Texts(values)
  {
    TextsParse(values);
    if ParseStrings(j) == Some(values) {
      forall i | 0 <= i < |j.items| ensures j.items[i] == JStr(values[i]) { assert j.items[i] in j.items; }
      assert j.items == Texts(values).items;
    }
  }

  lemma NamesOnly(j: Json, s: Signal, c: Cause, u: Support)
    ensures ParseSignal(j) == Some(s) <==> j == DumpSignal(s)
    ensures ParseCause(j) == Some(c) <==> j == DumpCause(c)
    ensures ParseSupport(j) == Some(u) <==> j == DumpSupport(u)
  {
    SignalParses(s);
    CauseParses(c);
    SupportParses(u);
    hide DumpSignal, DumpCause, DumpSupport, SignalName, CauseName, SupportName;
  }

  /** An observation is read exactly from its own two fields. */
  lemma ObservationReadExactlyWhen(j: Json, o: ObservedSignal)
    ensures ParseObservation(j) == Some(o) <==> ShortIds(o.evidenceIds, 1, 16) && Reordered(j, DumpObservation(o))
  {
    hide Lookup, ParseSignal, ParseStrings, DumpSignal, Texts, ShortIds;
    var k := DumpObservation(o);
    assert k.fields[0] == ("signal", DumpSignal(o.signal)) && k.fields[1] == ("evidence_ids", Texts(o.evidenceIds));
    if j.JObj? && Field(j, "signal").Some? && Field(j, "evidence_ids").Some? {
      NamesOnly(Field(j, "signal").value, o.signal, HotKey, Supported);
      TextsOnly(Field(j, "evidence_ids").value, o.evidenceIds);
    }
  }

  lemma NullIsNothing()
    ensures ParseStrings(JNull).None? && ParseCause(JNull).None? && ParseSupport(JNull).None?
    ensures ParseConclusion(JNull).None?
  {}

  /** A candidate is read exactly from its own five fields. */
  lemma CandidateReadExactlyWhen(j: Json, h: Candidate)
    ensures ParseCandidate(j) == Some(h) <==> Reordered(j, DumpCandidate(h))
  {
    NullIsNothing();
    hide Lookup, ParseCause, ParseSupport, ParseStrings, DumpCause, DumpSupport, Texts;
    var k := DumpCandidate(h);
    assert k.fields[0] == ("hypothesis", DumpCause(h.cause));
    assert k.fields[1] == ("support_status", DumpSupport(h.status));
    assert k.fields[2] == ("supporting_evidence_ids", Texts(h.supporting));
    assert k.fields[3] == ("conflicting_evidence_ids", Texts(h.conflicting));
    assert k.fields[4] == ("evidence_gaps", Texts(h.gaps));
    if j.JObj? {
      NamesOnly(FieldOr(j, "hypothesis", JNull), StageElevated, h.cause, h.status);
      NamesOnly(FieldOr(j, "support_status", JNull), StageElevated, h.cause, h.status);
      TextsOnly(FieldOr(j, "supporting_evidence_ids", JNull), h.supporting);
      TextsOnly(FieldOr(j, "conflicting_evidence_ids", JNull), h.conflicting);
      TextsOnly(FieldOr(j, "evidence_gaps", JNull), h.gaps);
    }
  }

  ghost predicate AreObservations(items: seq<Json>, observations: seq<ObservedSignal>) {
    |items| == |observations| && forall i :: 0 <= i < |items| ==>
      ShortIds(observations[i].evidenceIds, 1, 16) && Reordered(items[i], DumpObservation(observations[i]))
  }

  ghost predicate AreCandidates(items: seq<Json>, hypotheses: seq<Candidate>) {
    |items| == |hypotheses| && forall i :: 0 <= i < |items| ==> Reordered(items[i], DumpCandidate(hypotheses[i]))
  }

  lemma {:induction false} ObservationsRead(items: seq<Json>, observations: seq<ObservedSignal>)
    ensures ParseObservations(items) == Some(observations) <==> AreObservations(items, observations)
    decreases |items|
  {
    hide ParseObservation, DumpObservation, ShortIds, Reordered;
    if items != [] && observations != [] {
      ObservationReadExactlyWhen(items[0], observations[0]);
      ObservationsRead(items[1..], observations[1..]);
      assert observations == [observations[0]] + observations[1..];
      if AreObservations(items[1..], observations[1..]) && AreObservations(items[..1], observations[..1]) {
        forall i | 0 < i < |items|
          ensures ShortIds(observations[i].evidenceIds, 1, 16) && Reordered(items[i], DumpObservation(observations[i]))
        {
          assert items[i] == items[1..][i - 1] && observations[i] == observations[1..][i - 1];
        }
      }
    }
  }

  lemma {:induction false} CandidatesRead(items: seq<Json>, hypotheses: seq<Candidate>)
    ensures ParseCandidates(items) == Some(hypotheses) <==> AreCandidates(items, hypotheses)
    decreases |items|
  {
    hide ParseCandidate, DumpCandidate, Reordered;
    if items != [] && hypotheses != [] {
      CandidateReadExactlyWhen(items[0], hypotheses[0]);
      CandidatesRead(items[1..], hypotheses[1..]);
      assert hypotheses == [hypotheses[0]] + hypotheses[1..];
      if AreCandidates(items[1..], hypotheses[1..]) && AreCandidates(items[..1], hypotheses[..1]) {
        forall i | 0 < i < |items| ensures Reordered(items[i], DumpCandidate(hypotheses[i])) {
          assert items[i] == items[1..][i - 1] && hypotheses[i] == hypotheses[1..][i - 1];
        }
      }
    }
  }

  /** The JSON of a decision, whatever the order of its fields. */
  ghost predicate Spells(j: Json, d: Decision) {
    && j.JObj? && |j.fields| == 7
    && Field(j, "schema_version") == Some(JStr("ops.diagnosis.decision.v3"))
    && Field(j, "input_condition") == Some(JStr("CORE_BACKLOG_PRESSURE=PRESENT"))
    && Field(j, "observations").Some? && Field(j, "observations").value.JArr?
    && AreObservations(Field(j, "observations").value.items, d.observations)
    && Field(j, "hypotheses").Some? && Field(j, "hypotheses").value.JArr?
    && AreCandidates(Field(j, "hypotheses").value.items, d.hypotheses)
    && Field(j, "context_evidence_ids") == Some(Texts(d.context))
    && Field(j, "investigation_gaps") == Some(Texts(d.gaps))
    && Field(j, "conclusion") == Some(JStr(if d.supportedCandidates then "SUPPORTED_CANDIDATES" else "ABSTAIN"))
  }

  lemma ConclusionOnly(j: Json, supported: bool)
    ensures ParseConclusion(j) == Some(supported) <==>
              j == JStr(if supported then "SUPPORTED_CANDIDATES" else "ABSTAIN")
  {
    ConclusionParses(supported);
  }

  /** A decision is read exactly from JSON that spells it, if the model accepts it. */
  lemma ReadExactlyWhen(j: Json, d: Decision)
    ensures ParseDecision(j) == Some(d) <==> WellFormed(d) && Spells(j, d)
  {
    hide Field, FieldOr, WellFormed, ParseObservations, ParseCandidates, ParseStrings, ParseConclusion, Texts,
         AreObservations, AreCandidates;
    NullIsNothing();
    if j.JObj? && |j.fields| == 7 {
      FieldOrMeans(j, "schema_version");
      FieldOrMeans(j, "input_condition");
      FieldOrMeans(j, "observations");
      FieldOrMeans(j, "hypotheses");
      FieldOrMeans(j, "context_evidence_ids");
      FieldOrMeans(j, "investigation_gaps");
      FieldOrMeans(j, "conclusion");
      TextsAreArrays(d.context);
      TextsAreArrays(d.gaps);
      var os, hs := FieldOr(j, "observations", JNull), FieldOr(j, "hypotheses", JNull);
      if os.JArr? { ObservationsRead(os.items, d.observations); }
      if hs.JArr? { CandidatesRead(hs.items, d.hypotheses); }
      TextsOnly(FieldOr(j, "context_evidence_ids", JNull), d.context);
      TextsOnly(FieldOr(j, "investigation_gaps", JNull), d.gaps);
      ConclusionOnly(FieldOr(j, "conclusion", JNull), d.supportedCandidates);
    }
  }

  lemma FieldOrMeans(j: Json, key: string)
    requires j.JObj?
    ensures FieldOr(j, key, JNull) == if Field(j, key).Some? then Field(j, key).value else JNull
  {
    hide Field;
  }

  lemma TextsAreArrays(values: seq<string>)
    ensures Texts(values).JArr?
  {}

  // --------------------------------------------------------------- what the repair checks see of it

  /** Collecting from `j` yields these identifiers. */
  ghost predicate Collects(j: Json, ids: seq<string>) {
    Collectable(j) && Collected(j) == set id | id in ids :: JStr(id)
  }

  lemma TextsItems(values: seq<string>)
    ensures StringItems(Some(Texts(values))) == Members(values)
    ensures Collects(Texts(values), values)
  {
    var j := Texts(values);
    forall id | id in values ensures JStr(id) in j.items {
      var i :| 0 <= i < |values| && values[i] == id;
      assert j.items[i] == JStr(id);
    }
  }

  lemma ObservationSeen(o: ObservedSignal)
    ensures var j := DumpObservation(o);
            && ObservationCitations(j) == Members(o.evidenceIds)
            && Get(j, "signal") == JStr(SignalName(o.signal)) && Hashable(Get(j, "signal"))
            && Collects(FieldOr(j, "evidence_ids", NO_ITEMS), o.evidenceIds)
  {
    hide Field, Texts, Collects, StringItems;
    ObservationFields(o);
    TextsItems(o.evidenceIds);
    SignalParses(o.signal);
  }

  lemma CandidateSeen(h: Candidate)
    ensures var j := DumpCandidate(h);
            && HypothesisCitations(j) == Members(h.supporting) + Members(h.conflicting)
            && Get(j, "hypothesis") == JStr(CauseName(h.cause))
            && Get(j, "support_status") == JStr(SupportName(h.status))
            && Collects(FieldOr(j, "supporting_evidence_ids", NO_ITEMS), h.supporting)
            && Collects(FieldOr(j, "conflicting_evidence_ids", NO_ITEMS), h.conflicting)
  {
    hide Field, Texts, StringItems, Collects;
    CandidateFields(h);
    TextsItems(h.supporting);
    TextsItems(h.conflicting);
    CauseParses(h.cause);
    SupportParses(h.status);
  }

  lemma ObservationsGathered(observations: seq<ObservedSignal>)
    ensures Gathered(DumpObservations(observations), ObservationCitations)
         == set o, id | o in observations && id in o.evidenceIds :: id
  {
    hide ObservationCitations, DumpObservation;
    var items := DumpObservations(observations);
    forall i | 0 <= i < |items| ensures ObservationCitations(items[i]) == Members(observations[i].evidenceIds) {
      ObservationSeen(observations[i]);
    }
    forall id ensures id in Gathered(items, ObservationCitations)
                <==> exists i :: 0 <= i < |items| && id in ObservationCitations(items[i])
    {}
    forall o, id | o in observations && id in o.evidenceIds ensures id in Gathered(items, ObservationCitations) {
      var i :| 0 <= i < |observations| && observations[i] == o;
      assert id in ObservationCitations(items[i]);
    }
  }

  lemma CandidatesGathered(hypotheses: seq<Candidate>)
    ensures Gathered(DumpCandidates(hypotheses), HypothesisCitations) == SignedIds(hypotheses)
  {
    hide HypothesisCitations, DumpCandidate;
    var items := DumpCandidates(hypotheses);
    forall i | 0 <= i < |items|
      ensures HypothesisCitations(items[i]) == Members(hypotheses[i].supporting) + Members(hypotheses[i].conflicting)
    {
      CandidateSeen(hypotheses[i]);
    }
    forall id ensures id in Gathered(items, HypothesisCitations)
                <==> exists i :: 0 <= i < |items| && id in HypothesisCitations(items[i])
    {}
    forall h, id | h in hypotheses && id in h.supporting + h.conflicting
      ensures id in Gathered(items, HypothesisCitations)
    {
      var i :| 0 <= i < |hypotheses| && hypotheses[i] == h;
      assert id in HypothesisCitations(items[i]);
    }
    forall id | id in Gathered(items, HypothesisCitations) ensures id in SignedIds(hypotheses) {
      var i :| 0 <= i < |items| && id in HypothesisCitations(items[i]);
      assert hypotheses[i] in hypotheses && id in hypotheses[i].supporting + hypotheses[i].conflicting;
    }
  }

  /** The loose collection of citations finds exactly those of a dumped decision. */
  lemma DumpedCitations(d: Decision)
    ensures LooseCitations(Dump(d)) == Citations(d)
  {
    hide Field, Texts, DumpObservations, DumpCandidates, Gathered, ObservationCitations, HypothesisCitations,
         SignedIds, Members, StringItems;
    DecisionFields(d);
    TextsItems(d.context);
    DumpedLists(d);
    ObservationsGathered(d.observations);
    CandidatesGathered(d.hypotheses);
  }

  lemma DumpedLists(d: Decision)
    ensures ListItems(Some(JArr(DumpObservations(d.observations)))) == DumpObservations(d.observations)
    ensures ListItems(Some(JArr(DumpCandidates(d.hypotheses)))) == DumpCandidates(d.hypotheses)
  {}

  /** The signals and the hypothesis pairs read from a dumped decision are its own. */
  lemma DumpedSignalsAndPairs(d: Decision)
    ensures RawSignals(Dump(d)) == Some(WireSignals(ObservedSignals(d))) && RawPairs(Dump(d)) == Some(WirePairs(d))
  {
    hide Field, DumpObservation, DumpCandidate, Get, Texts;
    DecisionFields(d);
    var os, hs := DumpObservations(d.observations), DumpCandidates(d.hypotheses);
    assert RawObservations(Dump(d)) == Some(os) && RawHypotheses(Dump(d)) == Some(hs);
    hide RawObservations, RawHypotheses, Dump;
    DumpedSignals(d.observations);
    DumpedPairs(d.hypotheses);
    assert WireSignals(ObservedSignals(d)) == set o | o in d.observations :: JStr(SignalName(o.signal));
  }

  lemma DumpedSignals(observations: seq<ObservedSignal>)
    ensures var os := DumpObservations(observations);
            && Objects(os) && (forall item :: item in os ==> Hashable(Get(item, "signal")))
            && (set item | item in os :: Get(item, "signal"))
               == set o | o in observations :: JStr(SignalName(o.signal))
  {
    hide DumpObservation, Get, SignalName;
    var os := DumpObservations(observations);
    forall i | 0 <= i < |os|
      ensures os[i].JObj? && Get(os[i], "signal") == JStr(SignalName(observations[i].signal))
    {
      ObservationIsObject(observations[i]);
      ObservationSeen(observations[i]);
    }
    forall o | o in observations
      ensures exists item :: item in os && item.JObj? && Get(item, "signal") == JStr(SignalName(o.signal))
    {
      var i :| 0 <= i < |observations| && observations[i] == o;
      assert os[i] in os;
    }
  }

  lemma ObservationIsObject(o: ObservedSignal)
    ensures DumpObservation(o).JObj?
  {}

  lemma CandidateIsObject(h: Candidate)
    ensures DumpCandidate(h).JObj?
  {}

  function PairOf(item: Json): (Json, Json)
    requires item.JObj?
  {
    (Get(item, "hypothesis"), Get(item, "support_status"))
  }

  lemma DumpedPairs(hypotheses: seq<Candidate>)
    ensures var hs := DumpCandidates(hypotheses);
            && Objects(hs)
            && (forall item :: item in hs ==>
                  Hashable(Get(item, "hypothesis")) && Hashable(Get(item, "support_status")))
            && (set item | item in hs :: (Get(item, "hypothesis"), Get(item, "support_status")))
               == set h | h in hypotheses :: (JStr(CauseName(h.cause)), JStr(SupportName(h.status)))
  {
    hide DumpCandidate, Get, CauseName, SupportName;
    var hs := DumpCandidates(hypotheses);
    forall i | 0 <= i < |hs|
      ensures hs[i].JObj?
      ensures PairOf(hs[i]) == (JStr(CauseName(hypotheses[i].cause)), JStr(SupportName(hypotheses[i].status)))
    {
      CandidateIsObject(hypotheses[i]);
      CandidateSeen(hypotheses[i]);
    }
    forall h | h in hypotheses
      ensures exists item :: item in hs && item.JObj?
                             && PairOf(item) == (JStr(CauseName(h.cause)), JStr(SupportName(h.status)))
    {
      var i :| 0 <= i < |hypotheses| && hypotheses[i] == h;
      assert hs[i] in hs;
    }
  }

  /** So are its citations, as the repair checks collect them. */
  lemma DumpedRawCitations(d: Decision)
    ensures RawCitations(Dump(d)) == Some(WireCitations(d))
  {
    hide Field, DumpObservation, DumpCandidate, Texts, Collected, Collectable;
    DecisionFields(d);
    TextsItems(d.context);
    var os, hs := DumpObservations(d.observations), DumpCandidates(d.hypotheses);
    assert RawObservations(Dump(d)) == Some(os) && RawHypotheses(Dump(d)) == Some(hs);
    DumpedSignals(d.observations);
    DumpedPairs(d.hypotheses);
    hide RawObservations, RawHypotheses, Dump;
    CollectedObservations(d.observations);
    CollectedCandidates(d.hypotheses);
    WireCitationsMean(d);
  }

  lemma WireCitationsMean(d: Decision)
    ensures WireCitations(d)
         == (set id | id in d.context :: JStr(id))
            + (set o, id | o in d.observations && id in o.evidenceIds :: JStr(id))
            + (set h, id | h in d.hypotheses && id in h.supporting :: JStr(id))
            + (set h, id | h in d.hypotheses && id in h.conflicting :: JStr(id))
  {
    forall id | id in SignedIds(d.hypotheses)
      ensures exists h :: h in d.hypotheses && (id in h.supporting || id in h.conflicting)
    {
      var h :| h in d.hypotheses && id in h.supporting + h.conflicting;
    }
    forall h, id | h in d.hypotheses && (id in h.supporting || id in h.conflicting)
      ensures id in SignedIds(d.hypotheses)
    {
      assert id in h.supporting + h.conflicting;
    }
    hide SignedIds;
  }

  lemma CollectedObservations(observations: seq<ObservedSignal>)
    ensures var os := DumpObservations(observations);
            && Objects(os) && (forall o :: o in os ==> Collectable(FieldOr(o, "evidence_ids", NO_ITEMS)))
            && (set o, x | o in os && x in Collected(FieldOr(o, "evidence_ids", NO_ITEMS)) :: x)
               == set o, id | o in observations && id in o.evidenceIds :: JStr(id)
  {
    hide DumpObservation, FieldOr, Collected, Collectable;
    var os := DumpObservations(observations);
    forall i | 0 <= i < |os|
      ensures os[i].JObj? && Collects(FieldOr(os[i], "evidence_ids", NO_ITEMS), observations[i].evidenceIds)
    {
      ObservationIsObject(observations[i]);
      ObservationSeen(observations[i]);
    }
    forall o, id | o in observations && id in o.evidenceIds
      ensures JStr(id) in set o, x | o in os && x in Collected(FieldOr(o, "evidence_ids", NO_ITEMS)) :: x
    {
      var i :| 0 <= i < |observations| && observations[i] == o;
      assert os[i] in os && JStr(id) in Collected(FieldOr(os[i], "evidence_ids", NO_ITEMS));
    }
  }

  lemma CollectedCandidates(hypotheses: seq<Candidate>)
    ensures var hs := DumpCandidates(hypotheses);
            && Objects(hs)
            && (forall h :: h in hs ==> Collectable(FieldOr(h, "supporting_evidence_ids", NO_ITEMS))
                                        && Collectable(FieldOr(h, "conflicting_evidence_ids", NO_ITEMS)))
            && (set h, x | h in hs && x in Collected(FieldOr(h, "supporting_evidence_ids", NO_ITEMS)) :: x)
               == (set h, id | h in hypotheses && id in h.supporting :: JStr(id))
            && (set h, x | h in hs && x in Collected(FieldOr(h, "conflicting_evidence_ids", NO_ITEMS)) :: x)
               == (set h, id | h in hypotheses && id in h.conflicting :: JStr(id))
  {
    hide DumpCandidate, FieldOr, Collected, Collectable;
    var hs := DumpCandidates(hypotheses);
    forall i | 0 <= i < |hs|
      ensures hs[i].JObj?
      ensures Collects(FieldOr(hs[i], "supporting_evidence_ids", NO_ITEMS), hypotheses[i].supporting)
      ensures Collects(FieldOr(hs[i], "conflicting_evidence_ids", NO_ITEMS), hypotheses[i].conflicting)
    {
      CandidateIsObject(hypotheses[i]);
      CandidateSeen(hypotheses[i]);
    }
    forall h, id | h in hypotheses && id in h.supporting
      ensures JStr(id) in set h, x | h in hs && x in Collected(FieldOr(h, "supporting_evidence_ids", NO_ITEMS)) :: x
    {
      var i :| 0 <= i < |hypotheses| && hypotheses[i] == h;
      assert hs[i] in hs && JStr(id) in Collected(FieldOr(hs[i], "supporting_evidence_ids", NO_ITEMS));
    }
    forall h, id | h in hypotheses && id in h.conflicting
      ensures JStr(id) in set h, x | h in hs && x in Collected(FieldOr(h, "conflicting_evidence_ids", NO_ITEMS)) :: x
    {
      var i :| 0 <= i < |hypotheses| && hypotheses[i] == h;
      assert hs[i] in hs && JStr(id) in Collected(FieldOr(hs[i], "conflicting_evidence_ids", NO_ITEMS));
    }
  }

  // --------------------------------------------------------------- repairs of a dumped answer

  /**
   A repair of a dumped answer stays in scope exactly when it adds no signal and no citation, keeps every hypothesis
   with its status, and drops only signals of removable observations.
   */
  lemma DumpedScope(first: Decision, d: Decision, evidence: seq<Evidence>)
    ensures Dump(first).JObj? && Removable(Dump(first), evidence).Some?
    ensures InScope(Dump(first), d, evidence) <==>
              && ObservedSignals(d) <= ObservedSignals(first)
              && (forall s :: s in ObservedSignals(first) && s !in ObservedSignals(d) ==>
                    exists o :: o in Removable(Dump(first), evidence).value && o.signal == s)
              && PairsWithin(first, d) && PairsWithin(d, first)
              && Citations(d) <= Citations(first)
  {
    hide Dump, RemovableFrom, RawSignals, RawPairs, RawCitations, WireSignals, WirePairs, WireCitations, Citations,
         ObservedSignals, Unique;
    DumpedObservationsAreThere(first);
    DumpedSignalsAndPairs(first);
    DumpedRawCitations(first);
    assert Removable(Dump(first), evidence).Some?;
    SignalsInjective(ObservedSignals(first), ObservedSignals(d), Removable(Dump(first), evidence).value);
    WirePairsWithin(first, d);
    WirePairsWithin(d, first);
    CitationsInjective(first, d);
  }

  lemma DumpedObservationsAreThere(d: Decision)
    ensures Dump(d).JObj? && RawObservations(Dump(d)).Some?
  {
    DecisionFields(d);
  }

  lemma SignalsInjective(before: set<Signal>, after: set<Signal>, removable: seq<ObservedSignal>)
    ensures WireSignals(after) <= WireSignals(before) <==> after <= before
    ensures WireSignals(before) - WireSignals(after) <= WireSignals(set o | o in removable :: o.signal) <==>
              forall s :: s in before && s !in after ==> exists o :: o in removable && o.signal == s
  {
    forall s, t ensures SignalName(s) == SignalName(t) ==> s == t { SignalNamesDiffer(s, t); }
    hide SignalName;
    WireMember(before);
    WireMember(after);
    WireMember(set o | o in removable :: o.signal);
    hide WireSignals;
    if WireSignals(after) <= WireSignals(before) {
      forall s | s in after ensures s in before { assert JStr(SignalName(s)) in WireSignals(after); }
    }
    if WireSignals(before) - WireSignals(after) <= WireSignals(set o | o in removable :: o.signal) {
      forall s | s in before && s !in after ensures exists o :: o in removable && o.signal == s {
        assert JStr(SignalName(s)) in WireSignals(before) - WireSignals(after);
      }
    }
  }

  lemma WireMember(signals: set<Signal>)
    ensures forall s :: JStr(SignalName(s)) in WireSignals(signals) <==> s in signals
    ensures forall j :: j in WireSignals(signals) ==> exists s :: s in signals && j == JStr(SignalName(s))
  {
    forall s | JStr(SignalName(s)) in WireSignals(signals) ensures s in signals {
      var t :| t in signals && JStr(SignalName(s)) == JStr(SignalName(t));
      SignalNamesDiffer(s, t);
    }
  }

  ghost predicate PairsWithin(d: Decision, e: Decision) {
    forall h :: h in d.hypotheses ==> exists k :: k in e.hypotheses && k.cause == h.cause && k.status == h.status
  }

  lemma WirePairsWithin(d: Decision, e: Decision)
    ensures WirePairs(d) <= WirePairs(e) <==> PairsWithin(d, e)
  {
    forall c, x ensures CauseName(c) == CauseName(x) ==> c == x { CauseNamesDiffer(c, x); }
    forall u, v ensures SupportName(u) == SupportName(v) ==> u == v { SupportNamesDiffer(u, v); }
    hide CauseName, SupportName;
    if WirePairs(d) <= WirePairs(e) {
      forall h | h in d.hypotheses
        ensures exists k :: k in e.hypotheses && k.cause == h.cause && k.status == h.status
      {
        assert (JStr(CauseName(h.cause)), JStr(SupportName(h.status))) in WirePairs(d);
      }
    }
  }

  lemma CitationsInjective(first: Decision, d: Decision)
    ensures WireCitations(d) <= WireCitations(first) <==> Citations(d) <= Citations(first)
  {
    hide Citations;
    if WireCitations(d) <= WireCitations(first) {
      forall id | id in Citations(d) ensures id in Citations(first) { assert JStr(id) in WireCitations(d); }
    }
  }

  /** The evidence shows the opposite of the signal at every citation. */
  ghost predicate OppositeShown(evidence: seq<Evidence>, o: ObservedSignal) {
    match o.signal
    case StageElevated => DiagnosisMeaning.AllShow(evidence, o.evidenceIds, StageLatency, WithinBaseline)
    case ReplicaShortfall => DiagnosisMeaning.AllShow(evidence, o.evidenceIds, ReplicaStatus, CapacityAvailable)
    case GuardrailDegraded => DiagnosisMeaning.AllShow(evidence, o.evidenceIds, PostgresHealth, PostgresHealthy)
  }

  lemma ContradictedMeans(evidence: seq<Evidence>, o: ObservedSignal)
    requires Unique(Ids(evidence))
    ensures Contradicted(evidence, o) <==> OppositeShown(evidence, o)
  {
    hide AllMatch, Unique;
    DiagnosisMeaning.AllMatchMeans(evidence, o.evidenceIds, StageLatency, WithinBaseline);
    DiagnosisMeaning.AllMatchMeans(evidence, o.evidenceIds, ReplicaStatus, CapacityAvailable);
    DiagnosisMeaning.AllMatchMeans(evidence, o.evidenceIds, PostgresHealth, PostgresHealthy);
  }

  /** Observation `i` of the answer is well-formed, the only one of its signal, and contradicted. */
  ghost predicate Withdrawable(first: Decision, evidence: seq<Evidence>, i: nat) {
    && i < |first.observations| && ShortIds(first.observations[i].evidenceIds, 1, 16)
    && (forall j :: 0 <= j < |first.observations| && j != i ==>
          first.observations[j].signal != first.observations[i].signal)
    && OppositeShown(evidence, first.observations[i])
  }

  lemma DumpedMentions(observations: seq<ObservedSignal>, s: Signal)
    ensures Mentions(DumpObservations(observations), s) == 1 <==>
              exists i: nat :: OnlyObservation(observations, s, i)
  {
    hide Mentions, DumpObservation, SignalName, Get;
    var items := DumpObservations(observations);
    MentionsMean(items, s);
    forall i | 0 <= i < |items| ensures Mention(items[i], s) <==> observations[i].signal == s {
      ObservationIsObject(observations[i]);
      ObservationSeen(observations[i]);
      SignalNamesDiffer(observations[i].signal, s);
    }
    if i: nat :| OnlyMention(items, s, i) { assert OnlyObservation(observations, s, i); }
    if i: nat :| OnlyObservation(observations, s, i) { assert OnlyMention(items, s, i); }
  }

  ghost predicate OnlyObservation(observations: seq<ObservedSignal>, s: Signal, i: nat) {
    && i < |observations| && observations[i].signal == s
    && forall j :: 0 <= j < |observations| && j != i ==> observations[j].signal != s
  }

  /** What a repair may drop from a dumped answer: nothing if identifiers are ambiguous, else what can be withdrawn. */
  lemma DumpedRemovable(first: Decision, evidence: seq<Evidence>, r: ObservedSignal)
    ensures Dump(first).JObj? && Removable(Dump(first), evidence).Some?
    ensures r in Removable(Dump(first), evidence).value <==>
              && Unique(Ids(evidence))
              && exists i: nat :: Withdrawable(first, evidence, i) && r == first.observations[i]
  {
    DumpedRawObservations(first);
    hide Dump, Unique, ParseObservation, DumpObservation, Contradicted, OppositeShown, Mentions, RawObservations;
    if Unique(Ids(evidence)) {
      var items := DumpObservations(first.observations);
      RemovableFromMeans(items, items, evidence);
      DumpedMentions(first.observations, r.signal);
      ContradictedMeans(evidence, r);
      forall i | 0 <= i < |items|
        ensures ParseObservation(items[i])
             == if ShortIds(first.observations[i].evidenceIds, 1, 16) then Some(first.observations[i]) else None
      {
        ObservationParses(first.observations[i]);
      }
      if item :| item in items && ParseObservation(item) == Some(r) {
        var i :| 0 <= i < |items| && items[i] == item;
        if k: nat :| OnlyObservation(first.observations, r.signal, k) {
          assert k == i;
          assert OppositeShown(evidence, r) ==> Withdrawable(first, evidence, i);
        }
      }
      if i: nat :| Withdrawable(first, evidence, i) && r == first.observations[i] {
        assert items[i] in items;
        assert OnlyObservation(first.observations, r.signal, i);
      }
    }
  }

  lemma DumpedRawObservations(d: Decision)
    ensures Dump(d).JObj? && RawObservations(Dump(d)) == Some(DumpObservations(d.observations))
  {
    hide DumpObservation;
    DecisionFields(d);
  }

  /**
   So a repair of a dumped answer is in scope exactly when it adds no signal and no citation, keeps all hypotheses and
   statuses, and drops only signals whose one observation can be withdrawn.
   */
  lemma RepairScopeExactlyWhen(first: Decision, d: Decision, evidence: seq<Evidence>)
    ensures Dump(first).JObj?
    ensures InScope(Dump(first), d, evidence) <==>
              && ObservedSignals(d) <= ObservedSignals(first)
              && (forall s :: s in ObservedSignals(first) && s !in ObservedSignals(d) ==>
                    && Unique(Ids(evidence))
                    && exists i: nat :: Withdrawable(first, evidence, i) && first.observations[i].signal == s)
              && PairsWithin(first, d) && PairsWithin(d, first)
              && Citations(d) <= Citations(first)
  {
    hide Dump, Removable, InScope, Withdrawable, Unique, ObservedSignals, Citations, PairsWithin;
    DumpedScope(first, d, evidence);
    forall r ensures r in Removable(Dump(first), evidence).value <==>
                       && Unique(Ids(evidence))
                       && exists i: nat :: Withdrawable(first, evidence, i) && i < |first.observations|
                                           && r == first.observations[i]
    {
      DumpedRemovable(first, evidence, r);
      forall i: nat | Withdrawable(first, evidence, i) ensures i < |first.observations| {
        WithdrawableFits(first, evidence, i);
      }
    }
    forall i: nat | Withdrawable(first, evidence, i) ensures i < |first.observations| {
      WithdrawableFits(first, evidence, i);
    }
  }

  lemma WithdrawableFits(first: Decision, evidence: seq<Evidence>, i: nat)
    requires Withdrawable(first, evidence, i)
    ensures i < |first.observations|
  {}

  /** An answer that only becomes well-formed on the wire, and changes nothing, is always a repair in scope. */
  lemma RepeatingIsInScope(d: Decision, evidence: seq<Evidence>)
    ensures Dump(d).JObj? && InScope(Dump(d), d, evidence)
  {
    hide InScope, Dump, Citations, ObservedSignals, Removable;
    DumpedScope(d, d, evidence);
  }
}
