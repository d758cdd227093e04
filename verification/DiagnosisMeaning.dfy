/**
 The evidence rules of the v3 contract, told item by item: which measurement each signal and each causal role requires
 (ops_agent/diagnosis_v3_validator.py and its rule tables).
 */
module DiagnosisMeaning {
  import opened Prelude
  import opened DiagnosisV3

  /** A fresh and successful result of the tool with this flag. */
  predicate Shows(e: Evidence, tool: Tool, flag: Flag) { e.ok && e.recent && e.tool == tool && e.flag == Some(flag) }

  /** Every identifier is that of an acquired item which shows the flag. */
  ghost predicate AllShow(evidence: seq<Evidence>, ids: seq<string>, tool: Tool, flag: Flag) {
    forall id :: id in ids ==> exists e :: e in evidence && e.id == id && Shows(e, tool, flag)
  }

  lemma AllMatchMeans(evidence: seq<Evidence>, ids: seq<string>, tool: Tool, flag: Flag)
    requires Unique(Ids(evidence))
    ensures AllMatch(evidence, ids, Rule(tool, flag)) <==> AllShow(evidence, ids, tool, flag)
  {
    forall id ensures Matches(evidence, id, Rule(tool, flag)) <==>
                        exists e :: e in evidence && e.id == id && Shows(e, tool, flag)
    {
      FindMeans(evidence, id);
      if e :| e in evidence && e.id == id && Shows(e, tool, flag) {
        var i :| 0 <= i < |evidence| && evidence[i] == e;
        FindOwn(evidence, i);
      }
    }
    hide Matches;
  }

  /** What an observed signal must cite. */
  ghost predicate SignalShown(evidence: seq<Evidence>, o: ObservedSignal) {
    match o.signal
    case StageElevated => AllShow(evidence, o.evidenceIds, StageLatency, AboveBaseline)
    case ReplicaShortfall => AllShow(evidence, o.evidenceIds, ReplicaStatus, CapacityShortfall)
    case GuardrailDegraded => AllShow(evidence, o.evidenceIds, PostgresHealth, PostgresDegraded)
  }

  /** What a candidate cause must cite, and what it must name as missing. */
  ghost predicate CandidateShown(evidence: seq<Evidence>, h: Candidate) {
    && (h.status == Supported ==> h.supporting != [])
    && (h.status == Conflicted ==> h.supporting != [] && h.conflicting != [])
    && (h.status == Insufficient ==> h.gaps != [])
    && match h.cause
       case WorkerCapacity =>
         && AllShow(evidence, h.supporting, ReplicaStatus, CapacityShortfall)
         && AllShow(evidence, h.conflicting, ReplicaStatus, CapacityAvailable)
       case PostgresPressure =>
         && AllShow(evidence, h.supporting, PostgresHealth, PostgresDegraded)
         && AllShow(evidence, h.conflicting, PostgresHealth, PostgresHealthy)
       case ConsumerRebalance =>
         && h.status == Insufficient && h.supporting == [] && h.conflicting == []
         && "CONSUMER_REBALANCE_TELEMETRY_UNAVAILABLE" in h.gaps
       case _ => h.status == Insufficient && h.supporting == [] && h.conflicting == []
  }

  lemma CandidateMeans(evidence: seq<Evidence>, h: Candidate)
    requires Unique(Ids(evidence))
    ensures SoundCandidate(evidence, h) <==> CandidateShown(evidence, h)
  {
    hide AllMatch, AllShow, Unique;
    AllMatchMeans(evidence, h.supporting, ReplicaStatus, CapacityShortfall);
    AllMatchMeans(evidence, h.conflicting, ReplicaStatus, CapacityAvailable);
    AllMatchMeans(evidence, h.supporting, PostgresHealth, PostgresDegraded);
    AllMatchMeans(evidence, h.conflicting, PostgresHealth, PostgresHealthy);
  }

  lemma SignalMeans(evidence: seq<Evidence>, o: ObservedSignal)
    requires Unique(Ids(evidence))
    ensures Measured(evidence, o) <==> SignalShown(evidence, o)
  {
    hide AllMatch, AllShow, Unique;
    AllMatchMeans(evidence, o.evidenceIds, StageLatency, AboveBaseline);
    AllMatchMeans(evidence, o.evidenceIds, ReplicaStatus, CapacityShortfall);
    AllMatchMeans(evidence, o.evidenceIds, PostgresHealth, PostgresDegraded);
  }

  /** The identifiers a decision cites, in any role. */
  ghost predicate Cites(d: Decision, id: string) {
    || id in d.context
    || (exists o :: o in d.observations && id in o.evidenceIds)
    || (exists h :: h in d.hypotheses && (id in h.supporting || id in h.conflicting))
  }

  lemma CitesMeans(d: Decision, id: string)
    ensures id in Citations(d) <==> Cites(d, id)
  {
    if h :| h in d.hypotheses && (id in h.supporting || id in h.conflicting) {
      assert id in h.supporting + h.conflicting;
    }
  }

  /** What is accepted, without the validator's vocabulary. */
  ghost predicate Acceptable(d: Decision, initial: seq<string>, evidence: seq<Evidence>,
                             forbidden: seq<string> -> bool) {
    && !forbidden(AllGaps(d))
    && (forall i, j :: 0 <= i < j < |evidence| ==> evidence[i].id != evidence[j].id)
    && (forall i, j :: 0 <= i < j < |initial| ==> initial[i] != initial[j])
    && (forall e :: e in evidence ==> e.id !in initial)
    && (forall id :: Cites(d, id) ==> id in initial || exists e :: e in evidence && e.id == id)
    && (forall o :: o in d.observations ==> SignalShown(evidence, o))
    && (forall h :: h in d.hypotheses ==> CandidateShown(evidence, h))
    && (d.supportedCandidates <==> exists h :: h in d.hypotheses && h.status == Supported)
    && (d.supportedCandidates || d.gaps != [] || exists h :: h in d.hypotheses && h.gaps != [])
  }

  lemma IdsMean(evidence: seq<Evidence>)
    ensures Unique(Ids(evidence)) <==> forall i, j :: 0 <= i < j < |evidence| ==> evidence[i].id != evidence[j].id
    ensures forall id :: id in Ids(evidence) <==> exists e :: e in evidence && e.id == id
  {
    forall e | e in evidence ensures e.id in Ids(evidence) {
      var i :| 0 <= i < |evidence| && evidence[i] == e;
      assert Ids(evidence)[i] == e.id;
    }
    if Unique(Ids(evidence)) {
      forall i, j | 0 <= i < j < |evidence| ensures evidence[i].id != evidence[j].id {
        assert Ids(evidence)[i] != Ids(evidence)[j];
      }
    }
  }

  /** The validator accepts exactly the decisions whose every claim rests on such evidence. */
  lemma AcceptedExactlyWhen(d: Decision, initial: seq<string>, evidence: seq<Evidence>, forbidden: seq<string> -> bool)
    ensures Validate(d, initial, evidence, forbidden).None? <==> Acceptable(d, initial, evidence, forbidden)
  {
    hide Validate, SoundCandidate, CandidateShown, Measured, SignalShown, Citations, Cites, AllGaps, Ids, AllMatch;
    ValidateMeansAdmissible(d, initial, evidence, forbidden);
    IdsMean(evidence);
    forall id ensures id in Citations(d) <==> Cites(d, id) { CitesMeans(d, id); }
    if Unique(Ids(evidence)) {
      forall o | o in d.observations ensures Measured(evidence, o) <==> SignalShown(evidence, o) {
        SignalMeans(evidence, o);
      }
      forall h | h in d.hypotheses ensures SoundCandidate(evidence, h) <==> CandidateShown(evidence, h) {
        CandidateMeans(evidence, h);
      }
    }
    hide Unique;
  }
}
