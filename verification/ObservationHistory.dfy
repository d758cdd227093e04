/**
 The bounded observation history of ops_agent/observation_history.py and the follow-up chain that feeds it
 (ops_agent/grounded_assistant.py).

 A SHA-256 digest is a constructor applied to what it digests, so equal digests mean equal contents.
 */
module ObservationHistory {
  import opened Prelude

  const VERSION := "ops.observation-history.v1"
  const MAX_ENTRIES := 8

  datatype Observations = Observations(observedAt: int, body: string)

  datatype Digest = Digest(of: Observations)

  /** Incident, scope, cluster profile and provenance. */
  datatype Identity = Identity(incident: string, scope: string, clusterProfile: string, provenance: string)

  datatype Entry = Entry(historyId: Digest, sourceRecord: string, observationsDigest: Digest, identity: Identity,
                         observations: Observations)

  datatype History = History(version: string, maxEntries: int, dropped: int, entries: seq<Entry>)

  datatype Previous = Previous(record: string, observedAt: int)

  datatype Context = Context(identity: Identity, observedAt: int, previous: Option<Previous>, history: History)

  datatype Record = Record(input: Context, observations: Observations, digest: string)

  datatype Problem =
    | InvalidEnvelope | TruncatedTail | ForeignScope | DigestMismatch | NotStrictlyOrdered | InvalidSourceDigest
    | HistoryWithoutPrevious | TailMismatch | RecordNotVerified | DifferentIncident | TimeDidNotAdvance

  predicate HexDigest(s: string) {
    |s| == 64 && forall i :: 0 <= i < |s| ==> '0' <= s[i] <= '9' || 'a' <= s[i] <= 'f'
  }

  // --------------------------------------------------------------- extension

  function EntryOf(r: Record): Entry {
    Entry(Digest(r.observations), r.digest, Digest(r.observations), r.input.identity, r.observations)
  }

  const EMPTY := History(VERSION, MAX_ENTRIES, 0, [])

  function Last<T>(s: seq<T>, n: nat): seq<T> { if |s| <= n then s else s[|s| - n..] }

  function Extended(previous: Option<Record>): History {
    if previous.None? then EMPTY
    else
      var h := previous.value.input.history;
      var all := h.entries + [EntryOf(previous.value)];
      h.(entries := Last(all, MAX_ENTRIES), dropped := h.dropped + if |all| > MAX_ENTRIES then 1 else 0)
  }

  method ExtendHistory(previous: Option<Record>) returns (history: History)
    ensures history == Extended(previous)
  {
    if previous.None? {
      return History(VERSION, MAX_ENTRIES, 0, []);
    }
    history := previous.value.input.history;
    var obs := previous.value.observations;
    history := history.(entries := history.entries
      + [Entry(Digest(obs), previous.value.digest, Digest(obs), previous.value.input.identity, obs)]);
    if |history.entries| > MAX_ENTRIES {
      history := history.(entries := history.entries[|history.entries| - MAX_ENTRIES..]);
      history := history.(dropped := history.dropped + 1);
    }
  }

  // --------------------------------------------------------------- validation

  predicate ValidEnvelope(h: History) {
    && h.version == "ops.observation-history.v1" && h.maxEntries == 8
    && h.dropped >= 0 && |h.entries| <= 8
    && (h.dropped > 0 ==> |h.entries| == 8)
  }

  predicate ValidEntry(c: Context, e: Entry) {
    && e.identity == c.identity
    && e.observationsDigest == e.historyId == Digest(e.observations)
    && e.observations.observedAt < c.observedAt
    && HexDigest(e.sourceRecord)
  }

  /** One incident and scope, true digests, strictly increasing times before the present, and the right tail. */
  ghost predicate ValidHistory(c: Context) {
    var entries := c.history.entries;
    && ValidEnvelope(c.history)
    && (forall e :: e in entries ==> ValidEntry(c, e))
    && (forall i, j :: 0 <= i < j < |entries| ==>
       entries[i].observations.observedAt < entries[j].observations.observedAt)
    && match c.previous
       case None => entries == [] && c.history.dropped == 0
       case Some(p) =>
         && entries != []
         && entries[|entries| - 1].sourceRecord == p.record
         && entries[|entries| - 1].observations.observedAt == p.observedAt
  }

  /** The checks of one entry, in the source's order. */
  function EntryProblem(c: Context, e: Entry, seen: set<Digest>, earlier: Option<int>): Option<Problem> {
    var stamp := e.observations.observedAt;
    if e.identity != c.identity then Some(ForeignScope)
    else if e.observationsDigest != Digest(e.observations) || e.historyId != Digest(e.observations) then
      Some(DigestMismatch)
    else if e.historyId in seen || stamp >= c.observedAt || (earlier.Some? && stamp <= earlier.value) then
      Some(NotStrictlyOrdered)
    else if !HexDigest(e.sourceRecord) then Some(InvalidSourceDigest)
    else None
  }

  method ValidateHistory(c: Context) returns (problem: Option<Problem>)
    ensures problem.None? <==> ValidHistory(c)
  {
    var h := c.history;
    if h.version != VERSION || h.maxEntries != MAX_ENTRIES || h.dropped < 0 || |h.entries| > MAX_ENTRIES {
      return Some(InvalidEnvelope);
    }
    if h.dropped != 0 && |h.entries| != MAX_ENTRIES {
      return Some(TruncatedTail);
    }
    var seen: set<Digest> := {};
    var earlier: Option<int> := None;
    for k := 0 to |h.entries|
      invariant forall i :: 0 <= i < k ==> ValidEntry(c, h.entries[i])
      invariant forall i, j :: 0 <= i < j < k ==>
                  h.entries[i].observations.observedAt < h.entries[j].observations.observedAt
      invariant seen == set i | 0 <= i < k :: h.entries[i].historyId
      invariant earlier == if k == 0 then None else Some(h.entries[k - 1].observations.observedAt)
    {
      var e := h.entries[k];
      problem := EntryProblem(c, e, seen, earlier);
      if problem.Some? {
        assert e in h.entries;
        return;
      }
      seen := seen + {e.historyId};
      earlier := Some(e.observations.observedAt);
    }
    match c.previous {
      case None =>
        if h.entries != [] || h.dropped != 0 { return Some(HistoryWithoutPrevious); }
      case Some(p) =>
        if h.entries == [] || h.entries[|h.entries| - 1].sourceRecord != p.record
            || h.entries[|h.entries| - 1].observations.observedAt != p.observedAt {
          return Some(TailMismatch);
        }
    }
    return None;
  }

  // --------------------------------------------------------------- a chain of follow-ups

  /** A new observation: its identity and time, the facts computed from it, and the digest of the finished record. */
  datatype FollowUp = FollowUp(identity: Identity, observedAt: int, body: string, digest: string)

  function Prepared(previous: Option<Record>, f: FollowUp): Context {
    Context(f.identity, f.observedAt,
            if previous.None? then None else Some(Previous(previous.value.digest, previous.value.input.observedAt)),
            Extended(previous))
  }

  /** `intact`: the digest, the facts and the model status of the previous record are in order. */
  method Follow(previous: Option<Record>, intact: bool, f: FollowUp) returns (r: Result<Record, Problem>)
    ensures r.Ok? <==>
      && (previous.Some? ==> intact && ValidHistory(previous.value.input))
      && (previous.Some? ==>
         previous.value.input.identity == f.identity && previous.value.input.observedAt < f.observedAt)
      && ValidHistory(Prepared(previous, f))
    ensures r.Ok? ==> r.value == Record(Prepared(previous, f), Observations(f.observedAt, f.body), f.digest)
  {
    var context := Context(f.identity, f.observedAt, None, EMPTY);
    if previous.Some? {
      if !intact { return Err(RecordNotVerified); }
      var earlier := ValidateHistory(previous.value.input);
      if earlier.Some? { return Err(earlier.value); }
      if previous.value.input.identity != f.identity { return Err(DifferentIncident); }
      if previous.value.input.observedAt >= f.observedAt { return Err(TimeDidNotAdvance); }
      context := context.(previous := Some(Previous(previous.value.digest, previous.value.input.observedAt)));
    }
    var history := ExtendHistory(previous);
    context := context.(history := history);
    var problem := ValidateHistory(context);
    if problem.Some? { return Err(problem.value); }
    return Ok(Record(context, Observations(f.observedAt, f.body), f.digest));
  }

  /** The record after the follow-ups `fs`, when none is rejected. */
  function Chained(fs: seq<FollowUp>): Option<Record> {
    if fs == [] then None
    else
      var f := fs[|fs| - 1];
      Some(Record(Prepared(Chained(fs[..|fs| - 1]), f), Observations(f.observedAt, f.body), f.digest))
  }

  /** Fixed identity, strictly advancing time, SHA-256 digests. */
  ghost predicate Advancing(fs: seq<FollowUp>) {
    && (forall i :: 0 <= i < |fs| ==> fs[i].identity == fs[0].identity && HexDigest(fs[i].digest))
    && (forall i, j :: 0 <= i < j < |fs| ==> fs[i].observedAt < fs[j].observedAt)
  }

  function EntryFor(f: FollowUp): Entry {
    var obs := Observations(f.observedAt, f.body);
    Entry(Digest(obs), f.digest, Digest(obs), f.identity, obs)
  }

  function EntriesFor(fs: seq<FollowUp>): seq<Entry> {
    seq(|fs|, i requires 0 <= i < |fs| => EntryFor(fs[i]))
  }

  /** After `n` predecessors: exactly the last `min(n, 8)` of them in order, and `max(0, n - 8)` counted as dropped. */
  lemma {:induction false} ChainHistory(fs: seq<FollowUp>)
    requires fs != []
    ensures var h, n := Chained(fs).value.input.history, |fs| - 1;
            var gone := if n > 8 then n - 8 else 0;
            && h.entries == EntriesFor(fs[gone..n]) && h.dropped == gone
            && h.version == VERSION && h.maxEntries == 8
    decreases |fs|
  {
    var n := |fs| - 1;
    var front := fs[..n];
    if n > 0 {
      ChainHistory(front);
      assert EntryOf(Chained(front).value) == EntryFor(fs[n - 1]);
      hide EntryFor;
      var gone := if n > 9 then n - 9 else 0;
      assert front[gone..n - 1] == fs[gone..n - 1];
      EntriesSnoc(fs, gone, n - 1);
      if n > 8 { EntriesDrop(fs, gone, n); }
    }
  }

  lemma EntriesSnoc(fs: seq<FollowUp>, m: nat, n: nat)
    requires m <= n < |fs|
    ensures EntriesFor(fs[m..n + 1]) == EntriesFor(fs[m..n]) + [EntryFor(fs[n])]
  {
    hide EntryFor;
  }

  lemma EntriesDrop(fs: seq<FollowUp>, m: nat, n: nat)
    requires m < n <= |fs|
    ensures EntriesFor(fs[m + 1..n]) == EntriesFor(fs[m..n])[1..]
  {
    hide EntryFor;
  }

  /** Entry `i` of the bounded history stems from a follow-up of the chain, and later entries from later ones. */
  lemma ChainEntry(fs: seq<FollowUp>, i: nat) returns (source: nat)
    requires fs != [] && i < |Chained(fs).value.input.history.entries|
    ensures source == i + (if |fs| - 1 > 8 then |fs| - 1 - 8 else 0) < |fs| - 1
    ensures Chained(fs).value.input.history.entries[i] == EntryFor(fs[source])
  {
    hide Chained, EntryFor;
    ChainHistory(fs);
    source := i + if |fs| - 1 > 8 then |fs| - 1 - 8 else 0;
  }

  lemma ChainEntriesValid(fs: seq<FollowUp>, c: Context)
    requires fs != [] && Advancing(fs) && c == Chained(fs).value.input
    ensures forall e :: e in c.history.entries ==> ValidEntry(c, e)
    ensures forall i, j :: 0 <= i < j < |c.history.entries|
              ==> c.history.entries[i].observations.observedAt < c.history.entries[j].observations.observedAt
  {
    forall e | e in c.history.entries ensures ValidEntry(c, e) {
      var i :| 0 <= i < |c.history.entries| && c.history.entries[i] == e;
      var source := ChainEntry(fs, i);
      assert fs[source].identity == fs[|fs| - 1].identity;
    }
    forall i, j | 0 <= i < j < |c.history.entries|
      ensures c.history.entries[i].observations.observedAt < c.history.entries[j].observations.observedAt
    {
      var a := ChainEntry(fs, i);
      var b := ChainEntry(fs, j);
    }
  }

  /** Validation accepts at every step of such a chain, so `Follow` never rejects. */
  lemma ChainIsAccepted(fs: seq<FollowUp>)
    requires fs != [] && Advancing(fs)
    ensures var previous := Chained(fs[..|fs| - 1]);
            && ValidHistory(Prepared(previous, fs[|fs| - 1]))
            && (previous.Some? ==> ValidHistory(previous.value.input)
                                   && previous.value.input.identity == fs[|fs| - 1].identity
                                   && previous.value.input.observedAt < fs[|fs| - 1].observedAt)
  {
    hide ValidHistory;
    var front := fs[..|fs| - 1];
    ChainStepIsValid(fs);
    if front != [] {
      assert Advancing(front);
      ChainStepIsValid(front);
    }
  }

  lemma ChainStepIsValid(fs: seq<FollowUp>)
    requires fs != [] && Advancing(fs)
    ensures ValidHistory(Chained(fs).value.input)
  {
    var c := Chained(fs).value.input;
    ChainHistory(fs);
    ChainEntriesValid(fs, c);
    if |fs| > 1 {
      var front := fs[..|fs| - 1];
      assert |c.history.entries| > 0;
      var source := ChainEntry(fs, |c.history.entries| - 1);
      assert Chained(front).value.digest == fs[source].digest;
    }
  }
}
