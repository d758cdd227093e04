/**
 The follow-up session of ops_agent/followup_replay.py: one capture at a time, each append re-evaluating the whole
 prefix under recovery policy v2.

 `append` poisons its session on the four kinds of error that it catches; another error leaves the session as it is,
 with or without the document.  `Next` is what one `append` does to the session; the class carries the fields.  The
 theorems compare every run of appends with a single evaluation of all captures.
 */
module FollowupReplay {
  import opened Prelude
  import opened Recovery

  const MAX_FOLLOWUPS := 253

  datatype Status = AwaitingFollowup | Eligible | Blocked | Closed

  /** Last end and committed offset per partition, or the kind of error that reading them raises. */
  datatype Heads = Heads(at: map<(string, string), int>) | Unreadable(foreseen: bool)

  /**
   `parse`: parsing the document and checking that it names this incident; `digest`: its digest; `projection`: building
   the tools over it.  The capture says what becomes of evaluating it.
   */
  datatype Document = Document(parse: Attempt, heads: Heads, digest: Attempt, capture: Capture, projection: Attempt)

  datatype Boundary = At(index: nat, state: State) | InvalidInput

  /** One step record; the digest of the previous record is the record itself. */
  datatype Step = Step(index: nat, status: Status, state: Option<State>, boundary: Option<Boundary>,
                       previous: Option<Step>)

  datatype Session = Session(post: seq<Document>, status: Status, last: Option<Step>, boundary: Option<Boundary>)

  const FRESH := Session([], AwaitingFollowup, None, None)

  predicate Decided(status: Status) { status == Blocked || status == Closed }

  // --------------------------------------------------------------- one append

  predicate HeadsContinue(before: Heads, now: Heads) {
    && before.Heads? && now.Heads? && before.at.Keys == now.at.Keys
    && forall k :: k in before.at ==> before.at[k] <= now.at[k]
  }

  function HeadsBefore(activationHeads: Heads, post: seq<Document>): Heads {
    if post == [] then activationHeads else post[|post| - 1].heads
  }

  /** Comparing the heads: the earlier ones are read first, and a reset is a foreseen error. */
  function HeadsReading(before: Heads, now: Heads): Attempt {
    if before.Unreadable? then if before.foreseen then Foreseen else Unforeseen
    else if now.Unreadable? then if now.foreseen then Foreseen else Unforeseen
    else if HeadsContinue(before, now) then Fine else Foreseen
  }

  /** The replay computes the digests itself and has checked the incident, so those two checks hold. */
  function CaptureOf(d: Document): Capture { d.capture.(digestMatches := true, incidentMatches := true) }

  function Captures(docs: seq<Document>): seq<Capture> {
    seq(|docs|, i requires 0 <= i < |docs| => CaptureOf(docs[i]))
  }

  /** The digests of all stored documents, in order. */
  function Digests(docs: seq<Document>): Attempt {
    if docs == [] then Fine
    else
      var before := Digests(docs[..|docs| - 1]);
      if before != Fine then before else docs[|docs| - 1].digest
  }

  /** What becomes of an append up to storing the document after `post`. */
  function Storing(activationHeads: Heads, post: seq<Document>, decided: bool, d: Document): Attempt {
    if |post| >= MAX_FOLLOWUPS then Foreseen
    else if d.parse != Fine then d.parse
    else if decided then Fine
    else HeadsReading(HeadsBefore(activationHeads, post), d.heads)
  }

  /** What becomes of it once the stored documents are `post`. */
  function Recording(post: seq<Document>, decided: bool): Attempt {
    if Digests(post) != Fine then Digests(post) else if decided then Fine else Reads(Captures(post))
  }

  function Outcome(activationHeads: Heads, post: seq<Document>, decided: bool, d: Document): Attempt {
    var storing := Storing(activationHeads, post, decided, d);
    if storing != Fine then storing else Recording(post + [d], decided)
  }

  /** The handler: it catches the foreseen errors, and poisons the session unless it is closed. */
  function Handled(s: Session, error: Attempt): Session {
    if error == Unforeseen || s.status == Closed then s else s.(status := Blocked, boundary := Some(InvalidInput))
  }

  function StatusOf(state: State): Status {
    if state == Unknown then Blocked else if state == Recovered then Closed else Eligible
  }

  /** The session once the document is stored and all stored ones can be evaluated. */
  function Recorded(a: Activation, s: Session, d: Document): Session {
    var post, n := s.post + [d], |s.post|;
    if Decided(s.status) then s.(post := post, last := Some(Step(n, s.status, None, s.boundary, s.last)))
    else
      var state := Evaluate(V2, a, Captures(post)).state;
      var status := StatusOf(state);
      var boundary := if status == Eligible then s.boundary else Some(At(n, state));
      Session(post, status, Some(Step(n, status, Some(state), boundary, s.last)), boundary)
  }

  function Next(a: Activation, activationHeads: Heads, s: Session, d: Document): Session {
    var storing := Storing(activationHeads, s.post, Decided(s.status), d);
    var recording := Recording(s.post + [d], Decided(s.status));
    if storing != Fine then Handled(s, storing)
    else if recording != Fine then Handled(s.(post := s.post + [d]), recording)
    else Recorded(a, s, d)
  }

  datatype Failure = FollowupInputRejected | Uncaught | NoOpenHistory | ProjectionFailed(error: Attempt)

  /** The document that a registry projects, and the step record that it shows with it. */
  datatype Projection = Projection(document: Document, step: Option<Step>)

  class Replay {
    const activation: Activation
    const activationHeads: Heads
    var post: seq<Document>
    var status: Status
    var last: Option<Step>
    var boundary: Option<Boundary>
    ghost var documents: seq<Document>   // all documents appended so far, those not stored included

    ghost function Snapshot(): Session
      reads this
    {
      Session(post, status, last, boundary)
    }

    ghost predicate Valid()
      reads this
    {
      Snapshot() == Run(activation, activationHeads, documents)
    }

    constructor (activation: Activation, activationHeads: Heads)
      ensures this.activation == activation && this.activationHeads == activationHeads
      ensures Valid() && documents == [] && Snapshot() == FRESH
    {
      this.activation, this.activationHeads := activation, activationHeads;
      post, status, last, boundary := [], AwaitingFollowup, None, None;
      documents := [];
    }

    /** A foreseen error poisons the session unless it is closed; an unforeseen one leaves the method. */
    method Append(d: Document) returns (r: Result<Step, Failure>)
      requires Valid()
      modifies this
      ensures Valid() && documents == old(documents) + [d]
      ensures Snapshot() == Next(activation, activationHeads, old(Snapshot()), d)
      ensures var outcome := Outcome(activationHeads, old(post), Decided(old(status)), d);
              && (r.Ok? <==> outcome == Fine)
              && (r.Err? ==> r.error == if outcome == Foreseen then FollowupInputRejected else Uncaught)
      ensures r.Ok? ==> last == Some(r.value)
    {
      hide Evaluate, HeadsContinue, Storing, Digests, Reads, Run;
      RunUnfolds(activation, activationHeads, documents + [d]);
      assert (documents + [d])[..|documents|] == documents;
      documents := documents + [d];
      var error := Store(d);
      if error == Fine {
        error := Digests(post);
        if error == Fine {
          var state: Option<State> := None;
          if !Decided(status) {
            var evaluation := EvaluateCaptures(V2, activation, Captures(post));
            if evaluation.Err? {
              error := evaluation.error;
            } else {
              state := Some(evaluation.value.state);
              status := StatusOf(evaluation.value.state);
              if status != Eligible {
                boundary := Some(At(|post| - 1, evaluation.value.state));
              }
            }
          }
          if error == Fine {
            var step := Step(|post| - 1, status, state, boundary, last);
            last := Some(step);
            return Ok(step);
          }
        }
      }
      if error == Unforeseen { return Err(Uncaught); }
      if status != Closed {
        status := Blocked;
        boundary := Some(InvalidInput);
      }
      return Err(FollowupInputRejected);
    }

    /** The part of `append` before the digests. */
    method Store(d: Document) returns (error: Attempt)
      modifies this`post
      ensures error == Storing(activationHeads, old(post), Decided(status), d)
      ensures post == if error == Fine then old(post) + [d] else old(post)
    {
      hide HeadsContinue;
      if |post| >= MAX_FOLLOWUPS { return Foreseen; }
      if d.parse != Fine { return d.parse; }
      if !Decided(status) {
        var previous := if post == [] then activationHeads else post[|post| - 1].heads;
        if previous.Unreadable? { return if previous.foreseen then Foreseen else Unforeseen; }
        if d.heads.Unreadable? { return if d.heads.foreseen then Foreseen else Unforeseen; }
        if !HeadsContinue(previous, d.heads) { return Foreseen; }
      }
      post := post + [d];
      return Fine;
    }

    /**
     A projection is that of the last stored document, shown with the last step, and is handed out exactly when no
     document closed or blocked the session, some document was evaluated, and the projection can be built.
     */
    method Registry() returns (r: Result<Projection, Failure>)
      requires Valid()
      ensures var kept := Kept(activationHeads, documents);
              var open := OpenThroughout(activation, activationHeads, documents);
              if open && Accepted(activationHeads, documents) != [] then
                && kept != []
                && r == var d := kept[|kept| - 1];
                        if d.projection == Fine then Ok(Projection(d, last)) else Err(ProjectionFailed(d.projection))
              else r == Err(NoOpenHistory)
    {
      hide Run, OpenThroughout, Kept, Accepted;
      EligibleExactlyWhen(activation, activationHeads, documents);
      AcceptedWasKept(activationHeads, documents);
      if status != Eligible { return Err(NoOpenHistory); }
      var d := post[|post| - 1];
      if d.projection != Fine { return Err(ProjectionFailed(d.projection)); }
      return Ok(Projection(d, last));
    }
  }

  // --------------------------------------------------------------- runs

  function Run(a: Activation, heads: Heads, docs: seq<Document>): Session {
    if docs == [] then FRESH else Next(a, heads, Run(a, heads, docs[..|docs| - 1]), docs[|docs| - 1])
  }

  lemma RunUnfolds(a: Activation, heads: Heads, docs: seq<Document>)
    requires docs != []
    ensures Run(a, heads, docs) == Next(a, heads, Run(a, heads, docs[..|docs| - 1]), docs[|docs| - 1])
  {
    hide Next;
  }

  lemma NextWhenDecided(a: Activation, heads: Heads, s: Session, d: Document)
    requires Decided(s.status)
    ensures Next(a, heads, s, d).status == s.status
    ensures s.status == Closed ==> Next(a, heads, s, d).boundary == s.boundary
  {
    hide Storing, Recording, Evaluate;
  }

  /** BLOCKED and CLOSED are never left, and the boundary of a closed session never changes. */
  lemma {:induction false} DecidedForever(a: Activation, heads: Heads, docs: seq<Document>, n: nat)
    requires n <= |docs| && Decided(Run(a, heads, docs[..n]).status)
    ensures Run(a, heads, docs).status == Run(a, heads, docs[..n]).status
    ensures Run(a, heads, docs).status == Closed ==> Run(a, heads, docs).boundary == Run(a, heads, docs[..n]).boundary
    decreases |docs|
  {
    hide Next;
    if n < |docs| {
      var front := docs[..|docs| - 1];
      assert front[..n] == docs[..n];
      DecidedForever(a, heads, front, n);
      NextWhenDecided(a, heads, Run(a, heads, front), docs[|docs| - 1]);
    } else {
      assert docs[..n] == docs;
    }
  }

  /**
   The boundary of a blocked session can change: exactly when an append is rejected while the boundary is not
   INVALID_INPUT.
   */
  lemma BlockedBoundaryChangesExactlyWhen(a: Activation, heads: Heads, docs: seq<Document>, d: Document)
    requires Run(a, heads, docs).status == Blocked
    ensures var s, t := Run(a, heads, docs), Run(a, heads, docs + [d]);
            && t.status == Blocked
            && (t.boundary != s.boundary
                <==> Outcome(heads, s.post, true, d) == Foreseen && s.boundary != Some(InvalidInput))
  {
    hide Storing, Recording, Evaluate, Run;
    RunUnfolds(a, heads, docs + [d]);
    assert (docs + [d])[..|docs|] == docs;
  }

  // --------------------------------------------------------------- when a session stays open

  /** The documents that a session stores while it stays open, told without the session. */
  function Kept(heads: Heads, docs: seq<Document>): seq<Document> {
    if docs == [] then []
    else
      var post, d := Kept(heads, docs[..|docs| - 1]), docs[|docs| - 1];
      if Storing(heads, post, false, d) == Fine then post + [d] else post
  }

  /** The documents whose append succeeds while the session stays open. */
  function Accepted(heads: Heads, docs: seq<Document>): seq<Document> {
    if docs == [] then []
    else
      var front, d := docs[..|docs| - 1], docs[|docs| - 1];
      Accepted(heads, front) + if Outcome(heads, Kept(heads, front), false, d) == Fine then [d] else []
  }

  /** After `post`, the document leaves an open session open: it evaluates so, or its error escapes. */
  predicate LeavesOpen(a: Activation, heads: Heads, post: seq<Document>, d: Document) {
    match Outcome(heads, post, false, d)
    case Fine => StatusOf(Evaluate(V2, a, Captures(post + [d])).state) == Eligible
    case Foreseen => false
    case Unforeseen => true
  }

  ghost predicate OpenThroughout(a: Activation, heads: Heads, docs: seq<Document>) {
    forall n :: 0 <= n < |docs| ==> LeavesOpen(a, heads, Kept(heads, docs[..n]), docs[n])
  }

  lemma OpenPrefix(a: Activation, heads: Heads, docs: seq<Document>)
    requires docs != []
    ensures var front := docs[..|docs| - 1];
            OpenThroughout(a, heads, docs) <==>
              OpenThroughout(a, heads, front) && LeavesOpen(a, heads, Kept(heads, front), docs[|docs| - 1])
  {
    hide LeavesOpen, Kept;
    var front := docs[..|docs| - 1];
    assert forall n :: 0 <= n < |front| ==> front[..n] == docs[..n] && front[n] == docs[n];
  }

  /** One append to an undecided session. */
  lemma NextWhileOpen(a: Activation, heads: Heads, s: Session, d: Document)
    requires !Decided(s.status)
    ensures var t, outcome := Next(a, heads, s, d), Outcome(heads, s.post, false, d);
            var state := Evaluate(V2, a, Captures(s.post + [d])).state;
            && t.post == (if Storing(heads, s.post, false, d) == Fine then s.post + [d] else s.post)
            && (!Decided(t.status) <==> LeavesOpen(a, heads, s.post, d))
            && (!Decided(t.status) ==> t.boundary == s.boundary)
            && (outcome == Unforeseen ==> t.status == s.status && t.last == s.last)
            && (outcome == Foreseen ==> t.status == Blocked && t.boundary == Some(InvalidInput))
            && (outcome == Fine ==>
                  && t.status == StatusOf(state)
                  && t.last == Some(Step(|s.post|, t.status, Some(state), t.boundary, s.last)))
            && (t.status == Closed <==> outcome == Fine && state == Recovered)
            && (t.status == Closed ==> t.boundary == Some(At(|s.post|, Recovered)))
  {
    hide Evaluate, Storing, Recording, Captures;
  }

  /**
   A session is open exactly when every document left it open, and then holds the documents told above; it is ELIGIBLE
   when one of them was accepted.
   */
  lemma {:induction false} EligibleExactlyWhen(a: Activation, heads: Heads, docs: seq<Document>)
    ensures var s := Run(a, heads, docs);
            && (s.status == Eligible <==> OpenThroughout(a, heads, docs) && Accepted(heads, docs) != [])
            && (s.status == AwaitingFollowup <==> OpenThroughout(a, heads, docs) && Accepted(heads, docs) == [])
            && (!Decided(s.status) ==> s.post == Kept(heads, docs) && s.boundary == None)
    decreases |docs|
  {
    hide Run, Evaluate, OpenThroughout, Next, Storing, Outcome, LeavesOpen, StatusOf, Captures;
    if docs == [] {
      EmptyRun(a, heads);
    } else {
      var front, d := docs[..|docs| - 1], docs[|docs| - 1];
      var s := Run(a, heads, front);
      EligibleExactlyWhen(a, heads, front);
      OpenPrefix(a, heads, docs);
      RunUnfolds(a, heads, docs);
      if Decided(s.status) {
        assert docs[..|front|] == front;
        DecidedForever(a, heads, docs, |front|);
      } else {
        NextWhileOpen(a, heads, s, d);
        OpenStatus(a, heads, s.post, d);
      }
    }
  }

  lemma OpenStatus(a: Activation, heads: Heads, post: seq<Document>, d: Document)
    ensures LeavesOpen(a, heads, post, d) && Outcome(heads, post, false, d) == Fine ==>
              StatusOf(Evaluate(V2, a, Captures(post + [d])).state) == Eligible
  {}

  lemma EmptyRun(a: Activation, heads: Heads)
    ensures Run(a, heads, []) == FRESH && OpenThroughout(a, heads, [])
    ensures Kept(heads, []) == [] && Accepted(heads, []) == []
  {}

  // --------------------------------------------------------------- what invalid input does

  /** The document's error is one that the handler does not catch. */
  predicate ErrorEscapes(heads: Heads, post: seq<Document>, d: Document) {
    var reading, all := HeadsReading(HeadsBefore(heads, post), d.heads), post + [d];
    && |post| < MAX_FOLLOWUPS
    && (|| d.parse == Unforeseen
        || (d.parse == Fine && reading == Unforeseen)
        || (d.parse == Fine && reading == Fine && Digests(all) == Unforeseen)
        || (d.parse == Fine && reading == Fine && Digests(all) == Fine && Reads(Captures(all)) == Unforeseen))
  }

  /**
   An unusable document blocks an open session exactly when its error is caught; otherwise the session stays as it
   was.
   */
  lemma InvalidInputBlocksExactlyWhen(a: Activation, heads: Heads, s: Session, d: Document)
    requires !Decided(s.status) && Outcome(heads, s.post, false, d) != Fine
    ensures var t := Next(a, heads, s, d);
            && (t.status == Blocked <==> !ErrorEscapes(heads, s.post, d))
            && (ErrorEscapes(heads, s.post, d) ==> t.status == s.status && t.last == s.last && t.boundary == s.boundary)
  {
    hide Evaluate, Digests, Reads, HeadsReading, Captures;
  }

  /** If document n is unusable and meets an open session, it blocks it. */
  ghost predicate FailsClosedAt(a: Activation, heads: Heads, docs: seq<Document>, n: nat)
    requires n < |docs|
  {
    !Decided(Run(a, heads, docs[..n]).status) && Outcome(heads, Kept(heads, docs[..n]), false, docs[n]) != Fine
    ==> Run(a, heads, docs[..n + 1]).status == Blocked
  }

  /** The error of document n escapes from an open session. */
  ghost predicate EscapesAt(a: Activation, heads: Heads, docs: seq<Document>, n: nat)
    requires n < |docs|
  {
    !Decided(Run(a, heads, docs[..n]).status) && ErrorEscapes(heads, Kept(heads, docs[..n]), docs[n])
  }

  /** A session fails closed, as its documentation promises, exactly when no error escapes while it is open. */
  lemma FailsClosedExactlyWhen(a: Activation, heads: Heads, docs: seq<Document>)
    ensures (forall n: nat :: n < |docs| ==> FailsClosedAt(a, heads, docs, n))
            <==> (forall n: nat :: n < |docs| ==> !EscapesAt(a, heads, docs, n))
  {
    hide FailsClosedAt, EscapesAt;
    forall n: nat | n < |docs| ensures FailsClosedAt(a, heads, docs, n) <==> !EscapesAt(a, heads, docs, n) {
      FailsClosedOrEscapes(a, heads, docs, n);
    }
  }

  lemma FailsClosedOrEscapes(a: Activation, heads: Heads, docs: seq<Document>, n: nat)
    requires n < |docs|
    ensures FailsClosedAt(a, heads, docs, n) <==> !EscapesAt(a, heads, docs, n)
  {
    hide Run, Next, Outcome, ErrorEscapes, Kept, OpenThroughout;
    EligibleExactlyWhen(a, heads, docs[..n]);
    RunUnfolds(a, heads, docs[..n + 1]);
    assert docs[..n + 1][..n] == docs[..n];
    var s, d := Run(a, heads, docs[..n]), docs[n];
    if !Decided(s.status) && Outcome(heads, s.post, false, d) != Fine { InvalidInputBlocksExactlyWhen(a, heads, s, d); }
    if Outcome(heads, s.post, false, d) == Fine { FineDoesNotEscape(heads, s.post, d); }
  }

  lemma FineDoesNotEscape(heads: Heads, post: seq<Document>, d: Document)
    requires Outcome(heads, post, false, d) == Fine
    ensures !ErrorEscapes(heads, post, d)
  {
    hide Digests, Reads, HeadsReading, Captures;
  }

  /** Some stored document cannot be digested or evaluated. */
  predicate Stuck(post: seq<Document>) { Recording(post, false) != Fine }

  lemma StuckGrows(post: seq<Document>, d: Document)
    requires Stuck(post)
    ensures Stuck(post + [d])
    ensures Digests(post) == Fine && d.digest == Fine ==> Recording(post + [d], false) == Recording(post, false)
  {
    hide Reads;
    assert (post + [d])[..|post|] == post;
    assert Captures(post + [d])[..|post|] == Captures(post);
    ReadsPrefix(Captures(post + [d]), |post|);
  }

  /** What was accepted was stored first, and all that was stored was accepted unless the session is stuck. */
  lemma {:induction false} AcceptedWasKept(heads: Heads, docs: seq<Document>)
    ensures Accepted(heads, docs) <= Kept(heads, docs)
    ensures !Stuck(Kept(heads, docs)) <==> Accepted(heads, docs) == Kept(heads, docs)
    decreases |docs|
  {
    hide Storing, Stuck, Outcome;
    if docs == [] {
      NothingIsStuck();
    } else {
      var front, d := docs[..|docs| - 1], docs[|docs| - 1];
      AcceptedWasKept(heads, front);
      OutcomeMeans(heads, Kept(heads, front), d);
      if Stuck(Kept(heads, front)) { StuckGrows(Kept(heads, front), d); }
    }
  }

  lemma NothingIsStuck()
    ensures !Stuck([])
  {}

  lemma OutcomeMeans(heads: Heads, post: seq<Document>, d: Document)
    ensures Outcome(heads, post, false, d) == Fine <==> Storing(heads, post, false, d) == Fine && !Stuck(post + [d])
  {
    hide Storing, Recording;
  }

  /** Once stuck, a session never accepts a document again; it can only be poisoned. */
  lemma StuckForever(heads: Heads, docs: seq<Document>, d: Document)
    requires Stuck(Kept(heads, docs))
    ensures Outcome(heads, Kept(heads, docs), false, d) != Fine && Accepted(heads, docs + [d]) == Accepted(heads, docs)
  {
    hide Storing, Stuck, Outcome;
    StuckGrows(Kept(heads, docs), d);
    OutcomeMeans(heads, Kept(heads, docs), d);
    assert (docs + [d])[..|docs|] == docs;
  }

  // --------------------------------------------------------------- incremental and batch

  /** Evaluating the first `n` captures at once leaves the incident open. */
  ghost predicate OpenAfter(a: Activation, caps: seq<Capture>, n: nat)
    requires 0 < n <= |caps|
  {
    StatusOf(Evaluate(V2, a, caps[..n]).state) == Eligible
  }

  /** The accepted documents of an open session evaluate, each prefix of them at once, to an open state. */
  lemma {:induction false} AcceptedEvaluateOpen(a: Activation, heads: Heads, docs: seq<Document>)
    requires OpenThroughout(a, heads, docs)
    ensures var caps := Captures(Accepted(heads, docs)); forall n :: 0 < n <= |caps| ==> OpenAfter(a, caps, n)
    decreases |docs|
  {
    hide OpenThroughout, Evaluate, Outcome, Storing, StatusOf, Stuck;
    if docs != [] {
      var front, d := docs[..|docs| - 1], docs[|docs| - 1];
      OpenPrefix(a, heads, docs);
      AcceptedEvaluateOpen(a, heads, front);
      var before := Captures(Accepted(heads, front));
      if Outcome(heads, Kept(heads, front), false, d) == Fine {
        var caps := Captures(Accepted(heads, docs));
        OutcomeMeans(heads, Kept(heads, front), d);
        AcceptedWasKept(heads, front);
        if Stuck(Kept(heads, front)) { StuckGrows(Kept(heads, front), d); }
        assert Accepted(heads, docs) == Kept(heads, front) + [d];
        forall n | 0 < n <= |caps| ensures OpenAfter(a, caps, n) {
          if n < |caps| {
            assert OpenAfter(a, before, n);
            assert caps[..n] == before[..n];
          } else {
            assert caps[..n] == Captures(Kept(heads, front) + [d]);
          }
        }
      } else {
        assert Accepted(heads, docs) == Accepted(heads, front);
      }
    }
  }

  /**
   Incremental agrees with batch: one evaluation of all accepted captures of an open session finds neither UNKNOWN nor
   RECOVERED.
   */
  lemma EligibleAgreesWithBatch(a: Activation, heads: Heads, docs: seq<Document>, i: nat)
    requires Run(a, heads, docs).status == Eligible && i < |Accepted(heads, docs)|
    ensures var caps := Captures(Accepted(heads, docs));
            caps != [] && var state := Evaluate(V2, a, caps).states[i]; state == Active || state == Recovering
  {
    hide Run, Accepted, OpenThroughout;
    EligibleExactlyWhen(a, heads, docs);
    AcceptedEvaluateOpen(a, heads, docs);
    var caps := Captures(Accepted(heads, docs));
    assert OpenAfter(a, caps, i + 1) && OpenAfter(a, caps, |caps|);
    assert caps[..|caps|] == caps;
    PrefixState(a, caps, i);
  }

  lemma PrefixState(a: Activation, caps: seq<Capture>, i: nat)
    requires i < |caps|
    ensures StateAt(Raws(a, caps[..i + 1]), i) == StateAt(Raws(a, caps), i)
    ensures Evaluate(V2, a, caps[..i + 1]).state == Recovered
         || Evaluate(V2, a, caps[..i + 1]).state == StateAt(Raws(a, caps), i)
    ensures Evaluate(V2, a, caps).states[i] == StateAt(Raws(a, caps), i)
         || (i == |caps| - 1 && Evaluate(V2, a, caps).states[i] == Evaluate(V2, a, caps).state)
  {
    hide Raws, StateAt, StableWindow, Windows, Tail;
    StatesPrefix(a, caps, i + 1);
    assert States(Raws(a, caps[..i + 1]))[i] == States(Raws(a, caps))[i];
  }

  /**
   A closed session was closed by one document: until it the session was open, and with it the accepted ones are
   RECOVERED.
   */
  lemma {:induction false} ClosedByRecovery(a: Activation, heads: Heads, docs: seq<Document>)
    returns (n: nat)
    requires Run(a, heads, docs).status == Closed
    ensures n < |docs| && OpenThroughout(a, heads, docs[..n])
    ensures var accepted := Accepted(heads, docs[..n + 1]);
            && accepted == Kept(heads, docs[..n]) + [docs[n]]
            && Evaluate(V2, a, Captures(accepted)).state == Recovered
            && Run(a, heads, docs).boundary == Some(At(|accepted| - 1, Recovered))
    decreases |docs|
  {
    hide Run, Evaluate, OpenThroughout, Kept, Accepted, Captures;
    EmptyRun(a, heads);
    n := |docs| - 1;
    var front := docs[..n];
    assert docs[..|front|] == front && docs[..n + 1] == docs;
    if Run(a, heads, front).status == Closed {
      n := ClosedByRecovery(a, heads, front);
      DecidedForever(a, heads, docs, |front|);
      assert front[..n] == docs[..n] && front[..n + 1] == docs[..n + 1];
    } else {
      if Decided(Run(a, heads, front).status) { DecidedForever(a, heads, docs, |front|); }
      ClosedNow(a, heads, docs);
    }
  }

  lemma ClosedNow(a: Activation, heads: Heads, docs: seq<Document>)
    requires docs != [] && Run(a, heads, docs).status == Closed && !Decided(Run(a, heads, docs[..|docs| - 1]).status)
    ensures var front, accepted := docs[..|docs| - 1], Accepted(heads, docs);
            && OpenThroughout(a, heads, front)
            && accepted == Kept(heads, front) + [docs[|docs| - 1]]
            && Evaluate(V2, a, Captures(accepted)).state == Recovered
            && Run(a, heads, docs).boundary == Some(At(|accepted| - 1, Recovered))
  {
    hide Run, Evaluate, OpenThroughout, Next, Outcome, Storing, Stuck, LeavesOpen, StatusOf, Captures;
    var front, d := docs[..|docs| - 1], docs[|docs| - 1];
    EligibleExactlyWhen(a, heads, front);
    RunUnfolds(a, heads, docs);
    NextWhileOpen(a, heads, Run(a, heads, front), d);
    OutcomeMeans(heads, Kept(heads, front), d);
    AcceptedWasKept(heads, front);
    if Stuck(Kept(heads, front)) { StuckGrows(Kept(heads, front), d); }
  }

  /** The partitions stay those of the activation, and no offset ever decreases. */
  ghost predicate NeverDecreasing(heads: Heads, post: seq<Document>) {
    && (forall i :: 0 <= i < |post| ==> HeadsContinue(heads, post[i].heads))
    && forall i, j :: 0 <= i < j < |post| ==> HeadsContinue(post[i].heads, post[j].heads)
  }

  lemma NeverDecreasingSnoc(heads: Heads, post: seq<Document>, d: Document)
    requires NeverDecreasing(heads, post) && HeadsContinue(HeadsBefore(heads, post), d.heads)
    ensures NeverDecreasing(heads, post + [d])
  {
    hide HeadsContinue;
    if post != [] {
      var last := post[|post| - 1].heads;
      HeadsTransitive(heads, last, d.heads);
      forall i | 0 <= i < |post| - 1 ensures HeadsContinue(post[i].heads, d.heads) {
        assert HeadsContinue(post[i].heads, post[|post| - 1].heads);
        HeadsTransitive(post[i].heads, last, d.heads);
      }
    }
  }

  /** Over the stored documents of an open session heads never decrease. */
  lemma {:induction false} HeadsNeverDecrease(heads: Heads, docs: seq<Document>)
    ensures NeverDecreasing(heads, Kept(heads, docs))
    decreases |docs|
  {
    hide NeverDecreasing, Storing;
    if docs == [] {
      assert NeverDecreasing(heads, []) by { NothingDecreases(heads); }
    } else {
      var front, d := docs[..|docs| - 1], docs[|docs| - 1];
      HeadsNeverDecrease(heads, front);
      var post := Kept(heads, front);
      if Storing(heads, post, false, d) == Fine {
        StoredContinues(heads, post, d);
        NeverDecreasingSnoc(heads, post, d);
      }
    }
  }

  lemma NothingDecreases(heads: Heads)
    ensures NeverDecreasing(heads, [])
  {}

  lemma StoredContinues(heads: Heads, post: seq<Document>, d: Document)
    requires Storing(heads, post, false, d) == Fine
    ensures HeadsContinue(HeadsBefore(heads, post), d.heads)
  {}

  lemma HeadsTransitive(x: Heads, y: Heads, z: Heads)
    requires HeadsContinue(x, y) && HeadsContinue(y, z)
    ensures HeadsContinue(x, z)
  {}

  function Indexes(step: Option<Step>): seq<nat> {
    if step.None? then [] else Indexes(step.value.previous) + [step.value.index]
  }

  /** The digest chain of an open session covers its accepted documents one by one. */
  lemma {:induction false} OpenChainIsGapless(a: Activation, heads: Heads, docs: seq<Document>)
    requires !Decided(Run(a, heads, docs).status)
    ensures var indexes := Indexes(Run(a, heads, docs).last);
            |indexes| == |Accepted(heads, docs)| && forall i :: 0 <= i < |indexes| ==> indexes[i] == i
    decreases |docs|
  {
    hide Run, Evaluate, Next, OpenThroughout, Outcome, Storing, Stuck, LeavesOpen, StatusOf, Captures;
    if docs == [] {
      EmptyRun(a, heads);
    } else {
      var front, d := docs[..|docs| - 1], docs[|docs| - 1];
      assert docs[..|front|] == front;
      if Decided(Run(a, heads, front).status) {
        DecidedForever(a, heads, docs, |front|);
      } else {
        OpenChainIsGapless(a, heads, front);
        EligibleExactlyWhen(a, heads, front);
        RunUnfolds(a, heads, docs);
        NextWhileOpen(a, heads, Run(a, heads, front), d);
        OutcomeMeans(heads, Kept(heads, front), d);
        AcceptedWasKept(heads, front);
        if Stuck(Kept(heads, front)) { StuckGrows(Kept(heads, front), d); }
      }
    }
  }

  /**
   A registry shows the step of the document that it projects exactly when no stored document failed to be evaluated.
   */
  lemma ProjectionIsVerifiedExactlyWhen(a: Activation, heads: Heads, docs: seq<Document>)
    requires Run(a, heads, docs).status == Eligible
    ensures var s := Run(a, heads, docs);
            s.last.Some? && s.post != [] && (s.last.value.index == |s.post| - 1 <==> !Stuck(s.post))
  {
    hide Run, OpenThroughout, Stuck, Kept, Accepted;
    EligibleExactlyWhen(a, heads, docs);
    OpenChainIsGapless(a, heads, docs);
    AcceptedWasKept(heads, docs);
    var last := Run(a, heads, docs).last;
    assert Indexes(last)[|Indexes(last)| - 1] == last.value.index;
  }

  lemma EscapingMeans(heads: Heads, post: seq<Document>, d: Document)
    ensures ErrorEscapes(heads, post, d) <==> Outcome(heads, post, false, d) == Unforeseen
  {
    hide Digests, Reads, HeadsReading, Captures;
  }

  ghost predicate Quiet(heads: Heads, docs: seq<Document>, n: nat)
    requires n < |docs|
  {
    !ErrorEscapes(heads, Kept(heads, docs[..n]), docs[n])
  }

  lemma QuietlyOpenIsFine(a: Activation, heads: Heads, post: seq<Document>, d: Document)
    requires LeavesOpen(a, heads, post, d) && !ErrorEscapes(heads, post, d)
    ensures Storing(heads, post, false, d) == Fine && Outcome(heads, post, false, d) == Fine
  {
    hide ErrorEscapes, Storing, Recording, Evaluate, Captures;
    EscapingMeans(heads, post, d);
  }

  /** Without an escaping error an open session has accepted every document. */
  lemma {:induction false} OpenWithoutEscapes(a: Activation, heads: Heads, docs: seq<Document>)
    requires OpenThroughout(a, heads, docs) && forall n: nat :: n < |docs| ==> Quiet(heads, docs, n)
    ensures Kept(heads, docs) == docs && Accepted(heads, docs) == docs
    decreases |docs|
  {
    hide OpenThroughout, ErrorEscapes, Outcome, Storing, LeavesOpen;
    if docs != [] {
      var front, d := docs[..|docs| - 1], docs[|docs| - 1];
      forall n: nat | n < |front| ensures Quiet(heads, front, n) {
        assert Quiet(heads, docs, n) && front[..n] == docs[..n];
      }
      OpenPrefix(a, heads, docs);
      OpenWithoutEscapes(a, heads, front);
      assert Quiet(heads, docs, |front|);
      QuietlyOpenIsFine(a, heads, Kept(heads, front), d);
    }
  }
}
