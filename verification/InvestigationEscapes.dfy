/**
 The runs of the investigation loop that raise.  The loop is documented to return every attempt but transport errors;
 whether it does is decided by the responses to the requests that it reaches.
 */
module InvestigationEscapes {
  import opened Prelude
  import opened DiagnosisV3
  import opened DecisionRepair
  import opened Investigation

  // --------------------------------------------------------------- one turn

  /** A call of this tool is answered: it exists, is new, fits the budget, and is a required one while any is. */
  ghost predicate Callable(g: Setting, p: Progress, tool: Tool) {
    && p.original.None? && |p.evidence| < MAX_TOOLS
    && tool in g.tools && tool !in Called(p.evidence)
    && (Pending(p.evidence) != [] ==> tool in Pending(p.evidence))
  }

  /** Answering a callable tool's call raises. */
  ghost predicate ExecutionRaises(g: Setting, tool: Tool, call: Call, oddTypes: bool) {
    || call.arguments in {NotText, DeepText}
    || (call.arguments == EmptyObject
        && (g.project(tool).Broken? || (g.project(tool).Projected? && (oddTypes || !call.hasCallId))))
  }

  /** A single call while tools are offered: its name cannot be looked up, or answering it raises. */
  ghost predicate CallRaises(g: Setting, p: Progress, response: Response)
    requires response.Response? && response.calls != []
  {
    var call := response.calls[0];
    && |response.calls| == 1 && p.original.None? && |p.evidence| < MAX_TOOLS
    && match call.name
       case Unhashable => true
       case OtherName => false
       case Named(tool) => Callable(g, p, tool) && ExecutionRaises(g, tool, call, response.oddTypes)
  }

  /** The text of an early answer is read outside the checks; so are the observations of a first answer object. */
  ghost predicate AnswerRaises(p: Progress, text: Output) {
    if Pending(p.evidence) != [] then text in {NonText, Deep}
    else
      || text.Deep?
      || (p.original.None? && text.Parsed? && text.json.JObj? && Unique(Ids(p.evidence))
         && RawObservations(text.json).None?)
  }

  /** The response raises in this state, or the state is one in which no request can be made. */
  ghost predicate TurnRaises(g: Setting, p: Progress, response: Response)
    requires p.original.Some? ==> p.original.value.JObj?
  {
    || Selectable(g.initial, p.evidence, p.original).None?
    || (response.Response? && if response.calls != [] then CallRaises(g, p, response)
       else AnswerRaises(p, response.text))
  }

  ghost predicate Escapes(t: Turn) { t.Stop? && t.exit.Escaped? && t.exit.escape != Transport }

  /**
   Listing the removable observations of a rejected answer raises exactly when it is a first answer, an object, and its
   observations cannot be iterated over.
   */
  lemma ListingRaisesExactlyWhen(g: Setting, p: Progress, allowed: set<string>, text: Output, turn: nat)
    requires turn < MAX_REQUESTS - 1 && (p.original.Some? ==> p.original.value.JObj?)
    ensures TakeAnswer(g, p, allowed, text, turn) == Stop(Escaped(p, RepairListing)) <==>
              && p.original.None? && text.Parsed? && text.json.JObj?
              && Unique(Ids(p.evidence)) && RawObservations(text.json).None?
  {
    hide ParseObservations, ParseCandidates, WellFormed, Unique, Validate, InScope;
    if text.Parsed? && text.json.JObj? && RawObservations(text.json).None? {
      assert ParseDecision(text.json).None?;
    }
  }

  /** In a reachable state a tool is offered exactly when its call is answered. */
  lemma OfferedIsCallable(g: Setting, p: Progress, turn: nat, tool: Tool)
    requires Proper(g) && Inv(g, p, turn)
    ensures Callable(g, p, tool) <==> tool in OfferedNow(g, p)
  {
    hide Called, Pending, Without, Within, Audited, Acquired;
    WithoutMeans(g.tools, Called(p.evidence));
    WithinMeans(OfferedTools(g, p), Pending(p.evidence));
  }

  /** The tools of this turn's request. */
  function OfferedNow(g: Setting, p: Progress): seq<Tool> {
    if Pending(p.evidence) != [] && p.original.None? then Within(OfferedTools(g, p), Pending(p.evidence))
    else OfferedTools(g, p)
  }

  /** Before the repair and within the budget some tool is always offered. */
  lemma SomethingIsOffered(g: Setting, p: Progress, turn: nat)
    requires Proper(g) && Inv(g, p, turn)
    ensures OfferedNow(g, p) != [] <==> p.original.None? && |p.evidence| < MAX_TOOLS
  {
    hide Called, Pending, Without, Within, Audited, OfferedTools;
    if !(p.original.None? && |p.evidence| < MAX_TOOLS) {
      NothingOffered(g, p, turn);
    } else {
      CalledCount(p.evidence);
      if RUNTIME_TOOLS <= Called(p.evidence) { SubsetCount(RUNTIME_TOOLS, Called(p.evidence)); }
      if Pending(p.evidence) != [] {
        OfferedIsCallable(g, p, turn, Pending(p.evidence)[0]);
        PendingMeans(p.evidence);
        PendingIsKnown(g, p.evidence, Pending(p.evidence)[0]);
      } else {
        var tool :| tool in RUNTIME_TOOLS && tool !in Called(p.evidence);
        OfferedIsCallable(g, p, turn, tool);
      }
    }
  }

  lemma PendingIsKnown(g: Setting, evidence: seq<Evidence>, tool: Tool)
    requires Proper(g) && tool in Required(evidence)
    ensures tool in g.tools
  {
    hide Shortfall;
    assert tool in PRIMARY_TOOLS + [KedaStatus];
  }

  lemma NothingOffered(g: Setting, p: Progress, turn: nat)
    requires Inv(g, p, turn) && !(p.original.None? && |p.evidence| < MAX_TOOLS)
    ensures OfferedNow(g, p) == []
  {
    hide Called, Pending, Without, Audited, Acquired;
  }

  lemma CallEscapes(g: Setting, p: Progress, q: Progress, response: Response, turn: nat)
    requires Proper(g) && Inv(g, p, turn) && response.Response? && response.calls != []
    ensures Escapes(TakeCall(g, q, OfferedNow(g, p), response)) <==> CallRaises(g, p, response)
    ensures var t := TakeCall(g, q, OfferedNow(g, p), response); t.Stop? ==> t.exit != Escaped(t.exit.at, Transport)
  {
    hide Inv, Proper, OfferedNow, Callable;
    SomethingIsOffered(g, p, turn);
    if response.calls[0].name.Named? { OfferedIsCallable(g, p, turn, response.calls[0].name.tool); }
  }

  lemma AnswerEscapes(g: Setting, p: Progress, q: Progress, allowed: set<string>, text: Output, turn: nat)
    requires Inv(g, p, turn) && turn < MAX_REQUESTS && Pending(p.evidence) == []
    requires q.evidence == p.evidence && q.original == p.original
    ensures Escapes(TakeAnswer(g, q, allowed, text, turn)) <==> AnswerRaises(p, text)
    ensures var t := TakeAnswer(g, q, allowed, text, turn); t.Stop? ==> t.exit != Escaped(t.exit.at, Transport)
  {
    hide Pending, Judge, Removable, RawObservations, Unique, Acquired, Called, Audited;
    if turn < MAX_REQUESTS - 1 { ListingRaisesExactlyWhen(g, q, allowed, text, turn); }
  }

  /** In a reachable state a turn raises, other than by a transport error, exactly when its response does. */
  lemma TurnRaisesExactlyWhen(g: Setting, p: Progress, response: Response, turn: nat)
    requires Proper(g) && Inv(g, p, turn) && turn < MAX_REQUESTS
    ensures Escapes(TakeTurn(g, p, response, turn)) <==> TurnRaises(g, p, response)
    ensures var t := TakeTurn(g, p, response, turn);
            t.Stop? && t.exit.Escaped? && t.exit.escape == Transport
            <==> Selectable(g.initial, p.evidence, p.original).Some? && response.TransportError?
  {
    hide Pending, OfferedTools, Within, Selectable, TakeCall, TakeAnswer, CallRaises, Acquired, Called, Audited, Proper,
         RawObservations, Unique;
    var pending := Pending(p.evidence);
    if pending != [] { GateNeverExhausts(g, p, turn); }
    var selectable := Selectable(g.initial, p.evidence, p.original);
    if selectable.Some? {
      var required := pending != [] && p.original.None?;
      var q := p.(audit := p.audit + [Audit(pending, OfferedNow(g, p), required, p.original.Some?, selectable.value)]);
      if response.Response? && response.calls != [] {
        CallEscapes(g, p, q, response, turn);
      } else if response.Response? && pending == [] {
        AnswerEscapes(g, p, q, selectable.value, response.text, turn);
      }
    }
  }

  // --------------------------------------------------------------- whole runs

  /** The state in which request k is made, if the run gets there. */
  function Reached(g: Setting, client: nat -> Response, k: nat): (p: Option<Progress>)
    ensures p.Some? && p.value.original.Some? ==> p.value.original.value.JObj?
  {
    if k == 0 then Some(START)
    else
      var before := Reached(g, client, k - 1);
      if before.None? then None
      else
        match TakeTurn(g, before.value, client(k - 1), k - 1)
        case Continue(next) => Some(next)
        case Stop(_) => None
  }

  lemma {:induction false} ReachedInv(g: Setting, client: nat -> Response, k: nat)
    requires Proper(g) && k <= MAX_REQUESTS && Reached(g, client, k).Some?
    ensures Inv(g, Reached(g, client, k).value, k)
  {
    hide Inv, TakeTurn, Proper;
    if k == 0 {
      StartInv(g);
    } else {
      ReachedInv(g, client, k - 1);
      TurnIsSound(g, Reached(g, client, k - 1).value, client(k - 1), k - 1);
    }
  }

  lemma {:induction false} ReachedBefore(g: Setting, client: nat -> Response, j: nat, k: nat)
    requires j <= k && Reached(g, client, k).Some?
    ensures Reached(g, client, j).Some?
  {
    hide TakeTurn;
    if j < k { ReachedBefore(g, client, j, k - 1); }
  }

  /** Some request from k on is made and its response raises. */
  ghost predicate RaisesFrom(g: Setting, client: nat -> Response, k: nat) {
    exists j: nat :: k <= j < MAX_REQUESTS && RaisesAt(g, client, j)
  }

  ghost predicate RaisesAt(g: Setting, client: nat -> Response, j: nat) {
    Reached(g, client, j).Some? && TurnRaises(g, Reached(g, client, j).value, client(j))
  }

  lemma RaisesNow(g: Setting, client: nat -> Response, k: nat)
    requires k < MAX_REQUESTS
    ensures RaisesFrom(g, client, k) <==> RaisesAt(g, client, k) || RaisesFrom(g, client, k + 1)
  {
    hide RaisesAt;
  }

  lemma {:induction false} RunRaisesFrom(g: Setting, client: nat -> Response, k: nat)
    requires Proper(g) && k <= MAX_REQUESTS && Reached(g, client, k).Some?
    ensures var exit := RunFrom(g, client, Reached(g, client, k).value, k);
            exit.Escaped? && exit.escape != Transport <==> RaisesFrom(g, client, k)
    decreases MAX_REQUESTS - k
  {
    hide TakeTurn, TurnRaises, Inv, Proper, RaisesFrom;
    ReachedInv(g, client, k);
    BudgetLeft(g, Reached(g, client, k).value, k);
    var p := Reached(g, client, k).value;
    TurnRaisesExactlyWhen(g, p, client(k), k);
    RaisesNow(g, client, k);
    if TakeTurn(g, p, client(k), k).Continue? {
      RunRaisesFrom(g, client, k + 1);
    } else {
      NothingLater(g, client, k);
    }
  }

  lemma BudgetLeft(g: Setting, p: Progress, turn: nat)
    requires Inv(g, p, turn)
    ensures turn < MAX_REQUESTS
  {
    hide Acquired, Pending, Called, Audited;
  }

  lemma NothingLater(g: Setting, client: nat -> Response, k: nat)
    requires Reached(g, client, k).Some? && TakeTurn(g, Reached(g, client, k).value, client(k), k).Stop?
    ensures !RaisesFrom(g, client, k + 1)
  {
    hide TakeTurn, TurnRaises;
    forall j: nat | k + 1 <= j < MAX_REQUESTS ensures !RaisesAt(g, client, j) {
      if Reached(g, client, j).Some? { ReachedBefore(g, client, k + 1, j); }
    }
  }

  /**
   A run raises, other than by a transport error, exactly when it reaches a request whose response raises.  All other
   runs return their attempt or end with the transport error.
   */
  lemma RunRaisesExactlyWhen(g: Setting, client: nat -> Response)
    requires Proper(g)
    ensures var exit := RunFrom(g, client, START, 0);
            exit.Escaped? && exit.escape != Transport
            <==> exists k: nat :: k < MAX_REQUESTS && RaisesAt(g, client, k)
  {
    hide RunFrom, RaisesAt, Proper;
    RunRaisesFrom(g, client, 0);
    assert Reached(g, client, 0) == Some(START);
  }

  // --------------------------------------------------------------- sufficient conditions

  /** Calls are well shaped, texts can be read, and an answer object's observations can be iterated over. */
  ghost predicate Conforms(response: Response) {
    response.Response? ==>
      && !response.oddTypes && !response.text.NonText? && !response.text.Deep?
      && (forall call :: call in response.calls ==>
            !call.name.Unhashable? && call.arguments !in {NotText, DeepText} && call.hasCallId)
      && (response.text.Parsed? && response.text.json.JObj? ==> RawObservations(response.text.json).Some?)
  }

  predicate ShortId(id: string) { 1 <= |id| <= 256 }

  /**
   Identifiers of legal length that leave room for those of four tools among the 256 selectable ones; no broken tool.
   */
  ghost predicate Citable(g: Setting) {
    && (forall id :: id in g.initial ==> ShortId(id)) && |Members(g.initial)| + MAX_TOOLS <= 256
    && (forall t :: !g.project(t).Broken?)
    && forall t :: g.project(t).Projected? ==> ShortId(g.project(t).item.id)
  }

  lemma SelectionSucceeds(g: Setting, evidence: seq<Evidence>, original: Option<Json>)
    requires Citable(g) && Acquired(g, evidence) && |evidence| <= MAX_TOOLS
    requires original.Some? ==> original.value.JObj?
    ensures Selectable(g.initial, evidence, original).Some?
  {
    hide LooseCitations, OnePerTool;
    var ids := Ids(evidence);
    var supplied := Members(g.initial + ids);
    forall i | 0 <= i < |ids| ensures ShortId(ids[i]) { assert evidence[i] in evidence; }
    MembersCount(ids);
    assert supplied == Members(g.initial) + Members(ids);
    if original.Some? { SubsetCount(supplied * LooseCitations(original.value), supplied); }
  }

  lemma {:induction false} MembersCount(ids: seq<string>)
    ensures |Members(ids)| <= |ids|
    decreases |ids|
  {
    if ids != [] {
      var n := |ids| - 1;
      MembersCount(ids[..n]);
      var all, before := Members(ids), Members(ids[..n]);
      assert ids == ids[..n] + [ids[n]];
      assert forall id :: id in ids <==> id in ids[..n] || id == ids[n];
      assert forall id :: id in all <==> id in before || id == ids[n];
      assert all == before + {ids[n]};
    }
  }

  lemma ConformingIsHarmless(g: Setting, p: Progress, response: Response, turn: nat)
    requires Citable(g) && Inv(g, p, turn) && Conforms(response)
    ensures !TurnRaises(g, p, response)
  {
    hide Pending, Called, Selectable, RawObservations, Acquired, Audited, Callable;
    SelectionSucceeds(g, p.evidence, p.original);
    if response.Response? && response.calls != [] { assert response.calls[0] in response.calls; }
  }

  /**
   So with legal evidence, and responses that conform as far as they are asked for, a run returns unless the transport
   fails.
   */
  lemma RunReturns(g: Setting, client: nat -> Response)
    requires Proper(g) && Citable(g)
    requires forall k: nat :: k < MAX_REQUESTS && Reached(g, client, k).Some? ==> Conforms(client(k))
    ensures var exit := RunFrom(g, client, START, 0); exit.Escaped? ==> exit.escape == Transport
  {
    hide RunFrom, Inv, Citable, Proper, Conforms, Reached, TurnRaises;
    RunRaisesExactlyWhen(g, client);
    forall k: nat | k < MAX_REQUESTS ensures !RaisesAt(g, client, k) {
      if Reached(g, client, k).Some? {
        ReachedInv(g, client, k);
        ConformingIsHarmless(g, Reached(g, client, k).value, client(k), k);
      }
    }
  }
}
