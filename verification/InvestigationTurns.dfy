/**
 What one response does to an investigation that is under way: when the run goes on, when it passes and when it fails.
 */
module InvestigationTurns {
  import opened Prelude
  import opened DiagnosisV3
  import opened DecisionRepair
  import opened Investigation
  import opened InvestigationEscapes

  /** A fresh and successful replica status reports too little capacity. */
  ghost predicate ShortOfReplicas(evidence: seq<Evidence>) {
    exists e :: e in evidence && e.ok && e.recent && e.tool == ReplicaStatus && e.flag == Some(CapacityShortfall)
  }

  /** Pending are the three primary tools, and KEDA when replicas are short, as far as they were not called. */
  lemma PendingExactlyWhen(evidence: seq<Evidence>, t: Tool)
    ensures t in Pending(evidence) <==>
              && (t in {StageLatency, PostgresHealth, ReplicaStatus} || (t == KedaStatus && ShortOfReplicas(evidence)))
              && forall e :: e in evidence ==> e.tool != t
  {
    PendingMeans(evidence);
    hide Pending;
    assert Shortfall(evidence) <==> ShortOfReplicas(evidence);
    hide Shortfall, ShortOfReplicas;
    assert t in Called(evidence) <==> exists e :: e in evidence && e.tool == t;
  }

  /** The answer, before any repair, meets every condition of the contract and is `d`. */
  ghost predicate Contracted(g: Setting, evidence: seq<Evidence>, allowed: set<string>, text: Output, d: Decision) {
    && text.Parsed? && ParseDecision(text.json) == Some(d)
    && Citations(d) <= allowed
    && Admissible(d, g.initial, evidence, g.forbidden)
  }

  /** An answer is accepted exactly when it meets the contract and, as a repair, stays in the scope of the first one. */
  lemma JudgeExactlyWhen(g: Setting, evidence: seq<Evidence>, allowed: set<string>, original: Option<Json>,
                         text: Output, d: Decision)
    requires original.Some? ==> original.value.JObj?
    ensures Judge(g, evidence, allowed, original, text) == Ok(d) <==>
              && Contracted(g, evidence, allowed, text, d)
              && (original.Some? ==> InScope(original.value, d, evidence))
  {
    hide ParseDecision, Citations, Validate, Admissible, InScope;
    if text.Parsed? && ParseDecision(text.json).Some? {
      ValidateMeansAdmissible(ParseDecision(text.json).value, g.initial, evidence, g.forbidden);
    }
  }

  /** The citable identifiers: known, of legal length, not too many, and for a repair cited by the first answer. */
  ghost predicate Selects(g: Setting, p: Progress, allowed: set<string>)
    requires p.original.Some? ==> p.original.value.JObj?
  {
    Selectable(g.initial, p.evidence, p.original) == Some(allowed)
  }

  /** The response is a single call, with an identifier, of a tool on offer with no arguments, which yields `item`. */
  ghost predicate CallAnswered(g: Setting, p: Progress, response: Response, item: Evidence) {
    && response.Response? && !response.oddTypes
    && exists tool :: response.calls == [Call(Named(tool), EmptyObject, true)] && Callable(g, p, tool)
                      && g.project(tool) == Projected(item)
  }

  /** Nothing is left to investigate and the response is an answer. */
  ghost predicate Answers(p: Progress, response: Response) {
    response.Response? && response.calls == [] && Pending(p.evidence) == []
  }

  /** A first answer, an object with observations that can be listed, was refused. */
  ghost predicate RepairDue(g: Setting, p: Progress, allowed: set<string>, response: Response)
    requires p.original.Some? ==> p.original.value.JObj?
  {
    && Answers(p, response) && p.original.None?
    && response.text.Parsed? && response.text.json.JObj?
    && Removable(response.text.json, p.evidence).Some?
    && Judge(g, p.evidence, allowed, None, response.text).Err?
  }

  /** The record that this turn adds to the audit. */
  function Entry(g: Setting, p: Progress, allowed: set<string>): Audit {
    Audit(Pending(p.evidence), OfferedNow(g, p), Pending(p.evidence) != [] && p.original.None?, p.original.Some?,
          allowed)
  }

  /** A single call while tools are on offer, but not of one of these with no arguments, or its projection declined. */
  ghost predicate CallInvalid(g: Setting, p: Progress, response: Response) {
    && response.Response? && |response.calls| == 1 && p.original.None? && |p.evidence| < 4
    && var call := response.calls[0];
       match call.name
       case Unhashable => false
       case OtherName => true
       case Named(tool) =>
         || !Callable(g, p, tool)
         || call.arguments in {OtherJson, NotJsonText}
         || (call.arguments == EmptyObject && g.project(tool).Declined?)
  }

  lemma TakesCall(g: Setting, p: Progress, q: Progress, response: Response, turn: nat)
    requires Proper(g) && Inv(g, p, turn) && response.Response? && response.calls != []
    requires q.evidence == p.evidence && q.original == p.original
    ensures var t := TakeCall(g, q, OfferedNow(g, p), response);
            && (t.Continue? <==> exists item :: CallAnswered(g, p, response, item))
            && (forall item :: CallAnswered(g, p, response, item) ==>
                  t == Continue(q.(evidence := p.evidence + [item])))
            && (t.Stop? ==> !t.exit.Passed? && t.exit.at == q)
            && (t == Stop(Failed(q, ToolBudgetOrParallelViolation)) <==>
                  |response.calls| != 1 || p.original.Some? || |p.evidence| == 4)
            && (t == Stop(Failed(q, InvalidToolCall)) <==> CallInvalid(g, p, response))
            && (t.Stop? && t.exit.Failed? ==> t.exit.failure in {ToolBudgetOrParallelViolation, InvalidToolCall})
  {
    hide Inv, Proper, OfferedNow, Callable;
    SomethingIsOffered(g, p, turn);
    WithinBudget(g, p, turn);
    if response.calls[0].name.Named? {
      var tool := response.calls[0].name.tool;
      InvestigationEscapes.OfferedIsCallable(g, p, turn, tool);
      if TakeCall(g, q, OfferedNow(g, p), response).Continue? {
        assert response.calls == [Call(Named(tool), EmptyObject, true)];
        assert CallAnswered(g, p, response, g.project(tool).item);
      }
    }
  }

  lemma WithinBudget(g: Setting, p: Progress, turn: nat)
    requires Inv(g, p, turn)
    ensures |p.evidence| <= 4 && (p.original.None? ==> turn <= 4) && (p.original.Some? ==> p.original.value.JObj?)
    ensures p.original.Some? ==> Pending(p.evidence) == []
  {
    hide Acquired, Pending, Called, Audited;
  }

  lemma TakesAnswer(g: Setting, p: Progress, q: Progress, allowed: set<string>, response: Response, turn: nat)
    requires Inv(g, p, turn) && turn < MAX_REQUESTS && Answers(p, response)
    requires q.evidence == p.evidence && q.original == p.original
    ensures var t, verdict := TakeAnswer(g, q, allowed, response.text, turn),
                              Judge(g, p.evidence, allowed, p.original, response.text);
            && (t.Continue? <==> RepairDue(g, p, allowed, response))
            && (t.Continue? ==> t.next == q.(original := Some(response.text.json)))
            && (t.Stop? && t.exit.Passed? <==> verdict.Ok?)
            && (verdict.Ok? ==> t == Stop(Passed(q, verdict.value, p.original.None?)))
            && (t.Stop? && t.exit.Failed? <==>
                  verdict.Err? && !response.text.Deep?
                  && !(p.original.None? && response.text.Parsed? && response.text.json.JObj?))
            && (t.Stop? && t.exit.Failed? ==> t == Stop(Failed(q, Refused(verdict.error))))
  {
    hide Pending, Removable, Inv, ParseDecision, Citations, Validate, InScope;
    WithinBudget(g, p, turn);
  }

  /**
   A run that is under way goes on exactly when a call is answered, and then its item is kept, or when a first answer
   object is refused, and then it is kept for the repair.  The repair is never denied for want of requests.
   */
  lemma TurnContinuesExactlyWhen(g: Setting, p: Progress, response: Response, turn: nat, allowed: set<string>)
    requires Proper(g) && Inv(g, p, turn) && turn < 6 && Selects(g, p, allowed)
    ensures var t, audit := TakeTurn(g, p, response, turn), p.audit + [Entry(g, p, allowed)];
            && (t.Continue? <==>
                  (exists item :: CallAnswered(g, p, response, item)) || RepairDue(g, p, allowed, response))
            && (forall item :: CallAnswered(g, p, response, item) ==>
                  t == Continue(Progress(p.evidence + [item], None, audit)) && turn <= 3)
            && (RepairDue(g, p, allowed, response) ==>
                  t == Continue(Progress(p.evidence, Some(response.text.json), audit)) && turn <= 4)
  {
    hide Pending, OfferedNow, Selectable, TakeCall, TakeAnswer, Judge, Removable, Inv, Proper, Callable;
    WithinBudget(g, p, turn);
    TurnDispatches(g, p, response, turn, allowed);
    var q := p.(audit := p.audit + [Entry(g, p, allowed)]);
    if response.Response? && response.calls != [] {
      TakesCall(g, p, q, response, turn);
      CalledTwiceIsRefused(g, p, turn);
    } else if Answers(p, response) {
      TakesAnswer(g, p, q, allowed, response, turn);
    }
  }

  lemma CalledTwiceIsRefused(g: Setting, p: Progress, turn: nat)
    requires Inv(g, p, turn)
    ensures forall tool :: Callable(g, p, tool) ==> turn <= 3 && p.original.None?
  {
    hide Acquired, Pending, Called, Audited;
  }

  /** In a reachable state the gate lets every turn through to the response. */
  lemma TurnDispatches(g: Setting, p: Progress, response: Response, turn: nat, allowed: set<string>)
    requires Proper(g) && Inv(g, p, turn) && Selects(g, p, allowed)
    requires p.original.Some? ==> p.original.value.JObj?
    ensures var q := p.(audit := p.audit + [Entry(g, p, allowed)]);
            TakeTurn(g, p, response, turn) ==
              if response.TransportError? then Stop(Escaped(q, Transport))
              else if response.calls != [] then TakeCall(g, q, OfferedNow(g, p), response)
              else if Pending(p.evidence) != [] then
                if response.text in {NonText, Deep} then Stop(Escaped(q, UnreadableText))
                else Stop(Failed(q, MinimumInvestigationIncomplete))
              else TakeAnswer(g, q, allowed, response.text, turn)
  {
    hide Pending, OfferedTools, Within, Selectable, TakeCall, TakeAnswer, Acquired, Called, Audited, Proper;
    if Pending(p.evidence) != [] { GateNeverExhausts(g, p, turn); }
  }

  /** It passes exactly when an accepted answer is given, and that is the decision of the run. */
  lemma TurnPassesExactlyWhen(g: Setting, p: Progress, response: Response, turn: nat, allowed: set<string>, d: Decision)
    requires Proper(g) && Inv(g, p, turn) && turn < 6 && Selects(g, p, allowed)
    ensures var t := TakeTurn(g, p, response, turn);
            t.Stop? && t.exit.Passed? && t.exit.decision == d <==>
              && Answers(p, response) && Contracted(g, p.evidence, allowed, response.text, d)
              && (p.original.Some? ==> p.original.value.JObj? && InScope(p.original.value, d, p.evidence))
    ensures var t := TakeTurn(g, p, response, turn);
            t.Stop? && t.exit.Passed? ==>
              (t.exit.firstPass <==> p.original.None?) && t.exit.at == p.(audit := p.audit + [Entry(g, p, allowed)])
  {
    hide Pending, OfferedNow, Selectable, TakeCall, TakeAnswer, Judge, Removable, Inv, Proper, Callable, Contracted,
         InScope;
    WithinBudget(g, p, turn);
    TurnDispatches(g, p, response, turn, allowed);
    var q := p.(audit := p.audit + [Entry(g, p, allowed)]);
    if response.Response? && response.calls != [] {
      TakesCall(g, p, q, response, turn);
    } else if Answers(p, response) {
      TakesAnswer(g, p, q, allowed, response, turn);
      JudgeExactlyWhen(g, p.evidence, allowed, p.original, response.text, d);
    }
  }

  /** The failures of a run that is under way, each with its cause. */
  lemma TurnFailsExactlyWhen(g: Setting, p: Progress, response: Response, turn: nat, allowed: set<string>)
    requires Proper(g) && Inv(g, p, turn) && turn < 6 && Selects(g, p, allowed)
    ensures var t := TakeTurn(g, p, response, turn);
            && (t.Stop? && t.exit.Failed? && t.exit.failure == MinimumInvestigationIncomplete <==>
                  response.Response? && response.calls == [] && Pending(p.evidence) != []
                  && response.text !in {NonText, Deep})
            && (t.Stop? && t.exit.Failed? && t.exit.failure == ToolBudgetOrParallelViolation <==>
                  response.Response? && response.calls != []
                  && (|response.calls| > 1 || p.original.Some? || |p.evidence| == 4))
            && (t.Stop? && t.exit.Failed? && t.exit.failure == InvalidToolCall <==> CallInvalid(g, p, response))
            && (t.Stop? && t.exit.Failed? && t.exit.failure.Refused? <==>
                  && Answers(p, response) && !response.text.Deep?
                  && !(p.original.None? && response.text.Parsed? && response.text.json.JObj?)
                  && Judge(g, p.evidence, allowed, p.original, response.text).Err?)
  {
    hide Pending, OfferedNow, Selectable, TakeCall, TakeAnswer, Judge, Removable, Inv, Proper, Callable;
    WithinBudget(g, p, turn);
    TurnDispatches(g, p, response, turn, allowed);
    var q := p.(audit := p.audit + [Entry(g, p, allowed)]);
    if response.Response? && response.calls != [] {
      TakesCall(g, p, q, response, turn);
    } else if Answers(p, response) {
      TakesAnswer(g, p, q, allowed, response, turn);
    }
  }

  lemma {:induction false} EndsFrom(g: Setting, client: nat -> Response, k: nat) returns (j: nat)
    requires Proper(g) && k <= MAX_REQUESTS && Reached(g, client, k).Some?
    ensures k <= j < 6 && Reached(g, client, j).Some?
    ensures TakeTurn(g, Reached(g, client, j).value, client(j), j)
         == Stop(RunFrom(g, client, Reached(g, client, k).value, k))
    decreases MAX_REQUESTS - k
  {
    hide TakeTurn, Inv, Proper;
    ReachedInv(g, client, k);
    BudgetLeft(g, Reached(g, client, k).value, k);
    j := k;
    if TakeTurn(g, Reached(g, client, k).value, client(k), k).Continue? { j := EndsFrom(g, client, k + 1); }
  }

  /** So a run is decided by its last request: the first one, among six, that does not let it go on. */
  lemma RunEndsWithTurn(g: Setting, client: nat -> Response) returns (j: nat)
    requires Proper(g)
    ensures j < 6 && Reached(g, client, j).Some? && Inv(g, Reached(g, client, j).value, j)
    ensures TakeTurn(g, Reached(g, client, j).value, client(j), j) == Stop(RunFrom(g, client, START, 0))
  {
    hide Inv, TakeTurn, RunFrom, Proper;
    assert Reached(g, client, 0) == Some(START);
    j := EndsFrom(g, client, 0);
    ReachedInv(g, client, j);
  }
}
