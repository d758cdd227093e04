/**
 The bounded v3 investigation loop of ops_agent/runtime_agent_v3.py (and, over nine tools, scenario_agent_v3.py) with
 its gate, ops_agent/investigation_gate_v3.py, and its registry, ops_agent/runtime_evidence_v3.py.

 The language model is an arbitrary function from the request number to a response; since every theorem holds for all
 such functions, it covers models that react to what they were sent.  Message texts are not modelled.
 */
module Investigation {
  import opened Prelude
  import opened DiagnosisV3
  import opened DecisionRepair

  const MAX_REQUESTS := 6
  const MAX_TOOLS := 4
  const PRIMARY_TOOLS: seq<Tool> := [StageLatency, PostgresHealth, ReplicaStatus]

  // --------------------------------------------------------------- registry and gate

  /** What a tool yields: an item, an error that the loop catches (`ValueError`, `KeyError`), or any other one. */
  datatype Projection = Projected(item: Evidence) | Declined | Broken

  /** Frozen evidence behind zero-argument tools. */
  datatype Setting = Setting(initial: seq<string>, tools: seq<Tool>, project: Tool -> Projection,
                             forbidden: seq<string> -> bool)

  /** Both registries offer the four runtime tools once, and evidence carries the name of its tool. */
  ghost predicate Proper(g: Setting) {
    && Unique(g.tools)
    && (forall t :: t in PRIMARY_TOOLS + [KedaStatus] ==> t in g.tools)
    && (forall t :: g.project(t).Projected? ==> g.project(t).item.tool == t)
  }

  function Without(tools: seq<Tool>, called: set<Tool>): seq<Tool> {
    if tools == [] then []
    else (if tools[0] in called then [] else [tools[0]]) + Without(tools[1..], called)
  }

  function Within(tools: seq<Tool>, wanted: seq<Tool>): seq<Tool> {
    if tools == [] then []
    else (if tools[0] in wanted then [tools[0]] else []) + Within(tools[1..], wanted)
  }

  predicate Shortfall(evidence: seq<Evidence>) {
    exists e :: e in evidence && Measures(e, Rule(ReplicaStatus, CapacityShortfall))
  }

  function Required(evidence: seq<Evidence>): seq<Tool> {
    PRIMARY_TOOLS + if Shortfall(evidence) then [KedaStatus] else []
  }

  function Called(evidence: seq<Evidence>): set<Tool> { set e | e in evidence :: e.tool }

  /** The required tools not yet called. */
  function Pending(evidence: seq<Evidence>): seq<Tool> { Without(Required(evidence), Called(evidence)) }

  class Registry {
    const tools: seq<Tool>
    const project: Tool -> Projection
    var called: set<Tool>

    constructor (g: Setting)
      ensures tools == g.tools && project == g.project && called == {}
    {
      tools, project, called := g.tools, g.project, {};
    }

    function FunctionTools(): seq<Tool>
      reads this
    {
      Without(tools, called)
    }

    /** A tool answers once; a failing projection still uses it up. */
    method Execute(tool: Tool) returns (r: Projection)
      modifies this
      ensures called == if tool in tools then old(called) + {tool} else old(called)
      ensures r == if tool in tools && tool !in old(called) then project(tool) else Declined
    {
      if tool !in tools || tool in called { return Declined; }
      called := called + {tool};
      return project(tool);
    }
  }

  // --------------------------------------------------------------- responses and results

  /** The name of a call: a text, another value that can be looked up in a set, or a list or object, which cannot. */
  datatype CallName = Named(tool: Tool) | OtherName | Unhashable

  /** The arguments of a call; the reader raises another error for what is no text and for too deeply nested text. */
  datatype Arguments = EmptyObject | OtherJson | NotJsonText | NotText | DeepText

  datatype Call = Call(name: CallName, arguments: Arguments, hasCallId: bool)

  /** The output text: JSON; none or not JSON; a value that is not text; too deeply nested for the JSON reader. */
  datatype Output = Parsed(json: Json) | Garbled | NonText | Deep

  /** `oddTypes`: the type of some output item is a list or object. */
  datatype Response = TransportError | Response(calls: seq<Call>, text: Output, oddTypes: bool)

  datatype Failure =
    | ToolBudgetOrParallelViolation | InvalidToolCall | MinimumInvestigationIncomplete
    | MinimumInvestigationBudgetExhausted | RequestBudgetExhausted
    | Refused(code: Code)

  /** Exceptions that leave the loop. */
  datatype Escape =
    | Transport | CitationUniverse
    | NameUnhashable | ToolArguments | ToolBroken | OutputTypes | CallIdMissing
    | UnreadableText | RepairListing

  datatype Audit = Audit(pending: seq<Tool>, offered: seq<Tool>, required: bool, repair: bool, allowed: set<string>)

  /** The variables of the loop; `original` is present once the repair is used. */
  datatype Progress = Progress(evidence: seq<Evidence>, original: Option<Json>, audit: seq<Audit>)

  datatype Exit =
    | Passed(at: Progress, decision: Decision, firstPass: bool)
    | Failed(at: Progress, failure: Failure)
    | Escaped(at: Progress, escape: Escape)

  const START := Progress([], None, [])

  /** The checks of a final answer, in order. */
  function Judge(g: Setting, evidence: seq<Evidence>, allowed: set<string>, original: Option<Json>, text: Output)
    : Result<Decision, Code>
    requires original.Some? ==> original.value.JObj?
  {
    if text.NonText? then Err(TextExpected)
    else if !text.Parsed? then Err(NotJson)
    else
      var parsed := ParseDecision(text.json);
      if parsed.None? then Err(MalformedDecision)
      else if !(Citations(parsed.value) <= allowed) then Err(CitationOutsideSelection)
      else if original.Some? && !InScope(original.value, parsed.value, evidence) then Err(RepairOutOfScope)
      else
        var problem := Validate(parsed.value, g.initial, evidence, g.forbidden);
        if problem.Some? then Err(problem.value) else Ok(parsed.value)
  }

  datatype Turn = Continue(next: Progress) | Stop(exit: Exit)

  function OfferedTools(g: Setting, p: Progress): seq<Tool> {
    if |p.evidence| < MAX_TOOLS && p.original.None? then Without(g.tools, Called(p.evidence)) else []
  }

  function TakeCall(g: Setting, p: Progress, offered: seq<Tool>, response: Response): (t: Turn)
    requires response.Response?
    ensures t.Continue? ==> t.next.original == p.original
  {
    if |response.calls| != 1 || offered == [] then Stop(Failed(p, ToolBudgetOrParallelViolation))
    else
      var call := response.calls[0];
      if call.name.Unhashable? then Stop(Escaped(p, NameUnhashable))
      else if call.name.OtherName? || call.name.tool !in offered then Stop(Failed(p, InvalidToolCall))
      else if call.arguments in {NotText, DeepText} then Stop(Escaped(p, ToolArguments))
      else if call.arguments != EmptyObject then Stop(Failed(p, InvalidToolCall))
      else
        match g.project(call.name.tool)
        case Declined => Stop(Failed(p, InvalidToolCall))
        case Broken => Stop(Escaped(p, ToolBroken))
        case Projected(item) =>
          if response.oddTypes then Stop(Escaped(p, OutputTypes))
          else if !call.hasCallId then Stop(Escaped(p, CallIdMissing))
          else Continue(p.(evidence := p.evidence + [item]))
  }

  function TakeAnswer(g: Setting, p: Progress, allowed: set<string>, text: Output, turn: nat): (t: Turn)
    requires p.original.Some? ==> p.original.value.JObj?
    ensures t.Continue? && t.next.original.Some? ==> t.next.original.value.JObj?
  {
    if text.Deep? then Stop(Escaped(p, UnreadableText))
    else
      var verdict := Judge(g, p.evidence, allowed, p.original, text);
      if verdict.Ok? then Stop(Passed(p, verdict.value, p.original.None?))
      else if p.original.Some? || !text.Parsed? || !text.json.JObj? || turn >= MAX_REQUESTS - 1 then
        Stop(Failed(p, Refused(verdict.error)))
      else if Removable(text.json, p.evidence).None? then Stop(Escaped(p, RepairListing))
      else Continue(p.(original := Some(text.json)))
  }

  /** One pass through the loop body. */
  function TakeTurn(g: Setting, p: Progress, response: Response, turn: nat): (t: Turn)
    requires p.original.Some? ==> p.original.value.JObj?
    ensures t.Continue? && t.next.original.Some? ==> t.next.original.value.JObj?
  {
    hide *;
    var pending := Pending(p.evidence);
    var required := pending != [] && p.original.None?;
    var all := OfferedTools(g, p);
    var offered := if required then Within(all, pending) else all;
    if required && (|pending| > MAX_TOOLS - |p.evidence| || Members(offered) != Members(pending)) then
      Stop(Failed(p, MinimumInvestigationBudgetExhausted))
    else
      var selectable := Selectable(g.initial, p.evidence, p.original);
      if selectable.None? then Stop(Escaped(p, CitationUniverse))
      else
        var q := p.(audit := p.audit + [Audit(pending, offered, required, p.original.Some?, selectable.value)]);
        if response.TransportError? then Stop(Escaped(q, Transport))
        else if response.calls != [] then TakeCall(g, q, offered, response)
        else if pending != [] then
          if response.text in {NonText, Deep} then Stop(Escaped(q, UnreadableText))
          else Stop(Failed(q, MinimumInvestigationIncomplete))
        else TakeAnswer(g, q, selectable.value, response.text, turn)
  }

  /** The run from request `turn` on. */
  function RunFrom(g: Setting, client: nat -> Response, p: Progress, turn: nat): Exit
    requires p.original.Some? ==> p.original.value.JObj?
    requires turn <= MAX_REQUESTS
    decreases MAX_REQUESTS - turn
  {
    if turn == MAX_REQUESTS then Failed(p, RequestBudgetExhausted)
    else
      match TakeTurn(g, p, client(turn), turn)
      case Stop(exit) => exit
      case Continue(next) => RunFrom(g, client, next, turn + 1)
  }

  method RunV3(g: Setting, client: nat -> Response) returns (exit: Exit)
    requires Proper(g)
    ensures exit == RunFrom(g, client, START, 0)
  {
    var registry := new Registry(g);
    var evidence: seq<Evidence> := [];
    var original: Option<Json> := None;
    var audit: seq<Audit> := [];
    for turn := 0 to MAX_REQUESTS
      invariant original.Some? ==> original.value.JObj?
      invariant registry.tools == g.tools && registry.project == g.project && registry.called == Called(evidence)
      invariant RunFrom(g, client, START, 0) == RunFrom(g, client, Progress(evidence, original, audit), turn)
    {
      var tools := if |evidence| < MAX_TOOLS && original.None? then registry.FunctionTools() else [];
      var pending := Pending(evidence);
      var requireTool := pending != [] && original.None?;
      if requireTool {
        tools := Within(tools, pending);
        if |pending| > MAX_TOOLS - |evidence| || Members(tools) != Members(pending) {
          return Failed(Progress(evidence, original, audit), MinimumInvestigationBudgetExhausted);
        }
      }
      var allowed := Selectable(g.initial, evidence, original);
      if allowed.None? {
        return Escaped(Progress(evidence, original, audit), CitationUniverse);
      }
      audit := audit + [Audit(pending, tools, requireTool, original.Some?, allowed.value)];
      var response := client(turn);
      if response.TransportError? {
        return Escaped(Progress(evidence, original, audit), Transport);
      }
      if response.calls != [] {
        var p := Progress(evidence, original, audit);
        if |response.calls| != 1 || tools == [] {
          return Failed(p, ToolBudgetOrParallelViolation);
        }
        var call := response.calls[0];
        if call.name.Unhashable? {
          return Escaped(p, NameUnhashable);
        }
        if call.name.OtherName? || call.name.tool !in tools {
          return Failed(p, InvalidToolCall);
        }
        if call.arguments in {NotText, DeepText} {
          return Escaped(p, ToolArguments);
        }
        if call.arguments != EmptyObject {
          return Failed(p, InvalidToolCall);
        }
        OfferedIsCallable(g, evidence, call.name.tool, tools);
        var projection := registry.Execute(call.name.tool);
        if projection.Declined? {
          return Failed(p, InvalidToolCall);
        }
        if projection.Broken? {
          return Escaped(p, ToolBroken);
        }
        if response.oddTypes {
          return Escaped(p, OutputTypes);
        }
        if !call.hasCallId {
          return Escaped(p, CallIdMissing);
        }
        CalledGrows(evidence, projection.item);
        evidence := evidence + [projection.item];
      } else {
        var p := Progress(evidence, original, audit);
        if response.text.Deep? || (pending != [] && response.text.NonText?) {
          return Escaped(p, UnreadableText);
        }
        if pending != [] {
          return Failed(p, MinimumInvestigationIncomplete);
        }
        var verdict := Judge(g, evidence, allowed.value, original, response.text);
        if verdict.Ok? {
          return Passed(p, verdict.value, original.None?);
        }
        if original.Some? || !response.text.Parsed? || !response.text.json.JObj? || turn >= MAX_REQUESTS - 1 {
          return Failed(p, Refused(verdict.error));
        }
        if Removable(response.text.json, evidence).None? {
          return Escaped(p, RepairListing);
        }
        original := Some(response.text.json);
      }
    }
    return Failed(Progress(evidence, original, audit), RequestBudgetExhausted);
  }

  lemma {:induction false} WithoutMeans(tools: seq<Tool>, called: set<Tool>)
    ensures forall t :: t in Without(tools, called) <==> t in tools && t !in called
    ensures Unique(tools) ==> Unique(Without(tools, called))
    ensures |Without(tools, called)| <= |tools|
    decreases |tools|
  {
    if tools != [] {
      WithoutMeans(tools[1..], called);
      assert tools == [tools[0]] + tools[1..];
    }
  }

  lemma {:induction false} WithinMeans(tools: seq<Tool>, wanted: seq<Tool>)
    ensures forall t :: t in Within(tools, wanted) <==> t in tools && t in wanted
    decreases |tools|
  {
    if tools != [] {
      WithinMeans(tools[1..], wanted);
      assert tools == [tools[0]] + tools[1..];
    }
  }

  lemma OfferedIsCallable(g: Setting, evidence: seq<Evidence>, tool: Tool, tools: seq<Tool>)
    requires tool in tools
    requires tools == [] || tools == Without(g.tools, Called(evidence))
          || tools == Within(Without(g.tools, Called(evidence)), Pending(evidence))
          || tools == Within([], Pending(evidence))
    ensures tool in g.tools && tool !in Called(evidence)
  {
    hide Called, Pending, Without, Within;
    WithoutMeans(g.tools, Called(evidence));
    WithinMeans(Without(g.tools, Called(evidence)), Pending(evidence));
    WithinMeans([], Pending(evidence));
  }

  lemma CalledGrows(evidence: seq<Evidence>, e: Evidence)
    ensures Called(evidence + [e]) == Called(evidence) + {e.tool}
  {
    assert forall x :: x in evidence + [e] <==> x in evidence || x == e;
  }

  // --------------------------------------------------------------- every run

  const RUNTIME_TOOLS: set<Tool> := {StageLatency, PostgresHealth, ReplicaStatus, KedaStatus}

  /** Every tool answered from the registry, once. */
  ghost predicate Acquired(g: Setting, evidence: seq<Evidence>) {
    OnePerTool(evidence) && forall e :: e in evidence ==> e.tool in g.tools && g.project(e.tool) == Projected(e)
  }

  /** Request `k` of the audit: what was pending then, and that its tool call took an offered tool. */
  ghost predicate Audited(evidence: seq<Evidence>, audit: seq<Audit>, k: nat)
    requires k < |audit| && k <= |evidence|
  {
    && !audit[k].repair
    && audit[k].pending == Pending(evidence[..k])
    && audit[k].required == (audit[k].pending != [])
    && (audit[k].required ==> forall t :: t in audit[k].offered <==> t in audit[k].pending)
    && (k < |evidence| ==> evidence[k].tool in audit[k].offered)
  }

  ghost predicate Inv(g: Setting, p: Progress, turn: nat) {
    && turn == |p.evidence| + (if p.original.Some? then 1 else 0)
    && |p.evidence| <= MAX_TOOLS
    && |p.audit| == turn
    && Acquired(g, p.evidence)
    && (p.original.Some? ==> p.original.value.JObj? && Pending(p.evidence) == [])
    && (Pending(p.evidence) != [] ==> Called(p.evidence) <= RUNTIME_TOOLS)
    && (forall k :: 0 <= k < turn ==> Audited(p.evidence, p.audit, k))
  }

  lemma {:induction false} CalledCount(evidence: seq<Evidence>)
    requires OnePerTool(evidence)
    ensures |Called(evidence)| == |evidence|
    decreases |evidence|
  {
    if evidence != [] {
      var n := |evidence| - 1;
      var front, last := evidence[..n], evidence[n];
      CalledCount(front);
      assert evidence == front + [last];
      CalledGrows(front, last);
      assert last.tool !in Called(front) by {
        forall e | e in front ensures e.tool != last.tool {
          var i :| 0 <= i < n && front[i] == e;
          assert evidence[i] == e;
        }
      }
    }
  }

  lemma {:induction false} UniqueCount(tools: seq<Tool>)
    requires Unique(tools)
    ensures |Members(tools)| == |tools|
    decreases |tools|
  {
    if tools != [] {
      var n := |tools| - 1;
      var front, last := tools[..n], tools[n];
      UniqueCount(front);
      assert tools == front + [last];
      var all, before := Members(tools), Members(front);
      assert forall t :: t in tools <==> t in front || t == last;
      assert forall t :: t in all <==> t in before || t == last;
      assert all == before + {last};
      assert last !in front;
    }
  }

  lemma PendingMeans(evidence: seq<Evidence>)
    ensures forall t :: t in Pending(evidence) <==> t in Required(evidence) && t !in Called(evidence)
    ensures Unique(Pending(evidence))
  {
    hide Called, Without;
    WithoutMeans(Required(evidence), Called(evidence));
  }

  /** While a tool is required, required and acquired tools together fit the budget of four. */
  lemma GateFitsBudget(evidence: seq<Evidence>)
    requires OnePerTool(evidence) && Called(evidence) <= RUNTIME_TOOLS
    ensures |Pending(evidence)| + |evidence| <= MAX_TOOLS
  {
    hide Called, Pending;
    PendingMeans(evidence);
    CalledCount(evidence);
    UniqueCount(Pending(evidence));
    DisjointCount(Members(Pending(evidence)), Called(evidence));
  }

  lemma DisjointCount(a: set<Tool>, b: set<Tool>)
    requires a <= RUNTIME_TOOLS && b <= RUNTIME_TOOLS && a !! b
    ensures |a| + |b| <= MAX_TOOLS
  {
    SubsetCount(a + b, RUNTIME_TOOLS);
    assert |RUNTIME_TOOLS| == MAX_TOOLS;
  }

  /** While a tool is required, exactly the pending tools are offered. */
  lemma OfferedIsPending(g: Setting, p: Progress)
    requires Proper(g) && Pending(p.evidence) != [] && |p.evidence| < MAX_TOOLS && p.original.None?
    ensures forall t :: t in Within(OfferedTools(g, p), Pending(p.evidence)) <==> t in Pending(p.evidence)
  {
    PendingMeans(p.evidence);
    hide Called, Pending, Without, Within;
    WithoutMeans(g.tools, Called(p.evidence));
    WithinMeans(OfferedTools(g, p), Pending(p.evidence));
  }

  /** Once nothing is pending, nothing becomes pending: the replica status, which decides about KEDA, is in. */
  lemma GateStaysOpen(evidence: seq<Evidence>, e: Evidence)
    requires Pending(evidence) == [] && e.tool !in Called(evidence)
    ensures Pending(evidence + [e]) == []
  {
    PendingMeans(evidence);
    PendingMeans(evidence + [e]);
    CalledGrows(evidence, e);
    assert ReplicaStatus in Required(evidence);
    assert Shortfall(evidence + [e]) <==> Shortfall(evidence) by {
      assert forall x :: x in evidence + [e] <==> x in evidence || x == e;
      assert e.tool != ReplicaStatus;
    }
    hide Called, Pending;
    assert forall t :: t !in Pending(evidence) && t !in Pending(evidence + [e]);
    NonEmptyHasMember(Pending(evidence + [e]));
  }

  lemma NonEmptyHasMember(tools: seq<Tool>)
    ensures tools != [] ==> exists t :: t in tools
  {
    if tools != [] { assert tools[0] in tools; }
  }

  lemma AcquiredGrows(g: Setting, evidence: seq<Evidence>, e: Evidence)
    requires Acquired(g, evidence) && e.tool in g.tools && g.project(e.tool) == Projected(e)
               && e.tool !in Called(evidence)
    ensures Acquired(g, evidence + [e])
  {
    var all := evidence + [e];
    assert forall i :: 0 <= i < |evidence| ==> evidence[i] in evidence && all[i] == evidence[i];
  }

  lemma AuditedGrows(p: Progress, e: Evidence, a: Audit, k: nat)
    requires k < |p.audit| <= |p.evidence| && Audited(p.evidence, p.audit, k)
    ensures Audited(p.evidence + [e], p.audit + [a], k)
  {
    hide Pending;
    assert (p.evidence + [e])[..k] == p.evidence[..k];
  }

  /** The gate's own exit is never taken in a reachable state. */
  lemma GateNeverExhausts(g: Setting, p: Progress, turn: nat)
    requires Proper(g) && Inv(g, p, turn) && Pending(p.evidence) != []
    ensures p.original.None? && |Pending(p.evidence)| <= MAX_TOOLS - |p.evidence|
    ensures Members(Within(OfferedTools(g, p), Pending(p.evidence))) == Members(Pending(p.evidence))
    ensures forall t :: t in Within(OfferedTools(g, p), Pending(p.evidence)) <==> t in Pending(p.evidence)
  {
    hide Called, Within, Audited;
    GateFitsBudget(p.evidence);
    hide Pending;
    OfferedIsPending(g, p);
  }

  /** A tool call leads from a reachable state to a reachable state. */
  lemma CallKeepsInv(g: Setting, p: Progress, turn: nat, e: Evidence, a: Audit)
    requires Proper(g) && Inv(g, p, turn) && p.original.None?
    requires |p.evidence| < MAX_TOOLS && e.tool in g.tools && e.tool !in Called(p.evidence)
    requires g.project(e.tool) == Projected(e)
    requires Pending(p.evidence) != [] ==> e.tool in Pending(p.evidence)
    requires Audited(p.evidence, p.audit + [a], turn) && e.tool in a.offered
    ensures Inv(g, Progress(p.evidence + [e], None, p.audit + [a]), turn + 1)
  {
    hide Within, Without, OfferedTools;
    PendingMeans(p.evidence);
    CalledGrows(p.evidence, e);
    AcquiredGrows(g, p.evidence, e);
    if Pending(p.evidence) == [] { GateStaysOpen(p.evidence, e); }
    hide Pending, Called, Acquired;
    forall k | 0 <= k < turn ensures Audited(p.evidence + [e], p.audit + [a], k) {
      AuditedGrows(p, e, a, k);
    }
    assert (p.evidence + [e])[..turn] == p.evidence[..turn];
  }

  /** What every run ends with. */
  ghost predicate Sound(g: Setting, exit: Exit) {
    var p := exit.at;
    && |p.audit| <= 6
    && |p.evidence| <= 4 && Acquired(g, p.evidence)
    && (forall k :: 0 <= k < |p.audit| - 1 ==> !p.audit[k].repair)
    && (exit.Failed? ==> exit.failure != RequestBudgetExhausted && exit.failure != MinimumInvestigationBudgetExhausted)
    && (exit.Passed? ==> SoundDecision(g, p, exit.decision) && exit.firstPass == p.original.None?)
  }

  /** A decision that passed: investigated, valid, in scope if it is a repair, and citing what was offered. */
  ghost predicate SoundDecision(g: Setting, p: Progress, d: Decision) {
    && Pending(p.evidence) == []
    && WellFormed(d)
    && Validate(d, g.initial, p.evidence, g.forbidden).None?
    && (p.original.Some? ==> p.original.value.JObj? && InScope(p.original.value, d, p.evidence))
    && p.audit != [] && Citations(d) <= p.audit[|p.audit| - 1].allowed
    && Selectable(g.initial, p.evidence, p.original) == Some(p.audit[|p.audit| - 1].allowed)
  }

  lemma JudgedIsSound(g: Setting, evidence: seq<Evidence>, allowed: set<string>, original: Option<Json>, text: Output)
    requires original.Some? ==> original.value.JObj?
    requires Judge(g, evidence, allowed, original, text).Ok?
    ensures var d := Judge(g, evidence, allowed, original, text).value;
            && WellFormed(d) && Citations(d) <= allowed
            && Validate(d, g.initial, evidence, g.forbidden).None?
            && (original.Some? ==> InScope(original.value, d, evidence))
  {
    hide Validate, InScope, Citations, ParseDecision, WellFormed;
    ParsedIsWellFormed(text.json);
  }

  lemma ParsedIsWellFormed(j: Json)
    requires ParseDecision(j).Some?
    ensures WellFormed(ParseDecision(j).value)
  {
    hide WellFormed, ParseObservations, ParseCandidates, ParseStrings, ParseConclusion, FieldOr;
  }

  lemma AnswerIsSound(g: Setting, p: Progress, q: Progress, turn: nat, allowed: set<string>, text: Output)
    requires Proper(g) && Inv(g, p, turn) && turn < MAX_REQUESTS && Pending(p.evidence) == []
    requires q.evidence == p.evidence && q.original == p.original && |q.audit| == turn + 1 && q.audit[..turn] == p.audit
    requires p.original.None? ==> Audited(q.evidence, q.audit, turn)
    requires q.audit[turn].allowed == allowed && Selectable(g.initial, q.evidence, q.original) == Some(allowed)
    ensures var t := TakeAnswer(g, q, allowed, text, turn);
            if t.Stop? then Sound(g, t.exit) else Inv(g, t.next, turn + 1)
  {
    hide Judge, Removable, Acquired, Pending, Called, Validate, WellFormed, InScope, Citations, Selectable;
    if Judge(g, q.evidence, allowed, q.original, text).Ok? { JudgedIsSound(g, q.evidence, allowed, q.original, text); }
    forall k | 0 <= k < turn ensures !q.audit[k].repair && Audited(q.evidence, q.audit, k) {
      assert Audited(p.evidence, p.audit, k) && p.audit[k] == q.audit[k];
    }
  }

  lemma TurnIsSound(g: Setting, p: Progress, response: Response, turn: nat)
    requires Proper(g) && Inv(g, p, turn) && turn < MAX_REQUESTS
    ensures var t := TakeTurn(g, p, response, turn);
            if t.Stop? then Sound(g, t.exit) else Inv(g, t.next, turn + 1)
  {
    hide Acquired, Pending, Called, Within, Without, TakeAnswer, Selectable, Validate, WellFormed, InScope;
    var pending := Pending(p.evidence);
    var selectable := Selectable(g.initial, p.evidence, p.original);
    if pending != [] { GateNeverExhausts(g, p, turn); }
    var offered := if pending != [] && p.original.None? then Within(OfferedTools(g, p), pending)
                   else OfferedTools(g, p);
    forall k | 0 <= k < turn ensures !p.audit[k].repair {
      assert Audited(p.evidence, p.audit, k);
    }
    if selectable.Some? {
      var a := Audit(pending, offered, pending != [] && p.original.None?, p.original.Some?, selectable.value);
      var q := p.(audit := p.audit + [a]);
      assert p.evidence[..|p.evidence|] == p.evidence;
      if response.Response? && response.calls != [] {
        if TakeCall(g, q, offered, response).Continue? {
          var tool := response.calls[0].name.tool;
          OfferedMeans(g, p, tool);
          CallKeepsInv(g, p, turn, g.project(tool).item, a);
        }
      } else if response.Response? && pending == [] {
        AnswerIsSound(g, p, q, turn, selectable.value, response.text);
      }
    }
  }

  /** An offered tool exists, is new, fits the budget, and is a pending one while any is. */
  lemma OfferedMeans(g: Setting, p: Progress, tool: Tool)
    requires tool in (if Pending(p.evidence) != [] && p.original.None?
                      then Within(OfferedTools(g, p), Pending(p.evidence))
                      else OfferedTools(g, p))
    ensures tool in g.tools && tool !in Called(p.evidence) && |p.evidence| < MAX_TOOLS && p.original.None?
    ensures Pending(p.evidence) != [] ==> tool in Pending(p.evidence)
  {
    hide Called, Pending, Without, Within;
    WithoutMeans(g.tools, Called(p.evidence));
    WithinMeans(OfferedTools(g, p), Pending(p.evidence));
  }

  lemma {:induction false} RunIsSound(g: Setting, client: nat -> Response, p: Progress, turn: nat)
    requires Proper(g) && turn <= MAX_REQUESTS && Inv(g, p, turn)
    ensures Sound(g, RunFrom(g, client, p, turn))
    decreases MAX_REQUESTS - turn
  {
    hide TakeTurn, Acquired, Pending, Called, Audited, Sound;
    assert turn < MAX_REQUESTS;
    TurnIsSound(g, p, client(turn), turn);
    var t := TakeTurn(g, p, client(turn), turn);
    if t.Continue? { RunIsSound(g, client, t.next, turn + 1); }
  }

  /**
   Whatever the model answers: at most six requests, four distinct tool calls and one repair; the two budget failures
   never occur; and a passing run holds a validated decision, in scope if it was repaired.
   */
  lemma EveryRunIsSound(g: Setting, client: nat -> Response)
    requires Proper(g)
    ensures Sound(g, RunFrom(g, client, START, 0))
  {
    StartInv(g);
    RunIsSound(g, client, START, 0);
  }

  lemma StartInv(g: Setting)
    ensures Inv(g, START, 0)
  {
    assert Called([]) == {};
  }

  /** A passing run has called all primary tools, and KEDA if replicas showed a fresh OK shortfall. */
  lemma PassingRunIsCovered(g: Setting, client: nat -> Response)
    requires Proper(g) && RunFrom(g, client, START, 0).Passed?
    ensures var evidence := RunFrom(g, client, START, 0).at.evidence;
            && StageLatency in Called(evidence) && PostgresHealth in Called(evidence)
            && ReplicaStatus in Called(evidence)
            && (Shortfall(evidence) ==> KedaStatus in Called(evidence))
  {
    hide RunFrom, Selectable, Called, Pending, Validate, WellFormed, InScope, Shortfall;
    EveryRunIsSound(g, client);
    var evidence := RunFrom(g, client, START, 0).at.evidence;
    PendingMeans(evidence);
    assert forall t :: t in Required(evidence) ==> t in Called(evidence);
    assert StageLatency in Required(evidence) && PostgresHealth in Required(evidence)
             && ReplicaStatus in Required(evidence);
    assert Shortfall(evidence) ==> KedaStatus in Required(evidence);
  }

  /**
   A passing decision cites only what its last request offered for citation: supplied identifiers, and in a repair only
   those that the first answer cites.
   */
  lemma PassingRunCitesOffered(g: Setting, client: nat -> Response)
    requires Proper(g) && RunFrom(g, client, START, 0).Passed?
    ensures var exit := RunFrom(g, client, START, 0);
            && exit.at.audit != [] && (!exit.firstPass ==> exit.at.original.Some? && exit.at.original.value.JObj?)
            && Citations(exit.decision) <= exit.at.audit[|exit.at.audit| - 1].allowed
            && exit.at.audit[|exit.at.audit| - 1].allowed
               == var supplied := Members(g.initial + Ids(exit.at.evidence));
                  if exit.firstPass then supplied else supplied * LooseCitations(exit.at.original.value)
  {
    hide RunFrom, Validate, WellFormed, InScope, Citations, Pending, LooseCitations;
    EveryRunIsSound(g, client);
  }

  /** A passing run reports no signal and supports no cause beyond the deterministic checklist on the same evidence. */
  lemma PassingRunWithinChecklist(g: Setting, client: nat -> Response)
    requires Proper(g) && RunFrom(g, client, START, 0).Passed?
    ensures var exit := RunFrom(g, client, START, 0);
            var checklist := FixedDecision(g.initial, exit.at.evidence);
            && (forall o :: o in exit.decision.observations ==> o in checklist.observations)
            && (forall h :: h in exit.decision.hypotheses && h.status == Supported ==> OnChecklist(h, checklist))
            && ObservedSignals(exit.decision) <= ObservedSignals(checklist)
            && SupportedCauses(exit.decision) <= SupportedCauses(checklist)
            && forall h :: h in exit.decision.hypotheses ==> h.status != Conflicted
  {
    hide RunFrom, Selectable, Validate, WellFormed, InScope, FixedDecision, Pending, OnChecklist;
    EveryRunIsSound(g, client);
    var exit := RunFrom(g, client, START, 0);
    AcceptedWithinChecklist(exit.decision, g.initial, exit.at.evidence, g.forbidden);
  }

  /** A repaired passing run reports every checklist signal that the first answer mentions. */
  lemma RepairedRunKeepsSignals(g: Setting, client: nat -> Response, s: Signal)
    requires Proper(g) && RunFrom(g, client, START, 0).Passed? && !RunFrom(g, client, START, 0).firstPass
    ensures var exit := RunFrom(g, client, START, 0);
            && exit.at.original.Some? && exit.at.original.value.JObj? && RawSignals(exit.at.original.value).Some?
            && (s in ObservedSignals(FixedDecision(g.initial, exit.at.evidence))
                && JStr(SignalName(s)) in RawSignals(exit.at.original.value).value
                ==> s in ObservedSignals(exit.decision))
  {
    hide RunFrom, Selectable, Validate, WellFormed, RawSignals, FixedDecision, Pending, ObservedSignals, Removable,
         RawPairs, RawCitations;
    EveryRunIsSound(g, client);
    var exit := RunFrom(g, client, START, 0);
    var checklist := FixedDecision(g.initial, exit.at.evidence);
    if s in ObservedSignals(checklist) && JStr(SignalName(s)) in RawSignals(exit.at.original.value).value {
      RepairKeepsChecklistSignals(exit.at.original.value, exit.decision, g.initial, exit.at.evidence, s);
    }
  }

  /** A repaired passing run supports exactly the causes that the first answer supported. */
  lemma RepairedRunKeepsCauses(g: Setting, client: nat -> Response, c: Cause)
    requires Proper(g) && RunFrom(g, client, START, 0).Passed? && !RunFrom(g, client, START, 0).firstPass
    ensures var exit := RunFrom(g, client, START, 0);
            && exit.at.original.Some? && exit.at.original.value.JObj?
            && (c in SupportedCauses(exit.decision) <==> RawSupports(exit.at.original.value, c))
  {
    hide RunFrom, Selectable, Validate, WellFormed, InScope, RawSupports, SupportedCauses, Pending;
    EveryRunIsSound(g, client);
    var exit := RunFrom(g, client, START, 0);
    RepairKeepsDiagnosis(exit.at.original.value, exit.decision, exit.at.evidence);
  }
}
