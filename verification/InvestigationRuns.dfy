/**
 Concrete runs of the investigation loop: over stale evidence and over a fresh replica shortfall they pass at once or
 after a repair, and they can raise although the transport works.
 */
module InvestigationRuns {
  import opened Prelude
  import opened DiagnosisV3
  import opened DecisionRepair
  import opened DecisionWire
  import opened Investigation
  import opened InvestigationEscapes
  import opened InvestigationTurns

  // --------------------------------------------------------------- scripted runs

  /** The tools that yield `items` are the ones required, in this order, and nothing is required after them. */
  ghost predicate Scripted(g: Setting, items: seq<Evidence>) {
    && Proper(g) && g.initial == [] && (forall gaps :: !g.forbidden(gaps))
    && |items| <= 4 && Unique(Ids(items)) && (forall e :: e in items ==> |e.id| == 1)
    && (forall k :: 0 <= k < |items| ==>
          g.project(items[k].tool) == Projected(items[k]) && items[k].tool in Pending(items[..k]))
    && Pending(items) == []
  }

  /** Calls those tools, then answers; the second answer is the repair. */
  function Script(items: seq<Evidence>, first: Json, second: Json): nat -> Response {
    (turn: nat) => if turn < |items| then Response([Call(Named(items[turn].tool), EmptyObject, true)], Garbled, false)
                   else if turn == |items| then Response([], Parsed(first), false)
                   else Response([], Parsed(second), false)
  }

  lemma ScriptedSelects(g: Setting, items: seq<Evidence>, p: Progress)
    requires Scripted(g, items) && p.evidence <= items && (p.original.Some? ==> p.original.value.JObj?)
    ensures Selectable(g.initial, p.evidence, p.original).Some?
  {
    hide LooseCitations, Proper, Pending;
    var ids := Ids(p.evidence);
    assert g.initial + ids == ids;
    forall id | id in ids ensures |id| == 1 {
      var i :| 0 <= i < |p.evidence| && ids[i] == id;
      assert p.evidence[i] == items[i];
    }
    MembersCount(ids);
    if p.original.Some? { SubsetCount(Members(ids) * LooseCitations(p.original.value), Members(ids)); }
  }

  lemma ScriptedCall(g: Setting, items: seq<Evidence>, p: Progress, client: nat -> Response, turn: nat)
    returns (q: Progress)
    requires Scripted(g, items) && Inv(g, p, turn) && turn < |items|
    requires p.original.None? && p.evidence == items[..turn]
    requires client(turn) == Response([Call(Named(items[turn].tool), EmptyObject, true)], Garbled, false)
    ensures Inv(g, q, turn + 1) && q.original.None? && q.evidence == items[..turn + 1]
    ensures RunFrom(g, client, p, turn) == RunFrom(g, client, q, turn + 1)
  {
    hide TakeTurn, Inv, Pending, Called, Selectable, Removable, Judge, Entry, OfferedNow, Unique;
    ScriptedSelects(g, items, p);
    var allowed := Selectable(g.initial, p.evidence, p.original).value;
    var tool := items[turn].tool;
    PendingMeans(p.evidence);
    PendingIsKnown(g, p.evidence, tool);
    hide Proper, Required;
    assert Callable(g, p, tool);
    hide Callable;
    assert CallAnswered(g, p, client(turn), items[turn]);
    TurnContinuesExactlyWhen(g, p, client(turn), turn, allowed);
    TurnIsSound(g, p, client(turn), turn);
    q := TakeTurn(g, p, client(turn), turn).next;
    assert items[..turn + 1] == items[..turn] + [items[turn]];
  }

  /** The state in which request `turn` is made, up to that of the first answer. */
  lemma {:induction false} ScriptedState(g: Setting, items: seq<Evidence>, client: nat -> Response, turn: nat)
    returns (p: Progress)
    requires Scripted(g, items) && turn <= |items|
    requires forall k: nat :: k < turn ==>
               client(k) == Response([Call(Named(items[k].tool), EmptyObject, true)], Garbled, false)
    ensures Inv(g, p, turn) && p.original.None? && p.evidence == items[..turn]
    ensures RunFrom(g, client, START, 0) == RunFrom(g, client, p, turn)
  {
    hide Inv, Scripted, RunFrom;
    if turn == 0 {
      p := START;
      StartInv(g);
    } else {
      p := ScriptedState(g, items, client, turn - 1);
      AtMostFour(g, items);
      p := ScriptedCall(g, items, p, client, turn - 1);
    }
  }

  lemma AtMostFour(g: Setting, items: seq<Evidence>)
    requires Scripted(g, items)
    ensures |items| <= 4 && items[..|items|] == items && Pending(items) == [] && Proper(g)
  {}

  // --------------------------------------------------------------- answers

  function Abstained(gaps: seq<string>): Decision { Decision([], [], [], gaps, false) }

  /** An abstention that names these gaps. */
  function Abstention(gaps: seq<string>): Json { Dump(Abstained(gaps)) }

  lemma AbstentionParses(gaps: seq<string>)
    requires ShortCodes(gaps, 32)
    ensures Abstention(gaps).JObj? && ParseDecision(Abstention(gaps)) == Some(Abstained(gaps))
  {
    DumpIsObject(Abstained(gaps));
    AbstentionIsWellFormed(gaps);
    hide ParseDecision, Dump, WellFormed, ShortCodes;
    DumpRoundTrip(Abstained(gaps));
  }

  lemma DumpIsObject(d: Decision)
    ensures Dump(d).JObj?
  {}

  lemma AbstentionIsWellFormed(gaps: seq<string>)
    requires ShortCodes(gaps, 32)
    ensures WellFormed(Abstained(gaps))
  {}

  /** Such an answer is accepted if it names a gap, and refused otherwise. */
  lemma AbstentionJudged(g: Setting, items: seq<Evidence>, gaps: seq<string>, allowed: set<string>,
                         original: Option<Json>)
    requires Scripted(g, items) && ShortCodes(gaps, 32) && (original.None? || original == Some(Abstention([])))
    ensures original.Some? ==> original.value.JObj? && InScope(original.value, Abstained(gaps), items)
    ensures Contracted(g, items, allowed, Parsed(Abstention(gaps)), Abstained(gaps)) <==> gaps != []
    ensures Judge(g, items, allowed, original, Parsed(Abstention(gaps))).Ok? <==> gaps != []
  {
    hide ParseDecision, Abstention, Validate, InScope, Judge, Admissible, Scripted, Citations, WellFormed;
    AbstentionParses(gaps);
    AbstentionIsAdmissible(g, items, gaps);
    RepairInScope(items, gaps);
    var text, d := Parsed(Abstention(gaps)), Abstained(gaps);
    JudgeExactlyWhen(g, items, allowed, original, text, d);
    var verdict := Judge(g, items, allowed, original, text);
    if verdict.Ok? { JudgeExactlyWhen(g, items, allowed, original, text, verdict.value); }
  }

  lemma AbstentionIsAdmissible(g: Setting, items: seq<Evidence>, gaps: seq<string>)
    requires Scripted(g, items)
    ensures Admissible(Abstained(gaps), g.initial, items, g.forbidden) <==> gaps != []
    ensures Citations(Abstained(gaps)) == {}
  {
    hide Ids, Pending, Proper;
    var d := Abstained(gaps);
    assert !HasSupported(d);
    assert ConclusionAgrees(d) <==> gaps != [];
    assert DistinctInputs(g.initial, items);
  }

  /** Naming a gap is a repair in scope of an answer that names none. */
  lemma RepairInScope(items: seq<Evidence>, gaps: seq<string>)
    ensures Abstention([]).JObj? && Removable(Abstention([]), items).Some?
    ensures InScope(Abstention([]), Abstained(gaps), items)
  {
    hide Dump, Removable, InScope;
    DumpedScope(Abstained([]), Abstained(gaps), items);
  }

  // --------------------------------------------------------------- runs that pass

  /** An abstention that names a gap passes at once. */
  lemma FirstAnswerPasses(g: Setting, items: seq<Evidence>, gap: string, second: Json)
    requires Scripted(g, items) && 1 <= |gap| <= 128
    ensures var exit := RunFrom(g, Script(items, Abstention([gap]), second), START, 0);
            exit.Passed? && exit.firstPass && exit.decision == Abstained([gap]) && exit.at.evidence == items
  {
    hide TakeTurn, Judge, Pending, Inv, Abstention, Scripted, Selectable, InScope, Contracted, Entry;
    AtMostFour(g, items);
    var client, turn := Script(items, Abstention([gap]), second), |items|;
    var p := ScriptedState(g, items, client, turn);
    ScriptedSelects(g, items, p);
    var allowed := Selectable(g.initial, p.evidence, p.original).value;
    AbstentionJudged(g, items, [gap], allowed, None);
    TurnPassesExactlyWhen(g, p, client(turn), turn, allowed, Abstained([gap]));
  }

  /** One that names none is refused, and passes if the repair names it: also when the first answer is the fifth one. */
  lemma RepairPasses(g: Setting, items: seq<Evidence>, gap: string)
    requires Scripted(g, items) && 1 <= |gap| <= 128
    ensures var exit := RunFrom(g, Script(items, Abstention([]), Abstention([gap])), START, 0);
            && exit.Passed? && !exit.firstPass && exit.decision == Abstained([gap]) && exit.at.evidence == items
            && exit.at.original == Some(Abstention([]))
  {
    hide TakeTurn, Judge, Pending, Inv, Abstention, Scripted, Selectable, InScope, Contracted, Removable, Entry;
    AtMostFour(g, items);
    var client, turn := Script(items, Abstention([]), Abstention([gap])), |items|;
    var p := ScriptedState(g, items, client, turn);
    ScriptedSelects(g, items, p);
    var allowed := Selectable(g.initial, p.evidence, p.original).value;
    AbstentionJudged(g, items, [], allowed, None);
    RepairInScope(items, [gap]);
    assert RepairDue(g, p, allowed, client(turn));
    TurnContinuesExactlyWhen(g, p, client(turn), turn, allowed);
    TurnIsSound(g, p, client(turn), turn);
    RepairedAnswerPasses(g, items, gap, TakeTurn(g, p, client(turn), turn).next);
  }

  lemma RepairedAnswerPasses(g: Setting, items: seq<Evidence>, gap: string, q: Progress)
    requires Scripted(g, items) && 1 <= |gap| <= 128
    requires Inv(g, q, |items| + 1) && q.evidence == items && q.original == Some(Abstention([]))
    ensures var exit := RunFrom(g, Script(items, Abstention([]), Abstention([gap])), q, |items| + 1);
            && exit.Passed? && !exit.firstPass && exit.decision == Abstained([gap]) && exit.at.evidence == items
            && exit.at.original == Some(Abstention([]))
  {
    hide TakeTurn, Judge, Pending, Inv, Abstention, Scripted, Selectable, InScope, Contracted, Removable, Entry;
    AtMostFour(g, items);
    var client, turn := Script(items, Abstention([]), Abstention([gap])), |items| + 1;
    RepairInScope(items, []);
    ScriptedSelects(g, items, q);
    var allowed := Selectable(g.initial, q.evidence, q.original).value;
    AbstentionJudged(g, items, [gap], allowed, q.original);
    TurnPassesExactlyWhen(g, q, client(turn), turn, allowed, Abstained([gap]));
  }

  // --------------------------------------------------------------- two settings

  function ItemId(t: Tool): string {
    match t
    case StageLatency => "s"
    case PostgresHealth => "p"
    case ReplicaStatus => "r"
    case KedaStatus => "k"
    case OtherTool(_) => "o"
  }

  function StaleItem(t: Tool): Evidence { Evidence(ItemId(t), t, false, false, None) }

  /** As before, but a fresh and successful replica status reports too little capacity. */
  function ShortItem(t: Tool): Evidence {
    if t == ReplicaStatus then Evidence("r", t, true, true, Some(CapacityShortfall)) else StaleItem(t)
  }

  function SettingOf(item: Tool -> Evidence): Setting {
    Setting([], [StageLatency, PostgresHealth, ReplicaStatus, KedaStatus], t => Projected(item(t)), _ => false)
  }

  const STALE_ITEMS := [StaleItem(StageLatency), StaleItem(PostgresHealth), StaleItem(ReplicaStatus)]
  const SHORT_ITEMS := [ShortItem(StageLatency), ShortItem(PostgresHealth), ShortItem(ReplicaStatus),
                        ShortItem(KedaStatus)]

  lemma CalledItems(items: seq<Evidence>, k: nat)
    requires k <= |items|
    ensures forall t :: t in Called(items[..k]) <==> exists i :: 0 <= i < k && items[i].tool == t
  {}

  /** After `k` of the tools the next one is required, and after all of them none is. */
  lemma PendingItems(items: seq<Evidence>, k: nat)
    requires |items| in {3, 4} && k <= |items|
    requires items[0].tool == StageLatency && items[1].tool == PostgresHealth && items[2].tool == ReplicaStatus
    requires |items| == 4 ==> items[3].tool == KedaStatus && Shortfall([items[2]])
    requires |items| == 3 ==> forall e :: e in items ==> !e.ok
    ensures if k < |items| then items[k].tool in Pending(items[..k]) else Pending(items[..k]) == []
  {
    hide Called, Pending;
    PendingMeans(items[..k]);
    CalledItems(items, k);
    NonEmptyHasMember(Pending(items[..k]));
    if |items| == 4 && k >= 3 {
      assert items[..k][2] == items[2];
    }
    assert forall t :: t in PRIMARY_TOOLS <==> t in {StageLatency, PostgresHealth, ReplicaStatus};
    assert forall t :: t in Called(items[..k]) <==> (exists i :: 0 <= i < k && items[i].tool == t);
    assert forall i :: 0 <= i < k ==> items[i].tool in Called(items[..k]);
    assert k >= 1 ==> items[0].tool in Called(items[..k]);
    assert k >= 2 ==> items[1].tool in Called(items[..k]);
    assert k >= 3 ==> items[2].tool in Called(items[..k]);
    assert k >= 4 ==> items[3].tool in Called(items[..k]);
  }

  lemma SettingIsProper(item: Tool -> Evidence)
    requires forall t :: item(t).tool == t
    ensures Proper(SettingOf(item))
  {}

  lemma IdsDiffer(items: seq<Evidence>)
    requires forall e :: e in items ==> e.id == ItemId(e.tool) && !e.tool.OtherTool?
    requires forall i, j :: 0 <= i < j < |items| ==> items[i].tool != items[j].tool
    ensures Unique(Ids(items)) && forall e :: e in items ==> |e.id| == 1
  {
    forall i, j | 0 <= i < j < |items| ensures Ids(items)[i] != Ids(items)[j] {
      assert Ids(items)[i] == ItemId(items[i].tool) && Ids(items)[j] == ItemId(items[j].tool);
      assert ItemId(items[i].tool)[0] != ItemId(items[j].tool)[0];
    }
  }

  /** What the two settings have in common. */
  ghost predicate Ordered(item: Tool -> Evidence, items: seq<Evidence>) {
    && |items| in {3, 4} && (forall t :: item(t).tool == t)
    && (forall e :: e in items ==> e == item(e.tool) && e.id == ItemId(e.tool))
    && items[0].tool == StageLatency && items[1].tool == PostgresHealth && items[2].tool == ReplicaStatus
    && (|items| == 4 ==> items[3].tool == KedaStatus && Shortfall([items[2]]))
    && (|items| == 3 ==> forall e :: e in items ==> !e.ok)
  }

  lemma ItemsAreScripted(item: Tool -> Evidence, items: seq<Evidence>)
    requires Ordered(item, items)
    ensures Scripted(SettingOf(item), items)
  {
    hide Pending, Proper, Unique, ItemId, Shortfall;
    SettingIsProper(item);
    IdsDiffer(items);
    forall k | 0 <= k <= |items|
      ensures if k < |items| then items[k].tool in Pending(items[..k]) else Pending(items[..k]) == []
    {
      PendingItems(items, k);
    }
    assert items[..|items|] == items;
  }

  lemma ItemsAreOrdered()
    ensures Ordered(StaleItem, STALE_ITEMS) && Ordered(ShortItem, SHORT_ITEMS)
  {
    var status := SHORT_ITEMS[2];
    assert status in [status] && Measures(status, Rule(ReplicaStatus, CapacityShortfall));
    assert ItemId(ReplicaStatus) == "r";
  }

  /** Over stale evidence three tools are called, over a shortfall four; either way a run passes at once or repaired. */
  lemma RunCanPass(gap: string)
    requires 1 <= |gap| <= 128
    ensures var exit := RunFrom(SettingOf(StaleItem), Script(STALE_ITEMS, Abstention([gap]), JNull), START, 0);
            exit.Passed? && exit.firstPass && exit.decision == Abstained([gap]) && |exit.at.evidence| == 3
    ensures var exit := RunFrom(SettingOf(StaleItem), Script(STALE_ITEMS, Abstention([]), Abstention([gap])), START, 0);
            exit.Passed? && !exit.firstPass && exit.decision == Abstained([gap]) && |exit.at.evidence| == 3
    ensures var exit := RunFrom(SettingOf(ShortItem), Script(SHORT_ITEMS, Abstention([gap]), JNull), START, 0);
            exit.Passed? && exit.firstPass && exit.decision == Abstained([gap]) && |exit.at.evidence| == 4
    ensures var exit := RunFrom(SettingOf(ShortItem), Script(SHORT_ITEMS, Abstention([]), Abstention([gap])), START, 0);
            exit.Passed? && !exit.firstPass && exit.decision == Abstained([gap]) && |exit.at.evidence| == 4
  {
    hide RunFrom, Scripted, Ordered, Abstention;
    ItemsAreOrdered();
    ItemsAreScripted(StaleItem, STALE_ITEMS);
    ItemsAreScripted(ShortItem, SHORT_ITEMS);
    FirstAnswerPasses(SettingOf(StaleItem), STALE_ITEMS, gap, JNull);
    RepairPasses(SettingOf(StaleItem), STALE_ITEMS, gap);
    FirstAnswerPasses(SettingOf(ShortItem), SHORT_ITEMS, gap, JNull);
    RepairPasses(SettingOf(ShortItem), SHORT_ITEMS, gap);
  }

  // --------------------------------------------------------------- runs that raise

  const NULL_OBSERVATIONS := JObj([("observations", JNull)])

  /** So a run need not return: here the fourth response raises, although the transport works. */
  lemma RunCanRaise()
    ensures Proper(SettingOf(StaleItem))
    ensures var client := Script(STALE_ITEMS, NULL_OBSERVATIONS, JNull);
            var exit := RunFrom(SettingOf(StaleItem), client, START, 0);
            exit.Escaped? && exit.escape == RepairListing
  {
    hide TakeTurn, TakeAnswer, Pending, Inv, Scripted, Unique, RawObservations, Selectable, Entry;
    ItemsAreOrdered();
    ItemsAreScripted(StaleItem, STALE_ITEMS);
    var g, items := SettingOf(StaleItem), STALE_ITEMS;
    AtMostFour(g, items);
    var client := Script(items, NULL_OBSERVATIONS, JNull);
    var p := ScriptedState(g, items, client, 3);
    ScriptedSelects(g, items, p);
    var allowed := Selectable(g.initial, p.evidence, p.original).value;
    TurnDispatches(g, p, client(3), 3, allowed);
    NullHasNoElements();
    UniqueItems(g, items);
    ListingRaisesExactlyWhen(g, p.(audit := p.audit + [Entry(g, p, allowed)]), allowed, client(3).text, 3);
  }

  lemma UniqueItems(g: Setting, items: seq<Evidence>)
    requires Scripted(g, items)
    ensures Unique(Ids(items))
  {}

  lemma NullHasNoElements()
    ensures RawObservations(NULL_OBSERVATIONS).None?
  {}

  /** Responses to the first request that raise at once; the tool is one that the request offers. */
  lemma FirstResponseCanRaise(client: nat -> Response)
    requires client(0) in {
      Response([Call(Unhashable, EmptyObject, true)], Garbled, false),
      Response([Call(Named(StageLatency), NotText, true)], Garbled, false),
      Response([Call(Named(StageLatency), EmptyObject, false)], Garbled, false),
      Response([Call(Named(StageLatency), EmptyObject, true)], Garbled, true),
      Response([], NonText, false),
      Response([], Deep, false)}
    ensures RunFrom(SettingOf(StaleItem), client, START, 0).Escaped?
              && RunFrom(SettingOf(StaleItem), client, START, 0).escape != Transport
  {
    hide RunFrom, Reached, Inv, Pending, Selectable, Called;
    var g := SettingOf(StaleItem);
    StartCallable();
    StartReached(g, client);
    hide Callable, Proper;
    assert TurnRaises(g, START, client(0));
    assert RaisesAt(g, client, 0);
    RunRaisesExactlyWhen(g, client);
  }

  lemma StartReached(g: Setting, client: nat -> Response)
    ensures Reached(g, client, 0) == Some(START)
  {}

  lemma StartCallable()
    ensures Callable(SettingOf(StaleItem), START, StageLatency) && Pending([]) != []
    ensures Proper(SettingOf(StaleItem))
  {
    hide Pending;
    SettingIsProper(StaleItem);
    PendingItems(STALE_ITEMS, 0);
    assert STALE_ITEMS[..0] == [];
  }
}
