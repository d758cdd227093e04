/**
 The Kafka part of the calibration summary of a bundle (`summarize_bundle`, ops_agent/calibration.py), an independent
 reading of the series that the sequence evaluator measures.
 */
module Calibration {
  import opened Prelude
  import opened KafkaLag
  import opened Measurement

  datatype Anomaly =
    | FamilyMissing(partition: string) | TimesDiffer(partition: string)
    | EndDecrease(partition: string) | CommittedDecrease(partition: string) | CommittedUninitialized(partition: string)
    | NegativeEnd(partition: string) | NegativeCommitted(partition: string) | NegativeLag(partition: string)
    | ArithmeticOff(partition: string)
    | WindowsDiffer | CoverageIncomplete

  /** `_series`: a fresh OK series of at least two finite samples that spans some time. */
  predicate Charted(x: Item) { x.ok && x.recent && Sampled(x) && |x.samples.value| >= 2 && Span(x) > 0.0 }

  /** `_partition_family`: the first charted item of each partition. */
  function Chart(items: seq<Item>): seq<Item> { Pick(items, Charted) }

  function Clock(x: Item): seq<real> { if Sampled(x) then Times(x.samples.value) else [] }

  function Track(x: Item): seq<real> { if Sampled(x) then Values(x.samples.value) else [] }

  predicate NoneNegative(values: seq<real>) { forall v :: v in values ==> v >= 0.0 }

  predicate Conserved(e: seq<real>, c: seq<real>, l: seq<real>) {
    forall i :: 0 <= i < |e| && i < |c| && i < |l| ==> l[i] == e[i] - c[i]
  }

  /** The charts of the three families. */
  datatype Charts = Charts(end: seq<Item>, committed: seq<Item>, lag: seq<Item>) {
    predicate Complete(p: string) { At(end, p).Some? && At(committed, p).Some? && At(lag, p).Some? }

    predicate Aligned(p: string) {
      Complete(p) && Clock(At(end, p).value) == Clock(At(committed, p).value) == Clock(At(lag, p).value)
    }

    function Labels(): set<string> { Observed(end) + Observed(committed) + Observed(lag) }
  }

  function ChartsOf(b: Bundle): Charts { Charts(Chart(b.end), Chart(b.committed), Chart(b.lag)) }

  function SeriesAnomalies(e: seq<real>, c: seq<real>, l: seq<real>, p: string): set<Anomaly> {
    Unless(NonDecreasing(e), EndDecrease(p))
    + Unless(NonDecreasing(c), CommittedDecrease(p))
    + Unless(-1.0 !in c, CommittedUninitialized(p))
    + Unless(NoneNegative(e), NegativeEnd(p))
    + Unless(NoneNegative(c), NegativeCommitted(p))
    + Unless(NoneNegative(l), NegativeLag(p))
    + Unless(Conserved(e, c, l), ArithmeticOff(p))
  }

  function AnomaliesAt(t: Charts, p: string): set<Anomaly> {
    if !t.Complete(p) then {FamilyMissing(p)}
    else if !t.Aligned(p) then {TimesDiffer(p)}
    else SeriesAnomalies(Track(At(t.end, p).value), Track(At(t.committed, p).value), Track(At(t.lag, p).value), p)
  }

  function Anomalies(t: Charts, order: seq<string>): set<Anomaly> {
    if order == [] then {} else Anomalies(t, order[..|order| - 1]) + AnomaliesAt(t, order[|order| - 1])
  }

  /** The partitions that get a row, in order. */
  function Rows(t: Charts, order: seq<string>): seq<string> {
    if order == [] then []
    else Rows(t, order[..|order| - 1]) + if t.Aligned(order[|order| - 1]) then [order[|order| - 1]] else []
  }

  function Windows(t: Charts, rows: seq<string>): set<real> { set p | p in rows :: SpanOf(At(t.end, p)) }

  /** Rates are absent when anything is wrong. */
  datatype Summary = Summary(
    window: Option<real>, produce: Option<real>, committed: Option<real>, totalLag: Option<real>, slope: Option<real>,
    rows: nat, anomalies: set<Anomaly>)

  function Firsts(items: seq<Item>): string -> real { p => LatestOf(At(items, p)) - ChangeOf(At(items, p)) }

  /** The element of a singleton. */
  ghost function Only<T>(s: set<T>): Option<T> {
    if |s| == 1 then
      assert exists w :: w in s by { var _ := SetMember(s); }
      var w :| w in s; Some(w)
    else None
  }

  function Rate(delta: real, window: Option<real>, anomalies: set<Anomaly>): Option<real> {
    if window.Some? && window.value > 0.0 && anomalies == {} then Some(delta / window.value) else None
  }

  function Finish(window: Option<real>, problems: set<Anomaly>, rows: nat, produce: real, committed: real,
                  first: real, latest: real, v1: bool): Summary {
    var anomalies := problems + Unless(window.Some?, WindowsDiffer)
                     + Unless(v1 ==> rows == PARTITION_COUNT, CoverageIncomplete);
    Summary(window, Rate(produce, window, anomalies), Rate(committed, window, anomalies),
            if anomalies == {} then Some(latest) else None, Rate(latest - first, window, anomalies), rows, anomalies)
  }

  ghost function SummaryOf(b: Bundle, order: seq<string>, v1: bool): Summary {
    var t := ChartsOf(b);
    var rows := Rows(t, order);
    Finish(Only(Windows(t, rows)), Anomalies(t, order), |rows|,
           Sum(rows, Changes(t.end)), Sum(rows, Changes(t.committed)),
           Sum(rows, Firsts(t.lag)), Sum(rows, Latests(t.lag)), v1)
  }

  lemma OnlyMember<T>(s: set<T>, w: T)
    requires |s| == 1 && w in s
    ensures Only(s) == Some(w)
  {
    var v := Only(s).value;
    assert |s - {w}| == 0;
    assert v !in s - {w};
  }

  lemma SumSnoc(order: seq<string>, p: string, f: string -> real)
    ensures Sum(order + [p], f) == Sum(order, f) + f(p)
  {
    assert (order + [p])[..|order|] == order;
  }

  lemma RowsSnoc(t: Charts, order: seq<string>, p: string)
    ensures Anomalies(t, order + [p]) == Anomalies(t, order) + AnomaliesAt(t, p)
    ensures Rows(t, order + [p]) == Rows(t, order) + if t.Aligned(p) then [p] else []
  {
    hide AnomaliesAt, At;
    assert (order + [p])[..|order|] == order;
  }

  lemma WindowsSnoc(t: Charts, rows: seq<string>, p: string)
    ensures Windows(t, rows + [p]) == Windows(t, rows) + {SpanOf(At(t.end, p))}
  {
    hide At, SpanOf;
  }

  /** `v1` says whether the bundle was collected under the policy that expects eight partitions. */
  method Summarize(b: Bundle, order: seq<string>, v1: bool) returns (r: Summary)
    requires Orders(order, ChartsOf(b).Labels())
    ensures r == SummaryOf(b, order, v1)
  {
    hide ChartsOf, Orders, At, SpanOf, ChangeOf, LatestOf, AnomaliesAt, Finish, Only, Sum, Rows, Anomalies, Windows;
    var t := ChartsOf(b);
    var produce, committed, first, latest := 0.0, 0.0, 0.0, 0.0;
    var windows: set<real>, anomalies: set<Anomaly> := {}, {};
    var rows: seq<string> := [];
    SummaryStart(t);
    for i := 0 to |order|
      invariant rows == Rows(t, order[..i]) && anomalies == Anomalies(t, order[..i]) && windows == Windows(t, rows)
      invariant produce == Sum(rows, Changes(t.end)) && committed == Sum(rows, Changes(t.committed))
      invariant first == Sum(rows, Firsts(t.lag)) && latest == Sum(rows, Latests(t.lag))
    {
      var p := order[i];
      assert order[..i + 1] == order[..i] + [p];
      RowsSnoc(t, order[..i], p);
      anomalies := anomalies + AnomaliesAt(t, p);
      if t.Aligned(p) {
        WindowsSnoc(t, rows, p);
        SumSnoc(rows, p, Changes(t.end));
        SumSnoc(rows, p, Changes(t.committed));
        SumSnoc(rows, p, Firsts(t.lag));
        SumSnoc(rows, p, Latests(t.lag));
        windows := windows + {SpanOf(At(t.end, p))};
        produce := produce + ChangeOf(At(t.end, p));
        committed := committed + ChangeOf(At(t.committed, p));
        first := first + (LatestOf(At(t.lag, p)) - ChangeOf(At(t.lag, p)));
        latest := latest + LatestOf(At(t.lag, p));
        rows := rows + [p];
      }
    }
    assert order[..|order|] == order;
    var window := None;
    if |windows| == 1 {
      ghost var _ := SetMember(windows);
      var w :| w in windows;
      OnlyMember(windows, w);
      window := Some(w);
    } else {
      OnlyNone(windows);
    }
    r := Finish(window, anomalies, |rows|, produce, committed, first, latest, v1);
  }

  lemma SummaryStart(t: Charts)
    ensures Rows(t, []) == [] && Anomalies(t, []) == {} && Windows(t, []) == {}
    ensures forall f: string -> real :: Sum([], f) == 0.0
  {}

  lemma OnlyNone<T>(s: set<T>)
    requires |s| != 1
    ensures Only(s) == None
  {}

  // --------------------------------------------------------------- agreement with the measurement

  lemma CleanIsCharted(x: Item, kind: Kind)
    requires CleanItem(x, kind)
    ensures Charted(x) && x.partition.Some?
    ensures Clock(x) == Grid(x) && |Track(x)| == SAMPLE_COUNT
    ensures forall i: nat :: i < SAMPLE_COUNT ==> Track(x)[i] == ValueAt(x, i)
    ensures NoneNegative(Track(x)) && (Monotonic(kind) ==> NonDecreasing(Track(x)))
  {
    hide Integral;
    CleanEnds(x, kind);
  }

  lemma CleanChart(items: seq<Item>, kind: Kind)
    requires CleanFamily(items, kind)
    ensures Chart(items) == items
  {
    hide CleanItem, Charted;
    forall x | x in items ensures x.partition.Some? && Charted(x) { CleanIsCharted(x, kind); }
    PickAll(items, Charted);
  }

  lemma CoreCharts(b: Bundle)
    requires CoreIssues(b) == {}
    ensures ChartsOf(b) == Charts(b.end, b.committed, b.lag) && ChartsOf(b).Labels() == PARTITIONS
  {
    hide CoreIssues, CleanFamily, Chosen, Chart, Observed;
    CoreIsClean(b);
    CoreIsLabelled(b);
    CleanChart(b.end, EndOffset);
    CleanChart(b.committed, CommittedOffset);
    CleanChart(b.lag, Lag);
  }

  lemma CleanRow(b: Bundle, p: string)
    requires CoreIssues(b) == {} && p in PARTITIONS
    ensures var t := Charts(b.end, b.committed, b.lag); t.Aligned(p) && AnomaliesAt(t, p) == {}
  {
    hide CoreIssues, CleanItem, At, ValueAt, Grid, Clock, Track, NonDecreasing, NoneNegative;
    PartitionAgrees(b, p);
    var e, c, l := At(b.end, p).value, At(b.committed, p).value, At(b.lag, p).value;
    CleanIsCharted(e, EndOffset);
    CleanIsCharted(c, CommittedOffset);
    CleanIsCharted(l, Lag);
    assert -1.0 !in Track(c) by { NoMinusOne(Track(c)); }
  }

  lemma NoMinusOne(values: seq<real>)
    requires NoneNegative(values)
    ensures -1.0 !in values
  {}

  lemma {:induction false} CleanRows(b: Bundle, order: seq<string>)
    requires CoreIssues(b) == {} && forall p :: p in order ==> p in PARTITIONS
    ensures var t := Charts(b.end, b.committed, b.lag); Rows(t, order) == order && Anomalies(t, order) == {}
    decreases |order|
  {
    hide CoreIssues, AnomaliesAt, At;
    if order != [] {
      var front, last := order[..|order| - 1], order[|order| - 1];
      assert order == front + [last];
      CleanRows(b, front);
      CleanRow(b, last);
    }
  }

  lemma {:induction false} SumOfDifference(order: seq<string>, items: seq<Item>)
    ensures Sum(order, Latests(items)) - Sum(order, Firsts(items)) == Sum(order, Changes(items))
    decreases |order|
  {
    hide At, LatestOf, ChangeOf;
    if order != [] { SumOfDifference(order[..|order| - 1], items); }
  }

  lemma {:induction false} OrderLength(order: seq<string>)
    requires forall i, j :: 0 <= i < j < |order| ==> order[i] != order[j]
    ensures |set p | p in order| == |order|
    decreases |order|
  {
    if order != [] {
      var front, last := order[..|order| - 1], order[|order| - 1];
      assert order == front + [last];
      OrderLength(front);
      assert (set p | p in order) == (set p | p in front) + {last};
    }
  }

  lemma CleanWindows(b: Bundle, order: seq<string>)
    requires CoreIssues(b) == {} && Orders(order, PARTITIONS)
    ensures Only(Windows(Charts(b.end, b.committed, b.lag), order)) == Some(SPAN)
  {
    hide CoreIssues, Only, At, SpanOf;
    assert "0" in PARTITIONS;
    assert "0" in order;
    forall p | p in order ensures SpanOf(At(b.end, p)) == SPAN { PartitionIsConserved(b, p); }
    var windows := Windows(Charts(b.end, b.committed, b.lag), order);
    assert SpanOf(At(b.end, "0")) in windows;
    assert windows == {SPAN};
    OnlyMember(windows, SPAN);
  }

  lemma FullOrder(order: seq<string>)
    requires Orders(order, PARTITIONS)
    ensures |order| == PARTITION_COUNT && forall p :: p in order ==> p in PARTITIONS
  {
    hide PARTITIONS;
    OrderLength(order);
    EightPartitions();
  }

  lemma EightPartitions()
    ensures |PARTITIONS| == PARTITION_COUNT
  {
    var labels := seq(PARTITION_COUNT, i requires 0 <= i < PARTITION_COUNT => ["01234567"[i]]);
    OrderLength(labels);
    assert labels == ["0", "1", "2", "3", "4", "5", "6", "7"];
    assert (set p | p in labels) == PARTITIONS;
  }

  /** The two readings agree: an issue-free bundle has no anomaly, and both give the same lag and rates. */
  lemma SummaryAgrees(b: Bundle, order: seq<string>, v1: bool)
    requires CoreIssues(b) == {} && Orders(order, PARTITIONS)
    ensures Orders(order, ChartsOf(b).Labels())
    ensures var m, s := Expected(b, order), SummaryOf(b, order, v1);
            && s.anomalies == {} && s.rows == PARTITION_COUNT && s.window == Some(SPAN)
            && s.totalLag == Some(m.totalLag) && s.slope == Some(m.slope)
            && s.produce == Some(m.produce) && s.committed == Some(m.committed)
  {
    hide CoreIssues, ChartsOf, Orders, Anomalies, Rows, Windows, Sum, Only, Changes, Latests, Firsts;
    CoreCharts(b);
    FullOrder(order);
    CleanRows(b, order);
    CleanWindows(b, order);
    SumOfDifference(order, b.lag);
  }
}
