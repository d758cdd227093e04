/**
 The measurement of a bundle in a sequence (`_measurement`, ops_agent/sequence_evaluator.py).

 The partitions are added up in the order of their sorted labels, which is a parameter.
 */
module Measurement {
  import opened Prelude
  import opened KafkaLag

  function Sum(order: seq<string>, f: string -> real): real {
    if order == [] then 0.0 else Sum(order[..|order| - 1], f) + f(order[|order| - 1])
  }

  predicate Sampled(x: Item) { x.samples.Some? && x.samples.value != [] && Usable(x.samples.value) }

  function First(x: Item): real { if Sampled(x) then x.samples.value[0].value else 0.0 }

  function Last(x: Item): real { if Sampled(x) then x.samples.value[|x.samples.value| - 1].value else 0.0 }

  function Span(x: Item): real {
    if Sampled(x) then x.samples.value[|x.samples.value| - 1].at - x.samples.value[0].at else 0.0
  }

  function ChangeOf(x: Option<Item>): real { if x.Some? then Last(x.value) - First(x.value) else 0.0 }

  function LatestOf(x: Option<Item>): real { if x.Some? then Last(x.value) else 0.0 }

  function SpanOf(x: Option<Item>): real { if x.Some? then Span(x.value) else 0.0 }

  function Changes(items: seq<Item>): string -> real { p => ChangeOf(At(items, p)) }

  function Latests(items: seq<Item>): string -> real { p => LatestOf(At(items, p)) }

  // --------------------------------------------------------------- the sequence evaluator's measurement

  /** Rates are record changes divided by the window. */
  datatype Measurement = Measurement(totalLag: real, slope: real, produce: real, committed: real, consistent: bool)

  datatype Problem = MeasurementMissing | PartitionSetMismatch | WindowMismatch | WindowNotPositive | RateArithmetic

  datatype Reading = Reading(measurement: Option<Measurement>, problems: set<Problem>)

  /** The caller has accepted the bundle, so every series that is read has samples. */
  predicate Measurable(b: Bundle) {
    forall kind, x :: x in Labelled(Family(b, kind)) ==> Sampled(x)
  }

  predicate OneSpan(items: seq<Item>, order: seq<string>, window: real) {
    forall p :: p in order ==> SpanOf(At(items, p)) == window
  }

  function ReadingOver(e: seq<Item>, c: seq<Item>, l: seq<Item>, order: seq<string>): Reading
    requires order != []
  {
    var window := SpanOf(At(e, order[0]));
    var produce, committed, lag := Sum(order, Changes(e)), Sum(order, Changes(c)), Sum(order, Changes(l));
    if !OneSpan(e, order, window) then Reading(None, {WindowMismatch})
    else if window <= 0.0 then Reading(None, {WindowNotPositive})
    else
      var consistent := produce - committed == lag;
      Reading(Some(Measurement(Sum(order, Latests(l)), lag / window, produce / window, committed / window, consistent)),
              if consistent then {} else {RateArithmetic})
  }

  function ReadingOf(b: Bundle, order: seq<string>): Reading
    requires Orders(order, Observed(Labelled(b.end)))
  {
    var e, c, l := Labelled(b.end), Labelled(b.committed), Labelled(b.lag);
    if Observed(e) == {} || Observed(c) == {} || Observed(l) == {} then Reading(None, {MeasurementMissing})
    else if !SamePartitions(e, c, l) then Reading(None, {PartitionSetMismatch})
    else
      assert exists p :: p in Observed(e);
      ReadingOver(e, c, l, order)
  }

  method MeasureOver(e: seq<Item>, c: seq<Item>, l: seq<Item>, order: seq<string>) returns (r: Reading)
    requires order != []
    ensures r == ReadingOver(e, c, l, order)
  {
    hide At, SpanOf, ChangeOf, LatestOf;
    var problems: set<Problem> := {};
    var window: Option<real> := None;
    var produce, committed, lag, latest := 0.0, 0.0, 0.0, 0.0;
    for i := 0 to |order|
      invariant window == if i == 0 then None else Some(SpanOf(At(e, order[0])))
      invariant problems == if OneSpan(e, order[..i], SpanOf(At(e, order[0]))) then {} else {WindowMismatch}
      invariant produce == Sum(order[..i], Changes(e)) && committed == Sum(order[..i], Changes(c))
      invariant lag == Sum(order[..i], Changes(l)) && latest == Sum(order[..i], Latests(l))
    {
      assert order[..i + 1][..i] == order[..i] && order[..i + 1] == order[..i] + [order[i]];
      var partition := order[i];
      var observed := SpanOf(At(e, partition));
      window := if window.None? then Some(observed) else window;
      if observed != window.value { problems := problems + {WindowMismatch}; }
      produce := produce + ChangeOf(At(e, partition));
      committed := committed + ChangeOf(At(c, partition));
      lag := lag + ChangeOf(At(l, partition));
      latest := latest + LatestOf(At(l, partition));
    }
    assert order[..|order|] == order;
    if problems != {} { return Reading(None, problems); }
    if window.value <= 0.0 { return Reading(None, {WindowNotPositive}); }
    var consistent := produce - committed == lag;
    if !consistent { problems := {RateArithmetic}; }
    var seconds := window.value;
    var m := Measurement(latest, lag / seconds, produce / seconds, committed / seconds, consistent);
    r := Reading(Some(m), problems);
  }

  method Measure(b: Bundle, order: seq<string>) returns (r: Reading)
    requires Measurable(b) && Orders(order, Observed(Labelled(b.end)))
    ensures r == ReadingOf(b, order)
  {
    hide Labelled, Observed, ReadingOver, Measurable;
    var e, c, l := Labelled(b.end), Labelled(b.committed), Labelled(b.lag);
    if Observed(e) == {} || Observed(c) == {} || Observed(l) == {} { return Reading(None, {MeasurementMissing}); }
    if !SamePartitions(e, c, l) { return Reading(None, {PartitionSetMismatch}); }
    assert exists p :: p in Observed(e);
    r := MeasureOver(e, c, l, order);
  }

  // --------------------------------------------------------------- conservation of lag

  lemma {:induction false} RisesToTheEnd(values: seq<real>, n: nat)
    requires n < |values| && NonDecreasing(values)
    ensures values[0] <= values[n]
  {
    if n > 0 { RisesToTheEnd(values, n - 1); }
  }

  lemma CleanEnds(x: Item, kind: Kind)
    requires CleanItem(x, kind)
    ensures Sampled(x) && Span(x) == SPAN && First(x) == ValueAt(x, 0) && Last(x) == ValueAt(x, SAMPLE_COUNT - 1)
    ensures Integral(Last(x))
    ensures Monotonic(kind) ==> First(x) <= Last(x)
  {
    CleanValue(x, kind, 0);
    CleanValue(x, kind, SAMPLE_COUNT - 1);
    if Monotonic(kind) { RisesToTheEnd(Values(x.samples.value), SAMPLE_COUNT - 1); }
  }

  /** One partition: what is produced and not committed is what its lag grows by. */
  lemma PartitionIsConserved(b: Bundle, p: string)
    requires CoreIssues(b) == {} && p in PARTITIONS
    ensures ChangeOf(At(b.end, p)) - ChangeOf(At(b.committed, p)) == ChangeOf(At(b.lag, p))
    ensures ChangeOf(At(b.committed, p)) >= 0.0 && Integral(LatestOf(At(b.lag, p)))
    ensures SpanOf(At(b.end, p)) == SPAN
  {
    hide CoreIssues, CleanItem, ValueAt, First, Last, Span, At, Integral;
    PartitionAgrees(b, p);
    var e, c, l := At(b.end, p).value, At(b.committed, p).value, At(b.lag, p).value;
    CleanEnds(e, EndOffset);
    CleanEnds(c, CommittedOffset);
    CleanEnds(l, Lag);
  }

  lemma IntegralSum(a: real, b: real)
    requires Integral(a) && Integral(b)
    ensures Integral(a + b)
  {
    assert a + b == (a.Floor + b.Floor) as real;
  }

  /** Lag is conserved: what is produced and not committed, summed over the partitions, is what the lag grows by. */
  lemma {:induction false} LagIsConserved(b: Bundle, order: seq<string>)
    requires CoreIssues(b) == {} && forall p :: p in order ==> p in PARTITIONS
    ensures Sum(order, Changes(b.end)) - Sum(order, Changes(b.committed)) == Sum(order, Changes(b.lag))
    ensures Sum(order, Changes(b.committed)) >= 0.0 && Integral(Sum(order, Latests(b.lag)))
    decreases |order|
  {
    hide CoreIssues, At, ChangeOf, LatestOf, Integral;
    if order == [] {
      assert Integral(0.0) by { ZeroIsIntegral(); }
    } else {
      var front, last := order[..|order| - 1], order[|order| - 1];
      assert order == front + [last];
      LagIsConserved(b, front);
      PartitionIsConserved(b, last);
      IntegralSum(Sum(front, Latests(b.lag)), LatestOf(At(b.lag, last)));
    }
  }

  lemma ZeroIsIntegral()
    ensures Integral(0.0)
  {}

  lemma {:induction false} CleanIsLabelledFamily(items: seq<Item>)
    requires forall x :: x in items ==> x.ok && x.partition.Some?
    ensures Labelled(items) == items
    decreases |items|
  {
    if items != [] {
      var front, last := items[..|items| - 1], items[|items| - 1];
      assert items == front + [last];
      CleanIsLabelledFamily(front);
    }
  }

  lemma CleanFamilyIsLabelled(items: seq<Item>, kind: Kind)
    requires CleanFamily(items, kind)
    ensures Labelled(items) == items && Observed(items) == PARTITIONS
  {
    hide CleanItem;
    forall x | x in items ensures x.ok && x.partition.Some? { CleanIsLabelled(x, kind); }
    CleanIsLabelledFamily(items);
  }

  lemma CoreIsLabelled(b: Bundle)
    requires CoreIssues(b) == {}
    ensures Labelled(b.end) == b.end && Labelled(b.committed) == b.committed && Labelled(b.lag) == b.lag
    ensures Observed(b.end) == PARTITIONS && Observed(b.committed) == PARTITIONS && Observed(b.lag) == PARTITIONS
  {
    hide CoreIssues, CleanFamily, Chosen, Labelled, Observed;
    CoreIsClean(b);
    CleanFamilyIsLabelled(b.end, EndOffset);
    CleanFamilyIsLabelled(b.committed, CommittedOffset);
    CleanFamilyIsLabelled(b.lag, Lag);
  }

  lemma CoreIsMeasurable(b: Bundle)
    requires CoreIssues(b) == {}
    ensures Measurable(b)
  {
    hide CoreIssues, CleanItem, Chosen, Labelled, Observed, DistinctPartitions, Sampled;
    CoreIsClean(b);
    CoreIsLabelled(b);
    forall kind, x | x in Labelled(Family(b, kind)) ensures Sampled(x) { CleanEnds(x, kind); }
  }

  /** The rates of an issue-free bundle, over its 60 s window. */
  function Expected(b: Bundle, order: seq<string>): Measurement {
    Measurement(Sum(order, Latests(b.lag)), Sum(order, Changes(b.lag)) / SPAN, Sum(order, Changes(b.end)) / SPAN,
                Sum(order, Changes(b.committed)) / SPAN, true)
  }

  /** Whenever the required evidence has no issue a measurement exists, and its arithmetic flag is true. */
  lemma CleanBundleIsMeasured(b: Bundle, order: seq<string>)
    requires CoreIssues(b) == {} && Orders(order, PARTITIONS)
    ensures Measurable(b) && Orders(order, Observed(Labelled(b.end)))
    ensures ReadingOf(b, order) == Reading(Some(Expected(b, order)), {})
  {
    hide CoreIssues, At, SpanOf, Sum, Labelled, Observed, Measurable, Integral;
    CoreIsMeasurable(b);
    CoreIsLabelled(b);
    LagIsConserved(b, order);
    assert "0" in PARTITIONS;
    assert "0" in order;
    forall p | p in order ensures SpanOf(At(b.end, p)) == SPAN { PartitionIsConserved(b, p); }
  }
}
