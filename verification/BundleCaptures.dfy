/**
 How a bundle becomes a capture of the recovery evaluator (`_kafka_observation`, ops_agent/recovery_evaluator.py): its
 Kafka fields come from the calibration summary, its Kafka issues from the single-bundle evaluation and the summary's
 anomalies.

 The names of the Kafka issues are not kept apart here; all other fields and issues are those of a given frame.
 */
module BundleCaptures {
  import opened Prelude
  import opened KafkaLag
  import opened Measurement
  import opened Calibration
  import R = Recovery

  /** Records in the 60 s window, from a rate. */
  function Records(rate: Option<real>): Option<int> {
    if rate.Some? then Some((rate.value * SPAN).Floor) else None
  }

  /** The last offsets of the partitions that have a row, where both are whole. */
  function OffsetsOf(t: Charts, rows: seq<string>): map<string, R.Offsets> {
    map p | p in rows && Integral(LatestOf(At(t.end, p))) && Integral(LatestOf(At(t.committed, p)))
      :: R.Offsets(LatestOf(At(t.end, p)).Floor, LatestOf(At(t.committed, p)).Floor)
  }

  function KafkaIssues(core: set<Issue>, anomalies: set<Anomaly>): set<string> {
    (if core == {} then {} else {"KAFKA_EVIDENCE"}) + (if anomalies == {} then {} else {"KAFKA_ANOMALY"})
  }

  ghost function CaptureFrom(frame: R.Capture, b: Bundle, order: seq<string>, v1: bool): R.Capture {
    var s, t := SummaryOf(b, order, v1), ChartsOf(b);
    frame.(evidenceIssues := frame.evidenceIssues + KafkaIssues(CoreIssues(b), s.anomalies),
           totalLag := if s.totalLag.Some? then Some(s.totalLag.value.Floor) else None,
           slope := Records(s.slope), produce := Records(s.produce), committed := Records(s.committed),
           offsets := OffsetsOf(t, Rows(t, order)))
  }

  lemma PartitionIsWhole(b: Bundle, p: string)
    requires CoreIssues(b) == {} && p in PARTITIONS
    ensures Integral(ChangeOf(At(b.end, p))) && Integral(ChangeOf(At(b.committed, p)))
    ensures var end, committed := LatestOf(At(b.end, p)), LatestOf(At(b.committed, p));
            Integral(end) && Integral(committed) && 0.0 <= committed <= end
  {
    hide CoreIssues, CleanItem, First, Last, Span, At, Integral, ValueAt;
    PartitionAgrees(b, p);
    var e, c, l := At(b.end, p).value, At(b.committed, p).value, At(b.lag, p).value;
    CleanEnds(e, EndOffset);
    CleanEnds(c, CommittedOffset);
    CleanEnds(l, Lag);
    CleanValue(e, EndOffset, 0);
    CleanValue(c, CommittedOffset, 0);
    CleanValue(c, CommittedOffset, SAMPLE_COUNT - 1);
    CleanValue(l, Lag, SAMPLE_COUNT - 1);
    IntegralDifference(Last(e), First(e));
    IntegralDifference(Last(c), First(c));
  }

  lemma IntegralDifference(x: real, y: real)
    requires Integral(x) && Integral(y)
    ensures Integral(x - y)
  {
    assert x - y == (x.Floor - y.Floor) as real;
  }

  lemma {:induction false} SumsAreWhole(b: Bundle, order: seq<string>)
    requires CoreIssues(b) == {} && forall p :: p in order ==> p in PARTITIONS
    ensures Integral(Sum(order, Changes(b.end))) && Integral(Sum(order, Changes(b.committed)))
    decreases |order|
  {
    hide CoreIssues, At, ChangeOf, LatestOf, Integral;
    if order == [] {
      ZeroIsIntegral();
    } else {
      var front, last := order[..|order| - 1], order[|order| - 1];
      assert order == front + [last];
      SumsAreWhole(b, front);
      PartitionIsWhole(b, last);
      IntegralSum(Sum(front, Changes(b.end)), ChangeOf(At(b.end, last)));
      IntegralSum(Sum(front, Changes(b.committed)), ChangeOf(At(b.committed, last)));
    }
  }

  lemma WholeRecords(delta: real)
    requires Integral(delta)
    ensures Records(Some(delta / SPAN)) == Some(delta.Floor) && delta.Floor as real == delta
  {}

  lemma CleanOffsets(b: Bundle, order: seq<string>)
    requires CoreIssues(b) == {} && Orders(order, PARTITIONS)
    ensures var t := ChartsOf(b);
            var offsets := OffsetsOf(t, Rows(t, order));
            && offsets.Keys == PARTITIONS
            && forall p :: p in offsets ==> 0 <= offsets[p].committed <= offsets[p].end
  {
    hide CoreIssues, Orders, ChartsOf, Rows, At, LatestOf, Integral;
    CoreCharts(b);
    FullOrder(order);
    CleanRows(b, order);
    OrderIsComplete(order);
    forall p | p in PARTITIONS
      ensures Integral(LatestOf(At(b.end, p))) && Integral(LatestOf(At(b.committed, p)))
      ensures 0 <= LatestOf(At(b.committed, p)).Floor <= LatestOf(At(b.end, p)).Floor
    {
      PartitionIsWhole(b, p);
    }
  }

  lemma OrderIsComplete(order: seq<string>)
    requires Orders(order, PARTITIONS)
    ensures forall p :: p in order <==> p in PARTITIONS
  {
    assert forall p :: p in order <==> p in (set q | q in order);
  }

  /**
   A capture from an issue-free bundle carries no Kafka and no rate issue: its rates are there and agree, and its
   offsets cover the eight partitions, committed at most end.
   */
  lemma CleanBundleIsUsable(frame: R.Capture, b: Bundle, order: seq<string>, v1: bool)
    requires CoreIssues(b) == {} && Orders(order, PARTITIONS)
    ensures var c := CaptureFrom(frame, b, order, v1);
            && R.RateArithmetic(c) == Some(true) && c.evidenceIssues == frame.evidenceIssues
            && c.slope.value as real == Sum(order, Changes(b.lag)) && c.committed.value >= 0
            && c.totalLag.Some? && c.totalLag.value as real == Sum(order, Latests(b.lag))
            && c.offsets.Keys == PARTITIONS
            && (forall p :: p in c.offsets ==> 0 <= c.offsets[p].committed <= c.offsets[p].end)
    ensures R.EvidenceIssues(CaptureFrom(frame, b, order, v1))
         !! {R.RateArithmeticMismatch, R.RateMeasurementUnavailable}
  {
    hide CoreIssues, Orders, SummaryOf, ChartsOf, Rows, OffsetsOf, Sum, Changes, Latests, Integral, Records;
    FullOrder(order);
    SummaryAgrees(b, order, v1);
    SumsAreWhole(b, order);
    LagIsConserved(b, order);
    IntegralDifference(Sum(order, Changes(b.end)), Sum(order, Changes(b.committed)));
    WholeRecords(Sum(order, Changes(b.end)));
    WholeRecords(Sum(order, Changes(b.committed)));
    WholeRecords(Sum(order, Changes(b.lag)));
    WholeIsFloor(Sum(order, Latests(b.lag)));
    CleanOffsets(b, order);
  }

  lemma WholeIsFloor(v: real)
    requires Integral(v)
    ensures v.Floor as real == v
  {}
}
