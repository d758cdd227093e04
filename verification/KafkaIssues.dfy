/**
 Which issues CORE_BACKLOG_PRESSURE records for a bundle, each with its cause in the items.
 */
module KafkaIssues {
  import opened Prelude
  import opened KafkaLag
  import opened KafkaMeaning

  // --------------------------------------------------------------- one item

  /** The item's series is looked at: status OK, and a partition label. */
  predicate Looked(x: Item) { x.ok && x.partition.Some? }

  predicate Counted(x: Item) { x.declaredCount == 13 && x.samples.Some? && |x.samples.value| == 13 }

  /** The scan of the samples gets to the one at `n`. */
  ghost predicate Reaches(samples: seq<Sample>, n: nat) {
    n < |samples| && forall k :: 0 <= k < n ==> samples[k].Point?
  }

  ghost predicate Stops(samples: seq<Sample>, sample: Sample) { exists n: nat :: StopsAt(samples, sample, n) }

  ghost predicate StopsAt(samples: seq<Sample>, sample: Sample, n: nat) { Reaches(samples, n) && samples[n] == sample }

  ghost predicate AllPoints(samples: seq<Sample>) { forall k :: 0 <= k < |samples| ==> samples[k].Point? }

  /** A value that the scan reads and that is neither whole, nor set, nor at least zero. */
  ghost predicate BadValue(samples: seq<Sample>, kind: Kind, issue: Issue, n: nat) {
    && Reaches(samples, n) && samples[n].Point?
    && var v := samples[n].value;
       match issue
       case NonIntegral => v.Floor as real != v
       case Uninitialized => kind == CommittedOffset && v == -1.0
       case Negative => v < 0.0 && !(kind == CommittedOffset && v == -1.0)
       case _ => false
  }

  ghost predicate SomeBadValue(samples: seq<Sample>, kind: Kind, issue: Issue) {
    exists n: nat :: BadValue(samples, kind, issue, n)
  }

  ghost predicate SamplesRaise(samples: seq<Sample>, kind: Kind, issue: Issue)
    requires |samples| == 13
  {
    match issue
    case SampleInvalid => Stops(samples, Malformed)
    case SampleNonNumeric => Stops(samples, NonNumeric)
    case SampleNonFinite => Stops(samples, NonFinite)
    case NonIntegral => SomeBadValue(samples, kind, issue)
    case Uninitialized => SomeBadValue(samples, kind, issue)
    case Negative => SomeBadValue(samples, kind, issue)
    case GridInvalid => AllPoints(samples) && exists i :: 0 < i < 13 && samples[i].at - samples[i - 1].at != 5.0
    case WindowInvalid => AllPoints(samples) && samples[12].at - samples[0].at != 60.0
    case OffsetDecrease =>
      kind != Lag && AllPoints(samples) && exists i :: 0 < i < 13 && samples[i].value < samples[i - 1].value
    case _ => false
  }

  /** What one item contributes. */
  ghost predicate ItemRaises(x: Item, kind: Kind, issue: Issue) {
    match issue
    case EvidenceStatus => !x.ok
    case EvidenceNotFresh => !x.recent
    case Contract(code) => code in x.contract
    case SourceTimestampMissing => x.sourceTime.None?
    case RawReferenceMissing => x.raw.None?
    case PartitionLabelMissing => x.ok && x.partition.None?
    case CoverageContract => Looked(x) && x.expected != {"0", "1", "2", "3", "4", "5", "6", "7"}
    case SampleCountMismatch => Looked(x) && !Counted(x)
    case _ => Looked(x) && Counted(x) && SamplesRaise(x.samples.value, kind, issue)
  }

  lemma {:induction false} ScanMeans(samples: seq<Sample>, kind: Kind, issue: Issue)
    ensures issue in ScanIssues(samples, kind) <==>
              || (issue == SampleInvalid && Stops(samples, Malformed))
              || (issue == SampleNonNumeric && Stops(samples, NonNumeric))
              || (issue == SampleNonFinite && Stops(samples, NonFinite))
              || SomeBadValue(samples, kind, issue)
    decreases |samples|
  {
    if samples != [] {
      var rest := samples[1..];
      if samples[0].Point? {
        ScanMeans(rest, kind, issue);
        ShiftStops(samples, Malformed);
        ShiftStops(samples, NonNumeric);
        ShiftStops(samples, NonFinite);
        ShiftValues(samples, kind, issue);
        ValueMeans(samples[0].value, kind, issue);
        hide Stops, SomeBadValue, ValueIssues;
      } else {
        assert forall n: nat :: Reaches(samples, n) ==> n == 0;
        assert StopsAt(samples, samples[0], 0);
      }
    }
  }

  lemma ValueMeans(v: real, kind: Kind, issue: Issue)
    ensures issue in ValueIssues(v, kind) <==> BadValue([Point(0.0, v)], kind, issue, 0)
  {}

  lemma ShiftStops(samples: seq<Sample>, sample: Sample)
    requires samples != [] && samples[0].Point? && !sample.Point?
    ensures Stops(samples, sample) <==> Stops(samples[1..], sample)
  {
    var rest := samples[1..];
    if n: nat :| StopsAt(samples, sample, n) { assert StopsAt(rest, sample, n - 1); }
    if n: nat :| StopsAt(rest, sample, n) {
      forall k | 0 <= k < n + 1 ensures samples[k].Point? { if k > 0 { assert rest[k - 1] == samples[k]; } }
      assert StopsAt(samples, sample, n + 1);
    }
  }

  lemma ShiftValues(samples: seq<Sample>, kind: Kind, issue: Issue)
    requires samples != [] && samples[0].Point?
    ensures SomeBadValue(samples, kind, issue) <==>
              BadValue([Point(0.0, samples[0].value)], kind, issue, 0) || SomeBadValue(samples[1..], kind, issue)
  {
    var rest := samples[1..];
    if n: nat :| BadValue(samples, kind, issue, n) {
      if n > 0 { assert BadValue(rest, kind, issue, n - 1); }
    }
    if BadValue([Point(0.0, samples[0].value)], kind, issue, 0) { assert BadValue(samples, kind, issue, 0); }
    if n: nat :| BadValue(rest, kind, issue, n) {
      forall k | 0 <= k < n + 1 ensures samples[k].Point? { if k > 0 { assert rest[k - 1] == samples[k]; } }
      assert BadValue(samples, kind, issue, n + 1);
    }
  }

  lemma GridMeans(samples: seq<Sample>)
    requires |samples| == 13 && Usable(samples)
    ensures Stepped(Times(samples)) <==> !exists i :: 0 < i < 13 && samples[i].at - samples[i - 1].at != 5.0
    ensures NonDecreasing(Values(samples)) <==> !exists i :: 0 < i < 13 && samples[i].value < samples[i - 1].value
  {
    var times, values := Times(samples), Values(samples);
    forall i | 0 < i < 13
      ensures times[i] - times[i - 1] == samples[i].at - samples[i - 1].at
      ensures values[i - 1] <= values[i] <==> !(samples[i].value < samples[i - 1].value)
    {}
    if !Stepped(times) {
      var i :| 0 < i < 13 && times[i] - times[i - 1] != STEP;
      assert samples[i].at - samples[i - 1].at != 5.0;
    }
    if !NonDecreasing(values) {
      var i :| 0 < i < 13 && !(values[i - 1] <= values[i]);
      assert samples[i].value < samples[i - 1].value;
    }
  }

  lemma PointsRaise(x: Item, kind: Kind, issue: Issue)
    requires Counted(x) && Usable(x.samples.value)
    ensures var samples := x.samples.value;
            issue in SeriesIssues(x, kind) <==>
              || issue in ScanIssues(samples, kind)
              || (issue == GridInvalid && !Stepped(Times(samples)))
              || (issue == WindowInvalid && samples[12].at - samples[0].at != 60.0)
              || (issue == OffsetDecrease && kind != Lag && !NonDecreasing(Values(samples)))
  {
    hide ScanIssues, Stepped, NonDecreasing, Unless;
    var samples := x.samples.value;
    var times, values := Times(samples), Values(samples);
    assert times[12] == samples[12].at && times[0] == samples[0].at;
    UnlessMeans(Stepped(times), GridInvalid);
    UnlessMeans(times[SAMPLE_COUNT - 1] - times[0] == SPAN, WindowInvalid);
    UnlessMeans(Monotonic(kind) ==> NonDecreasing(values), OffsetDecrease);
  }

  lemma BrokenRaise(x: Item, kind: Kind)
    requires Counted(x) && !Usable(x.samples.value)
    ensures SeriesIssues(x, kind) == ScanIssues(x.samples.value, kind)
  {
    hide ScanIssues, Stepped, NonDecreasing;
  }

  lemma UncountedRaise(x: Item, kind: Kind)
    requires !Counted(x)
    ensures SeriesIssues(x, kind) == {SampleCountMismatch}
  {
    hide ScanIssues, Stepped, NonDecreasing;
  }

  lemma SeriesRaises(x: Item, kind: Kind, issue: Issue)
    ensures issue in SeriesIssues(x, kind) <==>
              if !Counted(x) then issue == SampleCountMismatch else SamplesRaise(x.samples.value, kind, issue)
  {
    hide SeriesIssues, ScanIssues, Stops, SomeBadValue, Stepped, NonDecreasing, Times, Values;
    if Counted(x) {
      var samples := x.samples.value;
      ScanMeans(samples, kind, issue);
      OnlyTheirs(samples, kind, issue);
      if Usable(samples) {
        GridMeans(samples);
        PointsRaise(x, kind, issue);
      } else {
        BrokenRaise(x, kind);
      }
    } else {
      UncountedRaise(x, kind);
    }
  }

  lemma OnlyTheirs(samples: seq<Sample>, kind: Kind, issue: Issue)
    ensures SomeBadValue(samples, kind, issue) ==> issue in {NonIntegral, Uninitialized, Negative}
  {}

  lemma DependencyRaises(x: Item, issue: Issue)
    ensures issue in ItemIssues(x) <==>
              match issue
              case EvidenceStatus => !x.ok
              case EvidenceNotFresh => !x.recent
              case Contract(code) => code in x.contract
              case SourceTimestampMissing => x.sourceTime.None?
              case RawReferenceMissing => x.raw.None?
              case _ => false
  {
    hide Unless;
    UnlessMeans(x.ok, EvidenceStatus);
    UnlessMeans(x.recent, EvidenceNotFresh);
    UnlessMeans(x.sourceTime.Some?, SourceTimestampMissing);
    UnlessMeans(x.raw.Some?, RawReferenceMissing);
  }

  lemma ReadingRaises(x: Item, kind: Kind, issue: Issue)
    ensures issue in ReadIssues(x, kind) <==>
              || (issue == PartitionLabelMissing && x.ok && x.partition.None?)
              || (issue == CoverageContract && Looked(x) && x.expected != PARTITIONS)
              || (Looked(x) && issue in SeriesIssues(x, kind))
  {
    hide SeriesIssues, Unless;
    UnlessMeans(x.expected == PARTITIONS, CoverageContract);
  }

  lemma ItemRaisesExactlyWhen(x: Item, kind: Kind, issue: Issue)
    ensures issue in ItemIssues(x) + ReadIssues(x, kind) <==> ItemRaises(x, kind, issue)
  {
    hide SeriesIssues, SamplesRaise, ItemIssues, ReadIssues;
    DependencyRaises(x, issue);
    ReadingRaises(x, kind, issue);
    SeriesRaises(x, kind, issue);
    if Counted(x) { SamplesRaiseTheirs(x.samples.value, kind, issue); }
  }

  lemma SamplesRaiseTheirs(samples: seq<Sample>, kind: Kind, issue: Issue)
    requires |samples| == 13
    ensures SamplesRaise(samples, kind, issue) ==>
              issue in {SampleInvalid, SampleNonNumeric, SampleNonFinite, NonIntegral, Uninitialized, Negative,
                        GridInvalid, WindowInvalid, OffsetDecrease}
  {}

  // --------------------------------------------------------------- one family

  lemma {:induction false} LookedItems(items: seq<Item>)
    ensures forall x :: x in Labelled(items) <==> x in items && Looked(x)
    ensures DistinctPartitions(Labelled(items)) <==> !RepeatedPartition(items)
    decreases |items|
  {
    if items != [] {
      var front, last := items[..|items| - 1], items[|items| - 1];
      LookedItems(front);
      assert items == front + [last];
      RepeatedSnoc(front, last);
      DistinctSnoc(Labelled(front), last);
      hide RepeatedPartition, DistinctPartitions;
      assert Looked(last) ==> Labelled(items) == Labelled(front) + [last];
      assert !Looked(last) ==> Labelled(items) == Labelled(front);
    }
  }

  ghost predicate RepeatedPartition(items: seq<Item>) {
    exists i, j ::
      0 <= i < j < |items| && Looked(items[i]) && Looked(items[j]) && items[i].partition == items[j].partition
  }

  lemma RepeatedSnoc(front: seq<Item>, last: Item)
    ensures RepeatedPartition(front + [last]) <==>
              RepeatedPartition(front)
              || (Looked(last) && exists x :: x in front && Looked(x) && x.partition == last.partition)
  {
    var items := front + [last];
    assert items[|front|] == last;
    if i, j :| 0 <= i < j < |items| && Looked(items[i]) && Looked(items[j])
               && items[i].partition == items[j].partition {
      if j < |front| { assert front[i] == items[i] && front[j] == items[j]; } else { assert front[i] in front; }
    }
    if i, j :| 0 <= i < j < |front| && Looked(front[i]) && Looked(front[j])
               && front[i].partition == front[j].partition {
      assert items[i] == front[i] && items[j] == front[j];
    }
    if Looked(last) {
      if x :| x in front && Looked(x) && x.partition == last.partition {
        var i :| 0 <= i < |front| && front[i] == x;
        assert items[i] == x;
      }
    }
  }

  lemma DistinctSnoc(items: seq<Item>, last: Item)
    ensures DistinctPartitions(items + [last]) <==>
              DistinctPartitions(items) && forall x :: x in items ==> x.partition != last.partition
  {
    var all := items + [last];
    assert all[|items|] == last && forall i :: 0 <= i < |items| ==> all[i] == items[i];
    if DistinctPartitions(all) {
      forall x | x in items ensures x.partition != last.partition {
        var i :| 0 <= i < |items| && items[i] == x;
        assert all[i].partition != all[|items|].partition;
      }
    }
  }

  lemma {:induction false} ChosenPartitions(items: seq<Item>, p: string)
    ensures p in Observed(Pick(items, Readable)) <==> exists y :: y in items && Readable(y) && y.partition == Some(p)
    decreases |items|
  {
    hide Readable;
    if items != [] {
      var front, last := items[..|items| - 1], items[|items| - 1];
      assert items == front + [last];
      ChosenPartitions(front, p);
      AtMeans(Pick(front, Readable), p);
      hide At;
    }
  }

  /** The first readable item of each partition is chosen. */
  lemma {:induction false} ChosenItems(items: seq<Item>, x: Item)
    ensures x in Pick(items, Readable) <==> exists i: nat :: FirstReadable(items, i) && items[i] == x
    decreases |items|
  {
    hide Readable;
    if items != [] {
      var front, last := items[..|items| - 1], items[|items| - 1];
      assert items == front + [last];
      ChosenItems(front, x);
      FirstReadableSnoc(front, last);
      if last.partition.Some? {
        AtMeans(Pick(front, Readable), last.partition.value);
        ChosenPartitions(front, last.partition.value);
      }
      hide FirstReadable, At;
      if i: nat :| FirstReadable(items, i) && items[i] == x { assert i < |front| ==> front[i] == items[i]; }
      if i: nat :| FirstReadable(front, i) && front[i] == x { assert items[i] == x; }
    }
  }

  lemma FirstReadableSnoc(front: seq<Item>, last: Item)
    ensures forall i: nat :: FirstReadable(front + [last], i) ==> i <= |front|
    ensures forall i: nat :: FirstReadable(front, i) ==> i < |front|
    ensures forall i: nat :: i < |front| ==> (FirstReadable(front + [last], i) <==> FirstReadable(front, i))
    ensures FirstReadable(front + [last], |front|) <==>
              && Readable(last) && last.partition.Some?
              && !exists y :: y in front && Readable(y) && y.partition == last.partition
  {
    hide Readable;
    var items := front + [last];
    assert items[|front|] == last && forall j :: 0 <= j < |front| ==> items[j] == front[j];
    if y :| y in front && Readable(y) && y.partition == last.partition {
      var j :| 0 <= j < |front| && front[j] == y;
      assert items[j] == y;
    }
  }

  ghost predicate FirstReadable(items: seq<Item>, i: nat) {
    && i < |items| && Readable(items[i]) && items[i].partition.Some?
    && forall j :: 0 <= j < i ==> !(Readable(items[j]) && items[j].partition == items[i].partition)
  }

  /** What a family contributes as a whole, from the items that are looked at and those that are chosen. */
  ghost predicate FamilyRaises(items: seq<Item>, issue: Issue) {
    var read, chosen := Labelled(items), Chosen(items);
    match issue
    case EvidenceMissing => items == []
    case DuplicatePartition => RepeatedPartition(items)
    case ExporterMixed => read == [] || exists x, y :: x in read && y in read && x.exporter != y.exporter
    case SourceTimestampMixed => SourceTimesMixed(read)
    case CollectionTimestampMixed =>
      read == [] || exists x, y :: x in read && y in read && x.collectedAt != y.collectedAt
    case RawSourceMixed =>
      read == [] || (exists x, y :: x in read && y in read && x.raw != y.raw) || exists x :: x in read && x.raw.None?
    case ExpectationInconsistent =>
      exists x, y :: x in read && y in read && x.expected != {} && y.expected != {} && x.expected != y.expected
    case CoverageMismatch =>
      exists x :: x in read && x.expected != {} && Observed(read) != x.expected
                  && forall y :: y in read && y.expected != {} ==> y.expected == x.expected
    case GridMismatch =>
      chosen == [] || exists x, y :: x in chosen && y in chosen && Parsed(x).value.times != Parsed(y).value.times
    case _ => false
  }

  ghost predicate SourceTimesMixed(items: seq<Item>) {
    || (forall x :: x in items ==> x.sourceTime.None?)
    || exists x, y ::
         x in items && y in items && x.sourceTime.Some? && y.sourceTime.Some? && x.sourceTime != y.sourceTime
  }

  lemma SourceTimesMean(items: seq<Item>)
    ensures |SourceTimes(items)| == 1 <==> !SourceTimesMixed(items)
  {
    var s := SourceTimes(items);
    if a :| a in items && a.sourceTime.Some? {
      SingletonOf(s, a.sourceTime);
      if |s| == 1 { assert forall x :: x in items && x.sourceTime.Some? ==> x.sourceTime in s; }
    } else {
      assert s == {};
    }
  }

  lemma ExpectationsMean(read: seq<Item>)
    ensures var expectations := Expectations(read);
            && (|expectations| <= 1 <==> !exists x, y :: x in read && y in read && x.expected != {} && y.expected != {}
                                                         && x.expected != y.expected)
            && (|expectations| == 1 && Observed(read) !in expectations <==>
                  exists x :: x in read && x.expected != {} && Observed(read) != x.expected
                              && forall y :: y in read && y.expected != {} ==> y.expected == x.expected)
  {
    hide Observed;
    var expectations := Expectations(read);
    if a :| a in read && a.expected != {} {
      SingletonOf(expectations, a.expected);
      SubsetCount({a.expected}, expectations);
      if |expectations| == 1 { assert forall x :: x in read && x.expected != {} ==> x.expected in expectations; }
    } else {
      assert expectations == {};
    }
  }

  lemma ChosenGridMeans(items: seq<Item>)
    ensures forall x :: x in Chosen(items) ==> Parsed(x).Some?
    ensures |Grids(Chosen(items))| == 1 <==>
              !(Chosen(items) == [] || exists x, y :: x in Chosen(items) && y in Chosen(items)
                                                      && Parsed(x).value.times != Parsed(y).value.times)
  {
    hide Chosen, Parsed;
    var chosen := Chosen(items);
    var s := Grids(chosen);
    if chosen == [] {
      assert s == {};
    } else {
      assert chosen[0] in chosen;
      SingletonOf(s, Parsed(chosen[0]).value.times);
      if |s| == 1 { assert forall x :: x in chosen ==> Parsed(x).value.times in s; }
    }
  }

  /** The checks that failed. */
  function Failed(distinct: bool, exporter: bool, sourceTime: bool, collection: bool, raw: bool, consistent: bool,
                  covered: bool, grid: bool): set<Issue> {
    Unless(distinct, DuplicatePartition) + Unless(exporter, ExporterMixed) + Unless(sourceTime, SourceTimestampMixed)
    + Unless(collection, CollectionTimestampMixed) + Unless(raw, RawSourceMixed)
    + Unless(consistent, ExpectationInconsistent) + Unless(covered, CoverageMismatch) + Unless(grid, GridMismatch)
  }

  lemma FailedMember(distinct: bool, exporter: bool, sourceTime: bool, collection: bool, raw: bool, consistent: bool,
                     covered: bool, grid: bool, issue: Issue)
    ensures issue in Failed(distinct, exporter, sourceTime, collection, raw, consistent, covered, grid) <==>
              match issue
              case DuplicatePartition => !distinct
              case ExporterMixed => !exporter
              case SourceTimestampMixed => !sourceTime
              case CollectionTimestampMixed => !collection
              case RawSourceMixed => !raw
              case ExpectationInconsistent => !consistent
              case CoverageMismatch => !covered
              case GridMismatch => !grid
              case _ => false
  {
    hide Unless;
    UnlessMeans(distinct, DuplicatePartition);
    UnlessMeans(exporter, ExporterMixed);
    UnlessMeans(sourceTime, SourceTimestampMixed);
    UnlessMeans(collection, CollectionTimestampMixed);
    UnlessMeans(raw, RawSourceMixed);
    UnlessMeans(consistent, ExpectationInconsistent);
    UnlessMeans(covered, CoverageMismatch);
    UnlessMeans(grid, GridMismatch);
  }

  function Expectations(read: seq<Item>): set<set<string>> { set x | x in read && x.expected != {} :: x.expected }

  function Exporters(read: seq<Item>): set<string> { set x | x in read :: x.exporter }

  function SourceTimes(read: seq<Item>): set<Option<int>> { set x | x in read && x.sourceTime.Some? :: x.sourceTime }

  function Collections(read: seq<Item>): set<int> { set x | x in read :: x.collectedAt }

  function RawSources(read: seq<Item>): set<Option<string>> { set x | x in read :: x.raw }

  function Grids(chosen: seq<Item>): set<seq<real>>
    requires forall x :: x in chosen ==> Parsed(x).Some?
  {
    set x | x in chosen :: Parsed(x).value.times
  }

  lemma ChosenAreParsed(items: seq<Item>)
    ensures forall x :: x in Chosen(items) ==> Parsed(x).Some?
  {
    hide Parsed;
  }

  lemma ChecksAre(items: seq<Item>)
    ensures forall x :: x in Chosen(items) ==> Parsed(x).Some?
    ensures var read, chosen := Labelled(items), Chosen(items);
            FamilyChecks(items) == Failed(
              DistinctPartitions(read), |Exporters(read)| == 1, |SourceTimes(read)| == 1, |Collections(read)| == 1,
              |RawSources(read)| == 1 && (forall x :: x in read ==> x.raw.Some?), |Expectations(read)| <= 1,
              !(|Expectations(read)| == 1 && Observed(read) !in Expectations(read)), |Grids(chosen)| == 1)
  {
    ChosenAreParsed(items);
    hide Observed, Labelled, Chosen, DistinctPartitions, Parsed, Unless;
  }

  lemma CheckMember(items: seq<Item>, issue: Issue)
    ensures forall x :: x in Chosen(items) ==> Parsed(x).Some?
    ensures var read, chosen := Labelled(items), Chosen(items);
            issue in FamilyChecks(items) <==>
              match issue
              case DuplicatePartition => !DistinctPartitions(read)
              case ExporterMixed => |Exporters(read)| != 1
              case SourceTimestampMixed => |SourceTimes(read)| != 1
              case CollectionTimestampMixed => |Collections(read)| != 1
              case RawSourceMixed => !(|RawSources(read)| == 1 && (forall x :: x in read ==> x.raw.Some?))
              case ExpectationInconsistent => |Expectations(read)| > 1
              case CoverageMismatch => |Expectations(read)| == 1 && Observed(read) !in Expectations(read)
              case GridMismatch => |Grids(chosen)| != 1
              case _ => false
  {
    ChecksAre(items);
    hide Observed, Labelled, Chosen, DistinctPartitions, Parsed, FamilyChecks, Failed, Exporters, SourceTimes,
         Collections, RawSources, Expectations, Grids;
    var read, chosen := Labelled(items), Chosen(items);
    FailedMember(
      DistinctPartitions(read), |Exporters(read)| == 1, |SourceTimes(read)| == 1, |Collections(read)| == 1,
      |RawSources(read)| == 1 && (forall x :: x in read ==> x.raw.Some?), |Expectations(read)| <= 1,
      !(|Expectations(read)| == 1 && Observed(read) !in Expectations(read)), |Grids(chosen)| == 1, issue);
  }

  lemma NoneRead(read: seq<Item>)
    requires read == []
    ensures |Exporters(read)| != 1 && |Collections(read)| != 1 && |RawSources(read)| != 1
  {
    assert Exporters(read) == {} && Collections(read) == {} && RawSources(read) == {};
  }

  lemma ChecksRaise(items: seq<Item>, issue: Issue)
    ensures FamilyRaises(items, issue) <==>
              issue in FamilyChecks(items) || (issue == EvidenceMissing && items == [])
  {
    hide Observed, Labelled, Chosen, RepeatedPartition, DistinctPartitions, FamilyChecks, SourceTimesMixed, Parsed;
    var read := Labelled(items);
    CheckMember(items, issue);
    match issue {
      case DuplicatePartition => LookedItems(items);
      case SourceTimestampMixed => SourceTimesMean(read);
      case ExpectationInconsistent => ExpectationsMean(read);
      case CoverageMismatch => ExpectationsMean(read);
      case GridMismatch => ChosenGridMeans(items);
      case ExporterMixed => if read == [] { NoneRead(read); } else { ExporterMeans(read); }
      case CollectionTimestampMixed => if read == [] { NoneRead(read); } else { CollectedAtMeans(read); }
      case RawSourceMixed => if read == [] { NoneRead(read); } else { RawMeans(read); }
      case _ =>
    }
  }

  /** The issues of a family are those of its items and its own. */
  lemma {:induction false} EachRaises(items: seq<Item>, kind: Kind, issue: Issue)
    ensures issue in EachIssues(items, kind) <==> exists x :: x in items && ItemRaises(x, kind, issue)
    decreases |items|
  {
    hide ItemIssues, ReadIssues, ItemRaises;
    if items != [] {
      var front, last := items[..|items| - 1], items[|items| - 1];
      assert items == front + [last];
      EachRaises(front, kind, issue);
      ItemRaisesExactlyWhen(last, kind, issue);
    }
  }

  lemma NoChecksForNothing(items: seq<Item>, kind: Kind, issue: Issue)
    ensures issue in FamilyIssues(items, kind) <==>
              || (issue == EvidenceMissing && items == [])
              || issue in EachIssues(items, kind)
              || issue in FamilyChecks(items)
  {
    hide EachIssues, FamilyChecks;
  }

  // --------------------------------------------------------------- the three families together

  /** What the comparison of the families contributes, from the items chosen in each. */
  ghost predicate BundleRaises(b: Bundle, issue: Issue) {
    var es, cs, ls := Chosen(b.end), Chosen(b.committed), Chosen(b.lag);
    var all := es + cs + ls;
    match issue
    case FamilySetMismatch => es != [] && cs != [] && ls != [] && !SamePartitions(es, cs, ls)
    case FamilyExporterMismatch => all == [] || exists x, y :: x in all && y in all && x.exporter != y.exporter
    case FamilySourceMismatch => SourceTimesMixed(all)
    case FamilyGridMismatch => SamePartitions(es, cs, ls) && SomeGridDiffers(es, cs, ls)
    case LagArithmetic => SamePartitions(es, cs, ls) && SomeLagDiffers(es, cs, ls)
    case _ => false
  }

  ghost predicate SomeGridDiffers(es: seq<Item>, cs: seq<Item>, ls: seq<Item>) {
    exists e, c, l :: e in es && c in cs && l in ls && e.partition == c.partition == l.partition && !SameTimes(e, c, l)
  }

  /** On one grid, with an initialized offset, lag is not end minus committed. */
  ghost predicate SomeLagDiffers(es: seq<Item>, cs: seq<Item>, ls: seq<Item>) {
    exists e, c, l, i: nat :: e in es && c in cs && l in ls && e.partition == c.partition == l.partition
                         && SameTimes(e, c, l) && i < 13
                         && ValueAt(c, i) != -1.0 && ValueAt(l, i) != ValueAt(e, i) - ValueAt(c, i)
  }

  /** Times and values of a chosen item are those of its samples. */
  lemma ReadableValues(x: Item)
    requires Readable(x)
    ensures x.samples.Some? && |x.samples.value| == 13 && Grid(x) == Times(x.samples.value)
    ensures forall i: nat :: i < 13 ==> ValueAt(x, i) == x.samples.value[i].value
  {}

  lemma PairsRaise(es: seq<Item>, cs: seq<Item>, ls: seq<Item>)
    ensures GridsAgree(es, cs, ls) <==> !SomeGridDiffers(es, cs, ls)
    ensures LagsAgree(es, cs, ls) <==> !SomeLagDiffers(es, cs, ls)
  {
    hide SameTimes, ValueAt;
    if !LagsAgree(es, cs, ls) {
      var e, c, l :| e in es && c in cs && l in ls && SamePartition(e, c, l) && SameTimes(e, c, l)
                     && !LagAgrees(e, c, l);
      var i: nat :| i < 13 && ValueAt(c, i) != -1.0 && ValueAt(e, i) - ValueAt(c, i) != ValueAt(l, i);
      assert SomeLagDiffers(es, cs, ls);
    }
    if SomeLagDiffers(es, cs, ls) {
      var e, c, l, i: nat :| e in es && c in cs && l in ls && e.partition == c.partition == l.partition
                        && SameTimes(e, c, l) && i < 13
                        && ValueAt(c, i) != -1.0 && ValueAt(l, i) != ValueAt(e, i) - ValueAt(c, i);
      assert SamePartition(e, c, l) && !LagAgrees(e, c, l);
    }
  }

  lemma SetMember(es: seq<Item>, cs: seq<Item>, ls: seq<Item>, issue: Issue)
    ensures var all := es + cs + ls;
            issue in SetIssues(es, cs, ls) <==>
              match issue
              case FamilySetMismatch => es != [] && cs != [] && ls != [] && !SamePartitions(es, cs, ls)
              case FamilyExporterMismatch => |Exporters(all)| != 1
              case FamilySourceMismatch => |SourceTimes(all)| != 1
              case _ => false
  {
    hide SamePartitions;
  }

  lemma CrossRaises(b: Bundle, issue: Issue)
    ensures issue in CrossIssues(b) <==> BundleRaises(b, issue)
  {
    hide Chosen, SetIssues, SamePartitions, GridsAgree, LagsAgree, SomeGridDiffers, SomeLagDiffers, SourceTimesMixed;
    var es, cs, ls := Chosen(b.end), Chosen(b.committed), Chosen(b.lag);
    var all := es + cs + ls;
    SetMember(es, cs, ls, issue);
    PairsRaise(es, cs, ls);
    SourceTimesMean(all);
    if all == [] { NoneRead(all); } else { ExporterMeans(all); }
  }

  /** A family as a whole, or one of its items. */
  ghost predicate FamilyHas(items: seq<Item>, kind: Kind, issue: Issue) {
    FamilyRaises(items, issue) || exists x :: x in items && ItemRaises(x, kind, issue)
  }

  lemma FamilyHasExactlyWhen(items: seq<Item>, kind: Kind, issue: Issue)
    ensures issue in FamilyIssues(items, kind) <==> FamilyHas(items, kind, issue)
  {
    hide FamilyIssues, EachIssues, FamilyChecks, FamilyRaises, ItemRaises;
    NoChecksForNothing(items, kind, issue);
    EachRaises(items, kind, issue);
    ChecksRaise(items, issue);
  }

  /** An issue is recorded exactly when one of the families has it or their comparison raises it. */
  lemma IssueExactlyWhen(b: Bundle, issue: Issue)
    ensures issue in CoreIssues(b) <==>
              || FamilyHas(b.end, EndOffset, issue) || FamilyHas(b.committed, CommittedOffset, issue)
              || FamilyHas(b.lag, Lag, issue) || BundleRaises(b, issue)
  {
    hide FamilyIssues, CrossIssues, FamilyHas, BundleRaises;
    FamilyHasExactlyWhen(b.end, EndOffset, issue);
    FamilyHasExactlyWhen(b.committed, CommittedOffset, issue);
    FamilyHasExactlyWhen(b.lag, Lag, issue);
    CrossRaises(b, issue);
  }
}
