/**
 When a bundle of Kafka series raises no issue, told from its items alone, and so when CORE_BACKLOG_PRESSURE is ABSENT.
 */
module KafkaMeaning {
  import opened Prelude
  import opened KafkaLag

  // --------------------------------------------------------------- one item

  /** Thirteen samples, five seconds apart, integral and not negative; offsets do not decrease, but a lag may. */
  ghost predicate SoundSamples(samples: seq<Sample>, kind: Kind) {
    && |samples| == 13
    && (forall i :: 0 <= i < 13 ==>
          samples[i].Point? && samples[i].value >= 0.0 && samples[i].value.Floor as real == samples[i].value)
    && (forall i :: 0 < i < 13 ==> samples[i].at - samples[i - 1].at == 5.0)
    && (kind != Lag ==> forall i :: 0 < i < 13 ==> samples[i - 1].value <= samples[i].value)
  }

  ghost predicate SoundItem(x: Item, kind: Kind) {
    && x.ok && x.recent && x.contract == {} && x.sourceTime.Some? && x.raw.Some?
    && x.partition.Some? && x.expected == {"0", "1", "2", "3", "4", "5", "6", "7"}
    && x.declaredCount == 13 && x.samples.Some? && SoundSamples(x.samples.value, kind)
  }

  lemma {:induction false} ScanNothing(samples: seq<Sample>, kind: Kind)
    requires forall i :: 0 <= i < |samples| ==>
               samples[i].Point? && samples[i].value >= 0.0 && Integral(samples[i].value)
    ensures ScanIssues(samples, kind) == {}
    decreases |samples|
  {
    if samples != [] {
      assert samples[0].Point?;
      ScanNothing(samples[1..], kind);
    }
  }

  lemma SampleSpan(samples: seq<Sample>, n: nat)
    requires n < |samples| && forall i :: 0 <= i < |samples| ==> samples[i].Point?
    requires forall i :: 0 < i < |samples| ==> samples[i].at - samples[i - 1].at == 5.0
    ensures samples[n].at - samples[0].at == 5.0 * n as real
  {
    if n > 0 { SampleSpan(samples, n - 1); }
  }

  lemma SeriesSoundExactlyWhen(x: Item, kind: Kind)
    ensures SeriesIssues(x, kind) == {} <==>
              x.declaredCount == 13 && x.samples.Some? && SoundSamples(x.samples.value, kind)
  {
    hide ScanIssues;
    if CountsMatch(x) {
      var samples := x.samples.value;
      if SoundSamples(samples, kind) {
        ScanNothing(samples, kind);
        SampleSpan(samples, 12);
      } else if SeriesIssues(x, kind) == {} {
        ScanClean(samples, kind);
        var issues := SeriesIssues(x, kind);
        assert GridInvalid !in issues && OffsetDecrease !in issues;
        SteppedSamples(samples);
      }
    } else {
      assert SampleCountMismatch in SeriesIssues(x, kind);
    }
  }

  lemma SteppedSamples(samples: seq<Sample>)
    requires Usable(samples)
    ensures Stepped(Times(samples)) ==> forall i :: 0 < i < |samples| ==> samples[i].at - samples[i - 1].at == 5.0
    ensures NonDecreasing(Values(samples)) ==>
              forall i :: 0 < i < |samples| ==> samples[i - 1].value <= samples[i].value
  {
    forall i | 0 < i < |samples|
      ensures Stepped(Times(samples)) ==> samples[i].at - samples[i - 1].at == 5.0
      ensures NonDecreasing(Values(samples)) ==> samples[i - 1].value <= samples[i].value
    {
      assert Times(samples)[i] == samples[i].at && Values(samples)[i] == samples[i].value;
      assert Times(samples)[i - 1] == samples[i - 1].at && Values(samples)[i - 1] == samples[i - 1].value;
    }
  }

  lemma ItemSoundExactlyWhen(x: Item, kind: Kind)
    ensures ItemIssues(x) + ReadIssues(x, kind) == {} <==> SoundItem(x, kind)
  {
    hide SeriesIssues, SoundSamples;
    SeriesSoundExactlyWhen(x, kind);
    var issues := ItemIssues(x) + ReadIssues(x, kind);
    if !x.ok { assert EvidenceStatus in issues; }
    else if !x.recent { assert EvidenceNotFresh in issues; }
    else if code :| code in x.contract { assert Contract(code) in issues; }
    else if x.sourceTime.None? { assert SourceTimestampMissing in issues; }
    else if x.raw.None? { assert RawReferenceMissing in issues; }
    else if x.partition.None? { assert PartitionLabelMissing in issues; }
    else if x.expected != PARTITIONS { assert CoverageContract in issues; }
    else {
      assert ItemIssues(x) == {};
      assert ReadIssues(x, kind) == SeriesIssues(x, kind);
    }
  }

  lemma {:induction false} EachSoundExactlyWhen(items: seq<Item>, kind: Kind)
    ensures EachIssues(items, kind) == {} <==> forall x :: x in items ==> SoundItem(x, kind)
    decreases |items|
  {
    hide ItemIssues, ReadIssues, SoundItem;
    if items != [] {
      var n := |items| - 1;
      EachSoundExactlyWhen(items[..n], kind);
      ItemSoundExactlyWhen(items[n], kind);
      assert items == items[..n] + [items[n]];
    }
  }

  // --------------------------------------------------------------- one family

  ghost predicate OneExporter(items: seq<Item>) {
    forall x, y :: x in items && y in items ==> x.exporter == y.exporter
  }

  ghost predicate OneSourceTime(items: seq<Item>) {
    forall x, y :: x in items && y in items ==> x.sourceTime == y.sourceTime
  }

  ghost predicate OneCollection(items: seq<Item>) {
    forall x, y :: x in items && y in items ==> x.collectedAt == y.collectedAt && x.raw == y.raw
  }

  ghost predicate SameGrid(x: Item, y: Item) {
    && x.samples.Some? && y.samples.Some? && |x.samples.value| == |y.samples.value|
    && forall i :: 0 <= i < |x.samples.value| ==>
         x.samples.value[i].Point? && y.samples.value[i].Point? && x.samples.value[i].at == y.samples.value[i].at
  }

  ghost predicate OneGrid(items: seq<Item>) { forall x, y :: x in items && y in items ==> SameGrid(x, y) }

  ghost predicate EightPartitions(items: seq<Item>) {
    && (forall i, j :: 0 <= i < j < |items| ==> items[i].partition != items[j].partition)
    && (set x | x in items && x.partition.Some? :: x.partition.value) == {"0", "1", "2", "3", "4", "5", "6", "7"}
  }

  ghost predicate AllSound(items: seq<Item>, kind: Kind) { forall x :: x in items ==> SoundItem(x, kind) }

  /** One sound item for each of the eight partitions, all from one source and on one time grid. */
  ghost predicate SoundFamily(items: seq<Item>, kind: Kind) {
    && AllSound(items, kind) && EightPartitions(items)
    && OneExporter(items) && OneSourceTime(items) && OneCollection(items) && OneGrid(items)
  }

  lemma SingletonOf<T>(s: set<T>, a: T)
    requires a in s
    ensures |s| == 1 <==> forall b :: b in s ==> b == a
  {
    if |s| == 1 {
      assert |s - {a}| == 0;
      assert forall b :: b in s ==> b == a || b in s - {a};
    }
    if forall b :: b in s ==> b == a { assert s == {a}; }
  }

  lemma ExporterMeans(items: seq<Item>)
    requires items != []
    ensures |set x | x in items :: x.exporter| == 1 <==> OneExporter(items)
  {
    var a, s := items[0], set x | x in items :: x.exporter;
    assert a in items;
    SingletonOf(s, a.exporter);
    if |s| == 1 { assert forall x :: x in items ==> x.exporter in s; }
  }

  lemma SourceTimeMeans(items: seq<Item>)
    requires items != [] && forall x :: x in items ==> x.sourceTime.Some?
    ensures |set x | x in items && x.sourceTime.Some? :: x.sourceTime| == 1 <==> OneSourceTime(items)
  {
    var a, s := items[0], set x | x in items && x.sourceTime.Some? :: x.sourceTime;
    assert a in items;
    SingletonOf(s, a.sourceTime);
    if |s| == 1 { assert forall x :: x in items ==> x.sourceTime in s; }
  }

  lemma CollectionMeans(items: seq<Item>)
    requires items != []
    ensures |set x | x in items :: x.collectedAt| == 1 && |set x | x in items :: x.raw| == 1 <==> OneCollection(items)
  {
    CollectedAtMeans(items);
    RawMeans(items);
  }

  lemma CollectedAtMeans(items: seq<Item>)
    requires items != []
    ensures |set x | x in items :: x.collectedAt| == 1 <==>
              forall x, y :: x in items && y in items ==> x.collectedAt == y.collectedAt
  {
    var a, s := items[0], set x | x in items :: x.collectedAt;
    assert a in items;
    SingletonOf(s, a.collectedAt);
    if |s| == 1 { assert forall x :: x in items ==> x.collectedAt in s; }
  }

  lemma RawMeans(items: seq<Item>)
    requires items != []
    ensures |set x | x in items :: x.raw| == 1 <==> forall x, y :: x in items && y in items ==> x.raw == y.raw
  {
    var a, s := items[0], set x | x in items :: x.raw;
    assert a in items;
    SingletonOf(s, a.raw);
    if |s| == 1 { assert forall x :: x in items ==> x.raw in s; }
  }

  lemma SameGridMeans(x: Item, y: Item)
    requires Parsed(x).Some? && Parsed(y).Some?
    ensures Parsed(x).value.times == Parsed(y).value.times <==> SameGrid(x, y)
  {
    var s, t := Parsed(x).value.times, Parsed(y).value.times;
    if s == t {
      forall i | 0 <= i < 13 ensures x.samples.value[i].at == y.samples.value[i].at {
        assert s[i] == x.samples.value[i].at && t[i] == y.samples.value[i].at;
      }
    }
  }

  lemma GridMeans(items: seq<Item>)
    requires items != [] && forall x :: x in items ==> Parsed(x).Some?
    ensures |set x | x in items :: Parsed(x).value.times| == 1 <==> OneGrid(items)
  {
    hide Parsed, SameGrid;
    var a, s := items[0], set x | x in items :: Parsed(x).value.times;
    assert a in items;
    SingletonOf(s, Parsed(a).value.times);
    if |s| == 1 { assert forall x :: x in items ==> Parsed(x).value.times in s; }
    forall x, y | x in items && y in items
      ensures Parsed(x).value.times == Parsed(y).value.times <==> SameGrid(x, y)
    {
      SameGridMeans(x, y);
    }
  }

  lemma {:induction false} AllLabelled(items: seq<Item>, kind: Kind)
    requires AllSound(items, kind)
    ensures Labelled(items) == items
    decreases |items|
  {
    hide SoundSamples;
    if items != [] {
      var front := items[..|items| - 1];
      assert items == front + [items[|items| - 1]];
      assert items[|items| - 1] in items;
      AllLabelled(front, kind);
    }
  }

  lemma SoundIsReadable(x: Item, kind: Kind)
    requires SoundItem(x, kind)
    ensures Readable(x) && x.partition.Some? && Parsed(x).Some? && x.expected == PARTITIONS
    ensures x.sourceTime.Some? && x.raw.Some?
  {}

  lemma AllChosen(items: seq<Item>, kind: Kind)
    requires AllSound(items, kind) && DistinctPartitions(items)
    ensures Chosen(items) == items
  {
    hide SoundItem, Readable;
    forall x | x in items ensures x.partition.Some? && Readable(x) { SoundIsReadable(x, kind); }
    PickAll(items, Readable);
  }

  lemma OneExpectation(items: seq<Item>, kind: Kind)
    requires items != [] && AllSound(items, kind)
    ensures (set x | x in items && x.expected != {} :: x.expected) == {PARTITIONS}
  {
    hide SoundItem;
    forall x | x in items ensures x.expected == PARTITIONS { SoundIsReadable(x, kind); }
    assert items[0] in items && "0" in PARTITIONS;
  }

  /** The family checks over sound items. */
  lemma ChecksMean(items: seq<Item>, kind: Kind)
    requires items != [] && AllSound(items, kind) && DistinctPartitions(items)
    ensures FamilyChecks(items) == {} <==> SoundFamily(items, kind)
  {
    hide SoundItem, Pick, Labelled, Parsed, Chosen, OneExporter, OneSourceTime, OneCollection, OneGrid;
    AllLabelled(items, kind);
    AllChosen(items, kind);
    OneExpectation(items, kind);
    forall x | x in items ensures Parsed(x).Some? && x.sourceTime.Some? && x.raw.Some? { SoundIsReadable(x, kind); }
    ExporterMeans(items);
    SourceTimeMeans(items);
    CollectionMeans(items);
    GridMeans(items);
    hide AllSound;
    var checks := FamilyChecks(items);
    if checks == {} {
      assert ExporterMixed !in checks && SourceTimestampMixed !in checks && CollectionTimestampMixed !in checks;
      assert RawSourceMixed !in checks && GridMismatch !in checks && CoverageMismatch !in checks;
    }
  }

  /** A family raises no issue exactly when it is sound. */
  lemma FamilySoundExactlyWhen(items: seq<Item>, kind: Kind)
    ensures FamilyIssues(items, kind) == {} <==> SoundFamily(items, kind)
  {
    hide SoundItem, EachIssues, FamilyChecks, OneExporter, OneSourceTime, OneCollection, OneGrid;
    EachSoundExactlyWhen(items, kind);
    if items == [] {
      assert EvidenceMissing in FamilyIssues(items, kind);
      NoneIsNotEight();
    } else if AllSound(items, kind) {
      if DistinctPartitions(items) {
        ChecksMean(items, kind);
      } else {
        DuplicatesAreReported(items, kind);
      }
    }
  }

  lemma NoneIsNotEight()
    ensures !EightPartitions([])
  {
    assert "0" in {"0", "1", "2", "3", "4", "5", "6", "7"};
  }

  lemma DuplicatesAreReported(items: seq<Item>, kind: Kind)
    requires AllSound(items, kind) && !DistinctPartitions(items)
    ensures DuplicatePartition in FamilyIssues(items, kind)
  {
    hide SoundItem, EachIssues;
    AllLabelled(items, kind);
  }

  // --------------------------------------------------------------- the three families together

  /** On one grid, and lag is end minus committed offset at every sample. */
  ghost predicate LagIsDifference(e: Item, c: Item, l: Item) {
    && SameGrid(e, c) && SameGrid(e, l)
    && forall i :: 0 <= i < |e.samples.value| ==>
         e.samples.value[i].value - c.samples.value[i].value == l.samples.value[i].value
  }

  ghost predicate SoundBundle(b: Bundle) {
    var all := b.end + b.committed + b.lag;
    && SoundFamily(b.end, EndOffset) && SoundFamily(b.committed, CommittedOffset) && SoundFamily(b.lag, Lag)
    && OneExporter(all) && OneSourceTime(all)
    && forall e, c, l :: e in b.end && c in b.committed && l in b.lag && e.partition == c.partition == l.partition ==>
         LagIsDifference(e, c, l)
  }

  lemma LagAgreesMeans(e: Item, c: Item, l: Item)
    requires SoundItem(e, EndOffset) && SoundItem(c, CommittedOffset) && SoundItem(l, Lag)
    ensures SameTimes(e, c, l) && LagAgrees(e, c, l) <==> LagIsDifference(e, c, l)
  {
    SameGridMeans(e, c);
    SameGridMeans(e, l);
    forall i: nat | i < 13
      ensures ValueAt(e, i) == e.samples.value[i].value && ValueAt(c, i) == c.samples.value[i].value
      ensures ValueAt(l, i) == l.samples.value[i].value && ValueAt(c, i) >= 0.0
    {}
    hide ValueAt, SameGrid;
  }

  lemma PairsMean(b: Bundle)
    requires AllSound(b.end, EndOffset) && AllSound(b.committed, CommittedOffset) && AllSound(b.lag, Lag)
    ensures GridsAgree(b.end, b.committed, b.lag) && LagsAgree(b.end, b.committed, b.lag) <==>
            forall e, c, l :: e in b.end && c in b.committed && l in b.lag && e.partition == c.partition == l.partition
              ==> LagIsDifference(e, c, l)
  {
    hide SoundItem, SameTimes, LagAgrees, LagIsDifference;
    forall e, c, l | e in b.end && c in b.committed && l in b.lag
      ensures SameTimes(e, c, l) && LagAgrees(e, c, l) <==> LagIsDifference(e, c, l)
    {
      LagAgreesMeans(e, c, l);
    }
  }

  /** A bundle raises no issue exactly when it is sound. */
  lemma BundleSoundExactlyWhen(b: Bundle)
    ensures CoreIssues(b) == {} <==> SoundBundle(b)
  {
    hide FamilyIssues, SoundItem, Chosen, OneCollection, OneGrid, GridsAgree, LagsAgree, LagIsDifference;
    FamilySoundExactlyWhen(b.end, EndOffset);
    FamilySoundExactlyWhen(b.committed, CommittedOffset);
    FamilySoundExactlyWhen(b.lag, Lag);
    if SoundFamily(b.end, EndOffset) && SoundFamily(b.committed, CommittedOffset) && SoundFamily(b.lag, Lag) {
      AllChosen(b.end, EndOffset);
      AllChosen(b.committed, CommittedOffset);
      AllChosen(b.lag, Lag);
      PairsMean(b);
      SetsMean(b);
      hide SetIssues, AllSound, OneExporter, OneSourceTime;
      var issues := CrossIssues(b);
      if issues == {} { assert FamilyGridMismatch !in issues && LagArithmetic !in issues; }
    }
  }

  lemma SetsMean(b: Bundle)
    requires SoundFamily(b.end, EndOffset) && SoundFamily(b.committed, CommittedOffset) && SoundFamily(b.lag, Lag)
    ensures SamePartitions(b.end, b.committed, b.lag)
    ensures SetIssues(b.end, b.committed, b.lag) == {} <==>
              OneExporter(b.end + b.committed + b.lag) && OneSourceTime(b.end + b.committed + b.lag)
  {
    hide SoundItem, OneExporter, OneSourceTime, OneCollection, OneGrid;
    var all := b.end + b.committed + b.lag;
    NoneIsNotEight();
    forall x | x in all ensures x.sourceTime.Some? {
      if x in b.end { SoundIsReadable(x, EndOffset); }
      else if x in b.committed { SoundIsReadable(x, CommittedOffset); }
      else { SoundIsReadable(x, Lag); }
    }
    hide AllSound;
    ExporterMeans(all);
    SourceTimeMeans(all);
    var issues := SetIssues(b.end, b.committed, b.lag);
    if issues == {} { assert FamilyExporterMismatch !in issues && FamilySourceMismatch !in issues; }
  }

  ghost predicate AllZero(items: seq<Item>) {
    forall l :: l in items ==> l.samples.Some? && forall i :: 0 <= i < |l.samples.value| ==>
      l.samples.value[i].Point? && l.samples.value[i].value == 0.0
  }

  lemma SoundValues(x: Item, kind: Kind)
    requires SoundItem(x, kind)
    ensures x.samples.Some? && |x.samples.value| == 13
    ensures forall i: nat :: i < 13 ==> x.samples.value[i].Point? && ValueAt(x, i) == x.samples.value[i].value
  {}

  lemma NoLagMeans(items: seq<Item>)
    requires AllSound(items, Lag)
    ensures NoLag(items) <==> AllZero(items)
  {
    hide SoundItem, ValueAt;
    forall x | x in items
      ensures x.samples.Some? && |x.samples.value| == 13
      ensures forall i: nat :: i < 13 ==> x.samples.value[i].Point? && ValueAt(x, i) == x.samples.value[i].value
    {
      SoundValues(x, Lag);
    }
    hide AllSound;
    if NoLag(items) {
      forall x, i: nat | x in items && i < 13 ensures ValueAt(x, i) == 0.0 { assert ZeroAt(items, i); }
    }
  }

  /** CORE_BACKLOG_PRESSURE of one bundle is ABSENT exactly when the bundle is sound and every lag sample is zero. */
  lemma AbsentExactlyWhen(b: Bundle)
    ensures CoreState(b) == Absent <==> SoundBundle(b) && AllZero(b.lag)
    ensures CoreState(b) != Absent ==> CoreState(b) == Unknown
  {
    hide SoundBundle, AllZero, NoLag, CoreIssues, Chosen;
    BundleSoundExactlyWhen(b);
    AbsentMeansNoLag(b);
    if SoundBundle(b) {
      SoundLag(b);
      NoLagMeans(b.lag);
    }
  }

  lemma SoundLag(b: Bundle)
    requires SoundBundle(b)
    ensures AllSound(b.lag, Lag)
  {
    hide SoundItem;
  }
}
