/**
 A family of bundles that meets every requirement of the evaluator, so that the theorems about issue-free bundles and
 about activation speak of something: three captures of steadily growing lag are an activation.
 */
module SteadyGrowth {
  import opened Prelude
  import opened KafkaLag
  import opened Measurement
  import opened Calibration
  import opened Activation

  const GAIN := 63

  /** A value that starts at base and gains GAIN every 5 s, or stays. */
  function SteadyValue(base: nat, rising: bool, i: nat): int { base + if rising then GAIN * i else 0 }

  function SteadySamples(base: nat, rising: bool): seq<Sample> {
    seq(SAMPLE_COUNT, i requires 0 <= i < SAMPLE_COUNT => Point(5.0 * i as real, SteadyValue(base, rising, i) as real))
  }

  function SteadyItem(name: string, at: int, base: nat, rising: bool): Item {
    Item(true, true, {}, Some(name), PARTITIONS, "exporter", Some(at), at, Some("raw"), SAMPLE_COUNT,
         Some(SteadySamples(base, rising)))
  }

  function SteadyFamily(order: seq<string>, at: int, base: nat, rising: bool): seq<Item> {
    seq(|order|, k requires 0 <= k < |order| => SteadyItem(order[k], at, base, rising))
  }

  /** Records are produced and none is consumed. */
  function SteadyBundle(order: seq<string>, at: int, base: nat): Bundle {
    Bundle(SteadyFamily(order, at, base, true), SteadyFamily(order, at, 0, false), SteadyFamily(order, at, base, true))
  }

  lemma {:induction false} ScanOfCleanPoints(samples: seq<Sample>, kind: Kind)
    requires forall i :: 0 <= i < |samples| ==>
               samples[i].Point? && samples[i].value >= 0.0 && Integral(samples[i].value)
    ensures ScanIssues(samples, kind) == {}
    decreases |samples|
  {
    hide Integral;
    if samples != [] { ScanOfCleanPoints(samples[1..], kind); }
  }

  lemma SteadySamplesClean(base: nat, rising: bool)
    ensures var s := SteadySamples(base, rising);
            && |s| == SAMPLE_COUNT && Usable(s) && Stepped(Times(s)) && NonDecreasing(Values(s))
            && Times(s)[SAMPLE_COUNT - 1] - Times(s)[0] == SPAN
            && forall i :: 0 <= i < SAMPLE_COUNT ==> s[i].value >= 0.0 && Integral(s[i].value)
  {}

  lemma SteadyItemFine(name: string, at: int, base: nat, rising: bool, kind: Kind)
    ensures var x := SteadyItem(name, at, base, rising);
            ItemIssues(x) == {} && ReadIssues(x, kind) == {} && CleanItem(x, kind)
  {
    var x := SteadyItem(name, at, base, rising);
    SteadySamplesClean(base, rising);
    hide SteadySamples, Integral, PARTITIONS, Stepped, NonDecreasing;
    ScanOfCleanPoints(SteadySamples(base, rising), kind);
    assert SeriesIssues(x, kind) == {};
    ItemClean(x, kind);
  }

  lemma {:induction false} SteadyEach(order: seq<string>, at: int, base: nat, rising: bool, kind: Kind)
    ensures EachIssues(SteadyFamily(order, at, base, rising), kind) == {}
    decreases |order|
  {
    hide ItemIssues, ReadIssues, SteadyItem;
    if order != [] {
      var front := order[..|order| - 1];
      SteadyEach(front, at, base, rising, kind);
      SteadyItemFine(order[|order| - 1], at, base, rising, kind);
      assert SteadyFamily(order, at, base, rising)[..|order| - 1] == SteadyFamily(front, at, base, rising);
    }
  }

  lemma SteadyObserved(order: seq<string>, at: int, base: nat, rising: bool)
    requires Orders(order, PARTITIONS)
    ensures Observed(SteadyFamily(order, at, base, rising)) == PARTITIONS
    ensures DistinctPartitions(SteadyFamily(order, at, base, rising))
  {
    hide SteadySamples, PARTITIONS;
    var items := SteadyFamily(order, at, base, rising);
    forall p | p in order ensures p in Observed(items) {
      var k :| 0 <= k < |order| && order[k] == p;
      assert items[k] in items && items[k].partition == Some(p);
    }
    assert Observed(items) == (set p | p in order);
  }

  lemma SteadyMember(order: seq<string>, at: int, base: nat, rising: bool, x: Item)
    requires x in SteadyFamily(order, at, base, rising)
    ensures exists name :: name in order && x == SteadyItem(name, at, base, rising)
  {
    var k :| 0 <= k < |order| && SteadyFamily(order, at, base, rising)[k] == x;
    assert order[k] in order;
  }

  lemma SteadyFamilyClean(order: seq<string>, at: int, base: nat, rising: bool, kind: Kind)
    requires Orders(order, PARTITIONS)
    ensures CleanFamily(SteadyFamily(order, at, base, rising), kind)
    ensures Chosen(SteadyFamily(order, at, base, rising)) == SteadyFamily(order, at, base, rising)
  {
    hide SteadyItem, CleanItem, Orders, Observed, DistinctPartitions, PARTITIONS, Chosen;
    var items := SteadyFamily(order, at, base, rising);
    forall x | x in items ensures CleanItem(x, kind) {
      SteadyMember(order, at, base, rising, x);
      var name :| name in order && x == SteadyItem(name, at, base, rising);
      SteadyItemFine(name, at, base, rising, kind);
    }
    SteadyObserved(order, at, base, rising);
    ChosenAll(items, kind);
  }

  lemma SteadyEnds(name: string, at: int, base: nat, rising: bool)
    ensures var x := SteadyItem(name, at, base, rising);
            && Sampled(x) && Readable(x)
            && First(x) == base as real && Last(x) == (base + if rising then 756 else 0) as real
  {
    SteadySamplesClean(base, rising);
    assert SteadySamples(base, rising)[0].value == base as real;
    assert SteadySamples(base, rising)[SAMPLE_COUNT - 1].value == (base + if rising then 756 else 0) as real;
    hide SteadySamples;
  }

  lemma SteadyAgrees(e: string, c: string, l: string, at: int, base: nat)
    ensures SameTimes(SteadyItem(e, at, base, true), SteadyItem(c, at, 0, false), SteadyItem(l, at, base, true))
    ensures LagAgrees(SteadyItem(e, at, base, true), SteadyItem(c, at, 0, false), SteadyItem(l, at, base, true))
  {
    SteadyEnds(e, at, base, true);
    SteadyEnds(c, at, 0, false);
    SteadyEnds(l, at, base, true);
    assert Times(SteadySamples(base, true)) == Times(SteadySamples(0, false));
  }

  lemma SteadyPairs(order: seq<string>, at: int, base: nat)
    requires Orders(order, PARTITIONS)
    ensures var rising, flat := SteadyFamily(order, at, base, true), SteadyFamily(order, at, 0, false);
            PairIssues(rising, flat, rising) == {}
  {
    hide SteadyItem, SameTimes, LagAgrees, SamePartition, Orders, PARTITIONS;
    var rising, flat := SteadyFamily(order, at, base, true), SteadyFamily(order, at, 0, false);
    forall e, c, l | e in rising && c in flat && l in rising ensures SameTimes(e, c, l) && LagAgrees(e, c, l) {
      SteadyMember(order, at, base, true, e);
      SteadyMember(order, at, 0, false, c);
      SteadyMember(order, at, base, true, l);
      var n0 :| e == SteadyItem(n0, at, base, true);
      var n1 :| c == SteadyItem(n1, at, 0, false);
      var n2 :| l == SteadyItem(n2, at, base, true);
      SteadyAgrees(n0, n1, n2, at, base);
    }
  }

  lemma SteadyOrigin(order: seq<string>, at: int, base: nat, rising: bool)
    requires order != []
    ensures var items := SteadyFamily(order, at, base, rising);
            && items != [] && items[0] in items
            && forall x :: x in items ==>
               x.ok && x.exporter == "exporter" && x.sourceTime == Some(at) && x.collectedAt == at
                                          && x.raw == Some("raw") && x.expected == PARTITIONS
  {}

  lemma SteadySet(items: seq<Item>, at: int)
    requires items != [] && forall x :: x in items ==> x.exporter == "exporter" && x.sourceTime == Some(at)
    ensures |set x | x in items :: x.exporter| == 1
    ensures |set x | x in items && x.sourceTime.Some? :: x.sourceTime| == 1
  {
    assert items[0] in items;
    assert (set x | x in items :: x.exporter) == {"exporter"};
    assert (set x | x in items && x.sourceTime.Some? :: x.sourceTime) == {Some(at)};
  }

  lemma SteadyChecks(order: seq<string>, at: int, base: nat, rising: bool)
    requires Orders(order, PARTITIONS) && order != []
    ensures FamilyChecks(SteadyFamily(order, at, base, rising)) == {}
  {
    hide Orders, SteadyItem, Observed, DistinctPartitions, CleanItem, PARTITIONS, Labelled, Parsed, Chosen;
    var items := SteadyFamily(order, at, base, rising);
    SteadyFamilyClean(order, at, base, rising, Lag);
    CleanFamilyIsLabelled(items, Lag);
    SteadyObserved(order, at, base, rising);
    SteadyOrigin(order, at, base, rising);
    SteadySet(items, at);
    SteadyGrid(order, at, base, rising);
    NoEmptyLabels();
    assert (set x | x in items :: x.collectedAt) == {at};
    assert (set x | x in items :: x.raw) == {Some("raw")};
    assert (set x | x in items && x.expected != {} :: x.expected) == {PARTITIONS};
  }

  lemma NoEmptyLabels()
    ensures PARTITIONS != {}
  {
    assert "0" in PARTITIONS;
  }

  lemma SteadyGrid(order: seq<string>, at: int, base: nat, rising: bool)
    requires order != []
    ensures var items := SteadyFamily(order, at, base, rising);
            && (forall x :: x in items ==> Parsed(x).Some?)
            && |set x | x in items :: Parsed(x).value.times| == 1
  {
    hide SteadySamples, SteadyItem, PARTITIONS;
    var items := SteadyFamily(order, at, base, rising);
    SteadyParses("", at, base, rising);
    var times := Times(SteadySamples(base, rising));
    forall x | x in items ensures Parsed(x).Some? && Parsed(x).value.times == times {
      SteadyMember(order, at, base, rising, x);
      var n :| x == SteadyItem(n, at, base, rising);
      SteadyParses(n, at, base, rising);
    }
    assert items[0] in items;
    assert (set x | x in items :: Parsed(x).value.times) == {times};
  }

  lemma SteadyParses(name: string, at: int, base: nat, rising: bool)
    ensures |SteadySamples(base, rising)| == SAMPLE_COUNT && Usable(SteadySamples(base, rising))
    ensures Parsed(SteadyItem(name, at, base, rising)).Some?
    ensures Parsed(SteadyItem(name, at, base, rising)).value.times == Times(SteadySamples(base, rising))
  {}

  lemma SteadyFamilyFine(order: seq<string>, at: int, base: nat, rising: bool, kind: Kind)
    requires Orders(order, PARTITIONS) && order != []
    ensures FamilyIssues(SteadyFamily(order, at, base, rising), kind) == {}
  {
    hide FamilyChecks, EachIssues, Orders, SteadyItem;
    SteadyEach(order, at, base, rising, kind);
    SteadyChecks(order, at, base, rising);
  }

  lemma SteadyCross(order: seq<string>, at: int, base: nat)
    requires Orders(order, PARTITIONS) && order != []
    ensures CrossIssues(SteadyBundle(order, at, base)) == {}
  {
    hide SteadyFamily, Orders, Chosen, PairIssues, CleanFamily, Observed, PARTITIONS;
    var rising, flat := SteadyFamily(order, at, base, true), SteadyFamily(order, at, 0, false);
    SteadyFamilyClean(order, at, base, true, Lag);
    SteadyFamilyClean(order, at, 0, false, Lag);
    SteadyPairs(order, at, base);
    SteadyObserved(order, at, base, true);
    SteadyObserved(order, at, 0, false);
    SteadyOrigin(order, at, base, true);
    SteadyOrigin(order, at, 0, false);
    SteadySet(rising + flat + rising, at);
  }

  /** Such a bundle has no issue. */
  lemma SteadyBundleIsClean(order: seq<string>, at: int, base: nat)
    requires Orders(order, PARTITIONS)
    ensures CoreIssues(SteadyBundle(order, at, base)) == {}
  {
    hide FamilyIssues, CrossIssues, SteadyFamily;
    assert "0" in PARTITIONS;
    assert "0" in order;
    hide Orders, PARTITIONS;
    SteadyFamilyFine(order, at, base, true, EndOffset);
    SteadyFamilyFine(order, at, 0, false, CommittedOffset);
    SteadyFamilyFine(order, at, base, true, Lag);
    SteadyCross(order, at, base);
  }

  // --------------------------------------------------------------- an activation

  lemma {:induction false} SumOfEqual(order: seq<string>, f: string -> real, v: real)
    requires forall p :: p in order ==> f(p) == v
    ensures Sum(order, f) == |order| as real * v
    decreases |order|
  {
    if order != [] {
      var front, last := order[..|order| - 1], order[|order| - 1];
      assert order == front + [last];
      SumOfEqual(front, f, v);
      OneMore(|front|, v);
    }
  }

  lemma OneMore(n: nat, v: real)
    ensures (n + 1) as real * v == n as real * v + v
  {
    assert (n + 1) as real == n as real + 1.0;
  }

  lemma SteadyAt(order: seq<string>, at: int, base: nat, p: string)
    requires Orders(order, PARTITIONS) && p in order
    ensures At(SteadyFamily(order, at, base, true), p) == Some(SteadyItem(p, at, base, true))
  {
    hide At, SteadyItem, CleanItem, PARTITIONS;
    var items := SteadyFamily(order, at, base, true);
    SteadyObserved(order, at, base, true);
    var k :| 0 <= k < |order| && order[k] == p;
    assert items[k] == SteadyItem(p, at, base, true) && items[k] in items;
    forall x | x in items ensures x.partition.Some? {
      SteadyMember(order, at, base, true, x);
      var n :| x == SteadyItem(n, at, base, true);
      SteadyName(n, at, base);
    }
    SteadyName(p, at, base);
    KeyedAt(items, SteadyItem(p, at, base, true));
  }

  lemma SteadyName(name: string, at: int, base: nat)
    ensures SteadyItem(name, at, base, true).partition == Some(name)
  {
    hide SteadySamples;
  }

  lemma SteadyTotals(order: seq<string>, at: int, base: nat)
    requires Orders(order, PARTITIONS)
    ensures Sum(order, Latests(SteadyFamily(order, at, base, true))) == 8.0 * (base + 756) as real
    ensures Sum(order, Changes(SteadyFamily(order, at, base, true))) == 6048.0
  {
    hide Orders, PARTITIONS, SteadyItem, SteadyFamily, At, First, Last, Sum;
    var items := SteadyFamily(order, at, base, true);
    forall p | p in order ensures LatestOf(At(items, p)) == (base + 756) as real && ChangeOf(At(items, p)) == 756.0 {
      SteadyAt(order, at, base, p);
      SteadyEnds(p, at, base, true);
    }
    FullOrder(order);
    SumOfEqual(order, Latests(items), (base + 756) as real);
    SumOfEqual(order, Changes(items), 756.0);
  }

  function SteadyCapture(order: seq<string>, k: nat): Capture {
    Capture(SteadyBundle(order, k, 1000 * (k + 1)), true, Some("endpoint"), k, k, false)
  }

  lemma {:induction false} AllOk(items: seq<Item>)
    requires forall x :: x in items ==> x.ok
    ensures OkItems(items) == items
    decreases |items|
  {
    if items != [] {
      var front, last := items[..|items| - 1], items[|items| - 1];
      assert items == front + [last];
      AllOk(front);
    }
  }

  lemma OneSource(items: seq<Item>, at: int)
    requires items != [] && forall x :: x in items ==> x.exporter == "exporter" && x.sourceTime == Some(at)
    ensures Only(set x | x in items && x.sourceTime.Some? :: x.sourceTime.value) == Some(at)
    ensures Only(set x | x in items :: x.exporter) == Some("exporter")
  {
    hide Only;
    assert items[0] in items;
    assert (set x | x in items && x.sourceTime.Some? :: x.sourceTime.value) == {at};
    assert (set x | x in items :: x.exporter) == {"exporter"};
    OnlyMember({at}, at);
    OnlyMember({"exporter"}, "exporter");
  }

  lemma ObservedAll(x: seq<Item>, y: seq<Item>, z: seq<Item>)
    ensures Observed(x + y + z) == Observed(x) + Observed(y) + Observed(z)
  {}

  lemma SteadySources(order: seq<string>, k: nat)
    requires Orders(order, PARTITIONS)
    ensures var c := SteadyCapture(order, k);
            && KafkaTimeOf(c) == Some(k) && Observed(Sources(c.bundle)) == PARTITIONS
            && IdentityOf(c) == Some(Identity("endpoint", "exporter", PARTITIONS))
  {
    hide SteadyItem, SteadyFamily, Only, Observed, OkItems;
    assert "0" in PARTITIONS;
    assert "0" in order;
    hide PARTITIONS, Orders;
    var b := SteadyBundle(order, k, 1000 * (k + 1));
    SteadyOrigin(order, k, 1000 * (k + 1), true);
    SteadyOrigin(order, k, 0, false);
    SteadyObserved(order, k, 1000 * (k + 1), true);
    SteadyObserved(order, k, 0, false);
    AllOk(b.end + b.committed + b.lag);
    ObservedAll(b.end, b.committed, b.lag);
    OneSource(b.end + b.committed + b.lag, k);
  }

  lemma SteadyObservation(order: seq<string>, k: nat)
    requires Orders(order, PARTITIONS)
    ensures var o := Observe(SteadyCapture(order, k), order);
            && SteadyView(o, k) && Qualifies(o)
            && o.totalLag == Some(8 * (1000 * (k + 1) + 756))
  {
    hide Orders, PARTITIONS, SteadyFamily, CoreIssues, ReadingOf, Sum, Changes, Latests, IdentityOf, KafkaTimeOf,
         Sources, Observed;
    var base := 1000 * (k + 1);
    var b := SteadyBundle(order, k, base);
    SteadyBundleIsClean(order, k, base);
    CleanBundleIsMeasured(b, order);
    SteadyTotals(order, k, base);
    SteadySources(order, k);
    assert 8.0 * (base + 756) as real == (8 * (base + 756)) as real;
  }

  /** Steadily growing lag is an activation: the PRESENT verdict is within reach. */
  lemma SteadyGrowthActivates(order: seq<string>, base: ConditionState)
    requires Orders(order, PARTITIONS)
    ensures var captures := [SteadyCapture(order, 0), SteadyCapture(order, 1), SteadyCapture(order, 2)];
            VerdictOf(Observations(captures, order), base) == Verdict(Present, {}, [0])
  {
    hide Orders, PARTITIONS, SteadyCapture, Observe, Qualifies, SteadyView, Troubles;
    var captures := [SteadyCapture(order, 0), SteadyCapture(order, 1), SteadyCapture(order, 2)];
    var obs := Observations(captures, order);
    SteadyObservation(order, 0);
    SteadyObservation(order, 1);
    SteadyObservation(order, 2);
    assert obs == [obs[0], obs[1], obs[2]];
    SteadyTroubles(obs);
    assert Matches(obs, 0);
    assert Starts(1, Matcher(obs)) == [0];
  }

  predicate SteadyView(o: Observation, k: nat) {
    && o.usable && o.identity == Some(Identity("endpoint", "exporter", PARTITIONS))
    && o.partitions == PARTITIONS && o.kafkaTime == Some(k)
    && o.startedAt == k && o.completedAt == k && o.consistent == Some(true)
  }

  lemma SteadyTroubles(obs: seq<Observation>)
    requires |obs| == 3 && SteadyView(obs[0], 0) && SteadyView(obs[1], 1) && SteadyView(obs[2], 2)
    ensures Troubles(obs) == {}
  {
    hide PARTITIONS;
    assert forall o :: o in obs ==> o == obs[0] || o == obs[1] || o == obs[2];
    SteadySource(obs);
    assert CaptureTimesIncrease(obs) && KafkaTimesIncrease(obs);
  }

  lemma SteadySource(obs: seq<Observation>)
    requires obs != [] && forall o :: o in obs ==> o.partitions == PARTITIONS
    requires forall o :: o in obs ==> o.identity == Some(Identity("endpoint", "exporter", PARTITIONS))
    ensures |set o | o in obs :: o.identity| == 1 && |set o | o in obs :: o.partitions| == 1
  {
    hide PARTITIONS;
    assert obs[0] in obs;
    assert (set o | o in obs :: o.identity) == {Some(Identity("endpoint", "exporter", PARTITIONS))};
    assert (set o | o in obs :: o.partitions) == {PARTITIONS};
  }

  const LABELS := ["0", "1", "2", "3", "4", "5", "6", "7"]

  lemma SortedLabels()
    ensures Orders(LABELS, PARTITIONS)
  {
    assert forall i :: 0 <= i < 8 ==> LABELS[i][0] == "01234567"[i];
  }

  /** So some sequence is PRESENT, whatever its last capture says on its own. */
  lemma SomeSequenceIsPresent(base: ConditionState)
    ensures Orders(LABELS, PARTITIONS)
    ensures exists captures :: VerdictOf(Observations(captures, LABELS), base).state == Present
  {
    hide Orders, PARTITIONS, Observations, VerdictOf, SteadyCapture;
    SortedLabels();
    SteadyGrowthActivates(LABELS, base);
  }
}
