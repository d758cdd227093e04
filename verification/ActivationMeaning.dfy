/**
 When CORE_BACKLOG_PRESSURE over a sequence is PRESENT, ABSENT or UNKNOWN, told from the captures alone.
 */
module ActivationMeaning {
  import opened Prelude
  import opened KafkaLag
  import opened KafkaMeaning
  import opened Measurement
  import opened Calibration
  import opened Activation

  function All(c: Capture): seq<Item> { c.bundle.end + c.bundle.committed + c.bundle.lag }

  /** A capture whose scope fits, whose evidence is sound and whose endpoint is identified. */
  ghost predicate SoundCapture(c: Capture) { c.compatible && SoundBundle(c.bundle) && c.endpoint.Some? }

  /** Captured later and, at every item, from later Kafka data. */
  ghost predicate Later(b: Capture, c: Capture) {
    && b.startedAt < c.startedAt && b.completedAt < c.completedAt
    && forall x, y :: x in All(b) && y in All(c) ==>
         x.sourceTime.Some? && y.sourceTime.Some? && x.sourceTime.value < y.sourceTime.value
  }

  ghost predicate SameOrigin(b: Capture, c: Capture) {
    && b.endpoint == c.endpoint
    && forall x, y :: x in All(b) && y in All(c) ==> x.exporter == y.exporter
  }

  ghost predicate EachSound(captures: seq<Capture>) {
    hide *;
    forall i :: 0 <= i < |captures| ==> SoundCapture(captures[i])
  }

  ghost predicate EachLater(captures: seq<Capture>) {
    hide *;
    forall i :: 0 < i < |captures| ==> Later(captures[i - 1], captures[i])
  }

  ghost predicate OneOrigin(captures: seq<Capture>) {
    hide *;
    forall i :: 0 < i < |captures| ==> SameOrigin(captures[0], captures[i])
  }

  /** At least three sound captures, one after the other, from one origin. */
  ghost predicate SoundSequence(captures: seq<Capture>) {
    hide *;
    |captures| >= 3 && EachSound(captures) && EachLater(captures) && OneOrigin(captures)
  }

  /** At least 7000 records behind, at least 6000 more than a minute ago. */
  predicate Surging(c: Capture, order: seq<string>) { LagOf(c, order) >= 7000.0 && LagGrowth(c, order) >= 6000.0 }

  predicate Surge(captures: seq<Capture>, order: seq<string>, s: nat) {
    && s + 2 < |captures|
    && Surging(captures[s], order) && Surging(captures[s + 1], order) && Surging(captures[s + 2], order)
    && LagOf(captures[s], order) < LagOf(captures[s + 1], order) < LagOf(captures[s + 2], order)
  }

  ghost predicate SomeSurge(captures: seq<Capture>, order: seq<string>) { exists s :: Surge(captures, order, s) }

  /** The starts of all surges, in order. */
  ghost predicate AllSurges(captures: seq<Capture>, order: seq<string>, starts: seq<nat>) {
    && (forall s :: s in starts <==> Surge(captures, order, s))
    && (forall j, k :: 0 <= j < k < |starts| ==> starts[j] < starts[k])
  }

  // --------------------------------------------------------------- one capture

  lemma {:induction false} AllOk(items: seq<Item>)
    requires forall x :: x in items ==> x.ok
    ensures OkItems(items) == items
    decreases |items|
  {
    if items != [] {
      assert items == items[..|items| - 1] + [items[|items| - 1]];
      assert items[|items| - 1] in items;
      AllOk(items[..|items| - 1]);
    }
  }

  lemma SoundFamilyItems(items: seq<Item>, kind: Kind)
    requires SoundFamily(items, kind)
    ensures items != [] && Observed(items) == PARTITIONS
    ensures forall x :: x in items ==> x.ok && x.sourceTime.Some? && x.partition.Some?
  {
    hide SoundSamples, OneExporter, OneSourceTime, OneCollection, OneGrid;
    NoneIsNotEight();
  }

  lemma ObservedJoin(xs: seq<Item>, ys: seq<Item>, zs: seq<Item>)
    ensures Observed(xs + ys + zs) == Observed(xs) + Observed(ys) + Observed(zs)
  {}

  lemma SoundItems(c: Capture)
    requires SoundBundle(c.bundle)
    ensures All(c) != [] && Sources(c.bundle) == All(c) && Observed(All(c)) == PARTITIONS
    ensures forall x :: x in All(c) ==> x.ok && x.sourceTime.Some? && x.partition.Some?
    ensures forall x, y :: x in All(c) && y in All(c) ==> x.exporter == y.exporter && x.sourceTime == y.sourceTime
  {
    hide SoundFamily, LagIsDifference, OkItems, Observed;
    var b := c.bundle;
    SoundFamilyItems(b.end, EndOffset);
    SoundFamilyItems(b.committed, CommittedOffset);
    SoundFamilyItems(b.lag, Lag);
    ObservedJoin(b.end, b.committed, b.lag);
    AllOk(All(c));
  }

  lemma OnlyOne<T>(s: set<T>, a: T)
    requires a in s && forall b :: b in s ==> b == a
    ensures Only(s) == Some(a)
  {
    assert s == {a};
  }

  lemma SoundIdentity(c: Capture, x: Item)
    requires SoundBundle(c.bundle) && x in All(c)
    ensures KafkaTimeOf(c) == x.sourceTime && x.sourceTime.Some?
    ensures IdentityOf(c) == if c.endpoint.Some? then Some(Identity(c.endpoint.value, x.exporter, PARTITIONS)) else None
    ensures Observed(Sources(c.bundle)) == PARTITIONS
  {
    hide SoundBundle, Only, Sources;
    SoundItems(c);
    OnlyOne(set y | y in Sources(c.bundle) && y.sourceTime.Some? :: y.sourceTime.value, x.sourceTime.value);
    OnlyOne(set y | y in Sources(c.bundle) :: y.exporter, x.exporter);
  }

  /** What the evaluator records of a capture: usable exactly when sound. */
  lemma ObservedExactlyWhen(c: Capture, order: seq<string>)
    requires Orders(order, PARTITIONS)
    ensures Observe(c, order).usable <==> SoundCapture(c)
    ensures SoundCapture(c) ==>
              var o := Observe(c, order);
              && o.partitions == PARTITIONS && o.consistent == Some(true)
              && o.totalLag.Some? && o.totalLag.value as real == LagOf(c, order)
              && (Qualifies(o) <==> Surging(c, order))
  {
    hide CoreIssues, SoundBundle, Orders, IdentityOf, KafkaTimeOf, Sources, Observed, Sum, Latests, Changes, Truncated,
         SampleOf, Met, UsableSample;
    BundleSoundExactlyWhen(c.bundle);
    if CoreIssues(c.bundle) == {} {
      CleanBundleIsMeasured(c.bundle, order);
      SoundItems(c);
      SoundIdentity(c, All(c)[0]);
      if SoundCapture(c) { CaptureAgrees(c, order); }
    }
  }

  // --------------------------------------------------------------- the sequence

  lemma TimesMean(captures: seq<Capture>, order: seq<string>, i: nat)
    requires Orders(order, PARTITIONS) && 0 < i < |captures|
    requires SoundCapture(captures[i - 1]) && SoundCapture(captures[i])
    ensures Later(captures[i - 1], captures[i])
       <==> Ordered(Observe(captures[i - 1], order), Observe(captures[i], order))
  {
    hide CoreIssues, SoundBundle, Orders, IdentityOf, KafkaTimeOf, Sources, Asked;
    var b, c := captures[i - 1], captures[i];
    SoundItems(b);
    SoundItems(c);
    SoundIdentity(b, All(b)[0]);
    SoundIdentity(c, All(c)[0]);
    hide All;
    assert All(b)[0] in All(b) && All(c)[0] in All(c);
  }

  lemma OriginMeans(b: Capture, c: Capture, order: seq<string>)
    requires Orders(order, PARTITIONS) && SoundCapture(b) && SoundCapture(c)
    ensures Observe(b, order).identity.Some? && Observe(c, order).identity.Some?
    ensures SameOrigin(b, c) <==> Observe(b, order).identity == Observe(c, order).identity
  {
    hide CoreIssues, SoundBundle, Orders, IdentityOf, KafkaTimeOf, Sources, Asked;
    SoundItems(b);
    SoundItems(c);
    SoundIdentity(b, All(b)[0]);
    SoundIdentity(c, All(c)[0]);
    hide All;
    assert All(b)[0] in All(b) && All(c)[0] in All(c);
  }

  lemma IdentitiesMean(captures: seq<Capture>, order: seq<string>)
    requires Orders(order, PARTITIONS) && |captures| >= 3 && EachSound(captures)
    ensures var obs := Observations(captures, order);
            && (forall o :: o in obs ==> o.identity.Some?)
            && (|set o | o in obs :: o.identity| == 1 <==> OneOrigin(captures))
  {
    hide SoundCapture, SameOrigin, Observe, Orders;
    var obs := Observations(captures, order);
    forall i | 0 <= i < |captures|
      ensures obs[i].identity.Some?
      ensures SameOrigin(captures[0], captures[i]) <==> obs[0].identity == obs[i].identity
    {
      OriginMeans(captures[0], captures[i], order);
    }
    OneIdentity(obs);
  }

  lemma OneIdentity(obs: seq<Observation>)
    requires obs != []
    ensures |set o | o in obs :: o.identity| == 1 <==> forall i :: 0 < i < |obs| ==> obs[0].identity == obs[i].identity
  {
    var s := set o | o in obs :: o.identity;
    assert obs[0] in obs;
    KafkaMeaning.SingletonOf(s, obs[0].identity);
    if |s| == 1 {
      forall i | 0 <= i < |obs| ensures obs[i].identity == obs[0].identity {
        assert obs[i] in obs;
        assert obs[i].identity in s;
      }
    }
  }

  /** The evaluator records no problem exactly when the sequence is sound. */
  lemma TroubleFreeExactlyWhen(captures: seq<Capture>, order: seq<string>)
    requires Orders(order, PARTITIONS)
    ensures Troubles(Observations(captures, order)) == {} <==> SoundSequence(captures)
  {
    hide SoundCapture, Observe, Orders, EachLater, OneOrigin;
    var obs := Observations(captures, order);
    var troubles := Troubles(obs);
    forall i | 0 <= i < |captures| ensures obs[i].usable <==> SoundCapture(captures[i]) {
      ObservedExactlyWhen(captures[i], order);
    }
    if |captures| < 3 {
      assert CaptureCountInsufficient in troubles;
    } else if i :| 0 <= i < |captures| && !SoundCapture(captures[i]) {
      assert obs[i] in obs;
      assert EvidenceUnusable in troubles;
    } else {
      SoundTroubles(captures, order);
    }
  }

  lemma SoundTroubles(captures: seq<Capture>, order: seq<string>)
    requires Orders(order, PARTITIONS) && |captures| >= 3 && EachSound(captures)
    ensures Troubles(Observations(captures, order)) == {} <==> EachLater(captures) && OneOrigin(captures)
  {
    hide SoundCapture, Observe, Orders, EachLater, OneOrigin;
    var obs := Observations(captures, order);
    forall i | 0 <= i < |captures|
      ensures obs[i].usable && obs[i].partitions == PARTITIONS && obs[i].consistent == Some(true)
    {
      ObservedExactlyWhen(captures[i], order);
    }
    IdentitiesMean(captures, order);
    OnePartitionSet(obs);
    IncreaseMeans(captures, order);
    hide CaptureTimesIncrease, KafkaTimesIncrease;
    var troubles := Troubles(obs);
    if troubles == {} {
      assert CaptureTimesNotIncreasing !in troubles && KafkaTimesNotIncreasing !in troubles;
      assert SourceIdentityMismatch !in troubles;
    }
  }

  lemma OnePartitionSet(obs: seq<Observation>)
    requires obs != [] && forall i :: 0 <= i < |obs| ==> obs[i].partitions == PARTITIONS
    ensures |set o | o in obs :: o.partitions| == 1
  {
    assert obs[0] in obs;
    KafkaMeaning.SingletonOf(set o | o in obs :: o.partitions, PARTITIONS);
  }

  /** One observation after another, by its three times. */
  ghost predicate Ordered(b: Observation, c: Observation) {
    && b.startedAt < c.startedAt && b.completedAt < c.completedAt
    && b.kafkaTime.Some? && c.kafkaTime.Some? && b.kafkaTime.value < c.kafkaTime.value
  }

  lemma IncreaseMeans(captures: seq<Capture>, order: seq<string>)
    requires Orders(order, PARTITIONS) && |captures| >= 3 && EachSound(captures)
    ensures var obs := Observations(captures, order);
            CaptureTimesIncrease(obs) && KafkaTimesIncrease(obs) <==> EachLater(captures)
  {
    hide SoundCapture, Observe, Orders, Later, Ordered;
    var obs := Observations(captures, order);
    forall i: nat | 0 < i < |captures|
      ensures Later(captures[i - 1], captures[i]) <==> Ordered(obs[i - 1], obs[i])
    {
      TimesMean(captures, order, i);
    }
    OrderedMeans(obs);
  }

  lemma OrderedMeans(obs: seq<Observation>)
    requires |obs| > 1
    ensures CaptureTimesIncrease(obs) && KafkaTimesIncrease(obs) <==>
              forall i :: 0 < i < |obs| ==> Ordered(obs[i - 1], obs[i])
  {
    if forall i :: 0 < i < |obs| ==> Ordered(obs[i - 1], obs[i]) {
      assert Ordered(obs[1 - 1], obs[1]);
      forall i | 0 <= i < |obs| ensures obs[i].kafkaTime.Some? {
        if i > 0 { assert Ordered(obs[i - 1], obs[i]); }
      }
    }
  }

  lemma MatchMeans(captures: seq<Capture>, order: seq<string>, s: nat)
    requires Orders(order, PARTITIONS) && EachSound(captures)
    ensures Matches(Observations(captures, order), s) <==> Surge(captures, order, s)
  {
    hide Observe, Orders, LagOf, LagGrowth, SoundCapture, Qualifies, Surging;
    if s + 2 < |captures| {
      ObservedExactlyWhen(captures[s], order);
      ObservedExactlyWhen(captures[s + 1], order);
      ObservedExactlyWhen(captures[s + 2], order);
    }
  }

  lemma {:induction false} StartsAscend(n: nat, matches: nat -> bool)
    ensures forall j, k :: 0 <= j < k < |Starts(n, matches)| ==> Starts(n, matches)[j] < Starts(n, matches)[k]
  {
    if n > 0 {
      StartsAscend(n - 1, matches);
      var before := Starts(n - 1, matches);
      forall j | 0 <= j < |before| ensures before[j] < n - 1 {
        assert before[j] in before;
        StartsMember(n - 1, matches, before[j]);
      }
    }
  }

  lemma MatchedMean(captures: seq<Capture>, order: seq<string>)
    requires Orders(order, PARTITIONS) && SoundSequence(captures)
    ensures AllSurges(captures, order, MatchedStarts(Observations(captures, order)))
  {
    hide Observe, Orders, Surge, Matches, SoundCapture, EachLater, OneOrigin, Starts;
    var obs := Observations(captures, order);
    forall s: nat ensures s in MatchedStarts(obs) <==> Surge(captures, order, s) {
      StartsMember(StartCount(|obs|), Matcher(obs), s);
      MatchMeans(captures, order, s);
      SurgeFits(captures, order, s);
    }
    StartsAscend(StartCount(|obs|), Matcher(obs));
  }

  lemma SurgeFits(captures: seq<Capture>, order: seq<string>, s: nat)
    ensures Surge(captures, order, s) ==> s < StartCount(|captures|)
  {
    hide Surging, LagOf;
  }

  lemma SurgesExist(captures: seq<Capture>, order: seq<string>, starts: seq<nat>)
    requires AllSurges(captures, order, starts)
    ensures starts != [] <==> SomeSurge(captures, order)
  {
    hide Surge;
    if starts != [] { assert starts[0] in starts; }
  }

  /**
   PRESENT exactly for a sound sequence with a surge over three consecutive captures, and the reported starts are those
   of all surges in order; ABSENT exactly for a sound one without surge whose last capture shows no lag.
   */
  lemma SequenceExactlyWhen(captures: seq<Capture>, order: seq<string>, base: ConditionState)
    requires Orders(order, PARTITIONS)
    ensures var v := VerdictOf(Observations(captures, order), base);
            && (v.state == Present <==> SoundSequence(captures) && SomeSurge(captures, order))
            && (v.state == Absent <==> SoundSequence(captures) && !SomeSurge(captures, order) && base == Absent)
            && (v.troubles == {} <==> SoundSequence(captures))
            && (if SoundSequence(captures) then AllSurges(captures, order, v.starts) else v.starts == [])
  {
    hide Observations, Orders, Troubles, MatchedStarts, SoundSequence, AllSurges, SomeSurge;
    TroubleFreeExactlyWhen(captures, order);
    if SoundSequence(captures) {
      MatchedMean(captures, order);
      SurgesExist(captures, order, MatchedStarts(Observations(captures, order)));
      NoStarts(captures, order);
    }
  }

  lemma NoStarts(captures: seq<Capture>, order: seq<string>)
    ensures !SomeSurge(captures, order) ==> AllSurges(captures, order, [])
  {
    hide Surge;
  }

  // --------------------------------------------------------------- the measured quantities

  /** Over the sorted labels, a sum has these eight terms. */
  lemma SumOfEight(f: string -> real)
    ensures Sum(["0", "1", "2", "3", "4", "5", "6", "7"], f)
         == f("0") + f("1") + f("2") + f("3") + f("4") + f("5") + f("6") + f("7")
  {
    hide Sum;
    SumOfNone(f);
    var a := [] + ["0"] + ["1"] + ["2"] + ["3"];
    var b := a + ["4"] + ["5"] + ["6"] + ["7"];
    SumSnoc([], "0", f);
    SumSnoc([] + ["0"], "1", f);
    SumSnoc([] + ["0"] + ["1"], "2", f);
    SumSnoc([] + ["0"] + ["1"] + ["2"], "3", f);
    SumSnoc(a, "4", f);
    SumSnoc(a + ["4"], "5", f);
    SumSnoc(a + ["4"] + ["5"], "6", f);
    SumSnoc(a + ["4"] + ["5"] + ["6"], "7", f);
    assert b == ["0", "1", "2", "3", "4", "5", "6", "7"];
  }

  lemma SumOfNone(f: string -> real)
    ensures Sum([], f) == 0.0
  {}

  lemma SumSnoc(order: seq<string>, p: string, f: string -> real)
    ensures Sum(order + [p], f) == Sum(order, f) + f(p)
  {
    assert (order + [p])[..|order|] == order;
  }

  /** The terms of a sound family: the last sample of the partition, and its difference to the first. */
  lemma TermsMean(items: seq<Item>, kind: Kind, x: Item)
    requires SoundFamily(items, kind) && x in items
    ensures x.partition.Some? && x.samples.Some? && |x.samples.value| == 13
    ensures x.samples.value[0].Point? && x.samples.value[12].Point?
    ensures Latests(items)(x.partition.value) == x.samples.value[12].value
    ensures Changes(items)(x.partition.value) == x.samples.value[12].value - x.samples.value[0].value
  {
    hide OneExporter, OneSourceTime, OneCollection, OneGrid, At;
    assert Keyed(items);
    KeyedAt(items, x);
  }
}
