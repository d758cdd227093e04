/**
 Single-bundle evaluation of the Kafka series (ops_agent/evaluator.py): CORE_BACKLOG_PRESSURE,
 PARTITION_LAG_CONCENTRATION_OBSERVED and the NO_BACKLOG_PRESSURE_DETECTED assessment over them.

 Three families of per-partition series are parsed, checked sample by sample and against each other, and summed.
 Values are exact reals.  Checks of an item that read neither its samples nor its partition are given as the codes they
 raise.
 */
module KafkaLag {
  import opened Prelude

  const SAMPLE_COUNT := 13
  const STEP := 5.0
  const SPAN := 60.0
  const PARTITION_COUNT := 8
  const PARTITIONS: set<string> := {"0", "1", "2", "3", "4", "5", "6", "7"}

  datatype Sample = Malformed | NonNumeric | NonFinite | Point(at: real, value: real)

  datatype Item = Item(
    ok: bool, recent: bool,
    contract: set<string>,          // codes of the selector, scope, coverage and timing checks
    partition: Option<string>, expected: set<string>,
    exporter: string, sourceTime: Option<int>, collectedAt: int, raw: Option<string>,
    declaredCount: int, samples: Option<seq<Sample>>)

  datatype Kind = EndOffset | CommittedOffset | Lag

  datatype Bundle = Bundle(end: seq<Item>, committed: seq<Item>, lag: seq<Item>)

  function Family(b: Bundle, kind: Kind): seq<Item> {
    match kind
    case EndOffset => b.end
    case CommittedOffset => b.committed
    case Lag => b.lag
  }

  datatype Issue =
    | EvidenceMissing | EvidenceStatus | EvidenceNotFresh | Contract(code: string)
    | SourceTimestampMissing | RawReferenceMissing
    | PartitionLabelMissing | CoverageContract | DuplicatePartition | ExporterMixed | SourceTimestampMixed
    | CollectionTimestampMixed | RawSourceMixed | ExpectationInconsistent | CoverageMismatch | GridMismatch
    | SampleCountMismatch | SampleInvalid | SampleNonNumeric | SampleNonFinite | NonIntegral | Uninitialized | Negative
    | GridInvalid | WindowInvalid | OffsetDecrease
    | FamilySetMismatch | FamilyGridMismatch | LagArithmetic | FamilyExporterMismatch | FamilySourceMismatch

  // --------------------------------------------------------------- one series

  datatype Series = Series(times: seq<real>, values: seq<real>)

  predicate Monotonic(kind: Kind) { kind != Lag }

  predicate Integral(v: real) { v.Floor as real == v }

  function ValueIssues(v: real, kind: Kind): set<Issue> {
    Unless(Integral(v), NonIntegral)
    + (if kind == CommittedOffset && v == -1.0 then {Uninitialized} else if v < 0.0 then {Negative} else {})
  }

  predicate Usable(samples: seq<Sample>) { forall i :: 0 <= i < |samples| ==> samples[i].Point? }

  function Times(samples: seq<Sample>): seq<real>
    requires Usable(samples)
  {
    seq(|samples|, i requires 0 <= i < |samples| => samples[i].at)
  }

  function Values(samples: seq<Sample>): seq<real>
    requires Usable(samples)
  {
    seq(|samples|, i requires 0 <= i < |samples| => samples[i].value)
  }

  /** Issues of the samples up to the first unusable one. */
  function ScanIssues(samples: seq<Sample>, kind: Kind): set<Issue> {
    if samples == [] then {}
    else
      match samples[0]
      case Malformed => {SampleInvalid}
      case NonNumeric => {SampleNonNumeric}
      case NonFinite => {SampleNonFinite}
      case Point(_, v) => ValueIssues(v, kind) + ScanIssues(samples[1..], kind)
  }

  predicate Stepped(times: seq<real>) { forall i :: 0 < i < |times| ==> times[i] - times[i - 1] == STEP }

  predicate NonDecreasing(values: seq<real>) { forall i :: 0 < i < |values| ==> values[i - 1] <= values[i] }

  predicate CountsMatch(item: Item) {
    item.samples.Some? && |item.samples.value| == SAMPLE_COUNT && item.declaredCount == SAMPLE_COUNT
  }

  function Parsed(item: Item): Option<Series> {
    if CountsMatch(item) && Usable(item.samples.value)
    then Some(Series(Times(item.samples.value), Values(item.samples.value))) else None
  }

  function SeriesIssues(item: Item, kind: Kind): set<Issue> {
    if !CountsMatch(item) then {SampleCountMismatch}
    else
      ScanIssues(item.samples.value, kind)
      + (if Parsed(item).None? then {}
         else
           var s := Parsed(item).value;
           Unless(Stepped(s.times), GridInvalid)
           + Unless(s.times[SAMPLE_COUNT - 1] - s.times[0] == SPAN, WindowInvalid)
           + Unless(Monotonic(kind) ==> NonDecreasing(s.values), OffsetDecrease))
  }

  lemma {:induction false} ScanPrefix(samples: seq<Sample>, n: nat, kind: Kind)
    requires n < |samples| && Usable(samples[..n])
    ensures ScanIssues(samples, kind) == ScanIssues(samples[..n], kind) + ScanIssues(samples[n..], kind)
    decreases n
  {
    if n == 0 {
      assert samples[0..] == samples;
    } else {
      assert samples[..n][0] == samples[0];
      assert samples[..n][1..] == samples[1..][..n - 1];
      assert samples[n..] == samples[1..][n - 1..];
      ScanPrefix(samples[1..], n - 1, kind);
    }
  }

  /** What the sample at n adds to the issues of the usable samples before it. */
  function StepIssues(sample: Sample, kind: Kind): set<Issue> {
    match sample
    case Malformed => {SampleInvalid}
    case NonNumeric => {SampleNonNumeric}
    case NonFinite => {SampleNonFinite}
    case Point(_, v) => ValueIssues(v, kind)
  }

  lemma ScanStep(samples: seq<Sample>, n: nat, kind: Kind)
    requires n < |samples| && Usable(samples[..n])
    ensures ScanIssues(samples[..n + 1], kind) == ScanIssues(samples[..n], kind) + StepIssues(samples[n], kind)
    ensures !samples[n].Point? ==>
              ScanIssues(samples, kind) == ScanIssues(samples[..n], kind) + StepIssues(samples[n], kind)
  {
    hide ValueIssues;
    assert samples[..n + 1][..n] == samples[..n] && samples[..n + 1][n..] == [samples[n]];
    ScanPrefix(samples[..n + 1], n, kind);
    ScanPrefix(samples, n, kind);
  }

  lemma UsableStep(samples: seq<Sample>, n: nat)
    requires n < |samples| && Usable(samples[..n]) && samples[n].Point?
    ensures Usable(samples[..n + 1])
    ensures Times(samples[..n + 1]) == Times(samples[..n]) + [samples[n].at]
    ensures Values(samples[..n + 1]) == Values(samples[..n]) + [samples[n].value]
  {}

  method ParseSeries(item: Item, kind: Kind) returns (series: Option<Series>, issues: set<Issue>)
    ensures series == Parsed(item) && issues == SeriesIssues(item, kind)
  {
    hide ValueIssues, ScanIssues, Stepped, NonDecreasing;
    if item.samples.None? || |item.samples.value| != SAMPLE_COUNT || item.declaredCount != SAMPLE_COUNT {
      return None, {SampleCountMismatch};
    }
    var samples := item.samples.value;
    var times: seq<real>, values: seq<real> := [], [];
    issues := {};
    NothingScanned(kind);
    assert times == Times(samples[..0]) && values == Values(samples[..0]);
    for i := 0 to |samples|
      invariant Usable(samples[..i])
      invariant times == Times(samples[..i]) && values == Values(samples[..i])
      invariant issues == ScanIssues(samples[..i], kind)
    {
      ScanStep(samples, i, kind);
      match samples[i] {
        case Malformed => return None, issues + {SampleInvalid};
        case NonNumeric => return None, issues + {SampleNonNumeric};
        case NonFinite => return None, issues + {SampleNonFinite};
        case Point(at, value) =>
          UsableStep(samples, i);
          issues := issues + ValueIssues(value, kind);
          times, values := times + [at], values + [value];
      }
    }
    assert samples[..|samples|] == samples;
    series := Some(Series(times, values));
    if !Stepped(times) { issues := issues + {GridInvalid}; }
    if times[SAMPLE_COUNT - 1] - times[0] != SPAN { issues := issues + {WindowInvalid}; }
    if Monotonic(kind) && !NonDecreasing(values) { issues := issues + {OffsetDecrease}; }
  }

  lemma NothingScanned(kind: Kind)
    ensures ScanIssues([], kind) == {}
  {}

  // --------------------------------------------------------------- one family

  /** `_observe_dependency` for one item. */
  function ItemIssues(item: Item): set<Issue> {
    Unless(item.ok, EvidenceStatus)
    + Unless(item.recent, EvidenceNotFresh)
    + (set code | code in item.contract :: Contract(code))
    + Unless(item.sourceTime.Some?, SourceTimestampMissing)
    + Unless(item.raw.Some?, RawReferenceMissing)
  }

  /** The items whose series are read: status OK and a partition label. */
  function Labelled(items: seq<Item>): seq<Item> {
    if items == [] then []
    else
      var last := items[|items| - 1];
      Labelled(items[..|items| - 1]) + if last.ok && last.partition.Some? then [last] else []
  }

  /** What the loop over the items of a family adds for one of them. */
  function ReadIssues(item: Item, kind: Kind): set<Issue> {
    if !item.ok then {}
    else if item.partition.None? then {PartitionLabelMissing}
    else Unless(item.expected == PARTITIONS, CoverageContract) + SeriesIssues(item, kind)
  }

  predicate DistinctPartitions(items: seq<Item>) {
    forall i, j :: 0 <= i < j < |items| ==> items[i].partition != items[j].partition
  }

  function At(items: seq<Item>, p: string): Option<Item> {
    if items == [] then None
    else if items[|items| - 1].partition == Some(p) then Some(items[|items| - 1])
    else At(items[..|items| - 1], p)
  }

  /** The first readable item of each partition. */
  function Pick(items: seq<Item>, readable: Item -> bool): seq<Item> {
    if items == [] then []
    else
      var before, last := Pick(items[..|items| - 1], readable), items[|items| - 1];
      before + if last.partition.Some? && readable(last) && At(before, last.partition.value).None? then [last] else []
  }

  predicate Readable(item: Item) { item.ok && Parsed(item).Some? }

  function Chosen(items: seq<Item>): (chosen: seq<Item>)
    ensures forall x :: x in chosen ==> x in items && Readable(x) && x.partition.Some?
  {
    PickedAreReadable(items, Readable);
    Pick(items, Readable)
  }

  lemma {:induction false} PickedAreReadable(items: seq<Item>, readable: Item -> bool)
    ensures forall x :: x in Pick(items, readable) ==> x in items && readable(x) && x.partition.Some?
    decreases |items|
  {
    if items != [] {
      assert items == items[..|items| - 1] + [items[|items| - 1]];
      PickedAreReadable(items[..|items| - 1], readable);
    }
  }

  /** Checks over the whole family, from what its labelled items carry. */
  function FamilyChecks(items: seq<Item>): set<Issue> {
    var read := Labelled(items);
    var expectations := set x | x in read && x.expected != {} :: x.expected;
    Unless(DistinctPartitions(read), DuplicatePartition)
    + Unless(|set x | x in read :: x.exporter| == 1, ExporterMixed)
    + Unless(|set x | x in read && x.sourceTime.Some? :: x.sourceTime| == 1, SourceTimestampMixed)
    + Unless(|set x | x in read :: x.collectedAt| == 1, CollectionTimestampMixed)
    + Unless(|set x | x in read :: x.raw| == 1 && (forall x :: x in read ==> x.raw.Some?), RawSourceMixed)
    + Unless(|expectations| <= 1, ExpectationInconsistent)
    + Unless(|expectations| == 1 ==> Observed(read) in expectations, CoverageMismatch)
    + Unless(|set x | x in Chosen(items) :: Parsed(x).value.times| == 1, GridMismatch)
  }

  function Observed(items: seq<Item>): set<string> { set x | x in items && x.partition.Some? :: x.partition.value }

  function EachIssues(items: seq<Item>, kind: Kind): set<Issue> {
    if items == [] then {}
    else
      var last := items[|items| - 1];
      EachIssues(items[..|items| - 1], kind) + ItemIssues(last) + ReadIssues(last, kind)
  }

  /** All issues of one dependency on its own. */
  function FamilyIssues(items: seq<Item>, kind: Kind): set<Issue> {
    Unless(items != [], EvidenceMissing) + EachIssues(items, kind) + FamilyChecks(items)
  }

  lemma ReadStep(items: seq<Item>, n: nat, kind: Kind)
    requires n < |items|
    ensures EachIssues(items[..n + 1], kind) == EachIssues(items[..n], kind) + ItemIssues(items[n])
              + ReadIssues(items[n], kind)
    ensures var before, x := Pick(items[..n], Readable), items[n];
            Pick(items[..n + 1], Readable)
            == before + if x.partition.Some? && Readable(x) && At(before, x.partition.value).None? then [x] else []
  {
    hide ItemIssues, ReadIssues, At, Readable;
    assert items[..n + 1][..n] == items[..n];
  }

  method ReadFamily(items: seq<Item>, kind: Kind) returns (chosen: seq<Item>, issues: set<Issue>)
    ensures chosen == Chosen(items) && issues == FamilyIssues(items, kind)
  {
    hide FamilyChecks, Parsed, SeriesIssues, ItemIssues, EachIssues, Pick, At;
    ReadStart(kind);
    issues := if items == [] then {EvidenceMissing} else {};
    chosen := [];
    ghost var initial := issues;
    for i := 0 to |items|
      invariant chosen == Pick(items[..i], Readable)
      invariant issues == initial + EachIssues(items[..i], kind)
    {
      ReadStep(items, i, kind);
      var item := items[i];
      issues := issues + ItemIssues(item);
      if item.ok {
        if item.partition.None? {
          issues := issues + {PartitionLabelMissing};
        } else {
          if item.expected != PARTITIONS { issues := issues + {CoverageContract}; }
          var series, problems := ParseSeries(item, kind);
          issues := issues + problems;
          if series.Some? && At(chosen, item.partition.value).None? { chosen := chosen + [item]; }
        }
      }
    }
    assert items[..|items|] == items;
    issues := issues + FamilyChecks(items);
  }

  lemma ReadStart(kind: Kind)
    ensures EachIssues([], kind) == {} && Pick([], Readable) == []
  {}

  // --------------------------------------------------------------- the three families together

  /** The sample times and values of a readable item. */
  function Grid(x: Item): seq<real> { if Readable(x) then Parsed(x).value.times else [] }

  function ValueAt(x: Item, i: nat): real
    requires i < SAMPLE_COUNT
  {
    if Readable(x) then Parsed(x).value.values[i] else 0.0
  }

  /** Lag is end minus committed offset at every sample with an initialized offset. */
  predicate LagAgrees(e: Item, c: Item, l: Item) {
    forall i: nat :: i < SAMPLE_COUNT ==> ValueAt(c, i) == -1.0 || ValueAt(e, i) - ValueAt(c, i) == ValueAt(l, i)
  }

  predicate SameTimes(e: Item, c: Item, l: Item) { Grid(e) == Grid(c) == Grid(l) }

  predicate SamePartition(e: Item, c: Item, l: Item) { e.partition == c.partition == l.partition }

  predicate GridsAgree(es: seq<Item>, cs: seq<Item>, ls: seq<Item>) {
    forall e, c, l :: e in es && c in cs && l in ls && SamePartition(e, c, l) ==> SameTimes(e, c, l)
  }

  predicate LagsAgree(es: seq<Item>, cs: seq<Item>, ls: seq<Item>) {
    forall e, c, l :: e in es && c in cs && l in ls && SamePartition(e, c, l) && SameTimes(e, c, l) ==>
           LagAgrees(e, c, l)
  }

  predicate SamePartitions(es: seq<Item>, cs: seq<Item>, ls: seq<Item>) { Observed(es) == Observed(cs) == Observed(ls) }

  function SetIssues(es: seq<Item>, cs: seq<Item>, ls: seq<Item>): set<Issue> {
    Unless(es != [] && cs != [] && ls != [] ==> SamePartitions(es, cs, ls), FamilySetMismatch)
    + Unless(|set x | x in es + cs + ls :: x.exporter| == 1, FamilyExporterMismatch)
    + Unless(|set x | x in es + cs + ls && x.sourceTime.Some? :: x.sourceTime| == 1, FamilySourceMismatch)
  }

  function PairIssues(es: seq<Item>, cs: seq<Item>, ls: seq<Item>): set<Issue> {
    if !SamePartitions(es, cs, ls) then {}
    else
      Unless(GridsAgree(es, cs, ls), FamilyGridMismatch)
      + Unless(LagsAgree(es, cs, ls), LagArithmetic)
  }

  function CrossIssues(b: Bundle): set<Issue> {
    var es, cs, ls := Chosen(b.end), Chosen(b.committed), Chosen(b.lag);
    SetIssues(es, cs, ls) + PairIssues(es, cs, ls)
  }

  /** What CORE_BACKLOG_PRESSURE records over its three dependencies. */
  function CoreIssues(b: Bundle): set<Issue> {
    FamilyIssues(b.end, EndOffset) + FamilyIssues(b.committed, CommittedOffset) + FamilyIssues(b.lag, Lag)
      + CrossIssues(b)
  }

  datatype ConditionState = Present | Absent | Unknown

  function TotalAt(items: seq<Item>, i: nat): real
    requires i < SAMPLE_COUNT
  {
    if items == [] then 0.0 else TotalAt(items[..|items| - 1], i) + ValueAt(items[|items| - 1], i)
  }

  predicate ZeroTotal(items: seq<Item>, i: nat)
    requires i < SAMPLE_COUNT
  {
    TotalAt(items, i) == 0.0
  }

  predicate WindowAllZero(items: seq<Item>) { forall i: nat :: i < SAMPLE_COUNT ==> ZeroTotal(items, i) }

  function CoreState(b: Bundle): ConditionState {
    if CoreIssues(b) != {} then Unknown else if WindowAllZero(Chosen(b.lag)) then Absent else Unknown
  }

  function Max(items: seq<Item>, n: nat): real
    requires 0 < n <= SAMPLE_COUNT
  {
    if n == 1 then TotalAt(items, 0)
    else
      var before, last := Max(items, n - 1), TotalAt(items, n - 1);
      if before >= last then before else last
  }

  /** PARTITION_LAG_CONCENTRATION_OBSERVED reads the lag family only. */
  function ConcentrationState(b: Bundle): ConditionState {
    if FamilyIssues(b.lag, Lag) != {} then Unknown
    else if Max(Chosen(b.lag), SAMPLE_COUNT) == 0.0 then Absent else Unknown
  }

  /** NO_BACKLOG_PRESSURE_DETECTED. */
  function NoBacklog(core: ConditionState, concentration: ConditionState): ConditionState {
    if core == Absent && concentration == Absent then Present
    else if core == Present || concentration == Present then Absent
    else Unknown
  }

  /** The labels in the order in which they are visited, each once. */
  predicate Orders(order: seq<string>, labels: set<string>) {
    (forall i, j :: 0 <= i < j < |order| ==> order[i] != order[j]) && (set p | p in order) == labels
  }

  predicate TimesAt(es: seq<Item>, cs: seq<Item>, ls: seq<Item>, p: string) {
    At(es, p).Some? && At(cs, p).Some? && At(ls, p).Some? ==>
      SameTimes(At(es, p).value, At(cs, p).value, At(ls, p).value)
  }

  predicate LagsAt(es: seq<Item>, cs: seq<Item>, ls: seq<Item>, p: string) {
    At(es, p).Some? && At(cs, p).Some? && At(ls, p).Some? && TimesAt(es, cs, ls, p)
    ==> LagAgrees(At(es, p).value, At(cs, p).value, At(ls, p).value)
  }

  /** One item per partition, as in a dictionary of series. */
  predicate Keyed(items: seq<Item>) { DistinctPartitions(items) && forall x :: x in items ==> x.partition.Some? }

  lemma {:induction false} KeyedAt(items: seq<Item>, x: Item)
    requires Keyed(items) && x in items
    ensures At(items, x.partition.value) == Some(x)
    decreases |items|
  {
    var front, last := items[..|items| - 1], items[|items| - 1];
    assert items == front + [last];
    if x != last {
      var i :| 0 <= i < |front| && front[i] == x;
      assert items[i].partition != last.partition;
      KeyedAt(front, x);
    }
  }

  lemma {:induction false} PickIsKeyed(items: seq<Item>, readable: Item -> bool)
    ensures Keyed(Pick(items, readable))
    decreases |items|
  {
    hide Keyed;
    if items == [] {
      assert Keyed([]) by { NoneAreKeyed(); }
    } else {
      var before, last := Pick(items[..|items| - 1], readable), items[|items| - 1];
      PickIsKeyed(items[..|items| - 1], readable);
      assert before + [] == before;
      if last.partition.Some? && At(before, last.partition.value).None? { KeyedSnoc(before, last); }
    }
  }

  lemma NoneAreKeyed()
    ensures Keyed([])
  {}

  lemma KeyedSnoc(items: seq<Item>, x: Item)
    requires Keyed(items) && x.partition.Some? && At(items, x.partition.value).None?
    ensures Keyed(items + [x])
  {
    hide At;
    AtMeans(items, x.partition.value);
    forall i | 0 <= i < |items| ensures items[i].partition != x.partition { assert items[i] in items; }
  }

  lemma PairsByPartition(es: seq<Item>, cs: seq<Item>, ls: seq<Item>, order: seq<string>)
    requires Keyed(es) && Keyed(cs) && Keyed(ls) && SamePartitions(es, cs, ls) && Orders(order, Observed(es))
    ensures GridsAgree(es, cs, ls) <==> forall p :: p in order ==> TimesAt(es, cs, ls, p)
    ensures LagsAgree(es, cs, ls) <==> forall p :: p in order ==> LagsAt(es, cs, ls, p)
  {
    hide SameTimes, LagAgrees, At, DistinctPartitions;
    forall p | p in order
      ensures GridsAgree(es, cs, ls) ==> TimesAt(es, cs, ls, p)
      ensures LagsAgree(es, cs, ls) ==> LagsAt(es, cs, ls, p)
    {
      AtMeans(es, p);
      AtMeans(cs, p);
      AtMeans(ls, p);
    }
    forall e, c, l | e in es && c in cs && l in ls && SamePartition(e, c, l)
      ensures e.partition.value in order
      ensures TimesAt(es, cs, ls, e.partition.value) ==> SameTimes(e, c, l)
      ensures LagsAt(es, cs, ls, e.partition.value) && SameTimes(e, c, l) ==> LagAgrees(e, c, l)
    {
      assert e.partition.value in Observed(es);
      KeyedAt(es, e);
      KeyedAt(cs, c);
      KeyedAt(ls, l);
    }
  }

  method CompareLags(e: Item, c: Item, l: Item) returns (agree: bool)
    ensures agree == LagAgrees(e, c, l)
  {
    hide ValueAt;
    agree := true;
    for i := 0 to SAMPLE_COUNT
      invariant agree <==>
                  forall j: nat :: j < i ==> ValueAt(c, j) == -1.0 || ValueAt(e, j) - ValueAt(c, j) == ValueAt(l, j)
    {
      if ValueAt(c, i) != -1.0 {
        if ValueAt(e, i) - ValueAt(c, i) != ValueAt(l, i) { agree := false; }
      }
    }
  }

  /** The comparison of the three families, partition by partition and sample by sample. */
  method ComparePairs(es: seq<Item>, cs: seq<Item>, ls: seq<Item>, order: seq<string>) returns (issues: set<Issue>)
    requires Keyed(es) && Keyed(cs) && Keyed(ls) && Orders(order, Observed(es))
    ensures issues == PairIssues(es, cs, ls)
  {
    hide SameTimes, LagAgrees, TimesAt, LagsAt, Keyed, Observed, GridsAgree, LagsAgree;
    issues := {};
    if SamePartitions(es, cs, ls) {
      for i := 0 to |order|
        invariant issues == Unless(forall p :: p in order[..i] ==> TimesAt(es, cs, ls, p), FamilyGridMismatch)
                            + Unless(forall p :: p in order[..i] ==> LagsAt(es, cs, ls, p), LagArithmetic)
      {
        var p := order[i];
        assert order[..i + 1] == order[..i] + [p];
        PairAt(es, cs, ls, p, order);
        var e, c, l := At(es, p).value, At(cs, p).value, At(ls, p).value;
        if !SameTimes(e, c, l) {
          issues := issues + {FamilyGridMismatch};
        } else {
          var agree := CompareLags(e, c, l);
          if !agree { issues := issues + {LagArithmetic}; }
        }
      }
      assert order[..|order|] == order;
      PairsByPartition(es, cs, ls, order);
    }
  }

  lemma PairAt(es: seq<Item>, cs: seq<Item>, ls: seq<Item>, p: string, order: seq<string>)
    requires SamePartitions(es, cs, ls) && Orders(order, Observed(es)) && p in order
    ensures At(es, p).Some? && At(cs, p).Some? && At(ls, p).Some?
    ensures var e, c, l := At(es, p).value, At(cs, p).value, At(ls, p).value;
            && (TimesAt(es, cs, ls, p) <==> SameTimes(e, c, l))
            && (LagsAt(es, cs, ls, p) <==> (SameTimes(e, c, l) ==> LagAgrees(e, c, l)))
  {
    hide SameTimes, LagAgrees;
    AtMeans(es, p);
    AtMeans(cs, p);
    AtMeans(ls, p);
  }

  method TotalLagIsZero(items: seq<Item>) returns (zero: bool)
    ensures zero == WindowAllZero(items)
  {
    hide ZeroTotal;
    zero := true;
    for i := 0 to SAMPLE_COUNT
      invariant zero <==> forall j: nat :: j < i ==> ZeroTotal(items, j)
    {
      if !ZeroTotal(items, i) { zero := false; }
    }
  }

  /** `_evaluate_core_backlog`; order is the sorted labels of the end offset series. */
  method EvaluateCore(b: Bundle, order: seq<string>) returns (state: ConditionState, issues: set<Issue>)
    requires Orders(order, Observed(Chosen(b.end)))
    ensures issues == CoreIssues(b) && state == CoreState(b)
  {
    hide Chosen, FamilyIssues, SetIssues, PairIssues, WindowAllZero, Keyed;
    var es, endIssues := ReadFamily(b.end, EndOffset);
    var cs, committedIssues := ReadFamily(b.committed, CommittedOffset);
    var ls, lagIssues := ReadFamily(b.lag, Lag);
    ChosenIsKeyed(b.end);
    ChosenIsKeyed(b.committed);
    ChosenIsKeyed(b.lag);
    var pairs := ComparePairs(es, cs, ls, order);
    issues := endIssues + committedIssues + lagIssues + (SetIssues(es, cs, ls) + pairs);
    var zero := TotalLagIsZero(ls);
    state := if issues == {} && zero then Absent else Unknown;
  }

  lemma ChosenIsKeyed(items: seq<Item>)
    ensures Keyed(Chosen(items))
  {
    PickIsKeyed(items, Readable);
  }

  lemma {:induction false} MaxOfZeros(items: seq<Item>, n: nat)
    requires 0 < n <= SAMPLE_COUNT && WindowAllZero(items)
    ensures Max(items, n) == 0.0
  {
    hide TotalAt;
    assert ZeroTotal(items, n - 1);
    if n > 1 { MaxOfZeros(items, n - 1); }
  }

  /**
   CORE is never PRESENT, its absence forces that of CONCENTRATION; NO_BACKLOG is PRESENT exactly then, never ABSENT.
   */
  lemma NoBacklogExactlyWhenCoreAbsent(b: Bundle)
    ensures CoreState(b) != Present && ConcentrationState(b) != Present
    ensures CoreState(b) == Absent ==> ConcentrationState(b) == Absent
    ensures NoBacklog(CoreState(b), ConcentrationState(b)) == if CoreState(b) == Absent then Present else Unknown
  {
    hide FamilyIssues, CrossIssues, TotalAt, Max, Chosen;
    if CoreState(b) == Absent { MaxOfZeros(Chosen(b.lag), SAMPLE_COUNT); }
  }

  // --------------------------------------------------------------- what an issue-free family looks like

  /** Exactly one usable, fresh, checked item for every expected partition. */
  ghost predicate CleanFamily(items: seq<Item>, kind: Kind) {
    && DistinctPartitions(items) && Observed(items) == PARTITIONS
    && (forall x :: x in items ==> CleanItem(x, kind))
  }

  ghost predicate CleanItem(x: Item, kind: Kind) {
    && x.ok && x.recent && x.partition.Some? && CountsMatch(x) && Usable(x.samples.value)
    && Stepped(Times(x.samples.value)) && x.samples.value[SAMPLE_COUNT - 1].at - x.samples.value[0].at == SPAN
    && (Monotonic(kind) ==> NonDecreasing(Values(x.samples.value)))
    && (forall i :: 0 <= i < SAMPLE_COUNT ==> x.samples.value[i].value >= 0.0 && Integral(x.samples.value[i].value))
  }

  lemma {:induction false} ScanClean(samples: seq<Sample>, kind: Kind)
    requires ScanIssues(samples, kind) == {}
    ensures forall i :: 0 <= i < |samples| ==>
              samples[i].Point? && samples[i].value >= 0.0 && Integral(samples[i].value)
    decreases |samples|
  {
    if samples != [] {
      assert samples[0].Point?;
      assert ValueIssues(samples[0].value, kind) !! {NonIntegral, Negative, Uninitialized};
      ScanClean(samples[1..], kind);
      assert forall i :: 0 < i < |samples| ==> samples[i] == samples[1..][i - 1];
    }
  }

  lemma ItemClean(x: Item, kind: Kind)
    requires ItemIssues(x) == {} && ReadIssues(x, kind) == {}
    ensures CleanItem(x, kind) && x.expected == PARTITIONS
  {
    assert EvidenceStatus !in ItemIssues(x) && EvidenceNotFresh !in ItemIssues(x);
    assert PartitionLabelMissing !in ReadIssues(x, kind) && CoverageContract !in ReadIssues(x, kind);
    assert SeriesIssues(x, kind) == {};
    assert SampleCountMismatch !in SeriesIssues(x, kind);
    ScanClean(x.samples.value, kind);
    var issues := SeriesIssues(x, kind);
    assert GridInvalid !in issues && WindowInvalid !in issues && OffsetDecrease !in issues;
  }

  lemma {:induction false} EachClean(items: seq<Item>, kind: Kind)
    requires EachIssues(items, kind) == {}
    ensures forall x :: x in items ==> CleanItem(x, kind) && x.expected == PARTITIONS
    ensures Labelled(items) == items
    decreases |items|
  {
    hide CleanItem, ItemIssues, ReadIssues, CountsMatch, Parsed, Readable, PARTITIONS;
    if items != [] {
      var front, last := items[..|items| - 1], items[|items| - 1];
      EachClean(front, kind);
      ItemClean(last, kind);
      CleanIsLabelled(last, kind);
      assert items == front + [last];
    }
  }

  lemma CleanIsLabelled(x: Item, kind: Kind)
    requires CleanItem(x, kind)
    ensures x.ok && x.partition.Some? && Readable(x)
  {}

  lemma FamilyClean(items: seq<Item>, kind: Kind)
    requires FamilyIssues(items, kind) == {}
    ensures CleanFamily(items, kind)
  {
    hide CleanItem, EachIssues, Pick, Parsed, DistinctPartitions, Labelled;
    EachClean(items, kind);
    var checks := FamilyChecks(items);
    assert EvidenceMissing !in FamilyIssues(items, kind);
    assert DuplicatePartition !in checks && CoverageMismatch !in checks;
    assert items[0] in items;
    var expectations := set x | x in items && x.expected != {} :: x.expected;
    assert "0" in PARTITIONS;
    assert PARTITIONS in expectations;
    assert expectations == {PARTITIONS};
  }

  /** In a clean family every selection rule picks all items. */
  lemma {:induction false} PickAll(items: seq<Item>, readable: Item -> bool)
    requires DistinctPartitions(items) && forall x :: x in items ==> x.partition.Some? && readable(x)
    ensures Pick(items, readable) == items
    decreases |items|
  {
    if items != [] {
      var front, last := items[..|items| - 1], items[|items| - 1];
      assert items == front + [last];
      PickAll(front, readable);
      AtMeans(front, last.partition.value);
      forall x | x in front ensures x.partition != last.partition {
        var i :| 0 <= i < |front| && front[i] == x;
        assert items[i].partition != last.partition;
      }
      assert last.partition.value !in Observed(front);
    }
  }

  lemma {:induction false} AtMeans(items: seq<Item>, p: string)
    ensures At(items, p).Some? <==> p in Observed(items)
    ensures At(items, p).Some? ==> At(items, p).value in items && At(items, p).value.partition == Some(p)
    decreases |items|
  {
    if items != [] {
      var front, last := items[..|items| - 1], items[|items| - 1];
      assert items == front + [last];
      AtMeans(front, p);
    }
  }

  ghost predicate ZeroAt(items: seq<Item>, i: nat)
    requires i < SAMPLE_COUNT
  {
    forall x :: x in items ==> ValueAt(x, i) == 0.0
  }

  ghost predicate NonNegative(items: seq<Item>, i: nat)
    requires i < SAMPLE_COUNT
  {
    forall x :: x in items ==> ValueAt(x, i) >= 0.0
  }

  /** Non-negative values sum to zero exactly when all of them are zero. */
  lemma {:induction false} ZeroTotalMeansAllZero(items: seq<Item>, i: nat)
    requires i < SAMPLE_COUNT && NonNegative(items, i)
    ensures TotalAt(items, i) >= 0.0
    ensures TotalAt(items, i) == 0.0 <==> ZeroAt(items, i)
    decreases |items|
  {
    hide ValueAt;
    if items != [] {
      var front, last := items[..|items| - 1], items[|items| - 1];
      assert items == front + [last];
      ZeroTotalMeansAllZero(front, i);
    }
  }

  lemma CoreIsClean(b: Bundle)
    requires CoreIssues(b) == {}
    ensures CleanFamily(b.end, EndOffset) && CleanFamily(b.committed, CommittedOffset) && CleanFamily(b.lag, Lag)
    ensures Chosen(b.end) == b.end && Chosen(b.committed) == b.committed && Chosen(b.lag) == b.lag
  {
    hide FamilyIssues, CrossIssues, CleanItem, Pick;
    FamilyClean(b.end, EndOffset);
    FamilyClean(b.committed, CommittedOffset);
    FamilyClean(b.lag, Lag);
    ChosenAll(b.end, EndOffset);
    ChosenAll(b.committed, CommittedOffset);
    ChosenAll(b.lag, Lag);
  }

  lemma ChosenAll(items: seq<Item>, kind: Kind)
    requires CleanFamily(items, kind)
    ensures Chosen(items) == items
  {
    hide CleanItem, Parsed;
    forall x | x in items ensures x.partition.Some? && Readable(x) { CleanIsLabelled(x, kind); }
    PickAll(items, Readable);
  }

  lemma CleanValue(x: Item, kind: Kind, i: nat)
    requires CleanItem(x, kind) && i < SAMPLE_COUNT
    ensures ValueAt(x, i) == x.samples.value[i].value && ValueAt(x, i) >= 0.0 && Integral(ValueAt(x, i))
  {}

  ghost predicate NoLag(items: seq<Item>) { forall i: nat :: i < SAMPLE_COUNT ==> ZeroAt(items, i) }

  lemma NoLagMeansZeroWindow(items: seq<Item>, kind: Kind)
    requires CleanFamily(items, kind)
    ensures WindowAllZero(items) <==> NoLag(items)
  {
    hide TotalAt, ValueAt, CleanItem, ZeroAt;
    forall i: nat | i < SAMPLE_COUNT
      ensures ZeroTotal(items, i) <==> ZeroAt(items, i)
    {
      forall x | x in items ensures ValueAt(x, i) >= 0.0 { CleanValue(x, kind, i); }
      ZeroTotalMeansAllZero(items, i);
    }
  }

  /** CORE_BACKLOG_PRESSURE is ABSENT exactly when nothing is wrong and no partition has any lag at any sample. */
  lemma AbsentMeansNoLag(b: Bundle)
    ensures CoreState(b) == Absent <==> CoreIssues(b) == {} && NoLag(b.lag)
  {
    hide CoreIssues, Chosen, CleanFamily, NoLag, WindowAllZero;
    if CoreIssues(b) == {} {
      CoreIsClean(b);
      NoLagMeansZeroWindow(b.lag, Lag);
    }
  }

  lemma CleanAt(items: seq<Item>, kind: Kind, p: string)
    requires CleanFamily(items, kind) && p in PARTITIONS
    ensures At(items, p).Some? && At(items, p).value in items && At(items, p).value.partition == Some(p)
    ensures CleanItem(At(items, p).value, kind)
  {
    hide CleanItem, Parsed, At;
    AtMeans(items, p);
  }

  lemma CoreAgrees(b: Bundle, e: Item, c: Item, l: Item)
    requires CoreIssues(b) == {} && e in b.end && c in b.committed && l in b.lag && SamePartition(e, c, l)
    ensures SameTimes(e, c, l) && LagAgrees(e, c, l)
  {
    hide FamilyIssues, Chosen, CleanItem, SetIssues, SamePartition, SameTimes, LagAgrees, DistinctPartitions, Observed;
    CoreIsClean(b);
    assert SamePartitions(b.end, b.committed, b.lag);
    var pairs := PairIssues(b.end, b.committed, b.lag);
    assert pairs <= CrossIssues(b);
    assert FamilyGridMismatch !in pairs && LagArithmetic !in pairs;
  }

  /**
   The three series of a partition in an issue-free bundle: one time grid, and lag is end minus committed throughout.
   */
  lemma PartitionAgrees(b: Bundle, p: string)
    requires CoreIssues(b) == {} && p in PARTITIONS
    ensures At(b.end, p).Some? && At(b.committed, p).Some? && At(b.lag, p).Some?
    ensures var e, c, l := At(b.end, p).value, At(b.committed, p).value, At(b.lag, p).value;
            && CleanItem(e, EndOffset) && CleanItem(c, CommittedOffset) && CleanItem(l, Lag) && SameTimes(e, c, l)
            && forall i: nat :: i < SAMPLE_COUNT ==> ValueAt(e, i) - ValueAt(c, i) == ValueAt(l, i)
  {
    hide CoreIssues, Chosen, CleanFamily, CleanItem, SameTimes, ValueAt, At;
    CoreIsClean(b);
    CleanAt(b.end, EndOffset, p);
    CleanAt(b.committed, CommittedOffset, p);
    CleanAt(b.lag, Lag, p);
    var e, c, l := At(b.end, p).value, At(b.committed, p).value, At(b.lag, p).value;
    CoreAgrees(b, e, c, l);
    forall i: nat | i < SAMPLE_COUNT ensures ValueAt(e, i) - ValueAt(c, i) == ValueAt(l, i) {
      CleanValue(c, CommittedOffset, i);
    }
  }
}
