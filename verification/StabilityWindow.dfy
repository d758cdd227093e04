/**
 The online stability check of ops_agent/experiment_validation.py.

 `RecoveryWindow` keeps three fields; it is proved to answer as if it inspected every sample it ever saw.
 Times are integers and `maxGap`, `seconds` are in the same unit.
 */
module StabilityWindow {
  import opened Prelude

  datatype Container = Container(name: string, ready: bool, restartCount: Option<int>)
  datatype Pod = Pod(name: string, uid: string, containers: seq<Container>)
  datatype ContainerId = ContainerId(pod: string, uid: string, container: string, restartCount: Option<int>)

  // The source sorts its identity list, so only the multiset matters.
  type Identity = multiset<ContainerId>

  datatype Scope = Scope(expected: set<string>, primaryName: string, primaryUid: string, primaryRestarts: int)

  /** What one observation contributes. */
  datatype Sample = Sample(healthy: bool, identity: Identity, at: int)

  datatype Report = Report(healthy: bool, gap: Option<int>, cadenceValid: bool, elapsed: int, complete: bool)

  // --------------------------------------------------------------- one sample

  predicate PodHealthy(pod: Pod) {
    && pod.uid != "" && pod.containers != []
    && (forall k :: 0 <= k < |pod.containers| ==> pod.containers[k].ready && pod.containers[k].restartCount.Some?)
  }

  ghost predicate Healthy(scope: Scope, pods: seq<Pod>, httpStatus: int, ready: bool) {
    && |pods| == |scope.expected|
    && Names(pods) == scope.expected
    && (forall pod :: pod in pods ==> PodHealthy(pod))
    && PrimaryHealthy(scope, pods)
    && httpStatus == 200 && ready
  }

  ghost predicate PrimaryHealthy(scope: Scope, pods: seq<Pod>) {
    && (exists i :: 0 <= i < |pods| && IsPrimary(scope, pods[i]))
    && (forall i :: 0 <= i < |pods| && pods[i].name == scope.primaryName ==> IsPrimary(scope, pods[i]))
  }

  predicate IsPrimary(scope: Scope, pod: Pod) {
    && pod.name == scope.primaryName && pod.uid == scope.primaryUid
    && |pod.containers| == 1 && pod.containers[0].restartCount == Some(scope.primaryRestarts)
  }

  function ContainerIds(pod: Pod): seq<ContainerId> {
    seq(|pod.containers|, k requires 0 <= k < |pod.containers| =>
      ContainerId(pod.name, pod.uid, pod.containers[k].name, pod.containers[k].restartCount))
  }

  function ListedIds(pods: seq<Pod>): seq<ContainerId> {
    if pods == [] then [] else ListedIds(pods[..|pods| - 1]) + ContainerIds(pods[|pods| - 1])
  }

  function IdentityOf(pods: seq<Pod>): Identity { multiset(ListedIds(pods)) }

  ghost function SampleOf(scope: Scope, pods: seq<Pod>, httpStatus: int, ready: bool, at: int): Sample {
    Sample(Healthy(scope, pods, httpStatus, ready), IdentityOf(pods), at)
  }

  function Names(pods: seq<Pod>): set<string> { set pod | pod in pods :: pod.name }

  lemma {:induction false} NameCount(pods: seq<Pod>)
    ensures |Names(pods)| <= |pods|
    ensures pods != [] ==> Names(pods) == Names(pods[..|pods| - 1]) + {pods[|pods| - 1].name}
    decreases |pods|
  {
    if pods != [] {
      var front, last := pods[..|pods| - 1], pods[|pods| - 1];
      assert pods == front + [last];
      NameCount(front);
      assert forall pod :: pod in pods <==> pod in front || pod == last;
      assert Names(pods) == Names(front) + {last.name};
    }
  }

  /** The identity lists every container with its pod's name and uid and its own name and restart count. */
  lemma {:induction false} IdentityMeans(pods: seq<Pod>, id: ContainerId)
    ensures id in IdentityOf(pods) <==>
              exists pod, c :: pod in pods && c in pod.containers
                               && id == ContainerId(pod.name, pod.uid, c.name, c.restartCount)
    decreases |pods|
  {
    if pods != [] {
      var front, last := pods[..|pods| - 1], pods[|pods| - 1];
      IdentityMeans(front, id);
      assert pods == front + [last];
      assert id in IdentityOf(pods) <==> id in IdentityOf(front) || id in ContainerIds(last);
      if pod, c :| pod in pods && c in pod.containers && id == ContainerId(pod.name, pod.uid, c.name, c.restartCount) {
        if pod == last {
          var k :| 0 <= k < |last.containers| && last.containers[k] == c;
          assert ContainerIds(last)[k] == id;
        }
      }
      if id in ContainerIds(last) {
        var k :| 0 <= k < |ContainerIds(last)| && ContainerIds(last)[k] == id;
        assert last.containers[k] in last.containers;
      }
    }
  }

  /** Two observations with one identity agree on the uid and the restart count of every container of a listed pod. */
  lemma ChangeIsNoticed(pods: seq<Pod>, later: seq<Pod>, pod: Pod, c: Container)
    requires pod in pods && c in pod.containers
    requires forall p, d :: p in later && d in p.containers && p.name == pod.name && d.name == c.name ==>
               p.uid != pod.uid || d.restartCount != c.restartCount
    ensures IdentityOf(later) != IdentityOf(pods)
  {
    var id := ContainerId(pod.name, pod.uid, c.name, c.restartCount);
    IdentityMeans(pods, id);
    IdentityMeans(later, id);
    hide IdentityOf;
  }

  /** A repeated name leaves fewer names than pods, so full coverage makes names unique. */
  lemma {:induction false} RepeatedName(pods: seq<Pod>, i: nat, j: nat)
    requires i < j < |pods| && pods[i].name == pods[j].name
    ensures |Names(pods)| < |pods|
    decreases |pods|
  {
    var front := pods[..|pods| - 1];
    NameCount(pods);
    NameCount(front);
    if j < |front| {
      RepeatedName(front, i, j);
    } else {
      assert front[i] in front;
      assert Names(pods) == Names(front);
    }
  }

  lemma FirstPrimaryDecides(scope: Scope, pods: seq<Pod>, first: nat)
    requires first <= |pods| && (first < |pods| ==> pods[first].name == scope.primaryName)
    requires forall k :: 0 <= k < first ==> pods[k].name != scope.primaryName
    ensures |pods| == |scope.expected| && Names(pods) == scope.expected ==>
              (first < |pods| && IsPrimary(scope, pods[first]) <==> PrimaryHealthy(scope, pods))
  {
    if exists i, j :: 0 <= i < j < |pods| && pods[i].name == pods[j].name {
      var i, j :| 0 <= i < j < |pods| && pods[i].name == pods[j].name;
      RepeatedName(pods, i, j);
    }
  }

  // --------------------------------------------------------------- the whole past

  /** From sample `k` on, everything is healthy, the same, and sampled without a gap. */
  ghost predicate Stable(h: seq<Sample>, k: nat, maxGap: int) {
    && k < |h|
    && (forall j :: k <= j < |h| ==> h[j].healthy && h[j].identity == h[k].identity)
    && (forall j :: k < j < |h| ==> 0 < h[j].at - h[j - 1].at <= maxGap)
  }

  ghost predicate StableSince(h: seq<Sample>, k: nat, maxGap: int) {
    Stable(h, k, maxGap) && forall i :: 0 <= i < k ==> !Stable(h, i, maxGap)
  }

  /** The samples of a stable stretch cannot be further apart than their number allows. */
  lemma {:induction false} StableSpan(h: seq<Sample>, k: nat, j: nat, maxGap: int)
    requires Stable(h, k, maxGap) && k <= j < |h|
    ensures j - k <= h[j].at - h[k].at <= (j - k) * maxGap
    decreases j - k
  {
    if k < j { StableSpan(h, k, j - 1, maxGap); }
  }

  lemma StableFront(h: seq<Sample>, next: Sample, k: nat, maxGap: int)
    ensures Stable(h + [next], k, maxGap) <==>
              (k == |h| && next.healthy)
              || (Stable(h, k, maxGap) && next.healthy && next.identity == h[|h| - 1].identity
                  && 0 < next.at - h[|h| - 1].at <= maxGap)
  {
    var g := h + [next];
    assert g[|h|] == next && forall j :: 0 <= j < |h| ==> g[j] == h[j];
    if k < |h| {
      if Stable(g, k, maxGap) {
        forall j | k < j < |h| ensures 0 < h[j].at - h[j - 1].at <= maxGap {
          assert 0 < g[j].at - g[j - 1].at <= maxGap;
        }
      }
      if Stable(h, k, maxGap) && next.healthy && next.identity == h[|h| - 1].identity
          && 0 < next.at - h[|h| - 1].at <= maxGap {
        forall j | k < j < |g| ensures 0 < g[j].at - g[j - 1].at <= maxGap {
          if j < |h| { assert 0 < h[j].at - h[j - 1].at <= maxGap; }
        }
      }
    }
  }

  /** `started` is the time from which the past is stable without interruption. */
  ghost predicate Starts(h: seq<Sample>, maxGap: int, started: Option<int>) {
    match started
    case None => forall k: nat :: !Stable(h, k, maxGap)
    case Some(at) => exists k: nat :: StableSince(h, k, maxGap) && h[k].at == at
  }

  /** Continuing or restarting the stretch keeps `started` the least stable sample's time. */
  lemma StartsStep(h: seq<Sample>, next: Sample, maxGap: int, started: Option<int>)
    requires Starts(h, maxGap, started)
    ensures var continues := h != [] && next.identity == h[|h| - 1].identity && 0 < next.at - h[|h| - 1].at <= maxGap;
            Starts(h + [next], maxGap,
                   if !next.healthy then None else if continues && started.Some? then started else Some(next.at))
  {
    var g := h + [next];
    var continues := h != [] && next.identity == h[|h| - 1].identity && 0 < next.at - h[|h| - 1].at <= maxGap;
    forall k: nat
      ensures Stable(g, k, maxGap) <==>
                (k == |h| && next.healthy) || (Stable(h, k, maxGap) && next.healthy && continues)
    {
      StableFront(h, next, k, maxGap);
    }
    if next.healthy {
      if continues && started.Some? {
        var k: nat :| StableSince(h, k, maxGap) && h[k].at == started.value;
        assert StableSince(g, k, maxGap);
      } else {
        assert StableSince(g, |h|, maxGap);
      }
    }
  }

  lemma StartsSpans(h: seq<Sample>, maxGap: int, started: Option<int>, seconds: int)
    requires h != [] && Starts(h, maxGap, started)
    ensures h[|h| - 1].healthy <==> started.Some?
    ensures (exists k: nat :: Stable(h, k, maxGap) && h[|h| - 1].at - h[k].at >= seconds)
       <==> started.Some? && h[|h| - 1].at - started.value >= seconds
  {
    StableFront(h[..|h| - 1], h[|h| - 1], |h| - 1, maxGap);
    assert h == h[..|h| - 1] + [h[|h| - 1]];
    if started.Some? {
      var since: nat :| StableSince(h, since, maxGap) && h[since].at == started.value;
      forall k: nat | Stable(h, k, maxGap) ensures h[since].at <= h[k].at {
        StableSpan(h, since, k, maxGap);
      }
    }
  }

  /** A complete window holds at least `seconds / maxGap`, rounded up, plus one samples. */
  lemma CompleteNeedsSamples(h: seq<Sample>, k: nat, maxGap: int, seconds: int)
    requires Stable(h, k, maxGap) && h[|h| - 1].at - h[k].at >= seconds
    ensures (|h| - k - 1) * maxGap >= seconds
    ensures maxGap == 21 && seconds == 180 ==> |h| - k >= 10
  {
    StableSpan(h, k, |h| - 1, maxGap);
  }

  class RecoveryWindow {
    const scope: Scope
    const seconds: int
    const maxGap: int
    var started: Option<int>
    var last: Option<int>
    var identity: Option<Identity>
    ghost var history: seq<Sample>

    ghost predicate Valid()
      reads this
    {
      && scope.primaryName in scope.expected
      && last == (if history == [] then None else Some(history[|history| - 1].at))
      && identity == (if history == [] then None else Some(history[|history| - 1].identity))
      && Starts(history, maxGap, started)
    }

    constructor (scope: Scope, seconds: int, maxGap: int)
      requires scope.primaryName in scope.expected
      ensures Valid() && history == []
      ensures this.scope == scope && this.seconds == seconds && this.maxGap == maxGap
    {
      this.scope, this.seconds, this.maxGap := scope, seconds, maxGap;
      started, last, identity, history := None, None, None, [];
    }

    method InspectPod(pod: Pod) returns (healthy: bool, ids: seq<ContainerId>)
      ensures healthy <==> PodHealthy(pod)
      ensures ids == ContainerIds(pod)
    {
      healthy := pod.uid != "" && pod.containers != []
        && forall k :: 0 <= k < |pod.containers| ==> pod.containers[k].ready;
      var counted := true;
      ids := [];
      for n := 0 to |pod.containers|
        invariant counted <==> forall k :: 0 <= k < n ==> pod.containers[k].restartCount.Some?
        invariant ids == ContainerIds(pod)[..n]
      {
        var c := pod.containers[n];
        counted := counted && c.restartCount.Some?;
        ids := ids + [ContainerId(pod.name, pod.uid, c.name, c.restartCount)];
      }
      healthy := healthy && counted;
    }

    method Inspect(pods: seq<Pod>, httpStatus: int, ready: bool) returns (healthy: bool, identity: Identity)
      ensures healthy <==> Healthy(scope, pods, httpStatus, ready)
      ensures identity == IdentityOf(pods)
    {
      hide PodHealthy, ContainerIds, PrimaryHealthy;
      var covered := |pods| == |scope.expected| && Names(pods) == scope.expected;
      healthy := covered;
      var ids: seq<ContainerId> := [];
      for i := 0 to |pods|
        invariant healthy <==> covered && forall k :: 0 <= k < i ==> PodHealthy(pods[k])
        invariant ids == ListedIds(pods[..i])
      {
        assert pods[..i + 1][..i] == pods[..i];
        var podHealthy, podIds := InspectPod(pods[i]);
        healthy := healthy && podHealthy;
        ids := ids + podIds;
      }
      assert pods[..|pods|] == pods;
      var primaryHealthy := InspectPrimary(pods);
      healthy := healthy && primaryHealthy && httpStatus == 200 && ready;
      identity := multiset(ids);
      assert (forall pod :: pod in pods ==> PodHealthy(pod)) <==> forall k :: 0 <= k < |pods| ==> PodHealthy(pods[k]);
    }

    method InspectPrimary(pods: seq<Pod>) returns (healthy: bool)
      ensures |pods| == |scope.expected| && Names(pods) == scope.expected ==>
                (healthy <==> PrimaryHealthy(scope, pods))
    {
      var primary := 0;
      while primary < |pods| && pods[primary].name != scope.primaryName
        invariant 0 <= primary <= |pods|
        invariant forall k :: 0 <= k < primary ==> pods[k].name != scope.primaryName
      {
        primary := primary + 1;
      }
      healthy := primary < |pods| && IsPrimary(scope, pods[primary]);
      FirstPrimaryDecides(scope, pods, primary);
    }

    /** The state change of one observation. */
    method Advance(healthy: bool, ids: Identity, at: int) returns (r: Report)
      requires Valid()
      modifies this
      ensures Valid() && history == old(history) + [Sample(healthy, ids, at)]
      ensures r.healthy == healthy
      ensures r.gap == if old(history) == [] then None else Some(at - old(history)[|old(history)| - 1].at)
      ensures r.cadenceValid == (r.gap.None? || 0 < r.gap.value <= maxGap)
      ensures healthy ==> exists k: nat :: StableSince(history, k, maxGap) && r.elapsed == at - history[k].at
      ensures !healthy ==> r.elapsed == 0
      ensures r.complete <==> exists k: nat :: Stable(history, k, maxGap) && at - history[k].at >= seconds
    {
      hide Stable, StableSince;
      ghost var sample := Sample(healthy, ids, at);
      StartsStep(history, sample, maxGap, started);
      var gap := if last.Some? then Some(at - last.value) else None;
      var continuous := gap.None? || 0 < gap.value <= maxGap;
      if !healthy {
        started := None;
      } else if !continuous || identity != Some(ids) || started.None? {
        started := Some(at);
      }
      var elapsed := if started.Some? then at - started.value else 0;
      last, identity := Some(at), Some(ids);
      history := history + [sample];
      StartsSpans(history, maxGap, started, seconds);
      r := Report(healthy, gap, continuous, elapsed, healthy && elapsed >= seconds);
    }

    method Observe(pods: seq<Pod>, httpStatus: int, ready: bool, at: int) returns (r: Report)
      requires Valid()
      modifies this
      ensures Valid() && history == old(history) + [SampleOf(scope, pods, httpStatus, ready, at)]
      ensures r.healthy == Healthy(scope, pods, httpStatus, ready)
      ensures r.gap == if old(history) == [] then None else Some(at - old(history)[|old(history)| - 1].at)
      ensures r.cadenceValid == (r.gap.None? || 0 < r.gap.value <= maxGap)
      ensures r.healthy ==> exists k: nat :: StableSince(history, k, maxGap) && r.elapsed == at - history[k].at
      ensures !r.healthy ==> r.elapsed == 0
      ensures r.complete <==> exists k: nat :: Stable(history, k, maxGap) && at - history[k].at >= seconds
    {
      hide Healthy, IdentityOf, Stable, StableSince, Starts;
      var healthy, ids := Inspect(pods, httpStatus, ready);
      r := Advance(healthy, ids, at);
    }
  }
}
