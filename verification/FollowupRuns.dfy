/**
 Concrete sessions of the follow-up replay over a steady drain: a boundary that is overwritten, and errors that leave a
 session open although its document is unusable.
 */
module FollowupRuns {
  import opened Prelude
  import opened Recovery
  import opened SteadyDrain
  import opened FollowupReplay
  import opened FollowupMeaning

  const START := Heads(map[])

  /** The k-th capture of the drain, in a document without trouble. */
  function Good(k: nat): Document { Document(Fine, START, Fine, DrainCapture(k), Fine) }

  /** An offset whose last sample is infinite: taking it as an integer raises `OverflowError`. */
  function InfiniteOffset(k: nat): Document { Good(k).(heads := Unreadable(false)) }

  /** Lags whose sum is out of range: evaluating them raises `decimal.Overflow`, as does building tools over them. */
  function HugeLag(k: nat): Document {
    Good(k).(capture := DrainCapture(k).(reading := Unforeseen), projection := Unforeseen)
  }

  /** A capture with unusable evidence. */
  function Unusable(k: nat): Document {
    Good(k).(capture := DrainCapture(k).(evidenceIssues := {"REQUIRED_EVIDENCE_STALE"}))
  }

  /** A document that names another incident. */
  function Foreign(k: nat): Document { Good(k).(parse := Foreseen) }

  lemma FirstIsFine()
    ensures Outcome(START, [], false, Good(0)) == Fine && Captures([Good(0)]) == Drain(1)
  {
    hide DrainCapture, Evaluate;
    DrainIsReadable(0);
    assert [] + [Good(0)] == [Good(0)] && [Good(0)][..0] == [];
    assert Captures([Good(0)]) == Drain(1);
    assert Captures([Good(0)])[..0] == [];
  }

  lemma FirstIsOpen()
    ensures Outcome(START, [], false, Good(0)) == Fine
    ensures Run(Activated(), START, [Good(0)])
         == Session([Good(0)], Eligible, Some(Step(0, Eligible, Some(Active), None, None)), None)
  {
    hide Evaluate, Good, Next, Run, Captures, Recording;
    FirstIsFine();
    DrainBegins();
    RunOfOne(Good(0));
    assert [] + [Good(0)] == [Good(0)];
    NextWhileOpen(Activated(), START, FRESH, Good(0));
  }

  lemma RunOfOne(x: Document)
    ensures Run(Activated(), START, [x]) == Next(Activated(), START, FRESH, x)
  {
    hide Next;
    assert [x][..0] == [];
  }

  lemma DrainIsReadable(k: nat)
    ensures DrainCapture(k).reading == Fine && CaptureOf(Good(k)) == DrainCapture(k)
  {
    hide EXPECTED_PARTITIONS;
  }

  lemma DrainBegins()
    ensures Evaluate(V2, Activated(), Drain(1)).state == Active
  {
    hide Raws, InEnvelope;
    DrainState(1, 0);
  }

  lemma RunOfTwo(x: Document, y: Document)
    ensures Run(Activated(), START, [x, y]) == Next(Activated(), START, Run(Activated(), START, [x]), y)
  {
    hide Next;
    assert [x, y][..1] == [x];
  }

  /**
   An infinite offset after a good capture changes nothing: the session stays open, and the projection of the old
   capture stays available, against the promise that invalid input poisons the session.
   */
  lemma InfiniteOffsetIsIgnored()
    ensures Run(Activated(), START, [Good(0), InfiniteOffset(1)]) == Run(Activated(), START, [Good(0)])
    ensures Run(Activated(), START, [Good(0), InfiniteOffset(1)]).status == Eligible
  {
    hide Run, Evaluate, DrainCapture;
    FirstIsOpen();
    RunOfTwo(Good(0), InfiniteOffset(1));
  }

  /** A lag sum out of range is stored and leaves the session open, with the step record of the capture before it. */
  lemma HugeLagIsStored()
    ensures var before, after := Run(Activated(), START, [Good(0)]), Run(Activated(), START, [Good(0), HugeLag(1)]);
            after == before.(post := [Good(0), HugeLag(1)]) && after.status == Eligible && Stuck(after.post)
  {
    hide Run, Evaluate, DrainCapture;
    FirstIsOpen();
    RunOfTwo(Good(0), HugeLag(1));
    DrainIsReadable(0);
    var post := [Good(0), HugeLag(1)];
    assert [Good(0)] + [HugeLag(1)] == post && post[..1] == [Good(0)] && [Good(0)][..0] == [];
    assert Captures(post)[..1] == [CaptureOf(Good(0))] && Captures(post)[1].reading == Unforeseen;
    assert [CaptureOf(Good(0))][..0] == [];
  }

  /** Unusable evidence blocks the session at its capture; a rejected document then overwrites that boundary. */
  lemma BlockedBoundaryCanChange()
    ensures var blocked := Run(Activated(), START, [Unusable(0)]);
            blocked.status == Blocked && blocked.boundary == Some(At(0, Unknown))
    ensures var rejected := Run(Activated(), START, [Unusable(0), Foreign(1)]);
            rejected.status == Blocked && rejected.boundary == Some(InvalidInput)
  {
    hide Evaluate, DrainCapture;
    var d := Unusable(0);
    DrainIsReadable(0);
    assert [] + [d] == [d] && [d][..0] == [];
    assert Captures([d]) == [CaptureOf(d)];
    assert [CaptureOf(d)][..0] == [];
    UnusableIsUnknown(Activated(), CaptureOf(d), "REQUIRED_EVIDENCE_STALE");
    RunOfTwo(d, Foreign(1));
  }

  lemma UnusableIsUnknown(a: Activation, c: Capture, code: string)
    requires code in c.evidenceIssues
    ensures Evaluate(V2, a, [c]).state == Unknown
  {
    hide TimingIssues, SourceIssues, ActivationIssues;
    assert Evidence(code) in EvidenceIssues(c);
    assert [c][..0] == [];
    var raws := Raws(a, [c]);
    assert Evidence(code) in raws[0].issues;
    assert !raws[0].Usable();
    assert StateAt(raws, 0) == Unknown;
  }

  // --------------------------------------------------------------- a session that closes

  function GoodOnes(n: nat): seq<Document> { seq(n, k requires 0 <= k < n => Good(k)) }

  lemma GoodCaptures(n: nat)
    ensures Captures(GoodOnes(n)) == Drain(n)
  {
    hide DrainCapture, Good;
    forall k | 0 <= k < n ensures Captures(GoodOnes(n))[k] == Drain(n)[k] { DrainIsReadable(k); }
  }

  lemma GoodIsUntroubled(n: nat)
    requires n <= 253
    ensures Untroubled(START, GoodOnes(n))
  {
    hide DrainCapture;
    forall k | 0 <= k < n ensures GoodOnes(n)[k].capture.reading == Fine { DrainIsReadable(k); }
  }

  lemma DrainIsOpen(n: nat)
    requires 0 < n < 5
    ensures Evaluate(V2, Activated(), Drain(n)).state in {Active, Recovering}
  {
    hide Raws, InEnvelope, StateAt, StableWindow;
    DrainState(n, n - 1);
    DrainRecovers(n);
  }

  /** A steady drain is followed for four documents and closes its session with the fifth. */
  lemma SteadyDrainCloses()
    ensures Run(Activated(), START, GoodOnes(4)).status == Eligible
    ensures var s := Run(Activated(), START, GoodOnes(5));
            s.status == Closed && s.boundary == Some(At(4, Recovered)) && s.post == GoodOnes(5)
  {
    hide Run, Evaluate, Untroubled, Drain, Captures, GoodOnes;
    GoodAreOpen(4);
    GoodAreOpen(5);
    GoodIsUntroubled(4);
    GoodIsUntroubled(5);
    GoodCaptures(4);
    GoodCaptures(5);
    GoodCount(4);
    GoodCount(5);
    DrainIsOpen(4);
    DrainRecovers(5);
    UntroubledRun(Activated(), START, GoodOnes(4));
    UntroubledRun(Activated(), START, GoodOnes(5));
  }

  lemma GoodCount(n: nat)
    ensures |GoodOnes(n)| == n
  {}

  lemma GoodAreOpen(n: nat)
    requires n <= 5
    ensures OpenBefore(Activated(), GoodOnes(n))
  {
    hide Evaluate, DrainCapture, Good;
    GoodCaptures(n);
    forall m | 0 < m < n ensures Evaluate(V2, Activated(), Captures(GoodOnes(n))[..m]).state in {Active, Recovering} {
      assert Drain(n)[..m] == Drain(m);
      DrainIsOpen(m);
    }
  }
}
