/**
 A steady drain inside the recovered envelope: the evaluator calls it RECOVERED from the fifth capture on and not
 before, which shows both that recovery is within reach and that its least length is exact.
 */
module SteadyDrain {
  import opened Prelude
  import opened Recovery

  const PERIOD := 10_000_000

  function Activated(): Activation { Activation(true, true, true, {"source"}, 0, Some(0)) }

  /** Capture k: 75 records/s come in, one record more is committed in the minute. */
  function DrainCapture(k: nat): Capture {
    var at := PERIOD * (k + 1);
    Capture(Fine, true, true, true, at, at, Some("source"), Some("recovery"), EXPECTED_PARTITIONS, Some(at),
            {}, Some(true), Some(20), Some(-1), Some(4500), Some(4501), map[])
  }

  function Drain(n: nat): seq<Capture> { seq(n, k requires 0 <= k < n => DrainCapture(k)) }

  function StreamAfter(n: nat): Stream {
    Stream(PERIOD * n, Some(PERIOD * n), if n == 0 then None else Some("recovery"), false, None)
  }

  lemma NextIsClean(n: nat)
    ensures CaptureIssues(Activated(), StreamAfter(n), DrainCapture(n)) == {}
    ensures Advance(Activated(), StreamAfter(n), DrainCapture(n)) == StreamAfter(n + 1)
  {
    hide EXPECTED_PARTITIONS;
    var a := Activated();
    assert a.identities == {"source"};
    assert ActivationIssues(a) == {};
    assert IsActivationIdentity(a, Some("source"));
    assert RateArithmetic(DrainCapture(n)) == Some(true);
    assert EvidenceIssues(DrainCapture(n)) == {};
    assert SourceIssues(a, StreamAfter(n), DrainCapture(n)) == {};
    assert TimingIssues(a, StreamAfter(n), DrainCapture(n)) == {};
  }

  lemma {:induction false} DrainFold(n: nat)
    ensures Fold(Activated(), Drain(n)) == StreamAfter(n)
    ensures forall k :: 0 <= k < n ==> Raws(Activated(), Drain(n))[k] == Raw(DrainCapture(k), {})
  {
    hide Advance, CaptureIssues, DrainCapture;
    if n == 0 {
      StartsClean();
    } else {
      DrainFold(n - 1);
      NextIsClean(n - 1);
      assert Drain(n)[..n - 1] == Drain(n - 1) && Drain(n)[n - 1] == DrainCapture(n - 1);
    }
  }

  lemma StartsClean()
    ensures Fold(Activated(), []) == StreamAfter(0)
  {
    assert Activated().identities == {"source"};
  }

  lemma DrainState(n: nat, i: nat)
    requires i < n
    ensures StateAt(Raws(Activated(), Drain(n)), i) == (if i < 2 then Active else Recovering)
    ensures InEnvelope(Raws(Activated(), Drain(n))[i])
  {
    hide Raws, EXPECTED_PARTITIONS;
    DrainFold(n);
  }

  /** A steady drain evaluates to RECOVERED exactly from its fifth capture on. */
  lemma DrainRecovers(n: nat)
    requires n > 0
    ensures Evaluate(V2, Activated(), Drain(n)).state == Recovered <==> n >= 5
  {
    hide Raws, Evaluate, StateAt, InEnvelope;
    var raws := Raws(Activated(), Drain(n));
    forall i | 0 <= i < n ensures InEnvelope(raws[i]) && (StateAt(raws, i) == Recovering <==> i >= 2) {
      DrainState(n, i);
    }
    RecoveredExactlyWhen(Activated(), Drain(n));
    if n >= 5 { assert StateAt(raws, 2) == Recovering; }
  }
}
