/**
 What becomes of a follow-up document, told from the documents: which ones are stored, which appends succeed, and how a
 session without troubled documents proceeds.
 */
module FollowupMeaning {
  import opened Prelude
  import opened Recovery
  import opened FollowupReplay

  /** Reading and comparing heads: the same partitions, and no offset smaller than before. */
  ghost predicate Advances(before: Heads, now: Heads) {
    && before.Heads? && now.Heads? && before.at.Keys == now.at.Keys
    && forall k :: k in before.at.Keys ==> before.at[k] <= now.at[k]
  }

  /** The heads of the last stored document, or of the activation. */
  function LastHeads(heads: Heads, post: seq<Document>): Heads {
    if post == [] then heads else post[|post| - 1].heads
  }

  /**
   A document is stored exactly when there is room among 253, it can be parsed, and, unless the session is decided, its
   heads continue those before it.  The handler does not catch unforeseen trouble with parsing or with the first heads
   that cannot be read.
   */
  lemma StoredExactlyWhen(heads: Heads, post: seq<Document>, decided: bool, d: Document)
    ensures Storing(heads, post, decided, d) == Fine <==>
              |post| < 253 && d.parse == Fine && (decided || Advances(LastHeads(heads, post), d.heads))
    ensures Storing(heads, post, decided, d) == Unforeseen <==>
              && |post| < 253
              && (|| d.parse == Unforeseen
                  || (d.parse == Fine && !decided
                      && (|| LastHeads(heads, post) == Unreadable(false)
                          || (LastHeads(heads, post).Heads? && d.heads == Unreadable(false)))))
  {}

  /** All stored documents can be digested and, unless the session is decided, evaluated. */
  ghost predicate Replayable(post: seq<Document>, decided: bool) {
    forall d :: d in post ==> d.digest == Fine && (decided || d.capture.reading == Fine)
  }

  lemma {:induction false} DigestsFine(post: seq<Document>)
    ensures Digests(post) == Fine <==> forall d :: d in post ==> d.digest == Fine
    decreases |post|
  {
    if post != [] {
      var n := |post| - 1;
      DigestsFine(post[..n]);
      assert post == post[..n] + [post[n]];
    }
  }

  lemma ReadingsFine(post: seq<Document>)
    ensures Reads(Captures(post)) == Fine <==> forall d :: d in post ==> d.capture.reading == Fine
  {
    var caps := Captures(post);
    ReadsFine(caps);
    if Reads(caps) == Fine {
      forall d | d in post ensures d.capture.reading == Fine {
        var i :| 0 <= i < |post| && post[i] == d;
        assert caps[i] in caps;
      }
    }
  }

  /** An append succeeds exactly when its document is stored and the stored ones can be replayed. */
  lemma SucceedsExactlyWhen(heads: Heads, post: seq<Document>, decided: bool, d: Document)
    ensures Outcome(heads, post, decided, d) == Fine <==>
              && |post| < 253 && d.parse == Fine && (decided || Advances(LastHeads(heads, post), d.heads))
              && Replayable(post + [d], decided)
  {
    hide Storing, Captures, Reads;
    StoredExactlyWhen(heads, post, decided, d);
    DigestsFine(post + [d]);
    ReadingsFine(post + [d]);
  }

  // --------------------------------------------------------------- decided sessions

  /** A decided session stores without evaluating; a rejected document changes at most the boundary of a blocked one. */
  lemma NextDecided(a: Activation, heads: Heads, s: Session, d: Document)
    requires Decided(s.status)
    ensures var t, outcome := Next(a, heads, s, d), Outcome(heads, s.post, true, d);
            && t.status == s.status
            && t.post == (if |s.post| < 253 && d.parse == Fine then s.post + [d] else s.post)
            && (outcome == Fine ==>
                  t.boundary == s.boundary && t.last == Some(Step(|s.post|, s.status, None, s.boundary, s.last)))
            && (outcome != Fine ==> t.last == s.last)
            && (outcome == Unforeseen || s.status == Closed ==> t.boundary == s.boundary)
            && (outcome == Foreseen && s.status == Blocked ==> t.boundary == Some(InvalidInput))
  {
    hide Evaluate, Storing, Recording;
    StoredExactlyWhen(heads, s.post, true, d);
  }

  /** After 253 documents nothing is stored: an undecided session is blocked. */
  lemma FullSessionRejects(a: Activation, heads: Heads, s: Session, d: Document)
    requires |s.post| == 253
    ensures Next(a, heads, s, d) == if s.status == Closed then s
                                    else s.(status := Blocked, boundary := Some(InvalidInput))
  {
    hide Evaluate, Recording;
  }

  lemma {:induction false} NeverMoreThan253(a: Activation, heads: Heads, docs: seq<Document>)
    ensures |Run(a, heads, docs).post| <= 253
    decreases |docs|
  {
    hide Evaluate, Storing, Recording, Run;
    if docs == [] {
      EmptyRun(a, heads);
    } else {
      var front, d := docs[..|docs| - 1], docs[|docs| - 1];
      NeverMoreThan253(a, heads, front);
      RunUnfolds(a, heads, docs);
      var s := Run(a, heads, front);
      StoredExactlyWhen(heads, s.post, Decided(s.status), d);
    }
  }

  // --------------------------------------------------------------- sessions without trouble

  /** At most 253 documents that can be parsed, digested and evaluated, and whose heads advance. */
  ghost predicate Untroubled(heads: Heads, docs: seq<Document>) {
    && |docs| <= 253
    && (forall d :: d in docs ==> d.parse == Fine && d.digest == Fine && d.capture.reading == Fine)
    && (forall i :: 0 <= i < |docs| ==> Advances(LastHeads(heads, docs[..i]), docs[i].heads))
  }

  /** Until the last of its documents, one evaluation of the captures so far is ACTIVE or RECOVERING. */
  ghost predicate OpenBefore(a: Activation, docs: seq<Document>) {
    forall n :: 0 < n < |docs| ==> Evaluate(V2, a, Captures(docs)[..n]).state in {Active, Recovering}
  }

  lemma UntroubledPrefix(a: Activation, heads: Heads, docs: seq<Document>)
    requires docs != [] && Untroubled(heads, docs) && OpenBefore(a, docs)
    ensures var front := docs[..|docs| - 1];
            && Untroubled(heads, front) && OpenBefore(a, front)
            && (front != [] ==> Evaluate(V2, a, Captures(front)).state in {Active, Recovering})
  {
    hide Evaluate, Advances, LastHeads;
    var front := docs[..|docs| - 1];
    forall n | 0 < n <= |front| ensures Evaluate(V2, a, Captures(front)[..n]).state in {Active, Recovering} {
      assert Captures(front)[..n] == Captures(docs)[..n];
    }
    assert Captures(front)[..|front|] == Captures(front);
    forall i | 0 <= i < |front| ensures Advances(LastHeads(heads, front[..i]), front[i].heads) {
      assert front[..i] == docs[..i] && front[i] == docs[i];
    }
  }

  lemma UntroubledSucceeds(heads: Heads, docs: seq<Document>)
    requires docs != [] && Untroubled(heads, docs)
    ensures var front := docs[..|docs| - 1]; Outcome(heads, front, false, docs[|docs| - 1]) == Fine
  {
    hide Outcome, Advances;
    var n := |docs| - 1;
    assert docs[..n] + [docs[n]] == docs;
    SucceedsExactlyWhen(heads, docs[..n], false, docs[n]);
  }

  /**
   Such a session stores every document, and its status is that of one evaluation of all captures: UNKNOWN blocks it and
   RECOVERED closes it, at the last document; otherwise it is open.
   */
  lemma {:induction false} UntroubledRun(a: Activation, heads: Heads, docs: seq<Document>)
    requires docs != [] && Untroubled(heads, docs) && OpenBefore(a, docs)
    ensures var s, state := Run(a, heads, docs), Evaluate(V2, a, Captures(docs)).state;
            && s.post == docs
            && (s.status == Blocked <==> state == Unknown) && (s.status == Closed <==> state == Recovered)
            && (s.status == Eligible <==> state in {Active, Recovering})
            && s.boundary == (if state in {Active, Recovering} then None else Some(At(|docs| - 1, state)))
            && s.last.Some? && (s.last.value.index, s.last.value.status, s.last.value.state)
                               == (|docs| - 1, s.status, Some(state))
    decreases |docs|
  {
    hide Run, Evaluate, Untroubled, OpenBefore, Outcome, Captures, Next;
    var front, d := docs[..|docs| - 1], docs[|docs| - 1];
    UntroubledPrefix(a, heads, docs);
    UntroubledSucceeds(heads, docs);
    EmptyRun(a, heads);
    RunUnfolds(a, heads, docs);
    if front != [] { UntroubledRun(a, heads, front); }
    assert front + [d] == docs;
    RecordedWhileOpen(a, heads, Run(a, heads, front), d);
  }

  lemma RecordedWhileOpen(a: Activation, heads: Heads, s: Session, d: Document)
    requires !Decided(s.status) && s.boundary.None? && Outcome(heads, s.post, false, d) == Fine
    ensures var t, state := Next(a, heads, s, d), Evaluate(V2, a, Captures(s.post + [d])).state;
            && t.post == s.post + [d]
            && t.status == (match state case Unknown => Blocked case Recovered => Closed case _ => Eligible)
            && t.boundary == (if state in {Active, Recovering} then None else Some(At(|s.post|, state)))
            && t.last == Some(Step(|s.post|, t.status, Some(state), t.boundary, s.last))
  {
    hide Evaluate, Storing, Recording, Captures;
  }
}
