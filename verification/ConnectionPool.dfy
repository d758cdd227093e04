/**
 Replacement of the connection pool in portfolio/db.py while sessions check connections out and in.

 Every block under `_pool_lock` is one atomic step; the gauge updates and the `closeall` calls of `close_pool`
 happen outside the lock and are steps of their own.  `PoolManager` carries the module's globals; the invariant is
 proved for every interleaving of the steps of any number of sessions.
 */
module ConnectionPool {
  import opened Prelude

  // A pool object; identities are never reused.
  type PoolId = nat

  /** One use of `get_conn`. */
  datatype Session =
    | Idle
    | Taken(pool: PoolId)    // past the lock of _checkout_connection, gauge not yet incremented
    | Holding(pool: PoolId)
    | Returned               // past the lock of _return_connection, gauge not yet decremented

  datatype State = State(
    pool: Option<PoolId>,             // _pool
    active: map<PoolId, nat>,         // _pool_active
    retired: set<PoolId>,             // _retired_pools
    gauge: int,                       // db_pool_in_use
    sessions: seq<Session>,
    installed: set<PoolId>,              // every pool ever installed
    dropped: set<PoolId>,             // pools taken away by close_pool
    closing: multiset<PoolId>,        // dropped, closeall not yet called
    closed: multiset<PoolId>)         // closeall calls made

  function Init(n: nat): State {
    State(None, map[], {}, 0, seq(n, _ => Idle), {}, {}, multiset{}, multiset{})
  }

  predicate Uses(session: Session, p: PoolId) { (session.Taken? || session.Holding?) && session.pool == p }

  /** Connections of pool `p` that are out. */
  function Out(sessions: seq<Session>, p: PoolId): nat {
    if sessions == [] then 0
    else Out(sessions[..|sessions| - 1], p) + if Uses(sessions[|sessions| - 1], p) then 1 else 0
  }

  /** Sessions that the gauge counts. */
  function Counted(sessions: seq<Session>): nat {
    if sessions == [] then 0
    else
      var last := sessions[|sessions| - 1];
      Counted(sessions[..|sessions| - 1]) + if last.Holding? || last.Returned? then 1 else 0
  }

  function Lookup(active: map<PoolId, nat>, p: PoolId, default: nat): nat {
    if p in active then active[p] else default
  }

  // --------------------------------------------------------------- steps

  datatype Action =
    | Install(newPool: PoolId)
    | Checkout(session: nat)
    | CountIn(session: nat)
    | Return(session: nat)
    | CountOut(session: nat)
    | Detach                    // the locked block of close_pool
    | CloseDetached(p: PoolId)  // one closeall of close_pool

  /** New pools are fresh; installing the current pool again is allowed. */
  predicate Enabled(s: State, a: Action) {
    match a
    case Install(p) => p !in s.installed || s.pool == Some(p)
    case Checkout(i) => i < |s.sessions| && s.sessions[i].Idle? && s.pool.Some?
    case CountIn(i) => i < |s.sessions| && s.sessions[i].Taken?
    case Return(i) => i < |s.sessions| && s.sessions[i].Holding?
    case CountOut(i) => i < |s.sessions| && s.sessions[i].Returned?
    case Detach => true
    case CloseDetached(p) => p in s.closing
  }

  /** The pools close_pool takes away. */
  function Detached(s: State): set<PoolId> { s.retired + if s.pool.Some? then {s.pool.value} else {} }

  function Step(s: State, a: Action): State
    requires Enabled(s, a)
  {
    match a
    case Install(p) =>
      var started := s.(pool := Some(p), installed := s.installed + {p},
                     active := s.active[p := Lookup(s.active, p, 0)]);
      if s.pool.None? || s.pool == Some(p) then started
      else
        var replaced := s.pool.value;
        if Lookup(started.active, replaced, 0) == 0 then
          started.(closed := s.closed + multiset{replaced}, active := started.active - {replaced})
        else started.(retired := s.retired + {replaced})
    case Checkout(i) =>
      var p := s.pool.value;
      s.(active := s.active[p := Lookup(s.active, p, 0) + 1], sessions := s.sessions[i := Taken(p)])
    case CountIn(i) =>
      s.(gauge := s.gauge + 1, sessions := s.sessions[i := Holding(s.sessions[i].pool)])
    case Return(i) =>
      var p := s.sessions[i].pool;
      var before := Lookup(s.active, p, 1);
      var remaining := if before == 0 then 0 else before - 1;
      var back := s.(active := s.active[p := remaining], sessions := s.sessions[i := Returned]);
      if remaining == 0 && p in s.retired then
        back.(retired := s.retired - {p}, closed := s.closed + multiset{p}, active := back.active - {p})
      else back
    case CountOut(i) =>
      s.(gauge := s.gauge - 1, sessions := s.sessions[i := Idle])
    case Detach =>
      var pools := multiset(s.retired) + if s.pool.Some? then multiset{s.pool.value} else multiset{};
      s.(pool := None, active := map[], retired := {}, closing := s.closing + pools,
         dropped := s.dropped + Detached(s))
    case CloseDetached(p) =>
      s.(closing := s.closing - multiset{p}, closed := s.closed + multiset{p})
  }

  // --------------------------------------------------------------- invariant

  /** How many of the places current, retired, closing and closed a pool occupies. */
  function Places(s: State, p: PoolId): nat {
    (if s.pool == Some(p) then 1 else 0) + (if p in s.retired then 1 else 0) + s.closing[p] + s.closed[p]
  }

  predicate Live(s: State, p: PoolId) { s.pool == Some(p) || p in s.retired }

  ghost predicate PoolInv(s: State, p: PoolId) {
    // An installed pool is current, retired, about to be closed, or closed: one of them, and once.
    && Places(s, p) == (if p in s.installed then 1 else 0)
    && (s.closing[p] > 0 ==> p in s.dropped)
    && (p in s.dropped ==> s.closing[p] + s.closed[p] > 0)
    // The counter of a live pool is exact; any other counter is a leftover of close_pool and is zero.
    && (Live(s, p) ==> Lookup(s.active, p, 0) == Lookup(s.active, p, 1) == Out(s.sessions, p))
    && (p in s.active && !Live(s, p) ==> p in s.dropped && s.active[p] == 0)
    && (p in s.retired ==> Out(s.sessions, p) > 0)
    // Only close_pool takes a pool away from its users.
    && (s.closed[p] > 0 && p !in s.dropped ==> Out(s.sessions, p) == 0)
    && (Out(s.sessions, p) > 0 ==> p in s.installed)
  }

  ghost predicate Inv(s: State) {
    && (forall p :: PoolInv(s, p))
    && s.gauge == Counted(s.sessions)
  }

  lemma {:induction false} OutUpdate(sessions: seq<Session>, i: nat, after: Session, p: PoolId)
    requires i < |sessions|
    ensures Out(sessions[i := after], p) + (if Uses(sessions[i], p) then 1 else 0)
         == Out(sessions, p) + (if Uses(after, p) then 1 else 0)
    ensures Counted(sessions[i := after]) + (if sessions[i].Holding? || sessions[i].Returned? then 1 else 0)
         == Counted(sessions) + (if after.Holding? || after.Returned? then 1 else 0)
    decreases |sessions|
  {
    var n := |sessions| - 1;
    var front := sessions[..n];
    if i < n {
      assert sessions[i := after][..n] == front[i := after];
      OutUpdate(front, i, after, p);
    } else {
      assert sessions[i := after][..n] == front;
    }
  }

  lemma {:induction false} OutPositive(sessions: seq<Session>, p: PoolId)
    ensures Out(sessions, p) > 0 <==> exists i :: 0 <= i < |sessions| && Uses(sessions[i], p)
    decreases |sessions|
  {
    if sessions != [] {
      var n := |sessions| - 1;
      OutPositive(sessions[..n], p);
      assert forall i :: 0 <= i < n ==> sessions[..n][i] == sessions[i];
    }
  }

  lemma {:induction false} InitInv(n: nat, p: PoolId)
    ensures PoolInv(Init(n), p) && Counted(Init(n).sessions) == 0
  {
    if n > 0 {
      InitInv(n - 1, p);
      assert Init(n).sessions[..n - 1] == Init(n - 1).sessions;
    }
  }

  lemma SessionStepInv(s: State, a: Action, p: PoolId)
    requires Inv(s) && Enabled(s, a) && (a.Checkout? || a.CountIn? || a.Return? || a.CountOut?)
    ensures PoolInv(Step(s, a), p) && Step(s, a).gauge == Counted(Step(s, a).sessions)
  {
    var t := Step(s, a);
    OutUpdate(s.sessions, a.session, t.sessions[a.session], p);
    OutPositive(s.sessions, p);
    assert PoolInv(s, p);
  }

  lemma InstallInv(s: State, a: Action, p: PoolId)
    requires Inv(s) && Enabled(s, a) && a.Install?
    ensures PoolInv(Step(s, a), p)
  {
    hide Out, Counted;
    assert PoolInv(s, p);
    if s.pool.Some? { assert PoolInv(s, s.pool.value); }
  }

  lemma CloseInv(s: State, a: Action, p: PoolId)
    requires Inv(s) && Enabled(s, a) && (a.Detach? || a.CloseDetached?)
    ensures PoolInv(Step(s, a), p)
  {
    hide Out, Counted;
    assert PoolInv(s, p);
  }

  lemma StepInv(s: State, a: Action)
    requires Inv(s) && Enabled(s, a)
    ensures Inv(Step(s, a))
  {
    forall p ensures PoolInv(Step(s, a), p) {
      if a.Install? { InstallInv(s, a, p); }
      else if a.Detach? || a.CloseDetached? { CloseInv(s, a, p); }
      else { SessionStepInv(s, a, p); }
    }
    if a.Checkout? || a.CountIn? || a.Return? || a.CountOut? { SessionStepInv(s, a, 0); }
  }

  // --------------------------------------------------------------- every interleaving

  /** The state after the steps `actions` of `n` sessions, if each step was enabled when it was taken. */
  function Exec(n: nat, actions: seq<Action>): Option<State> {
    if actions == [] then Some(Init(n))
    else
      var before := Exec(n, actions[..|actions| - 1]);
      if before.Some? && Enabled(before.value, actions[|actions| - 1])
      then Some(Step(before.value, actions[|actions| - 1])) else None
  }

  lemma {:induction false} ExecInv(n: nat, actions: seq<Action>)
    requires Exec(n, actions).Some?
    ensures Inv(Exec(n, actions).value)
    decreases |actions|
  {
    if actions == [] {
      forall p ensures PoolInv(Init(n), p) { InitInv(n, p); }
      InitInv(n, 0);
    } else {
      var front := actions[..|actions| - 1];
      ExecInv(n, front);
      StepInv(Exec(n, front).value, actions[|actions| - 1]);
    }
  }

  /** In every interleaving, `close_pool` included. */
  lemma PoolSafety(n: nat, actions: seq<Action>, p: PoolId)
    requires Exec(n, actions).Some?
    ensures var s := Exec(n, actions).value;
            && s.closed[p] <= 1
            && (Live(s, p) ==> s.closed[p] == 0 && p in s.active && s.active[p] == Out(s.sessions, p))
            && (s.closed[p] > 0 && Out(s.sessions, p) > 0 ==> p in s.dropped)
            && s.gauge == Counted(s.sessions)
  {
    ExecInv(n, actions);
    var s := Exec(n, actions).value;
    assert PoolInv(s, p);
    assert Places(s, p) <= 1;
  }

  lemma StepClosesUnused(s: State, a: Action, p: PoolId)
    requires Inv(s) && Enabled(s, a) && (a.Install? || a.Return?)
    ensures var t := Step(s, a);
            t.closed[p] > s.closed[p] ==> Out(t.sessions, p) == 0 && !Live(t, p)
  {
    assert PoolInv(s, p);
    StepInv(s, a);
    assert PoolInv(Step(s, a), p);
  }

  /** Replacement and return close a pool only when none of its connections is out. */
  lemma ClosedOnlyWhenUnused(n: nat, actions: seq<Action>, a: Action, p: PoolId)
    requires Exec(n, actions).Some? && Enabled(Exec(n, actions).value, a) && (a.Install? || a.Return?)
    ensures var s := Exec(n, actions).value;
            var t := Step(s, a);
            t.closed[p] > s.closed[p] ==> Out(t.sessions, p) == 0 && !Live(t, p)
  {
    ExecInv(n, actions);
    StepClosesUnused(Exec(n, actions).value, a, p);
  }

  lemma StepDropsNothing(s: State, a: Action)
    requires Enabled(s, a) && a != Detach
    ensures Step(s, a).dropped == s.dropped
  {}

  lemma {:induction false} NothingDropped(n: nat, actions: seq<Action>)
    requires Exec(n, actions).Some? && forall a :: a in actions ==> a != Detach
    ensures Exec(n, actions).value.dropped == {}
    decreases |actions|
  {
    hide Step, Enabled;
    if actions != [] {
      var front := actions[..|actions| - 1];
      assert actions == front + [actions[|actions| - 1]];
      assert forall a :: a in front ==> a in actions;
      assert actions[|actions| - 1] in actions;
      NothingDropped(n, front);
      StepDropsNothing(Exec(n, front).value, actions[|actions| - 1]);
    }
  }

  /**
   While `close_pool` is not called: the replaced pools with connections out are exactly the retired ones, all other
   replaced pools are closed, counters exist for exactly the live pools, and no user's pool has been closed.
   */
  lemma WithoutClosePool(n: nat, actions: seq<Action>, p: PoolId)
    requires Exec(n, actions).Some? && forall a :: a in actions ==> a != Detach
    ensures var s := Exec(n, actions).value;
            && (p in s.retired <==> p in s.installed && s.pool != Some(p) && Out(s.sessions, p) > 0)
            && (s.closed[p] == 1 <==> p in s.installed && s.pool != Some(p) && Out(s.sessions, p) == 0)
            && (p in s.active <==> Live(s, p))
            && (Out(s.sessions, p) > 0 ==> s.closed[p] == 0 && p in s.active && s.active[p] == Out(s.sessions, p))
  {
    ExecInv(n, actions);
    NothingDropped(n, actions);
    assert PoolInv(Exec(n, actions).value, p);
  }

  /** No leak: once no connection is out and `close_pool` has finished, only the current pool is open. */
  lemma QuiescentPoolsAreClosed(n: nat, actions: seq<Action>, p: PoolId)
    requires Exec(n, actions).Some?
    requires var s := Exec(n, actions).value;
             s.closing == multiset{} && p in s.installed && s.pool != Some(p) && Out(s.sessions, p) == 0
    ensures Exec(n, actions).value.closed[p] == 1
  {
    ExecInv(n, actions);
    assert PoolInv(Exec(n, actions).value, p);
  }

  function Net(actions: seq<Action>): int {
    if actions == [] then 0
    else
      var last := actions[|actions| - 1];
      Net(actions[..|actions| - 1]) + if last.Checkout? then 1 else if last.Return? then -1 else 0
  }

  function Unsettled(sessions: seq<Session>): int {
    if sessions == [] then 0
    else
      var last := sessions[|sessions| - 1];
      Unsettled(sessions[..|sessions| - 1]) + if last.Taken? then 1 else if last.Returned? then -1 else 0
  }

  lemma {:induction false} UnsettledUpdate(sessions: seq<Session>, i: nat, after: Session)
    requires i < |sessions|
    ensures Unsettled(sessions[i := after]) == Unsettled(sessions)
         + (if after.Taken? then 1 else if after.Returned? then -1 else 0)
         - (if sessions[i].Taken? then 1 else if sessions[i].Returned? then -1 else 0)
    decreases |sessions|
  {
    var n := |sessions| - 1;
    if i < n {
      assert sessions[i := after][..n] == sessions[..n][i := after];
      UnsettledUpdate(sessions[..n], i, after);
    } else {
      assert sessions[i := after][..n] == sessions[..n];
    }
  }

  /** The gauge is checkouts minus returns, up to the sessions between a lock and their gauge update. */
  lemma {:induction false} GaugeBalance(n: nat, actions: seq<Action>)
    requires Exec(n, actions).Some?
    ensures var s := Exec(n, actions).value; s.gauge + Unsettled(s.sessions) == Net(actions)
    decreases |actions|, n
  {
    if actions == [] {
      if n > 0 {
        assert Init(n).sessions[..n - 1] == Init(n - 1).sessions;
        GaugeBalance(n - 1, []);
      }
    } else {
      var front, a := actions[..|actions| - 1], actions[|actions| - 1];
      GaugeBalance(n, front);
      var s := Exec(n, front).value;
      if a.Checkout? || a.CountIn? || a.Return? || a.CountOut? {
        UnsettledUpdate(s.sessions, a.session, Step(s, a).sessions[a.session]);
      }
    }
  }

  lemma DetachStep(s: State)
    requires Inv(s)
    ensures Inv(Step(s, Detach))
    ensures Step(s, Detach) == s.(pool := None, active := map[], retired := {}, dropped := s.dropped + Detached(s),
                                  closing := s.closing + multiset(Detached(s)))
  {
    StepInv(s, Detach);
    if s.pool.Some? { assert PoolInv(s, s.pool.value); }
  }

  // --------------------------------------------------------------- what the steps do

  /**
   Installing makes the new pool current and open.  Another pool that was current is closed by this very step when none
   of its connections is out, and retired otherwise; nothing else happens to any pool or session.
   */
  lemma InstallReplaces(s: State, p: PoolId)
    requires Inv(s) && Enabled(s, Install(p))
    ensures var t := Step(s, Install(p));
            && t.pool == Some(p) && t.closed[p] == 0 && p !in t.retired && t.closing[p] == 0
            && (t.sessions, t.gauge, t.dropped, t.closing) == (s.sessions, s.gauge, s.dropped, s.closing)
            && t.installed == s.installed + {p}
            && (s.pool.None? || s.pool == Some(p) ==> t.closed == s.closed && t.retired == s.retired)
    ensures s.pool.Some? && s.pool != Some(p) ==>
              var q, t := s.pool.value, Step(s, Install(p));
              if Out(s.sessions, q) == 0 then t.closed == s.closed[q := 1] && t.retired == s.retired
              else t.closed == s.closed && t.retired == s.retired + {q}
  {
    StepInv(s, Install(p));
    assert PoolInv(Step(s, Install(p)), p);
    if s.pool.Some? { assert PoolInv(s, s.pool.value); }
  }

  /** A checkout takes the current pool for its session, and a return closes the pool exactly when it was the last. */
  lemma CheckoutTakesCurrent(s: State, i: nat, p: PoolId)
    requires Inv(s) && Enabled(s, Checkout(i)) && s.pool == Some(p)
    ensures var t := Step(s, Checkout(i));
            && t.sessions == s.sessions[i := Taken(p)] && Out(t.sessions, p) == Out(s.sessions, p) + 1
            && (t.pool, t.retired, t.closed, t.closing) == (Some(p), s.retired, s.closed, s.closing)
            && p in t.active && t.active[p] == Out(t.sessions, p)
  {
    StepInv(s, Checkout(i));
    OutUpdate(s.sessions, i, Taken(p), p);
    assert PoolInv(Step(s, Checkout(i)), p);
  }

  lemma ReturnClosesLast(s: State, i: nat, p: PoolId)
    requires Inv(s) && i < |s.sessions| && s.sessions[i] == Holding(p)
    ensures var t := Step(s, Return(i));
            && t.sessions == s.sessions[i := Returned] && Out(t.sessions, p) == Out(s.sessions, p) - 1
            && (t.pool, t.closing) == (s.pool, s.closing)
            && (if p in s.retired && Out(s.sessions, p) == 1
                then t.closed == s.closed[p := 1] && t.retired == s.retired - {p}
                else t.closed == s.closed && t.retired == s.retired)
            && (Live(t, p) ==> p in t.active && t.active[p] == Out(t.sessions, p))
  {
    StepInv(s, Return(i));
    OutUpdate(s.sessions, i, Returned, p);
    OutPositive(s.sessions, p);
    assert PoolInv(s, p);
    assert PoolInv(Step(s, Return(i)), p);
  }

  /** `close_pool` leaves no current and no retired pool, and closes each of those exactly once. */
  lemma CloseTakesAllPools(s: State, p: PoolId)
    requires Inv(s)
    ensures var t := Step(s, Detach);
            && t.pool == None && t.retired == {} && t.closed == s.closed && t.sessions == s.sessions
            && t.closing[p] == s.closing[p] + (if s.pool == Some(p) || p in s.retired then 1 else 0)
    ensures p in s.closing ==>
              && s.closed[p] == 0
              && Step(s, CloseDetached(p)) == s.(closed := s.closed[p := 1], closing := s.closing[p := 0])
  {
    hide Out, Counted;
    DetachStep(s);
    assert PoolInv(s, p);
  }

  /** Only installs and `close_pool` change the current pool, and only its own checkout and return a session's pool. */
  lemma StepKeeps(s: State, a: Action, i: nat, p: PoolId)
    requires Enabled(s, a)
    ensures !a.Install? && !a.Detach? ==> Step(s, a).pool == s.pool
    ensures i < |s.sessions| && Uses(s.sessions[i], p) && a != Return(i) ==>
              i < |Step(s, a).sessions| && Uses(Step(s, a).sessions[i], p)
    ensures a == Checkout(i) && s.pool == Some(p) ==>
              i < |Step(s, a).sessions| && Uses(Step(s, a).sessions[i], p)
  {}

  /** The current pool is that of the last install. */
  lemma {:induction false} LastInstallIsCurrent(n: nat, actions: seq<Action>, k: nat)
    requires Exec(n, actions).Some? && k < |actions| && actions[k].Install?
    requires forall j :: k < j < |actions| ==> !actions[j].Install? && !actions[j].Detach?
    ensures Exec(n, actions).value.pool == Some(actions[k].newPool)
    decreases |actions|
  {
    hide Step, Enabled;
    var front := actions[..|actions| - 1];
    if k < |front| {
      assert forall j :: k < j < |front| ==> front[j] == actions[j];
      LastInstallIsCurrent(n, front, k);
      StepKeeps(Exec(n, front).value, actions[|front|], 0, 0);
    } else {
      ExecInv(n, front);
      InstallReplaces(Exec(n, front).value, actions[k].newPool);
    }
  }

  /** There is none before the first install and after a `close_pool` that no install followed. */
  lemma {:induction false} NoneCurrentWithoutInstall(n: nat, actions: seq<Action>, k: nat)
    requires Exec(n, actions).Some? && k <= |actions| && (k == 0 || actions[k - 1] == Detach)
    requires forall j :: k <= j < |actions| ==> !actions[j].Install?
    ensures Exec(n, actions).value.pool == None
    decreases |actions|
  {
    hide Enabled;
    if k < |actions| {
      var front := actions[..|actions| - 1];
      assert forall j :: k <= j < |front| ==> front[j] == actions[j];
      NoneCurrentWithoutInstall(n, front, k);
    }
  }

  /** From its checkout to its return, a session uses the pool that was last installed before the checkout. */
  lemma {:induction false} SessionKeepsPool(n: nat, actions: seq<Action>, m: nat, k: nat, i: nat)
    requires Exec(n, actions).Some? && m < k < |actions|
    requires actions[m].Install? && forall j :: m < j < k ==> !actions[j].Install? && !actions[j].Detach?
    requires actions[k] == Checkout(i) && forall j :: k < j < |actions| ==> actions[j] != Return(i)
    ensures i < |Exec(n, actions).value.sessions|
    ensures Uses(Exec(n, actions).value.sessions[i], actions[m].newPool)
    decreases |actions|
  {
    hide Step, Enabled, Uses;
    var front := actions[..|actions| - 1];
    assert forall j :: 0 <= j < |front| ==> front[j] == actions[j];
    if k < |front| {
      assert actions[|front|] != Return(i);
      SessionKeepsPool(n, front, m, k, i);
    } else {
      LastInstallIsCurrent(n, front, m);
    }
    StepKeeps(Exec(n, front).value, actions[|front|], i, actions[m].newPool);
  }

  // --------------------------------------------------------------- the module's globals

  datatype Failure = NotInitialized | GetconnRaised

  class PoolManager {
    var pool: Option<PoolId>
    var active: map<PoolId, nat>
    var retired: set<PoolId>
    var gauge: int
    // The environment: sessions, and what happened to each pool object.
    ghost var sessions: seq<Session>
    ghost var installed: set<PoolId>
    ghost var dropped: set<PoolId>
    ghost var closing: multiset<PoolId>
    ghost var closed: multiset<PoolId>

    ghost function Snapshot(): State
      reads this
    {
      State(pool, active, retired, gauge, sessions, installed, dropped, closing, closed)
    }

    ghost predicate Valid()
      reads this
    {
      Inv(Snapshot())
    }

    constructor (ghost n: nat)
      ensures Valid() && Snapshot() == Init(n)
    {
      pool, active, retired, gauge := None, map[], {}, 0;
      sessions, installed, dropped := Init(n).sessions, {}, {};
      closing, closed := multiset{}, multiset{};
      new;
      ExecInv(n, []);
    }

    /** `closeall` raises on a pool that is already closed, so every caller must show that it is not. */
    method CloseAll(p: PoolId)
      requires closed[p] == 0
      modifies this`closed
      ensures closed == old(closed) + multiset{p}
    {
      closed := closed + multiset{p};
    }

    method InstallPool(newPool: PoolId)
      requires Valid() && Enabled(Snapshot(), Install(newPool))
      modifies this
      ensures Valid() && Snapshot() == Step(old(Snapshot()), Install(newPool))
      ensures pool == Some(newPool) && closed[newPool] == 0
      ensures old(pool).Some? && old(pool) != Some(newPool) ==>
                (closed[old(pool).value] == 1 <==> Out(sessions, old(pool).value) == 0)
    {
      InstallReplaces(Snapshot(), newPool);
      StepInv(Snapshot(), Install(newPool));
      var oldPool := pool;
      assert oldPool.Some? ==> PoolInv(Snapshot(), oldPool.value);
      pool := Some(newPool);
      installed := installed + {newPool};
      active := active[newPool := Lookup(active, newPool, 0)];
      if oldPool.None? || oldPool == Some(newPool) {
        return;
      }
      if Lookup(active, oldPool.value, 0) == 0 {
        CloseAll(oldPool.value);
        active := active - {oldPool.value};
      } else {
        retired := retired + {oldPool.value};
      }
    }

    /** `getconnFails`: the pool is exhausted or the server refused. */
    method CheckoutConnection(ghost session: nat, getconnFails: bool) returns (r: Result<PoolId, Failure>)
      requires Valid() && session < |sessions| && sessions[session].Idle?
      modifies this
      ensures Valid()
      ensures r == if old(pool).None? then Err(NotInitialized)
                   else if getconnFails then Err(GetconnRaised) else Ok(old(pool).value)
      ensures Snapshot() == if r.Ok? then Step(old(Snapshot()), Checkout(session)) else old(Snapshot())
    {
      if pool.None? {
        return Err(NotInitialized);
      }
      var p := pool.value;
      if getconnFails {
        return Err(GetconnRaised);
      }
      StepInv(Snapshot(), Checkout(session));
      active := active[p := Lookup(active, p, 0) + 1];
      sessions := sessions[session := Taken(p)];
      return Ok(p);
    }

    /** The bookkeeping is done whether or not `putconn` raises, which it does on a closed pool. */
    method ReturnConnection(p: PoolId, ghost session: nat, putconnFails: bool) returns (raised: bool)
      requires Valid() && session < |sessions| && sessions[session] == Holding(p)
      modifies this
      ensures Valid() && Snapshot() == Step(old(Snapshot()), Return(session))
      ensures raised == putconnFails
    {
      raised := putconnFails;
      StepInv(Snapshot(), Return(session));
      assert PoolInv(Snapshot(), p);
      var before := Lookup(active, p, 1);
      var remaining := if before == 0 then 0 else before - 1;
      active := active[p := remaining];
      sessions := sessions[session := Returned];
      if remaining == 0 && p in retired {
        retired := retired - {p};
        CloseAll(p);
        active := active - {p};
      }
    }

    method CountIn(ghost session: nat)
      requires Valid() && Enabled(Snapshot(), Action.CountIn(session))
      modifies this`gauge, this`sessions
      ensures Valid() && Snapshot() == Step(old(Snapshot()), Action.CountIn(session))
    {
      StepInv(Snapshot(), Action.CountIn(session));
      gauge := gauge + 1;
      sessions := sessions[session := Holding(sessions[session].pool)];
    }

    method CountOut(ghost session: nat)
      requires Valid() && Enabled(Snapshot(), Action.CountOut(session))
      modifies this`gauge, this`sessions
      ensures Valid() && Snapshot() == Step(old(Snapshot()), Action.CountOut(session))
    {
      StepInv(Snapshot(), Action.CountOut(session));
      gauge := gauge - 1;
      sessions := sessions[session := Idle];
    }

    /** The locked block of `close_pool`: the pools to close afterwards. */
    method DetachPools() returns (pools: set<PoolId>)
      requires Valid()
      modifies this
      ensures Valid() && Snapshot() == Step(old(Snapshot()), Detach)
      ensures closing == old(closing) + multiset(pools)
    {
      DetachStep(Snapshot());
      pools := retired;
      retired := {};
      if pool.Some? {
        pools := pools + {pool.value};
      }
      pool := None;
      active := map[];
      dropped := dropped + pools;
      closing := closing + multiset(pools);
    }

    method CloseDetachedPool(p: PoolId)
      requires Valid() && p in closing
      modifies this`closing, this`closed
      ensures Valid() && Snapshot() == Step(old(Snapshot()), CloseDetached(p))
    {
      StepInv(Snapshot(), CloseDetached(p));
      assert PoolInv(Snapshot(), p);
      closing := closing - multiset{p};
      CloseAll(p);
    }
  }
}
