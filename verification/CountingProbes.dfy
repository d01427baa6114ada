/** What callers of the counting breaker can bring about between its two locks, in runs
    whose clock never goes back and that nobody resets by hand. */
module CountingProbes {
  import opened Options
  import opened Breakers
  import opened CountingBreaker
  import opened CountingThreads

  /** The moves of a run happen at times that never go back. */
  predicate Ordered(moves: seq<Move>) {
    forall j, k :: 0 <= j < k < |moves| && moves[j].Move? && moves[k].Move? ==> moves[j].now <= moves[k].now
  }

  /** No call gives up on its operation. */
  predicate Timely(moves: seq<Move>) {
    forall k :: 0 <= k < |moves| && moves[k].Move? ==> !moves[k].end.TimesOut?
  }

  /** Ordered, unreset, timely, and all between two times. */
  ghost predicate Timed(moves: seq<Move>, from: int, to: int) {
    && Ordered(moves) && Manual !in moves && Timely(moves)
    && forall k :: 0 <= k < |moves| && moves[k].Move? ==> from <= moves[k].now <= to
  }

  /** A run from `s` to `t` between two times. */
  ghost predicate Leads(s: State, moves: seq<Move>, t: State, from: int, to: int) {
    Timed(moves, from, to) && Run(s, moves) == t
  }

  lemma {:induction false} RunJoin(s: State, a: seq<Move>, b: seq<Move>)
    ensures Run(s, a + b) == Run(Run(s, a), b)
    decreases |b|
  {
    if b == [] {
      assert a + b == a;
    } else {
      RunJoin(s, a, b[..|b| - 1]);
      assert (a + b)[..|a + b| - 1] == a + b[..|b| - 1];
    }
  }

  lemma Join(s: State, a: seq<Move>, t: State, b: seq<Move>, u: State, from: int, at: int, to: int)
    requires from <= at <= to && Leads(s, a, t, from, at) && Leads(t, b, u, at, to)
    ensures Leads(s, a + b, u, from, to)
  {
    RunJoin(s, a, b);
    TimedJoin(a, b, from, at, to);
  }

  lemma TimedJoin(a: seq<Move>, b: seq<Move>, from: int, at: int, to: int)
    requires from <= at <= to && Timed(a, from, at) && Timed(b, at, to)
    ensures Timed(a + b, from, to)
  {
    forall j, k | 0 <= j < k < |a + b| && (a + b)[j].Move? && (a + b)[k].Move?
      ensures (a + b)[j].now <= (a + b)[k].now
    {
      assert j < |a| ==> a[j].now <= at;
      assert k >= |a| ==> at <= b[k - |a|].now;
    }
  }

  lemma OneMove(s: State, m: Move) returns (moves: seq<Move>)
    requires m.Move? && !m.end.TimesOut?
    ensures Leads(s, moves, Step(s, m), m.now, m.now)
  {
    moves := [m];
    assert moves[..0] == [];
  }

  /** One more move at the same time. */
  lemma More(s: State, moves: seq<Move>, t: State, m: Move, from: int) returns (more: seq<Move>)
    requires m.Move? && !m.end.TimesOut? && from <= m.now && Leads(s, moves, t, from, m.now)
    ensures Leads(s, more, Step(t, m), from, m.now)
  {
    var last := OneMove(t, m);
    Join(s, moves, t, last, Step(t, m), from, m.now, m.now);
    more := moves + last;
  }

  // ---- What one caller does undisturbed.

  /** A caller that is let in without changing the phase. */
  predicate LetIn(s: State) {
    s.core.phase == Closed || (s.core.phase == HalfOpen && s.core.halfOpenCount < s.cfg.halfOpenLimit)
  }

  function Started(s: State, i: nat): State
    requires i < |s.threads|
  {
    Set(s, i, Running, s.core.(totalRequests := s.core.totalRequests + 1))
  }

  lemma Enter(s: State, i: nat, now: int) returns (moves: seq<Move>)
    requires i < |s.threads| && s.threads[i] == Idle && LetIn(s)
    ensures Leads(s, moves, Started(s, i), now, now)
  {
    var go := Move(i, now, Succeeds);
    var s1 := Set(s, i, Saw(s.core.phase, s.core.halfOpenCount), s.core);
    var s2 := Set(s, i, Admitted, s.core);
    moves := OneMove(s, go);
    assert Step(s, go) == s1;
    moves := More(s, moves, s1, go, now);
    assert Step(s1, go) == s2;
    moves := More(s, moves, s2, go, now);
    assert Step(s2, go) == Started(s, i);
  }

  /** A whole call that succeeds or fails. */
  lemma Call(s: State, i: nat, now: int, end: Ending) returns (moves: seq<Move>, t: State)
    requires i < |s.threads| && s.threads[i] == Idle && LetIn(s) && !end.TimesOut?
    ensures Leads(s, moves, t, now, now) && t.cfg == s.cfg && t.threads == s.threads
    ensures var c := s.core.(totalRequests := s.core.totalRequests + 1);
            t.core == if end.Succeeds? then Succeed(s.cfg, c) else Fail(s.cfg, c, now)
  {
    moves := Enter(s, i, now);
    t := Step(Started(s, i), Move(i, now, end));
    moves := More(s, moves, Started(s, i), Move(i, now, end), now);
    assert s.threads[i := Running][i := Idle] == s.threads;
  }

  /** Failures one after the other open a Closed breaker. */
  lemma {:induction false} Trip(s: State, i: nat, now: int) returns (moves: seq<Move>, t: State)
    requires i < |s.threads| && s.threads[i] == Idle && s.core.phase == Closed && CoreInv(s.cfg, s.core)
    ensures Leads(s, moves, t, now, now) && t.cfg == s.cfg && t.threads == s.threads
    ensures CoreInv(t.cfg, t.core) && t.core.phase == Open && t.core.lastFailure == Some(now)
    decreases s.cfg.maxFailures - s.core.failures
  {
    moves, t := Call(s, i, now, Fails);
    if t.core.phase == Closed {
      var rest, u := Trip(t, i, now);
      Join(s, moves, t, rest, u, now, now, now);
      moves, t := moves + rest, u;
    }
  }

  /** Probes one after the other close a HalfOpen breaker. */
  lemma {:induction false} Recover(s: State, i: nat, now: int) returns (moves: seq<Move>, t: State)
    requires i < |s.threads| && s.threads[i] == Idle && s.core.phase == HalfOpen && CoreInv(s.cfg, s.core)
    ensures Leads(s, moves, t, now, now) && t.cfg == s.cfg && t.threads == s.threads
    ensures t.core.phase == Closed && t.core.lastFailure == s.core.lastFailure
    decreases s.cfg.halfOpenLimit - s.core.halfOpenCount
  {
    moves, t := Call(s, i, now, Succeeds);
    if t.core.phase == HalfOpen {
      var rest, u := Recover(t, i, now);
      Join(s, moves, t, rest, u, now, now, now);
      moves, t := moves + rest, u;
    }
  }

  lemma Look(s: State, i: nat, now: int) returns (moves: seq<Move>)
    requires i < |s.threads| && s.threads[i] == Idle
    ensures Leads(s, moves, Set(s, i, Saw(s.core.phase, s.core.halfOpenCount), s.core), now, now)
  {
    moves := OneMove(s, Move(i, now, Succeeds));
  }

  /** A caller that read Open restarts the probing and runs. */
  lemma Restart(s: State, i: nat, now: int) returns (moves: seq<Move>)
    requires i < |s.threads| && s.threads[i].Saw? && s.threads[i].phase == Open && ResetDue(s.cfg, s.core, now)
    ensures Leads(s, moves, Started(s.(core := AttemptReset(s.cfg, s.core, now)), i), now, now)
  {
    var go := Move(i, now, Succeeds);
    var s1 := Set(s, i, Admitted, AttemptReset(s.cfg, s.core, now));
    moves := OneMove(s, go);
    assert Step(s, go) == s1;
    moves := More(s, moves, s1, go, now);
    assert s.threads[i := Admitted][i := Running] == s.threads[i := Running];
  }

  /** From a new breaker: caller `i` trips it at time 0, and at `resetTimeout` it is
      probing in the one half-open phase, while `first` has read Open if it is another. */
  lemma FirstProbe(cfg: Config, n: nat, first: nat, i: nat) returns (moves: seq<Move>, t: State)
    requires cfg.Valid() && first < n && i < n
    ensures Leads(Init(cfg, n), moves, t, 0, cfg.resetTimeout) && t.cfg == cfg
    ensures CoreInv(cfg, t.core) && t.core.phase == HalfOpen
    ensures t.core.halfOpenCount == 0 && t.core.lastFailure == Some(0)
    ensures t.threads == Init(cfg, n).threads[first := Saw(Open, 0)][i := Running]
  {
    var s, now := Init(cfg, n), cfg.resetTimeout;
    var s1;
    moves, s1 := Trip(s, i, 0);
    if first != i {
      moves, s1 := Then(s, moves, s1, first, now);
    }
    var s2 := Set(s1, i, Saw(Open, 0), s1.core);
    var look := Look(s1, i, now);
    var go := Restart(s2, i, now);
    t := Started(s2.(core := AttemptReset(cfg, s2.core, now)), i);
    Join(s1, look, s2, go, t, now, now, now);
    Late(s, moves, s1, now);
    Join(s, moves, s1, look + go, t, 0, now, now);
    moves := moves + (look + go);
    assert s1.threads[i := Saw(Open, 0)][i := Running] == s1.threads[i := Running];
    assert first == i ==> t.threads == s.threads[first := Saw(Open, 0)][i := Running];
  }

  /** A run may be taken to end later. */
  lemma Late(s: State, moves: seq<Move>, t: State, now: int)
    requires now >= 0 && (Leads(s, moves, t, 0, 0) || Leads(s, moves, t, 0, now))
    ensures Leads(s, moves, t, 0, now)
  {
  }

  lemma Then(s: State, moves: seq<Move>, t: State, first: nat, now: int) returns (more: seq<Move>, u: State)
    requires now >= 0 && Leads(s, moves, t, 0, 0) && first < |t.threads| && t.threads[first] == Idle
    ensures u == Set(t, first, Saw(t.core.phase, t.core.halfOpenCount), t.core)
    ensures Leads(s, more, u, 0, now)
  {
    u := Set(t, first, Saw(t.core.phase, t.core.halfOpenCount), t.core);
    var look := Look(t, first, now);
    Late(s, moves, t, now);
    Join(s, moves, t, look, u, 0, now, now);
    more := moves + look;
  }

  // ---- How many probes can be in flight.

  /** The first `k` callers run, the others are idle, and no probe has finished. */
  ghost predicate Probing(s: State, k: nat) {
    && s.core.phase == HalfOpen && s.core.halfOpenCount == 0 && s.cfg.halfOpenLimit >= 1
    && k <= |s.threads|
    && forall i :: 0 <= i < |s.threads| ==> s.threads[i] == if i < k then Running else Idle
  }

  /** Probes are counted when they finish, not when they are let in, so any number of
      callers get in. */
  lemma {:induction false} ProbesPileUp(s: State, k: nat, now: int) returns (moves: seq<Move>, t: State)
    requires Probing(s, k)
    ensures Leads(s, moves, t, now, now) && t.cfg == s.cfg
    ensures Probing(t, |s.threads|) && |t.threads| == |s.threads|
    decreases |s.threads| - k
  {
    if k == |s.threads| {
      moves, t := [], s;
    } else {
      var first := Enter(s, k, now);
      var rest;
      rest, t := ProbesPileUp(Started(s, k), k + 1, now);
      Join(s, first, Started(s, k), rest, t, now, now, now);
      moves := first + rest;
    }
  }

  lemma {:induction false} AllRunning(threads: seq<Pc>)
    ensures CountInFlight(threads) <= |threads|
    ensures (forall i :: 0 <= i < |threads| ==> threads[i] == Running) ==> CountInFlight(threads) == |threads|
  {
    if threads != [] {
      AllRunning(threads[1..]);
    }
  }

  /** At most `halfOpenLimit` calls in flight in HalfOpen. */
  predicate FewCalls(s: State) {
    s.core.phase == HalfOpen ==> CountInFlight(s.threads) <= s.cfg.halfOpenLimit
  }

  ghost predicate CallsBounded(cfg: Config, n: nat) {
    forall moves | Ordered(moves) && Manual !in moves :: FewCalls(Run(Init(cfg, n), moves))
  }

  /** The half-open limit bounds the calls in flight exactly when there are no more
      callers than that. An operation whose call has given up is not counted here. */
  lemma CallsBoundedExactly(cfg: Config, n: nat)
    requires cfg.Valid()
    ensures CallsBounded(cfg, n) <==> n <= cfg.halfOpenLimit
  {
    var start := Init(cfg, n);
    if n <= cfg.halfOpenLimit {
      forall moves
        ensures FewCalls(Run(start, moves))
      {
        CountIdle(start.threads);
        InvRun(start, moves);
        AllRunning(Run(start, moves).threads);
      }
    } else {
      var moves, t := AllProbing(cfg, n);
      AllRunning(t.threads);
      assert !FewCalls(Run(start, moves));
    }
  }

  /** From a new breaker, all callers get to run in one half-open phase. */
  lemma AllProbing(cfg: Config, n: nat) returns (moves: seq<Move>, t: State)
    requires cfg.Valid() && n >= 1
    ensures Leads(Init(cfg, n), moves, t, 0, cfg.resetTimeout) && t.cfg == cfg && t.core.phase == HalfOpen
    ensures |t.threads| == n && forall i :: 0 <= i < n ==> t.threads[i] == Running
  {
    var start, s := Init(cfg, n), Init(cfg, n);
    moves, s := FirstProbe(cfg, n, 0, 0);
    var rest;
    rest, t := ProbesPileUp(s, 1, cfg.resetTimeout);
    Join(start, moves, s, rest, t, 0, cfg.resetTimeout, cfg.resetTimeout);
    moves := moves + rest;
  }

  // ---- Callers that read Open too early.

  /** The move is ordered after the run, and strays off the diagram. */
  ghost predicate Strays(cfg: Config, n: nat, moves: seq<Move>, m: Move) {
    Ordered(moves + [m]) && Manual !in moves && StaleProbe(Run(Init(cfg, n), moves), m)
  }

  /** The move is ordered after the run, and forgets a finished probe. */
  ghost predicate Forgets(cfg: Config, n: nat, moves: seq<Move>, m: Move) {
    var s := Run(Init(cfg, n), moves);
    Ordered(moves + [m]) && Manual !in moves && StaleRestart(s, m) && s.core.halfOpenCount > 0
  }

  ghost predicate CanStray(cfg: Config, n: nat) {
    exists moves, m :: Strays(cfg, n, moves, m)
  }

  ghost predicate CanForget(cfg: Config, n: nat) {
    exists moves, m :: Forgets(cfg, n, moves, m)
  }

  /** A caller alone never finds that Open is over. */
  lemma {:induction false} AloneUpToDate(cfg: Config, n: nat, moves: seq<Move>)
    requires cfg.Valid() && n <= 1 && Manual !in moves
    ensures var s := Run(Init(cfg, n), moves);
            && |s.threads| == n
            && forall i :: 0 <= i < n && s.threads[i].Saw? && s.threads[i].phase == Open ==> s.core.phase == Open
    decreases |moves|
  {
    if moves != [] {
      AloneUpToDate(cfg, n, moves[..|moves| - 1]);
    }
  }

  lemma AfterAll(moves: seq<Move>, m: Move, now: int)
    requires Timed(moves, 0, now) && m.Move? && m.now == now
    ensures Ordered(moves + [m])
  {
  }

  /** The diagram can be left, without a manual reset, exactly when there are two callers. */
  lemma CanStrayExactly(cfg: Config, n: nat)
    requires cfg.Valid()
    ensures CanStray(cfg, n) <==> n >= 2
  {
    var start, now := Init(cfg, n), cfg.resetTimeout;
    if n >= 2 {
      var moves, s := FirstProbe(cfg, n, 0, 1);
      var done := Step(s, Move(1, now, Succeeds));
      moves := More(start, moves, s, Move(1, now, Succeeds), 0);
      var t := done;
      if done.core.phase == HalfOpen {
        var rest;
        rest, t := Recover(done, 1, now);
        Join(start, moves, done, rest, t, 0, now, now);
        moves := moves + rest;
      }
      AfterAll(moves, Move(0, now, Succeeds), now);
      assert Strays(cfg, n, moves, Move(0, now, Succeeds));
    } else {
      forall moves, m
        ensures !Strays(cfg, n, moves, m)
      {
        if Manual !in moves {
          AloneUpToDate(cfg, n, moves);
        }
      }
    }
  }

  /** Finished probes can be forgotten exactly when there are two callers and the limit
      leaves a finished probe to forget. */
  lemma CanForgetExactly(cfg: Config, n: nat)
    requires cfg.Valid()
    ensures CanForget(cfg, n) <==> n >= 2 && cfg.halfOpenLimit >= 2
  {
    var start, now := Init(cfg, n), cfg.resetTimeout;
    if n >= 2 && cfg.halfOpenLimit >= 2 {
      var moves, s := FirstProbe(cfg, n, 0, 1);
      moves := More(start, moves, s, Move(1, now, Succeeds), 0);
      AfterAll(moves, Move(0, now, Succeeds), now);
      assert Forgets(cfg, n, moves, Move(0, now, Succeeds));
    } else {
      forall moves, m
        ensures !Forgets(cfg, n, moves, m)
      {
        CountIdle(start.threads);
        InvRun(start, moves);
        if n < 2 && Manual !in moves {
          AloneUpToDate(cfg, n, moves);
        }
      }
    }
  }
}
