/** The counting breaker's operations, which go on running when their call has given up
    on them. */
module CountingOperations {
  import opened Options
  import opened Breakers
  import opened CountingBreaker
  import opened CountingThreads
  import opened CountingProbes

  /** `loose` operations still run although their calls have returned or are about to. */
  datatype World = World(s: State, loose: nat)

  datatype Action = Act(m: Move) | LooseEnds

  /** The caller's context ends before its operation does. */
  predicate GivesUp(s: State, m: Move) {
    m.Move? && m.tid < |s.threads| && s.threads[m.tid] == Running && m.end.TimesOut?
  }

  function Do(w: World, a: Action): World {
    match a
    case Act(m) => World(Step(w.s, m), w.loose + (if GivesUp(w.s, m) then 1 else 0))
    case LooseEnds => if w.loose > 0 then w.(loose := w.loose - 1) else w
  }

  function Play(w: World, actions: seq<Action>): World {
    if actions == [] then w else Do(Play(w, actions[..|actions| - 1]), actions[|actions| - 1])
  }

  function CountRunning(threads: seq<Pc>): nat {
    if threads == [] then 0 else CountRunning(threads[1..]) + (if threads[0] == Running then 1 else 0)
  }

  function Operations(w: World): nat {
    CountRunning(w.s.threads) + w.loose
  }

  /** At most `halfOpenLimit` operations running in HalfOpen. */
  predicate FewOperations(w: World) {
    w.s.core.phase == HalfOpen ==> Operations(w) <= w.s.cfg.halfOpenLimit
  }

  predicate IsMoveAt(a: Action) {
    a.Act? && a.m.Move?
  }

  /** The clock never goes back, and nobody resets by hand. */
  predicate OrderedActions(actions: seq<Action>) {
    && Act(Manual) !in actions
    && forall j, k :: 0 <= j < k < |actions| && IsMoveAt(actions[j]) && IsMoveAt(actions[k]) ==>
         actions[j].m.now <= actions[k].m.now
  }

  ghost predicate OperationsBounded(cfg: Config, n: nat) {
    forall actions | OrderedActions(actions) :: FewOperations(Play(World(Init(cfg, n), 0), actions))
  }

  // ---- Runs in which no loose operation has ended yet.

  function Acts(moves: seq<Move>): (actions: seq<Action>)
    ensures |actions| == |moves|
  {
    seq(|moves|, i requires 0 <= i < |moves| => Act(moves[i]))
  }

  function GiveUps(s: State, moves: seq<Move>): nat {
    if moves == [] then 0
    else
      var front := moves[..|moves| - 1];
      GiveUps(s, front) + (if GivesUp(Run(s, front), moves[|moves| - 1]) then 1 else 0)
  }

  lemma {:induction false} PlayActs(s: State, moves: seq<Move>)
    ensures Play(World(s, 0), Acts(moves)) == World(Run(s, moves), GiveUps(s, moves))
    decreases |moves|
  {
    if moves != [] {
      var front := moves[..|moves| - 1];
      PlayActs(s, front);
      assert Acts(moves)[..|moves| - 1] == Acts(front);
    }
  }

  lemma {:induction false} GiveUpsJoin(s: State, a: seq<Move>, b: seq<Move>)
    ensures GiveUps(s, a + b) == GiveUps(s, a) + GiveUps(Run(s, a), b)
    decreases |b|
  {
    if b == [] {
      assert a + b == a;
    } else {
      var front := b[..|b| - 1];
      GiveUpsJoin(s, a, front);
      RunJoin(s, a, front);
      assert (a + b)[..|a + b| - 1] == a + front;
    }
  }

  lemma {:induction false} TimelyGivesUpNothing(s: State, moves: seq<Move>)
    requires Timely(moves)
    ensures GiveUps(s, moves) == 0
    decreases |moves|
  {
    if moves != [] {
      TimelyGivesUpNothing(s, moves[..|moves| - 1]);
    }
  }

  /** An ordered run from `s` to `t` between two times, in which `k` calls give up. */
  ghost predicate Gets(s: State, moves: seq<Move>, t: State, from: int, to: int, k: nat) {
    && Ordered(moves) && Manual !in moves
    && (forall i :: 0 <= i < |moves| && moves[i].Move? ==> from <= moves[i].now <= to)
    && Run(s, moves) == t && GiveUps(s, moves) == k
  }

  lemma LeadsGets(s: State, moves: seq<Move>, t: State, from: int, to: int)
    requires Leads(s, moves, t, from, to)
    ensures Gets(s, moves, t, from, to, 0)
  {
    TimelyGivesUpNothing(s, moves);
  }

  lemma GetsJoin(
    s: State, a: seq<Move>, t: State, b: seq<Move>, u: State, from: int, at: int, to: int, j: nat, k: nat)
    requires from <= at <= to && Gets(s, a, t, from, at, j) && Gets(t, b, u, at, to, k)
    ensures Gets(s, a + b, u, from, to, j + k)
  {
    RunJoin(s, a, b);
    GiveUpsJoin(s, a, b);
    OrderedJoin(a, b, at);
  }

  lemma OrderedJoin(a: seq<Move>, b: seq<Move>, at: int)
    requires Ordered(a) && Ordered(b)
    requires forall i :: 0 <= i < |a| && a[i].Move? ==> a[i].now <= at
    requires forall i :: 0 <= i < |b| && b[i].Move? ==> at <= b[i].now
    ensures Ordered(a + b)
  {
    forall j, k | 0 <= j < k < |a + b| && (a + b)[j].Move? && (a + b)[k].Move?
      ensures (a + b)[j].now <= (a + b)[k].now
    {
      assert j < |a| ==> a[j].now <= at;
      assert k >= |a| ==> at <= b[k - |a|].now;
    }
  }

  /** A caller in a probe gives up, and its failure reopens the breaker. */
  lemma GiveUpProbe(s: State, i: nat, now: int) returns (moves: seq<Move>, t: State)
    requires i < |s.threads| && s.threads[i] == Running && s.core.phase == HalfOpen
    ensures Gets(s, moves, t, now, now, 1) && t.cfg == s.cfg && t.threads == s.threads[i := Idle]
    ensures t.core.phase == Open && t.core.lastFailure == Some(now)
  {
    var first, second := Move(i, now, TimesOut), Move(i, now, Fails);
    var mid := Step(s, first);
    t := Step(mid, second);
    moves := [first] + [second];
    assert [first][..0] == [] && moves[..1] == [first];
    assert Run(s, [first]) == mid && GiveUps(s, [first]) == 1;
    assert s.threads[i := GaveUp][i := Idle] == s.threads[i := Idle];
  }

  /** The next probe of an idle caller, once the timeout has passed. */
  lemma NextProbe(s: State, i: nat, now: int) returns (moves: seq<Move>, t: State)
    requires i < |s.threads| && s.threads[i] == Idle && s.core.phase == Open
    requires s.core.lastFailure.Some? && now - s.core.lastFailure.value >= s.cfg.resetTimeout
    ensures Leads(s, moves, t, now, now) && t.cfg == s.cfg && t.threads == s.threads[i := Running]
    ensures t.core.phase == HalfOpen
  {
    var seen := Set(s, i, Saw(Open, s.core.halfOpenCount), s.core);
    var look := Look(s, i, now);
    var go := Restart(seen, i, now);
    t := Started(seen.(core := AttemptReset(s.cfg, s.core, now)), i);
    Join(s, look, seen, go, t, now, now, now);
    moves := look + go;
    assert s.threads[i := Saw(Open, s.core.halfOpenCount)][i := Running] == s.threads[i := Running];
  }

  /** A probe as soon as the timeout has passed, given up at once. */
  lemma GiveUpOnce(s: State, at: int) returns (moves: seq<Move>, t: State)
    requires s.cfg.Valid() && |s.threads| >= 1 && s.threads[0] == Idle
    requires s.core.phase == Open && s.core.lastFailure == Some(at)
    ensures var now := at + s.cfg.resetTimeout;
            && Gets(s, moves, t, now, now, 1) && t.cfg == s.cfg && t.threads == s.threads
            && t.core.phase == Open && t.core.lastFailure == Some(now)
  {
    var now := at + s.cfg.resetTimeout;
    var probe, probing := NextProbe(s, 0, now);
    LeadsGets(s, probe, probing, now, now);
    var drop;
    drop, t := GiveUpProbe(probing, 0, now);
    GetsJoin(s, probe, probing, drop, t, now, now, now, 0, 1);
    moves := probe + drop;
    assert s.threads[0 := Running][0 := Idle] == s.threads;
  }

  /** `k` probes given up, one after each timeout. */
  lemma {:induction false} GiveUpAgain(s: State, at: int, k: nat) returns (moves: seq<Move>, t: State, end: int)
    requires s.cfg.Valid() && |s.threads| >= 1 && s.threads[0] == Idle
    requires s.core.phase == Open && s.core.lastFailure == Some(at)
    ensures at <= end && Gets(s, moves, t, at, end, k)
    ensures t.cfg == s.cfg && t.threads == s.threads
    ensures t.core.phase == Open && t.core.lastFailure == Some(end)
  {
    if k == 0 {
      moves, t, end := [], s, at;
    } else {
      var front, mid, earlier := GiveUpAgain(s, at, k - 1);
      end := earlier + s.cfg.resetTimeout;
      var last;
      last, t := GiveUpOnce(mid, earlier);
      GetsWider(s, front, mid, at, earlier, end, k - 1);
      GetsJoin(s, front, mid, last, t, at, end, end, k - 1, 1);
      moves := front + last;
    }
  }

  lemma GetsWider(s: State, moves: seq<Move>, t: State, from: int, to: int, later: int, k: nat)
    requires to <= later && Gets(s, moves, t, from, to, k)
    ensures Gets(s, moves, t, from, later, k)
  {
  }

  lemma {:induction false} SomeRunning(threads: seq<Pc>, i: nat)
    requires i < |threads| && threads[i] == Running
    ensures CountRunning(threads) >= 1
  {
    if i > 0 {
      SomeRunning(threads[1..], i - 1);
    }
  }

  /** From a new breaker: one caller leaves `k` operations running and starts another. */
  lemma PileUpLoose(cfg: Config, n: nat, k: nat) returns (moves: seq<Move>, t: State, end: int)
    requires cfg.Valid() && n >= 1
    ensures Gets(Init(cfg, n), moves, t, 0, end, k) && t.cfg == cfg
    ensures t.core.phase == HalfOpen && CountRunning(t.threads) >= 1
  {
    var start := Init(cfg, n);
    var trip, tripped := Trip(start, 0, 0);
    LeadsGets(start, trip, tripped, 0, 0);
    var drops, open, last := GiveUpAgain(tripped, 0, k);
    end := last + cfg.resetTimeout;
    GetsJoin(start, trip, tripped, drops, open, 0, 0, last, 0, k);
    var probe;
    probe, t := NextProbe(open, 0, end);
    LeadsGets(open, probe, t, end, end);
    GetsWider(start, trip + drops, open, 0, last, end, k);
    GetsJoin(start, trip + drops, open, probe, t, 0, end, end, k, 0);
    moves := trip + drops + probe;
    SomeRunning(t.threads, 0);
  }

  lemma {:induction false} NobodyNothing(cfg: Config, actions: seq<Action>)
    ensures var w := Play(World(Init(cfg, 0), 0), actions);
            w.s.core.phase == Closed && w.s.threads == [] && w.s.cfg == cfg
    decreases |actions|
  {
    if actions != [] {
      NobodyNothing(cfg, actions[..|actions| - 1]);
    }
  }

  /** No half-open limit bounds the operations running in HalfOpen, whatever it is and
      however few the callers: it takes only one. */
  lemma OperationsBoundedExactly(cfg: Config, n: nat)
    requires cfg.Valid()
    ensures OperationsBounded(cfg, n) <==> n == 0
  {
    if n == 0 {
      forall actions
        ensures FewOperations(Play(World(Init(cfg, 0), 0), actions))
      {
        NobodyNothing(cfg, actions);
      }
    } else {
      var moves, t, end := PileUpLoose(cfg, n, cfg.halfOpenLimit);
      PlayActs(Init(cfg, n), moves);
      assert OrderedActions(Acts(moves));
      assert !FewOperations(Play(World(Init(cfg, n), 0), Acts(moves)));
    }
  }

  // ---- Without timeouts operations are calls.

  predicate TimelyActions(actions: seq<Action>) {
    forall k :: 0 <= k < |actions| && IsMoveAt(actions[k]) ==> !actions[k].m.end.TimesOut?
  }

  ghost predicate TimelyBounded(cfg: Config, n: nat) {
    forall actions | OrderedActions(actions) && TimelyActions(actions) ::
      FewOperations(Play(World(Init(cfg, n), 0), actions))
  }

  lemma {:induction false} TimelyNoneLoose(cfg: Config, n: nat, actions: seq<Action>)
    requires TimelyActions(actions)
    ensures var w := Play(World(Init(cfg, n), 0), actions);
            w.loose == 0 && |w.s.threads| == n && w.s.cfg == cfg
    decreases |actions|
  {
    if actions != [] {
      TimelyNoneLoose(cfg, n, actions[..|actions| - 1]);
    }
  }

  lemma {:induction false} RunningAtMost(threads: seq<Pc>)
    ensures CountRunning(threads) <= |threads|
    ensures (forall i :: 0 <= i < |threads| ==> threads[i] == Running) ==> CountRunning(threads) == |threads|
  {
    if threads != [] {
      RunningAtMost(threads[1..]);
    }
  }

  /** If no call ever gives up, the limit bounds the operations exactly when there are no
      more callers than that. */
  lemma TimelyBoundedExactly(cfg: Config, n: nat)
    requires cfg.Valid()
    ensures TimelyBounded(cfg, n) <==> n <= cfg.halfOpenLimit
  {
    if n <= cfg.halfOpenLimit {
      forall actions | TimelyActions(actions)
        ensures FewOperations(Play(World(Init(cfg, n), 0), actions))
      {
        TimelyNoneLoose(cfg, n, actions);
        RunningAtMost(Play(World(Init(cfg, n), 0), actions).s.threads);
      }
    } else {
      var moves, t := AllProbing(cfg, n);
      RunningAtMost(t.threads);
      PlayActs(Init(cfg, n), moves);
      assert OrderedActions(Acts(moves)) && TimelyActions(Acts(moves));
      assert !FewOperations(Play(World(Init(cfg, n), 0), Acts(moves)));
    }
  }
}
