/** The counting breaker under concurrency: one step per critical section, any
    number of callers, a clock that never goes back. allowRequest reads the phase
    under one lock and acts on it under another, so it may act on a stale phase. */
module CountingThreads {
  import opened Breakers
  import opened CountingBreaker

  /** Where a caller stands inside Execute. */
  datatype Pc =
    | Idle
    | Saw(phase: Phase, count: int)   // read both under the read lock
    | Admitted                        // about to count the request
    | Refused                         // about to count the rejection
    | Running                         // the operation runs
    | GaveUp                          // the context ended first: counted as a timeout

  /** What the scheduler lets the chosen caller do; `end` is how its operation comes out. */
  datatype Ending = Succeeds | Fails | TimesOut
  datatype Move = Move(tid: nat, now: int, end: Ending) | Manual

  datatype State = State(cfg: Config, core: Core, threads: seq<Pc>)

  function Init(cfg: Config, n: nat): State {
    State(cfg, FRESH, seq(n, _ => Idle))
  }

  function Set(s: State, i: nat, pc: Pc, core: Core): State
    requires i < |s.threads|
  {
    s.(threads := s.threads[i := pc], core := core)
  }

  function Exec(s: State, i: nat, now: int, end: Ending): State
    requires i < |s.threads|
  {
    var c := s.core;
    match s.threads[i]
    case Idle => Set(s, i, Saw(c.phase, c.halfOpenCount), c)
    case Saw(Closed, _) => Set(s, i, Admitted, c)
    case Saw(Open, _) =>
      Set(s, i, if ResetDue(s.cfg, c, now) then Admitted else Refused, AttemptReset(s.cfg, c, now))
    case Saw(HalfOpen, count) => Set(s, i, if count < s.cfg.halfOpenLimit then Admitted else Refused, c)
    case Admitted => Set(s, i, Running, c.(totalRequests := c.totalRequests + 1))
    case Refused => Set(s, i, Idle, c.(rejectedCount := c.rejectedCount + 1))
    case Running =>
      (match end
       case Succeeds => Set(s, i, Idle, Succeed(s.cfg, c))
       case Fails => Set(s, i, Idle, Fail(s.cfg, c, now))
       case TimesOut => Set(s, i, GaveUp, c.(timeoutCount := c.timeoutCount + 1)))
    case GaveUp => Set(s, i, Idle, Fail(s.cfg, c, now))
  }

  function Step(s: State, m: Move): State {
    match m
    case Manual => s.(core := ManualReset(s.core))
    case Move(tid, now, end) => if tid < |s.threads| then Exec(s, tid, now, end) else s
  }

  function Run(s: State, moves: seq<Move>): State {
    if moves == [] then s else Step(Run(s, moves[..|moves| - 1]), moves[|moves| - 1])
  }

  /** Counted as a request, not yet as a success or failure. */
  predicate InFlight(pc: Pc) {
    pc.Running? || pc.GaveUp?
  }

  function CountInFlight(threads: seq<Pc>): nat {
    if threads == [] then 0 else CountInFlight(threads[1..]) + (if InFlight(threads[0]) then 1 else 0)
  }

  function CountGaveUp(threads: seq<Pc>): nat {
    if threads == [] then 0 else CountGaveUp(threads[1..]) + (if threads[0].GaveUp? then 1 else 0)
  }

  lemma {:induction false} CountUpdate(threads: seq<Pc>, i: nat, pc: Pc)
    requires i < |threads|
    ensures CountInFlight(threads[i := pc]) ==
            CountInFlight(threads) - (if InFlight(threads[i]) then 1 else 0) + (if InFlight(pc) then 1 else 0)
    ensures CountGaveUp(threads[i := pc]) ==
            CountGaveUp(threads) - (if threads[i].GaveUp? then 1 else 0) + (if pc.GaveUp? then 1 else 0)
  {
    if i > 0 {
      CountUpdate(threads[1..], i - 1, pc);
      assert threads[i := pc][1..] == threads[1..][i - 1 := pc];
    } else {
      assert threads[i := pc][1..] == threads[1..];
    }
  }

  lemma {:induction false} CountIdle(threads: seq<Pc>)
    requires forall i :: 0 <= i < |threads| ==> threads[i].Idle?
    ensures CountInFlight(threads) == 0 && CountGaveUp(threads) == 0
  {
    if threads != [] {
      CountIdle(threads[1..]);
    }
  }

  ghost predicate Balanced(c: Core, threads: seq<Pc>) {
    && c.totalRequests == c.successCount + c.failureCount + CountInFlight(threads)
    && c.timeoutCount <= c.failureCount + CountGaveUp(threads)
  }

  ghost predicate Inv(s: State) {
    s.cfg.Valid() && CoreInv(s.cfg, s.core) && Balanced(s.core, s.threads)
  }

  lemma CoreStep(s: State, m: Move)
    requires s.cfg.Valid() && CoreInv(s.cfg, s.core)
    ensures CoreInv(s.cfg, Step(s, m).core) && Step(s, m).cfg == s.cfg && |Step(s, m).threads| == |s.threads|
  {
  }

  lemma BalanceStep(s: State, i: nat, now: int, end: Ending)
    requires Balanced(s.core, s.threads) && i < |s.threads|
    ensures var t := Exec(s, i, now, end); Balanced(t.core, t.threads)
  {
    CountUpdate(s.threads, i, Exec(s, i, now, end).threads[i]);
  }

  lemma InvStep(s: State, m: Move)
    requires Inv(s)
    ensures Inv(Step(s, m)) && Step(s, m).cfg == s.cfg && |Step(s, m).threads| == |s.threads|
  {
    CoreStep(s, m);
    if m.Move? && m.tid < |s.threads| {
      BalanceStep(s, m.tid, m.now, m.end);
    }
  }

  lemma {:induction false} InvRun(s: State, moves: seq<Move>)
    requires Inv(s)
    ensures Inv(Run(s, moves)) && Run(s, moves).cfg == s.cfg && |Run(s, moves).threads| == |s.threads|
    decreases |moves|
  {
    if moves != [] {
      InvRun(s, moves[..|moves| - 1]);
      InvStep(Run(s, moves[..|moves| - 1]), moves[|moves| - 1]);
    }
  }

  /** In every interleaving: a Closed breaker is below its failure threshold, the
      probe count lives only in HalfOpen and below its limit, and every request
      counted is a success, a failure or still in flight. */
  lemma EveryInterleaving(cfg: Config, n: nat, moves: seq<Move>)
    requires cfg.Valid()
    ensures var s := Run(Init(cfg, n), moves);
            && CoreInv(cfg, s.core)
            && s.core.totalRequests == s.core.successCount + s.core.failureCount + CountInFlight(s.threads)
            && s.core.timeoutCount <= s.core.failureCount + CountGaveUp(s.threads)
  {
    CountIdle(Init(cfg, n).threads);
    InvRun(Init(cfg, n), moves);
  }

  // ---- Which phase changes can happen.

  /** The caller decided to probe after reading Open, the breaker has been closed
      since, and the timeout test still passes. */
  predicate StaleProbe(s: State, m: Move) {
    && m.Move? && m.tid < |s.threads| && s.threads[m.tid].Saw? && s.threads[m.tid].phase == Open
    && s.core.phase == Closed && ResetDue(s.cfg, s.core, m.now)
  }

  /** Every move follows the diagram, except exactly the stale probe, which takes a
      Closed breaker to HalfOpen. */
  lemma OnlyStaleProbesStray(s: State, m: Move)
    requires Inv(s)
    ensures !Documented(s.core.phase, Step(s, m).core.phase, m.Manual?) <==> StaleProbe(s, m)
    ensures StaleProbe(s, m) ==> Step(s, m).core.phase == HalfOpen
  {
  }

  /** The caller read Open, the breaker is probing by now, and the timeout test passes. */
  predicate StaleRestart(s: State, m: Move) {
    && m.Move? && m.tid < |s.threads| && s.threads[m.tid].Saw? && s.threads[m.tid].phase == Open
    && s.core.phase == HalfOpen && ResetDue(s.cfg, s.core, m.now)
  }

  /** Within a half-open phase successful probes are forgotten exactly by a caller that
      read Open before the phase began, if any had finished. */
  lemma ForgetsExactly(s: State, m: Move)
    requires Inv(s) && s.core.phase == HalfOpen
    ensures (Step(s, m).core.phase == HalfOpen && Step(s, m).core.halfOpenCount < s.core.halfOpenCount)
            <==> StaleRestart(s, m) && s.core.halfOpenCount > 0
    ensures StaleRestart(s, m) ==> Step(s, m).core.halfOpenCount == 0
  {
  }
}
