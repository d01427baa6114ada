/** The counting breaker's books: what its counters count, from when Open waits, that an
    undisturbed call is one Execute, and that a manual reset makes it as new. */
module CountingCalls {
  import opened Options
  import opened Counts
  import opened Breakers
  import opened CountingBreaker
  import opened CountingThreads
  import opened CountingProbes

  // ---- What the counters count, in any interleaving.

  predicate At(s: State, m: Move, pc: Pc) {
    m.Move? && m.tid < |s.threads| && s.threads[m.tid] == pc
  }

  /** The move records a success, or a failure; a call that gave up records one, too. */
  predicate EndsWell(s: State, m: Move) {
    At(s, m, Running) && m.end == Succeeds
  }

  predicate EndsBadly(s: State, m: Move) {
    (At(s, m, Running) && m.end == Fails) || At(s, m, GaveUp)
  }

  datatype Events = Events(requests: nat, successes: nat, failures: nat, timeouts: nat, rejections: nat)

  function EventsOf(s: State, moves: seq<Move>): Events {
    if moves == [] then Events(0, 0, 0, 0, 0)
    else
      var front, m := moves[..|moves| - 1], moves[|moves| - 1];
      var e, t := EventsOf(s, front), Run(s, front);
      Events(e.requests + One(At(t, m, Admitted)), e.successes + One(EndsWell(t, m)), e.failures + One(EndsBadly(t, m)),
             e.timeouts + One(At(t, m, Running) && m.end == TimesOut), e.rejections + One(At(t, m, Refused)))
  }

  /** When the last failure was recorded, by whatever caller in whatever phase. */
  function LastFailed(s: State, moves: seq<Move>): Option<int> {
    if moves == [] then None
    else
      var front, m := moves[..|moves| - 1], moves[|moves| - 1];
      if EndsBadly(Run(s, front), m) then Some(m.now) else LastFailed(s, front)
  }

  ghost predicate Tells(c: Core, e: Events, last: Option<int>) {
    && c.totalRequests == e.requests && c.successCount == e.successes && c.failureCount == e.failures
    && c.timeoutCount == e.timeouts && c.rejectedCount == e.rejections && c.lastFailure == last
  }

  lemma TellsStep(s: State, m: Move, e: Events, last: Option<int>)
    requires Tells(s.core, e, last)
    ensures Tells(Step(s, m).core,
                  Events(e.requests + One(At(s, m, Admitted)), e.successes + One(EndsWell(s, m)),
                         e.failures + One(EndsBadly(s, m)), e.timeouts + One(At(s, m, Running) && m.end == TimesOut),
                         e.rejections + One(At(s, m, Refused))),
                  if EndsBadly(s, m) then Some(m.now) else last)
  {
  }

  /** In every interleaving each counter counts its own events, and the last failure is the
      last one recorded. */
  lemma {:induction false} CountsExactly(cfg: Config, n: nat, moves: seq<Move>)
    ensures Tells(Run(Init(cfg, n), moves).core, EventsOf(Init(cfg, n), moves), LastFailed(Init(cfg, n), moves))
    decreases |moves|
  {
    if moves != [] {
      var start, front, m := Init(cfg, n), moves[..|moves| - 1], moves[|moves| - 1];
      CountsExactly(cfg, n, front);
      TellsStep(Run(start, front), m, EventsOf(start, front), LastFailed(start, front));
    }
  }

  /** A caller that read Open is admitted exactly when no failure has been recorded for
      `resetTimeout`: one recorded while Open starts the wait anew. */
  lemma OpenWaitsForTheLastFailure(cfg: Config, n: nat, moves: seq<Move>, m: Move)
    requires var s := Run(Init(cfg, n), moves);
             m.Move? && m.tid < |s.threads| && s.threads[m.tid].Saw? && s.threads[m.tid].phase == Open && s.cfg == cfg
    ensures var last := LastFailed(Init(cfg, n), moves);
            Step(Run(Init(cfg, n), moves), m).threads[m.tid] == Admitted
            <==> last == None || m.now - last.value >= cfg.resetTimeout
  {
    CountsExactly(cfg, n, moves);
  }

  /** Past its reading, a caller is admitted exactly if it read Closed, or read HalfOpen with
      fewer probes finished than the limit, or read Open and no failure is too recent now. */
  lemma AdmittedExactly(s: State, m: Move)
    requires m.Move? && m.tid < |s.threads| && s.threads[m.tid].Saw?
    ensures var seen, last := s.threads[m.tid], s.core.lastFailure;
            Step(s, m).threads[m.tid] == Admitted <==>
            || seen.phase == Closed
            || (seen.phase == HalfOpen && seen.count < s.cfg.halfOpenLimit)
            || (seen.phase == Open && (last == None || m.now - last.value >= s.cfg.resetTimeout))
    ensures Step(s, m).threads[m.tid] in {Admitted, Refused}
  {
  }

  /** The caller acts on having read Open, and the timeout test passes. */
  predicate StartsProbing(s: State, m: Move) {
    && m.Move? && m.tid < |s.threads| && s.threads[m.tid].Saw? && s.threads[m.tid].phase == Open
    && (s.core.lastFailure == None || m.now - s.core.lastFailure.value >= s.cfg.resetTimeout)
  }

  /** The phase, the failures and the finished probes after any move of any caller. */
  lemma MoveExactly(s: State, m: Move)
    requires s.cfg.Valid() && CoreInv(s.cfg, s.core)
    ensures var c, d, cfg := s.core, Step(s, m).core, s.cfg;
            var closes := EndsWell(s, m) && c.phase == HalfOpen && c.halfOpenCount + 1 == cfg.halfOpenLimit;
            && d.phase == (if m.Manual? || closes then Closed
                           else if StartsProbing(s, m) then HalfOpen
                           else if EndsBadly(s, m) && (c.phase == HalfOpen || c.failures + 1 >= cfg.maxFailures) then Open
                           else c.phase)
            && d.failures == (if m.Manual? || closes || (EndsWell(s, m) && c.phase == Closed) then 0
                              else c.failures + One(EndsBadly(s, m)))
            && d.halfOpenCount == (if d.phase != HalfOpen || StartsProbing(s, m) then 0
                                   else c.halfOpenCount + One(EndsWell(s, m)))
  {
  }

  /** The limit never refuses anyone: finished probes stay below it as long as the phase
      lasts, so whoever reads HalfOpen is admitted. */
  lemma {:induction false} HalfOpenRefusesNobody(cfg: Config, n: nat, moves: seq<Move>)
    requires cfg.Valid()
    ensures var s := Run(Init(cfg, n), moves);
            forall i :: 0 <= i < |s.threads| && s.threads[i].Saw? && s.threads[i].phase == HalfOpen ==>
                          s.threads[i].count < s.cfg.halfOpenLimit
    decreases |moves|
  {
    if moves != [] {
      HalfOpenRefusesNobody(cfg, n, moves[..|moves| - 1]);
      CountIdle(Init(cfg, n).threads);
      InvRun(Init(cfg, n), moves[..|moves| - 1]);
    }
  }

  // ---- An undisturbed call.

  lemma RunOne(s: State, m: Move)
    ensures Run(s, [m]) == Step(s, m)
  {
    assert [m][..0] == [];
  }

  lemma RunTwo(s: State, m: Move, t: State, n: Move, u: State)
    requires Step(s, m) == t && Step(t, n) == u
    ensures Run(s, [m] + [n]) == u
  {
    RunOne(s, m);
    RunOne(t, n);
    RunJoin(s, [m], [n]);
  }

  lemma SetTwice(s: State, i: nat, a: Pc, c: Core, b: Pc, d: Core)
    requires i < |s.threads|
    ensures |Set(s, i, a, c).threads| == |s.threads| && Set(Set(s, i, a, c), i, b, d) == Set(s, i, b, d)
  {
    assert s.threads[i := a][i := b] == s.threads[i := b];
  }

  /** Reading the phase and acting on it: admitted or refused, as one request would be. */
  lemma Decides(s: State, i: nat, now: int) returns (moves: seq<Move>)
    requires i < |s.threads| && s.threads[i] == Idle
    ensures Run(s, moves) == Set(s, i, if Admits(s.cfg, s.core, now) then Admitted else Refused,
                                 if s.core.phase == Open then AttemptReset(s.cfg, s.core, now) else s.core)
  {
    var look := Move(i, now, Succeeds);
    var saw, next := Saw(s.core.phase, s.core.halfOpenCount), if Admits(s.cfg, s.core, now) then Admitted else Refused;
    var core := if s.core.phase == Open then AttemptReset(s.cfg, s.core, now) else s.core;
    SetTwice(s, i, saw, s.core, next, core);
    RunTwo(s, look, Set(s, i, saw, s.core), look, Set(s, i, next, core));
    moves := [look] + [look];
  }

  /** The rest of an admitted call. */
  lemma Finishes(s: State, i: nat, start: int, end: int, ending: Ending) returns (moves: seq<Move>, core: Core)
    requires i < |s.threads| && s.threads[i] == Admitted
    ensures Run(s, moves) == Set(s, i, Idle, core)
    ensures var c := s.core.(totalRequests := s.core.totalRequests + 1);
            core == if ending == Succeeds then Succeed(s.cfg, c)
                    else Fail(s.cfg, c.(timeoutCount := c.timeoutCount + One(ending == TimesOut)), end)
  {
    var step, finish := Move(i, start, Succeeds), Move(i, end, ending);
    var c := s.core.(totalRequests := s.core.totalRequests + 1);
    var running := Set(s, i, Running, c);
    if ending == TimesOut {
      var d := c.(timeoutCount := c.timeoutCount + 1);
      core := Fail(s.cfg, d, end);
      SetTwice(s, i, Running, c, GaveUp, d);
      SetTwice(s, i, GaveUp, d, Idle, core);
      RunTwo(s, step, running, finish, Set(s, i, GaveUp, d));
      RunOne(Set(s, i, GaveUp, d), finish);
      RunJoin(s, [step] + [finish], [finish]);
      moves := ([step] + [finish]) + [finish];
    } else {
      core := if ending == Succeeds then Succeed(s.cfg, c) else Fail(s.cfg, c, end);
      SetTwice(s, i, Running, c, Idle, core);
      RunTwo(s, step, running, finish, Set(s, i, Idle, core));
      moves := [step] + [finish];
    }
  }

  /** A call that nobody comes between leaves what one Execute leaves. If it gives up it
      counts as a failure, and as a timeout besides. */
  lemma AloneIsServe(s: State, i: nat, start: int, end: int, ending: Ending) returns (moves: seq<Move>, core: Core)
    requires i < |s.threads| && s.threads[i] == Idle
    ensures Run(s, moves) == s.(core := core)
    ensures var served := Serve(s.cfg, s.core, Request(start, end, ending == Succeeds));
            core == served.(timeoutCount := served.timeoutCount
                                            + One(ending == TimesOut && Admits(s.cfg, s.core, start)))
  {
    var first := Decides(s, i, start);
    var decided := Run(s, first);
    assert s.threads[i := Idle] == s.threads;
    if Admits(s.cfg, s.core, start) {
      var rest;
      rest, core := Finishes(decided, i, start, end, ending);
      RunJoin(s, first, rest);
      SetTwice(s, i, Admitted, decided.core, Idle, core);
      moves := first + rest;
    } else {
      core := decided.core.(rejectedCount := decided.core.rejectedCount + 1);
      RunOne(decided, Move(i, start, Succeeds));
      RunJoin(s, first, [Move(i, start, Succeeds)]);
      SetTwice(s, i, Refused, decided.core, Idle, core);
      moves := first + [Move(i, start, Succeeds)];
    }
  }

  // ---- The manual reset.

  function ServeAll(cfg: Config, c: Core, trace: seq<Request>): Core {
    if trace == [] then c else Serve(cfg, ServeAll(cfg, c, trace[..|trace| - 1]), trace[|trace| - 1])
  }

  /** The same to any caller: phase, failures and probes, and while Open the same wait. */
  ghost predicate Alike(c: Core, d: Core) {
    && c.phase == d.phase && c.failures == d.failures && c.halfOpenCount == d.halfOpenCount
    && (c.phase == Open ==> c.lastFailure == d.lastFailure)
  }

  /** Its counters are those of `d`, on top of those of `base`. */
  ghost predicate CountsOnTop(c: Core, base: Core, d: Core) {
    && c.totalRequests == base.totalRequests + d.totalRequests && c.successCount == base.successCount + d.successCount
    && c.failureCount == base.failureCount + d.failureCount && c.timeoutCount == base.timeoutCount + d.timeoutCount
    && c.rejectedCount == base.rejectedCount + d.rejectedCount
  }

  /** After a manual reset the breaker serves whatever comes as a new one would; only its
      counters go on from where they were. */
  lemma {:induction false} ResetServesAsNew(cfg: Config, c: Core, trace: seq<Request>)
    requires cfg.Valid()
    ensures Alike(ServeAll(cfg, ManualReset(c), trace), ServeAll(cfg, FRESH, trace))
    ensures CountsOnTop(ServeAll(cfg, ManualReset(c), trace), c, ServeAll(cfg, FRESH, trace))
    decreases |trace|
  {
    if trace != [] {
      ResetServesAsNew(cfg, c, trace[..|trace| - 1]);
    }
  }

  // ---- Defaults.

  /** Each field left blank takes its own default: five failures, thirty seconds, three
      probes. */
  lemma DefaultsExactly(c: Config)
    ensures var d := Normalize(c);
            && Filled(d.maxFailures, c.maxFailures, 5) && Filled(d.resetTimeout, c.resetTimeout, 30_000_000_000)
            && Filled(d.halfOpenLimit, c.halfOpenLimit, 3)
  {
  }
}
