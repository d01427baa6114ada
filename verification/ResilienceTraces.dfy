/** What the resilience breaker's states and counters mean, read off the requests it has
    served, one at a time and in any interleaving. */
module ResilienceTraces {
  import opened Options
  import opened Counts
  import opened Breakers
  import opened ResilienceBreaker

  // ---- One request at a time.

  function After(cfg: Config, begin: int, trace: seq<Request>): (c: Core)
    requires cfg.Valid()
    ensures CoreInv(cfg, c)
  {
    if trace == [] then Fresh(begin) else Serve(cfg, After(cfg, begin, trace[..|trace| - 1]), trace[|trace| - 1])
  }

  /** The last request of the trace was let through. */
  predicate RanLast(cfg: Config, begin: int, trace: seq<Request>)
    requires cfg.Valid() && trace != []
  {
    Admits(cfg, After(cfg, begin, trace[..|trace| - 1]), trace[|trace| - 1].start)
  }

  function CountFailures(trace: seq<Request>): nat {
    if trace == [] then 0
    else CountFailures(trace[..|trace| - 1]) + (if trace[|trace| - 1].succeeds then 0 else 1)
  }

  /** While fewer than `maxFailures` requests have failed in all, the breaker is Closed and
      has let everything through: successes in between forgive nothing. */
  lemma {:induction false} ClosedWhile(cfg: Config, begin: int, trace: seq<Request>)
    requires cfg.Valid() && CountFailures(trace) < cfg.maxFailures
    ensures var c := After(cfg, begin, trace);
            && c.phase == Closed && c.failures == CountFailures(trace) && c.requests == |trace|
            && c.successes == |trace| - CountFailures(trace)
    decreases |trace|
  {
    if trace != [] {
      ClosedWhile(cfg, begin, trace[..|trace| - 1]);
    }
  }

  /** It has been Closed throughout exactly while fewer than `maxFailures` requests have
      failed in all, and opens at once when the last of those does. */
  lemma {:induction false} TripsExactly(cfg: Config, begin: int, trace: seq<Request>)
    requires cfg.Valid()
    ensures (forall k :: 0 <= k <= |trace| ==> After(cfg, begin, trace[..k]).phase == Closed)
            <==> CountFailures(trace) < cfg.maxFailures
    ensures trace != [] && CountFailures(trace) == cfg.maxFailures && !trace[|trace| - 1].succeeds
            ==> After(cfg, begin, trace).phase == Open
    decreases |trace|
  {
    assert trace[..|trace|] == trace;
    if trace == [] {
      assert After(cfg, begin, trace[..0]).phase == Closed;
    } else {
      var front := trace[..|trace| - 1];
      TripsExactly(cfg, begin, front);
      assert forall k :: 0 <= k <= |front| ==> front[..k] == trace[..k];
      if CountFailures(front) < cfg.maxFailures {
        ClosedWhile(cfg, begin, front);
        assert After(cfg, begin, trace) == Serve(cfg, After(cfg, begin, front), trace[|front|]);
      }
      if CountFailures(trace) < cfg.maxFailures {
        ClosedWhile(cfg, begin, trace);
        forall k | 0 <= k <= |trace|
          ensures After(cfg, begin, trace[..k]).phase == Closed
        {
          if k <= |front| {
            assert After(cfg, begin, front[..k]).phase == Closed;
          }
        }
      } else if CountFailures(front) < cfg.maxFailures {
        assert After(cfg, begin, trace[..|trace|]).phase != Closed;
      } else {
        var k :| 0 <= k <= |front| && After(cfg, begin, front[..k]).phase != Closed;
        assert After(cfg, begin, trace[..k]).phase != Closed;
      }
    }
  }

  /** When the request that opened the breaker, the last time it did, ended. */
  function OpenedAt(cfg: Config, begin: int, trace: seq<Request>): Option<int>
    requires cfg.Valid()
  {
    if trace == [] then None
    else
      var front, last := trace[..|trace| - 1], trace[|trace| - 1];
      var wasOpen, isOpen := After(cfg, begin, front).phase == Open, After(cfg, begin, trace).phase == Open;
      if isOpen && (!wasOpen || RanLast(cfg, begin, trace)) then Some(last.end)
      else OpenedAt(cfg, begin, front)
  }

  lemma {:induction false} OpenedTracked(cfg: Config, begin: int, trace: seq<Request>)
    requires cfg.Valid()
    ensures var c := After(cfg, begin, trace);
            c.phase == Open ==> OpenedAt(cfg, begin, trace) == Some(c.lastStateChange)
    decreases |trace|
  {
    if trace != [] {
      OpenedTracked(cfg, begin, trace[..|trace| - 1]);
    }
  }

  /** While Open an operation runs exactly when `resetTimeout` has passed since it opened. */
  lemma OpenWaits(cfg: Config, begin: int, trace: seq<Request>, rq: Request)
    requires cfg.Valid() && After(cfg, begin, trace).phase == Open
    ensures OpenedAt(cfg, begin, trace).Some?
    ensures RanLast(cfg, begin, trace + [rq]) <==> rq.start - OpenedAt(cfg, begin, trace).value >= cfg.resetTimeout
  {
    OpenedTracked(cfg, begin, trace);
    assert (trace + [rq])[..|trace|] == trace;
  }

  /** How many operations have run since the breaker last left Open to probe, counting the
      one that made it leave. */
  function ProbeOps(cfg: Config, begin: int, trace: seq<Request>): nat
    requires cfg.Valid()
  {
    if trace == [] then 0
    else
      var front := trace[..|trace| - 1];
      var before := After(cfg, begin, front).phase;
      if !RanLast(cfg, begin, trace) then ProbeOps(cfg, begin, front)
      else if before == Open then 1
      else if before == HalfOpen then ProbeOps(cfg, begin, front) + 1
      else ProbeOps(cfg, begin, front)
  }

  lemma {:induction false} ProbeBounded(cfg: Config, begin: int, trace: seq<Request>)
    requires cfg.Valid()
    ensures ProbeOps(cfg, begin, trace) <= cfg.halfOpenLimit
    ensures var c := After(cfg, begin, trace);
            c.phase == HalfOpen ==> c.halfOpenReqs == ProbeOps(cfg, begin, trace) < cfg.halfOpenLimit
    decreases |trace|
  {
    if trace != [] {
      ProbeBounded(cfg, begin, trace[..|trace| - 1]);
    }
  }

  /** It closes exactly at the `halfOpenLimit`-th operation of a half-open phase, if that
      succeeds; a probe that fails opens it again at once. */
  lemma ClosesExactly(cfg: Config, begin: int, trace: seq<Request>, rq: Request)
    requires cfg.Valid() && After(cfg, begin, trace).phase != Closed
    ensures var next := trace + [rq];
            && (After(cfg, begin, next).phase == Closed <==>
                RanLast(cfg, begin, next) && rq.succeeds && ProbeOps(cfg, begin, next) == cfg.halfOpenLimit)
            && (RanLast(cfg, begin, next) && !rq.succeeds ==> After(cfg, begin, next).phase == Open)
  {
    assert (trace + [rq])[..|trace|] == trace;
    ProbeBounded(cfg, begin, trace);
  }

  // ---- What the counters count, in any interleaving.

  predicate Ends(s: State, m: Move, well: bool) {
    m.Move? && m.tid < |s.busy| && s.busy[m.tid] && m.succeeds == well
  }

  /** Successes and failures recorded since the last manual reset. */
  function EndedSince(s: State, moves: seq<Move>, well: bool): nat {
    if moves == [] then 0
    else
      var front, m := moves[..|moves| - 1], moves[|moves| - 1];
      if m.Manual? then 0 else EndedSince(s, front, well) + One(Ends(Run(s, front), m, well))
  }

  /** Failures recorded since the breaker last closed, by itself or by hand. */
  function FailedSince(s: State, moves: seq<Move>): nat {
    if moves == [] then 0
    else
      var front, m := moves[..|moves| - 1], moves[|moves| - 1];
      var t := Run(s, front);
      if m.Manual? || (t.core.phase == HalfOpen && Step(t, m).core.phase == Closed) then 0
      else FailedSince(s, front) + One(Ends(t, m, false))
  }

  /** When the last failure was recorded, and when the phase was last set. */
  function LastFailed(s: State, moves: seq<Move>): Option<int> {
    if moves == [] then None
    else
      var front, m := moves[..|moves| - 1], moves[|moves| - 1];
      if Ends(Run(s, front), m, false) then Some(m.now) else LastFailed(s, front)
  }

  function PhaseSince(s: State, moves: seq<Move>): int {
    if moves == [] then s.core.lastStateChange
    else
      var front, m := moves[..|moves| - 1], moves[|moves| - 1];
      var t := Run(s, front);
      if m.Manual? || t.core.phase != Step(t, m).core.phase then m.now else PhaseSince(s, front)
  }

  ghost predicate Tells(c: Core, well: nat, badly: nat, failures: nat, last: Option<int>, since: int) {
    && c.successes == well && c.requests == well + badly && c.failures == failures
    && c.lastFailureTime == last && c.lastStateChange == since
  }

  lemma TellsStep(s: State, m: Move, well: nat, badly: nat, failures: nat, last: Option<int>, since: int)
    requires Tells(s.core, well, badly, failures, last, since)
    ensures var t := Step(s, m);
            Tells(t.core, if m.Manual? then 0 else well + One(Ends(s, m, true)),
                  if m.Manual? then 0 else badly + One(Ends(s, m, false)),
                  if m.Manual? || (s.core.phase == HalfOpen && t.core.phase == Closed) then 0
                  else failures + One(Ends(s, m, false)),
                  if Ends(s, m, false) then Some(m.now) else last,
                  if m.Manual? || s.core.phase != t.core.phase then m.now else since)
  {
  }

  /** The phase, who is admitted, and the probes after any move of any caller. */
  lemma MoveExactly(s: State, m: Move)
    requires s.cfg.Valid() && CoreInv(s.cfg, s.core)
    ensures var c, d, cfg := s.core, Step(s, m).core, s.cfg;
            var asks := m.Move? && m.tid < |s.busy| && !s.busy[m.tid];
            var probes := asks && c.phase == Open && m.now - c.lastStateChange >= cfg.resetTimeout;
            var closes := Ends(s, m, true) && c.phase == HalfOpen && c.halfOpenSucc + 1 == cfg.halfOpenLimit;
            && d.phase == (if m.Manual? || closes then Closed
                           else if probes then HalfOpen
                           else if Ends(s, m, false) && (c.phase == HalfOpen || c.failures + 1 >= cfg.maxFailures) then Open
                           else c.phase)
            && (asks ==> (Step(s, m).busy[m.tid] <==>
                          c.phase == Closed || probes || (c.phase == HalfOpen && c.halfOpenReqs < cfg.halfOpenLimit)))
            && (d.phase == HalfOpen ==>
                d.halfOpenReqs == d.halfOpenSucc == if probes then 0 else c.halfOpenSucc + One(Ends(s, m, true)))
  {
  }

  function New(cfg: Config, begin: int, n: nat): State {
    State(cfg, Fresh(begin), seq(n, _ => false))
  }

  /** In every interleaving: successes and requests are those ended since the last manual
      reset, failures those since the breaker last closed, and the two times are those of
      the last failure and of the last change of phase. */
  lemma {:induction false} CountsExactly(cfg: Config, begin: int, n: nat, moves: seq<Move>)
    ensures var s := New(cfg, begin, n);
            Tells(Run(s, moves).core, EndedSince(s, moves, true), EndedSince(s, moves, false), FailedSince(s, moves),
                  LastFailed(s, moves), PhaseSince(s, moves))
    decreases |moves|
  {
    if moves != [] {
      var s, front, m := New(cfg, begin, n), moves[..|moves| - 1], moves[|moves| - 1];
      CountsExactly(cfg, begin, n, front);
      TellsStep(Run(s, front), m, EndedSince(s, front, true), EndedSince(s, front, false), FailedSince(s, front),
                LastFailed(s, front), PhaseSince(s, front));
    }
  }

  /** A request that meets Open is admitted exactly when the breaker opened at least
      `resetTimeout` before: failures recorded while Open do not start the wait anew. */
  lemma OpenWaitsFromOpening(cfg: Config, begin: int, n: nat, moves: seq<Move>, m: Move)
    requires var s := Run(New(cfg, begin, n), moves);
             s.cfg == cfg && s.core.phase == Open && m.Move? && m.tid < |s.busy| && !s.busy[m.tid]
    ensures Step(Run(New(cfg, begin, n), moves), m).busy[m.tid] <==>
            m.now - PhaseSince(New(cfg, begin, n), moves) >= cfg.resetTimeout
  {
    CountsExactly(cfg, begin, n, moves);
  }

  /** The limit never refuses anyone: as long as HalfOpen lasts, whoever asks is admitted. */
  lemma HalfOpenRefusesNobody(cfg: Config, begin: int, n: nat, moves: seq<Move>, m: Move)
    requires cfg.Valid()
    requires var s := Run(New(cfg, begin, n), moves);
             s.core.phase == HalfOpen && m.Move? && m.tid < |s.busy| && !s.busy[m.tid]
    ensures Step(Run(New(cfg, begin, n), moves), m).busy[m.tid]
  {
    EveryInterleaving(cfg, begin, n, moves, m);
  }

  /** A call that nobody comes between leaves what one Execute leaves. */
  lemma AloneIsServe(s: State, i: nat, rq: Request)
    requires i < |s.busy| && !s.busy[i]
    ensures var t := Step(s, Move(i, rq.start, true));
            (if Admits(s.cfg, s.core, rq.start) then Step(t, Move(i, rq.end, rq.succeeds)) else t)
            == s.(core := Serve(s.cfg, s.core, rq))
  {
    assert s.busy[i := true][i := false] == s.busy && s.busy[i := false] == s.busy;
  }

  // ---- The manual reset.

  function ServeAll(cfg: Config, c: Core, trace: seq<Request>): Core {
    if trace == [] then c else Serve(cfg, ServeAll(cfg, c, trace[..|trace| - 1]), trace[|trace| - 1])
  }

  /** After a manual reset the breaker is as a new one, and stays so whatever comes: all it
      remembers is when something last failed, until something fails again. */
  lemma {:induction false} ResetServesAsNew(cfg: Config, c: Core, now: int, trace: seq<Request>)
    ensures var old', new' := ServeAll(cfg, ManualReset(c, now), trace), ServeAll(cfg, Fresh(now), trace);
            && old' == new'.(lastFailureTime := old'.lastFailureTime)
            && old'.lastFailureTime == (if new'.lastFailureTime.Some? then new'.lastFailureTime else c.lastFailureTime)
    decreases |trace|
  {
    if trace != [] {
      ResetServesAsNew(cfg, c, now, trace[..|trace| - 1]);
    }
  }

  // ---- Defaults.

  /** Each field left blank takes its own default: five failures, a minute, three probes. */
  lemma DefaultsExactly(c: Config)
    ensures var d := Normalize(c);
            && Filled(d.maxFailures, c.maxFailures, 5) && Filled(d.resetTimeout, c.resetTimeout, 60_000_000_000)
            && Filled(d.halfOpenLimit, c.halfOpenLimit, 3)
  {
  }
}
