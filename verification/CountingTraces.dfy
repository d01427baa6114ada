/** What the counting breaker's states mean, read off the trace of requests it
    has served since it was made. */
module CountingTraces {
  import opened Options
  import opened Breakers
  import opened CountingBreaker

  function After(cfg: Config, trace: seq<Request>): (c: Core)
    requires cfg.Valid()
    ensures CoreInv(cfg, c)
  {
    if trace == [] then FRESH else Serve(cfg, After(cfg, trace[..|trace| - 1]), trace[|trace| - 1])
  }

  /** The last request of the trace was let through. */
  predicate RanLast(cfg: Config, trace: seq<Request>)
    requires cfg.Valid() && trace != []
  {
    Admits(cfg, After(cfg, trace[..|trace| - 1]), trace[|trace| - 1].start)
  }

  // ---- Tripping.

  /** How many failures the trace ends with. */
  function TrailingFailures(trace: seq<Request>): nat {
    if trace == [] || trace[|trace| - 1].succeeds then 0 else 1 + TrailingFailures(trace[..|trace| - 1])
  }

  /** Some `n` consecutive requests all fail. */
  ghost predicate FailureRun(trace: seq<Request>, n: nat) {
    exists i :: RunAt(trace, i, n)
  }

  ghost predicate RunAt(trace: seq<Request>, i: int, n: nat) {
    0 <= i && i + n <= |trace| && forall k :: i <= k < i + n ==> !trace[k].succeeds
  }

  lemma {:induction false} TrailingMeans(trace: seq<Request>)
    ensures var n := TrailingFailures(trace);
            && n <= |trace| && RunAt(trace, |trace| - n, n)
            && (n < |trace| ==> trace[|trace| - n - 1].succeeds)
  {
    if trace != [] && !trace[|trace| - 1].succeeds {
      var front := trace[..|trace| - 1];
      TrailingMeans(front);
      var m := TrailingFailures(front);
      assert RunAt(front, |front| - m, m);
    }
  }

  /** No failure run of length `n` in a trace, and none ending at its last
      request, unless its trailing failures reach `n`. */
  lemma FailureRunSnoc(trace: seq<Request>, n: nat)
    requires trace != [] && n >= 1
    ensures FailureRun(trace, n) <==> FailureRun(trace[..|trace| - 1], n) || TrailingFailures(trace) >= n
  {
    var front := trace[..|trace| - 1];
    TrailingMeans(trace);
    var m := TrailingFailures(trace);
    if FailureRun(trace, n) {
      var i :| RunAt(trace, i, n);
      if i + n <= |front| {
        assert RunAt(front, i, n);
      } else if m < n {
        assert false;
      }
    }
    if FailureRun(front, n) {
      var i :| RunAt(front, i, n);
      assert RunAt(trace, i, n);
    }
    if m >= n {
      assert RunAt(trace, |trace| - n, n);
    }
  }

  /** While no `maxFailures` requests in a row have failed the breaker is Closed
      and has let everything through. */
  lemma {:induction false} ClosedWhile(cfg: Config, trace: seq<Request>)
    requires cfg.Valid() && !FailureRun(trace, cfg.maxFailures)
    ensures var c := After(cfg, trace);
            c.phase == Closed && c.failures == TrailingFailures(trace) && c.totalRequests == |trace|
    decreases |trace|
  {
    if trace != [] {
      FailureRunSnoc(trace, cfg.maxFailures);
      ClosedWhile(cfg, trace[..|trace| - 1]);
    }
  }

  /** The breaker has been Closed throughout exactly when no `maxFailures`
      requests in a row failed; the first time they do, it opens at once. */
  lemma {:induction false} TripsExactly(cfg: Config, trace: seq<Request>)
    requires cfg.Valid()
    ensures (forall k :: 0 <= k <= |trace| ==> After(cfg, trace[..k]).phase == Closed)
            <==> !FailureRun(trace, cfg.maxFailures)
    ensures trace != [] && FailureRun(trace, cfg.maxFailures) && !FailureRun(trace[..|trace| - 1], cfg.maxFailures)
            ==> After(cfg, trace).phase == Open
    decreases |trace|
  {
    if trace == [] {
      if i :| RunAt(trace, i, cfg.maxFailures) { }
      assert After(cfg, trace[..0]).phase == Closed;
    } else {
      var front := trace[..|trace| - 1];
      TripsExactly(cfg, front);
      FailureRunSnoc(trace, cfg.maxFailures);
      assert trace[..|trace|] == trace;
      assert forall k :: 0 <= k <= |front| ==> front[..k] == trace[..k];
      if !FailureRun(front, cfg.maxFailures) {
        ClosedWhile(cfg, front);
        assert After(cfg, trace) == Serve(cfg, After(cfg, front), trace[|front|]);
      }
      if !FailureRun(trace, cfg.maxFailures) {
        ClosedWhile(cfg, trace);
      } else if FailureRun(front, cfg.maxFailures) {
        var k :| 0 <= k <= |front| && After(cfg, front[..k]).phase != Closed;
        assert After(cfg, trace[..k]).phase != Closed;
      } else {
        assert After(cfg, trace[..|trace|]).phase != Closed;
      }
    }
  }

  // ---- Waiting.

  /** When the last operation that was run and failed ended. */
  function LastFailureTime(cfg: Config, trace: seq<Request>): Option<int>
    requires cfg.Valid()
  {
    if trace == [] then None
    else if RanLast(cfg, trace) && !trace[|trace| - 1].succeeds then Some(trace[|trace| - 1].end)
    else LastFailureTime(cfg, trace[..|trace| - 1])
  }

  lemma {:induction false} LastFailureTracked(cfg: Config, trace: seq<Request>)
    requires cfg.Valid()
    ensures After(cfg, trace).lastFailure == LastFailureTime(cfg, trace)
    decreases |trace|
  {
    if trace != [] {
      LastFailureTracked(cfg, trace[..|trace| - 1]);
    }
  }

  /** While Open, an operation runs exactly when `resetTimeout` has passed since
      the last operation that failed. */
  lemma OpenWaits(cfg: Config, trace: seq<Request>, rq: Request)
    requires cfg.Valid() && After(cfg, trace).phase == Open
    ensures LastFailureTime(cfg, trace).Some?
    ensures RanLast(cfg, trace + [rq]) <==> rq.start - LastFailureTime(cfg, trace).value >= cfg.resetTimeout
  {
    LastFailureTracked(cfg, trace);
    assert (trace + [rq])[..|trace|] == trace;
  }

  // ---- Probing.

  /** How many operations have run since the breaker last left Open to probe,
      counting the one that made it leave; 0 if it never did. */
  function ProbeOps(cfg: Config, trace: seq<Request>): nat
    requires cfg.Valid()
  {
    if trace == [] then 0
    else
      var front := trace[..|trace| - 1];
      var before := After(cfg, front).phase;
      if !RanLast(cfg, trace) then ProbeOps(cfg, front)
      else if before == Open then 1
      else if before == HalfOpen then ProbeOps(cfg, front) + 1
      else ProbeOps(cfg, front)
  }

  /** The trailing operations that ran all succeeded, at least `n` of them. */
  ghost predicate EndsInSuccesses(cfg: Config, trace: seq<Request>, n: nat)
    requires cfg.Valid()
    decreases |trace|
  {
    n == 0 ||
    (trace != [] &&
     var front := trace[..|trace| - 1];
     if RanLast(cfg, trace) then trace[|trace| - 1].succeeds && EndsInSuccesses(cfg, front, n - 1)
     else EndsInSuccesses(cfg, front, n))
  }

  /** A half-open phase runs at most `halfOpenLimit` operations, and while it lasts
      all of them have succeeded. */
  lemma {:induction false} ProbeBounded(cfg: Config, trace: seq<Request>)
    requires cfg.Valid()
    ensures ProbeOps(cfg, trace) <= cfg.halfOpenLimit
    ensures var c := After(cfg, trace);
            c.phase == HalfOpen ==>
              c.halfOpenCount == ProbeOps(cfg, trace) < cfg.halfOpenLimit
              && EndsInSuccesses(cfg, trace, ProbeOps(cfg, trace))
    decreases |trace|
  {
    if trace != [] {
      ProbeBounded(cfg, trace[..|trace| - 1]);
      assert forall t :: EndsInSuccesses(cfg, t, 0);
    }
  }

  /** The breaker goes back to Closed exactly at the `halfOpenLimit`-th operation
      of a half-open phase, if it succeeds; all those before it did too. */
  lemma ClosesExactlyAfterSuccesses(cfg: Config, trace: seq<Request>, rq: Request)
    requires cfg.Valid() && After(cfg, trace).phase != Closed
    ensures var next := trace + [rq];
            && (After(cfg, next).phase == Closed <==>
                RanLast(cfg, next) && rq.succeeds && ProbeOps(cfg, next) == cfg.halfOpenLimit)
            && (After(cfg, next).phase == Closed ==> EndsInSuccesses(cfg, next, cfg.halfOpenLimit))
  {
    assert (trace + [rq])[..|trace|] == trace;
    ProbeBounded(cfg, trace);
    assert EndsInSuccesses(cfg, trace, 0);
  }
}
