/** The two breakers side by side: same settings, same requests one at a time. */
module BreakerComparison {
  import opened Options
  import opened Breakers
  import C = CountingBreaker
  import R = ResilienceBreaker

  datatype Pair = Pair(c: C.Core, r: R.Core)

  function Serve(cfg: Config, p: Pair, rq: Request): Pair {
    Pair(C.Serve(cfg, p.c, rq), R.Serve(cfg, p.r, rq))
  }

  function After(cfg: Config, begin: int, trace: seq<Request>): Pair {
    if trace == [] then Pair(C.FRESH, R.Fresh(begin))
    else Serve(cfg, After(cfg, begin, trace[..|trace| - 1]), trace[|trace| - 1])
  }

  /** Same phase, same failure count, same probe count, same start of the wait. */
  predicate Lockstep(p: Pair) {
    && p.c.phase == p.r.phase && p.c.failures == p.r.failures
    && (p.c.phase == HalfOpen ==> p.c.halfOpenCount == p.r.halfOpenReqs == p.r.halfOpenSucc)
    && (p.c.phase == Open ==> p.c.lastFailure == Some(p.r.lastStateChange))
  }

  ghost predicate Inv(cfg: Config, p: Pair) {
    C.CoreInv(cfg, p.c) && R.CoreInv(cfg, p.r)
  }

  lemma InvServe(cfg: Config, p: Pair, rq: Request)
    requires cfg.Valid() && Inv(cfg, p)
    ensures Inv(cfg, Serve(cfg, p, rq))
  {
  }

  lemma {:induction false} InvAfter(cfg: Config, begin: int, trace: seq<Request>)
    requires cfg.Valid()
    ensures Inv(cfg, After(cfg, begin, trace))
    decreases |trace|
  {
    if trace != [] {
      InvAfter(cfg, begin, trace[..|trace| - 1]);
      InvServe(cfg, After(cfg, begin, trace[..|trace| - 1]), trace[|trace| - 1]);
    }
  }

  /** A success while Closed with failures on the books: only the counting breaker
      forgives them. */
  predicate Forgiven(p: Pair, rq: Request) {
    p.c.phase == Closed && p.c.failures > 0 && rq.succeeds
  }

  /** Two breakers in step agree on admitting a request, and stay in step exactly
      unless the request is a success that forgives failures. */
  lemma StaysInStep(cfg: Config, p: Pair, rq: Request)
    requires cfg.Valid() && Inv(cfg, p) && Lockstep(p)
    ensures C.Admits(cfg, p.c, rq.start) == R.Admits(cfg, p.r, rq.start)
    ensures Lockstep(Serve(cfg, p, rq)) <==> !Forgiven(p, rq)
  {
  }

  ghost predicate AlwaysInStep(cfg: Config, begin: int, trace: seq<Request>) {
    forall k :: 0 <= k <= |trace| ==> Lockstep(After(cfg, begin, trace[..k]))
  }

  ghost predicate EverForgiven(cfg: Config, begin: int, trace: seq<Request>) {
    exists k :: 0 <= k < |trace| && Forgiven(After(cfg, begin, trace[..k]), trace[k])
  }

  lemma Prefix(trace: seq<Request>, k: nat)
    requires k < |trace|
    ensures trace[..|trace| - 1][..k] == trace[..k]
  {
  }

  lemma AlwaysSnoc(cfg: Config, begin: int, trace: seq<Request>)
    requires trace != []
    ensures AlwaysInStep(cfg, begin, trace) <==>
            AlwaysInStep(cfg, begin, trace[..|trace| - 1]) && Lockstep(After(cfg, begin, trace))
  {
    var front := trace[..|trace| - 1];
    assert trace[..|trace|] == trace;
    forall k | 0 <= k <= |front|
      ensures front[..k] == trace[..k]
    {
      Prefix(trace, k);
    }
    if AlwaysInStep(cfg, begin, front) && Lockstep(After(cfg, begin, trace)) {
      forall k | 0 <= k <= |trace|
        ensures Lockstep(After(cfg, begin, trace[..k]))
      {
        if k <= |front| {
          assert Lockstep(After(cfg, begin, front[..k]));
        }
      }
    }
    if AlwaysInStep(cfg, begin, trace) {
      forall k | 0 <= k <= |front|
        ensures Lockstep(After(cfg, begin, front[..k]))
      {
        assert Lockstep(After(cfg, begin, trace[..k]));
      }
    }
  }

  lemma EverSnoc(cfg: Config, begin: int, trace: seq<Request>)
    requires trace != []
    ensures var front, last := trace[..|trace| - 1], trace[|trace| - 1];
            EverForgiven(cfg, begin, trace) <==>
            EverForgiven(cfg, begin, front) || Forgiven(After(cfg, begin, front), last)
  {
    var front := trace[..|trace| - 1];
    assert forall k :: 0 <= k <= |front| ==> front[..k] == trace[..k];
    assert front[..|front|] == front;
    if EverForgiven(cfg, begin, front) {
      var k :| 0 <= k < |front| && Forgiven(After(cfg, begin, front[..k]), front[k]);
      assert Forgiven(After(cfg, begin, trace[..k]), trace[k]);
    }
  }

  /** Over a whole trace: in step at every point exactly when no request forgives. */
  lemma {:induction false} LockstepExactly(cfg: Config, begin: int, trace: seq<Request>)
    requires cfg.Valid()
    ensures AlwaysInStep(cfg, begin, trace) <==> !EverForgiven(cfg, begin, trace)
    decreases |trace|
  {
    if trace != [] {
      var front := trace[..|trace| - 1];
      LockstepExactly(cfg, begin, front);
      AlwaysSnoc(cfg, begin, trace);
      EverSnoc(cfg, begin, trace);
      InvAfter(cfg, begin, front);
      if AlwaysInStep(cfg, begin, front) {
        assert front[..|front|] == front;
        assert Lockstep(After(cfg, begin, front[..|front|]));
        StaysInStep(cfg, After(cfg, begin, front), trace[|front|]);
      }
    }
  }

  /** While both have been Closed throughout, the resilience breaker counts at
      least as many failures. */
  lemma {:induction false} CountsDominate(cfg: Config, begin: int, trace: seq<Request>)
    requires cfg.Valid()
    requires forall k :: 0 <= k <= |trace| ==> After(cfg, begin, trace[..k]).r.phase == Closed
    ensures After(cfg, begin, trace).c.phase == Closed
    ensures After(cfg, begin, trace).c.failures <= After(cfg, begin, trace).r.failures
    decreases |trace|
  {
    if trace != [] {
      var front := trace[..|trace| - 1];
      assert forall k :: 0 <= k <= |front| ==> front[..k] == trace[..k];
      assert trace[..|trace|] == trace;
      CountsDominate(cfg, begin, front);
      InvAfter(cfg, begin, front);
      assert After(cfg, begin, trace[..|trace|]).r.phase == Closed;
    }
  }

  /** The resilience breaker never trips later: if the counting breaker has left
      Closed, the resilience breaker has too, by the same request at the latest. */
  lemma ResilienceTripsFirst(cfg: Config, begin: int, trace: seq<Request>)
    requires cfg.Valid() && After(cfg, begin, trace).c.phase != Closed
    ensures exists k :: 0 <= k <= |trace| && After(cfg, begin, trace[..k]).r.phase != Closed
  {
    if forall k :: 0 <= k <= |trace| ==> After(cfg, begin, trace[..k]).r.phase == Closed {
      CountsDominate(cfg, begin, trace);
    }
  }

  /** Whether the two can ever part: exactly when one failure is tolerated. */
  lemma CanPartExactly(cfg: Config, begin: int)
    requires cfg.Valid()
    ensures (exists trace :: !AlwaysInStep(cfg, begin, trace)) <==> cfg.maxFailures >= 2
  {
    if cfg.maxFailures >= 2 {
      var trace := [Request(begin, begin, false), Request(begin, begin, true)];
      var first := trace[..1];
      assert first[..0] == [] && first[0] == trace[0];
      assert After(cfg, begin, first) == Serve(cfg, After(cfg, begin, []), trace[0]);
      assert Forgiven(After(cfg, begin, first), trace[1]);
      LockstepExactly(cfg, begin, trace);
    } else {
      forall trace
        ensures AlwaysInStep(cfg, begin, trace)
      {
        forall k | 0 <= k < |trace|
          ensures !Forgiven(After(cfg, begin, trace[..k]), trace[k])
        {
          InvAfter(cfg, begin, trace[..k]);
        }
        LockstepExactly(cfg, begin, trace);
      }
    }
  }

  function ServeAll(cfg: Config, p: Pair, trace: seq<Request>): Pair {
    if trace == [] then p else Serve(cfg, ServeAll(cfg, p, trace[..|trace| - 1]), trace[|trace| - 1])
  }

  /** Forgiving is observable: after it, enough failures to finish the resilience
      breaker's count open that one and leave the counting breaker Closed. */
  lemma {:induction false} ForgivenessSplits(cfg: Config, p: Pair, rq: Request, failures: seq<Request>)
    requires cfg.Valid() && Inv(cfg, p) && Lockstep(p) && Forgiven(p, rq)
    requires |failures| <= cfg.maxFailures - p.r.failures && forall k :: 0 <= k < |failures| ==> !failures[k].succeeds
    ensures var q := ServeAll(cfg, Serve(cfg, p, rq), failures);
            && q.c.phase == Closed && q.c.failures == |failures|
            && if |failures| < cfg.maxFailures - p.r.failures
               then q.r.phase == Closed && q.r.failures == p.r.failures + |failures|
               else q.r.phase == Open
    decreases |failures|
  {
    if failures != [] {
      ForgivenessSplits(cfg, p, rq, failures[..|failures| - 1]);
    }
  }
}
