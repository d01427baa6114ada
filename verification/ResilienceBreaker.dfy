/** The breaker of internal/resilience: failures in Closed add up until it opens,
    and each of its three operations is one critical section. */
module ResilienceBreaker {
  import opened Options
  import opened Breakers

  function Normalize(c: Config): (r: Config)
    ensures r.Valid()
    ensures c.Valid() ==> r == c
  {
    Config(if c.maxFailures <= 0 then 5 else c.maxFailures,
           if c.resetTimeout <= 0 then 60 * SECOND else c.resetTimeout,
           if c.halfOpenLimit <= 0 then 3 else c.halfOpenLimit)
  }

  datatype Core = Core(
    phase: Phase, failures: int, requests: int, successes: int,
    lastFailureTime: Option<int>, lastStateChange: int, halfOpenReqs: int, halfOpenSucc: int)

  function Fresh(now: int): Core {
    Core(Closed, 0, 0, 0, None, now, 0, 0)
  }

  function Admits(cfg: Config, c: Core, now: int): bool {
    match c.phase
    case Closed => true
    case Open => now - c.lastStateChange >= cfg.resetTimeout
    case HalfOpen => c.halfOpenReqs < cfg.halfOpenLimit
  }

  function Allow(cfg: Config, c: Core, now: int): Core {
    if c.phase == Open && Admits(cfg, c, now) then
      c.(phase := HalfOpen, lastStateChange := now, halfOpenReqs := 0, halfOpenSucc := 0)
    else c
  }

  function Succeed(cfg: Config, c: Core, now: int): Core {
    var d := c.(requests := c.requests + 1, successes := c.successes + 1);
    if c.phase != HalfOpen then d
    else
      var e := d.(halfOpenReqs := c.halfOpenReqs + 1, halfOpenSucc := c.halfOpenSucc + 1);
      if e.halfOpenSucc >= cfg.halfOpenLimit then e.(phase := Closed, lastStateChange := now, failures := 0) else e
  }

  function Fail(cfg: Config, c: Core, now: int): Core {
    var d := c.(requests := c.requests + 1, failures := c.failures + 1, lastFailureTime := Some(now));
    match c.phase
    case Closed => if d.failures >= cfg.maxFailures then d.(phase := Open, lastStateChange := now) else d
    case HalfOpen => d.(halfOpenReqs := c.halfOpenReqs + 1, phase := Open, lastStateChange := now)
    case Open => d
  }

  function ManualReset(c: Core, now: int): Core {
    c.(phase := Closed, failures := 0, requests := 0, successes := 0,
       halfOpenReqs := 0, halfOpenSucc := 0, lastStateChange := now)
  }

  ghost predicate CoreInv(cfg: Config, c: Core) {
    && (c.phase == Closed ==> c.failures < cfg.maxFailures)
    && (c.phase == HalfOpen ==> 0 <= c.halfOpenReqs == c.halfOpenSucc < cfg.halfOpenLimit)
    && 0 <= c.failures && 0 <= c.successes && c.successes + c.failures <= c.requests
  }

  function Serve(cfg: Config, c: Core, rq: Request): Core {
    var d := Allow(cfg, c, rq.start);
    if !Admits(cfg, c, rq.start) then d
    else if rq.succeeds then Succeed(cfg, d, rq.end)
    else Fail(cfg, d, rq.end)
  }

  datatype CallError = BreakerOpen | OperationFailed

  /** What a call with a context sees first. */
  datatype Arrival = Returned(succeeds: bool) | ContextDone | TimedOut

  datatype ContextError = Refused | Failed | Cancelled | Late

  class CircuitBreaker {
    const cfg: Config
    const timeout: int
    var phase: Phase
    var failures: int
    var requests: int
    var successes: int
    var lastFailureTime: Option<int>
    var lastStateChange: int
    var halfOpenReqs: int
    var halfOpenSucc: int

    function View(): Core
      reads this
    {
      Core(phase, failures, requests, successes, lastFailureTime, lastStateChange, halfOpenReqs, halfOpenSucc)
    }

    ghost predicate Valid()
      reads this
    {
      cfg.Valid() && CoreInv(cfg, View())
    }

    constructor (config: Config, timeout: int, now: int)
      ensures Valid() && cfg == Normalize(config) && View() == Fresh(now)
      ensures this.timeout == (if timeout <= 0 then 60 * SECOND else timeout)
    {
      cfg := Normalize(config);
      this.timeout := if timeout <= 0 then 60 * SECOND else timeout;
      phase, failures, requests, successes := Closed, 0, 0, 0;
      lastFailureTime, lastStateChange, halfOpenReqs, halfOpenSucc := None, now, 0, 0;
    }

    method SetState(next: Phase, now: int)
      modifies this`phase, this`lastStateChange
      ensures phase == next && lastStateChange == now
    {
      phase := next;
      lastStateChange := now;
    }

    method AllowRequest(now: int) returns (allowed: bool)
      requires Valid()
      modifies this
      ensures Valid() && View() == Allow(cfg, old(View()), now) && allowed == Admits(cfg, old(View()), now)
    {
      match phase {
        case Closed => allowed := true;
        case Open =>
          allowed := now - lastStateChange >= cfg.resetTimeout;
          if allowed {
            SetState(HalfOpen, now);
            halfOpenReqs := 0;
            halfOpenSucc := 0;
          }
        case HalfOpen => allowed := halfOpenReqs < cfg.halfOpenLimit;
      }
    }

    method OnRequestSuccess(now: int)
      requires Valid()
      modifies this
      ensures Valid() && View() == Succeed(cfg, old(View()), now)
    {
      requests := requests + 1;
      successes := successes + 1;
      if phase == HalfOpen {
        halfOpenReqs := halfOpenReqs + 1;
        halfOpenSucc := halfOpenSucc + 1;
        if halfOpenSucc >= cfg.halfOpenLimit {
          SetState(Closed, now);
          failures := 0;
        }
      }
    }

    method OnRequestFailure(now: int)
      requires Valid()
      modifies this
      ensures Valid() && View() == Fail(cfg, old(View()), now)
    {
      requests := requests + 1;
      failures := failures + 1;
      lastFailureTime := Some(now);
      match phase {
        case Closed =>
          if failures >= cfg.maxFailures {
            SetState(Open, now);
          }
        case HalfOpen =>
          halfOpenReqs := halfOpenReqs + 1;
          SetState(Open, now);
        case Open =>
      }
    }

    method Reset(now: int)
      requires Valid()
      modifies this
      ensures Valid() && View() == ManualReset(old(View()), now)
    {
      phase := Closed;
      failures, requests, successes, halfOpenReqs, halfOpenSucc := 0, 0, 0, 0, 0;
      lastStateChange := now;
    }

    /** The share of failed requests, a true ratio whatever was reset in between. */
    method FailureRate() returns (rate: real)
      requires Valid()
      ensures 0.0 <= rate <= 1.0
      ensures rate * requests as real == if requests == 0 then 0.0 else failures as real
    {
      if requests == 0 {
        return 0.0;
      }
      rate := failures as real / requests as real;
      RatioBound(failures as real, requests as real);
    }

    method Execute(rq: Request) returns (r: Result<(), CallError>)
      requires Valid()
      modifies this
      ensures Valid() && View() == Serve(cfg, old(View()), rq)
      ensures r.Ok? <==> Admits(cfg, old(View()), rq.start) && rq.succeeds
    {
      var allowed := AllowRequest(rq.start);
      if !allowed {
        return Err(BreakerOpen);
      }
      if rq.succeeds {
        OnRequestSuccess(rq.end);
        r := Ok(());
      } else {
        OnRequestFailure(rq.end);
        r := Err(OperationFailed);
      }
    }

    /** With a context and the breaker's own timeout, anything but the operation's own
        success counts as a failure of the request. */
    method ExecuteWithContext(start: int, end: int, first: Arrival) returns (r: Result<(), ContextError>)
      requires Valid()
      requires first.TimedOut? ==> end - start >= timeout
      modifies this
      ensures Valid() && View() == Serve(cfg, old(View()), Request(start, end, first == Returned(true)))
      ensures r.Ok? <==> Admits(cfg, old(View()), start) && first == Returned(true)
      ensures r == Err(Refused) <==> !Admits(cfg, old(View()), start)
    {
      var allowed := AllowRequest(start);
      if !allowed {
        return Err(Refused);
      }
      match first {
        case Returned(succeeds) =>
          if succeeds {
            OnRequestSuccess(end);
            r := Ok(());
          } else {
            OnRequestFailure(end);
            r := Err(Failed);
          }
        case ContextDone =>
          OnRequestFailure(end);
          r := Err(Cancelled);
        case TimedOut =>
          OnRequestFailure(end);
          r := Err(Late);
      }
    }
  }

  lemma RatioBound(a: real, b: real)
    requires 0.0 <= a <= b && b > 0.0
    ensures 0.0 <= a / b <= 1.0
  {
  }

  // ---- Any interleaving of the critical sections.

  /** `busy[i]`: caller `i` has been admitted and its operation runs. */
  datatype State = State(cfg: Config, core: Core, busy: seq<bool>)

  datatype Move = Move(tid: nat, now: int, succeeds: bool) | Manual(now: int)

  function Step(s: State, m: Move): State {
    match m
    case Manual(now) => s.(core := ManualReset(s.core, now))
    case Move(tid, now, succeeds) =>
      if tid >= |s.busy| then s
      else if !s.busy[tid] then
        s.(core := Allow(s.cfg, s.core, now), busy := s.busy[tid := Admits(s.cfg, s.core, now)])
      else
        s.(core := if succeeds then Succeed(s.cfg, s.core, now) else Fail(s.cfg, s.core, now),
           busy := s.busy[tid := false])
  }

  function Run(s: State, moves: seq<Move>): State {
    if moves == [] then s else Step(Run(s, moves[..|moves| - 1]), moves[|moves| - 1])
  }

  lemma StepKeeps(s: State, m: Move)
    requires s.cfg.Valid() && CoreInv(s.cfg, s.core)
    ensures Step(s, m).cfg == s.cfg && CoreInv(s.cfg, Step(s, m).core)
    ensures Documented(s.core.phase, Step(s, m).core.phase, m.Manual?)
  {
  }

  /** Every interleaving keeps the invariant, and whatever move comes next follows
      the diagram: here the phase is tested and changed under the one lock. */
  lemma {:induction false} EveryInterleaving(cfg: Config, start: int, n: nat, moves: seq<Move>, next: Move)
    requires cfg.Valid()
    ensures var s := Run(State(cfg, Fresh(start), seq(n, _ => false)), moves);
            && s.cfg == cfg && CoreInv(cfg, s.core)
            && Documented(s.core.phase, Step(s, next).core.phase, next.Manual?)
    decreases |moves|
  {
    if moves != [] {
      EveryInterleaving(cfg, start, n, moves[..|moves| - 1], moves[|moves| - 1]);
      StepKeeps(Run(State(cfg, Fresh(start), seq(n, _ => false)), moves[..|moves| - 1]), moves[|moves| - 1]);
    }
    StepKeeps(Run(State(cfg, Fresh(start), seq(n, _ => false)), moves), next);
  }
}
