/** The breaker of internal/circuitbreaker: a success in Closed clears the failure
    count. Each critical section is one transition function, which the class
    methods are proved against. */
module CountingBreaker {
  import opened Options
  import opened Breakers

  /** The constructor's defaults. */
  function Normalize(c: Config): (r: Config)
    ensures r.Valid()
    ensures c.Valid() ==> r == c
  {
    Config(if c.maxFailures <= 0 then 5 else c.maxFailures,
           if c.resetTimeout <= 0 then 30 * SECOND else c.resetTimeout,
           if c.halfOpenLimit <= 0 then 3 else c.halfOpenLimit)
  }

  datatype Core = Core(
    phase: Phase, failures: int, lastFailure: Option<int>, halfOpenCount: int,
    totalRequests: int, successCount: int, failureCount: int, timeoutCount: int, rejectedCount: int)

  const FRESH := Core(Closed, 0, None, 0, 0, 0, 0, 0, 0)

  /** Before the first failure the elapsed time is longer than any timeout. */
  predicate ResetDue(cfg: Config, c: Core, now: int) {
    c.lastFailure.None? || now - c.lastFailure.value >= cfg.resetTimeout
  }

  function AttemptReset(cfg: Config, c: Core, now: int): Core {
    if ResetDue(cfg, c, now) then c.(phase := HalfOpen, halfOpenCount := 0) else c
  }

  function Succeed(cfg: Config, c: Core): Core {
    var d := c.(successCount := c.successCount + 1);
    match c.phase
    case HalfOpen =>
      if c.halfOpenCount + 1 >= cfg.halfOpenLimit then d.(phase := Closed, failures := 0, halfOpenCount := 0)
      else d.(halfOpenCount := c.halfOpenCount + 1)
    case Closed => d.(failures := 0)
    case Open => d
  }

  function Fail(cfg: Config, c: Core, now: int): Core {
    var d := c.(failureCount := c.failureCount + 1, failures := c.failures + 1, lastFailure := Some(now));
    if c.phase == HalfOpen then d.(phase := Open, halfOpenCount := 0)
    else if d.failures >= cfg.maxFailures then d.(phase := Open)
    else d
  }

  function ManualReset(c: Core): Core {
    c.(phase := Closed, failures := 0, halfOpenCount := 0)
  }

  /** Holds after every critical section, whoever runs it and whenever. */
  ghost predicate CoreInv(cfg: Config, c: Core) {
    && (c.phase == Closed ==> c.failures < cfg.maxFailures)
    && 0 <= c.failures
    && 0 <= c.halfOpenCount < cfg.halfOpenLimit
    && (c.phase != HalfOpen ==> c.halfOpenCount == 0)
    && (c.phase == Open ==> c.lastFailure.Some?)
  }

  // ---- One request at a time.

  function Admits(cfg: Config, c: Core, now: int): bool {
    match c.phase
    case Closed => true
    case Open => ResetDue(cfg, c, now)
    case HalfOpen => c.halfOpenCount < cfg.halfOpenLimit
  }

  /** The state in which an admitted operation starts. */
  function Admission(cfg: Config, c: Core, now: int): Core {
    var d := if c.phase == Open then AttemptReset(cfg, c, now) else c;
    if Admits(cfg, c, now) then d.(totalRequests := d.totalRequests + 1)
    else d.(rejectedCount := d.rejectedCount + 1)
  }

  /** A whole Execute. */
  function Serve(cfg: Config, c: Core, rq: Request): Core {
    var d := Admission(cfg, c, rq.start);
    if !Admits(cfg, c, rq.start) then d
    else if rq.succeeds then Succeed(cfg, d)
    else Fail(cfg, d, rq.end)
  }

  datatype CallError = BreakerOpen(phase: Phase) | OperationFailed

  class CircuitBreaker {
    const cfg: Config
    var phase: Phase
    var failures: int
    var lastFailure: Option<int>
    var halfOpenCount: int
    var totalRequests: int
    var successCount: int
    var failureCount: int
    var timeoutCount: int
    var rejectedCount: int

    function View(): Core
      reads this
    {
      Core(phase, failures, lastFailure, halfOpenCount,
           totalRequests, successCount, failureCount, timeoutCount, rejectedCount)
    }

    ghost predicate Valid()
      reads this
    {
      cfg.Valid() && CoreInv(cfg, View())
    }

    constructor (config: Config)
      ensures Valid() && cfg == Normalize(config) && View() == FRESH
    {
      cfg := Normalize(config);
      phase, failures, lastFailure, halfOpenCount := Closed, 0, None, 0;
      totalRequests, successCount, failureCount, timeoutCount, rejectedCount := 0, 0, 0, 0, 0;
    }

    method ShouldAttemptReset(now: int) returns (due: bool)
      requires Valid()
      modifies this
      ensures Valid() && View() == AttemptReset(cfg, old(View()), now)
      ensures due == ResetDue(cfg, old(View()), now)
    {
      due := lastFailure.None? || now - lastFailure.value >= cfg.resetTimeout;
      if due {
        phase := HalfOpen;
        halfOpenCount := 0;
      }
    }

    method AllowRequest(now: int) returns (allowed: bool)
      requires Valid()
      modifies this
      ensures Valid() && allowed == Admits(cfg, old(View()), now)
      ensures View() == if old(phase) == Open then AttemptReset(cfg, old(View()), now) else old(View())
    {
      match phase {
        case Closed => allowed := true;
        case Open => allowed := ShouldAttemptReset(now);
        case HalfOpen => allowed := halfOpenCount < cfg.halfOpenLimit;
      }
    }

    method RecordSuccess()
      requires Valid()
      modifies this
      ensures Valid() && View() == Succeed(cfg, old(View()))
    {
      successCount := successCount + 1;
      match phase {
        case HalfOpen =>
          halfOpenCount := halfOpenCount + 1;
          if halfOpenCount >= cfg.halfOpenLimit {
            phase := Closed;
            failures := 0;
            halfOpenCount := 0;
          }
        case Closed =>
          failures := 0;
        case Open =>
      }
    }

    method RecordFailure(now: int)
      requires Valid()
      modifies this
      ensures Valid() && View() == Fail(cfg, old(View()), now)
    {
      failureCount := failureCount + 1;
      failures := failures + 1;
      lastFailure := Some(now);
      if phase == HalfOpen {
        phase := Open;
        halfOpenCount := 0;
      } else if failures >= cfg.maxFailures {
        phase := Open;
      }
    }

    method Reset()
      requires Valid()
      modifies this
      ensures Valid() && View() == ManualReset(old(View()))
    {
      phase := Closed;
      failures := 0;
      halfOpenCount := 0;
    }

    /** A whole call with nobody else around; `rq.succeeds` is what the operation
        would answer if it is run. */
    method Execute(rq: Request) returns (r: Result<(), CallError>)
      requires Valid()
      modifies this
      ensures Valid() && View() == Serve(cfg, old(View()), rq)
      ensures r.Ok? <==> Admits(cfg, old(View()), rq.start) && rq.succeeds
      ensures !Admits(cfg, old(View()), rq.start) ==> r == Err(BreakerOpen(old(phase)))
    {
      var allowed := AllowRequest(rq.start);
      if !allowed {
        rejectedCount := rejectedCount + 1;
        return Err(BreakerOpen(phase));
      }
      totalRequests := totalRequests + 1;
      if rq.succeeds {
        RecordSuccess();
        r := Ok(());
      } else {
        RecordFailure(rq.end);
        r := Err(OperationFailed);
      }
    }
  }
}
