# Verified models of the load tester's core logic

This project models, in Dafny, the parts of the PostgreSQL load tester whose
correctness is hard to see by reading: a lock-free ring buffer, two circuit
breakers, a worker pool, a backpressure controller, the regression and percentile
arithmetic, the metrics recorders, the scaling-sequence generators, the plugin
indexes and the region classifier. `dafny verify dfyconfig.toml` checks everything.

## How it is laid out

Objects that change state are classes with the fields of the source, and each
method's contract gives the whole new state. Where the source promises something
about many threads, a second model takes one step per atomic action, and a run is
any list of moves by any number of threads.

| files | what they model |
|---|---|
| `Bits`, `Counts`, `RingBuffer`, `Consumer` | the ring buffer over arrays with calls atomic, and the bulk-insert consumer as its client |
| `RingSteps`, `RingIndexes`, `RingIntegrity`, `RingGuard`, `RingLoss`, `RingReset`, `RingCalls` | the same buffer with one step per load, compare-and-swap, store and copied word, what a reset at rest leaves behind, and how calls end |
| `Breakers`, `CountingBreaker`, `CountingTraces`, `CountingThreads`, `CountingProbes`, `CountingOperations`, `CountingCalls` | the breaker of `internal/circuitbreaker`: one request at a time, then interleaved critical sections, then what they can bring about, with operations that outlive their calls, and what the counters count |
| `ResilienceBreaker`, `ResilienceTraces`, `ResilienceProbes`, `BreakerComparison` | the breaker of `internal/resilience`, what its states and counters mean, what it bounds in HalfOpen, and the two side by side |
| `WorkerPool`, `WorkerPoolService`, `WorkerPoolRestart` | the pool's channel protocol, from Start to the end of Shutdown, what it does for its callers, and a Start after that |
| `Backpressure`, `BackpressureLaws`, `BackpressureSteps`, `BackpressurePeaks`, `BackpressureCalls` | the adaptive controller and its formulas, then with its releases' unlocked steps interleaved, and undisturbed again |
| `Sums`, `LeastSquares`, `Regression` | sums over data, the least-squares theorems, and the loops that compute fits and correlations |
| `Percentiles` | the three interpolating percentile routines and the latency summary |
| `Samples`, `SampleLoss`, `TimeSeries` | the overwriting latency buffers, the histogram, and the rotating time buckets |
| `Scaling` | configuration validation and the linear, exponential and Fibonacci band sequences |
| `PluginLoader`, `PluginRegistry` | the loader's type index and the registry's dependency graph |
| `Regions` | the cutting of a run into performance regions |

## What came out

Most of what the source intends holds for every input or every run. Where it does
not, the exact condition is proved, with an input that shows the failure.

* **Ring buffer.** Indexes and tickets are right in every interleaving, a `Push` returns
  false only on a full ring and a `Pop` nothing only on an empty one. From a new ring,
  records are right only if no producer claims a slot before the previous lap's consumer
  has cleared its flag, which the code does not ensure: `Pop` advances `readIndex` before
  it copies. The condition is exact, claim by claim, and visible: the slot's completion
  flag is clear (`RingLoss.ProvisoIsExact`). A record can be lost exactly when there are
  two threads, at any capacity (`RingLoss.LossReachableExactly`). `Reset` keeps the
  completion flags, and the source resets its ring before every band, perhaps with records
  still queued. After a reset at rest the same condition is enough exactly when the queue
  was empty, or there are no two threads, or records are empty
  (`RingReset.ResetIsSafeExactly`): otherwise a `Pop` can be handed a record from before
  the reset. With calls atomic the buffer is a bounded FIFO queue.
* **Circuit breakers.** The documented transitions are the only ones, except that in
  `internal/circuitbreaker` a caller that read Open earlier can move a Closed breaker to
  HalfOpen, or make a HalfOpen one forget finished probes; both exactly when there are two
  callers (and, to forget, a limit of two). Both breakers count half-open requests when
  they finish, so the limit never refuses anyone, and bounds the calls in flight exactly when
  there are no more callers than that. It never bounds the operations, even with one caller: a call that
  gives up leaves its operation running, and its failure only reopens the breaker until
  the next timeout. A failure recorded while Open starts the wait anew in
  `internal/circuitbreaker`, and not in `internal/resilience`. The two breakers stay in lockstep exactly as long as no success meets a Closed
  breaker with failures on its books, which can happen exactly when one is tolerated.
* **Worker pool.** A submit is accepted exactly if there is room, and up to the queue's
  size of them are all done, in order. Closing the jobs channel is safe exactly when no `Submit` stands
  between its check and its send. A new pool with any caller can be brought to panic.
  `Start` succeeds after `Shutdown`, but the channel stays closed: no job is accepted
  again, and every `Submit` panics unless a cancelled context is chosen instead.
* **Backpressure.** A limit below five cannot grow. When both limits grow at once the
  scaling event names only the workers, so the history no longer tells the connection
  limit until an event names the connections again. Under concurrency a new peak is
  recorded exactly if no unit of the resource is given back between taking and comparing.
  Both latency "percentiles" are the maximum.
* **Latency samples.** The workers' own buffers share the counter that places the
  global samples. Each buffer, global or own, holds the latest samples exactly when no two
  of them have whole laps of that counter between them. With one worker recording everything
  that means, for the global buffer: until one sample has been replaced, and again from two
  laps on if the limit is odd. In the worker's own already the first replacement is wrong,
  unless the limit is at most 2; from two laps on it does as the global one. With an even
  limit half of either is never written again.
* **Time series.** Finalising loses the last bucket's queries and errors exactly when it
  has some but no transaction; finalising twice counts its transactions twice, and so does
  a record made at a later time after finalising.
* **Scaling.** The linear sequence leaves cells of its grid out exactly when the two step
  counts multiply to more than the bands. With steps worked out from the bands they do
  whenever both ranges have room for the targeted steps.
* **Registry.** Registering a name again after an unload brings in a cycle exactly when a
  new dependency already leads back to it, and unmatched dependents exactly when the
  name had dependencies before.
* **Regions.** Throughput that falls twice in a row is called saturation. A region
  closed by the next one reports that one's confidence, which is its own only between
  linear scaling and degradation.

## Modelling choices

* Integers are unbounded: tickets, counters and times do not wrap around.
* Floating point is exact arithmetic over the reals. A quotient by zero is an explicit
  case: `None` in `Regression`, an infinity or no number in `Regions`.
* Atomic operations are sequentially consistent. A record is copied word by word.
* Clock readings, context cancellation, select choices, the outcome of operations,
  inserts and plugin calls, and the square root are parameters.
* Durations and times are integers in nanoseconds.

## Model

| member | source | states |
|---|---|---|
| RingBuffers.RoundUpCapacity | plugins/bulk_insert_plugin/ring_buffer.go:57-66 | the capacity is the least power of two at or above the request, and at least 1 |
| RingBuffers.RingBuffer.constructor | plugins/bulk_insert_plugin/ring_buffer.go:57-81 | a new buffer is empty and open, with the rounded-up capacity |
| RingBuffers.RingBuffer.Position | plugins/bulk_insert_plugin/ring_buffer.go:103 | masking an index gives its remainder modulo the capacity |
| RingBuffers.RingBuffer.Push | plugins/bulk_insert_plugin/ring_buffer.go:85-119 | appends to the queue, and fails exactly when it is full |
| RingBuffers.RingBuffer.Pop | plugins/bulk_insert_plugin/ring_buffer.go:123-159 | removes the oldest record, fails exactly when the queue is empty, and never waits when calls are atomic |
| RingBuffers.RingBuffer.PopBatch | plugins/bulk_insert_plugin/ring_buffer.go:163-180 | returns the first min(max, size) records in order and leaves the rest |
| RingBuffers.RingBuffer.PopBatchBlocking | plugins/bulk_insert_plugin/ring_buffer.go:184-224 | nothing popped is lost and no batch exceeds the maximum; every trip that no cancel or deadline ended has taken all there was, waiting ends with the first that brings the minimum, and a shorter batch was ended by a cancel or the deadline |
| RingBuffers.RingBuffer.Close | plugins/bulk_insert_plugin/ring_buffer.go:235-240 | closes without touching the queue |
| RingBuffers.RingBuffer.Size | plugins/bulk_insert_plugin/ring_buffer.go:243-250 | the number of queued records |
| RingBuffers.RingBuffer.Stats | plugins/bulk_insert_plugin/ring_buffer.go:261-276 | produced minus consumed is what is queued; utilisation is that over the capacity, within [0, 1] |
| RingBuffers.RingBuffer.Reset | plugins/bulk_insert_plugin/ring_buffer.go:279-289 | with calls atomic: yields the empty open queue, whatever stale flags remain |
| Bits.PowerOfTwoTest | plugins/bulk_insert_plugin/ring_buffer.go:59 | c & (c - 1) is zero exactly for powers of two |
| Bits.MaskIsSlot | plugins/bulk_insert_plugin/ring_buffer.go:71-103 | masking with a power of two minus one is taking the remainder |
| Consumers.Consumer.Serve | plugins/bulk_insert_plugin/generator.go:420-478 | every record taken from the queue is in exactly one insert attempt, in order; a successful one is a transaction and counts its rows, a failed one an error; what is queued is taken at once; it stops exactly on a closed empty queue |
| Consumers.Consumer.Run | plugins/bulk_insert_plugin/generator.go:402-478 | over a whole run, records attempted and still queued are those queued before and pushed since; transactions, errors and rows are those of the attempts by outcome; after as many steady trips as records were queued, all of those have been attempted |
| RingIndexes.IndexStep | plugins/bulk_insert_plugin/ring_buffer.go:92-154 | one atomic step of any thread keeps the index invariant, and indexes never go back |
| RingIndexes.EveryInterleaving | plugins/bulk_insert_plugin/ring_buffer.go:92-154 | from a new ring or one reset at rest, with any flags and memory, in every interleaving 0 <= readIndex <= writeIndex <= readIndex + capacity, tickets are claimed in order and once, and the counters lag the indexes by the calls in flight |
| RingIndexes.TicketsAreExclusive | plugins/bulk_insert_plugin/ring_buffer.go:101-147 | from any such start no ticket is ever held by two threads |
| RingIntegrity.DataStep | plugins/bulk_insert_plugin/ring_buffer.go:91-158 | one step under the proviso keeps every record whole: invisible while written, intact while copied out |
| RingIntegrity.ClaimWrite | plugins/bulk_insert_plugin/ring_buffer.go:101-106 | winning a write ticket on a slot the last lap has cleared keeps integrity |
| RingIntegrity.FlagIsGuard | plugins/bulk_insert_plugin/ring_buffer.go:96-106 | with room in the ring, the proviso holds exactly when the completion flag of the slot about to be claimed is clear |
| RingIntegrity.ClearFlagStays | plugins/bulk_insert_plugin/ring_buffer.go:91-158 | a clear flag stays clear under the proviso until the ticket is claimed, so a producer can test it |
| RingIntegrity.ClaimRead | plugins/bulk_insert_plugin/ring_buffer.go:139-149 | winning a read ticket with the flag seen set gives a published record nobody overwrites |
| RingIntegrity.ClearRead | plugins/bulk_insert_plugin/ring_buffer.go:152 | clearing the flag hands the slot to the next lap |
| RingIntegrity.DataRun | plugins/bulk_insert_plugin/ring_buffer.go:91-158 | every run under the proviso keeps record integrity, from any state that has it |
| RingGuard.GuardedDelivery | plugins/bulk_insert_plugin/ring_buffer.go:91-158 | from any start with clear flags, whatever the memory holds, under the proviso every Pop returns, whole, the record pushed under its ticket, and no ticket twice |
| RingGuard.NothingLostAtRest | plugins/bulk_insert_plugin/ring_buffer.go:91-158 | from any start with clear flags, under the proviso, when all calls have returned, every ticket was returned or is still queued with its record |
| RingGuard.LonePopSucceeds | plugins/bulk_insert_plugin/ring_buffer.go:123-159 | a Pop running alone gets the oldest published record, so published records can always be had |
| RingLoss.StuckIsLost | plugins/bulk_insert_plugin/ring_buffer.go:138-144 | a queued ticket whose flag nobody will set is never returned, and blocks the queue for good |
| RingLoss.ProvisoIsExact | plugins/bulk_insert_plugin/ring_buffer.go:100-106 | in any state with record integrity, a winning claim can lead, by moves under the proviso, to a lost record exactly when the slot's completion flag was set |
| RingLoss.LossIsReachable | plugins/bulk_insert_plugin/ring_buffer.go:147-152 | at any capacity, with two threads or more, a run from any start with clear flags loses a record whose Push has returned true: no continuation returns it |
| RingLoss.LossReachableExactly | plugins/bulk_insert_plugin/ring_buffer.go:85-159 | from a start with clear flags some run loses a record exactly when there are two threads |
| RingReset.ResetClearExactly | plugins/bulk_insert_plugin/ring_buffer.go:279-289 | a reset at rest leaves all completion flags clear exactly when the queue was empty |
| RingReset.LeftoverDelivered | plugins/bulk_insert_plugin/ring_buffer.go:100-153 | with two threads, a leftover flag on any slot has a run under the proviso that returns what the slot held before the reset |
| RingReset.LeftoversMatterExactly | plugins/bulk_insert_plugin/ring_buffer.go:85-159 | from any start, every delivery of every run under the proviso is right exactly when all flags are clear, or there are no two threads, or records are empty |
| RingReset.ResetIsSafeExactly | plugins/bulk_insert_plugin/generator.go:285-292 | a reset at rest of a ring with record integrity is safe in that sense exactly when the queue was empty, or there are no two threads, or records are empty |
| RingCalls.RefusesExactly | plugins/bulk_insert_plugin/ring_buffer.go:92-98 | a Push returns false exactly when it loads readIndex while the ring is full and nobody has claimed since it loaded writeIndex |
| RingCalls.ComesEmptyExactly | plugins/bulk_insert_plugin/ring_buffer.go:129-136 | a Pop returns nothing exactly when it loads writeIndex while the ring is empty |
| RingCalls.RetriesExactly | plugins/bulk_insert_plugin/ring_buffer.go:101-157 | a call starts again exactly when another has won the ticket it went for, or a Pop's record is not published |
| RingCalls.ClaimsExactly | plugins/bulk_insert_plugin/ring_buffer.go:101-147 | a ticket is won exactly by the caller that still holds the current index |
| RingCalls.EveryCallBooked | plugins/bulk_insert_plugin/ring_buffer.go:85-159 | in every run each Push begun has returned true, was refused or is under way, and each Pop begun has returned a record, came out empty or is under way |
| RingCalls.EveryCallEnds | plugins/bulk_insert_plugin/ring_buffer.go:85-159 | in every run each refusal met a full ring and each empty Pop an empty one; if the ring was never full, no Push was refused |
| RingCalls.LonePush | plugins/bulk_insert_plugin/ring_buffer.go:85-119 | from any state, a Push that nobody disturbs finds room and leaves its record whole and visible under the next ticket |
| RingCalls.LonePushFull | plugins/bulk_insert_plugin/ring_buffer.go:96-98 | on a full ring it returns false and changes nothing |
| RingCalls.LonePopEmpty | plugins/bulk_insert_plugin/ring_buffer.go:133-136 | on an empty ring a Pop that nobody disturbs returns nothing and changes nothing |
| RingCalls.RoundTrip | plugins/bulk_insert_plugin/ring_buffer.go:85-159 | what one thread pushes into an empty ring and another pops, each alone, comes back as it was |
| CountingBreaker.CircuitBreaker.constructor | internal/circuitbreaker/circuitbreaker.go:70-91 | a new breaker is Closed with the defaults filled in |
| CountingBreaker.CircuitBreaker.ShouldAttemptReset | internal/circuitbreaker/circuitbreaker.go:195-208 | goes to HalfOpen exactly when the timeout has passed, whatever the phase is by then |
| CountingBreaker.CircuitBreaker.AllowRequest | internal/circuitbreaker/circuitbreaker.go:176-192 | admission by phase, and the transition it makes |
| CountingBreaker.CircuitBreaker.RecordSuccess | internal/circuitbreaker/circuitbreaker.go:211-240 | a success forgives failures in Closed, and closes at the limit of successful probes |
| CountingBreaker.CircuitBreaker.RecordFailure | internal/circuitbreaker/circuitbreaker.go:243-277 | a failure opens at the maximum in Closed, and at once in HalfOpen |
| CountingBreaker.CircuitBreaker.Reset | internal/circuitbreaker/circuitbreaker.go:313-322 | the manual reset's new state |
| CountingBreaker.CircuitBreaker.Execute | internal/circuitbreaker/circuitbreaker.go:94-121 | one request: rejected, succeeded or failed, and the state it leaves |
| CountingTraces.ClosedWhile | internal/circuitbreaker/circuitbreaker.go:176-277 | until maxFailures requests in a row have failed the breaker is Closed, has let everything through, and counts the failures since the last success |
| CountingTraces.TripsExactly | internal/circuitbreaker/circuitbreaker.go:243-277 | it has been Closed throughout exactly when no maxFailures requests in a row failed, and opens at once when they do |
| CountingTraces.OpenWaits | internal/circuitbreaker/circuitbreaker.go:195-208 | while Open an operation runs exactly when resetTimeout has passed since the last failed operation |
| CountingTraces.ProbeBounded | internal/circuitbreaker/circuitbreaker.go:176-240 | a half-open phase runs at most halfOpenLimit operations, and while it lasts all have succeeded |
| CountingTraces.ClosesExactlyAfterSuccesses | internal/circuitbreaker/circuitbreaker.go:211-240 | it closes exactly at the halfOpenLimit-th probe, if that succeeds, and then all probes have |
| CountingThreads.EveryInterleaving | internal/circuitbreaker/circuitbreaker.go:94-277 | in every interleaving Closed implies failures below the maximum, half-open counts stay below the limit and are zero elsewhere, and requests are successes, failures and those in flight |
| CountingThreads.OnlyStaleProbesStray | internal/circuitbreaker/circuitbreaker.go:176-208 | every move follows the documented diagram, except exactly a caller that read Open before the breaker was closed |
| CountingThreads.ForgetsExactly | internal/circuitbreaker/circuitbreaker.go:195-208 | within a half-open phase finished probes are forgotten exactly by a caller that read Open before it began |
| CountingProbes.ProbesPileUp | internal/circuitbreaker/circuitbreaker.go:185-189 | in an ordered run any number of callers get into one half-open phase |
| CountingProbes.CallsBoundedExactly | internal/circuitbreaker/circuitbreaker.go:176-240 | for any configuration, halfOpenLimit bounds the calls in flight in HalfOpen, over all ordered runs, exactly when there are no more callers than that |
| CountingOperations.OperationsBoundedExactly | internal/circuitbreaker/circuitbreaker.go:124-173 | with operations that go on after their calls have given up, it bounds those running in HalfOpen exactly when there is no caller at all |
| CountingOperations.TimelyBoundedExactly | internal/circuitbreaker/circuitbreaker.go:124-240 | over runs in which no call gives up, it bounds the operations exactly when there are no more callers than that |
| CountingProbes.CanStrayExactly | internal/circuitbreaker/circuitbreaker.go:176-208 | the diagram can be left in an ordered run without manual reset exactly when there are two callers |
| CountingProbes.CanForgetExactly | internal/circuitbreaker/circuitbreaker.go:176-240 | finished probes can be forgotten exactly when there are two callers and halfOpenLimit is at least 2 |
| CountingCalls.CountsExactly | internal/circuitbreaker/circuitbreaker.go:94-277 | in every interleaving each counter counts its own events: requests begun, successes, failures, timeouts and rejections; the last failure is the last one recorded |
| CountingCalls.OpenWaitsForTheLastFailure | internal/circuitbreaker/circuitbreaker.go:195-208 | a caller that read Open is admitted exactly when no failure has been recorded for resetTimeout, whatever the phase it was recorded in |
| CountingCalls.AdmittedExactly | internal/circuitbreaker/circuitbreaker.go:176-192 | who is admitted, from the phase and the count read under the first lock and the clock |
| CountingCalls.MoveExactly | internal/circuitbreaker/circuitbreaker.go:195-322 | the phase, the failures and the finished probes after any move of any caller |
| CountingCalls.HalfOpenRefusesNobody | internal/circuitbreaker/circuitbreaker.go:185-189 | in every interleaving whoever reads HalfOpen is admitted: the limit never refuses |
| CountingCalls.AloneIsServe | internal/circuitbreaker/circuitbreaker.go:94-173 | a call that nobody comes between leaves what one Execute leaves; if it gives up, it counts as a failure and a timeout |
| CountingCalls.ResetServesAsNew | internal/circuitbreaker/circuitbreaker.go:313-322 | after a manual reset any requests are served as by a new breaker, with the counters going on |
| CountingCalls.DefaultsExactly | internal/circuitbreaker/circuitbreaker.go:71-79 | each blank setting takes its own default, and each other stays as given |
| ResilienceBreaker.CircuitBreaker.constructor | internal/resilience/circuit_breaker.go:80-118 | a new breaker is Closed with all four defaults filled in |
| ResilienceBreaker.CircuitBreaker.AllowRequest | internal/resilience/circuit_breaker.go:232-256 | admission, with the timeout test and the transition under one lock |
| ResilienceBreaker.CircuitBreaker.OnRequestSuccess | internal/resilience/circuit_breaker.go:258-275 | successes close at the limit, and forgive nothing in Closed |
| ResilienceBreaker.CircuitBreaker.OnRequestFailure | internal/resilience/circuit_breaker.go:277-299 | failures add up until it opens; a failed probe opens at once |
| ResilienceBreaker.CircuitBreaker.Reset | internal/resilience/circuit_breaker.go:208-228 | the manual reset's new state |
| ResilienceBreaker.CircuitBreaker.FailureRate | internal/resilience/circuit_breaker.go:316-321 | failures over requests, within [0, 1] whatever was reset in between |
| ResilienceBreaker.CircuitBreaker.Execute | internal/resilience/circuit_breaker.go:121-138 | one request and the state it leaves |
| ResilienceBreaker.CircuitBreaker.ExecuteWithContext | internal/resilience/circuit_breaker.go:141-169 | a cancelled or timed-out call counts as a failed request, whatever its operation does later |
| ResilienceBreaker.StepKeeps | internal/resilience/circuit_breaker.go:232-299 | one critical section keeps the invariant and follows the documented diagram |
| ResilienceBreaker.EveryInterleaving | internal/resilience/circuit_breaker.go:208-299 | in every interleaving Closed implies failures below the maximum, HalfOpen implies requests = successes below the limit, successes and failures do not exceed requests, and only documented transitions follow |
| ResilienceProbes.CallsBoundedExactly | internal/resilience/circuit_breaker.go:232-299 | for any configuration and start, halfOpenLimit bounds the calls under way in HalfOpen, over all ordered runs without manual reset, exactly when there are no more callers than that |
| ResilienceProbes.OperationsBoundedExactly | internal/resilience/circuit_breaker.go:141-169 | with operations that go on after their calls have given up, it bounds those running in HalfOpen exactly when there is no caller at all |
| ResilienceProbes.TimelyBoundedExactly | internal/resilience/circuit_breaker.go:141-299 | over runs in which no call gives up, it bounds the operations exactly when there are no more callers than that |
| ResilienceTraces.ClosedWhile | internal/resilience/circuit_breaker.go:258-299 | while fewer than maxFailures requests have failed in all it is Closed, has let everything through, and counts them |
| ResilienceTraces.TripsExactly | internal/resilience/circuit_breaker.go:277-299 | it has been Closed throughout exactly while fewer than maxFailures requests have failed in all, and opens at once at the last |
| ResilienceTraces.OpenWaits | internal/resilience/circuit_breaker.go:238-248 | while Open an operation runs exactly when resetTimeout has passed since the request that opened it ended |
| ResilienceTraces.ClosesExactly | internal/resilience/circuit_breaker.go:258-299 | it closes exactly at the halfOpenMaxReqs-th probe, if that succeeds; a failed probe opens it at once |
| ResilienceTraces.CountsExactly | internal/resilience/circuit_breaker.go:208-299 | in every interleaving requests and successes are those ended since the last manual reset, failures those since it last closed, and both times those of the last failure and change of phase |
| ResilienceTraces.OpenWaitsFromOpening | internal/resilience/circuit_breaker.go:238-248 | a request that meets Open is admitted exactly resetTimeout after the opening: failures recorded while Open do not start the wait anew |
| ResilienceTraces.MoveExactly | internal/resilience/circuit_breaker.go:208-299 | the phase, who is admitted and the finished probes after any move of any caller |
| ResilienceTraces.HalfOpenRefusesNobody | internal/resilience/circuit_breaker.go:249-251 | in every interleaving whoever asks in HalfOpen is admitted |
| ResilienceTraces.AloneIsServe | internal/resilience/circuit_breaker.go:121-138 | a call that nobody comes between leaves what one Execute leaves |
| ResilienceTraces.ResetServesAsNew | internal/resilience/circuit_breaker.go:208-228 | after a manual reset it is as new, and stays so whatever comes; all it remembers is when something last failed |
| ResilienceTraces.DefaultsExactly | internal/resilience/circuit_breaker.go:98-110 | each blank setting takes its own default, and each other stays as given |
| BreakerComparison.StaysInStep | internal/circuitbreaker/circuitbreaker.go:218-232 | two breakers in step admit the same, and stay in step exactly unless a success forgives failures |
| BreakerComparison.LockstepExactly | internal/resilience/circuit_breaker.go:232-299 | over a whole trace the two are in step throughout exactly when no request forgives |
| BreakerComparison.CanPartExactly | internal/circuitbreaker/circuitbreaker.go:211-240 | there is a trace on which the two part exactly when at least one failure is tolerated |
| BreakerComparison.CountsDominate | internal/resilience/circuit_breaker.go:277-299 | while the resilience breaker is Closed the other is too, with no more failures |
| BreakerComparison.ResilienceTripsFirst | internal/resilience/circuit_breaker.go:277-299 | the resilience breaker has tripped whenever the other first does |
| BreakerComparison.ForgivenessSplits | internal/circuitbreaker/circuitbreaker.go:218-232 | after a forgiving success, the failures that open the one leave the other Closed |
| WorkerPool.EveryRun | internal/workerpool/workerpool.go:121-309 | at any moment each accepted job is queued, executing or finished, as often as accepted; each outcome is owed, sent or dropped once; both channels stay bounded |
| WorkerPool.FinishedRun | internal/workerpool/workerpool.go:146-189 | when Shutdown finishes, processed = successful + failed, every outcome was sent or dropped once, and without a cancel every accepted job was processed |
| WorkerPool.CloseIsSafeExactly | internal/workerpool/workerpool.go:126-160 | closing the jobs channel is safe exactly when no Submit is between its check and its send |
| WorkerPool.PanicReachableExactly | internal/workerpool/workerpool.go:121-160 | from a new pool of any size a send on the closed channel is reachable exactly when there is a caller to submit |
| WorkerPool.PanicRun | internal/workerpool/workerpool.go:121-160 | the run: start, check, stop, close, send |
| WorkerPool.NoEarlyPanic | internal/workerpool/workerpool.go:121-309 | before the close nothing sends on a closed channel |
| WorkerPool.CloseFacts | internal/workerpool/workerpool.go:126-160 | after the close nobody new passes the check, and nobody panics but those already past it |
| WorkerPool.DrainAdvances | internal/workerpool/workerpool.go:160-246 | after the close every worker move brings the end of the drain nearer and nothing pushes it back |
| WorkerPool.DrainEnds | internal/workerpool/workerpool.go:160-246 | over any run from the close on, workers make a bounded number of moves, after which all have left an empty queue |
| WorkerPool.DrainCompletes | internal/workerpool/workerpool.go:146-189 | from the close some run finishes the shutdown without a cancel |
| WorkerPoolService.CheckExactly | internal/workerpool/workerpool.go:122-128 | a Submit gets past its check exactly while the pool is running |
| WorkerPoolService.SubmitExactly | internal/workerpool/workerpool.go:130-137 | past its check a Submit is refused exactly if the queue is full, the channel is closed, or it notices a cancel first; otherwise its job goes to the end of the queue; it panics exactly on the closed channel |
| WorkerPoolService.ReceiveExactly | internal/workerpool/workerpool.go:230-246 | a waiting worker takes the oldest job exactly if there is one and it does not notice a cancel first, and leaves exactly on a cancel or a closed empty queue |
| WorkerPoolService.DropExactly | internal/workerpool/workerpool.go:294-309 | an outcome is dropped exactly if the results are full or the worker notices a cancel first; otherwise it goes to the end of the results |
| WorkerPoolService.AcceptsAndDropsExactly | internal/workerpool/workerpool.go:121-309 | in every run the accepted jobs are those whose send found room, in order, and the dropped outcomes those that found none |
| WorkerPoolService.SubmitInARow | internal/workerpool/workerpool.go:121-138 | jobs submitted in a row are accepted in order as far as there is room, up to the queue's size by an idle pool |
| WorkerPoolService.WorkInARow | internal/workerpool/workerpool.go:230-309 | an undisturbed worker does the first jobs in order, counts them by outcome, and sends as many outcomes as there is room for |
| WorkerPoolService.ServesAll | internal/workerpool/workerpool.go:93-309 | from a new pool some run accepts up to the queue's size of jobs in order, does them all, and sends every outcome in order |
| WorkerPoolService.ForcedLeave | internal/workerpool/workerpool.go:174-189 | after a forced shutdown's cancel, workers that wait can leave at once, whatever is queued, and the shutdown finishes |
| WorkerPoolService.ShutdownExactly | internal/workerpool/workerpool.go:160-189 | Shutdown finishes exactly when all workers have left, cancels exactly while draining, and gives up exactly after that |
| WorkerPoolRestart.SubmitPanicsExactly | internal/workerpool/workerpool.go:121-138 | after a Start that follows the close, whatever has happened since, a Submit is let in, its job is never accepted, and it sends on the closed channel exactly unless a cancelled context is chosen |
| WorkerPoolRestart.RestartIsSafeExactly | internal/workerpool/workerpool.go:93-138 | once the channel is closed, a send on it can follow exactly if a caller is past its check; after another Start, exactly if there is any caller |
| Backpressure.Controller.constructor | internal/concurrency/backpressure.go:125-184 | a new controller is idle, with the defaults filled in |
| Backpressure.Controller.UpdatePressure | internal/concurrency/backpressure.go:362-393 | pressure is the weighted sum, at most 1 always and at least 0 when releases are matched; the peak and the event count follow |
| Backpressure.PressureRange | internal/concurrency/backpressure.go:362-377 | pressure is 1 exactly when everything is used up, and 0 exactly when everything is idle |
| Backpressure.Controller.AcquireConnection | internal/concurrency/backpressure.go:187-216 | grants exactly below the threshold and the limit, and counts the drop otherwise |
| Backpressure.Controller.ReleaseConnection | internal/concurrency/backpressure.go:219-226 | created minus destroyed stays the active count; the count stays non-negative exactly if one was held |
| Backpressure.Controller.AcquireWorker | internal/concurrency/backpressure.go:229-251 | grants exactly below the worker limit |
| Backpressure.Controller.ReleaseWorker | internal/concurrency/backpressure.go:254-261 | as for connections |
| Backpressure.Controller.EnqueueRequest | internal/concurrency/backpressure.go:264-287 | queues exactly below the queue limit, and counts the drop otherwise |
| Backpressure.Controller.DequeueRequest | internal/concurrency/backpressure.go:290-298 | as for connections |
| Backpressure.Controller.UpdateLatency | internal/concurrency/backpressure.go:301-325 | the new latency metrics, pressure, limits, history and what it hides; what is held never exceeds the new limits |
| Backpressure.Controller.Measure | internal/concurrency/backpressure.go:305-321 | the halved average; both "percentiles" are the largest latency ever measured |
| Backpressure.AveragedBetween | internal/concurrency/backpressure.go:308-313 | the halved average stays between its old value and the new latency |
| Backpressure.Controller.ConsiderScaling | internal/concurrency/backpressure.go:395-413 | adjusts at most once per delay, up above one threshold, down below the other |
| Backpressure.Controller.ScaleUpLimits | internal/concurrency/backpressure.go:415-459 | which limits grow, the one event, and exactly when it hides the connection limit's growth |
| Backpressure.Controller.ScaleDownLimits | internal/concurrency/backpressure.go:461-490 | the connection limit shrinks but still covers what is held, and the event shows any hidden growth |
| Backpressure.HideAGrowth | internal/concurrency/backpressure.go:415-459 | a controller is brought to grow from five to six while its history tells five |
| Backpressure.GrowsExactly | internal/concurrency/backpressure.go:425-442 | truncated growth stands still exactly below five |
| Backpressure.ShrinkCovers | internal/concurrency/backpressure.go:471-473 | a shrunk limit exceeds what is held and is at least eight |
| Backpressure.NoThrash | internal/concurrency/backpressure.go:425-473 | a limit just grown is not one to shrink, nor the other way round, while the count stays |
| Backpressure.SpacedFarApart | internal/concurrency/backpressure.go:400-412 | adjustments k apart are at least k delays apart |
| BackpressureLaws.FactorsExactly | internal/concurrency/backpressure.go:425-474 | growing is a fifth more, shrinking a fifth less, the marks are four fifths and three tenths, each cut off: in whole numbers |
| BackpressureLaws.AdjustsExactly | internal/concurrency/backpressure.go:395-490 | what a latency update does, in whole numbers: it is due or not, goes up or down by the thresholds, changes exactly the crowded or roomy limits, adds one event and starts the wait anew |
| BackpressureLaws.EventExactly | internal/concurrency/backpressure.go:415-490 | the event tells the direction, the time, and the one limit it names before and after |
| BackpressureLaws.PressureWeighs | internal/concurrency/backpressure.go:362-377 | ten times the pressure is three connection shares, two worker shares, three queue shares and two latency shares |
| BackpressureLaws.AveragedExactly | internal/concurrency/backpressure.go:308-313 | the average becomes half its sum with the new latency, cut off towards zero; the first counts in full |
| BackpressureLaws.UseExactly | internal/concurrency/backpressure.go:204-226 | after any sequence of uses the counts are those taken, given back and held, and the peak is the most ever held |
| BackpressureLaws.DefaultsExactly | internal/concurrency/backpressure.go:148-174 | each blank setting takes its own default, and each other stays as given |
| BackpressureSteps.StepKeeps | internal/concurrency/backpressure.go:187-298 | any atomic step of any caller keeps the invariant, also between another's check and update |
| BackpressureSteps.EveryInterleaving | internal/concurrency/backpressure.go:187-490 | in every interleaving with matched releases nothing exceeds its limit or goes below zero, pressure stays in [0, 1], and the books balance up to the calls under way |
| BackpressureSteps.BalancedAtRest | internal/concurrency/backpressure.go:187-298 | with no call under way, created minus destroyed equals active equals what callers hold |
| BackpressurePeaks.UndisturbedUpdate | internal/concurrency/backpressure.go:362-377 | three separate loads, if undisturbed, publish the controller's formula |
| BackpressurePeaks.PeakExactly | internal/concurrency/backpressure.go:208-212 | for any resource, a new count about to be compared is recorded exactly if no unit is given back before |
| BackpressurePeaks.PeakFromCountingExactly | internal/concurrency/backpressure.go:204-212 | the same from the moment the unit is taken, whatever others do before and after it is counted |
| BackpressurePeaks.PeakCanMiss | internal/concurrency/backpressure.go:204-220 | a run in which two connections are held at once and the recorded peak is one |
| BackpressureCalls.EntersExactly | internal/concurrency/backpressure.go:191-202 | an acquisition is admitted exactly if there is room and, for a connection, the pressure is not above the threshold |
| BackpressureCalls.AcquireAlone | internal/concurrency/backpressure.go:187-287 | undisturbed, for each resource, an acquisition does what the controller's method does |
| BackpressureCalls.ReleaseAlone | internal/concurrency/backpressure.go:219-298 | undisturbed, for each resource, so does a release |
| BackpressureCalls.MeasureAlone | internal/concurrency/backpressure.go:301-490 | undisturbed, a latency update publishes the new pressure and adjusts the limits as decided |
| Sums.ResidualsOfLine | internal/progressive/analysis.go:701-717 | the squared residuals of any line, as a parabola in its slope plus n times its squared height above the means |
| Sums.SpreadExactly | internal/progressive/analysis.go:713 | the spread of x is positive exactly when the values are not all equal |
| Sums.RawForm | internal/progressive/analysis.go:713 | n times a centred sum is the raw-sum expression |
| LeastSquares.LeastSquaresExactly | internal/progressive/analysis.go:701-717 | a line minimises the squared residuals over all lines exactly when it has the centred slope and passes through the means |
| LeastSquares.BestIsUniqueExactly | internal/progressive/analysis.go:701-717 | the minimiser is unique exactly when the x values are not all equal |
| LeastSquares.PerfectExactly | internal/progressive/analysis.go:787-793 | residuals are never negative, and zero exactly when all points are on the line |
| LeastSquares.RSquaredInRange | internal/progressive/analysis.go:780-801 | R-squared of the best line is within [0, 1], and 1 exactly for non-constant y on the line |
| LeastSquares.SpreadsBound | internal/util/math.go:280-293 | Cauchy-Schwarz for the Pearson sums, with equality exactly when x is constant or the points are on a line |
| LeastSquares.RSquaredIsCorrelation | internal/progressive/analysis.go:780-801 | R-squared times both spreads is the squared joint spread |
| Regression.DenominatorExactly | internal/progressive/analysis.go:713 | fitLinear's denominator is never negative, and zero exactly when all x are equal |
| Regression.RawFit | internal/progressive/analysis.go:713-714 | any solution of the two quotients is a least-squares line |
| Regression.Mean | internal/util/math.go:334-343 | the mean, and zero for no values |
| Regression.CalculateRSquared | internal/progressive/analysis.go:780-801 | for any predictor, the share of the spread its residuals do not leave over; zero without spread |
| Regression.FitLinear | internal/progressive/analysis.go:701-721 | has no finite result exactly when all x are equal; otherwise the unique least-squares line with its R-squared |
| Regression.Spreads | internal/util/math.go:276-287 | the loops compute the joint spread and both spreads around the means |
| Regression.LinearSlope | internal/util/math.go:311-331 | the least-squares slope; zero for mismatched, short or constant x |
| Regression.PearsonCorrelation | internal/util/math.go:270-294 | the correlation coefficient, in [-1, 1], with the sign of the joint spread; zero for mismatched, short or constant data |
| Regression.SlopesAgree | internal/util/math.go:311-331 | the centred slope equals that of any least-squares line, however computed, unless all x are equal |
| Regression.RSquaredIsPearsonSquared | internal/progressive/analysis.go:780-801 | R-squared of the fit is the square of the Pearson coefficient |
| Regression.PositionSum | internal/progressive/analytics.go:774 | the closed form n(n - 1)/2 is the sum of 0, ..., n - 1 |
| Regression.LinearRegression | internal/progressive/analytics.go:768-810 | the unique least-squares line over positions 0, ..., n - 1, with its R-squared |
| Percentiles.EnginePercentile | internal/progressive/engine.go:951-969 | at position p(n - 1), on the straight line between the two neighbouring samples, each weighed by how close it is |
| Percentiles.BackendPercentile | internal/results/backend.go:160-174 | the same, although it truncates and tests for the end |
| Percentiles.CalculatePercentiles | pkg/metrics/advanced.go:390-421 | the same function of the sorted values for every percentage in range, and no entry for the others |
| Percentiles.CalculateLatencyPercentiles | internal/results/backend.go:134-181 | minimum, percentiles and maximum come out in order, and the truncated average lies between the extremes |
| Percentiles.PercentileExactly | internal/progressive/engine.go:959-968 | between ranks k and k + 1 the percentile is (k + 1 - x) s[k] + (x - k) s[k + 1] at x = p(n - 1) |
| Percentiles.PercentileOfEven | internal/progressive/engine.go:951-969 | of evenly spaced samples it is that share of the way from the first to the last |
| Percentiles.QuotientExactly | internal/results/backend.go:157 | the average is cut off towards zero |
| Percentiles.PercentileMonotone | internal/progressive/engine.go:951-969 | a higher percentile is never smaller, across knots too |
| Percentiles.PercentileBetween | internal/progressive/engine.go:951-969 | stays between the extremes, and is the sample itself at whole ranks |
| Percentiles.Splits | internal/progressive/engine.go:959-968 | samples up to the position are no larger and those from it on no smaller |
| Percentiles.PercentileScales | internal/results/backend.go:144-147 | changing the unit of the samples changes the unit of the percentile |
| Percentiles.SortingForgetsOrder | pkg/metrics/advanced.go:396-398 | the order in which values were recorded does not matter |
| Percentiles.OneSortedOrder | internal/results/backend.go:139-142 | any correct sort gives the same samples |
| Samples.GetLatencyBucket | pkg/types/types.go:321-330 | returns the bucket of the latency |
| Samples.BucketExactly | pkg/types/types.go:316-330 | that bucket's bound is the least that encloses the latency |
| Samples.BucketsAddUp | pkg/types/types.go:350-356 | the buckets' counts add up to the number of latencies |
| Samples.NamesDistinct | pkg/types/types.go:342-346 | the thirteen bucket names differ |
| Samples.NamesTell | pkg/types/types.go:316-346 | each bucket's name is its bound printed in milliseconds with one decimal |
| Samples.Metrics.constructor | pkg/types/types.go:333-415 | a recorder starts empty, every bucket zero |
| Samples.Metrics.RecordLatency | pkg/types/types.go:350-356 | each bucket equals the number of recorded latencies that belong to it |
| Samples.Metrics.RecordLatencyWithLimit | pkg/types/types.go:449-464 | the buffer is never longer than its limit and holds, at each place, the latest sample that went there |
| Samples.Metrics.RecordWorkerTransaction | pkg/types/types.go:418-446 | histogram, both buffers and the counts of successes and aborts, overall and the worker's own, in mixed runs: each buffer holds, at each place, the latest sample that went there, the global one's placed by the counter before, the worker's by the counter after |
| Samples.Metrics.RecordWorker | pkg/types/types.go:429-445 | the worker's own buffer holds, at each place, the latest sample that went there; once full it advances the shared counter |
| Samples.KeepsTheLast | pkg/types/types.go:449-464 | if only the limited recorder records, the buffer holds exactly the last min(n, max) samples, sample k at k mod max |
| SampleLoss.KeepsLastExactly | pkg/types/types.go:418-464 | for any number of workers, a buffer, global or own, holds its last samples exactly when no two of them have whole laps of the counter between them |
| SampleLoss.KeptSamples | pkg/types/types.go:418-464 | then each of them is at its place in the buffer |
| SampleLoss.ReplacesExactly | pkg/types/types.go:442-462 | which sample a new one replaces: one whole laps before, with none such in between |
| SampleLoss.ReplacesOldestExactly | pkg/types/types.go:442-462 | a sample replaces the one a lap before it exactly when the workers advanced the counter by whole laps since, and no sample in between went to the same place |
| SampleLoss.SoloKeepsLastExactly | pkg/types/types.go:418-464 | with one worker recording everything, at any length, the global buffer keeps the last samples exactly up to one past the limit, or with an odd limit from two laps on |
| SampleLoss.OwnKeepsLastExactly | pkg/types/types.go:436-445 | the worker's own buffer keeps them exactly up to the limit, or with an odd limit from two laps on, or with a limit of 2 at length 3 |
| SampleLoss.StaleForever | pkg/types/types.go:418-464 | with an even limit the odd places of both buffers keep their first samples for good |
| TimeSeries.TimeSeriesMetrics.constructor | pkg/types/types.go:478-498 | starts with one empty bucket |
| TimeSeries.TimeSeriesMetrics.RotateIfNeeded | pkg/types/types.go:501-528 | afterwards the current bucket covers now, archived buckets are disjoint and ordered, and nothing counted is lost |
| TimeSeries.TimeSeriesMetrics.RecordTransaction | pkg/types/types.go:548-569 | counted and listed once, in the bucket that covers its time; TPS stays the number of successes passed in |
| TimeSeries.TimeSeriesMetrics.RecordQuery | pkg/types/types.go:572-604 | counted and listed once, in the bucket that covers its time; the counters stay what the lists add up to, by kind |
| TimeSeries.TimeSeriesMetrics.RecordError | pkg/types/types.go:607-618 | counted once, in the bucket that covers its time; the error count stays the number of calls |
| TimeSeries.TimeSeriesMetrics.Finalize | pkg/types/types.go:531-545 | after one finalize the archive's TPS is the number of successes passed in and its transactions those passed in, in order; all else too, except exactly a last bucket with queries or errors but no transaction |
| TimeSeries.TimeSeriesMetrics.FinalizeTwice | pkg/types/types.go:531-545 | a second finalize duplicates the last bucket's transactions |
| TimeSeries.TimeSeriesMetrics.RecordAfterFinalize | pkg/types/types.go:501-569 | a record after finalizing archives the last bucket a second time exactly when made at a later time; otherwise it misses the archive |
| TimeSeries.LoseAQuery | pkg/types/types.go:531-545 | a query recorded while the current bucket has no transaction is not in the archive |
| Scaling.Engine.ValidateConfig | internal/progressive/engine.go:758-836 | accepts exactly the acceptable configurations, reports the first check that fails, and fills in the new format's blanks, even before rejecting a strategy |
| Scaling.AcceptableExactly | internal/progressive/engine.go:758-836 | acceptable is what no check fails |
| Scaling.ValidationSettles | internal/progressive/engine.go:758-836 | what validation leaves is accepted again, unchanged |
| Scaling.Exponential | internal/progressive/engine.go:362-397 | terminates; band i is (min(minW 2^i, maxW), min(minC 2^i, maxC)); the last band and no other is at both maxima |
| Scaling.FibonacciNumbers | internal/progressive/engine.go:423-440 | exactly the Fibonacci numbers in the range, ascending, each once |
| Scaling.Fibonacci | internal/progressive/engine.go:400-420 | exactly the pairs of Fibonacci numbers in both ranges, ordered by workers, then connections |
| Scaling.Linear | internal/progressive/engine.go:237-291 | the first min(bands, grid size) cells of the grid, row by row |
| Scaling.FillsBlanks | internal/progressive/engine.go:789-806 | each blank field of the new format takes its own default, and each other stays as given |
| Scaling.DoubledNext | internal/progressive/engine.go:375-392 | the doubled values start at the minimum and double as long as that stays within the maximum |
| Scaling.StepForExactly | internal/progressive/engine.go:259-275 | a worked-out step is the largest that fits the target number of times into the range, or 1 if the range is shorter |
| Scaling.WorkedOutStepsExactly | internal/progressive/engine.go:250-276 | unless both are configured both steps are worked out: the workers' for the root of the number of bands, the connections' for how often that goes into it |
| Scaling.LinearBand | internal/progressive/engine.go:280-288 | the k-th band, from the length of a row |
| Scaling.WorkersVisited | internal/progressive/engine.go:280-288 | the sequence visits the first worker count, and one more for each full row before its last band |
| Scaling.SixteenBands | internal/progressive/engine.go:237-291 | 10 to 100 both ways in 16 bands: steps of 22, rows of five, four worker counts |
| Scaling.GridCell | internal/progressive/engine.go:280-288 | which cell of the grid is at which place |
| Scaling.GridSize | internal/progressive/engine.go:280-288 | the grid has rows times columns cells |
| Scaling.StepsClosed | internal/progressive/engine.go:280-281 | how many values a stepped loop takes, in closed form |
| Scaling.LinearCutsExactly | internal/progressive/engine.go:246-288 | cells are left out exactly when the two step counts, from ranges and steps, multiply to more than the bands |
| Scaling.WorkedOutStepsOvershoot | internal/progressive/engine.go:250-276 | worked-out steps always cut when both ranges have room for their targets |
| Scaling.WorkedOutStepsCanFit | internal/progressive/engine.go:250-276 | and need not otherwise: one cell, five bands |
| Scaling.WorkedOutStepsCanCutEarly | internal/progressive/engine.go:250-276 | but can: ranges of 8 and 1001, 64 bands |
| PluginLoaders.Loader.constructor | pkg/plugin/loader.go:37-44 | starts with no plugins |
| PluginLoaders.Loader.LoadMetadata | pkg/plugin/loader.go:113-178 | adds a plugin exactly when it opens and fits, remembers failed paths, and keeps the type index the exact inverse of the plugins' type lists |
| PluginLoaders.Loader.LoadPlugin | pkg/plugin/loader.go:182-220 | loads exactly when opening and initialising succeed, or it is loaded already |
| PluginLoaders.Loader.UnloadPlugin | pkg/plugin/loader.go:223-246 | unloads, and keeps the index |
| PluginLoaders.Loader.GetWorkload | pkg/plugin/loader.go:250-275 | creates on the plugin that offers the type, loaded by then; the second lookup never fails |
| PluginLoaders.TypesAreDisjoint | pkg/plugin/loader.go:155-160 | no workload type belongs to two plugins |
| PluginLoaders.NeverLeadsNowhere | pkg/plugin/loader.go:259-262 | every indexed type leads to a plugin that offers it |
| PluginRegistries.Registry.constructor | pkg/plugin/registry.go:59-78 | starts empty and sound |
| PluginRegistries.Registry.Register | pkg/plugin/registry.go:81-131 | succeeds exactly when valid, all dependencies exist and it is not loaded; a first registration keeps the graph closed, acyclic and mirrored; a repeated one exactly under two conditions |
| PluginRegistries.Registry.AddDependents | pkg/plugin/registry.go:118-121 | each dependent list gains the name as often as it is listed |
| PluginRegistries.Registry.UnloadPlugin | pkg/plugin/registry.go:380-412 | marks the plugin unloaded and leaves the graph alone |
| PluginRegistries.AcyclicExactly | pkg/plugin/registry.go:116 | replacing an entry's dependencies keeps an acyclic graph so exactly when none of them already leads back to it |
| PluginRegistries.MirrorsExactly | pkg/plugin/registry.go:115-121 | dependents stay the exact inverse of dependencies exactly when the entry had none before |
| PluginRegistries.CycleByReregistration | pkg/plugin/registry.go:81-131 | two plugins, an unload and a second registration make a cycle |
| PluginRegistries.ListTwice | pkg/plugin/registry.go:81-131 | an unload and an unchanged second registration list a dependent twice |
| Regions.ClassifyRegions | internal/progressive/analysis.go:490-584 | the regions cut bands 2 to n into maximal stretches of one label; all but the last report the next one's confidence |
| Regions.OneCut | internal/progressive/analysis.go:504-580 | there is only one such cut, so decoding the regions gives back the labels |
| Regions.OwnConfidenceExactly | internal/progressive/analysis.go:539-579 | a region reports its own label's confidence exactly when it is last with diminishing returns, or between linear scaling and degradation |
| Regions.ClassifyExactly | internal/progressive/analysis.go:521-536 | exactly which pairs of growth rates get which of the five labels |
| Regions.LabelExactly | internal/progressive/analysis.go:508-536 | every band's label from the three throughputs, without a quotient, and with none among them |
| Regions.WorkedExample | internal/progressive/analysis.go:490-584 | eight throughputs with all five labels, their regions and the confidences reported |
| Regions.DegradationExactly | internal/progressive/analysis.go:521-536 | exactly which growth rates are called degradation; two falls are saturation |
| Regions.SilentBand | internal/progressive/analysis.go:508-536 | a band without throughput before another is transitional after silence and degradation after throughput |
| Regions.SilenceIsTransitional | internal/progressive/analysis.go:508-536 | all bands within a silent stretch are transitional |

## Left out

- Database access, SQL, connection pools, plugin files, file watching, exports, logging and callbacks: input and output, or libraries not part of this model.
- Wrap-around of 64-bit tickets and counters, panicking operations and nil job results: assumed away.
- Rounding of floating point: arithmetic is exact, so a truncation of a product such as 0.3 times a limit is that of the exact product.
- RingIntegrity.DataRun: holds under the stated proviso only; without it RingLoss shows the loss.
- RingIndexes.EveryInterleaving: runs of Push and Pop. Reset is modelled only while no call is under way (`RingReset`); Close, Size and Stats, which store one flag or only load, have no steps of their own.
- RingBuffers.RingBuffer.Push: the source's retry loop is written straight, because with calls atomic its back edge cannot be taken; nil receivers are not modelled. The same goes for Pop.
- Consumers.Consumer.Serve: the defensive copy of a batch and the metrics other than transactions, errors and rows inserted are left out; others push between polls, but only this consumer pops.
- WorkerPool.EveryRun: the pool is a state machine over values, not a class, for one Start and one Shutdown and, in `WorkerPoolRestart`, a second Start; processing durations and the resource monitor are not part of this model.
- CountingThreads.EveryInterleaving: one clock reading per critical section; durations, the last error and the state-change callback are not part of this model.
- CountingBreaker.CircuitBreaker.Execute: the operation's outcome and times are parameters; an expired context is a move of CountingThreads, and the operation it leaves behind is in CountingOperations.
- WorkerPoolRestart.SubmitPanicsExactly: a second Shutdown, which closes the closed channel, and the recovery of a worker that sends on the closed results channel are not modelled.
- ResilienceBreaker.CircuitBreaker.ExecuteWithContext: one call at a time; operations that outlive their calls are in `ResilienceProbes`. The manager and recovery are not part of this model.
- Backpressure.Controller.UpdatePressure: callbacks and total counters that repeat the created ones are left out.
- BackpressureSteps.EveryInterleaving: which decision a latency update leads to is arbitrary there; drops and pressure events are not counted.
- Regression.FitLinear: the formula text, and the logarithmic and exponential fits with their transcendental functions, are not part of this model.
- Regression.LinearRegression: analyzeTrend repeats its computation and adds a direction word, left out.
- Percentiles.CalculateLatencyPercentiles: sums the durations in the order recorded, not sorted, which gives the same sum; sorting in place is a function here.
- Samples.Metrics.RecordWorkerTransaction: calls are atomic; the histogram is keyed by bucket number instead of by name.
- TimeSeries.TimeSeriesMetrics.RecordQuery: the bucket's parallel lists are one list of transactions and one of queries, of which the lists of rows by kind are parts; calls are atomic.
- Scaling.Linear: the balanced and synchronized sequences and the dispatch on the strategy would only add easy members.
- PluginLoaders.Loader.GetWorkload: calls are atomic; the source lets go of its lock around the automatic load, and an unload in between is not modelled.
- PluginRegistries.Registry.Register: version and metadata validation is a parameter; file checks and health monitoring are not part of this model.
- Regions.ClassifyRegions: descriptions, which depend on the label alone, are left out.
- Queueing analysis, cumulative capacity, elasticity and cost-benefit, retry accounting and connection-pool wrappers: not part of this model.
