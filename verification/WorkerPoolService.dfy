/** What the pool does for its callers: which submits it accepts, which results it drops,
    and that accepted jobs get done. */
module WorkerPoolService {
  import opened WorkerPool

  // ---- One move, exactly.

  /** A Submit gets past its check exactly while the pool is running. */
  lemma CheckExactly(p: Pool, i: nat, job: Job)
    requires i < |p.submitters| && p.submitters[i].Idle?
    ensures Step(p, Check(i, job)).submitters[i] == Checked(job) <==> p.ctl.running
    ensures Step(p, Check(i, job)) == if p.ctl.running then p.(submitters := p.submitters[i := Checked(job)]) else p
  {
  }

  /** Past its check, a Submit is refused exactly if the queue is full, or the channel is
      closed, or it notices the cancel first. Otherwise its job goes to the end of the queue. */
  lemma SubmitExactly(p: Pool, i: nat, preferDone: bool)
    requires i < |p.submitters| && p.submitters[i].Checked?
    ensures var q, job := Step(p, Send(i, preferDone)), p.submitters[i].job;
            && (q.accepted == p.accepted <==> p.ctl.closed || |p.jobs| >= p.size || (p.ctl.cancelled && preferDone))
            && (if q.accepted == p.accepted then q.jobs == p.jobs
                else q.accepted == p.accepted + [job] && q.jobs == p.jobs + [job])
            && (q.panicked <==> p.panicked || (p.ctl.closed && !(p.ctl.cancelled && preferDone)))
            && q.submitters == p.submitters[i := Idle] && q.workers == p.workers && q.tally == p.tally
  {
  }

  /** A waiting worker takes the oldest job exactly if there is one and it does not notice
      the cancel first; it leaves exactly if it notices the cancel, or finds nothing in a
      queue that is closed or cancelled. */
  lemma ReceiveExactly(p: Pool, i: nat, preferDone: bool, ok: bool)
    requires i < |p.workers| && p.workers[i].Waiting?
    ensures var q, gone := Step(p, Work(i, preferDone, ok)), p.ctl.cancelled && preferDone;
            && (q.workers[i].Executing? <==> p.jobs != [] && !gone)
            && (q.workers[i].Executing? ==> p.jobs == [q.workers[i].job] + q.jobs)
            && (q.workers[i].Exited? <==> gone || (p.jobs == [] && (p.ctl.closed || p.ctl.cancelled)))
            && (!q.workers[i].Executing? ==> q.jobs == p.jobs)
  {
  }

  /** An outcome is dropped exactly if the results channel is full or the worker notices the
      cancel first; otherwise it goes to the end of the results. */
  lemma DropExactly(p: Pool, i: nat, preferDone: bool, ok: bool)
    requires Inv(p) && i < |p.workers| && p.workers[i].Classified?
    ensures var q, out := Step(p, Work(i, preferDone, ok)), p.workers[i].out;
            && (q.tally.dropped == p.tally.dropped + [out] <==> |p.results| >= p.size || (p.ctl.cancelled && preferDone))
            && (if |q.tally.dropped| > |p.tally.dropped| then q.results == p.results && q.tally.sent == p.tally.sent
                else q.results == p.results + [out] && q.tally.sent == p.tally.sent + [out])
            && q.workers[i].Waiting? && q.panicked == p.panicked
  {
  }

  // ---- Over a whole run.

  /** A send that finds room in the open queue and is not given up for the cancel. */
  predicate Accepts(p: Pool, m: Move) {
    && m.Send? && m.i < |p.submitters| && p.submitters[m.i].Checked?
    && !p.ctl.closed && |p.jobs| < p.size && !(p.ctl.cancelled && m.preferDone)
  }

  /** A worker about to send finds the results full, or gives up for the cancel. */
  predicate Drops(p: Pool, m: Move) {
    && m.Work? && m.i < |p.workers| && p.workers[m.i].Classified?
    && (|p.results| >= p.size || (p.ctl.cancelled && m.preferDone))
  }

  /** The jobs of all those sends, and the outcomes of all those workers, in order. */
  function AcceptedBy(p: Pool, moves: seq<Move>): seq<Job> {
    if moves == [] then []
    else
      var front, m := moves[..|moves| - 1], moves[|moves| - 1];
      var q := Run(p, front);
      AcceptedBy(p, front) + (if Accepts(q, m) then [q.submitters[m.i].job] else [])
  }

  function DroppedBy(p: Pool, moves: seq<Move>): seq<Outcome> {
    if moves == [] then []
    else
      var front, m := moves[..|moves| - 1], moves[|moves| - 1];
      var q := Run(p, front);
      DroppedBy(p, front) + (if Drops(q, m) then [q.workers[m.i].out] else [])
  }

  lemma OneMoveLogged(p: Pool, m: Move)
    requires Inv(p)
    ensures Step(p, m).accepted == p.accepted + (if Accepts(p, m) then [p.submitters[m.i].job] else [])
    ensures Step(p, m).tally.dropped == p.tally.dropped + (if Drops(p, m) then [p.workers[m.i].out] else [])
  {
    if m.Work? && m.i < |p.workers| {
      WorkLogged(p, m.i, m.preferDone, m.ok);
    }
  }

  lemma WorkLogged(p: Pool, i: nat, preferDone: bool, ok: bool)
    requires Inv(p) && i < |p.workers|
    ensures var q := WorkerStep(p, i, preferDone, ok);
            && q.accepted == p.accepted
            && q.tally.dropped == p.tally.dropped + (if Drops(p, Work(i, preferDone, ok)) then [p.workers[i].out] else [])
  {
    if p.workers[i].Waiting? {
      ReceiveLogged(p, i, preferDone);
    }
  }

  lemma ReceiveLogged(p: Pool, i: nat, preferDone: bool)
    requires i < |p.workers|
    ensures var q := ReceiveStep(p, i, preferDone); q.accepted == p.accepted && q.tally.dropped == p.tally.dropped
  {
  }

  /** In every run from a new pool: the jobs accepted are exactly those whose send found
      room, in that order, and the outcomes dropped exactly those that found none. */
  lemma {:induction false} AcceptsAndDropsExactly(size: nat, workers: nat, callers: nat, moves: seq<Move>)
    ensures var start := Init(size, workers, callers);
            && Run(start, moves).accepted == AcceptedBy(start, moves)
            && Run(start, moves).tally.dropped == DroppedBy(start, moves)
    decreases |moves|
  {
    if moves != [] {
      var front := moves[..|moves| - 1];
      AcceptsAndDropsExactly(size, workers, callers, front);
      InitInv(size, workers, callers);
      RunInv(Init(size, workers, callers), front);
      OneMoveLogged(Run(Init(size, workers, callers), front), moves[|moves| - 1]);
    }
  }

  // ---- Several moves in a row.

  lemma {:induction false} RunJoin(p: Pool, a: seq<Move>, b: seq<Move>)
    ensures Run(p, a + b) == Run(Run(p, a), b)
    decreases |a|
  {
    if a == [] {
      assert a + b == b;
    } else {
      var first, rest := a[0], a[1..];
      assert a == [first] + rest && a + b == [first] + (rest + b);
      RunFirst(p, first, rest);
      RunFirst(p, first, rest + b);
      RunJoin(Step(p, first), rest, b);
    }
  }

  lemma RunOne(p: Pool, m: Move)
    ensures Run(p, [m]) == Step(p, m)
  {
    RunConcat(p, [], m);
    assert [] + [m] == [m];
  }

  lemma RunTwo(p: Pool, m: Move, q: Pool, n: Move, r: Pool)
    requires Step(p, m) == q && Step(q, n) == r
    ensures Run(p, [m] + [n]) == r
  {
    RunOne(p, m);
    RunConcat(p, [m], n);
  }

  lemma Assoc<T>(a: seq<T>, b: seq<T>, x: T)
    ensures a + (b + [x]) == (a + b) + [x]
  {
  }

  lemma OneMore<T>(s: seq<T>, n: nat)
    requires n < |s|
    ensures s[..n + 1] == s[..n] + [s[n]] && s[n..][0] == s[n] && s[n..][1..] == s[n + 1..]
  {
  }

  lemma AllOfIt<T>(s: seq<T>)
    ensures s[..|s|] == s && s[|s|..] == []
  {
  }

  function AtMost(n: int, most: int): int {
    if n <= most then n else most
  }

  function Submit(i: nat, job: Job): seq<Move> {
    [Check(i, job)] + [Send(i, false)]
  }

  ghost predicate TakesOne(p: Pool, q: Pool, job: Job) {
    q == if |p.jobs| < p.size then p.(jobs := p.jobs + [job], accepted := p.accepted + [job]) else p
  }

  lemma SubmitOnce(p: Pool, i: nat, job: Job)
    requires i < |p.submitters| && p.submitters[i].Idle? && p.ctl.running && !p.ctl.closed
    ensures TakesOne(p, Run(p, Submit(i, job)), job)
  {
    var mid := p.(submitters := p.submitters[i := Checked(job)]);
    assert p.submitters[i := Checked(job)][i := Idle] == p.submitters;
    RunTwo(p, Check(i, job), mid, Send(i, false), SendStep(mid, i, false));
  }

  /** `q` is `p` with as many of the jobs accepted, in order, as there was room for. */
  ghost predicate Taken(p: Pool, q: Pool, jobs: seq<Job>) {
    && |p.jobs| <= p.size
    && var taken := jobs[..AtMost(|jobs|, p.size - |p.jobs|)];
       q == p.(jobs := p.jobs + taken, accepted := p.accepted + taken)
  }

  lemma TakenNext(p: Pool, q: Pool, jobs: seq<Job>, job: Job, r: Pool)
    requires Taken(p, q, jobs) && TakesOne(q, r, job)
    ensures Taken(p, r, jobs + [job])
  {
    var more, room := jobs + [job], p.size - |p.jobs|;
    AllOfIt(jobs);
    AllOfIt(more);
    if |more| <= room {
      Assoc(p.jobs, jobs, job);
      Assoc(p.accepted, jobs, job);
    } else {
      assert more[..room] == jobs[..room];
    }
  }

  lemma NothingTaken(p: Pool)
    requires |p.jobs| <= p.size
    ensures Taken(p, p, [])
  {
    assert p.jobs + [] == p.jobs && p.accepted + [] == p.accepted;
  }

  lemma TakenOnly(p: Pool, q: Pool, jobs: seq<Job>)
    requires Taken(p, q, jobs)
    ensures q.submitters == p.submitters && q.ctl == p.ctl && q.size == p.size
  {
  }

  lemma SubmitNext(p: Pool, before: seq<Move>, q: Pool, i: nat, jobs: seq<Job>, job: Job)
    requires q == Run(p, before) && Taken(p, q, jobs)
    requires i < |q.submitters| && q.submitters[i].Idle? && q.ctl.running && !q.ctl.closed
    ensures Taken(p, Run(p, before + Submit(i, job)), jobs + [job])
  {
    SubmitOnce(q, i, job);
    RunJoin(p, before, Submit(i, job));
    TakenNext(p, q, jobs, job, Run(q, Submit(i, job)));
  }

  /** The jobs one caller submits in a row, nobody else moving, are accepted in order as
      far as there is room: up to `size` of them by an idle pool. */
  lemma {:induction false} SubmitInARow(p: Pool, i: nat, jobs: seq<Job>) returns (moves: seq<Move>)
    requires i < |p.submitters| && p.submitters[i].Idle? && p.ctl.running && !p.ctl.closed && |p.jobs| <= p.size
    ensures Taken(p, Run(p, moves), jobs)
    decreases |jobs|
  {
    if jobs == [] {
      moves := [];
      NothingTaken(p);
    } else {
      var n := |jobs| - 1;
      moves := SubmitInARow(p, i, jobs[..n]);
      TakenOnly(p, Run(p, moves), jobs[..n]);
      SubmitNext(p, moves, Run(p, moves), i, jobs[..n], jobs[n]);
      OneMore(jobs, n);
      AllOfIt(jobs);
      moves := moves + Submit(i, jobs[n]);
    }
  }

  /** What comes of jobs that end as `oks` says. */
  function Outcomes(jobs: seq<Job>, oks: seq<bool>): (outs: seq<Outcome>)
    requires |jobs| == |oks|
    ensures |outs| == |jobs|
  {
    seq(|jobs|, k requires 0 <= k < |jobs| => Outcome(jobs[k], oks[k]))
  }

  /** `u` is `t` with these jobs started and finished. */
  ghost predicate Counts(t: Tally, u: Tally, jobs: seq<Job>, outs: seq<Outcome>) {
    && u.started == t.started + jobs && u.finished == t.finished + outs
    && u.processed == t.processed + |outs|
    && u.successful == t.successful + CountOk(outs)
    && u.failed == t.failed + (|outs| - CountOk(outs))
  }

  lemma CountsNext(t: Tally, u: Tally, v: Tally, jobs: seq<Job>, outs: seq<Outcome>, job: Job, out: Outcome)
    requires Counts(t, u, jobs, outs) && Counts(u, v, [job], [out])
    ensures Counts(t, v, jobs + [job], outs + [out])
  {
    OutcomeAppend(outs, out, 0);
    OutcomeAppend([], out, 0);
    assert [] + [out] == [out];
    Assoc(t.started, jobs, job);
    Assoc(t.finished, outs, out);
  }

  /** `q` is `p` with these outcomes produced by an undisturbed worker. */
  ghost predicate Worked(p: Pool, q: Pool, outs: seq<Outcome>) {
    && |outs| <= |p.jobs|
    && q == p.(jobs := p.jobs[|outs|..], results := q.results, tally := q.tally)
    && Counts(p.tally, q.tally, p.jobs[..|outs|], outs)
  }

  /** As many outcomes as there is room for are sent, in order, and the rest dropped. */
  ghost predicate Handed(p: Pool, q: Pool, outs: seq<Outcome>) {
    && |p.results| <= p.size
    && var sent := AtMost(|outs|, p.size - |p.results|);
       && q.results == p.results + outs[..sent] && q.tally.sent == p.tally.sent + outs[..sent]
       && q.tally.dropped == p.tally.dropped + outs[sent..]
  }

  /** A worker that nobody disturbs and nothing cancels. */
  predicate Serving(p: Pool, i: nat) {
    i < |p.workers| && p.workers[i].Waiting? && !p.ctl.cancelled && !p.ctl.resultsClosed && |p.results| <= p.size
  }

  /** One more outcome. */
  ghost predicate DoneOnce(q: Pool, r: Pool, out: Outcome) {
    && q.jobs != [] && out.job == q.jobs[0]
    && r == q.(jobs := q.jobs[1..], results := r.results, tally := r.tally)
    && Counts(q.tally, r.tally, [q.jobs[0]], [out])
    && r.results == (if |q.results| < q.size then q.results + [out] else q.results)
    && r.tally.sent == (if |q.results| < q.size then q.tally.sent + [out] else q.tally.sent)
    && r.tally.dropped == (if |q.results| < q.size then q.tally.dropped else q.tally.dropped + [out])
  }

  /** Once around the worker's loop. */
  function Round(i: nat, ok: bool): seq<Move> {
    var m := Work(i, false, ok);
    ([m] + [m]) + ([m] + [m])
  }

  lemma FirstHalf(p: Pool, i: nat, ok: bool) returns (q: Pool)
    requires Serving(p, i) && p.jobs != []
    ensures Run(p, [Work(i, false, ok)] + [Work(i, false, ok)]) == q
    ensures var out := Outcome(p.jobs[0], ok);
            q == p.(jobs := p.jobs[1..], workers := p.workers[i := Counted(out)],
                    tally := p.tally.(started := p.tally.started + [p.jobs[0]], processed := p.tally.processed + 1,
                                      finished := p.tally.finished + [out]))
  {
    var m := Work(i, false, ok);
    var mid := Step(p, m);
    assert mid == ReceiveStep(p, i, false) && mid.workers[i] == Executing(p.jobs[0]);
    q := Step(mid, m);
    assert mid.workers[i := Counted(Outcome(p.jobs[0], ok))] == p.workers[i := Counted(Outcome(p.jobs[0], ok))];
    RunTwo(p, m, mid, m, q);
  }

  lemma SecondHalf(p: Pool, i: nat, ok: bool) returns (q: Pool)
    requires i < |p.workers| && p.workers[i].Counted? && !p.ctl.cancelled && !p.ctl.resultsClosed
    ensures Run(p, [Work(i, false, ok)] + [Work(i, false, ok)]) == q
    ensures var out := p.workers[i].out;
            var t := p.tally.(successful := p.tally.successful + (if out.ok then 1 else 0),
                              failed := p.tally.failed + (if out.ok then 0 else 1));
            q == if |p.results| < p.size
                 then p.(workers := p.workers[i := Waiting], results := p.results + [out],
                         tally := t.(sent := t.sent + [out]))
                 else p.(workers := p.workers[i := Waiting], tally := t.(dropped := t.dropped + [out]))
  {
    var m, out := Work(i, false, ok), p.workers[i].out;
    var mid := Step(p, m);
    assert mid == ClassifyStep(p, i, out) && mid.workers[i] == Classified(out);
    q := Step(mid, m);
    assert mid.workers[i := Waiting] == p.workers[i := Waiting];
    RunTwo(p, m, mid, m, q);
  }

  lemma WorkOnce(p: Pool, i: nat, ok: bool)
    requires Serving(p, i) && p.jobs != []
    ensures DoneOnce(p, Run(p, Round(i, ok)), Outcome(p.jobs[0], ok))
  {
    var half := [Work(i, false, ok)] + [Work(i, false, ok)];
    var mid := FirstHalf(p, i, ok);
    var q := SecondHalf(mid, i, ok);
    RunJoin(p, half, half);
    assert mid.workers[i := Waiting] == p.workers;
    OutcomeAppend([], Outcome(p.jobs[0], ok), 0);
    assert [] + [Outcome(p.jobs[0], ok)] == [Outcome(p.jobs[0], ok)];
  }

  lemma OutcomesNext(jobs: seq<Job>, oks: seq<bool>)
    requires 0 < |oks| <= |jobs|
    ensures var n := |oks| - 1;
            Outcomes(jobs[..n + 1], oks) == Outcomes(jobs[..n], oks[..n]) + [Outcome(jobs[n], oks[n])]
  {
  }

  /** The outcomes `outs` have been produced and handed over. */
  ghost predicate Done(p: Pool, q: Pool, outs: seq<Outcome>) {
    Worked(p, q, outs) && Handed(p, q, outs)
  }

  lemma WorkNext(p: Pool, before: seq<Move>, q: Pool, i: nat, outs: seq<Outcome>, ok: bool)
    requires Serving(p, i) && q == Run(p, before) && Done(p, q, outs) && |outs| < |p.jobs|
    ensures Done(p, Run(p, before + Round(i, ok)), outs + [Outcome(p.jobs[|outs|], ok)])
  {
    StillServing(p, q, outs, i);
    WorkOnce(q, i, ok);
    RunJoin(p, before, Round(i, ok));
    var r := Run(q, Round(i, ok));
    WorkedNext(p, q, r, outs, Outcome(q.jobs[0], ok));
    HandedNext(p, q, r, outs, Outcome(q.jobs[0], ok));
  }

  /** A worker alone does the first jobs of the queue in order, whatever comes of them. */
  lemma {:induction false} WorkInARow(p: Pool, i: nat, oks: seq<bool>) returns (moves: seq<Move>)
    requires Serving(p, i) && |oks| <= |p.jobs|
    ensures Done(p, Run(p, moves), Outcomes(p.jobs[..|oks|], oks))
    decreases |oks|
  {
    if oks == [] {
      moves := [];
      NothingWorked(p);
      assert Outcomes(p.jobs[..0], oks) == [];
    } else {
      var n := |oks| - 1;
      moves := WorkInARow(p, i, oks[..n]);
      WorkNext(p, moves, Run(p, moves), i, Outcomes(p.jobs[..n], oks[..n]), oks[n]);
      OutcomesNext(p.jobs, oks);
      moves := moves + Round(i, oks[n]);
    }
  }

  lemma StillServing(p: Pool, q: Pool, outs: seq<Outcome>, i: nat)
    requires Serving(p, i) && Done(p, q, outs)
    ensures Serving(q, i)
  {
  }

  lemma NothingWorked(p: Pool)
    requires |p.results| <= p.size
    ensures Done(p, p, [])
  {
  }

  lemma WorkedNext(p: Pool, q: Pool, r: Pool, outs: seq<Outcome>, out: Outcome)
    requires Worked(p, q, outs) && DoneOnce(q, r, out)
    ensures Worked(p, r, outs + [out])
  {
    OneMore(p.jobs, |outs|);
    CountsNext(p.tally, q.tally, r.tally, p.jobs[..|outs|], outs, p.jobs[|outs|], out);
  }

  lemma HandedNext(p: Pool, q: Pool, r: Pool, outs: seq<Outcome>, out: Outcome)
    requires Handed(p, q, outs) && DoneOnce(q, r, out) && q.size == p.size
    ensures Handed(p, r, outs + [out])
  {
    var more, room := outs + [out], p.size - |p.results|;
    AllOfIt(outs);
    AllOfIt(more);
    if |more| <= room {
      Assoc(p.results, outs, out);
      Assoc(p.tally.sent, outs, out);
    } else {
      assert more[..room] == outs[..room] && more[room..] == outs[room..] + [out];
      Assoc(p.tally.dropped, outs[room..], out);
    }
  }

  /** From a new pool: up to `size` jobs are all accepted, in order, done as they come out,
      and every outcome is sent, in order. */
  lemma ServesAll(size: nat, workers: nat, callers: nat, jobs: seq<Job>, oks: seq<bool>) returns (moves: seq<Move>)
    requires workers >= 1 && callers >= 1 && |jobs| == |oks| <= size
    ensures var p := Run(Init(size, workers, callers), moves);
            && p.ctl.running && p.accepted == jobs && p.jobs == []
            && p.tally.finished == p.tally.sent == p.results == Outcomes(jobs, oks)
            && p.tally.dropped == [] && p.tally.processed == |jobs| && p.tally.successful == CountOk(Outcomes(jobs, oks))
  {
    var start := Init(size, workers, callers);
    RunOne(start, Drive(Start));
    var p := Step(start, Drive(Start));
    var submits := SubmitInARow(p, 0, jobs);
    RunJoin(start, [Drive(Start)], submits);
    var q := Run(p, submits);
    assert jobs[..|jobs|] == jobs && [] + jobs == jobs;
    var works := WorkInARow(q, 0, oks);
    RunJoin(start, [Drive(Start)] + submits, works);
    moves := [Drive(Start)] + submits + works;
    var outs := Outcomes(jobs, oks);
    assert q.jobs[..|oks|] == jobs && outs[..|outs|] == outs && outs[|outs|..] == [];
  }

  // ---- Forced shutdown.

  /** Every worker is waiting in its select, or has left. */
  predicate AllWaiting(ws: seq<Worker>) {
    forall i :: 0 <= i < |ws| ==> ws[i].Waiting? || ws[i].Exited?
  }

  /** Once the context is cancelled a run exists in which waiting workers leave at once,
      without touching the queue; a Shutdown that waits for them then finishes. */
  lemma {:induction false} ForcedLeave(p: Pool, k: nat) returns (moves: seq<Move>)
    requires p.ctl.cancelled && p.ctl.shutdown == Forcing && AllWaiting(p.workers) && k <= |p.workers|
    requires forall i :: 0 <= i < k ==> p.workers[i].Exited?
    ensures var q := Run(p, moves);
            q.ctl.shutdown == Finished && q.ctl.resultsClosed && q.jobs == p.jobs && q.tally == p.tally
    decreases |p.workers| - k
  {
    if k == |p.workers| {
      RunConcat(p, [], Drive(Complete));
      moves := [] + [Drive(Complete)];
    } else {
      var m := Work(k, true, true);
      var q := Step(p, m);
      var rest := ForcedLeave(q, k + 1);
      RunFirst(p, m, rest);
      moves := [m] + rest;
    }
  }

  /** Shutdown's own moves: it finishes exactly when every worker has left, it forces by
      cancelling exactly while it drains, and it gives up exactly after it has forced. */
  lemma ShutdownExactly(p: Pool)
    ensures var q := Step(p, Drive(Complete));
            q != p <==> (p.ctl.shutdown == Draining || p.ctl.shutdown == Forcing) && AllExited(p.workers)
    ensures p.ctl.shutdown == Draining <==>
            Step(p, Drive(Force)).ctl.shutdown == Forcing && p.ctl.shutdown != Forcing
    ensures p.ctl.shutdown == Draining ==> Step(p, Drive(Force)).ctl.cancelled
    ensures p.ctl.shutdown == Forcing <==>
            Step(p, Drive(GiveUp)).ctl.shutdown == GaveUp && p.ctl.shutdown != GaveUp
  {
  }
}
