/** The worker pool's channel protocol: bounded job and result channels, submits
    that check and then send, workers, drain on close and forced cancel. One move
    per atomic action, in any order, for one Start/Shutdown lifecycle. */
module WorkerPool {

  import opened Counts

  type Job = int
  datatype Outcome = Outcome(job: Job, ok: bool)

  datatype Worker =
    | NotStarted
    | Waiting                    // in the receive select
    | Executing(job: Job)
    | Counted(out: Outcome)      // jobsProcessed incremented
    | Classified(out: Outcome)   // jobsSuccessful or jobsFailed incremented: about to send
    | Exited

  /** A Submit between its check of `running` and its send. */
  datatype Submitter = Idle | Checked(job: Job)

  datatype Shutdown =
    | Serving
    | Stopped     // running cleared, jobs channel still open
    | Draining    // jobs channel closed, waiting for the workers
    | Forcing     // timed out once, context cancelled
    | Finished    // results channel closed
    | GaveUp      // timed out twice

  /** The flags Shutdown and the workers coordinate by. */
  datatype Control = Control(
    running: bool, closed: bool, cancelled: bool, resultsClosed: bool, shutdown: Shutdown)

  /** The pool's counters, and logs of what they count. */
  datatype Tally = Tally(
    processed: int, successful: int, failed: int,
    started: seq<Job>, finished: seq<Outcome>, sent: seq<Outcome>, dropped: seq<Outcome>)

  datatype Pool = Pool(
    size: nat, ctl: Control, panicked: bool,
    jobs: seq<Job>, results: seq<Outcome>,
    workers: seq<Worker>, submitters: seq<Submitter>,
    accepted: seq<Job>, read: seq<Outcome>, tally: Tally)

  /** What a worker does next; `preferDone` is how a select with several ready
      cases is resolved, `ok` how the job comes out. */
  datatype Move =
    | Work(i: nat, preferDone: bool, ok: bool)
    | Check(i: nat, job: Job)
    | Send(i: nat, preferDone: bool)
    | Read
    | Drive(act: Act)

  datatype Act = Start | Stop | CloseJobs | Force | Complete | GiveUp

  function Init(size: nat, workers: nat, callers: nat): Pool {
    Pool(size, Control(false, false, false, false, Serving), false, [], [],
         seq(workers, _ => NotStarted), seq(callers, _ => Idle), [], [], Tally(0, 0, 0, [], [], [], []))
  }

  function SetWorker(p: Pool, i: nat, w: Worker): Pool
    requires i < |p.workers|
  {
    p.(workers := p.workers[i := w])
  }

  function SendStep(p: Pool, i: nat, preferDone: bool): Pool
    requires i < |p.submitters| && p.submitters[i].Checked?
  {
    var q := p.(submitters := p.submitters[i := Idle]);
    var job := p.submitters[i].job;
    if p.ctl.cancelled && preferDone then q
    else if p.ctl.closed then q.(panicked := true)
    else if |p.jobs| < p.size then q.(jobs := p.jobs + [job], accepted := p.accepted + [job])
    else q
  }

  function ReceiveStep(p: Pool, i: nat, preferDone: bool): Pool
    requires i < |p.workers|
  {
    if p.ctl.cancelled && preferDone then SetWorker(p, i, Exited)
    else if p.jobs != [] then
      SetWorker(p, i, Executing(p.jobs[0])).(
        jobs := p.jobs[1..], tally := p.tally.(started := p.tally.started + [p.jobs[0]]))
    else if p.ctl.closed || p.ctl.cancelled then SetWorker(p, i, Exited)
    else p
  }

  function FinishStep(p: Pool, i: nat, out: Outcome): Pool
    requires i < |p.workers|
  {
    SetWorker(p, i, Counted(out)).(
      tally := p.tally.(processed := p.tally.processed + 1, finished := p.tally.finished + [out]))
  }

  function ClassifyStep(p: Pool, i: nat, out: Outcome): Pool
    requires i < |p.workers|
  {
    SetWorker(p, i, Classified(out)).(
      tally := p.tally.(successful := p.tally.successful + (if out.ok then 1 else 0),
                        failed := p.tally.failed + (if out.ok then 0 else 1)))
  }

  function DeliverStep(p: Pool, i: nat, out: Outcome, preferDone: bool): Pool
    requires i < |p.workers|
  {
    var q := SetWorker(p, i, Waiting);
    if p.ctl.cancelled && preferDone then q.(tally := p.tally.(dropped := p.tally.dropped + [out]))
    else if p.ctl.resultsClosed then q.(panicked := true)
    else if |p.results| < p.size then q.(results := p.results + [out], tally := p.tally.(sent := p.tally.sent + [out]))
    else q.(tally := p.tally.(dropped := p.tally.dropped + [out]))
  }

  function WorkerStep(p: Pool, i: nat, preferDone: bool, ok: bool): Pool
    requires i < |p.workers|
  {
    match p.workers[i]
    case Waiting => ReceiveStep(p, i, preferDone)
    case Executing(job) => FinishStep(p, i, Outcome(job, ok))
    case Counted(out) => ClassifyStep(p, i, out)
    case Classified(out) => DeliverStep(p, i, out, preferDone)
    case _ => p
  }

  predicate AllExited(workers: seq<Worker>) {
    forall i :: 0 <= i < |workers| ==> workers[i].Exited?
  }

  function ControlStep(p: Pool, act: Act): Pool {
    match act
    case Start =>
      if p.ctl.running || p.ctl.shutdown != Serving then p
      else p.(ctl := p.ctl.(running := true), workers := seq(|p.workers|, _ => Waiting))
    case Stop =>
      if p.ctl.running && p.ctl.shutdown == Serving
      then p.(ctl := p.ctl.(running := false, shutdown := Stopped)) else p
    case CloseJobs => if p.ctl.shutdown == Stopped then p.(ctl := p.ctl.(closed := true, shutdown := Draining)) else p
    case Force => if p.ctl.shutdown == Draining then p.(ctl := p.ctl.(cancelled := true, shutdown := Forcing)) else p
    case Complete =>
      if (p.ctl.shutdown == Draining || p.ctl.shutdown == Forcing) && AllExited(p.workers)
      then p.(ctl := p.ctl.(resultsClosed := true, shutdown := Finished)) else p
    case GiveUp => if p.ctl.shutdown == Forcing then p.(ctl := p.ctl.(shutdown := GaveUp)) else p
  }

  function Step(p: Pool, m: Move): Pool {
    match m
    case Work(i, preferDone, ok) => if i < |p.workers| then WorkerStep(p, i, preferDone, ok) else p
    case Check(i, job) =>
      if i < |p.submitters| && p.submitters[i].Idle? && p.ctl.running
      then p.(submitters := p.submitters[i := Checked(job)]) else p
    case Send(i, preferDone) =>
      if i < |p.submitters| && p.submitters[i].Checked? then SendStep(p, i, preferDone) else p
    case Read => if p.results == [] then p else p.(results := p.results[1..], read := p.read + [p.results[0]])
    case Drive(act) => ControlStep(p, act)
  }

  function Run(p: Pool, moves: seq<Move>): Pool {
    if moves == [] then p else Step(Run(p, moves[..|moves| - 1]), moves[|moves| - 1])
  }

  // ---- Counting.

  /** Outcomes for job `j`. */
  function CountJob(outs: seq<Outcome>, j: Job): nat {
    if outs == [] then 0 else CountJob(outs[..|outs| - 1], j) + (if outs[|outs| - 1].job == j then 1 else 0)
  }

  function CountOk(outs: seq<Outcome>): nat {
    if outs == [] then 0 else CountOk(outs[..|outs| - 1]) + (if outs[|outs| - 1].ok then 1 else 0)
  }

  lemma OutcomeAppend(outs: seq<Outcome>, o: Outcome, j: Job)
    ensures CountJob(outs + [o], j) == CountJob(outs, j) + (if o.job == j then 1 else 0)
    ensures CountOk(outs + [o]) == CountOk(outs) + (if o.ok then 1 else 0)
  {
    assert (outs + [o])[..|outs|] == outs;
  }

  function Holds(w: Worker, j: Job): nat {
    if w.Executing? && w.job == j then 1 else 0
  }

  /** The outcome is counted but neither sent nor dropped yet. */
  function Owes(w: Worker, o: Outcome): nat {
    if (w.Counted? || w.Classified?) && w.out == o then 1 else 0
  }

  function Unclassified(w: Worker, ok: bool): nat {
    if w.Counted? && w.out.ok == ok then 1 else 0
  }

  function AllHeld(ws: seq<Worker>): nat {
    if ws == [] then 0 else AllHeld(ws[1..]) + (if ws[0].Executing? then 1 else 0)
  }

  /** Workers executing job `j`. */
  function Held(ws: seq<Worker>, j: Job): nat {
    if ws == [] then 0 else Held(ws[1..], j) + Holds(ws[0], j)
  }

  function Owed(ws: seq<Worker>, o: Outcome): nat {
    if ws == [] then 0 else Owed(ws[1..], o) + Owes(ws[0], o)
  }

  function AllUnclassified(ws: seq<Worker>, ok: bool): nat {
    if ws == [] then 0 else AllUnclassified(ws[1..], ok) + Unclassified(ws[0], ok)
  }

  lemma {:induction false} WorkerUpdate(ws: seq<Worker>, i: nat, w: Worker, j: Job, o: Outcome, ok: bool)
    requires i < |ws|
    ensures Held(ws[i := w], j) == Held(ws, j) - Holds(ws[i], j) + Holds(w, j)
    ensures Owed(ws[i := w], o) == Owed(ws, o) - Owes(ws[i], o) + Owes(w, o)
    ensures AllUnclassified(ws[i := w], ok) == AllUnclassified(ws, ok) - Unclassified(ws[i], ok) + Unclassified(w, ok)
    ensures AllHeld(ws[i := w]) == AllHeld(ws) - (if ws[i].Executing? then 1 else 0) + (if w.Executing? then 1 else 0)
  {
    if i > 0 {
      WorkerUpdate(ws[1..], i - 1, w, j, o, ok);
      assert ws[i := w][1..] == ws[1..][i - 1 := w];
    } else {
      assert ws[i := w][1..] == ws[1..];
    }
  }

  predicate IdleHanded(w: Worker) {
    w.NotStarted? || w.Waiting? || w.Exited?
  }

  lemma {:induction false} NobodyHolds(ws: seq<Worker>, j: Job, o: Outcome, ok: bool)
    requires forall i :: 0 <= i < |ws| ==> IdleHanded(ws[i])
    ensures Held(ws, j) == 0 && Owed(ws, o) == 0 && AllUnclassified(ws, ok) == 0 && AllHeld(ws) == 0
  {
    if ws != [] {
      NobodyHolds(ws[1..], j, o, ok);
    }
  }

  // ---- What every run keeps.

  /** Jobs leave the queue in the order they were accepted; results are read in
      the order they were sent; neither channel overflows. */
  ghost predicate QueuesOk(p: Pool) {
    && p.accepted == p.tally.started + p.jobs && |p.jobs| <= p.size
    && p.tally.sent == p.read + p.results && |p.results| <= p.size
  }

  /** A started job is executing or has an outcome. */
  ghost predicate JobOk(p: Pool, j: Job) {
    Count(p.tally.started, j) == Held(p.workers, j) + CountJob(p.tally.finished, j)
  }

  /** An outcome is on its way, was sent, or was dropped: exactly one of them. */
  ghost predicate OutcomeOk(p: Pool, o: Outcome) {
    Count(p.tally.finished, o) == Owed(p.workers, o) + Count(p.tally.sent, o) + Count(p.tally.dropped, o)
  }

  ghost predicate CountersOk(p: Pool) {
    && p.tally.processed == |p.tally.finished|
    && |p.tally.started| == AllHeld(p.workers) + |p.tally.finished|
    && p.tally.successful + AllUnclassified(p.workers, true) == CountOk(p.tally.finished)
    && p.tally.failed + AllUnclassified(p.workers, false) == |p.tally.finished| - CountOk(p.tally.finished)
  }

  ghost predicate LifecycleOk(p: Pool) {
    && (p.ctl.running ==> p.ctl.shutdown == Serving)
    && (p.ctl.closed <==> p.ctl.shutdown in {Draining, Forcing, Finished, GaveUp})
    && (p.ctl.cancelled ==> p.ctl.shutdown in {Forcing, Finished, GaveUp})
    && (p.ctl.shutdown == Forcing || p.ctl.shutdown == GaveUp ==> p.ctl.cancelled)
    && (p.ctl.resultsClosed <==> p.ctl.shutdown == Finished)
    && (p.ctl.resultsClosed ==> AllExited(p.workers))
    && (p.ctl.running || p.ctl.shutdown != Serving ==> forall i :: 0 <= i < |p.workers| ==> !p.workers[i].NotStarted?)
    && (!p.ctl.running && p.ctl.shutdown == Serving ==> forall i :: 0 <= i < |p.workers| ==> p.workers[i].NotStarted?)
    && (forall i :: 0 <= i < |p.workers| ==> ExitOk(p, p.workers[i]))
  }

  /** Without a cancel, a worker leaves only a closed and empty queue. */
  ghost predicate ExitOk(p: Pool, w: Worker) {
    w.Exited? && !p.ctl.cancelled ==> p.ctl.closed && p.jobs == []
  }

  ghost predicate Inv(p: Pool) {
    && QueuesOk(p) && CountersOk(p) && LifecycleOk(p)
    && (forall j :: JobOk(p, j))
    && (forall o :: OutcomeOk(p, o))
  }

  lemma InitInv(size: nat, workers: nat, callers: nat)
    ensures Inv(Init(size, workers, callers))
  {
    var p := Init(size, workers, callers);
    NobodyHolds(p.workers, 0, Outcome(0, true), true);
    NobodyHolds(p.workers, 0, Outcome(0, true), false);
    forall j
      ensures JobOk(p, j)
    {
      NobodyHolds(p.workers, j, Outcome(0, true), true);
    }
    forall o
      ensures OutcomeOk(p, o)
    {
      NobodyHolds(p.workers, 0, o, true);
    }
  }

  ghost predicate TalliesOk(p: Pool, j: Job, o: Outcome) {
    JobOk(p, j) && OutcomeOk(p, o) && CountersOk(p)
  }

  /** `q` is `p` with worker `i` moved and the shared parts still in order. */
  lemma Moved(p: Pool, i: nat, w: Worker, j: Job, o: Outcome)
    requires i < |p.workers|
    ensures var ws := p.workers[i := w];
            && Held(ws, j) == Held(p.workers, j) - Holds(p.workers[i], j) + Holds(w, j)
            && Owed(ws, o) == Owed(p.workers, o) - Owes(p.workers[i], o) + Owes(w, o)
            && AllHeld(ws) == AllHeld(p.workers)
                 - (if p.workers[i].Executing? then 1 else 0) + (if w.Executing? then 1 else 0)
            && forall ok :: AllUnclassified(ws, ok)
                 == AllUnclassified(p.workers, ok) - Unclassified(p.workers[i], ok) + Unclassified(w, ok)
  {
    WorkerUpdate(p.workers, i, w, j, o, true);
    WorkerUpdate(p.workers, i, w, j, o, false);
  }

  lemma ReceiveOk(p: Pool, i: nat, preferDone: bool, j: Job, o: Outcome)
    requires TalliesOk(p, j, o) && i < |p.workers| && p.workers[i].Waiting?
    ensures TalliesOk(ReceiveStep(p, i, preferDone), j, o)
  {
    Moved(p, i, ReceiveStep(p, i, preferDone).workers[i], j, o);
    if p.jobs != [] { CountAppend(p.tally.started, p.jobs[0], j); }
  }

  lemma FinishOk(p: Pool, i: nat, out: Outcome, j: Job, o: Outcome)
    requires TalliesOk(p, j, o) && i < |p.workers| && p.workers[i] == Executing(out.job)
    ensures TalliesOk(FinishStep(p, i, out), j, o)
  {
    Moved(p, i, Counted(out), j, o);
    CountAppend(p.tally.finished, out, o);
    OutcomeAppend(p.tally.finished, out, j);
  }

  lemma ClassifyOk(p: Pool, i: nat, out: Outcome, j: Job, o: Outcome)
    requires TalliesOk(p, j, o) && i < |p.workers| && p.workers[i] == Counted(out)
    ensures TalliesOk(ClassifyStep(p, i, out), j, o)
  {
    Moved(p, i, Classified(out), j, o);
  }

  /** Everything the tallies talk about is the same in `q`, except where a worker
      hands over `out`: then exactly one of the two logs has grown by it. */
  ghost predicate HandsOver(p: Pool, q: Pool, i: nat, out: Outcome)
    requires i < |p.workers|
  {
    && q.workers == p.workers[i := Waiting]
    && (|| q.tally == p.tally.(sent := p.tally.sent + [out])
        || q.tally == p.tally.(dropped := p.tally.dropped + [out]))
  }

  lemma DeliverOk(p: Pool, q: Pool, i: nat, out: Outcome, j: Job, o: Outcome)
    requires TalliesOk(p, j, o) && i < |p.workers| && p.workers[i] == Classified(out) && HandsOver(p, q, i, out)
    ensures TalliesOk(q, j, o)
  {
    Moved(p, i, Waiting, j, o);
    if q.tally == p.tally.(sent := p.tally.sent + [out]) {
      CountAppend(p.tally.sent, out, o);
    } else {
      CountAppend(p.tally.dropped, out, o);
    }
  }

  lemma SameTallies(p: Pool, q: Pool, j: Job, o: Outcome)
    requires TalliesOk(p, j, o) && q.workers == p.workers && q.tally == p.tally
    ensures TalliesOk(q, j, o)
  {
  }

  lemma WorkerTallies(p: Pool, i: nat, preferDone: bool, ok: bool, j: Job, o: Outcome)
    requires LifecycleOk(p) && TalliesOk(p, j, o) && i < |p.workers|
    ensures TalliesOk(WorkerStep(p, i, preferDone, ok), j, o)
  {
    match p.workers[i]
    case Waiting => ReceiveOk(p, i, preferDone, j, o);
    case Executing(job) => FinishOk(p, i, Outcome(job, ok), j, o);
    case Counted(out) => ClassifyOk(p, i, out, j, o);
    case Classified(out) => DeliverOk(p, WorkerStep(p, i, preferDone, ok), i, out, j, o);
    case _ =>
  }

  lemma ControlTallies(p: Pool, act: Act, j: Job, o: Outcome)
    requires LifecycleOk(p) && TalliesOk(p, j, o)
    ensures TalliesOk(ControlStep(p, act), j, o)
  {
    if act.Start? && !p.ctl.running && p.ctl.shutdown == Serving {
      var q := ControlStep(p, act);
      NobodyHolds(p.workers, j, o, true);
      NobodyHolds(p.workers, j, o, false);
      NobodyHolds(q.workers, j, o, true);
      NobodyHolds(q.workers, j, o, false);
    } else {
      SameTallies(p, ControlStep(p, act), j, o);
    }
  }

  lemma TalliesStep(p: Pool, m: Move, j: Job, o: Outcome)
    requires LifecycleOk(p) && TalliesOk(p, j, o)
    ensures TalliesOk(Step(p, m), j, o)
  {
    match m
    case Work(i, preferDone, ok) => if i < |p.workers| { WorkerTallies(p, i, preferDone, ok, j, o); }
    case Drive(act) => ControlTallies(p, act, j, o);
    case _ => SameTallies(p, Step(p, m), j, o);
  }

  lemma WorkerQueues(p: Pool, i: nat, preferDone: bool, ok: bool)
    requires QueuesOk(p) && LifecycleOk(p) && i < |p.workers|
    ensures var q := WorkerStep(p, i, preferDone, ok); QueuesOk(q) && q.panicked == p.panicked
  {
    match p.workers[i]
    case Waiting => assert p.jobs != [] ==> p.jobs == [p.jobs[0]] + p.jobs[1..];
    case Classified(out) => assert p.tally.sent + [out] == p.read + (p.results + [out]);
    case _ =>
  }

  lemma QueuesStep(p: Pool, m: Move)
    requires QueuesOk(p) && LifecycleOk(p)
    ensures QueuesOk(Step(p, m))
    ensures !m.Send? ==> Step(p, m).panicked == p.panicked
  {
    match m
    case Work(i, preferDone, ok) => if i < |p.workers| { WorkerQueues(p, i, preferDone, ok); }
    case Send(i, _) =>
      if i < |p.submitters| && p.submitters[i].Checked? {
        var job := p.submitters[i].job;
        assert p.accepted + [job] == p.tally.started + (p.jobs + [job]);
      }
    case Read => assert p.results != [] ==> p.results == [p.results[0]] + p.results[1..];
    case _ =>
  }

  lemma ReceiveLifecycle(p: Pool, i: nat, preferDone: bool)
    requires LifecycleOk(p) && i < |p.workers| && p.workers[i].Waiting?
    ensures LifecycleOk(ReceiveStep(p, i, preferDone))
  {
  }

  lemma WorkerLifecycle(p: Pool, i: nat, preferDone: bool, ok: bool)
    requires LifecycleOk(p) && i < |p.workers|
    ensures LifecycleOk(WorkerStep(p, i, preferDone, ok))
  {
    if p.workers[i].Waiting? {
      ReceiveLifecycle(p, i, preferDone);
    }
  }

  lemma LifecycleStep(p: Pool, m: Move)
    requires LifecycleOk(p)
    ensures LifecycleOk(Step(p, m))
  {
    if m.Work? && m.i < |p.workers| {
      WorkerLifecycle(p, m.i, m.preferDone, m.ok);
    }
  }

  lemma StepInv(p: Pool, m: Move)
    requires Inv(p)
    ensures Inv(Step(p, m))
    ensures !m.Send? ==> Step(p, m).panicked == p.panicked
  {
    LifecycleStep(p, m);
    var q, none := Step(p, m), Outcome(0, true);
    assert JobOk(p, 0) && OutcomeOk(p, none);
    QueuesStep(p, m);
    TalliesStep(p, m, 0, none);
    forall j
      ensures JobOk(q, j)
    {
      assert JobOk(p, j);
      TalliesStep(p, m, j, none);
    }
    forall o
      ensures OutcomeOk(q, o)
    {
      assert OutcomeOk(p, o);
      TalliesStep(p, m, 0, o);
    }
  }

  lemma {:induction false} RunInv(p: Pool, moves: seq<Move>)
    requires Inv(p)
    ensures Inv(Run(p, moves))
    decreases |moves|
  {
    if moves != [] {
      RunInv(p, moves[..|moves| - 1]);
      StepInv(Run(p, moves[..|moves| - 1]), moves[|moves| - 1]);
    }
  }

  // ---- What a run amounts to.

  /** At any moment of any run, an accepted job is queued, executing or has an
      outcome, and as often as it was accepted; an outcome is owed by a worker,
      sent or dropped, and as often as it was produced. */
  lemma EveryRun(size: nat, workers: nat, callers: nat, moves: seq<Move>, j: Job, o: Outcome)
    ensures var p := Run(Init(size, workers, callers), moves);
            && Count(p.accepted, j) == Count(p.jobs, j) + Held(p.workers, j) + CountJob(p.tally.finished, j)
            && Count(p.tally.finished, o) == Owed(p.workers, o) + Count(p.tally.sent, o) + Count(p.tally.dropped, o)
            && |p.accepted| == |p.jobs| + AllHeld(p.workers) + p.tally.processed
            && p.tally.processed == p.tally.successful + p.tally.failed
                 + AllUnclassified(p.workers, true) + AllUnclassified(p.workers, false)
            && |p.jobs| <= size && |p.results| <= size
  {
    InitInv(size, workers, callers);
    RunInv(Init(size, workers, callers), moves);
    RunSize(Init(size, workers, callers), moves);
    var p := Run(Init(size, workers, callers), moves);
    assert JobOk(p, j) && OutcomeOk(p, o);
    CountConcat(p.tally.started, p.jobs, j);
  }

  /** A worker's move touches neither Shutdown nor the callers. */
  lemma WorkerShape(p: Pool, i: nat, preferDone: bool, ok: bool)
    requires i < |p.workers|
    ensures var q := WorkerStep(p, i, preferDone, ok);
            q.size == p.size && q.ctl == p.ctl && q.submitters == p.submitters
            && q.workers == p.workers[i := q.workers[i]]
  {
    if p.workers[i].Waiting? {
      ReceiveShape(p, i, preferDone);
    }
  }

  lemma ReceiveShape(p: Pool, i: nat, preferDone: bool)
    requires i < |p.workers|
    ensures var q := ReceiveStep(p, i, preferDone);
            q.size == p.size && q.ctl == p.ctl && q.submitters == p.submitters
            && q.workers == p.workers[i := q.workers[i]]
  {
  }

  lemma StepSize(p: Pool, m: Move)
    ensures var q := Step(p, m);
            q.size == p.size && |q.workers| == |p.workers| && |q.submitters| == |p.submitters|
  {
    if m.Work? && m.i < |p.workers| {
      WorkerShape(p, m.i, m.preferDone, m.ok);
    }
  }

  /** After the close nobody passes the check, and only a caller already past it
      can send; before the close nothing panics. */
  lemma CloseFacts(p: Pool, m: Move)
    requires Inv(p)
    ensures p.ctl.closed ==> Step(p, m).ctl.closed
    ensures !p.ctl.closed ==> Step(p, m).panicked == p.panicked
    ensures p.ctl.closed && !SomeoneChecked(p) ==> !SomeoneChecked(Step(p, m)) && Step(p, m).panicked == p.panicked
  {
    StepInv(p, m);
    if m.Work? && m.i < |p.workers| {
      WorkerShape(p, m.i, m.preferDone, m.ok);
    }
  }

  lemma {:induction false} RunSize(p: Pool, moves: seq<Move>)
    ensures var q := Run(p, moves);
            q.size == p.size && |q.workers| == |p.workers| && |q.submitters| == |p.submitters|
    decreases |moves|
  {
    if moves != [] {
      RunSize(p, moves[..|moves| - 1]);
      StepSize(Run(p, moves[..|moves| - 1]), moves[|moves| - 1]);
    }
  }

  /** Shutdown that finishes: every started job has its outcome and every outcome
      was sent or dropped. Without a cancel nothing is left in the queue, so every
      accepted job was processed exactly as often as it was accepted; with one,
      what is lost is what is still queued. */
  lemma FinishedRun(size: nat, workers: nat, callers: nat, moves: seq<Move>, j: Job, o: Outcome)
    requires workers >= 1
    requires Run(Init(size, workers, callers), moves).ctl.shutdown == Finished
    ensures var p := Run(Init(size, workers, callers), moves);
            && Count(p.accepted, j) == CountJob(p.tally.finished, j) + Count(p.jobs, j)
            && Count(p.tally.finished, o) == Count(p.tally.sent, o) + Count(p.tally.dropped, o)
            && p.tally.processed == p.tally.successful + p.tally.failed == |p.accepted| - |p.jobs|
            && (!p.ctl.cancelled ==> p.jobs == [])
  {
    EveryRun(size, workers, callers, moves, j, o);
    InitInv(size, workers, callers);
    RunInv(Init(size, workers, callers), moves);
    RunSize(Init(size, workers, callers), moves);
    var p := Run(Init(size, workers, callers), moves);
    NobodyHolds(p.workers, j, o, true);
    NobodyHolds(p.workers, j, o, false);
    assert ExitOk(p, p.workers[0]);
  }

  // ---- Sending on a closed channel.

  predicate SomeoneChecked(p: Pool) {
    exists i :: 0 <= i < |p.submitters| && p.submitters[i].Checked?
  }

  ghost predicate CanPanic(p: Pool) {
    exists moves :: Run(p, moves).panicked
  }

  lemma {:induction false} QuietForever(p: Pool, moves: seq<Move>)
    requires Inv(p) && p.ctl.closed && !p.panicked && !SomeoneChecked(p)
    ensures var q := Run(p, moves); Inv(q) && q.ctl.closed && !q.panicked && !SomeoneChecked(q)
    decreases |moves|
  {
    if moves != [] {
      var front, m := moves[..|moves| - 1], moves[|moves| - 1];
      QuietForever(p, front);
      StepInv(Run(p, front), m);
      CloseFacts(Run(p, front), m);
    }
  }

  /** Closing the jobs channel is safe exactly when no Submit stands between its
      check and its send: otherwise some continuation sends on the closed channel. */
  lemma CloseIsSafeExactly(p: Pool)
    requires Inv(p) && p.ctl.shutdown == Stopped && !p.panicked
    ensures CanPanic(Step(p, Drive(CloseJobs))) <==> SomeoneChecked(p)
  {
    var q := Step(p, Drive(CloseJobs));
    StepInv(p, Drive(CloseJobs));
    if SomeoneChecked(p) {
      var i :| 0 <= i < |p.submitters| && p.submitters[i].Checked?;
      var moves := [Send(i, false)];
      assert moves[..0] == [];
      assert Run(q, moves).panicked;
    } else {
      forall moves
        ensures !Run(q, moves).panicked
      {
        QuietForever(q, moves);
      }
    }
  }

  /** Before the channel is closed nothing panics, and workers never do. */
  lemma {:induction false} NoEarlyPanic(size: nat, workers: nat, callers: nat, moves: seq<Move>)
    requires !Run(Init(size, workers, callers), moves).ctl.closed
    ensures !Run(Init(size, workers, callers), moves).panicked
    decreases |moves|
  {
    if moves != [] {
      var start, front, m := Init(size, workers, callers), moves[..|moves| - 1], moves[|moves| - 1];
      InitInv(size, workers, callers);
      RunInv(start, front);
      CloseFacts(Run(start, front), m);
      NoEarlyPanic(size, workers, callers, front);
    }
  }

  /** Start, a check, the stop, the close, and the checked caller's send. */
  lemma PanicRun(size: nat, workers: nat, callers: nat, job: Job)
    requires callers >= 1
    ensures Run(Init(size, workers, callers),
                [Drive(Start), Check(0, job), Drive(Stop), Drive(CloseJobs), Send(0, false)]).panicked
  {
    var p0 := Init(size, workers, callers);
    var moves := [Drive(Start), Check(0, job), Drive(Stop), Drive(CloseJobs), Send(0, false)];
    var p1 := Step(p0, moves[0]);
    var p2 := Step(p1, moves[1]);
    assert p2.submitters[0] == Checked(job);
    var p3 := Step(p2, moves[2]);
    var p4 := Step(p3, moves[3]);
    assert p4.ctl.closed && !p4.ctl.cancelled && p4.submitters[0] == Checked(job);
    assert moves[..0] == [] && moves[..1] == moves[..2][..1] && moves[..2] == moves[..3][..2];
    assert moves[..3] == moves[..4][..3] && moves[..4] == moves[..5][..4] && moves[..5] == moves;
    assert Run(p0, moves[..1]) == p1 && Run(p0, moves[..2]) == p2 && Run(p0, moves[..3]) == p3;
    assert Run(p0, moves[..4]) == p4;
  }

  lemma {:induction false} NoCallerNoPanic(size: nat, workers: nat, moves: seq<Move>)
    ensures var p := Run(Init(size, workers, 0), moves); !p.panicked && p.submitters == []
    decreases |moves|
  {
    if moves != [] {
      var front, m := moves[..|moves| - 1], moves[|moves| - 1];
      NoCallerNoPanic(size, workers, front);
      InitInv(size, workers, 0);
      RunInv(Init(size, workers, 0), front);
      CloseFacts(Run(Init(size, workers, 0), front), m);
      StepSize(Run(Init(size, workers, 0), front), m);
    }
  }

  /** From a new pool of any size, a send on the closed channel can be reached as soon
      as there is anyone to submit. */
  lemma PanicReachableExactly(size: nat, workers: nat, callers: nat)
    ensures CanPanic(Init(size, workers, callers)) <==> callers >= 1
  {
    if callers >= 1 {
      PanicRun(size, workers, callers, 0);
    } else {
      forall moves
        ensures !Run(Init(size, workers, 0), moves).panicked
      {
        NoCallerNoPanic(size, workers, moves);
      }
    }
  }

  // ---- The drain ends.

  /** Worker moves left before this worker is back in its select. */
  function Rank(w: Worker): nat {
    match w
    case NotStarted => 0
    case Waiting => 1
    case Executing(_) => 4
    case Counted(_) => 3
    case Classified(_) => 2
    case Exited => 0
  }

  function Ranks(ws: seq<Worker>): nat {
    if ws == [] then 0 else Ranks(ws[1..]) + Rank(ws[0])
  }

  lemma {:induction false} RanksUpdate(ws: seq<Worker>, i: nat, w: Worker)
    requires i < |ws|
    ensures Ranks(ws[i := w]) == Ranks(ws) - Rank(ws[i]) + Rank(w)
  {
    if i > 0 {
      RanksUpdate(ws[1..], i - 1, w);
      assert ws[i := w][1..] == ws[1..][i - 1 := w];
    } else {
      assert ws[i := w][1..] == ws[1..];
    }
  }

  /** An upper bound on the worker moves still to come once the channel is closed. */
  function Remaining(p: Pool): nat {
    4 * |p.jobs| + Ranks(p.workers)
  }

  lemma ReceiveAdvances(p: Pool, i: nat, preferDone: bool)
    requires p.ctl.closed && i < |p.workers| && p.workers[i].Waiting?
    ensures Remaining(ReceiveStep(p, i, preferDone)) < Remaining(p)
  {
    RanksUpdate(p.workers, i, ReceiveStep(p, i, preferDone).workers[i]);
  }

  lemma FinishAdvances(p: Pool, i: nat, out: Outcome)
    requires i < |p.workers| && p.workers[i].Executing?
    ensures Remaining(FinishStep(p, i, out)) < Remaining(p)
  {
    RanksUpdate(p.workers, i, Counted(out));
  }

  lemma ClassifyAdvances(p: Pool, i: nat, out: Outcome)
    requires i < |p.workers| && p.workers[i].Counted?
    ensures Remaining(ClassifyStep(p, i, out)) < Remaining(p)
  {
    RanksUpdate(p.workers, i, Classified(out));
  }

  lemma DeliverAdvances(p: Pool, i: nat, out: Outcome, preferDone: bool)
    requires i < |p.workers| && p.workers[i].Classified?
    ensures Remaining(DeliverStep(p, i, out, preferDone)) < Remaining(p)
  {
    RanksUpdate(p.workers, i, Waiting);
  }

  lemma WorkerAdvances(p: Pool, i: nat, preferDone: bool, ok: bool)
    requires p.ctl.closed && i < |p.workers| && !p.workers[i].NotStarted?
    ensures var q := WorkerStep(p, i, preferDone, ok);
            Remaining(q) < Remaining(p) || (p.workers[i].Exited? && q == p)
  {
    match p.workers[i]
    case Waiting => ReceiveAdvances(p, i, preferDone);
    case Executing(job) => FinishAdvances(p, i, Outcome(job, ok));
    case Counted(out) => ClassifyAdvances(p, i, out);
    case Classified(out) => DeliverAdvances(p, i, out, preferDone);
    case Exited =>
  }

  /** A worker's move that is not a move of one that has left. */
  predicate Works(p: Pool, m: Move) {
    m.Work? && m.i < |p.workers| && !p.workers[m.i].Exited?
  }

  /** Once the jobs channel is closed no worker ever blocks: every move of a worker
      that has not left brings the end closer, and nothing else pushes it back. */
  lemma DrainAdvances(p: Pool, m: Move)
    requires Inv(p) && p.ctl.closed && !SomeoneChecked(p)
    ensures Remaining(Step(p, m)) + (if Works(p, m) then 1 else 0) <= Remaining(p)
    ensures Remaining(p) == 0 <==> AllExited(p.workers) && p.jobs == []
  {
    if m.Work? && m.i < |p.workers| {
      WorkerAdvances(p, m.i, m.preferDone, m.ok);
    }
    AllLeft(p);
  }

  lemma AllLeft(p: Pool)
    requires LifecycleOk(p) && p.ctl.closed
    ensures Remaining(p) == 0 <==> AllExited(p.workers) && p.jobs == []
  {
    RanksZero(p.workers);
  }

  lemma {:induction false} RanksZero(ws: seq<Worker>)
    requires forall i :: 0 <= i < |ws| ==> !ws[i].NotStarted?
    ensures Ranks(ws) == 0 <==> AllExited(ws)
  {
    if ws != [] {
      var rest := ws[1..];
      RanksZero(rest);
      assert forall i :: 0 < i < |ws| ==> ws[i] == rest[i - 1];
      assert forall i :: 0 <= i < |rest| ==> rest[i] == ws[i + 1];
    }
  }

  /** How many of the moves are made by workers that have not left. */
  function WorkMoves(p: Pool, moves: seq<Move>): nat {
    if moves == [] then 0
    else WorkMoves(p, moves[..|moves| - 1]) + (if Works(Run(p, moves[..|moves| - 1]), moves[|moves| - 1]) then 1 else 0)
  }

  /** Over any run from the close on: the workers still in the pool make at most
      `Remaining` moves, and once they have made that many all have left an empty
      queue, so that Shutdown can finish. */
  lemma {:induction false} DrainEnds(p: Pool, moves: seq<Move>)
    requires Inv(p) && p.ctl.closed && !p.panicked && !SomeoneChecked(p)
    ensures WorkMoves(p, moves) + Remaining(Run(p, moves)) <= Remaining(p)
    ensures WorkMoves(p, moves) == Remaining(p) ==> AllExited(Run(p, moves).workers) && Run(p, moves).jobs == []
    decreases |moves|
  {
    QuietForever(p, moves);
    AllLeft(Run(p, moves));
    if moves != [] {
      var front := moves[..|moves| - 1];
      DrainEnds(p, front);
      QuietForever(p, front);
      DrainAdvances(Run(p, front), moves[|moves| - 1]);
    }
  }

  lemma RunConcat(p: Pool, moves: seq<Move>, m: Move)
    ensures Run(p, moves + [m]) == Step(Run(p, moves), m)
  {
    assert (moves + [m])[..|moves|] == moves;
  }

  /** From the close on some run finishes the shutdown, without a cancel if there was none. */
  lemma {:induction false} DrainCompletes(p: Pool) returns (moves: seq<Move>)
    requires Inv(p) && !p.panicked && !SomeoneChecked(p) && p.ctl.shutdown == Draining
    ensures Run(p, moves).ctl.shutdown == Finished && Run(p, moves).ctl.cancelled == p.ctl.cancelled
    decreases Remaining(p)
  {
    if AllExited(p.workers) {
      moves := [] + [Drive(Complete)];
      RunConcat(p, [], Drive(Complete));
    } else {
      var i :| 0 <= i < |p.workers| && !p.workers[i].Exited?;
      var m := Work(i, false, true);
      StepInv(p, m);
      CloseFacts(p, m);
      DrainAdvances(p, m);
      WorkerShape(p, i, false, true);
      var rest := DrainCompletes(Step(p, m));
      RunFirst(p, m, rest);
      moves := [m] + rest;
    }
  }

  lemma {:induction false} RunFirst(p: Pool, m: Move, rest: seq<Move>)
    ensures Run(p, [m] + rest) == Run(Step(p, m), rest)
    decreases |rest|
  {
    if rest == [] {
      RunConcat(p, [], m);
      assert [m] + rest == [] + [m];
    } else {
      var front, last := rest[..|rest| - 1], rest[|rest| - 1];
      RunFirst(p, m, front);
      RunConcat(p, [m] + front, last);
      RunConcat(Step(p, m), front, last);
      assert [m] + rest == ([m] + front) + [last] && rest == front + [last];
    }
  }
}
