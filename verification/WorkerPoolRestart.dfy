/** Start after Shutdown: it succeeds, although the jobs channel is closed for good. */
module WorkerPoolRestart {
  import opened WorkerPool

  /** Start once more, with `n` new workers beside any that are still leaving. */
  function Restart(p: Pool, n: nat): Pool {
    if p.ctl.running then p
    else p.(ctl := p.ctl.(running := true), workers := p.workers + seq(n, _ => Waiting))
  }

  /** The move sends a job on the closed channel. */
  predicate SendsOnClosed(p: Pool, m: Move) {
    && m.Send? && m.i < |p.submitters| && p.submitters[m.i].Checked?
    && p.ctl.closed && !(p.ctl.cancelled && m.preferDone)
  }

  ghost predicate CanSendOnClosed(p: Pool) {
    exists moves, m :: SendsOnClosed(Run(p, moves), m)
  }

  /** A closed channel stays closed, accepts nothing, and is never stopped again. */
  lemma {:induction false} ClosedRun(p: Pool, moves: seq<Move>)
    requires p.ctl.closed && p.ctl.shutdown != Serving && p.ctl.shutdown != Stopped
    ensures var q := Run(p, moves);
            && q.ctl.closed && q.ctl.running == p.ctl.running && q.accepted == p.accepted
            && q.ctl.shutdown != Serving && q.ctl.shutdown != Stopped
            && |q.submitters| == |p.submitters|
    decreases |moves|
  {
    if moves != [] {
      var front, m := moves[..|moves| - 1], moves[|moves| - 1];
      ClosedRun(p, front);
      var s := Run(p, front);
      if m.Work? && m.i < |s.workers| {
        WorkerKeeps(s, m.i, m.preferDone, m.ok);
      }
    }
  }

  lemma WorkerKeeps(p: Pool, i: nat, preferDone: bool, ok: bool)
    requires i < |p.workers|
    ensures var q := WorkerStep(p, i, preferDone, ok);
            q.ctl == p.ctl && q.accepted == p.accepted && q.submitters == p.submitters
  {
    if p.workers[i].Waiting? {
      ReceiveKeeps(p, i, preferDone);
    }
  }

  lemma ReceiveKeeps(p: Pool, i: nat, preferDone: bool)
    requires i < |p.workers|
    ensures var q := ReceiveStep(p, i, preferDone);
            q.ctl == p.ctl && q.accepted == p.accepted && q.submitters == p.submitters
  {
  }

  /** After the restart every Submit of an idle caller passes its check and then panics,
      unless the context was cancelled and its select prefers that: whatever has
      happened since, no job is ever accepted. */
  lemma SubmitPanicsExactly(p: Pool, n: nat, moves: seq<Move>, i: nat, job: Job, preferDone: bool)
    requires Inv(p) && p.ctl.closed
    requires var q := Run(Restart(p, n), moves); i < |q.submitters| && q.submitters[i].Idle?
    ensures var q := Run(Restart(p, n), moves);
            var checked := Step(q, Check(i, job));
            var after := Step(checked, Send(i, preferDone));
            && checked.submitters[i] == Checked(job) && after.submitters[i] == Idle
            && after.accepted == p.accepted
            && (SendsOnClosed(checked, Send(i, preferDone)) <==> !(q.ctl.cancelled && preferDone))
            && (SendsOnClosed(checked, Send(i, preferDone)) ==> after.panicked)
  {
    ClosedRun(Restart(p, n), moves);
  }

  lemma {:induction false} NobodyChecks(p: Pool, moves: seq<Move>)
    requires Inv(p) && p.ctl.closed && !SomeoneChecked(p)
    ensures var q := Run(p, moves); Inv(q) && q.ctl.closed && !SomeoneChecked(q)
    decreases |moves|
  {
    if moves != [] {
      var front, m := moves[..|moves| - 1], moves[|moves| - 1];
      NobodyChecks(p, front);
      StepInv(Run(p, front), m);
      CloseFacts(Run(p, front), m);
    }
  }

  /** Once the channel is closed, a send on it can follow exactly if a caller is past its
      check. After a restart it can follow exactly if there is any caller at all. */
  lemma RestartIsSafeExactly(p: Pool, n: nat)
    requires Inv(p) && p.ctl.closed
    ensures CanSendOnClosed(p) <==> SomeoneChecked(p)
    ensures CanSendOnClosed(Restart(p, n)) <==> p.submitters != []
  {
    if SomeoneChecked(p) {
      var i :| 0 <= i < |p.submitters| && p.submitters[i].Checked?;
      assert SendsOnClosed(Run(p, []), Send(i, false));
    } else {
      forall moves, m
        ensures !SendsOnClosed(Run(p, moves), m)
      {
        NobodyChecks(p, moves);
      }
    }
    var q := Restart(p, n);
    if p.submitters == [] {
      forall moves, m
        ensures !SendsOnClosed(Run(q, moves), m)
      {
        ClosedRun(q, moves);
      }
    } else if q.submitters[0].Checked? {
      assert SendsOnClosed(Run(q, []), Send(0, false));
    } else {
      var moves := [Check(0, 0)];
      assert moves[..0] == [];
      assert Run(q, moves) == Step(q, moves[0]);
      assert SendsOnClosed(Run(q, moves), Send(0, false));
    }
  }
}
