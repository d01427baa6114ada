/** What Reset leaves behind: it clears the indexes and counters and keeps the memory and
    the completion flags. */
module RingReset {
  import opened Bits
  import opened RingSteps
  import opened RingIndexes
  import opened RingIntegrity
  import opened RingGuard
  import opened RingLoss

  /** Reset while no call is under way. */
  ghost function Reset(s: State): (t: State)
    requires WellFormed(s) && AllIdle(s)
    ensures AtStart(t)
  {
    s.(w := 0, r := 0, produced := 0, consumed := 0, writeClaims := [], readClaims := [], returned := [])
  }

  /** Each slot belongs to one of the `cap` tickets from `r` on. */
  lemma {:induction false} TicketOf(p: nat, r: nat, cap: nat) returns (u: nat)
    requires p < cap
    ensures r <= u < r + cap && Slot(u, cap) == p
  {
    if r == 0 {
      u := p;
    } else {
      u := TicketOf(p, r - 1, cap);
      if u == r - 1 {
        SlotPeriodic(u, cap);
        u := u + cap;
      }
    }
  }

  /** Reset at rest leaves all flags clear exactly when the queue was empty. */
  lemma ResetClearExactly(s: State)
    requires DataInv(s) && AllIdle(s)
    ensures Clear(Reset(s)) <==> s.r == s.w
  {
    if s.r == s.w {
      forall p | 0 <= p < |s.flags|
        ensures s.flags[p] == 0
      {
        var u := TicketOf(p, s.r, s.cap);
        assert FreeOk(s, u);
      }
    } else {
      RestingCell(s, s.r);
      assert s.flags[At(s, s.r)] != 0;
    }
  }

  // ---- A flag left over hands out the record left over.

  ghost predicate AllRight(start: State)
    requires WellFormed(start)
  {
    forall moves | GuardedRun(start, moves) :: Right(Run(start, moves))
  }

  /** The first `p` slots have been used once, the others are as they were. */
  ghost predicate UsedUpTo(start: State, s: State, p: nat) {
    && WellFormed(s) && AllIdle(s) && |s.threads| == |start.threads| && s.cap == start.cap && s.width == start.width
    && s.w == s.r == p <= s.cap && |start.mem| == |s.mem| == |start.flags| == |s.flags| == s.cap
    && forall q :: p <= q < s.cap ==> s.mem[q] == start.mem[q] && s.flags[q] == start.flags[q]
  }

  lemma {:induction false} UseUpTo(start: State, p: nat) returns (moves: seq<Move>, s: State)
    requires AtStart(start) && |start.threads| >= 1 && p <= start.cap
    ensures Leads(start, moves, s) && UsedUpTo(start, s, p)
  {
    if p == 0 {
      moves, s := [], start;
    } else {
      var first, before := UseUpTo(start, p - 1);
      assert At(before, p - 1) == p - 1;
      var push, pushed := PushAlone(before, 0, seq(start.width, _ => 0));
      var pop;
      pop, s := PopAlone(pushed, 0);
      Join(start, first, before, push, pushed);
      Join(start, first + push, pushed, pop, s);
      moves := first + push + pop;
    }
  }

  /** Under the proviso, yet wrong: one thread claims the ticket of a slot with a leftover
      flag, and another takes the leftover record before the claim's flag store. */
  lemma LeftoverDelivered(start: State, p: nat) returns (moves: seq<Move>)
    requires AtStart(start) && |start.threads| >= 2 && start.width >= 1 && p < start.cap && start.flags[p] != 0
    ensures GuardedRun(start, moves)
    ensures var t := Run(start, moves);
            && |t.returned| > 0 && t.returned[|t.returned| - 1] == Delivery(p, start.mem[p])
            && p < |t.writeClaims| && t.writeClaims[p].rec != start.mem[p]
  {
    var first, s := UseUpTo(start, p);
    IndexInit(start);
    IndexRunFrom(start, first);
    assert At(s, p) == p;
    var rec := seq(start.width, _ => start.mem[p][0] + 1);
    var claim := PushClaims(s, 0, rec);
    var claimed := AfterWriteClaim(s, 0, rec);
    var pop, t := PopAlone(claimed, 1);
    Join(start, first, s, claim, claimed);
    Join(start, first + claim, claimed, pop, t);
    moves := first + claim + pop;
    assert rec[0] != start.mem[p][0];
  }

  // ---- Where leftover flags do not matter.

  /** Records have the ring's width, claimed and handed out. */
  ghost predicate Sized(s: State) {
    forall k :: 0 <= k < |s.returned| ==> |s.returned[k].rec| == s.width
  }

  lemma {:induction false} SizedRun(start: State, moves: seq<Move>)
    requires AtStart(start)
    ensures Sized(Run(start, moves))
    decreases |moves|
  {
    if moves != [] {
      var front, m := moves[..|moves| - 1], moves[|moves| - 1];
      SizedRun(start, front);
      IndexInit(start);
      IndexRunFrom(start, front);
      var s := Run(start, front);
      if m.tid < |s.threads| {
        MoverStep(s, m);
        assert PcShape(s.threads[m.tid], s.width);
      }
    }
  }

  /** What a ticket's slot holds when at most one thread is at work: flags play no part. */
  ghost predicate AloneCell(s: State, t: nat)
    requires WellFormed(s) && t < |s.writeClaims|
  {
    if Writing(s, t) then
      var pc := s.threads[s.writeClaims[t].tid];
      pc.PushCopying? ==>
        |Rec(s, t)| == s.width && pc.k <= s.width && s.mem[At(s, t)][..pc.k] == Rec(s, t)[..pc.k]
    else
      s.mem[At(s, t)] == Rec(s, t)
  }

  ghost predicate AlonePc(s: State, pc: Pc)
    requires WellFormed(s)
  {
    match pc
    case PushClaimed(_, t) => s.r <= t
    case PushCopying(_, t, _) => s.r <= t
    case PopCopying(t, buf) =>
      t < |s.writeClaims| && s.mem[At(s, t)] == Rec(s, t) && |buf| <= |Rec(s, t)| && buf == Rec(s, t)[..|buf|]
    case PopCleared(t, buf) => t < |s.writeClaims| && buf == Rec(s, t)
    case _ => true
  }

  ghost predicate AloneInv(s: State) {
    && IndexInv(s) && |s.threads| <= 1 && Delivered(s)
    && (forall t :: s.r <= t < s.w ==> AloneCell(s, t))
    && (|s.threads| == 1 ==> AlonePc(s, s.threads[0]))
  }

  lemma AlonePush(s: State)
    requires AloneInv(s) && |s.threads| == 1 && Pushing(s.threads[0]) && IndexInv(PushStep(s, 0))
    ensures AloneInv(PushStep(s, 0))
  {
    var t, pc := PushStep(s, 0), s.threads[0];
    assert ThreadOk(s, 0) && PcShape(pc, s.width);
    if pc.PushCopying? {
      var ticket := pc.ticket;
      assert AloneCell(s, ticket);
      if pc.k < s.width {
        var p := At(s, ticket);
        assert t.mem[p][..pc.k + 1] == s.mem[p][..pc.k] + [Rec(s, ticket)[pc.k]];
        assert Rec(s, ticket)[..pc.k + 1] == Rec(s, ticket)[..pc.k] + [Rec(s, ticket)[pc.k]];
      } else {
        assert s.mem[At(s, ticket)][..s.width] == s.mem[At(s, ticket)];
        assert Rec(s, ticket)[..s.width] == Rec(s, ticket);
      }
    }
    forall u | t.r <= u < t.w
      ensures AloneCell(t, u)
    {
      if u < s.w {
        assert AloneCell(s, u);
        if pc.PushCopying? && u != pc.ticket && At(s, u) == At(s, pc.ticket) {
          SlotInjective(u, pc.ticket, s.cap);
        }
      }
    }
  }

  /** While it pops, nobody writes: the queue's cells stay as they are. */
  lemma CellsStay(s: State, t: State)
    requires AloneInv(s) && |s.threads| == 1 && Popping(s.threads[0])
    requires IndexInv(t) && MovedBy(s, t, 0) && s.r <= t.r && t.w == s.w && |t.threads| == 1 && t.cap == s.cap
    requires t.mem == s.mem && t.writeClaims == s.writeClaims && t.width == s.width && !Pushing(t.threads[0])
    ensures forall u :: t.r <= u < t.w ==> AloneCell(t, u)
  {
    forall u | t.r <= u < t.w
      ensures AloneCell(t, u)
    {
      assert AloneCell(s, u);
    }
  }

  lemma AlonePopPc(s: State)
    requires AloneInv(s) && |s.threads| == 1 && Popping(s.threads[0]) && IndexInv(PopStep(s, 0))
    ensures var t := PopStep(s, 0); AlonePc(t, t.threads[0]) && Delivered(t)
  {
    var pc := s.threads[0];
    assert ThreadOk(s, 0) && PcShape(pc, s.width);
    if pc.PopReady? && pc.seen == s.r {
      assert AloneCell(s, s.r);
    }
  }

  lemma AlonePop(s: State)
    requires AloneInv(s) && |s.threads| == 1 && Popping(s.threads[0]) && IndexInv(PopStep(s, 0))
    ensures AloneInv(PopStep(s, 0))
  {
    AlonePopPc(s);
    CellsStay(s, PopStep(s, 0));
  }

  lemma {:induction false} AloneRun(start: State, moves: seq<Move>)
    requires AtStart(start) && |start.threads| <= 1
    ensures AloneInv(Run(start, moves))
    decreases |moves|
  {
    IndexInit(start);
    if moves != [] {
      var front, m := moves[..|moves| - 1], moves[|moves| - 1];
      AloneRun(start, front);
      var s := Run(start, front);
      IndexStep(s, m);
      if m.tid < |s.threads| {
        if Pushing(s.threads[0]) {
          AlonePush(s);
        } else if Popping(s.threads[0]) {
          AlonePop(s);
        } else {
          AloneStarts(s, m);
        }
      }
    }
  }

  lemma AloneStarts(s: State, m: Move)
    requires AloneInv(s) && m.tid < |s.threads| && s.threads[0].Idle? && IndexInv(Step(s, m))
    ensures AloneInv(Step(s, m))
  {
    var t := Step(s, m);
    forall u | t.r <= u < t.w
      ensures AloneCell(t, u)
    {
      assert AloneCell(s, u);
    }
  }

  // ---- The theorems.

  lemma LeftoversMatter(start: State)
    requires AtStart(start) && !Clear(start) && |start.threads| >= 2 && start.width >= 1
    ensures !AllRight(start)
  {
    var p :| 0 <= p < |start.flags| && start.flags[p] != 0;
    var moves := LeftoverDelivered(start, p);
    var t := Run(start, moves);
    assert t.returned[|t.returned| - 1].ticket == p;
    assert !Right(t);
  }

  /** From a new or reset ring, every delivery of every guarded run is right exactly when
      all flags are clear, or there are no two threads, or records are empty. */
  lemma LeftoversMatterExactly(start: State)
    requires AtStart(start)
    ensures AllRight(start) <==> Clear(start) || |start.threads| <= 1 || start.width == 0
  {
    if Clear(start) || |start.threads| <= 1 || start.width == 0 {
      forall moves | GuardedRun(start, moves)
        ensures Right(Run(start, moves))
      {
        if Clear(start) {
          GuardedDelivery(start, moves);
        } else if |start.threads| <= 1 {
          AloneRun(start, moves);
        } else {
          SizedRun(start, moves);
          IndexInit(start);
          IndexRunFrom(start, moves);
        }
      }
    } else {
      LeftoversMatter(start);
    }
  }

  /** A reset at rest is safe exactly when it finds the queue empty, or leaves no two
      threads to meet, or records are empty. */
  lemma ResetIsSafeExactly(s: State)
    requires DataInv(s) && AllIdle(s)
    ensures AllRight(Reset(s)) <==> s.r == s.w || |s.threads| <= 1 || s.width == 0
  {
    ResetClearExactly(s);
    LeftoversMatterExactly(Reset(s));
  }
}
