/** Why the proviso is needed: one claim that breaks it can lose a record for
    good, and such a claim is reachable with one producer and one consumer on a
    fresh ring of any capacity. */
module RingLoss {
  import opened Bits
  import opened RingSteps
  import opened RingIndexes
  import opened RingIntegrity
  import opened RingGuard

  /** Ticket `x` is queued, its flag is 0, and no producer will ever set it. */
  ghost predicate Stuck(s: State, x: nat) {
    && IndexInv(s) && s.r <= x < s.w && s.flags[At(s, x)] == 0
    && (forall i :: 0 <= i < |s.threads| ==> Harmless(s, s.threads[i], x))
  }

  ghost predicate Harmless(s: State, pc: Pc, x: nat)
    requires s.cap > 0
  {
    match pc
    case PushClaimed(_, t) => At(s, t) != At(s, x)
    case PushCopying(_, t, _) => At(s, t) != At(s, x)
    case PopReady(seen) => seen != x
    case _ => true
  }

  lemma StuckPush(s: State, i: nat, x: nat)
    requires Stuck(s, x) && i < |s.threads| && Pushing(s.threads[i]) && IndexInv(PushStep(s, i))
    ensures Stuck(PushStep(s, i), x)
  {
    assert ThreadOk(s, i) && Harmless(s, s.threads[i], x);
    if s.threads[i].PushSawRead? && s.threads[i].seen == s.w && At(s, s.w) == At(s, x) {
      SlotInjective(s.w, x, s.cap);
    }
  }

  lemma StuckPop(s: State, i: nat, x: nat)
    requires Stuck(s, x) && i < |s.threads| && Popping(s.threads[i]) && IndexInv(PopStep(s, i))
    ensures Stuck(PopStep(s, i), x)
  {
    assert ThreadOk(s, i) && Harmless(s, s.threads[i], x);
  }

  lemma {:induction false} StuckForever(s: State, x: nat, moves: seq<Move>)
    requires Stuck(s, x)
    ensures Stuck(Run(s, moves), x)
    decreases |moves|
  {
    if moves != [] {
      var front, m := moves[..|moves| - 1], moves[|moves| - 1];
      StuckForever(s, x, front);
      var t := Run(s, front);
      IndexStep(t, m);
      if m.tid < |t.threads| {
        if Pushing(t.threads[m.tid]) {
          StuckPush(t, m.tid, x);
        } else if Popping(t.threads[m.tid]) {
          StuckPop(t, m.tid, x);
        }
      }
    }
  }

  /** A stuck ticket is never returned by any Pop, whatever happens next, and
      blocks the queue: at most one more lap of records is ever accepted. */
  lemma StuckIsLost(s: State, x: nat, moves: seq<Move>)
    requires Stuck(s, x)
    ensures Run(s, moves).r <= x && Run(s, moves).w <= x + s.cap
    ensures NotReturned(Run(s, moves), x)
  {
    StuckForever(s, x, moves);
  }

  /** Under record integrity no ticket is stuck. */
  lemma IntegrityMeansNotStuck(s: State, x: nat)
    requires DataInv(s)
    ensures !Stuck(s, x)
  {
    if s.r <= x < s.w {
      assert CellOk(s, x);
    }
  }

  /** Producer `i` has just claimed the slot consumer `j` is still copying out.
      Both run to the end, the producer first: all that is left changed is the
      flag of their common slot, at 0. */
  lemma LossRuns(s: State, i: nat, j: nat) returns (moves: seq<Move>, t: State)
    requires WellFormed(s) && i < |s.threads| && s.threads[i].PushClaimed?
    requires j < |s.threads| && s.threads[j].PopCopying? && At(s, s.threads[j].ticket) == At(s, s.threads[i].ticket)
    ensures WellFormed(t) && Leads(s, moves, t) && t.threads == s.threads[i := Idle][j := Idle]
    ensures t.flags == s.flags[At(s, s.threads[i].ticket) := 0] && t.w == s.w && t.r == s.r && t.cap == s.cap
    ensures t.writeClaims == s.writeClaims && t.produced == s.produced + 1
  {
    var first, rest, mid;
    first, mid := FinishPush(s, i);
    assert mid.threads[j] == s.threads[j];
    rest, t := FinishPop(mid, j);
    Join(s, first, mid, rest, t);
    moves := first + rest;
  }

  /** After that, the new record is stuck, although its Push returned true. */
  lemma BadClaimLoses(s: State, i: nat, j: nat) returns (moves: seq<Move>, t: State)
    requires DataInv(s) && i < |s.threads| && s.threads[i].PushSawRead? && s.threads[i].seen == s.w
    requires j < |s.threads| && s.threads[j].PopCopying? && At(s, s.threads[j].ticket) == At(s, s.w)
    ensures Leads(Exec(s, i, Go), moves, t) && Stuck(t, s.w)
    ensures t.writeClaims == s.writeClaims + [WriteClaim(i, s.w, s.threads[i].rec)]
    ensures t.threads[i].Idle? && t.produced == s.produced + 1
  {
    assert ThreadOk(s, i);
    var claimed := PushStep(s, i);
    moves, t := LossRuns(claimed, i, j);
    IndexStep(s, Move(i, Go));
    IndexRunFrom(claimed, moves);
    forall k | 0 <= k < |t.threads|
      ensures Harmless(t, t.threads[k], s.w)
    {
      if k != i && k != j {
        OthersHarmless(s, k);
      }
    }
  }

  lemma OthersHarmless(s: State, k: nat)
    requires DataInv(s) && s.w < s.r + s.cap && k < |s.threads|
    ensures Harmless(s, s.threads[k], s.w)
  {
    assert ThreadOk(s, k) && PcDataAt(s, k);
    if s.threads[k].PushClaimed? || s.threads[k].PushCopying? {
      if At(s, s.threads[k].ticket) == At(s, s.w) { SlotInjective(s.threads[k].ticket, s.w, s.cap); }
    }
  }

  /** Some guarded schedule from `s` leaves a ticket stuck for good. */
  ghost predicate CanLose(s: State)
    requires WellFormed(s)
  {
    exists moves, x: nat :: GuardedRun(s, moves) && Stuck(Run(s, moves), x)
  }

  /** The proviso is exact, and visible: a winning claim made while the slot's flag is
      clear can never lead, by guarded moves, to a lost ticket; made while it is set, it can. */
  lemma ProvisoIsExact(s: State, i: nat)
    requires DataInv(s) && i < |s.threads| && s.threads[i].PushSawRead? && s.threads[i].seen == s.w
    ensures s.flags[At(s, s.w)] == 0 <==> !CanLose(Exec(s, i, Go))
    ensures SlotFree(s, s.w) <==> !CanLose(Exec(s, i, Go))
  {
    var claimed := Exec(s, i, Go);
    assert ThreadOk(s, i);
    FlagIsGuard(s);
    if SlotFree(s, s.w) {
      DataStep(s, Move(i, Go));
      forall moves, x: nat | GuardedRun(claimed, moves)
        ensures !Stuck(Run(claimed, moves), x)
      {
        DataRun(claimed, moves);
        IntegrityMeansNotStuck(Run(claimed, moves), x);
      }
    } else {
      var j :| 0 <= j < |s.threads| && s.threads[j].PopCopying? && At(s, s.threads[j].ticket) == At(s, s.w);
      var moves, t := BadClaimLoses(s, i, j);
      assert GuardedRun(claimed, moves) && Stuck(Run(claimed, moves), s.w);
    }
  }

  // ---- Such a claim is reachable.

  /** How far an undisturbed Push is from its compare-and-swap. */
  ghost function PushDistance(pc: Pc): nat {
    if pc.Idle? then 3 else if pc.PushStart? then 2 else if pc.PushSawWrite? then 1 else 0
  }

  /** A Push alone on a ring with room reaches its compare-and-swap. */
  lemma {:induction false} PushReaches(s: State, i: nat, rec: Record) returns (moves: seq<Move>)
    requires WellFormed(s) && i < |s.threads| && s.w < s.r + s.cap && |rec| == s.width
    requires s.threads[i] in {Idle, PushStart(rec), PushSawWrite(rec, s.w), PushSawRead(rec, s.w)}
    ensures Leads(s, moves, SetPc(s, i, PushSawRead(rec, s.w))) && Solo(moves, i)
    decreases PushDistance(s.threads[i])
  {
    var goal := SetPc(s, i, PushSawRead(rec, s.w));
    if s.threads[i].PushSawRead? {
      moves := [];
      assert goal.threads == s.threads;
    } else {
      var m := Move(i, if s.threads[i].Idle? then StartPush(rec) else Go);
      var next := Step(s, m);
      var first := OneMove(s, m);
      var rest := PushReaches(next, i, rec);
      assert next.threads[i := PushSawRead(rec, s.w)] == goal.threads;
      Join(s, first, next, rest, goal);
      moves := first + rest;
    }
  }

  /** `s` with thread `i` holding the next write ticket. */
  ghost function AfterWriteClaim(s: State, i: nat, rec: Record): State
    requires i < |s.threads|
  {
    s.(w := s.w + 1, writeClaims := s.writeClaims + [WriteClaim(i, s.w, rec)],
       threads := s.threads[i := PushClaimed(rec, s.w)])
  }

  /** A Push alone on a ring with room and a free slot wins its ticket. */
  lemma PushClaims(s: State, i: nat, rec: Record) returns (moves: seq<Move>)
    requires WellFormed(s) && i < |s.threads| && s.threads[i].Idle? && s.w < s.r + s.cap && |rec| == s.width
    requires SlotFree(s, s.w)
    ensures WellFormed(AfterWriteClaim(s, i, rec)) && Leads(s, moves, AfterWriteClaim(s, i, rec))
  {
    moves := PushReaches(s, i, rec);
    var ready := SetPc(s, i, PushSawRead(rec, s.w));
    var claim := OneMove(ready, Move(i, Go));
    var claimed := Step(ready, Move(i, Go));
    assert ready.threads[i := PushClaimed(rec, s.w)] == s.threads[i := PushClaimed(rec, s.w)];
    assert claimed == AfterWriteClaim(s, i, rec);
    Join(s, moves, ready, claim, claimed);
    moves := moves + claim;
  }

  /** One whole Push, alone. */
  lemma PushAlone(s: State, i: nat, rec: Record) returns (moves: seq<Move>, t: State)
    requires WellFormed(s) && i < |s.threads| && s.threads[i].Idle? && s.w < s.r + s.cap && |rec| == s.width
    requires SlotFree(s, s.w)
    ensures WellFormed(t) && Leads(s, moves, t) && t.cap == s.cap && t.width == s.width
    ensures t.threads == s.threads && t.w == s.w + 1 && t.r == s.r && t.flags == s.flags[At(s, s.w) := 1]
    ensures |t.mem| == |s.mem| && forall q :: 0 <= q < |s.mem| && q != At(s, s.w) ==> t.mem[q] == s.mem[q]
  {
    moves := PushClaims(s, i, rec);
    var claimed := AfterWriteClaim(s, i, rec);
    var rest;
    rest, t := FinishPush(claimed, i);
    Join(s, moves, claimed, rest, t);
    moves := moves + rest;
    assert t.threads == s.threads;
  }

  /** One whole Pop, alone, of whatever a visible slot holds. */
  lemma PopAlone(s: State, i: nat) returns (moves: seq<Move>, t: State)
    requires WellFormed(s) && i < |s.threads| && s.threads[i].Idle? && s.r < s.w && s.flags[At(s, s.r)] != 0
    ensures WellFormed(t) && Leads(s, moves, t) && t.cap == s.cap && t.width == s.width && t.mem == s.mem
    ensures t.threads == s.threads && t.w == s.w && t.r == s.r + 1 && t.flags == s.flags[At(s, s.r) := 0]
    ensures t.writeClaims == s.writeClaims && t.returned == s.returned + [Delivery(s.r, s.mem[At(s, s.r)])]
  {
    moves := PopClaims(s, i);
    var claimed := AfterReadClaim(s, i);
    assert Rest(claimed, i).rec == s.mem[At(s, s.r)];
    var rest;
    rest, t := FinishPop(claimed, i);
    Join(s, moves, claimed, rest, t);
    moves := moves + rest;
    assert t.threads == s.threads;
  }

  /** Thread 1 is still copying out slot 0, and tickets up to `n` are taken. */
  ghost predicate Filling(s: State, n: nat) {
    && WellFormed(s) && |s.threads| >= 2 && s.threads[1] == PopCopying(0, [])
    && (forall i :: 0 <= i < |s.threads| && i != 1 ==> s.threads[i].Idle?)
    && s.w == n && s.r == 1
  }

  lemma {:induction false} Fill(s: State, rec: Record, n: nat) returns (moves: seq<Move>, t: State)
    requires Filling(s, s.w) && 1 <= s.w <= n <= s.cap && |rec| == s.width
    ensures Leads(s, moves, t) && t.cap == s.cap && t.width == s.width && Filling(t, n)
    decreases n - s.w
  {
    if s.w == n {
      moves, t := [], s;
    } else {
      assert At(s, 0) == 0 && At(s, s.w) == s.w;
      var next;
      moves, next := PushAlone(s, 0, rec);
      var rest;
      rest, t := Fill(next, rec, n);
      Join(s, moves, next, rest, t);
      moves := moves + rest;
    }
  }

  /** Thread 0 is about to claim the slot that thread 1 is still copying out. */
  ghost predicate AboutToLose(s: State, rec: Record) {
    && DataInv(s) && |s.threads| >= 2 && s.threads[0] == PushSawRead(rec, s.w) && s.threads[1] == PopCopying(0, [])
    && s.w == s.cap
  }

  lemma SetUp(start: State, rec: Record) returns (moves: seq<Move>, t: State)
    requires AtStart(start) && Clear(start) && |start.threads| >= 2 && |rec| == start.width
    ensures Leads(start, moves, t) && AboutToLose(t, rec) && t.cap == start.cap
  {
    var m1, s1 := PushAlone(start, 0, rec);
    var m2 := PopClaims(s1, 1);
    var s2 := AfterReadClaim(s1, 1);
    Join(start, m1, s1, m2, s2);
    var m3, s3 := Fill(s2, rec, start.cap);
    Join(start, m1 + m2, s2, m3, s3);
    var m4 := PushReaches(s3, 0, rec);
    t := SetPc(s3, 0, PushSawRead(rec, s3.w));
    Join(start, m1 + m2 + m3, s3, m4, t);
    moves := m1 + m2 + m3 + m4;
    DataInit(start);
    DataRun(start, moves);
  }

  lemma Lose(s: State, rec: Record) returns (moves: seq<Move>)
    requires AboutToLose(s, rec)
    ensures var t := Run(s, moves);
            && WellFormed(t) && Stuck(t, s.w) && t.threads[0].Idle?
            && t.writeClaims == s.writeClaims + [WriteClaim(0, s.w, rec)]
  {
    SlotPeriodic(0, s.cap);
    var rest, t := BadClaimLoses(s, 0, 1);
    var claim := [Move(0, Go)];
    assert claim[..0] == [];
    RunConcat(s, claim, rest);
    moves := claim + rest;
  }

  /** From any start with clear flags and two threads or more, at any capacity, a
      schedule ends with a pushed record that no Pop can ever return: the Push
      returned true, yet its ticket is out of reach in every continuation. */
  lemma LossIsReachable(start: State, rec: Record) returns (moves: seq<Move>, x: nat)
    requires AtStart(start) && Clear(start) && |start.threads| >= 2 && |rec| == start.width
    ensures var t := Run(start, moves);
            && Stuck(t, x) && t.threads[0].Idle? && t.writeClaims[x] == WriteClaim(0, x, rec)
            && forall more :: NotReturned(Run(t, more), x) && Run(t, more).r <= x
  {
    var before, s := SetUp(start, rec);
    var after := Lose(s, rec);
    RunConcat(start, before, after);
    moves, x := before + after, s.w;
    var t := Run(start, moves);
    forall more
      ensures NotReturned(Run(t, more), x) && Run(t, more).r <= x
    {
      StuckIsLost(t, x, more);
    }
  }

  /** One thread at most never meets itself: every move keeps the proviso. */
  lemma {:induction false} AloneIsGuarded(start: State, moves: seq<Move>)
    requires WellFormed(start) && |start.threads| <= 1
    ensures GuardedRun(start, moves)
    decreases |moves|
  {
    if moves != [] {
      AloneIsGuarded(start, moves[..|moves| - 1]);
    }
  }

  ghost predicate SomeRunLoses(start: State)
    requires WellFormed(start)
  {
    exists moves, x: nat :: Stuck(Run(start, moves), x)
  }

  /** From a start with clear flags a record can be lost exactly when there are two threads. */
  lemma LossReachableExactly(start: State)
    requires AtStart(start) && Clear(start)
    ensures SomeRunLoses(start) <==> |start.threads| >= 2
  {
    if |start.threads| >= 2 {
      var moves, x := LossIsReachable(start, seq(start.width, _ => 0));
      assert Stuck(Run(start, moves), x);
    } else {
      forall moves, x: nat
        ensures !Stuck(Run(start, moves), x)
      {
        AloneIsGuarded(start, moves);
        DataInit(start);
        DataRun(start, moves);
        IntegrityMeansNotStuck(Run(start, moves), x);
      }
    }
  }
}
