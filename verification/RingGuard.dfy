/** What the proviso buys, and that nothing weaker would do. */
module RingGuard {
  import opened RingSteps
  import opened RingIndexes
  import opened RingIntegrity

  // ---- What the proviso buys.

  ghost predicate WasReturned(s: State, t: nat) {
    exists k :: 0 <= k < |s.returned| && s.returned[k].ticket == t
  }

  /** A consumed ticket has been returned or is in some consumer's hands. */
  ghost predicate Accounted(s: State, t: nat)
    requires t < |s.readClaims|
  {
    var i := s.readClaims[t].tid;
    || WasReturned(s, t)
    || (i < |s.threads| && PopInFlight(s.threads[i]) && s.threads[i].ticket == t)
  }

  ghost predicate AllAccounted(s: State) {
    forall t :: 0 <= t < |s.readClaims| ==> Accounted(s, t)
  }

  lemma ReturnedStays(s: State, m: Move, u: nat)
    requires IndexInv(s) && WasReturned(s, u)
    ensures WasReturned(Step(s, m), u)
  {
    var k :| 0 <= k < |s.returned| && s.returned[k].ticket == u;
    if m.tid < |s.threads| {
      MoverStep(s, m);
    }
    assert Step(s, m).returned[k] == s.returned[k];
  }

  lemma AccountedStep(s: State, m: Move)
    requires IndexInv(s) && AllAccounted(s)
    ensures AllAccounted(Step(s, m))
  {
    var t := Step(s, m);
    forall u | 0 <= u < |t.readClaims|
      ensures Accounted(t, u)
    {
      if u < |s.readClaims| {
        assert Accounted(s, u);
        if WasReturned(s, u) {
          ReturnedStays(s, m, u);
        } else if m.tid == s.readClaims[u].tid && s.threads[m.tid].PopCleared? {
          assert t.returned[|s.returned|].ticket == u;
        }
      }
    }
  }

  lemma {:induction false} AccountedRun(s: State, moves: seq<Move>)
    requires IndexInv(s) && AllAccounted(s)
    ensures AllAccounted(Run(s, moves))
    decreases |moves|
  {
    if moves != [] {
      var front := moves[..|moves| - 1];
      AccountedRun(s, front);
      IndexRunFrom(s, front);
      AccountedStep(Run(s, front), moves[|moves| - 1]);
    }
  }

  /** Every delivery so far is, whole, the record pushed under its ticket. */
  ghost predicate Right(s: State) {
    forall k :: 0 <= k < |s.returned| ==>
      && s.returned[k].ticket < |s.writeClaims|
      && s.returned[k].rec == s.writeClaims[s.returned[k].ticket].rec
  }

  /** Every Pop returns, whole, the record pushed under its ticket, and no ticket
      is returned twice: from any start with clear flags, for any guarded schedule. */
  lemma GuardedDelivery(start: State, moves: seq<Move>)
    requires AtStart(start) && Clear(start) && GuardedRun(start, moves)
    ensures var s := Run(start, moves);
            && Right(s)
            && (forall k :: 0 <= k < |s.returned| ==> s.returned[k].ticket < s.r <= s.w == |s.writeClaims|)
            && (forall j, k :: 0 <= j < k < |s.returned| ==> s.returned[j].ticket != s.returned[k].ticket)
  {
    DataInit(start);
    DataRun(start, moves);
  }

  lemma RestingCell(s: State, t: nat)
    requires DataInv(s) && s.r <= t < s.w
    requires AllIdle(s)
    ensures s.mem[At(s, t)] == s.writeClaims[t].rec && s.flags[At(s, t)] == 1
  {
    assert CellOk(s, t);
  }

  /** Every call has returned, and nothing is lost: tickets below `r` were all
      returned, the rest sit whole and visible in their slots, and the counters
      equal the indexes. */
  ghost predicate Settled(s: State)
    requires WellFormed(s)
  {
    && s.produced == s.w == |s.writeClaims| && s.consumed == s.r == |s.returned|
    && (forall t :: 0 <= t < s.r ==> WasReturned(s, t))
    && (forall t :: s.r <= t < s.w ==> s.flags[At(s, t)] == 1 && s.mem[At(s, t)] == s.writeClaims[t].rec)
  }

  lemma RestIsSettled(s: State)
    requires DataInv(s) && AllAccounted(s)
    requires AllIdle(s)
    ensures Settled(s)
  {
    CountIdle(s.threads);
    forall t | 0 <= t < s.r
      ensures WasReturned(s, t)
    {
      assert Accounted(s, t);
    }
    forall t | s.r <= t < s.w
      ensures s.flags[At(s, t)] == 1 && s.mem[At(s, t)] == s.writeClaims[t].rec
    {
      RestingCell(s, t);
    }
  }

  /** From any start with clear flags, a guarded run at rest has lost nothing. */
  lemma NothingLostAtRest(start: State, moves: seq<Move>)
    requires AtStart(start) && Clear(start) && GuardedRun(start, moves) && AllIdle(Run(start, moves))
    ensures Settled(Run(start, moves))
  {
    DataInit(start);
    DataRun(start, moves);
    AccountedRun(start, moves);
    RestIsSettled(Run(start, moves));
  }

  // ---- Driving one thread.

  /** All moves are thread `i`'s own. */
  ghost predicate Solo(moves: seq<Move>, i: nat) {
    forall k :: 0 <= k < |moves| ==> moves[k].tid == i
  }

  lemma {:induction false} GuardedConcat(s: State, a: seq<Move>, b: seq<Move>)
    requires WellFormed(s)
    ensures GuardedRun(s, a + b) <==> GuardedRun(s, a) && GuardedRun(Run(s, a), b)
    decreases |b|
  {
    if b == [] {
      assert a + b == a;
    } else {
      var c := b[..|b| - 1];
      assert (a + b)[..|a + b| - 1] == a + c;
      GuardedConcat(s, a, c);
      RunConcat(s, a, c);
    }
  }

  /** A guarded schedule from `s` to `t`. */
  ghost predicate Leads(s: State, moves: seq<Move>, t: State)
    requires WellFormed(s)
  {
    GuardedRun(s, moves) && Run(s, moves) == t
  }

  lemma Join(s: State, a: seq<Move>, mid: State, b: seq<Move>, t: State)
    requires WellFormed(s) && WellFormed(mid) && Leads(s, a, mid) && Leads(mid, b, t)
    ensures Leads(s, a + b, t)
  {
    RunConcat(s, a, b);
    GuardedConcat(s, a, b);
  }

  lemma OneMove(s: State, m: Move) returns (moves: seq<Move>)
    requires WellFormed(s) && Guarded(s, m)
    ensures Leads(s, moves, Step(s, m)) && Solo(moves, m.tid)
  {
    moves := [m];
    assert moves[..0] == [];
  }

  /** As in `s` but for thread `i` and slot `p`, whose flag is set to `flag`. */
  ghost predicate OnlySlot(s: State, t: State, i: nat, p: nat, flag: int) {
    && WellFormed(t) && i < |s.threads| == |t.threads| && p < |s.flags| && |t.mem| == |s.mem|
    && t.cap == s.cap && t.width == s.width && t.flags == s.flags[p := flag]
    && t.w == s.w && t.r == s.r && t.writeClaims == s.writeClaims && t.readClaims == s.readClaims
    && t.threads == s.threads[i := Idle]
    && (forall q :: 0 <= q < |s.mem| && q != p ==> t.mem[q] == s.mem[q])
  }

  /** What a producer has copied so far sits in its slot. */
  ghost predicate CopiedSoFar(s: State, pc: Pc)
    requires WellFormed(s) && (pc.PushClaimed? || pc.PushCopying?)
  {
    pc.PushCopying? ==>
      |pc.rec| == s.width && pc.k <= s.width && s.mem[At(s, pc.ticket)][..pc.k] == pc.rec[..pc.k]
  }

  /** The flag and the count. */
  lemma PublishEnds(s: State, i: nat) returns (moves: seq<Move>, t: State)
    requires WellFormed(s) && i < |s.threads| && s.threads[i].PushCopying? && s.threads[i].k == s.width
    ensures Leads(s, moves, t) && Solo(moves, i) && OnlySlot(s, t, i, At(s, s.threads[i].ticket), 1)
    ensures t.produced == s.produced + 1 && t.returned == s.returned && t.consumed == s.consumed
    ensures CopiedSoFar(s, s.threads[i]) ==> t.mem[At(s, s.threads[i].ticket)] == s.threads[i].rec
  {
    var pc := s.threads[i];
    assert PcShape(pc, s.width);
    var cell := s.mem[At(s, pc.ticket)];
    assert cell[..s.width] == cell && pc.rec[..s.width] == pc.rec;
    var next := PushStep(s, i);
    var first := OneMove(s, Move(i, Go));
    t := PushStep(next, i);
    var rest := OneMove(next, Move(i, Go));
    Join(s, first, next, rest, t);
    moves := first + rest;
  }

  lemma OneWordIn(s: State, i: nat)
    requires WellFormed(s) && i < |s.threads| && (s.threads[i].PushClaimed? || s.threads[i].PushCopying?)
    requires s.threads[i].PushCopying? ==> s.threads[i].k < s.width
    requires CopiedSoFar(s, s.threads[i])
    ensures var t := PushStep(s, i); t.threads[i].PushCopying? && CopiedSoFar(t, t.threads[i])
  {
    var pc := s.threads[i];
    assert PcShape(pc, s.width);
    if pc.PushCopying? {
      var cell := s.mem[At(s, pc.ticket)];
      assert cell[pc.k := pc.rec[pc.k]][..pc.k + 1] == cell[..pc.k] + [pc.rec[pc.k]];
      assert pc.rec[..pc.k + 1] == pc.rec[..pc.k] + [pc.rec[pc.k]];
    }
  }

  /** A producer that has won its ticket finishes on its own, and leaves its record in
      the slot. */
  lemma {:induction false} FinishPush(s: State, i: nat) returns (moves: seq<Move>, t: State)
    requires WellFormed(s) && i < |s.threads| && (s.threads[i].PushClaimed? || s.threads[i].PushCopying?)
    ensures Leads(s, moves, t) && Solo(moves, i) && OnlySlot(s, t, i, At(s, s.threads[i].ticket), 1)
    ensures t.produced == s.produced + 1 && t.returned == s.returned && t.consumed == s.consumed
    ensures CopiedSoFar(s, s.threads[i]) ==> t.mem[At(s, s.threads[i].ticket)] == s.threads[i].rec
    decreases s.threads[i].PushClaimed?, if s.threads[i].PushCopying? then s.width - s.threads[i].k else 0
  {
    assert PcShape(s.threads[i], s.width);
    if s.threads[i].PushCopying? && s.threads[i].k == s.width {
      moves, t := PublishEnds(s, i);
    } else {
      if CopiedSoFar(s, s.threads[i]) {
        OneWordIn(s, i);
      }
      var next := PushStep(s, i);
      var first := OneMove(s, Move(i, Go));
      var rest;
      rest, t := FinishPush(next, i);
      Join(s, first, next, rest, t);
      moves := first + rest;
    }
  }

  /** What a consumer holds of its slot's contents, and what it will hand out. */
  ghost function Rest(s: State, i: nat): Delivery
    requires WellFormed(s) && i < |s.threads| && s.threads[i].PopCopying?
  {
    var pc := s.threads[i];
    assert PcShape(pc, s.width);
    Delivery(pc.ticket, pc.buf + s.mem[At(s, pc.ticket)][|pc.buf|..])
  }

  lemma ReturnEnds(s: State, i: nat) returns (moves: seq<Move>, t: State)
    requires WellFormed(s) && i < |s.threads| && s.threads[i].PopCopying? && |s.threads[i].buf| == s.width
    ensures Leads(s, moves, t) && Solo(moves, i) && OnlySlot(s, t, i, At(s, s.threads[i].ticket), 0)
    ensures t.mem == s.mem && t.returned == s.returned + [Rest(s, i)] && t.produced == s.produced
  {
    var pc := s.threads[i];
    assert Rest(s, i) == Delivery(pc.ticket, pc.buf) by {
      assert s.mem[At(s, pc.ticket)][|pc.buf|..] == [];
    }
    var next := PopStep(s, i);
    assert next.threads[i] == PopCleared(pc.ticket, pc.buf);
    var first := OneMove(s, Move(i, Go));
    t := PopStep(next, i);
    var rest := OneMove(next, Move(i, Go));
    Join(s, first, next, rest, t);
    moves := first + rest;
  }

  lemma OneWord(s: State, i: nat)
    requires WellFormed(s) && i < |s.threads| && s.threads[i].PopCopying? && |s.threads[i].buf| < s.width
    ensures var t := PopStep(s, i);
            && t.threads[i].PopCopying? && t.threads[i].ticket == s.threads[i].ticket
            && |t.threads[i].buf| == |s.threads[i].buf| + 1 && Rest(t, i) == Rest(s, i)
            && t == s.(threads := s.threads[i := t.threads[i]])
  {
    var pc := s.threads[i];
    var cell := s.mem[At(s, pc.ticket)];
    assert pc.buf + [cell[|pc.buf|]] + cell[|pc.buf| + 1..] == pc.buf + cell[|pc.buf|..];
  }

  /** A consumer that has won its ticket finishes on its own, and hands out what its slot holds. */
  lemma {:induction false} FinishPop(s: State, i: nat) returns (moves: seq<Move>, t: State)
    requires WellFormed(s) && i < |s.threads| && s.threads[i].PopCopying?
    ensures Leads(s, moves, t) && Solo(moves, i) && OnlySlot(s, t, i, At(s, s.threads[i].ticket), 0)
    ensures t.mem == s.mem && t.returned == s.returned + [Rest(s, i)] && t.produced == s.produced
    decreases s.width - |s.threads[i].buf|
  {
    assert PcShape(s.threads[i], s.width);
    if |s.threads[i].buf| == s.width {
      moves, t := ReturnEnds(s, i);
    } else {
      OneWord(s, i);
      var next := PopStep(s, i);
      var first := OneMove(s, Move(i, Go));
      var rest;
      rest, t := FinishPop(next, i);
      Join(s, first, next, rest, t);
      moves := first + rest;
    }
  }

  /** `s` with thread `i` holding the next read ticket, nothing copied yet. */
  ghost function AfterReadClaim(s: State, i: nat): State
    requires i < |s.threads|
  {
    s.(r := s.r + 1, readClaims := s.readClaims + [ReadClaim(i, s.r)],
       threads := s.threads[i := PopCopying(s.r, [])])
  }

  /** How far an undisturbed Pop is from winning its ticket. */
  ghost function PopDistance(pc: Pc): nat {
    if pc.Idle? then 4 else if pc.PopStart? then 3 else if pc.PopSawRead? then 2 else if pc.PopSawWrite? then 1 else 0
  }

  /** A Pop alone on a published ticket wins it. */
  lemma {:induction false} PopClaims(s: State, i: nat) returns (moves: seq<Move>)
    requires WellFormed(s) && i < |s.threads| && s.r < s.w && s.flags[At(s, s.r)] != 0
    requires s.threads[i] in {Idle, PopStart, PopSawRead(s.r), PopSawWrite(s.r), PopReady(s.r)}
    ensures Leads(s, moves, AfterReadClaim(s, i)) && Solo(moves, i)
    decreases PopDistance(s.threads[i])
  {
    var m := Move(i, if s.threads[i].Idle? then StartPop else Go);
    var next := Step(s, m);
    var first := OneMove(s, m);
    if s.threads[i].PopReady? {
      moves := first;
    } else {
      var rest := PopClaims(next, i);
      assert AfterReadClaim(next, i) == AfterReadClaim(s, i);
      Join(s, first, next, rest, AfterReadClaim(s, i));
      moves := first + rest;
    }
  }

  /** From any state reached under the proviso, a lone Pop by an idle thread gets
      the oldest record, once that one is published: it never waits forever. */
  lemma LonePopSucceeds(s: State, i: nat) returns (moves: seq<Move>, t: State)
    requires DataInv(s) && i < |s.threads| && s.threads[i].Idle? && s.r < s.w && !Writing(s, s.r)
    ensures Leads(s, moves, t) && Solo(moves, i)
    ensures |t.returned| == |s.returned| + 1 && t.threads[i] == Idle
    ensures t.returned[|s.returned|] == Delivery(s.r, s.writeClaims[s.r].rec)
  {
    assert CellOk(s, s.r);
    var open := PopClaims(s, i);
    var mid := AfterReadClaim(s, i);
    var rest;
    rest, t := FinishPop(mid, i);
    Join(s, open, mid, rest, t);
    moves := open + rest;
    DataRun(s, moves);
  }
}
