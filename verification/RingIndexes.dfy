/** What holds in every interleaving of Push and Pop, with no proviso at all:
    the two indexes, ticket ownership and the counters. */
module RingIndexes {
  import opened RingSteps

  /** Every index a thread remembers is at most the current one, and a producer
      that found room still has it. */
  ghost predicate PcInBounds(s: State, pc: Pc) {
    match pc
    case PushSawWrite(_, seen) => seen <= s.w
    case PushSawRead(_, seen) => seen <= s.w && seen < s.r + s.cap
    case PopSawRead(seen) => seen <= s.r
    case PopSawWrite(seen) => seen <= s.r && seen < s.w
    case PopReady(seen) => seen <= s.r && seen < s.w
    case _ => true
  }

  /** A thread holding a ticket is the one that won it. */
  ghost predicate PcOwns(s: State, i: nat, pc: Pc) {
    match pc
    case PushClaimed(rec, t) => t < |s.writeClaims| && s.writeClaims[t] == WriteClaim(i, t, rec)
    case PushCopying(rec, t, _) => t < |s.writeClaims| && s.writeClaims[t] == WriteClaim(i, t, rec)
    case PushPublished(t) => t < |s.writeClaims| && s.writeClaims[t].tid == i
    case PopCopying(t, _) => t < |s.readClaims| && s.readClaims[t].tid == i && NotReturned(s, t)
    case PopCleared(t, _) => t < |s.readClaims| && s.readClaims[t].tid == i && NotReturned(s, t)
    case _ => true
  }

  ghost predicate NotReturned(s: State, t: nat) {
    forall k :: 0 <= k < |s.returned| ==> s.returned[k].ticket != t
  }

  ghost predicate ThreadOk(s: State, i: nat)
    requires i < |s.threads|
  {
    PcInBounds(s, s.threads[i]) && PcOwns(s, i, s.threads[i])
  }

  ghost predicate LogsOk(s: State) {
    && |s.writeClaims| == s.w && |s.readClaims| == s.r
    && (forall t :: 0 <= t < s.w ==> s.writeClaims[t].ticket == t && |s.writeClaims[t].rec| == s.width)
    && (forall t :: 0 <= t < s.r ==> s.readClaims[t].ticket == t)
    && (forall k :: 0 <= k < |s.returned| ==> s.returned[k].ticket < s.r)
    && (forall j, k :: 0 <= j < k < |s.returned| ==> s.returned[j].ticket != s.returned[k].ticket)
  }

  ghost predicate CountsOk(s: State) {
    && s.produced + CountPush(s.threads) == s.w
    && s.consumed + CountPop(s.threads) == s.r
    && s.consumed == |s.returned|
  }

  /** `0 <= r <= w <= r + cap`; the won tickets are 0, 1, 2, ... in order on both
      sides; counters lag by exactly the calls in flight; no ticket is returned twice. */
  ghost predicate IndexInv(s: State) {
    && WellFormed(s)
    && s.r <= s.w <= s.r + s.cap
    && LogsOk(s)
    && CountsOk(s)
    && (forall i :: 0 <= i < |s.threads| ==> ThreadOk(s, i))
  }

  lemma IndexInit(s: State)
    requires AtStart(s)
    ensures IndexInv(s)
  {
    CountIdle(s.threads);
  }

  lemma PushCounts(s: State, i: nat)
    requires WellFormed(s) && CountsOk(s) && i < |s.threads| && Pushing(s.threads[i])
    ensures CountsOk(PushStep(s, i))
  {
    CountUpdate(s.threads, i, PushStep(s, i).threads[i]);
  }

  lemma PopCounts(s: State, i: nat)
    requires WellFormed(s) && CountsOk(s) && i < |s.threads| && Popping(s.threads[i])
    ensures CountsOk(PopStep(s, i))
  {
    CountUpdate(s.threads, i, PopStep(s, i).threads[i]);
  }

  lemma PushLogs(s: State, i: nat)
    requires WellFormed(s) && s.r <= s.w <= s.r + s.cap && LogsOk(s)
    requires i < |s.threads| && ThreadOk(s, i) && Pushing(s.threads[i])
    ensures var t := PushStep(s, i);
            && LogsOk(t) && t.r <= t.w <= t.r + t.cap && ThreadOk(t, i) && Grows(s, t, s.threads[i])
  {
  }

  lemma PopReadyLogs(s: State, i: nat)
    requires WellFormed(s) && s.r <= s.w <= s.r + s.cap && LogsOk(s)
    requires i < |s.threads| && ThreadOk(s, i) && s.threads[i].PopReady?
    ensures var t := PopStep(s, i);
            && LogsOk(t) && t.r <= t.w <= t.r + t.cap && ThreadOk(t, i) && Grows(s, t, s.threads[i])
  {
  }

  lemma PopClearedLogs(s: State, i: nat)
    requires WellFormed(s) && s.r <= s.w <= s.r + s.cap && LogsOk(s)
    requires i < |s.threads| && ThreadOk(s, i) && s.threads[i].PopCleared?
    ensures var t := PopStep(s, i);
            && LogsOk(t) && t.r <= t.w <= t.r + t.cap && ThreadOk(t, i) && Grows(s, t, s.threads[i])
  {
  }

  lemma PopLogs(s: State, i: nat)
    requires WellFormed(s) && s.r <= s.w <= s.r + s.cap && LogsOk(s)
    requires i < |s.threads| && ThreadOk(s, i) && Popping(s.threads[i])
    ensures var t := PopStep(s, i);
            && LogsOk(t) && t.r <= t.w <= t.r + t.cap && ThreadOk(t, i) && Grows(s, t, s.threads[i])
  {
    if s.threads[i].PopReady? {
      PopReadyLogs(s, i);
    } else if s.threads[i].PopCleared? {
      PopClearedLogs(s, i);
    }
  }

  /** Indexes and logs only grow, and the one possible new delivery is the
      mover's own. */
  ghost predicate Grows(s: State, t: State, mover: Pc) {
    && s.cap == t.cap && s.r <= t.r && s.w <= t.w
    && s.writeClaims <= t.writeClaims && s.readClaims <= t.readClaims
    && (t.returned == s.returned ||
        (mover.PopCleared? && t.returned == s.returned + [Delivery(mover.ticket, mover.buf)]))
  }

  lemma OtherStep(s: State, t: State, mover: nat, i: nat)
    requires mover < |s.threads| && i < |s.threads| == |t.threads| && i != mover
    requires ThreadOk(s, i) && ThreadOk(s, mover)
    requires t.threads[i] == s.threads[i] && Grows(s, t, s.threads[mover])
    ensures ThreadOk(t, i)
  {
  }

  lemma MoverStep(s: State, m: Move)
    requires IndexInv(s) && m.tid < |s.threads|
    ensures var t := Step(s, m);
            && t.threads == s.threads[m.tid := t.threads[m.tid]]
            && LogsOk(t) && CountsOk(t) && t.r <= t.w <= t.r + t.cap
            && ThreadOk(t, m.tid) && Grows(s, t, s.threads[m.tid])
  {
    var i := m.tid;
    assert ThreadOk(s, i);
    if Pushing(s.threads[i]) {
      PushCounts(s, i);
      PushLogs(s, i);
    } else if Popping(s.threads[i]) {
      PopCounts(s, i);
      PopLogs(s, i);
    } else {
      CountUpdate(s.threads, i, Step(s, m).threads[i]);
    }
  }

  /** Any one move of any one thread keeps it. */
  lemma IndexStep(s: State, m: Move)
    requires IndexInv(s)
    ensures IndexInv(Step(s, m))
    ensures s.r <= Step(s, m).r && s.w <= Step(s, m).w
  {
    if m.tid < |s.threads| {
      MoverStep(s, m);
      forall j | 0 <= j < |s.threads| && j != m.tid
        ensures ThreadOk(Step(s, m), j)
      {
        OtherStep(s, Step(s, m), m.tid, j);
      }
    }
  }

  lemma {:induction false} IndexRunFrom(s: State, moves: seq<Move>)
    requires IndexInv(s)
    ensures IndexInv(Run(s, moves))
    ensures s.r <= Run(s, moves).r && s.w <= Run(s, moves).w
    decreases |moves|
  {
    if moves != [] {
      var front := moves[..|moves| - 1];
      IndexRunFrom(s, front);
      IndexStep(Run(s, front), moves[|moves| - 1]);
    }
  }

  /** Every interleaving from a new or reset ring, for any capacity and thread count. */
  lemma EveryInterleaving(start: State, moves: seq<Move>)
    requires AtStart(start)
    ensures var s := Run(start, moves);
            && 0 <= s.r <= s.w <= s.r + start.cap
            && |s.writeClaims| == s.w && (forall t :: 0 <= t < s.w ==> s.writeClaims[t].ticket == t)
            && |s.readClaims| == s.r && (forall t :: 0 <= t < s.r ==> s.readClaims[t].ticket == t)
            && s.produced == s.w - CountPush(s.threads)
            && s.consumed == s.r - CountPop(s.threads)
  {
    IndexInit(start);
    IndexRunFrom(start, moves);
  }

  /** No ticket is held by two threads at once. */
  lemma TicketsAreExclusive(start: State, moves: seq<Move>, i: nat, j: nat)
    requires AtStart(start) && i < |start.threads| && j < |start.threads| && i != j
    ensures var ts := Run(start, moves).threads;
            && (PushInFlight(ts[i]) && PushInFlight(ts[j]) ==> ts[i].ticket != ts[j].ticket)
            && (PopInFlight(ts[i]) && PopInFlight(ts[j]) ==> ts[i].ticket != ts[j].ticket)
  {
    IndexInit(start);
    IndexRunFrom(start, moves);
    var s := Run(start, moves);
    assert ThreadOk(s, i) && ThreadOk(s, j);
  }
}
