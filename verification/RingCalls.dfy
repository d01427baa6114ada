/** How calls end: when a Push returns false and a Pop nothing, that no call is lost from
    the books, and what a call does that nobody disturbs. */
module RingCalls {
  import opened Counts
  import opened RingSteps
  import opened RingIndexes
  import opened RingGuard
  import opened RingLoss

  ghost predicate Full(s: State) {
    s.w == s.r + s.cap
  }

  /** The move ends a Push that has won no ticket: it returns false. */
  ghost predicate Refuses(s: State, m: Move)
    requires WellFormed(s)
  {
    && m.tid < |s.threads| && Pushing(s.threads[m.tid]) && !s.threads[m.tid].PushPublished?
    && Step(s, m).threads[m.tid].Idle?
  }

  /** The move ends a Pop that has won no ticket: it returns nothing. */
  ghost predicate ComesEmpty(s: State, m: Move)
    requires WellFormed(s)
  {
    && m.tid < |s.threads| && Popping(s.threads[m.tid]) && !s.threads[m.tid].PopCleared?
    && Step(s, m).threads[m.tid].Idle?
  }

  /** A Push returns false exactly when it loads readIndex while the ring is full and
      nobody has claimed since it loaded writeIndex. */
  lemma RefusesExactly(s: State, m: Move)
    requires IndexInv(s)
    ensures Refuses(s, m) <==>
            m.tid < |s.threads| && s.threads[m.tid].PushSawWrite? && s.threads[m.tid].seen == s.w && Full(s)
  {
    if m.tid < |s.threads| {
      assert ThreadOk(s, m.tid);
    }
  }

  /** A Pop returns nothing exactly when it loads writeIndex while the ring is empty, which
      means that nobody has claimed since it loaded readIndex. */
  lemma ComesEmptyExactly(s: State, m: Move)
    requires IndexInv(s)
    ensures ComesEmpty(s, m) <==>
            m.tid < |s.threads| && s.threads[m.tid].PopSawRead? && s.threads[m.tid].seen == s.r && s.r == s.w
  {
    if m.tid < |s.threads| {
      assert ThreadOk(s, m.tid);
    }
  }

  /** The thread has been sent back to its first load. */
  ghost predicate Retries(s: State, m: Move)
    requires WellFormed(s)
  {
    && m.tid < |s.threads|
    && ((Pushing(s.threads[m.tid]) && Step(s, m).threads[m.tid].PushStart?)
        || (Popping(s.threads[m.tid]) && Step(s, m).threads[m.tid].PopStart?))
  }

  /** A call starts again exactly when another has won the ticket it went for, or, for a
      Pop, when the record under its ticket is not published. */
  lemma RetriesExactly(s: State, m: Move)
    requires IndexInv(s) && m.tid < |s.threads|
    ensures var pc := s.threads[m.tid];
            Retries(s, m) <==>
            (pc.PushSawRead? && pc.seen < s.w) || (pc.PopReady? && pc.seen < s.r)
            || (pc.PopSawWrite? && s.flags[At(s, pc.seen)] == 0)
  {
    assert ThreadOk(s, m.tid);
  }

  /** A ticket is won exactly by the thread that still holds the current index. */
  lemma ClaimsExactly(s: State, m: Move)
    requires IndexInv(s) && m.tid < |s.threads|
    ensures var pc, t := s.threads[m.tid], Step(s, m);
            && (t.w == s.w + 1 <==> pc.PushSawRead? && pc.seen == s.w)
            && (t.w != s.w ==> t.w == s.w + 1 && t.writeClaims == s.writeClaims + [WriteClaim(m.tid, s.w, pc.rec)])
            && (t.r == s.r + 1 <==> pc.PopReady? && pc.seen == s.r)
            && (t.r != s.r ==> t.r == s.r + 1 && t.readClaims == s.readClaims + [ReadClaim(m.tid, s.r)])
  {
    assert ThreadOk(s, m.tid);
  }

  // ---- The books over a whole run.

  ghost predicate StartsPush(s: State, m: Move)
    requires WellFormed(s)
  {
    m.tid < |s.threads| && s.threads[m.tid].Idle? && Pushing(Step(s, m).threads[m.tid])
  }

  ghost predicate StartsPop(s: State, m: Move)
    requires WellFormed(s)
  {
    m.tid < |s.threads| && s.threads[m.tid].Idle? && Popping(Step(s, m).threads[m.tid])
  }

  /** Calls begun, and calls ended without a ticket. */
  datatype Calls = Calls(pushes: nat, refused: nat, pops: nat, empty: nat)

  ghost function CallsOf(s: State, moves: seq<Move>): Calls
    requires WellFormed(s)
  {
    if moves == [] then Calls(0, 0, 0, 0)
    else
      var front, m := moves[..|moves| - 1], moves[|moves| - 1];
      var c, t := CallsOf(s, front), Run(s, front);
      Calls(c.pushes + One(StartsPush(t, m)), c.refused + One(Refuses(t, m)),
            c.pops + One(StartsPop(t, m)), c.empty + One(ComesEmpty(t, m)))
  }

  /** Threads inside Push, and inside Pop. */
  ghost function CountPushing(threads: seq<Pc>): nat {
    if threads == [] then 0 else CountPushing(threads[1..]) + One(Pushing(threads[0]))
  }

  ghost function CountPopping(threads: seq<Pc>): nat {
    if threads == [] then 0 else CountPopping(threads[1..]) + One(Popping(threads[0]))
  }

  lemma {:induction false} InsideUpdate(threads: seq<Pc>, i: nat, pc: Pc)
    requires i < |threads|
    ensures CountPushing(threads[i := pc]) == CountPushing(threads) - One(Pushing(threads[i])) + One(Pushing(pc))
    ensures CountPopping(threads[i := pc]) == CountPopping(threads) - One(Popping(threads[i])) + One(Popping(pc))
  {
    if i > 0 {
      InsideUpdate(threads[1..], i - 1, pc);
      assert threads[i := pc][1..] == threads[1..][i - 1 := pc];
    } else {
      assert threads[i := pc][1..] == threads[1..];
    }
  }

  lemma {:induction false} InsideIdle(threads: seq<Pc>)
    requires forall i :: 0 <= i < |threads| ==> threads[i].Idle?
    ensures CountPushing(threads) == CountPopping(threads) == 0
  {
    if threads != [] {
      InsideIdle(threads[1..]);
    }
  }

  /** Every Push begun has returned true, was refused, or is under way; every Pop begun has
      returned a record, came out empty, or is under way. */
  ghost predicate Booked(s: State, c: Calls) {
    && c.pushes == s.produced + c.refused + CountPushing(s.threads)
    && c.pops == |s.returned| + c.empty + CountPopping(s.threads)
  }

  /** What one move does to the books, in the mover's own terms. */
  ghost predicate MoveBooked(s: State, m: Move)
    requires WellFormed(s)
  {
    m.tid < |s.threads| ==>
      var t, pc, next := Step(s, m), s.threads[m.tid], Step(s, m).threads[m.tid];
      && One(StartsPush(s, m)) + One(Pushing(pc)) == (t.produced - s.produced) + One(Refuses(s, m)) + One(Pushing(next))
      && One(StartsPop(s, m)) + One(Popping(pc))
         == (|t.returned| - |s.returned|) + One(ComesEmpty(s, m)) + One(Popping(next))
  }

  lemma PushMoveBooked(s: State, m: Move)
    requires WellFormed(s) && m.tid < |s.threads| && Pushing(s.threads[m.tid])
    ensures MoveBooked(s, m)
  {
  }

  lemma PopMoveBooked(s: State, m: Move)
    requires WellFormed(s) && m.tid < |s.threads| && Popping(s.threads[m.tid])
    ensures MoveBooked(s, m)
  {
  }

  lemma EveryMoveBooked(s: State, m: Move)
    requires WellFormed(s)
    ensures MoveBooked(s, m)
  {
    if m.tid < |s.threads| {
      if Pushing(s.threads[m.tid]) {
        PushMoveBooked(s, m);
      } else if Popping(s.threads[m.tid]) {
        PopMoveBooked(s, m);
      }
    }
  }

  lemma BookedStep(s: State, c: Calls, m: Move)
    requires WellFormed(s) && Booked(s, c)
    ensures Booked(Step(s, m), Calls(c.pushes + One(StartsPush(s, m)), c.refused + One(Refuses(s, m)),
                                     c.pops + One(StartsPop(s, m)), c.empty + One(ComesEmpty(s, m))))
  {
    EveryMoveBooked(s, m);
    if m.tid < |s.threads| {
      var t := Exec(s, m.tid, m.cmd);
      assert MovedBy(s, t, m.tid);
      InsideUpdate(s.threads, m.tid, t.threads[m.tid]);
    }
  }

  lemma {:induction false} EveryCallBooked(start: State, moves: seq<Move>)
    requires AtStart(start)
    ensures Booked(Run(start, moves), CallsOf(start, moves))
    decreases |moves|
  {
    if moves == [] {
      InsideIdle(start.threads);
    } else {
      var front, m := moves[..|moves| - 1], moves[|moves| - 1];
      EveryCallBooked(start, front);
      BookedStep(Run(start, front), CallsOf(start, front), m);
    }
  }

  /** Over a whole run: every refusal met a full ring and every empty Pop an empty one. If
      neither ever happened, every call begun has succeeded or is under way. */
  lemma EveryCallEnds(start: State, moves: seq<Move>)
    requires AtStart(start)
    ensures forall k :: 0 <= k < |moves| && Refuses(Run(start, moves[..k]), moves[k]) ==> Full(Run(start, moves[..k]))
    ensures forall k :: 0 <= k < |moves| && ComesEmpty(Run(start, moves[..k]), moves[k]) ==>
                          Run(start, moves[..k]).r == Run(start, moves[..k]).w
    ensures (forall k :: 0 <= k < |moves| ==> !Full(Run(start, moves[..k]))) ==>
              CallsOf(start, moves).pushes == Run(start, moves).produced + CountPushing(Run(start, moves).threads)
  {
    IndexInit(start);
    forall k | 0 <= k < |moves|
      ensures Refuses(Run(start, moves[..k]), moves[k]) ==> Full(Run(start, moves[..k]))
      ensures ComesEmpty(Run(start, moves[..k]), moves[k]) ==> Run(start, moves[..k]).r == Run(start, moves[..k]).w
    {
      IndexRunFrom(start, moves[..k]);
      RefusesExactly(Run(start, moves[..k]), moves[k]);
      ComesEmptyExactly(Run(start, moves[..k]), moves[k]);
    }
    EveryCallBooked(start, moves);
    if forall k :: 0 <= k < |moves| ==> !Full(Run(start, moves[..k])) {
      NoneRefused(start, moves);
    }
  }

  lemma {:induction false} NoneRefused(start: State, moves: seq<Move>)
    requires AtStart(start) && forall k :: 0 <= k < |moves| ==> !Full(Run(start, moves[..k]))
    ensures CallsOf(start, moves).refused == 0
    decreases |moves|
  {
    if moves != [] {
      var front, m := moves[..|moves| - 1], moves[|moves| - 1];
      forall k | 0 <= k < |front|
        ensures !Full(Run(start, front[..k]))
      {
        assert front[..k] == moves[..k];
      }
      NoneRefused(start, front);
      assert moves[..|front|] == front;
      IndexInit(start);
      IndexRunFrom(start, front);
      RefusesExactly(Run(start, front), m);
    }
  }

  // ---- Calls that nobody disturbs.

  lemma RunOne(s: State, m: Move)
    requires WellFormed(s)
    ensures Run(s, [m]) == Step(s, m)
  {
    assert [m][..0] == [];
  }

  lemma RunThree(s: State, a: Move, s1: State, b: Move, s2: State, c: Move, s3: State)
    requires WellFormed(s) && WellFormed(s1) && WellFormed(s2)
    requires Step(s, a) == s1 && Step(s1, b) == s2 && Step(s2, c) == s3
    ensures Run(s, [a] + [b] + [c]) == s3
  {
    RunOne(s, a);
    RunOne(s1, b);
    RunOne(s2, c);
    RunConcat(s, [a], [b]);
    RunConcat(s, [a] + [b], [c]);
  }

  /** A lone Push on a full ring returns false and changes nothing. */
  lemma LonePushFull(s: State, i: nat, rec: Record) returns (moves: seq<Move>)
    requires WellFormed(s) && i < |s.threads| && s.threads[i].Idle? && |rec| == s.width && s.w - s.r >= s.cap
    ensures Run(s, moves) == s && Solo(moves, i)
  {
    moves := [Move(i, StartPush(rec))] + [Move(i, Go)] + [Move(i, Go)];
    var s1, s2 := SetPc(s, i, PushStart(rec)), SetPc(s, i, PushSawWrite(rec, s.w));
    assert s1.threads[i := PushSawWrite(rec, s.w)] == s2.threads && s2.threads[i := Idle] == s.threads;
    RunThree(s, Move(i, StartPush(rec)), s1, Move(i, Go), s2, Move(i, Go), s);
  }

  /** A lone Push with room appends its record, whole and visible, and returns true. */
  lemma LonePush(s: State, i: nat, rec: Record) returns (moves: seq<Move>, t: State)
    requires WellFormed(s) && i < |s.threads| && s.threads[i].Idle? && |rec| == s.width && s.w - s.r < s.cap
    ensures Run(s, moves) == t && Solo(moves, i) && WellFormed(t) && t.cap == s.cap && t.threads == s.threads
    ensures t.w == s.w + 1 && t.r == s.r && t.produced == s.produced + 1 && t.returned == s.returned
    ensures t.writeClaims == s.writeClaims + [WriteClaim(i, s.w, rec)]
    ensures t.flags == s.flags[At(s, s.w) := 1] && t.mem[At(s, s.w)] == rec
    ensures forall q :: 0 <= q < |s.mem| && q != At(s, s.w) ==> t.mem[q] == s.mem[q]
  {
    moves := PushReaches(s, i, rec);
    var ready, claimed := SetPc(s, i, PushSawRead(rec, s.w)), AfterWriteClaim(s, i, rec);
    assert ready.threads[i := PushClaimed(rec, s.w)] == s.threads[i := PushClaimed(rec, s.w)];
    assert Step(ready, Move(i, Go)) == claimed;
    RunOne(ready, Move(i, Go));
    RunConcat(s, moves, [Move(i, Go)]);
    moves := moves + [Move(i, Go)];
    var rest;
    rest, t := FinishPush(claimed, i);
    RunConcat(s, moves, rest);
    moves := moves + rest;
    assert t.threads == s.threads;
  }

  /** A lone Pop on an empty ring returns nothing and changes nothing. */
  lemma LonePopEmpty(s: State, i: nat) returns (moves: seq<Move>)
    requires WellFormed(s) && i < |s.threads| && s.threads[i].Idle? && s.r >= s.w
    ensures Run(s, moves) == s && Solo(moves, i)
  {
    moves := [Move(i, StartPop)] + [Move(i, Go)] + [Move(i, Go)];
    var s1, s2 := SetPc(s, i, PopStart), SetPc(s, i, PopSawRead(s.r));
    assert s1.threads[i := PopSawRead(s.r)] == s2.threads && s2.threads[i := Idle] == s.threads;
    RunThree(s, Move(i, StartPop), s1, Move(i, Go), s2, Move(i, Go), s);
  }

  /** What is pushed into an empty ring by one thread and popped by another, each alone,
      comes back as it was. */
  lemma RoundTrip(s: State, i: nat, j: nat, rec: Record) returns (moves: seq<Move>, t: State)
    requires WellFormed(s) && i < |s.threads| && j < |s.threads| && s.threads[i].Idle? && s.threads[j].Idle?
    requires s.r == s.w && |rec| == s.width
    ensures Run(s, moves) == t && t.threads == s.threads && t.r == t.w == s.w + 1
    ensures t.returned == s.returned + [Delivery(s.w, rec)]
  {
    var push, pushed := LonePush(s, i, rec);
    var pop;
    pop, t := PopAlone(pushed, j);
    RunConcat(s, push, pop);
    moves := push + pop;
  }
}
