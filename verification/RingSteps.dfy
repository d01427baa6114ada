/** The ring buffer under concurrency: one step per atomic load, compare-and-swap
    or store, and one step per word of a record copied in or out. Any number of
    threads call Push and Pop in any order; a schedule is a list of moves. */
module RingSteps {
  import opened Bits

  type Word = int
  type Record = seq<Word>

  /** Where a thread stands inside Push or Pop. */
  datatype Pc =
    | Idle
    | PushStart(rec: Record)                          // about to load writeIndex
    | PushSawWrite(rec: Record, seen: nat)            // about to load readIndex
    | PushSawRead(rec: Record, seen: nat)             // not full: about to CAS writeIndex
    | PushClaimed(rec: Record, ticket: nat)           // about to store flag 0
    | PushCopying(rec: Record, ticket: nat, k: nat)   // k words written
    | PushPublished(ticket: nat)                      // flag 1 stored: about to count
    | PopStart                                        // about to load readIndex
    | PopSawRead(seen: nat)                           // about to load writeIndex
    | PopSawWrite(seen: nat)                          // not empty: about to load the flag
    | PopReady(seen: nat)                             // flag was 1: about to CAS readIndex
    | PopCopying(ticket: nat, buf: Record)            // |buf| words read, flag not yet cleared
    | PopCleared(ticket: nat, buf: Record)            // flag cleared: about to count and return

  datatype WriteClaim = WriteClaim(tid: nat, ticket: nat, rec: Record)
  datatype ReadClaim = ReadClaim(tid: nat, ticket: nat)
  datatype Delivery = Delivery(ticket: nat, rec: Record)

  /** Shared memory and threads, followed by three logs that only record what
      happened: won claims in order, and records returned by Pop. */
  datatype State = State(
    cap: nat, width: nat,
    mem: seq<Record>, flags: seq<int>,
    w: nat, r: nat, produced: nat, consumed: nat,
    threads: seq<Pc>,
    writeClaims: seq<WriteClaim>, readClaims: seq<ReadClaim>, returned: seq<Delivery>)

  datatype Cmd = Go | StartPush(rec: Record) | StartPop
  datatype Move = Move(tid: nat, cmd: Cmd)

  ghost predicate WellFormed(s: State) {
    && s.cap > 0 && |s.mem| == s.cap && |s.flags| == s.cap
    && (forall p :: 0 <= p < s.cap ==> |s.mem[p]| == s.width)
    && (forall i :: 0 <= i < |s.threads| ==> PcShape(s.threads[i], s.width))
  }

  ghost predicate PcShape(pc: Pc, width: nat) {
    match pc
    case PushStart(rec) => |rec| == width
    case PushSawWrite(rec, _) => |rec| == width
    case PushSawRead(rec, _) => |rec| == width
    case PushClaimed(rec, _) => |rec| == width
    case PushCopying(rec, _, k) => |rec| == width && k <= width
    case PopCopying(_, buf) => |buf| <= width
    case PopCleared(_, buf) => |buf| == width
    case _ => true
  }

  ghost predicate AllIdle(s: State) {
    forall i :: 0 <= i < |s.threads| ==> s.threads[i].Idle?
  }

  /** A new ring, or one just reset while no call was under way: memory and completion
      flags may be left over. */
  ghost predicate AtStart(s: State) {
    && WellFormed(s) && AllIdle(s) && s.w == s.r == s.produced == s.consumed == 0
    && s.writeClaims == [] && s.readClaims == [] && s.returned == []
  }

  /** No completion flag is set. */
  ghost predicate Clear(s: State) {
    forall p :: 0 <= p < |s.flags| ==> s.flags[p] == 0
  }

  /** A fresh ring and `n` idle threads. */
  ghost function Init(cap: nat, width: nat, n: nat): (s: State)
    requires cap > 0
    ensures AtStart(s) && Clear(s)
  {
    State(cap, width, seq(cap, _ => seq(width, _ => 0)), seq(cap, _ => 0), 0, 0, 0, 0,
          seq(n, _ => Idle), [], [], [])
  }

  ghost function At(s: State, ticket: nat): (p: nat)
    requires s.cap > 0
    ensures p < s.cap
  {
    Slot(ticket, s.cap)
  }

  ghost function SetPc(s: State, i: nat, pc: Pc): State
    requires i < |s.threads|
  {
    s.(threads := s.threads[i := pc])
  }

  ghost predicate Pushing(pc: Pc) {
    pc.PushStart? || pc.PushSawWrite? || pc.PushSawRead? || pc.PushClaimed? || pc.PushCopying? || pc.PushPublished?
  }

  ghost predicate Popping(pc: Pc) {
    !pc.Idle? && !Pushing(pc)
  }

  /** `t` comes from `s` by a move of thread `i` alone. */
  ghost predicate MovedBy(s: State, t: State, i: nat) {
    && WellFormed(t) && t.cap == s.cap && t.width == s.width
    && i < |s.threads| == |t.threads|
    && t.threads == s.threads[i := t.threads[i]]
  }

  /** The next step of a Push. */
  ghost function PushStep(s: State, i: nat): (t: State)
    requires WellFormed(s) && i < |s.threads| && Pushing(s.threads[i])
    ensures MovedBy(s, t, i)
  {
    match s.threads[i]
    case PushStart(rec) => SetPc(s, i, PushSawWrite(rec, s.w))
    case PushSawWrite(rec, seen) =>
      if seen - s.r >= s.cap then SetPc(s, i, Idle) else SetPc(s, i, PushSawRead(rec, seen))
    case PushSawRead(rec, seen) =>
      if s.w == seen then
        SetPc(s, i, PushClaimed(rec, seen)).(
          w := seen + 1, writeClaims := s.writeClaims + [WriteClaim(i, seen, rec)])
      else SetPc(s, i, PushStart(rec))
    case PushClaimed(rec, ticket) =>
      SetPc(s, i, PushCopying(rec, ticket, 0)).(flags := s.flags[At(s, ticket) := 0])
    case PushCopying(rec, ticket, k) =>
      if k < s.width then
        var p := At(s, ticket);
        SetPc(s, i, PushCopying(rec, ticket, k + 1)).(mem := s.mem[p := s.mem[p][k := rec[k]]])
      else SetPc(s, i, PushPublished(ticket)).(flags := s.flags[At(s, ticket) := 1])
    case PushPublished(_) => SetPc(s, i, Idle).(produced := s.produced + 1)
  }

  /** The next step of a Pop. */
  ghost function PopStep(s: State, i: nat): (t: State)
    requires WellFormed(s) && i < |s.threads| && Popping(s.threads[i])
    ensures MovedBy(s, t, i)
  {
    match s.threads[i]
    case PopStart => SetPc(s, i, PopSawRead(s.r))
    case PopSawRead(seen) =>
      if seen >= s.w then SetPc(s, i, Idle) else SetPc(s, i, PopSawWrite(seen))
    case PopSawWrite(seen) =>
      if s.flags[At(s, seen)] == 0 then SetPc(s, i, PopStart) else SetPc(s, i, PopReady(seen))
    case PopReady(seen) =>
      if s.r == seen then
        SetPc(s, i, PopCopying(seen, [])).(
          r := seen + 1, readClaims := s.readClaims + [ReadClaim(i, seen)])
      else SetPc(s, i, PopStart)
    case PopCopying(ticket, buf) =>
      if |buf| < s.width then
        SetPc(s, i, PopCopying(ticket, buf + [s.mem[At(s, ticket)][|buf|]]))
      else SetPc(s, i, PopCleared(ticket, buf)).(flags := s.flags[At(s, ticket) := 0])
    case PopCleared(ticket, buf) =>
      SetPc(s, i, Idle).(consumed := s.consumed + 1, returned := s.returned + [Delivery(ticket, buf)])
  }

  /** What thread `i` does next. */
  ghost function Exec(s: State, i: nat, cmd: Cmd): (t: State)
    requires WellFormed(s) && i < |s.threads|
    ensures MovedBy(s, t, i)
  {
    if Pushing(s.threads[i]) then PushStep(s, i)
    else if Popping(s.threads[i]) then PopStep(s, i)
    else
      match cmd
      case StartPush(rec) => if |rec| == s.width then SetPc(s, i, PushStart(rec)) else s
      case StartPop => SetPc(s, i, PopStart)
      case Go => s
  }

  ghost function Step(s: State, m: Move): (t: State)
    requires WellFormed(s)
    ensures WellFormed(t) && t.cap == s.cap && t.width == s.width && |t.threads| == |s.threads|
  {
    if m.tid < |s.threads| then Exec(s, m.tid, m.cmd) else s
  }

  /** The state after a schedule: every interleaving is one. */
  ghost function Run(s: State, moves: seq<Move>): (t: State)
    requires WellFormed(s)
    ensures WellFormed(t) && t.cap == s.cap && t.width == s.width && |t.threads| == |s.threads|
  {
    if moves == [] then s else Step(Run(s, moves[..|moves| - 1]), moves[|moves| - 1])
  }

  lemma {:induction false} RunConcat(s: State, a: seq<Move>, b: seq<Move>)
    requires WellFormed(s)
    ensures Run(s, a + b) == Run(Run(s, a), b)
    decreases |b|
  {
    if b == [] {
      assert a + b == a;
    } else {
      var c := b[..|b| - 1];
      assert (a + b)[..|a + b| - 1] == a + c;
      RunConcat(s, a, c);
    }
  }

  // ---- Who holds what.

  /** Claimed a write ticket, Push not yet returned. */
  ghost predicate PushInFlight(pc: Pc) {
    pc.PushClaimed? || pc.PushCopying? || pc.PushPublished?
  }

  /** Claimed a read ticket, Pop not yet returned. */
  ghost predicate PopInFlight(pc: Pc) {
    pc.PopCopying? || pc.PopCleared?
  }

  ghost function CountPush(threads: seq<Pc>): nat {
    if threads == [] then 0
    else CountPush(threads[1..]) + (if PushInFlight(threads[0]) then 1 else 0)
  }

  ghost function CountPop(threads: seq<Pc>): nat {
    if threads == [] then 0
    else CountPop(threads[1..]) + (if PopInFlight(threads[0]) then 1 else 0)
  }

  lemma {:induction false} CountUpdate(threads: seq<Pc>, i: nat, pc: Pc)
    requires i < |threads|
    ensures CountPush(threads[i := pc]) ==
            CountPush(threads) - (if PushInFlight(threads[i]) then 1 else 0) + (if PushInFlight(pc) then 1 else 0)
    ensures CountPop(threads[i := pc]) ==
            CountPop(threads) - (if PopInFlight(threads[i]) then 1 else 0) + (if PopInFlight(pc) then 1 else 0)
  {
    if i > 0 {
      CountUpdate(threads[1..], i - 1, pc);
      assert threads[i := pc][1..] == threads[1..][i - 1 := pc];
    } else {
      assert threads[i := pc][1..] == threads[1..];
    }
  }

  lemma {:induction false} CountIdle(threads: seq<Pc>)
    requires forall i :: 0 <= i < |threads| ==> threads[i].Idle?
    ensures CountPush(threads) == 0 && CountPop(threads) == 0
  {
    if threads != [] {
      CountIdle(threads[1..]);
    }
  }
}
