/** Record integrity under one proviso: no producer claims a slot that a consumer
    of the previous lap has claimed but not yet cleared. */
module RingIntegrity {
  import opened Bits
  import opened RingSteps
  import opened RingIndexes

  ghost function Rec(s: State, t: nat): Record
    requires t < |s.writeClaims|
  {
    s.writeClaims[t].rec
  }

  /** Ticket `t` is claimed by a producer that has not yet set the flag to 1. */
  ghost predicate Writing(s: State, t: nat)
    requires t < |s.writeClaims|
  {
    var i := s.writeClaims[t].tid;
    i < |s.threads| &&
    ((s.threads[i].PushClaimed? && s.threads[i].ticket == t) ||
     (s.threads[i].PushCopying? && s.threads[i].ticket == t))
  }

  /** Ticket `t` is claimed by a consumer that has not yet cleared the flag. */
  ghost predicate Reading(s: State, t: nat) {
    t < |s.readClaims| &&
    var i := s.readClaims[t].tid;
    i < |s.threads| && s.threads[i].PopCopying? && s.threads[i].ticket == t
  }

  /** The proviso for claiming ticket `t`: no uncleared consumer is on its slot. */
  ghost predicate SlotFree(s: State, t: nat)
    requires s.cap > 0
  {
    forall j :: 0 <= j < |s.threads| && s.threads[j].PopCopying? ==> At(s, s.threads[j].ticket) != At(s, t)
  }

  /** The move does not win a write claim, or wins one on a free slot. */
  ghost predicate Guarded(s: State, m: Move)
    requires WellFormed(s)
  {
    m.tid < |s.threads| && s.threads[m.tid].PushSawRead? && s.threads[m.tid].seen == s.w ==> SlotFree(s, s.w)
  }

  ghost predicate GuardedRun(s: State, moves: seq<Move>)
    requires WellFormed(s)
  {
    moves == [] ||
    (GuardedRun(s, moves[..|moves| - 1]) && Guarded(Run(s, moves[..|moves| - 1]), moves[|moves| - 1]))
  }

  /** An unconsumed ticket is either still being written, invisibly, or its slot
      holds the whole record and is visible. */
  ghost predicate CellOk(s: State, t: nat)
    requires WellFormed(s) && t < |s.writeClaims|
  {
    var p := At(s, t);
    if Writing(s, t) then
      var pc := s.threads[s.writeClaims[t].tid];
      && s.flags[p] == 0
      && (pc.PushCopying? ==>
            |Rec(s, t)| == s.width && pc.k <= s.width && s.mem[p][..pc.k] == Rec(s, t)[..pc.k])
    else s.flags[p] == 1 && s.mem[p] == Rec(s, t)
  }

  /** A slot being copied out is intact and nobody has claimed it again. */
  ghost predicate HoldOk(s: State, t: nat)
    requires WellFormed(s) && t < |s.writeClaims|
  {
    Reading(s, t) ==> s.w <= t + s.cap && s.flags[At(s, t)] == 1 && s.mem[At(s, t)] == Rec(s, t)
  }

  /** A slot open to the next lap is invisible, unless still being copied out. */
  ghost predicate FreeOk(s: State, t: nat)
    requires WellFormed(s)
  {
    s.flags[At(s, t)] == 0 || (t >= s.cap && Reading(s, t - s.cap))
  }

  ghost predicate PcData(s: State, pc: Pc) {
    match pc
    case PushClaimed(_, t) => s.r <= t
    case PushCopying(_, t, _) => s.r <= t
    case PopReady(u) => u < |s.writeClaims| && (u == s.r ==> !Writing(s, u))
    case PopCopying(t, buf) => t < |s.writeClaims| && |buf| <= |Rec(s, t)| && buf == Rec(s, t)[..|buf|]
    case PopCleared(t, buf) => t < |s.writeClaims| && buf == Rec(s, t)
    case _ => true
  }

  ghost predicate PcDataAt(s: State, i: nat)
    requires i < |s.threads|
  {
    PcData(s, s.threads[i])
  }

  /** Every record handed out is the one claimed under the same ticket. */
  ghost predicate Delivered(s: State) {
    forall k :: 0 <= k < |s.returned| ==>
      s.returned[k].ticket < |s.writeClaims| && s.returned[k].rec == Rec(s, s.returned[k].ticket)
  }

  ghost predicate SlotsOk(s: State)
    requires IndexInv(s)
  {
    && (forall t :: s.r <= t < s.w ==> CellOk(s, t))
    && (forall t :: 0 <= t < s.r ==> HoldOk(s, t))
    && (forall t :: s.w <= t < s.r + s.cap ==> FreeOk(s, t))
  }

  ghost predicate DataInv(s: State) {
    && IndexInv(s)
    && SlotsOk(s)
    && (forall i :: 0 <= i < |s.threads| ==> PcDataAt(s, i))
    && Delivered(s)
  }

  // ---- Moves that touch no slot and win no claim.

  /** Same memory, indexes and claims; the mover holds the same slot as before. */
  ghost predicate Quiet(s: State, t: State, i: nat)
    requires i < |s.threads| == |t.threads|
  {
    && t.cap == s.cap && t.width == s.width && t.mem == s.mem && t.flags == s.flags && t.w == s.w && t.r == s.r
    && t.writeClaims == s.writeClaims && t.readClaims == s.readClaims
    && t.threads == s.threads[i := t.threads[i]]
    && !s.threads[i].PushClaimed? && !s.threads[i].PushCopying?
    && !t.threads[i].PushClaimed? && !t.threads[i].PushCopying?
    && (s.threads[i].PopCopying? <==> t.threads[i].PopCopying?)
    && (s.threads[i].PopCopying? ==> t.threads[i].ticket == s.threads[i].ticket)
  }

  lemma QuietStep(s: State, t: State, i: nat)
    requires DataInv(s) && IndexInv(t) && i < |s.threads| == |t.threads| && Quiet(s, t, i)
    requires PcDataAt(t, i) && Delivered(t)
    ensures DataInv(t)
  {
    assert forall u :: 0 <= u < s.w ==> Writing(t, u) == Writing(s, u);
    assert forall u :: 0 <= u < s.w ==> Reading(t, u) == Reading(s, u);
    forall u | s.r <= u < s.w
      ensures CellOk(t, u)
    {
      assert CellOk(s, u);
    }
    forall u | 0 <= u < s.r
      ensures HoldOk(t, u)
    {
      assert HoldOk(s, u);
    }
    forall u | s.w <= u < s.r + s.cap
      ensures FreeOk(t, u)
    {
      assert FreeOk(s, u);
    }
    forall j | 0 <= j < |t.threads|
      ensures PcDataAt(t, j)
    {
      if j != i {
        assert PcDataAt(s, j);
      }
    }
  }

  // ---- Moves that write one slot.

  /** `t` differs from `s` in thread `i` and in the slot of `ticket` only. */
  ghost predicate TouchesSlot(s: State, t: State, i: nat, ticket: nat)
    requires WellFormed(s) && WellFormed(t) && i < |s.threads| == |t.threads|
  {
    && t.cap == s.cap && t.width == s.width && t.w == s.w && t.r == s.r
    && t.writeClaims == s.writeClaims && t.readClaims == s.readClaims && t.returned == s.returned
    && t.threads == s.threads[i := t.threads[i]]
    && (forall p :: 0 <= p < s.cap && p != At(s, ticket) ==> t.mem[p] == s.mem[p] && t.flags[p] == s.flags[p])
  }

  lemma ProducerTouchCells(s: State, t: State, i: nat, ticket: nat)
    requires DataInv(s) && IndexInv(t) && i < |s.threads| == |t.threads| && TouchesSlot(s, t, i, ticket)
    requires s.r <= ticket < s.w && Writing(s, ticket) && s.writeClaims[ticket].tid == i
    requires Writing(t, ticket) || t.threads[i].PushPublished?
    requires CellOk(t, ticket)
    ensures forall u :: s.r <= u < s.w ==> CellOk(t, u)
  {
    assert forall u :: 0 <= u < s.w && u != ticket ==> Writing(t, u) == Writing(s, u);
    forall u | s.r <= u < s.w
      ensures CellOk(t, u)
    {
      assert CellOk(s, u);
      if u != ticket && At(s, u) == At(s, ticket) { SlotInjective(u, ticket, s.cap); }
    }
  }

  lemma ProducerTouchOthers(s: State, t: State, i: nat, ticket: nat)
    requires DataInv(s) && IndexInv(t) && i < |s.threads| == |t.threads| && TouchesSlot(s, t, i, ticket)
    requires s.r <= ticket < s.w && Writing(s, ticket) && s.writeClaims[ticket].tid == i
    requires Writing(t, ticket) || t.threads[i].PushPublished?
    ensures forall u :: 0 <= u < s.r ==> HoldOk(t, u)
    ensures forall u :: s.w <= u < s.r + s.cap ==> FreeOk(t, u)
  {
    assert forall u :: 0 <= u < s.w ==> Reading(t, u) == Reading(s, u);
    forall u | 0 <= u < s.r
      ensures HoldOk(t, u)
    {
      assert HoldOk(s, u);
      if Reading(s, u) && At(s, u) == At(s, ticket) { SlotInjective(u, ticket, s.cap); }
    }
    forall u | s.w <= u < s.r + s.cap
      ensures FreeOk(t, u)
    {
      assert FreeOk(s, u);
      if At(s, u) == At(s, ticket) { SlotInjective(u, ticket, s.cap); }
    }
  }

  /** A producer's store leaves every other ticket's slot alone. */
  lemma ProducerTouch(s: State, t: State, i: nat, ticket: nat)
    requires DataInv(s) && IndexInv(t) && i < |s.threads| == |t.threads| && TouchesSlot(s, t, i, ticket)
    requires s.r <= ticket < s.w && Writing(s, ticket) && s.writeClaims[ticket].tid == i
    requires Writing(t, ticket) || t.threads[i].PushPublished?
    requires CellOk(t, ticket) && PcDataAt(t, i)
    ensures DataInv(t)
  {
    ProducerTouchCells(s, t, i, ticket);
    ProducerTouchOthers(s, t, i, ticket);
    assert forall u :: 0 <= u < s.w && u != ticket ==> Writing(t, u) == Writing(s, u);
    forall j | 0 <= j < |t.threads|
      ensures PcDataAt(t, j)
    {
      assert PcDataAt(s, j) && ThreadOk(s, j);
    }
  }

  /** `t` is `s` after thread `i` won the next write ticket. */
  ghost predicate WonWrite(s: State, t: State, i: nat)
    requires i < |s.threads|
  {
    && s.threads[i].PushSawRead? && s.threads[i].seen == s.w
    && t.cap == s.cap && t.width == s.width && t.mem == s.mem && t.flags == s.flags
    && t.w == s.w + 1 && t.r == s.r && t.readClaims == s.readClaims && t.returned == s.returned
    && t.writeClaims == s.writeClaims + [WriteClaim(i, s.w, s.threads[i].rec)]
    && t.threads == s.threads[i := PushClaimed(s.threads[i].rec, s.w)]
  }

  lemma FreeMeansOpen(s: State)
    requires DataInv(s) && s.w < s.r + s.cap && SlotFree(s, s.w)
    ensures s.flags[At(s, s.w)] == 0
    ensures forall u :: 0 <= u < s.r && Reading(s, u) ==> s.w < u + s.cap
  {
    assert FreeOk(s, s.w);
    forall u | 0 <= u < s.r && Reading(s, u)
      ensures s.w < u + s.cap
    {
      assert HoldOk(s, u);
      if u + s.cap == s.w { SlotPeriodic(u, s.cap); }
    }
  }

  /** A producer can see the proviso: with room in the ring, the slot it is about to claim
      is free exactly when its completion flag is clear. */
  lemma FlagIsGuard(s: State)
    requires DataInv(s) && s.w < s.r + s.cap
    ensures SlotFree(s, s.w) <==> s.flags[At(s, s.w)] == 0
  {
    if SlotFree(s, s.w) {
      FreeMeansOpen(s);
    } else {
      var j :| 0 <= j < |s.threads| && s.threads[j].PopCopying? && At(s, s.threads[j].ticket) == At(s, s.w);
      assert ThreadOk(s, j) && HoldOk(s, s.threads[j].ticket);
    }
  }

  /** And what it has seen stays so: a clear flag stays clear, whatever anyone else does
      under the proviso, until the ticket is claimed. */
  lemma ClearFlagStays(s: State, m: Move)
    requires DataInv(s) && s.w < s.r + s.cap && s.flags[At(s, s.w)] == 0 && Guarded(s, m)
    ensures var t := Step(s, m);
            DataInv(t) && (t.w == s.w ==> t.w < t.r + t.cap && t.flags[At(t, t.w)] == 0)
  {
    var t := Step(s, m);
    DataStep(s, m);
    IndexStep(s, m);
    FlagIsGuard(s);
    if t.w == s.w {
      FreeStays(s, m);
      FlagIsGuard(t);
    }
  }

  /** A thread that copies out after a move did so before, or has just won the oldest ticket. */
  lemma NewReader(s: State, m: Move, j: nat)
    requires WellFormed(s) && j < |s.threads| && Step(s, m).threads[j].PopCopying?
    ensures var ticket := Step(s, m).threads[j].ticket;
            if s.threads[j].PopCopying? then s.threads[j].ticket == ticket
            else s.threads[j] == PopReady(ticket) && ticket == s.r
  {
  }

  lemma FreeStays(s: State, m: Move)
    requires DataInv(s) && s.w < s.r + s.cap && SlotFree(s, s.w)
    ensures SlotFree(Step(s, m), s.w)
  {
    var t := Step(s, m);
    forall j | 0 <= j < |t.threads| && t.threads[j].PopCopying?
      ensures At(t, t.threads[j].ticket) != At(t, s.w)
    {
      NewReader(s, m, j);
      assert ThreadOk(s, j);
      if At(s, s.r) == At(s, s.w) {
        SlotInjective(s.r, s.w, s.cap);
      }
    }
  }

  lemma ClaimWriteSlots(s: State, t: State, i: nat)
    requires DataInv(s) && IndexInv(t) && i < |s.threads| && WonWrite(s, t, i)
    requires SlotFree(s, s.w)
    ensures SlotsOk(t)
  {
    assert ThreadOk(s, i);
    FreeMeansOpen(s);
    assert forall u :: 0 <= u < s.w ==> Writing(t, u) == Writing(s, u);
    assert forall u :: 0 <= u < s.w ==> Reading(t, u) == Reading(s, u);
    forall u | s.r <= u < t.w
      ensures CellOk(t, u)
    {
      if u < s.w {
        assert CellOk(s, u);
      }
    }
    forall u | 0 <= u < s.r
      ensures HoldOk(t, u)
    {
      assert HoldOk(s, u);
    }
    forall u | t.w <= u < s.r + s.cap
      ensures FreeOk(t, u)
    {
      assert FreeOk(s, u);
    }
  }

  /** Winning a write ticket on a free slot: it is invisible and nobody reads it. */
  lemma ClaimWrite(s: State, t: State, i: nat)
    requires DataInv(s) && IndexInv(t) && i < |s.threads| && WonWrite(s, t, i)
    requires SlotFree(s, s.w)
    ensures DataInv(t)
  {
    ClaimWriteSlots(s, t, i);
    assert ThreadOk(s, i);
    assert forall u :: 0 <= u < s.w ==> Writing(t, u) == Writing(s, u);
    forall j | 0 <= j < |t.threads|
      ensures PcDataAt(t, j)
    {
      assert PcDataAt(s, j);
    }
  }

  lemma CopyOrPublish(s: State, i: nat)
    requires DataInv(s) && i < |s.threads| && (s.threads[i].PushClaimed? || s.threads[i].PushCopying?)
    ensures DataInv(PushStep(s, i))
  {
    var t := PushStep(s, i);
    IndexStep(s, Move(i, Go));
    assert ThreadOk(s, i) && PcDataAt(s, i) && PcShape(s.threads[i], s.width);
    var ticket := s.threads[i].ticket;
    assert CellOk(s, ticket);
    if s.threads[i].PushCopying? && s.threads[i].k < s.width {
      var p, k := At(s, ticket), s.threads[i].k;
      assert t.mem[p][..k + 1] == s.mem[p][..k] + [Rec(s, ticket)[k]];
      assert Rec(s, ticket)[..k + 1] == Rec(s, ticket)[..k] + [Rec(s, ticket)[k]];
    } else if s.threads[i].PushCopying? {
      assert s.mem[At(s, ticket)][..s.width] == s.mem[At(s, ticket)];
      assert Rec(s, ticket)[..s.width] == Rec(s, ticket);
    }
    ProducerTouch(s, t, i, ticket);
  }

  /** `t` is `s` after thread `i` won the next read ticket. */
  ghost predicate WonRead(s: State, t: State, i: nat)
    requires i < |s.threads|
  {
    && s.threads[i].PopReady? && s.threads[i].seen == s.r
    && t.cap == s.cap && t.width == s.width && t.mem == s.mem && t.flags == s.flags
    && t.r == s.r + 1 && t.w == s.w && t.writeClaims == s.writeClaims && t.returned == s.returned
    && t.readClaims == s.readClaims + [ReadClaim(i, s.r)]
    && t.threads == s.threads[i := PopCopying(s.r, [])]
  }

  lemma ClaimReadSlots(s: State, t: State, i: nat)
    requires DataInv(s) && IndexInv(t) && i < |s.threads| && WonRead(s, t, i)
    ensures SlotsOk(t)
  {
    assert ThreadOk(s, i) && PcDataAt(s, i);
    assert CellOk(s, s.r);
    assert forall u :: 0 <= u < s.w ==> Writing(t, u) == Writing(s, u);
    assert forall u :: 0 <= u < s.w && u != s.r ==> Reading(t, u) == Reading(s, u);
    forall u | t.r <= u < s.w
      ensures CellOk(t, u)
    {
      assert CellOk(s, u);
    }
    forall u | 0 <= u < t.r
      ensures HoldOk(t, u)
    {
      assert u < s.r ==> HoldOk(s, u);
    }
    forall u | s.w <= u < t.r + s.cap
      ensures FreeOk(t, u)
    {
      assert u < s.r + s.cap ==> FreeOk(s, u);
    }
  }

  /** Winning a read ticket: its record was published, and stays put. */
  lemma ClaimRead(s: State, t: State, i: nat)
    requires DataInv(s) && IndexInv(t) && i < |s.threads| && WonRead(s, t, i)
    ensures DataInv(t)
  {
    ClaimReadSlots(s, t, i);
    assert ThreadOk(s, i) && PcDataAt(s, i);
    assert forall u :: 0 <= u < s.w ==> Writing(t, u) == Writing(s, u);
    forall j | 0 <= j < |t.threads|
      ensures PcDataAt(t, j)
    {
      assert PcDataAt(s, j) && ThreadOk(s, j);
    }
  }

  lemma ClearReadCells(s: State, t: State, i: nat, ticket: nat)
    requires DataInv(s) && IndexInv(t) && i < |s.threads| == |t.threads| && TouchesSlot(s, t, i, ticket)
    requires s.threads[i].PopCopying? && s.threads[i].ticket == ticket
    requires t.threads[i].PopCleared? && t.flags[At(s, ticket)] == 0
    ensures forall u :: s.r <= u < s.w ==> CellOk(t, u)
  {
    assert ThreadOk(s, i) && HoldOk(s, ticket);
    assert forall u :: 0 <= u < s.w ==> Writing(t, u) == Writing(s, u);
    forall u | s.r <= u < s.w
      ensures CellOk(t, u)
    {
      assert CellOk(s, u);
      if At(s, u) == At(s, ticket) { SlotInjective(u, ticket, s.cap); }
    }
  }

  lemma ClearReadHolds(s: State, t: State, i: nat, ticket: nat)
    requires DataInv(s) && IndexInv(t) && i < |s.threads| == |t.threads| && TouchesSlot(s, t, i, ticket)
    requires s.threads[i].PopCopying? && s.threads[i].ticket == ticket
    requires t.threads[i].PopCleared? && t.flags[At(s, ticket)] == 0
    ensures forall u :: 0 <= u < s.r ==> HoldOk(t, u)
  {
    assert ThreadOk(s, i) && HoldOk(s, ticket);
    assert forall u :: 0 <= u < s.w && u != ticket ==> Reading(t, u) == Reading(s, u);
    forall u | 0 <= u < s.r
      ensures HoldOk(t, u)
    {
      assert HoldOk(s, u);
      if u != ticket && Reading(s, u) && At(s, u) == At(s, ticket) { SlotInjective(u, ticket, s.cap); }
    }
  }

  lemma ClearReadFree(s: State, t: State, i: nat, ticket: nat)
    requires DataInv(s) && IndexInv(t) && i < |s.threads| == |t.threads| && TouchesSlot(s, t, i, ticket)
    requires s.threads[i].PopCopying? && s.threads[i].ticket == ticket
    requires t.threads[i].PopCleared? && t.flags[At(s, ticket)] == 0
    ensures forall u :: s.w <= u < s.r + s.cap ==> FreeOk(t, u)
  {
    assert ThreadOk(s, i);
    assert forall u :: 0 <= u < s.w && u != ticket ==> Reading(t, u) == Reading(s, u);
    SlotPeriodic(ticket, s.cap);
    forall u | s.w <= u < s.r + s.cap
      ensures FreeOk(t, u)
    {
      assert FreeOk(s, u);
    }
  }

  /** Clearing the flag opens the slot to the next lap. */
  lemma ClearRead(s: State, t: State, i: nat, ticket: nat)
    requires DataInv(s) && IndexInv(t) && i < |s.threads| == |t.threads| && TouchesSlot(s, t, i, ticket)
    requires s.threads[i].PopCopying? && s.threads[i].ticket == ticket
    requires t.threads[i].PopCleared? && t.flags[At(s, ticket)] == 0
    requires PcDataAt(t, i)
    ensures DataInv(t)
  {
    ClearReadCells(s, t, i, ticket);
    ClearReadHolds(s, t, i, ticket);
    ClearReadFree(s, t, i, ticket);
    assert forall u :: 0 <= u < s.w ==> Writing(t, u) == Writing(s, u);
    forall j | 0 <= j < |t.threads|
      ensures PcDataAt(t, j)
    {
      assert PcDataAt(s, j);
    }
  }

  /** One word read: still a prefix of the ticket's record. */
  lemma CopyWord(s: State, i: nat)
    requires DataInv(s) && i < |s.threads| && s.threads[i].PopCopying? && |s.threads[i].buf| < s.width
    ensures DataInv(PopStep(s, i))
  {
    IndexStep(s, Move(i, Go));
    assert ThreadOk(s, i) && PcDataAt(s, i);
    var ticket := s.threads[i].ticket;
    assert HoldOk(s, ticket) && Reading(s, ticket);
    QuietStep(s, PopStep(s, i), i);
  }

  /** Seeing the flag set means the ticket at the read index is published. */
  lemma SeeFlag(s: State, i: nat)
    requires DataInv(s) && i < |s.threads| && s.threads[i].PopSawWrite?
    ensures DataInv(PopStep(s, i))
  {
    IndexStep(s, Move(i, Go));
    assert ThreadOk(s, i);
    var u := s.threads[i].seen;
    assert u == s.r ==> CellOk(s, u);
    QuietStep(s, PopStep(s, i), i);
  }

  /** Whatever the memory holds, a start with clear flags has integrity. */
  lemma DataInit(s: State)
    requires AtStart(s) && Clear(s)
    ensures DataInv(s)
  {
    IndexInit(s);
  }

  lemma PushDataStep(s: State, i: nat)
    requires DataInv(s) && i < |s.threads| && Pushing(s.threads[i]) && IndexInv(PushStep(s, i))
    requires Guarded(s, Move(i, Go))
    ensures DataInv(PushStep(s, i))
  {
    var pc := s.threads[i];
    if pc.PushSawRead? && pc.seen == s.w {
      ClaimWrite(s, PushStep(s, i), i);
    } else if pc.PushClaimed? || pc.PushCopying? {
      CopyOrPublish(s, i);
    } else {
      QuietStep(s, PushStep(s, i), i);
    }
  }

  lemma PopDataStep(s: State, i: nat)
    requires DataInv(s) && i < |s.threads| && Popping(s.threads[i]) && IndexInv(PopStep(s, i))
    ensures DataInv(PopStep(s, i))
  {
    assert ThreadOk(s, i) && PcDataAt(s, i) && PcShape(s.threads[i], s.width);
    var pc := s.threads[i];
    if pc.PopSawWrite? {
      SeeFlag(s, i);
    } else if pc.PopReady? && pc.seen == s.r {
      ClaimRead(s, PopStep(s, i), i);
    } else if pc.PopCopying? && |pc.buf| < s.width {
      CopyWord(s, i);
    } else if pc.PopCopying? {
      assert pc.buf == Rec(s, pc.ticket);
      ClearRead(s, PopStep(s, i), i, pc.ticket);
    } else {
      QuietStep(s, PopStep(s, i), i);
    }
  }

  /** Every guarded move keeps record integrity. */
  lemma DataStep(s: State, m: Move)
    requires DataInv(s) && Guarded(s, m)
    ensures DataInv(Step(s, m))
  {
    if m.tid < |s.threads| {
      IndexStep(s, m);
      if Pushing(s.threads[m.tid]) {
        PushDataStep(s, m.tid);
      } else if Popping(s.threads[m.tid]) {
        PopDataStep(s, m.tid);
      } else {
        QuietStep(s, Step(s, m), m.tid);
      }
    }
  }

  lemma {:induction false} DataRun(s: State, moves: seq<Move>)
    requires DataInv(s) && GuardedRun(s, moves)
    ensures DataInv(Run(s, moves))
    decreases |moves|
  {
    if moves != [] {
      var front := moves[..|moves| - 1];
      DataRun(s, front);
      DataStep(Run(s, front), moves[|moves| - 1]);
    }
  }
}
