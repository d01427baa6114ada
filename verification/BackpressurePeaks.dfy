/** What an undisturbed acquisition does, and how a disturbed one misses the peak. */
module BackpressurePeaks {

  import opened Options
  import opened Backpressure
  import opened BackpressureSteps

  lemma {:induction false} RunConcat(s: State, first: seq<Move>, second: seq<Move>, threshold: real)
    requires s.maxLatency > 0
    ensures Run(s, first + second, threshold) == Run(Run(s, first, threshold), second, threshold)
  {
    if second == [] {
      assert first + second == first;
    } else {
      var init := second[..|second| - 1];
      RunConcat(s, first, init, threshold);
      assert (first + second)[..|first + second| - 1] == first + init;
    }
  }

  lemma RunNext(s: State, moves: seq<Move>, m: Move, threshold: real)
    requires s.maxLatency > 0
    ensures Run(s, moves + [m], threshold) == Step(Run(s, moves, threshold), m, threshold)
  {
    assert (moves + [m])[..|moves|] == moves;
  }

  lemma RunAdvances(s: State, n: nat, threshold: real)
    requires s.maxLatency > 0
    ensures Run(s, seq(n, _ => Advance), threshold) == Advances(s, n)
  {
    if n > 0 {
      RunAdvances(s, n - 1, threshold);
      assert seq(n, _ => Advance)[..n - 1] == seq(n - 1, _ => Advance);
    }
  }

  // ---- What others can do to a peak.

  /** How many of the moves take a unit of `w` off. */
  function Taken(s: State, moves: seq<Move>, w: Which, threshold: real): nat
    requires s.maxLatency > 0
  {
    if moves == [] then 0
    else
      var front := moves[..|moves| - 1];
      Taken(s, front, w, threshold)
      + (if moves[|moves| - 1] == TakeOff(w) && At(Run(s, front, threshold).accounts, w).held > 0 then 1 else 0)
  }

  /** The same section and peak, and as many units fewer as were taken off. */
  ghost predicate Fewer(s: State, t: State, w: Which, taken: nat) {
    var before, after := At(s.accounts, w), At(t.accounts, w);
    && t.section == s.section
    && after.r.active == before.r.active - taken && after.held == before.held - taken
    && after.r.peak == before.r.peak
  }

  lemma OthersStep(s: State, m: Move, w: Which, threshold: real)
    requires s.maxLatency > 0 && s.section != Free && m != Advance
    ensures Fewer(s, Step(s, m, threshold), w, if m == TakeOff(w) && At(s.accounts, w).held > 0 then 1 else 0)
  {
  }

  /** While the lock is held, others can only take units off, and do so exactly if they
      try while there is one to give back. */
  lemma {:induction false} OthersTake(s: State, moves: seq<Move>, w: Which, threshold: real)
    requires s.maxLatency > 0 && s.section != Free && Advance !in moves
    ensures Fewer(s, Run(s, moves, threshold), w, Taken(s, moves, w, threshold))
    ensures Taken(s, moves, w, threshold) > 0 <==> TakeOff(w) in moves && At(s.accounts, w).held > 0
    decreases |moves|
  {
    if moves != [] {
      var front, last := moves[..|moves| - 1], moves[|moves| - 1];
      assert moves == front + [last];
      OthersTake(s, front, w, threshold);
      OthersStep(Run(s, front, threshold), last, w, threshold);
    }
  }

  /** The acquirer is about to compare with the peak, and its count is a new one. */
  ghost predicate NewPeak(s: State, w: Which) {
    var r := At(s.accounts, w).r;
    s.maxLatency > 0 && (s.section == Peaking(w) || s.section == Counting(w)) && r.active > r.peak
  }

  lemma PeakStepRecords(s: State, w: Which, count: int, peak: int)
    requires s.maxLatency > 0 && s.section == Peaking(w) && At(s.accounts, w).r.peak == peak < count
    requires At(s.accounts, w).r.active <= count
    ensures At(AdvanceSection(s).accounts, w).r.peak == count <==> At(s.accounts, w).r.active == count
  {
  }

  /** The new count is recorded exactly if no other caller gives one back before. */
  lemma PeakExactly(s: State, moves: seq<Move>, w: Which, threshold: real)
    requires NewPeak(s, w) && s.section == Peaking(w) && Advance !in moves
    ensures At(Run(s, moves + [Advance], threshold).accounts, w).r.peak == At(s.accounts, w).r.active
            <==> !(TakeOff(w) in moves && At(s.accounts, w).held > 0)
  {
    OthersTake(s, moves, w, threshold);
    RunNext(s, moves, Advance, threshold);
    PeakStepRecords(Run(s, moves, threshold), w, At(s.accounts, w).r.active, At(s.accounts, w).r.peak);
  }

  lemma CountStepKeeps(s: State, w: Which)
    requires s.maxLatency > 0 && s.section == Counting(w)
    ensures var t := AdvanceSection(s);
            && t.section == Peaking(w) && t.maxLatency == s.maxLatency
            && At(t.accounts, w).held == At(s.accounts, w).held
            && At(t.accounts, w).r.active == At(s.accounts, w).r.active
            && At(t.accounts, w).r.peak == At(s.accounts, w).r.peak
  {
  }

  /** The same from the moment the unit is taken: others may move before the count is
      recorded and after. */
  lemma PeakFromCountingExactly(s: State, first: seq<Move>, second: seq<Move>, w: Which, threshold: real)
    requires NewPeak(s, w) && s.section == Counting(w) && Advance !in first && Advance !in second
    ensures At(Run(s, first + [Advance] + second + [Advance], threshold).accounts, w).r.peak == At(s.accounts, w).r.active
            <==> !(TakeOff(w) in first + second && At(s.accounts, w).held > 0)
  {
    OthersTake(s, first, w, threshold);
    var s1 := Run(s, first, threshold);
    RunNext(s, first, Advance, threshold);
    CountStepKeeps(s1, w);
    var s2 := AdvanceSection(s1);
    OthersTake(s2, second, w, threshold);
    var s3 := Run(s2, second, threshold);
    RunConcat(s, first + [Advance], second, threshold);
    RunNext(s, first + [Advance] + second, Advance, threshold);
    PeakStepRecords(s3, w, At(s.accounts, w).r.active, At(s.accounts, w).r.peak);
  }

  // ---- What an undisturbed acquirer does.

  function Advances(s: State, n: nat): (t: State)
    requires s.maxLatency > 0
    ensures t.maxLatency == s.maxLatency
  {
    if n == 0 then s else AdvanceSection(Advances(s, n - 1))
  }

  /** The published pressure is the controller's formula on these resources. */
  ghost predicate Published(t: State, connections: Resource, workers: Resource, queue: Resource) {
    && connections.limit > 0 && workers.limit > 0 && queue.limit > 0 && t.maxLatency > 0
    && t.pressure == Pressure(connections, workers, queue, t.latency, t.maxLatency)
  }

  /** One of the three readings. */
  lemma ReadNext(s: State, seen: seq<int>)
    requires s.maxLatency > 0 && s.section.Reading? && |s.section.seen| < 3
    requires seen == s.section.seen + [At(s.accounts, Source(|s.section.seen|)).r.active]
    ensures AdvanceSection(s) == s.(section := s.section.(seen := seen))
  {
  }

  lemma ThreeReadings(s: State)
    requires s.maxLatency > 0 && s.section.Reading? && s.section.seen == []
    ensures Advances(s, 3) == s.(section := s.section.(seen :=
              [s.accounts.connection.r.active, s.accounts.worker.r.active, s.accounts.request.r.active]))
  {
    var c, w, q := s.accounts.connection.r.active, s.accounts.worker.r.active, s.accounts.request.r.active;
    var s1 := s.(section := s.section.(seen := [c]));
    var s2 := s.(section := s.section.(seen := [c, w]));
    ReadNext(s, [c]);
    ReadNext(s1, [c, w]);
    ReadNext(s2, [c, w, q]);
    assert Advances(s, 0) == s && Advances(s, 1) == s1 && Advances(s, 2) == s2;
  }

  /** A pressure update nobody disturbs publishes the controller's formula. */
  lemma UndisturbedUpdate(s: State)
    requires Inv(s) && s.section.Reading? && s.section.seen == [] && s.section.decision == None
    ensures var t := Advances(s, 4);
            && t.section == Free && t.latency == s.latency
            && Published(t, s.accounts.connection.r, s.accounts.worker.r, s.accounts.request.r)
            && t.accounts == (if s.section.granted == None then s.accounts
                           else Put(s.accounts, s.section.granted.value, Granted(At(s.accounts, s.section.granted.value))))
  {
    ThreeReadings(s);
    assert Advances(s, 4) == Publish(Advances(s, 3));
  }

  lemma {:induction false} AdvancesAgain(s: State, n: nat, m: nat)
    requires s.maxLatency > 0
    ensures Advances(s, n + m) == Advances(Advances(s, n), m)
  {
    if m > 0 {
      AdvancesAgain(s, n, m - 1);
    }
  }

  /** From taking the unit to handing it out, undisturbed. */
  lemma FinishAcquire(s: State)
    requires Inv(s) && s.section == Counting(Connection)
    ensures var c, t := Peaked(Counted(s.accounts.connection)), Advances(s, 6);
            && t.section == Free
            && t.accounts == s.accounts.(connection := Granted(c))
            && t.latency == s.latency
            && Published(t, c.r, s.accounts.worker.r, s.accounts.request.r)
  {
    HolderStep(s);
    var s1 := AdvanceSection(s);
    HolderStep(s1);
    var s2 := AdvanceSection(s1);
    assert s2 == s.(section := Reading(Some(Connection), [], None),
                    accounts := s.accounts.(connection := Peaked(Counted(s.accounts.connection))));
    assert Advances(s, 0) == s && Advances(s, 1) == s1 && Advances(s, 2) == s2;
    AdvancesAgain(s, 2, 4);
    UndisturbedUpdate(s2);
  }

  lemma AcquireEnds(s: State)
    requires Inv(s) && s.section == Counting(Connection)
    ensures var t := Advances(s, 6);
            && t.section == Free
            && t.accounts == s.accounts.(connection := Granted(Peaked(Counted(s.accounts.connection))))
  {
    FinishAcquire(s);
  }

  lemma IdlePressure(workers: Resource, queue: Resource, maxLatency: int)
    requires Bounded(workers) && Bounded(queue) && workers.active == queue.active == 0 && maxLatency > 0
    ensures Pressure(Resource(1, 2, 1, 0, 1), workers, queue, 0, maxLatency) == 0.15
  {
    PortionRange(0, workers.limit);
    PortionRange(0, queue.limit);
    PortionRange(0, maxLatency);
  }

  /** The first of the two acquisitions. */
  lemma AcquireOne(s: State, threshold: real)
    requires Inv(s) && threshold > 0.15
    requires s.latency == 0 && s.pressure == 0.0 && s.section == Free
    requires s.accounts.connection == Account(Fresh(2), 0, 0)
    requires s.accounts.worker == Account(Fresh(s.accounts.worker.r.limit), 0, 0)
    requires s.accounts.request == Account(Fresh(s.accounts.request.r.limit), 0, 0)
    ensures var t := Advances(Step(s, Enter(Connection), threshold), 7);
            && t.section == Free && t.pressure <= threshold
            && t.accounts == s.accounts.(connection := Account(Resource(1, 2, 1, 0, 1), 1, 0))
  {
    var s1 := Step(s, Enter(Connection), threshold);
    assert s1 == s.(section := Adding(Connection));
    HolderStep(s1);
    var s2 := AdvanceSection(s1);
    FinishAcquire(s2);
    assert Advances(s1, 0) == s1 && Advances(s1, 1) == s2;
    AdvancesAgain(s1, 1, 6);
    IdlePressure(s.accounts.worker.r, s.accounts.request.r, s.maxLatency);
  }

  /** The release in between. */
  lemma ReleaseOne(s: State)
    requires Inv(s) && s.accounts.connection == Account(Resource(2, 2, 1, 0, 1), 1, 0)
    ensures var t := ReleaseSecond(ReleaseFirst(s, Connection), Connection);
            Inv(t) && t == s.(accounts := s.accounts.(connection := Account(Resource(1, 2, 1, 1, 1), 0, 0)))
  {
    ReleaseFirstKeeps(s, Connection);
    ReleaseSecondKeeps(ReleaseFirst(s, Connection), Connection);
  }

  /** A peak can be missed, when a release falls between the acquirer's own two steps:
      two connections are held at once, and the recorded peak is one. */
  lemma PeakCanMiss(workers: int, queue: int, maxLatency: int, threshold: real)
    returns (before: seq<Move>, after: seq<Move>)
    requires workers > 0 && queue > 0 && maxLatency > 0 && threshold > 0.15
    ensures var s := Init(2, workers, queue, maxLatency);
            && Run(s, before, threshold).accounts.connection.r.active == 2
            && AtRest(Run(s, before + after, threshold))
            && Run(s, before + after, threshold).accounts.connection.r.peak == 1
  {
    var s := Init(2, workers, queue, maxLatency);
    var acquire := [Enter(Connection)] + seq(7, _ => Advance);
    before := acquire + [Enter(Connection)] + [Advance];
    after := [TakeOff(Connection)] + [CountOff(Connection)] + seq(6, _ => Advance);
    var s1 := FirstHalf(s, threshold);
    RunNext(s, acquire, Enter(Connection), threshold);
    RunNext(s, acquire + [Enter(Connection)], Advance, threshold);
    EveryInterleaving(s, before, threshold);
    var s2 := Run(s, before, threshold);
    ReleaseOne(s2);
    AcquireEnds(ReleaseSecond(ReleaseFirst(s2, Connection), Connection));
    SecondHalf(s2, threshold);
    RunConcat(s, before, after, threshold);
  }

  lemma FirstHalf(s: State, threshold: real) returns (t: State)
    requires Inv(s) && threshold > 0.15
    requires s.latency == 0 && s.pressure == 0.0 && s.section == Free
    requires s.accounts.connection == Account(Fresh(2), 0, 0)
    requires s.accounts.worker == Account(Fresh(s.accounts.worker.r.limit), 0, 0)
    requires s.accounts.request == Account(Fresh(s.accounts.request.r.limit), 0, 0)
    ensures t == Run(s, [Enter(Connection)] + seq(7, _ => Advance), threshold)
    ensures Inv(t) && t.section == Free && t.pressure <= threshold
    ensures t.accounts == s.accounts.(connection := Account(Resource(1, 2, 1, 0, 1), 1, 0))
  {
    RunConcat(s, [Enter(Connection)], seq(7, _ => Advance), threshold);
    RunNext(s, [], Enter(Connection), threshold);
    assert [] + [Enter(Connection)] == [Enter(Connection)];
    RunAdvances(Step(s, Enter(Connection), threshold), 7, threshold);
    AcquireOne(s, threshold);
    EveryInterleaving(s, [Enter(Connection)] + seq(7, _ => Advance), threshold);
    t := Run(s, [Enter(Connection)] + seq(7, _ => Advance), threshold);
  }

  lemma SecondHalf(s: State, threshold: real)
    requires s.maxLatency > 0
    ensures Run(s, [TakeOff(Connection)] + [CountOff(Connection)] + seq(6, _ => Advance), threshold)
            == Advances(ReleaseSecond(ReleaseFirst(s, Connection), Connection), 6)
  {
    RunConcat(s, [TakeOff(Connection)] + [CountOff(Connection)], seq(6, _ => Advance), threshold);
    RunNext(s, [], TakeOff(Connection), threshold);
    assert [] + [TakeOff(Connection)] == [TakeOff(Connection)];
    RunNext(s, [TakeOff(Connection)], CountOff(Connection), threshold);
    RunAdvances(Step(Step(s, TakeOff(Connection), threshold), CountOff(Connection), threshold), 6, threshold);
  }
}
