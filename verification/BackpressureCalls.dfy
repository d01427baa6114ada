/** A call of the step model that nobody disturbs does what the controller's method does. */
module BackpressureCalls {

  import opened Options
  import opened Backpressure
  import opened BackpressureSteps
  import opened BackpressurePeaks

  /** The pressure is the controller's formula on the counts as they are. */
  ghost predicate UpToDate(s: State) {
    Published(s, s.accounts.connection.r, s.accounts.worker.r, s.accounts.request.r)
  }

  /** The lock is taken exactly if it is free and there is room, and, for a connection,
      the pressure is not above the threshold. Otherwise nothing changes. */
  lemma EntersExactly(s: State, w: Which, threshold: real)
    requires s.maxLatency > 0
    ensures var t := Step(s, Enter(w), threshold);
            var admitted := At(s.accounts, w).r.active < At(s.accounts, w).r.limit
                            && (w == Connection ==> s.pressure <= threshold);
            && (s.section == Free ==> (t.section == Adding(w) <==> admitted))
            && t == (if s.section == Free && admitted then s.(section := Adding(w)) else s)
  {
  }

  /** What the three steps of an acquisition do to its account. */
  function Acquired(a: Account): Account {
    a.(r := Entered(a.r))
  }

  lemma ThreeSteps(s: State, w: Which)
    requires s.maxLatency > 0 && s.section == Adding(w)
    ensures Advances(s, 3) ==
            s.(section := Reading(Some(w), [], None), accounts := Put(s.accounts, w, Acquired(At(s.accounts, w))))
  {
    var a := At(s.accounts, w);
    var s1 := s.(section := Counting(w), accounts := Put(s.accounts, w, Added(a)));
    var s2 := s.(section := Peaking(w), accounts := Put(s.accounts, w, Counted(Added(a))));
    assert Advances(s, 0) == s && Advances(s, 1) == s1 && Advances(s, 2) == s2;
  }

  /** An admitted acquisition, undisturbed: one unit more is held and counted, the peak
      follows, and the pressure is brought up to date. */
  lemma AcquireAlone(s: State, w: Which, threshold: real)
    requires Inv(s) && s.section == Free && Step(s, Enter(w), threshold) != s
    ensures var t, a := Advances(Step(s, Enter(w), threshold), 7), At(s.accounts, w);
            && t.section == Free && t.latency == s.latency && UpToDate(t)
            && t.accounts == Put(s.accounts, w, Account(Entered(a.r), a.held + 1, a.releasing))
  {
    var s1 := Step(s, Enter(w), threshold);
    StepKeeps(s, Enter(w), threshold);
    ThreeSteps(s1, w);
    AdvanceKeeps(s1, 3);
    var s2 := Advances(s1, 3);
    UndisturbedUpdate(s2);
    AdvancesAgain(s1, 3, 4);
    SameCounts(s2, Advances(s2, 4), w);
  }

  lemma {:induction false} AdvanceKeeps(s: State, n: nat)
    requires Inv(s)
    ensures Inv(Advances(s, n))
  {
    if n > 0 {
      AdvanceKeeps(s, n - 1);
      StepKeeps(Advances(s, n - 1), Advance, 0.0);
    }
  }

  /** Handing the unit out changes no count the formula looks at. */
  lemma SameCounts(s: State, t: State, w: Which)
    requires Published(t, s.accounts.connection.r, s.accounts.worker.r, s.accounts.request.r)
    requires t.accounts == Put(s.accounts, w, Granted(At(s.accounts, w)))
    ensures UpToDate(t)
  {
  }

  /** A release, undisturbed: one unit less is held, counted as given back, and the
      pressure is brought up to date. */
  lemma ReleaseAlone(s: State, w: Which, threshold: real)
    requires Inv(s) && s.section == Free && At(s.accounts, w).held > 0
    ensures var taken := Step(Step(s, TakeOff(w), threshold), CountOff(w), threshold);
            var t, a := Advances(Step(taken, Refresh, threshold), 4), At(s.accounts, w);
            && t.section == Free && t.latency == s.latency && UpToDate(t)
            && t.accounts == Put(s.accounts, w, Account(Left(a.r), a.held - 1, a.releasing))
  {
    var s1 := Step(s, TakeOff(w), threshold);
    StepKeeps(s, TakeOff(w), threshold);
    var s2 := Step(s1, CountOff(w), threshold);
    StepKeeps(s1, CountOff(w), threshold);
    var s3 := Step(s2, Refresh, threshold);
    StepKeeps(s2, Refresh, threshold);
    UndisturbedUpdate(s3);
  }

  /** A latency update, undisturbed: it publishes the pressure for the new latency, and
      then adjusts the limits as decided. */
  lemma MeasureAlone(s: State, latency: nat, decision: Option<Kind>, threshold: real)
    requires Inv(s) && s.section == Free
    ensures var start := Step(s, Measure(latency, decision), threshold);
            var n := match decision case None => 4 case Some(ScaleUp) => 6 case Some(ScaleDown) => 5;
            var t := Advances(start, n);
            && t.section == Free && t.latency == latency
            && Published(t, s.accounts.connection.r, s.accounts.worker.r, s.accounts.request.r)
            && t.accounts == s.accounts.(
                 connection := WithLimit(s.accounts.connection, ConnectionLimit(s.accounts.connection.r, decision)),
                 worker := WithLimit(s.accounts.worker, WorkerLimit(s.accounts.worker.r, decision)))
  {
    var start := Step(s, Measure(latency, decision), threshold);
    StepKeeps(s, Measure(latency, decision), threshold);
    ThreeReadings(start);
    var read := Advances(start, 3);
    var published := Publish(read);
    assert Advances(start, 4) == published;
    match decision
    case None =>
    case Some(ScaleUp) =>
      assert Advances(start, 5) == AdvanceSection(published);
      assert Advances(start, 6) == AdvanceSection(AdvanceSection(published));
    case Some(ScaleDown) =>
      assert Advances(start, 5) == AdvanceSection(published);
  }
}
