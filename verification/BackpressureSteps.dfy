/** The controller under concurrency. One lock guards every acquisition and every
    pressure update, but a release takes its unit off, and counts itself, before it
    takes the lock: those two steps fall anywhere in another caller's critical section.
    Callers give back only what they hold. */
module BackpressureSteps {

  import opened Options
  import opened Backpressure

  datatype Which = Connection | Worker | Request

  /** `held` units were granted and are not yet being given back; `releasing` releases
      have taken their unit off without having counted it yet. */
  datatype Account = Account(r: Resource, held: nat, releasing: nat)

  datatype Accounts = Accounts(connection: Account, worker: Account, request: Account)

  /** Where the holder of the lock stands. */
  datatype Section =
    | Free
    | Adding(which: Which)      // found room
    | Counting(which: Which)    // took a unit, not yet counted
    | Peaking(which: Which)     // about to compare with the peak
    | Reading(granted: Option<Which>, seen: seq<int>, decision: Option<Kind>)   // loading the counts
    | Scaling(kind: Kind)       // about to adjust the connection limit
    | ScalingWorkers

  datatype State = State(accounts: Accounts, section: Section, latency: int, maxLatency: int, pressure: real)

  /** What a scheduler can let happen next. A latency update carries the decision that
      the clock and the thresholds will lead to, whatever it is. */
  datatype Move =
    | Enter(which: Which)
    | Advance
    | TakeOff(which: Which)
    | CountOff(which: Which)
    | Refresh
    | Measure(latency: nat, decision: Option<Kind>)

  function At(accounts: Accounts, which: Which): Account {
    match which
    case Connection => accounts.connection
    case Worker => accounts.worker
    case Request => accounts.request
  }

  function Put(accounts: Accounts, which: Which, account: Account): Accounts {
    match which
    case Connection => accounts.(connection := account)
    case Worker => accounts.(worker := account)
    case Request => accounts.(request := account)
  }

  // ---- One account's steps.

  function Added(s: Account): Account {
    s.(r := s.r.(active := s.r.active + 1))
  }

  function Counted(s: Account): Account {
    s.(r := s.r.(entered := s.r.entered + 1))
  }

  function Peaked(s: Account): Account {
    s.(r := s.r.(peak := if s.r.active > s.r.peak then s.r.active else s.r.peak))
  }

  function Granted(s: Account): Account {
    s.(held := s.held + 1)
  }

  function TakenOff(s: Account): Account
    requires s.held > 0
  {
    Account(s.r.(active := s.r.active - 1), s.held - 1, s.releasing + 1)
  }

  function CountedOff(s: Account): Account
    requires s.releasing > 0
  {
    Account(s.r.(left := s.r.left + 1), s.held, s.releasing - 1)
  }

  function WithLimit(s: Account, limit: int): Account {
    s.(r := s.r.(limit := limit))
  }

  // ---- The holder's next step.

  /** The three counts are loaded one after the other. */
  function Source(i: nat): Which {
    if i == 0 then Connection else if i == 1 then Worker else Request
  }

  /** The controller's formula on loaded counts. The limits cannot change under the lock. */
  function Weighed(accounts: Accounts, seen: seq<int>, latency: int, maxLatency: int): real
    requires |seen| >= 3 && maxLatency > 0
  {
    PortionOf(seen[0], accounts.connection.r.limit) * 0.3
    + PortionOf(seen[1], accounts.worker.r.limit) * 0.2
    + PortionOf(seen[2], accounts.request.r.limit) * 0.3
    + LatencyPortion(latency, maxLatency) * 0.2
  }

  /** Limits are always positive. */
  function PortionOf(count: int, limit: int): real {
    if limit > 0 then Portion(count, limit) else 0.0
  }

  function Publish(s: State): State
    requires s.section.Reading? && |s.section.seen| >= 3 && s.maxLatency > 0
  {
    var pressure := Weighed(s.accounts, s.section.seen, s.latency, s.maxLatency);
    match s.section.granted
    case Some(which) =>
      s.(pressure := pressure, section := Free, accounts := Put(s.accounts, which, Granted(At(s.accounts, which))))
    case None =>
      s.(pressure := pressure,
         section := if s.section.decision == None then Free else Scaling(s.section.decision.value))
  }

  function AdvanceSection(s: State): State
    requires s.maxLatency > 0
  {
    match s.section
    case Free => s
    case Adding(w) => s.(section := Counting(w), accounts := Put(s.accounts, w, Added(At(s.accounts, w))))
    case Counting(w) => s.(section := Peaking(w), accounts := Put(s.accounts, w, Counted(At(s.accounts, w))))
    case Peaking(w) => s.(section := Reading(Some(w), [], None), accounts := Put(s.accounts, w, Peaked(At(s.accounts, w))))
    case Reading(granted, seen, decision) =>
      if |seen| < 3 then
        s.(section := Reading(granted, seen + [At(s.accounts, Source(|seen|)).r.active], decision))
      else
        Publish(s)
    case Scaling(kind) =>
      var c := s.accounts.connection;
      s.(section := if kind == ScaleUp then ScalingWorkers else Free,
         accounts := s.accounts.(connection := WithLimit(c, ConnectionLimit(c.r, Some(kind)))))
    case ScalingWorkers =>
      var w := s.accounts.worker;
      s.(section := Free, accounts := s.accounts.(worker := WithLimit(w, WorkerLimit(w.r, Some(ScaleUp)))))
  }

  /** A release's two steps without the lock. */
  function ReleaseFirst(s: State, w: Which): State {
    if At(s.accounts, w).held > 0 then s.(accounts := Put(s.accounts, w, TakenOff(At(s.accounts, w)))) else s
  }

  function ReleaseSecond(s: State, w: Which): State {
    if At(s.accounts, w).releasing > 0 then s.(accounts := Put(s.accounts, w, CountedOff(At(s.accounts, w)))) else s
  }

  function Step(s: State, m: Move, threshold: real): State
    requires s.maxLatency > 0
  {
    match m
    case Enter(w) =>
      var r := At(s.accounts, w).r;
      if s.section != Free || (w == Connection && s.pressure > threshold) || r.active >= r.limit then s
      else s.(section := Adding(w))
    case Advance => AdvanceSection(s)
    case TakeOff(w) => ReleaseFirst(s, w)
    case CountOff(w) => ReleaseSecond(s, w)
    case Refresh =>
      if s.section == Free then s.(section := Reading(None, [], None)) else s
    case Measure(latency, decision) =>
      if s.section == Free then s.(section := Reading(None, [], decision), latency := latency) else s
  }

  function Init(connections: int, workers: int, queue: int, maxLatency: int): State {
    State(Accounts(Account(Fresh(connections), 0, 0), Account(Fresh(workers), 0, 0), Account(Fresh(queue), 0, 0)),
          Free, 0, maxLatency, 0.0)
  }

  function Run(s: State, moves: seq<Move>, threshold: real): (t: State)
    requires s.maxLatency > 0
    ensures t.maxLatency == s.maxLatency
  {
    if moves == [] then s else Step(Run(s, moves[..|moves| - 1], threshold), moves[|moves| - 1], threshold)
  }

  // ---- The invariant.

  /** The lock holder has taken a unit of `which` and not yet handed it out. */
  predicate InHand(section: Section, which: Which) {
    section == Counting(which) || section == Peaking(which) || (section.Reading? && section.granted == Some(which))
  }

  ghost predicate AccountInv(s: Account, section: Section, which: Which) {
    && s.r.limit > 0
    && s.r.active <= s.r.limit
    && (section == Adding(which) ==> s.r.active < s.r.limit)
    && s.r.active == s.held + (if InHand(section, which) then 1 else 0)
    && s.r.entered - s.r.left == s.r.active + s.releasing - (if section == Counting(which) then 1 else 0)
    && (s.r.active <= s.r.peak || section == Counting(which) || section == Peaking(which))
  }

  predicate Unit(v: real) {
    0.0 <= v <= 1.0
  }

  ghost predicate SeenInv(section: Section, accounts: Accounts) {
    section.Reading? ==>
      (&& |section.seen| <= 3
       && (section.decision == None || section.granted == None)
       && forall i :: 0 <= i < |section.seen| ==> 0 <= section.seen[i] <= At(accounts, Source(i)).r.limit)
  }

  ghost predicate Inv(s: State) {
    && s.maxLatency > 0 && s.latency >= 0
    && Unit(s.pressure)
    && SeenInv(s.section, s.accounts)
    && AccountInv(s.accounts.connection, s.section, Connection)
    && AccountInv(s.accounts.worker, s.section, Worker)
    && AccountInv(s.accounts.request, s.section, Request)
  }

  /** Only the account of `w` and the section change. */
  ghost predicate Elsewhere(s: State, t: State, w: Which, account: Account) {
    t == s.(section := t.section, accounts := Put(s.accounts, w, account))
  }

  lemma OneAccount(s: State, t: State, w: Which, account: Account)
    requires Inv(s) && Elsewhere(s, t, w, account) && !t.section.Reading?
    requires AccountInv(account, t.section, w)
    requires forall k :: k != w ==> !InHand(s.section, k) && !InHand(t.section, k) && t.section != Adding(k)
    requires forall k :: k != w ==> s.section != Counting(k) && s.section != Peaking(k)
    ensures Inv(t)
  {
  }

  lemma AddStep(s: State)
    requires Inv(s) && s.section.Adding?
    ensures Inv(AdvanceSection(s))
  {
    var w := s.section.which;
    OneAccount(s, AdvanceSection(s), w, Added(At(s.accounts, w)));
  }

  lemma CountStep(s: State)
    requires Inv(s) && s.section.Counting?
    ensures Inv(AdvanceSection(s))
  {
    var w := s.section.which;
    OneAccount(s, AdvanceSection(s), w, Counted(At(s.accounts, w)));
  }

  lemma PeakStep(s: State)
    requires Inv(s) && s.section.Peaking?
    ensures Inv(AdvanceSection(s))
  {
  }

  lemma HolderStep(s: State)
    requires Inv(s) && (s.section.Adding? || s.section.Counting? || s.section.Peaking?)
    ensures Inv(AdvanceSection(s))
  {
    match s.section
    case Adding(_) => AddStep(s);
    case Counting(_) => CountStep(s);
    case Peaking(_) => PeakStep(s);
  }

  lemma LoadStep(s: State)
    requires Inv(s) && s.section.Reading? && |s.section.seen| < 3
    ensures Inv(AdvanceSection(s))
  {
  }

  lemma PublishStep(s: State)
    requires Inv(s) && s.section.Reading? && |s.section.seen| == 3
    ensures Inv(AdvanceSection(s))
  {
    var seen := s.section.seen;
    assert 0 <= seen[0] <= At(s.accounts, Source(0)).r.limit && 0 <= seen[1] <= At(s.accounts, Source(1)).r.limit;
    assert 0 <= seen[2] <= At(s.accounts, Source(2)).r.limit;
    PortionRange(seen[0], s.accounts.connection.r.limit);
    PortionRange(seen[1], s.accounts.worker.r.limit);
    PortionRange(seen[2], s.accounts.request.r.limit);
    PortionRange(s.latency, s.maxLatency);
    assert Unit(Weighed(s.accounts, seen, s.latency, s.maxLatency));
  }

  lemma ScaleStep(s: State)
    requires Inv(s) && (s.section.Scaling? || s.section.ScalingWorkers?)
    ensures Inv(AdvanceSection(s))
  {
    var c, w := s.accounts.connection.r, s.accounts.worker.r;
    GrowsExactly(c.limit);
    GrowsExactly(w.limit);
    if c.active < LowMark(c.limit) && c.limit > 10 {
      ShrinkCovers(c.limit, c.active);
    }
  }

  lemma ReleaseFirstKeeps(s: State, w: Which)
    requires Inv(s)
    ensures Inv(ReleaseFirst(s, w))
  {
  }

  lemma ReleaseSecondKeeps(s: State, w: Which)
    requires Inv(s)
    ensures Inv(ReleaseSecond(s, w))
  {
  }

  lemma StepKeeps(s: State, m: Move, threshold: real)
    requires Inv(s)
    ensures Inv(Step(s, m, threshold))
  {
    match m
    case Enter(_) =>
    case Advance =>
      if s.section.Reading? {
        if |s.section.seen| < 3 { LoadStep(s); } else { PublishStep(s); }
      } else if s.section.Scaling? || s.section.ScalingWorkers? {
        ScaleStep(s);
      } else if !s.section.Free? {
        HolderStep(s);
      }
    case TakeOff(w) => ReleaseFirstKeeps(s, w);
    case CountOff(w) => ReleaseSecondKeeps(s, w);
    case Refresh =>
    case Measure(_, _) =>
  }

  /** In every interleaving, whatever is scaled when: nothing exceeds its limit, nothing
      goes below zero, pressure stays within [0, 1], and the books balance up to the
      releases and the one acquisition under way. */
  lemma {:induction false} EveryInterleaving(s: State, moves: seq<Move>, threshold: real)
    requires Inv(s)
    ensures Inv(Run(s, moves, threshold))
  {
    if moves != [] {
      EveryInterleaving(s, moves[..|moves| - 1], threshold);
      StepKeeps(Run(s, moves[..|moves| - 1], threshold), moves[|moves| - 1], threshold);
    }
  }

  ghost predicate AtRest(s: State) {
    s.section == Free && s.accounts.connection.releasing == s.accounts.worker.releasing == s.accounts.request.releasing == 0
  }

  /** Whenever no call is under way, all taken less all given back is what callers hold. */
  lemma BalancedAtRest(connections: int, workers: int, queue: int, maxLatency: int,
                       moves: seq<Move>, threshold: real, which: Which)
    requires connections > 0 && workers > 0 && queue > 0 && maxLatency > 0
    requires AtRest(Run(Init(connections, workers, queue, maxLatency), moves, threshold))
    ensures var account := At(Run(Init(connections, workers, queue, maxLatency), moves, threshold).accounts, which);
            && account.r.entered - account.r.left == account.r.active == account.held
            && 0 <= account.r.active <= account.r.limit
            && account.r.active <= account.r.peak
  {
    EveryInterleaving(Init(connections, workers, queue, maxLatency), moves, threshold);
  }
}
