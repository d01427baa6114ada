/** How many half-open requests the resilience breaker can have under way, in runs whose
    clock never goes back and that nobody resets by hand. */
module ResilienceProbes {
  import opened Breakers
  import opened ResilienceBreaker

  /** `loose` operations still run although their calls have given up on them. */
  datatype World = World(s: State, loose: nat)

  datatype Action = Act(tid: nat, now: int, end: Ending) | LooseEnds

  /** How a call that is under way ends; a call that gives up has failed. */
  datatype Ending = Succeeds | Fails | GivesUp

  predicate Busy(s: State, i: nat) {
    i < |s.busy| && s.busy[i]
  }

  function Do(w: World, a: Action): World {
    match a
    case Act(tid, now, end) =>
      World(Step(w.s, Move(tid, now, end == Succeeds)),
            w.loose + (if end == GivesUp && Busy(w.s, tid) then 1 else 0))
    case LooseEnds => if w.loose > 0 then w.(loose := w.loose - 1) else w
  }

  function Play(w: World, actions: seq<Action>): World {
    if actions == [] then w else Do(Play(w, actions[..|actions| - 1]), actions[|actions| - 1])
  }

  function New(cfg: Config, start: int, n: nat): World {
    World(State(cfg, Fresh(start), seq(n, _ => false)), 0)
  }

  function CountBusy(busy: seq<bool>): nat {
    if busy == [] then 0 else CountBusy(busy[1..]) + (if busy[0] then 1 else 0)
  }

  /** The clock never goes back. */
  predicate Ordered(actions: seq<Action>) {
    forall j, k :: 0 <= j < k < |actions| && actions[j].Act? && actions[k].Act? ==> actions[j].now <= actions[k].now
  }

  predicate Within(actions: seq<Action>, from: int, to: int) {
    forall k :: 0 <= k < |actions| && actions[k].Act? ==> from <= actions[k].now <= to
  }

  predicate Since(actions: seq<Action>, from: int) {
    forall k :: 0 <= k < |actions| && actions[k].Act? ==> from <= actions[k].now
  }

  /** No call gives up on its operation. */
  predicate Timely(actions: seq<Action>) {
    forall k :: 0 <= k < |actions| && actions[k].Act? ==> actions[k].end != GivesUp
  }

  /** At most `halfOpenLimit` calls under way in HalfOpen. */
  predicate FewCalls(w: World) {
    w.s.core.phase == HalfOpen ==> CountBusy(w.s.busy) <= w.s.cfg.halfOpenLimit
  }

  /** At most `halfOpenLimit` operations running in HalfOpen. */
  predicate FewOperations(w: World) {
    w.s.core.phase == HalfOpen ==> CountBusy(w.s.busy) + w.loose <= w.s.cfg.halfOpenLimit
  }

  ghost predicate CallsBounded(cfg: Config, start: int, n: nat) {
    forall actions | Ordered(actions) && Since(actions, start) :: FewCalls(Play(New(cfg, start, n), actions))
  }

  ghost predicate OperationsBounded(cfg: Config, start: int, n: nat) {
    forall actions | Ordered(actions) && Since(actions, start) :: FewOperations(Play(New(cfg, start, n), actions))
  }

  ghost predicate TimelyBounded(cfg: Config, start: int, n: nat) {
    forall actions | Ordered(actions) && Since(actions, start) && Timely(actions) ::
      FewOperations(Play(New(cfg, start, n), actions))
  }

  // ---- Building runs.

  /** A run from `w` to `v` between two times. */
  ghost predicate Leads(w: World, actions: seq<Action>, v: World, from: int, to: int) {
    Ordered(actions) && Within(actions, from, to) && Play(w, actions) == v
  }

  lemma {:induction false} PlayJoin(w: World, a: seq<Action>, b: seq<Action>)
    ensures Play(w, a + b) == Play(Play(w, a), b)
    decreases |b|
  {
    if b == [] {
      assert a + b == a;
    } else {
      PlayJoin(w, a, b[..|b| - 1]);
      assert (a + b)[..|a + b| - 1] == a + b[..|b| - 1];
    }
  }

  lemma Join(w: World, a: seq<Action>, v: World, b: seq<Action>, u: World, from: int, at: int, to: int)
    requires from <= at <= to && Leads(w, a, v, from, at) && Leads(v, b, u, at, to)
    ensures Leads(w, a + b, u, from, to)
    ensures Timely(a) && Timely(b) ==> Timely(a + b)
  {
    PlayJoin(w, a, b);
    OrderedJoin(a, b, from, at, to);
  }

  lemma OrderedJoin(a: seq<Action>, b: seq<Action>, from: int, at: int, to: int)
    requires Ordered(a) && Ordered(b) && from <= at <= to && Within(a, from, at) && Within(b, at, to)
    ensures Ordered(a + b) && Within(a + b, from, to)
  {
    forall j, k | 0 <= j < k < |a + b| && (a + b)[j].Act? && (a + b)[k].Act?
      ensures (a + b)[j].now <= (a + b)[k].now
    {
      assert j < |a| ==> a[j].now <= at;
      assert k >= |a| ==> at <= b[k - |a|].now;
    }
  }

  lemma One(w: World, a: Action) returns (actions: seq<Action>)
    requires a.Act?
    ensures Leads(w, actions, Do(w, a), a.now, a.now) && (a.end != GivesUp ==> Timely(actions))
  {
    actions := [a];
    assert actions[..0] == [];
  }

  /** A caller is admitted. */
  lemma Enter(w: World, i: nat, now: int) returns (actions: seq<Action>, v: World)
    requires i < |w.s.busy| && !w.s.busy[i] && Admits(w.s.cfg, w.s.core, now)
    ensures Leads(w, actions, v, now, now) && Timely(actions)
    ensures v == World(State(w.s.cfg, Allow(w.s.cfg, w.s.core, now), w.s.busy[i := true]), w.loose)
  {
    actions := One(w, Act(i, now, Succeeds));
    v := Do(w, Act(i, now, Succeeds));
  }

  /** A whole call of caller 0 that does not succeed. */
  lemma Miss(w: World, now: int, end: Ending) returns (actions: seq<Action>, v: World)
    requires |w.s.busy| >= 1 && !w.s.busy[0] && Admits(w.s.cfg, w.s.core, now) && end != Succeeds
    ensures Leads(w, actions, v, now, now) && (end == Fails ==> Timely(actions))
    ensures v.s == State(w.s.cfg, Fail(w.s.cfg, Allow(w.s.cfg, w.s.core, now), now), w.s.busy)
    ensures v.loose == w.loose + (if end == GivesUp then 1 else 0)
  {
    var enter, mid := Enter(w, 0, now);
    var miss := One(mid, Act(0, now, end));
    v := Do(mid, Act(0, now, end));
    Join(w, enter, mid, miss, v, now, now, now);
    actions := enter + miss;
    assert w.s.busy[0 := true][0 := false] == w.s.busy;
  }

  /** Failures one after the other open a Closed breaker. */
  lemma {:induction false} Trip(w: World, now: int) returns (actions: seq<Action>, v: World)
    requires |w.s.busy| >= 1 && !w.s.busy[0] && w.s.core.phase == Closed && CoreInv(w.s.cfg, w.s.core)
    ensures Leads(w, actions, v, now, now) && Timely(actions) && v.loose == w.loose
    ensures v.s.cfg == w.s.cfg && v.s.busy == w.s.busy
    ensures v.s.core.phase == Open && v.s.core.lastStateChange == now
    decreases w.s.cfg.maxFailures - w.s.core.failures
  {
    actions, v := Miss(w, now, Fails);
    if v.s.core.phase == Closed {
      var rest, u := Trip(v, now);
      Join(w, actions, v, rest, u, now, now, now);
      actions, v := actions + rest, u;
    }
  }

  /** Requests are counted when they finish, not when they are admitted, so any number of
      callers get in: here those from `k` on. */
  lemma {:induction false} ProbesPileUp(w: World, k: nat, now: int) returns (actions: seq<Action>, v: World)
    requires w.s.core.phase == HalfOpen && w.s.core.halfOpenReqs < w.s.cfg.halfOpenLimit && k <= |w.s.busy|
    requires forall i :: 0 <= i < |w.s.busy| ==> w.s.busy[i] == (i < k)
    ensures Leads(w, actions, v, now, now) && Timely(actions) && v.s.core == w.s.core && v.s.cfg == w.s.cfg
    ensures |v.s.busy| == |w.s.busy| && forall i :: 0 <= i < |v.s.busy| ==> v.s.busy[i]
    decreases |w.s.busy| - k
  {
    if k == |w.s.busy| {
      actions, v := [], w;
    } else {
      var first, mid := Enter(w, k, now);
      var rest;
      rest, v := ProbesPileUp(mid, k + 1, now);
      Join(w, first, mid, rest, v, now, now, now);
      actions := first + rest;
    }
  }

  /** `k` half-open requests given up, one after each timeout. */
  lemma {:induction false} GiveUpAgain(w: World, at: int, k: nat) returns (actions: seq<Action>, v: World, end: int)
    requires w.s.cfg.Valid() && |w.s.busy| >= 1 && !w.s.busy[0]
    requires w.s.core.phase == Open && w.s.core.lastStateChange == at
    ensures at <= end && Leads(w, actions, v, at, end) && v.loose == w.loose + k
    ensures v.s.cfg == w.s.cfg && v.s.busy == w.s.busy
    ensures v.s.core.phase == Open && v.s.core.lastStateChange == end
  {
    if k == 0 {
      actions, v, end := [], w, at;
    } else {
      var front, mid, earlier := GiveUpAgain(w, at, k - 1);
      end := earlier + w.s.cfg.resetTimeout;
      var last;
      last, v := Miss(mid, end, GivesUp);
      Join(w, front, mid, last, v, at, end, end);
      actions := front + last;
    }
  }

  /** From a new breaker, all callers get in during one half-open phase. */
  lemma AllProbing(cfg: Config, start: int, n: nat) returns (actions: seq<Action>, v: World)
    requires cfg.Valid() && n >= 1
    ensures Ordered(actions) && Since(actions, start) && Timely(actions) && Play(New(cfg, start, n), actions) == v
    ensures v.s.cfg == cfg && v.s.core.phase == HalfOpen
    ensures |v.s.busy| == n && forall i :: 0 <= i < n ==> v.s.busy[i]
  {
    var w, now := New(cfg, start, n), start + cfg.resetTimeout;
    var trip, tripped := Trip(w, start);
    var enter, entered := Enter(tripped, 0, now);
    Join(w, trip, tripped, enter, entered, start, now, now);
    var rest;
    rest, v := ProbesPileUp(entered, 1, now);
    Join(w, trip + enter, entered, rest, v, start, now, now);
    actions := trip + enter + rest;
  }

  /** From a new breaker: one caller leaves `k` operations running and starts another. */
  lemma PileUpLoose(cfg: Config, start: int, n: nat, k: nat) returns (actions: seq<Action>, v: World)
    requires cfg.Valid() && n >= 1
    ensures Ordered(actions) && Since(actions, start) && Play(New(cfg, start, n), actions) == v
    ensures v.s.cfg == cfg && v.s.core.phase == HalfOpen && v.loose == k && Busy(v.s, 0)
  {
    var w := New(cfg, start, n);
    var trip, tripped := Trip(w, start);
    var drops, open, last := GiveUpAgain(tripped, start, k);
    Join(w, trip, tripped, drops, open, start, start, last);
    var now := last + cfg.resetTimeout;
    var enter;
    enter, v := Enter(open, 0, now);
    Join(w, trip + drops, open, enter, v, start, now, now);
    actions := trip + drops + enter;
  }

  // ---- The theorems.

  lemma {:induction false} BusyAtMost(busy: seq<bool>)
    ensures CountBusy(busy) <= |busy|
    ensures (forall i :: 0 <= i < |busy| ==> busy[i]) ==> CountBusy(busy) == |busy|
  {
    if busy != [] {
      BusyAtMost(busy[1..]);
    }
  }

  /** The callers stay `n`, and while none of them gives up nothing runs loose. */
  lemma {:induction false} Shape(cfg: Config, start: int, n: nat, actions: seq<Action>)
    ensures var w := Play(New(cfg, start, n), actions);
            && w.s.cfg == cfg && |w.s.busy| == n && (Timely(actions) ==> w.loose == 0)
    decreases |actions|
  {
    if actions != [] {
      Shape(cfg, start, n, actions[..|actions| - 1]);
    }
  }

  lemma {:induction false} NobodyNothing(cfg: Config, start: int, actions: seq<Action>)
    ensures Play(New(cfg, start, 0), actions) == New(cfg, start, 0)
    decreases |actions|
  {
    if actions != [] {
      NobodyNothing(cfg, start, actions[..|actions| - 1]);
    }
  }

  /** The half-open limit bounds the calls under way exactly when there are no more
      callers than that. */
  lemma CallsBoundedExactly(cfg: Config, start: int, n: nat)
    requires cfg.Valid()
    ensures CallsBounded(cfg, start, n) <==> n <= cfg.halfOpenLimit
  {
    if n <= cfg.halfOpenLimit {
      forall actions
        ensures FewCalls(Play(New(cfg, start, n), actions))
      {
        Shape(cfg, start, n, actions);
        BusyAtMost(Play(New(cfg, start, n), actions).s.busy);
      }
    } else {
      var actions, v := AllProbing(cfg, start, n);
      BusyAtMost(v.s.busy);
      assert !FewCalls(Play(New(cfg, start, n), actions));
    }
  }

  /** No half-open limit bounds the operations: one caller that keeps giving up leaves
      any number running. */
  lemma OperationsBoundedExactly(cfg: Config, start: int, n: nat)
    requires cfg.Valid()
    ensures OperationsBounded(cfg, start, n) <==> n == 0
  {
    if n == 0 {
      forall actions
        ensures FewOperations(Play(New(cfg, start, 0), actions))
      {
        NobodyNothing(cfg, start, actions);
      }
    } else {
      var actions, v := PileUpLoose(cfg, start, n, cfg.halfOpenLimit);
      assert CountBusy(v.s.busy) >= 1;
      assert !FewOperations(Play(New(cfg, start, n), actions));
    }
  }

  /** If no call gives up, operations are bounded as calls are. */
  lemma TimelyBoundedExactly(cfg: Config, start: int, n: nat)
    requires cfg.Valid()
    ensures TimelyBounded(cfg, start, n) <==> n <= cfg.halfOpenLimit
  {
    if n <= cfg.halfOpenLimit {
      forall actions | Timely(actions)
        ensures FewOperations(Play(New(cfg, start, n), actions))
      {
        Shape(cfg, start, n, actions);
        BusyAtMost(Play(New(cfg, start, n), actions).s.busy);
      }
    } else {
      var actions, v := AllProbing(cfg, start, n);
      BusyAtMost(v.s.busy);
      assert !FewOperations(Play(New(cfg, start, n), actions));
    }
  }
}
