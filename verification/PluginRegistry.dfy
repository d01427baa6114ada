/** The plugin registry: who depends on whom, kept in both directions. */
module PluginRegistries {

  import opened Options
  import opened Counts

  type Graph = map<string, seq<string>>

  predicate Edge(g: Graph, a: string, b: string) {
    a in g && b in g[a]
  }

  predicate IsPath(g: Graph, p: seq<string>) {
    |p| > 0 && forall i :: 0 <= i < |p| - 1 ==> Edge(g, p[i], p[i + 1])
  }

  predicate Joins(g: Graph, p: seq<string>, a: string, b: string) {
    IsPath(g, p) && p[0] == a && p[|p| - 1] == b
  }

  /** In any number of steps, even none. */
  ghost predicate Reaches(g: Graph, a: string, b: string) {
    exists p :: Joins(g, p, a, b)
  }

  predicate IsCycle(g: Graph, p: seq<string>) {
    |p| > 1 && IsPath(g, p) && p[0] == p[|p| - 1]
  }

  ghost predicate Acyclic(g: Graph) {
    forall p :: !IsCycle(g, p)
  }

  /** Every dependency is itself an entry. */
  ghost predicate Closed(g: Graph) {
    forall a, b :: Edge(g, a, b) ==> b in g
  }

  // ---- Giving an entry new dependencies.

  /** The start of a path, up to where it first gets to `n`, leaves `n` nowhere. */
  lemma FirstArrival(g: Graph, p: seq<string>, a: string, n: string) returns (q: seq<string>)
    requires Joins(g, p, a, n)
    ensures Joins(g, q, a, n) && forall i :: 0 <= i < |q| - 1 ==> q[i] != n
  {
    var k := 0;
    while p[k] != n
      invariant 0 <= k < |p| && forall i :: 0 <= i < k ==> p[i] != n
      decreases |p| - k
    {
      k := k + 1;
    }
    q := p[..k + 1];
  }

  /** Such a path does not depend on the dependencies of `n`. */
  lemma SamePath(g: Graph, h: Graph, p: seq<string>, n: string)
    requires IsPath(g, p) && forall i :: 0 <= i < |p| - 1 ==> p[i] != n
    requires forall a :: a != n ==> (a in g <==> a in h) && (a in g ==> g[a] == h[a])
    ensures IsPath(h, p)
  {
    forall i | 0 <= i < |p| - 1
      ensures Edge(h, p[i], p[i + 1])
    {
      assert Edge(g, p[i], p[i + 1]);
    }
  }

  /** A cycle through `n`, cut open after `n`. */
  lemma CutOpen(g: Graph, p: seq<string>, i: nat) returns (q: seq<string>)
    requires IsCycle(g, p) && i < |p| - 1
    ensures Joins(g, q, p[i + 1], p[i])
  {
    q := p[i + 1..] + p[1..i + 1];
    forall j | 0 <= j < |q| - 1
      ensures Edge(g, q[j], q[j + 1])
    {
      var m := |p| - i - 1;
      if j < m - 1 {
        assert Edge(g, p[i + 1 + j], p[i + 1 + j + 1]);
      } else if j == m - 1 {
        assert Edge(g, p[0], p[1]);
      } else {
        assert Edge(g, p[1 + j - m], p[1 + j - m + 1]);
      }
    }
  }

  /** No cycle arises exactly when no new dependency already leads to the entry. */
  lemma AcyclicExactly(g: Graph, n: string, deps: seq<string>)
    requires Acyclic(g)
    ensures Acyclic(g[n := deps]) <==> forall d :: d in deps ==> !Reaches(g, d, n)
  {
    var h := g[n := deps];
    if d :| d in deps && Reaches(g, d, n) {
      var p :| Joins(g, p, d, n);
      var q := FirstArrival(g, p, d, n);
      SamePath(g, h, q, n);
      Closes(h, q, d, n);
    } else {
      forall p
        ensures !IsCycle(h, p)
      {
        if IsCycle(h, p) {
          CycleSplits(g, n, deps, p);
        }
      }
    }
  }

  lemma Closes(h: Graph, q: seq<string>, d: string, n: string)
    requires Joins(h, q, d, n) && Edge(h, n, d)
    ensures !Acyclic(h)
  {
    var c := [n] + q;
    forall i | 0 <= i < |c| - 1
      ensures Edge(h, c[i], c[i + 1])
    {
      if i > 0 {
        assert Edge(h, q[i - 1], q[i]);
      }
    }
    assert IsCycle(h, c);
  }

  /** A cycle was there before, or goes through a new dependency. */
  lemma CycleSplits(g: Graph, n: string, deps: seq<string>, p: seq<string>)
    requires IsCycle(g[n := deps], p)
    ensures IsCycle(g, p) || exists d :: d in deps && Reaches(g, d, n)
  {
    var h := g[n := deps];
    if i: nat :| i < |p| - 1 && p[i] == n {
      var q := CutOpen(h, p, i);
      var r := FirstArrival(h, q, p[i + 1], n);
      SamePath(h, g, r, n);
      assert Joins(g, r, p[i + 1], n);
      assert Edge(h, p[i], p[i + 1]);
    } else {
      SamePath(h, g, p, n);
    }
  }

  lemma FirstEdge(g: Graph, p: seq<string>)
    requires IsPath(g, p) && |p| > 1
    ensures Edge(g, p[0], p[1])
  {
  }

  /** Without dependencies there is no way on. */
  lemma DeadEnd(g: Graph, p: seq<string>, a: string, b: string)
    requires Joins(g, p, a, b) && a in g && g[a] == []
    ensures a == b
  {
    if |p| > 1 {
      FirstEdge(g, p);
    }
  }

  /** In a closed graph a path never leaves the entries. */
  lemma StaysInside(g: Graph, p: seq<string>, d: string, n: string)
    requires Closed(g) && d in g && Joins(g, p, d, n)
    ensures n in g
  {
    if |p| > 1 {
      assert Edge(g, p[|p| - 2], p[|p| - 1]);
    }
  }

  lemma ClosedNext(g: Graph, n: string, deps: seq<string>)
    requires Closed(g) && forall d :: d in deps ==> d in g
    ensures Closed(g[n := deps])
  {
    var h := g[n := deps];
    forall a, b | Edge(h, a, b)
      ensures b in h
    {
      if a != n {
        assert Edge(g, a, b);
      }
    }
  }

  // ---- The two directions.

  function Listed(g: Graph, a: string): seq<string> {
    if a in g then g[a] else []
  }

  /** `n` depends on `d` as often as `d` lists `n` as a dependent. */
  ghost predicate Mirrors(dependencies: Graph, dependents: Graph) {
    forall n, d :: MirrorsAt(dependencies, dependents, n, d)
  }

  predicate MirrorsAt(dependencies: Graph, dependents: Graph, n: string, d: string) {
    Count(Listed(dependents, d), n) == Count(Listed(dependencies, n), d)
  }

  /** Every dependent list has gained `n` once for each time it is in `deps`. */
  ghost predicate Gained(before: Graph, after: Graph, n: string, deps: seq<string>) {
    forall m, d :: GainedAt(before, after, n, deps, m, d)
  }

  predicate GainedAt(before: Graph, after: Graph, n: string, deps: seq<string>, m: string, d: string) {
    Count(Listed(after, d), m) == Count(Listed(before, d), m) + if m == n then Count(deps, d) else 0
  }

  lemma GainNext(before: Graph, now: Graph, n: string, deps: seq<string>, d: string)
    requires Gained(before, now, n, deps)
    ensures Gained(before, now[d := Listed(now, d) + [n]], n, deps + [d])
  {
    var after, more := now[d := Listed(now, d) + [n]], deps + [d];
    forall m, e
      ensures GainedAt(before, after, n, more, m, e)
    {
      assert GainedAt(before, now, n, deps, m, e);
      CountAppend(deps, d, e);
      CountAppend(Listed(now, d), n, m);
    }
  }

  /** Entering new dependencies keeps the directions mirrored exactly when there were
      none before. */
  lemma MirrorsExactly(dependencies: Graph, dependents: Graph, after: Graph, n: string, deps: seq<string>)
    requires Mirrors(dependencies, dependents) && Gained(dependents, after, n, deps)
    ensures Mirrors(dependencies[n := deps], after) <==> Listed(dependencies, n) == []
  {
    var was, now := Listed(dependencies, n), dependencies[n := deps];
    if was == [] {
      forall m, d
        ensures MirrorsAt(now, after, m, d)
      {
        assert MirrorsAt(dependencies, dependents, m, d) && GainedAt(dependents, after, n, deps, m, d);
      }
    } else {
      var d := was[|was| - 1];
      assert MirrorsAt(dependencies, dependents, n, d) && GainedAt(dependents, after, n, deps, n, d);
      assert !MirrorsAt(now, after, n, d);
    }
  }

  datatype Error = Invalid | MissingDependency | AlreadyLoaded | InitFailed | NotFound

  class Registry {
    /** Whether each plugin is loaded. */
    var plugins: map<string, bool>
    var dependencies: Graph
    var dependents: Graph

    ghost predicate Valid()
      reads this
    {
      plugins.Keys == dependencies.Keys && Closed(dependencies)
    }

    /** Holds as long as every name is registered once. */
    ghost predicate Sound()
      reads this
    {
      Acyclic(dependencies) && Mirrors(dependencies, dependents)
    }

    constructor ()
      ensures Valid() && Sound()
      ensures plugins == map[] && dependencies == map[] && dependents == map[]
    {
      plugins, dependencies, dependents := map[], map[], map[];
      new;
      forall p
        ensures !IsCycle(dependencies, p)
      {
        if |p| > 1 {
          assert !Edge(dependencies, p[0], p[1]);
        }
      }
    }

    /** `valid` and `starts` tell how those two steps come out. A name registered
        for the first time keeps everything sound. Registered again, after an unload, it
        brings in a cycle exactly when a new dependency already leads back to it, and
        unmatched dependents exactly when it had dependencies before. */
    method Register(name: string, deps: seq<string>, valid: bool, starts: bool) returns (result: Result<(), Error>)
      requires Valid()
      modifies this
      ensures Valid()
      ensures result.Ok? <==> valid && starts && (forall d :: d in deps ==> d in old(plugins))
                              && (name in old(plugins) ==> !old(plugins)[name])
      ensures result == Err(Invalid) <==> !valid
      ensures result == Err(MissingDependency) <==> valid && exists d :: d in deps && d !in old(plugins)
      ensures result == Err(AlreadyLoaded) <==>
              valid && (forall d :: d in deps ==> d in old(plugins)) && name in old(plugins) && old(plugins)[name]
      ensures result.Ok? ==> plugins == old(plugins)[name := true] && dependencies == old(dependencies)[name := deps]
      ensures result.Ok? ==> Gained(old(dependents), dependents, name, deps)
      ensures !result.Ok? ==> plugins == old(plugins) && dependencies == old(dependencies) && dependents == old(dependents)
      ensures old(Sound()) && name !in old(plugins) ==> Sound()
      ensures old(Sound()) && result.Ok? ==>
                && (Acyclic(dependencies) <==> forall d :: d in deps ==> !Reaches(old(dependencies), d, name))
                && (Mirrors(dependencies, dependents) <==> Listed(old(dependencies), name) == [])
    {
      if !valid { return Err(Invalid); }
      for i := 0 to |deps|
        invariant forall j :: 0 <= j < i ==> deps[j] in plugins
      {
        if deps[i] !in plugins { return Err(MissingDependency); }
      }
      if name in plugins && plugins[name] { return Err(AlreadyLoaded); }
      if !starts { return Err(InitFailed); }
      ghost var sound, was, lists := Sound(), dependencies, dependents;
      assert name !in was ==> forall d :: d in deps ==> !Reaches(was, d, name) by {
        forall d, p | name !in was && d in deps
          ensures !Joins(was, p, d, name)
        {
          if Joins(was, p, d, name) {
            StaysInside(was, p, d, name);
          }
        }
      }
      ClosedNext(was, name, deps);
      plugins := plugins[name := true];
      dependencies := dependencies[name := deps];
      AddDependents(name, deps);
      if sound {
        AcyclicExactly(was, name, deps);
        MirrorsExactly(was, lists, dependents, name, deps);
      }
      result := Ok(());
    }

    method AddDependents(name: string, deps: seq<string>)
      modifies this`dependents
      ensures Gained(old(dependents), dependents, name, deps)
    {
      for i := 0 to |deps|
        invariant Gained(old(dependents), dependents, name, deps[..i])
      {
        assert deps[..i + 1] == deps[..i] + [deps[i]];
        GainNext(old(dependents), dependents, name, deps[..i], deps[i]);
        dependents := dependents[deps[i] := Listed(dependents, deps[i]) + [name]];
      }
      assert deps[..|deps|] == deps;
    }

    /** Marks the plugin unloaded. Its edges stay, whoever depends on it. */
    method UnloadPlugin(name: string) returns (result: Result<(), Error>)
      requires Valid()
      modifies this`plugins
      ensures Valid() && (old(Sound()) ==> Sound())
      ensures result.Ok? <==> name in old(plugins)
      ensures plugins == if result.Ok? then old(plugins)[name := false] else old(plugins)
    {
      if name !in plugins { return Err(NotFound); }
      plugins := plugins[name := false];
      result := Ok(());
    }
  }

  /** The cycle can be brought about: two plugins, the first unloaded and registered
      again, now depending on the second. */
  method CycleByReregistration(a: string, b: string) returns (r: Registry)
    requires a != b
    ensures r.Valid() && IsCycle(r.dependencies, [a, b, a])
  {
    r := new Registry();
    var first := r.Register(a, [], true, true);
    var second := r.Register(b, [a], true, true);
    var unloaded := r.UnloadPlugin(a);
    var again := r.Register(a, [b], true, true);
    assert Edge(r.dependencies, a, b) && Edge(r.dependencies, b, a);
  }

  /** So can unmatched dependents: a plugin with a dependency, unloaded and registered
      again unchanged, is listed twice. */
  method ListTwice(a: string, b: string) returns (r: Registry)
    requires a != b
    ensures r.Valid() && Acyclic(r.dependencies) && !MirrorsAt(r.dependencies, r.dependents, b, a)
  {
    r := new Registry();
    var first := r.Register(a, [], true, true);
    var second := r.Register(b, [a], true, true);
    var unloaded := r.UnloadPlugin(b);
    ghost var before, lists := r.dependencies, r.dependents;
    assert MirrorsAt(before, lists, b, a);
    assert !Reaches(before, a, b) by {
      forall p
        ensures !Joins(before, p, a, b)
      {
        if Joins(before, p, a, b) {
          DeadEnd(before, p, a, b);
        }
      }
    }
    var again := r.Register(b, [a], true, true);
    assert GainedAt(lists, r.dependents, b, [a], b, a);
    CountAppend([], a, a);
    assert [] + [a] == [a];
  }
}
