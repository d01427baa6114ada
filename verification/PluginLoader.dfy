/** The plugin loader: discovered plugins, and an index from workload types to them. */
module PluginLoaders {

  import opened Options

  datatype Metadata = Metadata(name: string, types: seq<string>)

  /** How opening a plugin file comes out. */
  datatype Opening = CannotOpen | BadSymbol | Opened(metadata: Option<Metadata>)

  /** A plugin has an instance once loaded. */
  datatype Info = Info(metadata: Metadata, path: string, loaded: bool, instance: bool)

  datatype Error = FailedBefore | OpenFailed | SymbolError | NoMetadata | NoName | NoTypes
                 | NameConflict | TypeConflict | NotFound | Unsupported | InitFailed | CreateFailed

  /** Type `t` leads to plugin `n`. */
  predicate Leads(index: map<string, string>, t: string, n: string) {
    t in index && index[t] == n
  }

  /** Plugin `n` offers type `t`. */
  predicate Offers(plugins: map<string, Info>, n: string, t: string) {
    n in plugins && t in plugins[n].metadata.types
  }

  ghost predicate Inverse(plugins: map<string, Info>, index: map<string, string>) {
    forall t, n :: Leads(index, t, n) <==> Offers(plugins, n, t)
  }

  /** An inverse index leaves no type to two plugins, and never leads nowhere. */
  lemma TypesAreDisjoint(plugins: map<string, Info>, index: map<string, string>, t: string, m: string, n: string)
    requires Inverse(plugins, index) && Offers(plugins, m, t) && Offers(plugins, n, t)
    ensures m == n
  {
    assert Leads(index, t, m) && Leads(index, t, n);
  }

  lemma NeverLeadsNowhere(plugins: map<string, Info>, index: map<string, string>, t: string)
    requires Inverse(plugins, index) && t in index
    ensures index[t] in plugins && t in plugins[index[t]].metadata.types
  {
    assert Leads(index, t, index[t]);
  }

  /** What a new plugin's metadata must meet. */
  predicate Fits(plugins: map<string, Info>, index: map<string, string>, m: Metadata) {
    && m.name != "" && m.types != [] && m.name !in plugins
    && forall i :: 0 <= i < |m.types| ==> m.types[i] !in index
  }

  lemma InverseAdded(plugins: map<string, Info>, index: map<string, string>, info: Info, index': map<string, string>)
    requires Inverse(plugins, index) && Fits(plugins, index, info.metadata)
    requires forall t :: t in index' <==> t in index || t in info.metadata.types
    requires forall t :: t in index' ==> index'[t] == if t in info.metadata.types then info.metadata.name else index[t]
    ensures Inverse(plugins[info.metadata.name := info], index')
  {
    var plugins' := plugins[info.metadata.name := info];
    forall t, n
      ensures Leads(index', t, n) <==> Offers(plugins', n, t)
    {
      assert Leads(index, t, n) <==> Offers(plugins, n, t);
      if t in info.metadata.types {
        assert t !in index;
        assert Offers(plugins, n, t) ==> Leads(index, t, n);
      }
    }
  }

  /** Loading and unloading leave the offers alone. */
  lemma InverseKept(plugins: map<string, Info>, index: map<string, string>, n: string, info: Info)
    requires Inverse(plugins, index) && n in plugins && info.metadata == plugins[n].metadata
    ensures Inverse(plugins[n := info], index)
  {
    forall t, m
      ensures Leads(index, t, m) <==> Offers(plugins[n := info], m, t)
    {
      assert Leads(index, t, m) <==> Offers(plugins, m, t);
    }
  }

  /** Why a plugin that does not get in does not: the first thing that is wrong. */
  function Problem(failedBefore: bool, opening: Opening, plugins: map<string, Info>): Error {
    if failedBefore then FailedBefore
    else
      match opening
      case CannotOpen => OpenFailed
      case BadSymbol => SymbolError
      case Opened(None) => NoMetadata
      case Opened(Some(m)) =>
        if m.name == "" then NoName
        else if m.types == [] then NoTypes
        else if m.name in plugins then NameConflict
        else TypeConflict
  }

  class Loader {
    var plugins: map<string, Info>
    var index: map<string, string>
    var failed: set<string>

    ghost predicate Valid()
      reads this
    {
      && Inverse(plugins, index)
      && (forall n :: n in plugins ==> plugins[n].metadata.name == n)
      && (forall n :: n in plugins ==> (plugins[n].loaded <==> plugins[n].instance))
    }

    constructor ()
      ensures Valid() && plugins == map[] && index == map[] && failed == {}
    {
      plugins, index, failed := map[], map[], {};
    }

    /** Adds the plugin exactly when its path has not failed before, it opens, and its
        metadata fits; a failed opening is remembered, and nothing else changes. */
    method LoadMetadata(path: string, opening: Opening) returns (result: Result<string, Error>)
      requires Valid()
      modifies this
      ensures Valid()
      ensures result.Ok? <==> path !in old(failed) && opening.Opened? && opening.metadata.Some?
                              && Fits(old(plugins), old(index), opening.metadata.value)
      ensures result.Ok? ==>
                var m := opening.metadata.value;
                && result.value == m.name
                && plugins == old(plugins)[m.name := Info(m, path, false, false)]
                && (forall t :: t in index <==> t in old(index) || t in m.types)
      ensures !result.Ok? ==> plugins == old(plugins) && index == old(index)
      ensures result.Err? ==> result.error == Problem(path in old(failed), opening, old(plugins))
      ensures failed == if opening.CannotOpen? then old(failed) + {path} else old(failed)
    {
      if path in failed { return Err(FailedBefore); }
      match opening
      case CannotOpen =>
        failed := failed + {path};
        return Err(OpenFailed);
      case BadSymbol => return Err(SymbolError);
      case Opened(None) => return Err(NoMetadata);
      case Opened(Some(m)) =>
        if m.name == "" { return Err(NoName); }
        if |m.types| == 0 { return Err(NoTypes); }
        if m.name in plugins { return Err(NameConflict); }
        for i := 0 to |m.types|
          invariant forall j :: 0 <= j < i ==> m.types[j] !in index
        {
          if m.types[i] in index { return Err(TypeConflict); }
        }
        Enter(Info(m, path, false, false));
        result := Ok(m.name);
    }

    method Enter(info: Info)
      requires Valid() && Fits(plugins, index, info.metadata) && info.loaded == info.instance
      modifies this`plugins, this`index
      ensures Valid()
      ensures plugins == old(plugins)[info.metadata.name := info]
      ensures forall t :: t in index <==> t in old(index) || t in info.metadata.types
    {
      ghost var before, was := plugins, index;
      var types := info.metadata.types;
      plugins := plugins[info.metadata.name := info];
      for i := 0 to |types|
        invariant plugins == before[info.metadata.name := info]
        invariant forall t :: t in index <==> t in was || t in types[..i]
        invariant forall t :: t in index ==> index[t] == if t in types[..i] then info.metadata.name else was[t]
      {
        assert types[..i + 1] == types[..i] + [types[i]];
        index := index[types[i] := info.metadata.name];
      }
      assert types[..|types|] == types;
      InverseAdded(before, was, info, index);
    }

    /** `opens` and `starts` tell how those two steps come out. */
    method LoadPlugin(name: string, opens: bool, starts: bool) returns (result: Result<(), Error>)
      requires Valid()
      modifies this`plugins
      ensures Valid()
      ensures result.Ok? <==> name in old(plugins) && (old(plugins)[name].loaded || (opens && starts))
      ensures result == Err(NotFound) <==> name !in old(plugins)
      ensures result.Err? && name in old(plugins) ==> result == Err(if opens then InitFailed else OpenFailed)
      ensures result.Ok? ==> plugins == old(plugins)[name := old(plugins)[name].(loaded := true, instance := true)]
      ensures !result.Ok? ==> plugins == old(plugins)
    {
      if name !in plugins { return Err(NotFound); }
      var info := plugins[name];
      if info.loaded { return Ok(()); }
      if !opens { return Err(OpenFailed); }
      if !starts { return Err(InitFailed); }
      InverseKept(plugins, index, name, info.(loaded := true, instance := true));
      plugins := plugins[name := info.(loaded := true, instance := true)];
      result := Ok(());
    }

    method UnloadPlugin(name: string) returns (result: Result<(), Error>)
      requires Valid()
      modifies this`plugins
      ensures Valid()
      ensures result.Ok? <==> name in old(plugins)
      ensures result.Ok? ==> plugins == old(plugins)[name := old(plugins)[name].(loaded := false, instance := false)]
      ensures !result.Ok? ==> plugins == old(plugins)
    {
      if name !in plugins { return Err(NotFound); }
      var info := plugins[name];
      if !info.loaded { return Ok(()); }
      InverseKept(plugins, index, name, info.(loaded := false, instance := false));
      plugins := plugins[name := info.(loaded := false, instance := false)];
      result := Ok(());
    }

    /** Creates the workload on the one plugin that offers its type, loaded by then; the
        second lookup never fails. */
    method GetWorkload(kind: string, opens: bool, starts: bool, created: bool) returns (result: Result<string, Error>)
      requires Valid()
      modifies this`plugins
      ensures Valid()
      ensures result != Err(NotFound)
      ensures result == Err(Unsupported) <==> forall n :: !Offers(old(plugins), n, kind)
      ensures result.Ok? <==> kind in index && index[kind] in old(plugins) && created
                              && (old(plugins)[index[kind]].loaded || (opens && starts))
      ensures result == Err(CreateFailed) <==> kind in index && index[kind] in old(plugins) && !created
                                               && (old(plugins)[index[kind]].loaded || (opens && starts))
      ensures result.Ok? ==> Offers(plugins, result.value, kind) && plugins[result.value].instance
      ensures plugins == old(plugins)
              || (kind in index && index[kind] in old(plugins) &&
                  plugins == old(plugins)[index[kind] := old(plugins)[index[kind]].(loaded := true, instance := true)])
    {
      if kind !in index {
        assert forall n :: !Leads(index, kind, n);
        return Err(Unsupported);
      }
      var name := index[kind];
      NeverLeadsNowhere(plugins, index, kind);
      assert Offers(plugins, name, kind);
      if name !in plugins { return Err(NotFound); }
      if !plugins[name].loaded {
        var loaded := LoadPlugin(name, opens, starts);
        if loaded.Err? { return Err(loaded.error); }
      }
      if !created { return Err(CreateFailed); }
      result := Ok(name);
    }
  }
}
