/**
 * The plug-in registry `ModuleManager` (backend/app/modules/module_manager.py):
 * a dictionary from module name to module instance, kept in insertion
 * order as Python dictionaries are.
 */
module ModuleRegistry {

  import opened Common
  import opened ModuleLoading

  /** A module instance; `BaseModule.__init__` enables it (base_module.py:10-13). */
  class ModuleInstance {
    const cls: Member
    var enabled: bool

    constructor (cls: Member)
      ensures this.cls == cls && enabled
    {
      this.cls := cls;
      enabled := true;
    }
  }

  predicate Distinct(ns: seq<string>) {
    forall i, j :: 0 <= i < j < |ns| ==> ns[i] != ns[j]
  }

  /** `ns` with `n` removed: what `del` does to the dictionary's key order. */
  function Without(ns: seq<string>, n: string): (r: seq<string>)
    ensures forall x :: x in r <==> x in ns && x != n
    ensures Distinct(ns) ==> Distinct(r)
    ensures n !in ns ==> r == ns
  {
    if ns == [] then []
    else
      var rest := Without(ns[1..], n);
      assert forall x :: x in ns <==> x == ns[0] || x in ns[1..];
      assert Distinct(ns) ==> Distinct(ns[1..]) && ns[0] !in ns[1..];
      if ns[0] == n then rest
      else
        assert Distinct(ns) ==> Distinct([ns[0]] + rest) by {
          if Distinct(ns) {
            forall i, j | 0 <= i < j < |[ns[0]] + rest| ensures ([ns[0]] + rest)[i] != ([ns[0]] + rest)[j] {
              if i == 0 {
                assert ([ns[0]] + rest)[j] == rest[j - 1];
              } else {
                assert ([ns[0]] + rest)[i] == rest[i - 1] && ([ns[0]] + rest)[j] == rest[j - 1];
              }
            }
          }
        }
        [ns[0]] + rest
  }

  /**
   * The registry `m` after trying the candidates `cands` on top of `m0`:
   * the names whose load registered an instance are added with an instance
   * of the selected class, and every other entry of `m0` is kept.
   */
  ghost predicate Registered(m0: map<string, ModuleInstance>, m: map<string, ModuleInstance>,
                             cands: seq<string>, sources: map<string, ModuleSource>)
  {
    && (forall n :: n in m <==> n in m0 || (n in cands && !Outcome(SourceOf(sources, n)).NotLoaded?))
    && (forall n :: n in m0 && (n !in cands || Outcome(SourceOf(sources, n)).NotLoaded?) ==> m[n] == m0[n])
    && (forall n :: n in cands && !Outcome(SourceOf(sources, n)).NotLoaded? ==>
          n in m && m[n].cls == Outcome(SourceOf(sources, n)).cls)
  }

  /**
   * The key order `load_modules` leaves: `ns` followed by the candidates of
   * `cands` whose load registers an instance and that are not keys yet, in
   * the order they are tried.
   */
  function AppendRegistered(ns: seq<string>, cands: seq<string>, sources: map<string, ModuleSource>): (r: seq<string>)
    ensures ns <= r
    ensures forall n :: n in r <==> n in ns || (n in cands && !Outcome(SourceOf(sources, n)).NotLoaded?)
    ensures Distinct(ns) ==> Distinct(r)
  {
    if cands == [] then ns
    else
      var n := cands[|cands| - 1];
      var r := AppendRegistered(ns, cands[..|cands| - 1], sources);
      assert forall x :: x in cands <==> x in cands[..|cands| - 1] || x == n;
      if !Outcome(SourceOf(sources, n)).NotLoaded? && n !in r then r + [n] else r
  }

  /** One more candidate is appended exactly when it is registered and not a key yet. */
  lemma AppendRegisteredStep(ns: seq<string>, cands: seq<string>, n: string, sources: map<string, ModuleSource>)
    ensures AppendRegistered(ns, cands + [n], sources) ==
            var r := AppendRegistered(ns, cands, sources);
            if !Outcome(SourceOf(sources, n)).NotLoaded? && n !in r then r + [n] else r
  {
    assert (cands + [n])[..|cands|] == cands;
  }

  /** Trying one more candidate keeps `Registered`, whatever its load does. */
  lemma RegisteredStep(m0: map<string, ModuleInstance>, before: map<string, ModuleInstance>,
                       after: map<string, ModuleInstance>, cands: seq<string>, name: string,
                       sources: map<string, ModuleSource>)
    requires Registered(m0, before, cands, sources)
    requires Outcome(SourceOf(sources, name)).NotLoaded? ==> after == before
    requires !Outcome(SourceOf(sources, name)).NotLoaded? ==>
               name in after && after == before[name := after[name]] &&
               after[name].cls == Outcome(SourceOf(sources, name)).cls
    ensures Registered(m0, after, cands + [name], sources)
  {
    assert forall n :: n in cands + [name] <==> n in cands || n == name;
  }

  class ModuleManager {
    /** The registered names in insertion order. */
    var names: seq<string>
    /** `self.loaded_modules` */
    var modules: map<string, ModuleInstance>

    /** Names are the dictionary's keys, each once; every load makes a new instance. */
    ghost predicate Valid()
      reads this
    {
      && Distinct(names)
      && (forall n :: n in names <==> n in modules)
      && (forall a, b :: a in modules && b in modules && a != b ==> modules[a] != modules[b])
    }

    /** `__init__` (lines 13-20): an empty registry. */
    constructor ()
      ensures Valid()
      ensures names == [] && modules == map[]
    {
      names := [];
      modules := map[];
    }

    /** `load_module` (lines 42-65), instantiating the first concrete `BaseModule` subclass. */
    method LoadModule(name: string, sources: map<string, ModuleSource>) returns (m: Option<ModuleInstance>)
      requires Valid()
      modifies this
      ensures Valid()
      ensures var o := Outcome(SourceOf(sources, name));
        && (o.NotLoaded? ==> m.None? && names == old(names) && modules == old(modules))
        && (!o.NotLoaded? ==>
              && name in modules && fresh(modules[name])
              && modules[name].cls == o.cls && modules[name].enabled
              && modules == old(modules)[name := modules[name]]
              && names == (if name in old(modules) then old(names) else old(names) + [name]))
        && (o.Loaded? ==> m == Some(modules[name]))
        && (o.RegisteredOnly? ==> m.None?)
      ensures names == if !Outcome(SourceOf(sources, name)).NotLoaded? && name !in old(names) then old(names) + [name] else old(names)
    {
      var src := SourceOf(sources, name);
      if src.ImportFails? {
        return None;
      }
      var ms := src.members;
      var i := 0;
      while i < |ms| && !IsConcreteModuleClass(ms[i])
        invariant 0 <= i <= |ms|
        invariant forall j :: 0 <= j < i ==> !IsConcreteModuleClass(ms[j])
      {
        i := i + 1;
      }
      if i == |ms| {
        return None;
      }
      assert FirstConcreteSubclass(ms) == Some(i);
      var cls := ms[i];
      if cls.initRaises {
        return None;
      }
      var instance := new ModuleInstance(cls);
      if name !in modules {
        names := names + [name];
      }
      modules := modules[name := instance];
      if cls.initializeRaises {
        return None;
      }
      m := Some(instance);
    }

    /** One candidate of `load_modules`: `load_module` with the scan's bookkeeping carried along. */
    method TryCandidate(name: string, sources: map<string, ModuleSource>,
                        ghost m0: map<string, ModuleInstance>, ghost cands: seq<string>)
      returns (m: Option<ModuleInstance>)
      requires Valid() && Registered(m0, modules, cands, sources)
      requires forall n :: n in cands && !Outcome(SourceOf(sources, n)).NotLoaded? ==> n in modules && modules[n].enabled
      modifies this
      ensures Valid() && Registered(m0, modules, cands + [name], sources)
      ensures forall n :: n in cands + [name] && !Outcome(SourceOf(sources, n)).NotLoaded? ==>
                n in modules && modules[n].enabled
      ensures m.Some? <==> Outcome(SourceOf(sources, name)).Loaded?
      ensures names == if !Outcome(SourceOf(sources, name)).NotLoaded? && name !in old(names) then old(names) + [name] else old(names)
      ensures !Outcome(SourceOf(sources, name)).NotLoaded? ==> fresh(modules[name])
      ensures forall n :: n != name && n in old(modules) ==> n in modules && modules[n] == old(modules)[n]
    {
      ghost var before := modules;
      m := LoadModule(name, sources);
      RegisteredStep(m0, before, modules, cands, name, sources);
      forall n | n in cands + [name] && !Outcome(SourceOf(sources, n)).NotLoaded?
        ensures n in modules && modules[n].enabled
      {
        if n != name {
          assert n in cands && modules[n] == before[n];
        }
      }
    }

    /**
     * `load_modules` (lines 22-40): the directory listing is scanned in
     * order and every candidate is tried, whatever earlier ones did.
     */
    method LoadModules(directoryExists: bool, listing: seq<string>, sources: map<string, ModuleSource>)
      returns (loaded: seq<string>)
      requires Valid()
      modifies this
      ensures Valid()
      ensures !directoryExists ==> loaded == [] && names == old(names) && modules == old(modules)
      ensures directoryExists ==> loaded == LoadedNames(CandidateNames(listing), sources, Outcome)
      ensures directoryExists ==>
                forall n :: n in modules <==>
                  n in old(modules) || (n in CandidateNames(listing) && !Outcome(SourceOf(sources, n)).NotLoaded?)
      ensures directoryExists ==>
                forall n :: n in old(modules) && (n !in CandidateNames(listing) || Outcome(SourceOf(sources, n)).NotLoaded?) ==>
                  modules[n] == old(modules)[n]
      ensures directoryExists ==>
                forall n :: n in CandidateNames(listing) && !Outcome(SourceOf(sources, n)).NotLoaded? ==>
                  n in modules && fresh(modules[n]) && modules[n].cls == Outcome(SourceOf(sources, n)).cls && modules[n].enabled
      ensures directoryExists ==> old(names) <= names
      ensures directoryExists ==> names == AppendRegistered(old(names), CandidateNames(listing), sources)
    {
      loaded := [];
      if !directoryExists {
        return;
      }
      ghost var cands: seq<string> := [];
      for i := 0 to |listing|
        invariant Valid()
        invariant cands == CandidateNames(listing[..i])
        invariant loaded == LoadedNames(cands, sources, Outcome)
        invariant Registered(old(modules), modules, cands, sources)
        invariant forall n :: n in cands && !Outcome(SourceOf(sources, n)).NotLoaded? ==>
                    n in modules && modules[n].enabled
        invariant forall n :: n in cands && !Outcome(SourceOf(sources, n)).NotLoaded? ==> fresh(modules[n])
        invariant names == AppendRegistered(old(names), cands, sources)
      {
        CandidateNamesStep(listing, i);
        var filename := listing[i];
        if IsModuleFile(filename) {
          var name := ModuleName(filename);
          LoadedNamesStep(cands, name, sources, Outcome);
          ghost var before := modules;
          var m := TryCandidate(name, sources, old(modules), cands);
          AppendRegisteredStep(old(names), cands, name, sources);
          forall n | n in cands + [name] && !Outcome(SourceOf(sources, n)).NotLoaded?
            ensures fresh(modules[n])
          {
            if n != name {
              assert n in cands && modules[n] == before[n];
            }
          }
          if m.Some? {
            loaded := loaded + [name];
          }
          cands := cands + [name];
        }
      }
      assert listing[..|listing|] == listing;
    }

    /** `get_module` (lines 67-69) */
    function GetModule(name: string): (r: Option<ModuleInstance>)
      reads this
      ensures r.Some? <==> name in modules
      ensures r.Some? ==> r.value == modules[name]
    {
      if name in modules then Some(modules[name]) else None
    }

    /** `get_all_modules` (lines 71-73): a copy of the dictionary, as its items in order. */
    function GetAllModules(): (items: seq<(string, ModuleInstance)>)
      reads this
      requires Valid()
      ensures |items| == |names|
      ensures forall i :: 0 <= i < |items| ==> items[i].0 == names[i]
      ensures forall i :: 0 <= i < |items| ==> items[i].0 in modules && items[i].1 == modules[items[i].0]
      ensures forall n :: n in modules ==> (n, modules[n]) in items
    {
      var items := seq(|names|, i requires 0 <= i < |names| reads this requires Valid() =>
                         (names[i], modules[names[i]]));
      assert forall i :: 0 <= i < |items| ==> items[i] == (names[i], modules[names[i]]);
      items
    }

    /** The instances registered under `ns`, in that order, that are of class `kind`. */
    function OfType(ns: seq<string>, kind: string): (r: seq<ModuleInstance>)
      reads this
      requires forall n :: n in ns ==> n in modules
      ensures forall i :: 0 <= i < |r| ==> kind in r[i].cls.types && exists n :: n in ns && modules[n] == r[i]
      ensures forall n :: n in ns && kind in modules[n].cls.types ==> modules[n] in r
    {
      if ns == [] then []
      else
        var rest := OfType(ns[1..], kind);
        assert forall n :: n in ns <==> n == ns[0] || n in ns[1..];
        if kind in modules[ns[0]].cls.types then [modules[ns[0]]] + rest else rest
    }

    /** `get_modules_by_type` (lines 75-80): exactly the registered instances of that class. */
    function GetModulesByType(kind: string): (r: seq<ModuleInstance>)
      reads this
      requires Valid()
      ensures forall i :: 0 <= i < |r| ==> kind in r[i].cls.types && exists n :: n in modules && modules[n] == r[i]
      ensures forall n :: n in modules && kind in modules[n].cls.types ==> modules[n] in r
    {
      OfType(names, kind)
    }

    /** `unload_module` (lines 82-89); `cleanup` of the base class does nothing. */
    method UnloadModule(name: string) returns (b: bool)
      requires Valid()
      modifies this
      ensures Valid()
      ensures b <==> name in old(modules)
      ensures name !in modules
      ensures modules == old(modules) - {name}
      ensures names == Without(old(names), name)
    {
      if name in modules {
        modules := modules - {name};
        names := Without(names, name);
        return true;
      }
      assert names == Without(names, name);
      return false;
    }

    /** `reload_module` (lines 91-94): unload, then load afresh at the end of the order. */
    method ReloadModule(name: string, sources: map<string, ModuleSource>) returns (b: bool)
      requires Valid()
      modifies this
      ensures Valid()
      ensures var o := Outcome(SourceOf(sources, name));
        && (b <==> o.Loaded?)
        && (o.NotLoaded? ==> modules == old(modules) - {name} && names == Without(old(names), name))
        && (!o.NotLoaded? ==>
              && name in modules && fresh(modules[name]) && modules[name].cls == o.cls && modules[name].enabled
              && modules == (old(modules) - {name})[name := modules[name]]
              && names == Without(old(names), name) + [name])
    {
      var _ := UnloadModule(name);
      var m := LoadModule(name, sources);
      b := m.Some?;
    }
  }
}
