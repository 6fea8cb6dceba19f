/**
 * What `ModuleManager.load_module` and `load_modules` decide
 * (backend/app/modules/module_manager.py), on the facts that `importlib`,
 * `inspect` and `os` would report: the directory listing, whether a module
 * imports, and its members in `inspect.getmembers` order (sorted by name).
 */
module ModuleLoading {

  import opened Common
  import ExampleModule

  /** One `(name, obj)` pair of `inspect.getmembers(module)`, described by what the loader asks of it. */
  datatype Member = Member(
    name: string,
    isClass: bool,                 // inspect.isclass(obj)
    isSubclass: bool,              // issubclass(obj, BaseModule), true for BaseModule itself
    isBase: bool,                  // obj is BaseModule
    isAbstract: bool,              // abstract methods left unimplemented: obj() raises TypeError
    initRaises: bool,              // obj() raises for another reason
    initializeRaises: bool,        // instance.initialize(context) raises
    types: set<string>,            // the class names `isinstance` accepts for an instance
    info: map<string, string>)     // what instance.get_info() returns

  /** The result of `importlib.import_module`. */
  datatype ModuleSource = ImportFails | Imported(members: seq<Member>)

  /** The environment: a name without an entry does not import. */
  function SourceOf(sources: map<string, ModuleSource>, name: string): (src: ModuleSource)
    ensures name !in sources ==> src == ImportFails
  {
    if name in sources then sources[name] else ImportFails
  }

  /** The test of lines 51-53. */
  predicate IsModuleClass(m: Member) {
    m.isClass && m.isSubclass && !m.isBase
  }

  /** A module class that can be instantiated: the test the loader evidently needs. */
  predicate IsConcreteModuleClass(m: Member) {
    IsModuleClass(m) && !m.isAbstract
  }

  /** The index of the first member satisfying `p`, if any. */
  function FirstIndex(ms: seq<Member>, p: Member -> bool): (r: Option<nat>)
    ensures r.None? <==> forall i :: 0 <= i < |ms| ==> !p(ms[i])
    ensures r.Some? ==> r.value < |ms| && p(ms[r.value])
    ensures r.Some? ==> forall j :: 0 <= j < r.value ==> !p(ms[j])
  {
    if ms == [] then None
    else if p(ms[0]) then Some(0)
    else
      match FirstIndex(ms[1..], p)
      case None => None
      case Some(k) => Some(k + 1)
  }

  /** The member the loop of lines 50-53 instantiates, as written. */
  function FirstSubclass(ms: seq<Member>): Option<nat> {
    FirstIndex(ms, IsModuleClass)
  }

  /** The member a loader that skips abstract classes instantiates. */
  function FirstConcreteSubclass(ms: seq<Member>): Option<nat> {
    FirstIndex(ms, IsConcreteModuleClass)
  }

  /**
   * How one `load_module` call ends: nothing happens, the instance is
   * registered but `initialize` raised (so None is returned), or the
   * instance is registered and returned.
   */
  datatype LoadOutcome = NotLoaded | RegisteredOnly(cls: Member) | Loaded(cls: Member)

  function OutcomeOf(ms: seq<Member>, k: nat): LoadOutcome
    requires k < |ms|
  {
    if ms[k].isAbstract || ms[k].initRaises then NotLoaded
    else if ms[k].initializeRaises then RegisteredOnly(ms[k])
    else Loaded(ms[k])
  }

  /** `load_module` (lines 42-65) as written: the first subclass, abstract or not. */
  function OutcomeAsWritten(src: ModuleSource): (o: LoadOutcome)
    ensures src.ImportFails? ==> o == NotLoaded
    ensures src.Imported? && FirstSubclass(src.members).None? ==> o == NotLoaded
    ensures (src.Imported? && FirstSubclass(src.members).Some? &&
             src.members[FirstSubclass(src.members).value].isAbstract) ==> o == NotLoaded
  {
    match src
    case ImportFails => NotLoaded
    case Imported(ms) =>
      match FirstSubclass(ms)
      case None => NotLoaded
      case Some(k) => OutcomeOf(ms, k)
  }

  /** `load_module` with the selection skipping abstract classes; the registry uses this one. */
  function Outcome(src: ModuleSource): (o: LoadOutcome)
    ensures src.ImportFails? ==> o == NotLoaded
    ensures !o.NotLoaded? ==> src.Imported? && o.cls in src.members && IsConcreteModuleClass(o.cls) && !o.cls.initRaises
    ensures o.Loaded? ==> !o.cls.initializeRaises
    ensures o.RegisteredOnly? ==> o.cls.initializeRaises
    ensures (src.Imported? && forall i :: 0 <= i < |src.members| ==> !IsConcreteModuleClass(src.members[i]))
              ==> o == NotLoaded
  {
    match src
    case ImportFails => NotLoaded
    case Imported(ms) =>
      match FirstConcreteSubclass(ms)
      case None => NotLoaded
      case Some(k) => OutcomeOf(ms, k)
  }

  /** Where no module class is abstract, skipping abstract classes changes nothing. */
  lemma SelectionsAgreeWithoutAbstractClasses(ms: seq<Member>)
    requires forall i :: 0 <= i < |ms| && IsModuleClass(ms[i]) ==> !ms[i].isAbstract
    ensures FirstSubclass(ms) == FirstConcreteSubclass(ms)
    ensures OutcomeAsWritten(Imported(ms)) == Outcome(Imported(ms))
  {
    var a := FirstSubclass(ms);
    if a.Some? {
      assert IsConcreteModuleClass(ms[a.value]);
    }
  }

  // ----- the repository's own plug-in -----

  /** What `get_info` of `ExampleConnectionModule` returns (example_module.py:14-21). */
  function ExampleInfo(): (info: map<string, string>)
    ensures info.Keys == {"name", "version", "description", "author"}
    ensures info["name"] == ExampleModule.ModuleName && info["author"] == "System"
  {
    var i := ExampleModule.GetInfo();
    map["name" := i.name, "version" := i.version, "description" := i.description, "author" := i.author]
  }

  /** A name `inspect.getmembers` lists that is not a class (or not a module class). */
  function Other(name: string, isClass: bool): Member {
    Member(name, isClass, false, false, false, false, false, {}, map[])
  }

  const BaseModuleClass: Member :=
    Member("BaseModule", true, true, true, true, false, false, {"BaseModule"}, map[])

  /** `ConnectionModule`, imported by example_module.py:6; it leaves its abstract methods open. */
  const ConnectionModuleClass: Member :=
    Member("ConnectionModule", true, true, false, true, false, false, {"BaseModule", "ConnectionModule"}, map[])

  /** `ExampleConnectionModule` (example_module.py:8-65); `initialize` returns True. */
  const ExampleConnectionModuleClass: Member :=
    Member("ExampleConnectionModule", true, true, false, false, false, false,
           {"BaseModule", "ConnectionModule", "ExampleConnectionModule"}, ExampleInfo())

  /**
   * The class-valued and alias members of example_module in name order
   * (`Any` is a class in current Python, `Dict` and `List` are aliases);
   * the dunder attributes sort after them and are not classes.
   */
  const ExampleModuleSource: ModuleSource :=
    Imported([Other("Any", true), BaseModuleClass, ConnectionModuleClass, Other("Dict", false),
              ExampleConnectionModuleClass, Other("List", false)])

  /** As written, the loader picks `ConnectionModule`, whose instantiation raises, so the example never loads. */
  lemma ExampleModuleFailsAsWritten()
    ensures FirstSubclass(ExampleModuleSource.members) == Some(2)
    ensures ExampleModuleSource.members[2] == ConnectionModuleClass
    ensures OutcomeAsWritten(ExampleModuleSource) == NotLoaded
  {
    assert !IsModuleClass(ExampleModuleSource.members[0]);
    assert !IsModuleClass(ExampleModuleSource.members[1]);
    assert IsModuleClass(ExampleModuleSource.members[2]);
  }

  /** Skipping abstract classes loads `ExampleConnectionModule`. */
  lemma ExampleModuleLoadsCorrected()
    ensures FirstConcreteSubclass(ExampleModuleSource.members) == Some(4)
    ensures Outcome(ExampleModuleSource) == Loaded(ExampleConnectionModuleClass)
  {
    var ms := ExampleModuleSource.members;
    assert !IsConcreteModuleClass(ms[0]) && !IsConcreteModuleClass(ms[1]);
    assert !IsConcreteModuleClass(ms[2]) && !IsConcreteModuleClass(ms[3]);
    assert IsConcreteModuleClass(ms[4]);
  }

  // ----- the directory scan of load_modules -----

  /** The filter of line 31. */
  predicate IsModuleFile(filename: string) {
    EndsWith(filename, ".py") && filename != "__init__.py" && filename != "base_module.py" &&
    filename != "module_manager.py"
  }

  /** `filename[:-3]` (line 32). */
  function ModuleName(filename: string): (name: string)
    requires EndsWith(filename, ".py")
    ensures name + ".py" == filename
  {
    filename[..|filename| - 3]
  }

  /** The module names `load_modules` tries, in directory order (lines 30-32). */
  function CandidateNames(listing: seq<string>): (names: seq<string>)
    ensures |names| <= |listing|
  {
    if listing == [] then []
    else
      var f := listing[|listing| - 1];
      CandidateNames(listing[..|listing| - 1]) + (if IsModuleFile(f) then [ModuleName(f)] else [])
  }

  /** Scanning one more listing entry tries it exactly when it passes the filter. */
  lemma CandidateNamesStep(listing: seq<string>, i: nat)
    requires i < |listing|
    ensures CandidateNames(listing[..i + 1]) ==
            CandidateNames(listing[..i]) + (if IsModuleFile(listing[i]) then [ModuleName(listing[i])] else [])
  {
    assert listing[..i + 1][..i] == listing[..i];
  }

  /** A name is tried exactly when its file is listed and passes the filter. */
  lemma {:induction false} CandidateNamesExactly(listing: seq<string>, n: string)
    ensures n in CandidateNames(listing) <==> n + ".py" in listing && IsModuleFile(n + ".py")
  {
    if listing != [] {
      var init, f := listing[..|listing| - 1], listing[|listing| - 1];
      CandidateNamesExactly(init, n);
      assert listing == init + [f];
      assert n + ".py" in listing <==> n + ".py" == f || n + ".py" in init;
      if IsModuleFile(f) {
        assert n + ".py" == f <==> n == ModuleName(f) by {
          if n + ".py" == f {
            assert n == (n + ".py")[..|n|];
          }
        }
      }
    }
  }

  /**
   * The names among `names` whose load returned a module, in order, for a
   * given way of selecting the class (`OutcomeAsWritten` or `Outcome`).
   */
  function LoadedNames(names: seq<string>, sources: map<string, ModuleSource>,
                       outcome: ModuleSource -> LoadOutcome): (r: seq<string>)
    ensures |r| <= |names|
  {
    if names == [] then []
    else
      var n := names[|names| - 1];
      LoadedNames(names[..|names| - 1], sources, outcome) + (if outcome(SourceOf(sources, n)).Loaded? then [n] else [])
  }

  /** Trying one more name reports it exactly when its load returns a module. */
  lemma LoadedNamesStep(names: seq<string>, n: string, sources: map<string, ModuleSource>,
                        outcome: ModuleSource -> LoadOutcome)
    ensures LoadedNames(names + [n], sources, outcome) ==
            LoadedNames(names, sources, outcome) + (if outcome(SourceOf(sources, n)).Loaded? then [n] else [])
  {
    assert (names + [n])[..|names|] == names;
  }

  /** `load_modules` reports exactly the tried names whose load returned a module. */
  lemma {:induction false} LoadedNamesExactly(names: seq<string>, sources: map<string, ModuleSource>,
                                              outcome: ModuleSource -> LoadOutcome, n: string)
    ensures n in LoadedNames(names, sources, outcome) <==> n in names && outcome(SourceOf(sources, n)).Loaded?
  {
    if names != [] {
      var init := names[..|names| - 1];
      LoadedNamesExactly(init, sources, outcome, n);
      assert names == init + [names[|names| - 1]];
    }
  }

  /** backend/app/modules as `os.listdir` lists its three source files. */
  const RepositoryListing: seq<string> := ["base_module.py", "example_module.py", "module_manager.py"]

  /** The repository's modules directory scans to the example module alone. */
  lemma RepositoryDirectoryScan()
    ensures CandidateNames(RepositoryListing) == ["example_module"]
  {
    var l := RepositoryListing;
    assert !IsModuleFile(l[0]);
    assert IsModuleFile(l[1]) by { assert (l[1])[|l[1]| - 3..] == ".py"; }
    assert ModuleName(l[1]) == "example_module";
    assert !IsModuleFile(l[2]);
    assert CandidateNames(l[..1]) == [] by { assert l[..1][..0] == []; }
    assert CandidateNames(l[..2]) == ["example_module"] by { assert l[..2][..1] == l[..1]; }
    assert l[..3][..2] == l[..2] && l[..3] == l;
  }

  /** As written, start-up (main.py:23) over the repository's directory reports no module. */
  lemma RepositoryStartUpAsWritten()
    ensures LoadedNames(CandidateNames(RepositoryListing), map["example_module" := ExampleModuleSource],
                        OutcomeAsWritten) == []
  {
    RepositoryDirectoryScan();
    ExampleModuleFailsAsWritten();
    assert ["example_module"][..0] == [];
  }

  /** With the corrected selection, start-up (main.py:23) loads the example module. */
  lemma RepositoryStartUp()
    ensures LoadedNames(CandidateNames(RepositoryListing), map["example_module" := ExampleModuleSource],
                        Outcome) == ["example_module"]
  {
    RepositoryDirectoryScan();
    ExampleModuleLoadsCorrected();
    assert ["example_module"][..0] == [];
  }
}
