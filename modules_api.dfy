/** The plug-in endpoints (backend/app/api/modules.py) over the global registry. */
module ModulesApi {

  import opened Common
  import opened ModuleLoading
  import opened ModuleRegistry

  const ModuleNotFound := HttpError(404, "Module not found")
  const ReloadFailed := HttpError(404, "Module not found or failed to reload")

  /** One entry of the listing: `{"name", "info", "enabled"}`. */
  datatype ModuleEntry = ModuleEntry(name: string, info: map<string, string>, enabled: bool)

  function Entry(mm: ModuleManager, name: string): ModuleEntry
    reads mm, mm.modules.Values
    requires name in mm.modules
  {
    ModuleEntry(name, mm.modules[name].cls.info, mm.modules[name].enabled)
  }

  /** `get_modules` (lines 11-22): one entry per registered module, in registration order. */
  function ListModules(mm: ModuleManager): (r: seq<ModuleEntry>)
    reads mm, mm.modules.Values
    requires mm.Valid()
    ensures |r| == |mm.names|
    ensures forall i :: 0 <= i < |r| ==> mm.names[i] in mm.modules && r[i] == Entry(mm, mm.names[i])
    ensures forall n :: n in mm.modules <==> exists i :: 0 <= i < |r| && r[i].name == n
    ensures forall i, j :: 0 <= i < j < |r| ==> r[i].name != r[j].name
  {
    var r := seq(|mm.names|, i requires 0 <= i < |mm.names| reads mm, mm.modules.Values requires mm.Valid() =>
                   Entry(mm, mm.names[i]));
    assert forall n :: n in mm.modules ==> exists i :: 0 <= i < |mm.names| && mm.names[i] == n;
    r
  }

  /** `get_module` (lines 24-36) */
  function GetModuleInfo(mm: ModuleManager, name: string): (r: Result<ModuleEntry>)
    reads mm, mm.modules.Values
    ensures r.Err? <==> name !in mm.modules
    ensures r.Err? ==> r.error == ModuleNotFound
    ensures r.Ok? ==> r.value.name == name && r.value.enabled == mm.modules[name].enabled
    ensures r.Ok? ==> r.value.info == mm.modules[name].cls.info
  {
    match mm.GetModule(name)
    case None => Err(ModuleNotFound)
    case Some(_) => Ok(Entry(mm, name))
  }

  /** `reload_module` (lines 38-46) */
  method ReloadModule(mm: ModuleManager, name: string, sources: map<string, ModuleSource>) returns (r: Result<string>)
    requires mm.Valid()
    modifies mm
    ensures mm.Valid()
    ensures Outcome(SourceOf(sources, name)).Loaded? ==> r == Ok("Module " + name + " reloaded successfully")
    ensures !Outcome(SourceOf(sources, name)).Loaded? ==> r == Err(ReloadFailed)
    ensures Outcome(SourceOf(sources, name)).NotLoaded? ==> name !in mm.modules
    ensures !Outcome(SourceOf(sources, name)).NotLoaded? ==>
              && name in mm.modules && fresh(mm.modules[name])
              && mm.modules[name].cls == Outcome(SourceOf(sources, name)).cls && mm.modules[name].enabled
    ensures forall n :: n != name ==> (n in mm.modules <==> n in old(mm.modules))
    ensures mm.names == Without(old(mm.names), name) + (if Outcome(SourceOf(sources, name)).NotLoaded? then [] else [name])
    ensures forall n :: n != name && n in mm.modules ==> mm.modules[n] == old(mm.modules[n])
  {
    var success := mm.ReloadModule(name, sources);
    if !success {
      return Err(ReloadFailed);
    }
    r := Ok("Module " + name + " reloaded successfully");
  }

  /** `enable_module` (lines 48-57) */
  method EnableModule(mm: ModuleManager, name: string) returns (r: Result<string>)
    requires mm.Valid()
    modifies mm.modules.Values
    ensures r.Err? <==> name !in mm.modules
    ensures r.Err? ==> r.error == ModuleNotFound
    ensures r.Ok? ==> r.value == "Module " + name + " enabled" && mm.modules[name].enabled
    ensures forall n :: n in mm.modules && n != name ==> mm.modules[n].enabled == old(mm.modules[n].enabled)
  {
    var found := mm.GetModule(name);
    if found.None? {
      return Err(ModuleNotFound);
    }
    found.value.enabled := true;
    r := Ok("Module " + name + " enabled");
  }

  /** `disable_module` (lines 59-68) */
  method DisableModule(mm: ModuleManager, name: string) returns (r: Result<string>)
    requires mm.Valid()
    modifies mm.modules.Values
    ensures r.Err? <==> name !in mm.modules
    ensures r.Err? ==> r.error == ModuleNotFound
    ensures r.Ok? ==> r.value == "Module " + name + " disabled" && !mm.modules[name].enabled
    ensures forall n :: n in mm.modules && n != name ==> mm.modules[n].enabled == old(mm.modules[n].enabled)
  {
    var found := mm.GetModule(name);
    if found.None? {
      return Err(ModuleNotFound);
    }
    found.value.enabled := false;
    r := Ok("Module " + name + " disabled");
  }
}
