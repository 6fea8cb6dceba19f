/**
 * The example plug-in module (backend/app/modules/example_module.py): its
 * description and its cable-section rule.  Power and distance are exact
 * reals; the rule only compares them with constants.
 */
module ExampleModule {

  /** `get_info` (lines 14-21), with the name and version the constructor passes (line 12). */
  datatype ModuleInfo = ModuleInfo(name: string, version: string, description: string, author: string)

  const ModuleName: string := "Example Connection Module"
  const ModuleVersion: string := "1.0.0"

  function GetInfo(): (info: ModuleInfo)
    ensures info.name == ModuleName && info.version == ModuleVersion && info.author == "System"
  {
    ModuleInfo(ModuleName, ModuleVersion, "Пример модуля для расчета параметров кабелей", "System")
  }

  /** Suggested cable section in mm² for a load of `power` watts over `distance` metres (lines 41-65). */
  function SuggestCableSection(power: real, distance: real): real {
    if power <= 1000.0 then
      if distance <= 10.0 then 1.5
      else if distance <= 20.0 then 2.5
      else 4.0
    else if power <= 2000.0 then
      if distance <= 10.0 then 2.5
      else if distance <= 20.0 then 4.0
      else 6.0
    else
      if distance <= 10.0 then 4.0
      else if distance <= 20.0 then 6.0
      else 10.0
  }

  /** The cable sections the rule can suggest, smallest first. */
  const Sections: seq<real> := [1.5, 2.5, 4.0, 6.0, 10.0]

  /** 0 up to 1 kW, 1 up to 2 kW, 2 above; upper bounds are inclusive. */
  function PowerBand(power: real): (b: nat)
    ensures b <= 2
  {
    if power <= 1000.0 then 0 else if power <= 2000.0 then 1 else 2
  }

  /** 0 up to 10 m, 1 up to 20 m, 2 beyond; upper bounds are inclusive. */
  function DistanceBand(distance: real): (b: nat)
    ensures b <= 2
  {
    if distance <= 10.0 then 0 else if distance <= 20.0 then 1 else 2
  }

  /** The 3×3 table is a staircase: each band step moves one section up. */
  lemma SectionIsBandSum(power: real, distance: real)
    ensures SuggestCableSection(power, distance) == Sections[PowerBand(power) + DistanceBand(distance)]
  {
  }

  /** Every suggestion is one of the five standard sections. */
  lemma SectionInRange(power: real, distance: real)
    ensures SuggestCableSection(power, distance) in Sections
    ensures 1.5 <= SuggestCableSection(power, distance) <= 10.0
  {
    SectionIsBandSum(power, distance);
  }

  lemma SectionsIncreasing(i: nat, j: nat)
    requires i <= j < |Sections|
    ensures Sections[i] <= Sections[j]
  {
  }

  /** A longer run never gets a thinner cable. */
  lemma MonotoneInDistance(power: real, d1: real, d2: real)
    requires d1 <= d2
    ensures SuggestCableSection(power, d1) <= SuggestCableSection(power, d2)
  {
    SectionIsBandSum(power, d1);
    SectionIsBandSum(power, d2);
    SectionsIncreasing(PowerBand(power) + DistanceBand(d1), PowerBand(power) + DistanceBand(d2));
  }

  /** A heavier load never gets a thinner cable. */
  lemma MonotoneInPower(p1: real, p2: real, distance: real)
    requires p1 <= p2
    ensures SuggestCableSection(p1, distance) <= SuggestCableSection(p2, distance)
  {
    SectionIsBandSum(p1, distance);
    SectionIsBandSum(p2, distance);
    SectionsIncreasing(PowerBand(p1) + DistanceBand(distance), PowerBand(p2) + DistanceBand(distance));
  }

  /** The extreme sections and the inclusive band bounds. */
  lemma ExtremeSections(power: real, distance: real)
    ensures SuggestCableSection(power, distance) == 10.0 <==> power > 2000.0 && distance > 20.0
    ensures SuggestCableSection(power, distance) == 1.5 <==> power <= 1000.0 && distance <= 10.0
    ensures SuggestCableSection(1000.0, 10.0) == 1.5
    ensures SuggestCableSection(1000.0, 20.0) == 2.5
    ensures SuggestCableSection(2000.0, 20.0) == 4.0
  {
  }
}
