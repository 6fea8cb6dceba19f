/**
 * The floor-plan tool palette (FloorPlanToolPalette.tsx): a closed set of
 * tool kinds shown in three groups, and the toggle rule a tool button
 * applies to the selection.
 */
module ToolPalette {

  import opened Common

  /** The non-null values of `FloorPlanToolType` (lines 16-31). */
  datatype ToolKind =
    | RoomKitchen | RoomLiving | RoomBedroom | RoomBathroom | RoomCorridor | RoomBedroom2
    | Wall | Door | Window
    | FurnitureTable | FurnitureChair | FurnitureBed | FurnitureWardrobe | FurnitureSofa

  /** A palette selection: a tool, or none (`null`). */
  type Selection = Option<ToolKind>

  /** The string literal each kind stands for. */
  function TypeName(k: ToolKind): string {
    match k
    case RoomKitchen => "room_kitchen"
    case RoomLiving => "room_living"
    case RoomBedroom => "room_bedroom"
    case RoomBathroom => "room_bathroom"
    case RoomCorridor => "room_corridor"
    case RoomBedroom2 => "room_bedroom2"
    case Wall => "wall"
    case Door => "door"
    case Window => "window"
    case FurnitureTable => "furniture_table"
    case FurnitureChair => "furniture_chair"
    case FurnitureBed => "furniture_bed"
    case FurnitureWardrobe => "furniture_wardrobe"
    case FurnitureSofa => "furniture_sofa"
  }

  /** The three button groups, in display order (lines 38-59). */
  const RoomTools: seq<ToolKind> :=
    [RoomKitchen, RoomLiving, RoomBedroom, RoomBathroom, RoomCorridor, RoomBedroom2]
  const StructureTools: seq<ToolKind> := [Wall, Door, Window]
  const FurnitureTools: seq<ToolKind> :=
    [FurnitureTable, FurnitureChair, FurnitureBed, FurnitureWardrobe, FurnitureSofa]

  /** What a tool button's `onChange` passes to `onToolSelect` (lines 83, 118, 148). */
  function Toggle(selected: Selection, clicked: ToolKind): (r: Selection)
    ensures r == None || r == Some(clicked)
    ensures r == None <==> selected == Some(clicked)
  {
    if selected == Some(clicked) then None else Some(clicked)
  }

  /** From no selection, clicking a tool selects it and clicking it again deselects it. */
  lemma ToggleTwiceFromNone(k: ToolKind)
    ensures Toggle(None, k) == Some(k)
    ensures Toggle(Toggle(None, k), k) == None
  {
  }

  /** Clicking a second tool while one is selected switches to it. */
  lemma ToggleSwitches(current: ToolKind, k: ToolKind)
    requires current != k
    ensures Toggle(Some(current), k) == Some(k)
  {
  }

  /** Each kind has its own literal, so the string type loses nothing. */
  lemma TypeNameInjective(a: ToolKind, b: ToolKind)
    ensures TypeName(a) == TypeName(b) <==> a == b
  {
  }

  /** All buttons, group after group. */
  const AllTools: seq<ToolKind> := RoomTools + StructureTools + FurnitureTools

  /** Every kind has a button. */
  lemma EveryKindListed(k: ToolKind)
    ensures k in AllTools
  {
  }

  /** No kind has two buttons, so the three groups are disjoint. */
  lemma NoKindListedTwice()
    ensures |AllTools| == 14
    ensures forall i, j :: 0 <= i < j < |AllTools| ==> AllTools[i] != AllTools[j]
  {
  }

  lemma StartsWithHead(s: string, prefix: string)
    requires |prefix| > 0
    ensures StartsWith(s, prefix) ==> |s| > 0 && s[0] == prefix[0]
  {
    if StartsWith(s, prefix) {
      assert s[0] == s[..|prefix|][0];
    }
  }

  /** The room group is exactly the kinds named `room_…`, the furniture group those named `furniture_…`. */
  lemma GroupPrefixes(k: ToolKind)
    ensures k in RoomTools <==> StartsWith(TypeName(k), "room_")
    ensures k in FurnitureTools <==> StartsWith(TypeName(k), "furniture_")
    ensures k in StructureTools <==> !StartsWith(TypeName(k), "room_") && !StartsWith(TypeName(k), "furniture_")
  {
    var n := TypeName(k);
    StartsWithHead(n, "room_");
    StartsWithHead(n, "furniture_");
    if k in RoomTools {
      assert n[..5] == "room_" && n[0] == 'r';
    } else if k in FurnitureTools {
      assert n[..10] == "furniture_" && n[0] == 'f';
    } else {
      assert n[0] != 'r' && n[0] != 'f';
    }
  }
}
