/** The switchboard layout endpoints (backend/app/api/panel.py). */
module PanelApi {

  import opened Common
  import opened Tables
  import opened Models

  const ProjectNotFound := HttpError(404, "Project not found")
  const ElementNotFound := HttpError(404, "Element not found")
  const ForeignElement := HttpError(400, "Element must belong to the same project")
  const PanelElementNotFound := HttpError(404, "Panel element not found")

  /** `schemas.PanelElementUpdate`: None is a field the client did not send. */
  datatype PanelElementUpdate = PanelElementUpdate(
    positionX: Option<real>, positionY: Option<real>, width: Option<real>, height: Option<real>)

  /** One `(field, value)` item of `update_data`. */
  datatype PanelAttr = PositionX(real) | PositionY(real) | Width(real) | Height(real)

  /** `panel_element_update.dict(exclude_unset=True).items()`, in the schema's field order. */
  function UpdateData(u: PanelElementUpdate): seq<PanelAttr> {
    (if u.positionX.Some? then [PositionX(u.positionX.value)] else []) +
    (if u.positionY.Some? then [PositionY(u.positionY.value)] else []) +
    (if u.width.Some? then [Width(u.width.value)] else []) +
    (if u.height.Some? then [Height(u.height.value)] else [])
  }

  /** `setattr(db_panel_element, field, value)` */
  function SetAttr(p: PanelElement, a: PanelAttr): PanelElement {
    match a
    case PositionX(v) => p.(positionX := v)
    case PositionY(v) => p.(positionY := v)
    case Width(v) => p.(width := v)
    case Height(v) => p.(height := v)
  }

  /** The `setattr` loop changes exactly the supplied fields; project and element stay. */
  lemma UpdateChangesOnlySuppliedFields(p: PanelElement, u: PanelElementUpdate)
    ensures var r := Fold(p, UpdateData(u), SetAttr);
      && r.projectId == p.projectId && r.elementId == p.elementId
      && r.positionX == (if u.positionX.Some? then u.positionX.value else p.positionX)
      && r.positionY == (if u.positionY.Some? then u.positionY.value else p.positionY)
      && r.width == (if u.width.Some? then u.width.value else p.width)
      && r.height == (if u.height.Some? then u.height.value else p.height)
  {
    var a := if u.positionX.Some? then [PositionX(u.positionX.value)] else [];
    var b := if u.positionY.Some? then [PositionY(u.positionY.value)] else [];
    var c := if u.width.Some? then [Width(u.width.value)] else [];
    var d := if u.height.Some? then [Height(u.height.value)] else [];
    FoldAppend(p, a + b + c, d, SetAttr);
    FoldAppend(p, a + b, c, SetAttr);
    FoldAppend(p, a, b, SetAttr);
  }

  /** `create_panel_element` (lines 9-28): project, element, then the element's project are checked. */
  method CreatePanelElement(db: Database, p: PanelElement) returns (r: Result<Row<PanelElement>>)
    requires db.Valid()
    modifies db
    ensures db.Valid()
    ensures db.projects == old(db.projects) && db.elements == old(db.elements)
    ensures db.connections == old(db.connections)
    ensures !HasId(db.projects, p.projectId) ==> r == Err(ProjectNotFound)
    ensures HasId(db.projects, p.projectId) && !HasId(db.elements, p.elementId) ==> r == Err(ElementNotFound)
    ensures HasId(db.projects, p.projectId) && HasId(db.elements, p.elementId) ==>
              (if Lookup(db.elements, p.elementId).value.rec.projectId == p.projectId
               then r.Ok? else r == Err(ForeignElement))
    ensures r.Err? ==> db.panelElements == old(db.panelElements)
    ensures r.Ok? ==>
              r.value == Row(NextId(old(db.panelElements)), p) && !HasId(old(db.panelElements), r.value.id) &&
              db.panelElements == old(db.panelElements) + [r.value]
  {
    if Lookup(db.projects, p.projectId).None? {
      return Err(ProjectNotFound);
    }
    var element := Lookup(db.elements, p.elementId);
    if element.None? {
      return Err(ElementNotFound);
    }
    if element.value.rec.projectId != p.projectId {
      return Err(ForeignElement);
    }
    var id := NextId(db.panelElements);
    db.panelElements := Insert(db.panelElements, p);
    r := Ok(Row(id, p));
  }

  /** `get_panel_elements_by_project` (lines 30-33) */
  function GetPanelElementsByProject(db: Database, projectId: int): (r: seq<Row<PanelElement>>)
    reads db
    ensures forall row :: row in r <==> row in db.panelElements && row.rec.projectId == projectId
  {
    Where(db.panelElements, (row: Row<PanelElement>) => row.rec.projectId == projectId)
  }

  /** `get_panel_element` (lines 35-40) */
  function GetPanelElement(db: Database, id: int): (r: Result<Row<PanelElement>>)
    reads db
    requires db.Valid()
    ensures r.Err? <==> !HasId(db.panelElements, id)
    ensures r.Err? ==> r.error == PanelElementNotFound
    ensures r.Ok? ==> r.value in db.panelElements && r.value.id == id
  {
    match Lookup(db.panelElements, id)
    case None => Err(PanelElementNotFound)
    case Some(row) => Ok(row)
  }

  /** `update_panel_element` (lines 42-54) */
  method UpdatePanelElement(db: Database, id: int, u: PanelElementUpdate) returns (r: Result<Row<PanelElement>>)
    requires db.Valid()
    modifies db
    ensures db.Valid()
    ensures db.projects == old(db.projects) && db.elements == old(db.elements)
    ensures db.connections == old(db.connections)
    ensures !HasId(old(db.panelElements), id) ==>
              r == Err(PanelElementNotFound) && db.panelElements == old(db.panelElements)
    ensures HasId(old(db.panelElements), id) ==>
              var before := Lookup(old(db.panelElements), id).value.rec;
              && r.Ok? && r.value.id == id
              && r.value.rec.projectId == before.projectId
              && r.value.rec.elementId == before.elementId
              && r.value.rec.positionX == (if u.positionX.Some? then u.positionX.value else before.positionX)
              && r.value.rec.positionY == (if u.positionY.Some? then u.positionY.value else before.positionY)
              && r.value.rec.width == (if u.width.Some? then u.width.value else before.width)
              && r.value.rec.height == (if u.height.Some? then u.height.value else before.height)
              && db.panelElements == Replace(old(db.panelElements), r.value)
  {
    var found := Lookup(db.panelElements, id);
    if found.None? {
      return Err(PanelElementNotFound);
    }
    var patched := SetAttrs(found.value.rec, UpdateData(u), SetAttr);
    UpdateChangesOnlySuppliedFields(found.value.rec, u);
    db.panelElements := Replace(db.panelElements, Row(id, patched));
    r := Ok(Row(id, patched));
  }

  /** `delete_panel_element` (lines 56-64) */
  method DeletePanelElement(db: Database, id: int) returns (r: Result<string>)
    requires db.Valid()
    modifies db
    ensures db.Valid()
    ensures db.projects == old(db.projects) && db.elements == old(db.elements)
    ensures db.connections == old(db.connections)
    ensures !HasId(old(db.panelElements), id) ==>
              r == Err(PanelElementNotFound) && db.panelElements == old(db.panelElements)
    ensures HasId(old(db.panelElements), id) ==> r == Ok("Panel element deleted")
    ensures forall row :: row in db.panelElements <==> row in old(db.panelElements) && row.id != id
  {
    if Lookup(db.panelElements, id).None? {
      return Err(PanelElementNotFound);
    }
    db.panelElements := Delete(db.panelElements, id);
    r := Ok("Panel element deleted");
  }
}
