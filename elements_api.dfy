/** The electrical element endpoints (backend/app/api/elements.py). */
module ElementsApi {

  import opened Common
  import opened Tables
  import opened Models

  const ProjectNotFound := HttpError(404, "Project not found")
  const ElementNotFound := HttpError(404, "Element not found")

  /** `schemas.ElementUpdate`: None is a field the client did not send; the type is not updatable. */
  datatype ElementUpdate = ElementUpdate(
    elementId: Option<string>, name: Option<string>, x: Option<real>, y: Option<real>,
    properties: Option<map<string, string>>)

  /** One `(field, value)` item of `update_data`. */
  datatype ElementAttr = ElementId(string) | Name(string) | X(real) | Y(real) | Properties(map<string, string>)

  /** `element_update.dict(exclude_unset=True).items()`, in the schema's field order. */
  function UpdateData(u: ElementUpdate): seq<ElementAttr> {
    (if u.elementId.Some? then [ElementId(u.elementId.value)] else []) +
    (if u.name.Some? then [Name(u.name.value)] else []) +
    (if u.x.Some? then [X(u.x.value)] else []) +
    (if u.y.Some? then [Y(u.y.value)] else []) +
    (if u.properties.Some? then [Properties(u.properties.value)] else [])
  }

  /** `setattr(db_element, field, value)` */
  function SetAttr(e: Element, a: ElementAttr): Element {
    match a
    case ElementId(v) => e.(elementId := v)
    case Name(v) => e.(name := v)
    case X(v) => e.(x := v)
    case Y(v) => e.(y := v)
    case Properties(v) => e.(properties := v)
  }

  /** The `setattr` loop changes exactly the supplied fields; project and type never change. */
  lemma UpdateChangesOnlySuppliedFields(e: Element, u: ElementUpdate)
    ensures var r := Fold(e, UpdateData(u), SetAttr);
      && r.projectId == e.projectId && r.elementType == e.elementType
      && r.elementId == (if u.elementId.Some? then u.elementId.value else e.elementId)
      && r.name == (if u.name.Some? then u.name.value else e.name)
      && r.x == (if u.x.Some? then u.x.value else e.x)
      && r.y == (if u.y.Some? then u.y.value else e.y)
      && r.properties == (if u.properties.Some? then u.properties.value else e.properties)
  {
    var a := if u.elementId.Some? then [ElementId(u.elementId.value)] else [];
    var b := if u.name.Some? then [Name(u.name.value)] else [];
    var c := if u.x.Some? then [X(u.x.value)] else [];
    var d := if u.y.Some? then [Y(u.y.value)] else [];
    var f := if u.properties.Some? then [Properties(u.properties.value)] else [];
    var r1 := ApplyMaybe(e, a, SetAttr);
    assert r1 == if u.elementId.Some? then e.(elementId := u.elementId.value) else e;
    var r2 := ApplyMaybe(r1, b, SetAttr);
    assert r2 == if u.name.Some? then r1.(name := u.name.value) else r1;
    var r3 := ApplyMaybe(r2, c, SetAttr);
    assert r3 == if u.x.Some? then r2.(x := u.x.value) else r2;
    var r4 := ApplyMaybe(r3, d, SetAttr);
    assert r4 == if u.y.Some? then r3.(y := u.y.value) else r3;
    var r5 := ApplyMaybe(r4, f, SetAttr);
    assert r5 == if u.properties.Some? then r4.(properties := u.properties.value) else r4;
    FoldFive(e, a, b, c, d, f, SetAttr);
    assert UpdateData(u) == a + b + c + d + f;
  }

  /** `create_element` (lines 9-20): only the project is checked. */
  method CreateElement(db: Database, e: Element) returns (r: Result<Row<Element>>)
    requires db.Valid()
    modifies db
    ensures db.Valid()
    ensures db.projects == old(db.projects) && db.panelElements == old(db.panelElements)
    ensures db.connections == old(db.connections)
    ensures r.Err? <==> !HasId(db.projects, e.projectId)
    ensures r.Err? ==> r.error == ProjectNotFound && db.elements == old(db.elements)
    ensures r.Ok? ==>
              r.value == Row(NextId(old(db.elements)), e) && !HasId(old(db.elements), r.value.id) &&
              db.elements == old(db.elements) + [r.value]
  {
    if Lookup(db.projects, e.projectId).None? {
      return Err(ProjectNotFound);
    }
    var id := NextId(db.elements);
    db.elements := Insert(db.elements, e);
    r := Ok(Row(id, e));
  }

  /** `get_elements_by_project` (lines 22-25) */
  function GetElementsByProject(db: Database, projectId: int): (r: seq<Row<Element>>)
    reads db
    ensures forall row :: row in r <==> row in db.elements && row.rec.projectId == projectId
  {
    Where(db.elements, (row: Row<Element>) => row.rec.projectId == projectId)
  }

  /** `get_element` (lines 27-32) */
  function GetElement(db: Database, id: int): (r: Result<Row<Element>>)
    reads db
    requires db.Valid()
    ensures r.Err? <==> !HasId(db.elements, id)
    ensures r.Err? ==> r.error == ElementNotFound
    ensures r.Ok? ==> r.value in db.elements && r.value.id == id
  {
    match Lookup(db.elements, id)
    case None => Err(ElementNotFound)
    case Some(row) => Ok(row)
  }

  /** `update_element` (lines 34-46) */
  method UpdateElement(db: Database, id: int, u: ElementUpdate) returns (r: Result<Row<Element>>)
    requires db.Valid()
    modifies db
    ensures db.Valid()
    ensures db.projects == old(db.projects) && db.panelElements == old(db.panelElements)
    ensures db.connections == old(db.connections)
    ensures !HasId(old(db.elements), id) ==> r == Err(ElementNotFound) && db.elements == old(db.elements)
    ensures HasId(old(db.elements), id) ==>
              var before := Lookup(old(db.elements), id).value.rec;
              && r.Ok? && r.value.id == id
              && r.value.rec.projectId == before.projectId
              && r.value.rec.elementType == before.elementType
              && r.value.rec.elementId == (if u.elementId.Some? then u.elementId.value else before.elementId)
              && r.value.rec.name == (if u.name.Some? then u.name.value else before.name)
              && r.value.rec.x == (if u.x.Some? then u.x.value else before.x)
              && r.value.rec.y == (if u.y.Some? then u.y.value else before.y)
              && r.value.rec.properties == (if u.properties.Some? then u.properties.value else before.properties)
              && db.elements == Replace(old(db.elements), r.value)
  {
    var found := Lookup(db.elements, id);
    if found.None? {
      return Err(ElementNotFound);
    }
    var patched := SetAttrs(found.value.rec, UpdateData(u), SetAttr);
    UpdateChangesOnlySuppliedFields(found.value.rec, u);
    db.elements := Replace(db.elements, Row(id, patched));
    r := Ok(Row(id, patched));
  }

  /**
   * A connection or switchboard row still points at the element.  Element
   * has no delete cascade to them, so the ORM nulls their NOT NULL foreign
   * keys on delete and the commit fails (an internal server error).
   */
  predicate Referenced(db: Database, id: int)
    reads db
  {
    || (exists row :: row in db.connections && (row.rec.fromElementId == id || row.rec.toElementId == id))
    || (exists row :: row in db.panelElements && row.rec.elementId == id)
  }

  const CommitFailed := HttpError(500, "Internal Server Error")

  /** `delete_element` (lines 48-56) */
  method DeleteElement(db: Database, id: int) returns (r: Result<string>)
    requires db.Valid()
    modifies db
    ensures db.Valid()
    ensures db.projects == old(db.projects) && db.panelElements == old(db.panelElements)
    ensures db.connections == old(db.connections)
    ensures !HasId(old(db.elements), id) ==> r == Err(ElementNotFound)
    ensures HasId(old(db.elements), id) && old(Referenced(db, id)) ==> r == Err(CommitFailed)
    ensures r.Err? ==> db.elements == old(db.elements)
    ensures r.Ok? <==> HasId(old(db.elements), id) && !old(Referenced(db, id))
    ensures r.Ok? ==> r.value == "Element deleted"
    ensures r.Ok? ==> forall row :: row in db.elements <==> row in old(db.elements) && row.id != id
  {
    if Lookup(db.elements, id).None? {
      return Err(ElementNotFound);
    }
    if Referenced(db, id) {
      return Err(CommitFailed);
    }
    db.elements := Delete(db.elements, id);
    r := Ok("Element deleted");
  }
}
