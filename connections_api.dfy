/** The connection endpoints (backend/app/api/connections.py). */
module ConnectionsApi {

  import opened Common
  import opened Tables
  import opened Models

  const ProjectNotFound := HttpError(404, "Project not found")
  const ElementNotFound := HttpError(404, "Element not found")
  const ForeignElement := HttpError(400, "Elements must belong to the same project")
  const ConnectionNotFound := HttpError(404, "Connection not found")

  /** `schemas.ConnectionUpdate`: None is a field the client did not send. */
  datatype ConnectionUpdate = ConnectionUpdate(cableSection: Option<real>, wireCount: Option<int>, length: Option<real>)

  /** One `(field, value)` item of `update_data`. */
  datatype ConnectionAttr = CableSection(real) | WireCount(int) | Length(real)

  /** `connection_update.dict(exclude_unset=True).items()`, in the schema's field order. */
  function UpdateData(u: ConnectionUpdate): seq<ConnectionAttr> {
    (if u.cableSection.Some? then [CableSection(u.cableSection.value)] else []) +
    (if u.wireCount.Some? then [WireCount(u.wireCount.value)] else []) +
    (if u.length.Some? then [Length(u.length.value)] else [])
  }

  /** `setattr(db_connection, field, value)` */
  function SetAttr(c: Connection, a: ConnectionAttr): Connection {
    match a
    case CableSection(v) => c.(cableSection := v)
    case WireCount(v) => c.(wireCount := v)
    case Length(v) => c.(length := Some(v))
  }

  /** The `setattr` loop over `update_data` changes exactly the supplied fields. */
  lemma UpdateChangesOnlySuppliedFields(c: Connection, u: ConnectionUpdate)
    ensures var r := Fold(c, UpdateData(u), SetAttr);
      && r.projectId == c.projectId && r.fromElementId == c.fromElementId && r.toElementId == c.toElementId
      && r.cableSection == (if u.cableSection.Some? then u.cableSection.value else c.cableSection)
      && r.wireCount == (if u.wireCount.Some? then u.wireCount.value else c.wireCount)
      && r.length == (if u.length.Some? then u.length else c.length)
  {
    var a := if u.cableSection.Some? then [CableSection(u.cableSection.value)] else [];
    var b := if u.wireCount.Some? then [WireCount(u.wireCount.value)] else [];
    var l := if u.length.Some? then [Length(u.length.value)] else [];
    FoldAppend(c, a + b, l, SetAttr);
    FoldAppend(c, a, b, SetAttr);
  }

  /** `create_connection` (lines 9-30): project, then both elements, then their project, are checked in that order. */
  method CreateConnection(db: Database, c: Connection) returns (r: Result<Row<Connection>>)
    requires db.Valid()
    modifies db
    ensures db.Valid()
    ensures db.projects == old(db.projects) && db.elements == old(db.elements)
    ensures db.panelElements == old(db.panelElements)
    ensures !HasId(db.projects, c.projectId) ==> r == Err(ProjectNotFound)
    ensures HasId(db.projects, c.projectId) &&
            (!HasId(db.elements, c.fromElementId) || !HasId(db.elements, c.toElementId)) ==>
              r == Err(ElementNotFound)
    ensures HasId(db.projects, c.projectId) &&
            HasId(db.elements, c.fromElementId) && HasId(db.elements, c.toElementId) ==>
              (if Lookup(db.elements, c.fromElementId).value.rec.projectId == c.projectId &&
                  Lookup(db.elements, c.toElementId).value.rec.projectId == c.projectId
               then r.Ok? else r == Err(ForeignElement))
    ensures r.Err? ==> db.connections == old(db.connections)
    ensures r.Ok? ==>
              r.value == Row(NextId(old(db.connections)), c) && !HasId(old(db.connections), r.value.id) &&
              db.connections == old(db.connections) + [r.value]
  {
    if Lookup(db.projects, c.projectId).None? {
      return Err(ProjectNotFound);
    }
    var fromElement := Lookup(db.elements, c.fromElementId);
    var toElement := Lookup(db.elements, c.toElementId);
    if fromElement.None? || toElement.None? {
      return Err(ElementNotFound);
    }
    if fromElement.value.rec.projectId != c.projectId || toElement.value.rec.projectId != c.projectId {
      return Err(ForeignElement);
    }
    var id := NextId(db.connections);
    db.connections := Insert(db.connections, c);
    r := Ok(Row(id, c));
  }

  /** `get_connections_by_project` (lines 32-35): exactly the project's connections, in table order. */
  function GetConnectionsByProject(db: Database, projectId: int): (r: seq<Row<Connection>>)
    reads db
    ensures forall row :: row in r <==> row in db.connections && row.rec.projectId == projectId
  {
    Where(db.connections, (row: Row<Connection>) => row.rec.projectId == projectId)
  }

  /** `get_connection` (lines 37-42) */
  function GetConnection(db: Database, id: int): (r: Result<Row<Connection>>)
    reads db
    requires db.Valid()
    ensures r.Err? <==> !HasId(db.connections, id)
    ensures r.Err? ==> r.error == ConnectionNotFound
    ensures r.Ok? ==> r.value in db.connections && r.value.id == id
  {
    match Lookup(db.connections, id)
    case None => Err(ConnectionNotFound)
    case Some(row) => Ok(row)
  }

  /** `update_connection` (lines 44-56): a partial update of the supplied fields. */
  method UpdateConnection(db: Database, id: int, u: ConnectionUpdate) returns (r: Result<Row<Connection>>)
    requires db.Valid()
    modifies db
    ensures db.Valid()
    ensures db.projects == old(db.projects) && db.elements == old(db.elements)
    ensures db.panelElements == old(db.panelElements)
    ensures !HasId(old(db.connections), id) ==> r == Err(ConnectionNotFound) && db.connections == old(db.connections)
    ensures HasId(old(db.connections), id) ==>
              var before := Lookup(old(db.connections), id).value.rec;
              && r.Ok? && r.value.id == id
              && r.value.rec.projectId == before.projectId
              && r.value.rec.fromElementId == before.fromElementId
              && r.value.rec.toElementId == before.toElementId
              && r.value.rec.cableSection == (if u.cableSection.Some? then u.cableSection.value else before.cableSection)
              && r.value.rec.wireCount == (if u.wireCount.Some? then u.wireCount.value else before.wireCount)
              && r.value.rec.length == (if u.length.Some? then u.length else before.length)
              && db.connections == Replace(old(db.connections), r.value)
  {
    var found := Lookup(db.connections, id);
    if found.None? {
      return Err(ConnectionNotFound);
    }
    var patched := SetAttrs(found.value.rec, UpdateData(u), SetAttr);
    UpdateChangesOnlySuppliedFields(found.value.rec, u);
    db.connections := Replace(db.connections, Row(id, patched));
    r := Ok(Row(id, patched));
  }

  /** `delete_connection` (lines 58-66) */
  method DeleteConnection(db: Database, id: int) returns (r: Result<string>)
    requires db.Valid()
    modifies db
    ensures db.Valid()
    ensures db.projects == old(db.projects) && db.elements == old(db.elements)
    ensures db.panelElements == old(db.panelElements)
    ensures !HasId(old(db.connections), id) ==> r == Err(ConnectionNotFound) && db.connections == old(db.connections)
    ensures HasId(old(db.connections), id) ==> r == Ok("Connection deleted")
    ensures forall row :: row in db.connections <==> row in old(db.connections) && row.id != id
  {
    if Lookup(db.connections, id).None? {
      return Err(ConnectionNotFound);
    }
    db.connections := Delete(db.connections, id);
    r := Ok("Connection deleted");
  }
}
