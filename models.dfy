/**
 * The stored records (backend/app/models.py) and the database that holds
 * them.  Ids live in the table rows (`Tables.Row`), so each record type has
 * the columns other than `id`.  Float columns are exact reals; a JSON
 * column is a map from keys to the JSON text of their values.
 */
module Models {

  import opened Common
  import opened Tables

  /** models.py:6-17; `created_at` is the server clock at insertion. */
  datatype Project = Project(
    name: string,
    scale: real,
    createdAt: int,
    floorPlanImage: Option<string>,
    floorPlanSvg: Option<string>,
    floorPlanLocked: int,
    elementsLocked: int,
    activeLayer: string)

  /** models.py:23-33 */
  datatype Element = Element(
    projectId: int,
    elementId: string,
    elementType: string,
    name: string,
    x: real,
    y: real,
    properties: map<string, string>)

  /** models.py:40-49 */
  datatype PanelElement = PanelElement(
    projectId: int,
    elementId: int,
    positionX: real,
    positionY: real,
    width: real,
    height: real)

  /** models.py:54-63 */
  datatype Connection = Connection(
    projectId: int,
    fromElementId: int,
    toElementId: int,
    cableSection: real,
    wireCount: int,
    length: Option<real>)

  /** The four tables, each in rowid order. */
  class Database {
    var projects: seq<Row<Project>>
    var elements: seq<Row<Element>>
    var panelElements: seq<Row<PanelElement>>
    var connections: seq<Row<Connection>>

    ghost predicate Valid()
      reads this
    {
      && IdsIncrease(projects)
      && IdsIncrease(elements)
      && IdsIncrease(panelElements)
      && IdsIncrease(connections)
    }

    constructor ()
      ensures Valid()
      ensures projects == [] && elements == [] && panelElements == [] && connections == []
    {
      projects := [];
      elements := [];
      panelElements := [];
      connections := [];
    }
  }
}
