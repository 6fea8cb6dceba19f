/** The project endpoints (backend/app/api/projects.py). */
module ProjectsApi {

  import opened Common
  import opened Tables
  import opened Models

  const ProjectNotFound := HttpError(404, "Project not found")

  /** The default of `ProjectBase.scale` (schemas.py:8) and of the column (models.py:12). */
  const DefaultScale: real := 1.0

  /** `schemas.ProjectCreate`; a client that omits the scale sends `DefaultScale`. */
  datatype ProjectCreate = ProjectCreate(name: string, scale: real)

  /** `schemas.Project`, the response: the lock column is reported as a boolean. */
  datatype ProjectView = ProjectView(
    id: int,
    name: string,
    scale: real,
    createdAt: int,
    floorPlanImage: Option<string>,
    floorPlanSvg: Option<string>,
    floorPlanLocked: bool)

  /** `bool(column)` */
  function LockFlag(column: int): (b: bool)
    ensures b <==> column != 0
  {
    column != 0
  }

  /** `1 if value else 0` (lines 47-48) */
  function LockColumn(locked: bool): (column: int)
    ensures column == 0 || column == 1
    ensures LockFlag(column) == locked
  {
    if locked then 1 else 0
  }

  /** A stored row as the response reports it. */
  function View(row: Row<Project>): (v: ProjectView)
    ensures v.id == row.id && v.name == row.rec.name && v.scale == row.rec.scale
    ensures v.floorPlanSvg == row.rec.floorPlanSvg && v.floorPlanImage == row.rec.floorPlanImage
    ensures v.floorPlanLocked <==> row.rec.floorPlanLocked != 0
  {
    ProjectView(row.id, row.rec.name, row.rec.scale, row.rec.createdAt,
                row.rec.floorPlanImage, row.rec.floorPlanSvg, LockFlag(row.rec.floorPlanLocked))
  }

  /** The row `models.Project(**project.dict())` inserts: column defaults for the rest. */
  function NewProject(p: ProjectCreate, now: int): (r: Project)
    ensures r.name == p.name && r.scale == p.scale && r.createdAt == now
    ensures r.floorPlanImage.None? && r.floorPlanSvg.None?
    ensures r.floorPlanLocked == 0 && r.elementsLocked == 0 && r.activeLayer == "elements"
  {
    Project(p.name, p.scale, now, None, None, 0, 0, "elements")
  }

  /** `create_project` (lines 9-18); `now` is the database clock. */
  method CreateProject(db: Database, p: ProjectCreate, now: int) returns (v: ProjectView)
    requires db.Valid()
    modifies db
    ensures db.Valid()
    ensures db.elements == old(db.elements) && db.panelElements == old(db.panelElements)
    ensures db.connections == old(db.connections)
    ensures db.projects == old(db.projects) + [Row(v.id, NewProject(p, now))]
    ensures v.id == NextId(old(db.projects)) && !HasId(old(db.projects), v.id)
    ensures v == ProjectView(v.id, p.name, p.scale, now, None, None, false)
  {
    var id := NextId(db.projects);
    db.projects := Insert(db.projects, NewProject(p, now));
    v := View(Row(id, NewProject(p, now)));
  }

  /**
   * `.offset(skip).limit(limit)` on SQLite: a negative offset counts as
   * none and a negative limit as no limit.
   */
  function Page<T>(t: seq<T>, skip: int, limit: int): (r: seq<T>)
    ensures limit >= 0 ==> |r| <= limit
    ensures 0 <= skip ==> forall i :: 0 <= i < |r| ==> skip + i < |t| && r[i] == t[skip + i]
    ensures skip < 0 ==> forall i :: 0 <= i < |r| ==> i < |t| && r[i] == t[i]
    ensures var rows := if skip <= 0 then |t| else if skip >= |t| then 0 else |t| - skip;
            |r| == if 0 <= limit < rows then limit else rows
  {
    var from := if skip < 0 then 0 else if skip > |t| then |t| else skip;
    var rest := t[from..];
    if limit < 0 || limit >= |rest| then rest else rest[..limit]
  }

  /** Consecutive pages cover the rows from the first page's offset on, in order and without overlap. */
  lemma ConsecutivePagesTile(t: seq<Row<Project>>, skip: nat, limit: nat)
    ensures Page(t, skip, limit) + Page(t, skip + limit, limit) == Page(t, skip, 2 * limit)
  {
    if skip + limit <= |t| {
      assert t[skip..][..limit] + t[skip + limit..] == t[skip..];
    }
  }

  /** `get_projects` (lines 20-27): the requested page, each with its lock as a boolean. */
  method GetProjects(db: Database, skip: int, limit: int) returns (vs: seq<ProjectView>)
    ensures |vs| == |Page(db.projects, skip, limit)|
    ensures forall i :: 0 <= i < |vs| ==> vs[i] == View(Page(db.projects, skip, limit)[i])
  {
    var projects := Page(db.projects, skip, limit);
    vs := [];
    for i := 0 to |projects|
      invariant |vs| == i
      invariant forall k :: 0 <= k < i ==> vs[k] == View(projects[k])
    {
      vs := vs + [View(projects[i])];
    }
  }

  /** The defaults of `get_projects` list the first hundred projects. */
  lemma DefaultPageIsFirstHundred(t: seq<Row<Project>>)
    ensures Page(t, 0, 100) == if |t| <= 100 then t else t[..100]
  {
  }

  /** `get_project` (lines 29-37) */
  function GetProject(db: Database, id: int): (r: Result<ProjectView>)
    reads db
    requires db.Valid()
    ensures r.Err? <==> !HasId(db.projects, id)
    ensures r.Err? ==> r.error == ProjectNotFound
    ensures r.Ok? ==> exists row :: row in db.projects && row.id == id && r.value == View(row)
  {
    match Lookup(db.projects, id)
    case None => Err(ProjectNotFound)
    case Some(row) => Ok(View(row))
  }

  /** `schemas.ProjectUpdate`: None is a field the client did not send. */
  datatype ProjectUpdate = ProjectUpdate(
    name: Option<string>,
    scale: Option<real>,
    floorPlanImage: Option<string>,
    floorPlanSvg: Option<string>,
    floorPlanLocked: Option<bool>)

  /** One `(field, value)` item of `update_data`, after the boolean became a column value. */
  datatype ProjectAttr =
    | Name(string)
    | Scale(real)
    | FloorPlanImage(string)
    | FloorPlanSvg(string)
    | FloorPlanLocked(int)

  /**
   * `project_update.dict(exclude_unset=True)` with the lock converted by
   * lines 47-48.  The schema has no `elements_locked`, so the conversion
   * of lines 49-50 never applies and that column cannot be updated.
   */
  function UpdateData(u: ProjectUpdate): seq<ProjectAttr> {
    (if u.name.Some? then [Name(u.name.value)] else []) +
    (if u.scale.Some? then [Scale(u.scale.value)] else []) +
    (if u.floorPlanImage.Some? then [FloorPlanImage(u.floorPlanImage.value)] else []) +
    (if u.floorPlanSvg.Some? then [FloorPlanSvg(u.floorPlanSvg.value)] else []) +
    (if u.floorPlanLocked.Some? then [FloorPlanLocked(LockColumn(u.floorPlanLocked.value))] else [])
  }

  /** `setattr(db_project, field, value)` */
  function SetAttr(p: Project, a: ProjectAttr): Project {
    match a
    case Name(v) => p.(name := v)
    case Scale(v) => p.(scale := v)
    case FloorPlanImage(v) => p.(floorPlanImage := Some(v))
    case FloorPlanSvg(v) => p.(floorPlanSvg := Some(v))
    case FloorPlanLocked(v) => p.(floorPlanLocked := v)
  }

  /**
   * The update changes exactly the supplied fields, stores the lock as 0 or
   * 1, and leaves creation time, element lock and active layer alone.
   */
  lemma UpdateChangesOnlySuppliedFields(p: Project, u: ProjectUpdate)
    ensures var r := Fold(p, UpdateData(u), SetAttr);
      && r.createdAt == p.createdAt && r.elementsLocked == p.elementsLocked && r.activeLayer == p.activeLayer
      && r.name == (if u.name.Some? then u.name.value else p.name)
      && r.scale == (if u.scale.Some? then u.scale.value else p.scale)
      && r.floorPlanImage == (if u.floorPlanImage.Some? then u.floorPlanImage else p.floorPlanImage)
      && r.floorPlanSvg == (if u.floorPlanSvg.Some? then u.floorPlanSvg else p.floorPlanSvg)
      && (u.floorPlanLocked.Some? ==> r.floorPlanLocked == if u.floorPlanLocked.value then 1 else 0)
      && (u.floorPlanLocked.None? ==> r.floorPlanLocked == p.floorPlanLocked)
  {
    var a := if u.name.Some? then [Name(u.name.value)] else [];
    var b := if u.scale.Some? then [Scale(u.scale.value)] else [];
    var c := if u.floorPlanImage.Some? then [FloorPlanImage(u.floorPlanImage.value)] else [];
    var d := if u.floorPlanSvg.Some? then [FloorPlanSvg(u.floorPlanSvg.value)] else [];
    var f := if u.floorPlanLocked.Some? then [FloorPlanLocked(LockColumn(u.floorPlanLocked.value))] else [];
    var r1 := ApplyMaybe(p, a, SetAttr);
    assert r1 == if u.name.Some? then p.(name := u.name.value) else p;
    var r2 := ApplyMaybe(r1, b, SetAttr);
    assert r2 == if u.scale.Some? then r1.(scale := u.scale.value) else r1;
    var r3 := ApplyMaybe(r2, c, SetAttr);
    assert r3 == if u.floorPlanImage.Some? then r2.(floorPlanImage := u.floorPlanImage) else r2;
    var r4 := ApplyMaybe(r3, d, SetAttr);
    assert r4 == if u.floorPlanSvg.Some? then r3.(floorPlanSvg := u.floorPlanSvg) else r3;
    var r5 := ApplyMaybe(r4, f, SetAttr);
    assert r5 == if u.floorPlanLocked.Some? then r4.(floorPlanLocked := LockColumn(u.floorPlanLocked.value)) else r4;
    FoldFive(p, a, b, c, d, f, SetAttr);
    assert UpdateData(u) == a + b + c + d + f;
  }

  /** `update_project` (lines 39-60) */
  method UpdateProject(db: Database, id: int, u: ProjectUpdate) returns (r: Result<ProjectView>)
    requires db.Valid()
    modifies db
    ensures db.Valid()
    ensures db.elements == old(db.elements) && db.panelElements == old(db.panelElements)
    ensures db.connections == old(db.connections)
    ensures !HasId(old(db.projects), id) ==> r == Err(ProjectNotFound) && db.projects == old(db.projects)
    ensures HasId(old(db.projects), id) ==>
              var before := Lookup(old(db.projects), id).value.rec;
              && HasId(db.projects, id)
              && var after := Lookup(db.projects, id).value.rec;
              && r == Ok(View(Row(id, after)))
              && db.projects == Replace(old(db.projects), Row(id, after))
              && after.createdAt == before.createdAt
              && after.elementsLocked == before.elementsLocked && after.activeLayer == before.activeLayer
              && after.floorPlanLocked == (if u.floorPlanLocked.Some? then LockColumn(u.floorPlanLocked.value)
                                           else before.floorPlanLocked)
              && after.name == (if u.name.Some? then u.name.value else before.name)
              && after.scale == (if u.scale.Some? then u.scale.value else before.scale)
              && after.floorPlanImage == (if u.floorPlanImage.Some? then u.floorPlanImage else before.floorPlanImage)
              && after.floorPlanSvg == (if u.floorPlanSvg.Some? then u.floorPlanSvg else before.floorPlanSvg)
              && r.value.floorPlanLocked == (if u.floorPlanLocked.Some? then u.floorPlanLocked.value
                                             else before.floorPlanLocked != 0)
  {
    var found := Lookup(db.projects, id);
    if found.None? {
      return Err(ProjectNotFound);
    }
    var patched := SetAttrs(found.value.rec, UpdateData(u), SetAttr);
    UpdateChangesOnlySuppliedFields(found.value.rec, u);
    db.projects := Replace(db.projects, Row(id, patched));
    r := Ok(View(Row(id, patched)));
  }

  /** `delete_project` (lines 62-70) with the delete-orphan cascades of models.py:19-21. */
  method DeleteProject(db: Database, id: int) returns (r: Result<string>)
    requires db.Valid()
    modifies db
    ensures db.Valid()
    ensures !HasId(old(db.projects), id) ==> r == Err(ProjectNotFound) && unchanged(db)
    ensures HasId(old(db.projects), id) ==> r == Ok("Project deleted")
    ensures forall row :: row in db.projects <==> row in old(db.projects) && row.id != id
    ensures HasId(old(db.projects), id) ==>
              forall row :: row in db.elements <==> row in old(db.elements) && row.rec.projectId != id
    ensures HasId(old(db.projects), id) ==>
              forall row :: row in db.connections <==> row in old(db.connections) && row.rec.projectId != id
    ensures HasId(old(db.projects), id) ==>
              forall row :: row in db.panelElements <==> row in old(db.panelElements) && row.rec.projectId != id
  {
    if Lookup(db.projects, id).None? {
      return Err(ProjectNotFound);
    }
    db.projects := Delete(db.projects, id);
    db.elements := Where(db.elements, (row: Row<Element>) => row.rec.projectId != id);
    db.connections := Where(db.connections, (row: Row<Connection>) => row.rec.projectId != id);
    db.panelElements := Where(db.panelElements, (row: Row<PanelElement>) => row.rec.projectId != id);
    r := Ok("Project deleted");
  }
}
