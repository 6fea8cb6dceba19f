/**
 * The floor-plan editor's modes and guards (FloorPlanEditor.tsx).  The
 * editor owns the plan lock, the drawing mode, the element type picked in
 * the element palette, the stored markup and the element dialog; the
 * pending position and type that the source stashes on `window` are
 * explicit fields here.  Every call to the backend becomes a returned
 * `Request`; whether an awaited call succeeds is an input.
 */
module FloorPlanEditor {

  import opened Common
  import opened Numerals
  import SvgCodec

  /** `ElementType` (frontend/src/types/models.ts). */
  datatype ElementType = Socket | Switch | Lamp | Equipment | Panel

  /** A position in the canvas. */
  datatype Position = Position(x: real, y: real)

  /** An element as the backend returns it. */
  datatype Element = Element(id: int, projectId: int, elementId: string, elementType: string,
                             name: string, x: real, y: real)

  /** A connection as the backend returns it. */
  datatype Connection = Connection(id: int, projectId: int, fromElementId: int, toElementId: int,
                                   cableSection: real, wireCount: int)

  /** A canvas node built from an element (lines 73-83). */
  datatype Node = Node(id: string, nodeType: string, position: Position,
                       labelText: string, elementId: string, elementType: string, element: Element)

  /** A canvas edge built from a connection (lines 96-102). */
  datatype Edge = Edge(id: string, source: string, target: string, edgeType: string)

  /** The backend calls the editor issues. */
  datatype Request =
    | SaveLock(projectId: int, locked: bool)
    | SaveSvg(projectId: int, svg: string)
    | CreateElement(projectId: int, elementId: string, elementType: ElementType, name: string, x: real, y: real)
    | RenameElement(id: int, elementId: string, name: string)
    | MoveElement(id: int, x: real, y: real)

  function ToNode(e: Element): Node {
    Node(IntText(e.id), "element", Position(e.x, e.y), e.name, e.elementId, e.elementType, e)
  }

  /** `elements.map(...)` in `loadElements`: one node per element, in order, keyed by the element's id. */
  function ElementsToNodes(es: seq<Element>): (ns: seq<Node>)
    ensures |ns| == |es|
    ensures forall i :: 0 <= i < |es| ==>
              ns[i].id == IntText(es[i].id) && ns[i].position == Position(es[i].x, es[i].y) &&
              ns[i].element == es[i] && ns[i].labelText == es[i].name
  {
    seq(|es|, i requires 0 <= i < |es| => ToNode(es[i]))
  }

  function ToEdge(c: Connection): Edge {
    Edge(IntText(c.id), IntText(c.fromElementId), IntText(c.toElementId), "smoothstep")
  }

  /** `connections.map(...)` in `loadConnections`: one edge per connection, in order. */
  function ConnectionsToEdges(cs: seq<Connection>): (es: seq<Edge>)
    ensures |es| == |cs|
    ensures forall i :: 0 <= i < |cs| ==>
              es[i].id == IntText(cs[i].id) &&
              es[i].source == IntText(cs[i].fromElementId) && es[i].target == IntText(cs[i].toElementId)
  {
    seq(|cs|, i requires 0 <= i < |cs| => ToEdge(cs[i]))
  }

  /** Elements with distinct ids give nodes with distinct ids. */
  lemma NodeIdsDistinct(es: seq<Element>, i: int, j: int)
    requires 0 <= i < |es| && 0 <= j < |es|
    requires es[i].id != es[j].id
    ensures ElementsToNodes(es)[i].id != ElementsToNodes(es)[j].id
  {
    IntTextInjective(es[i].id, es[j].id);
  }

  /** An edge attaches to a node exactly when the connection's endpoint is that node's element. */
  lemma EdgeMeetsNode(es: seq<Element>, cs: seq<Connection>, i: int, j: int)
    requires 0 <= i < |es| && 0 <= j < |cs|
    ensures ConnectionsToEdges(cs)[j].source == ElementsToNodes(es)[i].id <==> cs[j].fromElementId == es[i].id
    ensures ConnectionsToEdges(cs)[j].target == ElementsToNodes(es)[i].id <==> cs[j].toElementId == es[i].id
  {
    IntTextInjective(cs[j].fromElementId, es[i].id);
    IntTextInjective(cs[j].toElementId, es[i].id);
  }

  /** A snapshot of every field the editor's handlers may set. */
  datatype EditorState = EditorState(
    isPlanLocked: bool,
    isDrawingMode: bool,
    selectedElementType: Option<ElementType>,
    floorPlanSvg: string,
    editingElement: Option<Element>,
    elementDialogOpen: bool,
    elementId: string,
    elementName: string,
    pendingPosition: Option<Position>,
    pendingType: Option<ElementType>)

  class Editor {
    const projectId: int
    var isPlanLocked: bool
    var isDrawingMode: bool
    var selectedElementType: Option<ElementType>
    var floorPlanSvg: string
    var editingElement: Option<Element>
    var elementDialogOpen: bool
    var elementId: string
    var elementName: string
    /** `window.pendingElementPosition` */
    var pendingPosition: Option<Position>
    /** `window.pendingElementType` */
    var pendingType: Option<ElementType>

    /** The editor's state as one value, so a handler can say that every field it does not set is kept. */
    function State(): EditorState
      reads this
    {
      EditorState(isPlanLocked, isDrawingMode, selectedElementType, floorPlanSvg, editingElement,
                  elementDialogOpen, elementId, elementName, pendingPosition, pendingType)
    }

    /** A locked plan is never in drawing mode. */
    predicate Safe()
      reads this
    {
      isPlanLocked ==> !isDrawingMode
    }

    /** The pending position and type are only ever stashed together. */
    ghost predicate Valid()
      reads this
    {
      pendingPosition.Some? <==> pendingType.Some?
    }

    /** The initial state for a project whose stored lock flag and markup are given (lines 50-59). */
    constructor (projectId: int, locked: bool, svg: string)
      ensures Valid() && Safe()
      ensures this.projectId == projectId
      ensures State() == EditorState(locked, false, None, svg, None, false, "", "", None, None)
    {
      this.projectId := projectId;
      isPlanLocked := locked;
      isDrawingMode := false;
      selectedElementType := None;
      floorPlanSvg := svg;
      editingElement := None;
      elementDialogOpen := false;
      elementId := "";
      elementName := "";
      pendingPosition := None;
      pendingType := None;
    }

    /**
     * The effect that follows a change of project (lines 61-66): takes the
     * stored markup and lock flag and keeps everything else.  It leaves the
     * drawing mode alone, so it can produce a locked plan in drawing mode;
     * the layer still ignores input then, since it checks the lock itself.
     */
    method SyncProject(locked: bool, svg: string)
      requires Valid()
      modifies this
      ensures Valid()
      ensures State() == old(State()).(isPlanLocked := locked, floorPlanSvg := svg)
    {
      isPlanLocked := locked;
      floorPlanSvg := svg;
    }

    /** The element palette's `onElementSelect` (line 292): sets the picked type only. */
    method SelectElementType(t: Option<ElementType>)
      requires Valid()
      modifies this
      ensures Valid() && (old(Safe()) ==> Safe())
      ensures State() == old(State()).(selectedElementType := t)
    {
      selectedElementType := t;
    }

    /** `handleToggleLock` (lines 266-277): flips the lock; locking also leaves drawing mode. */
    method ToggleLock() returns (request: Request)
      requires Valid()
      modifies this
      ensures Valid() && Safe()
      ensures State() == old(State()).(isPlanLocked := !old(isPlanLocked),
                                        isDrawingMode := if old(isPlanLocked) then old(isDrawingMode) else false)
      ensures request == SaveLock(projectId, !old(isPlanLocked))
    {
      var newLockedState := !isPlanLocked;
      isPlanLocked := newLockedState;
      if newLockedState {
        isDrawingMode := false;
      }
      request := SaveLock(projectId, newLockedState);
    }

    /** The drawing-mode button (lines 314-318): ignored while locked, else flips the mode and clears the element type. */
    method ToggleDrawing()
      requires Valid()
      modifies this
      ensures Valid() && (old(Safe()) ==> Safe())
      ensures old(isPlanLocked) ==> State() == old(State())
      ensures !old(isPlanLocked) ==>
                State() == old(State()).(isDrawingMode := !old(isDrawingMode), selectedElementType := None)
    {
      if isPlanLocked {
        return;
      }
      isDrawingMode := !isDrawingMode;
      selectedElementType := None;
    }

    /** `handleSvgChange` (lines 257-264): the layer saved new markup. */
    method SvgChange(svg: string) returns (request: Request)
      requires Valid()
      modifies this
      ensures Valid() && (old(Safe()) ==> Safe())
      ensures State() == old(State()).(floorPlanSvg := svg)
      ensures request == SaveSvg(projectId, svg)
    {
      floorPlanSvg := svg;
      request := SaveSvg(projectId, svg);
    }

    /** `handleClearPlan` (lines 279-288): ignored while locked, else stores the empty plan. */
    method ClearPlan() returns (request: Option<Request>)
      requires Valid()
      modifies this
      ensures Valid() && (old(Safe()) ==> Safe())
      ensures old(isPlanLocked) ==> request == None && State() == old(State())
      ensures !old(isPlanLocked) ==>
                State() == old(State()).(floorPlanSvg := SvgCodec.ClearedPlan) &&
                request == Some(SaveSvg(projectId, SvgCodec.ClearedPlan))
    {
      if isPlanLocked {
        return None;
      }
      floorPlanSvg := SvgCodec.ClearedPlan;
      request := Some(SaveSvg(projectId, SvgCodec.ClearedPlan));
    }

    /**
     * `handlePaneClick` (lines 157-179): outside drawing mode, unlocked and
     * with an element type picked, stashes the click point relative to the
     * canvas bounds and that type, and opens an empty create dialog.
     */
    method PaneClick(clientX: real, clientY: real, boundsLeft: real, boundsTop: real)
      requires Valid()
      modifies this
      ensures Valid() && (old(Safe()) ==> Safe())
      ensures old(isDrawingMode) || old(isPlanLocked) || old(selectedElementType).None? ==>
                State() == old(State())
      ensures !old(isDrawingMode) && !old(isPlanLocked) && old(selectedElementType).Some? ==>
                State() == old(State()).(pendingPosition := Some(Position(clientX - boundsLeft, clientY - boundsTop)),
                                         pendingType := old(selectedElementType),
                                         elementDialogOpen := true, editingElement := None,
                                         elementId := "", elementName := "")
    {
      if isDrawingMode || isPlanLocked {
        return;
      }
      if selectedElementType.None? {
        return;
      }
      var position := Position(clientX - boundsLeft, clientY - boundsTop);
      editingElement := None;
      elementId := "";
      elementName := "";
      elementDialogOpen := true;
      pendingPosition := Some(position);
      pendingType := selectedElementType;
    }

    /** Typing into the dialog's two text fields (lines 383, 392). */
    method EditFields(id: string, name: string)
      requires Valid()
      modifies this
      ensures Valid() && (old(Safe()) ==> Safe())
      ensures State() == old(State()).(elementId := id, elementName := name)
    {
      elementId := id;
      elementName := name;
    }

    /**
     * `handleCreateElement` (lines 181-204): needs a non-empty id and name;
     * creates the element the dialog describes at the stashed position with
     * the stashed type.  A missing stash makes the request fail before it is
     * sent.  Once the call succeeds the dialog closes and the element type
     * is cleared; nothing else changes.
     */
    method CreateNewElement(succeeds: bool) returns (request: Option<Request>)
      requires Valid()
      modifies this
      ensures Valid() && (old(Safe()) ==> Safe())
      ensures request.Some? <==> old(elementId) != "" && old(elementName) != "" && old(pendingPosition).Some?
      ensures request.Some? ==>
                request.value == CreateElement(projectId, old(elementId), old(pendingType).value, old(elementName),
                                               old(pendingPosition).value.x, old(pendingPosition).value.y)
      ensures request.Some? && succeeds ==>
                State() == old(State()).(elementDialogOpen := false, selectedElementType := None)
      ensures request.None? || !succeeds ==> State() == old(State())
    {
      if elementId == "" || elementName == "" {
        return None;
      }
      var position := pendingPosition;
      var elementType := pendingType;
      if position.None? {
        return None;
      }
      request := Some(CreateElement(projectId, elementId, elementType.value, elementName,
                                    position.value.x, position.value.y));
      if succeeds {
        elementDialogOpen := false;
        selectedElementType := None;
      }
    }

    /** `onNodeDoubleClick` (lines 206-212): opens the dialog on an existing element. */
    method NodeDoubleClick(e: Element)
      requires Valid()
      modifies this
      ensures Valid() && (old(Safe()) ==> Safe())
      ensures State() == old(State()).(editingElement := Some(e), elementId := e.elementId,
                                        elementName := e.name, elementDialogOpen := true)
    {
      editingElement := Some(e);
      elementId := e.elementId;
      elementName := e.name;
      elementDialogOpen := true;
    }

    /**
     * `handleUpdateElement` (lines 214-228): needs an element being edited
     * and a non-empty id and name; renames it to what the dialog holds, and
     * once the call succeeds closes the dialog and changes nothing else.
     */
    method UpdateEditedElement(succeeds: bool) returns (request: Option<Request>)
      requires Valid()
      modifies this
      ensures Valid() && (old(Safe()) ==> Safe())
      ensures request.Some? <==> old(editingElement).Some? && old(elementId) != "" && old(elementName) != ""
      ensures request.Some? ==>
                request.value == RenameElement(old(editingElement).value.id, old(elementId), old(elementName))
      ensures request.Some? && succeeds ==> State() == old(State()).(elementDialogOpen := false)
      ensures request.None? || !succeeds ==> State() == old(State())
    {
      if editingElement.None? || elementId == "" || elementName == "" {
        return None;
      }
      request := Some(RenameElement(editingElement.value.id, elementId, elementName));
      if succeeds {
        elementDialogOpen := false;
      }
    }

    /** `onNodeDragStop` (lines 240-255): saves the dropped position unless the plan is locked. */
    method NodeDragStop(element: Option<Element>, position: Position) returns (request: Option<Request>)
      requires Valid()
      ensures request.Some? <==> !isPlanLocked && element.Some?
      ensures request.Some? ==> request.value == MoveElement(element.value.id, position.x, position.y)
    {
      if isPlanLocked {
        return None;
      }
      request := None;
      if element.Some? {
        request := Some(MoveElement(element.value.id, position.x, position.y));
      }
    }
  }
}
