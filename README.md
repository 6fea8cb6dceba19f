# WiringDesigner core in Dafny

WiringDesigner is a web application for planning the electrical wiring of an
apartment. On a floor plan the user sketches walls as freehand paths, then
places sockets, switches, lamps, equipment and panels and connects them with
cables. A FastAPI backend stores projects, elements, switchboard layouts and
connections in SQLite. A small plug-in registry loads extension modules.

This project models that core and proves properties of the model:

- **Floor-plan layer** (`FloorPlanLayer`, `SvgCodec`, `Numerals`). The layer
  is a class whose mouse handlers build `M x y L x y …` path text. It encodes
  the committed paths as SVG markup and decodes markup back into paths. The
  decode is proved to invert the encode.
- **Floor-plan editor** (`FloorPlanEditor`). The editor is a class holding
  the lock, drawing-mode, element-type and dialog state. Each handler returns
  the request it would send to the backend as a value. Elements and
  connections are converted to canvas nodes and edges.
- **Tool palette** (`ToolPalette`) and **editable table** (`EditableTable`).
- **Example plug-in** (`ExampleModule`): the cable-section rule.
- **Backend handlers** (`Tables`, `Models`, `ProjectsApi`, `ElementsApi`, `PanelApi`,
  `ConnectionsApi`):
  - The database is a class with four tables. Each table is the sequence of
    its rows in rowid order.
  - A handler that writes is a method. One that only reads is a function.
    An HTTP error is a `Result` value.
  - The partial-update `setattr` loop is a loop method tied to a fold. That
    fold is proved to change exactly the supplied fields.
- **Plug-in registry** (`ModuleLoading`, `ModuleRegistry`, `ModulesApi`).
  It works from the facts the `os`, `importlib` and `inspect` calls would
  report: the directory listing, whether a name imports, and its members.
  These are given as inputs. The class selection of `load_module` is modelled
  both as written, where the repository's own plug-in never loads, and
  corrected to skip abstract classes (see "## Findings"); the registry runs
  on the corrected selection.

Numbers on the canvas are integers, rendered in decimal as JavaScript does.
Coordinates, scales and cable values in the backend are exact reals. Clocks,
the network and the DOM are inputs: the creation time, whether an
asynchronous call succeeded, and the click position and canvas bounds.

## Model

| member | source | states |
|---|---|---|
| Numerals.ParseIntTextRoundTrip | frontend/src/components/FloorPlanEditor/FloorPlanLayer.tsx:72 | The decimal text of any integer coordinate parses back to that integer. |
| Numerals.ParseNatural | frontend/src/components/FloorPlanEditor/FloorPlanLayer.tsx:72 | The digit string of a non-negative coordinate parses back to it. |
| Numerals.ParseNegative | frontend/src/components/FloorPlanEditor/FloorPlanLayer.tsx:72 | A minus sign followed by the digits of m parses back to -m. |
| Numerals.IntTextInjective | frontend/src/components/FloorPlanEditor/FloorPlanLayer.tsx:83 | Two coordinates render to the same text exactly when they are equal. |
| Numerals.DigitsValueOfDigits | frontend/src/components/FloorPlanEditor/FloorPlanLayer.tsx:72 | The digit string of a natural number has that number as its value. |
| Numerals.Digits | frontend/src/components/FloorPlanEditor/FloorPlanLayer.tsx:72 | A natural number renders as a non-empty digit string with no leading zero (only 0 starts with '0'). |
| Numerals.IntText | frontend/src/components/FloorPlanEditor/FloorPlanLayer.tsx:72 | Rendered coordinates are non-empty and made only of digits and '-'. |
| Numerals.ParseIntText | frontend/src/components/FloorPlanEditor/FloorPlanLayer.tsx:72 | Reads decimal integer text: an optional minus sign before a non-empty digit string; anything else is no number. Its inverse property is ParseIntTextRoundTrip. |
| FloorPlanLayer.IntTextPlain | frontend/src/components/FloorPlanEditor/FloorPlanLayer.tsx:72 | A rendered coordinate has no quote, '&', '<', tab, CR or LF. |
| FloorPlanLayer.PathTextPlain | frontend/src/components/FloorPlanEditor/FloorPlanLayer.tsx:65-117 | Every drawn path is plain attribute text, so the markup the layer saves is well formed and the browser reads each drawn path back exactly as written. |
| FloorPlanLayer.PathTextShape | frontend/src/components/FloorPlanEditor/FloorPlanLayer.tsx:65-87 | Path text from pressing and moving is empty only for no points, starts with 'M', and contains no '"'. |
| FloorPlanLayer.PathTextExtend | frontend/src/components/FloorPlanEditor/FloorPlanLayer.tsx:108-117 | One more point turns an empty path into "M x y" and appends " L x y" to a non-empty one. |
| FloorPlanLayer.IntTextQuoteFree | frontend/src/components/FloorPlanEditor/FloorPlanLayer.tsx:72 | A rendered coordinate has no quote and no space, so it cannot break the path attribute or the segment syntax. |
| FloorPlanLayer.MoveTo | frontend/src/components/FloorPlanEditor/FloorPlanLayer.tsx:72 | The text "M x y" a press starts a path with. |
| FloorPlanLayer.LineTo | frontend/src/components/FloorPlanEditor/FloorPlanLayer.tsx:83 | The text " L x y" each move appends. |
| FloorPlanLayer.PathText | frontend/src/components/FloorPlanEditor/FloorPlanLayer.tsx:65-87 | The path through a sequence of points: a move-to then one line-to per further point. PathTextShape and PathTextExtend state its properties. |
| FloorPlanLayer.Layer.constructor | frontend/src/components/FloorPlanEditor/FloorPlanLayer.tsx:18-20 | A new layer is not drawing and has an empty current path and no paths. |
| FloorPlanLayer.Layer.LoadMarkup | frontend/src/components/FloorPlanEditor/FloorPlanLayer.tsx:34-51 | Markup received as `svgData` replaces the committed paths with its decoding. The path being drawn is untouched. |
| FloorPlanLayer.Layer.MouseDown | frontend/src/components/FloorPlanEditor/FloorPlanLayer.tsx:65-76 | Only in drawing mode, unlocked, with button 0 and a point does it start drawing, with current path "M x y", discarding any uncommitted path. Otherwise nothing changes. |
| FloorPlanLayer.Layer.MouseMove | frontend/src/components/FloorPlanEditor/FloorPlanLayer.tsx:78-87 | While drawing and unlocked it appends exactly " L x y" to the old path. Otherwise nothing changes. |
| FloorPlanLayer.Layer.GlobalMouseMove | frontend/src/components/FloorPlanEditor/FloorPlanLayer.tsx:108-117 | While drawing, whatever the lock, it starts "M x y" on an empty path and appends " L x y" to a non-empty one. |
| FloorPlanLayer.Layer.Append | frontend/src/components/FloorPlanEditor/FloorPlanLayer.tsx:83 | One more point appends " L x y" to the current path and the point to the path's points, keeping the two in step. |
| FloorPlanLayer.Layer.MouseUp | frontend/src/components/FloorPlanEditor/FloorPlanLayer.tsx:89-103 | Drawing and unlocked with a non-empty path: the path is appended to the committed ones, the current path cleared, and the markup of all paths returned once. An empty path only ends drawing. Otherwise nothing happens. |
| FloorPlanLayer.Layer.CanvasMouseMove | frontend/src/components/FloorPlanEditor/FloorPlanLayer.tsx:78-123 | One move over the canvas while drawing runs the canvas handler and the window listener (lines 108-117, 159). Unlocked, the point is appended twice, " L x y L x y". Locked, only the window listener's segment is added. Not drawing: nothing changes. |
| FloorPlanLayer.DrawAndReload | frontend/src/components/FloorPlanEditor/FloorPlanLayer.tsx:65-123 | Press at a, move to b over the canvas, release and reload the saved markup: the one committed path is "M a L b L b", since both move handlers see the move. |
| SvgCodec.ParseElements | frontend/src/components/FloorPlanEditor/FloorPlanLayer.tsx:39-41 | Every attribute value read from the markup is free of '"'. |
| SvgCodec.PathElements | frontend/src/components/FloorPlanEditor/FloorPlanLayer.tsx:98-99 | One `<path d="…" …/>` element per path, in order, joined with no separator. ParseElementsOfEncoding reads them back. |
| SvgCodec.Encode | frontend/src/components/FloorPlanEditor/FloorPlanLayer.tsx:97-99 | The saved markup: the root element around the path elements. DecodeEncode inverts it. |
| SvgCodec.NonEmpty | frontend/src/components/FloorPlanEditor/FloorPlanLayer.tsx:42 | The filter keeps exactly the non-empty path strings. |
| SvgCodec.Decode | frontend/src/components/FloorPlanEditor/FloorPlanLayer.tsx:34-51 | Decoding yields only storable paths (non-empty, quote-free). Empty or unreadable markup yields no paths. |
| SvgCodec.ParseElementsOfEncoding | frontend/src/components/FloorPlanEditor/FloorPlanLayer.tsx:97-99 | Reading the path elements of an encoding returns exactly the encoded attribute values. |
| SvgCodec.DecodeEncodeFilters | frontend/src/components/FloorPlanEditor/FloorPlanLayer.tsx:97-99 | Decoding the encoding of quote-free paths gives back the non-empty ones, in order. |
| SvgCodec.DecodeEncode | frontend/src/components/FloorPlanEditor/FloorPlanLayer.tsx:97-99 | Decoding the saved markup gives back exactly the saved paths (storable ones; the browser agrees on plain ones, see "## Left out"). |
| SvgCodec.PlainConcat | frontend/src/components/FloorPlanEditor/FloorPlanLayer.tsx:97-99 | Joining two plain attribute texts gives a plain one. |
| SvgCodec.EncodeInjective | frontend/src/components/FloorPlanEditor/FloorPlanLayer.tsx:97-99 | Distinct path lists are saved as distinct markup. |
| SvgCodec.DecodeAfterRoot | frontend/src/components/FloorPlanEditor/FloorPlanLayer.tsx:34-43 | Markup opening with the root element is decoded from the path elements that follow it. |
| SvgCodec.NonEmptyKeepsStorable | frontend/src/components/FloorPlanEditor/FloorPlanLayer.tsx:42 | Filtering already storable paths changes nothing. |
| SvgCodec.ParseElementStep | frontend/src/components/FloorPlanEditor/FloorPlanLayer.tsx:98 | One encoded path element is read back as its attribute value followed by the rest. |
| SvgCodec.ClearedPlanIsEmptyEncoding | frontend/src/components/FloorPlanEditor/FloorPlanEditor.tsx:281 | The markup stored on clearing is the encoding of no paths and decodes to no paths. |
| FloorPlanEditor.ElementsToNodes | frontend/src/components/FloorPlanEditor/FloorPlanEditor.tsx:73-83 | One element node per element, in order, with the element's id as text, its position and its label. |
| FloorPlanEditor.ConnectionsToEdges | frontend/src/components/FloorPlanEditor/FloorPlanEditor.tsx:96-102 | One edge per connection, in order, from the source element's id to the target element's id. |
| FloorPlanEditor.NodeIdsDistinct | frontend/src/components/FloorPlanEditor/FloorPlanEditor.tsx:73-83 | Elements with distinct ids become nodes with distinct ids. |
| FloorPlanEditor.EdgeMeetsNode | frontend/src/components/FloorPlanEditor/FloorPlanEditor.tsx:96-102 | An edge starts (ends) at an element's node exactly when the connection starts (ends) at that element. |
| FloorPlanEditor.ToNode | frontend/src/components/FloorPlanEditor/FloorPlanEditor.tsx:73-83 | The node for one element: its id as text, its position, label and the element itself. ElementsToNodes states the properties. |
| FloorPlanEditor.ToEdge | frontend/src/components/FloorPlanEditor/FloorPlanEditor.tsx:96-102 | The smoothstep edge for one connection between its two elements' node ids. ConnectionsToEdges states the properties. |
| FloorPlanEditor.Editor.constructor | frontend/src/components/FloorPlanEditor/FloorPlanEditor.tsx:50-59 | The editor starts with the project's lock and markup, out of drawing mode, with no element type, no element being edited, a closed dialog with empty fields and nothing stashed. |
| FloorPlanEditor.Editor.SyncProject | frontend/src/components/FloorPlanEditor/FloorPlanEditor.tsx:61-66 | A change of project takes its lock and markup; every other field keeps its value. |
| FloorPlanEditor.Editor.SelectElementType | frontend/src/components/FloorPlanEditor/FloorPlanEditor.tsx:292 | The palette's choice becomes the element type; every other field keeps its value. |
| FloorPlanEditor.Editor.ToggleLock | frontend/src/components/FloorPlanEditor/FloorPlanEditor.tsx:266-277 | The lock flips and locking leaves drawing mode, so afterwards the plan is never drawn on while locked; every other field keeps its value. The new flag is sent. |
| FloorPlanEditor.Editor.ToggleDrawing | frontend/src/components/FloorPlanEditor/FloorPlanEditor.tsx:314-318 | Ignored while locked. Otherwise the mode flips and the element type is cleared; every other field keeps its value. |
| FloorPlanEditor.Editor.SvgChange | frontend/src/components/FloorPlanEditor/FloorPlanEditor.tsx:257-264 | New markup from the layer is kept and sent for saving; every other field keeps its value. |
| FloorPlanEditor.Editor.ClearPlan | frontend/src/components/FloorPlanEditor/FloorPlanEditor.tsx:279-288 | Ignored while locked. Otherwise the empty plan is kept and sent; every other field keeps its value. |
| FloorPlanEditor.Editor.PaneClick | frontend/src/components/FloorPlanEditor/FloorPlanEditor.tsx:157-179 | Only outside drawing mode, unlocked and with an element type picked: the point relative to the canvas and the type are stashed, and an empty create dialog opens. Otherwise no field changes. |
| FloorPlanEditor.Editor.EditFields | frontend/src/components/FloorPlanEditor/FloorPlanEditor.tsx:383 | Typing sets the dialog's id and name; every other field keeps its value. |
| FloorPlanEditor.Editor.CreateNewElement | frontend/src/components/FloorPlanEditor/FloorPlanEditor.tsx:181-204 | A create request is made exactly when the id and name typed before the call are non-empty and a position is stashed. It carries that id, name, stashed position and stashed type. Success closes the dialog and clears the type; nothing else changes, and without a request or success nothing changes at all. |
| FloorPlanEditor.Editor.NodeDoubleClick | frontend/src/components/FloorPlanEditor/FloorPlanEditor.tsx:206-212 | The dialog opens on the element, seeded with its id and name; every other field keeps its value. |
| FloorPlanEditor.Editor.UpdateEditedElement | frontend/src/components/FloorPlanEditor/FloorPlanEditor.tsx:214-228 | A rename request is made exactly when an element is being edited and the id and name typed before the call are non-empty; it carries that element's id and those texts. Success closes the dialog and changes nothing else; otherwise nothing changes. |
| FloorPlanEditor.Editor.NodeDragStop | frontend/src/components/FloorPlanEditor/FloorPlanEditor.tsx:240-255 | A move request with the dropped position is made exactly when the plan is unlocked and the node has an element. |
| ToolPalette.Toggle | frontend/src/components/FloorPlanEditor/FloorPlanToolPalette.tsx:83 | Clicking a tool selects it, unless it is the selected one, which deselects. |
| ToolPalette.ToggleTwiceFromNone | frontend/src/components/FloorPlanEditor/FloorPlanToolPalette.tsx:118 | Clicking a tool twice from no selection selects and then deselects it. |
| ToolPalette.ToggleSwitches | frontend/src/components/FloorPlanEditor/FloorPlanToolPalette.tsx:148 | Clicking another tool switches the selection to it. |
| ToolPalette.TypeNameInjective | frontend/src/components/FloorPlanEditor/FloorPlanToolPalette.tsx:16-31 | Each tool has its own type name. |
| ToolPalette.EveryKindListed | frontend/src/components/FloorPlanEditor/FloorPlanToolPalette.tsx:38-59 | Every tool kind has a button in one of the three groups. |
| ToolPalette.NoKindListedTwice | frontend/src/components/FloorPlanEditor/FloorPlanToolPalette.tsx:38-59 | The 14 buttons are all different tools, so the groups are disjoint. |
| ToolPalette.GroupPrefixes | frontend/src/components/FloorPlanEditor/FloorPlanToolPalette.tsx:38-59 | A tool is in the room group iff its name starts with "room_", and in the furniture group iff it starts with "furniture_". Walls, doors and windows are the rest. |
| EditableTable.Table.constructor | frontend/src/components/TablesView/EditableTable.tsx:20-21 | A new table edits no cell and holds the blank value. |
| EditableTable.Table.CellClick | frontend/src/components/TablesView/EditableTable.tsx:37-40 | The clicked cell becomes the only editing cell, seeded with its value. |
| EditableTable.Table.Change | frontend/src/components/TablesView/EditableTable.tsx:90 | Typing changes the edited value only. |
| EditableTable.Table.Blur | frontend/src/components/TablesView/EditableTable.tsx:42-47 | With an editing cell, one update call with its row, column and the edited value. Editing ends only after the call succeeds. Without one nothing happens. |
| EditableTable.Table.KeyPress | frontend/src/components/TablesView/EditableTable.tsx:49-55 | Enter commits as blur does. Escape ends editing without an update. Other keys do nothing. |
| ExampleModule.GetInfo | backend/app/modules/example_module.py:14-21 | The info names the module "Example Connection Module", version 1.0.0, author "System". |
| ExampleModule.SuggestCableSection | backend/app/modules/example_module.py:41-65 | The if-chain on power (<= 1000, <= 2000 W) and distance (<= 10, <= 20 m). SectionIsBandSum, SectionInRange and the monotonicity lemmas state its properties. |
| ExampleModule.PowerBand | backend/app/modules/example_module.py:41-65 | The power thresholds split loads into three bands. |
| ExampleModule.DistanceBand | backend/app/modules/example_module.py:41-65 | The distance thresholds split runs into three bands. |
| ExampleModule.SectionIsBandSum | backend/app/modules/example_module.py:41-65 | The suggested section is the (power band + distance band)-th of 1.5, 2.5, 4, 6, 10 mm². |
| ExampleModule.SectionInRange | backend/app/modules/example_module.py:41-65 | The suggestion is always one of the five standard sections, between 1.5 and 10. |
| ExampleModule.SectionsIncreasing | backend/app/modules/example_module.py:41-65 | The standard sections are in increasing order. |
| ExampleModule.MonotoneInDistance | backend/app/modules/example_module.py:41-65 | A longer run never gets a thinner cable. |
| ExampleModule.MonotoneInPower | backend/app/modules/example_module.py:41-65 | A larger load never gets a thinner cable. |
| ExampleModule.ExtremeSections | backend/app/modules/example_module.py:41-65 | 10 mm² exactly above 2 kW and 20 m. 1.5 mm² exactly up to 1 kW and 10 m. Thresholds are inclusive. |
| Tables.Lookup | backend/app/api/connections.py:39 | Lookup by id finds a row exactly when the id is present, and in a table of increasing ids it finds the one row with that id. |
| Tables.NextId | backend/app/api/connections.py:26 | A new row's id is larger than every id in the table. |
| Tables.Insert | backend/app/api/connections.py:26-28 | Adding appends one row with a fresh id and keeps ids increasing. |
| Tables.Where | backend/app/api/connections.py:33-35 | A filtered query returns exactly the matching rows, in table order. |
| Tables.Delete | backend/app/api/connections.py:64-65 | Deleting by id keeps every other row. The id is then absent. An absent id changes nothing. |
| Tables.Replace | backend/app/api/connections.py:53-54 | Writing back a row replaces the row with its id and keeps all others. |
| Tables.FoldAppend | backend/app/api/connections.py:51-52 | Applying two batches of `setattr` items is applying them one after the other. |
| Tables.SetAttrs | backend/app/api/connections.py:51-52 | The `setattr` loop computes the fold of the items, first item first. |
| Models.Database.constructor | backend/app/models.py:6-63 | A new database has four empty tables. |
| ConnectionsApi.UpdateChangesOnlySuppliedFields | backend/app/api/connections.py:50-52 | A partial update sets exactly the supplied cable section, wire count and length. Project and endpoints are kept. |
| ConnectionsApi.UpdateData | backend/app/api/connections.py:50 | The `(field, value)` items of the connection update the client sent, in schema order. UpdateChangesOnlySuppliedFields states what applying them does. |
| ConnectionsApi.SetAttr | backend/app/api/connections.py:50-52 | One `setattr` on the connection row. |
| ConnectionsApi.CreateConnection | backend/app/api/connections.py:9-30 | 404 "Project not found", then 404 "Element not found" for either end, then exactly 400 "Elements must belong to the same project" when both ends exist but one is in another project. Otherwise it appends one row with a fresh id. No other table changes. |
| ConnectionsApi.GetConnectionsByProject | backend/app/api/connections.py:32-35 | Exactly the connections of the project. |
| ConnectionsApi.GetConnection | backend/app/api/connections.py:37-42 | The row with that id, or 404 "Connection not found" exactly when there is none. |
| ConnectionsApi.UpdateConnection | backend/app/api/connections.py:44-56 | 404 when absent. Otherwise the row is rewritten with only the supplied fields changed. |
| ConnectionsApi.DeleteConnection | backend/app/api/connections.py:58-66 | 404 when absent. Otherwise "Connection deleted" and every other row remains. |
| PanelApi.UpdateChangesOnlySuppliedFields | backend/app/api/panel.py:48-50 | A partial update sets exactly the supplied position and size. Project and element are kept. |
| PanelApi.UpdateData | backend/app/api/panel.py:48 | The `(field, value)` items of the panel element update the client sent, in schema order. UpdateChangesOnlySuppliedFields states what applying them does. |
| PanelApi.SetAttr | backend/app/api/panel.py:48-50 | One `setattr` on the panel element row. |
| PanelApi.CreatePanelElement | backend/app/api/panel.py:9-28 | 404 project, then 404 element, then exactly 400 "Element must belong to the same project" when the element is in another project. Otherwise it appends one fresh row. |
| PanelApi.GetPanelElementsByProject | backend/app/api/panel.py:30-33 | Exactly the switchboard rows of the project. |
| PanelApi.GetPanelElement | backend/app/api/panel.py:35-40 | The row, or 404 "Panel element not found" exactly when absent. |
| PanelApi.UpdatePanelElement | backend/app/api/panel.py:42-54 | 404 when absent. Otherwise only the supplied fields change. |
| PanelApi.DeletePanelElement | backend/app/api/panel.py:56-64 | 404 when absent. Otherwise "Panel element deleted" and all other rows remain. |
| ElementsApi.UpdateChangesOnlySuppliedFields | backend/app/api/elements.py:40-42 | A partial update sets exactly the supplied user id, name, coordinates and properties. The type and project are never changed. |
| ElementsApi.UpdateData | backend/app/api/elements.py:40 | The `(field, value)` items of the element update the client sent, in schema order. UpdateChangesOnlySuppliedFields states what applying them does. |
| ElementsApi.SetAttr | backend/app/api/elements.py:40-42 | One `setattr` on the element row. |
| ElementsApi.CreateElement | backend/app/api/elements.py:9-20 | Fails with 404 "Project not found" exactly when the project is absent. Otherwise appends one fresh row. |
| ElementsApi.GetElementsByProject | backend/app/api/elements.py:22-25 | Exactly the elements of the project. |
| ElementsApi.GetElement | backend/app/api/elements.py:27-32 | The row, or 404 "Element not found" exactly when absent. |
| ElementsApi.UpdateElement | backend/app/api/elements.py:34-46 | 404 when absent. Otherwise only the supplied fields change and the type stays. |
| ElementsApi.Referenced | backend/app/models.py:36-38 | An element is referenced when a connection starts or ends at it or a switchboard row places it; DeleteElement refuses such an element with a 500. |
| ElementsApi.DeleteElement | backend/app/api/elements.py:48-56 | 404 when absent. 500 when a connection or switchboard row still refers to the element (see below). Otherwise "Element deleted" and all other rows remain. |
| ProjectsApi.LockFlag | backend/app/api/projects.py:16 | A stored lock reads as true exactly when it is non-zero. |
| ProjectsApi.LockColumn | backend/app/api/projects.py:47-48 | A boolean lock is stored as 1 or 0 and reads back as itself. |
| ProjectsApi.View | backend/app/api/projects.py:15-17 | The response carries the row's id, name, scale and plan, with the lock as a boolean. |
| ProjectsApi.NewProject | backend/app/models.py:9-17 | A created project has the given name and scale and the column defaults: no plan, locks 0, active layer "elements". |
| ProjectsApi.CreateProject | backend/app/api/projects.py:9-18 | One fresh row is appended and reported unlocked with no plan. |
| ProjectsApi.Page | backend/app/api/projects.py:22 | The i-th row of the page is the (skip+i)-th stored, with a negative skip counting as 0. Its length is exactly the rows left after the offset, cut to `limit` when the limit is not negative. |
| ProjectsApi.ConsecutivePagesTile | backend/app/api/projects.py:22 | Two consecutive pages of the same size together are the page of twice that size: paging neither skips nor repeats a project. |
| ProjectsApi.GetProjects | backend/app/api/projects.py:20-27 | The loop reports each project of the page, in order, with its lock as a boolean. |
| ProjectsApi.DefaultPageIsFirstHundred | backend/app/api/projects.py:21 | With the default skip and limit, the first hundred projects. |
| ProjectsApi.GetProject | backend/app/api/projects.py:29-37 | The project's view, or 404 "Project not found" exactly when absent. |
| ProjectsApi.UpdateChangesOnlySuppliedFields | backend/app/api/projects.py:45-53 | Exactly the supplied fields change. A supplied lock is stored as 1 or 0. Creation time, element lock and active layer are kept. |
| ProjectsApi.UpdateData | backend/app/api/projects.py:45-50 | The items the client sent, with the lock turned into 1 or 0. UpdateChangesOnlySuppliedFields states what applying them does. |
| ProjectsApi.SetAttr | backend/app/api/projects.py:52-53 | One `setattr` on the project row. |
| ProjectsApi.UpdateProject | backend/app/api/projects.py:39-60 | 404 when absent and nothing changes. Otherwise only the supplied fields change: name, scale, image, markup and the stored lock (as 1 or 0) take the supplied values; creation time, element lock and active layer keep theirs; the reported lock is the supplied one, or the old one when not supplied. |
| ProjectsApi.DeleteProject | backend/app/api/projects.py:62-70 | 404 and no change when absent. Otherwise "Project deleted", and the project's elements, connections and switchboard rows are deleted with it, nothing else. |
| ModuleLoading.SourceOf | backend/app/modules/module_manager.py:46-47 | A name with no importable module fails to import. |
| ModuleLoading.FirstIndex | backend/app/modules/module_manager.py:50-53 | The index of the first member passing the test, or none when no member does. |
| ModuleLoading.FirstSubclass | backend/app/modules/module_manager.py:50-53 | (as written) The first member in `getmembers` order that is a class, a `BaseModule` subclass and not `BaseModule` itself, abstract or not. |
| ModuleLoading.FirstConcreteSubclass | backend/app/modules/module_manager.py:50-53 | (corrected selection) The first such member that is also not abstract. |
| ModuleLoading.OutcomeOf | backend/app/modules/module_manager.py:55-62 | Instantiating the chosen class: an abstract class or a raising constructor registers nothing; a raising `initialize` leaves it registered but returns None; otherwise the module is returned. |
| ModuleLoading.OutcomeAsWritten | backend/app/modules/module_manager.py:42-65 | As written: import failure, or no subclass, loads nothing. An abstract first subclass also loads nothing. |
| ModuleLoading.Outcome | backend/app/modules/module_manager.py:42-65 | (corrected selection) A load registers a member only if it is a concrete `BaseModule` subclass whose construction succeeds. It returns the module only if `initialize` also succeeds. |
| ModuleLoading.SelectionsAgreeWithoutAbstractClasses | backend/app/modules/module_manager.py:50-53 | Without abstract module classes the corrected selection is the one written. |
| ModuleLoading.ExampleInfo | backend/app/modules/example_module.py:14-21 | The example plug-in's info has exactly name, version, description and author. |
| ModuleLoading.ExampleModuleFailsAsWritten | backend/app/modules/module_manager.py:50-55 | As written, the loader picks the imported abstract `ConnectionModule` for example_module, and the load fails. |
| ModuleLoading.ExampleModuleLoadsCorrected | backend/app/modules/module_manager.py:50-62 | Skipping abstract classes loads `ExampleConnectionModule`. |
| ModuleLoading.ModuleName | backend/app/modules/module_manager.py:32 | The module name is the file name without ".py". |
| ModuleLoading.IsModuleFile | backend/app/modules/module_manager.py:31 | The file filter: a `.py` file other than `__init__.py`, `base_module.py` and `module_manager.py`. |
| ModuleLoading.CandidateNames | backend/app/modules/module_manager.py:30-32 | The names tried, in directory order; never more than the files listed. CandidateNamesExactly states which. |
| ModuleLoading.CandidateNamesExactly | backend/app/modules/module_manager.py:30-32 | A name is tried exactly when "name.py" is listed and is not `__init__.py`, `base_module.py` or `module_manager.py`. |
| ModuleLoading.LoadedNames | backend/app/modules/module_manager.py:34-36 | The tried names whose load returned a module, in order, under a given selection; never more than were tried. |
| ModuleLoading.LoadedNamesExactly | backend/app/modules/module_manager.py:34-36 | For either selection, a name is reported exactly when it was tried and its load returned a module. |
| ModuleLoading.RepositoryDirectoryScan | backend/app/modules/module_manager.py:30-32 | The repository's modules directory yields the one candidate example_module. |
| ModuleLoading.RepositoryStartUpAsWritten | backend/app/main.py:23 | As written, start-up over the repository's directory reports no module: the example plug-in never loads. |
| ModuleLoading.RepositoryStartUp | backend/app/main.py:23 | (corrected selection) Start-up over the repository's directory reports example_module as loaded. |
| ModuleRegistry.ModuleInstance.constructor | backend/app/modules/base_module.py:10-13 | A new instance is enabled. |
| ModuleRegistry.Without | backend/app/modules/module_manager.py:87 | Removing a key keeps every other key, in order and without repeats. |
| ModuleRegistry.ModuleManager.constructor | backend/app/modules/module_manager.py:20 | A new manager has an empty registry. |
| ModuleRegistry.ModuleManager.LoadModule | backend/app/modules/module_manager.py:42-65 | (corrected selection) No class, an import failure or a failed construction registers nothing. Otherwise a fresh enabled instance is registered under the name, replacing any previous one in its place; a new name goes last in the key order. It is returned unless `initialize` raised. |
| ModuleRegistry.ModuleManager.LoadModules | backend/app/modules/module_manager.py:22-40 | (corrected selection) No directory: nothing. Otherwise it reports exactly the tried names whose load returned a module, in directory order. Every candidate is tried, and the registry gains exactly the candidates that were registered. Each registered candidate holds a fresh, enabled instance of its selected class. Every other entry keeps its instance. The new key order is the old one followed by the newly registered candidates in directory order (`AppendRegistered`). |
| ModuleRegistry.AppendRegistered | backend/app/modules/module_manager.py:30-36 | The key order after a scan: the old keys stay first, in place, and a name is a key exactly when it was one or is a registered candidate, each once. |
| ModuleRegistry.AppendRegisteredStep | backend/app/modules/module_manager.py:30-36 | One more candidate is appended exactly when its load registers an instance and it is not a key yet. |
| ModuleRegistry.ModuleManager.TryCandidate | backend/app/modules/module_manager.py:32-36 | (corrected selection) One candidate of the scan: the registry still matches `Registered` with the name added, every registered candidate is enabled, the new instance is fresh, and all other entries are kept. |
| ModuleRegistry.RegisteredStep | backend/app/modules/module_manager.py:32-36 | Whatever one more candidate's load does, the registry still holds exactly the earlier entries plus the registered candidates, each with its selected class. |
| ModuleLoading.CandidateNamesStep | backend/app/modules/module_manager.py:30-32 | One more listed file adds its name to the tried names exactly when it passes the filter. |
| ModuleLoading.LoadedNamesStep | backend/app/modules/module_manager.py:34-36 | One more tried name is reported exactly when its load returns a module. |
| ModuleRegistry.ModuleManager.GetModule | backend/app/modules/module_manager.py:67-69 | The registered instance, or none exactly when the name is not registered. |
| ModuleRegistry.ModuleManager.GetAllModules | backend/app/modules/module_manager.py:71-73 | A copy: every registered name with its instance once, in registration order. |
| ModuleRegistry.ModuleManager.OfType | backend/app/modules/module_manager.py:77-80 | An instance is in the result exactly when it is registered under one of the given names and is of the class. |
| ModuleRegistry.ModuleManager.GetModulesByType | backend/app/modules/module_manager.py:75-80 | An instance is in the result exactly when it is registered and is of the class (membership; order and multiplicity are not stated). |
| ModuleRegistry.ModuleManager.UnloadModule | backend/app/modules/module_manager.py:82-89 | True exactly when the name was registered. Afterwards it is absent and every other entry is unchanged, so a second unload returns false. |
| ModuleRegistry.ModuleManager.ReloadModule | backend/app/modules/module_manager.py:91-94 | (corrected selection) True exactly when the fresh load returned a module. A registered reload holds a fresh, enabled instance of the selected class, so a disabled module comes back enabled. The name moves to the end of the order if registered again. |
| ModulesApi.ListModules | backend/app/api/modules.py:11-22 | One entry per registered module, each once, with its name, info and enabled flag. |
| ModulesApi.Entry | backend/app/api/modules.py:16-20 | The `{"name", "info", "enabled"}` entry reported for one registered module. |
| ModulesApi.GetModuleInfo | backend/app/api/modules.py:24-36 | The module's entry, or 404 "Module not found" exactly when not registered. |
| ModulesApi.ReloadModule | backend/app/api/modules.py:38-46 | (corrected selection) "Module name reloaded successfully" exactly when the load returned a module, otherwise 404 "Module not found or failed to reload". A registered reload holds a fresh, enabled instance of the selected class. The name leaves the key order and, when registered again, goes last. Other entries are kept. |
| ModulesApi.EnableModule | backend/app/api/modules.py:48-57 | 404 exactly when not registered. Otherwise that module is enabled and every other module's flag is unchanged. |
| ModulesApi.DisableModule | backend/app/api/modules.py:59-68 | 404 exactly when not registered. Otherwise that module is disabled and every other module's flag is unchanged. |

Two behaviours follow from the ORM and database semantics rather than from
the handler text:

- **Element delete.** `Element` has no delete cascade to the connections
  and switchboard rows that point at it (backend/app/models.py:36-38). On
  delete the ORM sets their NOT NULL foreign keys to null and the commit
  fails. `ElementsApi.DeleteElement` models this as a 500 error with no
  change.
- **Project listing.** `offset`/`limit` follow SQLite: a negative offset
  counts as none and a negative limit as no limit.

## Left out

- Viewport polling (FloorPlanLayer.tsx:25-32) and `screenToFlowPosition`. These are rendering and a foreign coordinate transform; the model takes the converted point as input and coordinates as integers.
- Floating-point text of non-integer coordinates. JavaScript's number-to-string is foreign; `Numerals.IntText` renders integers only.
- General SVG parsing. `DOMParser` is foreign; `SvgCodec.Decode` parses the grammar the layer writes and yields no paths for anything else.
- SvgCodec.Decode: returns each `d` value as the raw text between its quotes. The browser's parser (FloorPlanLayer.tsx:37-41) also decodes references (`&amp;` becomes `&`), normalises tab, CR and LF to spaces, and rejects a raw `&` or `<`. So `SvgCodec.DecodeEncode` matches the program only for paths that are `SvgCodec.Plain` (no quote, `&`, `<`, tab, CR or LF). `FloorPlanLayer.PathTextPlain` proves every drawn path is plain; a path loaded from stored markup that held a reference is not covered.
- Firing `handleMouseUp` twice per release (once by the canvas handler, once by the window listener, FloorPlanLayer.tsx:119-121). Both run on the same render's state, so the same markup is emitted twice. The model emits it once.
- `FloorPlanEditor.Editor`: the `isPlanLocked ==> !isDrawingMode` invariant is kept by every handler (`old(Safe()) ==> Safe()`), except `SyncProject`: a project change can bring in a locked plan while drawing mode is on, and the code does not prevent it.
- React Flow connection creation, edge double-click, connection saving and node deletion (`onConnect`, `onEdgeDoubleClick`, `handleConnectionSave`, `onNodesDelete`). These are round-trips to dialogs outside this model; they are not modelled.
- The edge's cable label text. It is formatting only.
- Asynchronous persistence. Requests are returned as values, and the outcome of a call is an input boolean; `console.error` handling is left out.
- Explicit JSON `null` in partial updates (clearing an optional column). `None` in the update records means "not sent".
- Element `properties` values are kept as JSON text per key. JSON structure is not modelled.
- Foreign-key checks of SQLite on insert are not modelled beyond what the handlers check.
- Database engine, sessions, migrations and app wiring (backend/app/database.py, backend/app/main.py) are not part of this model. Only the start-up call of `load_modules` is, through `ModuleLoading.RepositoryStartUpAsWritten` and, for the corrected selection, `ModuleLoading.RepositoryStartUp`.
- PDF and Excel export (backend/app/api/export.py). It is foreign libraries and page geometry; not part of this model.
- `calculate_cable_length` of the example plug-in. It is a floating-point distance with a square root.
- Module `initialize` receives the manager as context; a plug-in's own use of it is foreign code. `cleanup` of the base class does nothing, and that is what the model does.
- The independence of the copy `get_all_modules` returns holds by construction: Dafny maps and sequences are values.
- ModuleLoading.Outcome: follows the corrected class selection (skip abstract classes) of the finding below, not `load_module` as written (module_manager.py:50-55), under which the repository's plug-in never loads; `ModuleLoading.OutcomeAsWritten` and `ModuleLoading.RepositoryStartUpAsWritten` state the as-written behaviour.
- ModuleLoading.FirstConcreteSubclass: follows the corrected class selection (skip abstract classes) of the finding below, not `load_module` as written (module_manager.py:50-55), under which the repository's plug-in never loads; `ModuleLoading.OutcomeAsWritten` and `ModuleLoading.RepositoryStartUpAsWritten` state the as-written behaviour.
- ModuleLoading.LoadedNamesExactly: holds for either selection; `LoadModules` uses it with the corrected one.
- ModuleLoading.RepositoryStartUp: follows the corrected class selection (skip abstract classes) of the finding below, not `load_module` as written (module_manager.py:50-55), under which the repository's plug-in never loads; `ModuleLoading.OutcomeAsWritten` and `ModuleLoading.RepositoryStartUpAsWritten` state the as-written behaviour.
- ModuleRegistry.ModuleManager.LoadModule: follows the corrected class selection (skip abstract classes) of the finding below, not `load_module` as written (module_manager.py:50-55), under which the repository's plug-in never loads; `ModuleLoading.OutcomeAsWritten` and `ModuleLoading.RepositoryStartUpAsWritten` state the as-written behaviour.
- ModuleRegistry.ModuleManager.LoadModules: follows the corrected class selection (skip abstract classes) of the finding below, not `load_module` as written (module_manager.py:50-55), under which the repository's plug-in never loads; `ModuleLoading.OutcomeAsWritten` and `ModuleLoading.RepositoryStartUpAsWritten` state the as-written behaviour.
- ModuleRegistry.ModuleManager.ReloadModule: follows the corrected class selection (skip abstract classes) of the finding below, not `load_module` as written (module_manager.py:50-55), under which the repository's plug-in never loads; `ModuleLoading.OutcomeAsWritten` and `ModuleLoading.RepositoryStartUpAsWritten` state the as-written behaviour.
- ModulesApi.ReloadModule: follows the corrected class selection (skip abstract classes) of the finding below, not `load_module` as written (module_manager.py:50-55), under which the repository's plug-in never loads; `ModuleLoading.OutcomeAsWritten` and `ModuleLoading.RepositoryStartUpAsWritten` state the as-written behaviour.
- ModuleRegistry.ModuleManager.GetModulesByType: the result is stated by membership only; that it lists the matching instances in registration order, once each, is not stated.

## Findings

| source | as written | input that shows it | evidently intended | confidence | as-written member | corrected member |
|---|---|---|---|---|---|---|
| backend/app/modules/module_manager.py:50-55 | The first class in `inspect.getmembers` order that subclasses `BaseModule` and is not `BaseModule` is instantiated. | example_module imports the abstract `ConnectionModule`, which sorts before `ExampleConnectionModule`. Instantiating it raises `TypeError`, so the example module never loads. | Instantiate the first concrete subclass, here `ExampleConnectionModule`. | high (not executed) | ModuleLoading.ExampleModuleFailsAsWritten | ModuleLoading.ExampleModuleLoadsCorrected |
