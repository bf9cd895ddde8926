/**
 The tables behind a workspace and the statements the store runs on them.  A statement
 that the source ends with a thrown error returns `Thrown`, and the enclosing
 transaction then keeps nothing.
 */
module WorkspaceTables {
  import opened Prelude
  import opened Sorting

  /** The project and workspace a store is bound to. */
  datatype Scope = Scope(project: nat, workspace: nat)

  datatype ItemRef = ItemRef(itype: string, id: int)

  datatype SlotKey = SlotKey(item: nat, resourceType: string, group: Option<int>, position: int)

  datatype PortKey = PortKey(owner: ItemRef, port: int)

  datatype FaceKey = FaceKey(port: nat, face: int)

  /** Inventory rows, which workspace operations only read. */
  datatype Catalog = Catalog(
    items: map<ItemRef, nat>, pcBuilds: set<nat>, motherboards: set<nat>,
    slots: map<SlotKey, nat>, ports: map<PortKey, nat>, faces: map<FaceKey, nat>, members: set<ItemRef>)

  datatype PlacementKey = PlacementKey(workspace: nat, item: nat)
  datatype PlacementRow = PlacementRow(project: nat, x: real, y: real)
  datatype AssignmentRow = AssignmentRow(
    project: nat, workspace: nat, host: nat, component: nat, slot: Option<nat>, assignedAt: int, provider: Option<nat>)
  datatype SlotRowKey = SlotRowKey(assignment: nat, position: nat)
  datatype SlotRow = SlotRow(project: nat, workspace: nat, host: nat, slot: nat)
  datatype ConnectionRow = ConnectionRow(
    project: nat, workspace: nat, ctype: string, speed: Option<int>, caption: Option<string>,
    sourceSide: string, targetSide: string, avoidOverlap: bool)
  datatype Role = Source | Target
  datatype EndpointKey = EndpointKey(connection: nat, role: Role)
  datatype EndpointRow = EndpointRow(workspace: nat, port: nat, face: Option<nat>)
  datatype BendKey = BendKey(workspace: nat, connection: nat, position: nat)
  datatype BendRow = BendRow(project: nat, x: real, y: real)
  datatype ProjectRow = ProjectRow(name: string, revision: nat)

  datatype Tables = Tables(
    projects: map<nat, ProjectRow>, workspaceRevisions: map<nat, nat>,
    placements: map<PlacementKey, PlacementRow>,
    assignments: map<nat, AssignmentRow>, slots: map<SlotRowKey, SlotRow>,
    connections: map<nat, ConnectionRow>, endpoints: map<EndpointKey, EndpointRow>, bends: map<BendKey, BendRow>)

  // ----- submitted records; a coordinate that is not a finite number is `None`

  datatype Point = Point(x: Option<real>, y: Option<real>)
  datatype NewPlacement = NewPlacement(item: ItemRef, at: Point)
  datatype Allocation = Allocation(resourceType: string, group: Option<int>, positions: seq<int>)
  datatype NewAssignment = NewAssignment(
    id: int, host: ItemRef, item: ItemRef, componentType: string, assignedAt: int, allocation: Option<Allocation>)
  datatype NewEndpoint = NewEndpoint(item: ItemRef, hosted: Option<ItemRef>, port: int, face: Option<int>)
  datatype Route = Route(sourceSide: Option<string>, targetSide: Option<string>, bends: seq<Point>, avoidOverlap: bool)
  datatype NewConnection = NewConnection(
    id: int, from: NewEndpoint, to: NewEndpoint, ctype: string, speed: Option<int>, caption: Option<string>,
      route: Option<Route>)

  // ----- lookups

  function ResolveItem(cat: Catalog, r: ItemRef): Result<nat> {
    if r.id <= 0 || r !in cat.items then Thrown("invalid-engine-patch") else Ok(cat.items[r])
  }

  function ResolvePort(cat: Catalog, e: NewEndpoint): Result<EndpointRow> {
    var key := PortKey(if e.hosted.Some? then e.hosted.value else e.item, e.port);
    if key.owner.id <= 0 || e.port <= 0 || key !in cat.ports then Thrown("invalid-engine-patch")
    else if e.face.None? then Ok(EndpointRow(0, cat.ports[key], None))
    else if e.face.value <= 0 || FaceKey(cat.ports[key], e.face.value) !in cat.faces then Thrown("invalid-engine-patch")
    else Ok(EndpointRow(0, cat.ports[key], Some(cat.faces[FaceKey(cat.ports[key], e.face.value)])))
  }

  function ResolveResourceSlot(cat: Catalog, item: nat, a: Allocation, position: int): Result<nat> {
    var key := SlotKey(item, a.resourceType, a.group, position + 1);
    if position < 0 || (a.group.Some? && a.group.value <= 0) || key !in cat.slots then Thrown("invalid-engine-patch")
    else Ok(cat.slots[key])
  }

  function ResolveSlots(cat: Catalog, item: nat, a: Allocation, positions: seq<int>): (r: Result<seq<nat>>)
    ensures r.Ok? <==> forall i :: 0 <= i < |positions| ==> ResolveResourceSlot(cat, item, a, positions[i]).Ok?
    ensures r.Ok? ==> |r.value| == |positions|
    ensures r.Ok? ==> forall i :: 0 <= i < |positions| ==>
      ResolveResourceSlot(cat, item, a, positions[i]) == Ok(r.value[i])
  {
    if positions == [] then Ok([])
    else
      var first :- ResolveResourceSlot(cat, item, a, positions[0]);
      var rest :- ResolveSlots(cat, item, a, positions[1..]);
      Ok([first] + rest)
  }

  /** The assignments that put a motherboard into `host` in this workspace. */
  function Boards(s: Scope, cat: Catalog, t: Tables, host: nat): set<nat> {
    set id | id in t.assignments && t.assignments[id].project == s.project && t.assignments[id].workspace == s.workspace
             && t.assignments[id].host == host && t.assignments[id].component in cat.motherboards
  }

  datatype Provider = Provider(item: nat, assignment: Option<nat>)

  /** PC Build resources other than board, case and power come from the one assigned motherboard. */
  predicate BoardProvided(cat: Catalog, host: nat, a: Option<Allocation>) {
    a.Some? && a.value.resourceType !in {"", "motherboard", "case", "power"} && host in cat.pcBuilds
  }

  lemma OnlyElement(s: set<nat>)
    requires |s| == 1
    ensures exists b :: s == {b}
  {
    var b :| b in s;
    assert |s - {b}| == 0;
    assert s == {b};
  }

  function ResourceProvider(s: Scope, cat: Catalog, t: Tables, host: nat, a: Option<Allocation>): (r: Result<Provider>)
    ensures !BoardProvided(cat, host, a) ==> r == Ok(Provider(host, None))
    ensures BoardProvided(cat, host, a) ==> (r.Ok? <==> |Boards(s, cat, t, host)| == 1)
    ensures BoardProvided(cat, host, a) && r.Ok? ==>
              && r.value.assignment.Some? && Boards(s, cat, t, host) == {r.value.assignment.value}
              && r.value.item == t.assignments[r.value.assignment.value].component
  {
    if !BoardProvided(cat, host, a) then Ok(Provider(host, None))
    else
      var boards := Boards(s, cat, t, host);
      if |boards| != 1 then Thrown("invalid-engine-patch")
      else
        OnlyElement(boards);
        var b :| boards == {b};
        Ok(Provider(t.assignments[b].component, Some(b)))
  }

  // ----- statements

  /** Runs a statement for every record from left to right, stopping at the first error. */
  function Fold<A>(t: Tables, xs: seq<A>, step: (Tables, A) -> Result<Tables>): Result<Tables> {
    if xs == [] then Ok(t)
    else
      var before :- Fold(t, xs[..|xs| - 1], step);
      step(before, xs[|xs| - 1])
  }

  function Coordinates(p: Point): Result<(real, real)> {
    if p.x.Some? && p.y.Some? then Ok((p.x.value, p.y.value)) else Thrown("invalid-engine-patch")
  }

  function InsertPlacement(s: Scope, cat: Catalog, t: Tables, p: NewPlacement): Result<Tables> {
    var item :- ResolveItem(cat, p.item);
    var at :- Coordinates(p.at);
    var key := PlacementKey(s.workspace, item);
    if key in t.placements then Thrown("constraint")
    else Ok(t.(placements := t.placements[key := PlacementRow(s.project, at.0, at.1)]))
  }

  function UpsertPlacement(s: Scope, cat: Catalog, t: Tables, p: NewPlacement): Result<Tables> {
    var item :- ResolveItem(cat, p.item);
    var at :- Coordinates(p.at);
    var key := PlacementKey(s.workspace, item);
    var project := if key in t.placements then t.placements[key].project else s.project;
    Ok(t.(placements := t.placements[key := PlacementRow(project, at.0, at.1)]))
  }

  function RemovePlacement(s: Scope, cat: Catalog, t: Tables, r: ItemRef): Result<Tables> {
    var item :- ResolveItem(cat, r);
    Ok(t.(placements := t.placements - {PlacementKey(s.workspace, item)}))
  }

  function ClearPlacements(s: Scope, t: Tables): Tables {
    t.(placements := map k | k in t.placements && !(t.placements[k].project == s.project && k.workspace == s.workspace)
                         :: t.placements[k])
  }

  /** Deletes assignments; their slot rows go with them. */
  function DeleteAssignments(t: Tables, ids: set<nat>): Tables {
    t.(assignments := t.assignments - ids,
       slots := map k | k in t.slots && k.assignment !in ids :: t.slots[k])
  }

  /** Deletes connections; their endpoints and bends go with them. */
  function DeleteConnections(t: Tables, ids: set<nat>): Tables {
    t.(connections := t.connections - ids,
       endpoints := map k | k in t.endpoints && k.connection !in ids :: t.endpoints[k],
       bends := map k | k in t.bends && k.connection !in ids :: t.bends[k])
  }

  function OwnAssignments(s: Scope, t: Tables): set<nat> {
    set id | id in t.assignments && t.assignments[id].project == s.project && t.assignments[id].workspace == s.workspace
  }

  function OwnConnections(s: Scope, t: Tables): set<nat> {
    set id | id in t.connections && t.connections[id].project == s.project && t.connections[id].workspace == s.workspace
  }

  /** The slot rows of one assignment, in submitted order. */
  function SlotRows(s: Scope, id: nat, item: nat, slots: seq<nat>): map<SlotRowKey, SlotRow> {
    map i | 0 <= i < |slots| :: SlotRowKey(id, i) := SlotRow(s.project, s.workspace, item, slots[i])
  }

  /** What an assignment resolves to before it is written. */
  datatype Resolved = Resolved(id: nat, row: AssignmentRow, provider: Provider, slots: seq<nat>)

  function ResolveAssignment(s: Scope, cat: Catalog, t: Tables, a: NewAssignment): (r: Result<Resolved>) {
    if a.id <= 0 then Thrown("invalid-engine-patch")
    else
      var host :- ResolveItem(cat, a.host);
      var component :- ResolveItem(cat, a.item);
      var provider :- ResourceProvider(s, cat, t, host, a.allocation);
      var slots :- if a.allocation.None? then Ok([])
                   else ResolveSlots(cat, provider.item, a.allocation.value, a.allocation.value.positions);
      Ok(Resolved(a.id,
                  AssignmentRow(s.project, s.workspace, host, component, if slots == [] then None else Some(slots[0]),
                                a.assignedAt, provider.assignment),
                  provider, slots))
  }

  /** Writes an assignment and its slot rows, unless its id belongs to another workspace. */
  function WriteAssignment(s: Scope, t: Tables, r: Resolved): Result<Tables> {
    if r.id in t.assignments
       && (t.assignments[r.id].project != s.project || t.assignments[r.id].workspace != s.workspace)
    then Thrown("invalid-engine-patch")
    else
      var kept := map k | k in t.slots && k.assignment != r.id :: t.slots[k];
      Ok(t.(assignments := t.assignments[r.id := r.row], slots := kept + SlotRows(s, r.id, r.provider.item, r.slots)))
  }

  function UpsertAssignment(s: Scope, cat: Catalog, t: Tables, a: NewAssignment): Result<Tables> {
    var r :- ResolveAssignment(s, cat, t, a);
    WriteAssignment(s, t, r)
  }

  function RemoveAssignment(s: Scope, t: Tables, id: int): Result<Tables> {
    if id <= 0 || id !in OwnAssignments(s, t) then Thrown("invalid-engine-patch")
    else Ok(DeleteAssignments(t, {id}))
  }

  /** Motherboards first, then by id. */
  predicate Earlier(a: NewAssignment, b: NewAssignment) {
    if (a.componentType == "motherboard") != (b.componentType == "motherboard") then a.componentType == "motherboard"
    else a.id < b.id
  }

  function InOrder(xs: seq<NewAssignment>): seq<NewAssignment> {
    SortBy(xs, Earlier)
  }

  function UpsertAssignments(s: Scope, cat: Catalog, t: Tables, xs: seq<NewAssignment>): Result<Tables> {
    Fold(t, InOrder(xs), (u, a) => UpsertAssignment(s, cat, u, a))
  }

  predicate ValidSpeed(speed: Option<int>) {
    speed.Some? ==> speed.value >= 0
  }

  function BendRows(s: Scope, id: nat, points: seq<Point>): map<BendKey, BendRow>
    requires forall i :: 0 <= i < |points| ==> Coordinates(points[i]).Ok?
  {
    map i | 0 <= i < |points| ::
      BendKey(s.workspace, id, i) := BendRow(s.project, Coordinates(points[i]).value.0, Coordinates(points[i]).value.1)
  }

  function ReplaceBends(s: Scope, t: Tables, id: nat, points: seq<Point>): Result<Tables> {
    var kept := map k | k in t.bends
                        && !(t.bends[k].project == s.project && k.workspace == s.workspace && k.connection == id)
                    :: t.bends[k];
    if exists i :: 0 <= i < |points| && Coordinates(points[i]).Thrown? then Thrown("invalid-engine-patch")
    else Ok(t.(bends := kept + BendRows(s, id, points)))
  }

  function RouteOf(route: Option<Route>): Route {
    if route.Some? then route.value else Route(None, None, [], false)
  }

  function Side(side: Option<string>, fallback: string): string {
    if side.Some? then side.value else fallback
  }

  /** The connection row and its two endpoint rows. */
  function PutConnection(s: Scope, t: Tables, id: nat, c: NewConnection, from: EndpointRow, to: EndpointRow): Tables {
    var route := RouteOf(c.route);
    t.(connections := t.connections[id := ConnectionRow(s.project, s.workspace, c.ctype, c.speed, c.caption,
                                            Side(route.sourceSide, "right"), Side(route.targetSide, "left"),
                                              route.avoidOverlap)],
       endpoints := t.endpoints[EndpointKey(id, Source) := from.(workspace := s.workspace)]
                               [EndpointKey(id, Target) := to.(workspace := s.workspace)])
  }

  function InsertConnection(s: Scope, cat: Catalog, t: Tables, c: NewConnection): Result<Tables> {
    if c.id <= 0 || !ValidSpeed(c.speed) then Thrown("invalid-engine-patch")
    else if c.id in t.connections then Thrown("constraint")
    else
      var from :- ResolvePort(cat, c.from);
      var to :- ResolvePort(cat, c.to);
      ReplaceBends(s, PutConnection(s, t, c.id, c, from, to), c.id, RouteOf(c.route).bends)
  }

  function RemoveConnection(s: Scope, t: Tables, id: int): Result<Tables> {
    if id <= 0 || id !in OwnConnections(s, t) then Thrown("invalid-engine-patch")
    else Ok(DeleteConnections(t, {id}))
  }

  /** Replaces a connection row of this workspace. */
  function UpdateConnection(s: Scope, t: Tables, id: int, f: ConnectionRow -> ConnectionRow): Result<Tables> {
    if id <= 0 || id !in OwnConnections(s, t) then Thrown("invalid-engine-patch")
    else
      var row := t.connections[id];
      Ok(t.(connections := t.connections[id := f(row).(project := row.project, workspace := row.workspace)]))
  }

  datatype Derived = Derived(connection: int, ctype: string, speed: Option<int>)

  function SetDerived(s: Scope, t: Tables, d: Derived): Result<Tables> {
    if !ValidSpeed(d.speed) then Thrown("invalid-engine-patch")
    else UpdateConnection(s, t, d.connection, (r: ConnectionRow) => r.(ctype := d.ctype, speed := d.speed))
  }

  function WithRoute(r: ConnectionRow, route: Route): ConnectionRow {
    r.(sourceSide := Side(route.sourceSide, r.sourceSide), targetSide := Side(route.targetSide, r.targetSide),
       avoidOverlap := route.avoidOverlap)
  }

  function SetRoute(s: Scope, t: Tables, id: int, route: Option<Route>): Result<Tables> {
    var u :- UpdateConnection(s, t, id, (r: ConnectionRow) => WithRoute(r, RouteOf(route)));
    ReplaceBends(s, u, id, RouteOf(route).bends)
  }

  // ----- operations

  datatype Patch =
    | Batch(patches: seq<Patch>)
    | SetProjectName(name: string)
    | AddConnection(connection: NewConnection)
    | DropConnection(id: int)
    | SetCaption(id: int, caption: Option<string>)
    | ChangeRoute(id: int, route: Option<Route>)
    | SetConnectionsDerived(states: seq<Derived>)
    | PatchPlacements(upserts: seq<NewPlacement>, removals: seq<ItemRef>)
    | PatchAssignments(removedIds: seq<int>, assignments: seq<NewAssignment>)

  function ApplyLeaf(s: Scope, cat: Catalog, t: Tables, p: Patch): Result<Tables>
    requires !p.Batch?
  {
    match p
    case SetProjectName(name) =>
      if name == "" then Thrown("invalid-engine-patch")
      else if s.project !in t.projects then Ok(t)
      else Ok(t.(projects := t.projects[s.project := t.projects[s.project].(name := name)]))
    case AddConnection(c) => InsertConnection(s, cat, t, c)
    case DropConnection(id) => RemoveConnection(s, t, id)
    case SetCaption(id, caption) => UpdateConnection(s, t, id, (r: ConnectionRow) => r.(caption := caption))
    case ChangeRoute(id, route) => SetRoute(s, t, id, route)
    case SetConnectionsDerived(states) => Fold(t, states, (u, d) => SetDerived(s, u, d))
    case PatchPlacements(upserts, removals) =>
      var u :- Fold(t, upserts, (v, p) => UpsertPlacement(s, cat, v, p));
      Fold(u, removals, (v, r) => RemovePlacement(s, cat, v, r))
    case PatchAssignments(removedIds, assignments) =>
      var u :- Fold(t, removedIds, (v, id) => RemoveAssignment(s, v, id));
      UpsertAssignments(s, cat, u, assignments)
  }

  /** Applies a patch tree; an empty batch is an error. */
  function ApplyPatch(s: Scope, cat: Catalog, t: Tables, p: Patch): Result<Tables>
    decreases p, 1
  {
    if !p.Batch? then ApplyLeaf(s, cat, t, p)
    else if p.patches == [] then Thrown("invalid-engine-patch")
    else ApplyPatches(s, cat, t, p.patches)
  }

  function ApplyPatches(s: Scope, cat: Catalog, t: Tables, ps: seq<Patch>): Result<Tables>
    decreases ps, 0
  {
    if ps == [] then Ok(t)
    else
      var u :- ApplyPatch(s, cat, t, ps[0]);
      ApplyPatches(s, cat, u, ps[1..])
  }

  /** Whether the patch touches what the workspace itself stores: placements or routes. */
  predicate HasWorkspacePatch(p: Patch) {
    if p.Batch? then exists q :: q in p.patches && HasWorkspacePatch(q)
    else p.PatchPlacements? || p.ChangeRoute?
  }

  /** A whole submitted project. */
  datatype Submission = Submission(
    revision: Option<nat>, members: set<ItemRef>, name: string,
    placements: seq<NewPlacement>, assignments: seq<NewAssignment>, connections: seq<NewConnection>)

  function BumpWorkspace(s: Scope, t: Tables): Tables {
    if s.workspace in t.workspaceRevisions then
      t.(workspaceRevisions := t.workspaceRevisions[s.workspace := t.workspaceRevisions[s.workspace] + 1])
    else t
  }

  function ReplacePlacements(s: Scope, cat: Catalog, t: Tables, ps: seq<NewPlacement>): Result<Tables> {
    Fold(ClearPlacements(s, t), ps, (u, p) => InsertPlacement(s, cat, u, p))
  }

  function ReplaceAssignments(s: Scope, cat: Catalog, t: Tables, xs: seq<NewAssignment>): Result<Tables> {
    UpsertAssignments(s, cat, DeleteAssignments(t, OwnAssignments(s, t)), xs)
  }

  function ReplaceConnections(s: Scope, cat: Catalog, t: Tables, cs: seq<NewConnection>): Result<Tables> {
    Fold(DeleteConnections(t, OwnConnections(s, t)), cs, (u, c) => InsertConnection(s, cat, u, c))
  }

  function NextProjectRow(t: Tables, project: nat, name: string): Tables
    requires project in t.projects
  {
    var row := ProjectRow(if name == "" then "Homelab Inventory" else name, t.projects[project].revision + 1);
    t.(projects := t.projects[project := row])
  }

  /** Replaces everything the workspace holds; the transaction of `setProject`. */
  function ReplaceWorkspace(s: Scope, cat: Catalog, t: Tables, sub: Submission): Result<Tables>
    requires s.project in t.projects
  {
    var t1 :- ReplacePlacements(s, cat, NextProjectRow(t, s.project, sub.name), sub.placements);
    var t2 :- ReplaceAssignments(s, cat, t1, sub.assignments);
    var t3 :- ReplaceConnections(s, cat, t2, sub.connections);
    Ok(BumpWorkspace(s, t3))
  }

  function SetProject(s: Scope, cat: Catalog, t: Tables, sub: Submission): Result<Tables> {
    if s.project !in t.projects then Thrown("project-not-found")
    else if sub.revision.Some? && sub.revision.value != t.projects[s.project].revision then Thrown("revision-conflict")
    else if sub.members != cat.members then Thrown("invalid-project")
    else ReplaceWorkspace(s, cat, t, sub)
  }

  function ApplyEnginePatch(s: Scope, cat: Catalog, t: Tables, base: nat, revision: nat, p: Patch): Result<Tables> {
    if s.project !in t.projects then Thrown("project-not-found")
    else if t.projects[s.project].revision != base then Thrown("revision-conflict")
    else if revision != base + 1 then Thrown("invalid-engine-patch")
    else
      var u :- ApplyPatch(s, cat, t, p);
      if s.project !in u.projects || u.projects[s.project].revision != base then Thrown("revision-conflict")
      else
        var v := u.(projects := u.projects[s.project := u.projects[s.project].(revision := revision)]);
        Ok(if HasWorkspacePatch(p) then BumpWorkspace(s, v) else v)
  }
}
