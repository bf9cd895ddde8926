/** No run of operations on one workspace touches a row of another workspace. */
module WorkspaceIsolation {
  import opened Prelude
  import opened WorkspaceTables

  // ----- what workspace `w` holds, table by table

  function PlacementsOf(m: map<PlacementKey, PlacementRow>, w: nat): map<PlacementKey, PlacementRow> {
    map k | k in m && k.workspace == w :: m[k]
  }

  function AssignmentsOf(m: map<nat, AssignmentRow>, w: nat): map<nat, AssignmentRow> {
    map k | k in m && m[k].workspace == w :: m[k]
  }

  function SlotsOf(m: map<SlotRowKey, SlotRow>, w: nat): map<SlotRowKey, SlotRow> {
    map k | k in m && m[k].workspace == w :: m[k]
  }

  function ConnectionsOf(m: map<nat, ConnectionRow>, w: nat): map<nat, ConnectionRow> {
    map k | k in m && m[k].workspace == w :: m[k]
  }

  function EndpointsOf(m: map<EndpointKey, EndpointRow>, w: nat): map<EndpointKey, EndpointRow> {
    map k | k in m && m[k].workspace == w :: m[k]
  }

  function BendsOf(m: map<BendKey, BendRow>, w: nat): map<BendKey, BendRow> {
    map k | k in m && k.workspace == w :: m[k]
  }

  function RevisionOf(m: map<nat, nat>, w: nat): Option<nat> {
    if w in m then Some(m[w]) else None
  }

  /** Workspace `w` holds the same rows, and has the same revision, in both states. */
  ghost predicate SameWorkspace(t: Tables, u: Tables, w: nat) {
    && PlacementsOf(t.placements, w) == PlacementsOf(u.placements, w)
    && AssignmentsOf(t.assignments, w) == AssignmentsOf(u.assignments, w)
    && SlotsOf(t.slots, w) == SlotsOf(u.slots, w)
    && ConnectionsOf(t.connections, w) == ConnectionsOf(u.connections, w)
    && EndpointsOf(t.endpoints, w) == EndpointsOf(u.endpoints, w)
    && BendsOf(t.bends, w) == BendsOf(u.bends, w)
    && RevisionOf(t.workspaceRevisions, w) == RevisionOf(u.workspaceRevisions, w)
  }

  /** Child rows lie in the workspace of their parent. */
  ghost predicate Consistent(t: Tables) {
    && (forall k :: k in t.slots ==>
          k.assignment in t.assignments && t.slots[k].workspace == t.assignments[k.assignment].workspace)
    && (forall k :: k in t.endpoints ==>
          k.connection in t.connections && t.endpoints[k].workspace == t.connections[k.connection].workspace)
    && (forall k :: k in t.bends ==>
          k.connection in t.connections && k.workspace == t.connections[k.connection].workspace)
  }

  ghost predicate Isolated(t: Tables, u: Tables, w: nat) {
    Consistent(u) && SameWorkspace(t, u, w)
  }

  lemma {:induction false} FoldIsolated<A(!new)>(t: Tables, xs: seq<A>, step: (Tables, A) -> Result<Tables>, w: nat)
    requires Consistent(t) && Fold(t, xs, step).Ok?
    requires forall u, x :: Consistent(u) && step(u, x).Ok? ==> Isolated(u, step(u, x).value, w)
    ensures Isolated(t, Fold(t, xs, step).value, w)
  {
    if xs != [] {
      FoldIsolated(t, xs[..|xs| - 1], step, w);
    }
  }

  // ----- statement by statement

  /** Statements that only change placements of the own workspace. */
  lemma PlacementsIsolated(s: Scope, t: Tables, m: map<PlacementKey, PlacementRow>, w: nat)
    requires Consistent(t) && w != s.workspace
    requires forall k: PlacementKey :: k.workspace != s.workspace ==>
               (k in t.placements <==> k in m) && (k in m ==> m[k] == t.placements[k])
    ensures Isolated(t, t.(placements := m), w)
  {
    assert PlacementsOf(m, w) == PlacementsOf(t.placements, w);
  }

  lemma InsertPlacementIsolated(s: Scope, cat: Catalog, t: Tables, p: NewPlacement, w: nat)
    requires Consistent(t) && w != s.workspace && InsertPlacement(s, cat, t, p).Ok?
    ensures Isolated(t, InsertPlacement(s, cat, t, p).value, w)
  {
    PlacementsIsolated(s, t, InsertPlacement(s, cat, t, p).value.placements, w);
  }

  lemma UpsertPlacementIsolated(s: Scope, cat: Catalog, t: Tables, p: NewPlacement, w: nat)
    requires Consistent(t) && w != s.workspace && UpsertPlacement(s, cat, t, p).Ok?
    ensures Isolated(t, UpsertPlacement(s, cat, t, p).value, w)
  {
    PlacementsIsolated(s, t, UpsertPlacement(s, cat, t, p).value.placements, w);
  }

  lemma RemovePlacementIsolated(s: Scope, cat: Catalog, t: Tables, r: ItemRef, w: nat)
    requires Consistent(t) && w != s.workspace && RemovePlacement(s, cat, t, r).Ok?
    ensures Isolated(t, RemovePlacement(s, cat, t, r).value, w)
  {
    PlacementsIsolated(s, t, RemovePlacement(s, cat, t, r).value.placements, w);
  }

  lemma ClearPlacementsIsolated(s: Scope, t: Tables, w: nat)
    requires Consistent(t) && w != s.workspace
    ensures Isolated(t, ClearPlacements(s, t), w)
  {
    assert PlacementsOf(ClearPlacements(s, t).placements, w) == PlacementsOf(t.placements, w);
  }

  lemma DeleteAssignmentsIsolated(s: Scope, t: Tables, ids: set<nat>, w: nat)
    requires Consistent(t) && w != s.workspace
    requires forall id :: id in ids && id in t.assignments ==> t.assignments[id].workspace == s.workspace
    ensures Isolated(t, DeleteAssignments(t, ids), w)
  {
    var u := DeleteAssignments(t, ids);
    assert AssignmentsOf(u.assignments, w) == AssignmentsOf(t.assignments, w);
    assert SlotsOf(u.slots, w) == SlotsOf(t.slots, w);
  }

  lemma DeleteConnectionsIsolated(s: Scope, t: Tables, ids: set<nat>, w: nat)
    requires Consistent(t) && w != s.workspace
    requires forall id :: id in ids && id in t.connections ==> t.connections[id].workspace == s.workspace
    ensures Isolated(t, DeleteConnections(t, ids), w)
  {
    var u := DeleteConnections(t, ids);
    assert ConnectionsOf(u.connections, w) == ConnectionsOf(t.connections, w);
    assert EndpointsOf(u.endpoints, w) == EndpointsOf(t.endpoints, w);
    assert BendsOf(u.bends, w) == BendsOf(t.bends, w);
  }

  lemma WriteAssignmentIsolated(s: Scope, t: Tables, r: Resolved, w: nat)
    requires Consistent(t) && w != s.workspace && r.row.workspace == s.workspace && WriteAssignment(s, t, r).Ok?
    ensures Isolated(t, WriteAssignment(s, t, r).value, w)
  {
    var u := WriteAssignment(s, t, r).value;
    assert AssignmentsOf(u.assignments, w) == AssignmentsOf(t.assignments, w);
    assert SlotsOf(u.slots, w) == SlotsOf(t.slots, w);
  }

  lemma UpsertAssignmentsIsolated(s: Scope, cat: Catalog, t: Tables, xs: seq<NewAssignment>, w: nat)
    requires Consistent(t) && w != s.workspace && UpsertAssignments(s, cat, t, xs).Ok?
    ensures Isolated(t, UpsertAssignments(s, cat, t, xs).value, w)
  {
    forall u, a | Consistent(u) && UpsertAssignment(s, cat, u, a).Ok?
      ensures Isolated(u, UpsertAssignment(s, cat, u, a).value, w)
    {
      WriteAssignmentIsolated(s, u, ResolveAssignment(s, cat, u, a).value, w);
    }
    FoldIsolated(t, InOrder(xs), (u, a) => UpsertAssignment(s, cat, u, a), w);
  }

  lemma ReplaceBendsIsolated(s: Scope, t: Tables, id: nat, points: seq<Point>, w: nat)
    requires Consistent(t) && w != s.workspace && ReplaceBends(s, t, id, points).Ok?
    requires id in t.connections && t.connections[id].workspace == s.workspace
    ensures Isolated(t, ReplaceBends(s, t, id, points).value, w)
  {
    var u := ReplaceBends(s, t, id, points).value;
    assert BendsOf(u.bends, w) == BendsOf(t.bends, w);
  }

  lemma PutConnectionIsolated(s: Scope, t: Tables, id: nat, c: NewConnection, from: EndpointRow, to: EndpointRow,
                              w: nat)
    requires Consistent(t) && w != s.workspace && id !in t.connections
    ensures Isolated(t, PutConnection(s, t, id, c, from, to), w)
  {
    var u := PutConnection(s, t, id, c, from, to);
    assert ConnectionsOf(u.connections, w) == ConnectionsOf(t.connections, w);
    assert EndpointsOf(u.endpoints, w) == EndpointsOf(t.endpoints, w);
  }

  lemma InsertConnectionIsolated(s: Scope, cat: Catalog, t: Tables, c: NewConnection, w: nat)
    requires Consistent(t) && w != s.workspace && InsertConnection(s, cat, t, c).Ok?
    ensures Isolated(t, InsertConnection(s, cat, t, c).value, w)
  {
    var from, to := ResolvePort(cat, c.from).value, ResolvePort(cat, c.to).value;
    PutConnectionIsolated(s, t, c.id, c, from, to, w);
    ReplaceBendsIsolated(s, PutConnection(s, t, c.id, c, from, to), c.id, RouteOf(c.route).bends, w);
  }

  lemma UpdateConnectionIsolated(s: Scope, t: Tables, id: int, f: ConnectionRow -> ConnectionRow, w: nat)
    requires Consistent(t) && w != s.workspace && UpdateConnection(s, t, id, f).Ok?
    ensures Isolated(t, UpdateConnection(s, t, id, f).value, w)
  {
    var u := UpdateConnection(s, t, id, f).value;
    assert ConnectionsOf(u.connections, w) == ConnectionsOf(t.connections, w);
  }

  lemma SetRouteIsolated(s: Scope, t: Tables, id: int, route: Option<Route>, w: nat)
    requires Consistent(t) && w != s.workspace && SetRoute(s, t, id, route).Ok?
    ensures Isolated(t, SetRoute(s, t, id, route).value, w)
  {
    var f := (r: ConnectionRow) => WithRoute(r, RouteOf(route));
    UpdateConnectionIsolated(s, t, id, f, w);
    ReplaceBendsIsolated(s, UpdateConnection(s, t, id, f).value, id, RouteOf(route).bends, w);
  }

  // ----- operations

  lemma PatchPlacementsIsolated(s: Scope, cat: Catalog, t: Tables, p: Patch, w: nat)
    requires p.PatchPlacements? && Consistent(t) && w != s.workspace && ApplyLeaf(s, cat, t, p).Ok?
    ensures Isolated(t, ApplyLeaf(s, cat, t, p).value, w)
  {
    forall u, x | Consistent(u) && UpsertPlacement(s, cat, u, x).Ok?
      ensures Isolated(u, UpsertPlacement(s, cat, u, x).value, w)
    {
      UpsertPlacementIsolated(s, cat, u, x, w);
    }
    forall u, r | Consistent(u) && RemovePlacement(s, cat, u, r).Ok?
      ensures Isolated(u, RemovePlacement(s, cat, u, r).value, w)
    {
      RemovePlacementIsolated(s, cat, u, r, w);
    }
    var up := (v, x) => UpsertPlacement(s, cat, v, x);
    FoldIsolated(t, p.upserts, up, w);
    FoldIsolated(Fold(t, p.upserts, up).value, p.removals, (v, r) => RemovePlacement(s, cat, v, r), w);
  }

  lemma PatchAssignmentsIsolated(s: Scope, cat: Catalog, t: Tables, p: Patch, w: nat)
    requires p.PatchAssignments? && Consistent(t) && w != s.workspace && ApplyLeaf(s, cat, t, p).Ok?
    ensures Isolated(t, ApplyLeaf(s, cat, t, p).value, w)
  {
    forall u, id | Consistent(u) && RemoveAssignment(s, u, id).Ok?
      ensures Isolated(u, RemoveAssignment(s, u, id).value, w)
    {
      DeleteAssignmentsIsolated(s, u, {id}, w);
    }
    var remove := (v, id) => RemoveAssignment(s, v, id);
    FoldIsolated(t, p.removedIds, remove, w);
    UpsertAssignmentsIsolated(s, cat, Fold(t, p.removedIds, remove).value, p.assignments, w);
  }

  lemma SetDerivedIsolated(s: Scope, cat: Catalog, t: Tables, p: Patch, w: nat)
    requires p.SetConnectionsDerived? && Consistent(t) && w != s.workspace && ApplyLeaf(s, cat, t, p).Ok?
    ensures Isolated(t, ApplyLeaf(s, cat, t, p).value, w)
  {
    forall u, d | Consistent(u) && SetDerived(s, u, d).Ok? ensures Isolated(u, SetDerived(s, u, d).value, w) {
      UpdateConnectionIsolated(s, u, d.connection, (r: ConnectionRow) => r.(ctype := d.ctype, speed := d.speed), w);
    }
    FoldIsolated(t, p.states, (u, d) => SetDerived(s, u, d), w);
  }

  lemma ConnectionLeafIsolated(s: Scope, cat: Catalog, t: Tables, p: Patch, w: nat)
    requires p.AddConnection? || p.DropConnection? || p.SetCaption? || p.ChangeRoute?
    requires Consistent(t) && w != s.workspace && ApplyLeaf(s, cat, t, p).Ok?
    ensures Isolated(t, ApplyLeaf(s, cat, t, p).value, w)
  {
    match p
    case AddConnection(c) => InsertConnectionIsolated(s, cat, t, c, w);
    case DropConnection(id) => DeleteConnectionsIsolated(s, t, {id}, w);
    case SetCaption(id, caption) => UpdateConnectionIsolated(s, t, id, (r: ConnectionRow) => r.(caption := caption), w);
    case ChangeRoute(id, route) => SetRouteIsolated(s, t, id, route, w);
  }

  lemma SetNameIsolated(s: Scope, cat: Catalog, t: Tables, p: Patch, w: nat)
    requires p.SetProjectName? && Consistent(t) && w != s.workspace && ApplyLeaf(s, cat, t, p).Ok?
    ensures Isolated(t, ApplyLeaf(s, cat, t, p).value, w)
  {
  }

  lemma LeafIsolated(s: Scope, cat: Catalog, t: Tables, p: Patch, w: nat)
    requires !p.Batch? && Consistent(t) && w != s.workspace && ApplyLeaf(s, cat, t, p).Ok?
    ensures Isolated(t, ApplyLeaf(s, cat, t, p).value, w)
  {
    match p
    case SetProjectName(_) => SetNameIsolated(s, cat, t, p, w);
    case SetConnectionsDerived(_) => SetDerivedIsolated(s, cat, t, p, w);
    case PatchPlacements(_, _) => PatchPlacementsIsolated(s, cat, t, p, w);
    case PatchAssignments(_, _) => PatchAssignmentsIsolated(s, cat, t, p, w);
    case _ => ConnectionLeafIsolated(s, cat, t, p, w);
  }

  lemma {:induction false} PatchIsolated(s: Scope, cat: Catalog, t: Tables, p: Patch, w: nat)
    requires Consistent(t) && w != s.workspace && ApplyPatch(s, cat, t, p).Ok?
    ensures Isolated(t, ApplyPatch(s, cat, t, p).value, w)
    decreases p, 1
  {
    if p.Batch? { PatchesIsolated(s, cat, t, p.patches, w); } else { LeafIsolated(s, cat, t, p, w); }
  }

  lemma {:induction false} PatchesIsolated(s: Scope, cat: Catalog, t: Tables, ps: seq<Patch>, w: nat)
    requires Consistent(t) && w != s.workspace && ApplyPatches(s, cat, t, ps).Ok?
    ensures Isolated(t, ApplyPatches(s, cat, t, ps).value, w)
    decreases ps, 0
  {
    if ps != [] {
      PatchIsolated(s, cat, t, ps[0], w);
      PatchesIsolated(s, cat, ApplyPatch(s, cat, t, ps[0]).value, ps[1..], w);
    }
  }

  lemma ReplacePlacementsIsolated(s: Scope, cat: Catalog, t: Tables, ps: seq<NewPlacement>, w: nat)
    requires Consistent(t) && w != s.workspace && ReplacePlacements(s, cat, t, ps).Ok?
    ensures Isolated(t, ReplacePlacements(s, cat, t, ps).value, w)
  {
    ClearPlacementsIsolated(s, t, w);
    forall u, x | Consistent(u) && InsertPlacement(s, cat, u, x).Ok?
      ensures Isolated(u, InsertPlacement(s, cat, u, x).value, w)
    {
      InsertPlacementIsolated(s, cat, u, x, w);
    }
    FoldIsolated(ClearPlacements(s, t), ps, (u, p) => InsertPlacement(s, cat, u, p), w);
  }

  lemma ReplaceAssignmentsIsolated(s: Scope, cat: Catalog, t: Tables, xs: seq<NewAssignment>, w: nat)
    requires Consistent(t) && w != s.workspace && ReplaceAssignments(s, cat, t, xs).Ok?
    ensures Isolated(t, ReplaceAssignments(s, cat, t, xs).value, w)
  {
    DeleteAssignmentsIsolated(s, t, OwnAssignments(s, t), w);
    UpsertAssignmentsIsolated(s, cat, DeleteAssignments(t, OwnAssignments(s, t)), xs, w);
  }

  lemma ReplaceConnectionsIsolated(s: Scope, cat: Catalog, t: Tables, cs: seq<NewConnection>, w: nat)
    requires Consistent(t) && w != s.workspace && ReplaceConnections(s, cat, t, cs).Ok?
    ensures Isolated(t, ReplaceConnections(s, cat, t, cs).value, w)
  {
    DeleteConnectionsIsolated(s, t, OwnConnections(s, t), w);
    forall u, c | Consistent(u) && InsertConnection(s, cat, u, c).Ok?
      ensures Isolated(u, InsertConnection(s, cat, u, c).value, w)
    {
      InsertConnectionIsolated(s, cat, u, c, w);
    }
    FoldIsolated(DeleteConnections(t, OwnConnections(s, t)), cs, (u, c) => InsertConnection(s, cat, u, c), w);
  }

  lemma IsolatedTogether(a: Tables, b: Tables, c: Tables, d: Tables, w: nat)
    requires Isolated(a, b, w) && Isolated(b, c, w) && Isolated(c, d, w)
    ensures Isolated(a, d, w)
  {
  }

  lemma BumpIsolated(s: Scope, t: Tables, w: nat)
    requires Consistent(t) && w != s.workspace
    ensures Isolated(t, BumpWorkspace(s, t), w)
  {
  }

  lemma ProjectRowIsolated(s: Scope, t: Tables, name: string, w: nat)
    requires Consistent(t) && s.project in t.projects
    ensures Isolated(t, NextProjectRow(t, s.project, name), w)
  {
  }

  /** The three table replacements of one transaction. */
  lemma ReplacementsIsolated(s: Scope, cat: Catalog, t0: Tables, sub: Submission, t1: Tables, t2: Tables, t3: Tables,
                             w: nat)
    requires Consistent(t0) && w != s.workspace
    requires ReplacePlacements(s, cat, t0, sub.placements) == Ok(t1)
    requires ReplaceAssignments(s, cat, t1, sub.assignments) == Ok(t2)
    requires ReplaceConnections(s, cat, t2, sub.connections) == Ok(t3)
    ensures Isolated(t0, t3, w)
  {
    assert Isolated(t0, t1, w) by { ReplacePlacementsIsolated(s, cat, t0, sub.placements, w); }
    assert Isolated(t1, t2, w) by { ReplaceAssignmentsIsolated(s, cat, t1, sub.assignments, w); }
    assert Isolated(t2, t3, w) by { ReplaceConnectionsIsolated(s, cat, t2, sub.connections, w); }
    IsolatedTogether(t0, t1, t2, t3, w);
  }

  lemma SetProjectIsolated(s: Scope, cat: Catalog, t: Tables, sub: Submission, w: nat)
    requires Consistent(t) && w != s.workspace && SetProject(s, cat, t, sub).Ok?
    ensures Isolated(t, SetProject(s, cat, t, sub).value, w)
  {
    var t0 := NextProjectRow(t, s.project, sub.name);
    var t1 := ReplacePlacements(s, cat, t0, sub.placements).value;
    var t2 := ReplaceAssignments(s, cat, t1, sub.assignments).value;
    var t3 := ReplaceConnections(s, cat, t2, sub.connections).value;
    ProjectRowIsolated(s, t, sub.name, w);
    ReplacementsIsolated(s, cat, t0, sub, t1, t2, t3, w);
    BumpIsolated(s, t3, w);
    IsolatedTogether(t, t0, t3, BumpWorkspace(s, t3), w);
  }

  lemma EnginePatchIsolated(s: Scope, cat: Catalog, t: Tables, base: nat, revision: nat, p: Patch, w: nat)
    requires Consistent(t) && w != s.workspace && ApplyEnginePatch(s, cat, t, base, revision, p).Ok?
    ensures Isolated(t, ApplyEnginePatch(s, cat, t, base, revision, p).value, w)
  {
    PatchIsolated(s, cat, t, p, w);
    RevisionsAreNotContents(t, ApplyPatch(s, cat, t, p).value, ApplyEnginePatch(s, cat, t, base, revision, p).value, w);
  }

  /** Project rows and revisions of other workspaces are no part of what a workspace holds. */
  lemma RevisionsAreNotContents(t: Tables, u: Tables, v: Tables, w: nat)
    requires Isolated(t, u, w) && v == u.(projects := v.projects, workspaceRevisions := v.workspaceRevisions)
    requires RevisionOf(u.workspaceRevisions, w) == RevisionOf(v.workspaceRevisions, w)
    ensures Isolated(t, v, w)
  {
  }

  /** An operation on the store bound to scope `s`; a thrown error rolls the transaction back. */
  datatype Operation =
    | Replace(sub: Submission)
    | EnginePatch(base: nat, revision: nat, patch: Patch)

  function Perform(s: Scope, cat: Catalog, t: Tables, op: Operation): Result<Tables> {
    match op
    case Replace(sub) => SetProject(s, cat, t, sub)
    case EnginePatch(base, revision, p) => ApplyEnginePatch(s, cat, t, base, revision, p)
  }

  function After(s: Scope, cat: Catalog, t: Tables, op: Operation): Tables {
    match Perform(s, cat, t, op)
    case Ok(u) => u
    case Thrown(_) => t
  }

  function AfterAll(s: Scope, cat: Catalog, t: Tables, ops: seq<Operation>): Tables {
    if ops == [] then t else After(s, cat, AfterAll(s, cat, t, ops[..|ops| - 1]), ops[|ops| - 1])
  }

  lemma OperationIsolated(s: Scope, cat: Catalog, t: Tables, op: Operation, w: nat)
    requires Consistent(t) && w != s.workspace
    ensures Isolated(t, After(s, cat, t, op), w)
  {
    if Perform(s, cat, t, op).Ok? {
      match op
      case Replace(sub) => SetProjectIsolated(s, cat, t, sub, w);
      case EnginePatch(base, revision, p) => EnginePatchIsolated(s, cat, t, base, revision, p, w);
    }
  }

  /** Any sequence of replacements and engine patches on one workspace leaves every other workspace as it was. */
  lemma {:induction false} WorkspacesAreIsolated(s: Scope, cat: Catalog, t: Tables, ops: seq<Operation>, w: nat)
    requires Consistent(t) && w != s.workspace
    ensures Consistent(AfterAll(s, cat, t, ops)) && SameWorkspace(t, AfterAll(s, cat, t, ops), w)
  {
    if ops != [] {
      var front := AfterAll(s, cat, t, ops[..|ops| - 1]);
      WorkspacesAreIsolated(s, cat, t, ops[..|ops| - 1], w);
      OperationIsolated(s, cat, front, ops[|ops| - 1], w);
    }
  }
}
