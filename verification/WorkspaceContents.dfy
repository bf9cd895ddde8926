/** A successful replacement stores exactly what was submitted. */
module WorkspaceContents {
  import opened Prelude
  import opened Sorting
  import opened WorkspaceTables
  import opened WorkspaceIsolation
  import opened WorkspaceBoards

  // ----- placements

  /** The placement stands in the tables at the submitted coordinates. */
  ghost predicate PlacementStored(s: Scope, cat: Catalog, u: Tables, p: NewPlacement) {
    && ResolveItem(cat, p.item).Ok? && p.at.x.Some? && p.at.y.Some?
    && var key := PlacementKey(s.workspace, ResolveItem(cat, p.item).value);
    key in u.placements && u.placements[key] == PlacementRow(s.project, p.at.x.value, p.at.y.value)
  }

  /** Which placements the scope's workspace holds. */
  function PlacedItems(s: Scope, t: Tables): set<PlacementKey> {
    set k | k in t.placements && k.workspace == s.workspace && t.placements[k].project == s.project
  }

  function SubmittedPlacements(s: Scope, cat: Catalog, ps: seq<NewPlacement>): set<PlacementKey> {
    set i | 0 <= i < |ps| && ResolveItem(cat, ps[i].item).Ok?
      :: PlacementKey(s.workspace, ResolveItem(cat, ps[i].item).value)
  }

  lemma InsertPlacementStores(s: Scope, cat: Catalog, t: Tables, p: NewPlacement)
    requires InsertPlacement(s, cat, t, p).Ok?
    ensures var u := InsertPlacement(s, cat, t, p).value;
      && PlacementStored(s, cat, u, p)
      && PlacedItems(s, u) == PlacedItems(s, t) + {PlacementKey(s.workspace, ResolveItem(cat, p.item).value)}
      && forall q: NewPlacement :: PlacementStored(s, cat, t, q) ==> PlacementStored(s, cat, u, q)
  {
  }

  lemma {:induction false} InsertedPlacements(s: Scope, cat: Catalog, t: Tables, ps: seq<NewPlacement>)
    requires PlacedItems(s, t) == {}
    requires Fold(t, ps, (v, p) => InsertPlacement(s, cat, v, p)).Ok?
    ensures var u := Fold(t, ps, (v, p) => InsertPlacement(s, cat, v, p)).value;
      && (forall i :: 0 <= i < |ps| ==> PlacementStored(s, cat, u, ps[i]))
      && PlacedItems(s, u) == SubmittedPlacements(s, cat, ps)
  {
    if ps != [] {
      var front, last := ps[..|ps| - 1], ps[|ps| - 1];
      InsertedPlacements(s, cat, t, front);
      var before := Fold(t, front, (v, p) => InsertPlacement(s, cat, v, p)).value;
      InsertPlacementStores(s, cat, before, last);
      SubmittedOneMore(s, cat, ps);
      assert forall i :: 0 <= i < |front| ==> front[i] == ps[i];
    }
  }

  lemma SubmittedOneMore(s: Scope, cat: Catalog, ps: seq<NewPlacement>)
    requires ps != [] && ResolveItem(cat, ps[|ps| - 1].item).Ok?
    ensures SubmittedPlacements(s, cat, ps) == SubmittedPlacements(s, cat, ps[..|ps| - 1])
              + {PlacementKey(s.workspace, ResolveItem(cat, ps[|ps| - 1].item).value)}
  {
    assert forall i :: 0 <= i < |ps| - 1 ==> ps[..|ps| - 1][i] == ps[i];
  }

  /** The workspace then holds the submitted placements and no others. */
  lemma PlacementsReadBack(s: Scope, cat: Catalog, t: Tables, ps: seq<NewPlacement>)
    requires ReplacePlacements(s, cat, t, ps).Ok?
    ensures var u := ReplacePlacements(s, cat, t, ps).value;
      && (forall i :: 0 <= i < |ps| ==> PlacementStored(s, cat, u, ps[i]))
      && PlacedItems(s, u) == SubmittedPlacements(s, cat, ps)
  {
    assert PlacedItems(s, ClearPlacements(s, t)) == {};
    InsertedPlacements(s, cat, ClearPlacements(s, t), ps);
  }

  // ----- connections

  ghost predicate BendsStored(s: Scope, u: Tables, id: nat, points: seq<Point>) {
    && (forall k: nat :: BendKey(s.workspace, id, k) in u.bends <==> k < |points|)
    && (forall k: nat :: k < |points| ==>
          && points[k].x.Some? && points[k].y.Some?
          && u.bends[BendKey(s.workspace, id, k)] == BendRow(s.project, points[k].x.value, points[k].y.value))
  }

  /** The row of one end names the submitted port, on the hosted item if there is one, and the submitted face. */
  ghost predicate EndStored(s: Scope, cat: Catalog, u: Tables, key: EndpointKey, e: NewEndpoint) {
    && key in u.endpoints && u.endpoints[key].workspace == s.workspace
    && var owner := if e.hosted.Some? then e.hosted.value else e.item;
    && PortKey(owner, e.port) in cat.ports && u.endpoints[key].port == cat.ports[PortKey(owner, e.port)]
    && (e.face.None? ==> u.endpoints[key].face.None?)
    && (e.face.Some? ==>
          && FaceKey(u.endpoints[key].port, e.face.value) in cat.faces
          && u.endpoints[key].face == Some(cat.faces[FaceKey(u.endpoints[key].port, e.face.value)]))
  }

  ghost predicate RowStored(s: Scope, row: ConnectionRow, c: NewConnection) {
    && row.project == s.project && row.workspace == s.workspace
    && row.ctype == c.ctype && row.speed == c.speed && row.caption == c.caption
    && match c.route
       case None => row.sourceSide == "right" && row.targetSide == "left" && !row.avoidOverlap
       case Some(route) =>
         && row.avoidOverlap == route.avoidOverlap
         && row.sourceSide == (if route.sourceSide.Some? then route.sourceSide.value else "right")
         && row.targetSide == (if route.targetSide.Some? then route.targetSide.value else "left")
  }

  /** Row, source end, target end and bends of a connection, as submitted. */
  ghost predicate ConnectionStored(s: Scope, cat: Catalog, u: Tables, c: NewConnection) {
    && c.id > 0 && c.id in u.connections && RowStored(s, u.connections[c.id], c)
    && EndStored(s, cat, u, EndpointKey(c.id, Source), c.from)
    && EndStored(s, cat, u, EndpointKey(c.id, Target), c.to)
    && BendsStored(s, u, c.id, if c.route.Some? then c.route.value.bends else [])
  }

  lemma ReplaceBendsStores(s: Scope, t: Tables, id: nat, points: seq<Point>)
    requires ReplaceBends(s, t, id, points).Ok? && forall k :: k in t.bends ==> k.connection != id
    ensures BendsStored(s, ReplaceBends(s, t, id, points).value, id, points)
  {
  }

  lemma PutConnectionStores(s: Scope, cat: Catalog, t: Tables, c: NewConnection)
    requires c.id > 0 && ResolvePort(cat, c.from).Ok? && ResolvePort(cat, c.to).Ok?
    ensures var u := PutConnection(s, t, c.id, c, ResolvePort(cat, c.from).value, ResolvePort(cat, c.to).value);
      && c.id in u.connections && RowStored(s, u.connections[c.id], c)
      && EndStored(s, cat, u, EndpointKey(c.id, Source), c.from)
      && EndStored(s, cat, u, EndpointKey(c.id, Target), c.to)
  {
  }

  lemma InsertConnectionStores(s: Scope, cat: Catalog, t: Tables, c: NewConnection)
    requires Consistent(t) && InsertConnection(s, cat, t, c).Ok?
    ensures ConnectionStored(s, cat, InsertConnection(s, cat, t, c).value, c)
    ensures OwnConnections(s, InsertConnection(s, cat, t, c).value) == OwnConnections(s, t) + {c.id}
  {
    PutConnectionStores(s, cat, t, c);
    var put := PutConnection(s, t, c.id, c, ResolvePort(cat, c.from).value, ResolvePort(cat, c.to).value);
    ReplaceBendsStores(s, put, c.id, RouteOf(c.route).bends);
  }

  /** Rows of other connections stay as they are. */
  lemma InsertConnectionKeeps(s: Scope, cat: Catalog, t: Tables, c: NewConnection, d: NewConnection)
    requires InsertConnection(s, cat, t, c).Ok? && ConnectionStored(s, cat, t, d)
    ensures c.id != d.id && ConnectionStored(s, cat, InsertConnection(s, cat, t, c).value, d)
  {
    var u := InsertConnection(s, cat, t, c).value;
    assert u.connections[d.id] == t.connections[d.id];
    assert forall k :: k in t.endpoints && k.connection == d.id ==>
      k in u.endpoints && u.endpoints[k] == t.endpoints[k];
    InsertConnectionKeepsBends(s, cat, t, c, d.id, if d.route.Some? then d.route.value.bends else []);
  }

  lemma InsertConnectionKeepsBends(s: Scope, cat: Catalog, t: Tables, c: NewConnection, id: nat, points: seq<Point>)
    requires InsertConnection(s, cat, t, c).Ok? && c.id != id && BendsStored(s, t, id, points)
    ensures BendsStored(s, InsertConnection(s, cat, t, c).value, id, points)
  {
    var u := InsertConnection(s, cat, t, c).value;
    assert forall k: nat :: BendKey(s.workspace, id, k) in u.bends <==> BendKey(s.workspace, id, k) in t.bends;
  }

  function SubmittedIds(cs: seq<NewConnection>): set<int> {
    set i | 0 <= i < |cs| :: cs[i].id
  }

  /** All the given connections are stored, under different ids, and no others. */
  ghost predicate ConnectionsStored(s: Scope, cat: Catalog, u: Tables, cs: seq<NewConnection>) {
    && (forall i :: 0 <= i < |cs| ==> ConnectionStored(s, cat, u, cs[i]))
    && (forall id :: id in OwnConnections(s, u) <==> id in SubmittedIds(cs))
    && (forall i, j :: 0 <= i < j < |cs| ==> cs[i].id != cs[j].id)
  }

  lemma InsertOneMore(s: Scope, cat: Catalog, t: Tables, cs: seq<NewConnection>, c: NewConnection)
    requires Consistent(t) && ConnectionsStored(s, cat, t, cs) && InsertConnection(s, cat, t, c).Ok?
    ensures ConnectionsStored(s, cat, InsertConnection(s, cat, t, c).value, cs + [c])
  {
    InsertConnectionStores(s, cat, t, c);
    var u, all := InsertConnection(s, cat, t, c).value, cs + [c];
    forall i | 0 <= i < |cs| ensures ConnectionStored(s, cat, u, all[i]) && all[i].id != c.id {
      assert ConnectionStored(s, cat, t, cs[i]);
      InsertConnectionKeeps(s, cat, t, c, cs[i]);
    }
    assert SubmittedIds(all) == SubmittedIds(cs) + {c.id} by {
      assert all[|cs|] == c && forall i :: 0 <= i < |cs| ==> all[i] == cs[i];
    }
  }

  function Inserts(s: Scope, cat: Catalog, t: Tables, cs: seq<NewConnection>): Result<Tables> {
    Fold(t, cs, (v, c) => InsertConnection(s, cat, v, c))
  }

  lemma InsertsStep(s: Scope, cat: Catalog, t: Tables, cs: seq<NewConnection>)
    requires cs != [] && Inserts(s, cat, t, cs).Ok?
    ensures var before := Inserts(s, cat, t, cs[..|cs| - 1]);
      before.Ok? && InsertConnection(s, cat, before.value, cs[|cs| - 1]) == Inserts(s, cat, t, cs)
  {
  }

  lemma NoneStored(s: Scope, cat: Catalog, t: Tables)
    requires OwnConnections(s, t) == {}
    ensures ConnectionsStored(s, cat, t, []) && Inserts(s, cat, t, []) == Ok(t)
  {
    assert SubmittedIds([]) == {};
  }

  lemma InsertedOneMore(s: Scope, cat: Catalog, before: Tables, front: seq<NewConnection>, cs: seq<NewConnection>,
                        u: Tables)
    requires Consistent(before) && ConnectionsStored(s, cat, before, front)
    requires cs != [] && front == cs[..|cs| - 1] && InsertConnection(s, cat, before, cs[|cs| - 1]) == Ok(u)
    ensures Consistent(u) && ConnectionsStored(s, cat, u, cs)
  {
    var last := cs[|cs| - 1];
    InsertConnectionIsolated(s, cat, before, last, s.workspace + 1);
    InsertOneMore(s, cat, before, front, last);
    assert front + [last] == cs;
  }

  lemma {:induction false} InsertedConnections(s: Scope, cat: Catalog, t: Tables, cs: seq<NewConnection>, u: Tables)
    requires Consistent(t) && OwnConnections(s, t) == {} && Inserts(s, cat, t, cs) == Ok(u)
    ensures Consistent(u) && ConnectionsStored(s, cat, u, cs)
  {
    if cs == [] {
      NoneStored(s, cat, t);
    } else {
      InsertsStep(s, cat, t, cs);
      var front := cs[..|cs| - 1];
      var before := Inserts(s, cat, t, front).value;
      InsertedConnections(s, cat, t, front, before);
      InsertedOneMore(s, cat, before, front, cs, u);
    }
  }

  /** The workspace then holds the submitted connections with their ends and bends, and no others. */
  lemma ConnectionsReadBack(s: Scope, cat: Catalog, t: Tables, cs: seq<NewConnection>)
    requires Consistent(t) && ReplaceConnections(s, cat, t, cs).Ok?
    ensures ConnectionsStored(s, cat, ReplaceConnections(s, cat, t, cs).value, cs)
  {
    DeleteConnectionsIsolated(s, t, OwnConnections(s, t), s.workspace + 1);
    var cleared := DeleteConnections(t, OwnConnections(s, t));
    assert OwnConnections(s, cleared) == {};
    InsertedConnections(s, cat, cleared, cs, ReplaceConnections(s, cat, t, cs).value);
  }

  // ----- assignments

  /**
   Host, component and time as submitted; slot rows in submitted order, on the host or on the board that
   provides them.
   */
  ghost predicate AssignmentStored(s: Scope, cat: Catalog, u: Tables, a: NewAssignment) {
    && a.id > 0 && a.id in u.assignments
    && var row := u.assignments[a.id];
    && row.project == s.project && row.workspace == s.workspace && row.assignedAt == a.assignedAt
    && ResolveItem(cat, a.host) == Ok(row.host) && ResolveItem(cat, a.item) == Ok(row.component)
    && (row.provider.Some? <==> BoardProvided(cat, row.host, a.allocation))
    && (forall k: nat :: SlotRowKey(a.id, k) in u.slots <==> a.allocation.Some? && k < |a.allocation.value.positions|)
    && (row.slot.Some? <==> SlotRowKey(a.id, 0) in u.slots)
    && (row.slot.Some? ==> row.slot == Some(u.slots[SlotRowKey(a.id, 0)].slot))
    && (a.allocation.Some? ==> forall k: nat :: k < |a.allocation.value.positions| ==>
          var slot := u.slots[SlotRowKey(a.id, k)];
          && slot.project == s.project && slot.workspace == s.workspace
          && (row.provider.None? ==> slot.host == row.host)
          && ResolveResourceSlot(cat, slot.host, a.allocation.value, a.allocation.value.positions[k]) == Ok(slot.slot))
  }

  lemma ResolvedIsStored(s: Scope, cat: Catalog, t: Tables, a: NewAssignment, u: Tables)
    requires ResolveAssignment(s, cat, t, a).Ok? && Written(s, u, ResolveAssignment(s, cat, t, a).value)
    ensures AssignmentStored(s, cat, u, a)
  {
    var r := ResolveAssignment(s, cat, t, a).value;
    assert forall k: nat :: SlotRowKey(a.id, k) in u.slots <==> k < |r.slots|;
  }

  /** The workspace then holds the submitted assignments with their slot rows, and no others. */
  lemma AssignmentsReadBack(s: Scope, cat: Catalog, t: Tables, xs: seq<NewAssignment>)
    requires IdsDistinct(xs) && ReplaceAssignments(s, cat, t, xs).Ok?
    ensures var u := ReplaceAssignments(s, cat, t, xs).value;
      && (forall a :: a in xs ==> AssignmentStored(s, cat, u, a))
      && (forall id :: id in OwnAssignments(s, u) <==> exists a :: a in xs && a.id == id)
  {
    ReplacementIsUpserts(s, cat, t, xs);
    EarlierIsStrict(xs);
    SortSorted(xs, Earlier);
    var cleared, ys := DeleteAssignments(t, OwnAssignments(s, t)), InOrder(xs);
    var u := Upserts(s, cat, cleared, ys).value;
    OwnAfter(s, cat, cleared, ys);
    forall a | a in xs ensures AssignmentStored(s, cat, u, a) {
      assert a in ys;
      var j :| 0 <= j < |ys| && ys[j] == a;
      UpsertsWriteAll(s, cat, cleared, ys, j);
      ResolvedIsStored(s, cat, Upserts(s, cat, cleared, ys[..j]).value, a, u);
    }
    forall id ensures id in OwnAssignments(s, u) <==> exists a :: a in xs && a.id == id {
      if a :| a in xs && a.id == id {
        assert a in ys;
        var k :| 0 <= k < |ys| && ys[k] == a;
      }
      if id in OwnAssignments(s, u) {
        var k :| 0 <= k < |ys| && ys[k].id == id;
        assert ys[k] in ys;
      }
    }
  }

  // ----- the whole transaction

  /** Statements of one stage leave the tables of the other stages alone. */
  ghost predicate KeepsPlacements(t: Tables, u: Tables) {
    t.placements == u.placements
  }

  ghost predicate KeepsAssignments(t: Tables, u: Tables) {
    KeepsPlacements(t, u) && t.assignments == u.assignments && t.slots == u.slots
  }

  lemma {:induction false} UpsertsKeepPlacements(s: Scope, cat: Catalog, t: Tables, xs: seq<NewAssignment>)
    requires Upserts(s, cat, t, xs).Ok?
    ensures KeepsPlacements(t, Upserts(s, cat, t, xs).value)
  {
    if xs != [] {
      UpsertsKeepPlacements(s, cat, t, xs[..|xs| - 1]);
    }
  }

  lemma {:induction false} InsertsKeepAssignments(s: Scope, cat: Catalog, t: Tables, cs: seq<NewConnection>)
    requires Inserts(s, cat, t, cs).Ok?
    ensures KeepsAssignments(t, Inserts(s, cat, t, cs).value)
  {
    if cs != [] {
      InsertsKeepAssignments(s, cat, t, cs[..|cs| - 1]);
    }
  }

  ghost predicate Stored(s: Scope, cat: Catalog, u: Tables, sub: Submission) {
    && (forall i :: 0 <= i < |sub.placements| ==> PlacementStored(s, cat, u, sub.placements[i]))
    && PlacedItems(s, u) == SubmittedPlacements(s, cat, sub.placements)
    && (forall a :: a in sub.assignments ==> AssignmentStored(s, cat, u, a))
    && (forall id :: id in OwnAssignments(s, u) <==> exists a :: a in sub.assignments && a.id == id)
    && ConnectionsStored(s, cat, u, sub.connections)
  }

  lemma StagesStore(s: Scope, cat: Catalog, t0: Tables, sub: Submission, t1: Tables, t2: Tables, t3: Tables)
    requires Consistent(t0) && IdsDistinct(sub.assignments)
    requires ReplacePlacements(s, cat, t0, sub.placements) == Ok(t1)
    requires ReplaceAssignments(s, cat, t1, sub.assignments) == Ok(t2)
    requires ReplaceConnections(s, cat, t2, sub.connections) == Ok(t3)
    ensures Stored(s, cat, t3, sub)
  {
    PlacementsReadBack(s, cat, t0, sub.placements);
    AssignmentsReadBack(s, cat, t1, sub.assignments);
    ReplacePlacementsIsolated(s, cat, t0, sub.placements, s.workspace + 1);
    ReplaceAssignmentsIsolated(s, cat, t1, sub.assignments, s.workspace + 1);
    ConnectionsReadBack(s, cat, t2, sub.connections);
    UpsertsKeepPlacements(s, cat, DeleteAssignments(t1, OwnAssignments(s, t1)), InOrder(sub.assignments));
    InsertsKeepAssignments(s, cat, DeleteConnections(t2, OwnConnections(s, t2)), sub.connections);
    StoredCarriesOver(s, cat, t1, t2, t3, sub);
  }

  lemma StoredCarriesOver(s: Scope, cat: Catalog, t1: Tables, t2: Tables, t3: Tables, sub: Submission)
    requires KeepsPlacements(t1, t2) && KeepsAssignments(t2, t3)
    requires forall i :: 0 <= i < |sub.placements| ==> PlacementStored(s, cat, t1, sub.placements[i])
    requires PlacedItems(s, t1) == SubmittedPlacements(s, cat, sub.placements)
    requires forall a :: a in sub.assignments ==> AssignmentStored(s, cat, t2, a)
    requires forall id :: id in OwnAssignments(s, t2) <==> exists a :: a in sub.assignments && a.id == id
    requires ConnectionsStored(s, cat, t3, sub.connections)
    ensures Stored(s, cat, t3, sub)
  {
    assert OwnAssignments(s, t3) == OwnAssignments(s, t2);
    assert PlacedItems(s, t3) == PlacedItems(s, t1);
    forall a | a in sub.assignments ensures AssignmentStored(s, cat, t3, a) {
      assert AssignmentStored(s, cat, t2, a);
    }
    forall i | 0 <= i < |sub.placements| ensures PlacementStored(s, cat, t3, sub.placements[i]) {
      assert PlacementStored(s, cat, t1, sub.placements[i]);
    }
  }

  /** After a successful `setProject` the workspace holds exactly the submitted project. */
  lemma SetProjectReadsBack(s: Scope, cat: Catalog, t: Tables, sub: Submission)
    requires Consistent(t) && IdsDistinct(sub.assignments) && SetProject(s, cat, t, sub).Ok?
    ensures Stored(s, cat, SetProject(s, cat, t, sub).value, sub)
  {
    var t0 := NextProjectRow(t, s.project, sub.name);
    var t1 := ReplacePlacements(s, cat, t0, sub.placements).value;
    var t2 := ReplaceAssignments(s, cat, t1, sub.assignments).value;
    var t3 := ReplaceConnections(s, cat, t2, sub.connections).value;
    StagesStore(s, cat, t0, sub, t1, t2, t3);
    BumpKeepsStored(s, cat, t3, sub);
  }

  lemma BumpKeepsStored(s: Scope, cat: Catalog, t: Tables, sub: Submission)
    requires Stored(s, cat, t, sub)
    ensures Stored(s, cat, BumpWorkspace(s, t), sub)
  {
    var u := BumpWorkspace(s, t);
    assert u == t.(workspaceRevisions := u.workspaceRevisions);
    forall a | a in sub.assignments ensures AssignmentStored(s, cat, u, a) {
      assert AssignmentStored(s, cat, t, a);
    }
    forall i | 0 <= i < |sub.connections| ensures ConnectionStored(s, cat, u, sub.connections[i]) {
      assert ConnectionStored(s, cat, t, sub.connections[i]);
    }
    forall i | 0 <= i < |sub.placements| ensures PlacementStored(s, cat, u, sub.placements[i]) {
      assert PlacementStored(s, cat, t, sub.placements[i]);
    }
    assert OwnAssignments(s, u) == OwnAssignments(s, t) && OwnConnections(s, u) == OwnConnections(s, t);
    assert PlacedItems(s, u) == PlacedItems(s, t);
  }

  // ----- the project row

  lemma {:induction false} FoldKeepsProjects<A(!new)>(t: Tables, xs: seq<A>, step: (Tables, A) -> Result<Tables>)
    requires Fold(t, xs, step).Ok?
    requires forall u, x :: step(u, x).Ok? ==> step(u, x).value.projects == u.projects
    ensures Fold(t, xs, step).value.projects == t.projects
  {
    if xs != [] {
      FoldKeepsProjects(t, xs[..|xs| - 1], step);
    }
  }

  lemma StagesKeepProjects(s: Scope, cat: Catalog, t0: Tables, sub: Submission, t1: Tables, t2: Tables, t3: Tables)
    requires ReplacePlacements(s, cat, t0, sub.placements) == Ok(t1)
    requires ReplaceAssignments(s, cat, t1, sub.assignments) == Ok(t2)
    requires ReplaceConnections(s, cat, t2, sub.connections) == Ok(t3)
    ensures t3.projects == t0.projects
  {
    assert t1.projects == t0.projects by {
      FoldKeepsProjects(ClearPlacements(s, t0), sub.placements, (u, p) => InsertPlacement(s, cat, u, p));
    }
    assert t2.projects == t1.projects by {
      var cleared := DeleteAssignments(t1, OwnAssignments(s, t1));
      FoldKeepsProjects(cleared, InOrder(sub.assignments), (u, a) => UpsertAssignment(s, cat, u, a));
    }
    assert t3.projects == t2.projects by {
      var cleared := DeleteConnections(t2, OwnConnections(s, t2));
      FoldKeepsProjects(cleared, sub.connections, (u, c) => InsertConnection(s, cat, u, c));
    }
  }

  /** The project row gets the submitted name, or the default one, and the next revision; other projects stay. */
  lemma SetProjectWritesRow(s: Scope, cat: Catalog, t: Tables, sub: Submission)
    requires SetProject(s, cat, t, sub).Ok?
    ensures RowWritten(t.projects, SetProject(s, cat, t, sub).value.projects, s.project, sub.name)
  {
    var t0 := NextProjectRow(t, s.project, sub.name);
    var t1 := ReplacePlacements(s, cat, t0, sub.placements).value;
    var t2 := ReplaceAssignments(s, cat, t1, sub.assignments).value;
    var t3 := ReplaceConnections(s, cat, t2, sub.connections).value;
    StagesKeepProjects(s, cat, t0, sub, t1, t2, t3);
    NextRowIsWritten(t, s.project, sub.name);
    assert SetProject(s, cat, t, sub) == Ok(BumpWorkspace(s, t3));
  }

  ghost predicate RowWritten(before: map<nat, ProjectRow>, after: map<nat, ProjectRow>, project: nat, name: string) {
    && project in before && after.Keys == before.Keys
    && after[project].revision == before[project].revision + 1
    && after[project].name == (if name == "" then "Homelab Inventory" else name)
    && forall k :: k in before && k != project ==> after[k] == before[k]
  }

  lemma NextRowIsWritten(t: Tables, project: nat, name: string)
    requires project in t.projects
    ensures RowWritten(t.projects, NextProjectRow(t, project, name).projects, project, name)
  {
  }
}
