/** What each kind of patch leaves in the tables of its workspace. */
module WorkspacePatches {
  import opened Prelude
  import opened Sorting
  import opened WorkspaceTables
  import opened WorkspaceIsolation
  import opened WorkspaceBoards
  import opened WorkspaceContents

  // ----- the project name

  /** A name patch renames the own project and no other; an empty name is an error. */
  lemma SetNameStores(s: Scope, cat: Catalog, t: Tables, name: string)
    ensures ApplyLeaf(s, cat, t, SetProjectName(name)).Ok? <==> name != ""
    ensures name != "" ==>
      var u := ApplyLeaf(s, cat, t, SetProjectName(name)).value;
      && u.projects == Renamed(t.projects, s.project, name)
      && KeepsAssignments(t, u) && u.connections == t.connections && u.endpoints == t.endpoints && u.bends == t.bends
  {
    if s.project in t.projects {
      var row := t.projects[s.project].(name := name);
      assert t.projects[s.project := row] == Renamed(t.projects, s.project, name);
    } else {
      assert t.projects == Renamed(t.projects, s.project, name);
    }
  }

  function Renamed(projects: map<nat, ProjectRow>, project: nat, name: string): map<nat, ProjectRow> {
    map k | k in projects :: if k == project then ProjectRow(name, projects[k].revision) else projects[k]
  }

  // ----- connections

  /** A removed connection is gone with its ends and bends; every other row stays. */
  lemma DropConnectionForgets(s: Scope, cat: Catalog, t: Tables, id: int)
    requires ApplyLeaf(s, cat, t, DropConnection(id)).Ok?
    ensures var u := ApplyLeaf(s, cat, t, DropConnection(id)).value;
      && id in OwnConnections(s, t) && u.connections.Keys == t.connections.Keys - {id}
      && (forall k :: k in u.endpoints <==> k in t.endpoints && k.connection != id)
      && (forall k :: k in u.bends <==> k in t.bends && k.connection != id)
      && (forall k :: k in u.connections ==> u.connections[k] == t.connections[k])
      && (forall k :: k in u.endpoints ==> u.endpoints[k] == t.endpoints[k])
      && (forall k :: k in u.bends ==> u.bends[k] == t.bends[k])
      && KeepsAssignments(t, u)
  {
  }

  /** The tables differ at most in one connection row and in that connection's bends in this workspace. */
  ghost predicate OnlyConnection(s: Scope, t: Tables, u: Tables, id: int) {
    && id in OwnConnections(s, t) && u.connections.Keys == t.connections.Keys
    && (forall k :: k in t.connections && k != id ==> u.connections[k] == t.connections[k])
    && u.endpoints == t.endpoints && KeepsAssignments(t, u)
    && (forall k: BendKey :: !(k.workspace == s.workspace && k.connection == id) ==>
          (k in u.bends <==> k in t.bends) && (k in t.bends ==> u.bends[k] == t.bends[k]))
  }

  /** A caption patch sets the caption of one connection of this workspace and nothing else. */
  lemma SetCaptionStores(s: Scope, cat: Catalog, t: Tables, id: int, caption: Option<string>)
    requires ApplyLeaf(s, cat, t, SetCaption(id, caption)).Ok?
    ensures var u := ApplyLeaf(s, cat, t, SetCaption(id, caption)).value;
      && OnlyConnection(s, t, u, id) && u.bends == t.bends
      && u.connections[id].caption == caption
      && u.connections[id].(caption := None) == t.connections[id].(caption := None)
  {
  }

  /** The bends that the project has for the connection are the given points, in order. */
  ghost predicate OwnBends(s: Scope, u: Tables, id: int, points: seq<Point>)
    requires id >= 0
  {
    forall k: nat ::
      var key := BendKey(s.workspace, id, k);
      if k < |points| then key in u.bends && Coordinates(points[k]) == Ok((u.bends[key].x, u.bends[key].y))
      else key in u.bends ==> u.bends[key].project != s.project
  }

  /** Sides that the route does not name stay; the bends of this connection are the route's, in order. */
  lemma ChangeRouteStores(s: Scope, cat: Catalog, t: Tables, id: int, route: Option<Route>)
    requires ApplyLeaf(s, cat, t, ChangeRoute(id, route)).Ok?
    ensures var u := ApplyLeaf(s, cat, t, ChangeRoute(id, route)).value;
      && OnlyConnection(s, t, u, id)
      && var before, after := t.connections[id], u.connections[id];
      && match route
         case None =>
           after.sourceSide == before.sourceSide && after.targetSide == before.targetSide && !after.avoidOverlap
         case Some(r) =>
           && after.sourceSide == (if r.sourceSide.Some? then r.sourceSide.value else before.sourceSide)
           && after.targetSide == (if r.targetSide.Some? then r.targetSide.value else before.targetSide)
           && after.avoidOverlap == r.avoidOverlap
    ensures var u := ApplyLeaf(s, cat, t, ChangeRoute(id, route)).value;
      && u.connections[id].ctype == t.connections[id].ctype && u.connections[id].speed == t.connections[id].speed
      && u.connections[id].caption == t.connections[id].caption
      && OwnBends(s, u, id, if route.Some? then route.value.bends else [])
  {
    var v := UpdateConnection(s, t, id, (r: ConnectionRow) => WithRoute(r, RouteOf(route))).value;
    var points := if route.Some? then route.value.bends else [];
    BendsReplaced(s, v, id, points);
  }

  lemma BendsReplaced(s: Scope, t: Tables, id: nat, points: seq<Point>)
    requires ReplaceBends(s, t, id, points).Ok?
    ensures var u := ReplaceBends(s, t, id, points).value;
      && u == t.(bends := u.bends)
      && OwnBends(s, u, id, points)
      && (forall k: BendKey :: !(k.workspace == s.workspace && k.connection == id) ==>
            (k in u.bends <==> k in t.bends) && (k in t.bends ==> u.bends[k] == t.bends[k]))
  {
  }

  /** Each connection gets the type and speed of the last state that names it. */
  lemma {:induction false} DerivedStores(s: Scope, t: Tables, states: seq<Derived>, i: nat)
    requires Fold(t, states, (u, d) => SetDerived(s, u, d)).Ok? && i < |states|
    requires forall j :: i < j < |states| ==> states[j].connection != states[i].connection
    ensures var u := Fold(t, states, (u, d) => SetDerived(s, u, d)).value;
      var id := states[i].connection;
      id in u.connections && u.connections[id].ctype == states[i].ctype && u.connections[id].speed == states[i].speed
  {
    var n := |states| - 1;
    if i < n {
      assert states[..n][i] == states[i];
      assert forall j :: i < j < n ==> states[..n][j] == states[j];
      DerivedStores(s, t, states[..n], i);
    }
  }

  // ----- placements

  ghost predicate PlacedAt(s: Scope, cat: Catalog, u: Tables, p: NewPlacement) {
    && ResolveItem(cat, p.item).Ok? && p.at.x.Some? && p.at.y.Some?
    && var key := PlacementKey(s.workspace, ResolveItem(cat, p.item).value);
    key in u.placements && u.placements[key].x == p.at.x.value && u.placements[key].y == p.at.y.value
  }

  function Upserted(s: Scope, cat: Catalog, t: Tables, ps: seq<NewPlacement>): Result<Tables> {
    Fold(t, ps, (v, p) => UpsertPlacement(s, cat, v, p))
  }

  function Removed(s: Scope, cat: Catalog, t: Tables, items: seq<ItemRef>): Result<Tables> {
    Fold(t, items, (v, r) => RemovePlacement(s, cat, v, r))
  }

  /** An item stands where the last upsert that resolves to it put it. */
  lemma {:induction false} UpsertsPlace(s: Scope, cat: Catalog, t: Tables, ps: seq<NewPlacement>, i: nat)
    requires Upserted(s, cat, t, ps).Ok? && i < |ps|
    requires forall j :: i < j < |ps| ==> ResolveItem(cat, ps[j].item) != ResolveItem(cat, ps[i].item)
    ensures PlacedAt(s, cat, Upserted(s, cat, t, ps).value, ps[i])
  {
    var n := |ps| - 1;
    if i < n {
      assert ps[..n][i] == ps[i];
      assert forall j :: i < j < n ==> ps[..n][j] == ps[j];
      UpsertsPlace(s, cat, t, ps[..n], i);
    }
  }

  /** Some of the items is the one placed under the key. */
  ghost predicate Names(s: Scope, cat: Catalog, items: seq<ItemRef>, k: PlacementKey) {
    k.workspace == s.workspace && exists i :: 0 <= i < |items| && ResolveItem(cat, items[i]) == Ok(k.item)
  }

  /** Exactly the named items lose their placement. */
  lemma {:induction false} RemovalsRemove(s: Scope, cat: Catalog, t: Tables, items: seq<ItemRef>, k: PlacementKey)
    requires Removed(s, cat, t, items).Ok?
    ensures var u := Removed(s, cat, t, items).value;
      && (k in u.placements <==> k in t.placements && !Names(s, cat, items, k))
      && (k in u.placements ==> u.placements[k] == t.placements[k])
  {
    if items != [] {
      var n := |items| - 1;
      RemovalsRemove(s, cat, t, items[..n], k);
      assert forall i :: 0 <= i < n ==> items[..n][i] == items[i];
    }
  }

  /** A placement that stays in the tables keeps its project; a new one gets the project of the scope. */
  ghost predicate ProjectsKept(s: Scope, t: Tables, u: Tables) {
    forall k :: k in u.placements ==>
      u.placements[k].project == if k in t.placements then t.placements[k].project else s.project
  }

  lemma {:induction false} UpsertsKeepProjects(s: Scope, cat: Catalog, t: Tables, ps: seq<NewPlacement>)
    requires Upserted(s, cat, t, ps).Ok?
    ensures ProjectsKept(s, t, Upserted(s, cat, t, ps).value)
    ensures forall k :: k in t.placements ==> k in Upserted(s, cat, t, ps).value.placements
  {
    if ps != [] {
      UpsertsKeepProjects(s, cat, t, ps[..|ps| - 1]);
    }
  }

  lemma PlacementPatchKeepsProjects(s: Scope, cat: Catalog, t: Tables, ps: seq<NewPlacement>, items: seq<ItemRef>)
    requires ApplyLeaf(s, cat, t, PatchPlacements(ps, items)).Ok?
    ensures ProjectsKept(s, t, ApplyLeaf(s, cat, t, PatchPlacements(ps, items)).value)
  {
    var v := Upserted(s, cat, t, ps).value;
    UpsertsKeepProjects(s, cat, t, ps);
    var u := Removed(s, cat, v, items).value;
    forall k | k in u.placements ensures k in v.placements && u.placements[k] == v.placements[k] {
      RemovalsRemove(s, cat, v, items, k);
    }
  }

  /** No later upsert and no removal names the same item. */
  ghost predicate IsLastWord(cat: Catalog, ps: seq<NewPlacement>, items: seq<ItemRef>, i: nat)
    requires i < |ps|
  {
    && (forall j :: i < j < |ps| ==> ResolveItem(cat, ps[j].item) != ResolveItem(cat, ps[i].item))
    && (forall j :: 0 <= j < |items| ==> ResolveItem(cat, items[j]) != ResolveItem(cat, ps[i].item))
  }

  /** No upsert and no removal names the placement. */
  ghost predicate Unnamed(s: Scope, cat: Catalog, ps: seq<NewPlacement>, items: seq<ItemRef>, k: PlacementKey) {
    !Names(s, cat, Each(ps, (p: NewPlacement) => p.item), k) && !Names(s, cat, items, k)
  }

  lemma {:induction false} UpsertsKeepOthers(s: Scope, cat: Catalog, t: Tables, ps: seq<NewPlacement>, k: PlacementKey)
    requires Upserted(s, cat, t, ps).Ok? && !(k.workspace == s.workspace && exists i ::
      0 <= i < |ps| && ResolveItem(cat, ps[i].item) == Ok(k.item))
    ensures var u := Upserted(s, cat, t, ps).value;
      (k in u.placements <==> k in t.placements) && (k in t.placements ==> u.placements[k] == t.placements[k])
  {
    if ps != [] {
      var n := |ps| - 1;
      assert forall i :: 0 <= i < n ==> ps[..n][i] == ps[i];
      UpsertsKeepOthers(s, cat, t, ps[..n], k);
    }
  }

  /** Placements that the patch does not name stay as they were. */
  lemma PlacementPatchKeepsOthers(s: Scope, cat: Catalog, t: Tables, ps: seq<NewPlacement>, items: seq<ItemRef>,
                                  k: PlacementKey)
    requires ApplyLeaf(s, cat, t, PatchPlacements(ps, items)).Ok? && Unnamed(s, cat, ps, items, k)
    ensures var u := ApplyLeaf(s, cat, t, PatchPlacements(ps, items)).value;
      (k in u.placements <==> k in t.placements) && (k in t.placements ==> u.placements[k] == t.placements[k])
  {
    var refs := Each(ps, (p: NewPlacement) => p.item);
    assert forall i :: 0 <= i < |ps| ==> refs[i] == ps[i].item;
    UpsertsKeepOthers(s, cat, t, ps, k);
    RemovalsRemove(s, cat, Upserted(s, cat, t, ps).value, items, k);
  }

  /** After a placement patch, removed items are off the workspace and the others stand where they were last put. */
  lemma PlacementPatchStores(s: Scope, cat: Catalog, t: Tables, ps: seq<NewPlacement>, items: seq<ItemRef>)
    requires ApplyLeaf(s, cat, t, PatchPlacements(ps, items)).Ok?
    ensures var u := ApplyLeaf(s, cat, t, PatchPlacements(ps, items)).value;
      && (forall i :: 0 <= i < |items| ==>
            ResolveItem(cat, items[i]).Ok? ==>
              PlacementKey(s.workspace, ResolveItem(cat, items[i]).value) !in u.placements)
      && (forall i :: 0 <= i < |ps| && IsLastWord(cat, ps, items, i) ==> PlacedAt(s, cat, u, ps[i]))
      && (forall k: PlacementKey :: Unnamed(s, cat, ps, items, k) ==>
            (k in u.placements <==> k in t.placements) && (k in t.placements ==> u.placements[k] == t.placements[k]))
  {
    var v := Upserted(s, cat, t, ps).value;
    var u := Removed(s, cat, v, items).value;
    forall k: PlacementKey | Unnamed(s, cat, ps, items, k)
      ensures (k in u.placements <==> k in t.placements) && (k in t.placements ==> u.placements[k] == t.placements[k])
    {
      PlacementPatchKeepsOthers(s, cat, t, ps, items, k);
    }
    forall k
      ensures k in u.placements <==> k in v.placements && !Names(s, cat, items, k)
      ensures k in u.placements ==> u.placements[k] == v.placements[k]
    {
      RemovalsRemove(s, cat, v, items, k);
    }
    forall i | 0 <= i < |ps| && IsLastWord(cat, ps, items, i) ensures PlacedAt(s, cat, u, ps[i]) {
      UpsertsPlace(s, cat, t, ps, i);
      var key := PlacementKey(s.workspace, ResolveItem(cat, ps[i].item).value);
      assert key in u.placements && u.placements[key] == v.placements[key];
    }
  }

  // ----- assignments

  function AssignmentsRemoved(s: Scope, t: Tables, ids: seq<int>): Result<Tables> {
    Fold(t, ids, (v, id) => RemoveAssignment(s, v, id))
  }

  /** Rows of assignment `id` are the same in both states. */
  ghost predicate SameAssignment(t: Tables, u: Tables, id: nat) {
    && (id in u.assignments <==> id in t.assignments) && (id in t.assignments ==>
          u.assignments[id] == t.assignments[id])
    && forall k: nat ::
         && (SlotRowKey(id, k) in u.slots <==> SlotRowKey(id, k) in t.slots)
         && (SlotRowKey(id, k) in t.slots ==> u.slots[SlotRowKey(id, k)] == t.slots[SlotRowKey(id, k)])
  }

  /** Exactly the listed assignments are removed, with their slot rows, and each was the workspace's own. */
  lemma {:induction false} AssignmentRemovals(s: Scope, t: Tables, ids: seq<int>, id: nat)
    requires AssignmentsRemoved(s, t, ids).Ok?
    ensures var u := AssignmentsRemoved(s, t, ids).value;
      && (id in ids ==>
            id in OwnAssignments(s, t) && id !in u.assignments && forall k: nat :: SlotRowKey(id, k) !in u.slots)
      && (id !in ids ==> SameAssignment(t, u, id))
  {
    if ids != [] {
      var n := |ids| - 1;
      AssignmentRemovals(s, t, ids[..n], id);
      assert ids == ids[..n] + [ids[n]];
    }
  }

  lemma {:induction false} UpsertsKeepOtherAssignments(s: Scope, cat: Catalog, t: Tables, xs: seq<NewAssignment>,
                                                       id: nat)
    requires Upserts(s, cat, t, xs).Ok? && forall i :: 0 <= i < |xs| ==> xs[i].id != id
    ensures SameAssignment(t, Upserts(s, cat, t, xs).value, id)
  {
    if xs != [] {
      var n := |xs| - 1;
      UpsertsKeepOtherAssignments(s, cat, t, xs[..n], id);
      UpsertKeepsOthers(s, cat, Upserts(s, cat, t, xs[..n]).value, xs[n], id);
    }
  }

  lemma UpsertKeepsOthers(s: Scope, cat: Catalog, t: Tables, a: NewAssignment, id: nat)
    requires UpsertAssignment(s, cat, t, a).Ok? && a.id != id
    ensures SameAssignment(t, UpsertAssignment(s, cat, t, a).value, id)
  {
  }

  /** An id that is not resubmitted is gone if it was listed, and otherwise keeps its rows. */
  lemma AssignmentPatchKeepsOthers(s: Scope, cat: Catalog, t: Tables, ids: seq<int>, xs: seq<NewAssignment>, id: nat)
    requires ApplyLeaf(s, cat, t, PatchAssignments(ids, xs)).Ok? && forall a :: a in xs ==> a.id != id
    ensures var u := ApplyLeaf(s, cat, t, PatchAssignments(ids, xs)).value;
      if id in ids then id !in u.assignments && forall k: nat :: SlotRowKey(id, k) !in u.slots
      else SameAssignment(t, u, id)
  {
    var v, ys := AssignmentsRemoved(s, t, ids).value, InOrder(xs);
    AssignmentRemovals(s, t, ids, id);
    SortedNamesNoOther(xs, id);
    UpsertsKeepOtherAssignments(s, cat, v, ys, id);
    var u := Upserts(s, cat, v, ys).value;
    SameTwice(t, v, u, id);
    assert ApplyLeaf(s, cat, t, PatchAssignments(ids, xs)) == Ok(u);
  }

  lemma SortedNamesNoOther(xs: seq<NewAssignment>, id: nat)
    requires forall a :: a in xs ==> a.id != id
    ensures forall i :: 0 <= i < |InOrder(xs)| ==> InOrder(xs)[i].id != id
  {
    var ys := InOrder(xs);
    forall i | 0 <= i < |ys| ensures ys[i].id != id {
      assert ys[i] in multiset(ys) && ys[i] in multiset(xs);
    }
  }

  lemma SameTwice(t: Tables, v: Tables, u: Tables, id: nat)
    requires SameAssignment(v, u, id)
    ensures SameAssignment(t, v, id) ==> SameAssignment(t, u, id)
    ensures id !in v.assignments ==> id !in u.assignments
    ensures (forall k: nat :: SlotRowKey(id, k) !in v.slots) ==> forall k: nat :: SlotRowKey(id, k) !in u.slots
  {
  }

  lemma SubmittedAreStored(s: Scope, cat: Catalog, t: Tables, xs: seq<NewAssignment>)
    requires IdsDistinct(xs) && Upserts(s, cat, t, InOrder(xs)).Ok?
    ensures forall a :: a in xs ==> AssignmentStored(s, cat, Upserts(s, cat, t, InOrder(xs)).value, a)
  {
    ReplacementIsUpserts(s, cat, t, xs);
    EarlierIsStrict(xs);
    SortSorted(xs, Earlier);
    var ys := InOrder(xs);
    var u := Upserts(s, cat, t, ys).value;
    forall a | a in xs ensures AssignmentStored(s, cat, u, a) {
      assert a in ys;
      var j :| 0 <= j < |ys| && ys[j] == a;
      UpsertsWriteAll(s, cat, t, ys, j);
      ResolvedIsStored(s, cat, Upserts(s, cat, t, ys[..j]).value, a, u);
    }
  }

  /**
   After an assignment patch every submitted assignment is stored with its slot rows, the listed ones that
   were not resubmitted are gone with theirs, and all others keep their rows.
   */
  lemma AssignmentPatchStores(s: Scope, cat: Catalog, t: Tables, ids: seq<int>, xs: seq<NewAssignment>)
    requires IdsDistinct(xs) && ApplyLeaf(s, cat, t, PatchAssignments(ids, xs)).Ok?
    ensures var u := ApplyLeaf(s, cat, t, PatchAssignments(ids, xs)).value;
      && (forall a :: a in xs ==> AssignmentStored(s, cat, u, a))
      && (forall id: nat :: (forall a :: a in xs ==> a.id != id) ==>
            if id in ids then id !in u.assignments && forall k: nat :: SlotRowKey(id, k) !in u.slots
            else SameAssignment(t, u, id))
  {
    SubmittedAreStored(s, cat, AssignmentsRemoved(s, t, ids).value, xs);
    forall id: nat | forall a :: a in xs ==> a.id != id
      ensures var u := ApplyLeaf(s, cat, t, PatchAssignments(ids, xs)).value;
        if id in ids then id !in u.assignments && forall k: nat :: SlotRowKey(id, k) !in u.slots
        else SameAssignment(t, u, id)
    {
      AssignmentPatchKeepsOthers(s, cat, t, ids, xs, id);
    }
  }
}
