/** Exactly when each kind of patch applies. */
module WorkspacePatchAcceptance {
  import opened Prelude
  import opened WorkspaceTables
  import opened WorkspaceIsolation
  import opened WorkspaceBoards
  import opened WorkspaceContents
  import opened WorkspacePatches
  import opened WorkspaceAcceptance

  // ----- connections

  /** The connection exists and belongs to the scope. */
  predicate OwnConnection(s: Scope, t: Tables, id: int) {
    && id > 0 && id in t.connections
    && t.connections[id].project == s.project && t.connections[id].workspace == s.workspace
  }

  lemma AddConnectionAccepts(s: Scope, cat: Catalog, t: Tables, c: NewConnection)
    ensures ApplyLeaf(s, cat, t, AddConnection(c)).Ok? <==> ConnectionKnown(cat, c) && c.id !in t.connections
  {
    InsertConnectionAccepts(s, cat, t, c);
  }

  /** Removing, renaming and rerouting need a connection of the scope; a route needs finite bends. */
  lemma ConnectionLeavesAccept(s: Scope, cat: Catalog, t: Tables, id: int, caption: Option<string>,
                               route: Option<Route>)
    ensures ApplyLeaf(s, cat, t, DropConnection(id)).Ok? <==> OwnConnection(s, t, id)
    ensures ApplyLeaf(s, cat, t, SetCaption(id, caption)).Ok? <==> OwnConnection(s, t, id)
    ensures ApplyLeaf(s, cat, t, ChangeRoute(id, route)).Ok? <==>
      && OwnConnection(s, t, id)
      && (route.Some? ==> forall i :: 0 <= i < |route.value.bends| ==> PointKnown(route.value.bends[i]))
  {
    if route.Some? {
      var bends := route.value.bends;
      assert forall i :: 0 <= i < |bends| ==> (Coordinates(bends[i]).Ok? <==> PointKnown(bends[i]));
    }
  }

  predicate DerivedAccepted(s: Scope, t: Tables, d: Derived) {
    OwnConnection(s, t, d.connection) && (d.speed.Some? ==> d.speed.value >= 0)
  }

  function AllDerived(s: Scope, t: Tables, states: seq<Derived>): Result<Tables> {
    Fold(t, states, (u, d) => SetDerived(s, u, d))
  }

  lemma SetDerivedAccepts(s: Scope, t: Tables, d: Derived)
    ensures SetDerived(s, t, d).Ok? <==> DerivedAccepted(s, t, d)
    ensures SetDerived(s, t, d).Ok? ==>
      forall id :: OwnConnection(s, SetDerived(s, t, d).value, id) <==> OwnConnection(s, t, id)
  {
  }

  lemma {:induction false} DerivedAccept(s: Scope, t: Tables, states: seq<Derived>)
    ensures AllDerived(s, t, states).Ok? <==> forall i :: 0 <= i < |states| ==> DerivedAccepted(s, t, states[i])
    ensures AllDerived(s, t, states).Ok? ==>
      forall id :: OwnConnection(s, AllDerived(s, t, states).value, id) <==> OwnConnection(s, t, id)
  {
    if states != [] {
      var n := |states| - 1;
      DerivedAccept(s, t, states[..n]);
      assert forall i :: 0 <= i < n ==> states[..n][i] == states[i];
      var front := AllDerived(s, t, states[..n]);
      if front.Ok? {
        SetDerivedAccepts(s, front.value, states[n]);
      }
    }
  }

  // ----- placements

  lemma {:induction false} UpsertsAcceptPlacements(s: Scope, cat: Catalog, t: Tables, ps: seq<NewPlacement>)
    ensures Upserted(s, cat, t, ps).Ok? <==>
      forall i :: 0 <= i < |ps| ==> ItemKnown(cat, ps[i].item) && PointKnown(ps[i].at)
  {
    if ps != [] {
      var n := |ps| - 1;
      UpsertsAcceptPlacements(s, cat, t, ps[..n]);
      assert forall i :: 0 <= i < n ==> ps[..n][i] == ps[i];
    }
  }

  lemma {:induction false} RemovalsAcceptPlacements(s: Scope, cat: Catalog, t: Tables, items: seq<ItemRef>)
    ensures Removed(s, cat, t, items).Ok? <==> forall i :: 0 <= i < |items| ==> ItemKnown(cat, items[i])
  {
    if items != [] {
      var n := |items| - 1;
      RemovalsAcceptPlacements(s, cat, t, items[..n]);
      assert forall i :: 0 <= i < n ==> items[..n][i] == items[i];
    }
  }

  /** A placement patch applies exactly when all items are known and all coordinates finite. */
  lemma PlacementPatchAccepts(s: Scope, cat: Catalog, t: Tables, ps: seq<NewPlacement>, items: seq<ItemRef>)
    ensures ApplyLeaf(s, cat, t, PatchPlacements(ps, items)).Ok? <==>
      && (forall i :: 0 <= i < |ps| ==> ItemKnown(cat, ps[i].item) && PointKnown(ps[i].at))
      && (forall i :: 0 <= i < |items| ==> ItemKnown(cat, items[i]))
  {
    UpsertsAcceptPlacements(s, cat, t, ps);
    if Upserted(s, cat, t, ps).Ok? {
      RemovalsAcceptPlacements(s, cat, Upserted(s, cat, t, ps).value, items);
    }
  }

  // ----- assignments

  /** Assignments of the scope, each named once. */
  ghost predicate RemovalsAccepted(s: Scope, t: Tables, ids: seq<int>) {
    && (forall i :: 0 <= i < |ids| ==> ids[i] > 0 && OwnAssignment(s, t, ids[i]))
    && (forall i, j :: 0 <= i < j < |ids| ==> ids[i] != ids[j])
  }

  predicate OwnAssignment(s: Scope, t: Tables, id: int) {
    id in t.assignments && t.assignments[id].project == s.project && t.assignments[id].workspace == s.workspace
  }

  /** The assignments without the named ones. */
  function Without(m: map<nat, AssignmentRow>, ids: seq<int>): map<nat, AssignmentRow> {
    map id | id in m && id !in ids :: m[id]
  }

  lemma RemovalsAcceptedInTwo(s: Scope, t: Tables, ids: seq<int>)
    requires ids != []
    ensures var n := |ids| - 1;
      RemovalsAccepted(s, t, ids) <==>
        RemovalsAccepted(s, t, ids[..n]) && ids[n] > 0 && OwnAssignment(s, t, ids[n]) && ids[n] !in ids[..n]
  {
    var n := |ids| - 1;
    assert forall i :: 0 <= i < n ==> ids[..n][i] == ids[i];
  }

  lemma RemovalStep(s: Scope, t: Tables, ids: seq<int>)
    requires ids != []
    ensures var front := AssignmentsRemoved(s, t, ids[..|ids| - 1]);
      AssignmentsRemoved(s, t, ids) ==
        if front.Ok? then RemoveAssignment(s, front.value, ids[|ids| - 1]) else Thrown(front.error)
  {
  }

  lemma RemoveAccepts(s: Scope, t: Tables, id: int)
    ensures RemoveAssignment(s, t, id).Ok? <==> id > 0 && OwnAssignment(s, t, id)
    ensures RemoveAssignment(s, t, id).Ok? ==>
      RemoveAssignment(s, t, id).value.assignments == Without(t.assignments, [id])
  {
  }

  lemma WithoutMore(m: map<nat, AssignmentRow>, ids: seq<int>)
    requires ids != []
    ensures Without(Without(m, ids[..|ids| - 1]), [ids[|ids| - 1]]) == Without(m, ids)
  {
    assert ids == ids[..|ids| - 1] + [ids[|ids| - 1]];
  }

  /** What a run of removals does: the tables end without the named assignments, or one of them was not there. */
  ghost predicate RemovedExactly(s: Scope, t: Tables, ids: seq<int>, r: Result<Tables>) {
    && (r.Ok? <==> RemovalsAccepted(s, t, ids))
    && (r.Ok? ==> r.value.assignments == Without(t.assignments, ids))
  }

  lemma RemovesOneMore(s: Scope, t: Tables, ids: seq<int>, front: Result<Tables>)
    requires ids != [] && RemovedExactly(s, t, ids[..|ids| - 1], front)
    ensures RemovedExactly(s, t, ids,
              if front.Ok? then RemoveAssignment(s, front.value, ids[|ids| - 1]) else Thrown(front.error))
  {
    var n := |ids| - 1;
    RemovalsAcceptedInTwo(s, t, ids);
    if front.Ok? {
      RemoveAccepts(s, front.value, ids[n]);
      WithoutMore(t.assignments, ids);
      assert OwnAssignment(s, front.value, ids[n]) <==> OwnAssignment(s, t, ids[n]) && ids[n] !in ids[..n];
    }
  }

  lemma {:induction false} RemovalsAccept(s: Scope, t: Tables, ids: seq<int>)
    ensures RemovedExactly(s, t, ids, AssignmentsRemoved(s, t, ids))
  {
    if ids == [] {
      assert Without(t.assignments, []) == t.assignments;
    } else {
      RemovalsAccept(s, t, ids[..|ids| - 1]);
      RemovalStep(s, t, ids);
      RemovesOneMore(s, t, ids, AssignmentsRemoved(s, t, ids[..|ids| - 1]));
    }
  }

  /**
   An assignment patch applies exactly when the removed assignments are the scope's own, each named once, and
   every submitted record is accepted at its turn in the tables without them.
   */
  lemma AssignmentPatchAccepts(s: Scope, cat: Catalog, t: Tables, ids: seq<int>, xs: seq<NewAssignment>)
    ensures ApplyLeaf(s, cat, t, PatchAssignments(ids, xs)).Ok? <==>
      && RemovalsAccepted(s, t, ids)
      && AllAccepted(s, cat, t.(assignments := Without(t.assignments, ids)), InOrder(xs), |InOrder(xs)|)
  {
    RemovalsAccept(s, t, ids);
    var removed := AssignmentsRemoved(s, t, ids);
    if removed.Ok? {
      UpsertsAccept(s, cat, removed.value, InOrder(xs));
      AllAcceptedIsLocal(s, cat, removed.value, t.(assignments := Without(t.assignments, ids)), InOrder(xs));
    }
  }
}
