/** A submitted assignment id that another workspace or project owns makes the whole operation fail. */
module WorkspaceForeign {
  import opened Prelude
  import opened Sorting
  import opened WorkspaceTables
  import opened WorkspaceIsolation
  import opened WorkspaceRevisions
  import opened WorkspaceBoards
  import opened WorkspaceContents

  /** The id belongs to an assignment outside the scope. */
  predicate Foreign(s: Scope, t: Tables, id: int) {
    && id in t.assignments
    && (t.assignments[id].project != s.project || t.assignments[id].workspace != s.workspace)
  }

  predicate NamesForeign(s: Scope, t: Tables, xs: seq<NewAssignment>) {
    exists i :: 0 <= i < |xs| && Foreign(s, t, xs[i].id)
  }

  /** Whatever is foreign in `t` is foreign in `u`. */
  ghost predicate KeepsForeign(s: Scope, t: Tables, u: Tables) {
    forall id :: Foreign(s, t, id) ==> Foreign(s, u, id)
  }

  lemma UpsertKeepsForeign(s: Scope, cat: Catalog, t: Tables, a: NewAssignment)
    requires UpsertAssignment(s, cat, t, a).Ok?
    ensures !Foreign(s, t, a.id) && KeepsForeign(s, t, UpsertAssignment(s, cat, t, a).value)
  {
  }

  /** A run of upserts that meets a foreign id fails, wherever it stands. */
  lemma {:induction false} UpsertsRejectForeign(s: Scope, cat: Catalog, t: Tables, xs: seq<NewAssignment>)
    ensures NamesForeign(s, t, xs) ==> Upserts(s, cat, t, xs).Thrown?
    ensures Upserts(s, cat, t, xs).Ok? ==> KeepsForeign(s, t, Upserts(s, cat, t, xs).value)
  {
    if xs != [] {
      var n := |xs| - 1;
      var front := Upserts(s, cat, t, xs[..n]);
      UpsertsRejectForeign(s, cat, t, xs[..n]);
      assert forall i :: 0 <= i < n ==> xs[..n][i] == xs[i];
      if front.Ok? && UpsertAssignment(s, cat, front.value, xs[n]).Ok? {
        UpsertKeepsForeign(s, cat, front.value, xs[n]);
      }
    }
  }

  lemma SortedNamesForeign(s: Scope, t: Tables, xs: seq<NewAssignment>)
    requires NamesForeign(s, t, xs)
    ensures NamesForeign(s, t, InOrder(xs))
  {
    var i :| 0 <= i < |xs| && Foreign(s, t, xs[i].id);
    assert xs[i] in multiset(xs) && xs[i] in multiset(InOrder(xs));
    assert xs[i] in InOrder(xs);
    var k :| 0 <= k < |InOrder(xs)| && InOrder(xs)[k] == xs[i];
  }

  lemma StillForeign(s: Scope, t: Tables, u: Tables, xs: seq<NewAssignment>)
    requires KeepsForeign(s, t, u) && NamesForeign(s, t, xs)
    ensures NamesForeign(s, u, xs)
  {
    var i :| 0 <= i < |xs| && Foreign(s, t, xs[i].id);
    assert Foreign(s, u, xs[i].id);
  }

  lemma UpsertAssignmentsRejectForeign(s: Scope, cat: Catalog, t: Tables, xs: seq<NewAssignment>)
    ensures NamesForeign(s, t, xs) ==> UpsertAssignments(s, cat, t, xs).Thrown?
    ensures UpsertAssignments(s, cat, t, xs).Ok? ==> KeepsForeign(s, t, UpsertAssignments(s, cat, t, xs).value)
  {
    UpsertsRejectForeign(s, cat, t, InOrder(xs));
    if NamesForeign(s, t, xs) {
      SortedNamesForeign(s, t, xs);
    }
  }

  // ----- whole replacements

  lemma {:induction false} PlacementsKeepAssignments(s: Scope, cat: Catalog, t: Tables, ps: seq<NewPlacement>)
    requires Fold(t, ps, (u, p) => InsertPlacement(s, cat, u, p)).Ok?
    ensures Fold(t, ps, (u, p) => InsertPlacement(s, cat, u, p)).value.assignments == t.assignments
  {
    if ps != [] {
      PlacementsKeepAssignments(s, cat, t, ps[..|ps| - 1]);
    }
  }

  /** `setProject` fails when any submitted assignment has a foreign id. */
  lemma SetProjectRejectsForeign(s: Scope, cat: Catalog, t: Tables, sub: Submission)
    requires NamesForeign(s, t, sub.assignments)
    ensures SetProject(s, cat, t, sub).Thrown?
  {
    if s.project in t.projects {
      var t0 := NextProjectRow(t, s.project, sub.name);
      var t1 := ReplacePlacements(s, cat, t0, sub.placements);
      if t1.Ok? {
        PlacementsKeepAssignments(s, cat, ClearPlacements(s, t0), sub.placements);
        var cleared := DeleteAssignments(t1.value, OwnAssignments(s, t1.value));
        assert KeepsForeign(s, t, cleared);
        StillForeign(s, t, cleared, sub.assignments);
        UpsertAssignmentsRejectForeign(s, cat, cleared, sub.assignments);
      }
    }
  }

  // ----- patches

  lemma {:induction false} RemovalsKeepForeign(s: Scope, t: Tables, ids: seq<int>)
    requires Fold(t, ids, (v, id) => RemoveAssignment(s, v, id)).Ok?
    ensures KeepsForeign(s, t, Fold(t, ids, (v, id) => RemoveAssignment(s, v, id)).value)
  {
    if ids != [] {
      RemovalsKeepForeign(s, t, ids[..|ids| - 1]);
    }
  }

  /** An assignment patch with a foreign id fails, whatever else it removes or submits. */
  lemma AssignmentPatchRejectsForeign(s: Scope, cat: Catalog, t: Tables, ids: seq<int>, xs: seq<NewAssignment>)
    ensures var r := ApplyLeaf(s, cat, t, PatchAssignments(ids, xs));
      (NamesForeign(s, t, xs) ==> r.Thrown?) && (r.Ok? ==> KeepsForeign(s, t, r.value))
  {
    var removed := Fold(t, ids, (v, id) => RemoveAssignment(s, v, id));
    if removed.Ok? {
      RemovalsKeepForeign(s, t, ids);
      UpsertAssignmentsRejectForeign(s, cat, removed.value, xs);
      if NamesForeign(s, t, xs) {
        StillForeign(s, t, removed.value, xs);
      }
    }
  }

  lemma {:induction false} FoldKeepsAssignments<A(!new)>(t: Tables, xs: seq<A>, step: (Tables, A) -> Result<Tables>)
    requires Fold(t, xs, step).Ok?
    requires forall u, x :: step(u, x).Ok? ==> step(u, x).value.assignments == u.assignments
    ensures Fold(t, xs, step).value.assignments == t.assignments
  {
    if xs != [] {
      FoldKeepsAssignments(t, xs[..|xs| - 1], step);
    }
  }

  lemma PlacementPatchKeepsAssignments(s: Scope, cat: Catalog, t: Tables, p: Patch)
    requires p.PatchPlacements? && ApplyLeaf(s, cat, t, p).Ok?
    ensures ApplyLeaf(s, cat, t, p).value.assignments == t.assignments
  {
    var up := (v, x) => UpsertPlacement(s, cat, v, x);
    FoldKeepsAssignments(t, p.upserts, up);
    FoldKeepsAssignments(Fold(t, p.upserts, up).value, p.removals, (v, r) => RemovePlacement(s, cat, v, r));
  }

  lemma DerivedPatchKeepsAssignments(s: Scope, cat: Catalog, t: Tables, p: Patch)
    requires p.SetConnectionsDerived? && ApplyLeaf(s, cat, t, p).Ok?
    ensures ApplyLeaf(s, cat, t, p).value.assignments == t.assignments
  {
    FoldKeepsAssignments(t, p.states, (u, d) => SetDerived(s, u, d));
  }

  lemma SmallPatchKeepsAssignments(s: Scope, cat: Catalog, t: Tables, p: Patch)
    requires p.SetProjectName? || p.AddConnection? || p.DropConnection? || p.SetCaption? || p.ChangeRoute?
    requires ApplyLeaf(s, cat, t, p).Ok?
    ensures ApplyLeaf(s, cat, t, p).value.assignments == t.assignments
  {
  }

  /** The leaf submits an assignment with a foreign id. */
  predicate LeafNamesForeign(s: Scope, t: Tables, q: Patch) {
    q.PatchAssignments? && NamesForeign(s, t, q.assignments)
  }

  lemma LeafRejectsForeign(s: Scope, cat: Catalog, t: Tables, q: Patch)
    requires !q.Batch?
    ensures LeafNamesForeign(s, t, q) ==> ApplyLeaf(s, cat, t, q).Thrown?
    ensures ApplyLeaf(s, cat, t, q).Ok? ==> KeepsForeign(s, t, ApplyLeaf(s, cat, t, q).value)
  {
    if q.PatchAssignments? {
      AssignmentPatchRejectsForeign(s, cat, t, q.removedIds, q.assignments);
    } else if ApplyLeaf(s, cat, t, q).Ok? {
      LeafKeepsAssignments(s, cat, t, q);
    }
  }

  lemma LeafKeepsAssignments(s: Scope, cat: Catalog, t: Tables, q: Patch)
    requires !q.Batch? && !q.PatchAssignments? && ApplyLeaf(s, cat, t, q).Ok?
    ensures ApplyLeaf(s, cat, t, q).value.assignments == t.assignments
  {
    match q
    case PatchPlacements(_, _) => PlacementPatchKeepsAssignments(s, cat, t, q);
    case SetConnectionsDerived(_) => DerivedPatchKeepsAssignments(s, cat, t, q);
    case _ => SmallPatchKeepsAssignments(s, cat, t, q);
  }

  lemma {:induction false} LeavesRejectForeign(s: Scope, cat: Catalog, t: Tables, qs: seq<Patch>, i: nat)
    requires (forall q :: q in qs ==> !q.Batch?) && i < |qs| && LeafNamesForeign(s, t, qs[i])
    ensures ApplyLeaves(s, cat, t, qs).Thrown?
    decreases |qs|
  {
    LeafRejectsForeign(s, cat, t, qs[0]);
    var first := ApplyLeaf(s, cat, t, qs[0]);
    if first.Ok? {
      StillForeign(s, t, first.value, qs[i].assignments);
      LeavesRejectForeign(s, cat, first.value, qs[1..], i - 1);
    }
  }

  /** Some leaf of the patch tree submits an assignment with a foreign id. */
  ghost predicate PatchNamesForeign(s: Scope, t: Tables, p: Patch) {
    exists i :: 0 <= i < |Leaves(p)| && LeafNamesForeign(s, t, Leaves(p)[i])
  }

  /** A patch tree with such a leaf fails, however deep the leaf is and whatever stands beside it. */
  lemma PatchRejectsForeign(s: Scope, cat: Catalog, t: Tables, p: Patch)
    requires PatchNamesForeign(s, t, p)
    ensures ApplyPatch(s, cat, t, p).Thrown?
  {
    if NoEmptyBatch(p) {
      PatchIsItsLeaves(s, cat, t, p);
      var i :| 0 <= i < |Leaves(p)| && LeafNamesForeign(s, t, Leaves(p)[i]);
      LeavesRejectForeign(s, cat, t, Leaves(p), i);
    } else {
      EmptyBatchFails(s, cat, t, p);
    }
  }

  ghost predicate OperationNamesForeign(s: Scope, t: Tables, op: Operation) {
    match op
    case Replace(sub) => NamesForeign(s, t, sub.assignments)
    case EnginePatch(_, _, p) => PatchNamesForeign(s, t, p)
  }

  /** Every operation that submits a foreign assignment id is rejected and rolled back: the tables stay as they were. */
  lemma ForeignAssignmentIsRejected(s: Scope, cat: Catalog, t: Tables, op: Operation)
    requires OperationNamesForeign(s, t, op)
    ensures Perform(s, cat, t, op).Thrown? && After(s, cat, t, op) == t
  {
    match op
    case Replace(sub) => SetProjectRejectsForeign(s, cat, t, sub);
    case EnginePatch(_, _, p) => PatchRejectsForeign(s, cat, t, p);
  }
}
