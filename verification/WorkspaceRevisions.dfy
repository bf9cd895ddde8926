/** Nested patches against their leaves, and the revisions that commits carry. */
module WorkspaceRevisions {
  import opened Prelude
  import opened WorkspaceTables
  import opened WorkspaceIsolation

  // ----- nested batches

  /** The leaves of a patch tree from left to right. */
  function Leaves(p: Patch): (r: seq<Patch>)
    ensures forall q :: q in r ==> !q.Batch?
    decreases p, 1
  {
    if p.Batch? then AllLeaves(p.patches) else [p]
  }

  function AllLeaves(ps: seq<Patch>): (r: seq<Patch>)
    ensures forall q :: q in r ==> !q.Batch?
    decreases ps, 0
  {
    if ps == [] then [] else Leaves(ps[0]) + AllLeaves(ps[1..])
  }

  predicate NoEmptyBatch(p: Patch) {
    p.Batch? ==> p.patches != [] && forall q :: q in p.patches ==> NoEmptyBatch(q)
  }

  function ApplyLeaves(s: Scope, cat: Catalog, t: Tables, leaves: seq<Patch>): Result<Tables>
    requires forall q :: q in leaves ==> !q.Batch?
    decreases |leaves|
  {
    if leaves == [] then Ok(t)
    else
      var u :- ApplyLeaf(s, cat, t, leaves[0]);
      ApplyLeaves(s, cat, u, leaves[1..])
  }

  lemma {:induction false} ApplyLeavesInTwo(s: Scope, cat: Catalog, t: Tables, a: seq<Patch>, b: seq<Patch>)
    requires forall q :: q in a || q in b ==> !q.Batch?
    ensures ApplyLeaves(s, cat, t, a + b) ==
            match ApplyLeaves(s, cat, t, a)
            case Ok(u) => ApplyLeaves(s, cat, u, b)
            case Thrown(e) => Thrown(e)
    decreases |a|
  {
    if a == [] {
      assert a + b == b;
    } else {
      assert (a + b)[0] == a[0] && (a + b)[1..] == a[1..] + b;
      var first := ApplyLeaf(s, cat, t, a[0]);
      if first.Ok? {
        ApplyLeavesInTwo(s, cat, first.value, a[1..], b);
      }
    }
  }

  /** A patch without empty batches has the effect of its leaves from left to right. */
  lemma {:induction false} PatchIsItsLeaves(s: Scope, cat: Catalog, t: Tables, p: Patch)
    requires NoEmptyBatch(p)
    ensures ApplyPatch(s, cat, t, p) == ApplyLeaves(s, cat, t, Leaves(p))
    decreases p, 1
  {
    if p.Batch? {
      PatchesAreTheirLeaves(s, cat, t, p.patches);
    } else {
      assert [p][1..] == [];
    }
  }

  lemma {:induction false} PatchesAreTheirLeaves(s: Scope, cat: Catalog, t: Tables, ps: seq<Patch>)
    requires forall q :: q in ps ==> NoEmptyBatch(q)
    ensures ApplyPatches(s, cat, t, ps) == ApplyLeaves(s, cat, t, AllLeaves(ps))
    decreases ps, 0
  {
    if ps != [] {
      PatchIsItsLeaves(s, cat, t, ps[0]);
      ApplyLeavesInTwo(s, cat, t, Leaves(ps[0]), AllLeaves(ps[1..]));
      var first := ApplyPatch(s, cat, t, ps[0]);
      if first.Ok? {
        PatchesAreTheirLeaves(s, cat, first.value, ps[1..]);
      }
    }
  }

  /** An empty batch anywhere makes the whole patch fail, on every state. */
  lemma {:induction false} EmptyBatchFails(s: Scope, cat: Catalog, t: Tables, p: Patch)
    requires !NoEmptyBatch(p)
    ensures ApplyPatch(s, cat, t, p).Thrown?
    decreases p, 1
  {
    if p.patches != [] {
      EmptyBatchAmongFails(s, cat, t, p.patches);
    }
  }

  lemma {:induction false} EmptyBatchAmongFails(s: Scope, cat: Catalog, t: Tables, ps: seq<Patch>)
    requires exists q :: q in ps && !NoEmptyBatch(q)
    ensures ApplyPatches(s, cat, t, ps).Thrown?
    decreases ps, 0
  {
    if !NoEmptyBatch(ps[0]) {
      EmptyBatchFails(s, cat, t, ps[0]);
    } else {
      var first := ApplyPatch(s, cat, t, ps[0]);
      if first.Ok? {
        var q :| q in ps && !NoEmptyBatch(q);
        assert q in ps[1..];
        EmptyBatchAmongFails(s, cat, first.value, ps[1..]);
      }
    }
  }

  predicate IsWorkspaceLeaf(p: Patch) {
    p.PatchPlacements? || p.ChangeRoute?
  }

  /** The recursive test finds exactly the workspace leaves. */
  lemma {:induction false} WorkspacePatchIsALeaf(p: Patch)
    ensures HasWorkspacePatch(p) <==> exists q :: q in Leaves(p) && IsWorkspaceLeaf(q)
    decreases p, 1
  {
    if p.Batch? {
      WorkspacePatchAmongLeaves(p.patches);
    } else {
      assert p in Leaves(p);
    }
  }

  lemma {:induction false} WorkspacePatchAmongLeaves(ps: seq<Patch>)
    ensures (exists q :: q in ps && HasWorkspacePatch(q)) <==> (exists q :: q in AllLeaves(ps) && IsWorkspaceLeaf(q))
    decreases ps, 0
  {
    if ps != [] {
      WorkspacePatchIsALeaf(ps[0]);
      WorkspacePatchAmongLeaves(ps[1..]);
      assert ps == [ps[0]] + ps[1..];
      assert forall q :: q in AllLeaves(ps) <==> q in Leaves(ps[0]) || q in AllLeaves(ps[1..]);
      if HasWorkspacePatch(ps[0]) { assert ps[0] in ps; }
    }
  }

  // ----- revisions

  /** Same workspace revisions, same projects with the same revisions. */
  ghost predicate SameRevisions(t: Tables, u: Tables) {
    && t.workspaceRevisions == u.workspaceRevisions
    && t.projects.Keys == u.projects.Keys
    && forall k :: k in t.projects ==> t.projects[k].revision == u.projects[k].revision
  }

  lemma {:induction false} FoldKeepsRevisions<A(!new)>(t: Tables, xs: seq<A>, step: (Tables, A) -> Result<Tables>)
    requires Fold(t, xs, step).Ok?
    requires forall u, x :: step(u, x).Ok? ==> SameRevisions(u, step(u, x).value)
    ensures SameRevisions(t, Fold(t, xs, step).value)
  {
    if xs != [] {
      FoldKeepsRevisions(t, xs[..|xs| - 1], step);
    }
  }

  lemma UpsertsKeepRevisions(s: Scope, cat: Catalog, t: Tables, xs: seq<NewAssignment>)
    requires UpsertAssignments(s, cat, t, xs).Ok?
    ensures SameRevisions(t, UpsertAssignments(s, cat, t, xs).value)
  {
    FoldKeepsRevisions(t, InOrder(xs), (u, a) => UpsertAssignment(s, cat, u, a));
  }

  lemma PatchPlacementsKeepsRevisions(s: Scope, cat: Catalog, t: Tables, p: Patch)
    requires p.PatchPlacements? && ApplyLeaf(s, cat, t, p).Ok?
    ensures SameRevisions(t, ApplyLeaf(s, cat, t, p).value)
  {
    var up := (v, p) => UpsertPlacement(s, cat, v, p);
    FoldKeepsRevisions(t, p.upserts, up);
    FoldKeepsRevisions(Fold(t, p.upserts, up).value, p.removals, (v, r) => RemovePlacement(s, cat, v, r));
  }

  lemma PatchAssignmentsKeepsRevisions(s: Scope, cat: Catalog, t: Tables, p: Patch)
    requires p.PatchAssignments? && ApplyLeaf(s, cat, t, p).Ok?
    ensures SameRevisions(t, ApplyLeaf(s, cat, t, p).value)
  {
    var remove := (v, id) => RemoveAssignment(s, v, id);
    FoldKeepsRevisions(t, p.removedIds, remove);
    UpsertsKeepRevisions(s, cat, Fold(t, p.removedIds, remove).value, p.assignments);
  }

  lemma SetDerivedKeepsRevisions(s: Scope, cat: Catalog, t: Tables, p: Patch)
    requires p.SetConnectionsDerived? && ApplyLeaf(s, cat, t, p).Ok?
    ensures SameRevisions(t, ApplyLeaf(s, cat, t, p).value)
  {
    FoldKeepsRevisions(t, p.states, (u, d) => SetDerived(s, u, d));
  }

  lemma ConnectionLeafKeepsRevisions(s: Scope, cat: Catalog, t: Tables, p: Patch)
    requires p.AddConnection? || p.DropConnection? || p.SetCaption? || p.ChangeRoute?
    requires ApplyLeaf(s, cat, t, p).Ok?
    ensures SameRevisions(t, ApplyLeaf(s, cat, t, p).value)
  {
  }

  lemma SetNameKeepsRevisions(s: Scope, cat: Catalog, t: Tables, p: Patch)
    requires p.SetProjectName? && ApplyLeaf(s, cat, t, p).Ok?
    ensures SameRevisions(t, ApplyLeaf(s, cat, t, p).value)
  {
  }

  lemma LeafKeepsRevisions(s: Scope, cat: Catalog, t: Tables, p: Patch)
    requires !p.Batch? && ApplyLeaf(s, cat, t, p).Ok?
    ensures SameRevisions(t, ApplyLeaf(s, cat, t, p).value)
  {
    match p
    case SetConnectionsDerived(_) => SetDerivedKeepsRevisions(s, cat, t, p);
    case PatchPlacements(_, _) => PatchPlacementsKeepsRevisions(s, cat, t, p);
    case PatchAssignments(_, _) => PatchAssignmentsKeepsRevisions(s, cat, t, p);
    case SetProjectName(_) => SetNameKeepsRevisions(s, cat, t, p);
    case _ => ConnectionLeafKeepsRevisions(s, cat, t, p);
  }

  lemma {:induction false} PatchKeepsRevisions(s: Scope, cat: Catalog, t: Tables, p: Patch)
    requires ApplyPatch(s, cat, t, p).Ok?
    ensures SameRevisions(t, ApplyPatch(s, cat, t, p).value)
    decreases p, 1
  {
    if p.Batch? { PatchesKeepRevisions(s, cat, t, p.patches); } else { LeafKeepsRevisions(s, cat, t, p); }
  }

  lemma {:induction false} PatchesKeepRevisions(s: Scope, cat: Catalog, t: Tables, ps: seq<Patch>)
    requires ApplyPatches(s, cat, t, ps).Ok?
    ensures SameRevisions(t, ApplyPatches(s, cat, t, ps).value)
    decreases ps, 0
  {
    if ps != [] {
      PatchKeepsRevisions(s, cat, t, ps[0]);
      PatchesKeepRevisions(s, cat, ApplyPatch(s, cat, t, ps[0]).value, ps[1..]);
    }
  }

  /**
   A successful engine patch moves its project exactly one revision past the base, no other project,
   and its workspace exactly when some leaf is a workspace patch; it never succeeds with an empty batch.
   */
  lemma EnginePatchRevisions(s: Scope, cat: Catalog, t: Tables, base: nat, revision: nat, p: Patch)
    requires ApplyEnginePatch(s, cat, t, base, revision, p).Ok?
    ensures var u := ApplyEnginePatch(s, cat, t, base, revision, p).value;
      && t.projects.Keys == u.projects.Keys
      && (forall k :: k in t.projects ==>
            u.projects[k].revision == if k == s.project then base + 1 else t.projects[k].revision)
      && t.projects[s.project].revision == base
      && RevisionOf(u.workspaceRevisions, s.workspace) ==
           (match RevisionOf(t.workspaceRevisions, s.workspace)
            case None => None
            case Some(r) => Some(if exists q :: q in Leaves(p) && IsWorkspaceLeaf(q) then r + 1 else r))
      && NoEmptyBatch(p)
  {
    PatchKeepsRevisions(s, cat, t, p);
    WorkspacePatchIsALeaf(p);
    if !NoEmptyBatch(p) {
      EmptyBatchFails(s, cat, t, p);
    }
  }

  lemma ReplaceKeepsRevisions(s: Scope, cat: Catalog, t0: Tables, sub: Submission, t1: Tables, t2: Tables, t3: Tables)
    requires ReplacePlacements(s, cat, t0, sub.placements) == Ok(t1)
    requires ReplaceAssignments(s, cat, t1, sub.assignments) == Ok(t2)
    requires ReplaceConnections(s, cat, t2, sub.connections) == Ok(t3)
    ensures SameRevisions(t0, t3)
  {
    assert SameRevisions(t0, t1) by {
      FoldKeepsRevisions(ClearPlacements(s, t0), sub.placements, (u, p) => InsertPlacement(s, cat, u, p));
    }
    assert SameRevisions(t1, t2) by {
      UpsertsKeepRevisions(s, cat, DeleteAssignments(t1, OwnAssignments(s, t1)), sub.assignments);
    }
    assert SameRevisions(t2, t3) by {
      FoldKeepsRevisions(DeleteConnections(t2, OwnConnections(s, t2)), sub.connections,
        (u, c) => InsertConnection(s, cat, u, c));
    }
  }

  lemma SetProjectRevisions(s: Scope, cat: Catalog, t: Tables, sub: Submission)
    requires SetProject(s, cat, t, sub).Ok?
    ensures var u := SetProject(s, cat, t, sub).value;
      && t.projects.Keys == u.projects.Keys
      && (forall k :: k in t.projects ==>
            u.projects[k].revision == t.projects[k].revision + if k == s.project then 1 else 0)
      && t.workspaceRevisions.Keys == u.workspaceRevisions.Keys
      && (forall w :: w in t.workspaceRevisions ==>
            u.workspaceRevisions[w] == t.workspaceRevisions[w] + if w == s.workspace then 1 else 0)
  {
    var t0 := NextProjectRow(t, s.project, sub.name);
    var t1 := ReplacePlacements(s, cat, t0, sub.placements).value;
    var t2 := ReplaceAssignments(s, cat, t1, sub.assignments).value;
    ReplaceKeepsRevisions(s, cat, t0, sub, t1, t2, ReplaceConnections(s, cat, t2, sub.connections).value);
  }

  // ----- commit events

  /** What the listeners of the store with scope `scope` are told after a commit. */
  datatype CommitEvent = CommitEvent(scope: Scope, base: nat, revision: nat)

  datatype History = History(tables: Tables, events: seq<CommitEvent>)

  /** A step of some store; an error leaves the tables alone and tells nobody. */
  datatype StoreStep = StoreStep(scope: Scope, op: Operation)

  function Commit(cat: Catalog, h: History, step: StoreStep): History {
    match Perform(step.scope, cat, h.tables, step.op)
    case Thrown(_) => h
    case Ok(u) =>
      var project := step.scope.project;
      if project in h.tables.projects then
        var base := h.tables.projects[project].revision;
        History(u, h.events + [CommitEvent(step.scope, base, base + 1)])
      else h
  }

  function CommitAll(cat: Catalog, t: Tables, steps: seq<StoreStep>): History {
    if steps == [] then History(t, []) else Commit(cat, CommitAll(cat, t, steps[..|steps| - 1]), steps[|steps| - 1])
  }

  lemma PerformRevisions(s: Scope, cat: Catalog, t: Tables, op: Operation)
    requires Perform(s, cat, t, op).Ok?
    ensures var u := Perform(s, cat, t, op).value;
      && s.project in t.projects && t.projects.Keys == u.projects.Keys
      && forall k :: k in t.projects ==>
           u.projects[k].revision == t.projects[k].revision + if k == s.project then 1 else 0
  {
    match op
    case Replace(sub) => SetProjectRevisions(s, cat, t, sub);
    case EnginePatch(base, revision, p) => EnginePatchRevisions(s, cat, t, base, revision, p);
  }

  /**
   Every event carries its base plus one, events about one project carry strictly increasing
   revisions, and none is ahead of the tables.
   */
  ghost predicate EventsInOrder(h: History) {
    && (forall i :: 0 <= i < |h.events| ==>
          var e := h.events[i];
          e.revision == e.base + 1 && e.scope.project in h.tables.projects
          && e.revision <= h.tables.projects[e.scope.project].revision)
    && (forall i, j :: 0 <= i < j < |h.events| && h.events[i].scope.project == h.events[j].scope.project ==>
          h.events[i].revision < h.events[j].revision)
  }

  lemma CommitKeepsOrder(cat: Catalog, h: History, step: StoreStep)
    requires EventsInOrder(h)
    ensures EventsInOrder(Commit(cat, h, step))
  {
    if Perform(step.scope, cat, h.tables, step.op).Ok? {
      PerformRevisions(step.scope, cat, h.tables, step.op);
      var r := Commit(cat, h, step);
      forall i | 0 <= i < |r.events|
        ensures var e := r.events[i];
          e.revision == e.base + 1 && e.scope.project in r.tables.projects
          && e.revision <= r.tables.projects[e.scope.project].revision
      {
        assert i < |h.events| ==> r.events[i] == h.events[i];
      }
    }
  }

  /** The events of any interleaving of stores are in order. */
  lemma {:induction false} EventsIncrease(cat: Catalog, t: Tables, steps: seq<StoreStep>)
    ensures EventsInOrder(CommitAll(cat, t, steps))
  {
    if steps != [] {
      EventsIncrease(cat, t, steps[..|steps| - 1]);
      CommitKeepsOrder(cat, CommitAll(cat, t, steps[..|steps| - 1]), steps[|steps| - 1]);
    }
  }
}
