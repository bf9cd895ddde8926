/** The store object: transactions on its tables, and the events it tells its listeners. */
module WorkspaceStore {
  import opened Prelude
  import opened WorkspaceTables
  import opened WorkspaceIsolation
  import opened WorkspaceRevisions

  /** An error in a prefix is the error of the whole run. */
  lemma {:induction false} FoldStops<A>(t: Tables, xs: seq<A>, step: (Tables, A) -> Result<Tables>, i: nat)
    requires i <= |xs| && Fold(t, xs[..i], step).Thrown?
    ensures Fold(t, xs, step) == Fold(t, xs[..i], step)
  {
    if i == |xs| {
      assert xs[..i] == xs;
    } else {
      assert xs[..|xs| - 1][..i] == xs[..i];
      FoldStops(t, xs[..|xs| - 1], step, i);
    }
  }

  /** Runs one statement per record. */
  method ForEach<A>(t: Tables, xs: seq<A>, step: (Tables, A) -> Result<Tables>) returns (r: Result<Tables>)
    ensures r == Fold(t, xs, step)
  {
    r := Ok(t);
    for i := 0 to |xs|
      invariant r.Ok? && r == Fold(t, xs[..i], step)
    {
      assert xs[..i + 1][..i] == xs[..i];
      r := step(r.value, xs[i]);
      if r.Thrown? {
        FoldStops(t, xs, step, i + 1);
        return;
      }
    }
    assert xs[..|xs|] == xs;
  }

  /** Applies a patch tree to a working copy. */
  method ApplyProjectPatch(s: Scope, cat: Catalog, t: Tables, p: Patch) returns (r: Result<Tables>)
    ensures r == ApplyPatch(s, cat, t, p)
    decreases p
  {
    if !p.Batch? {
      return ApplyLeaf(s, cat, t, p);
    }
    if p.patches == [] {
      return Thrown("invalid-engine-patch");
    }
    r := Ok(t);
    for i := 0 to |p.patches|
      invariant r.Ok? && ApplyPatches(s, cat, t, p.patches) == ApplyPatches(s, cat, r.value, p.patches[i..])
    {
      r := ApplyProjectPatch(s, cat, r.value, p.patches[i]);
      if r.Thrown? {
        return;
      }
      assert p.patches[i..][1..] == p.patches[i + 1..];
    }
  }

  /** Deletes the workspace's placements and inserts the submitted ones. */
  method RefillPlacements(s: Scope, cat: Catalog, t: Tables, ps: seq<NewPlacement>) returns (r: Result<Tables>)
    ensures r == ReplacePlacements(s, cat, t, ps)
  {
    r := ForEach(ClearPlacements(s, t), ps, (u, p) => InsertPlacement(s, cat, u, p));
  }

  method RefillAssignments(s: Scope, cat: Catalog, t: Tables, xs: seq<NewAssignment>) returns (r: Result<Tables>)
    ensures r == ReplaceAssignments(s, cat, t, xs)
  {
    r := ForEach(DeleteAssignments(t, OwnAssignments(s, t)), InOrder(xs), (u, a) => UpsertAssignment(s, cat, u, a));
  }

  method RefillConnections(s: Scope, cat: Catalog, t: Tables, cs: seq<NewConnection>) returns (r: Result<Tables>)
    ensures r == ReplaceConnections(s, cat, t, cs)
  {
    r := ForEach(DeleteConnections(t, OwnConnections(s, t)), cs, (u, c) => InsertConnection(s, cat, u, c));
  }

  class Store {
    const scope: Scope
    const catalog: Catalog
    var tables: Tables
    var events: seq<CommitEvent>

    constructor (s: Scope, cat: Catalog, t: Tables)
      ensures scope == s && catalog == cat && tables == t && events == []
    {
      scope, catalog, tables, events := s, cat, t, [];
    }

    /** What every operation does with the outcome of its transaction: all of it or nothing. */
    twostate predicate Committed(outcome: Result<Tables>, ok: bool)
      reads this
    {
      match outcome
      case Ok(t) =>
        && ok && tables == t && scope.project in old(tables).projects
        && events == old(events) + [CommitEvent(scope, old(tables).projects[scope.project].revision,
                                                old(tables).projects[scope.project].revision + 1)]
      case Thrown(_) => !ok && tables == old(tables) && events == old(events)
    }

    method SetProject(sub: Submission) returns (ok: bool)
      modifies this
      ensures Committed(WorkspaceTables.SetProject(scope, catalog, old(tables), sub), ok)
    {
      if scope.project !in tables.projects {
        return false;
      }
      var base := tables.projects[scope.project].revision;
      if (sub.revision.Some? && sub.revision.value != base) || sub.members != catalog.members {
        return false;
      }
      var t0 := NextProjectRow(tables, scope.project, sub.name);
      var t1 := RefillPlacements(scope, catalog, t0, sub.placements);
      if t1.Thrown? {
        return false;
      }
      var t2 := RefillAssignments(scope, catalog, t1.value, sub.assignments);
      if t2.Thrown? {
        return false;
      }
      var t3 := RefillConnections(scope, catalog, t2.value, sub.connections);
      if t3.Thrown? {
        return false;
      }
      tables := BumpWorkspace(scope, t3.value);
      events := events + [CommitEvent(scope, base, base + 1)];
      return true;
    }

    method ApplyEnginePatch(base: nat, revision: nat, p: Patch) returns (ok: bool)
      modifies this
      ensures Committed(WorkspaceTables.ApplyEnginePatch(scope, catalog, old(tables), base, revision, p), ok)
    {
      if scope.project !in tables.projects || tables.projects[scope.project].revision != base || revision != base + 1 {
        return false;
      }
      var r := ApplyProjectPatch(scope, catalog, tables, p);
      if r.Thrown? || scope.project !in r.value.projects || r.value.projects[scope.project].revision != base {
        return false;
      }
      var row := r.value.projects[scope.project].(revision := revision);
      var t := r.value.(projects := r.value.projects[scope.project := row]);
      tables := if HasWorkspacePatch(p) then BumpWorkspace(scope, t) else t;
      events := events + [CommitEvent(scope, base, revision)];
      return true;
    }
  }
}
