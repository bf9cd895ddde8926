/** Inventory edits: they advance every containing project exactly when the topology changes. */
module InventoryMutation {
  import opened Prelude
  import opened Topology

  datatype Project = Project(revision: nat, archived: bool)

  /** The tables an inventory edit reads: projects, inventory items and the current workspace's topology. */
  datatype Inventory = Inventory(projects: map<nat, Project>, items: set<ItemRef>, topology: Topology)

  datatype CommitEvent = CommitEvent(base: nat, revision: nat)

  /** The edit itself: any change of the tables, or an error. */
  type Operation = Inventory -> Result<Inventory>

  datatype Committed = Committed(inventory: Inventory, topologyChanged: bool, event: Option<CommitEvent>)

  predicate Active(s: Inventory, project: nat) {
    project in s.projects && !s.projects[project].archived
  }

  /** The guarded update finds the project row as it was read before the edit. */
  predicate Unmoved(before: Inventory, after: Inventory, project: nat) {
    Active(before, project) && Active(after, project)
    && after.projects[project].revision == before.projects[project].revision
  }

  function Advance(projects: map<nat, Project>, ids: set<nat>): map<nat, Project> {
    map p | p in projects :: if p in ids then projects[p].(revision := projects[p].revision + 1) else projects[p]
  }

  predicate AllActive(s: Inventory, containing: set<nat>) {
    forall p :: p in containing ==> Active(s, p)
  }

  predicate AllUnmoved(before: Inventory, after: Inventory, containing: set<nat>) {
    forall p :: p in containing ==> Unmoved(before, after, p)
  }

  /** The end of the transaction: guarded revision updates when the topology changed, and the event. */
  function Conclude(own: nat, s: Inventory, after: Inventory, changed: bool, containing: set<nat>): Result<Committed>
    requires AllActive(s, containing)
  {
    if !changed then Ok(Committed(after, false, None))
    else if !AllUnmoved(s, after, containing) then Thrown("revision-conflict")
    else
      Ok(Committed(
        after.(projects := Advance(after.projects, containing)),
        true,
        if own in containing then Some(CommitEvent(s.projects[own].revision, s.projects[own].revision + 1)) else None))
  }

  /** The whole edit of one item, all or nothing; `own` is the project this store is opened on. */
  function Commit(compare: Collation, own: nat, s: Inventory, item: ItemRef, containing: set<nat>, operation: Operation)
    : Result<Committed>
  {
    if item !in s.items then Thrown("inventory-item-not-found")
    else if !AllActive(s, containing) then Thrown("project-not-found")
    else
      var after :- operation(s);
      if item !in after.items then Thrown("inventory-item-not-found")
      else Conclude(own, s, after, !SameNormalForm(compare, s.topology, after.topology), containing)
  }

  predicate SameNormalForm(compare: Collation, a: Topology, b: Topology) {
    Normalize(compare, a) == Normalize(compare, b)
  }

  /** The edit would have gone through without the revision check. */
  predicate Applicable(s: Inventory, item: ItemRef, containing: set<nat>, operation: Operation) {
    && item in s.items && AllActive(s, containing)
    && operation(s).Ok? && item in operation(s).value.items
  }

  ghost predicate Changed(s: Inventory, operation: Operation)
    requires operation(s).Ok?
  {
    ViewOf(s.topology) != ViewOf(operation(s).value.topology)
  }

  /** What the end of a transaction must have done to the tables that the edit left. */
  ghost predicate Advanced(s: Inventory, after: Inventory, final: Inventory, changed: bool, containing: set<nat>) {
    && final.topology == after.topology && final.items == after.items
    && final.projects.Keys == after.projects.Keys
    && (forall p :: p in final.projects && p !in containing ==> final.projects[p] == after.projects[p])
    && (!changed ==> final.projects == after.projects)
    && (changed ==> forall p :: p in containing ==>
          && p in s.projects && p in final.projects
          && final.projects[p] == Project(s.projects[p].revision + 1, false))
  }

  /** Listeners of the own project hear of its step from the revision that was read to the one it has now. */
  ghost predicate Told(own: nat, s: Inventory, final: Inventory, moved: bool, event: Option<CommitEvent>) {
    if !moved then event == None
    else
      && own in s.projects && own in final.projects && event.Some?
      && event.value.base == s.projects[own].revision && event.value.revision == final.projects[own].revision
  }

  lemma ConcludeMeaning(own: nat, s: Inventory, after: Inventory, changed: bool, containing: set<nat>)
    requires AllActive(s, containing)
    ensures var r := Conclude(own, s, after, changed, containing);
      && (r.Ok? <==> changed ==> AllUnmoved(s, after, containing))
      && (r.Ok? ==> r.value.topologyChanged == changed && Advanced(s, after, r.value.inventory, changed, containing))
      && (r.Ok? ==> Told(own, s, r.value.inventory, changed && own in containing, r.value.event))
  {
    if changed && AllUnmoved(s, after, containing) {
      forall p | p in containing
        ensures p in s.projects && p in after.projects
        ensures Advance(after.projects, containing)[p] == Project(s.projects[p].revision + 1, false)
      {
        assert Unmoved(s, after, p);
      }
    }
  }

  /**
   An edit succeeds unless it changes the topology and has itself moved a containing project.
   The flag says whether the topology changed as sets at every nesting level; every
   containing project then advances by exactly one from the revision that was read, and
   otherwise no project row differs from what the edit left.
   */
  lemma CommitMeaning(compare: Collation, own: nat, s: Inventory, item: ItemRef, containing: set<nat>,
                      operation: Operation)
    requires TotalOrder(compare) && UniqueIds(s.topology)
    requires operation(s).Ok? ==> UniqueIds(operation(s).value.topology)
    ensures var r := Commit(compare, own, s, item, containing, operation);
      && (r.Ok? <==>
          && Applicable(s, item, containing, operation)
          && (Changed(s, operation) ==> AllUnmoved(s, operation(s).value, containing)))
      && (r.Ok? ==>
          && r.value.topologyChanged == Changed(s, operation)
          && Advanced(s, operation(s).value, r.value.inventory, Changed(s, operation), containing)
          && Told(own, s, r.value.inventory, Changed(s, operation) && own in containing, r.value.event))
  {
    if Applicable(s, item, containing, operation) {
      var after := operation(s).value;
      assert Changed(s, operation) == !SameNormalForm(compare, s.topology, after.topology) by {
        NormalFormDecides(compare, s.topology, after.topology);
      }
      ConcludeMeaning(own, s, after, Changed(s, operation), containing);
    }
  }

  /** An edit that leaves project rows alone never conflicts: exactly the containing projects advance, or none. */
  lemma PlainEditAdvances(compare: Collation, own: nat, s: Inventory, item: ItemRef, containing: set<nat>,
                          operation: Operation)
    requires TotalOrder(compare) && UniqueIds(s.topology) && Applicable(s, item, containing, operation)
    requires UniqueIds(operation(s).value.topology) && operation(s).value.projects == s.projects
    ensures var r := Commit(compare, own, s, item, containing, operation);
      && r.Ok? && r.value.inventory.projects.Keys == s.projects.Keys
      && forall p :: p in s.projects ==>
           r.value.inventory.projects[p].revision
             == s.projects[p].revision + (if p in containing && Changed(s, operation) then 1 else 0)
  {
    CommitMeaning(compare, own, s, item, containing, operation);
    assert forall p :: p in containing ==> Active(s, p) ==> Unmoved(s, operation(s).value, p);
  }

  class InventoryStore {
    const own: nat
    var tables: Inventory
    var events: seq<CommitEvent>

    constructor (own: nat, s: Inventory)
      ensures this.own == own && tables == s && events == []
    {
      this.own, tables, events := own, s, [];
    }

    method FindInactive(containing: set<nat>) returns (missing: bool)
      ensures missing <==> !AllActive(tables, containing)
    {
      var rest := containing;
      while rest != {}
        invariant rest <= containing
        invariant forall p :: p in containing - rest ==> Active(tables, p)
      {
        var p :| p in rest;
        if !Active(tables, p) {
          return true;
        }
        rest := rest - {p};
      }
      return false;
    }

    /** Advances the projects one guarded update at a time and stops at the first row that moved. */
    method AdvanceRevisions(before: Inventory, containing: set<nat>) returns (conflict: bool)
      modifies this`tables
      ensures conflict <==> !AllUnmoved(before, old(tables), containing)
      ensures !conflict ==> tables == old(tables).(projects := Advance(old(tables).projects, containing))
    {
      ghost var start := tables;
      var rest := containing;
      while rest != {}
        invariant rest <= containing
        invariant forall p :: p in containing - rest ==> Unmoved(before, start, p)
        invariant tables == start.(projects := Advance(start.projects, containing - rest))
      {
        var p :| p in rest;
        if !Unmoved(before, tables, p) {
          assert !Unmoved(before, start, p);
          return true;
        }
        assert Unmoved(before, start, p);
        var row := tables.projects[p].(revision := before.projects[p].revision + 1);
        tables := tables.(projects := tables.projects[p := row]);
        assert tables.projects == Advance(start.projects, containing - (rest - {p}));
        rest := rest - {p};
      }
      assert containing - rest == containing;
      return false;
    }

    /** The store holds what `c` says and its listeners have been told; `before` and `told` are what it had. */
    ghost predicate Reflects(c: Result<Committed>, before: Inventory, told: seq<CommitEvent>, r: Result<bool>)
      reads this
    {
      match c
      case Thrown(error) => r == Thrown(error) && tables == before && events == told
      case Ok(done) =>
        && r == Ok(done.topologyChanged) && tables == done.inventory
        && events == told + if done.event.Some? then [done.event.value] else []
    }

    method FinishMutation(before: Inventory, changed: bool, containing: set<nat>) returns (r: Result<bool>)
      requires AllActive(before, containing)
      modifies this
      ensures Reflects(Conclude(own, before, old(tables), changed, containing), before, old(events), r)
    {
      if !changed {
        return Ok(false);
      }
      var conflict := AdvanceRevisions(before, containing);
      if conflict {
        tables := before;
        return Thrown("revision-conflict");
      }
      if own in containing {
        events := events + [CommitEvent(before.projects[own].revision, before.projects[own].revision + 1)];
      }
      return Ok(true);
    }

    /** The transaction: on an error the tables are as before and nobody is notified. */
    method CommitInventoryMutation(compare: Collation, item: ItemRef, containing: set<nat>, operation: Operation)
      returns (r: Result<bool>)
      modifies this
      ensures Reflects(Commit(compare, own, old(tables), item, containing, operation), old(tables), old(events), r)
    {
      var before := tables;
      if item !in before.items {
        return Thrown("inventory-item-not-found");
      }
      var missing := FindInactive(containing);
      if missing {
        return Thrown("project-not-found");
      }
      var after := operation(before);
      if after.Thrown? {
        return Thrown(after.error);
      }
      if item !in after.value.items {
        return Thrown("inventory-item-not-found");
      }
      tables := after.value;
      r := FinishMutation(before, !SameNormalForm(compare, before.topology, after.value.topology), containing);
    }
  }
}
