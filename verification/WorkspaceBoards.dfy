/** What a whole-workspace replacement makes of its assignments and of motherboard-provided slots. */
module WorkspaceBoards {
  import opened Prelude
  import opened Sorting
  import opened WorkspaceTables

  ghost predicate IdsDistinct(xs: seq<NewAssignment>) {
    forall i, j :: 0 <= i < j < |xs| ==> xs[i].id != xs[j].id
  }

  lemma EarlierIsStrict(xs: seq<NewAssignment>)
    requires IdsDistinct(xs)
    ensures StrictOn(ToSet(xs), Earlier) && Distinct(xs)
  {
    forall a, b | a in ToSet(xs) && b in ToSet(xs) && a != b ensures a.id != b.id {
      var i :| 0 <= i < |xs| && xs[i] == a;
      var j :| 0 <= j < |xs| && xs[j] == b;
    }
  }

  lemma SameOrder(xs: seq<NewAssignment>, ys: seq<NewAssignment>)
    requires IdsDistinct(xs) && IdsDistinct(ys) && ToSet(xs) == ToSet(ys)
    ensures InOrder(xs) == InOrder(ys)
  {
    EarlierIsStrict(xs);
    EarlierIsStrict(ys);
    SortIgnoresOrder(xs, ys, Earlier);
  }

  /** Assignments are processed with motherboards first, and otherwise by ascending id; none is lost or added. */
  lemma ProcessingOrder(xs: seq<NewAssignment>)
    requires IdsDistinct(xs)
    ensures multiset(InOrder(xs)) == multiset(xs)
    ensures forall i, j :: 0 <= i < j < |InOrder(xs)| ==>
      var a, b := InOrder(xs)[i], InOrder(xs)[j];
      if a.componentType == "motherboard" then b.componentType == "motherboard" ==> a.id < b.id
      else b.componentType != "motherboard" && a.id < b.id
  {
    EarlierIsStrict(xs);
    SortSorted(xs, Earlier);
    forall i, j | 0 <= i < j < |InOrder(xs)| ensures Earlier(InOrder(xs)[i], InOrder(xs)[j]) {
    }
  }

  /** The order in which assignments with distinct ids are submitted does not matter. */
  lemma SubmissionOrderIsIrrelevant(s: Scope, cat: Catalog, t: Tables, sub: Submission, ys: seq<NewAssignment>)
    requires IdsDistinct(sub.assignments) && IdsDistinct(ys) && ToSet(sub.assignments) == ToSet(ys)
    ensures SetProject(s, cat, t, sub) == SetProject(s, cat, t, sub.(assignments := ys))
  {
    assert InOrder(sub.assignments) == InOrder(ys) by { SameOrder(sub.assignments, ys); }
    assert forall u :: ReplaceAssignments(s, cat, u, sub.assignments) == ReplaceAssignments(s, cat, u, ys);
  }

  // ----- the rows that a run of upserts leaves

  function Upserts(s: Scope, cat: Catalog, t: Tables, xs: seq<NewAssignment>): Result<Tables> {
    Fold(t, xs, (u, a) => UpsertAssignment(s, cat, u, a))
  }

  /** Assignment `a` and its slot rows stand in the tables exactly as resolved. */
  ghost predicate Written(s: Scope, u: Tables, r: Resolved) {
    && r.id in u.assignments && u.assignments[r.id] == r.row
    && (forall k: nat :: SlotRowKey(r.id, k) in u.slots <==> k < |r.slots|)
    && (forall k: nat :: k < |r.slots| ==>
          u.slots[SlotRowKey(r.id, k)] == SlotRow(s.project, s.workspace, r.provider.item, r.slots[k]))
  }

  lemma WriteAssignmentWrites(s: Scope, t: Tables, r: Resolved)
    requires WriteAssignment(s, t, r).Ok?
    ensures Written(s, WriteAssignment(s, t, r).value, r)
    ensures forall q: Resolved :: q.id != r.id && Written(s, t, q) ==> Written(s, WriteAssignment(s, t, r).value, q)
  {
    var u := WriteAssignment(s, t, r).value;
    forall q: Resolved | q.id != r.id && Written(s, t, q) ensures Written(s, u, q) {
      assert forall k: nat :: SlotRowKey(q.id, k) in u.slots <==> SlotRowKey(q.id, k) in t.slots;
    }
  }

  /** What the `j`-th upsert resolved to when its turn came. */
  function ResolvedAt(s: Scope, cat: Catalog, t: Tables, xs: seq<NewAssignment>, j: nat): Result<Resolved>
    requires j < |xs|
  {
    var u :- Upserts(s, cat, t, xs[..j]);
    ResolveAssignment(s, cat, u, xs[j])
  }

  lemma {:induction false} UpsertsWriteAll(s: Scope, cat: Catalog, t: Tables, xs: seq<NewAssignment>, j: nat)
    requires IdsDistinct(xs) && Upserts(s, cat, t, xs).Ok? && j < |xs|
    ensures ResolvedAt(s, cat, t, xs, j).Ok? && ResolvedAt(s, cat, t, xs, j).value.id == xs[j].id
    ensures Written(s, Upserts(s, cat, t, xs).value, ResolvedAt(s, cat, t, xs, j).value)
  {
    var front, last := xs[..|xs| - 1], xs[|xs| - 1];
    var before := Upserts(s, cat, t, front).value;
    WriteAssignmentWrites(s, before, ResolveAssignment(s, cat, before, last).value);
    if j < |front| {
      UpsertsWriteAll(s, cat, t, front, j);
      assert front[..j] == xs[..j] && front[j] == xs[j];
    } else {
      assert xs[..j] == front;
    }
  }

  /** The submitted assignment puts a motherboard into `host`. */
  predicate IsBoardFor(cat: Catalog, a: NewAssignment, host: nat) {
    && ResolveItem(cat, a.host) == Ok(host)
    && ResolveItem(cat, a.item).Ok? && ResolveItem(cat, a.item).value in cat.motherboards
  }

  lemma UpsertAddsBoard(s: Scope, cat: Catalog, t: Tables, a: NewAssignment, host: nat)
    requires UpsertAssignment(s, cat, t, a).Ok? && a.id !in OwnAssignments(s, t)
    ensures Boards(s, cat, UpsertAssignment(s, cat, t, a).value, host) ==
            Boards(s, cat, t, host) + if IsBoardFor(cat, a, host) then {a.id} else {}
    ensures OwnAssignments(s, UpsertAssignment(s, cat, t, a).value) == OwnAssignments(s, t) + {a.id}
  {
  }

  /** The ids of the boards for `host` from position `i` on. */
  function LaterBoards(cat: Catalog, xs: seq<NewAssignment>, i: nat, host: nat): set<int> {
    set k | i <= k < |xs| && IsBoardFor(cat, xs[k], host) :: xs[k].id
  }

  lemma LaterBoardsMore(cat: Catalog, xs: seq<NewAssignment>, i: nat, host: nat)
    requires i < |xs|
    ensures LaterBoards(cat, xs, i, host) == LaterBoards(cat, xs[..|xs| - 1], i, host)
              + if IsBoardFor(cat, xs[|xs| - 1], host) then {xs[|xs| - 1].id} else {}
  {
    var front := xs[..|xs| - 1];
    assert forall k :: 0 <= k < |front| ==> front[k] == xs[k];
  }

  lemma UpsertAddsOwn(s: Scope, cat: Catalog, t: Tables, a: NewAssignment)
    requires UpsertAssignment(s, cat, t, a).Ok?
    ensures OwnAssignments(s, UpsertAssignment(s, cat, t, a).value) == OwnAssignments(s, t) + {a.id}
  {
  }

  lemma UpsertsStep(s: Scope, cat: Catalog, t: Tables, xs: seq<NewAssignment>)
    requires xs != [] && Upserts(s, cat, t, xs).Ok?
    ensures var before := Upserts(s, cat, t, xs[..|xs| - 1]);
      before.Ok? && UpsertAssignment(s, cat, before.value, xs[|xs| - 1]) == Upserts(s, cat, t, xs)
  {
  }

  /** The own assignments after a run of upserts are the earlier ones and the submitted ones. */
  lemma {:induction false} OwnAfter(s: Scope, cat: Catalog, t: Tables, xs: seq<NewAssignment>)
    requires IdsDistinct(xs) && Upserts(s, cat, t, xs).Ok?
    ensures forall b :: b in OwnAssignments(s, Upserts(s, cat, t, xs).value) <==>
              b in OwnAssignments(s, t) || exists k :: 0 <= k < |xs| && xs[k].id == b
  {
    if xs != [] {
      var front, last := xs[..|xs| - 1], xs[|xs| - 1];
      UpsertsStep(s, cat, t, xs);
      OwnAfter(s, cat, t, front);
      assert forall k :: 0 <= k < |front| ==> front[k] == xs[k];
      UpsertAddsOwn(s, cat, Upserts(s, cat, t, front).value, last);
    }
  }

  /** The boards after a run of upserts are the earlier ones and the submitted ones. */
  lemma {:induction false} BoardsAfter(s: Scope, cat: Catalog, t: Tables, xs: seq<NewAssignment>, i: nat, host: nat)
    requires IdsDistinct(xs) && Upserts(s, cat, t, xs).Ok? && i <= |xs| && Upserts(s, cat, t, xs[..i]).Ok?
    requires OwnAssignments(s, t) == {}
    ensures Boards(s, cat, Upserts(s, cat, t, xs).value, host) ==
            Boards(s, cat, Upserts(s, cat, t, xs[..i]).value, host) + LaterBoards(cat, xs, i, host)
  {
    if i == |xs| {
      assert xs[..i] == xs;
      assert LaterBoards(cat, xs, i, host) == {};
    } else {
      var front, last := xs[..|xs| - 1], xs[|xs| - 1];
      assert front[..i] == xs[..i];
      BoardsAfter(s, cat, t, front, i, host);
      OwnAfter(s, cat, t, front);
      LaterBoardsMore(cat, xs, i, host);
      UpsertAddsBoard(s, cat, Upserts(s, cat, t, front).value, last, host);
    }
  }

  /** No board for `host` is written at position `j` or later. */
  predicate NoLaterBoard(cat: Catalog, xs: seq<NewAssignment>, j: nat, host: nat) {
    forall k :: j <= k < |xs| ==> !IsBoardFor(cat, xs[k], host)
  }

  /**
   Board `b` serves the allocation of `x` in its host: it is a motherboard assignment of that host, the
   slot rows are the slots of that board in submitted order, and the slot of the row is the first of them.
   */
  ghost predicate BoardServes(s: Scope, cat: Catalog, u: Tables, x: NewAssignment, host: nat, b: nat)
    requires x.allocation.Some?
  {
    var a := x.allocation.value;
    && x.id in u.assignments && u.assignments[x.id].host == host && u.assignments[x.id].provider == Some(b)
    && b in Boards(s, cat, u, host)
    && (forall k: nat :: SlotRowKey(x.id, k) in u.slots <==> k < |a.positions|)
    && (forall k: nat :: k < |a.positions| ==>
          var row := u.slots[SlotRowKey(x.id, k)];
          && row.host == u.assignments[b].component
          && ResolveResourceSlot(cat, row.host, a, a.positions[k]) == Ok(row.slot))
    && u.assignments[x.id].slot ==
         (if a.positions == [] then None else Some(u.slots[SlotRowKey(x.id, 0)].slot))
  }

  /**
   After a run of upserts, a board serves each board-provided allocation.  That board is the only one of
   the host in the final tables exactly when no motherboard for the host comes later in the order.
   */
  lemma BoardProvidedAllocation(s: Scope, cat: Catalog, t: Tables, xs: seq<NewAssignment>, j: nat)
    returns (host: nat, b: nat)
    requires IdsDistinct(xs) && Upserts(s, cat, t, xs).Ok? && j < |xs| && OwnAssignments(s, t) == {}
    requires ResolveItem(cat, xs[j].host).Ok?
    requires BoardProvided(cat, ResolveItem(cat, xs[j].host).value, xs[j].allocation)
    ensures ResolveItem(cat, xs[j].host) == Ok(host)
    ensures var u := Upserts(s, cat, t, xs).value;
      && BoardServes(s, cat, u, xs[j], host, b)
      && (Boards(s, cat, u, host) == {b} <==> NoLaterBoard(cat, xs, j, host))
  {
    var u := Upserts(s, cat, t, xs).value;
    host := ResolveItem(cat, xs[j].host).value;
    UpsertsWriteAll(s, cat, t, xs, j);
    var r := ResolvedAt(s, cat, t, xs, j).value;
    BoardsAfter(s, cat, t, xs, j, host);
    var uj := Upserts(s, cat, t, xs[..j]).value;
    b := r.row.provider.value;
    assert Boards(s, cat, uj, host) == {b};
    assert b in Boards(s, cat, uj, host);
    BoardWasWritten(s, cat, t, xs, j, b);
    assert Boards(s, cat, u, host) == {b} <==> NoLaterBoard(cat, xs, j, host) by {
      LaterBoardIsAnother(s, cat, t, xs, j, host, b);
    }
  }

  /** A board found at step `j` keeps its row to the end. */
  lemma BoardWasWritten(s: Scope, cat: Catalog, t: Tables, xs: seq<NewAssignment>, j: nat, b: nat)
    requires IdsDistinct(xs) && Upserts(s, cat, t, xs).Ok? && j < |xs| && OwnAssignments(s, t) == {}
    requires Upserts(s, cat, t, xs[..j]).Ok? && b in OwnAssignments(s, Upserts(s, cat, t, xs[..j]).value)
    ensures b in Upserts(s, cat, t, xs).value.assignments
    ensures Upserts(s, cat, t, xs).value.assignments[b] == Upserts(s, cat, t, xs[..j]).value.assignments[b]
  {
    OwnAfter(s, cat, t, xs[..j]);
    var k :| 0 <= k < j && xs[..j][k].id == b;
    UpsertsWriteAll(s, cat, t, xs[..j], k);
    UpsertsWriteAll(s, cat, t, xs, k);
    assert xs[..j][..k] == xs[..k] && xs[..j][k] == xs[k];
  }

  lemma LaterBoardIsAnother(s: Scope, cat: Catalog, t: Tables, xs: seq<NewAssignment>, j: nat, host: nat, b: nat)
    requires IdsDistinct(xs) && Upserts(s, cat, t, xs).Ok? && j < |xs| && OwnAssignments(s, t) == {}
    requires Upserts(s, cat, t, xs[..j]).Ok? && Boards(s, cat, Upserts(s, cat, t, xs[..j]).value, host) == {b}
    ensures Boards(s, cat, Upserts(s, cat, t, xs).value, host) == {b} <==> NoLaterBoard(cat, xs, j, host)
  {
    BoardsAfter(s, cat, t, xs, j, host);
    OwnAfter(s, cat, t, xs[..j]);
    assert b in Boards(s, cat, Upserts(s, cat, t, xs[..j]).value, host);
    assert b in OwnAssignments(s, Upserts(s, cat, t, xs[..j]).value);
    var i :| 0 <= i < j && xs[..j][i].id == b;
    assert b !in LaterBoards(cat, xs, j, host);
    assert LaterBoards(cat, xs, j, host) == {} <==> NoLaterBoard(cat, xs, j, host) by {
      assert forall k :: j <= k < |xs| && IsBoardFor(cat, xs[k], host) ==> xs[k].id in LaterBoards(cat, xs, j, host);
    }
  }

  /** Motherboards typed as such are written before everything they provide for. */
  lemma TypedBoardsComeFirst(cat: Catalog, submitted: seq<NewAssignment>, j: nat)
    requires IdsDistinct(submitted) && j < |InOrder(submitted)|
    requires InOrder(submitted)[j].componentType != "motherboard"
    requires forall a, host :: a in submitted && IsBoardFor(cat, a, host) ==> a.componentType == "motherboard"
    ensures forall host :: NoLaterBoard(cat, InOrder(submitted), j, host)
  {
    var xs := InOrder(submitted);
    EarlierIsStrict(submitted);
    SortSorted(submitted, Earlier);
    forall k, host | j <= k < |xs| ensures !IsBoardFor(cat, xs[k], host) {
      assert xs[k] in xs;
      if k > j { assert Earlier(xs[j], xs[k]); }
    }
  }

  /** A replacement clears the workspace and then runs the upserts in processing order. */
  lemma ReplacementIsUpserts(s: Scope, cat: Catalog, t: Tables, submitted: seq<NewAssignment>)
    requires IdsDistinct(submitted)
    ensures var cleared := DeleteAssignments(t, OwnAssignments(s, t));
      && OwnAssignments(s, cleared) == {} && IdsDistinct(InOrder(submitted))
      && ReplaceAssignments(s, cat, t, submitted) == Upserts(s, cat, cleared, InOrder(submitted))
  {
    var xs := InOrder(submitted);
    EarlierIsStrict(submitted);
    SortSorted(submitted, Earlier);
    forall i, j | 0 <= i < j < |xs| ensures xs[i].id != xs[j].id {
      assert Earlier(xs[i], xs[j]) && xs[i] in xs && xs[j] in xs;
      var k :| 0 <= k < |submitted| && submitted[k] == xs[i];
      var l :| 0 <= l < |submitted| && submitted[l] == xs[j];
    }
  }
}
