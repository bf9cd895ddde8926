/** Board-provided allocations in the tables that `setProject` leaves, and a submission that ends with two boards. */
module WorkspaceProviders {
  import opened Prelude
  import opened Sorting
  import opened WorkspaceTables
  import opened WorkspaceBoards
  import opened WorkspaceContents

  /** The tables that a replacement goes through. */
  lemma ReplacementStages(s: Scope, cat: Catalog, t: Tables, sub: Submission) returns (t1: Tables, t2: Tables)
    requires SetProject(s, cat, t, sub).Ok?
    ensures ReplacePlacements(s, cat, NextProjectRow(t, s.project, sub.name), sub.placements) == Ok(t1)
    ensures ReplaceAssignments(s, cat, t1, sub.assignments) == Ok(t2)
    ensures KeepsAssignments(t2, SetProject(s, cat, t, sub).value)
  {
    t1 := ReplacePlacements(s, cat, NextProjectRow(t, s.project, sub.name), sub.placements).value;
    t2 := ReplaceAssignments(s, cat, t1, sub.assignments).value;
    InsertsKeepAssignments(s, cat, DeleteConnections(t2, OwnConnections(s, t2)), sub.connections);
  }

  /**
   After a successful `setProject`, a board serves each board-provided allocation, and it is the host's
   only board exactly when no motherboard for that host comes later in the processing order.
   */
  lemma SetProjectProvidesBoards(s: Scope, cat: Catalog, t: Tables, sub: Submission, j: nat)
    returns (host: nat, b: nat)
    requires IdsDistinct(sub.assignments) && SetProject(s, cat, t, sub).Ok? && j < |InOrder(sub.assignments)|
    requires var x := InOrder(sub.assignments)[j];
      ResolveItem(cat, x.host).Ok? && BoardProvided(cat, ResolveItem(cat, x.host).value, x.allocation)
    ensures ResolveItem(cat, InOrder(sub.assignments)[j].host) == Ok(host)
    ensures var u := SetProject(s, cat, t, sub).value;
      && BoardServes(s, cat, u, InOrder(sub.assignments)[j], host, b)
      && (Boards(s, cat, u, host) == {b} <==> NoLaterBoard(cat, InOrder(sub.assignments), j, host))
  {
    var t1, t2 := ReplacementStages(s, cat, t, sub);
    ReplacementIsUpserts(s, cat, t1, sub.assignments);
    host, b := BoardProvidedAllocation(s, cat, DeleteAssignments(t1, OwnAssignments(s, t1)),
      InOrder(sub.assignments), j);
    ServiceCarriesOver(s, cat, t2, SetProject(s, cat, t, sub).value, InOrder(sub.assignments)[j], host, b);
  }

  lemma ServiceCarriesOver(s: Scope, cat: Catalog, t: Tables, u: Tables, x: NewAssignment, host: nat, b: nat)
    requires KeepsAssignments(t, u) && x.allocation.Some? && BoardServes(s, cat, t, x, host, b)
    ensures BoardServes(s, cat, u, x, host, b) && Boards(s, cat, u, host) == Boards(s, cat, t, host)
  {
    assert Boards(s, cat, u, host) == Boards(s, cat, t, host);
  }

  /** With every motherboard submitted as one, the serving board is the host's only board. */
  lemma TypedBoardsAreSingle(s: Scope, cat: Catalog, t: Tables, sub: Submission, j: nat)
    returns (host: nat, b: nat)
    requires IdsDistinct(sub.assignments) && SetProject(s, cat, t, sub).Ok? && j < |InOrder(sub.assignments)|
    requires var x := InOrder(sub.assignments)[j];
      && ResolveItem(cat, x.host).Ok? && BoardProvided(cat, ResolveItem(cat, x.host).value, x.allocation)
      && x.componentType != "motherboard"
    requires forall a, h :: a in sub.assignments && IsBoardFor(cat, a, h) ==> a.componentType == "motherboard"
    ensures BoardServes(s, cat, SetProject(s, cat, t, sub).value, InOrder(sub.assignments)[j], host, b)
    ensures Boards(s, cat, SetProject(s, cat, t, sub).value, host) == {b}
  {
    host, b := SetProjectProvidesBoards(s, cat, t, sub, j);
    TypedBoardsComeFirst(cat, sub.assignments, j);
  }

  // ----- a submission after which two boards remain

  /** A PC Build (item 1) with two motherboards (items 2 and 3) and a CPU (item 4). */
  const TWO_BOARDS := Catalog(
    map[ItemRef("pcBuild", 1) := 1, ItemRef("motherboard", 1) := 2, ItemRef("motherboard", 2) := 3,
      ItemRef("cpu", 1) := 4],
    {1}, {2, 3}, map[SlotKey(2, "cpu", None, 1) := 9], map[], map[], {})

  const HERE := Scope(1, 1)
  const TYPED_BOARD := NewAssignment(1, ItemRef("pcBuild", 1), ItemRef("motherboard", 1), "motherboard", 0, None)
  const CPU := NewAssignment(2, ItemRef("pcBuild", 1), ItemRef("cpu", 1), "cpu", 0, Some(Allocation("cpu", None, [0])))
  const MISTYPED_BOARD := NewAssignment(3, ItemRef("pcBuild", 1), ItemRef("motherboard", 2), "other", 0, None)

  /** A project with nothing in its workspace. */
  const FRESH_PROJECT := Tables(map[1 := ProjectRow("Lab", 1)], map[1 := 1], map[], map[], map[], map[], map[], map[])

  const MISTYPED := Submission(Some(1), {}, "Lab", [], [MISTYPED_BOARD, CPU, TYPED_BOARD], [])

  lemma UpsertsOneMore(t: Tables, xs: seq<NewAssignment>, u: Tables, a: NewAssignment, r: Resolved)
    requires Upserts(HERE, TWO_BOARDS, t, xs) == Ok(u) && ResolveAssignment(HERE, TWO_BOARDS, u, a) == Ok(r)
    ensures Upserts(HERE, TWO_BOARDS, t, xs + [a]) == WriteAssignment(HERE, u, r)
  {
    assert (xs + [a])[..|xs + [a]| - 1] == xs;
  }

  lemma ItemsResolve()
    ensures ResolveItem(TWO_BOARDS, ItemRef("pcBuild", 1)) == Ok(1)
    ensures ResolveItem(TWO_BOARDS, ItemRef("motherboard", 1)) == Ok(2)
    ensures ResolveItem(TWO_BOARDS, ItemRef("motherboard", 2)) == Ok(3)
    ensures ResolveItem(TWO_BOARDS, ItemRef("cpu", 1)) == Ok(4)
    ensures ResolveSlots(TWO_BOARDS, 2, CPU.allocation.value, [0]) == Ok([9])
  {
    assert ItemRef("pcBuild", 1).itype != ItemRef("cpu", 1).itype;
    var a := CPU.allocation.value;
    assert ResolveResourceSlot(TWO_BOARDS, 2, a, 0) == Ok(9);
    assert ResolveSlots(TWO_BOARDS, 2, a, []) == Ok([]);
    assert [0][1..] == [];
    assert [9] + [] == [9];
  }

  const BOARD_ROW := AssignmentRow(1, 1, 1, 2, None, 0, None)
  const CPU_ROW := AssignmentRow(1, 1, 1, 4, Some(9), 0, Some(1))
  const SECOND_BOARD_ROW := AssignmentRow(1, 1, 1, 3, None, 0, None)

  lemma BoardIsWritten(start: Tables) returns (t: Tables)
    requires start.assignments == map[] && start.slots == map[]
    ensures Upserts(HERE, TWO_BOARDS, start, [TYPED_BOARD]) == Ok(t)
    ensures t.assignments == map[1 := BOARD_ROW] && t.slots == map[]
    ensures Boards(HERE, TWO_BOARDS, t, 1) == {1}
  {
    ItemsResolve();
    var r := Resolved(1, BOARD_ROW, Provider(1, None), []);
    assert ResolveAssignment(HERE, TWO_BOARDS, start, TYPED_BOARD) == Ok(r);
    t := WriteAssignment(HERE, start, r).value;
    assert t.slots == map[];
    UpsertsOneMore(start, [], start, TYPED_BOARD, r);
    assert [] + [TYPED_BOARD] == [TYPED_BOARD];
  }

  lemma CpuResolves(t: Tables)
    requires t.assignments == map[1 := BOARD_ROW] && Boards(HERE, TWO_BOARDS, t, 1) == {1}
    ensures ResolveAssignment(HERE, TWO_BOARDS, t, CPU) == Ok(Resolved(2, CPU_ROW, Provider(2, Some(1)), [9]))
  {
    ItemsResolve();
    assert ResourceProvider(HERE, TWO_BOARDS, t, 1, CPU.allocation) == Ok(Provider(2, Some(1)));
  }

  lemma CpuUsesTheBoard(start: Tables) returns (t: Tables)
    requires start.assignments == map[] && start.slots == map[]
    ensures Upserts(HERE, TWO_BOARDS, start, [TYPED_BOARD, CPU]) == Ok(t)
    ensures t.assignments == map[1 := BOARD_ROW, 2 := CPU_ROW]
  {
    var t1 := BoardIsWritten(start);
    CpuResolves(t1);
    var r := Resolved(2, CPU_ROW, Provider(2, Some(1)), [9]);
    UpsertsOneMore(start, [TYPED_BOARD], t1, CPU, r);
    assert [TYPED_BOARD] + [CPU] == [TYPED_BOARD, CPU];
    t := WriteAssignment(HERE, t1, r).value;
  }

  lemma SecondBoardIsWritten(start: Tables) returns (t: Tables)
    requires start.assignments == map[] && start.slots == map[]
    ensures Upserts(HERE, TWO_BOARDS, start, [TYPED_BOARD, CPU, MISTYPED_BOARD]) == Ok(t)
    ensures t.assignments == map[1 := BOARD_ROW, 2 := CPU_ROW, 3 := SECOND_BOARD_ROW]
  {
    var u := CpuUsesTheBoard(start);
    ItemsResolve();
    var r := Resolved(3, SECOND_BOARD_ROW, Provider(1, None), []);
    assert ResolveAssignment(HERE, TWO_BOARDS, u, MISTYPED_BOARD) == Ok(r);
    t := WriteAssignment(HERE, u, r).value;
    UpsertsOneMore(start, [TYPED_BOARD, CPU], u, MISTYPED_BOARD, r);
    assert [TYPED_BOARD, CPU] + [MISTYPED_BOARD] == [TYPED_BOARD, CPU, MISTYPED_BOARD];
  }

  lemma InOrderIs(xs: seq<NewAssignment>, ys: seq<NewAssignment>)
    requires IdsDistinct(xs) && Sorted(ys, Earlier) && ToSet(xs) == ToSet(ys)
    ensures InOrder(xs) == ys
  {
    EarlierIsStrict(xs);
    SortSorted(xs, Earlier);
    assert ToSet(InOrder(xs)) == ToSet(xs);
    SortedIsUnique(InOrder(xs), ys, Earlier);
  }

  /** Three assignments submitted in reverse processing order. */
  lemma ThreeInOrder(a: NewAssignment, b: NewAssignment, c: NewAssignment)
    requires a.id != b.id && b.id != c.id && a.id != c.id && Earlier(a, b) && Earlier(b, c) && Earlier(a, c)
    ensures InOrder([c, b, a]) == [a, b, c]
  {
    assert Sorted([a, b, c], Earlier);
    assert ToSet([c, b, a]) == {a, b, c} == ToSet([a, b, c]);
    InOrderIs([c, b, a], [a, b, c]);
  }

  /** A submission of assignments only. */
  lemma OnlyAssignments(s: Scope, cat: Catalog, t: Tables, sub: Submission, t1: Tables, u: Tables)
    requires s.project in t.projects && sub.placements == [] && sub.connections == [] && sub.members == cat.members
    requires sub.revision.Some? ==> sub.revision.value == t.projects[s.project].revision
    requires t1 == ClearPlacements(s, NextProjectRow(t, s.project, sub.name))
    requires ReplaceAssignments(s, cat, t1, sub.assignments) == Ok(u)
    ensures SetProject(s, cat, t, sub) == Ok(BumpWorkspace(s, DeleteConnections(u, OwnConnections(s, u))))
  {
  }

  /** The mistyped board is processed last although it was submitted first. */
  lemma MistypedIsUpserted(t: Tables) returns (u: Tables)
    requires t.assignments == map[] && t.slots == map[]
    ensures ReplaceAssignments(HERE, TWO_BOARDS, t, MISTYPED.assignments) == Ok(u)
    ensures u.assignments == map[1 := BOARD_ROW, 2 := CPU_ROW, 3 := SECOND_BOARD_ROW]
  {
    var cleared := DeleteAssignments(t, OwnAssignments(HERE, t));
    u := SecondBoardIsWritten(cleared);
    ThreeInOrder(TYPED_BOARD, CPU, MISTYPED_BOARD);
  }

  lemma TwoBoards(t: Tables)
    requires t.assignments == map[1 := BOARD_ROW, 2 := CPU_ROW, 3 := SECOND_BOARD_ROW]
    ensures Boards(HERE, TWO_BOARDS, t, 1) == {1, 3}
  {
  }

  lemma MistypedSucceeds() returns (t: Tables)
    ensures SetProject(HERE, TWO_BOARDS, FRESH_PROJECT, MISTYPED) == Ok(t)
    ensures t.assignments == map[1 := BOARD_ROW, 2 := CPU_ROW, 3 := SECOND_BOARD_ROW]
  {
    var t1 := ClearPlacements(HERE, NextProjectRow(FRESH_PROJECT, 1, "Lab"));
    var u := MistypedIsUpserted(t1);
    OnlyAssignments(HERE, TWO_BOARDS, FRESH_PROJECT, MISTYPED, t1, u);
    t := BumpWorkspace(HERE, DeleteConnections(u, OwnConnections(HERE, u)));
  }

  /** The board that a row names is the one that serves it. */
  lemma NamedBoardServes(s: Scope, cat: Catalog, t: Tables, sub: Submission, j: nat, x: NewAssignment, u: Tables,
                         host: nat, b: nat)
    requires IdsDistinct(sub.assignments) && SetProject(s, cat, t, sub) == Ok(u)
    requires j < |InOrder(sub.assignments)| && InOrder(sub.assignments)[j] == x
    requires ResolveItem(cat, x.host) == Ok(host) && BoardProvided(cat, host, x.allocation)
    requires x.id in u.assignments && u.assignments[x.id].provider == Some(b)
    ensures BoardServes(s, cat, u, x, host, b)
  {
    var h, c := SetProjectProvidesBoards(s, cat, t, sub, j);
  }

  lemma CpuNeedsTheBoard()
    ensures ResolveItem(TWO_BOARDS, CPU.host) == Ok(1) && BoardProvided(TWO_BOARDS, 1, CPU.allocation)
  {
    ItemsResolve();
  }

  lemma CpuComesSecond(sub: Submission)
    requires sub.assignments == [MISTYPED_BOARD, CPU, TYPED_BOARD]
    ensures IdsDistinct(sub.assignments) && |InOrder(sub.assignments)| == 3 && InOrder(sub.assignments)[1] == CPU
  {
    ThreeInOrder(TYPED_BOARD, CPU, MISTYPED_BOARD);
  }

  /**
   A board submitted under another component type is written after the allocations, so a successful
   `setProject` can end with two boards beside an allocation that names one of them.
   */
  lemma MistypedBoardLeavesTwo() returns (t: Tables)
    ensures SetProject(HERE, TWO_BOARDS, FRESH_PROJECT, MISTYPED) == Ok(t)
    ensures CPU in MISTYPED.assignments && BoardServes(HERE, TWO_BOARDS, t, CPU, 1, 1)
    ensures Boards(HERE, TWO_BOARDS, t, 1) == {1, 3}
  {
    t := MistypedSucceeds();
    CpuComesSecond(MISTYPED);
    CpuNeedsTheBoard();
    NamedBoardServes(HERE, TWO_BOARDS, FRESH_PROJECT, MISTYPED, 1, CPU, t, 1, 1);
    TwoBoards(t);
  }
}
