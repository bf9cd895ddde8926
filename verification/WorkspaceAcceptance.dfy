/** Exactly which submissions `setProject` accepts, in terms of the submission and the tables it finds. */
module WorkspaceAcceptance {
  import opened Prelude
  import opened Sorting
  import opened WorkspaceTables
  import opened WorkspaceIsolation
  import opened WorkspaceBoards
  import opened WorkspaceContents
  import opened WorkspaceForeign
  import WorkspaceRevisions

  predicate ItemKnown(cat: Catalog, r: ItemRef) {
    r.id > 0 && r in cat.items
  }

  lemma ResolveItemMeaning(cat: Catalog, r: ItemRef)
    ensures ResolveItem(cat, r).Ok? <==> ItemKnown(cat, r)
    ensures ItemKnown(cat, r) ==> ResolveItem(cat, r) == Ok(cat.items[r])
  {
  }

  /** A slot is found by item, type, group and position; submitted positions count from zero, stored ones from one. */
  lemma ResolveSlotMeaning(cat: Catalog, item: nat, a: Allocation, position: int, slot: nat)
    ensures ResolveResourceSlot(cat, item, a, position) == Ok(slot) <==>
      && position >= 0 && (a.group.Some? ==> a.group.value > 0)
      && SlotKey(item, a.resourceType, a.group, position + 1) in cat.slots
      && cat.slots[SlotKey(item, a.resourceType, a.group, position + 1)] == slot
  {
  }

  // ----- placements

  predicate PointKnown(p: Point) {
    p.x.Some? && p.y.Some?
  }

  /** Known items at finite coordinates, each placed once, none of them placed in the workspace by another project. */
  ghost predicate PlacementsAccepted(s: Scope, cat: Catalog, t: Tables, ps: seq<NewPlacement>) {
    && (forall i :: 0 <= i < |ps| ==> ItemKnown(cat, ps[i].item) && PointKnown(ps[i].at))
    && (forall i, j :: 0 <= i < j < |ps| ==> cat.items[ps[i].item] != cat.items[ps[j].item])
    && (forall i :: 0 <= i < |ps| ==>
          var key := PlacementKey(s.workspace, cat.items[ps[i].item]);
          key in t.placements ==> t.placements[key].project == s.project)
  }

  function PlacedKey(s: Scope, cat: Catalog, p: NewPlacement): PlacementKey
    requires ItemKnown(cat, p.item)
  {
    PlacementKey(s.workspace, cat.items[p.item])
  }

  /** The same, for inserting into given tables. */
  ghost predicate PlacementsFit(s: Scope, cat: Catalog, t: Tables, ps: seq<NewPlacement>) {
    && (forall i :: 0 <= i < |ps| ==> ItemKnown(cat, ps[i].item) && PointKnown(ps[i].at))
    && (forall i :: 0 <= i < |ps| ==> PlacedKey(s, cat, ps[i]) !in t.placements)
    && (forall i, j :: 0 <= i < j < |ps| ==> PlacedKey(s, cat, ps[i]) != PlacedKey(s, cat, ps[j]))
  }

  function InsertedPlacementRows(s: Scope, cat: Catalog, t: Tables, ps: seq<NewPlacement>): Result<Tables> {
    Fold(t, ps, (u, p) => InsertPlacement(s, cat, u, p))
  }

  lemma InsertPlacementAccepts(s: Scope, cat: Catalog, t: Tables, p: NewPlacement)
    ensures var r := InsertPlacement(s, cat, t, p);
      && (r.Ok? <==> ItemKnown(cat, p.item) && PointKnown(p.at) && PlacedKey(s, cat, p) !in t.placements)
      && (r.Ok? ==> r.value.placements.Keys == t.placements.Keys + {PlacedKey(s, cat, p)})
  {
  }

  lemma PlacementsFitInTwo(s: Scope, cat: Catalog, t: Tables, ps: seq<NewPlacement>)
    requires ps != []
    ensures var n := |ps| - 1;
      PlacementsFit(s, cat, t, ps) <==>
        && PlacementsFit(s, cat, t, ps[..n]) && ItemKnown(cat, ps[n].item) && PointKnown(ps[n].at)
        && PlacedKey(s, cat, ps[n]) !in t.placements
        && forall i :: 0 <= i < n ==> PlacedKey(s, cat, ps[i]) != PlacedKey(s, cat, ps[n])
  {
    var n := |ps| - 1;
    assert forall i :: 0 <= i < n ==> ps[..n][i] == ps[i];
  }

  lemma PlacementsStep(s: Scope, cat: Catalog, t: Tables, ps: seq<NewPlacement>)
    requires ps != []
    ensures var front := InsertedPlacementRows(s, cat, t, ps[..|ps| - 1]);
      InsertedPlacementRows(s, cat, t, ps) ==
        if front.Ok? then InsertPlacement(s, cat, front.value, ps[|ps| - 1]) else Thrown(front.error)
  {
  }

  ghost predicate PlacementKeysAre(s: Scope, cat: Catalog, t: Tables, u: Tables, ps: seq<NewPlacement>) {
    && (forall i :: 0 <= i < |ps| ==> ItemKnown(cat, ps[i].item))
    && (forall k :: k in u.placements <==>
          k in t.placements || exists i :: 0 <= i < |ps| && PlacedKey(s, cat, ps[i]) == k)
  }

  lemma PlacementKeysMore(s: Scope, cat: Catalog, t: Tables, u: Tables, ps: seq<NewPlacement>, v: Tables)
    requires ps != [] && PlacementKeysAre(s, cat, t, u, ps[..|ps| - 1]) && ItemKnown(cat, ps[|ps| - 1].item)
    requires v.placements.Keys == u.placements.Keys + {PlacedKey(s, cat, ps[|ps| - 1])}
    ensures PlacementKeysAre(s, cat, t, v, ps)
  {
    assert forall i :: 0 <= i < |ps| - 1 ==> ps[..|ps| - 1][i] == ps[i];
  }

  lemma {:induction false} InsertsAcceptPlacements(s: Scope, cat: Catalog, t: Tables, ps: seq<NewPlacement>)
    ensures var r := InsertedPlacementRows(s, cat, t, ps);
      (r.Ok? <==> PlacementsFit(s, cat, t, ps)) && (r.Ok? ==> PlacementKeysAre(s, cat, t, r.value, ps))
  {
    if ps != [] {
      var n := |ps| - 1;
      InsertsAcceptPlacements(s, cat, t, ps[..n]);
      PlacementsStep(s, cat, t, ps);
      PlacementsFitInTwo(s, cat, t, ps);
      var front := InsertedPlacementRows(s, cat, t, ps[..n]);
      if front.Ok? {
        InsertPlacementAccepts(s, cat, front.value, ps[n]);
        assert forall i :: 0 <= i < n ==> ps[..n][i] == ps[i];
        if InsertPlacement(s, cat, front.value, ps[n]).Ok? {
          PlacementKeysMore(s, cat, t, front.value, ps, InsertPlacement(s, cat, front.value, ps[n]).value);
        }
      }
    }
  }

  lemma ReplaceAcceptsPlacements(s: Scope, cat: Catalog, t: Tables, ps: seq<NewPlacement>)
    ensures ReplacePlacements(s, cat, t, ps).Ok? <==> PlacementsAccepted(s, cat, t, ps)
  {
    InsertsAcceptPlacements(s, cat, ClearPlacements(s, t), ps);
  }

  // ----- connections

  /** A known port, on the hosted item if there is one, and a known face of it if one is named. */
  predicate EndKnown(cat: Catalog, e: NewEndpoint) {
    var owner := if e.hosted.Some? then e.hosted.value else e.item;
    && owner.id > 0 && e.port > 0 && PortKey(owner, e.port) in cat.ports
    && (e.face.Some? ==> e.face.value > 0 && FaceKey(cat.ports[PortKey(owner, e.port)], e.face.value) in cat.faces)
  }

  predicate ConnectionKnown(cat: Catalog, c: NewConnection) {
    && c.id > 0 && EndKnown(cat, c.from) && EndKnown(cat, c.to)
    && (c.speed.Some? ==> c.speed.value >= 0)
    && (c.route.Some? ==> forall i :: 0 <= i < |c.route.value.bends| ==> PointKnown(c.route.value.bends[i]))
  }

  /** The id belongs to a connection outside the scope. */
  predicate ForeignConnection(s: Scope, t: Tables, id: int) {
    && id in t.connections
    && (t.connections[id].project != s.project || t.connections[id].workspace != s.workspace)
  }

  ghost predicate ConnectionsAccepted(s: Scope, cat: Catalog, t: Tables, cs: seq<NewConnection>) {
    && (forall i :: 0 <= i < |cs| ==> ConnectionKnown(cat, cs[i]) && !ForeignConnection(s, t, cs[i].id))
    && (forall i, j :: 0 <= i < j < |cs| ==> cs[i].id != cs[j].id)
  }

  ghost predicate ConnectionsFit(cat: Catalog, t: Tables, cs: seq<NewConnection>) {
    && (forall i :: 0 <= i < |cs| ==> ConnectionKnown(cat, cs[i]) && cs[i].id !in t.connections)
    && (forall i, j :: 0 <= i < j < |cs| ==> cs[i].id != cs[j].id)
  }

  lemma ResolvePortMeaning(cat: Catalog, e: NewEndpoint)
    ensures ResolvePort(cat, e).Ok? <==> EndKnown(cat, e)
  {
  }

  lemma InsertConnectionAccepts(s: Scope, cat: Catalog, t: Tables, c: NewConnection)
    ensures var r := InsertConnection(s, cat, t, c);
      && (r.Ok? <==> ConnectionKnown(cat, c) && c.id !in t.connections)
      && (r.Ok? ==> r.value.connections.Keys == t.connections.Keys + {c.id})
  {
    ResolvePortMeaning(cat, c.from);
    ResolvePortMeaning(cat, c.to);
    if c.route.Some? {
      var bends := c.route.value.bends;
      assert forall i :: 0 <= i < |bends| ==> (Coordinates(bends[i]).Ok? <==> PointKnown(bends[i]));
    }
  }

  lemma ConnectionsFitInTwo(cat: Catalog, t: Tables, cs: seq<NewConnection>)
    requires cs != []
    ensures var n := |cs| - 1;
      ConnectionsFit(cat, t, cs) <==>
        && ConnectionsFit(cat, t, cs[..n]) && ConnectionKnown(cat, cs[n]) && cs[n].id !in t.connections
        && forall i :: 0 <= i < n ==> cs[i].id != cs[n].id
  {
    var n := |cs| - 1;
    assert forall i :: 0 <= i < n ==> cs[..n][i] == cs[i];
  }

  lemma ConnectionsStep(s: Scope, cat: Catalog, t: Tables, cs: seq<NewConnection>)
    requires cs != []
    ensures var front := Inserts(s, cat, t, cs[..|cs| - 1]);
      Inserts(s, cat, t, cs) ==
        if front.Ok? then InsertConnection(s, cat, front.value, cs[|cs| - 1]) else Thrown(front.error)
  {
  }

  ghost predicate ConnectionIdsAre(t: Tables, u: Tables, cs: seq<NewConnection>) {
    forall id :: id in u.connections <==> id in t.connections || exists i :: 0 <= i < |cs| && cs[i].id == id
  }

  lemma ConnectionIdsMore(t: Tables, u: Tables, cs: seq<NewConnection>, v: Tables)
    requires cs != [] && ConnectionIdsAre(t, u, cs[..|cs| - 1]) && cs[|cs| - 1].id >= 0
    requires v.connections.Keys == u.connections.Keys + {cs[|cs| - 1].id as nat}
    ensures ConnectionIdsAre(t, v, cs)
  {
    assert forall i :: 0 <= i < |cs| - 1 ==> cs[..|cs| - 1][i] == cs[i];
  }

  lemma {:induction false} InsertsAcceptConnections(s: Scope, cat: Catalog, t: Tables, cs: seq<NewConnection>)
    ensures var r := Inserts(s, cat, t, cs);
      (r.Ok? <==> ConnectionsFit(cat, t, cs)) && (r.Ok? ==> ConnectionIdsAre(t, r.value, cs))
  {
    if cs != [] {
      var n := |cs| - 1;
      InsertsAcceptConnections(s, cat, t, cs[..n]);
      ConnectionsStep(s, cat, t, cs);
      ConnectionsFitInTwo(cat, t, cs);
      var front := Inserts(s, cat, t, cs[..n]);
      if front.Ok? {
        InsertConnectionAccepts(s, cat, front.value, cs[n]);
        assert forall i :: 0 <= i < n ==> cs[..n][i] == cs[i];
        if InsertConnection(s, cat, front.value, cs[n]).Ok? {
          ConnectionIdsMore(t, front.value, cs, InsertConnection(s, cat, front.value, cs[n]).value);
        }
      }
    }
  }

  lemma ReplaceAcceptsConnections(s: Scope, cat: Catalog, t: Tables, cs: seq<NewConnection>)
    ensures ReplaceConnections(s, cat, t, cs).Ok? <==> ConnectionsAccepted(s, cat, t, cs)
  {
    var cleared := DeleteConnections(t, OwnConnections(s, t));
    InsertsAcceptConnections(s, cat, cleared, cs);
    assert forall id :: id in cleared.connections <==> ForeignConnection(s, t, id);
  }

  // ----- assignments

  /** The submitted assignment puts a motherboard into the item. */
  predicate PutsBoard(cat: Catalog, a: NewAssignment, host: nat) {
    && ItemKnown(cat, a.host) && ItemKnown(cat, a.item)
    && cat.items[a.host] == host && cat.items[a.item] in cat.motherboards
  }

  /**
   Assignment `b` puts a motherboard into the item once the first `j` records are written: the last of them
   with that id decides, and without one whether it was among the boards at the start.
   */
  predicate BoardBefore(cat: Catalog, start: set<nat>, xs: seq<NewAssignment>, j: nat, host: nat, b: int)
    requires j <= |xs|
  {
    if j == 0 then b in start
    else if xs[j - 1].id == b then PutsBoard(cat, xs[j - 1], host)
    else BoardBefore(cat, start, xs, j - 1, host, b)
  }

  /** The item that assignment `b` assigns once the first `j` records are written. */
  function ComponentBefore(cat: Catalog, start: map<nat, AssignmentRow>, xs: seq<NewAssignment>, j: nat, b: int): nat
    requires j <= |xs|
  {
    if j == 0 then (if b in start then start[b].component else 0)
    else if xs[j - 1].id == b && xs[j - 1].item in cat.items then cat.items[xs[j - 1].item]
    else ComponentBefore(cat, start, xs, j - 1, b)
  }

  /** PC Build resources of a named type come from the motherboard, except board, case and power themselves. */
  predicate NeedsBoard(cat: Catalog, host: nat, a: Allocation) {
    && host in cat.pcBuilds
    && a.resourceType != "" && a.resourceType != "motherboard" && a.resourceType != "case" && a.resourceType != "power"
  }

  /** Every position, counted from zero, is a slot of the item, counted from one. */
  predicate SlotsKnown(cat: Catalog, item: nat, a: Allocation) {
    forall i :: 0 <= i < |a.positions| ==>
      && a.positions[i] >= 0 && (a.group.Some? ==> a.group.value > 0)
      && SlotKey(item, a.resourceType, a.group, a.positions[i] + 1) in cat.slots
  }

  /** Assignment `b` is the only motherboard of the item when record `j` is written. */
  ghost predicate OnlyBoard(cat: Catalog, start: set<nat>, xs: seq<NewAssignment>, j: nat, host: nat, b: int)
    requires j <= |xs|
  {
    BoardBefore(cat, start, xs, j, host, b) && forall c: int :: BoardBefore(cat, start, xs, j, host, c) ==> c == b
  }

  /** It is the only one, and it has the slots. */
  ghost predicate OnlyBoardHasSlots(cat: Catalog, boards: set<nat>, rows: map<nat, AssignmentRow>,
                                    xs: seq<NewAssignment>, j: nat, host: nat, a: Allocation, b: int)
    requires j <= |xs|
  {
    && OnlyBoard(cat, boards, xs, j, host, b)
    && SlotsKnown(cat, ComponentBefore(cat, rows, xs, j, b), a)
  }

  /** Known items, and slots of the host, or of its only motherboard at that point. */
  ghost predicate AssignmentAccepted(s: Scope, cat: Catalog, t: Tables, xs: seq<NewAssignment>, j: nat)
    requires j < |xs|
  {
    && xs[j].id > 0 && ItemKnown(cat, xs[j].host) && ItemKnown(cat, xs[j].item) && !Foreign(s, t, xs[j].id)
    && (xs[j].allocation.Some? ==>
          var host, a := cat.items[xs[j].host], xs[j].allocation.value;
          if NeedsBoard(cat, host, a) then
            exists b :: OnlyBoardHasSlots(cat, Boards(s, cat, t, host), t.assignments, xs, j, host, a, b)
          else SlotsKnown(cat, host, a))
  }

  lemma SlotsMeaning(cat: Catalog, item: nat, a: Allocation)
    ensures ResolveSlots(cat, item, a, a.positions).Ok? <==> SlotsKnown(cat, item, a)
  {
    assert forall i :: 0 <= i < |a.positions| ==>
      (ResolveResourceSlot(cat, item, a, a.positions[i]).Ok? <==>
        a.positions[i] >= 0 && (a.group.Some? ==> a.group.value > 0)
        && SlotKey(item, a.resourceType, a.group, a.positions[i] + 1) in cat.slots);
  }

  /** One upsert makes its own id a board or no board of the item, and leaves the others. */
  lemma UpsertBoards(s: Scope, cat: Catalog, t: Tables, a: NewAssignment, host: nat)
    requires UpsertAssignment(s, cat, t, a).Ok?
    ensures var u := UpsertAssignment(s, cat, t, a).value;
      && a.id in u.assignments && ItemKnown(cat, a.item) && u.assignments[a.id].component == cat.items[a.item]
      && (forall b :: b != a.id ==> (b in u.assignments <==> b in t.assignments)
                                    && (b in t.assignments ==> u.assignments[b] == t.assignments[b]))
      && (a.id in Boards(s, cat, u, host) <==> PutsBoard(cat, a, host))
      && (forall b :: b != a.id ==> (b in Boards(s, cat, u, host) <==> b in Boards(s, cat, t, host)))
  {
  }

  lemma {:induction false} FrontBoards(cat: Catalog, start: set<nat>, rows: map<nat, AssignmentRow>,
                                       xs: seq<NewAssignment>, n: nat, j: nat, host: nat, b: int)
    requires j <= n <= |xs|
    ensures BoardBefore(cat, start, xs[..n], j, host, b) == BoardBefore(cat, start, xs, j, host, b)
    ensures ComponentBefore(cat, rows, xs[..n], j, b) == ComponentBefore(cat, rows, xs, j, b)
  {
    if j > 0 {
      FrontBoards(cat, start, rows, xs, n, j - 1, host, b);
    }
  }

  /** After a run of upserts the boards and their items are what the records say. */
  lemma {:induction false} BoardsOfRun(s: Scope, cat: Catalog, t: Tables, xs: seq<NewAssignment>, host: nat, b: int)
    requires Upserts(s, cat, t, xs).Ok?
    ensures var u := Upserts(s, cat, t, xs).value;
      && (b in Boards(s, cat, u, host) <==> BoardBefore(cat, Boards(s, cat, t, host), xs, |xs|, host, b))
      && (b in u.assignments ==> u.assignments[b].component == ComponentBefore(cat, t.assignments, xs, |xs|, b))
  {
    if xs != [] {
      var n := |xs| - 1;
      UpsertsStep(s, cat, t, xs);
      BoardsOfRun(s, cat, t, xs[..n], host, b);
      FrontBoards(cat, Boards(s, cat, t, host), t.assignments, xs, n, n, host, b);
      UpsertBoards(s, cat, Upserts(s, cat, t, xs[..n]).value, xs[n], host);
    }
  }

  /** What `ResourceProvider` promises for a resource that needs a board. */
  lemma BoardProvider(s: Scope, cat: Catalog, u: Tables, host: nat, a: Allocation)
    requires NeedsBoard(cat, host, a)
    ensures var p := ResourceProvider(s, cat, u, host, Some(a));
      && (p.Ok? <==> exists b :: Boards(s, cat, u, host) == {b})
      && (forall b :: Boards(s, cat, u, host) == {b} ==>
            p.Ok? && b in u.assignments && p.value.item == u.assignments[b].component)
  {
    var p, boards := ResourceProvider(s, cat, u, host, Some(a)), Boards(s, cat, u, host);
    if p.Ok? {
      assert boards == {p.value.assignment.value};
    }
    forall b | boards == {b} ensures p.Ok? && b in u.assignments && p.value.item == u.assignments[b].component {
      assert b in boards && |boards| == 1;
      assert p.value.assignment.value in {b};
    }
  }

  lemma BoardAccepts(s: Scope, cat: Catalog, t: Tables, xs: seq<NewAssignment>, host: nat, a: Allocation)
    requires Upserts(s, cat, t, xs).Ok? && NeedsBoard(cat, host, a)
    ensures var p := ResourceProvider(s, cat, Upserts(s, cat, t, xs).value, host, Some(a));
      (p.Ok? && SlotsKnown(cat, p.value.item, a)) <==>
        exists b :: OnlyBoardHasSlots(cat, Boards(s, cat, t, host), t.assignments, xs, |xs|, host, a, b)
  {
    var u := Upserts(s, cat, t, xs).value;
    var boards, start := Boards(s, cat, u, host), Boards(s, cat, t, host);
    BoardProvider(s, cat, u, host, a);
    forall c: int
      ensures c in boards <==> BoardBefore(cat, start, xs, |xs|, host, c)
      ensures c in u.assignments ==> u.assignments[c].component == ComponentBefore(cat, t.assignments, xs, |xs|, c)
    {
      BoardsOfRun(s, cat, t, xs, host, c);
    }
    forall b: int ensures OnlyBoard(cat, start, xs, |xs|, host, b) <==> b >= 0 && boards == {b as nat} {
      SingleBoard(cat, boards, start, xs, host, b);
    }
    var p := ResourceProvider(s, cat, u, host, Some(a));
    if p.Ok? {
      var b :| Boards(s, cat, u, host) == {b};
      assert OnlyBoard(cat, start, xs, |xs|, host, b) && b in u.assignments;
      assert p.value.item == ComponentBefore(cat, t.assignments, xs, |xs|, b);
      assert SlotsKnown(cat, p.value.item, a) <==>
        OnlyBoardHasSlots(cat, start, t.assignments, xs, |xs|, host, a, b);
      assert forall c :: OnlyBoardHasSlots(cat, start, t.assignments, xs, |xs|, host, a, c) ==> c == b;
    } else {
      assert forall b: nat :: boards != {b};
    }
  }

  /** One board in the tables is one board by the records. */
  lemma SingleBoard(cat: Catalog, boards: set<nat>, start: set<nat>, xs: seq<NewAssignment>, host: nat, b: int)
    requires forall c: int :: c in boards <==> BoardBefore(cat, start, xs, |xs|, host, c)
    ensures OnlyBoard(cat, start, xs, |xs|, host, b) <==> b >= 0 && boards == {b as nat}
  {
    if OnlyBoard(cat, start, xs, |xs|, host, b) {
      assert b in boards;
      assert forall c: nat :: c in boards ==> c == b;
    }
  }

  lemma FrontOnlyBoard(cat: Catalog, boards: set<nat>, rows: map<nat, AssignmentRow>, xs: seq<NewAssignment>, n: nat,
                       j: nat, host: nat, a: Allocation)
    requires j <= n <= |xs|
    ensures (exists b :: OnlyBoardHasSlots(cat, boards, rows, xs[..n], j, host, a, b))
       <==> (exists b :: OnlyBoardHasSlots(cat, boards, rows, xs, j, host, a, b))
  {
    forall b: int
      ensures BoardBefore(cat, boards, xs[..n], j, host, b) == BoardBefore(cat, boards, xs, j, host, b)
      ensures ComponentBefore(cat, rows, xs[..n], j, b) == ComponentBefore(cat, rows, xs, j, b)
    {
      FrontBoards(cat, boards, rows, xs, n, j, host, b);
    }
    forall b: int
      ensures OnlyBoardHasSlots(cat, boards, rows, xs[..n], j, host, a, b)
         <==> OnlyBoardHasSlots(cat, boards, rows, xs, j, host, a, b)
    {
    }
  }

  lemma AcceptedInFront(s: Scope, cat: Catalog, t: Tables, xs: seq<NewAssignment>, n: nat, j: nat)
    requires j < n <= |xs|
    ensures AssignmentAccepted(s, cat, t, xs[..n], j) <==> AssignmentAccepted(s, cat, t, xs, j)
  {
    if ItemKnown(cat, xs[j].host) && xs[j].allocation.Some? {
      var host := cat.items[xs[j].host];
      FrontOnlyBoard(cat, Boards(s, cat, t, host), t.assignments, xs, n, j, host, xs[j].allocation.value);
    }
  }

  /** Whether the next record resolves, in terms of the records in front of it. */
  lemma NextResolves(s: Scope, cat: Catalog, t: Tables, front: seq<NewAssignment>, a: NewAssignment)
    requires Upserts(s, cat, t, front).Ok? && a.id > 0 && ItemKnown(cat, a.host) && ItemKnown(cat, a.item)
    ensures var host := cat.items[a.host];
      ResolveAssignment(s, cat, Upserts(s, cat, t, front).value, a).Ok? <==>
        (a.allocation.Some? ==>
           if NeedsBoard(cat, host, a.allocation.value) then
             exists b :: OnlyBoardHasSlots(cat, Boards(s, cat, t, host), t.assignments, front, |front|, host,
                                           a.allocation.value, b)
           else SlotsKnown(cat, host, a.allocation.value))
  {
    var host := cat.items[a.host];
    ResolveItemMeaning(cat, a.host);
    ResolveItemMeaning(cat, a.item);
    if a.allocation.Some? {
      var allocation := a.allocation.value;
      var provider := ResourceProvider(s, cat, Upserts(s, cat, t, front).value, host, a.allocation);
      if NeedsBoard(cat, host, allocation) {
        BoardAccepts(s, cat, t, front, host, allocation);
      }
      if provider.Ok? {
        SlotsMeaning(cat, provider.value.item, allocation);
      }
    }
  }

  lemma {:induction false} ForeignStays(s: Scope, cat: Catalog, t: Tables, xs: seq<NewAssignment>, id: int)
    requires Upserts(s, cat, t, xs).Ok?
    ensures Foreign(s, Upserts(s, cat, t, xs).value, id) <==> Foreign(s, t, id)
  {
    if xs != [] {
      UpsertsStep(s, cat, t, xs);
      ForeignStays(s, cat, t, xs[..|xs| - 1], id);
    }
  }

  lemma WriteAccepts(s: Scope, cat: Catalog, t: Tables, a: NewAssignment)
    ensures UpsertAssignment(s, cat, t, a).Ok? <==> ResolveAssignment(s, cat, t, a).Ok? && !Foreign(s, t, a.id)
    ensures ResolveAssignment(s, cat, t, a).Ok? ==> a.id > 0 && ItemKnown(cat, a.host) && ItemKnown(cat, a.item)
  {
  }

  lemma LastAccepted(s: Scope, cat: Catalog, t: Tables, xs: seq<NewAssignment>)
    requires xs != [] && Upserts(s, cat, t, xs[..|xs| - 1]).Ok?
    ensures var n := |xs| - 1;
      UpsertAssignment(s, cat, Upserts(s, cat, t, xs[..n]).value, xs[n]).Ok? <==> AssignmentAccepted(s, cat, t, xs, n)
  {
    var n := |xs| - 1;
    var a := xs[n];
    WriteAccepts(s, cat, Upserts(s, cat, t, xs[..n]).value, a);
    ForeignStays(s, cat, t, xs[..n], a.id);
    if a.id > 0 && ItemKnown(cat, a.host) && ItemKnown(cat, a.item) {
      NextResolves(s, cat, t, xs[..n], a);
      if a.allocation.Some? {
        var host := cat.items[a.host];
        FrontOnlyBoard(cat, Boards(s, cat, t, host), t.assignments, xs, n, n, host, a.allocation.value);
      }
    }
  }

  ghost predicate AllAccepted(s: Scope, cat: Catalog, t: Tables, xs: seq<NewAssignment>, n: nat)
    requires n <= |xs|
  {
    forall j :: 0 <= j < n ==> AssignmentAccepted(s, cat, t, xs, j)
  }

  lemma FrontOfFront(s: Scope, cat: Catalog, t: Tables, xs: seq<NewAssignment>, n: nat)
    requires n <= |xs|
    ensures AllAccepted(s, cat, t, xs[..n], n) <==> AllAccepted(s, cat, t, xs, n)
  {
    forall j | 0 <= j < n ensures AssignmentAccepted(s, cat, t, xs[..n], j) <==> AssignmentAccepted(s, cat, t, xs, j) {
      AcceptedInFront(s, cat, t, xs, n, j);
    }
  }

  lemma UpsertsDecomposed(s: Scope, cat: Catalog, t: Tables, xs: seq<NewAssignment>)
    requires xs != []
    ensures var front := Upserts(s, cat, t, xs[..|xs| - 1]);
      Upserts(s, cat, t, xs).Ok? <==> front.Ok? && UpsertAssignment(s, cat, front.value, xs[|xs| - 1]).Ok?
  {
  }

  /** A run of upserts succeeds exactly when each record is accepted at its turn. */
  lemma {:induction false} UpsertsAccept(s: Scope, cat: Catalog, t: Tables, xs: seq<NewAssignment>)
    ensures Upserts(s, cat, t, xs).Ok? <==> AllAccepted(s, cat, t, xs, |xs|)
  {
    if xs != [] {
      var n := |xs| - 1;
      UpsertsAccept(s, cat, t, xs[..n]);
      FrontOfFront(s, cat, t, xs, n);
      UpsertsDecomposed(s, cat, t, xs);
      if Upserts(s, cat, t, xs[..n]).Ok? {
        LastAccepted(s, cat, t, xs);
      }
    }
  }

  /** The tables without the assignments of the workspace. */
  function Cleared(s: Scope, t: Tables): Tables {
    t.(assignments := map id | id in t.assignments && Foreign(s, t, id) :: t.assignments[id])
  }

  /** In processing order, and as if the workspace had no assignments yet. */
  ghost predicate AssignmentsAccepted(s: Scope, cat: Catalog, t: Tables, xs: seq<NewAssignment>) {
    AllAccepted(s, cat, Cleared(s, t), InOrder(xs), |InOrder(xs)|)
  }

  lemma AllAcceptedIsLocal(s: Scope, cat: Catalog, t: Tables, u: Tables, xs: seq<NewAssignment>)
    requires t.assignments == u.assignments
    ensures AllAccepted(s, cat, t, xs, |xs|) <==> AllAccepted(s, cat, u, xs, |xs|)
  {
    forall j | 0 <= j < |xs| ensures AssignmentAccepted(s, cat, t, xs, j) <==> AssignmentAccepted(s, cat, u, xs, j) {
      AcceptedIsLocal(s, cat, t, u, xs, j);
    }
  }

  lemma AcceptedIsLocal(s: Scope, cat: Catalog, t: Tables, u: Tables, xs: seq<NewAssignment>, j: nat)
    requires t.assignments == u.assignments && j < |xs|
    ensures AssignmentAccepted(s, cat, t, xs, j) <==> AssignmentAccepted(s, cat, u, xs, j)
  {
    if ItemKnown(cat, xs[j].host) {
      assert Boards(s, cat, t, cat.items[xs[j].host]) == Boards(s, cat, u, cat.items[xs[j].host]);
    }
  }

  lemma ReplaceAcceptsAssignments(s: Scope, cat: Catalog, t: Tables, xs: seq<NewAssignment>)
    ensures ReplaceAssignments(s, cat, t, xs).Ok? <==> AssignmentsAccepted(s, cat, t, xs)
  {
    var deleted := DeleteAssignments(t, OwnAssignments(s, t));
    assert deleted.assignments == Cleared(s, t).assignments;
    UpsertsAccept(s, cat, deleted, InOrder(xs));
    AllAcceptedIsLocal(s, cat, deleted, Cleared(s, t), InOrder(xs));
  }

  // ----- the whole submission

  /** What the submission has to be, said of the tables as they are before. */
  ghost predicate Acceptable(s: Scope, cat: Catalog, t: Tables, sub: Submission) {
    && s.project in t.projects
    && (sub.revision.Some? ==> sub.revision.value == t.projects[s.project].revision)
    && sub.members == cat.members
    && PlacementsAccepted(s, cat, t, sub.placements)
    && AssignmentsAccepted(s, cat, t, sub.assignments)
    && ConnectionsAccepted(s, cat, t, sub.connections)
  }

  lemma {:induction false} PlacementsKeepConnections(s: Scope, cat: Catalog, t: Tables, ps: seq<NewPlacement>)
    requires InsertedPlacementRows(s, cat, t, ps).Ok?
    ensures InsertedPlacementRows(s, cat, t, ps).value.connections == t.connections
  {
    if ps != [] {
      PlacementsKeepConnections(s, cat, t, ps[..|ps| - 1]);
    }
  }

  lemma {:induction false} UpsertsKeepConnections(s: Scope, cat: Catalog, t: Tables, xs: seq<NewAssignment>)
    requires Upserts(s, cat, t, xs).Ok?
    ensures Upserts(s, cat, t, xs).value.connections == t.connections
  {
    if xs != [] {
      UpsertsStep(s, cat, t, xs);
      UpsertsKeepConnections(s, cat, t, xs[..|xs| - 1]);
    }
  }

  lemma PlacementStageKeeps(s: Scope, cat: Catalog, t0: Tables, ps: seq<NewPlacement>, t1: Tables)
    requires ReplacePlacements(s, cat, t0, ps) == Ok(t1)
    ensures t1.assignments == t0.assignments && t1.connections == t0.connections
  {
    PlacementsKeepAssignments(s, cat, ClearPlacements(s, t0), ps);
    PlacementsKeepConnections(s, cat, ClearPlacements(s, t0), ps);
  }

  lemma AssignmentStageKeeps(s: Scope, cat: Catalog, t1: Tables, xs: seq<NewAssignment>, t2: Tables)
    requires ReplaceAssignments(s, cat, t1, xs) == Ok(t2)
    ensures t2.connections == t1.connections
  {
    UpsertsKeepConnections(s, cat, DeleteAssignments(t1, OwnAssignments(s, t1)), InOrder(xs));
  }

  /** Whether assignments and connections are accepted depends on the tables of those alone. */
  lemma AcceptanceIsLocal(s: Scope, cat: Catalog, t: Tables, u: Tables, sub: Submission)
    ensures u.assignments == t.assignments ==>
      (AssignmentsAccepted(s, cat, u, sub.assignments) <==> AssignmentsAccepted(s, cat, t, sub.assignments))
    ensures u.connections == t.connections ==>
      (ConnectionsAccepted(s, cat, u, sub.connections) <==> ConnectionsAccepted(s, cat, t, sub.connections))
  {
    if u.assignments == t.assignments {
      assert Cleared(s, u).assignments == Cleared(s, t).assignments;
      AllAcceptedIsLocal(s, cat, Cleared(s, u), Cleared(s, t), InOrder(sub.assignments));
    }
  }

  lemma LaterStagesAccept(s: Scope, cat: Catalog, t: Tables, t1: Tables, sub: Submission)
    requires t1.assignments == t.assignments && t1.connections == t.connections
    ensures var r2 := ReplaceAssignments(s, cat, t1, sub.assignments);
      (r2.Ok? && ReplaceConnections(s, cat, r2.value, sub.connections).Ok?) <==>
        AssignmentsAccepted(s, cat, t, sub.assignments) && ConnectionsAccepted(s, cat, t, sub.connections)
  {
    AcceptanceIsLocal(s, cat, t, t1, sub);
    ReplaceAcceptsAssignments(s, cat, t1, sub.assignments);
    var r2 := ReplaceAssignments(s, cat, t1, sub.assignments);
    if r2.Ok? {
      AssignmentStageKeeps(s, cat, t1, sub.assignments, r2.value);
      AcceptanceIsLocal(s, cat, t, r2.value, sub);
      ReplaceAcceptsConnections(s, cat, r2.value, sub.connections);
    }
  }

  lemma StagesAccept(s: Scope, cat: Catalog, t: Tables, sub: Submission)
    requires s.project in t.projects
    ensures ReplaceWorkspace(s, cat, t, sub).Ok? <==>
      && PlacementsAccepted(s, cat, t, sub.placements)
      && AssignmentsAccepted(s, cat, t, sub.assignments)
      && ConnectionsAccepted(s, cat, t, sub.connections)
  {
    var t0 := NextProjectRow(t, s.project, sub.name);
    ReplaceAcceptsPlacements(s, cat, t0, sub.placements);
    assert PlacementsAccepted(s, cat, t0, sub.placements) <==> PlacementsAccepted(s, cat, t, sub.placements);
    var r1 := ReplacePlacements(s, cat, t0, sub.placements);
    if r1.Ok? {
      PlacementStageKeeps(s, cat, t0, sub.placements, r1.value);
      LaterStagesAccept(s, cat, t, r1.value, sub);
    }
  }

  /**
   `setProject` succeeds exactly for acceptable submissions: the project exists, the submitted revision is
   the current one if there is one, the inventory is unchanged, and every record resolves and is not foreign.
   */
  lemma SetProjectAcceptsExactly(s: Scope, cat: Catalog, t: Tables, sub: Submission)
    ensures SetProject(s, cat, t, sub).Ok? <==> Acceptable(s, cat, t, sub)
  {
    if s.project in t.projects {
      StagesAccept(s, cat, t, sub);
    }
  }

  /** A stale submission is rejected and changes nothing, whatever it contains. */
  lemma StaleSubmissionIsRejected(s: Scope, cat: Catalog, t: Tables, sub: Submission)
    requires s.project in t.projects && sub.revision.Some? && sub.revision.value != t.projects[s.project].revision
    ensures SetProject(s, cat, t, sub) == Thrown("revision-conflict") && After(s, cat, t, Replace(sub)) == t
  {
  }

  /** An engine patch succeeds exactly on its base revision, with the next revision, when its leaves apply. */
  lemma EnginePatchAcceptsExactly(s: Scope, cat: Catalog, t: Tables, base: nat, revision: nat, p: Patch)
    ensures ApplyEnginePatch(s, cat, t, base, revision, p).Ok? <==>
      && s.project in t.projects && t.projects[s.project].revision == base && revision == base + 1
      && ApplyPatch(s, cat, t, p).Ok?
  {
    if ApplyPatch(s, cat, t, p).Ok? {
      WorkspaceRevisions.PatchKeepsRevisions(s, cat, t, p);
    }
  }
}
