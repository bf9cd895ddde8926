/** The normal form of engine topologies and the equality it decides. */
module Topology {
  import opened Prelude
  import opened Sorting

  datatype Endpoint = Endpoint(id: int, side: string)

  datatype Port = Port(id: int, endpoints: seq<Endpoint>, attributes: string)

  datatype ItemRef = ItemRef(kind: string, id: int)

  datatype Item = Item(item: ItemRef, ports: seq<Port>, attributes: string)

  datatype Assignment = Assignment(id: int, attributes: string)

  datatype Connection = Connection(id: int, attributes: string)

  datatype Topology = Topology(
    items: seq<Item>,
    assignments: seq<Assignment>,
    connections: seq<Connection>,
    placements: seq<ItemRef>)

  /** The collation order of type names: negative, zero or positive. */
  type Collation = (string, string) -> int

  /** What the normal form needs from the collation. */
  ghost predicate TotalOrder(compare: Collation) {
    && (forall a, b :: compare(a, b) == 0 <==> a == b)
    && (forall a, b :: compare(a, b) < 0 <==> compare(b, a) > 0)
    && (forall a, b, c :: compare(a, b) < 0 && compare(b, c) < 0 ==> compare(a, c) < 0)
  }

  // ----- The sort orders

  predicate EndpointBefore(a: Endpoint, b: Endpoint) { a.id < b.id }
  predicate PortBefore(a: Port, b: Port) { a.id < b.id }
  predicate AssignmentBefore(a: Assignment, b: Assignment) { a.id < b.id }
  predicate ConnectionBefore(a: Connection, b: Connection) { a.id < b.id }

  predicate RefBefore(compare: Collation, a: ItemRef, b: ItemRef) {
    if compare(a.kind, b.kind) != 0 then compare(a.kind, b.kind) < 0 else a.id < b.id
  }

  function RefOrder(compare: Collation): (ItemRef, ItemRef) -> bool {
    (a, b) => RefBefore(compare, a, b)
  }

  function ItemOrder(compare: Collation): (Item, Item) -> bool {
    (a: Item, b: Item) => RefBefore(compare, a.item, b.item)
  }

  // ----- The normal form

  function NormalPort(port: Port): Port {
    port.(endpoints := SortBy(port.endpoints, EndpointBefore))
  }

  function NormalItem(item: Item): Item {
    item.(ports := SortBy(Each(item.ports, NormalPort), PortBefore))
  }

  function Normalize(compare: Collation, t: Topology): Topology {
    Topology(
      SortBy(Each(t.items, NormalItem), ItemOrder(compare)),
      SortBy(t.assignments, AssignmentBefore),
      SortBy(t.connections, ConnectionBefore),
      SortBy(t.placements, RefOrder(compare)))
  }

  // ----- Topologies as sets at every nesting level

  datatype PortView = PortView(id: int, endpoints: set<Endpoint>, attributes: string)

  datatype ItemView = ItemView(item: ItemRef, ports: set<PortView>, attributes: string)

  datatype View = View(
    items: set<ItemView>,
    assignments: set<Assignment>,
    connections: set<Connection>,
    placements: set<ItemRef>)

  function ViewPort(port: Port): PortView {
    PortView(port.id, ToSet(port.endpoints), port.attributes)
  }

  function ViewItem(item: Item): ItemView {
    ItemView(item.item, ToSet(Each(item.ports, ViewPort)), item.attributes)
  }

  function ViewOf(t: Topology): View {
    View(ToSet(Each(t.items, ViewItem)), ToSet(t.assignments), ToSet(t.connections), ToSet(t.placements))
  }

  // ----- The normal form keeps the sets

  lemma SortKeepsSet<T(!new)>(s: seq<T>, before: (T, T) -> bool)
    ensures ToSet(SortBy(s, before)) == ToSet(s)
  {
    forall x ensures x in SortBy(s, before) <==> x in s {
      assert x in multiset(SortBy(s, before)) <==> x in multiset(s);
    }
  }

  lemma EachMembers<T, U>(s: seq<T>, f: T -> U, y: U)
    ensures y in ToSet(Each(s, f)) <==> exists i :: 0 <= i < |s| && f(s[i]) == y
  {
    if y in Each(s, f) {
      var i :| 0 <= i < |Each(s, f)| && Each(s, f)[i] == y;
    }
    if i :| 0 <= i < |s| && f(s[i]) == y {
      assert Each(s, f)[i] == y;
    }
  }

  /** The image of a set does not depend on how it was listed. */
  lemma EachOfSet<T, U(!new)>(a: seq<T>, b: seq<T>, f: T -> U)
    requires ToSet(a) == ToSet(b)
    ensures ToSet(Each(a, f)) == ToSet(Each(b, f))
  {
    forall y ensures y in ToSet(Each(a, f)) <==> y in ToSet(Each(b, f)) {
      EachMembers(a, f, y);
      EachMembers(b, f, y);
      if i :| 0 <= i < |a| && f(a[i]) == y {
        assert a[i] in ToSet(b);
      }
      if i :| 0 <= i < |b| && f(b[i]) == y {
        assert b[i] in ToSet(a);
      }
    }
  }

  /** Normalizing each element and sorting keeps the set of views. */
  lemma SortedEachKeepsView<T(!new), V(!new)>(s: seq<T>, norm: T -> T, view: T -> V, before: (T, T) -> bool)
    requires forall i :: 0 <= i < |s| ==> view(norm(s[i])) == view(s[i])
    ensures ToSet(Each(SortBy(Each(s, norm), before), view)) == ToSet(Each(s, view))
  {
    SortKeepsSet(Each(s, norm), before);
    EachOfSet(SortBy(Each(s, norm), before), Each(s, norm), view);
    assert Each(Each(s, norm), view) == Each(s, view);
  }

  lemma NormalPortKeepsView(port: Port)
    ensures ViewPort(NormalPort(port)) == ViewPort(port)
  {
    SortKeepsSet(port.endpoints, EndpointBefore);
  }

  lemma NormalItemKeepsView(item: Item)
    ensures ViewItem(NormalItem(item)) == ViewItem(item)
  {
    forall i | 0 <= i < |item.ports| ensures ViewPort(NormalPort(item.ports[i])) == ViewPort(item.ports[i]) {
      NormalPortKeepsView(item.ports[i]);
    }
    SortedEachKeepsView(item.ports, NormalPort, ViewPort, PortBefore);
  }

  /** The normal form has the sets of its topology, whatever the ids. */
  lemma NormalizeKeepsView(compare: Collation, t: Topology)
    ensures ViewOf(Normalize(compare, t)) == ViewOf(t)
  {
    forall i | 0 <= i < |t.items| ensures ViewItem(NormalItem(t.items[i])) == ViewItem(t.items[i]) {
      NormalItemKeepsView(t.items[i]);
    }
    SortedEachKeepsView(t.items, NormalItem, ViewItem, ItemOrder(compare));
    SortKeepsSet(t.assignments, AssignmentBefore);
    SortKeepsSet(t.connections, ConnectionBefore);
    SortKeepsSet(t.placements, RefOrder(compare));
  }

  // ----- With unique ids the sets determine the normal form

  ghost predicate UniquePort(port: Port) {
    forall i, j :: 0 <= i < j < |port.endpoints| ==> port.endpoints[i].id != port.endpoints[j].id
  }

  ghost predicate UniqueItem(item: Item) {
    && (forall i, j :: 0 <= i < j < |item.ports| ==> item.ports[i].id != item.ports[j].id)
    && (forall i :: 0 <= i < |item.ports| ==> UniquePort(item.ports[i]))
  }

  ghost predicate UniqueIds(t: Topology) {
    && (forall i, j :: 0 <= i < j < |t.items| ==> t.items[i].item != t.items[j].item)
    && (forall i :: 0 <= i < |t.items| ==> UniqueItem(t.items[i]))
    && (forall i, j :: 0 <= i < j < |t.assignments| ==> t.assignments[i].id != t.assignments[j].id)
    && (forall i, j :: 0 <= i < j < |t.connections| ==> t.connections[i].id != t.connections[j].id)
    && (forall i, j :: 0 <= i < j < |t.placements| ==> t.placements[i] != t.placements[j])
  }

  /** `before` compares distinct elements of the list by a key in a strict total order. */
  ghost predicate Keyed<T(!new)>(s: seq<T>, before: (T, T) -> bool) {
    Distinct(s) && StrictOn(ToSet(s), before)
  }

  lemma KeyedById<T(!new)>(s: seq<T>, id: T -> int, before: (T, T) -> bool)
    requires forall i, j :: 0 <= i < j < |s| ==> id(s[i]) != id(s[j])
    requires forall a, b :: before(a, b) <==> id(a) < id(b)
    ensures Keyed(s, before)
  {
    forall a, b | a in ToSet(s) && b in ToSet(s) && a != b ensures id(a) != id(b) {
      var i :| 0 <= i < |s| && s[i] == a;
      var j :| 0 <= j < |s| && s[j] == b;
    }
  }

  lemma RefOrderStrict(compare: Collation, a: ItemRef, b: ItemRef, c: ItemRef)
    requires TotalOrder(compare)
    ensures !RefBefore(compare, a, a)
    ensures a != b ==> RefBefore(compare, a, b) || RefBefore(compare, b, a)
    ensures RefBefore(compare, a, b) && RefBefore(compare, b, c) ==> RefBefore(compare, a, c)
  {
    assert compare(a.kind, a.kind) == 0;
    assert compare(a.kind, b.kind) == 0 <==> a.kind == b.kind;
    assert compare(b.kind, c.kind) == 0 <==> b.kind == c.kind;
    assert compare(a.kind, c.kind) == 0 <==> a.kind == c.kind;
  }

  lemma KeyedByRef<T(!new)>(compare: Collation, s: seq<T>, ref: T -> ItemRef, before: (T, T) -> bool)
    requires TotalOrder(compare)
    requires forall i, j :: 0 <= i < j < |s| ==> ref(s[i]) != ref(s[j])
    requires forall a, b :: before(a, b) <==> RefBefore(compare, ref(a), ref(b))
    ensures Keyed(s, before)
  {
    forall a, b | a in ToSet(s) && b in ToSet(s) && a != b ensures ref(a) != ref(b) {
      var i :| 0 <= i < |s| && s[i] == a;
      var j :| 0 <= j < |s| && s[j] == b;
    }
    forall a, b, c
      ensures !RefBefore(compare, ref(a), ref(a))
      ensures ref(a) != ref(b) ==> RefBefore(compare, ref(a), ref(b)) || RefBefore(compare, ref(b), ref(a))
      ensures RefBefore(compare, ref(a), ref(b)) && RefBefore(compare, ref(b), ref(c)) ==>
        RefBefore(compare, ref(a), ref(c))
    {
      RefOrderStrict(compare, ref(a), ref(b), ref(c));
    }
  }

  /** If equal views mean equal normal elements, equal sets of views mean equal sets of normal elements. */
  lemma NormalSets<T, V>(a: seq<T>, b: seq<T>, norm: T -> T, view: T -> V)
    requires forall i, j :: 0 <= i < |a| && 0 <= j < |b| && view(a[i]) == view(b[j]) ==> norm(a[i]) == norm(b[j])
    requires ToSet(Each(a, view)) == ToSet(Each(b, view))
    ensures ToSet(Each(a, norm)) <= ToSet(Each(b, norm))
  {
    forall y | y in ToSet(Each(a, norm)) ensures y in ToSet(Each(b, norm)) {
      EachMembers(a, norm, y);
      var i :| 0 <= i < |a| && norm(a[i]) == y;
      EachMembers(a, view, view(a[i]));
      EachMembers(b, view, view(a[i]));
      var j :| 0 <= j < |b| && view(b[j]) == view(a[i]);
      EachMembers(b, norm, norm(b[j]));
    }
  }

  lemma SortedEachEqual<T(!new), V>(a: seq<T>, b: seq<T>, norm: T -> T, view: T -> V, before: (T, T) -> bool)
    requires forall i, j :: 0 <= i < |a| && 0 <= j < |b| && view(a[i]) == view(b[j]) ==> norm(a[i]) == norm(b[j])
    requires ToSet(Each(a, view)) == ToSet(Each(b, view))
    requires Keyed(Each(a, norm), before) && Keyed(Each(b, norm), before)
    ensures SortBy(Each(a, norm), before) == SortBy(Each(b, norm), before)
  {
    NormalSets(a, b, norm, view);
    NormalSets(b, a, norm, view);
    SortIgnoresOrder(Each(a, norm), Each(b, norm), before);
  }

  lemma NormalPortEqual(a: Port, b: Port)
    requires UniquePort(a) && UniquePort(b) && ViewPort(a) == ViewPort(b)
    ensures NormalPort(a) == NormalPort(b)
  {
    KeyedById(a.endpoints, (e: Endpoint) => e.id, EndpointBefore);
    KeyedById(b.endpoints, (e: Endpoint) => e.id, EndpointBefore);
    SortIgnoresOrder(a.endpoints, b.endpoints, EndpointBefore);
  }

  lemma NormalItemEqual(a: Item, b: Item)
    requires UniqueItem(a) && UniqueItem(b) && ViewItem(a) == ViewItem(b)
    ensures NormalItem(a) == NormalItem(b)
  {
    forall i, j | 0 <= i < |a.ports| && 0 <= j < |b.ports| && ViewPort(a.ports[i]) == ViewPort(b.ports[j])
      ensures NormalPort(a.ports[i]) == NormalPort(b.ports[j])
    {
      NormalPortEqual(a.ports[i], b.ports[j]);
    }
    KeyedById(Each(a.ports, NormalPort), (p: Port) => p.id, PortBefore);
    KeyedById(Each(b.ports, NormalPort), (p: Port) => p.id, PortBefore);
    SortedEachEqual(a.ports, b.ports, NormalPort, ViewPort, PortBefore);
  }

  lemma NormalItemsEqual(compare: Collation, a: seq<Item>, b: seq<Item>)
    requires TotalOrder(compare)
    requires forall i, j :: 0 <= i < j < |a| ==> a[i].item != a[j].item
    requires forall i, j :: 0 <= i < j < |b| ==> b[i].item != b[j].item
    requires forall i :: 0 <= i < |a| ==> UniqueItem(a[i])
    requires forall i :: 0 <= i < |b| ==> UniqueItem(b[i])
    requires ToSet(Each(a, ViewItem)) == ToSet(Each(b, ViewItem))
    ensures SortBy(Each(a, NormalItem), ItemOrder(compare)) == SortBy(Each(b, NormalItem), ItemOrder(compare))
  {
    forall i, j | 0 <= i < |a| && 0 <= j < |b| && ViewItem(a[i]) == ViewItem(b[j])
      ensures NormalItem(a[i]) == NormalItem(b[j])
    {
      NormalItemEqual(a[i], b[j]);
    }
    KeyedByRef(compare, Each(a, NormalItem), (x: Item) => x.item, ItemOrder(compare));
    KeyedByRef(compare, Each(b, NormalItem), (x: Item) => x.item, ItemOrder(compare));
    SortedEachEqual(a, b, NormalItem, ViewItem, ItemOrder(compare));
  }

  lemma RecordsEqual(compare: Collation, a: Topology, b: Topology)
    requires TotalOrder(compare) && UniqueIds(a) && UniqueIds(b) && ViewOf(a) == ViewOf(b)
    ensures SortBy(a.assignments, AssignmentBefore) == SortBy(b.assignments, AssignmentBefore)
    ensures SortBy(a.connections, ConnectionBefore) == SortBy(b.connections, ConnectionBefore)
    ensures SortBy(a.placements, RefOrder(compare)) == SortBy(b.placements, RefOrder(compare))
  {
    KeyedById(a.assignments, (x: Assignment) => x.id, AssignmentBefore);
    KeyedById(b.assignments, (x: Assignment) => x.id, AssignmentBefore);
    SortIgnoresOrder(a.assignments, b.assignments, AssignmentBefore);
    KeyedById(a.connections, (x: Connection) => x.id, ConnectionBefore);
    KeyedById(b.connections, (x: Connection) => x.id, ConnectionBefore);
    SortIgnoresOrder(a.connections, b.connections, ConnectionBefore);
    KeyedByRef(compare, a.placements, x => x, RefOrder(compare));
    KeyedByRef(compare, b.placements, x => x, RefOrder(compare));
    SortIgnoresOrder(a.placements, b.placements, RefOrder(compare));
  }

  /** Equal normal forms are exactly equal sets at every nesting level. */
  lemma NormalFormDecides(compare: Collation, a: Topology, b: Topology)
    requires TotalOrder(compare) && UniqueIds(a) && UniqueIds(b)
    ensures Normalize(compare, a) == Normalize(compare, b) <==> ViewOf(a) == ViewOf(b)
  {
    NormalizeKeepsView(compare, a);
    NormalizeKeepsView(compare, b);
    if ViewOf(a) == ViewOf(b) {
      NormalItemsEqual(compare, a.items, b.items);
      RecordsEqual(compare, a, b);
    }
  }
}
