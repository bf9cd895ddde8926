/**
 Recalculation of negotiated speeds over connected components, and the three-stage
 normalization of legacy network projects (server/db/legacy-network-normalization.ts).
 */
module NetworkNormalization {
  import opened Prelude
  import opened NetworkPorts
  import opened NetworkProject
  import opened NetworkGraph

  // ----- the graph of a project

  function MakeEdge(a: Endpoint, b: Endpoint): Edge {
    Edge(EndpointKey(a), a, EndpointKey(b), b)
  }

  function CableEdge(c: Connection): seq<Edge> {
    if c.ctype == NetworkLink then [MakeEdge(c.from, c.to)] else []
  }

  function CableEdges(connections: seq<Connection>): seq<Edge> {
    if connections == [] then []
    else CableEdges(connections[..|connections| - 1]) + CableEdge(connections[|connections| - 1])
  }

  predicate SwitchNetworkType(t: PortType) {
    t in {Rj45, Sfp, SfpPlus}
  }

  /** The passive pair of a patch-panel port: its first front and its first back face. */
  function PanelEdge(itemId: string, port: Port): seq<Edge> {
    var front := Find(port.faces, (f: Face) => f.side == Front);
    var back := Find(port.faces, (f: Face) => f.side == Back);
    if SwitchNetworkType(port.ptype) && front.Some? && back.Some? then
      [MakeEdge(Endpoint(itemId, None, port.id, Some(front.value.id)),
        Endpoint(itemId, None, port.id, Some(back.value.id)))]
    else []
  }

  function PanelEdges(itemId: string, ports: seq<Port>): seq<Edge> {
    if ports == [] then []
    else PanelEdges(itemId, ports[..|ports| - 1]) + PanelEdge(itemId, ports[|ports| - 1])
  }

  function ItemEdge(items: map<string, Item>, itemId: string): seq<Edge> {
    if itemId in items && items[itemId].itype == "patchPanel" then PanelEdges(itemId, items[itemId].ports) else []
  }

  function ItemEdges(items: map<string, Item>, order: seq<string>): seq<Edge> {
    if order == [] then []
    else ItemEdges(items, order[..|order| - 1]) + ItemEdge(items, order[|order| - 1])
  }

  /** Cables first, then the patch panels in record order. */
  function Edges(p: Project): seq<Edge> {
    CableEdges(p.connections) + ItemEdges(p.items, p.order)
  }

  function GraphOf(p: Project): Graph {
    Build(Edges(p))
  }

  // ----- what recalculation promises

  /** The active ports at a set of nodes. */
  ghost function ActivePorts(p: Project, g: Graph, keys: set<string>): set<Port> {
    set k | k in keys && k in g.endpoint && EndpointActivePort(p, g.endpoint[k]).Some?
      :: EndpointActivePort(p, g.endpoint[k]).value
  }

  /** The greatest speed of ports that can be linked. */
  ghost function LinkSpeed(ports: set<Port>): (r: Option<int>)
    ensures forall v :: r == Some(v) <==> Linkable(ports) && GreatestSpeed(ports, v)
  {
    if exists v :: Linkable(ports) && GreatestSpeed(ports, v) then
      var v :| Linkable(ports) && GreatestSpeed(ports, v);
      assert forall w :: GreatestSpeed(ports, w) ==> w == v;
      Some(v)
    else None
  }

  lemma PathSpeedIsLinkSpeed(ports: seq<Port>)
    ensures PathSpeed(ports) == LinkSpeed(ToSet(ports))
  {
    if PathSpeed(ports).Some? {
      PathMeaning(ports, PathSpeed(ports).value);
    } else if LinkSpeed(ToSet(ports)).Some? {
      PathMeaning(ports, LinkSpeed(ToSet(ports)).value);
    }
  }

  ghost function ComponentSpeed(p: Project, g: Graph, k: string): Option<int> {
    LinkSpeed(ActivePorts(p, g, Component(g, k)))
  }

  /** The speed a connection should carry. */
  ghost function DesiredSpeed(p: Project, g: Graph, c: Connection): Option<int> {
    if c.ctype == NetworkLink then ComponentSpeed(p, g, EndpointKey(c.from)) else None
  }

  function Refresh(c: Connection, desired: Option<int>): Connection {
    if desired.None? then c.(negotiatedBps := None, legacyMbps := None)
    else if c.negotiatedBps == desired then c
    else c.(negotiatedBps := desired)
  }

  ghost function Recalculated(p: Project): Project {
    p.(connections := seq(|p.connections|, i requires 0 <= i < |p.connections| =>
        Refresh(p.connections[i], DesiredSpeed(p, GraphOf(p), p.connections[i]))))
  }

  // ----- the algorithm

  lemma BuildMore(edges: seq<Edge>, e: Edge)
    ensures Build(edges + [e]) == AddEdge(Build(edges), e)
  {
    assert (edges + [e])[..|edges + [e]| - 1] == edges;
  }

  lemma CableEdgesStep(connections: seq<Connection>, i: nat)
    requires i < |connections|
    ensures CableEdges(connections[..i + 1]) == CableEdges(connections[..i]) + CableEdge(connections[i])
  {
    assert connections[..i + 1][..i] == connections[..i];
  }

  lemma PanelEdgesStep(before: seq<Edge>, itemId: string, ports: seq<Port>, i: nat)
    requires i < |ports|
    ensures before + PanelEdges(itemId, ports[..i + 1])
         == before + PanelEdges(itemId, ports[..i]) + PanelEdge(itemId, ports[i])
  {
    assert ports[..i + 1][..i] == ports[..i];
  }

  lemma ItemEdgesStep(before: seq<Edge>, items: map<string, Item>, order: seq<string>, i: nat)
    requires i < |order|
    ensures before + ItemEdges(items, order[..i + 1])
      == before + ItemEdges(items, order[..i]) + ItemEdge(items, order[i])
  {
    assert order[..i + 1][..i] == order[..i];
  }

  /** Adds the edges of a list of at most one edge. */
  lemma BuildMaybe(edges: seq<Edge>, more: seq<Edge>)
    requires |more| <= 1
    ensures Build(edges + more) == if more == [] then Build(edges) else AddEdge(Build(edges), more[0])
  {
    if more == [] {
      assert edges + more == edges;
    } else {
      assert more == [more[0]];
      BuildMore(edges, more[0]);
    }
  }

  method AddCables(connections: seq<Connection>) returns (g: Graph)
    ensures g == Build(CableEdges(connections))
  {
    g := EMPTY;
    for i := 0 to |connections|
      invariant g == Build(CableEdges(connections[..i]))
    {
      var c := connections[i];
      CableEdgesStep(connections, i);
      BuildMaybe(CableEdges(connections[..i]), CableEdge(c));
      if c.ctype == NetworkLink {
        g := AddEdge(g, MakeEdge(c.from, c.to));
      }
    }
    assert connections[..|connections|] == connections;
  }

  method AddPanel(g0: Graph, ghost before: seq<Edge>, itemId: string, ports: seq<Port>) returns (g: Graph)
    requires g0 == Build(before)
    ensures g == Build(before + PanelEdges(itemId, ports))
  {
    g := g0;
    assert before + PanelEdges(itemId, ports[..0]) == before;
    for i := 0 to |ports|
      invariant g == Build(before + PanelEdges(itemId, ports[..i]))
    {
      var pair := PanelEdge(itemId, ports[i]);
      PanelEdgesStep(before, itemId, ports, i);
      BuildMaybe(before + PanelEdges(itemId, ports[..i]), pair);
      if pair != [] {
        g := AddEdge(g, pair[0]);
      }
    }
    assert ports[..|ports|] == ports;
  }

  method BuildGraph(p: Project) returns (g: Graph)
    ensures g == GraphOf(p)
  {
    g := AddCables(p.connections);
    ghost var cables := CableEdges(p.connections);
    assert cables + ItemEdges(p.items, p.order[..0]) == cables;
    for i := 0 to |p.order|
      invariant g == Build(cables + ItemEdges(p.items, p.order[..i]))
    {
      var itemId := p.order[i];
      ItemEdgesStep(cables, p.items, p.order, i);
      ghost var before := cables + ItemEdges(p.items, p.order[..i]);
      if itemId in p.items && p.items[itemId].itype == "patchPanel" {
        g := AddPanel(g, before, itemId, p.items[itemId].ports);
      } else {
        assert before + [] == before;
      }
    }
    assert p.order[..|p.order|] == p.order;
  }

  // ----- traversal

  /** The keys found while exploring from `start`: `done` were taken off the stack, `pending` wait on it. */
  ghost predicate Frontier(g: Graph, before: set<string>, start: string, done: seq<string>, pending: seq<string>,
                           visited: set<string>) {
    && (forall k :: k in visited <==> k in before || k in done || k in pending)
    && (forall k :: k in done || k in pending ==> k !in before && k in g.adjacent && Connects(g, start, k))
    && (forall k :: k in done ==> k !in pending)
    && (forall i, j :: 0 <= i < j < |pending| ==> pending[i] != pending[j])
  }

  /** Pushes the unvisited neighbours of one key, in any order. */
  method PushNeighbours(g: Graph, ghost before: set<string>, ghost start: string, ghost done: seq<string>,
                        key: string, pending0: seq<string>, visited0: set<string>)
    returns (pending: seq<string>, visited: set<string>)
    requires WellFormed(g) && key in done && Frontier(g, before, start, done, pending0, visited0)
    ensures Frontier(g, before, start, done, pending, visited)
    ensures visited0 <= visited && g.adjacent[key] <= visited
    ensures forall k :: k in pending0 ==> k in pending
  {
    pending, visited := pending0, visited0;
    var rest := g.adjacent[key];
    while rest != {}
      invariant rest <= g.adjacent[key] <= rest + visited
      invariant visited0 <= visited && forall k :: k in pending0 ==> k in pending
      invariant Frontier(g, before, start, done, pending, visited)
    {
      var n :| n in rest;
      rest := rest - {n};
      if n !in visited {
        ConnectsFurther(g, start, key, n);
        visited := visited + {n};
        pending := pending + [n];
      }
    }
  }

  lemma PopKeepsFrontier(g: Graph, before: set<string>, start: string, done: seq<string>, pending: seq<string>,
                         visited: set<string>)
    requires Frontier(g, before, start, done, pending, visited) && pending != []
    ensures Frontier(g, before, start, done + [pending[|pending| - 1]], pending[..|pending| - 1], visited)
  {
    var key, rest := pending[|pending| - 1], pending[..|pending| - 1];
    assert pending == rest + [key];
    assert key !in rest;
    assert forall k :: k in done + [key] <==> k in done || k == key;
  }

  /** Adds the active port of one more key. */
  method CollectPort(p: Project, g: Graph, ghost done: seq<string>, key: string, ports0: seq<Port>)
    returns (ports: seq<Port>)
    requires key in g.endpoint && ToSet(ports0) == ActivePorts(p, g, ToSet(done))
    ensures ToSet(ports) == ActivePorts(p, g, ToSet(done + [key]))
  {
    var port := EndpointActivePort(p, g.endpoint[key]);
    ports := if port.Some? then ports0 + [port.value] else ports0;
    assert ToSet(done + [key]) == ToSet(done) + {key};
    assert ToSet(ports) == ToSet(ports0) + if port.Some? then {port.value} else {};
  }

  /** When nothing is pending any more, what was found is exactly the component of the start key. */
  lemma ExploredIsComponent(g: Graph, before: set<string>, start: string, done: seq<string>, visited: set<string>)
    requires WellFormed(g) && Closed(g, before) && start in done
    requires Frontier(g, before, start, done, [], visited)
    requires forall k :: k in done ==> g.adjacent[k] <= visited
    ensures ToSet(done) == Component(g, start)
    ensures visited == before + Component(g, start) && Closed(g, visited)
  {
    forall k, n | k in ToSet(done) && n in g.adjacent[k] ensures n in ToSet(done) {
      assert n in visited;
      assert k in g.adjacent[n];
      assert n !in before;
    }
    ClosedIsComponent(g, ToSet(done), start);
  }

  lemma ShrinksBy(all: set<string>, done: seq<string>, key: string)
    requires key in all && key !in done
    ensures all - ToSet(done + [key]) < all - ToSet(done)
  {
    assert key in all - ToSet(done) && key !in all - ToSet(done + [key]);
  }

  /** Depth-first exploration of one component with an explicit stack. */
  method Explore(p: Project, g: Graph, start: string, before: set<string>)
    returns (component: seq<string>, ports: seq<Port>, visited: set<string>)
    requires WellFormed(g) && start in g.adjacent && start !in before && Closed(g, before)
    ensures ToSet(component) == Component(g, start)
    ensures ToSet(ports) == ActivePorts(p, g, Component(g, start))
    ensures visited == before + Component(g, start) && Closed(g, visited)
  {
    component, ports := [], [];
    var pending := [start];
    visited := before + {start};
    ConnectsItself(g, start);
    while pending != []
      invariant Frontier(g, before, start, component, pending, visited)
      invariant start in component || start in pending
      invariant forall k :: k in component ==> g.adjacent[k] <= visited
      invariant ToSet(ports) == ActivePorts(p, g, ToSet(component))
      decreases g.adjacent.Keys - ToSet(component)
    {
      ghost var done0, pending0, visited0 := component, pending, visited;
      PopKeepsFrontier(g, before, start, component, pending, visited);
      var key := pending[|pending| - 1];
      assert key in pending && key !in component;
      pending := pending[..|pending| - 1];
      ports := CollectPort(p, g, component, key, ports);
      component := component + [key];
      ghost var pending1 := pending;
      pending, visited := PushNeighbours(g, before, start, component, key, pending, visited);
      assert forall k :: k in component <==> k in done0 || k == key;
      assert start in component || start in pending1 by {
        assert pending0 == pending1 + [key];
      }
      ShrinksBy(g.adjacent.Keys, done0, key);
    }
    ExploredIsComponent(g, before, start, component, visited);
  }

  ghost predicate AllHaveSpeed(p: Project, g: Graph, keys: set<string>, v: Option<int>) {
    forall k :: k in keys ==> ComponentSpeed(p, g, k) == v
  }

  ghost predicate SpeedsMatch(p: Project, g: Graph, speed: map<string, Option<int>>) {
    forall k :: k in speed ==> speed[k] == ComponentSpeed(p, g, k)
  }

  lemma MoreSpeedsMatch(p: Project, g: Graph, speed: map<string, Option<int>>, more: map<string, Option<int>>,
                        keys: set<string>, v: Option<int>)
    requires SpeedsMatch(p, g, speed) && AllHaveSpeed(p, g, keys, v)
    requires more.Keys == speed.Keys + keys
    requires forall k :: k in more ==> more[k] == if k in keys then v else speed[k]
    ensures SpeedsMatch(p, g, more)
  {
  }

  /** Every node of a component gets the speed its active ports negotiate, in whatever order they were found. */
  method NegotiateComponent(ghost p: Project, ghost g: Graph, ghost start: string, ports: seq<Port>)
    returns (v: Option<int>)
    requires WellFormed(g) && ToSet(ports) == ActivePorts(p, g, Component(g, start))
    ensures AllHaveSpeed(p, g, Component(g, start), v)
  {
    v := if ports != [] then PathSpeed(ports) else None;
    PathSpeedIsLinkSpeed(ports);
    forall k | k in Component(g, start) ensures ComponentSpeed(p, g, k) == PathSpeed(ports) {
      SameComponent(g, start, k);
    }
  }

  ghost predicate Negotiated(p: Project, g: Graph, visited: set<string>, speed: map<string, Option<int>>) {
    Closed(g, visited) && visited <= g.adjacent.Keys && speed.Keys == visited && SpeedsMatch(p, g, speed)
  }

  method NegotiateFrom(p: Project, g: Graph, start: string, visited0: set<string>, speed0: map<string, Option<int>>)
    returns (visited: set<string>, speed: map<string, Option<int>>)
    requires WellFormed(g) && start in g.adjacent && start !in visited0 && Negotiated(p, g, visited0, speed0)
    ensures Negotiated(p, g, visited, speed) && visited0 <= visited && start in visited
  {
    var component, ports;
    component, ports, visited := Explore(p, g, start, visited0);
    var negotiated := NegotiateComponent(p, g, start, ports);
    speed := Assigned(speed0, component, negotiated);
    MoreSpeedsMatch(p, g, speed0, speed, Component(g, start), negotiated);
    ConnectsItself(g, start);
  }

  /** Negotiates the component of node `i` unless that has been done. */
  method NegotiateNode(p: Project, g: Graph, i: nat, visited0: set<string>, speed0: map<string, Option<int>>)
    returns (visited: set<string>, speed: map<string, Option<int>>)
    requires WellFormed(g) && i < |g.keys| && Negotiated(p, g, visited0, speed0)
    ensures Negotiated(p, g, visited, speed) && visited0 <= visited && g.keys[i] in visited
  {
    visited, speed := visited0, speed0;
    if g.keys[i] !in visited {
      KeysAreNodes(g, i);
      visited, speed := NegotiateFrom(p, g, g.keys[i], visited, speed);
    }
  }

  method NegotiateNodes(p: Project, g: Graph) returns (visited: set<string>, speed: map<string, Option<int>>)
    requires WellFormed(g)
    ensures Negotiated(p, g, visited, speed) && Covers(g, visited, |g.keys|)
  {
    visited, speed := {}, map[];
    NothingNegotiated(p, g);
    for i := 0 to |g.keys|
      invariant Negotiated(p, g, visited, speed) && Covers(g, visited, i)
    {
      ghost var before := visited;
      visited, speed := NegotiateNode(p, g, i, visited, speed);
      CoversMore(g, before, visited, i);
    }
  }

  /** One negotiated speed per node: that of its component. */
  method ComponentSpeeds(p: Project, g: Graph) returns (speed: map<string, Option<int>>)
    requires WellFormed(g)
    ensures speed.Keys == g.adjacent.Keys
    ensures SpeedsMatch(p, g, speed)
  {
    var visited;
    visited, speed := NegotiateNodes(p, g);
    KeysCover(g, visited);
  }

  /** The first `n` nodes are visited. */
  ghost predicate Covers(g: Graph, visited: set<string>, n: nat)
    requires n <= |g.keys|
  {
    forall j :: 0 <= j < n ==> g.keys[j] in visited
  }

  lemma CoversMore(g: Graph, before: set<string>, visited: set<string>, i: nat)
    requires i < |g.keys| && Covers(g, before, i) && before <= visited && g.keys[i] in visited
    ensures Covers(g, visited, i) && Covers(g, visited, i + 1)
  {
  }

  lemma NothingNegotiated(p: Project, g: Graph)
    ensures Negotiated(p, g, {}, map[])
  {
  }

  lemma KeysAreNodes(g: Graph, i: nat)
    requires WellFormed(g) && i < |g.keys|
    ensures g.keys[i] in g.adjacent
  {
    assert g.keys[i] in g.keys;
  }

  lemma KeysCover(g: Graph, visited: set<string>)
    requires WellFormed(g) && visited <= g.adjacent.Keys && Covers(g, visited, |g.keys|)
    ensures visited == g.adjacent.Keys
  {
    assert forall k :: k in g.keys ==> k in visited;
  }

  /** Sets one value for all keys of a list. */
  method Assigned(m0: map<string, Option<int>>, keys: seq<string>, v: Option<int>) returns (m: map<string, Option<int>>)
    ensures m.Keys == m0.Keys + ToSet(keys)
    ensures forall k :: k in m ==> m[k] == if k in ToSet(keys) then v else m0[k]
  {
    m := m0;
    for i := 0 to |keys|
      invariant m.Keys == m0.Keys + ToSet(keys[..i])
      invariant forall k :: k in keys[..i] ==> m[k] == v
      invariant forall k :: k in m0 && k !in keys[..i] ==> m[k] == m0[k]
    {
      m := m[keys[i] := v];
      assert keys[..i + 1] == keys[..i] + [keys[i]];
    }
    assert keys[..|keys|] == keys;
  }

  // ----- recalculation

  lemma {:induction false} CableEdgesAre(connections: seq<Connection>, e: Edge)
    ensures e in CableEdges(connections) <==>
            exists c :: c in connections && c.ctype == NetworkLink && e == MakeEdge(c.from, c.to)
  {
    if connections != [] {
      var front, last := connections[..|connections| - 1], connections[|connections| - 1];
      assert connections == front + [last];
      CableEdgesAre(front, e);
      assert CableEdges(connections) == CableEdges(front) + CableEdge(last);
      if last.ctype == NetworkLink && e == MakeEdge(last.from, last.to) {
        assert last in connections;
      }
    }
  }

  /** The two ends of a cable are nodes of the same component. */
  lemma EndsShareComponent(p: Project, c: Connection)
    requires c in p.connections && c.ctype == NetworkLink
    ensures EndpointKey(c.from) in GraphOf(p).adjacent
    ensures Component(GraphOf(p), EndpointKey(c.from)) == Component(GraphOf(p), EndpointKey(c.to))
  {
    var g := GraphOf(p);
    BuildWellFormed(Edges(p));
    var e := MakeEdge(c.from, c.to);
    CableEdgesAre(p.connections, e);
    CableIsJoined(Edges(p), e);
    ConnectsItself(g, e.a);
    ConnectsFurther(g, e.a, e.a, e.b);
    SameComponent(g, e.a, e.b);
  }

  lemma CableIsJoined(edges: seq<Edge>, e: Edge)
    requires e in edges
    ensures Neighbours(Build(edges), e.a, e.b) && Neighbours(Build(edges), e.b, e.a)
  {
    assert Joins(e, e.a, e.b) && Joins(e, e.b, e.a);
    BuildJoins(edges, e.a, e.b);
    BuildJoins(edges, e.b, e.a);
  }

  /** Recalculates all negotiated speeds; reports whether anything changed. */
  method RecalculateNegotiatedSpeeds(p: Project) returns (q: Project, changed: bool)
    ensures q == Recalculated(p)
    ensures changed <==> q != p
  {
    var g := BuildGraph(p);
    BuildWellFormed(Edges(p));
    var speed := ComponentSpeeds(p, g);
    var connections;
    connections, changed := RefreshConnections(p, g, speed);
    q := p.(connections := connections);
  }

  method LookupSpeed(ghost p: Project, g: Graph, speed: map<string, Option<int>>, c: Connection)
    returns (desired: Option<int>)
    requires g == GraphOf(p) && c in p.connections && speed.Keys == g.adjacent.Keys && SpeedsMatch(p, g, speed)
    ensures desired == DesiredSpeed(p, g, c)
  {
    desired := None;
    if c.ctype == NetworkLink {
      EndsShareComponent(p, c);
      desired := speed[EndpointKey(c.from)];
    }
  }

  /** Rewrites the connections to the speeds of their components. */
  method RefreshConnections(p: Project, g: Graph, speed: map<string, Option<int>>)
    returns (connections: seq<Connection>, changed: bool)
    requires g == GraphOf(p) && speed.Keys == g.adjacent.Keys && SpeedsMatch(p, g, speed)
    ensures connections == Recalculated(p).connections
    ensures changed <==> connections != p.connections
  {
    connections := [];
    changed := false;
    for i := 0 to |p.connections|
      invariant connections == Recalculated(p).connections[..i]
      invariant changed <==> connections != p.connections[..i]
    {
      var desired := LookupSpeed(p, g, speed, p.connections[i]);
      var next := Refresh(p.connections[i], desired);
      OneMoreDiffers(connections, p.connections, next, i);
      OneMoreDiffers(connections, Recalculated(p).connections, next, i);
      if next != p.connections[i] {
        changed := true;
      }
      connections := connections + [next];
    }
    assert p.connections[..|p.connections|] == p.connections;
    assert Recalculated(p).connections[..|p.connections|] == Recalculated(p).connections;
  }

  lemma OneMoreDiffers(a: seq<Connection>, b: seq<Connection>, c: Connection, i: nat)
    requires |a| == i < |b|
    ensures a + [c] != b[..i + 1] <==> a != b[..i] || c != b[i]
  {
    assert b[..i + 1] == b[..i] + [b[i]];
    assert (a + [c])[..i] == a && (a + [c])[i] == c;
    assert b[..i + 1][..i] == b[..i] && b[..i + 1][i] == b[i];
  }

  /**
   After recalculation a network connection carries `v` exactly when the active ports of its component
   can be linked and `v` is the greatest speed they share; other connections carry nothing, and a
   connection without a speed keeps no legacy value either.
   */
  lemma RecalculationMeaning(p: Project, i: nat, v: int)
    requires i < |p.connections|
    ensures var c, d := p.connections[i], Recalculated(p).connections[i];
      var ports := ActivePorts(p, GraphOf(p), Component(GraphOf(p), EndpointKey(c.from)));
      && (d.negotiatedBps == Some(v) <==> c.ctype == NetworkLink && Linkable(ports) && GreatestSpeed(ports, v))
      && (d.negotiatedBps.None? ==> d.legacyMbps.None?)
      && d.id == c.id && d.ctype == c.ctype && d.from == c.from && d.to == c.to
  {
    var c := p.connections[i];
    DesiredSpeedMeaning(p, GraphOf(p), c, v);
    RefreshMeaning(c, DesiredSpeed(p, GraphOf(p), c));
  }

  lemma DesiredSpeedMeaning(p: Project, g: Graph, c: Connection, v: int)
    ensures var ports := ActivePorts(p, g, Component(g, EndpointKey(c.from)));
      DesiredSpeed(p, g, c) == Some(v) <==> c.ctype == NetworkLink && Linkable(ports) && GreatestSpeed(ports, v)
  {
  }

  lemma RefreshMeaning(c: Connection, desired: Option<int>)
    ensures var d := Refresh(c, desired);
      && d.negotiatedBps == desired && (desired.None? ==> d.legacyMbps.None?)
      && d.id == c.id && d.ctype == c.ctype && d.from == c.from && d.to == c.to
  {
  }

  // ----- the other two stages

  function NormalizePort(port: Port): Port {
    if !SwitchNetworkType(port.ptype) || (port.speed.Some? && !port.speed.value.OtherLabel?) then port
    else port.(speed := Some(if port.ptype == SfpPlus then Label10G else Label1G))
  }

  function NormalizeItem(item: Item): Item {
    if item.itype != "switch" then item
    else item.(ports := seq(|item.ports|, i requires 0 <= i < |item.ports| => NormalizePort(item.ports[i])))
  }

  function SwitchesNormalized(p: Project): Project {
    p.(items := map k | k in p.items :: NormalizeItem(p.items[k]))
  }

  function NormalizeLink(p: Project, c: Connection): Connection {
    if c.ctype != OtherLink then c
    else
      var from, to := ResolveEndpointPort(p, c.from), ResolveEndpointPort(p, c.to);
      if from.None? || to.None? || !Physical(from.value) || !Physical(to.value) then c
      else c.(ctype := NetworkLink)
  }

  function LinksNormalized(p: Project): Project {
    p.(connections := seq(|p.connections|, i requires 0 <= i < |p.connections| => NormalizeLink(p, p.connections[i])))
  }

  method NormalizePorts(item: Item) returns (ports: seq<Port>, changed: bool)
    requires item.itype == "switch"
    ensures ports == NormalizeItem(item).ports
    ensures changed <==> ports != item.ports
  {
    ports, changed := [], false;
    for i := 0 to |item.ports|
      invariant |ports| == i
      invariant forall j :: 0 <= j < i ==> ports[j] == NormalizePort(item.ports[j])
      invariant changed <==> exists j :: 0 <= j < i && ports[j] != item.ports[j]
    {
      var next := NormalizePort(item.ports[i]);
      if next != item.ports[i] {
        changed := true;
      }
      ports := ports + [next];
    }
  }

  method NormalizeSwitchPortSpeeds(p: Project) returns (q: Project, changed: bool)
    requires Ordered(p)
    ensures q == SwitchesNormalized(p)
    ensures changed <==> q != p
  {
    var items := p.items;
    for i := 0 to |p.order|
      invariant items.Keys == p.items.Keys
      invariant forall j :: 0 <= j < i ==> items[p.order[j]] == NormalizeItem(p.items[p.order[j]])
      invariant forall j :: i <= j < |p.order| ==> items[p.order[j]] == p.items[p.order[j]]
    {
      var item := p.items[p.order[i]];
      if item.itype == "switch" {
        var ports, portsChanged := NormalizePorts(item);
        if portsChanged {
          items := items[p.order[i] := item.(ports := ports)];
        }
      }
    }
    assert forall k :: k in p.items ==> k in ToSet(p.order);
    assert items == SwitchesNormalized(p).items;
    changed := items != p.items;
    q := p.(items := items);
  }

  method NormalizeLegacyConnections(p: Project) returns (q: Project, changed: bool)
    ensures q == LinksNormalized(p)
    ensures changed <==> q != p
  {
    var connections := [];
    changed := false;
    for i := 0 to |p.connections|
      invariant |connections| == i
      invariant forall j :: 0 <= j < i ==> connections[j] == NormalizeLink(p, p.connections[j])
      invariant changed <==> exists j :: 0 <= j < i && connections[j] != p.connections[j]
    {
      var next := NormalizeLink(p, p.connections[i]);
      if next != p.connections[i] {
        changed := true;
      }
      connections := connections + [next];
    }
    assert connections == LinksNormalized(p).connections;
    q := p.(connections := connections);
  }

  ghost function Normalized(p: Project): Project {
    Recalculated(LinksNormalized(SwitchesNormalized(p)))
  }

  /** The whole normalization; `changed` tells whether any stage changed anything. */
  method NormalizeNetworkProject(p: Project) returns (q: Project, changed: bool)
    requires Ordered(p)
    ensures q == Normalized(p)
    ensures !changed <==>
      SwitchesNormalized(p) == p && LinksNormalized(p) == p && Recalculated(p) == p
    ensures q != p ==> changed
  {
    var q1, c1 := NormalizeSwitchPortSpeeds(p);
    var q2, c2 := NormalizeLegacyConnections(q1);
    var q3, c3 := RecalculateNegotiatedSpeeds(q2);
    q, changed := q3, c1 || c2 || c3;
  }

  // ----- idempotence

  lemma SwitchesIdempotent(p: Project)
    ensures SwitchesNormalized(SwitchesNormalized(p)) == SwitchesNormalized(p)
  {
    var q := SwitchesNormalized(p);
    forall k | k in q.items ensures NormalizeItem(q.items[k]) == q.items[k] {
      if q.items[k].itype == "switch" {
        assert NormalizeItem(q.items[k]).ports == q.items[k].ports;
      }
    }
    assert SwitchesNormalized(q).items == q.items;
  }

  lemma LinksIdempotent(p: Project, q: Project)
    requires q.items == p.items && q.assignments == p.assignments && |q.connections| == |p.connections|
    requires forall i :: 0 <= i < |q.connections| ==>
               var c, d := NormalizeLink(p, p.connections[i]), q.connections[i];
               d.ctype == c.ctype && d.from == c.from && d.to == c.to
    ensures LinksNormalized(q) == q
  {
    forall i | 0 <= i < |q.connections| ensures NormalizeLink(q, q.connections[i]) == q.connections[i] {
      ResolutionIgnoresConnections(p, q, q.connections[i].from);
      ResolutionIgnoresConnections(p, q, q.connections[i].to);
    }
    assert LinksNormalized(q).connections == q.connections;
  }

  lemma ResolutionIgnoresConnections(p: Project, q: Project, e: Endpoint)
    requires q.items == p.items && q.assignments == p.assignments
    ensures ResolveEndpointPort(q, e) == ResolveEndpointPort(p, e)
    ensures EndpointActivePort(q, e) == EndpointActivePort(p, e)
  {
  }

  lemma {:induction false} CableEdgesIgnoreSpeeds(a: seq<Connection>, b: seq<Connection>)
    requires |a| == |b|
    requires forall i :: 0 <= i < |a| ==> a[i].ctype == b[i].ctype && a[i].from == b[i].from && a[i].to == b[i].to
    ensures CableEdges(a) == CableEdges(b)
  {
    if a != [] {
      CableEdgesIgnoreSpeeds(a[..|a| - 1], b[..|b| - 1]);
    }
  }

  lemma ActivePortsIgnoreConnections(p: Project, q: Project, g: Graph, keys: set<string>)
    requires q.items == p.items && q.assignments == p.assignments
    ensures ActivePorts(q, g, keys) == ActivePorts(p, g, keys)
  {
    forall e: Endpoint ensures EndpointActivePort(q, e) == EndpointActivePort(p, e) {
      ResolutionIgnoresConnections(p, q, e);
    }
  }

  lemma GraphUnchanged(p: Project)
    ensures GraphOf(Recalculated(p)) == GraphOf(p)
  {
    CableEdgesIgnoreSpeeds(p.connections, Recalculated(p).connections);
  }

  lemma DesiredSpeedUnchanged(p: Project, i: nat)
    requires i < |p.connections|
    ensures var q := Recalculated(p);
      DesiredSpeed(q, GraphOf(q), q.connections[i]) == DesiredSpeed(p, GraphOf(p), p.connections[i])
  {
    GraphUnchanged(p);
    var g := GraphOf(p);
    ActivePortsIgnoreConnections(p, Recalculated(p), g, Component(g, EndpointKey(p.connections[i].from)));
  }

  lemma RefreshTwice(c: Connection, desired: Option<int>)
    ensures Refresh(Refresh(c, desired), desired) == Refresh(c, desired)
  {
  }

  lemma ConnectionUnchanged(p: Project, i: nat)
    requires i < |p.connections|
    ensures Recalculated(Recalculated(p)).connections[i] == Recalculated(p).connections[i]
  {
    DesiredSpeedUnchanged(p, i);
    RefreshTwice(p.connections[i], DesiredSpeed(p, GraphOf(p), p.connections[i]));
  }

  lemma RecalculationIdempotent(p: Project)
    ensures Recalculated(Recalculated(p)) == Recalculated(p)
  {
    var q := Recalculated(p);
    forall i | 0 <= i < |q.connections| ensures Recalculated(q).connections[i] == q.connections[i] {
      ConnectionUnchanged(p, i);
    }
    assert Recalculated(q).connections == q.connections;
  }

  /** A second normalization changes nothing, stage by stage: no stage disturbs what an earlier one did. */
  lemma NormalizationIdempotent(p: Project)
    ensures var q := Normalized(p);
      SwitchesNormalized(q) == q && LinksNormalized(q) == q && Recalculated(q) == q && Normalized(q) == q
  {
    var p1 := SwitchesNormalized(p);
    var p2 := LinksNormalized(p1);
    var q := Recalculated(p2);
    SwitchesIdempotent(p);
    assert SwitchesNormalized(q).items == SwitchesNormalized(p1).items == q.items;
    LinksIdempotent(p1, q);
    RecalculationIdempotent(p2);
  }

  /** On a normalized project the second pass reports no change in any stage. */
  method NormalizeTwice(p: Project) returns (q: Project, again: Project, changed: bool)
    requires Ordered(p)
    ensures q == Normalized(p) && again == q && !changed
  {
    var first;
    q, first := NormalizeNetworkProject(p);
    NormalizationIdempotent(p);
    assert q.items.Keys == p.items.Keys;
    again, changed := NormalizeNetworkProject(q);
  }
}
