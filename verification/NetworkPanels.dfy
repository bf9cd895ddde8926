/**
 The graph of a project said without its construction: which nodes are joined, which endpoint
 stands for a node, and what follows for cables on the two sides of a patch panel.
 */
module NetworkPanels {
  import opened Prelude
  import opened NetworkPorts
  import opened NetworkProject
  import opened NetworkGraph
  import opened NetworkNormalization

  /** A network cable has its ends at these two nodes. */
  ghost predicate CableJoins(p: Project, k: string, n: string) {
    exists i :: 0 <= i < |p.connections| && CableBetween(p.connections[i], k, n)
  }

  predicate CableBetween(c: Connection, k: string, n: string) {
    c.ctype == NetworkLink && {k, n} == {EndpointKey(c.from), EndpointKey(c.to)}
  }

  /** Face `i` is the first one on its side. */
  predicate FirstOnSide(faces: seq<Face>, side: Side, i: nat) {
    i < |faces| && faces[i].side == side && forall j :: 0 <= j < i ==> faces[j].side != side
  }

  /** The node of one face of a panel port. */
  function FaceKey(itemId: string, port: Port, i: nat): string
    requires i < |port.faces|
  {
    EndpointKey(Endpoint(itemId, None, port.id, Some(port.faces[i].id)))
  }

  /** These are the nodes of the first front and the first back face of the port. */
  ghost predicate Sides(itemId: string, port: Port, front: string, back: string) {
    exists i, j ::
      && FirstOnSide(port.faces, Front, i) && FirstOnSide(port.faces, Back, j)
      && front == FaceKey(itemId, port, i) && back == FaceKey(itemId, port, j)
  }

  /** A network port of a patch panel joins these two nodes. */
  ghost predicate PanelJoins(p: Project, k: string, n: string) {
    exists itemId, i :: PanelPortJoins(p, itemId, i, k, n)
  }

  ghost predicate PanelPortJoins(p: Project, itemId: string, i: nat, k: string, n: string) {
    && itemId in p.order && itemId in p.items && p.items[itemId].itype == "patchPanel"
    && i < |p.items[itemId].ports|
    && var port := p.items[itemId].ports[i];
    && (port.ptype == Rj45 || port.ptype == Sfp || port.ptype == SfpPlus)
    && (Sides(itemId, port, k, n) || Sides(itemId, port, n, k))
  }

  // ----- edges

  lemma {:induction false} FindIsFirst(faces: seq<Face>, side: Side) returns (i: nat)
    requires Find(faces, (f: Face) => f.side == side).Some?
    ensures FirstOnSide(faces, side, i) && faces[i] == Find(faces, (f: Face) => f.side == side).value
  {
    if faces[0].side == side {
      i := 0;
    } else {
      var k := FindIsFirst(faces[1..], side);
      i := k + 1;
      assert forall j :: 1 <= j < i ==> faces[j] == faces[1..][j - 1];
    }
  }

  lemma {:induction false} FirstIsFound(faces: seq<Face>, side: Side, i: nat)
    requires FirstOnSide(faces, side, i)
    ensures Find(faces, (f: Face) => f.side == side) == Some(faces[i])
  {
    if i > 0 {
      assert faces[0].side != side;
      assert forall j :: 0 <= j < |faces[1..]| ==> faces[1..][j] == faces[j + 1];
      FirstIsFound(faces[1..], side, i - 1);
    }
  }

  lemma PanelEdgeHasSides(itemId: string, port: Port, k: string, n: string)
    requires Joined(PanelEdge(itemId, port), k, n)
    ensures port.ptype == Rj45 || port.ptype == Sfp || port.ptype == SfpPlus
    ensures Sides(itemId, port, k, n) || Sides(itemId, port, n, k)
  {
    var edges := PanelEdge(itemId, port);
    var i := FindIsFirst(port.faces, Front);
    var j := FindIsFirst(port.faces, Back);
    assert Joins(edges[0], k, n);
    assert edges[0].a == FaceKey(itemId, port, i) && edges[0].b == FaceKey(itemId, port, j);
    assert Sides(itemId, port, edges[0].a, edges[0].b);
  }

  /** A port contributes exactly the edge between its sides. */
  lemma PanelEdgeSides(itemId: string, port: Port, k: string, n: string)
    ensures Joined(PanelEdge(itemId, port), k, n) <==>
      && (port.ptype == Rj45 || port.ptype == Sfp || port.ptype == SfpPlus)
      && (Sides(itemId, port, k, n) || Sides(itemId, port, n, k))
  {
    if Joined(PanelEdge(itemId, port), k, n) {
      PanelEdgeHasSides(itemId, port, k, n);
    }
    if Sides(itemId, port, k, n) {
      SidesAreFound(itemId, port, k, n);
    }
    if Sides(itemId, port, n, k) {
      SidesAreFound(itemId, port, n, k);
    }
  }

  lemma SidesAreFound(itemId: string, port: Port, front: string, back: string)
    requires Sides(itemId, port, front, back)
    ensures port.ptype == Rj45 || port.ptype == Sfp || port.ptype == SfpPlus ==>
      Joined(PanelEdge(itemId, port), front, back) && Joined(PanelEdge(itemId, port), back, front)
  {
    var i, j :| FirstOnSide(port.faces, Front, i) && FirstOnSide(port.faces, Back, j)
      && front == FaceKey(itemId, port, i) && back == FaceKey(itemId, port, j);
    FirstIsFound(port.faces, Front, i);
    FirstIsFound(port.faces, Back, j);
    var edges := PanelEdge(itemId, port);
    if |edges| == 1 {
      assert edges[0] in edges && Joins(edges[0], front, back) && Joins(edges[0], back, front);
    }
  }

  lemma JoinedInTwo(a: seq<Edge>, b: seq<Edge>, k: string, n: string)
    ensures Joined(a + b, k, n) <==> Joined(a, k, n) || Joined(b, k, n)
  {
    assert forall e :: e in a + b <==> e in a || e in b;
  }

  /** Port `i` contributes an edge between the nodes. */
  ghost predicate PortJoins(itemId: string, ports: seq<Port>, i: nat, k: string, n: string) {
    i < |ports| && Joined(PanelEdge(itemId, ports[i]), k, n)
  }

  lemma {:induction false} PanelEdgeHasPort(itemId: string, ports: seq<Port>, k: string, n: string) returns (i: nat)
    requires Joined(PanelEdges(itemId, ports), k, n)
    ensures PortJoins(itemId, ports, i, k, n)
  {
    EdgesNeedPorts(itemId, ports, k, n);
    var m := |ports| - 1;
    PanelEdgesStepJoins(itemId, ports, k, n);
    if Joined(PanelEdge(itemId, ports[m]), k, n) {
      i := m;
    } else {
      i := PanelEdgeHasPort(itemId, ports[..m], k, n);
      assert ports[..m][i] == ports[i];
    }
  }

  lemma EdgesNeedPorts(itemId: string, ports: seq<Port>, k: string, n: string)
    requires Joined(PanelEdges(itemId, ports), k, n)
    ensures ports != []
  {
  }

  lemma PanelEdgesStepJoins(itemId: string, ports: seq<Port>, k: string, n: string)
    requires ports != []
    ensures Joined(PanelEdges(itemId, ports), k, n) <==>
      || Joined(PanelEdges(itemId, ports[..|ports| - 1]), k, n)
      || Joined(PanelEdge(itemId, ports[|ports| - 1]), k, n)
  {
    JoinedInTwo(PanelEdges(itemId, ports[..|ports| - 1]), PanelEdge(itemId, ports[|ports| - 1]), k, n);
  }

  lemma {:induction false} PortEdgeIsPanelEdge(itemId: string, ports: seq<Port>, i: nat, k: string, n: string)
    requires PortJoins(itemId, ports, i, k, n)
    ensures Joined(PanelEdges(itemId, ports), k, n)
  {
    var m := |ports| - 1;
    if i < m {
      assert PortJoins(itemId, ports[..m], i, k, n);
      PortEdgeIsPanelEdge(itemId, ports[..m], i, k, n);
    }
    PanelEdgesStepJoins(itemId, ports, k, n);
  }

  lemma PanelEdgesJoin(itemId: string, ports: seq<Port>, k: string, n: string)
    ensures Joined(PanelEdges(itemId, ports), k, n) <==> exists i :: PortJoins(itemId, ports, i, k, n)
  {
    if Joined(PanelEdges(itemId, ports), k, n) {
      var i := PanelEdgeHasPort(itemId, ports, k, n);
    }
    if i :| PortJoins(itemId, ports, i, k, n) {
      PortEdgeIsPanelEdge(itemId, ports, i, k, n);
    }
  }

  lemma {:induction false} ItemEdgesJoin(items: map<string, Item>, order: seq<string>, k: string, n: string)
    ensures Joined(ItemEdges(items, order), k, n) <==>
      exists itemId :: itemId in order && Joined(ItemEdge(items, itemId), k, n)
  {
    if order == [] {
      assert !Joined([], k, n);
    } else {
      var m := |order| - 1;
      ItemEdgesJoin(items, order[..m], k, n);
      JoinedInTwo(ItemEdges(items, order[..m]), ItemEdge(items, order[m]), k, n);
      assert order == order[..m] + [order[m]];
    }
  }

  lemma ItemEdgeJoins(p: Project, itemId: string, k: string, n: string)
    requires itemId in p.order
    ensures Joined(ItemEdge(p.items, itemId), k, n) <==> exists i :: PanelPortJoins(p, itemId, i, k, n)
  {
    if itemId in p.items && p.items[itemId].itype == "patchPanel" {
      var ports := p.items[itemId].ports;
      PanelEdgesJoin(itemId, ports, k, n);
      forall i | 0 <= i < |ports|
        ensures PortJoins(itemId, ports, i, k, n) <==> PanelPortJoins(p, itemId, i, k, n)
      {
        PanelEdgeSides(itemId, ports[i], k, n);
      }
    } else {
      assert !Joined([], k, n);
    }
  }

  lemma PanelEdgesMeaning(p: Project, k: string, n: string)
    ensures Joined(ItemEdges(p.items, p.order), k, n) <==> PanelJoins(p, k, n)
  {
    ItemEdgesJoin(p.items, p.order, k, n);
    forall itemId | itemId in p.order
      ensures Joined(ItemEdge(p.items, itemId), k, n) <==> exists i :: PanelPortJoins(p, itemId, i, k, n)
    {
      ItemEdgeJoins(p, itemId, k, n);
    }
  }

  lemma EndsAsSet(a: string, b: string, k: string, n: string)
    ensures (a == k && b == n) || (a == n && b == k) <==> {k, n} == {a, b}
  {
    if {k, n} == {a, b} {
      assert k in {a, b} && n in {a, b} && a in {k, n} && b in {k, n};
    }
  }

  lemma CableEdgesMeaning(p: Project, k: string, n: string)
    ensures Joined(CableEdges(p.connections), k, n) <==> CableJoins(p, k, n)
  {
    if Joined(CableEdges(p.connections), k, n) {
      CableEdgeIsCable(p, k, n);
    }
    if i :| 0 <= i < |p.connections| && CableBetween(p.connections[i], k, n) {
      var e := MakeEdge(p.connections[i].from, p.connections[i].to);
      EndsAsSet(e.a, e.b, k, n);
      CableEdgesAre(p.connections, e);
      assert Joins(e, k, n);
    }
  }

  lemma CableEdgeIsCable(p: Project, k: string, n: string)
    requires Joined(CableEdges(p.connections), k, n)
    ensures CableJoins(p, k, n)
  {
    var e :| e in CableEdges(p.connections) && Joins(e, k, n);
    CableEdgesAre(p.connections, e);
    var c :| c in p.connections && c.ctype == NetworkLink && e == MakeEdge(c.from, c.to);
    var i :| 0 <= i < |p.connections| && p.connections[i] == c;
    EndsAsSet(e.a, e.b, k, n);
  }

  /** The graph joins exactly the ends of network cables and the sides of network ports of patch panels. */
  lemma GraphMeaning(p: Project, k: string, n: string)
    ensures Neighbours(GraphOf(p), k, n) <==> CableJoins(p, k, n) || PanelJoins(p, k, n)
  {
    BuildJoins(Edges(p), k, n);
    JoinedInTwo(CableEdges(p.connections), ItemEdges(p.items, p.order), k, n);
    CableEdgesMeaning(p, k, n);
    PanelEdgesMeaning(p, k, n);
  }

  // ----- the two sides of a panel

  /** Both sides of a panel port lie in one component. */
  lemma SidesShareComponent(p: Project, itemId: string, i: nat, front: string, back: string)
    requires PanelPortJoins(p, itemId, i, front, back)
    ensures Component(GraphOf(p), front) == Component(GraphOf(p), back)
  {
    var g := GraphOf(p);
    BuildWellFormed(Edges(p));
    GraphMeaning(p, front, back);
    GraphMeaning(p, back, front);
    assert PanelPortJoins(p, itemId, i, back, front);
    ConnectsItself(g, front);
    ConnectsFurther(g, front, front, back);
    SameComponent(g, front, back);
  }

  lemma SameComponentSameSpeed(p: Project, a: nat, b: nat)
    requires a < |p.connections| && b < |p.connections|
    requires p.connections[a].ctype == NetworkLink && p.connections[b].ctype == NetworkLink
    requires Component(GraphOf(p), EndpointKey(p.connections[a].from))
          == Component(GraphOf(p), EndpointKey(p.connections[b].from))
    ensures Recalculated(p).connections[a].negotiatedBps == Recalculated(p).connections[b].negotiatedBps
  {
    RefreshMeaning(p.connections[a], DesiredSpeed(p, GraphOf(p), p.connections[a]));
    RefreshMeaning(p.connections[b], DesiredSpeed(p, GraphOf(p), p.connections[b]));
  }

  /** One end of the connection is at the node. */
  predicate EndsAt(c: Connection, k: string) {
    EndpointKey(c.from) == k || EndpointKey(c.to) == k
  }

  lemma CableComponent(p: Project, i: nat, k: string)
    requires i < |p.connections| && p.connections[i].ctype == NetworkLink && EndsAt(p.connections[i], k)
    ensures Component(GraphOf(p), EndpointKey(p.connections[i].from)) == Component(GraphOf(p), k)
  {
    EndsShareComponent(p, p.connections[i]);
  }

  /** A cable on the front of a panel port and one on its back carry the same speed after recalculation. */
  lemma PanelPassesSpeed(p: Project, itemId: string, i: nat, front: string, back: string, a: nat, b: nat)
    requires PanelPortJoins(p, itemId, i, front, back)
    requires a < |p.connections| && p.connections[a].ctype == NetworkLink && EndsAt(p.connections[a], front)
    requires b < |p.connections| && p.connections[b].ctype == NetworkLink && EndsAt(p.connections[b], back)
    ensures Recalculated(p).connections[a].negotiatedBps == Recalculated(p).connections[b].negotiatedBps
  {
    SidesShareComponent(p, itemId, i, front, back);
    CableComponent(p, a, front);
    CableComponent(p, b, back);
    SameComponentSameSpeed(p, a, b);
  }

  // ----- which endpoint stands for a node

  predicate Mentions(e: Edge, k: string) {
    e.a == k || e.b == k
  }

  /** The end of an edge at the node; the second one counts when both are. */
  function EndAt(e: Edge, k: string): Endpoint {
    if e.b == k then e.to else e.from
  }

  /** Edge `i` is the last to mention the node. */
  predicate LastMention(edges: seq<Edge>, k: string, i: nat) {
    i < |edges| && Mentions(edges[i], k) && forall j :: i < j < |edges| ==> !Mentions(edges[j], k)
  }

  lemma AddEdgeRecords(g: Graph, e: Edge, k: string)
    ensures var h := AddEdge(g, e);
      && (Mentions(e, k) ==> k in h.endpoint && h.endpoint[k] == EndAt(e, k))
      && (!Mentions(e, k) && k in g.endpoint ==> k in h.endpoint && h.endpoint[k] == g.endpoint[k])
  {
  }

  /** A node stands for the endpoint of its last mention. */
  lemma {:induction false} RecordedEndpoint(edges: seq<Edge>, k: string, i: nat)
    requires LastMention(edges, k, i)
    ensures k in Build(edges).endpoint && Build(edges).endpoint[k] == EndAt(edges[i], k)
  {
    var n := |edges| - 1;
    BuildStepRecords(edges, k);
    if i < n {
      LastMentionInFront(edges, k, i);
      RecordedEndpoint(edges[..n], k, i);
    }
  }

  lemma BuildStepRecords(edges: seq<Edge>, k: string)
    requires edges != []
    ensures var g, h := Build(edges[..|edges| - 1]), Build(edges);
      var e := edges[|edges| - 1];
      && (Mentions(e, k) ==> k in h.endpoint && h.endpoint[k] == EndAt(e, k))
      && (!Mentions(e, k) && k in g.endpoint ==> k in h.endpoint && h.endpoint[k] == g.endpoint[k])
  {
    AddEdgeRecords(Build(edges[..|edges| - 1]), edges[|edges| - 1], k);
  }

  lemma LastMentionInFront(edges: seq<Edge>, k: string, i: nat)
    requires LastMention(edges, k, i) && i < |edges| - 1
    ensures LastMention(edges[..|edges| - 1], k, i) && edges[..|edges| - 1][i] == edges[i]
    ensures !Mentions(edges[|edges| - 1], k)
  {
  }

  // ----- node keys

  predicate ColonFree(s: string) {
    ':' !in s
  }

  /** Cutting at a colon behind which there is none is unique. */
  lemma LastPartIsUnique(a: string, b: string, x: string, y: string)
    requires a + ":" + x == b + ":" + y && ColonFree(x) && ColonFree(y)
    ensures a == b && x == y
  {
    var s := a + ":" + x;
    assert s[|a|] == ':' && s[|b|] == ':';
    assert forall i :: |a| < i < |s| ==> s[i] == x[i - |a| - 1] && s[i] != ':';
    assert forall i :: |b| < i < |s| ==> s[i] == y[i - |b| - 1] && s[i] != ':';
    assert a == s[..|a|] && b == s[..|b|];
    assert x == s[|a| + 1..] && y == s[|b| + 1..];
  }

  function Hosted(e: Endpoint): string {
    if e.hosted.Some? then e.hosted.value else "direct"
  }

  function FaceText(e: Endpoint): string {
    if e.face.Some? then e.face.value else "port"
  }

  /** Neither of the two fixed words is used as an identifier. */
  predicate NoFixedWords(e: Endpoint) {
    e.hosted != Some("direct") && e.face != Some("port")
  }

  /** Endpoints of one item with plain port and face identifiers are one node only if they are one endpoint. */
  lemma KeysTellEndpointsApart(a: Endpoint, b: Endpoint)
    requires a.itemId == b.itemId && NoFixedWords(a) && NoFixedWords(b)
    requires ColonFree(a.portId) && ColonFree(b.portId) && ColonFree(FaceText(a)) && ColonFree(FaceText(b))
    ensures EndpointKey(a) == EndpointKey(b) <==> a == b
  {
    if EndpointKey(a) == EndpointKey(b) {
      var x, y := a.itemId + ":" + Hosted(a), b.itemId + ":" + Hosted(b);
      assert EndpointKey(a) == (x + ":" + a.portId) + ":" + FaceText(a);
      assert EndpointKey(b) == (y + ":" + b.portId) + ":" + FaceText(b);
      LastPartIsUnique(x + ":" + a.portId, y + ":" + b.portId, FaceText(a), FaceText(b));
      LastPartIsUnique(x, y, a.portId, b.portId);
      assert x[|a.itemId| + 1..] == Hosted(a) && y[|b.itemId| + 1..] == Hosted(b);
    }
  }
}
