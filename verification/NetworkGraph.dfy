/** The undirected endpoint graph, reachability in it, and its connected components. */
module NetworkGraph {
  import opened Prelude
  import opened NetworkProject

  /** Node keys in insertion order, neighbours by key, and the last endpoint added under each key. */
  datatype Graph = Graph(keys: seq<string>, adjacent: map<string, set<string>>, endpoint: map<string, Endpoint>)

  const EMPTY := Graph([], map[], map[])

  /** An edge between two keyed endpoints. */
  datatype Edge = Edge(a: string, from: Endpoint, b: string, to: Endpoint)

  function AddNode(g: Graph, key: string, e: Endpoint): Graph {
    Graph(
      if key in g.adjacent then g.keys else g.keys + [key],
      if key in g.adjacent then g.adjacent else g.adjacent[key := {}],
      g.endpoint[key := e])
  }

  function AddEdge(g: Graph, e: Edge): Graph {
    var h := AddNode(AddNode(g, e.a, e.from), e.b, e.to);
    var adj := h.adjacent[e.a := h.adjacent[e.a] + {e.b}];
    h.(adjacent := adj[e.b := adj[e.b] + {e.a}])
  }

  /** The graph of a list of edges, added in order. */
  function Build(edges: seq<Edge>): Graph {
    if edges == [] then EMPTY
    else AddEdge(Build(edges[..|edges| - 1]), edges[|edges| - 1])
  }

  ghost predicate Symmetric(g: Graph) {
    forall k, n :: k in g.adjacent && n in g.adjacent[k] ==> n in g.adjacent && k in g.adjacent[n]
  }

  ghost predicate KeysMatch(g: Graph) {
    && (forall k :: k in g.keys <==> k in g.adjacent)
    && g.adjacent.Keys == g.endpoint.Keys
    && (forall i, j :: 0 <= i < j < |g.keys| ==> g.keys[i] != g.keys[j])
  }

  ghost predicate WellFormed(g: Graph) {
    KeysMatch(g) && Symmetric(g)
  }

  lemma AddNodeKeysMatch(g: Graph, key: string, e: Endpoint)
    requires KeysMatch(g)
    ensures KeysMatch(AddNode(g, key, e))
  {
    var h := AddNode(g, key, e);
    if key !in g.adjacent {
      assert key !in g.keys;
      forall i, j | 0 <= i < j < |h.keys| ensures h.keys[i] != h.keys[j] {
        assert h.keys[i] == g.keys[i] && g.keys[i] in g.keys;
      }
    }
  }

  /** How one edge changes the neighbours of every key. */
  lemma AddEdgeAdjacent(g: Graph, e: Edge, k: string)
    ensures k in AddEdge(g, e).adjacent <==> k in g.adjacent || k == e.a || k == e.b
    ensures k in AddEdge(g, e).adjacent ==>
              AddEdge(g, e).adjacent[k] == (if k in g.adjacent then g.adjacent[k] else {})
                + (if k == e.a then {e.b} else {}) + (if k == e.b then {e.a} else {})
  {
  }

  lemma AddEdgeWellFormed(g: Graph, e: Edge)
    requires WellFormed(g)
    ensures WellFormed(AddEdge(g, e))
  {
    var h := AddNode(AddNode(g, e.a, e.from), e.b, e.to);
    var r := AddEdge(g, e);
    assert KeysMatch(r) by {
      AddNodeKeysMatch(g, e.a, e.from);
      AddNodeKeysMatch(AddNode(g, e.a, e.from), e.b, e.to);
      assert r.adjacent.Keys == h.adjacent.Keys;
    }
    forall k, n | k in r.adjacent && n in r.adjacent[k] ensures n in r.adjacent && k in r.adjacent[n] {
      AddEdgeAdjacent(g, e, k);
      AddEdgeAdjacent(g, e, n);
    }
  }

  lemma {:induction false} BuildWellFormed(edges: seq<Edge>)
    ensures WellFormed(Build(edges))
  {
    if edges != [] {
      BuildWellFormed(edges[..|edges| - 1]);
      AddEdgeWellFormed(Build(edges[..|edges| - 1]), edges[|edges| - 1]);
    }
  }

  predicate Joins(e: Edge, k: string, n: string) {
    (e.a == k && e.b == n) || (e.a == n && e.b == k)
  }

  ghost predicate Neighbours(g: Graph, k: string, n: string) {
    k in g.adjacent && n in g.adjacent[k]
  }

  lemma AddEdgeJoins(g: Graph, e: Edge, k: string, n: string)
    ensures Neighbours(AddEdge(g, e), k, n) <==> Neighbours(g, k, n) || Joins(e, k, n)
  {
    AddEdgeAdjacent(g, e, k);
  }

  ghost predicate Joined(edges: seq<Edge>, k: string, n: string) {
    exists e :: e in edges && Joins(e, k, n)
  }

  lemma JoinedByLast(front: seq<Edge>, last: Edge, k: string, n: string)
    ensures Joined(front + [last], k, n) <==> Joined(front, k, n) || Joins(last, k, n)
  {
    assert last in front + [last];
  }

  /** The built graph joins exactly the keys that some edge joins. */
  lemma {:induction false} BuildJoins(edges: seq<Edge>, k: string, n: string)
    ensures Neighbours(Build(edges), k, n) <==> Joined(edges, k, n)
  {
    if edges != [] {
      var front, last := edges[..|edges| - 1], edges[|edges| - 1];
      BuildJoins(front, k, n);
      AddEdgeJoins(Build(front), last, k, n);
      JoinedByLast(front, last, k, n);
      assert edges == front + [last];
    } else {
      assert !Joined(edges, k, n);
    }
  }

  // ----- reachability

  ghost predicate Path(g: Graph, path: seq<string>) {
    && path != [] && path[0] in g.adjacent
    && forall i :: 0 <= i < |path| - 1 ==> path[i] in g.adjacent && path[i + 1] in g.adjacent[path[i]]
  }

  ghost predicate Connects(g: Graph, a: string, b: string) {
    exists path :: Path(g, path) && path[0] == a && path[|path| - 1] == b
  }

  /** All keys connected to `k`. */
  ghost function Component(g: Graph, k: string): set<string> {
    set n | n in g.adjacent && Connects(g, k, n)
  }

  ghost predicate Closed(g: Graph, s: set<string>) {
    forall k, n :: k in s && k in g.adjacent && n in g.adjacent[k] ==> n in s
  }

  lemma ConnectsItself(g: Graph, k: string)
    requires k in g.adjacent
    ensures Connects(g, k, k)
  {
    assert Path(g, [k]);
  }

  lemma ConnectsFurther(g: Graph, a: string, b: string, c: string)
    requires Connects(g, a, b) && b in g.adjacent && c in g.adjacent[b]
    ensures Connects(g, a, c)
  {
    var path :| Path(g, path) && path[0] == a && path[|path| - 1] == b;
    assert Path(g, path + [c]);
    assert (path + [c])[|path + [c]| - 1] == c;
  }

  lemma {:induction false} PathStaysInside(g: Graph, s: set<string>, path: seq<string>)
    requires Closed(g, s) && Path(g, path) && path[0] in s
    ensures path[|path| - 1] in s
  {
    if |path| > 1 {
      PathStaysInside(g, s, path[..|path| - 1]);
    }
  }

  lemma {:induction false} PathReverses(g: Graph, path: seq<string>)
    requires WellFormed(g) && Path(g, path)
    ensures Connects(g, path[|path| - 1], path[0])
  {
    var last := path[|path| - 1];
    if |path| == 1 {
      ConnectsItself(g, last);
    } else {
      var rest := path[1..];
      PathReverses(g, rest);
      ConnectsFurther(g, last, rest[0], path[0]);
    }
  }

  lemma ConnectsIsSymmetric(g: Graph, a: string, b: string)
    requires WellFormed(g) && Connects(g, a, b)
    ensures Connects(g, b, a)
  {
    var path :| Path(g, path) && path[0] == a && path[|path| - 1] == b;
    PathReverses(g, path);
  }

  lemma ConnectsIsTransitive(g: Graph, a: string, b: string, c: string)
    requires Connects(g, a, b) && Connects(g, b, c)
    ensures Connects(g, a, c)
  {
    var p :| Path(g, p) && p[0] == a && p[|p| - 1] == b;
    var q :| Path(g, q) && q[0] == b && q[|q| - 1] == c;
    var r := p + q[1..];
    forall i | 0 <= i < |r| - 1 ensures r[i] in g.adjacent && r[i + 1] in g.adjacent[r[i]] {
      if i >= |p| - 1 {
        assert r[i] == q[i - |p| + 1] && r[i + 1] == q[i - |p| + 2];
      }
    }
    assert Path(g, r) && r[|r| - 1] == c;
  }

  /** A closed set of keys all connected to `k`, with `k` in it, is the component of `k`. */
  lemma ClosedIsComponent(g: Graph, s: set<string>, k: string)
    requires WellFormed(g) && Closed(g, s) && k in s && s <= g.adjacent.Keys
    requires forall n :: n in s ==> Connects(g, k, n)
    ensures s == Component(g, k)
  {
    forall n | n in Component(g, k) ensures n in s {
      var path :| Path(g, path) && path[0] == k && path[|path| - 1] == n;
      PathStaysInside(g, s, path);
    }
  }

  /** Connected keys have the same component; the components partition the keys. */
  lemma SameComponent(g: Graph, a: string, b: string)
    requires WellFormed(g) && b in Component(g, a)
    ensures Component(g, a) == Component(g, b)
  {
    ConnectsIsSymmetric(g, a, b);
    forall n | n in g.adjacent ensures Connects(g, a, n) <==> Connects(g, b, n) {
      if Connects(g, a, n) { ConnectsIsTransitive(g, b, a, n); }
      if Connects(g, b, n) { ConnectsIsTransitive(g, a, b, n); }
    }
  }
}
