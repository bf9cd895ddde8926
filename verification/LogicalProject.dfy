/** Runtime projects and the logical sections of a backup: two forms of one project. */
module LogicalProject {
  import opened Prelude

  // ----- Numbers as texts

  /** A number of the host language: a whole one, or any other value that its reader can produce. */
  datatype Num = Whole(n: nat) | Other(code: int)

  /** The host language's conversions between texts and numbers. */
  datatype Conversions = Conversions(number: string -> Num, text: Num -> string)

  predicate Digits(s: string) {
    s != [] && forall i :: 0 <= i < |s| ==> '0' <= s[i] <= '9'
  }

  function Decimal(n: nat): (r: string)
    ensures Digits(r)
  {
    var digit := '0' + (n % 10) as char;
    if n < 10 then [digit] else Decimal(n / 10) + [digit]
  }

  function DecimalValue(s: string): nat
    requires forall i :: 0 <= i < |s| ==> '0' <= s[i] <= '9'
  {
    if s == [] then 0 else DecimalValue(s[..|s| - 1]) * 10 + (s[|s| - 1] - '0') as nat
  }

  lemma {:induction false} DecimalRoundTrip(n: nat)
    ensures DecimalValue(Decimal(n)) == n
  {
    if n >= 10 {
      DecimalRoundTrip(n / 10);
      assert Decimal(n)[..|Decimal(n)| - 1] == Decimal(n / 10);
    }
  }

  /**
   All that is used of the conversions: decimal numerals read as usual and whole numbers print without leading
   zeros.
   */
  ghost predicate Standard(js: Conversions) {
    && (forall s :: Digits(s) ==> js.number(s) == Whole(DecimalValue(s)))
    && (forall n: nat :: js.text(Whole(n)) == Decimal(n))
  }

  /** One such pair of conversions. */
  function DecimalConversions(): (js: Conversions)
    ensures Standard(js)
  {
    Conversions(
      (s: string) => if Digits(s) then Whole(DecimalValue(s)) else Other(0),
      (n: Num) => if n.Whole? then Decimal(n.n) else "NaN")
  }

  // ----- Item keys

  /** A reference to an item by type and id. */
  datatype ItemRef = ItemRef(kind: string, id: Num)

  /** The position of the last colon, or -1. */
  function LastColon(s: string): (i: int)
    ensures -1 <= i < |s|
    ensures i >= 0 ==> s[i] == ':'
    ensures forall j :: i < j < |s| ==> s[j] != ':'
  {
    if s == [] then -1
    else if s[|s| - 1] == ':' then |s| - 1
    else LastColon(s[..|s| - 1])
  }

  /**
   Cuts at the last colon; without one, the type is the text less its last character and the id its reading as
   a number.
   */
  function ParseItemKey(js: Conversions, key: string): ItemRef {
    var separator := LastColon(key);
    if separator >= 0 then ItemRef(key[..separator], js.number(key[separator + 1..]))
    else if key == [] then ItemRef("", js.number(key))
    else ItemRef(key[..|key| - 1], js.number(key))
  }

  function ItemKey(js: Conversions, ref: ItemRef): string {
    ref.kind + ":" + js.text(ref.id)
  }

  /** The key has a colon and what follows the last one is a number as it would be printed. */
  predicate FaithfulKey(js: Conversions, key: string) {
    var separator := LastColon(key);
    separator >= 0 && js.text(js.number(key[separator + 1..])) == key[separator + 1..]
  }

  predicate FaithfulRef(js: Conversions, ref: ItemRef) {
    LastColon(js.text(ref.id)) == -1 && js.number(js.text(ref.id)) == ref.id
  }

  /** A key survives the trip through its parts exactly when it is faithful. */
  lemma KeyRoundTrip(js: Conversions, key: string)
    ensures ItemKey(js, ParseItemKey(js, key)) == key <==> FaithfulKey(js, key)
  {
    var separator := LastColon(key);
    var again := ItemKey(js, ParseItemKey(js, key));
    if separator >= 0 {
      assert key == key[..separator] + ":" + key[separator + 1..];
      assert again[separator + 1..] == js.text(js.number(key[separator + 1..]));
    } else {
      assert again[|ParseItemKey(js, key).kind|] == ':';
    }
  }

  /** A key without a colon loses its last character to the type and is read as a number as a whole. */
  lemma KeyWithoutColon(js: Conversions, key: string)
    requires LastColon(key) == -1
    ensures ParseItemKey(js, key).id == js.number(key)
    ensures key != "" ==> exists last :: ParseItemKey(js, key).kind + [last] == key
    ensures key == "" ==> ParseItemKey(js, key).kind == ""
  {
    if key != "" {
      assert key[..|key| - 1] + [key[|key| - 1]] == key;
    }
  }

  lemma LastColonOfKey(kind: string, tail: string)
    requires LastColon(tail) == -1
    ensures LastColon(kind + ":" + tail) == |kind|
  {
    var key := kind + ":" + tail;
    assert key[|kind|] == ':';
    forall j | |kind| < j < |key| ensures key[j] != ':' {
      assert key[j] == tail[j - |kind| - 1];
    }
  }

  /** A reference survives the trip through its key exactly when its id does. */
  lemma RefRoundTrip(js: Conversions, ref: ItemRef)
    ensures ParseItemKey(js, ItemKey(js, ref)) == ref <==> FaithfulRef(js, ref)
  {
    var tail := js.text(ref.id);
    var key := ItemKey(js, ref);
    if LastColon(tail) == -1 {
      LastColonOfKey(ref.kind, tail);
      assert key[..|ref.kind|] == ref.kind && key[|ref.kind| + 1..] == tail;
    } else {
      assert key[|ref.kind| + 1 + LastColon(tail)] == ':';
      assert LastColon(key) > |ref.kind|;
    }
  }

  lemma DigitsHaveNoColon(s: string)
    requires Digits(s)
    ensures LastColon(s) == -1
  {
    if LastColon(s) >= 0 {
      assert s[LastColon(s)] == ':';
    }
  }

  lemma WholeIdsAreFaithful(js: Conversions, ref: ItemRef)
    requires Standard(js) && ref.id.Whole?
    ensures FaithfulRef(js, ref)
  {
    DecimalRoundTrip(ref.id.n);
    DigitsHaveNoColon(Decimal(ref.id.n));
  }

  /** Every canonical `type:id` key is faithful, also when the type itself contains colons. */
  lemma CanonicalKeysAreFaithful(js: Conversions, kind: string, n: nat)
    requires Standard(js)
    ensures FaithfulKey(js, kind + ":" + Decimal(n))
    ensures ParseItemKey(js, kind + ":" + Decimal(n)) == ItemRef(kind, Whole(n))
  {
    var ref := ItemRef(kind, Whole(n));
    WholeIdsAreFaithful(js, ref);
    RefRoundTrip(js, ref);
    KeyRoundTrip(js, ItemKey(js, ref));
  }

  // ----- Projects

  /** Fields that are copied as they are hold their JSON text. */
  type Json = string

  datatype Endpoint = Endpoint(item: string, port: Json, face: Option<Json>, hosted: Option<string>)
  datatype Placement = Placement(server: string, x: Json, y: Json)
  datatype Assignment = Assignment(id: Json, server: string, item: string, fields: Json, allocation: Option<Json>)
  datatype Connection = Connection(from: Endpoint, to: Endpoint, fields: Json)

  datatype Project = Project(
    id: string,
    revision: Json,
    metadata: Json,
    items: Json,
    placements: seq<Placement>,
    assignments: seq<Assignment>,
    connections: seq<Connection>,
    policy: Json)

  datatype LogicalEndpoint = LogicalEndpoint(item: ItemRef, port: Json, face: Option<Json>, hosted: Option<ItemRef>)
  datatype LogicalPlacement = LogicalPlacement(item: ItemRef, x: Json, y: Json)
  datatype LogicalAssignment = LogicalAssignment(id: Json, host: ItemRef, item: ItemRef, fields: Json,
                                                 allocation: Option<Json>)
  datatype LogicalConnection = LogicalConnection(from: LogicalEndpoint, to: LogicalEndpoint, fields: Json)

  /** A section read back may lack its id and any of its lists. */
  datatype Section = Section(
    id: Option<string>,
    revision: Json,
    metadata: Json,
    placements: Option<seq<LogicalPlacement>>,
    assignments: Option<seq<LogicalAssignment>>,
    connections: Option<seq<LogicalConnection>>,
    policy: Json)

  /** An empty hosted key counts as none. */
  function PersistedEndpoint(js: Conversions, e: Endpoint): LogicalEndpoint {
    LogicalEndpoint(
      ParseItemKey(js, e.item), e.port, e.face,
      if e.hosted.None? || e.hosted.value == "" then None else Some(ParseItemKey(js, e.hosted.value)))
  }

  function PersistedPlacement(js: Conversions, p: Placement): LogicalPlacement {
    LogicalPlacement(ParseItemKey(js, p.server), p.x, p.y)
  }

  function PersistedAssignment(js: Conversions, a: Assignment): LogicalAssignment {
    LogicalAssignment(a.id, ParseItemKey(js, a.server), ParseItemKey(js, a.item), a.fields, a.allocation)
  }

  function PersistedConnection(js: Conversions, c: Connection): LogicalConnection {
    LogicalConnection(PersistedEndpoint(js, c.from), PersistedEndpoint(js, c.to), c.fields)
  }

  function LogicalProjectSection(js: Conversions, p: Project): Section {
    Section(
      Some(p.id), p.revision, p.metadata,
      Some(Each(p.placements, x => PersistedPlacement(js, x))),
      Some(Each(p.assignments, x => PersistedAssignment(js, x))),
      Some(Each(p.connections, x => PersistedConnection(js, x))),
      p.policy)
  }

  /** An empty hosted type counts as none. */
  function RuntimeEndpoint(js: Conversions, e: LogicalEndpoint): Endpoint {
    Endpoint(
      ItemKey(js, e.item), e.port, e.face,
      if e.hosted.None? || e.hosted.value.kind == "" then None else Some(ItemKey(js, e.hosted.value)))
  }

  function RuntimePlacement(js: Conversions, p: LogicalPlacement): Placement {
    Placement(ItemKey(js, p.item), p.x, p.y)
  }

  function RuntimeAssignment(js: Conversions, a: LogicalAssignment): Assignment {
    Assignment(a.id, ItemKey(js, a.host), ItemKey(js, a.item), a.fields, a.allocation)
  }

  function RuntimeConnection(js: Conversions, c: LogicalConnection): Connection {
    Connection(RuntimeEndpoint(js, c.from), RuntimeEndpoint(js, c.to), c.fields)
  }

  function OrElse<T>(o: Option<T>, default: T): T {
    if o.None? then default else o.value
  }

  function RuntimeProjectFromLogical(js: Conversions, s: Section, items: Json): Project {
    Project(
      OrElse(s.id, "default"), s.revision, s.metadata, items,
      Each(OrElse(s.placements, []), x => RuntimePlacement(js, x)),
      Each(OrElse(s.assignments, []), x => RuntimeAssignment(js, x)),
      Each(OrElse(s.connections, []), x => RuntimeConnection(js, x)),
      s.policy)
  }

  /** A section that lacks its id or a list reads as the default project, or as one without such entries. */
  lemma MissingPartsHaveDefaults(js: Conversions, s: Section, items: Json)
    ensures var p := RuntimeProjectFromLogical(js, s, items);
      && (s.id.None? ==> p.id == "default")
      && (s.placements.None? ==> p.placements == [])
      && (s.assignments.None? ==> p.assignments == [])
      && (s.connections.None? ==> p.connections == [])
  {
  }

  // ----- Runtime to logical and back

  predicate FaithfulEndpoint(js: Conversions, e: Endpoint) {
    && FaithfulKey(js, e.item)
    && (e.hosted.Some? ==> FaithfulKey(js, e.hosted.value) && LastColon(e.hosted.value) > 0)
  }

  predicate FaithfulProject(js: Conversions, p: Project) {
    && (forall i :: 0 <= i < |p.placements| ==> FaithfulKey(js, p.placements[i].server))
    && (forall i :: 0 <= i < |p.assignments| ==>
          FaithfulKey(js, p.assignments[i].server) && FaithfulKey(js, p.assignments[i].item))
    && (forall i :: 0 <= i < |p.connections| ==>
          FaithfulEndpoint(js, p.connections[i].from) && FaithfulEndpoint(js, p.connections[i].to))
  }

  lemma EndpointRoundTrip(js: Conversions, e: Endpoint)
    ensures RuntimeEndpoint(js, PersistedEndpoint(js, e)) == e <==> FaithfulEndpoint(js, e)
  {
    KeyRoundTrip(js, e.item);
    if e.hosted.Some? {
      KeyRoundTrip(js, e.hosted.value);
    }
  }

  /** Two maps one after the other change nothing exactly when they change no element. */
  lemma EachTwice<T, U>(s: seq<T>, f: T -> U, g: U -> T)
    ensures Each(Each(s, f), g) == s <==> forall i :: 0 <= i < |s| ==> g(f(s[i])) == s[i]
  {
    if forall i :: 0 <= i < |s| ==> g(f(s[i])) == s[i] {
      assert Each(Each(s, f), g) == s;
    }
    if Each(Each(s, f), g) == s {
      forall i | 0 <= i < |s| ensures g(f(s[i])) == s[i] {
        assert Each(Each(s, f), g)[i] == g(f(s[i]));
      }
    }
  }

  lemma PlacementsRoundTrip(js: Conversions, s: seq<Placement>)
    ensures Each(Each(s, x => PersistedPlacement(js, x)), y => RuntimePlacement(js, y)) == s
      <==> forall i :: 0 <= i < |s| ==> FaithfulKey(js, s[i].server)
  {
    EachTwice(s, x => PersistedPlacement(js, x), y => RuntimePlacement(js, y));
    forall i | 0 <= i < |s|
      ensures RuntimePlacement(js, PersistedPlacement(js, s[i])) == s[i] <==> FaithfulKey(js, s[i].server)
    {
      KeyRoundTrip(js, s[i].server);
    }
  }

  lemma AssignmentsRoundTrip(js: Conversions, s: seq<Assignment>)
    ensures Each(Each(s, x => PersistedAssignment(js, x)), y => RuntimeAssignment(js, y)) == s
      <==> forall i :: 0 <= i < |s| ==> FaithfulKey(js, s[i].server) && FaithfulKey(js, s[i].item)
  {
    EachTwice(s, x => PersistedAssignment(js, x), y => RuntimeAssignment(js, y));
    forall i | 0 <= i < |s|
      ensures RuntimeAssignment(js, PersistedAssignment(js, s[i])) == s[i]
        <==> FaithfulKey(js, s[i].server) && FaithfulKey(js, s[i].item)
    {
      KeyRoundTrip(js, s[i].server);
      KeyRoundTrip(js, s[i].item);
    }
  }

  lemma ConnectionsRoundTrip(js: Conversions, s: seq<Connection>)
    ensures Each(Each(s, x => PersistedConnection(js, x)), y => RuntimeConnection(js, y)) == s
      <==> forall i :: 0 <= i < |s| ==> FaithfulEndpoint(js, s[i].from) && FaithfulEndpoint(js, s[i].to)
  {
    EachTwice(s, x => PersistedConnection(js, x), y => RuntimeConnection(js, y));
    forall i | 0 <= i < |s|
      ensures RuntimeConnection(js, PersistedConnection(js, s[i])) == s[i]
        <==> FaithfulEndpoint(js, s[i].from) && FaithfulEndpoint(js, s[i].to)
    {
      EndpointRoundTrip(js, s[i].from);
      EndpointRoundTrip(js, s[i].to);
    }
  }

  /** A project comes back from its section exactly when its keys are faithful and hosted keys name a type. */
  lemma RuntimeRoundTrip(js: Conversions, p: Project)
    ensures RuntimeProjectFromLogical(js, LogicalProjectSection(js, p), p.items) == p <==> FaithfulProject(js, p)
  {
    PlacementsRoundTrip(js, p.placements);
    AssignmentsRoundTrip(js, p.assignments);
    ConnectionsRoundTrip(js, p.connections);
  }

  // ----- Logical to runtime and back

  predicate FaithfulLogicalEndpoint(js: Conversions, e: LogicalEndpoint) {
    && FaithfulRef(js, e.item)
    && (e.hosted.Some? ==> FaithfulRef(js, e.hosted.value) && e.hosted.value.kind != "")
  }

  /** The section is complete and its references survive. */
  predicate FaithfulSection(js: Conversions, s: Section) {
    && s.id.Some? && s.placements.Some? && s.assignments.Some? && s.connections.Some?
    && (forall i :: 0 <= i < |s.placements.value| ==> FaithfulRef(js, s.placements.value[i].item))
    && (forall i :: 0 <= i < |s.assignments.value| ==>
          FaithfulRef(js, s.assignments.value[i].host) && FaithfulRef(js, s.assignments.value[i].item))
    && (forall i :: 0 <= i < |s.connections.value| ==>
          && FaithfulLogicalEndpoint(js, s.connections.value[i].from)
          && FaithfulLogicalEndpoint(js, s.connections.value[i].to))
  }

  lemma LogicalEndpointRoundTrip(js: Conversions, e: LogicalEndpoint)
    ensures PersistedEndpoint(js, RuntimeEndpoint(js, e)) == e <==> FaithfulLogicalEndpoint(js, e)
  {
    RefRoundTrip(js, e.item);
    if e.hosted.Some? {
      RefRoundTrip(js, e.hosted.value);
    }
  }

  lemma LogicalPlacementsRoundTrip(js: Conversions, s: seq<LogicalPlacement>)
    ensures Each(Each(s, x => RuntimePlacement(js, x)), y => PersistedPlacement(js, y)) == s
      <==> forall i :: 0 <= i < |s| ==> FaithfulRef(js, s[i].item)
  {
    EachTwice(s, x => RuntimePlacement(js, x), y => PersistedPlacement(js, y));
    forall i | 0 <= i < |s|
      ensures PersistedPlacement(js, RuntimePlacement(js, s[i])) == s[i] <==> FaithfulRef(js, s[i].item)
    {
      RefRoundTrip(js, s[i].item);
    }
  }

  lemma LogicalAssignmentsRoundTrip(js: Conversions, s: seq<LogicalAssignment>)
    ensures Each(Each(s, x => RuntimeAssignment(js, x)), y => PersistedAssignment(js, y)) == s
      <==> forall i :: 0 <= i < |s| ==> FaithfulRef(js, s[i].host) && FaithfulRef(js, s[i].item)
  {
    EachTwice(s, x => RuntimeAssignment(js, x), y => PersistedAssignment(js, y));
    forall i | 0 <= i < |s|
      ensures PersistedAssignment(js, RuntimeAssignment(js, s[i])) == s[i]
        <==> FaithfulRef(js, s[i].host) && FaithfulRef(js, s[i].item)
    {
      RefRoundTrip(js, s[i].host);
      RefRoundTrip(js, s[i].item);
    }
  }

  lemma LogicalConnectionsRoundTrip(js: Conversions, s: seq<LogicalConnection>)
    ensures Each(Each(s, x => RuntimeConnection(js, x)), y => PersistedConnection(js, y)) == s
      <==> forall i :: 0 <= i < |s| ==> FaithfulLogicalEndpoint(js, s[i].from) && FaithfulLogicalEndpoint(js, s[i].to)
  {
    EachTwice(s, x => RuntimeConnection(js, x), y => PersistedConnection(js, y));
    forall i | 0 <= i < |s|
      ensures PersistedConnection(js, RuntimeConnection(js, s[i])) == s[i]
        <==> FaithfulLogicalEndpoint(js, s[i].from) && FaithfulLogicalEndpoint(js, s[i].to)
    {
      LogicalEndpointRoundTrip(js, s[i].from);
      LogicalEndpointRoundTrip(js, s[i].to);
    }
  }

  /** A section comes back from its project exactly when it is complete and its references survive. */
  lemma LogicalRoundTrip(js: Conversions, s: Section, items: Json)
    ensures LogicalProjectSection(js, RuntimeProjectFromLogical(js, s, items)) == s <==> FaithfulSection(js, s)
  {
    LogicalPlacementsRoundTrip(js, OrElse(s.placements, []));
    LogicalAssignmentsRoundTrip(js, OrElse(s.assignments, []));
    LogicalConnectionsRoundTrip(js, OrElse(s.connections, []));
  }

  // ----- Canonical projects

  /** `type:id` with the id in plain decimal. */
  predicate Canonical(key: string) {
    var separator := LastColon(key);
    && separator >= 0 && Digits(key[separator + 1..])
    && Decimal(DecimalValue(key[separator + 1..])) == key[separator + 1..]
  }

  /** The canonical keys are exactly the printed references with whole ids. */
  lemma CanonicalMeaning(js: Conversions, key: string)
    requires Standard(js)
    ensures Canonical(key) <==> FaithfulKey(js, key) && ParseItemKey(js, key).id.Whole?
  {
    var separator := LastColon(key);
    if separator >= 0 {
      var tail := key[separator + 1..];
      if js.number(tail).Whole? && js.text(js.number(tail)) == tail {
        DecimalRoundTrip(js.number(tail).n);
      }
    }
  }

  predicate CanonicalEndpoint(e: Endpoint) {
    Canonical(e.item) && (e.hosted.Some? ==> Canonical(e.hosted.value) && LastColon(e.hosted.value) > 0)
  }

  predicate CanonicalProject(p: Project) {
    && (forall i :: 0 <= i < |p.placements| ==> Canonical(p.placements[i].server))
    && (forall i :: 0 <= i < |p.assignments| ==> Canonical(p.assignments[i].server) && Canonical(p.assignments[i].item))
    && (forall i :: 0 <= i < |p.connections| ==>
          CanonicalEndpoint(p.connections[i].from) && CanonicalEndpoint(p.connections[i].to))
  }

  /** Every project with canonical keys comes back whole, under any standard number conversions. */
  lemma CanonicalProjectsRoundTrip(js: Conversions, p: Project)
    requires Standard(js) && CanonicalProject(p)
    ensures RuntimeProjectFromLogical(js, LogicalProjectSection(js, p), p.items) == p
  {
    forall i | 0 <= i < |p.placements| ensures FaithfulKey(js, p.placements[i].server) {
      CanonicalMeaning(js, p.placements[i].server);
    }
    forall i | 0 <= i < |p.assignments|
      ensures FaithfulKey(js, p.assignments[i].server) && FaithfulKey(js, p.assignments[i].item)
    {
      CanonicalMeaning(js, p.assignments[i].server);
      CanonicalMeaning(js, p.assignments[i].item);
    }
    forall i | 0 <= i < |p.connections|
      ensures FaithfulEndpoint(js, p.connections[i].from) && FaithfulEndpoint(js, p.connections[i].to)
    {
      CanonicalEndpointsAreFaithful(js, p.connections[i].from);
      CanonicalEndpointsAreFaithful(js, p.connections[i].to);
    }
    RuntimeRoundTrip(js, p);
  }

  lemma CanonicalEndpointsAreFaithful(js: Conversions, e: Endpoint)
    requires Standard(js) && CanonicalEndpoint(e)
    ensures FaithfulEndpoint(js, e)
  {
    CanonicalMeaning(js, e.item);
    if e.hosted.Some? {
      CanonicalMeaning(js, e.hosted.value);
    }
  }

  /** A hosted item whose type is empty does not survive a backup. */
  lemma UntypedHostIsLost(js: Conversions)
    requires Standard(js)
    ensures var e := Endpoint("server:1", "1", None, Some(":" + Decimal(2)));
      FaithfulKey(js, e.hosted.value) && RuntimeEndpoint(js, PersistedEndpoint(js, e)).hosted == None
  {
    CanonicalKeysAreFaithful(js, "", 2);
    assert "" + ":" + Decimal(2) == ":" + Decimal(2);
  }
}
