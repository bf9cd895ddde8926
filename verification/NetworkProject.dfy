/** Projects as the legacy network normalization sees them, and endpoint resolution. */
module NetworkProject {
  import opened Prelude
  import opened NetworkPorts

  datatype Item = Item(itype: string, ports: seq<Port>)

  /** Port and face identifiers are compared as text, so they are text here. */
  datatype Endpoint = Endpoint(itemId: string, hosted: Option<string>, portId: string, face: Option<string>)

  datatype ConnectionType = NetworkLink | OtherLink | NamedLink(name: string)

  datatype Connection = Connection(
    id: nat, ctype: ConnectionType, from: Endpoint, to: Endpoint,
    negotiatedBps: Option<int>, legacyMbps: Option<int>)

  datatype Assignment = Assignment(serverId: string, itemId: string, atype: string)

  /** `order` is the iteration order of the item record. */
  datatype Project = Project(
    order: seq<string>, items: map<string, Item>, assignments: seq<Assignment>, connections: seq<Connection>)

  /** The iteration order lists every item once. */
  ghost predicate Ordered(p: Project) {
    && (forall i, j :: 0 <= i < j < |p.order| ==> p.order[i] != p.order[j])
    && ToSet(p.order) == p.items.Keys
  }

  function EndpointKey(e: Endpoint): (r: string)
    ensures r != ""
  {
    e.itemId + ":" + (if e.hosted.Some? then e.hosted.value else "direct")
    + ":" + e.portId + ":" + (if e.face.Some? then e.face.value else "port")
  }

  /** The first element that satisfies `f`. */
  function Find<T>(s: seq<T>, f: T -> bool): (r: Option<T>)
    ensures r.Some? ==> r.value in s && f(r.value)
    ensures r.None? ==> forall i :: 0 <= i < |s| ==> !f(s[i])
  {
    if s == [] then None
    else if f(s[0]) then Some(s[0])
    else Find(s[1..], f)
  }

  function FindPort(ports: seq<Port>, id: string): Option<Port> {
    Find(ports, (p: Port) => p.id == id)
  }

  predicate MatchesPort(p: Port, e: Endpoint) {
    if e.face.Some? then exists i :: 0 <= i < |p.faces| && p.faces[i].id == e.face.value
    else p.faces == []
  }

  /** Where "::" first occurs. */
  function FindSeparator(s: string): (r: Option<nat>)
    ensures r.Some? ==> r.value + 2 <= |s| && s[r.value..r.value + 2] == "::"
  {
    if |s| < 2 then None
    else if s[..2] == "::" then Some(0)
    else
      var r := FindSeparator(s[1..]);
      if r.Some? then Some(r.value + 1) else None
  }

  /** The first two parts of a text split at "::". */
  function SplitLegacyId(s: string): Option<(string, string)> {
    match FindSeparator(s)
    case None => None
    case Some(i) =>
      var rest := s[i + 2..];
      match FindSeparator(rest)
      case None => Some((s[..i], rest))
      case Some(j) => Some((s[..i], rest[..j]))
  }

  function ResolveHostedPort(p: Project, e: Endpoint): Option<Port> {
    if e.itemId !in p.items || p.items[e.itemId].itype !in {"server", "nas"} then None
    else
      var legacy := SplitLegacyId(e.portId);
      var hosted := if e.hosted.Some? then e.hosted else if legacy.Some? then Some(legacy.value.0) else None;
      var port := if e.hosted.Some? && e.hosted.value != "" then Some(e.portId)
                  else if legacy.Some? then Some(legacy.value.1) else None;
      if hosted.None? || hosted.value == "" || port.None? then None
      else if Assignment(e.itemId, hosted.value, "network") !in p.assignments then None
      else if hosted.value !in p.items || p.items[hosted.value].itype != "network" then None
      else FindPort(p.items[hosted.value].ports, port.value)
  }

  function ResolveEndpointPort(p: Project, e: Endpoint): Option<Port> {
    if e.itemId !in p.items then None
    else
      var own := FindPort(p.items[e.itemId].ports, e.portId);
      var port := if (e.hosted.Some? && e.hosted.value != "") || own.None? then ResolveHostedPort(p, e) else own;
      if port.Some? && MatchesPort(port.value, e) then port else None
  }

  /** The port that takes part in negotiation at this endpoint, with the assumed speed of a bare SFP+ port. */
  function EndpointActivePort(p: Project, e: Endpoint): Option<Port> {
    if e.itemId !in p.items || p.items[e.itemId].itype !in {"server", "nas", "pcBuild", "switch"} then None
    else
      match ResolveEndpointPort(p, e)
      case None => None
      case Some(port) =>
        if !Physical(port) then None
        else if SupportedSpeeds(port) != [] then Some(port)
        else if port.ptype != SfpPlus then None
        else Some(port.(supportedSpeeds := [10_000_000_000]))
  }
}
