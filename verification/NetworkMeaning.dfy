/** What the tables and lookups behind negotiation mean: connector families, speed labels and endpoint resolution. */
module NetworkMeaning {
  import opened Prelude
  import opened NetworkPorts
  import opened NetworkProject
  import opened NetworkNormalization

  // ----- connectors and labels

  /** Connectors that fit each other; a connector outside the two families fits only itself. */
  datatype Family = SfpCages | QsfpCages | Only(t: PortType)

  function FamilyOf(t: PortType): Family {
    match t
    case Sfp => SfpCages
    case SfpPlus => SfpCages
    case Sfp28 => SfpCages
    case Qsfp => QsfpCages
    case QsfpPlus => QsfpCages
    case Qsfp28 => QsfpCages
    case Qsfp56 => QsfpCages
    case QsfpDd => QsfpCages
    case _ => Only(t)
  }

  /** Two connectors are compatible exactly when they are of one family. */
  lemma CompatibleFamilies(a: PortType, b: PortType)
    ensures Compatible(a, b) <==> FamilyOf(a) == FamilyOf(b)
  {
  }

  /** Declared speeds count as they are, and the label is ignored. */
  lemma DeclaredSpeeds(p: Port, v: int)
    requires p.supportedSpeeds != [] || (p.speedBps.Some? && p.speedBps.value != 0)
    ensures v in SupportedSpeeds(p) <==> PositiveSafe(v) && (v in p.supportedSpeeds || p.speedBps == Some(v))
  {
  }

  /** The bits per second of a label. */
  ghost predicate Labelled(p: Port, maximum: int) {
    match p.speed
    case None => false
    case Some(Label1G) => maximum == 1_000_000_000
    case Some(Label2_5G) => maximum == 2_500_000_000
    case Some(Label5G) => maximum == 5_000_000_000
    case Some(Label10G) => maximum == 10_000_000_000
    case Some(OtherLabel(parsed)) => parsed == Some(maximum) && 0 < maximum <= MAX_SAFE_INTEGER
  }

  /** The steps a connector can run at below its label. */
  function Steps(t: PortType, maximum: int): set<int> {
    match t
    case Rj45 => {1_000_000_000, 2_500_000_000, 5_000_000_000, 10_000_000_000}
    case Sfp => {1_000_000_000}
    case SfpPlus => {1_000_000_000, 10_000_000_000}
    case Sfp28 => {1_000_000_000, 10_000_000_000, 25_000_000_000}
    case _ => {maximum}
  }

  /** A port that only has a label supports the steps of its connector up to the label. */
  lemma LabelledSpeeds(p: Port, maximum: int, v: int)
    requires p.supportedSpeeds == [] && (p.speedBps.None? || p.speedBps.value == 0) && Labelled(p, maximum)
    ensures v in SupportedSpeeds(p) <==> v in Steps(p.ptype, maximum) && v <= maximum
  {
    LabelMeaning(p, maximum);
    StepsMeaning(p.ptype, maximum, v);
    assert LegacySpeed(p) == Some(maximum) && PositiveSafe(maximum);
  }

  lemma LabelMeaning(p: Port, maximum: int)
    ensures Labelled(p, maximum) <==> LegacySpeed(p) == Some(maximum)
    ensures Labelled(p, maximum) ==> PositiveSafe(maximum)
  {
  }

  lemma StepsMeaning(t: PortType, maximum: int, v: int)
    ensures v in LegacyCompatibleSpeeds(t, maximum) <==> v in Steps(t, maximum) && v <= maximum
    ensures maximum > 0 && v in LegacyCompatibleSpeeds(t, maximum) ==> v > 0
  {
  }

  /** Without declared speeds and without a readable label a port supports nothing. */
  lemma UnlabelledSpeeds(p: Port)
    requires p.supportedSpeeds == [] && (p.speedBps.None? || p.speedBps.value == 0)
    requires forall maximum :: !Labelled(p, maximum)
    ensures forall v :: v !in SupportedSpeeds(p)
  {
    assert LegacySpeed(p).Some? ==> Labelled(p, LegacySpeed(p).value);
  }

  /** The operating modes of a port: the given ones, else its technology, else Ethernet. */
  lemma ModesMeaning(p: Port, m: string)
    ensures (exists x :: x in p.operatingModes && x != "") ==> (m in Modes(p) <==> m != "" && m in p.operatingModes)
    ensures (forall x :: x in p.operatingModes ==> x == "") ==>
      (m in Modes(p) <==> m == if p.technology != "" then p.technology else "ethernet")
  {
    var explicit := Filter(p.operatingModes, (x: string) => x != "");
    if x :| x in p.operatingModes && x != "" {
      assert x in explicit;
    } else {
      HeadIsElement(explicit);
    }
  }

  lemma HeadIsElement(s: seq<string>)
    ensures s != [] ==> s[0] in s
  {
  }

  /** Radio ports, unknown connectors and ports of other kinds take no cable. */
  lemma PhysicalMeaning(p: Port)
    ensures Physical(p) <==>
      && (p.kind.Network? || p.kind.ServerPort? || p.kind.SwitchPort? || p.kind.Keystone?)
      && (exists t :: p.ptype == t && !t.OtherType?)
      && !(p.technology == "wifi" || p.technology == "cellular")
  {
  }

  // ----- the stages before recalculation

  /** One of the four switch labels. */
  predicate HasSwitchLabel(p: Port) {
    p.speed in {Some(Label1G), Some(Label2_5G), Some(Label5G), Some(Label10G)}
  }

  /** Switch ports without a switch label get 10G on SFP+ and 1G on RJ45 and SFP; nothing else changes. */
  lemma DefaultLabels(item: Item, i: nat)
    requires i < |item.ports|
    ensures var q := NormalizeItem(item);
      && q.itype == item.itype && |q.ports| == |item.ports|
      && var a, b := item.ports[i], q.ports[i];
      && b == a.(speed := b.speed)
      && b.speed == (if item.itype != "switch" || HasSwitchLabel(a) then a.speed
                     else if a.ptype == SfpPlus then Some(Label10G)
                     else if a.ptype == Rj45 || a.ptype == Sfp then Some(Label1G)
                     else a.speed)
  {
  }

  /** A legacy link becomes a network link exactly when both ends resolve to physical network ports. */
  lemma LegacyLinkMeaning(p: Project, c: Connection)
    ensures var d := NormalizeLink(p, c);
      && d == c.(ctype := d.ctype)
      && d.ctype == (if c.ctype == OtherLink && PhysicalEnd(p, c.from) && PhysicalEnd(p, c.to) then NetworkLink
                     else c.ctype)
  {
  }

  ghost predicate PhysicalEnd(p: Project, e: Endpoint) {
    exists port :: ResolveEndpointPort(p, e) == Some(port) && Physical(port)
  }

  // ----- endpoints

  /** Port `i` is the first with the identifier. */
  predicate FirstWithId(ports: seq<Port>, id: string, i: nat) {
    i < |ports| && ports[i].id == id && forall j :: 0 <= j < i ==> ports[j].id != id
  }

  lemma {:induction false} FindPortMeaning(ports: seq<Port>, id: string, i: nat)
    requires FirstWithId(ports, id, i)
    ensures FindPort(ports, id) == Some(ports[i])
  {
    if i > 0 {
      assert ports[0].id != id;
      assert forall j :: 0 <= j < |ports[1..]| ==> ports[1..][j] == ports[j + 1];
      FindPortMeaning(ports[1..], id, i - 1);
    }
  }

  /** An endpoint names the face of a port that has faces, and none of a port without. */
  predicate FaceFits(port: Port, face: Option<string>) {
    match face
    case None => port.faces == []
    case Some(id) => exists i :: 0 <= i < |port.faces| && port.faces[i].id == id
  }

  /** A port of the item itself is found by its identifier. */
  lemma OwnPortResolves(p: Project, e: Endpoint, i: nat)
    requires e.hosted.None? && e.itemId in p.items && FirstWithId(p.items[e.itemId].ports, e.portId, i)
    ensures var port := p.items[e.itemId].ports[i];
      ResolveEndpointPort(p, e) == if FaceFits(port, e.face) then Some(port) else None
  {
    FindPortMeaning(p.items[e.itemId].ports, e.portId, i);
  }

  /** An adapter is reached through its host: a server or NAS with a network assignment of that adapter. */
  predicate Hosts(p: Project, server: string, adapter: string) {
    && server in p.items && (p.items[server].itype == "server" || p.items[server].itype == "nas")
    && adapter in p.items && p.items[adapter].itype == "network"
    && exists i ::
         && 0 <= i < |p.assignments| && p.assignments[i].serverId == server
         && p.assignments[i].itemId == adapter && p.assignments[i].atype == "network"
  }

  lemma HostedPortResolves(p: Project, e: Endpoint, adapter: string, i: nat)
    requires e.hosted == Some(adapter) && adapter != "" && Hosts(p, e.itemId, adapter)
    requires FirstWithId(p.items[adapter].ports, e.portId, i)
    ensures var port := p.items[adapter].ports[i];
      ResolveEndpointPort(p, e) == if FaceFits(port, e.face) then Some(port) else None
  {
    FindPortMeaning(p.items[adapter].ports, e.portId, i);
    var k :| 0 <= k < |p.assignments| && p.assignments[k].serverId == e.itemId
      && p.assignments[k].itemId == adapter && p.assignments[k].atype == "network";
    assert p.assignments[k] == Assignment(e.itemId, adapter, "network");
  }

  /** An adapter that the item does not host resolves to nothing. */
  lemma UnhostedResolvesToNothing(p: Project, e: Endpoint)
    requires e.hosted.Some? && e.hosted.value != "" && !Hosts(p, e.itemId, e.hosted.value)
    ensures ResolveEndpointPort(p, e).None?
  {
    if Assignment(e.itemId, e.hosted.value, "network") in p.assignments {
      var k :| 0 <= k < |p.assignments| && p.assignments[k] == Assignment(e.itemId, e.hosted.value, "network");
      assert p.assignments[k].serverId == e.itemId;
    }
  }

  /** "::" does not occur. */
  predicate Unseparated(s: string) {
    forall i :: 0 <= i < |s| - 1 ==> s[i] != ':' || s[i + 1] != ':'
  }

  lemma {:induction false} NoSeparator(s: string)
    requires Unseparated(s)
    ensures FindSeparator(s).None?
  {
    if |s| >= 2 {
      assert s[0] != ':' || s[1] != ':';
      assert s[..2] != "::";
      assert forall i :: 0 <= i < |s[1..]| ==> s[1..][i] == s[i + 1];
      NoSeparator(s[1..]);
    }
  }

  lemma {:induction false} SeparatorFound(a: string, b: string)
    requires Unseparated(a + ":")
    ensures FindSeparator(a + "::" + b) == Some(|a|)
  {
    var s := a + "::" + b;
    if a == [] {
      assert s[..2] == "::";
    } else {
      assert s[1..] == a[1..] + "::" + b;
      assert (a[1..] + ":") == (a + ":")[1..];
      assert forall i :: 0 <= i < |a[1..] + ":"| ==> (a[1..] + ":")[i] == (a + ":")[i + 1];
      assert s[0] == (a + ":")[0] && s[1] == (a + ":")[1];
      SeparatorFound(a[1..], b);
    }
  }

  /** The old form `adapter::port` means the same as naming the adapter and the port apart. */
  lemma LegacyFormAgrees(p: Project, e: Endpoint, adapter: string, port: string)
    requires e.hosted.None? && e.portId == adapter + "::" + port && adapter != ""
    requires Unseparated(adapter + ":") && Unseparated(port)
    requires e.itemId in p.items && FindPort(p.items[e.itemId].ports, e.portId).None?
    ensures ResolveEndpointPort(p, e) == ResolveEndpointPort(p, e.(hosted := Some(adapter), portId := port))
  {
    SeparatorFound(adapter, port);
    NoSeparator(port);
    assert e.portId[|adapter| + 2..] == port && e.portId[..|adapter|] == adapter;
    assert SplitLegacyId(e.portId) == Some((adapter, port));
  }

  /**
   Ports of servers, NAS, PC builds and switches take part when they are physical and have a speed; a bare
   SFP+ port counts as 10 Gbit/s.
   */
  lemma ActivePortMeaning(p: Project, e: Endpoint, q: Port)
    ensures EndpointActivePort(p, e) == Some(q) <==>
      && e.itemId in p.items
      && (|| p.items[e.itemId].itype == "server" || p.items[e.itemId].itype == "nas"
          || p.items[e.itemId].itype == "pcBuild" || p.items[e.itemId].itype == "switch")
      && exists port ::
           && ResolveEndpointPort(p, e) == Some(port) && Physical(port)
           && if SupportedSpeeds(port) != [] then q == port
              else port.ptype == SfpPlus && q == port.(supportedSpeeds := [10_000_000_000])
  {
  }

  /** Every active port supports some speed. */
  lemma ActivePortsHaveSpeeds(p: Project, e: Endpoint)
    requires EndpointActivePort(p, e).Some?
    ensures SupportedSpeeds(EndpointActivePort(p, e).value) != []
  {
    var q := EndpointActivePort(p, e).value;
    var port := ResolveEndpointPort(p, e).value;
    if SupportedSpeeds(port) == [] {
      DeclaredSpeeds(q, 10_000_000_000);
    }
  }
}
