/** Link negotiation between network ports (shared/network-adapter-ports.ts). */
module NetworkPorts {
  import opened Prelude

  datatype PortType =
    | Rj45 | Sfp | SfpPlus | Sfp28 | Qsfp | QsfpPlus | Qsfp28 | Qsfp56 | QsfpDd | Osfp | Fc | Infiniband
    | OtherType(name: string)

  datatype PortKind = Network | ServerPort | SwitchPort | Keystone | OtherKind(name: string)

  /** A speed text: one of the four switch labels, or another text with the bits per second it parses to. */
  datatype SpeedLabel = Label1G | Label2_5G | Label5G | Label10G | OtherLabel(parsed: Option<int>)

  datatype Side = Front | Back | OtherSide

  datatype Face = Face(id: string, side: Side)

  /** Operating modes are given trimmed and lower-cased. */
  datatype Port = Port(
    id: string, kind: PortKind, ptype: PortType, technology: string, operatingModes: seq<string>,
    supportedSpeeds: seq<int>, speedBps: Option<int>, speed: Option<SpeedLabel>, faces: seq<Face>)

  datatype Negotiation = Negotiation(mode: string, speed: int)

  predicate PositiveSafe(v: int) {
    0 < v <= MAX_SAFE_INTEGER
  }

  function Modes(p: Port): (r: seq<string>)
    ensures r != [] && "" !in r
  {
    var explicit := Filter(p.operatingModes, (m: string) => m != "");
    if explicit != [] then explicit
    else if p.technology != "" then [p.technology]
    else ["ethernet"]
  }

  function LegacySpeed(p: Port): Option<int> {
    match p.speed
    case None => None
    case Some(Label1G) => Some(1_000_000_000)
    case Some(Label2_5G) => Some(2_500_000_000)
    case Some(Label5G) => Some(5_000_000_000)
    case Some(Label10G) => Some(10_000_000_000)
    case Some(OtherLabel(parsed)) => if parsed.Some? && PositiveSafe(parsed.value) then parsed else None
  }

  function LegacyCompatibleSpeeds(t: PortType, maximum: int): seq<int> {
    var family :=
      match t
      case Rj45 => [1_000_000_000, 2_500_000_000, 5_000_000_000, 10_000_000_000]
      case Sfp => [1_000_000_000]
      case SfpPlus => [1_000_000_000, 10_000_000_000]
      case Sfp28 => [1_000_000_000, 10_000_000_000, 25_000_000_000]
      case _ => [maximum];
    Filter(family, speed => speed <= maximum)
  }

  function RawSpeeds(p: Port): seq<int> {
    var legacy := LegacySpeed(p);
    p.supportedSpeeds
    + (if p.speedBps.Some? then [p.speedBps.value] else [])
    + (if p.supportedSpeeds != [] || (p.speedBps.Some? && p.speedBps.value != 0) || legacy.None? then []
       else LegacyCompatibleSpeeds(p.ptype, legacy.value))
  }

  function SupportedSpeeds(p: Port): (r: seq<int>)
    ensures Ascending(r)
    ensures forall v :: v in r <==> v in RawSpeeds(p) && PositiveSafe(v)
  {
    SortedSet(Filter(RawSpeeds(p), PositiveSafe))
  }

  predicate Compatible(a: PortType, b: PortType) {
    || a == b
    || (a in {Sfp, SfpPlus, Sfp28} && b in {Sfp, SfpPlus, Sfp28})
    || (a in {Qsfp, QsfpPlus, Qsfp28, Qsfp56, QsfpDd} && b in {Qsfp, QsfpPlus, Qsfp28, Qsfp56, QsfpDd})
  }

  predicate Physical(p: Port) {
    && !p.kind.OtherKind?
    && !p.ptype.OtherType?
    && p.technology != "wifi" && p.technology != "cellular"
  }

  function NegotiateConnection(a: Port, b: Port): Option<Negotiation> {
    if !Physical(a) || !Physical(b) || !Compatible(a.ptype, b.ptype) then None
    else
      var modes := Filter(Modes(a), (m: string) => m in Modes(b));
      var speeds := Filter(SupportedSpeeds(a), v => v in SupportedSpeeds(b));
      if modes == [] || speeds == [] then None
      else Some(Negotiation(modes[0], speeds[|speeds| - 1]))
  }

  /** The first port's modes that every other port has, in its own order. */
  function SharedModes(first: Port, rest: seq<Port>): seq<string> {
    Filter(Modes(first), (m: string) => forall p :: p in rest ==> m in Modes(p))
  }

  function SharedSpeeds(first: Port, rest: seq<Port>): seq<int> {
    Filter(SupportedSpeeds(first), v => forall p :: p in rest ==> v in SupportedSpeeds(p))
  }

  predicate AllPhysical(ports: seq<Port>) {
    forall p :: p in ports ==> Physical(p)
  }

  predicate AllCompatible(first: Port, rest: seq<Port>) {
    forall p :: p in rest ==> Compatible(first.ptype, p.ptype)
  }

  function NegotiatePath(ports: seq<Port>): Option<Negotiation> {
    if ports == [] || !AllPhysical(ports) then None
    else
      var first, rest := ports[0], ports[1..];
      if !AllCompatible(first, rest) then None
      else
        var modes, speeds := SharedModes(first, rest), SharedSpeeds(first, rest);
        if modes == [] || speeds == [] then None
        else Some(Negotiation(modes[0], speeds[|speeds| - 1]))
  }

  /** The speed a path negotiates, if any. */
  function PathSpeed(ports: seq<Port>): Option<int> {
    var n := NegotiatePath(ports);
    if n.Some? then Some(n.value.speed) else None
  }

  // ----- what negotiation means

  ghost predicate PairwiseCompatible(ports: set<Port>) {
    forall p, q :: p in ports && q in ports ==> Compatible(p.ptype, q.ptype)
  }

  /** Physical ports, pairwise compatible, with a mode in common. */
  ghost predicate Linkable(ports: set<Port>) {
    && ports != {}
    && (forall p :: p in ports ==> Physical(p))
    && PairwiseCompatible(ports)
    && (exists m :: CommonMode(ports, m))
  }

  ghost predicate CommonMode(ports: set<Port>, m: string) {
    forall p :: p in ports ==> m in Modes(p)
  }

  ghost predicate CommonSpeed(ports: set<Port>, v: int) {
    forall p :: p in ports ==> v in SupportedSpeeds(p)
  }

  /** `v` is the greatest speed that all the ports support. */
  ghost predicate GreatestSpeed(ports: set<Port>, v: int) {
    CommonSpeed(ports, v) && forall w :: CommonSpeed(ports, w) ==> w <= v
  }

  /** Compatibility is an equivalence, so comparing every port with the first one is enough. */
  lemma CompatibleIsEquivalence(a: PortType, b: PortType, c: PortType)
    ensures Compatible(a, a)
    ensures Compatible(a, b) <==> Compatible(b, a)
    ensures Compatible(a, b) && Compatible(b, c) ==> Compatible(a, c)
  {
  }

  lemma PathSplits(ports: seq<Port>)
    requires ports != []
    ensures forall p :: p in ports <==> p == ports[0] || p in ports[1..]
  {
    assert ports == [ports[0]] + ports[1..];
  }

  lemma SharedModesAre(ports: seq<Port>)
    requires ports != []
    ensures forall m :: m in SharedModes(ports[0], ports[1..]) <==> CommonMode(ToSet(ports), m)
  {
    PathSplits(ports);
  }

  lemma SharedSpeedsAre(ports: seq<Port>)
    requires ports != []
    ensures forall v :: v in SharedSpeeds(ports[0], ports[1..]) <==> CommonSpeed(ToSet(ports), v)
    ensures Ascending(SharedSpeeds(ports[0], ports[1..]))
  {
    PathSplits(ports);
    FilterAscending(SupportedSpeeds(ports[0]), v => forall p :: p in ports[1..] ==> v in SupportedSpeeds(p));
  }

  lemma FirstDecidesCompatibility(ports: seq<Port>)
    requires ports != []
    ensures AllCompatible(ports[0], ports[1..]) <==> PairwiseCompatible(ToSet(ports))
  {
    PathSplits(ports);
    if AllCompatible(ports[0], ports[1..]) {
      forall p, q | p in ports && q in ports ensures Compatible(p.ptype, q.ptype) {
        CompatibleIsEquivalence(p.ptype, ports[0].ptype, q.ptype);
      }
    }
  }

  /** The last of an ascending list is its greatest element. */
  lemma LastIsGreatest(s: seq<int>, v: int)
    requires Ascending(s) && s != []
    ensures v == s[|s| - 1] <==> v in s && forall w :: w in s ==> w <= v
  {
    assert s[|s| - 1] in s;
  }

  lemma ModesExist(ports: seq<Port>)
    requires ports != []
    ensures var modes := SharedModes(ports[0], ports[1..]);
      && (modes != [] <==> exists m :: CommonMode(ToSet(ports), m))
      && (modes != [] ==> CommonMode(ToSet(ports), modes[0]))
  {
    SharedModesAre(ports);
    var modes := SharedModes(ports[0], ports[1..]);
    if modes != [] {
      assert modes[0] in modes;
    }
  }

  lemma SpeedsExist(ports: seq<Port>)
    requires ports != []
    ensures var speeds := SharedSpeeds(ports[0], ports[1..]);
      && (speeds != [] <==> exists v :: CommonSpeed(ToSet(ports), v))
      && (speeds != [] ==> GreatestSpeed(ToSet(ports), speeds[|speeds| - 1]))
  {
    SharedSpeedsAre(ports);
    var speeds := SharedSpeeds(ports[0], ports[1..]);
    if speeds != [] {
      LastIsGreatest(speeds, speeds[|speeds| - 1]);
    }
  }

  lemma PhysicalAsSet(ports: seq<Port>)
    ensures AllPhysical(ports) <==> forall p :: p in ToSet(ports) ==> Physical(p)
  {
  }

  /** The guards of a nonempty path, on the set of its ports. */
  lemma GuardsAsSet(ports: seq<Port>)
    requires ports != []
    ensures AllPhysical(ports) && AllCompatible(ports[0], ports[1..]) && SharedModes(ports[0], ports[1..]) != []
      <==> Linkable(ToSet(ports))
  {
    assert ports[0] in ToSet(ports);
    PhysicalAsSet(ports);
    FirstDecidesCompatibility(ports);
    ModesExist(ports);
  }

  /** A path negotiates exactly when its ports can be linked and share a speed. */
  lemma PathLinks(ports: seq<Port>)
    ensures NegotiatePath(ports).Some? <==> Linkable(ToSet(ports)) && exists v :: CommonSpeed(ToSet(ports), v)
    ensures NegotiatePath(ports).Some? ==>
              && CommonMode(ToSet(ports), NegotiatePath(ports).value.mode)
              && GreatestSpeed(ToSet(ports), NegotiatePath(ports).value.speed)
  {
    if ports == [] {
      assert ToSet(ports) == {};
    } else {
      GuardsAsSet(ports);
      ModesExist(ports);
      SpeedsExist(ports);
    }
  }

  lemma GreatestIsUnique(ports: set<Port>, v: int, w: int)
    requires GreatestSpeed(ports, v) && GreatestSpeed(ports, w)
    ensures v == w
  {
  }

  /** A path negotiates speed `v` exactly when its ports can be linked and `v` is their greatest common speed. */
  lemma PathMeaning(ports: seq<Port>, v: int)
    ensures PathSpeed(ports) == Some(v) <==> Linkable(ToSet(ports)) && GreatestSpeed(ToSet(ports), v)
  {
    PathLinks(ports);
    if Linkable(ToSet(ports)) && GreatestSpeed(ToSet(ports), v) {
      assert CommonSpeed(ToSet(ports), v);
      GreatestIsUnique(ToSet(ports), v, NegotiatePath(ports).value.speed);
    }
  }

  /** The order of ports, and how often one occurs, does not matter. */
  lemma PathIgnoresOrder(a: seq<Port>, b: seq<Port>)
    requires ToSet(a) == ToSet(b)
    ensures PathSpeed(a) == PathSpeed(b)
  {
    if PathSpeed(a).Some? {
      PathMeaning(a, PathSpeed(a).value);
      PathMeaning(b, PathSpeed(a).value);
    } else if PathSpeed(b).Some? {
      PathMeaning(a, PathSpeed(b).value);
      PathMeaning(b, PathSpeed(b).value);
    }
  }

  /** Longer paths are never faster: a speed of the longer path bounds one of any nonempty part of it. */
  lemma PathIsAntitone(a: seq<Port>, b: seq<Port>)
    requires a != [] && ToSet(a) <= ToSet(b)
    ensures PathSpeed(b).Some? ==> PathSpeed(a).Some? && PathSpeed(b).value <= PathSpeed(a).value
  {
    if PathSpeed(b).Some? {
      PathLinks(a);
      PathLinks(b);
      var v := PathSpeed(b).value;
      assert CommonSpeed(ToSet(a), v);
      var m :| CommonMode(ToSet(b), m);
      assert CommonMode(ToSet(a), m);
      assert a[0] in ToSet(a);
    }
  }

  /**
   Appending a port never turns "no link" into a speed, with one exception that is exactly the empty
   path, which never links although a single port does.
   */
  lemma AppendNeverLinks(ports: seq<Port>)
    ensures (forall p :: PathSpeed(ports).None? ==> PathSpeed(ports + [p]).None?) <==> ports != []
  {
    if ports == [] {
      var p := Port("1", Network, Rj45, "", [], [1_000_000_000], None, None, []);
      var path := ports + [p];
      assert ToSet(path) == {p};
      assert 1_000_000_000 in RawSpeeds(p);
      assert CommonSpeed({p}, 1_000_000_000) && CommonMode({p}, Modes(p)[0]);
      PathLinks(path);
    } else {
      forall p | PathSpeed(ports + [p]).Some? ensures PathSpeed(ports).Some? {
        PathIsAntitone(ports, ports + [p]);
      }
    }
  }

  /** Filtering with functions that agree gives the same list. */
  lemma {:induction false} FilterAgrees<T(!new)>(s: seq<T>, f: T -> bool, g: T -> bool)
    requires forall x :: x in s ==> f(x) == g(x)
    ensures Filter(s, f) == Filter(s, g)
  {
    if s != [] {
      assert s[0] in s;
      FilterAgrees(s[1..], f, g);
    }
  }

  /** A path of two ports negotiates what the two ports negotiate directly, mode included. */
  lemma TwoPortPath(a: Port, b: Port)
    ensures NegotiatePath([a, b]) == NegotiateConnection(a, b)
  {
    var ports := [a, b];
    assert ports[1..] == [b];
    assert AllPhysical(ports) <==> Physical(a) && Physical(b) by {
      PathSplits(ports);
    }
    assert AllCompatible(a, [b]) <==> Compatible(a.ptype, b.ptype) by {
      assert b in [b];
    }
    assert SharedModes(a, [b]) == Filter(Modes(a), (m: string) => m in Modes(b)) by {
      FilterAgrees(Modes(a), (m: string) => forall p :: p in [b] ==> m in Modes(p), (m: string) => m in Modes(b));
    }
    assert SharedSpeeds(a, [b]) == Filter(SupportedSpeeds(a), v => v in SupportedSpeeds(b)) by {
      FilterAgrees(SupportedSpeeds(a), v => forall p :: p in [b] ==> v in SupportedSpeeds(p),
        v => v in SupportedSpeeds(b));
    }
  }
}
