/** Agent enrolment, activation, heartbeats and revocation. */
module AgentRegistry {
  import opened Prelude

  datatype Host = Host(htype: string, id: int)

  datatype Enrollment = Enrollment(host: Host, protocol: Option<nat>, used: bool, revoked: bool) {
    predicate Open() {
      !used && !revoked
    }
  }

  datatype BindingState = Active | Revoked | Replaced

  /**
   An agent row with its host binding.  `enrollment` is the enrolment that activated it and
   `beats` the number of heartbeats it has recorded.
   */
  datatype Agent = Agent(
    host: Host, protocol: nat, publicKey: string, revoked: bool, binding: BindingState,
    lastSequence: nat, enrollment: nat, beats: nat)

  /** Rows keyed by their public ids. */
  datatype State = State(enrollments: map<nat, Enrollment>, agents: map<nat, Agent>)

  /** One more than every id in use. */
  function NextId(ids: set<nat>): (r: nat)
    ensures forall i :: i in ids ==> i < r
    ensures if ids == {} then r == 1 else r > 0 && r - 1 in ids
  {
    if ids == {} then 1
    else
      var i := Greatest(ids);
      i + 1
  }

  function Greatest(ids: set<nat>): (r: nat)
    requires ids != {}
    ensures r in ids && forall i :: i in ids ==> i <= r
  {
    GreatestExists(ids);
    var r :| r in ids && forall i :: i in ids ==> i <= r;
    r
  }

  lemma {:induction false} GreatestExists(ids: set<nat>)
    requires ids != {}
    ensures exists r :: r in ids && forall i :: i in ids ==> i <= r
  {
    var x :| x in ids;
    if ids != {x} {
      var rest := ids - {x};
      GreatestExists(rest);
      var r :| r in rest && forall i :: i in rest ==> i <= r;
      var best := if x > r then x else r;
      assert best in ids && forall i :: i in ids ==> i in rest || i == x;
    }
  }

  datatype Operation =
    | CreateEnrollment(host: Host, required: Option<nat>)
    | Activate(enrollment: nat, host: Host, protocol: nat, publicKey: string, firstSequence: nat)
    | Heartbeat(agent: nat, host: Host, sequence: Option<nat>)
    | RevokeHost(host: Host)

  function RevokeOpen(m: map<nat, Enrollment>, host: Host): map<nat, Enrollment> {
    map k | k in m :: if m[k].host == host && m[k].Open() then m[k].(revoked := true) else m[k]
  }

  function RevokeEnrollments(m: map<nat, Enrollment>, host: Host): map<nat, Enrollment> {
    map k | k in m :: if m[k].host == host then m[k].(revoked := true) else m[k]
  }

  function UnrevokedEnrollments(m: map<nat, Enrollment>, host: Host): set<nat> {
    set k | k in m && m[k].host == host && !m[k].revoked
  }

  function UnrevokedAgents(m: map<nat, Agent>, host: Host): set<nat> {
    set k | k in m && m[k].host == host && !m[k].revoked
  }

  /** Rows that are revoked already, or belong to another host, do not change. */
  lemma RevokedRowsStay(enrollments: map<nat, Enrollment>, agents: map<nat, Agent>, host: Host)
    ensures forall k :: k in enrollments && k !in UnrevokedEnrollments(enrollments, host) ==>
      RevokeEnrollments(enrollments, host)[k] == enrollments[k]
    ensures forall k :: k in agents && k !in UnrevokedAgents(agents, host) ==>
      RevokeAgents(agents, host)[k] == agents[k]
  {
  }

  function ReplaceActive(m: map<nat, Agent>, host: Host): map<nat, Agent> {
    map k | k in m :: if m[k].host == host && m[k].binding == Active && !m[k].revoked
                      then m[k].(revoked := true, binding := Replaced) else m[k]
  }

  function RevokeAgents(m: map<nat, Agent>, host: Host): map<nat, Agent> {
    map k | k in m :: if m[k].host == host && !m[k].revoked
                      then m[k].(revoked := true, binding := if m[k].binding == Active then Revoked else m[k].binding)
                      else m[k]
  }

  predicate MayActivate(s: State, op: Operation)
    requires op.Activate?
  {
    && op.enrollment in s.enrollments && s.enrollments[op.enrollment].Open()
    && s.enrollments[op.enrollment].host == op.host
    && (s.enrollments[op.enrollment].protocol.Some? ==> s.enrollments[op.enrollment].protocol.value == op.protocol)
    && (forall k :: k in s.agents ==> s.agents[k].publicKey != op.publicKey)
  }

  predicate MayBeat(s: State, op: Operation)
    requires op.Heartbeat?
  {
    op.agent in s.agents && !s.agents[op.agent].revoked && s.agents[op.agent].host == op.host
  }

  /** One operation on hosts of the inventory; an error leaves the state as it was. */
  function Perform(hosts: set<Host>, s: State, op: Operation): State {
    match op
    case CreateEnrollment(host, protocol) =>
      if host.id <= 0 || host !in hosts then s
      else
        var id := NextId(s.enrollments.Keys);
        s.(enrollments := RevokeOpen(s.enrollments, host)[id := Enrollment(host, protocol, false, false)])
    case Activate(e, host, protocol, publicKey, sequence) =>
      if host !in hosts || !MayActivate(s, op) then s
      else State(
        s.enrollments[e := s.enrollments[e].(used := true)],
        ReplaceActive(s.agents, host)
          [NextId(s.agents.Keys) := Agent(host, protocol, publicKey, false, Active, sequence, e, 0)])
    case Heartbeat(a, host, sequence) =>
      if !MayBeat(s, op) then s
      else
        var agent := s.agents[a];
        s.(agents := s.agents[a := agent.(
          lastSequence := if sequence.Some? then sequence.value else agent.lastSequence, beats := agent.beats + 1)])
    case RevokeHost(host) =>
      State(RevokeEnrollments(s.enrollments, host), RevokeAgents(s.agents, host))
  }

  function PerformAll(hosts: set<Host>, s: State, ops: seq<Operation>): State {
    if ops == [] then s else Perform(hosts, PerformAll(hosts, s, ops[..|ops| - 1]), ops[|ops| - 1])
  }

  // ----- what every run keeps

  /** At most one open enrolment per host. */
  ghost predicate OneOpenEnrollment(s: State) {
    forall i, j :: i in s.enrollments && j in s.enrollments && i != j ==>
      s.enrollments[i].host == s.enrollments[j].host ==> !(s.enrollments[i].Open() && s.enrollments[j].Open())
  }

  /** At most one active binding per host. */
  ghost predicate OneActiveBinding(s: State) {
    forall i, j :: i in s.agents && j in s.agents && i != j && s.agents[i].host == s.agents[j].host ==>
      !(s.agents[i].binding == Active && s.agents[j].binding == Active)
  }

  /** A binding is active exactly when its agent is not revoked. */
  ghost predicate ActiveIffUnrevoked(s: State) {
    forall i :: i in s.agents ==> (s.agents[i].binding == Active <==> !s.agents[i].revoked)
  }

  /** An enrolment is used exactly when it activated an agent, and no enrolment activated two. */
  ghost predicate OneAgentPerEnrollment(s: State) {
    && (forall i :: i in s.agents ==>
          s.agents[i].enrollment in s.enrollments && s.enrollments[s.agents[i].enrollment].used)
    && (forall i, j :: i in s.agents && j in s.agents && i != j ==> s.agents[i].enrollment != s.agents[j].enrollment)
    && (forall e :: e in s.enrollments && s.enrollments[e].used ==>
          exists i :: i in s.agents && s.agents[i].enrollment == e)
  }

  ghost predicate Inv(s: State) {
    OneOpenEnrollment(s) && OneActiveBinding(s) && ActiveIffUnrevoked(s) && OneAgentPerEnrollment(s)
  }

  /** A new enrolment, unused, leaves it open which agents the others activated. */
  lemma AddedEnrollment(s: State, t: State, id: nat)
    requires OneAgentPerEnrollment(s) && t.agents == s.agents && id !in s.enrollments
    requires t.enrollments.Keys == s.enrollments.Keys + {id} && !t.enrollments[id].used
    requires forall e :: e in s.enrollments ==> t.enrollments[e].used == s.enrollments[e].used
    ensures OneAgentPerEnrollment(t)
  {
    forall e | e in t.enrollments && t.enrollments[e].used
      ensures exists i :: i in t.agents && t.agents[i].enrollment == e
    {
      assert e in s.enrollments;
    }
  }

  lemma CreateKeepsOneOpen(hosts: set<Host>, s: State, op: Operation)
    requires OneOpenEnrollment(s) && op.CreateEnrollment?
    ensures OneOpenEnrollment(Perform(hosts, s, op))
  {
  }

  lemma CreateKeepsInv(hosts: set<Host>, s: State, op: Operation)
    requires Inv(s) && op.CreateEnrollment?
    ensures Inv(Perform(hosts, s, op))
  {
    CreateKeepsOneOpen(hosts, s, op);
    if op.host.id > 0 && op.host in hosts {
      var t := Perform(hosts, s, op);
      AddedEnrollment(s, t, NextId(s.enrollments.Keys));
      FewerBindings(s, t);
    }
  }

  /** Changes that touch neither who activated whom nor which enrolments are used. */
  lemma SameActivations(s: State, t: State)
    requires OneAgentPerEnrollment(s) && t.agents.Keys == s.agents.Keys && t.enrollments.Keys == s.enrollments.Keys
    requires forall i :: i in s.agents ==> t.agents[i].enrollment == s.agents[i].enrollment
    requires forall e :: e in s.enrollments ==> t.enrollments[e].used == s.enrollments[e].used
    ensures OneAgentPerEnrollment(t)
  {
    forall e | e in t.enrollments && t.enrollments[e].used
      ensures exists i :: i in t.agents && t.agents[i].enrollment == e
    {
      var i :| i in s.agents && s.agents[i].enrollment == e;
      assert t.agents[i].enrollment == e;
    }
  }

  /** One more agent, activated by an enrolment that had activated none. */
  lemma AddedActivation(s: State, t: State, id: nat, e: nat)
    requires OneAgentPerEnrollment(s) && e in s.enrollments && !s.enrollments[e].used && id !in s.agents
    requires t.agents.Keys == s.agents.Keys + {id} && t.agents[id].enrollment == e
    requires forall i :: i in s.agents ==> t.agents[i].enrollment == s.agents[i].enrollment
    requires e in t.enrollments && t.enrollments == s.enrollments[e := t.enrollments[e]] && t.enrollments[e].used
    ensures OneAgentPerEnrollment(t)
  {
    forall k | k in t.enrollments && t.enrollments[k].used
      ensures exists i :: i in t.agents && t.agents[i].enrollment == k
    {
      if k == e {
        assert id in t.agents;
      } else {
        var i :| i in s.agents && s.agents[i].enrollment == k;
        assert t.agents[i].enrollment == k;
      }
    }
  }

  lemma ActivateKeepsActivations(hosts: set<Host>, s: State, op: Operation)
    requires OneAgentPerEnrollment(s) && op.Activate? && op.host in hosts && MayActivate(s, op)
    ensures OneAgentPerEnrollment(Perform(hosts, s, op))
  {
    AddedActivation(s, Perform(hosts, s, op), NextId(s.agents.Keys), op.enrollment);
  }

  /** Replacing the active agents of a host leaves none there. */
  lemma ReplaceLeavesNone(m: map<nat, Agent>, host: Host)
    requires forall i :: i in m ==> (m[i].binding == Active <==> !m[i].revoked)
    ensures var r := ReplaceActive(m, host);
      && r.Keys == m.Keys
      && forall i :: i in m ==> && r[i].host == m[i].host && (r[i].binding == Active <==> !r[i].revoked)
                                && (r[i].binding == Active ==> m[i].binding == Active && m[i].host != host)
  {
  }

  lemma ActivateKeepsBindings(hosts: set<Host>, s: State, op: Operation)
    requires OneActiveBinding(s) && ActiveIffUnrevoked(s) && op.Activate? && op.host in hosts && MayActivate(s, op)
    ensures var t := Perform(hosts, s, op); OneActiveBinding(t) && ActiveIffUnrevoked(t)
  {
    ReplaceLeavesNone(s.agents, op.host);
    var replaced := ReplaceActive(s.agents, op.host);
    AddedBinding(State(s.enrollments, replaced), Perform(hosts, s, op), NextId(s.agents.Keys), op.host);
  }

  /** One more active agent on a host that has none. */
  lemma AddedBinding(s: State, t: State, id: nat, host: Host)
    requires OneActiveBinding(s) && ActiveIffUnrevoked(s)
    requires forall i :: i in s.agents && s.agents[i].binding == Active ==> s.agents[i].host != host
    requires id in t.agents && t.agents == s.agents[id := t.agents[id]]
    requires t.agents[id].host == host && t.agents[id].binding == Active && !t.agents[id].revoked
    ensures OneActiveBinding(t) && ActiveIffUnrevoked(t)
  {
    assert forall i :: i in t.agents && i != id ==> i in s.agents && t.agents[i] == s.agents[i];
  }

  lemma ActivateKeepsEnrollments(hosts: set<Host>, s: State, op: Operation)
    requires OneOpenEnrollment(s) && op.Activate? && op.host in hosts && MayActivate(s, op)
    ensures OneOpenEnrollment(Perform(hosts, s, op))
  {
  }

  lemma BeatKeepsInv(hosts: set<Host>, s: State, op: Operation)
    requires Inv(s) && op.Heartbeat?
    ensures Inv(Perform(hosts, s, op))
  {
    var t := Perform(hosts, s, op);
    SameActivations(s, t);
    FewerBindings(s, t);
  }

  /** Changes that activate nobody and keep hosts. */
  lemma FewerBindings(s: State, t: State)
    requires OneActiveBinding(s) && ActiveIffUnrevoked(s) && t.agents.Keys == s.agents.Keys
    requires forall i :: i in s.agents ==>
      && t.agents[i].host == s.agents[i].host && (t.agents[i].binding == Active ==> s.agents[i].binding == Active)
      && (t.agents[i].binding == Active <==> !t.agents[i].revoked)
    ensures OneActiveBinding(t) && ActiveIffUnrevoked(t)
  {
  }

  lemma RevokeKeepsInv(hosts: set<Host>, s: State, op: Operation)
    requires Inv(s) && op.RevokeHost?
    ensures Inv(Perform(hosts, s, op))
  {
    var t := Perform(hosts, s, op);
    SameActivations(s, t);
    FewerBindings(s, t);
  }

  lemma OperationKeepsInv(hosts: set<Host>, s: State, op: Operation)
    requires Inv(s)
    ensures Inv(Perform(hosts, s, op))
  {
    match op
    case CreateEnrollment(_, _) => CreateKeepsInv(hosts, s, op);
    case Activate(_, host, _, _, _) =>
      if host in hosts && MayActivate(s, op) {
        ActivateKeepsActivations(hosts, s, op);
        ActivateKeepsBindings(hosts, s, op);
        ActivateKeepsEnrollments(hosts, s, op);
      }
    case Heartbeat(_, _, _) => BeatKeepsInv(hosts, s, op);
    case RevokeHost(_) => RevokeKeepsInv(hosts, s, op);
  }

  const EMPTY := State(map[], map[])

  /** The invariant holds after every sequence of operations. */
  lemma {:induction false} EveryRunKeepsInv(hosts: set<Host>, ops: seq<Operation>)
    ensures Inv(PerformAll(hosts, EMPTY, ops))
  {
    if ops != [] {
      EveryRunKeepsInv(hosts, ops[..|ops| - 1]);
      OperationKeepsInv(hosts, PerformAll(hosts, EMPTY, ops[..|ops| - 1]), ops[|ops| - 1]);
    }
  }

  /** A later state: every row is still there, identities never change, nothing revoked or used comes back. */
  ghost predicate Grows(s: State, t: State) {
    && (forall i :: i in s.enrollments ==>
          && i in t.enrollments && t.enrollments[i].host == s.enrollments[i].host
          && (s.enrollments[i].used ==> t.enrollments[i].used)
          && (s.enrollments[i].revoked ==> t.enrollments[i].revoked))
    && (forall i :: i in s.agents ==>
          && i in t.agents && t.agents[i].host == s.agents[i].host
          && t.agents[i].enrollment == s.agents[i].enrollment && t.agents[i].publicKey == s.agents[i].publicKey
          && s.agents[i].beats <= t.agents[i].beats
          && (s.agents[i].revoked ==> t.agents[i].revoked && t.agents[i].beats == s.agents[i].beats
                                      && t.agents[i].lastSequence == s.agents[i].lastSequence))
  }

  lemma EnrollmentGrows(hosts: set<Host>, s: State, op: Operation)
    requires op.CreateEnrollment? || op.Activate?
    ensures Grows(s, Perform(hosts, s, op))
  {
  }

  lemma BeatOrRevocationGrows(hosts: set<Host>, s: State, op: Operation)
    requires op.Heartbeat? || op.RevokeHost?
    ensures Grows(s, Perform(hosts, s, op))
  {
  }

  lemma OperationGrows(hosts: set<Host>, s: State, op: Operation)
    ensures Grows(s, Perform(hosts, s, op))
  {
    if op.CreateEnrollment? || op.Activate? {
      EnrollmentGrows(hosts, s, op);
    } else {
      BeatOrRevocationGrows(hosts, s, op);
    }
  }

  /** Ids are never reused and a revoked or replaced agent never records another heartbeat, over any run. */
  lemma {:induction false} RunsOnlyGrow(hosts: set<Host>, s: State, ops: seq<Operation>)
    ensures Grows(s, PerformAll(hosts, s, ops))
  {
    if ops != [] {
      RunsOnlyGrow(hosts, s, ops[..|ops| - 1]);
      OperationGrows(hosts, PerformAll(hosts, s, ops[..|ops| - 1]), ops[|ops| - 1]);
    }
  }

  /** A new activation revokes the agent its host had before, and that agent stays silent. */
  lemma ReplacedAgentStaysSilent(hosts: set<Host>, s: State, op: Operation, ops: seq<Operation>, a: nat)
    requires Inv(s) && op.Activate? && op.host in hosts && MayActivate(s, op)
    requires a in s.agents && s.agents[a].host == op.host
    ensures var t := PerformAll(hosts, Perform(hosts, s, op), ops);
      a in t.agents && t.agents[a].revoked && t.agents[a].binding != Active && t.agents[a].beats == s.agents[a].beats
  {
    var u := Perform(hosts, s, op);
    RunsOnlyGrow(hosts, u, ops);
    OperationKeepsInv(hosts, s, op);
    RunKeepsInv(hosts, u, ops);
  }

  lemma {:induction false} RunKeepsInv(hosts: set<Host>, s: State, ops: seq<Operation>)
    requires Inv(s)
    ensures Inv(PerformAll(hosts, s, ops))
  {
    if ops != [] {
      RunKeepsInv(hosts, s, ops[..|ops| - 1]);
      OperationKeepsInv(hosts, PerformAll(hosts, s, ops[..|ops| - 1]), ops[|ops| - 1]);
    }
  }

  // ----- what an operation does to the rows of its host, and to no others

  function HostOf(s: State, op: Operation): Host {
    match op
    case CreateEnrollment(host, _) => host
    case Activate(_, host, _, _, _) => host
    case Heartbeat(_, host, _) => host
    case RevokeHost(host) => host
  }

  /** Of an enrolment only the newest is open; the ones it closes keep host and protocol. */
  lemma CreatingOpensOne(hosts: set<Host>, s: State, host: Host, required: Option<nat>)
    requires host.id > 0 && host in hosts
    ensures var t := Perform(hosts, s, CreateEnrollment(host, required));
      exists id :: id !in s.enrollments
        && t.enrollments.Keys == s.enrollments.Keys + {id}
        && t.enrollments[id] == Enrollment(host, required, false, false) && t.agents == s.agents
        && forall e :: e in s.enrollments ==>
             t.enrollments[e] == s.enrollments[e].(revoked := s.enrollments[e].revoked
               || (s.enrollments[e].host == host && !s.enrollments[e].used))
  {
    var id := NextId(s.enrollments.Keys);
    assert id !in s.enrollments;
  }

  /** Activating replaces exactly the active agents of the host: revoked, with their binding marked as replaced. */
  lemma ActivatingReplaces(hosts: set<Host>, s: State, op: Operation)
    requires op.Activate? && op.host in hosts && MayActivate(s, op)
    ensures var t := Perform(hosts, s, op);
      && t.enrollments == s.enrollments[op.enrollment := s.enrollments[op.enrollment].(used := true)]
      && forall a :: a in s.agents ==>
           a in t.agents
           && t.agents[a] == if s.agents[a].host == op.host && s.agents[a].binding == Active && !s.agents[a].revoked
                             then s.agents[a].(revoked := true, binding := Replaced) else s.agents[a]
    ensures var t := Perform(hosts, s, op);
      exists id ::
        && id !in s.agents && t.agents.Keys == s.agents.Keys + {id}
        && t.agents[id]
             == Agent(op.host, op.protocol, op.publicKey, false, Active, op.firstSequence, op.enrollment, 0)
  {
    assert NextId(s.agents.Keys) !in s.agents;
  }

  /** A heartbeat counts once on its agent; without a sequence number the last one stays. */
  lemma HeartbeatCounts(hosts: set<Host>, s: State, a: nat, host: Host, sequence: Option<nat>)
    requires a in s.agents && !s.agents[a].revoked && s.agents[a].host == host
    ensures var t := Perform(hosts, s, Heartbeat(a, host, sequence));
      && t.enrollments == s.enrollments && t.agents.Keys == s.agents.Keys
      && (forall b :: b in s.agents && b != a ==> t.agents[b] == s.agents[b])
      && t.agents[a].beats == s.agents[a].beats + 1
      && t.agents[a].lastSequence == (match sequence case Some(n) => n case None => s.agents[a].lastSequence)
      && t.agents[a].(beats := 0, lastSequence := 0) == s.agents[a].(beats := 0, lastSequence := 0)
  {
  }

  /** Rows of other hosts are untouched. */
  lemma OtherHostsAreUntouched(hosts: set<Host>, s: State, op: Operation)
    ensures var t := Perform(hosts, s, op);
      && (forall e :: e in s.enrollments && s.enrollments[e].host != HostOf(s, op) ==>
            e in t.enrollments && t.enrollments[e] == s.enrollments[e])
      && (forall a :: a in s.agents && s.agents[a].host != HostOf(s, op) ==>
            a in t.agents && t.agents[a] == s.agents[a])
  {
  }

  /** After a host is revoked, all its enrolments and agents are, and none of its bindings is active. */
  lemma RevokingRevokes(hosts: set<Host>, s: State, host: Host)
    ensures var t := Perform(hosts, s, RevokeHost(host));
      && t.enrollments.Keys == s.enrollments.Keys && t.agents.Keys == s.agents.Keys
      && (forall e :: e in s.enrollments && s.enrollments[e].host == host ==>
            t.enrollments[e] == s.enrollments[e].(revoked := true))
      && (forall a :: a in s.agents && s.agents[a].host == host ==>
            t.agents[a] == s.agents[a].(revoked := true, binding := t.agents[a].binding))
    ensures ActiveIffUnrevoked(s) ==>
      var t := Perform(hosts, s, RevokeHost(host));
      forall a :: a in s.agents && s.agents[a].host == host ==>
        t.agents[a].binding == if s.agents[a].binding == Active then Revoked else s.agents[a].binding
  {
  }

  /** No agent a host had when it was revoked ever records another heartbeat, and no enrolment it had is used later. */
  lemma RevokedHostStaysSilent(hosts: set<Host>, s: State, host: Host, ops: seq<Operation>)
    ensures var t := PerformAll(hosts, Perform(hosts, s, RevokeHost(host)), ops);
      && (forall a :: a in s.agents && s.agents[a].host == host ==>
            a in t.agents && t.agents[a].revoked && t.agents[a].beats == s.agents[a].beats)
      && (forall e :: e in s.enrollments && s.enrollments[e].host == host ==>
            e in t.enrollments && t.enrollments[e].used == s.enrollments[e].used)
  {
    var u := Perform(hosts, s, RevokeHost(host));
    RevokingRevokes(hosts, s, host);
    RunsOnlyGrow(hosts, u, ops);
    RevokedEnrollmentsStayUnused(hosts, u, ops);
  }

  /** A revoked enrolment is never used any more. */
  lemma {:induction false} RevokedEnrollmentsStayUnused(hosts: set<Host>, s: State, ops: seq<Operation>)
    ensures var t := PerformAll(hosts, s, ops);
      forall e :: e in s.enrollments && s.enrollments[e].revoked ==>
        e in t.enrollments && t.enrollments[e].revoked && t.enrollments[e].used == s.enrollments[e].used
  {
    if ops != [] {
      RevokedEnrollmentsStayUnused(hosts, s, ops[..|ops| - 1]);
      RevokedIsNotUsed(hosts, PerformAll(hosts, s, ops[..|ops| - 1]), ops[|ops| - 1]);
    }
  }

  lemma RevokedIsNotUsed(hosts: set<Host>, s: State, op: Operation)
    ensures var t := Perform(hosts, s, op);
      forall e :: e in s.enrollments && s.enrollments[e].revoked ==>
        e in t.enrollments && t.enrollments[e].revoked && t.enrollments[e].used == s.enrollments[e].used
  {
  }

  /** An enrolment activates an agent exactly when it is open, belongs to the host, and fits protocol and key. */
  lemma ActivatesExactlyWhen(hosts: set<Host>, s: State, e: nat, host: Host, protocol: nat, key: string, sequence: nat)
    ensures var t := Perform(hosts, s, Activate(e, host, protocol, key, sequence));
      var open := e in s.enrollments && !s.enrollments[e].used && !s.enrollments[e].revoked;
      (t != s <==>
        && host in hosts && open && s.enrollments[e].host == host
        && (s.enrollments[e].protocol == None || s.enrollments[e].protocol == Some(protocol))
        && forall a :: a in s.agents ==> s.agents[a].publicKey != key)
  {
    var t := Perform(hosts, s, Activate(e, host, protocol, key, sequence));
    if host in hosts && MayActivate(s, Activate(e, host, protocol, key, sequence)) {
      assert t.enrollments[e].used && !s.enrollments[e].used;
    }
  }

  // ----- the store object

  class AgentStore {
    const hosts: set<Host>
    var enrollments: map<nat, Enrollment>
    var agents: map<nat, Agent>

    function Image(): State
      reads this
    {
      State(enrollments, agents)
    }

    constructor (hs: set<Host>)
      ensures hosts == hs && Image() == EMPTY
    {
      hosts, enrollments, agents := hs, map[], map[];
    }

    /** Returns the new enrolment's id, or nothing when the host is unknown. */
    method CreateAgentEnrollment(host: Host, protocol: Option<nat>) returns (id: Option<nat>)
      modifies this
      ensures Image() == Perform(hosts, old(Image()), CreateEnrollment(host, protocol))
      ensures id.Some? <==> host.id > 0 && host in hosts
      ensures id.Some? ==> id.value !in old(enrollments) && id.value in enrollments
      ensures id.Some? ==> enrollments[id.value] == Enrollment(host, protocol, false, false)
      ensures id.Some? ==> forall k :: k in enrollments && enrollments[k].host == host && enrollments[k].Open() ==>
        k == id.value
    {
      if host.id <= 0 || host !in hosts {
        return None;
      }
      var newId := NextId(enrollments.Keys);
      var m := enrollments;
      var rest := enrollments.Keys;
      while rest != {}
        invariant m.Keys == enrollments.Keys && rest <= m.Keys && Image() == old(Image())
        invariant forall k :: k in m ==> m[k] == if k in rest then enrollments[k] else RevokeOpen(enrollments, host)[k]
      {
        var k :| k in rest;
        rest := rest - {k};
        if m[k].host == host && m[k].Open() {
          m := m[k := m[k].(revoked := true)];
        }
      }
      assert m == RevokeOpen(enrollments, host);
      enrollments := m[newId := Enrollment(host, protocol, false, false)];
      return Some(newId);
    }

    /** Returns the new agent's id and the agents it replaced. */
    method ActivateAgentEnrollment(e: nat, host: Host, protocol: nat, publicKey: string, firstSequence: nat)
      returns (id: Option<nat>, replaced: set<nat>)
      modifies this
      ensures Image() == Perform(hosts, old(Image()), Activate(e, host, protocol, publicKey, firstSequence))
      ensures id.Some? <==>
        host in hosts && MayActivate(old(Image()), Activate(e, host, protocol, publicKey, firstSequence))
      ensures id.Some? ==> id.value !in old(agents) && id.value in agents && e in enrollments && enrollments[e].used
      ensures id.Some? ==>
        agents[id.value] == Agent(host, protocol, publicKey, false, Active, firstSequence, e, 0)
      ensures id.Some? ==> forall k :: k in replaced <==>
                && k in old(agents) && old(agents)[k].host == host
                && old(agents)[k].binding == Active && !old(agents)[k].revoked
    {
      var op := Activate(e, host, protocol, publicKey, firstSequence);
      if host !in hosts || !MayActivate(Image(), op) {
        return None, {};
      }
      var newId := NextId(agents.Keys);
      replaced := {};
      var m := agents;
      var rest := agents.Keys;
      while rest != {}
        invariant m.Keys == agents.Keys && rest <= m.Keys && Image() == old(Image())
        invariant forall k :: k in m ==> m[k] == if k in rest then agents[k] else ReplaceActive(agents, host)[k]
        invariant forall k :: k in replaced <==>
                    && k in agents && k !in rest && agents[k].host == host
                    && agents[k].binding == Active && !agents[k].revoked
      {
        var k :| k in rest;
        rest := rest - {k};
        if m[k].host == host && m[k].binding == Active && !m[k].revoked {
          replaced := replaced + {k};
          m := m[k := m[k].(revoked := true, binding := Replaced)];
        }
      }
      assert m == ReplaceActive(agents, host);
      enrollments := enrollments[e := enrollments[e].(used := true)];
      agents := m[newId := Agent(host, protocol, publicKey, false, Active, firstSequence, e, 0)];
      return Some(newId), replaced;
    }

    method RecordAgentHeartbeat(a: nat, host: Host, sequence: Option<nat>) returns (ok: bool)
      modifies this
      ensures Image() == Perform(hosts, old(Image()), Heartbeat(a, host, sequence))
      ensures ok <==> a in old(agents) && !old(agents)[a].revoked && old(agents)[a].host == host
      ensures ok ==> a in agents && agents[a].beats == old(agents)[a].beats + 1
      ensures ok && sequence.Some? ==> agents[a].lastSequence == sequence.value
    {
      if a !in agents || agents[a].revoked || agents[a].host != host {
        return false;
      }
      var agent := agents[a];
      agents := agents[a := agent.(
        lastSequence := if sequence.Some? then sequence.value else agent.lastSequence, beats := agent.beats + 1)];
      return true;
    }

    method RevokeHostEnrollments(host: Host) returns (revoked: nat)
      modifies this`enrollments
      ensures enrollments == RevokeEnrollments(old(enrollments), host)
      ensures revoked == |UnrevokedEnrollments(old(enrollments), host)|
    {
      var open := UnrevokedEnrollments(enrollments, host);
      var m, rest := enrollments, open;
      RevokedRowsStay(enrollments, agents, host);
      while rest != {}
        invariant rest <= open && m.Keys == enrollments.Keys && enrollments == old(enrollments)
        invariant forall k :: k in m && k in rest ==> m[k] == enrollments[k]
        invariant forall k :: k in m && k !in rest ==> m[k] == RevokeEnrollments(enrollments, host)[k]
      {
        var k :| k in rest;
        rest := rest - {k};
        m := m[k := m[k].(revoked := true)];
      }
      assert m == RevokeEnrollments(enrollments, host);
      enrollments := m;
      return |open|;
    }

    method RevokeHostAgents(host: Host) returns (revoked: nat)
      modifies this`agents
      ensures agents == RevokeAgents(old(agents), host)
      ensures revoked == |UnrevokedAgents(old(agents), host)|
    {
      var open := UnrevokedAgents(agents, host);
      var m, rest := agents, open;
      RevokedRowsStay(enrollments, agents, host);
      while rest != {}
        invariant rest <= open && m.Keys == agents.Keys && agents == old(agents)
        invariant forall k :: k in m && k in rest ==> m[k] == agents[k]
        invariant forall k :: k in m && k !in rest ==> m[k] == RevokeAgents(agents, host)[k]
      {
        var k :| k in rest;
        rest := rest - {k};
        m := m[k := m[k].(revoked := true, binding := if m[k].binding == Active then Revoked else m[k].binding)];
      }
      assert m == RevokeAgents(agents, host);
      agents := m;
      return |open|;
    }

    /** Revokes every enrolment and agent of a host; returns how many rows that changed. */
    method RevokeAgentRegistration(host: Host) returns (revoked: nat)
      modifies this
      ensures Image() == Perform(hosts, old(Image()), RevokeHost(host))
      ensures revoked == |UnrevokedEnrollments(old(enrollments), host)| + |UnrevokedAgents(old(agents), host)|
    {
      var es := RevokeHostEnrollments(host);
      var ds := RevokeHostAgents(host);
      return es + ds;
    }
  }
}
