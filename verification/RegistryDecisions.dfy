/** What each decision on update evaluations does to every single evaluation. */
module RegistryDecisions {
  import opened Prelude
  import opened RegistryUpdates
  import opened RegistryDeclines

  predicate Undecided(e: Evaluation) {
    e.decision == Pending || e.decision == Declined
  }

  /** The evaluation belongs to the update group of a template and is still open to decisions. */
  predicate IsMember(templates: map<nat, string>, m: Evaluations, k: EvaluationKey, template: string, toRevision: nat) {
    && k in m && k.link in templates && templates[k.link] == template
    && m[k].toRevision == toRevision && Undecided(m[k])
  }

  predicate IsMemberOfAny(templates: map<nat, string>, m: Evaluations, k: EvaluationKey, groups: seq<(string, nat)>) {
    exists i :: 0 <= i < |groups| && IsMember(templates, m, k, groups[i].0, groups[i].1)
  }

  /** Exactly the evaluations that satisfy `chosen` carry the decision; all else is as before. */
  ghost predicate Decided(m: Evaluations, n: Evaluations, chosen: EvaluationKey -> bool, d: Decision) {
    && n.Keys == m.Keys
    && forall k :: k in m ==> n[k] == if chosen(k) then m[k].(decision := d) else m[k]
  }

  /** A decision for the members of one group keeps it open who belongs to which group. */
  lemma MembershipStays(templates: map<nat, string>, m: Evaluations, n: Evaluations, k: EvaluationKey, template: string,
                        toRevision: nat, d: Decision)
    requires (d == Pending || d == Declined) && n.Keys == m.Keys
    requires k in m ==> n[k] == m[k] || (Undecided(m[k]) && n[k] == m[k].(decision := d))
    ensures IsMember(templates, n, k, template, toRevision) <==> IsMember(templates, m, k, template, toRevision)
  {
  }

  lemma MembersInTwo(templates: map<nat, string>, m: Evaluations, k: EvaluationKey, groups: seq<(string, nat)>)
    requires groups != []
    ensures var n := |groups| - 1;
      IsMemberOfAny(templates, m, k, groups) <==>
        IsMemberOfAny(templates, m, k, groups[..n]) || IsMember(templates, m, k, groups[n].0, groups[n].1)
  {
    var n := |groups| - 1;
    assert forall i :: 0 <= i < n ==> groups[..n][i] == groups[i];
    if IsMember(templates, m, k, groups[n].0, groups[n].1) {
      assert IsMemberOfAny(templates, m, k, groups);
    }
  }

  lemma {:induction false} GroupsDecide(templates: map<nat, string>, m: Evaluations, groups: seq<(string, nat)>,
                                        d: Decision)
    requires (d == Pending || d == Declined) && DecideAll(templates, m, groups, d).Ok?
    ensures Decided(m, DecideAll(templates, m, groups, d).value, k => IsMemberOfAny(templates, m, k, groups), d)
  {
    if groups != [] {
      var n := |groups| - 1;
      GroupsDecide(templates, m, groups[..n], d);
      var before := DecideAll(templates, m, groups[..n], d).value;
      forall k | k in m
        ensures k in Group(templates, before, groups[n].0, groups[n].1)
           <==> IsMember(templates, m, k, groups[n].0, groups[n].1)
        ensures IsMemberOfAny(templates, m, k, groups) <==>
          IsMemberOfAny(templates, m, k, groups[..n]) || IsMember(templates, m, k, groups[n].0, groups[n].1)
      {
        MembershipStays(templates, m, before, k, groups[n].0, groups[n].1, d);
        MembersInTwo(templates, m, k, groups);
      }
    }
  }

  /** Deciding one group: every open evaluation of it gets the decision, unless it may not be made. */
  lemma GroupDecision(templates: map<nat, string>, s: State, template: string, toRevision: nat, d: Decision)
    ensures var t := Perform(templates, s, DecideGroup(template, toRevision, d));
      var blocked := exists k :: IsMember(templates, s.evaluations, k, template, toRevision)
                                 && s.evaluations[k].classification == Blocked;
      && t.written == s.written
      && if d == Superseded || (d == Applied && blocked) then t == s
         else Decided(s.evaluations, t.evaluations, k => IsMember(templates, s.evaluations, k, template, toRevision), d)
  {
    var members := Group(templates, s.evaluations, template, toRevision);
    assert forall k :: k in members <==> IsMember(templates, s.evaluations, k, template, toRevision);
  }

  ghost predicate HasOpen(templates: map<nat, string>, m: Evaluations, template: string, toRevision: nat) {
    exists k :: IsMember(templates, m, k, template, toRevision)
  }

  /** Every group of the list has an open evaluation. */
  ghost predicate AllOpen(templates: map<nat, string>, m: Evaluations, groups: seq<(string, nat)>) {
    forall i :: 0 <= i < |groups| ==> HasOpen(templates, m, groups[i].0, groups[i].1)
  }

  lemma AllOpenMeaning(templates: map<nat, string>, m: Evaluations, groups: seq<(string, nat)>)
    ensures AllFound(templates, m, groups) <==> AllOpen(templates, m, groups)
  {
    forall i | 0 <= i < |groups|
      ensures Group(templates, m, groups[i].0, groups[i].1) != {} <==> HasOpen(templates, m, groups[i].0, groups[i].1)
    {
      var members := Group(templates, m, groups[i].0, groups[i].1);
      assert forall k :: k in members <==> IsMember(templates, m, k, groups[i].0, groups[i].1);
    }
  }

  /** Deciding a list of groups: all of them or, when one has no open evaluation, none. */
  lemma GroupsDecision(templates: map<nat, string>, s: State, groups: seq<(string, nat)>, d: Decision)
    requires (d == Pending || d == Declined) && groups != []
    ensures var t := Perform(templates, s, DecideGroups(groups, d));
      && t.written == s.written
      && if AllOpen(templates, s.evaluations, groups) then
           Decided(s.evaluations, t.evaluations, k => IsMemberOfAny(templates, s.evaluations, k, groups), d)
         else t == s
  {
    GroupsSucceed(templates, s.evaluations, groups, d);
    AllOpenMeaning(templates, s.evaluations, groups);
    if DecideAll(templates, s.evaluations, groups, d).Ok? {
      GroupsDecide(templates, s.evaluations, groups, d);
    }
  }

  /** Deciding evaluations one by one: all, or none when one of them is not in the opposite state. */
  lemma MembersDecision(templates: map<nat, string>, s: State, members: set<EvaluationKey>, d: Decision)
    requires d == Pending || d == Declined
    ensures var t := Perform(templates, s, DecideMembers(members, d));
      var current := forall k :: k in members ==>
        k in s.evaluations && s.evaluations[k].decision == (if d == Declined then Pending else Declined);
      && t.written == s.written
      && if current then Decided(s.evaluations, t.evaluations, k => k in members, d) else t == s
  {
  }

  /** The evaluation of the target is pending. */
  predicate PendingFor(m: Evaluations, k: EvaluationKey, x: Target) {
    k in m && m[k].decision == Pending && IsOf(k, m[k], x)
  }

  /** Resolving a target by hand applies its pending evaluations and writes it once; without one, nothing happens. */
  lemma ResolveDecision(templates: map<nat, string>, s: State, x: Target)
    ensures var t := Perform(templates, s, Resolve(x));
      if exists k :: PendingFor(s.evaluations, k, x) then
        && t.written == s.written + [x]
        && Decided(s.evaluations, t.evaluations, k => PendingFor(s.evaluations, k, x), Applied)
      else t == s
  {
    var members := PendingOf(s.evaluations, x);
    assert forall k :: k in members <==> PendingFor(s.evaluations, k, x);
  }

  /** The evaluation is about this link, revision and content. */
  predicate IsOf(k: EvaluationKey, e: Evaluation, x: Target) {
    k.link == x.link && e.toRevision == x.toRevision && e.hash == x.hash
  }

  /** A second evaluation of a link in a run keeps its target, takes the new classification, and a decline stands. */
  lemma RunRecordsAgain(m: Evaluations, run: RunKey, f: Finding, automatic: bool, forced: set<nat>)
    requires EvaluationKey(run, f.target.link) in m
    ensures var k := EvaluationKey(run, f.target.link);
      var n := RecordAll(m, run, [f], automatic, forced);
      && n.Keys == m.Keys && (forall l :: l in m && l != k ==> n[l] == m[l])
      && n[k].toRevision == m[k].toRevision && n[k].hash == m[k].hash && n[k].classification == f.classification
      && n[k].decision == (if m[k].decision == Declined || IsDeclined(m, f.target) then Declined
                           else if Eligible(m, f, automatic, forced) then Applied else Pending)
  {
    assert [f][..0] == [];
    assert RecordAll(m, run, [f][..0], automatic, forced) == m;
  }

  /** When preparing the updates fails, nothing of the run is kept. */
  lemma FailedPreparationKeepsNothing(templates: map<nat, string>, s: State, run: RunKey, fs: seq<Finding>,
                                      automatic: bool, forced: set<nat>)
    ensures Perform(templates, s, CommitRun(run, fs, automatic, forced, true)) == s
  {
  }

  /** A failed run is noted once, with nothing counted; a run that exists stays as it is. */
  lemma FailureIsNoted(templates: map<nat, string>, s: State, run: RunKey)
    ensures var t := Perform(templates, s, RecordFailure(run));
      && t.evaluations == s.evaluations && t.written == s.written && t.runs.Keys == s.runs.Keys + {run}
      && (forall r :: r in s.runs ==> t.runs[r] == s.runs[r])
      && (run !in s.runs ==> t.runs[run] == Counts(0, 0, 0, 0))
  {
  }
}
