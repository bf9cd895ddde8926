/**
 Declined updates: which operations end a decline, and what may be written while it stands.
 A decline is about one target, that is one link, revision and content hash.
 */
module RegistryDeclines {
  import opened Prelude
  import opened RegistryUpdates

  /** The evaluations that stand declined for exactly this content. */
  function Declinations(m: Evaluations, x: Target): set<EvaluationKey> {
    set k | k in m && TargetOf(k, m[k]) == x && m[k].decision == Declined
  }

  /** The content belongs to a template's update group. */
  predicate InGroup(templates: map<nat, string>, x: Target, template: string, toRevision: nat) {
    x.link in templates && templates[x.link] == template && x.toRevision == toRevision
  }

  /** Every group has an undecided or declined evaluation. */
  predicate AllFound(templates: map<nat, string>, m: Evaluations, groups: seq<(string, nat)>) {
    forall i :: 0 <= i < |groups| ==> Group(templates, m, groups[i].0, groups[i].1) != {}
  }

  /**
   The operation lifts the decline of `x`: it decides the group of `x` as pending or applied
   (applied only without blocked members), or a list of existing groups with that group among
   them as pending, or returns all declined evaluations of `x`, and only declined ones, to pending.
   */
  predicate Lifts(templates: map<nat, string>, s: State, op: Operation, x: Target) {
    match op
    case DecideGroup(template, toRevision, d) =>
      && InGroup(templates, x, template, toRevision)
      && (d == Pending
          || (d == Applied && !AnyBlocked(s.evaluations, Group(templates, s.evaluations, template, toRevision))))
    case DecideGroups(groups, d) =>
      && d == Pending && AllFound(templates, s.evaluations, groups)
      && (exists i :: 0 <= i < |groups| && InGroup(templates, x, groups[i].0, groups[i].1))
    case DecideMembers(members, d) =>
      && d == Pending && Declinations(s.evaluations, x) <= members
      && AllDecided(s.evaluations, members, Declined)
    case _ => false
  }

  /** The operation writes `x` although it is declined: a resolution by hand that finds a pending evaluation of `x`. */
  predicate WritesByHand(s: State, op: Operation, x: Target) {
    op == Resolve(x) && PendingOf(s.evaluations, x) != {}
  }

  lemma {:induction false} DeclinedIsNotWritten(m: Evaluations, fs: seq<Finding>, automatic: bool, forced: set<nat>,
                                                x: Target)
    requires IsDeclined(m, x)
    ensures x !in WrittenBy(m, fs, automatic, forced)
  {
    if fs != [] {
      DeclinedIsNotWritten(m, fs[..|fs| - 1], automatic, forced, x);
    }
  }

  lemma RecordAllKeepsDeclines(m: Evaluations, run: RunKey, fs: seq<Finding>, automatic: bool, forced: set<nat>,
                               x: Target)
    requires IsDeclined(m, x)
    ensures IsDeclined(RecordAll(m, run, fs, automatic, forced), x)
  {
    var k :| k in m && TargetOf(k, m[k]) == x && m[k].decision == Declined;
    RecordAllTouchesOneRun(m, run, fs, automatic, forced, k);
    assert TargetOf(k, RecordAll(m, run, fs, automatic, forced)[k]) == x;
  }

  lemma DecliningKeepsDeclines(m: Evaluations, keys: set<EvaluationKey>, x: Target)
    requires IsDeclined(m, x)
    ensures IsDeclined(WithDecision(m, keys, Declined), x)
  {
    var k :| k in m && TargetOf(k, m[k]) == x && m[k].decision == Declined;
    assert TargetOf(k, WithDecision(m, keys, Declined)[k]) == x;
  }

  /** Any other decision lifts a decline exactly when it reaches all its evaluations. */
  lemma DecidingLifts(m: Evaluations, keys: set<EvaluationKey>, d: Decision, x: Target)
    requires d != Declined
    ensures IsDeclined(WithDecision(m, keys, d), x) <==> !(Declinations(m, x) <= keys)
  {
    var n := WithDecision(m, keys, d);
    if IsDeclined(n, x) {
      var k :| k in n && TargetOf(k, n[k]) == x && n[k].decision == Declined;
      assert k in Declinations(m, x) && k !in keys;
    }
    if !(Declinations(m, x) <= keys) {
      var k :| k in Declinations(m, x) && k !in keys;
      assert n[k] == m[k] && TargetOf(k, n[k]) == x;
    }
  }

  /** A group holds all declined evaluations of a content or none. */
  lemma GroupHoldsDeclines(templates: map<nat, string>, m: Evaluations, template: string, toRevision: nat, x: Target)
    requires IsDeclined(m, x)
    ensures Declinations(m, x) <= Group(templates, m, template, toRevision) <==>
      InGroup(templates, x, template, toRevision)
    ensures InGroup(templates, x, template, toRevision) ==> Group(templates, m, template, toRevision) != {}
  {
    var k :| k in m && TargetOf(k, m[k]) == x && m[k].decision == Declined;
    assert k in Declinations(m, x);
    if InGroup(templates, x, template, toRevision) {
      assert k in Group(templates, m, template, toRevision);
    }
  }

  /** Decisions as pending or declined keep every group as it is. */
  lemma DecidingKeepsGroups(templates: map<nat, string>, m: Evaluations, keys: set<EvaluationKey>, d: Decision,
                            template: string, toRevision: nat)
    requires d == Pending || d == Declined
    requires forall k :: k in keys ==> k in m && (m[k].decision == Pending || m[k].decision == Declined)
    ensures Group(templates, WithDecision(m, keys, d), template, toRevision)
      == Group(templates, m, template, toRevision)
  {
  }

  /** A list of groups can be decided exactly when each of them exists at the start. */
  lemma {:induction false} GroupsSucceed(templates: map<nat, string>, m: Evaluations, groups: seq<(string, nat)>,
                                         d: Decision)
    requires d == Pending || d == Declined
    ensures DecideAll(templates, m, groups, d).Ok? <==> AllFound(templates, m, groups)
    ensures DecideAll(templates, m, groups, d).Ok? ==>
      forall template, toRevision ::
        Group(templates, DecideAll(templates, m, groups, d).value, template, toRevision)
          == Group(templates, m, template, toRevision)
  {
    if groups != [] {
      var n := |groups| - 1;
      GroupsSucceed(templates, m, groups[..n], d);
      FoundInTwo(templates, m, groups);
      var front := DecideAll(templates, m, groups[..n], d);
      if front.Ok? {
        var members := Group(templates, front.value, groups[n].0, groups[n].1);
        forall template, toRevision
          ensures Group(templates, WithDecision(front.value, members, d), template, toRevision)
               == Group(templates, m, template, toRevision)
        {
          DecidingKeepsGroups(templates, front.value, members, d, template, toRevision);
        }
      }
    }
  }

  lemma FoundInTwo(templates: map<nat, string>, m: Evaluations, groups: seq<(string, nat)>)
    requires groups != []
    ensures var n := |groups| - 1;
      AllFound(templates, m, groups) <==>
        AllFound(templates, m, groups[..n]) && Group(templates, m, groups[n].0, groups[n].1) != {}
  {
    var n := |groups| - 1;
    assert forall i :: 0 <= i < n ==> groups[..n][i] == groups[i];
  }

  lemma {:induction false} DecliningAllKeepsDeclines(templates: map<nat, string>, m: Evaluations,
                                                     groups: seq<(string, nat)>, x: Target)
    requires IsDeclined(m, x) && DecideAll(templates, m, groups, Declined).Ok?
    ensures IsDeclined(DecideAll(templates, m, groups, Declined).value, x)
  {
    if groups != [] {
      DecliningAllKeepsDeclines(templates, m, groups[..|groups| - 1], x);
      var before := DecideAll(templates, m, groups[..|groups| - 1], Declined).value;
      var (template, toRevision) := groups[|groups| - 1];
      DecliningKeepsDeclines(before, Group(templates, before, template, toRevision), x);
    }
  }

  /** Returning groups to pending lifts the declines of exactly their contents. */
  lemma {:induction false} ReturningLifts(templates: map<nat, string>, m: Evaluations, groups: seq<(string, nat)>,
                                          x: Target)
    requires IsDeclined(m, x) && DecideAll(templates, m, groups, Pending).Ok?
    ensures IsDeclined(DecideAll(templates, m, groups, Pending).value, x) <==>
      !exists i :: 0 <= i < |groups| && InGroup(templates, x, groups[i].0, groups[i].1)
  {
    if groups != [] {
      var n := |groups| - 1;
      ReturningLifts(templates, m, groups[..n], x);
      assert forall i :: 0 <= i < n ==> groups[..n][i] == groups[i];
      var before := DecideAll(templates, m, groups[..n], Pending).value;
      DecidingLifts(before, Group(templates, before, groups[n].0, groups[n].1), Pending, x);
      if IsDeclined(before, x) {
        GroupHoldsDeclines(templates, before, groups[n].0, groups[n].1, x);
      } else {
        assert Declinations(before, x) == {};
      }
    }
  }

  lemma ResolvingKeepsDeclines(m: Evaluations, y: Target, x: Target)
    requires IsDeclined(m, x)
    ensures IsDeclined(WithDecision(m, PendingOf(m, y), Applied), x)
  {
    var k :| k in m && TargetOf(k, m[k]) == x && m[k].decision == Declined;
    assert k !in PendingOf(m, y);
    assert WithDecision(m, PendingOf(m, y), Applied)[k] == m[k];
  }

  lemma GroupDecisionLifts(templates: map<nat, string>, s: State, op: Operation, x: Target)
    requires IsDeclined(s.evaluations, x) && op.DecideGroup?
    ensures IsDeclined(Perform(templates, s, op).evaluations, x) <==> !Lifts(templates, s, op, x)
  {
    var members := Group(templates, s.evaluations, op.template, op.toRevision);
    GroupHoldsDeclines(templates, s.evaluations, op.template, op.toRevision, x);
    if op.decision == Declined {
      DecliningKeepsDeclines(s.evaluations, members, x);
    } else {
      DecidingLifts(s.evaluations, members, op.decision, x);
    }
  }

  lemma GroupsDecisionLifts(templates: map<nat, string>, s: State, op: Operation, x: Target)
    requires IsDeclined(s.evaluations, x) && op.DecideGroups?
    ensures IsDeclined(Perform(templates, s, op).evaluations, x) <==> !Lifts(templates, s, op, x)
  {
    if op.decision == Pending || op.decision == Declined {
      GroupsSucceed(templates, s.evaluations, op.groups, op.decision);
      if AllFound(templates, s.evaluations, op.groups) {
        if op.decision == Declined {
          DecliningAllKeepsDeclines(templates, s.evaluations, op.groups, x);
        } else {
          ReturningLifts(templates, s.evaluations, op.groups, x);
        }
      }
    }
  }

  lemma MembersDecisionLifts(templates: map<nat, string>, s: State, op: Operation, x: Target)
    requires IsDeclined(s.evaluations, x) && op.DecideMembers?
    ensures IsDeclined(Perform(templates, s, op).evaluations, x) <==> !Lifts(templates, s, op, x)
  {
    if op.decision == Declined {
      DecliningKeepsDeclines(s.evaluations, op.members, x);
    } else if op.decision == Pending {
      DecidingLifts(s.evaluations, op.members, Pending, x);
    }
  }

  /** Declined content stays declined under exactly the operations that do not lift it. */
  lemma DeclineHolds(templates: map<nat, string>, s: State, op: Operation, x: Target)
    requires IsDeclined(s.evaluations, x)
    ensures IsDeclined(Perform(templates, s, op).evaluations, x) <==> !Lifts(templates, s, op, x)
  {
    match op
    case CommitRun(run, fs, automatic, forced, _) =>
      RecordAllKeepsDeclines(s.evaluations, run, fs, automatic, forced, x);
    case DecideGroup(_, _, _) => GroupDecisionLifts(templates, s, op, x);
    case DecideGroups(_, _) => GroupsDecisionLifts(templates, s, op, x);
    case DecideMembers(_, _) => MembersDecisionLifts(templates, s, op, x);
    case Resolve(y) => ResolvingKeepsDeclines(s.evaluations, y, x);
    case RecordFailure(_) =>
  }

  /** No run writes declined content, automatic or forced; only its resolution by hand does. */
  lemma DeclinedIsWrittenByHandOnly(templates: map<nat, string>, s: State, op: Operation, x: Target)
    requires IsDeclined(s.evaluations, x)
    ensures var t := Perform(templates, s, op);
      s.written <= t.written && (x in t.written[|s.written|..] <==> WritesByHand(s, op, x))
  {
    if op.CommitRun? {
      DeclinedIsNotWritten(s.evaluations, op.findings, op.automatic, op.forced, x);
    }
  }

  /** Before operation `i` of a run. */
  function Before(templates: map<nat, string>, s: State, ops: seq<Operation>, i: nat): State
    requires i <= |ops|
  {
    PerformAll(templates, s, ops[..i])
  }

  /** Operation `i` of the run lifts the decline of `x`. */
  predicate LiftsAt(templates: map<nat, string>, s: State, ops: seq<Operation>, x: Target, i: nat)
    requires i < |ops|
  {
    Lifts(templates, Before(templates, s, ops, i), ops[i], x)
  }

  /** Operation `i` of the run writes `x` beside its decline. */
  predicate WritesAt(templates: map<nat, string>, s: State, ops: seq<Operation>, x: Target, i: nat)
    requires i < |ops|
  {
    WritesByHand(Before(templates, s, ops, i), ops[i], x)
  }

  ghost predicate NeverLifted(templates: map<nat, string>, s: State, ops: seq<Operation>, x: Target) {
    forall i :: 0 <= i < |ops| ==> !LiftsAt(templates, s, ops, x, i)
  }

  ghost predicate WrittenByHand(templates: map<nat, string>, s: State, ops: seq<Operation>, x: Target) {
    exists i :: 0 <= i < |ops| && WritesAt(templates, s, ops, x, i)
  }

  lemma BeforeInPrefix(templates: map<nat, string>, s: State, ops: seq<Operation>, n: nat, i: nat)
    requires i <= n <= |ops|
    ensures Before(templates, s, ops[..n], i) == Before(templates, s, ops, i)
  {
    assert ops[..n][..i] == ops[..i];
  }

  lemma PrefixAgrees(templates: map<nat, string>, s: State, ops: seq<Operation>, x: Target, n: nat)
    requires n <= |ops|
    ensures forall i :: 0 <= i < n ==> LiftsAt(templates, s, ops[..n], x, i) == LiftsAt(templates, s, ops, x, i)
    ensures forall i :: 0 <= i < n ==> WritesAt(templates, s, ops[..n], x, i) == WritesAt(templates, s, ops, x, i)
  {
    forall i | 0 <= i < n
      ensures LiftsAt(templates, s, ops[..n], x, i) == LiftsAt(templates, s, ops, x, i)
      ensures WritesAt(templates, s, ops[..n], x, i) == WritesAt(templates, s, ops, x, i)
    {
      BeforeInPrefix(templates, s, ops, n, i);
    }
  }

  lemma LiftsInTwo(templates: map<nat, string>, s: State, ops: seq<Operation>, x: Target)
    requires ops != []
    ensures var n := |ops| - 1;
      NeverLifted(templates, s, ops, x) <==>
        NeverLifted(templates, s, ops[..n], x) && !LiftsAt(templates, s, ops, x, n)
  {
    PrefixAgrees(templates, s, ops, x, |ops| - 1);
  }

  lemma WritesInTwo(templates: map<nat, string>, s: State, ops: seq<Operation>, x: Target)
    requires ops != []
    ensures var n := |ops| - 1;
      WrittenByHand(templates, s, ops, x) <==>
        WrittenByHand(templates, s, ops[..n], x) || WritesAt(templates, s, ops, x, n)
  {
    var n := |ops| - 1;
    PrefixAgrees(templates, s, ops, x, n);
    if i :| 0 <= i < n && WritesAt(templates, s, ops[..n], x, i) {
      assert WritesAt(templates, s, ops, x, i);
    }
  }

  /** A decline stands after every operation of a run exactly when no operation of it lifts that very decline. */
  lemma {:induction false} DeclineStandsExactlyWhen(templates: map<nat, string>, s: State, ops: seq<Operation>,
                                                    x: Target)
    requires IsDeclined(s.evaluations, x)
    ensures (forall i :: 0 <= i <= |ops| ==> IsDeclined(Before(templates, s, ops, i).evaluations, x)) <==>
      NeverLifted(templates, s, ops, x)
  {
    if ops == [] {
      assert Before(templates, s, ops, 0) == s;
    } else {
      var n := |ops| - 1;
      DeclineStandsExactlyWhen(templates, s, ops[..n], x);
      LiftsInTwo(templates, s, ops, x);
      forall i | 0 <= i <= n ensures Before(templates, s, ops[..n], i) == Before(templates, s, ops, i) {
        BeforeInPrefix(templates, s, ops, n, i);
      }
      assert ops[..|ops|] == ops;
      var u := Before(templates, s, ops, n);
      assert Before(templates, s, ops, |ops|) == Perform(templates, u, ops[n]);
      if IsDeclined(u.evaluations, x) {
        DeclineHolds(templates, u, ops[n], x);
      }
    }
  }

  /**
   Until its decline is lifted, content is never written by an update run, automatic or forced: it is
   written exactly when somebody resolves that very target by hand while an evaluation of it is pending.
   */
  lemma {:induction false} DeclinedStaysUnwritten(templates: map<nat, string>, s: State, ops: seq<Operation>, x: Target)
    requires IsDeclined(s.evaluations, x) && NeverLifted(templates, s, ops, x)
    ensures var t := PerformAll(templates, s, ops);
      && IsDeclined(t.evaluations, x) && s.written <= t.written
      && (x in t.written[|s.written|..] <==> WrittenByHand(templates, s, ops, x))
  {
    if ops != [] {
      var n := |ops| - 1;
      LiftsInTwo(templates, s, ops, x);
      WritesInTwo(templates, s, ops, x);
      DeclinedStaysUnwritten(templates, s, ops[..n], x);
      var u := PerformAll(templates, s, ops[..n]);
      DeclineHolds(templates, u, ops[n], x);
      DeclinedIsWrittenByHandOnly(templates, u, ops[n], x);
      WrittenInTwo(s.written, u.written, PerformAll(templates, s, ops).written, x);
    }
  }

  lemma WrittenInTwo(a: seq<Target>, b: seq<Target>, c: seq<Target>, x: Target)
    requires a <= b <= c
    ensures a <= c && (x in c[|a|..] <==> x in b[|a|..] || x in c[|b|..])
  {
    assert c[|a|..] == b[|a|..] + c[|b|..];
  }

  // ----- runs that end a decline, or write beside it, without a return to pending

  const NOTHING := State(map[], map[], [])

  /** A run with one finding. */
  function OneFinding(run: RunKey, x: Target, forced: set<nat>): Operation {
    CommitRun(run, [Finding(x, Safe)], false, forced, false)
  }

  /** The evaluation of that finding under a decision. */
  function Evaluated(x: Target, d: Decision): Evaluation {
    Evaluation(x.toRevision, x.hash, Safe, d)
  }

  lemma OneFindingRecords(templates: map<nat, string>, s: State, run: RunKey, x: Target, forced: set<nat>)
    requires EvaluationKey(run, x.link) !in s.evaluations
    ensures var t := Perform(templates, s, OneFinding(run, x, forced));
      var d := Decide(s.evaluations, Finding(x, Safe), false, forced);
      && t.evaluations == s.evaluations[EvaluationKey(run, x.link) := Evaluated(x, d)]
      && t.written == s.written + if d == Applied then [x] else []
  {
    var fs := [Finding(x, Safe)];
    assert fs[..0] == [];
    assert RecordAll(s.evaluations, run, fs[..0], false, forced) == s.evaluations;
    assert WrittenBy(s.evaluations, fs[..0], false, forced) == [];
  }

  lemma RunOneMore(templates: map<nat, string>, s: State, ops: seq<Operation>, op: Operation)
    ensures PerformAll(templates, s, ops + [op]) == Perform(templates, PerformAll(templates, s, ops), op)
  {
    assert (ops + [op])[..|ops + [op]| - 1] == ops;
  }

  lemma RunTwoMore(templates: map<nat, string>, s: State, ops: seq<Operation>, a: Operation, b: Operation)
    ensures PerformAll(templates, s, ops + [a] + [b])
         == Perform(templates, Perform(templates, PerformAll(templates, s, ops), a), b)
  {
    RunOneMore(templates, s, ops, a);
    RunOneMore(templates, s, ops + [a], b);
  }

  /** Deciding the only evaluation of a group. */
  lemma OneGroupDecided(templates: map<nat, string>, s: State, k: EvaluationKey, x: Target, d: Decision, e: Decision)
    requires x.link in templates && k.link == x.link && s.evaluations == map[k := Evaluated(x, d)]
    requires (d == Pending || d == Declined) && e != Superseded
    ensures var t := Perform(templates, s, DecideGroup(templates[x.link], x.toRevision, e));
      t.evaluations == map[k := Evaluated(x, e)] && t.written == s.written
  {
    var members := Group(templates, s.evaluations, templates[x.link], x.toRevision);
    assert k in members && members == {k};
  }

  /** Declined, then decided as applied, then written by the next forced run, and nobody returned it to pending. */
  function AppliedAfterDecline(templates: map<nat, string>, x: Target, r1: RunKey, r2: RunKey): seq<Operation>
    requires x.link in templates
  {
    var g := templates[x.link];
    [OneFinding(r1, x, {})] + [DecideGroup(g, x.toRevision, Declined)] + [DecideGroup(g, x.toRevision, Applied)]
    + [OneFinding(r2, x, {x.link})]
  }

  lemma DecidedAsApplied(templates: map<nat, string>, x: Target, run: RunKey) returns (u: State, v: State)
    requires x.link in templates
    ensures var g := templates[x.link];
      && u == PerformAll(templates, NOTHING, [OneFinding(run, x, {})] + [DecideGroup(g, x.toRevision, Declined)])
      && v == Perform(templates, u, DecideGroup(g, x.toRevision, Applied))
    ensures IsDeclined(u.evaluations, x) && u.written == v.written == []
    ensures v.evaluations == map[EvaluationKey(run, x.link) := Evaluated(x, Applied)]
  {
    var g, k := templates[x.link], EvaluationKey(run, x.link);
    var s := PerformAll(templates, NOTHING, [OneFinding(run, x, {})]);
    RunOneMore(templates, NOTHING, [], OneFinding(run, x, {}));
    assert [] + [OneFinding(run, x, {})] == [OneFinding(run, x, {})];
    OneFindingRecords(templates, NOTHING, run, x, {});
    assert s.evaluations == map[k := Evaluated(x, Pending)];
    u := Perform(templates, s, DecideGroup(g, x.toRevision, Declined));
    RunOneMore(templates, NOTHING, [OneFinding(run, x, {})], DecideGroup(g, x.toRevision, Declined));
    OneGroupDecided(templates, s, k, x, Pending, Declined);
    assert TargetOf(k, u.evaluations[k]) == x;
    v := Perform(templates, u, DecideGroup(g, x.toRevision, Applied));
    OneGroupDecided(templates, u, k, x, Declined, Applied);
  }

  lemma AppliedLiftsADecline(templates: map<nat, string>, x: Target, r1: RunKey, r2: RunKey)
    requires x.link in templates && r1 != r2
    ensures var ops := AppliedAfterDecline(templates, x, r1, r2);
      && IsDeclined(Before(templates, NOTHING, ops, 2).evaluations, x)
      && ops[3].CommitRun? && PerformAll(templates, NOTHING, ops).written == [x]
      && forall i :: 0 <= i < |ops| ==> ops[i].DecideGroup? ==> ops[i].decision != Pending
  {
    var ops := AppliedAfterDecline(templates, x, r1, r2);
    var g := templates[x.link];
    var u, v := DecidedAsApplied(templates, x, r1);
    ForcedRunWrites(templates, v, r2, x);
    assert ops[..2] == [OneFinding(r1, x, {})] + [DecideGroup(g, x.toRevision, Declined)];
    RunTwoMore(templates, NOTHING, ops[..2], DecideGroup(g, x.toRevision, Applied), OneFinding(r2, x, {x.link}));
    assert ops == ops[..2] + [DecideGroup(g, x.toRevision, Applied)] + [OneFinding(r2, x, {x.link})];
  }

  lemma ForcedRunWrites(templates: map<nat, string>, s: State, run: RunKey, x: Target)
    requires EvaluationKey(run, x.link) !in s.evaluations
    requires forall k :: k in s.evaluations ==> s.evaluations[k].decision != Declined
    ensures Perform(templates, s, OneFinding(run, x, {x.link})).written == s.written + [x]
  {
    assert !IsDeclined(s.evaluations, x);
    OneFindingRecords(templates, s, run, x, {x.link});
  }

  /** Two runs find the same content, the later evaluation is declined, and somebody resolves the earlier by hand. */
  function ResolvedBesideDecline(x: Target, r1: RunKey, r2: RunKey): seq<Operation> {
    [OneFinding(r1, x, {})] + [OneFinding(r2, x, {})]
    + [DecideMembers({EvaluationKey(r2, x.link)}, Declined)] + [Resolve(x)]
  }

  lemma TwinsPending(templates: map<nat, string>, x: Target, r1: RunKey, r2: RunKey) returns (t: State)
    requires r1 != r2
    ensures t == PerformAll(templates, NOTHING, [OneFinding(r1, x, {})] + [OneFinding(r2, x, {})])
    ensures t.evaluations == map[EvaluationKey(r1, x.link) := Evaluated(x, Pending),
                                 EvaluationKey(r2, x.link) := Evaluated(x, Pending)] && t.written == []
  {
    RunOneMore(templates, NOTHING, [], OneFinding(r1, x, {}));
    assert [] + [OneFinding(r1, x, {})] == [OneFinding(r1, x, {})];
    OneFindingRecords(templates, NOTHING, r1, x, {});
    var s := PerformAll(templates, NOTHING, [OneFinding(r1, x, {})]);
    assert s.evaluations == map[EvaluationKey(r1, x.link) := Evaluated(x, Pending)] && s.written == [];
    RunOneMore(templates, NOTHING, [OneFinding(r1, x, {})], OneFinding(r2, x, {}));
    OneFindingRecords(templates, s, r2, x, {});
    t := Perform(templates, s, OneFinding(r2, x, {}));
  }

  lemma OneMemberDeclined(templates: map<nat, string>, t: State, k1: EvaluationKey, k2: EvaluationKey, x: Target)
    requires k1 != k2 && t.evaluations == map[k1 := Evaluated(x, Pending), k2 := Evaluated(x, Pending)]
    ensures var u := Perform(templates, t, DecideMembers({k2}, Declined));
      && u.evaluations == map[k1 := Evaluated(x, Pending), k2 := Evaluated(x, Declined)] && u.written == t.written
  {
    assert k2 in t.evaluations && t.evaluations[k2].decision == Pending;
    var m := WithDecision(t.evaluations, {k2}, Declined);
    assert m.Keys == {k1, k2} && m[k1] == Evaluated(x, Pending) && m[k2] == Evaluated(x, Declined);
  }

  lemma OneTwinDeclined(templates: map<nat, string>, x: Target, r1: RunKey, r2: RunKey) returns (u: State)
    requires r1 != r2
    ensures u == PerformAll(templates, NOTHING,
      [OneFinding(r1, x, {})] + [OneFinding(r2, x, {})] + [DecideMembers({EvaluationKey(r2, x.link)}, Declined)])
    ensures u.evaluations == map[EvaluationKey(r1, x.link) := Evaluated(x, Pending),
                                 EvaluationKey(r2, x.link) := Evaluated(x, Declined)] && u.written == []
  {
    var k1, k2 := EvaluationKey(r1, x.link), EvaluationKey(r2, x.link);
    var t := TwinsPending(templates, x, r1, r2);
    RunOneMore(templates, NOTHING, [OneFinding(r1, x, {})] + [OneFinding(r2, x, {})], DecideMembers({k2}, Declined));
    u := Perform(templates, t, DecideMembers({k2}, Declined));
    OneMemberDeclined(templates, t, k1, k2, x);
  }

  lemma ResolveWritesBesideADecline(templates: map<nat, string>, x: Target, r1: RunKey, r2: RunKey)
    requires r1 != r2
    ensures var ops := ResolvedBesideDecline(x, r1, r2);
      && IsDeclined(Before(templates, NOTHING, ops, 3).evaluations, x)
      && PerformAll(templates, NOTHING, ops).written == [x]
      && IsDeclined(PerformAll(templates, NOTHING, ops).evaluations, x)
  {
    var ops := ResolvedBesideDecline(x, r1, r2);
    var u := OneTwinDeclined(templates, x, r1, r2);
    var k1, k2 := EvaluationKey(r1, x.link), EvaluationKey(r2, x.link);
    assert TargetOf(k2, u.evaluations[k2]) == x && k1 in PendingOf(u.evaluations, x);
    assert ops[..3] == [OneFinding(r1, x, {})] + [OneFinding(r2, x, {})] + [DecideMembers({k2}, Declined)];
    RunOneMore(templates, NOTHING, ops[..3], Resolve(x));
    assert ops == ops[..3] + [Resolve(x)];
    DeclineHolds(templates, u, Resolve(x), x);
  }
}
