/** Registry update runs: evaluations, decisions and the denormalised counters of every run. */
module RegistryUpdates {
  import opened Prelude

  datatype Classification = Safe | ReviewRequired | Blocked | Skipped

  datatype Decision = Pending | Applied | Declined | Superseded

  /** A run is identified by its source and catalog revision. */
  datatype RunKey = RunKey(source: nat, catalogRevision: nat)

  datatype Counts = Counts(applied: nat, review: nat, blocked: nat, skipped: nat)

  /** One evaluation per run and link. */
  datatype EvaluationKey = EvaluationKey(run: RunKey, link: nat)

  datatype Evaluation = Evaluation(
    toRevision: nat, hash: string, classification: Classification, decision: Decision)

  /** The exact content an update would bring to a link. */
  datatype Target = Target(link: nat, toRevision: nat, hash: string)

  /** A freshly computed evaluation, before a decision is made about it. */
  datatype Finding = Finding(target: Target, classification: Classification)

  type Evaluations = map<EvaluationKey, Evaluation>

  /** `written` lists what update runs have written into the inventory, oldest first. */
  datatype State = State(runs: map<RunKey, Counts>, evaluations: Evaluations, written: seq<Target>)

  // ----- counting

  function OfRun(m: Evaluations, run: RunKey): set<EvaluationKey> {
    set k | k in m && k.run == run
  }

  function Where(m: Evaluations, run: RunKey, f: Evaluation -> bool): set<EvaluationKey> {
    set k | k in m && k.run == run && f(m[k])
  }

  predicate IsApplied(e: Evaluation) { e.decision == Applied }
  predicate IsReview(e: Evaluation) { e.decision == Pending && e.classification != Blocked }
  predicate IsBlocked(e: Evaluation) { e.decision == Pending && e.classification == Blocked }
  predicate IsSkipped(e: Evaluation) { e.decision == Declined || e.decision == Superseded }

  function Recount(m: Evaluations, run: RunKey): Counts {
    Counts(|Where(m, run, IsApplied)|, |Where(m, run, IsReview)|, |Where(m, run, IsBlocked)|,
      |Where(m, run, IsSkipped)|)
  }

  /** The four counters of a run add up to its evaluations. */
  lemma CountsAddUp(m: Evaluations, run: RunKey)
    ensures var c := Recount(m, run); c.applied + c.review + c.blocked + c.skipped == |OfRun(m, run)|
  {
    var a, r, b, k := Where(m, run, IsApplied), Where(m, run, IsReview), Where(m, run, IsBlocked),
      Where(m, run, IsSkipped);
    assert a !! r && (a + r) !! b && (a + r + b) !! k;
    assert |a + r| == |a| + |r| && |a + r + b| == |a + r| + |b| && |a + r + b + k| == |a + r + b| + |k|;
    forall key | key in OfRun(m, run) ensures key in a + r + b + k {
      var d := m[key].decision;
      assert d.Pending? || d.Applied? || d.Declined? || d.Superseded?;
    }
    assert OfRun(m, run) == a + r + b + k;
  }

  /** Evaluations of other runs do not count. */
  lemma RecountIsLocal(m: Evaluations, n: Evaluations, run: RunKey)
    requires forall k: EvaluationKey :: k.run == run ==> (k in m <==> k in n) && (k in m ==> m[k] == n[k])
    ensures Recount(m, run) == Recount(n, run)
  {
    assert Where(m, run, IsApplied) == Where(n, run, IsApplied);
    assert Where(m, run, IsReview) == Where(n, run, IsReview);
    assert Where(m, run, IsBlocked) == Where(n, run, IsBlocked);
    assert Where(m, run, IsSkipped) == Where(n, run, IsSkipped);
  }

  function RefreshCounts(runs: map<RunKey, Counts>, m: Evaluations): map<RunKey, Counts> {
    map run | run in runs :: Recount(m, run)
  }

  // ----- update runs

  function TargetOf(k: EvaluationKey, e: Evaluation): Target {
    Target(k.link, e.toRevision, e.hash)
  }

  /** Some evaluation of exactly this content stands declined. */
  predicate IsDeclined(m: Evaluations, x: Target) {
    exists k :: k in m && TargetOf(k, m[k]) == x && m[k].decision == Declined
  }

  function Decide(m: Evaluations, f: Finding, automatic: bool, forced: set<nat>): Decision {
    if IsDeclined(m, f.target) then Declined
    else if f.target.link in forced && f.classification != Blocked then Applied
    else if f.classification == Safe && automatic then Applied
    else Pending
  }

  /** A second evaluation of a link in a run keeps its target and, once declined, its decision. */
  function Record(m: Evaluations, run: RunKey, f: Finding, d: Decision): Evaluations {
    var k := EvaluationKey(run, f.target.link);
    if k in m then
      m[k := m[k].(classification := f.classification, decision := if m[k].decision == Declined then Declined else d)]
    else
      m[k := Evaluation(f.target.toRevision, f.target.hash, f.classification, d)]
  }

  /** Records findings; their decisions were made against the evaluations `m0` at the start. */
  function RecordAll(m0: Evaluations, run: RunKey, fs: seq<Finding>, automatic: bool, forced: set<nat>): Evaluations {
    if fs == [] then m0
    else
      var last := fs[|fs| - 1];
      Record(RecordAll(m0, run, fs[..|fs| - 1], automatic, forced), run, last, Decide(m0, last, automatic, forced))
  }

  function WrittenBy(m0: Evaluations, fs: seq<Finding>, automatic: bool, forced: set<nat>): seq<Target> {
    if fs == [] then []
    else
      var last := fs[|fs| - 1];
      WrittenBy(m0, fs[..|fs| - 1], automatic, forced)
      + if Decide(m0, last, automatic, forced) == Applied then [last.target] else []
  }

  // ----- operations; `templates` gives the template key of every link

  datatype Operation =
    | CommitRun(run: RunKey, findings: seq<Finding>, automatic: bool, forced: set<nat>, preparationFails: bool)
    | RecordFailure(run: RunKey)
    | DecideGroup(template: string, toRevision: nat, decision: Decision)
    | DecideGroups(groups: seq<(string, nat)>, decision: Decision)
    | DecideMembers(members: set<EvaluationKey>, decision: Decision)
    | Resolve(target: Target)

  /** The undecided or declined evaluations of a template's update group. */
  function Group(templates: map<nat, string>, m: Evaluations, template: string, toRevision: nat): set<EvaluationKey> {
    set k | k in m && k.link in templates && templates[k.link] == template && m[k].toRevision == toRevision
            && (m[k].decision == Pending || m[k].decision == Declined)
  }

  predicate AnyBlocked(m: Evaluations, keys: set<EvaluationKey>) {
    exists k :: k in keys && k in m && m[k].classification == Blocked
  }

  /** All the evaluations exist and stand under the decision. */
  predicate AllDecided(m: Evaluations, keys: set<EvaluationKey>, d: Decision) {
    forall k :: k in keys ==> k in m && m[k].decision == d
  }

  function WithDecision(m: Evaluations, keys: set<EvaluationKey>, d: Decision): Evaluations {
    map k | k in m :: if k in keys then m[k].(decision := d) else m[k]
  }

  function Redecided(s: State, keys: set<EvaluationKey>, d: Decision): State {
    var m := WithDecision(s.evaluations, keys, d);
    s.(evaluations := m, runs := RefreshCounts(s.runs, m))
  }

  function DecideAll(templates: map<nat, string>, m: Evaluations, groups: seq<(string, nat)>,
                     d: Decision): Result<Evaluations> {
    if groups == [] then Ok(m)
    else
      var before :- DecideAll(templates, m, groups[..|groups| - 1], d);
      var (template, toRevision) := groups[|groups| - 1];
      var members := Group(templates, before, template, toRevision);
      if members == {} then Thrown("registry-update-group-not-found") else Ok(WithDecision(before, members, d))
  }

  function PendingOf(m: Evaluations, x: Target): set<EvaluationKey> {
    set k | k in m && TargetOf(k, m[k]) == x && m[k].decision == Pending
  }

  /** One operation; a thrown error leaves the state as it was. */
  function Perform(templates: map<nat, string>, s: State, op: Operation): State {
    match op
    case CommitRun(run, fs, automatic, forced, preparationFails) =>
      if preparationFails then s
      else
        var m := RecordAll(s.evaluations, run, fs, automatic, forced);
        State(s.runs[run := Recount(m, run)], m, s.written + WrittenBy(s.evaluations, fs, automatic, forced))
    case RecordFailure(run) =>
      if run in s.runs then s else s.(runs := s.runs[run := Counts(0, 0, 0, 0)])
    case DecideGroup(template, toRevision, d) =>
      var members := Group(templates, s.evaluations, template, toRevision);
      if d == Superseded || members == {} || (d == Applied && AnyBlocked(s.evaluations, members)) then s
      else Redecided(s, members, d)
    case DecideGroups(groups, d) =>
      if (d != Declined && d != Pending) || groups == [] then s
      else
        (match DecideAll(templates, s.evaluations, groups, d)
         case Thrown(_) => s
         case Ok(m) => s.(evaluations := m, runs := RefreshCounts(s.runs, m)))
    case DecideMembers(members, d) =>
      var expected := if d == Pending then Declined else Pending;
      if (d != Declined && d != Pending) || !AllDecided(s.evaluations, members, expected) then s
      else Redecided(s, members, d)
    case Resolve(x) =>
      var members := PendingOf(s.evaluations, x);
      if members == {} then s
      else Redecided(s, members, Applied).(written := s.written + [x])
  }

  function PerformAll(templates: map<nat, string>, s: State, ops: seq<Operation>): State {
    if ops == [] then s else Perform(templates, PerformAll(templates, s, ops[..|ops| - 1]), ops[|ops| - 1])
  }

  // ----- counters over every run

  /** Every evaluation belongs to a known run, and every run's counters are a recount. */
  ghost predicate Counted(s: State) {
    && (forall k :: k in s.evaluations ==> k.run in s.runs)
    && (forall run :: run in s.runs ==> s.runs[run] == Recount(s.evaluations, run))
  }

  lemma {:induction false} RecordAllTouchesOneRun(m: Evaluations, run: RunKey, fs: seq<Finding>, automatic: bool,
                                                  forced: set<nat>, k: EvaluationKey)
    ensures var n := RecordAll(m, run, fs, automatic, forced);
      && (k.run != run ==> (k in m <==> k in n) && (k in m ==> n[k] == m[k]))
      && (k in m ==> k in n && n[k].toRevision == m[k].toRevision && n[k].hash == m[k].hash)
      && (k in m && m[k].decision == Declined ==> n[k].decision == Declined)
  {
    if fs != [] {
      RecordAllTouchesOneRun(m, run, fs[..|fs| - 1], automatic, forced, k);
    }
  }

  lemma CommitKeepsCounts(s: State, run: RunKey, fs: seq<Finding>, automatic: bool, forced: set<nat>,
                          written: seq<Target>)
    requires Counted(s)
    ensures var m := RecordAll(s.evaluations, run, fs, automatic, forced);
      Counted(State(s.runs[run := Recount(m, run)], m, written))
  {
    var m := RecordAll(s.evaluations, run, fs, automatic, forced);
    forall k: EvaluationKey
      ensures k.run != run ==> (k in s.evaluations <==> k in m) && (k in s.evaluations ==> m[k] == s.evaluations[k])
    {
      RecordAllTouchesOneRun(s.evaluations, run, fs, automatic, forced, k);
    }
    forall other | other in s.runs && other != run ensures Recount(m, other) == s.runs[other] {
      RecountIsLocal(s.evaluations, m, other);
    }
  }

  lemma FailureKeepsCounts(s: State, run: RunKey)
    requires Counted(s) && run !in s.runs
    ensures Counted(s.(runs := s.runs[run := Counts(0, 0, 0, 0)]))
  {
    assert Where(s.evaluations, run, IsApplied) == {};
    assert Where(s.evaluations, run, IsReview) == {};
    assert Where(s.evaluations, run, IsBlocked) == {};
    assert Where(s.evaluations, run, IsSkipped) == {};
  }

  lemma {:induction false} DecideAllKeepsKeys(templates: map<nat, string>, m: Evaluations,
                                              groups: seq<(string, nat)>, d: Decision)
    requires DecideAll(templates, m, groups, d).Ok?
    ensures DecideAll(templates, m, groups, d).value.Keys == m.Keys
  {
    if groups != [] {
      DecideAllKeepsKeys(templates, m, groups[..|groups| - 1], d);
    }
  }

  lemma OperationKeepsCounts(templates: map<nat, string>, s: State, op: Operation)
    requires Counted(s)
    ensures Counted(Perform(templates, s, op))
  {
    match op
    case CommitRun(run, fs, automatic, forced, _) =>
      CommitKeepsCounts(s, run, fs, automatic, forced, Perform(templates, s, op).written);
    case RecordFailure(run) => if run !in s.runs { FailureKeepsCounts(s, run); }
    case DecideGroups(groups, d) =>
      if DecideAll(templates, s.evaluations, groups, d).Ok? {
        DecideAllKeepsKeys(templates, s.evaluations, groups, d);
      }
    case _ =>
  }

  /** The four counters, one by one, as numbers of evaluations of the run. */
  ghost predicate Exact(m: Evaluations, run: RunKey, c: Counts) {
    && c.applied == |set k | k in m && k.run == run && m[k].decision == Applied|
    && c.review == |set k | k in m && k.run == run && m[k].decision == Pending && m[k].classification != Blocked|
    && c.blocked == |set k | k in m && k.run == run && m[k].decision == Pending && m[k].classification == Blocked|
    && c.skipped == |set k | k in m && k.run == run && (m[k].decision == Declined || m[k].decision == Superseded)|
  }

  lemma RecountIsExact(m: Evaluations, run: RunKey)
    ensures Exact(m, run, Recount(m, run))
  {
    assert Where(m, run, IsApplied) == set k | k in m && k.run == run && m[k].decision == Applied;
    assert Where(m, run, IsReview)
        == set k | k in m && k.run == run && m[k].decision == Pending && m[k].classification != Blocked;
    assert Where(m, run, IsBlocked)
        == set k | k in m && k.run == run && m[k].decision == Pending && m[k].classification == Blocked;
    assert Where(m, run, IsSkipped)
        == set k | k in m && k.run == run && (m[k].decision == Declined || m[k].decision == Superseded);
  }

  /**
   In every reachable state each run's applied, review, blocked and skipped counters are the numbers of its
   evaluations that are applied, pending and not blocked, pending and blocked, and declined or superseded;
   every evaluation belongs to a run, and the four add up to the run's evaluations.
   */
  lemma CountersAreExact(templates: map<nat, string>, ops: seq<Operation>)
    ensures var s := PerformAll(templates, State(map[], map[], []), ops);
      && (forall k :: k in s.evaluations ==> k.run in s.runs)
      && (forall run :: run in s.runs ==>
            var c := s.runs[run];
            && Exact(s.evaluations, run, c)
            && c.applied + c.review + c.blocked + c.skipped == |set k | k in s.evaluations && k.run == run|)
  {
    var s := PerformAll(templates, State(map[], map[], []), ops);
    RunsAreCounted(templates, ops);
    forall run | run in s.runs
      ensures var c := s.runs[run];
        && Exact(s.evaluations, run, c)
        && c.applied + c.review + c.blocked + c.skipped == |set k | k in s.evaluations && k.run == run|
    {
      RecountIsExact(s.evaluations, run);
      CountsAddUp(s.evaluations, run);
      assert OfRun(s.evaluations, run) == set k | k in s.evaluations && k.run == run;
    }
  }

  lemma {:induction false} RunsAreCounted(templates: map<nat, string>, ops: seq<Operation>)
    ensures var s := PerformAll(templates, State(map[], map[], []), ops);
      && Counted(s)
      && forall run :: run in s.runs ==>
           var c := s.runs[run]; c.applied + c.review + c.blocked + c.skipped == |OfRun(s.evaluations, run)|
  {
    var s := PerformAll(templates, State(map[], map[], []), ops);
    if ops != [] {
      RunsAreCounted(templates, ops[..|ops| - 1]);
      OperationKeepsCounts(templates, PerformAll(templates, State(map[], map[], []), ops[..|ops| - 1]), ops[|ops| - 1]);
    }
    forall run | run in s.runs
      ensures var c := s.runs[run]; c.applied + c.review + c.blocked + c.skipped == |OfRun(s.evaluations, run)|
    {
      CountsAddUp(s.evaluations, run);
    }
  }

  // ----- what a run writes and records

  /**
   What a run may write: content that nobody declined, and that is either safe in automatic mode or forced and
   not blocked.
   */
  ghost predicate Eligible(m: Evaluations, f: Finding, automatic: bool, forced: set<nat>) {
    && (forall k :: k in m && m[k].decision == Declined ==> TargetOf(k, m[k]) != f.target)
    && ((f.classification == Safe && automatic) || (f.classification != Blocked && f.target.link in forced))
  }

  /** A run writes exactly the eligible findings. */
  lemma {:induction false} RunWritesEligible(m: Evaluations, fs: seq<Finding>, automatic: bool, forced: set<nat>,
                                             x: Target)
    ensures x in WrittenBy(m, fs, automatic, forced) <==>
      exists i :: 0 <= i < |fs| && fs[i].target == x && Eligible(m, fs[i], automatic, forced)
  {
    if fs != [] {
      var n := |fs| - 1;
      RunWritesEligible(m, fs[..n], automatic, forced, x);
      assert forall i :: 0 <= i < n ==> fs[..n][i] == fs[i];
      assert Decide(m, fs[n], automatic, forced) == Applied <==> Eligible(m, fs[n], automatic, forced);
    }
  }

  /** In a run with one finding per link, the evaluation of a link it had not seen says what became of its finding. */
  lemma {:induction false} RunRecordsFinding(m: Evaluations, run: RunKey, fs: seq<Finding>, automatic: bool,
                                             forced: set<nat>, i: nat)
    requires i < |fs| && EvaluationKey(run, fs[i].target.link) !in m
    requires forall a, b :: 0 <= a < b < |fs| ==> fs[a].target.link != fs[b].target.link
    ensures var k := EvaluationKey(run, fs[i].target.link);
      var n := RecordAll(m, run, fs, automatic, forced);
      && k in n && TargetOf(k, n[k]) == fs[i].target && n[k].classification == fs[i].classification
      && n[k].decision == (if IsDeclined(m, fs[i].target) then Declined
                           else if Eligible(m, fs[i], automatic, forced) then Applied else Pending)
  {
    var last := |fs| - 1;
    var front := fs[..last];
    assert forall j :: 0 <= j < last ==> front[j] == fs[j];
    if i < last {
      RunRecordsFinding(m, run, front, automatic, forced, i);
    } else {
      UnseenStaysUnseen(m, run, front, automatic, forced, fs[i].target.link);
    }
  }

  lemma {:induction false} UnseenStaysUnseen(m: Evaluations, run: RunKey, fs: seq<Finding>, automatic: bool,
                                             forced: set<nat>, link: nat)
    requires EvaluationKey(run, link) !in m && forall i :: 0 <= i < |fs| ==> fs[i].target.link != link
    ensures EvaluationKey(run, link) !in RecordAll(m, run, fs, automatic, forced)
  {
    if fs != [] {
      UnseenStaysUnseen(m, run, fs[..|fs| - 1], automatic, forced, link);
    }
  }

  // ----- the store object

  class UpdateStore {
    const templates: map<nat, string>
    var runs: map<RunKey, Counts>
    var evaluations: Evaluations
    var written: seq<Target>

    function Image(): State
      reads this
    {
      State(runs, evaluations, written)
    }

    constructor (ts: map<nat, string>)
      ensures templates == ts && Image() == State(map[], map[], [])
    {
      templates, runs, evaluations, written := ts, map[], map[], [];
    }

    method CommitCatalogUpdateRun(run: RunKey, findings: seq<Finding>, automatic: bool, forced: set<nat>,
                                  preparationFails: bool)
      modifies this
      ensures Image() == Perform(templates, old(Image()), CommitRun(run, findings, automatic, forced, preparationFails))
    {
      if preparationFails {
        return;
      }
      var before := evaluations;
      var m := evaluations;
      var applied := [];
      for i := 0 to |findings|
        invariant m == RecordAll(before, run, findings[..i], automatic, forced)
        invariant applied == WrittenBy(before, findings[..i], automatic, forced)
      {
        assert findings[..i + 1][..i] == findings[..i];
        var decision := Decide(before, findings[i], automatic, forced);
        m := Record(m, run, findings[i], decision);
        if decision == Applied {
          applied := applied + [findings[i].target];
        }
      }
      assert findings[..|findings|] == findings;
      evaluations := m;
      written := written + applied;
      runs := runs[run := Recount(m, run)];
    }

    method DecideRegistryUpdateGroups(groups: seq<(string, nat)>, decision: Decision)
      modifies this
      ensures Image() == Perform(templates, old(Image()), DecideGroups(groups, decision))
    {
      if (decision != Declined && decision != Pending) || groups == [] {
        return;
      }
      var m := evaluations;
      for i := 0 to |groups|
        invariant DecideAll(templates, evaluations, groups[..i], decision) == Ok(m)
        invariant Image() == old(Image())
      {
        assert groups[..i + 1][..i] == groups[..i];
        var members := Group(templates, m, groups[i].0, groups[i].1);
        if members == {} {
          MissingGroupFails(templates, evaluations, groups, decision, i + 1);
          return;
        }
        m := WithDecision(m, members, decision);
      }
      assert groups[..|groups|] == groups;
      evaluations := m;
      runs := RefreshCounts(runs, m);
    }
  }

  lemma {:induction false} MissingGroupFails(templates: map<nat, string>, m: Evaluations, groups: seq<(string, nat)>,
                                             d: Decision, i: nat)
    requires i <= |groups| && DecideAll(templates, m, groups[..i], d).Thrown?
    ensures DecideAll(templates, m, groups, d).Thrown?
  {
    if i == |groups| {
      assert groups[..i] == groups;
    } else {
      assert groups[..|groups| - 1][..i] == groups[..i];
      MissingGroupFails(templates, m, groups[..|groups| - 1], d, i);
    }
  }
}
