/** Private templates: asynchronous mutations chained on a promise tail, beside synchronous deletes. */
module TemplateQueue {
  import opened Prelude

  const MAX_NAME_LENGTH: nat := 160

  datatype Template = Template(id: nat, name: string, checksum: string, item: string)

  /** What a new template is made from; `valid` says that the item itself passes sanitizing. */
  datatype Draft = Draft(name: string, checksum: string, item: string, valid: bool)

  datatype Failure = Invalid | NotFound | Exhausted | BadPack | DuplicateId

  /** The templates an operation is about to add, or why it fails. */
  datatype Made = Made(records: seq<Template>) | Failed(why: Failure)

  // ----- Making records

  function MaxId(records: seq<Template>): (m: nat)
    ensures forall i :: 0 <= i < |records| ==> records[i].id <= m
    ensures m > 0 ==> exists i :: 0 <= i < |records| && records[i].id == m
  {
    if records == [] then 0
    else
      var rest := MaxId(records[..|records| - 1]);
      if records[|records| - 1].id > rest then records[|records| - 1].id else rest
  }

  /** One record numbered from the given list, or a failure. */
  function NewRecord(records: seq<Template>, draft: Draft): (r: Made)
    ensures r.Made? <==> 1 <= |draft.name| <= 160 && draft.valid && MaxId(records) < 9007199254740991
    ensures r.Made? ==>
      && |r.records| == 1 && r.records[0].id == MaxId(records) + 1 && r.records[0].name == draft.name
      && r.records[0].checksum == draft.checksum && r.records[0].item == draft.item
  {
    if draft.name == "" || |draft.name| > MAX_NAME_LENGTH || !draft.valid then Failed(Invalid)
    else if MaxId(records) >= MAX_SAFE_INTEGER then Failed(Exhausted)
    else Made([Template(MaxId(records) + 1, draft.name, draft.checksum, draft.item)])
  }

  /** The records an import makes: drafts whose checksum is known are skipped. */
  function Imported(records: seq<Template>, drafts: seq<Draft>, known: set<string>): Made
    decreases |drafts|
  {
    if drafts == [] then Made([])
    else
      var front := Imported(records, drafts[..|drafts| - 1], known);
      var draft := drafts[|drafts| - 1];
      if front.Failed? then front
      else if draft.checksum in known + Checksums(front.records) then front
      else
        var made := NewRecord(records + front.records, draft);
        if made.Failed? then made else Made(front.records + made.records)
  }

  function Checksums(records: seq<Template>): (r: set<string>)
    ensures forall c :: c in r <==> exists i :: 0 <= i < |records| && records[i].checksum == c
  {
    set i | 0 <= i < |records| :: records[i].checksum
  }

  /** `more` continues the numbering of `records`: larger ids, strictly ascending. */
  ghost predicate Continues(records: seq<Template>, more: seq<Template>) {
    && (forall i, j :: 0 <= i < |records| && 0 <= j < |more| ==> records[i].id < more[j].id)
    && (forall i, j :: 0 <= i < j < |more| ==> more[i].id < more[j].id)
  }

  lemma NewRecordContinues(records: seq<Template>, more: seq<Template>, draft: Draft)
    requires Continues(records, more) && NewRecord(records + more, draft).Made?
    ensures Continues(records, more + NewRecord(records + more, draft).records)
  {
    var all := records + more;
    var bound := MaxId(all);
    forall i | 0 <= i < |records| ensures records[i].id <= bound {
      assert all[i] == records[i];
    }
    forall j | 0 <= j < |more| ensures more[j].id <= bound {
      assert all[|records| + j] == more[j];
    }
  }

  /** An import numbers its records onward, and no checksum comes in twice or was known. */
  lemma {:induction false} ImportMeaning(records: seq<Template>, drafts: seq<Draft>, known: set<string>)
    requires Imported(records, drafts, known).Made?
    ensures var added := Imported(records, drafts, known).records;
      && Continues(records, added)
      && (forall i :: 0 <= i < |added| ==> added[i].checksum !in known)
      && (forall i, j :: 0 <= i < j < |added| ==> added[i].checksum != added[j].checksum)
      && (forall k :: 0 <= k < |drafts| ==> drafts[k].checksum in known + Checksums(added))
  {
    if drafts != [] {
      var n := |drafts| - 1;
      ImportMeaning(records, drafts[..n], known);
      var front := Imported(records, drafts[..n], known).records;
      assert forall k :: 0 <= k < n ==> drafts[k] == drafts[..n][k];
      if drafts[n].checksum !in known + Checksums(front) {
        NewRecordContinues(records, front, drafts[n]);
        var all := Imported(records, drafts, known).records;
        assert all[|front|].checksum == drafts[n].checksum;
        assert forall i :: 0 <= i < |front| ==> all[i] == front[i];
      }
    }
  }

  /** The record was made from the draft. */
  predicate MadeFrom(record: Template, draft: Draft) {
    record.name == draft.name && record.checksum == draft.checksum && record.item == draft.item
  }

  /** Every imported record was made from one of the drafts. */
  lemma {:induction false} ImportedFromDrafts(records: seq<Template>, drafts: seq<Draft>, known: set<string>, i: nat)
    returns (k: nat)
    requires Imported(records, drafts, known).Made? && i < |Imported(records, drafts, known).records|
    ensures k < |drafts| && MadeFrom(Imported(records, drafts, known).records[i], drafts[k])
  {
    var n := |drafts| - 1;
    var front := Imported(records, drafts[..n], known);
    if i < |front.records| {
      k := ImportedFromDrafts(records, drafts[..n], known, i);
      assert drafts[..n][k] == drafts[k];
    } else {
      k := n;
    }
  }

  /** With valid drafts and ids left for all of them, an import goes through. */
  lemma {:induction false} ImportSucceeds(records: seq<Template>, drafts: seq<Draft>, known: set<string>)
    requires forall k :: 0 <= k < |drafts| ==> 1 <= |drafts[k].name| <= MAX_NAME_LENGTH && drafts[k].valid
    requires MaxId(records) + |drafts| <= MAX_SAFE_INTEGER
    ensures var r := Imported(records, drafts, known);
      r.Made? && MaxId(records + r.records) <= MaxId(records) + |drafts|
  {
    if drafts == [] {
      assert records + [] == records;
    } else {
      var n := |drafts| - 1;
      assert forall k :: 0 <= k < n ==> drafts[..n][k] == drafts[k];
      ImportSucceeds(records, drafts[..n], known);
      var front := Imported(records, drafts[..n], known).records;
      var made := NewRecord(records + front, drafts[n]);
      assert records + (front + made.records) == (records + front) + made.records;
    }
  }

  /** Importing drafts that are all known adds nothing, so a template pack imported twice adds its templates once. */
  lemma {:induction false} KnownDraftsAddNothing(records: seq<Template>, drafts: seq<Draft>, known: set<string>)
    requires forall k :: 0 <= k < |drafts| ==> drafts[k].checksum in known
    ensures Imported(records, drafts, known) == Made([])
  {
    if drafts != [] {
      KnownDraftsAddNothing(records, drafts[..|drafts| - 1], known);
    }
  }

  lemma ImportTwiceAddsOnce(records: seq<Template>, drafts: seq<Draft>)
    requires Imported(records, drafts, Checksums(records)).Made?
    ensures var after := records + Imported(records, drafts, Checksums(records)).records;
      Imported(after, drafts, Checksums(after)) == Made([])
  {
    var added := Imported(records, drafts, Checksums(records)).records;
    var after := records + added;
    ImportMeaning(records, drafts, Checksums(records));
    forall c | c in Checksums(records) + Checksums(added) ensures c in Checksums(after) {
      if i :| 0 <= i < |records| && records[i].checksum == c {
        assert after[i].checksum == c;
      } else {
        var j :| 0 <= j < |added| && added[j].checksum == c;
        assert after[|records| + j].checksum == c;
      }
    }
    KnownDraftsAddNothing(after, drafts, Checksums(after));
  }

  /** The import loop. */
  method ImportRecords(snapshot: seq<Template>, drafts: seq<Draft>) returns (r: Made)
    ensures r == Imported(snapshot, drafts, Checksums(snapshot))
  {
    var existing := Checksums(snapshot);
    var imported: seq<Template> := [];
    var records := snapshot;
    var i := 0;
    while i < |drafts|
      invariant 0 <= i <= |drafts|
      invariant Imported(snapshot, drafts[..i], Checksums(snapshot)) == Made(imported)
      invariant records == snapshot + imported
      invariant existing == Checksums(snapshot) + Checksums(imported)
    {
      assert drafts[..i + 1][..i] == drafts[..i];
      if drafts[i].checksum !in existing {
        var made := NewRecord(records, drafts[i]);
        if made.Failed? {
          ImportStops(snapshot, drafts, i + 1, Checksums(snapshot));
          return made;
        }
        ChecksumsAppend(imported, made.records[0]);
        assert made.records == [made.records[0]];
        imported := imported + made.records;
        records := records + made.records;
        existing := existing + {made.records[0].checksum};
      }
      i := i + 1;
    }
    assert drafts[..i] == drafts;
    return Made(imported);
  }

  lemma ChecksumsAppend(records: seq<Template>, record: Template)
    ensures Checksums(records + [record]) == Checksums(records) + {record.checksum}
  {
    var all := records + [record];
    assert all[|records|] == record;
    forall i | 0 <= i < |records| ensures records[i].checksum in Checksums(all) {
      assert all[i] == records[i];
    }
  }

  lemma {:induction false} ImportStops(records: seq<Template>, drafts: seq<Draft>, n: nat, known: set<string>)
    requires n <= |drafts| && Imported(records, drafts[..n], known).Failed?
    ensures Imported(records, drafts, known) == Imported(records, drafts[..n], known)
  {
    if n == |drafts| {
      assert drafts[..n] == drafts;
    } else {
      assert drafts[..|drafts| - 1][..n] == drafts[..n];
      ImportStops(records, drafts[..|drafts| - 1], n, known);
    }
  }

  // ----- The queue

  datatype Operation =
    | Create(draft: Draft)
    | Duplicate(id: nat, valid: bool)
    | Import(goodPack: bool, drafts: seq<Draft>)

  /** How far a queued call is; `Holding` is an operation with its records made from an earlier reading of the table. */
  datatype Phase = Waiting | Previewing | Holding(made: Made) | Fulfilled | Rejected(reason: Failure)

  /** A call with the promise it waits on, its own promise and the tail it leaves behind. */
  datatype Call = Call(operation: Operation, waits: nat, result: nat, next: nat, phase: Phase)

  /** The table, the promises (settled or not), the current tail and all calls so far. */
  datatype State = State(templates: seq<Template>, promises: seq<bool>, tail: nat, calls: seq<Call>)

  datatype Event =
    | Enqueue(operation: Operation)
    | Start(call: nat)
    | Resume(call: nat)
    | PassOn(call: nat)
    | Delete(id: nat)

  function Initial(templates: seq<Template>): State {
    State(templates, [true], 0, [])
  }

  predicate UniqueIds(templates: seq<Template>) {
    forall i, j :: 0 <= i < j < |templates| ==> templates[i].id != templates[j].id
  }

  function Find(templates: seq<Template>, id: nat): (i: nat)
    ensures i <= |templates|
    ensures i < |templates| ==> templates[i].id == id
    ensures forall j :: 0 <= j < i ==> templates[j].id != id
  {
    if templates == [] || templates[0].id == id then 0 else 1 + Find(templates[1..], id)
  }

  /** What an operation does before its first `await`. */
  function Begin(operation: Operation, templates: seq<Template>): Phase {
    match operation
    case Create(draft) => Holding(NewRecord(templates, draft))
    case Duplicate(id, valid) =>
      var i := Find(templates, id);
      if i == |templates| then Rejected(NotFound)
      else Holding(NewRecord(templates,
        Draft(templates[i].name + " copy", templates[i].checksum, templates[i].item, valid)))
    case Import(_, _) => Previewing
  }

  predicate Settled(phase: Phase) {
    phase.Fulfilled? || phase.Rejected?
  }

  function WithPhase(s: State, i: nat, phase: Phase): State
    requires i < |s.calls| && s.calls[i].result < |s.promises|
  {
    s.(calls := s.calls[i := s.calls[i].(phase := phase)],
       promises := if Settled(phase) then s.promises[s.calls[i].result := true] else s.promises)
  }

  /** A held operation runs on: it adds its records to the table as it is now, unless ids would repeat. */
  function Proceed(s: State, i: nat): State
    requires i < |s.calls| && s.calls[i].result < |s.promises|
  {
    match s.calls[i].phase
    case Previewing =>
      if !s.calls[i].operation.Import? || !s.calls[i].operation.goodPack then WithPhase(s, i, Rejected(BadPack))
      else WithPhase(s, i, Holding(Imported(s.templates, s.calls[i].operation.drafts, Checksums(s.templates))))
    case Holding(Made(records)) =>
      if UniqueIds(s.templates + records) then WithPhase(s.(templates := s.templates + records), i, Fulfilled)
      else WithPhase(s, i, Rejected(DuplicateId))
    case Holding(Failed(why)) => WithPhase(s, i, Rejected(why))
    case _ => s
  }

  predicate Enabled(s: State, e: Event) {
    match e
    case Enqueue(_) => true
    case Start(i) =>
      && i < |s.calls| && s.calls[i].phase.Waiting?
      && s.calls[i].waits < |s.promises| && s.promises[s.calls[i].waits] && s.calls[i].result < |s.promises|
    case Resume(i) =>
      && i < |s.calls| && (s.calls[i].phase.Previewing? || s.calls[i].phase.Holding?)
      && s.calls[i].result < |s.promises|
    case PassOn(i) =>
      && i < |s.calls| && s.calls[i].result < |s.promises| && s.calls[i].next < |s.promises|
      && s.promises[s.calls[i].result] && !s.promises[s.calls[i].next]
    case Delete(id) => Find(s.templates, id) < |s.templates|
  }

  /** One event; an event that is not enabled changes nothing. */
  function Step(s: State, e: Event): State {
    if !Enabled(s, e) then s
    else
      match e
      case Enqueue(operation) =>
        var n := |s.promises|;
        s.(promises := s.promises + [false, false], tail := n + 1,
           calls := s.calls + [Call(operation, s.tail, n, n + 1, Waiting)])
      case Start(i) => WithPhase(s, i, Begin(s.calls[i].operation, s.templates))
      case Resume(i) => Proceed(s, i)
      case PassOn(i) => s.(promises := s.promises[s.calls[i].next := true])
      case Delete(id) => s.(templates := Filter(s.templates, (t: Template) => t.id != id))
  }

  function Run(s: State, events: seq<Event>): State {
    if events == [] then s else Step(Run(s, events[..|events| - 1]), events[|events| - 1])
  }

  // ----- What every run keeps

  /** The promises form one chain: each call waits on the tail that the call before it left. */
  ghost predicate Chained(s: State) {
    && |s.promises| == 2 * |s.calls| + 1 && s.tail == 2 * |s.calls| && s.promises[0]
    && forall i :: 0 <= i < |s.calls| ==>
         s.calls[i].waits == 2 * i && s.calls[i].result == 2 * i + 1 && s.calls[i].next == 2 * i + 2
  }

  ghost predicate CallInv(s: State, i: nat)
    requires i < |s.calls| && |s.promises| == 2 * |s.calls| + 1
  {
    && (s.promises[2 * i + 1] <==> Settled(s.calls[i].phase))
    && (s.promises[2 * i + 2] ==> s.promises[2 * i + 1])
    && (!s.calls[i].phase.Waiting? ==> s.promises[2 * i])
    && (s.calls[i].phase.Previewing? ==> s.calls[i].operation.Import?)
  }

  /** Records held by a call still continue the numbering of the table, and no commit was refused for a repeated id. */
  ghost predicate HoldInv(templates: seq<Template>, phase: Phase) {
    && (phase.Holding? && phase.made.Made? ==> Continues(templates, phase.made.records))
    && phase != Rejected(DuplicateId) && phase != Holding(Failed(DuplicateId))
  }

  ghost predicate Inv(s: State) {
    && Chained(s) && UniqueIds(s.templates)
    && forall i :: 0 <= i < |s.calls| ==> CallInv(s, i) && HoldInv(s.templates, s.calls[i].phase)
  }

  /** Once a call has started, all earlier ones are settled. */
  lemma {:induction false} StartedAfterEarlier(s: State, i: nat, j: nat)
    requires Inv(s) && i < j < |s.calls| && !s.calls[j].phase.Waiting?
    ensures Settled(s.calls[i].phase)
    decreases j
  {
    assert CallInv(s, j) && CallInv(s, j - 1);
    if i < j - 1 {
      StartedAfterEarlier(s, i, j - 1);
    }
  }

  lemma WithPhaseKeepsCalls(s: State, i: nat, phase: Phase)
    requires Inv(s) && i < |s.calls| && !Settled(s.calls[i].phase) && s.promises[2 * i]
    requires !phase.Waiting? && (phase.Previewing? ==> s.calls[i].operation.Import?) && HoldInv(s.templates, phase)
    ensures Inv(WithPhase(s, i, phase))
  {
    var t := WithPhase(s, i, phase);
    forall k | 0 <= k < |t.calls| ensures CallInv(t, k) && HoldInv(t.templates, t.calls[k].phase) {
      assert CallInv(s, k) && HoldInv(s.templates, s.calls[k].phase);
    }
  }

  lemma {:induction false} ImportFails(records: seq<Template>, drafts: seq<Draft>, known: set<string>)
    ensures Imported(records, drafts, known) != Failed(DuplicateId)
  {
    if drafts != [] {
      ImportFails(records, drafts[..|drafts| - 1], known);
    }
  }

  lemma BeginHolds(operation: Operation, templates: seq<Template>)
    ensures HoldInv(templates, Begin(operation, templates))
  {
    var phase := Begin(operation, templates);
    if phase.Holding? && phase.made.Made? {
      assert Continues(templates, phase.made.records) by {
        forall i | 0 <= i < |templates| ensures templates[i].id < phase.made.records[0].id { }
      }
    }
  }

  lemma ContinuingIsUnique(templates: seq<Template>, records: seq<Template>)
    requires UniqueIds(templates) && Continues(templates, records)
    ensures UniqueIds(templates + records)
  {
  }

  /** The call that commits is the only one that holds records. */
  lemma CommitKeepsInv(s: State, i: nat, records: seq<Template>)
    requires Inv(s) && i < |s.calls| && s.calls[i].phase == Holding(Made(records))
    ensures UniqueIds(s.templates + records)
    ensures Inv(WithPhase(s.(templates := s.templates + records), i, Fulfilled))
  {
    assert CallInv(s, i) && HoldInv(s.templates, s.calls[i].phase);
    ContinuingIsUnique(s.templates, records);
    var t := WithPhase(s.(templates := s.templates + records), i, Fulfilled);
    forall k | 0 <= k < |t.calls| ensures CallInv(t, k) && HoldInv(t.templates, t.calls[k].phase) {
      assert CallInv(s, k) && HoldInv(s.templates, s.calls[k].phase);
      if k < i {
        StartedAfterEarlier(s, k, i);
      } else if i < k && !s.calls[k].phase.Waiting? {
        StartedAfterEarlier(s, i, k);
      }
    }
  }

  lemma ResumeKeepsInv(s: State, i: nat)
    requires Inv(s) && Enabled(s, Resume(i))
    ensures Inv(Proceed(s, i))
  {
    assert CallInv(s, i) && HoldInv(s.templates, s.calls[i].phase);
    match s.calls[i].phase
    case Previewing =>
      if !s.calls[i].operation.goodPack {
        WithPhaseKeepsCalls(s, i, Rejected(BadPack));
      } else {
        var made := Imported(s.templates, s.calls[i].operation.drafts, Checksums(s.templates));
        ImportFails(s.templates, s.calls[i].operation.drafts, Checksums(s.templates));
        if made.Made? {
          ImportMeaning(s.templates, s.calls[i].operation.drafts, Checksums(s.templates));
        }
        WithPhaseKeepsCalls(s, i, Holding(made));
      }
    case Holding(Made(records)) => CommitKeepsInv(s, i, records);
    case Holding(Failed(why)) => WithPhaseKeepsCalls(s, i, Rejected(why));
    case _ =>
  }

  lemma {:induction false} DeleteKeepsUnique(templates: seq<Template>, keep: Template -> bool)
    requires UniqueIds(templates)
    ensures UniqueIds(Filter(templates, keep))
  {
    if templates != [] {
      DeleteKeepsUnique(templates[1..], keep);
      var rest := Filter(templates[1..], keep);
      forall i | 0 <= i < |rest| ensures rest[i].id != templates[0].id {
        assert rest[i] in rest;
        var j :| 0 <= j < |templates[1..]| && templates[1..][j] == rest[i];
        assert templates[j + 1] == rest[i];
      }
    }
  }

  /** A delete beside a running operation leaves its held ids free. */
  lemma DeleteKeepsInv(s: State, keep: Template -> bool)
    requires Inv(s)
    ensures Inv(s.(templates := Filter(s.templates, keep)))
  {
    var t := s.(templates := Filter(s.templates, keep));
    DeleteKeepsUnique(s.templates, keep);
    forall k | 0 <= k < |t.calls| ensures CallInv(t, k) && HoldInv(t.templates, t.calls[k].phase) {
      assert CallInv(s, k) && HoldInv(s.templates, s.calls[k].phase);
      forall i | 0 <= i < |t.templates| ensures t.templates[i] in s.templates {
        assert t.templates[i] in t.templates;
      }
    }
  }

  lemma EnqueueKeepsInv(s: State, operation: Operation)
    requires Inv(s)
    ensures Inv(Step(s, Enqueue(operation)))
  {
    var t := Step(s, Enqueue(operation));
    forall k | 0 <= k < |t.calls| ensures CallInv(t, k) && HoldInv(t.templates, t.calls[k].phase) {
      if k < |s.calls| {
        assert CallInv(s, k) && HoldInv(s.templates, s.calls[k].phase);
      }
    }
  }

  lemma PassOnKeepsInv(s: State, i: nat)
    requires Inv(s) && Enabled(s, PassOn(i))
    ensures Inv(Step(s, PassOn(i)))
  {
    var t := Step(s, PassOn(i));
    forall k | 0 <= k < |t.calls| ensures CallInv(t, k) && HoldInv(t.templates, t.calls[k].phase) {
      assert CallInv(s, k) && HoldInv(s.templates, s.calls[k].phase);
    }
  }

  lemma StepKeepsInv(s: State, e: Event)
    requires Inv(s)
    ensures Inv(Step(s, e))
  {
    if Enabled(s, e) {
      match e
      case Enqueue(operation) => EnqueueKeepsInv(s, operation);
      case Start(i) =>
        assert CallInv(s, i);
        BeginHolds(s.calls[i].operation, s.templates);
        WithPhaseKeepsCalls(s, i, Begin(s.calls[i].operation, s.templates));
      case Resume(i) => ResumeKeepsInv(s, i);
      case PassOn(i) => PassOnKeepsInv(s, i);
      case Delete(id) => DeleteKeepsInv(s, (t: Template) => t.id != id);
    }
  }

  lemma {:induction false} RunKeepsInv(templates: seq<Template>, events: seq<Event>)
    requires UniqueIds(templates)
    ensures Inv(Run(Initial(templates), events))
  {
    if events != [] {
      RunKeepsInv(templates, events[..|events| - 1]);
      StepKeepsInv(Run(Initial(templates), events[..|events| - 1]), events[|events| - 1]);
    }
  }

  /**
   In every interleaving: template ids stay pairwise distinct, a queued mutation has started
   only if all earlier ones are settled, and none is ever refused because of a repeated id.
   */
  lemma EveryRunIsSerial(templates: seq<Template>, events: seq<Event>)
    requires UniqueIds(templates)
    ensures var s := Run(Initial(templates), events);
      && UniqueIds(s.templates)
      && (forall i, j :: 0 <= i < j < |s.calls| && !s.calls[j].phase.Waiting? ==> Settled(s.calls[i].phase))
      && (forall i :: 0 <= i < |s.calls| ==> s.calls[i].phase != Rejected(DuplicateId))
  {
    RunKeepsInv(templates, events);
    var s := Run(Initial(templates), events);
    forall i, j | 0 <= i < j < |s.calls| && !s.calls[j].phase.Waiting? ensures Settled(s.calls[i].phase) {
      StartedAfterEarlier(s, i, j);
    }
    forall i | 0 <= i < |s.calls| ensures s.calls[i].phase != Rejected(DuplicateId) {
      assert HoldInv(s.templates, s.calls[i].phase);
    }
  }

  // ----- What each operation does when nothing comes between

  /** The call can start: those in front are settled and have passed on. */
  predicate Ready(s: State, i: nat) {
    Enabled(s, Start(i))
  }

  lemma StartAndResume(s: State, i: nat, phase: Phase)
    requires Inv(s) && Ready(s, i) && Begin(s.calls[i].operation, s.templates) == phase
    ensures var t := Step(s, Start(i));
      && t.templates == s.templates && |t.calls| == |s.calls| && t.calls[i] == s.calls[i].(phase := phase)
      && (phase.Previewing? || phase.Holding? ==> Enabled(t, Resume(i)))
  {
    assert CallInv(s, i);
  }

  /** A held operation adds its records to the table as it is when it resumes, or is rejected for its own reason. */
  lemma ResumeAdds(s: State, i: nat)
    requires Inv(s) && i < |s.calls| && s.calls[i].phase.Holding?
    ensures var t := Step(s, Resume(i));
      match s.calls[i].phase.made
      case Made(records) =>
        t.templates == s.templates + records && i < |t.calls| && t.calls[i].phase == Fulfilled
      case Failed(why) => t.templates == s.templates && i < |t.calls| && t.calls[i].phase == Rejected(why)
  {
    assert CallInv(s, i) && HoldInv(s.templates, s.calls[i].phase);
    if s.calls[i].phase.made.Made? {
      CommitKeepsInv(s, i, s.calls[i].phase.made.records);
    }
  }

  /** Creating: one record from the draft, under the next id, at the end of the table. */
  lemma CreateAdds(s: State, i: nat)
    requires Inv(s) && Ready(s, i) && s.calls[i].operation.Create?
    requires NewRecord(s.templates, s.calls[i].operation.draft).Made?
    ensures var t := Step(Step(s, Start(i)), Resume(i));
      var draft := s.calls[i].operation.draft;
      && t.templates == s.templates + [Template(MaxId(s.templates) + 1, draft.name, draft.checksum, draft.item)]
      && i < |t.calls| && t.calls[i].phase == Fulfilled
  {
    StartAndResume(s, i, Begin(s.calls[i].operation, s.templates));
    StepKeepsInv(s, Start(i));
    ResumeAdds(Step(s, Start(i)), i);
    var record := NewRecord(s.templates, s.calls[i].operation.draft).records[0];
    assert NewRecord(s.templates, s.calls[i].operation.draft).records == [record];
  }

  /** Duplicating: a copy of the source, which stays, under the next id. */
  lemma DuplicateAdds(s: State, i: nat, k: nat)
    requires Inv(s) && Ready(s, i) && s.calls[i].operation.Duplicate? && s.calls[i].operation.valid
    requires k < |s.templates| && s.templates[k].id == s.calls[i].operation.id
    requires |s.templates[k].name| + 5 <= MAX_NAME_LENGTH && MaxId(s.templates) < MAX_SAFE_INTEGER
    ensures var t := Step(Step(s, Start(i)), Resume(i));
      var source := s.templates[k];
      var copy := Template(MaxId(s.templates) + 1, source.name + " copy", source.checksum, source.item);
      && t.templates == s.templates + [copy]
      && i < |t.calls| && t.calls[i].phase == Fulfilled
  {
    var source := s.templates[k];
    var draft := Draft(source.name + " copy", source.checksum, source.item, true);
    assert Find(s.templates, source.id) == k;
    StartAndResume(s, i, Begin(s.calls[i].operation, s.templates));
    StepKeepsInv(s, Start(i));
    ResumeAdds(Step(s, Start(i)), i);
    var record := NewRecord(s.templates, draft).records[0];
    assert NewRecord(s.templates, draft).records == [record];
  }

  /** Duplicating a template that is not there is rejected at once. */
  lemma DuplicateMissing(s: State, i: nat)
    requires Inv(s) && Ready(s, i) && s.calls[i].operation.Duplicate?
    requires forall k :: 0 <= k < |s.templates| ==> s.templates[k].id != s.calls[i].operation.id
    ensures Step(s, Start(i)).templates == s.templates && Step(s, Start(i)).calls[i].phase == Rejected(NotFound)
  {
    StartAndResume(s, i, Begin(s.calls[i].operation, s.templates));
  }

  /** Importing: a good pack holds its new records after the preview, a bad one is rejected. */
  lemma ImportPreviews(s: State, i: nat)
    requires Inv(s) && i < |s.calls| && s.calls[i].phase.Previewing? && s.calls[i].operation.Import?
    ensures var t := Step(s, Resume(i));
      && t.templates == s.templates && i < |t.calls|
      && (!s.calls[i].operation.goodPack ==> t.calls[i].phase == Rejected(BadPack))
      && (s.calls[i].operation.goodPack ==>
            t.calls[i].phase == Holding(Imported(s.templates, s.calls[i].operation.drafts, Checksums(s.templates))))
  {
    assert CallInv(s, i);
  }

  /** Deleting takes out the one template with the id, wherever the queue stands. */
  lemma DeleteRemoves(s: State, id: nat)
    ensures var t := Step(s, Delete(id));
      && (forall r :: r in t.templates <==> r in s.templates && r.id != id)
      && t.calls == s.calls && t.promises == s.promises && t.tail == s.tail
  {
    if Find(s.templates, id) == |s.templates| {
      assert forall r :: r in s.templates ==> r.id != id;
    }
  }

  // ----- The queue never gets stuck, whether earlier calls fulfil or reject

  function Weight(phase: Phase): nat {
    match phase
    case Waiting => 3
    case Previewing => 2
    case Holding(_) => 1
    case _ => 0
  }

  /** Steps left until every call is settled and has passed the tail on. */
  function Work(s: State, n: nat): nat
    requires n <= |s.calls| && |s.promises| == 2 * |s.calls| + 1
  {
    if n == 0 then 0
    else Work(s, n - 1) + Weight(s.calls[n - 1].phase) + if s.promises[2 * n] then 0 else 1
  }

  /** The first call that has not passed on can always take a step. */
  lemma NextStep(s: State, i: nat) returns (e: Event)
    requires Inv(s) && i < |s.calls| && s.promises[2 * i] && !s.promises[2 * i + 2]
    ensures Enabled(s, e) && (e == Start(i) || e == Resume(i) || e == PassOn(i))
  {
    assert CallInv(s, i);
    e := if s.calls[i].phase.Waiting? then Start(i) else if Settled(s.calls[i].phase) then PassOn(i) else Resume(i);
  }

  lemma {:induction false} WorkSame(s: State, t: State, n: nat)
    requires Chained(s) && Chained(t) && |s.calls| == |t.calls| && n <= |s.calls|
    requires forall k :: 0 <= k < n ==>
      s.calls[k].phase == t.calls[k].phase && s.promises[2 * k + 2] == t.promises[2 * k + 2]
    ensures Work(s, n) == Work(t, n)
  {
    if n > 0 {
      WorkSame(s, t, n - 1);
    }
  }

  /** Work that changes at one call only changes by that much. */
  lemma {:induction false} WorkDrops(s: State, t: State, i: nat, n: nat)
    requires Chained(s) && Chained(t) && |s.calls| == |t.calls| && i < n <= |s.calls|
    requires forall k :: 0 <= k < n && k != i ==>
      s.calls[k].phase == t.calls[k].phase && s.promises[2 * k + 2] == t.promises[2 * k + 2]
    requires Weight(t.calls[i].phase) <= Weight(s.calls[i].phase) && (s.promises[2 * i + 2] ==> t.promises[2 * i + 2])
    requires Weight(t.calls[i].phase) < Weight(s.calls[i].phase) || (!s.promises[2 * i + 2] && t.promises[2 * i + 2])
    ensures Work(t, n) < Work(s, n)
  {
    if n == i + 1 {
      WorkSame(s, t, i);
    } else {
      WorkDrops(s, t, i, n - 1);
    }
  }

  lemma StepWorks(s: State, i: nat, e: Event)
    requires Inv(s) && i < |s.calls| && Enabled(s, e) && (e == Start(i) || e == Resume(i) || e == PassOn(i))
    ensures var t := Step(s, e); Inv(t) && |t.calls| == |s.calls| && Work(t, |t.calls|) < Work(s, |s.calls|)
  {
    StepKeepsInv(s, e);
    assert CallInv(s, i) && HoldInv(s.templates, s.calls[i].phase);
    var t := Step(s, e);
    assert forall k :: 0 <= k < |s.calls| && k != i ==> t.calls[k] == s.calls[k];
    assert forall k :: 0 <= k < |s.calls| && k != i ==> s.promises[2 * k + 2] == t.promises[2 * k + 2];
    WorkDrops(s, t, i, |s.calls|);
  }

  lemma {:induction false} FirstOpen(s: State, n: nat) returns (i: nat)
    requires Inv(s) && n <= |s.calls|
    ensures i <= n && s.promises[2 * i]
    ensures forall k :: 0 <= k < i ==> s.promises[2 * k + 2]
    ensures i < n ==> !s.promises[2 * i + 2]
  {
    if n == 0 {
      i := 0;
    } else {
      i := FirstOpen(s, n - 1);
      if i == n - 1 && s.promises[2 * i + 2] {
        i := n;
      }
    }
  }

  /** From every reachable state the queue can run until all calls so far are settled. */
  lemma {:induction false} QueueDrains(s: State) returns (events: seq<Event>)
    requires Inv(s)
    ensures forall k :: 0 <= k < |events| ==> events[k].Start? || events[k].Resume? || events[k].PassOn?
    ensures var t := Run(s, events);
      |t.calls| == |s.calls| && forall i :: 0 <= i < |t.calls| ==> Settled(t.calls[i].phase)
    decreases Work(s, |s.calls|)
  {
    var i := FirstOpen(s, |s.calls|);
    if i == |s.calls| {
      events := [];
      forall k | 0 <= k < |s.calls| ensures Settled(s.calls[k].phase) {
        assert CallInv(s, k);
      }
    } else {
      var e := NextStep(s, i);
      StepWorks(s, i, e);
      var rest := QueueDrains(Step(s, e));
      events := [e] + rest;
      RunFrom(s, e, rest);
    }
  }

  lemma {:induction false} RunFrom(s: State, e: Event, rest: seq<Event>)
    ensures Run(s, [e] + rest) == Run(Step(s, e), rest)
  {
    var all := [e] + rest;
    if rest == [] {
      assert all[..0] == [];
    } else {
      assert all[..|all| - 1] == [e] + rest[..|rest| - 1];
      RunFrom(s, e, rest[..|rest| - 1]);
    }
  }

  /** Without the queue it would fail: two records made from one reading share an id, and the second is refused. */
  lemma SameReadingCollides(templates: seq<Template>, a: Draft, b: Draft)
    requires NewRecord(templates, a).Made? && NewRecord(templates, b).Made?
    ensures !UniqueIds(templates + NewRecord(templates, a).records + NewRecord(templates, b).records)
  {
    var all := templates + NewRecord(templates, a).records + NewRecord(templates, b).records;
    assert all[|templates|].id == all[|templates| + 1].id;
  }

  // ----- The store as it runs

  class TemplateStore {
    var templates: seq<Template>
    var promises: seq<bool>
    var tail: nat
    var calls: seq<Call>

    function Image(): State
      reads this
    {
      State(templates, promises, tail, calls)
    }

    constructor (templates: seq<Template>)
      ensures Image() == Initial(templates)
    {
      this.templates, promises, tail, calls := templates, [true], 0, [];
    }

    /** Chains an operation to the tail and becomes the tail. */
    method SerializeRegistryMutation(operation: Operation)
      modifies this
      ensures Image() == Step(old(Image()), Enqueue(operation))
    {
      var result := |promises|;
      promises := promises + [false];
      calls := calls + [Call(operation, tail, result, result + 1, Waiting)];
      tail := |promises|;
      promises := promises + [false];
      assert promises == old(promises) + [false, false];
    }

    method Settle(call: nat, phase: Phase)
      requires call < |calls| && calls[call].result < |promises|
      modifies this`calls, this`promises
      ensures Image() == WithPhase(old(Image()), call, phase)
    {
      if phase.Fulfilled? || phase.Rejected? {
        promises := promises[calls[call].result := true];
      }
      calls := calls[call := calls[call].(phase := phase)];
    }

    /** The transaction at the end of an operation; the shape check refuses repeated ids. */
    method AddRecords(records: seq<Template>) returns (ok: bool)
      modifies this`templates
      ensures ok == UniqueIds(old(templates) + records)
      ensures templates == if ok then old(templates) + records else old(templates)
    {
      var draft := templates + records;
      ok := true;
      var i := 0;
      while i < |draft| && ok
        invariant 0 <= i <= |draft|
        invariant ok ==> forall j, k :: 0 <= j < k < i ==> draft[j].id != draft[k].id
        invariant !ok ==> !UniqueIds(draft)
      {
        var ids := set j | 0 <= j < i :: draft[j].id;
        ok := draft[i].id !in ids;
        i := i + 1;
      }
      if ok {
        templates := draft;
      }
    }

    /** Continues an operation after an `await`. */
    method ResumeOperation(call: nat)
      requires Enabled(Image(), Resume(call))
      modifies this
      ensures Image() == Step(old(Image()), Resume(call))
    {
      match calls[call].phase
      case Previewing =>
        if !calls[call].operation.Import? || !calls[call].operation.goodPack {
          Settle(call, Rejected(BadPack));
        } else {
          var made := ImportRecords(templates, calls[call].operation.drafts);
          Settle(call, Holding(made));
        }
      case Holding(Made(records)) =>
        var ok := AddRecords(records);
        Settle(call, if ok then Fulfilled else Rejected(DuplicateId));
      case Holding(Failed(why)) =>
        Settle(call, Rejected(why));
    }

    /** Deletes at once, beside whatever the queue is doing. */
    method DeletePrivateTemplate(id: nat) returns (found: bool)
      modifies this`templates
      ensures Image() == Step(old(Image()), Delete(id))
      ensures found <==> exists i :: 0 <= i < |old(templates)| && old(templates)[i].id == id
    {
      found := Find(templates, id) < |templates|;
      if found {
        templates := Filter(templates, (t: Template) => t.id != id);
      }
    }
  }
}
