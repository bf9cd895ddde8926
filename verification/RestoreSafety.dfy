/**
 What every run of restore activation and recovery keeps, when the surroundings show
 neither of the two faults of `Env`: the inductive invariant and its proof, event by event.
 */
module RestoreSafety {
  import opened Prelude
  import opened RestoreDisk
  import opened RestoreMachine

  /** File `n` is database `id`, and SQLite reads from it exactly what was committed to that database. */
  ghost predicate Holds(s: State, n: Name, id: nat) {
    && n in s.disk.db && s.disk.db[n].Db? && s.disk.db[n].id == id
    && id in s.truth && Reads(s.disk, n) == Some(s.truth[id])
  }

  /** The old database waits under the rollback name. */
  ghost predicate Parked(s: State) {
    Active !in s.disk.db && Active !in s.disk.wal && Holds(s, Rollback, s.serving)
  }

  ghost predicate Staged(s: State) {
    Holds(s, Staging(s.attempt), s.attempt) && Staging(s.attempt) !in s.disk.wal
  }

  /** No database stands beside a log of another database. */
  ghost predicate NoForeignLog(d: Disk) {
    forall n :: n in d.wal && n in d.db ==> d.db[n].Db? && d.db[n].id == d.wal[n].id
  }

  /** What the directory guarantees to the next start, by journal stage. */
  ghost predicate Recoverable(s: State) {
    match s.disk.journal
    case None => Holds(s, Active, s.serving) || Holds(s, Active, s.attempt)
    case Some(Journal(Prepared, _)) => Holds(s, Active, s.serving) || Parked(s)
    case Some(Journal(ActiveMoved, k)) =>
      && k == s.attempt
      && (|| Holds(s, Active, s.attempt)
          || Holds(s, Active, s.serving)
          || (Parked(s) && (Staging(k) in s.disk.db ==> Staged(s))))
    case Some(Journal(StagingActive, _)) => Holds(s, Active, s.attempt)
  }

  ghost predicate Serving(s: State, id: nat) {
    && s.handle.Some? && s.handle.value.id == id && Holds(s, Active, id)
    && (s.handle.value.wal <==> Active in s.disk.wal)
  }

  ghost predicate Stale(s: State) {
    s.disk.journal.Some? ==> s.disk.journal.value.stage == Prepared
  }

  ghost predicate AtRest(s: State) {
    && (Serving(s, s.serving) || (Serving(s, s.attempt) && s.disk.journal.None?))
    && Stale(s)
  }

  ghost predicate Folded(d: Disk, n: Name) {
    n in d.wal ==> d.wal[n].pending.None?
  }

  /** `src` is the file recovery decided to make active. */
  ghost predicate Picked(s: State, j: Journal, src: Name) {
    && src in s.disk.db
    && (src != Active ==> Active !in s.disk.db)
    && (src == Active || src == Rollback || (src == Staging(j.staging) && j.stage == ActiveMoved))
    && (src == Rollback && j.stage == ActiveMoved ==> Staging(j.staging) !in s.disk.db)
  }

  ghost predicate JournalIsOr(s: State, j: Journal) {
    if s.disk.journal.None? then true else s.disk.journal == Some(j) && UnlinkJournal in s.todo
  }

  ghost predicate RecoveryInv(s: State, at: RecoveryStep) {
    && s.handle.None? && Recoverable(s)
    && match at
       case ReadJournal => s.todo == {}
       case Inspect(j) => s.todo == {} && s.disk.journal == Some(j)
       case TryActive(j, a, st, r) =>
         s.todo == {} && s.disk.journal == Some(j)
         && a == (Active in s.disk.db) && st == (Staging(j.staging) in s.disk.db) && r == (Rollback in s.disk.db)
       case TryStaging(j, st, r) =>
         s.todo == {} && s.disk.journal == Some(j) && Active !in s.disk.db
         && st == (Staging(j.staging) in s.disk.db) && r == (Rollback in s.disk.db)
       case TryRollback(j, r) =>
         s.todo == {} && s.disk.journal == Some(j) && Picked(s, j, Rollback) && r
       case Unwal(j, src) =>
         s.todo == {} && s.disk.journal == Some(j) && Picked(s, j, src) && Folded(s.disk, src)
       case KeepActive(j) =>
         s.todo <= Leftovers(j) && JournalIsOr(s, j) && Active in s.disk.db && Active !in s.disk.wal
         && Staging(j.staging) !in s.disk.wal
       case DropActive(j, src) =>
         s.todo == {} && s.disk.journal == Some(j) && src != Active && Picked(s, j, src) && src !in s.disk.wal
       case Promote(j, src) =>
         s.todo <= Sidecars(Active) + Sidecars(src)
         && s.disk.journal == Some(j) && src != Active && Picked(s, j, src) && src !in s.disk.wal
       case SweepRest(j, src) =>
         s.todo <= OtherLeftovers(j, src) && JournalIsOr(s, j) && Active in s.disk.db && Active !in s.disk.wal
         && (src == Rollback || src == Staging(j.staging)) && Staging(j.staging) !in s.disk.wal
       case OpenActive => s.todo == {} && s.disk.journal.None?
  }

  /** An attempt has begun but its journal is not yet written. */
  ghost predicate Early(s: State) {
    && s.todo == {} && s.serving < s.attempt && Serving(s, s.serving) && Stale(s)
    && (s.disk.journal.Some? ==> s.disk.journal.value.staging < s.attempt)
  }

  ghost predicate JournalIs(s: State, stage: Stage) {
    s.disk.journal == Some(Journal(stage, s.attempt))
  }

  ghost predicate PcInv(s: State) {
    match s.pc
    case Down => s.handle.None? && s.todo == {} && Recoverable(s)
    case Broken => s.handle.None? && s.todo == {} && Recoverable(s)
    case Idle => s.todo == {} && AtRest(s)
    case Cleanup => s.todo == {} && if s.handle.Some? then AtRest(s) else Recoverable(s)
    case ClearRollback => Early(s) && Staging(s.attempt) !in s.disk.db && Staging(s.attempt) !in s.disk.wal
    case Copy => Early(s) && Staging(s.attempt) !in s.disk.db && Staging(s.attempt) !in s.disk.wal
    case Build => Early(s) && Staging(s.attempt) !in s.disk.wal
    case Seal => Early(s) && Holds(s, Staging(s.attempt), s.attempt)
    case SealLeave => Early(s) && Holds(s, Staging(s.attempt), s.attempt) && Folded(s.disk, Staging(s.attempt))
    case JournalPrepared => Early(s) && Staged(s)
    case Fold =>
      s.todo == {} && s.serving < s.attempt && Serving(s, s.serving) && Staged(s) && JournalIs(s, Prepared)
    case LeaveWal =>
      s.todo == {} && s.serving < s.attempt && Serving(s, s.serving) && Staged(s) && JournalIs(s, Prepared)
      && Folded(s.disk, Active)
    case Close =>
      s.todo == {} && s.serving < s.attempt && Serving(s, s.serving) && Staged(s) && JournalIs(s, Prepared)
      && Active !in s.disk.wal
    case Sweep =>
      && s.handle.None? && s.serving < s.attempt && Holds(s, Active, s.serving) && Active !in s.disk.wal
      && Staged(s) && JournalIs(s, Prepared)
      && s.todo <= Sidecars(Active) + Sidecars(Staging(s.attempt)) + Sidecars(Rollback)
    case JournalMoved => s.handle.None? && s.todo == {} && Parked(s) && Staged(s) && JournalIs(s, Prepared)
    case MoveStaging => s.handle.None? && s.todo == {} && Parked(s) && Staged(s) && JournalIs(s, ActiveMoved)
    case JournalActive =>
      && s.handle.None? && s.todo == {} && Holds(s, Active, s.attempt) && Active !in s.disk.wal
      && JournalIs(s, ActiveMoved)
    case Reopen =>
      && s.handle.None? && s.todo == {} && Holds(s, Active, s.attempt) && Active !in s.disk.wal
      && JournalIs(s, StagingActive)
    case Finish =>
      && Serving(s, s.attempt)
      && s.todo <= {UnlinkDb(Rollback), UnlinkJournal}
      && (s.disk.journal.Some? ==> UnlinkJournal in s.todo && JournalIs(s, StagingActive))
    case Recovering(_, at) => RecoveryInv(s, at)
  }

  ghost predicate Common(s: State) {
    && s.stray == {}
    && s.serving <= s.attempt && s.serving in s.truth && s.attempt in s.truth
    && Rollback !in s.disk.wal
    && NoForeignLog(s.disk)
    && (forall n :: (n in s.disk.db || n in s.disk.wal) && n.Staging? ==> n.attempt <= s.attempt)
    && (s.disk.journal.Some? ==>
          s.disk.journal.value.staging <= s.attempt && Staging(s.disk.journal.value.staging) !in s.disk.wal)
  }

  ghost predicate Inv(s: State) {
    Common(s) && PcInv(s)
  }

  const CALM := Env(false, false)

  lemma StagingKeepsInv(s: State)
    requires Inv(s) && NextCall(s).Some?
    requires s.pc.ClearRollback? || s.pc.Copy? || s.pc.Build?
    ensures Inv(NextCall(s).value)
  {
  }

  lemma SealingKeepsInv(s: State)
    requires Inv(s) && NextCall(s).Some?
    requires s.pc.Seal? || s.pc.SealLeave? || s.pc.JournalPrepared?
    ensures Inv(NextCall(s).value)
  {
  }

  lemma ClosingKeepsInv(s: State)
    requires Inv(s) && NextCall(s).Some?
    requires s.pc.Fold? || s.pc.LeaveWal? || s.pc.Close?
    ensures Inv(NextCall(s).value)
  {
  }

  lemma MovingKeepsInv(s: State)
    requires Inv(s) && NextCall(s).Some?
    requires s.pc.Sweep? || s.pc.JournalMoved? || s.pc.MoveStaging?
    ensures Inv(NextCall(s).value)
  {
  }

  lemma FinishingKeepsInv(s: State)
    requires Inv(s) && NextCall(s).Some?
    requires s.pc.JournalActive? || s.pc.Reopen? || s.pc.Finish? || s.pc.Cleanup?
    ensures Inv(NextCall(s).value)
  {
  }

  lemma InspectingKeepsInv(s: State, c: Caller, at: RecoveryStep)
    requires Inv(s) && s.pc == Recovering(c, at) && RecoveryTick(s, c, at).Some?
    requires at.ReadJournal? || at.Inspect? || at.TryActive?
    ensures Inv(RecoveryTick(s, c, at).value)
  {
  }

  lemma ChoosingKeepsInv(s: State, c: Caller, at: RecoveryStep)
    requires Inv(s) && s.pc == Recovering(c, at) && RecoveryTick(s, c, at).Some?
    requires at.TryStaging? || at.TryRollback?
    ensures Inv(RecoveryTick(s, c, at).value)
  {
  }

  lemma UnwalKeepsInv(s: State, c: Caller, at: RecoveryStep)
    requires Inv(s) && s.pc == Recovering(c, at) && RecoveryTick(s, c, at).Some?
    requires at.Unwal?
    ensures Inv(RecoveryTick(s, c, at).value)
  {
  }

  lemma DropActiveKeepsInv(s: State, c: Caller, at: RecoveryStep)
    requires Inv(s) && s.pc == Recovering(c, at) && RecoveryTick(s, c, at).Some?
    requires at.DropActive?
    ensures Inv(RecoveryTick(s, c, at).value)
  {
  }

  lemma PromoteKeepsInv(s: State, c: Caller, at: RecoveryStep)
    requires Inv(s) && s.pc == Recovering(c, at) && RecoveryTick(s, c, at).Some?
    requires at.Promote?
    ensures Inv(RecoveryTick(s, c, at).value)
  {
  }

  lemma OpeningKeepsInv(s: State, c: Caller, at: RecoveryStep)
    requires Inv(s) && s.pc == Recovering(c, at) && RecoveryTick(s, c, at).Some?
    requires at.KeepActive? || at.SweepRest? || at.OpenActive?
    ensures Inv(RecoveryTick(s, c, at).value)
  {
  }

  lemma ActivationUnlinkKeepsInv(s: State, op: Unlink)
    requires Inv(s) && op in s.todo
    requires !s.pc.Recovering?
    ensures Inv(Step(CALM, s, Do(op)).value)
  {
  }

  lemma KeepUnlinkKeepsInv(s: State, op: Unlink)
    requires Inv(s) && op in s.todo
    requires s.pc.Recovering? && s.pc.at.KeepActive?
    ensures Inv(Step(CALM, s, Do(op)).value)
  {
  }

  lemma PromoteUnlinkKeepsInv(s: State, op: Unlink)
    requires Inv(s) && op in s.todo
    requires s.pc.Recovering? && !s.pc.at.KeepActive?
    ensures Inv(Step(CALM, s, Do(op)).value)
  {
  }

  lemma ActivationThrowKeepsInv(s: State)
    requires Inv(s) && ThrowError(CALM, s).Some?
    requires !s.pc.Recovering?
    ensures Inv(ThrowError(CALM, s).value)
  {
  }

  lemma RecoveryThrowKeepsInv(s: State)
    requires Inv(s) && ThrowError(CALM, s).Some?
    requires s.pc.Recovering?
    ensures Inv(ThrowError(CALM, s).value)
  {
  }

  lemma CrashKeepsInv(s: State)
    requires Inv(s)
    ensures Inv(Crashed(s))
  {
  }

  lemma RestingCommitKeepsInv(s: State, c: Content)
    requires Inv(s) && CommitTo(s, c).Some?
    requires s.pc.Idle? || s.pc.Cleanup? || s.pc.Finish?
    ensures Inv(CommitTo(s, c).value)
  {
  }

  lemma EarlyCommitKeepsInv(s: State, c: Content)
    requires Inv(s) && CommitTo(s, c).Some?
    requires s.pc.ClearRollback? || s.pc.Copy? || s.pc.Build?
    ensures Inv(CommitTo(s, c).value)
  {
  }

  lemma LateCommitKeepsInv(s: State, c: Content)
    requires Inv(s) && CommitTo(s, c).Some?
    requires s.pc.Seal? || s.pc.SealLeave? || s.pc.JournalPrepared? || s.pc.Fold?
    ensures Inv(CommitTo(s, c).value)
  {
  }

  lemma AutoCheckpointKeepsInv(s: State, e: Event)
    requires Inv(s) && Step(CALM, s, e).Some?
    requires e.AutoCheckpoint?
    ensures Inv(Step(CALM, s, e).value)
  {
  }

  lemma BeginKeepsInv(s: State, e: Event)
    requires Inv(s) && Step(CALM, s, e).Some?
    requires e.Begin? || e.Start?
    ensures Inv(Step(CALM, s, e).value)
  {
  }

  lemma RecoveryTickKeepsInv(s: State, c: Caller, at: RecoveryStep)
    requires Inv(s) && s.pc == Recovering(c, at) && RecoveryTick(s, c, at).Some?
    ensures Inv(RecoveryTick(s, c, at).value)
  {
    if at.ReadJournal? || at.Inspect? || at.TryActive? { InspectingKeepsInv(s, c, at); }
    else if at.TryStaging? || at.TryRollback? { ChoosingKeepsInv(s, c, at); }
    else if at.Unwal? { UnwalKeepsInv(s, c, at); }
    else if at.DropActive? { DropActiveKeepsInv(s, c, at); }
    else if at.Promote? { PromoteKeepsInv(s, c, at); }
    else { OpeningKeepsInv(s, c, at); }
  }

  lemma TickKeepsInv(s: State)
    requires Inv(s) && NextCall(s).Some?
    ensures Inv(NextCall(s).value)
  {
    if s.pc.Recovering? { RecoveryTickKeepsInv(s, s.pc.caller, s.pc.at); }
    else if s.pc.ClearRollback? || s.pc.Copy? || s.pc.Build? { StagingKeepsInv(s); }
    else if s.pc.Seal? || s.pc.SealLeave? || s.pc.JournalPrepared? { SealingKeepsInv(s); }
    else if s.pc.Fold? || s.pc.LeaveWal? || s.pc.Close? { ClosingKeepsInv(s); }
    else if s.pc.Sweep? || s.pc.JournalMoved? || s.pc.MoveStaging? { MovingKeepsInv(s); }
    else { FinishingKeepsInv(s); }
  }

  lemma UnlinkKeepsInv(s: State, op: Unlink)
    requires Inv(s) && op in s.todo
    ensures Inv(Step(CALM, s, Do(op)).value)
  {
    if !s.pc.Recovering? { ActivationUnlinkKeepsInv(s, op); }
    else if s.pc.at.KeepActive? { KeepUnlinkKeepsInv(s, op); }
    else { PromoteUnlinkKeepsInv(s, op); }
  }

  lemma CommitKeepsInv(s: State, c: Content)
    requires Inv(s) && CommitTo(s, c).Some?
    ensures Inv(CommitTo(s, c).value)
  {
    if s.pc.Idle? || s.pc.Cleanup? || s.pc.Finish? { RestingCommitKeepsInv(s, c); }
    else if s.pc.ClearRollback? || s.pc.Copy? || s.pc.Build? { EarlyCommitKeepsInv(s, c); }
    else { LateCommitKeepsInv(s, c); }
  }

  /** One event keeps the invariant. */
  lemma StepKeepsInv(s: State, e: Event)
    requires Inv(s) && Step(CALM, s, e).Some?
    ensures Inv(Step(CALM, s, e).value)
  {
    match e
    case Tick => TickKeepsInv(s);
    case Do(op) => UnlinkKeepsInv(s, op);
    case Land(op) =>
    case Throw => if s.pc.Recovering? { RecoveryThrowKeepsInv(s); } else { ActivationThrowKeepsInv(s); }
    case Crash => CrashKeepsInv(s);
    case Start => BeginKeepsInv(s, e);
    case Begin(_) => BeginKeepsInv(s, e);
    case AutoCheckpoint => AutoCheckpointKeepsInv(s, e);
    case Commit(c) => CommitKeepsInv(s, c);
  }

  /** Every state of every run satisfies the invariant. */
  lemma {:induction false} RunKeepsInv(c: Content, events: seq<Event>)
    requires Run(CALM, Initial(c), events).Some?
    ensures Inv(Run(CALM, Initial(c), events).value)
  {
    if events != [] {
      RunKeepsInv(c, events[..|events| - 1]);
      StepKeepsInv(Run(CALM, Initial(c), events[..|events| - 1]).value, events[|events| - 1]);
    }
  }
}
