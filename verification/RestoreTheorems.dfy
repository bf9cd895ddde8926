/** Safety and outcome of interrupted restores, over every run. */
module RestoreTheorems {
  import opened Prelude
  import opened RestoreDisk
  import opened RestoreMachine
  import opened RestoreSafety

  /** A database with exactly the old or exactly the new content exists as active or rollback. */
  ghost predicate Intact(s: State) {
    || Holds(s, Active, s.serving) || Holds(s, Active, s.attempt)
    || Holds(s, Rollback, s.serving) || Holds(s, Rollback, s.attempt)
  }

  /** Safe: no content is lost and no database stands beside another database's log. */
  ghost predicate Safe(s: State) {
    Intact(s) && NoForeignLog(s.disk)
  }

  /** Only logs whose frames are already in their database disappear. */
  ghost predicate KeepsFrames(s: State, t: State) {
    forall n :: n in s.disk.wal && n !in t.disk.wal ==> s.disk.wal[n].pending.None?
  }

  lemma InvIsSafe(s: State)
    requires Inv(s)
    ensures Safe(s)
  {
  }

  lemma ActivationTickKeepsFrames(s: State)
    requires Inv(s) && NextCall(s).Some? && !s.pc.Recovering?
    ensures KeepsFrames(s, NextCall(s).value)
  {
  }

  lemma RecoveryTickKeepsFrames(s: State)
    requires Inv(s) && NextCall(s).Some? && s.pc.Recovering?
    ensures KeepsFrames(s, NextCall(s).value)
  {
  }

  lemma StepKeepsFrames(s: State, e: Event)
    requires Inv(s) && Step(CALM, s, e).Some?
    ensures KeepsFrames(s, Step(CALM, s, e).value)
  {
    match e
    case Tick => if s.pc.Recovering? { RecoveryTickKeepsFrames(s); } else { ActivationTickKeepsFrames(s); }
    case _ =>
  }

  /** In every run without the two environment faults, every state is safe and no event drops unsaved frames. */
  lemma EveryRunIsSafe(c: Content, events: seq<Event>)
    requires Run(CALM, Initial(c), events).Some?
    ensures Safe(Run(CALM, Initial(c), events).value)
    ensures forall e :: Step(CALM, Run(CALM, Initial(c), events).value, e).Some? ==>
              KeepsFrames(Run(CALM, Initial(c), events).value, Step(CALM, Run(CALM, Initial(c), events).value, e).value)
  {
    var s := Run(CALM, Initial(c), events).value;
    RunKeepsInv(c, events);
    InvIsSafe(s);
    forall e | Step(CALM, s, e).Some? ensures KeepsFrames(s, Step(CALM, s, e).value) {
      StepKeepsFrames(s, e);
    }
  }

  // ----- the outcome of a recovery, however often it is interrupted

  /** Starting the program, running recovery, and being killed at any point of it. */
  predicate RecoveryEvent(e: Event) {
    e.Tick? || e.Do? || e.Crash? || e.Start?
  }

  predicate AtRecovery(pc: Pc) {
    pc.Down? || pc.Recovering?
  }

  /** The identity of the database in file `n`. */
  function IdOf(d: Disk, n: Name): nat {
    if n in d.db && d.db[n].Db? then d.db[n].id else 0
  }

  /** The database that recovery will put in service, read off the directory alone. */
  function Verdict(d: Disk): nat {
    if Active in d.db && d.db[Active].Db? then IdOf(d, Active)
    else if d.journal.Some? && d.journal.value.stage == ActiveMoved && Staging(d.journal.value.staging) in d.db
    then IdOf(d, Staging(d.journal.value.staging))
    else IdOf(d, Rollback)
  }

  ghost predicate Settling(s: State) {
    AtRecovery(s.pc) || ((s.pc.Cleanup? || s.pc.Idle?) && s.handle.Some?)
  }

  lemma ChoosingKeepsVerdict(s: State)
    requires Inv(s) && Settling(s) && NextCall(s).Some?
    requires !s.pc.Recovering? || !(s.pc.at.Unwal? || s.pc.at.DropActive? || s.pc.at.Promote?)
    ensures var t := NextCall(s).value; Settling(t) && Verdict(t.disk) == Verdict(s.disk) && t.truth == s.truth
  {
  }

  lemma PromotingKeepsVerdict(s: State)
    requires Inv(s) && NextCall(s).Some?
    requires s.pc.Recovering? && (s.pc.at.Unwal? || s.pc.at.DropActive? || s.pc.at.Promote?)
    ensures var t := NextCall(s).value; Settling(t) && Verdict(t.disk) == Verdict(s.disk) && t.truth == s.truth
  {
  }

  lemma UnlinkKeepsVerdict(s: State, op: Unlink)
    requires Inv(s) && Settling(s) && op in s.todo
    ensures var t := Step(CALM, s, Do(op)).value;
      Settling(t) && Verdict(t.disk) == Verdict(s.disk) && t.truth == s.truth
  {
  }

  lemma RecoveryEventKeepsVerdict(s: State, e: Event)
    requires Inv(s) && Settling(s) && RecoveryEvent(e) && Step(CALM, s, e).Some?
    ensures var t := Step(CALM, s, e).value; Settling(t) && Verdict(t.disk) == Verdict(s.disk) && t.truth == s.truth
  {
    match e
    case Tick =>
      if s.pc.Recovering? && (s.pc.at.Unwal? || s.pc.at.DropActive? || s.pc.at.Promote?) { PromotingKeepsVerdict(s); }
      else { ChoosingKeepsVerdict(s); }
    case Do(op) => UnlinkKeepsVerdict(s, op);
    case _ =>
  }

  /**
   From any reachable crashed directory (also after thrown errors), any number of starts, recovery
   calls and further crashes leads, once the program serves again, to the database the verdict named.
   */
  lemma {:induction false} RecoveryReachesVerdict(s: State, events: seq<Event>)
    requires Inv(s) && Settling(s)
    requires forall e :: e in events ==> RecoveryEvent(e)
    requires Run(CALM, s, events).Some?
    ensures var t := Run(CALM, s, events).value;
      && Inv(t) && Settling(t) && Verdict(t.disk) == Verdict(s.disk) && t.truth == s.truth
      && (t.pc.Idle? ==> Holds(t, Active, Verdict(s.disk)) && t.disk.db[Active].id == Verdict(s.disk))
  {
    if events != [] {
      var front := events[..|events| - 1];
      RecoveryReachesVerdict(s, front);
      var t := Run(CALM, s, front).value;
      StepKeepsInv(t, events[|events| - 1]);
      RecoveryEventKeepsVerdict(t, events[|events| - 1]);
    }
  }

  // ----- crashes alone: the journal stage decides

  /** Without thrown errors the staged database survives until it is active. */
  ghost predicate CrashOnly(s: State) {
    && !s.pc.Cleanup? && !s.pc.Broken? && (s.pc.Recovering? ==> s.pc.caller == Startup)
    && (s.disk.journal.Some? && s.disk.journal.value.stage == ActiveMoved ==>
          if Active in s.disk.db then Holds(s, Active, s.attempt) else Staging(s.attempt) in s.disk.db)
  }

  lemma CrashOnlyActivationTick(s: State)
    requires Inv(s) && CrashOnly(s) && NextCall(s).Some? && !s.pc.Recovering?
    ensures CrashOnly(NextCall(s).value)
  {
  }

  lemma CrashOnlyPromotion(s: State)
    requires Inv(s) && CrashOnly(s) && NextCall(s).Some?
    requires s.pc.Recovering? && (s.pc.at.Unwal? || s.pc.at.DropActive? || s.pc.at.Promote?)
    ensures CrashOnly(NextCall(s).value)
  {
  }

  lemma CrashOnlyChoice(s: State)
    requires Inv(s) && CrashOnly(s) && NextCall(s).Some?
    requires s.pc.Recovering? && !(s.pc.at.Unwal? || s.pc.at.DropActive? || s.pc.at.Promote?)
    ensures CrashOnly(NextCall(s).value)
  {
  }

  lemma CrashOnlyRecoveryTick(s: State)
    requires Inv(s) && CrashOnly(s) && NextCall(s).Some? && s.pc.Recovering?
    ensures CrashOnly(NextCall(s).value)
  {
    if s.pc.at.Unwal? || s.pc.at.DropActive? || s.pc.at.Promote? {
      CrashOnlyPromotion(s);
    } else {
      CrashOnlyChoice(s);
    }
  }

  lemma CrashOnlyUnlink(s: State, op: Unlink)
    requires Inv(s) && CrashOnly(s) && op in s.todo
    ensures CrashOnly(Step(CALM, s, Do(op)).value)
  {
  }

  lemma CrashOnlyStep(s: State, e: Event)
    requires Inv(s) && CrashOnly(s) && !e.Throw? && Step(CALM, s, e).Some?
    ensures CrashOnly(Step(CALM, s, e).value)
  {
    match e
    case Tick => if s.pc.Recovering? { CrashOnlyRecoveryTick(s); } else { CrashOnlyActivationTick(s); }
    case Do(op) => CrashOnlyUnlink(s, op);
    case _ =>
  }

  lemma {:induction false} CrashOnlyRun(c: Content, events: seq<Event>)
    requires Throw !in events
    requires Run(CALM, Initial(c), events).Some?
    ensures var s := Run(CALM, Initial(c), events).value; Inv(s) && CrashOnly(s)
  {
    RunKeepsInv(c, events);
    if events != [] {
      var front := events[..|events| - 1];
      CrashOnlyRun(c, front);
      CrashOnlyStep(Run(CALM, Initial(c), front).value, events[|events| - 1]);
    }
  }

  /**
   In runs interrupted by crashes only, the journal stage decides: `prepared` leads back to the old
   database, the two later stages lead to the new one, however many crashes hit the recovery.
   */
  lemma StageDecides(c: Content, before: seq<Event>, after: seq<Event>)
    requires Throw !in before && Run(CALM, Initial(c), before).Some?
    requires forall e :: e in after ==> RecoveryEvent(e)
    requires
      var s := Run(CALM, Initial(c), before).value;
      && AtRecovery(s.pc) && s.disk.journal.Some?
      && Run(CALM, s, after).Some? && Run(CALM, s, after).value.pc.Idle?
    ensures
      var s := Run(CALM, Initial(c), before).value;
      var t := Run(CALM, s, after).value;
      Holds(t, Active, if s.disk.journal.value.stage == Prepared then s.serving else s.attempt) && t.truth == s.truth
  {
    CrashOnlyRun(c, before);
    var s := Run(CALM, Initial(c), before).value;
    RecoveryReachesVerdict(s, after);
  }
}
