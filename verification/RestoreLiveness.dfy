/** From every crashed state that a run can reach, starting the program again brings a sound database into service. */
module RestoreLiveness {
  import opened Prelude
  import opened RestoreDisk
  import opened RestoreMachine
  import opened RestoreSafety
  import opened RestoreTheorems
  import opened RestoreRuns

  /** Recovery never fails on a directory that a crash can leave. */
  lemma CrashedIsRecoverable(s: State)
    requires Inv(s) && s.pc.Down? && s.disk.journal.Some?
    ensures Recover(s.disk).Recovered?
  {
  }

  lemma RecoverServesVerdict(s: State)
    requires Inv(s) && s.pc.Down? && s.disk.journal.Some?
    ensures var r := Recover(s.disk);
      && r.Recovered? && Readable(r.disk, Active) && r.disk.db[Active].id == Verdict(s.disk)
  {
    RecoverCleansUp(s.disk);
  }

  /** The states of one startup: recovering, about to open the database, and serving. */
  lemma StartReachesOpen(s0: State, s: State) returns (u: State)
    requires Reaches(CALM, s0, s) && Inv(s) && s.pc.Down?
    ensures Reaches(CALM, s0, u) && u.pc == Recovering(Startup, OpenActive) && u.truth == s.truth
    ensures Readable(u.disk, Active) && u.disk.db[Active].id == Verdict(s.disk)
  {
    var s1 := s.(pc := Recovering(Startup, ReadJournal));
    assert Step(CALM, s, Start) == Some(s1);
    ReachesNext(CALM, s0, s, Start, s1);
    if s.disk.journal.None? {
      u := s.(pc := Recovering(Startup, OpenActive));
      assert Step(CALM, s1, Tick) == Some(u);
      ReachesNext(CALM, s0, s1, Tick, u);
    } else {
      RecoverServesVerdict(s);
      RecoveryCompletes(CALM, s0, s1, Startup);
      u := s1.(disk := Recover(s.disk).disk, pc := Recovering(Startup, OpenActive));
    }
  }

  lemma IdleHolds(t: State)
    requires Inv(t) && t.pc.Idle?
    ensures Active in t.disk.db && t.disk.db[Active].Db? && Holds(t, Active, t.disk.db[Active].id)
  {
  }

  lemma {:induction false} RunOnKeepsInv(s: State, events: seq<Event>)
    requires Inv(s) && Run(CALM, s, events).Some?
    ensures Inv(Run(CALM, s, events).value)
  {
    if events != [] {
      RunOnKeepsInv(s, events[..|events| - 1]);
      StepKeepsInv(Run(CALM, s, events[..|events| - 1]).value, events[|events| - 1]);
    }
  }

  /**
   Every run that ends in a crash goes on to a state that serves the verdict's database with its committed
   content.
   */
  lemma CrashedRunServesAgain(c: Content, events: seq<Event>) returns (t: State)
    requires Run(CALM, Initial(c), events).Some? && Run(CALM, Initial(c), events).value.pc.Down?
    ensures var s := Run(CALM, Initial(c), events).value;
      Reaches(CALM, s, t) && t.pc.Idle? && t.truth == s.truth && Holds(t, Active, Verdict(s.disk))
  {
    var s := Run(CALM, Initial(c), events).value;
    RunKeepsInv(c, events);
    ReachesItself(CALM, s);
    var u := StartReachesOpen(s, s);
    t := Open(u).(pc := Idle);
    assert Step(CALM, u, Tick) == Some(t);
    ReachesNext(CALM, s, u, Tick, t);
    var more :| Run(CALM, s, more) == Some(t);
    RunOnKeepsInv(s, more);
    IdleHolds(t);
  }

  /** The files are being swapped and the old database is closed. */
  predicate Swapping(pc: Pc) {
    pc.Sweep? || pc.JournalMoved? || pc.MoveStaging? || pc.JournalActive? || pc.Reopen?
  }

  lemma SwapLeavesChoice(s: State)
    requires Inv(s) && Swapping(s.pc)
    ensures s.disk.journal.Some? && s.handle.None? && Chosen(s.disk, s.disk.journal.value).Some?
    ensures IdOf(s.disk, Chosen(s.disk, s.disk.journal.value).value) == Verdict(s.disk)
  {
  }

  lemma RecoverKeepsIdentity(d: Disk)
    requires d.journal.Some? && Chosen(d, d.journal.value).Some?
    ensures var r := Recover(d);
      && r.Recovered? && Readable(r.disk, Active)
      && r.disk.db[Active].id == IdOf(d, Chosen(d, d.journal.value).value)
  {
    RecoverCleansUp(d);
  }

  lemma SwapIsRecoverable(s: State)
    requires Inv(s) && Swapping(s.pc)
    ensures s.disk.journal.Some? && s.handle.None? && Recover(s.disk).Recovered?
    ensures var r := Recover(s.disk); Readable(r.disk, Active) && r.disk.db[Active].id == Verdict(s.disk)
  {
    SwapLeavesChoice(s);
    RecoverKeepsIdentity(s.disk);
  }

  lemma HandlerOpens(u: State)
    requires Readable(u.disk, Active) && u.pc == Recovering(Handler, OpenActive)
    ensures Step(CALM, u, Tick) == Some(Open(u).(pc := Cleanup))
    ensures var v := Open(u).(pc := Cleanup);
      Step(CALM, v, Tick) == Some(At(v, Remove(v.disk, UnlinkDb(Staging(v.attempt))), Idle))
  {
  }

  /**
   An error while the files are swapped is handled in the running program: recovery puts the verdict's
   database back into service with its committed content.
   */
  lemma ErrorIsRecovered(s: State) returns (t: State)
    requires Inv(s) && Swapping(s.pc)
    ensures Reaches(CALM, s, t) && t.pc.Idle? && t.truth == s.truth && Holds(t, Active, Verdict(s.disk))
  {
    SwapIsRecoverable(s);
    var s1 := s.(pc := Recovering(Handler, ReadJournal), todo := {});
    assert Step(CALM, s, Throw) == Some(s1);
    ReachesItself(CALM, s);
    ReachesNext(CALM, s, s, Throw, s1);
    RecoveryCompletes(CALM, s, s1, Handler);
    var u := s1.(disk := Recover(s.disk).disk, pc := Recovering(Handler, OpenActive));
    HandlerOpens(u);
    var v := Open(u).(pc := Cleanup);
    t := At(v, Remove(v.disk, UnlinkDb(Staging(v.attempt))), Idle);
    ReachesTwo(CALM, s, u, Tick, v, Tick, t);
    var more :| Run(CALM, s, more) == Some(t);
    RunOnKeepsInv(s, more);
    IdleHolds(t);
  }

  // ----- what recovery reports

  /** The attempt is newer than the database that was in service when it began. */
  ghost predicate AttemptIsNewer(s: State) {
    && (s.attempt > 0 ==> s.serving < s.attempt)
    && (s.disk.journal.Some? ==> s.attempt > 0)
  }

  lemma TickKeepsNewer(s: State)
    requires Inv(s) && AttemptIsNewer(s) && NextCall(s).Some?
    ensures AttemptIsNewer(NextCall(s).value)
  {
  }

  lemma StepKeepsNewer(s: State, e: Event)
    requires Inv(s) && AttemptIsNewer(s) && Step(CALM, s, e).Some?
    ensures AttemptIsNewer(Step(CALM, s, e).value)
  {
    if e.Tick? {
      TickKeepsNewer(s);
    }
  }

  lemma {:induction false} RunKeepsNewer(c: Content, events: seq<Event>)
    requires Run(CALM, Initial(c), events).Some?
    ensures AttemptIsNewer(Run(CALM, Initial(c), events).value)
  {
    if events != [] {
      var front := events[..|events| - 1];
      RunKeepsNewer(c, front);
      RunKeepsInv(c, front);
      StepKeepsNewer(Run(CALM, Initial(c), front).value, events[|events| - 1]);
    }
  }

  lemma ReportNamesVerdict(s: State)
    requires Inv(s) && CrashOnly(s) && AttemptIsNewer(s) && s.pc.Down? && s.disk.journal.Some?
    ensures var r := Recover(s.disk);
      && r.Recovered?
      && (r.action == CompletedActivation <==> Verdict(s.disk) == s.attempt)
      && (r.action == CompletedActivation || Verdict(s.disk) == s.serving)
  {
    CrashedIsRecoverable(s);
    ReportedActions(s.disk);
  }

  /**
   In runs interrupted by crashes only, recovery reports a completed activation exactly when it puts the
   new database into service; otherwise it reports that the old one was kept or restored, and so it is.
   */
  lemma ReportMatchesService(c: Content, events: seq<Event>)
    requires Throw !in events && Run(CALM, Initial(c), events).Some?
    requires var s := Run(CALM, Initial(c), events).value; s.pc.Down? && s.disk.journal.Some?
    ensures var s := Run(CALM, Initial(c), events).value;
      var r := Recover(s.disk);
      && r.Recovered? && s.serving != s.attempt && Active in r.disk.db && r.disk.db[Active].Db?
      && r.disk.db[Active].id == (if r.action == CompletedActivation then s.attempt else s.serving)
  {
    var s := Run(CALM, Initial(c), events).value;
    CrashOnlyRun(c, events);
    RunKeepsNewer(c, events);
    ReportNamesVerdict(s);
    RecoverServesVerdict(s);
  }

  // ----- an activation that nothing interrupts

  /** How many calls are left until the new database is in service; 0 outside an activation. */
  function CallsLeft(pc: Pc): nat {
    match pc
    case ClearRollback => 15
    case Copy => 14
    case Build => 13
    case Seal => 12
    case SealLeave => 11
    case JournalPrepared => 10
    case Fold => 9
    case LeaveWal => 8
    case Close => 7
    case Sweep => 6
    case JournalMoved => 5
    case MoveStaging => 4
    case JournalActive => 3
    case Reopen => 2
    case Finish => 1
    case _ => 0
  }

  ghost predicate GoesOn(s: State) {
    && NextCall(s).Some?
    && var t := NextCall(s).value;
    && CallsLeft(t.pc) == CallsLeft(s.pc) - 1 && t.attempt == s.attempt && t.truth == s.truth
    && (t.pc.Idle? <==> s.pc.Finish?)
  }

  lemma PreparationGoesOn(s: State)
    requires Inv(s) && CallsLeft(s.pc) >= 8
    ensures GoesOn(s)
  {
  }

  lemma SwapGoesOn(s: State)
    requires Inv(s) && 0 < CallsLeft(s.pc) < 8 && s.todo == {}
    ensures GoesOn(s)
  {
  }

  lemma ActivationGoesOn(s: State)
    requires Inv(s) && CallsLeft(s.pc) > 0 && s.todo == {}
    ensures GoesOn(s)
  {
    if CallsLeft(s.pc) >= 8 {
      PreparationGoesOn(s);
    } else {
      SwapGoesOn(s);
    }
  }

  /** The new database is in service and no journal is left. */
  ghost predicate Activated(s: State) {
    s.pc.Idle? && Serving(s, s.attempt) && s.disk.journal.None?
  }

  lemma FinishActivates(s: State)
    requires Inv(s) && s.pc.Finish? && s.todo == {}
    ensures NextCall(s).Some? && Activated(NextCall(s).value)
  {
  }

  /** Left alone, an activation runs to its end, and the content it was to bring is in service. */
  lemma {:induction false} ActivationCompletes(s0: State, s: State) returns (t: State)
    requires Reaches(CALM, s0, s) && Inv(s) && CallsLeft(s.pc) > 0
    ensures Reaches(CALM, s0, t) && Activated(t) && t.attempt == s.attempt && t.truth == s.truth
    decreases CallsLeft(s.pc), s.todo
  {
    if s.todo != {} {
      var op :| op in s.todo;
      var u := Step(CALM, s, Do(op)).value;
      StepKeepsInv(s, Do(op));
      ReachesNext(CALM, s0, s, Do(op), u);
      t := ActivationCompletes(s0, u);
    } else {
      ActivationGoesOn(s);
      var u := NextCall(s).value;
      StepKeepsInv(s, Tick);
      ReachesNext(CALM, s0, s, Tick, u);
      if s.pc.Finish? {
        FinishActivates(s);
        t := u;
      } else {
        t := ActivationCompletes(s0, u);
      }
    }
  }

  /** From every reachable idle state, a restore of any content can be begun and completed. */
  lemma RestoreBringsContent(c: Content, events: seq<Event>, target: Content) returns (t: State)
    requires Run(CALM, Initial(c), events).Some? && Run(CALM, Initial(c), events).value.pc.Idle?
    ensures var s := Run(CALM, Initial(c), events).value;
      Reaches(CALM, s, t) && Activated(t) && Holds(t, Active, t.attempt) && t.truth[t.attempt] == target
  {
    var s := Run(CALM, Initial(c), events).value;
    RunKeepsInv(c, events);
    ReachesItself(CALM, s);
    var u := Step(CALM, s, Begin(target)).value;
    StepKeepsInv(s, Begin(target));
    ReachesNext(CALM, s, s, Begin(target), u);
    t := ActivationCompletes(s, u);
  }
}
