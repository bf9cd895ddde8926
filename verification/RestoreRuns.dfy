/**
 Runs of the restore machine, and the machine's recovery against the recovery function:
 left alone, the calls of one recovery have exactly the effect of `Recover`, whatever the
 order of joined unlinks and whatever state the files are in.
 */
module RestoreRuns {
  import opened Prelude
  import opened RestoreDisk
  import opened RestoreMachine

  ghost predicate Reaches(env: Env, s: State, t: State) {
    exists events: seq<Event> :: Run(env, s, events) == Some(t)
  }

  lemma ReachesItself(env: Env, s: State)
    ensures Reaches(env, s, s)
  {
    assert Run(env, s, []) == Some(s);
  }

  lemma ReachesNext(env: Env, s: State, t: State, e: Event, u: State)
    requires Reaches(env, s, t) && Step(env, t, e) == Some(u)
    ensures Reaches(env, s, u)
  {
    var events :| Run(env, s, events) == Some(t);
    assert (events + [e])[..|events + [e]| - 1] == events;
    assert Run(env, s, events + [e]) == Some(u);
  }

  /** Up to four events in a row. */
  lemma ReachesFour(env: Env, s: State, t0: State, e1: Event, t1: State, e2: Event, t2: State,
                    e3: Event, t3: State, e4: Event, t4: State)
    requires Reaches(env, s, t0)
    requires Step(env, t0, e1) == Some(t1) && Step(env, t1, e2) == Some(t2)
    requires Step(env, t2, e3) == Some(t3) && Step(env, t3, e4) == Some(t4)
    ensures Reaches(env, s, t4)
  {
    ReachesNext(env, s, t0, e1, t1);
    ReachesNext(env, s, t1, e2, t2);
    ReachesNext(env, s, t2, e3, t3);
    ReachesNext(env, s, t3, e4, t4);
  }

  lemma ReachesTwo(env: Env, s: State, t0: State, e1: Event, t1: State, e2: Event, t2: State)
    requires Reaches(env, s, t0)
    requires Step(env, t0, e1) == Some(t1) && Step(env, t1, e2) == Some(t2)
    ensures Reaches(env, s, t2)
  {
    ReachesNext(env, s, t0, e1, t1);
    ReachesNext(env, s, t1, e2, t2);
  }

  /** All joined unlinks of a group can be carried out. */
  lemma {:induction false} ReachesSettled(env: Env, s: State, t: State)
    requires Reaches(env, s, t)
    ensures Reaches(env, s, t.(disk := Settle(t.disk, t.todo), todo := {}))
    decreases t.todo
  {
    if t.todo == {} {
      SettleNothing(t.disk);
      assert t == t.(disk := Settle(t.disk, t.todo), todo := {});
    } else {
      var op :| op in t.todo;
      SettleStep(t.disk, t.todo, op);
      var u := Step(env, t, Do(op)).value;
      ReachesNext(env, s, t, Do(op), u);
      ReachesSettled(env, s, u);
    }
  }

  /** Recovery reads the journal and looks at the three files. */
  lemma InspectionIsReachable(env: Env, s0: State, s: State, c: Caller, j: Journal)
    requires Reaches(env, s0, s) && s.pc == Recovering(c, ReadJournal) && s.disk.journal == Some(j)
    ensures Reaches(env, s0, s.(pc := Recovering(c,
              TryActive(j, Active in s.disk.db, Staging(j.staging) in s.disk.db, Rollback in s.disk.db))))
  {
    var s1 := s.(pc := Recovering(c, Inspect(j)));
    assert Step(env, s, Tick) == Some(s1);
    var s2 := s.(pc := Recovering(c,
              TryActive(j, Active in s.disk.db, Staging(j.staging) in s.disk.db, Rollback in s.disk.db)));
    assert Step(env, s1, Tick) == Some(s2);
    ReachesTwo(env, s0, s, Tick, s1, Tick, s2);
  }

  /** Recovery that keeps the active file runs to the end. */
  lemma KeepCompletes(env: Env, s0: State, s: State, c: Caller, j: Journal, staging: bool, rollback: bool)
    requires Reaches(env, s0, s) && s.pc == Recovering(c, TryActive(j, true, staging, rollback))
    requires s.handle.None? && Readable(s.disk, Active)
    ensures Reaches(env, s0, s.(pc := Recovering(c, OpenActive), todo := {},
              disk := Settle(LeaveWalMode(Checkpoint(s.disk, Active), Active), Leftovers(j))))
  {
    var s1 := At(s, Checkpoint(s.disk, Active), Recovering(c, Unwal(j, Active)));
    assert Step(env, s, Tick) == Some(s1);
    var s2 := At(s1, LeaveWalMode(s1.disk, Active), Recovering(c, KeepActive(j))).(todo := Leftovers(j));
    assert Step(env, s1, Tick) == Some(s2);
    ReachesTwo(env, s0, s, Tick, s1, Tick, s2);
    ReachesSettled(env, s0, s2);
    var s3 := s2.(disk := Settle(s2.disk, s2.todo), todo := {});
    ReachesNext(env, s0, s3, Tick, s3.(pc := Recovering(c, OpenActive)));
  }

  /** The second half of a promotion: rename, sweep the leftovers. */
  lemma RenameCompletes(env: Env, s0: State, s: State, c: Caller, j: Journal, src: Name)
    requires Reaches(env, s0, s) && s.pc == Recovering(c, Promote(j, src)) && s.todo == {} && src in s.disk.db
    ensures Reaches(env, s0, s.(pc := Recovering(c, OpenActive),
              disk := Settle(Rename(s.disk, src, Active), OtherLeftovers(j, src))))
  {
    var s4 := At(s, Rename(s.disk, src, Active), Recovering(c, SweepRest(j, src))).(todo := OtherLeftovers(j, src));
    assert Step(env, s, Tick) == Some(s4);
    ReachesNext(env, s0, s, Tick, s4);
    ReachesSettled(env, s0, s4);
    var s5 := s4.(disk := Settle(s4.disk, s4.todo), todo := {});
    ReachesNext(env, s0, s5, Tick, s5.(pc := Recovering(c, OpenActive)));
  }

  /** Recovery that promotes another file runs to the end. */
  lemma PromoteCompletes(env: Env, s0: State, s: State, c: Caller, j: Journal, src: Name)
    requires Reaches(env, s0, s) && s.pc == Recovering(c, Unwal(j, src)) && src != Active
    requires src in s.disk.db
    ensures
      var d2 := Settle(Remove(LeaveWalMode(s.disk, src), UnlinkDb(Active)), Sidecars(Active) + Sidecars(src));
      && src in d2.db
      && Reaches(env, s0, s.(pc := Recovering(c, OpenActive), todo := {},
           disk := Settle(Rename(d2, src, Active), OtherLeftovers(j, src))))
  {
    var s1 := At(s, LeaveWalMode(s.disk, src), Recovering(c, DropActive(j, src)));
    assert Step(env, s, Tick) == Some(s1);
    var s2 := At(s1, Remove(s1.disk, UnlinkDb(Active)), Recovering(c, Promote(j, src)))
      .(todo := Sidecars(Active) + Sidecars(src));
    assert Step(env, s1, Tick) == Some(s2);
    ReachesTwo(env, s0, s, Tick, s1, Tick, s2);
    ReachesSettled(env, s0, s2);
    RenameCompletes(env, s0, s2.(disk := Settle(s2.disk, s2.todo), todo := {}), c, j, src);
  }

  /** Recovery that cannot use the active file comes to fold the log of the file it promotes. */
  lemma ChoiceIsReachable(env: Env, s0: State, s: State, c: Caller, j: Journal, src: Name, st: bool, r: bool)
    requires Reaches(env, s0, s) && s.pc == Recovering(c, TryStaging(j, st, r))
    requires st == (Staging(j.staging) in s.disk.db) && r == (Rollback in s.disk.db)
    requires Chosen(s.disk, j) == Some(src) && src != Active
    ensures Reaches(env, s0, At(s, Checkpoint(s.disk, src), Recovering(c, Unwal(j, src))))
  {
    var s3 := At(s, Checkpoint(s.disk, src), Recovering(c, Unwal(j, src)));
    if src == Rollback {
      var s4 := s.(pc := Recovering(c, TryRollback(j, r)));
      ReachesTwo(env, s0, s, Tick, s4, Tick, s3);
    } else {
      ReachesNext(env, s0, s, Tick, s3);
    }
  }

  /** A recovery that can succeed can always run to its end, and then has the effect of `Recover`. */
  lemma RecoveryCompletes(env: Env, s0: State, s: State, c: Caller)
    requires Reaches(env, s0, s) && s.pc == Recovering(c, ReadJournal)
    requires s.handle.None? && s.todo == {} && Recover(s.disk).Recovered?
    ensures Reaches(env, s0, s.(disk := Recover(s.disk).disk, pc := Recovering(c, OpenActive)))
  {
    var j := s.disk.journal.value;
    var src := Chosen(s.disk, j).value;
    var st, r := Staging(j.staging) in s.disk.db, Rollback in s.disk.db;
    InspectionIsReachable(env, s0, s, c, j);
    var s1 := s.(pc := Recovering(c, TryActive(j, Active in s.disk.db, st, r)));
    if src == Active {
      KeepCompletes(env, s0, s1, c, j, st, r);
    } else {
      var s2 := s.(pc := Recovering(c, TryStaging(j, st, r)));
      ReachesNext(env, s0, s1, Tick, s2);
      ChoiceIsReachable(env, s0, s2, c, j, src, st, r);
      PromoteCompletes(env, s0, At(s, Checkpoint(s.disk, src), Recovering(c, Unwal(j, src))), c, j, src);
    }
  }

  // ----- any order of calls

  /** How far a recovery that began on directory `d` has come. */
  ghost predicate Progress(d: Disk, s: State) {
    && s.pc.Recovering? && s.handle.None?
    && match s.pc.at
       case ReadJournal => s.disk == d && s.todo == {}
       case Inspect(j) => s.disk == d && d.journal == Some(j) && s.todo == {}
       case TryActive(j, a, st, r) =>
         && s.disk == d && d.journal == Some(j) && s.todo == {}
         && a == (Active in d.db) && st == (Staging(j.staging) in d.db) && r == (Rollback in d.db)
       case TryStaging(j, st, r) =>
         && s.disk == d && d.journal == Some(j) && s.todo == {} && !Readable(d, Active)
         && st == (Staging(j.staging) in d.db) && r == (Rollback in d.db)
       case TryRollback(j, r) =>
         && s.disk == d && d.journal == Some(j) && s.todo == {} && r == (Rollback in d.db)
         && !Readable(d, Active) && (j.stage == ActiveMoved ==> !Readable(d, Staging(j.staging)))
       case Unwal(j, src) =>
         && d.journal == Some(j) && Chosen(d, j) == Some(src) && s.disk == Checkpoint(d, src) && s.todo == {}
       case DropActive(j, src) =>
         && d.journal == Some(j) && Chosen(d, j) == Some(src) && src != Active && s.todo == {}
         && s.disk == LeaveWalMode(Checkpoint(d, src), src)
       case Promote(j, src) =>
         && d.journal == Some(j) && Chosen(d, j) == Some(src) && src != Active
         && Settle(s.disk, s.todo)
              == Settle(Remove(LeaveWalMode(Checkpoint(d, src), src), UnlinkDb(Active)),
                Sidecars(Active) + Sidecars(src))
       case KeepActive(_) => Recover(d).Recovered? && Settle(s.disk, s.todo) == Recover(d).disk
       case SweepRest(_, _) => Recover(d).Recovered? && Settle(s.disk, s.todo) == Recover(d).disk
       case OpenActive =>
         s.todo == {} && if d.journal.None? then s.disk == d else Recover(d).Recovered? && s.disk == Recover(d).disk
  }

  lemma ProgressStep(env: Env, d: Disk, s: State, e: Event)
    requires Progress(d, s) && !s.pc.at.OpenActive? && (e.Tick? || e.Do?) && Step(env, s, e).Some?
    ensures Progress(d, Step(env, s, e).value)
  {
    if e.Do? {
      SettleStep(s.disk, s.todo, e.op);
    } else if s.todo == {} {
      SettleNothing(s.disk);
    }
  }

  /** Uninterrupted recovery, with joined calls in any order, does to the directory what `Recover` says. */
  lemma {:induction false} UninterruptedRecovery(env: Env, d: Disk, s: State, events: seq<Event>)
    requires Progress(d, s) && Run(env, s, events).Some?
    requires forall i :: 0 <= i < |events| ==> events[i].Tick? || events[i].Do?
    requires forall i :: 0 <= i < |events| && Run(env, s, events[..i]).Some? ==>
               Run(env, s, events[..i]).value.pc.Recovering? && !Run(env, s, events[..i]).value.pc.at.OpenActive?
    ensures Progress(d, Run(env, s, events).value)
  {
    if events != [] {
      var front := events[..|events| - 1];
      forall i | 0 <= i < |front| ensures front[..i] == events[..i] {}
      UninterruptedRecovery(env, d, s, front);
      ProgressStep(env, d, Run(env, s, front).value, events[|events| - 1]);
    }
  }

  /** When it gets to reopening, only the recovered directory is left and recovering again would do nothing. */
  lemma UninterruptedRecoveryIsClean(env: Env, s: State, events: seq<Event>)
    requires s.pc.Recovering? && s.pc.at.ReadJournal? && s.handle.None? && s.todo == {} && s.disk.journal.Some?
    requires Run(env, s, events).Some?
    requires forall i :: 0 <= i < |events| ==> events[i].Tick? || events[i].Do?
    requires forall i :: 0 <= i < |events| && Run(env, s, events[..i]).Some? ==>
               Run(env, s, events[..i]).value.pc.Recovering? && !Run(env, s, events[..i]).value.pc.at.OpenActive?
    requires Run(env, s, events).value.pc.Recovering? && Run(env, s, events).value.pc.at.OpenActive?
    ensures
      var t := Run(env, s, events).value;
      && Recover(s.disk).Recovered? && t.disk == Recover(s.disk).disk
      && OnlyActiveLeft(t.disk, s.disk.journal.value) && Recover(t.disk) == NothingToRecover
  {
    UninterruptedRecovery(env, s.disk, s, events);
    RecoverCleansUp(s.disk);
  }
}
