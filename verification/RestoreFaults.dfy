/**
 The two faults under which the safety of a restore is lost, as concrete runs, and the
 exact condition on the surroundings; also the runs in which a thrown error turns an
 `active-moved` journal back to the old database.
 */
module RestoreFaults {
  import opened Prelude
  import opened RestoreDisk
  import opened RestoreMachine
  import opened RestoreSafety
  import opened RestoreTheorems
  import opened RestoreRuns

  /** Every state of every run is safe. */
  ghost predicate AlwaysSafe(env: Env) {
    forall c: Content, events: seq<Event> ::
      Run(env, Initial(c), events).Some? ==> Safe(Run(env, Initial(c), events).value)
  }

  /** A state of the first attempt, which replaces database 0 with content `c` by database 1 with content `t`. */
  function First(c: Content, t: Content, db: map<Name, DbFile>, wal: map<Name, Wal>, j: Option<Journal>,
                 pc: Pc, todo: set<Unlink>, handle: Option<Connection>): State {
    State(Disk(db, wal, wal.Keys, j), pc, todo, {}, handle, 1, 0, map[0 := c, 1 := t])
  }

  function CopiedState(c: Content, t: Content): State {
    First(c, t, map[Active := Db(0, c), Staging(1) := Partial], map[Active := Wal(0, None)], None,
          Build, {}, Some(Connection(0, true)))
  }

  function StagedState(c: Content, t: Content): State {
    First(c, t, map[Active := Db(0, c), Staging(1) := Db(1, t)], map[Active := Wal(0, None)], None,
          JournalPrepared, {}, Some(Connection(0, true)))
  }

  /** The old database is closed; its sidecars are about to be swept. */
  function ReadyState(c: Content, t: Content): State {
    First(c, t, map[Active := Db(0, c), Staging(1) := Db(1, t)], map[], Some(Journal(Prepared, 1)),
          Sweep, Sidecars(Active) + Sidecars(Staging(1)) + Sidecars(Rollback), None)
  }

  /** The old database has its rollback name and the journal says so. */
  function MovedState(c: Content, t: Content): State {
    First(c, t, map[Rollback := Db(0, c), Staging(1) := Db(1, t)], map[], Some(Journal(ActiveMoved, 1)),
          MoveStaging, {}, None)
  }

  /** The new database is in service; the last cleanup is about to run. */
  function FinishState(c: Content, t: Content): State {
    First(c, t, map[Active := Db(1, t), Rollback := Db(0, c)], map[Active := Wal(1, None)],
      Some(Journal(StagingActive, 1)),
          Finish, {UnlinkDb(Rollback), UnlinkJournal}, Some(Connection(1, true)))
  }

  lemma CopiedIsReachable(env: Env, c: Content, t: Content)
    ensures Reaches(env, Initial(c), CopiedState(c, t))
  {
    var s0 := Initial(c);
    ReachesItself(env, s0);
    var s3 := CopiedState(c, t);
    var s1 := First(c, t, s0.disk.db, s0.disk.wal, None, ClearRollback, {}, s0.handle);
    var s2 := s1.(pc := Copy);
    assert s0.truth[1 := t] == s1.truth && s0.disk.shm == s1.disk.shm;
    assert Step(env, s0, Begin(t)) == Some(s1);
    assert s1.disk.db - {Rollback} == s1.disk.db;
    assert Step(env, s1, Tick) == Some(s2);
    assert s2.disk.db[Staging(1) := Partial] == s3.disk.db;
    assert Step(env, s2, Tick) == Some(s3);
    ReachesNext(env, s0, s0, Begin(t), s1);
    ReachesTwo(env, s0, s1, Tick, s2, Tick, s3);
  }

  lemma StagedIsReachable(env: Env, c: Content, t: Content)
    ensures Reaches(env, Initial(c), StagedState(c, t))
  {
    var s0 := Initial(c);
    CopiedIsReachable(env, c, t);
    var s3 := CopiedState(c, t);
    var s4 := s3.(pc := Seal, disk := Disk(
      s3.disk.db[Staging(1) := Db(1, c)], s3.disk.wal[Staging(1) := Wal(1, Some(t))],
      s3.disk.shm + {Staging(1)}, None));
    assert Step(env, s3, Tick) == Some(s4);
    var s5 := At(s4, Checkpoint(s4.disk, Staging(1)), SealLeave);
    assert Step(env, s4, Tick) == Some(s5);
    var s6 := StagedState(c, t);
    assert s5.disk.db == s6.disk.db;
    assert s5.disk.wal - {Staging(1)} == s6.disk.wal;
    assert s5.disk.shm - {Staging(1)} == s6.disk.shm;
    assert Step(env, s5, Tick) == Some(s6);
    ReachesNext(env, s0, s3, Tick, s4);
    ReachesTwo(env, s0, s4, Tick, s5, Tick, s6);
  }

  lemma ReadyIsReachable(env: Env, c: Content, t: Content)
    ensures Reaches(env, Initial(c), ReadyState(c, t))
  {
    var s0 := Initial(c);
    StagedIsReachable(env, c, t);
    var s6 := StagedState(c, t);
    var s7 := At(s6, s6.disk.(journal := Some(Journal(Prepared, 1))), Fold);
    assert Step(env, s6, Tick) == Some(s7);
    var s8 := s7.(pc := LeaveWal);
    assert Checkpoint(s7.disk, Active).db == s7.disk.db && Checkpoint(s7.disk, Active).wal == s7.disk.wal;
    assert Step(env, s7, Tick) == Some(s8);
    var s10 := ReadyState(c, t);
    var s9 := s10.(pc := Close, handle := Some(Connection(0, false)), todo := {});
    assert s8.disk.wal - {Active} == map[];
    assert s8.disk.shm - {Active} == {};
    assert Step(env, s8, Tick) == Some(s9);
    assert Step(env, s9, Tick) == Some(s10);
    ReachesFour(env, s0, s6, Tick, s7, Tick, s8, Tick, s9, Tick, s10);
  }

  lemma SettleIdle(d: Disk, ops: set<Unlink>)
    requires d.wal == map[] && d.shm == {} && UnlinkJournal !in ops && forall n :: UnlinkDb(n) !in ops
    ensures Settle(d, ops) == d
  {
    assert Settle(d, ops).db == d.db;
    assert Settle(d, ops).wal == d.wal;
    assert Settle(d, ops).shm == d.shm;
  }

  lemma SweptIsReachable(env: Env, c: Content, t: Content)
    ensures Reaches(env, Initial(c), ReadyState(c, t).(todo := {}))
  {
    ReadyIsReachable(env, c, t);
    var r := ReadyState(c, t);
    ReachesSettled(env, Initial(c), r);
    SettleIdle(r.disk, r.todo);
  }

  lemma MovedIsReachable(env: Env, c: Content, t: Content)
    ensures Reaches(env, Initial(c), MovedState(c, t))
  {
    var s0 := Initial(c);
    SweptIsReachable(env, c, t);
    var b0 := ReadyState(c, t).(todo := {});
    var b2 := MovedState(c, t);
    var b1 := b2.(pc := JournalMoved, disk := b2.disk.(journal := Some(Journal(Prepared, 1))));
    assert Rename(b0.disk, Active, Rollback).db == b2.disk.db;
    assert Step(env, b0, Tick) == Some(b1);
    assert Step(env, b1, Tick) == Some(b2);
    ReachesTwo(env, s0, b0, Tick, b1, Tick, b2);
  }

  /** The new database has the active name; the old one still waits under its rollback name. */
  function SwappedState(c: Content, t: Content): State {
    First(c, t, map[Active := Db(1, t), Rollback := Db(0, c)], map[], Some(Journal(StagingActive, 1)), Reopen, {}, None)
  }

  lemma SwappedIsReachable(env: Env, c: Content, t: Content)
    ensures Reaches(env, Initial(c), SwappedState(c, t))
  {
    MovedIsReachable(env, c, t);
    var b2 := MovedState(c, t);
    var b4 := SwappedState(c, t);
    var b3 := First(c, t, b4.disk.db, map[], Some(Journal(ActiveMoved, 1)), JournalActive, {}, None);
    assert Rename(b2.disk, Staging(1), Active).db == b4.disk.db;
    assert Step(env, b2, Tick) == Some(b3);
    assert Step(env, b3, Tick) == Some(b4);
    ReachesTwo(env, Initial(c), b2, Tick, b3, Tick, b4);
  }

  lemma FinishIsReachable(env: Env, c: Content, t: Content)
    ensures Reaches(env, Initial(c), FinishState(c, t))
  {
    var s0 := Initial(c);
    SwappedIsReachable(env, c, t);
    var b4 := SwappedState(c, t);
    var b5 := FinishState(c, t);
    assert b4.disk.shm + {Active} == b5.disk.shm;
    assert b4.disk.wal[Active := Wal(1, None)] == b5.disk.wal;
    assert Step(env, b4, Tick) == Some(b5);
    ReachesNext(env, s0, b4, Tick, b5);
  }

  /** Recovery inside the error handler completes and the database is reopened. */
  lemma HandlerReopens(env: Env, s0: State, s: State) returns (t: State)
    requires Reaches(env, s0, s) && s.pc == Recovering(Handler, ReadJournal)
    requires s.handle.None? && s.todo == {} && s.disk.journal.Some? && Readable(s.disk, Active)
    ensures Reaches(env, s0, t)
    ensures t.pc == Cleanup && t.handle == Some(Connection(s.disk.db[Active].id, true)) && t.stray == s.stray
    ensures Active in t.disk.db && t.disk.db[Active] == Db(s.disk.db[Active].id, Reads(s.disk, Active).value)
    ensures Active in t.disk.wal && t.disk.wal[Active].id == s.disk.db[Active].id && Rollback !in t.disk.db
  {
    RecoveryCompletes(env, s0, s, Handler);
    var u := s.(disk := Recover(s.disk).disk, pc := Recovering(Handler, OpenActive));
    RecoverCleansUp(s.disk);
    assert u.disk.db[Active].id == s.disk.db[Active].id;
    t := Open(u).(pc := Cleanup);
    assert Step(env, u, Tick) == Some(t);
    ReachesNext(env, s0, u, Tick, t);
  }

  /** An error while the sidecars are swept: recovery keeps the active database, the sweep still in flight. */
  lemma StraysOutliveRecovery(env: Env) returns (t: State)
    requires env.stragglers
    ensures Reaches(env, Initial(0), t)
    ensures t.pc == Cleanup && t.handle == Some(Connection(0, true)) && UnlinkWal(Active) in t.stray
    ensures Active in t.disk.wal && t.disk.wal[Active].id == 0 && Rollback !in t.disk.db
    ensures Active in t.disk.db && t.disk.db[Active] == Db(0, 0)
  {
    ReadyIsReachable(env, 0, 1);
    var r := ReadyState(0, 1);
    var a1 := r.(pc := Recovering(Handler, ReadJournal), todo := {}, stray := r.stray + r.todo);
    assert Step(env, r, Throw) == Some(a1);
    ReachesNext(env, Initial(0), r, Throw, a1);
    t := HandlerReopens(env, Initial(0), a1);
  }

  /** A sidecar unlink that outlives its rejected `Promise.all` drops frames committed after the recovery. */
  lemma StragglerLosesCommits(env: Env) returns (t: State)
    requires env.stragglers
    ensures Reaches(env, Initial(0), t) && !Safe(t)
  {
    var s0 := Initial(0);
    var a8 := StraysOutliveRecovery(env);
    var a9 := CommitTo(a8, 7).value;
    assert Step(env, a8, Commit(7)) == Some(a9);
    var op := UnlinkWal(Active);
    t := a9.(disk := Remove(a9.disk, op), stray := a9.stray - {op});
    assert Step(env, a9, Land(op)) == Some(t);
    ReachesTwo(env, s0, a8, Commit(7), a9, Land(op), t);
    assert Reads(t.disk, Active) == Some(0) && t.truth[0] == 7;
  }

  /** A recovery that finds its active database held open comes to consider the rollback. */
  lemma HeldDatabaseIsRejected(env: Env, s0: State, s: State, j: Journal)
    requires Reaches(env, s0, s) && s.pc == Recovering(Handler, ReadJournal)
    requires s.handle.Some? && s.disk.journal == Some(j) && j.stage == StagingActive && Rollback in s.disk.db
    ensures Reaches(env, s0, s.(pc := Recovering(Handler, TryRollback(j, true))))
  {
    InspectionIsReachable(env, s0, s, Handler, j);
    var a, st := Active in s.disk.db, Staging(j.staging) in s.disk.db;
    var c3 := s.(pc := Recovering(Handler, TryActive(j, a, st, true)));
    var c4 := s.(pc := Recovering(Handler, TryStaging(j, st, true)));
    var c5 := s.(pc := Recovering(Handler, TryRollback(j, true)));
    ReachesTwo(env, s0, c3, Tick, c4, Tick, c5);
  }

  /** With the new database held open, recovery rejects it, turns to the rollback and unlinks the active file. */
  lemma HeldDatabaseIsUnlinked(env: Env, s0: State, s: State, j: Journal) returns (t: State)
    requires Reaches(env, s0, s) && s.pc == Recovering(Handler, ReadJournal) && s.todo == {}
    requires s.handle.Some? && s.disk.journal == Some(j) && j.stage == StagingActive && Readable(s.disk, Rollback)
    ensures Reaches(env, s0, t)
    ensures t.pc == Recovering(Handler, Promote(j, Rollback)) && t.handle == s.handle && t.attempt == s.attempt
    ensures t.disk.db == Checkpoint(s.disk, Rollback).db - {Active}
  {
    HeldDatabaseIsRejected(env, s0, s, j);
    var c5 := s.(pc := Recovering(Handler, TryRollback(j, true)));
    var c6 := At(s, Checkpoint(s.disk, Rollback), Recovering(Handler, Unwal(j, Rollback)));
    var c7 := At(c6, LeaveWalMode(c6.disk, Rollback), Recovering(Handler, DropActive(j, Rollback)));
    ReachesTwo(env, s0, c5, Tick, c6, Tick, c7);
    t := At(c7, Remove(c7.disk, UnlinkDb(Active)), Recovering(Handler, Promote(j, Rollback)))
      .(todo := Sidecars(Active) + Sidecars(Rollback));
    assert Step(env, c7, Tick) == Some(t);
    ReachesNext(env, s0, c7, Tick, t);
  }

  lemma FinishThrows(env: Env) returns (t: State)
    requires env.finishThrows
    ensures Reaches(env, Initial(0), t) && t.pc == Recovering(Handler, ReadJournal) && t.todo == {}
    ensures t.disk == FinishState(0, 1).disk && t.handle == Some(Connection(1, true)) && t.attempt == 1
  {
    FinishIsReachable(env, 0, 1);
    var f := FinishState(0, 1);
    t := f.(pc := Recovering(Handler, ReadJournal), todo := {},
            stray := if env.stragglers then f.stray + f.todo else f.stray);
    assert Step(env, f, Throw) == Some(t);
    ReachesNext(env, Initial(0), f, Throw, t);
  }

  lemma FailedFinishUnlinksActive(env: Env) returns (t: State)
    requires env.finishThrows
    ensures Reaches(env, Initial(0), t)
    ensures t.pc == Recovering(Handler, Promote(Journal(StagingActive, 1), Rollback))
    ensures t.disk.db == map[Rollback := Db(0, 0)] && t.handle == Some(Connection(1, true)) && t.attempt == 1
  {
    var c1 := FinishThrows(env);
    t := HeldDatabaseIsUnlinked(env, Initial(0), c1, Journal(StagingActive, 1));
    assert t.disk.db == map[Rollback := Db(0, 0)];
  }

  lemma FailedRecoveryServesOn(env: Env) returns (t: State)
    requires env.finishThrows
    ensures Reaches(env, Initial(0), t) && t.pc == Idle
    ensures t.disk.db == map[Rollback := Db(0, 0)] && t.handle == Some(Connection(1, true)) && t.attempt == 1
  {
    var c8 := FailedFinishUnlinksActive(env);
    var c9 := c8.(pc := Cleanup, todo := {}, stray := if env.stragglers then c8.stray + c8.todo else c8.stray);
    assert Step(env, c8, Throw) == Some(c9);
    t := At(c9, Remove(c9.disk, UnlinkDb(Staging(1))), Idle);
    assert Step(env, c9, Tick) == Some(t);
    assert t.disk.db == map[Rollback := Db(0, 0)];
    ReachesTwo(env, Initial(0), c8, Throw, c9, Tick, t);
  }

  /**
   When the last cleanup fails while the new database is open, recovery cannot validate it and turns to
   the rollback; a second error there leaves the program serving an unlinked database, and the next
   restore begins by removing the rollback, the only copy left.
   */
  lemma FailedFinishLosesEverything(env: Env) returns (t: State)
    requires env.finishThrows
    ensures Reaches(env, Initial(0), t) && t.disk.db == map[] && !Safe(t)
  {
    var s0 := Initial(0);
    var c10 := FailedRecoveryServesOn(env);
    var c11 := c10.(pc := ClearRollback, attempt := 2, serving := 1, truth := c10.truth[2 := 2]);
    assert Step(env, c10, Begin(2)) == Some(c11);
    t := At(c11, Remove(c11.disk, UnlinkDb(Rollback)), Copy);
    assert Step(env, c11, Tick) == Some(t);
    assert t.disk.db == map[];
    ReachesTwo(env, s0, c10, Begin(2), c11, Tick, t);
  }

  /** Restores are safe exactly when the surroundings show neither fault. */
  lemma SafeExactlyWhen(env: Env)
    ensures AlwaysSafe(env) <==> !env.stragglers && !env.finishThrows
  {
    if env == CALM {
      forall c: Content, events: seq<Event> | Run(env, Initial(c), events).Some?
        ensures Safe(Run(env, Initial(c), events).value)
      {
        EveryRunIsSafe(c, events);
      }
    } else {
      var t: State;
      if env.stragglers { t := StragglerLosesCommits(env); } else { t := FailedFinishLosesEverything(env); }
      var events :| Run(env, Initial(0), events) == Some(t);
      assert !Safe(Run(env, Initial(0), events).value);
    }
  }

  lemma HandlersThrowTwice() returns (t: State)
    ensures Reaches(CALM, Initial(0), t) && t == MovedState(0, 1).(pc := Cleanup)
  {
    MovedIsReachable(CALM, 0, 1);
    var b2 := MovedState(0, 1);
    var b3 := b2.(pc := Recovering(Handler, ReadJournal));
    assert Step(CALM, b2, Throw) == Some(b3);
    t := b2.(pc := Cleanup);
    assert Step(CALM, b3, Throw) == Some(t);
    ReachesTwo(CALM, Initial(0), b2, Throw, b3, Throw, t);
  }

  /**
   Thrown errors are different from crashes: when the recovery inside the error handler throws too, the
   outer handler removes the staged file, and a directory whose journal says `active-moved` is decided
   for the old database.
   */
  lemma ThrownErrorsMayRollBack() returns (t: State)
    ensures Reaches(CALM, Initial(0), t) && t.pc.Broken?
    ensures t.disk.journal == Some(Journal(ActiveMoved, 1))
    ensures Verdict(t.disk) == t.serving && t.serving != t.attempt
  {
    var b4 := HandlersThrowTwice();
    t := At(b4, Remove(b4.disk, UnlinkDb(Staging(1))), Broken);
    assert Step(CALM, b4, Tick) == Some(t);
    ReachesNext(CALM, Initial(0), b4, Tick, t);
  }
}
