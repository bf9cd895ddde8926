/**
 Restore activation and recovery as a machine of atomic filesystem calls.  Calls joined
 by `Promise.all` wait in `todo` and happen in any order; a crash may hit between any two
 calls, also inside recovery; a thrown error runs the handlers the source installs.
 */
module RestoreMachine {
  import opened Prelude
  import opened RestoreDisk

  /** Who runs the recovery: program start, or the error handler of an activation. */
  datatype Caller = Startup | Handler

  datatype RecoveryStep =
    | ReadJournal
    | Inspect(j: Journal)
    | TryActive(j: Journal, active: bool, staging: bool, rollback: bool)
    | TryStaging(j: Journal, staging: bool, rollback: bool)
    | TryRollback(j: Journal, rollback: bool)
    | Unwal(j: Journal, src: Name)
    | KeepActive(j: Journal)
    | DropActive(j: Journal, src: Name)
    | Promote(j: Journal, src: Name)
    | SweepRest(j: Journal, src: Name)
    | OpenActive

  datatype Pc =
    | Down          // no process
    | Idle          // serving requests
    | Broken        // the process lives on with its database closed
    | ClearRollback | Copy | Build | Seal | SealLeave
    | JournalPrepared | Fold | LeaveWal | Close | Sweep
    | JournalMoved | MoveStaging | JournalActive | Reopen | Finish
    | Cleanup       // the outer handler unlinks the staged file
    | Recovering(caller: Caller, at: RecoveryStep)

  /** An open connection to database `id`; `wal` tells whether it writes through a log. */
  datatype Connection = Connection(id: nat, wal: bool)

  /**
   `serving` is the database in service when attempt `attempt` began, and `truth[id]` the
   content committed to database `id` (for a staged database: the content it is built to hold).
   `stray` are unlinks of a rejected `Promise.all` that are still in flight.
   */
  datatype State = State(
    disk: Disk, pc: Pc, todo: set<Unlink>, stray: set<Unlink>, handle: Option<Connection>,
    attempt: nat, serving: nat, truth: map<nat, Content>)

  /** Faults the surroundings may or may not show. */
  datatype Env = Env(
    stragglers: bool,   // unlinks of a rejected Promise.all may land after its handler started
    finishThrows: bool) // the last cleanup, after the new database was reopened, may fail

  datatype Event =
    | Tick | Do(op: Unlink) | Land(op: Unlink)
    | Throw | Crash | Start
    | Commit(content: Content) | AutoCheckpoint | Begin(target: Content)

  function Initial(c: Content): State {
    State(Disk(map[Active := Db(0, c)], map[Active := Wal(0, None)], {Active}, None),
          Idle, {}, {}, Some(Connection(0, true)), 0, 0, map[0 := c])
  }

  function At(s: State, d: Disk, pc: Pc): State {
    s.(disk := d, pc := pc)
  }

  function WriteJournal(s: State, stage: Stage): Disk {
    s.disk.(journal := Some(Journal(stage, s.attempt)))
  }

  /** `openManagedDatabase` on the active file: a new connection in WAL mode. */
  function Open(s: State): (r: State)
    requires Active in s.disk.db && s.disk.db[Active].Db?
  {
    var id := s.disk.db[Active].id;
    var wal := if Active in s.disk.wal then s.disk.wal else s.disk.wal[Active := Wal(id, None)];
    s.(disk := s.disk.(wal := wal, shm := s.disk.shm + {Active}), handle := Some(Connection(id, true)))
  }

  function Resting(s: State): Pc {
    if s.handle.Some? then Idle else Broken
  }

  function RecoveryTick(s: State, c: Caller, at: RecoveryStep): Option<State> {
    match at
    case ReadJournal =>
      Some(s.(pc := Recovering(c, if s.disk.journal.None? then OpenActive else Inspect(s.disk.journal.value))))
    case Inspect(j) =>
      var a, st, r := Active in s.disk.db, Staging(j.staging) in s.disk.db, Rollback in s.disk.db;
      Some(s.(pc := Recovering(c, TryActive(j, a, st, r))))
    case TryActive(j, active, staging, rollback) =>
      // Leaving WAL mode needs the file to itself, so validation fails while this process holds it open.
      if active && s.handle.None? && Readable(s.disk, Active) then
        Some(At(s, Checkpoint(s.disk, Active), Recovering(c, Unwal(j, Active))))
      else
        Some(s.(pc := Recovering(c, TryStaging(j, staging, rollback))))
    case TryStaging(j, staging, rollback) =>
      if j.stage == ActiveMoved && staging && Readable(s.disk, Staging(j.staging)) then
        Some(At(s, Checkpoint(s.disk, Staging(j.staging)), Recovering(c, Unwal(j, Staging(j.staging)))))
      else
        Some(s.(pc := Recovering(c, TryRollback(j, rollback))))
    case TryRollback(j, rollback) =>
      if rollback && Readable(s.disk, Rollback) then
        Some(At(s, Checkpoint(s.disk, Rollback), Recovering(c, Unwal(j, Rollback))))
      else None
    case Unwal(j, src) =>
      if src == Active then
        Some(At(s, LeaveWalMode(s.disk, src), Recovering(c, KeepActive(j))).(todo := Leftovers(j)))
      else
        Some(At(s, LeaveWalMode(s.disk, src), Recovering(c, DropActive(j, src))))
    case KeepActive(_) =>
      if s.todo == {} then Some(s.(pc := Recovering(c, OpenActive))) else None
    case DropActive(j, src) =>
      Some(At(s, Remove(s.disk, UnlinkDb(Active)), Recovering(c, Promote(j, src)))
        .(todo := Sidecars(Active) + Sidecars(src)))
    case Promote(j, src) =>
      if s.todo == {} && src in s.disk.db then
        Some(At(s, Rename(s.disk, src, Active), Recovering(c, SweepRest(j, src))).(todo := OtherLeftovers(j, src)))
      else None
    case SweepRest(_, _) =>
      if s.todo == {} then Some(s.(pc := Recovering(c, OpenActive))) else None
    case OpenActive =>
      if Readable(s.disk, Active) then
        Some(Open(s).(pc := if c == Startup then Idle else Cleanup))
      else None
  }

  /** The next call of the running program; `None` when it waits, throws or nothing runs. */
  function NextCall(s: State): Option<State> {
    var staged := Staging(s.attempt);
    match s.pc
    case Down => None
    case Idle => None
    case Broken => None
    case ClearRollback => Some(At(s, Remove(s.disk, UnlinkDb(Rollback)), Copy))
    case Copy => Some(At(s, s.disk.(db := s.disk.db[staged := Partial]), Build))
    case Build =>
      if s.attempt in s.truth && s.serving in s.truth then
        Some(At(s, s.disk.(db := s.disk.db[staged := Db(s.attempt, s.truth[s.serving])],
                           wal := s.disk.wal[staged := Wal(s.attempt, Some(s.truth[s.attempt]))],
                           shm := s.disk.shm + {staged}), Seal))
      else None
    case Seal => if Readable(s.disk, staged) then Some(At(s, Checkpoint(s.disk, staged), SealLeave)) else None
    case SealLeave => Some(At(s, LeaveWalMode(s.disk, staged), JournalPrepared))
    case JournalPrepared => Some(At(s, WriteJournal(s, Prepared), Fold))
    case Fold => if Readable(s.disk, Active) then Some(At(s, Checkpoint(s.disk, Active), LeaveWal)) else None
    case LeaveWal =>
      if s.handle.Some? then
        Some(At(s, LeaveWalMode(s.disk, Active), Close).(handle := Some(s.handle.value.(wal := false))))
      else None
    case Close =>
      Some(s.(pc := Sweep, handle := None, todo := Sidecars(Active) + Sidecars(staged) + Sidecars(Rollback)))
    case Sweep =>
      if s.todo == {} && Active in s.disk.db then Some(At(s, Rename(s.disk, Active, Rollback), JournalMoved)) else None
    case JournalMoved => Some(At(s, WriteJournal(s, ActiveMoved), MoveStaging))
    case MoveStaging =>
      if staged in s.disk.db then Some(At(s, Rename(s.disk, staged, Active), JournalActive)) else None
    case JournalActive => Some(At(s, WriteJournal(s, StagingActive), Reopen))
    case Reopen =>
      if Readable(s.disk, Active) then
        Some(Open(s).(pc := Finish, todo := {UnlinkDb(Rollback), UnlinkJournal}))
      else None
    case Finish => if s.todo == {} then Some(s.(pc := Idle)) else None
    case Cleanup => Some(At(s, Remove(s.disk, UnlinkDb(staged)), Resting(s)))
    case Recovering(c, at) => RecoveryTick(s, c, at)
  }

  /** Where a thrown error takes the program. */
  function HandlerOf(env: Env, s: State): Option<Pc> {
    match s.pc
    case Down => None
    case Idle => None
    case Broken => None
    case ClearRollback => Some(Idle)
    case Copy => Some(Idle)
    case Build => Some(Cleanup)
    case Seal => Some(Cleanup)
    case SealLeave => Some(Cleanup)
    case JournalPrepared => Some(Cleanup)
    case Fold => Some(Cleanup)
    case LeaveWal => Some(Cleanup)
    case Close => Some(Cleanup)
    case Sweep => Some(Recovering(Handler, ReadJournal))
    case JournalMoved => Some(Recovering(Handler, ReadJournal))
    case MoveStaging => Some(Recovering(Handler, ReadJournal))
    case JournalActive => Some(Recovering(Handler, ReadJournal))
    case Reopen => Some(Recovering(Handler, ReadJournal))
    case Finish => if env.finishThrows then Some(Recovering(Handler, ReadJournal)) else None
    case Cleanup => Some(Resting(s))
    case Recovering(c, _) => Some(if c == Startup then Down else Cleanup)
  }

  function ThrowError(env: Env, s: State): Option<State> {
    match HandlerOf(env, s)
    case None => None
    case Some(pc) =>
      if pc == Down then Some(Crashed(s))
      else Some(s.(pc := pc, todo := {}, stray := if env.stragglers then s.stray + s.todo else s.stray))
  }

  function Crashed(s: State): State {
    s.(pc := Down, todo := {}, stray := {}, handle := None)
  }

  /** A transaction committed through the open connection, unless the program is between calls without awaiting. */
  function CommitTo(s: State, c: Content): Option<State> {
    if s.handle.None? || s.pc == LeaveWal || s.pc == Close then None
    else
      var h := s.handle.value;
      var linked := Active in s.disk.db && s.disk.db[Active].Db? && s.disk.db[Active].id == h.id;
      var d :=
        if h.wal && Active in s.disk.wal && s.disk.wal[Active].id == h.id then
          s.disk.(wal := s.disk.wal[Active := Wal(h.id, Some(c))])
        else if !h.wal && linked then
          s.disk.(db := s.disk.db[Active := Db(h.id, c)])
        else s.disk;
      Some(s.(disk := d, truth := s.truth[h.id := c]))
  }

  function Step(env: Env, s: State, e: Event): Option<State> {
    match e
    case Tick => NextCall(s)
    case Do(op) => if op in s.todo then Some(s.(disk := Remove(s.disk, op), todo := s.todo - {op})) else None
    case Land(op) => if op in s.stray then Some(s.(disk := Remove(s.disk, op), stray := s.stray - {op})) else None
    case Throw => ThrowError(env, s)
    case Crash => if s.pc == Down then None else Some(Crashed(s))
    case Start => if s.pc == Down then Some(s.(pc := Recovering(Startup, ReadJournal))) else None
    case Commit(c) => CommitTo(s, c)
    case AutoCheckpoint =>
      if s.handle.Some? && s.handle.value.wal && Readable(s.disk, Active) && s.disk.db[Active].id == s.handle.value.id
      then Some(s.(disk := Checkpoint(s.disk, Active))) else None
    case Begin(target) =>
      if s.pc == Idle && s.handle.Some? then
        Some(s.(pc := ClearRollback, attempt := s.attempt + 1, serving := s.handle.value.id,
                truth := s.truth[s.attempt + 1 := target]))
      else None
  }

  /** The state after a whole sequence of events, if every event was possible. */
  function Run(env: Env, s: State, events: seq<Event>): Option<State> {
    if events == [] then Some(s)
    else
      match Run(env, s, events[..|events| - 1])
      case None => None
      case Some(t) => Step(env, t, events[|events| - 1])
  }
}
