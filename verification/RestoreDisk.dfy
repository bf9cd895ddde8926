/**
 The databases directory as the restore code sees it: the active database, its
 rollback copy, the staged databases, their SQLite sidecars and the activation
 journal, together with the recovery procedure written as a function of the
 whole directory.
 */
module RestoreDisk {
  import opened Prelude

  /** A fingerprint of the logical content of a database. */
  type Content = nat

  /** File names of one databases directory; every restore attempt has its own staging name. */
  datatype Name = Active | Rollback | Staging(attempt: nat)

  /**
   A database file.  `Db(id, base)` is a well-formed database with identity `id`
   (0 is the first database ever in service, `k > 0` the one staged by attempt `k`)
   whose main file holds `base`.  `Partial` is a half-written or damaged file.
   */
  datatype DbFile = Partial | Db(id: nat, base: Content)

  /** A write-ahead log of database `id`; `pending` is the content once its frames are replayed. */
  datatype Wal = Wal(id: nat, pending: Option<Content>)

  datatype Stage = Prepared | ActiveMoved | StagingActive

  /** The journal always names the same active and rollback files; only the staging name varies. */
  datatype Journal = Journal(stage: Stage, staging: nat)

  datatype Disk = Disk(db: map<Name, DbFile>, wal: map<Name, Wal>, shm: set<Name>, journal: Option<Journal>)

  /** What SQLite reads when it opens file `n`: frames of a foreign log make it unreadable. */
  function Reads(d: Disk, n: Name): Option<Content> {
    if n !in d.db || d.db[n].Partial? then None
    else if n !in d.wal then Some(d.db[n].base)
    else if d.wal[n].id != d.db[n].id then None
    else if d.wal[n].pending.Some? then d.wal[n].pending
    else Some(d.db[n].base)
  }

  predicate Readable(d: Disk, n: Name) {
    Reads(d, n).Some?
  }

  /** `PRAGMA wal_checkpoint(TRUNCATE)`: pending frames move into the main file. */
  function Checkpoint(d: Disk, n: Name): (r: Disk)
    requires Readable(d, n)
  {
    var db := d.db[n := Db(d.db[n].id, Reads(d, n).value)];
    if n in d.wal then d.(db := db, wal := d.wal[n := Wal(d.wal[n].id, None)]) else d
  }

  /** A checkpoint changes what no file reads as; afterwards the log can go without losing anything. */
  lemma CheckpointKeepsContents(d: Disk, n: Name, m: Name)
    requires Readable(d, n)
    ensures Reads(Checkpoint(d, n), m) == Reads(d, m)
    ensures Reads(LeaveWalMode(Checkpoint(d, n), n), m) == Reads(d, m)
  {
  }

  /** `PRAGMA journal_mode = DELETE`: SQLite removes the log and its index. */
  function LeaveWalMode(d: Disk, n: Name): Disk {
    d.(wal := d.wal - {n}, shm := d.shm - {n})
  }

  /** A forced unlink; unlinking a missing file does nothing. */
  datatype Unlink = UnlinkDb(n: Name) | UnlinkWal(n: Name) | UnlinkShm(n: Name) | UnlinkJournal

  function Remove(d: Disk, op: Unlink): Disk {
    match op
    case UnlinkDb(n) => d.(db := d.db - {n})
    case UnlinkWal(n) => d.(wal := d.wal - {n})
    case UnlinkShm(n) => d.(shm := d.shm - {n})
    case UnlinkJournal => d.(journal := None)
  }

  /** The directory once every unlink of `ops` has happened, in whatever order. */
  function Settle(d: Disk, ops: set<Unlink>): Disk {
    Disk(
      map n | n in d.db && UnlinkDb(n) !in ops :: d.db[n],
      map n | n in d.wal && UnlinkWal(n) !in ops :: d.wal[n],
      set n | n in d.shm && UnlinkShm(n) !in ops,
      if UnlinkJournal in ops then None else d.journal)
  }

  lemma SettleNothing(d: Disk)
    ensures Settle(d, {}) == d
  {
    assert Settle(d, {}).db == d.db;
    assert Settle(d, {}).wal == d.wal;
    assert Settle(d, {}).shm == d.shm;
  }

  /** Unlinks commute: doing one of them first leaves the settled directory as it was. */
  lemma SettleStep(d: Disk, ops: set<Unlink>, op: Unlink)
    requires op in ops
    ensures Settle(Remove(d, op), ops - {op}) == Settle(d, ops)
  {
    var e := Settle(Remove(d, op), ops - {op});
    var f := Settle(d, ops);
    assert e.db == f.db;
    assert e.wal == f.wal;
    assert e.shm == f.shm;
    assert e.journal == f.journal;
  }

  lemma SettleTwice(d: Disk, ops: set<Unlink>, more: set<Unlink>)
    ensures Settle(Settle(d, ops), more) == Settle(d, ops + more)
  {
    var e := Settle(Settle(d, ops), more);
    var f := Settle(d, ops + more);
    assert e.db == f.db;
    assert e.wal == f.wal;
    assert e.shm == f.shm;
  }

  lemma SettleOne(d: Disk, op: Unlink)
    ensures Settle(d, {op}) == Remove(d, op)
  {
    SettleStep(d, {op}, op);
    SettleNothing(Remove(d, op));
  }

  function Sidecars(n: Name): set<Unlink> {
    {UnlinkWal(n), UnlinkShm(n)}
  }

  /** A rename replaces the target file and leaves sidecars where they are. */
  function Rename(d: Disk, from: Name, to: Name): Disk
    requires from in d.db
  {
    d.(db := (d.db - {from})[to := d.db[from]])
  }

  /** Every file the journal names, with its sidecars, except the active database; and the journal. */
  function Leftovers(j: Journal): set<Unlink> {
    {UnlinkDb(Staging(j.staging)), UnlinkDb(Rollback), UnlinkJournal}
    + Sidecars(Active) + Sidecars(Staging(j.staging)) + Sidecars(Rollback)
  }

  /** What is left to remove once `src` has become the active database. */
  function OtherLeftovers(j: Journal, src: Name): set<Unlink> {
    var other := if src == Rollback then Staging(j.staging) else Rollback;
    {UnlinkDb(other), UnlinkJournal} + Sidecars(other)
  }

  datatype Action = KeptActive | CompletedActivation | RestoredRollback

  datatype Recovery =
    | NothingToRecover
    | Recovered(action: Action, disk: Disk)
    | NoValidDatabase

  /** The file recovery makes active, if any: the active file wins, then staging, then rollback. */
  function Chosen(d: Disk, j: Journal): Option<Name> {
    if Readable(d, Active) then Some(Active)
    else if j.stage == ActiveMoved && Readable(d, Staging(j.staging)) then Some(Staging(j.staging))
    else if Readable(d, Rollback) then Some(Rollback)
    else None
  }

  /** The directory after `src` was made active and everything else the journal names was removed. */
  function Promoted(d: Disk, j: Journal, src: Name): Disk
    requires Readable(d, src) && src != Active
  {
    var d1 := LeaveWalMode(Checkpoint(d, src), src);
    var d2 := Settle(Remove(d1, UnlinkDb(Active)), Sidecars(Active) + Sidecars(src));
    Settle(Rename(d2, src, Active), OtherLeftovers(j, src))
  }

  /** The outcome of an uninterrupted recovery, for any directory whatever state its files are in. */
  function Recover(d: Disk): Recovery {
    match d.journal
    case None => NothingToRecover
    case Some(j) =>
      match Chosen(d, j)
      case None => NoValidDatabase
      case Some(src) =>
        if src == Active then
          Recovered(if j.stage == Prepared then KeptActive else CompletedActivation,
                    Settle(LeaveWalMode(Checkpoint(d, src), src), Leftovers(j)))
        else
          Recovered(if src == Rollback then RestoredRollback else CompletedActivation, Promoted(d, j, src))
  }

  /** Only the active database is left among the names of journal `j`. */
  ghost predicate OnlyActiveLeft(d: Disk, j: Journal) {
    && d.journal.None?
    && Active in d.db && Active !in d.wal && Active !in d.shm
    && (forall n :: n in {Rollback, Staging(j.staging)} ==> n !in d.db && n !in d.wal && n !in d.shm)
  }

  /** Recovery does not touch file `n`. */
  ghost predicate SameFile(d: Disk, e: Disk, n: Name) {
    && (n in d.db <==> n in e.db) && (n in d.db ==> d.db[n] == e.db[n])
    && (n in d.wal <==> n in e.wal) && (n in d.wal ==> d.wal[n] == e.wal[n])
    && (n in d.shm <==> n in e.shm)
  }

  lemma KeepCleansUp(d: Disk, j: Journal, e: Disk)
    requires Readable(d, Active)
    requires e == Settle(LeaveWalMode(Checkpoint(d, Active), Active), Leftovers(j))
    ensures OnlyActiveLeft(e, j)
    ensures Reads(e, Active) == Reads(d, Active)
    ensures forall n :: n !in {Active, Rollback, Staging(j.staging)} ==> SameFile(d, e, n)
  {
    var d1 := LeaveWalMode(Checkpoint(d, Active), Active);
    assert d1.db[Active].base == Reads(d, Active).value;
    assert forall n :: n != Active ==> SameFile(d, d1, n);
  }

  lemma PromoteCleansUp(d: Disk, j: Journal, src: Name)
    requires src in {Rollback, Staging(j.staging)} && Readable(d, src)
    ensures OnlyActiveLeft(Promoted(d, j, src), j)
    ensures Reads(Promoted(d, j, src), Active) == Reads(d, src)
  {
    var d1 := LeaveWalMode(Checkpoint(d, src), src);
    assert d1.db[src].base == Reads(d, src).value;
    var d2 := Settle(Remove(d1, UnlinkDb(Active)), Sidecars(Active) + Sidecars(src));
    assert d2.db[src] == d1.db[src];
    var d3 := Rename(d2, src, Active);
    assert d3.db[Active] == d1.db[src] && src !in d3.db;
  }

  lemma PromoteLeavesOthers(d: Disk, j: Journal, src: Name, n: Name)
    requires src in {Rollback, Staging(j.staging)} && Readable(d, src)
    requires n !in {Active, Rollback, Staging(j.staging)}
    ensures SameFile(d, Promoted(d, j, src), n)
  {
    var d1 := LeaveWalMode(Checkpoint(d, src), src);
    assert SameFile(d, d1, n);
    var d2 := Settle(Remove(d1, UnlinkDb(Active)), Sidecars(Active) + Sidecars(src));
    assert SameFile(d1, d2, n);
    assert SameFile(d2, Rename(d2, src, Active), n);
  }

  /**
   An uninterrupted recovery leaves only the active file among the journal's names, and
   that file holds exactly what SQLite read from the chosen file before; files of other
   names are untouched and a second recovery has nothing to do.
   */
  lemma RecoverCleansUp(d: Disk)
    requires Recover(d).Recovered?
    ensures d.journal.Some? && OnlyActiveLeft(Recover(d).disk, d.journal.value)
    ensures Chosen(d, d.journal.value).Some?
    ensures Reads(Recover(d).disk, Active) == Reads(d, Chosen(d, d.journal.value).value)
    ensures Recover(Recover(d).disk) == NothingToRecover
    ensures forall n :: n !in {Active, Rollback, Staging(d.journal.value.staging)} ==>
              SameFile(d, Recover(d).disk, n)
  {
    var j := d.journal.value;
    var src := Chosen(d, j).value;
    if src == Active {
      KeepCleansUp(d, j, Recover(d).disk);
    } else {
      PromoteCleansUp(d, j, src);
      forall n | n !in {Active, Rollback, Staging(j.staging)} ensures SameFile(d, Recover(d).disk, n) {
        PromoteLeavesOthers(d, j, src, n);
      }
    }
  }

  /** Recovery fails exactly when none of the files it may use can be read. */
  lemma RecoverFailsExactlyWhen(d: Disk)
    requires d.journal.Some?
    ensures Recover(d) == NoValidDatabase <==>
            && !Readable(d, Active) && !Readable(d, Rollback)
            && (d.journal.value.stage == ActiveMoved ==> !Readable(d, Staging(d.journal.value.staging)))
  {
  }

  /** The action that recovery reports, by what it found: each report has its own situation and no other. */
  lemma ReportedActions(d: Disk)
    requires Recover(d).Recovered?
    ensures d.journal.Some?
    ensures var j, action := d.journal.value, Recover(d).action;
      var staged := j.stage == ActiveMoved && Readable(d, Staging(j.staging));
      && (action == KeptActive <==> Readable(d, Active) && j.stage == Prepared)
      && (action == RestoredRollback <==> !Readable(d, Active) && !staged && Readable(d, Rollback))
      && (action == CompletedActivation <==>
            (Readable(d, Active) && j.stage != Prepared) || (!Readable(d, Active) && staged))
  {
  }
}
