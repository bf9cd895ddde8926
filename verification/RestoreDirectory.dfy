/** The restore code as it runs, statement by statement, on a directory object. */
module RestoreDirectory {
  import opened Prelude
  import opened RestoreDisk

  class Directory {
    var db: map<Name, DbFile>
    var wal: map<Name, Wal>
    var shm: set<Name>
    var journal: Option<Journal>

    /** The directory's contents as a value. */
    function Image(): Disk
      reads this
    {
      Disk(db, wal, shm, journal)
    }

    constructor (d: Disk)
      ensures Image() == d
    {
      db, wal, shm, journal := d.db, d.wal, d.shm, d.journal;
    }

    method RemoveDb(n: Name)
      modifies this
      ensures Image() == Settle(old(Image()), {UnlinkDb(n)}) == Remove(old(Image()), UnlinkDb(n))
    {
      db := db - {n};
      SettleOne(old(Image()), UnlinkDb(n));
    }

    method RemoveSidecars(n: Name)
      modifies this
      ensures Image() == Settle(old(Image()), Sidecars(n))
    {
      wal := wal - {n};
      shm := shm - {n};
      assert Settle(old(Image()), Sidecars(n)).db == db;
      assert Settle(old(Image()), Sidecars(n)).wal == wal;
      assert Settle(old(Image()), Sidecars(n)).shm == shm;
    }

    method WriteJournal(stage: Stage, staging: nat)
      modifies this
      ensures Image() == old(Image()).(journal := Some(Journal(stage, staging)))
    {
      journal := Some(Journal(stage, staging));
    }

    method RemoveJournal()
      modifies this
      ensures Image() == Settle(old(Image()), {UnlinkJournal})
    {
      journal := None;
      SettleOne(old(Image()), UnlinkJournal);
    }

    method RenameDb(from: Name, to: Name)
      requires from in db
      modifies this
      ensures Image() == Rename(old(Image()), from, to)
    {
      db := (db - {from})[to := db[from]];
    }

    /** Opens the file; when it is sound, folds its log into it and leaves WAL mode. */
    method ValidCoreDatabase(n: Name) returns (valid: bool)
      modifies this
      ensures valid == Readable(old(Image()), n)
      ensures Image() == if valid then LeaveWalMode(Checkpoint(old(Image()), n), n) else old(Image())
    {
      var content := Reads(Image(), n);
      valid := content.Some?;
      if valid {
        if n in wal {
          db := db[n := Db(db[n].id, content.value)];
        }
        wal := wal - {n};
        shm := shm - {n};
        assert wal == LeaveWalMode(Checkpoint(old(Image()), n), n).wal;
      }
    }

    /** `None` means there was no journal; `Some(None)` that the procedure throws. */
    method RecoverInterruptedRestore() returns (r: Option<Option<Action>>)
      modifies this
      ensures match Recover(old(Image()))
              case NothingToRecover => r == None && Image() == old(Image())
              case NoValidDatabase => r == Some(None) && Image() == old(Image())
              case Recovered(action, d) => r == Some(Some(action)) && Image() == d
    {
      if journal.None? {
        return None;
      }
      var j := journal.value;
      var staging := Staging(j.staging);
      ghost var d := Image();
      var activeExists, stagingExists, rollbackExists := Active in db, staging in db, Rollback in db;
      var valid := false;
      if activeExists {
        valid := ValidCoreDatabase(Active);
      }
      if valid {
        KeepActive(j);
        return Some(Some(if j.stage == Prepared then KeptActive else CompletedActivation));
      }
      if j.stage == ActiveMoved && stagingExists {
        valid := ValidCoreDatabase(staging);
      }
      if valid {
        Promote(j, staging);
        return Some(Some(CompletedActivation));
      }
      if rollbackExists {
        valid := ValidCoreDatabase(Rollback);
      }
      if valid {
        Promote(j, Rollback);
        return Some(Some(RestoredRollback));
      }
      return Some(None);
    }

    method KeepActive(j: Journal)
      modifies this
      ensures Image() == Settle(old(Image()), Leftovers(j))
    {
      ghost var d := Image();
      ghost var staging := Staging(j.staging);
      RemoveDb(Staging(j.staging));
      RemoveDb(Rollback);
      SettleTwice(d, {UnlinkDb(staging)}, {UnlinkDb(Rollback)});
      RemoveSidecars(Active);
      SettleTwice(d, {UnlinkDb(staging)} + {UnlinkDb(Rollback)}, Sidecars(Active));
      RemoveSidecars(Staging(j.staging));
      SettleTwice(d, {UnlinkDb(staging)} + {UnlinkDb(Rollback)} + Sidecars(Active), Sidecars(staging));
      RemoveSidecars(Rollback);
      ghost var ops := {UnlinkDb(staging)} + {UnlinkDb(Rollback)} + Sidecars(Active) + Sidecars(staging);
      SettleTwice(d, ops, Sidecars(Rollback));
      RemoveJournal();
      SettleTwice(d, ops + Sidecars(Rollback), {UnlinkJournal});
      assert ops + Sidecars(Rollback) + {UnlinkJournal} == Leftovers(j);
    }

    method Promote(j: Journal, src: Name)
      requires src in db && src != Active
      modifies this
      ensures
        var d2 := Settle(Remove(old(Image()), UnlinkDb(Active)), Sidecars(Active) + Sidecars(src));
        src in d2.db && Image() == Settle(Rename(d2, src, Active), OtherLeftovers(j, src))
    {
      RemoveDb(Active);
      ghost var d1 := Image();
      RemoveSidecars(Active);
      RemoveSidecars(src);
      SettleTwice(d1, Sidecars(Active), Sidecars(src));
      RenameDb(src, Active);
      ghost var d3 := Image();
      var other := if src == Rollback then Staging(j.staging) else Rollback;
      RemoveDb(other);
      RemoveSidecars(other);
      SettleTwice(d3, {UnlinkDb(other)}, Sidecars(other));
      RemoveJournal();
      SettleTwice(d3, {UnlinkDb(other)} + Sidecars(other), {UnlinkJournal});
      assert {UnlinkDb(other)} + Sidecars(other) + {UnlinkJournal} == OtherLeftovers(j, src);
    }

    /**
     The activation of a sealed staged database when nothing fails: the staged database is active,
     everything else the journal named is gone.
     */
    method Activate(k: nat)
      requires Readable(Image(), Active) && Readable(Image(), Staging(k)) && Staging(k) !in wal
      modifies this
      ensures OnlyActiveLeft(Image(), Journal(StagingActive, k))
      ensures db[Active] == old(db[Staging(k)])
      ensures Reads(Image(), Active) == old(Reads(Image(), Staging(k)))
    {
      WriteJournal(Prepared, k);
      var folded := ValidCoreDatabase(Active);
      RemoveSidecars(Active);
      RemoveSidecars(Staging(k));
      RemoveSidecars(Rollback);
      assert db[Staging(k)] == old(db[Staging(k)]);
      RenameDb(Active, Rollback);
      WriteJournal(ActiveMoved, k);
      RenameDb(Staging(k), Active);
      WriteJournal(StagingActive, k);
      RemoveDb(Rollback);
      RemoveJournal();
    }
  }
}
