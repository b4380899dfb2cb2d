/** The database handle: one mutable image of the tables, and the statements issued against it. */
module ProtocolDatabase {
  import opened Prelude
  import opened Crypto
  import S = ProtocolState
  import N = NonceCache

  class Database {
    var tables: S.Tables

    constructor (image: S.Tables)
      ensures tables == image
    {
      tables := image;
    }

    /** The caller waits; whoever else holds the handle may write to it. */
    method Await(others: S.Others)
      modifies this
      ensures tables == others(old(tables))
    {
      tables := others(tables);
    }

    method UpsertGuardian(record: S.Guardian) returns (outcome: Outcome)
      modifies this
      ensures outcome.Threw? <==> S.GuardianClash(old(tables), record)
      ensures tables == if outcome.Threw? then old(tables) else S.UpsertGuardian(old(tables), record).value
    {
      var written := S.UpsertGuardian(tables, record);
      if written == None { return Threw; }
      tables := written.value;
      outcome := Returned;
    }

    method UpsertBackup(record: S.Backup) returns (outcome: Outcome)
      modifies this
      ensures outcome.Threw? <==> S.BackupClash(old(tables), record)
      ensures tables == if outcome.Threw? then old(tables) else S.UpsertBackup(old(tables), record).value
    {
      var written := S.UpsertBackup(tables, record);
      if written == None { return Threw; }
      tables := written.value;
      outcome := Returned;
    }

    method ListGuardians(status: Option<S.GuardianStatus>) returns (rows: seq<S.Guardian>)
      requires S.Keyed(tables)
      ensures S.GuardianListing(rows, tables, status)
    {
      rows := [];
      var left := tables.guardians.Keys;
      while left != {}
        invariant left <= tables.guardians.Keys
        invariant forall i, j :: 0 <= i < j < |rows| ==> rows[i].id != rows[j].id
        invariant forall r :: r in rows <==>
          r.id in tables.guardians && r.id !in left && tables.guardians[r.id] == r && (status.Some? ==> r.status == status.value)
        decreases left
      {
        var id :| id in left;
        var row := tables.guardians[id];
        if status == None || row.status == status.value {
          rows := rows + [row];
        }
        left := left - {id};
      }
    }

    method ListBackups(status: Option<S.BackupStatus>) returns (rows: seq<S.Backup>)
      requires S.Keyed(tables)
      ensures S.BackupListing(rows, tables, status)
    {
      rows := [];
      var left := tables.backups.Keys;
      while left != {}
        invariant left <= tables.backups.Keys
        invariant forall i, j :: 0 <= i < j < |rows| ==> rows[i].id != rows[j].id
        invariant forall r :: r in rows <==>
          r.id in tables.backups && r.id !in left && tables.backups[r.id] == r && (status.Some? ==> r.status == status.value)
        decreases left
      {
        var id :| id in left;
        var row := tables.backups[id];
        if status == None || row.status == status.value {
          rows := rows + [row];
        }
        left := left - {id};
      }
    }

    method IncrementStreak(id: string, now: int)
      modifies this
      ensures tables == S.IncrementStreak(old(tables), id, now)
    {
      if id in tables.backups {
        var row := tables.backups[id];
        tables := tables.(backups := tables.backups[id := row.(streak := row.streak + 1, lastHeartbeatAt := now)]);
      }
    }

    method ResetStreak(id: string, now: int)
      modifies this
      ensures tables == S.ResetStreak(old(tables), id, now)
    {
      if id in tables.backups {
        var row := tables.backups[id];
        tables := tables.(backups := tables.backups[id := row.(streak := 0, lastHeartbeatAt := now)]);
      }
    }

    method SetConfig(key: S.ConfigKey, value: string)
      modifies this
      ensures tables == S.SetConfig(old(tables), key, value)
    {
      tables := tables.(config := tables.config[key := value]);
    }

    method SetPeerKeys(tee: string, keys: S.PeerKeys)
      modifies this
      ensures tables == S.SetPeerKeys(old(tables), tee, keys)
    {
      tables := tables.(peers := tables.peers[tee := keys]);
    }

    method LogEvent(kind: S.EventKind, detail: Option<string>)
      modifies this
      ensures tables == S.LogEvent(old(tables), kind, detail)
    {
      tables := tables.(events := tables.events + [S.Event(kind, detail)]);
    }

    /**
      Only the cache changes, by one `Checked` step; eviction deletes one oldest row at a time, but for the NULL
      ones. `rowid` is the one that SQLite gives the row.
     */
    method CheckAndStoreNonce(nonce: Option<string>, now: int, rowid: nat) returns (unseen: bool)
      requires N.Null(rowid) !in tables.nonces
      modifies this
      ensures N.Checked(old(tables.nonces), nonce, now, tables.nonces, unseen)
      ensures tables == old(tables).(nonces := tables.nonces)
    {
      if nonce.Some? && N.Nonce(nonce.value) in tables.nonces { return false; }
      var row := if nonce.Some? then N.Nonce(nonce.value) else N.Null(rowid);
      var grown := tables.nonces[row := now];
      var after := grown;
      if |grown| > N.CAPACITY {
        var left := grown;
        while |left| > N.KEEP
          invariant tables == old(tables)
          invariant N.KEEP <= |left| && N.DropsOldest(grown, left)
          decreases |left|
        {
          ghost var oldest := N.Oldest(left);
          var victim :| victim in left && forall n <- left :: left[victim] <= left[n];
          N.DropOneMore(grown, left, victim);
          left := left - {victim};
        }
        after := left + N.Nulls(grown);
        assert N.Evicts(grown, left, after);
      }
      assert N.IsRowFor(row, nonce, tables.nonces) && N.Settles(tables.nonces[row := now], after);
      tables := tables.(nonces := after);
      unseen := true;
    }

    /** `close`, overwrite the file, `reinitialize`: the handle now shows the given image. */
    method Replace(image: S.Tables)
      modifies this
      ensures tables == image
    {
      tables := image;
    }
  }
}
