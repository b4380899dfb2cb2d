/**
  The tables of the protocol database as one value, and what each statement issued against them does.
  A whole-database image is a value of type `Tables`.
 */
module ProtocolState {
  import opened Prelude
  import opened Crypto
  import NonceCache

  datatype GuardianStatus = Active | PendingReAttestation | Inactive
  datatype Provisioner = Agent | External
  datatype Guardian = Guardian(
    id: string, address: string, tee: string, rtmr3: string,
    admittedAt: int, lastAttestedAt: int, lastSeenAt: int,
    status: GuardianStatus, provisionedBy: Provisioner, vmId: Option<string>)

  datatype BackupStatus = Standby | Retired
  datatype Backup = Backup(
    id: string, address: string, tee: string, rtmr3: string,
    registeredAt: int, streak: int, lastHeartbeatAt: int, status: BackupStatus)

  datatype PeerKeys = PeerKeys(ed25519: PublicKey, x25519: Option<PublicKey>)

  /** The keys of the config table, which the program only ever names by constants. */
  datatype ConfigKey =
    | AgentRtmr3                   // 'agent_rtmr3'
    | GuardianRtmr3                // 'guardian_rtmr3'
    | BackupRtmr3                  // 'backup_rtmr3'
    | SnapshotSequenceNum          // 'snapshot_sequence_num'
    | GuardianDeficitSince         // 'guardian_deficit_since'
    | GuardianProvisioningPending  // 'guardian_provisioning_pending'
    | GuardianCompose              // 'guardian_compose'
    | BackupDeficitSince           // 'backup_deficit_since'
    | BackupProvisioningPending    // 'backup_provisioning_pending'
    | AgentCompose                 // 'agent_compose'
    | AgentBackupVmId              // 'agent_backup_vm_id'
    | OtherKey(name: string)

  datatype EventKind =
    | Admission | HeartbeatReset | SuccessionInitiated | SuccessionComplete
    | GuardianProvisioned | GuardianDeprovisioned | VaultKeyRotated
  datatype Event = Event(kind: EventKind, detail: Option<string>)

  datatype Tables = Tables(
    config: map<ConfigKey, string>,
    guardians: map<string, Guardian>,
    backups: map<string, Backup>,
    nonces: NonceCache.Table,
    peers: map<string, PeerKeys>,
    events: seq<Event>)

  const EMPTY := Tables(map[], map[], map[], map[], map[], [])

  /** What the rest of the program does to the database while one piece of it waits at an `await`. */
  type Others = Tables -> Tables

  /** Primary keys and UNIQUE(tee_instance_id), which the schema enforces on both node tables. */
  ghost predicate Keyed(t: Tables) {
    && (forall id <- t.guardians :: t.guardians[id].id == id)
    && (forall id <- t.backups :: t.backups[id].id == id)
    && (forall a <- t.guardians, b <- t.guardians :: t.guardians[a].tee == t.guardians[b].tee ==> a == b)
    && (forall a <- t.backups, b <- t.backups :: t.backups[a].tee == t.backups[b].tee ==> a == b)
  }

  function GetConfig(t: Tables, key: ConfigKey): Option<string> {
    if key in t.config then Some(t.config[key]) else None
  }

  function SetConfig(t: Tables, key: ConfigKey, value: string): Tables {
    t.(config := t.config[key := value])
  }

  function LogEvent(t: Tables, kind: EventKind, detail: Option<string>): Tables {
    t.(events := t.events + [Event(kind, detail)])
  }

  predicate GuardianClash(t: Tables, r: Guardian) {
    exists id <- t.guardians :: id != r.id && t.guardians[id].tee == r.tee
  }

  predicate BackupClash(t: Tables, r: Backup) {
    exists id <- t.backups :: id != r.id && t.backups[id].tee == r.tee
  }

  /** INSERT … ON CONFLICT(id) DO UPDATE: `admitted_at` survives; a second row with the same TEE id makes it throw. */
  function UpsertGuardian(t: Tables, r: Guardian): Option<Tables> {
    if GuardianClash(t, r) then None
    else
      var row := if r.id in t.guardians then r.(admittedAt := t.guardians[r.id].admittedAt) else r;
      Some(t.(guardians := t.guardians[r.id := row]))
  }

  /** As above; `registered_at` survives. */
  function UpsertBackup(t: Tables, r: Backup): Option<Tables> {
    if BackupClash(t, r) then None
    else
      var row := if r.id in t.backups then r.(registeredAt := t.backups[r.id].registeredAt) else r;
      Some(t.(backups := t.backups[r.id := row]))
  }

  function SetStreak(t: Tables, id: string, streak: int, now: int): Tables
    requires id in t.backups
  {
    t.(backups := t.backups[id := t.backups[id].(streak := streak, lastHeartbeatAt := now)])
  }

  function IncrementStreak(t: Tables, id: string, now: int): Tables {
    if id in t.backups then SetStreak(t, id, t.backups[id].streak + 1, now) else t
  }

  function ResetStreak(t: Tables, id: string, now: int): Tables {
    if id in t.backups then SetStreak(t, id, 0, now) else t
  }

  function SetPeerKeys(t: Tables, tee: string, keys: PeerKeys): Tables {
    t.(peers := t.peers[tee := keys])
  }

  /** A SELECT returns the matching rows once each, in no promised order. */
  ghost predicate GuardianListing(rows: seq<Guardian>, t: Tables, status: Option<GuardianStatus>) {
    && (forall i, j :: 0 <= i < j < |rows| ==> rows[i].id != rows[j].id)
    && (forall r :: r in rows <==> r.id in t.guardians && t.guardians[r.id] == r && (status.Some? ==> r.status == status.value))
  }

  ghost predicate BackupListing(rows: seq<Backup>, t: Tables, status: Option<BackupStatus>) {
    && (forall i, j :: 0 <= i < j < |rows| ==> rows[i].id != rows[j].id)
    && (forall r :: r in rows <==> r.id in t.backups && t.backups[r.id] == r && (status.Some? ==> r.status == status.value))
  }

  /** Every write to the node tables keeps their primary keys and UNIQUE columns. */
  lemma GuardianUpsertKeepsKeys(t: Tables, g: Guardian)
    requires Keyed(t)
    ensures UpsertGuardian(t, g).Some? ==> Keyed(UpsertGuardian(t, g).value)
  {
  }

  lemma BackupUpsertKeepsKeys(t: Tables, b: Backup)
    requires Keyed(t)
    ensures UpsertBackup(t, b).Some? ==> Keyed(UpsertBackup(t, b).value)
  {
  }

  lemma StreakKeepsKeys(t: Tables, id: string, n: int, now: int)
    requires Keyed(t) && id in t.backups
    ensures Keyed(SetStreak(t, id, n, now))
  {
    var after := SetStreak(t, id, n, now);
    assert forall k <- after.backups :: after.backups[k].tee == t.backups[k].tee;
  }
}
