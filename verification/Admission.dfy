/**
  Admission of guardians and backups. A request runs in stretches of code between awaits; each stretch is a
  method of the service, proved against a function (or, where eviction may break ties, a relation) of the
  database and the request.
 */
module Admission {
  import opened Prelude
  import opened Crypto
  import opened ProtocolState
  import N = NonceCache
  import Snap = Snapshots
  import DB = ProtocolDatabase

  const GUARDIAN_LOCK := GuardianRtmr3
  const BACKUP_LOCK := BackupRtmr3

  datatype Role = AsGuardian | AsBackup

  datatype Request = Request(
    role: Role, address: string, tee: string, rtmr3: Option<string>, domain: Option<string>,
    x25519: PublicKey, ed25519: PublicKey, signed: bool, nonce: Option<string>, timestamp: N.Stamp)

  datatype Reason = Replay | StaleTimestamp | InvalidSignature | MissingDomain | AttestationInvalid | AttestationFailed | Rtmr3Mismatch

  /** What the attestation provider answers to one of its two calls. */
  datatype Verdict = Failed | Invalid | Valid(rtmr3: string)

  datatype Grant = Grant(primaryKey: PublicKey, vaultKey: Option<Sealed<seq<byte>>>, snapshot: Option<Snap.Snapshot>)

  /** Where a request stands: at one of its awaits, or finished. */
  datatype Phase =
    | AwaitingQuote
    | AwaitingVerdict
    | AwaitingSession(rtmr3: string)
    | AwaitingSignature(primaryKey: PublicKey, vaultKey: Sealed<seq<byte>>, draft: Snap.Snapshot)
    | Rejected(reason: Reason)
    | Crashed
    | Accepted(grant: Grant)

  datatype Policy = Policy(devMode: bool, hasProvider: bool, approvedGuardians: seq<string>)

  /** The RTMR3 gate: the config it leaves behind when it lets the measurement through. */
  function Gate(config: map<ConfigKey, string>, policy: Policy, role: Role, rtmr3: string): Option<map<ConfigKey, string>> {
    var key := if role == AsGuardian then GUARDIAN_LOCK else BACKUP_LOCK;
    var locked := if key in config then Some(config[key]) else None;
    if role == AsGuardian && policy.approvedGuardians != [] then
      if rtmr3 in policy.approvedGuardians || (Truthy(locked) && locked.value == rtmr3) then Some(config) else None
    else if !Truthy(locked) then Some(config[key := rtmr3])
    else if locked.value == rtmr3 then Some(config)
    else None
  }

  function AtGate(t: Tables, policy: Policy, req: Request, rtmr3: string): (Tables, Phase) {
    match Gate(t.config, policy, req.role, rtmr3)
    case None => (t, Rejected(Rtmr3Mismatch))
    case Some(config) => (t.(config := config), AwaitingSession(rtmr3))
  }

  /** Steps 1 to 4, up to the first await; `t` already holds the nonce. */
  function Screened(t: Tables, policy: Policy, req: Request, unseen: bool, now: int): (Tables, Phase) {
    if !unseen then (t, Rejected(Replay))
    else if !N.Fresh(req.timestamp, now) then (t, Rejected(StaleTimestamp))
    else if !req.signed then (t, Rejected(InvalidSignature))
    else if policy.devMode || !policy.hasProvider then
      AtGate(t, policy, req, if req.rtmr3.Some? then req.rtmr3.value else "dev-measurement")
    else if !Truthy(req.domain) then (t, Rejected(MissingDomain))
    else (t, AwaitingQuote)
  }

  function GuardianRow(req: Request, rtmr3: string, now: int): Guardian {
    Guardian(req.tee, req.address, req.tee, rtmr3, now, now, now, Active, External, None)
  }

  function BackupRow(req: Request, rtmr3: string, now: int): Backup {
    Backup(req.tee, req.address, req.tee, rtmr3, now, 0, now, Standby)
  }

  /** Step 6, the writes: `None` when the upsert hits the UNIQUE column of another row and throws. */
  function Registered(t: Tables, req: Request, rtmr3: string, now: int): Option<Tables> {
    var row := if req.role == AsGuardian then UpsertGuardian(t, GuardianRow(req, rtmr3, now))
               else UpsertBackup(t, BackupRow(req, rtmr3, now));
    match row
    case None => None
    case Some(t1) =>
      Some(LogEvent(SetPeerKeys(t1, req.tee, PeerKeys(req.ed25519, Some(req.x25519))), Admission,
                    Some((if req.role == AsGuardian then "guardian:" else "backup:") + req.tee)))
  }

  /** Steps 5 to 7, once the session (or its failure) is in, up to the answer or to the snapshot's signature. */
  function Admitted(t: Tables, req: Request, rtmr3: string, session: Option<nat>, vaultKey: seq<byte>, tee: string,
                    now: int, draw: Snap.Draw): (Tables, Phase) {
    if session == None || Agree(session.value, req.x25519) == None then (t, Crashed)
    else match Registered(t, req, rtmr3, now)
      case None => (t, Crashed)
      case Some(t1) =>
        if req.role == AsBackup then (t1, Accepted(Grant(Point(session.value), None, None)))
        else match Snap.Drafted(t1, Raw(vaultKey), tee, draw)
          case None => (t1, Crashed)
          case Some(draft) =>
            (Snap.AfterCreate(t1, Raw(vaultKey)),
             AwaitingSignature(Point(session.value), Sealed(Agree(session.value, req.x25519).value, vaultKey), draft))
  }

  /** The answer to a guardian, once the snapshot's signature (or its failure) is in. */
  function Answered(p: Phase, signature: Option<Snap.Signature>): Phase
    requires p.AwaitingSignature?
  {
    if signature == None then Crashed
    else Accepted(Grant(p.primaryKey, Some(p.vaultKey), Some(p.draft.(signature := signature.value))))
  }

  class AdmissionService {
    const db: DB.Database
    const policy: Policy
    const vaultKey: array<byte>
    const snapshots: Snap.SnapshotManager

    constructor (db: DB.Database, policy: Policy, vaultKey: array<byte>, snapshots: Snap.SnapshotManager)
      ensures this.db == db && this.policy == policy && this.vaultKey == vaultKey && this.snapshots == snapshots
    {
      this.db, this.policy, this.vaultKey, this.snapshots := db, policy, vaultKey, snapshots;
    }

    /** From the start of the request to its first await or early return. */
    method Begin(req: Request, now: int, rowid: nat) returns (phase: Phase)
      requires N.Null(rowid) !in db.tables.nonces
      modifies db
      ensures exists nonces, unseen ::
                && N.Checked(old(db.tables.nonces), req.nonce, now, nonces, unseen)
                && (db.tables, phase) == Screened(old(db.tables).(nonces := nonces), policy, req, unseen, now)
    {
      var unseen := db.CheckAndStoreNonce(req.nonce, now, rowid);
      ghost var stored := db.tables;
      assert stored == old(db.tables).(nonces := stored.nonces);
      if !unseen { return Rejected(Replay); }
      if !N.Fresh(req.timestamp, now) { return Rejected(StaleTimestamp); }
      if !req.signed { return Rejected(InvalidSignature); }
      if policy.devMode || !policy.hasProvider {
        phase := CheckRtmr3(req, if req.rtmr3.Some? then req.rtmr3.value else "dev-measurement");
        assert (db.tables, phase) == Screened(stored, policy, req, unseen, now);
      } else if !Truthy(req.domain) {
        return Rejected(MissingDomain);
      } else {
        return AwaitingQuote;
      }
    }

    /** After `verifyQuote`: the verdict, then the gate. */
    method Verified(req: Request, verdict: Verdict) returns (phase: Phase)
      modifies db
      ensures (db.tables, phase) ==
              match verdict
              case Failed => (old(db.tables), Rejected(AttestationFailed))
              case Invalid => (old(db.tables), Rejected(AttestationInvalid))
              case Valid(rtmr3) => AtGate(old(db.tables), policy, req, rtmr3)
    {
      match verdict
      case Failed => phase := Rejected(AttestationFailed);
      case Invalid => phase := Rejected(AttestationInvalid);
      case Valid(rtmr3) => phase := CheckRtmr3(req, rtmr3);
    }

    method CheckRtmr3(req: Request, rtmr3: string) returns (phase: Phase)
      modifies db
      ensures (db.tables, phase) == AtGate(old(db.tables), policy, req, rtmr3)
    {
      if req.role == AsGuardian {
        var locked := GetConfig(db.tables, GUARDIAN_LOCK);
        if |policy.approvedGuardians| == 0 {
          if !Truthy(locked) {
            db.SetConfig(GUARDIAN_LOCK, rtmr3);
          } else if locked.value != rtmr3 {
            return Rejected(Rtmr3Mismatch);
          }
        } else {
          var fullList := if Truthy(locked) then policy.approvedGuardians + [locked.value] else policy.approvedGuardians;
          if rtmr3 !in fullList { return Rejected(Rtmr3Mismatch); }
        }
      } else {
        var locked := GetConfig(db.tables, BACKUP_LOCK);
        if !Truthy(locked) {
          db.SetConfig(BACKUP_LOCK, rtmr3);
        } else if locked.value != rtmr3 {
          return Rejected(Rtmr3Mismatch);
        }
      }
      phase := AwaitingSession(rtmr3);
    }

    /** After `KeyExchangeSession.generate`: register the node, and answer it or start on its snapshot. */
    method SessionReady(req: Request, rtmr3: string, session: Option<nat>, now: int, draw: Snap.Draw)
      returns (phase: Phase)
      requires snapshots.db == db && snapshots.vaultKey == vaultKey
      modifies db
      ensures (db.tables, phase) ==
              Admitted(old(db.tables), req, rtmr3, session, vaultKey[..], snapshots.tee, now, draw)
    {
      if session == None { return Crashed; }
      var shared := Agree(session.value, req.x25519);
      if shared == None { return Crashed; }
      var outcome;
      if req.role == AsGuardian {
        outcome := db.UpsertGuardian(GuardianRow(req, rtmr3, now));
      } else {
        outcome := db.UpsertBackup(BackupRow(req, rtmr3, now));
      }
      if outcome.Threw? { return Crashed; }
      db.SetPeerKeys(req.tee, PeerKeys(req.ed25519, Some(req.x25519)));
      db.LogEvent(Admission, Some((if req.role == AsGuardian then "guardian:" else "backup:") + req.tee));
      if req.role == AsBackup { return Accepted(Grant(Point(session.value), None, None)); }
      var wrapped := Sealed(shared.value, vaultKey[..]);
      var draft := snapshots.DraftSnapshot(draw);
      if draft == None { return Crashed; }
      phase := AwaitingSignature(Point(session.value), wrapped, draft.value);
    }

    /** After the signing service. */
    method SignatureReady(waiting: Phase, signature: Option<Snap.Signature>) returns (phase: Phase)
      requires waiting.AwaitingSignature?
      ensures phase == Answered(waiting, signature)
      ensures signature == None <==> phase == Crashed
      ensures signature.Some? ==>
                phase == Accepted(Grant(waiting.primaryKey, Some(waiting.vaultKey),
                                        Some(waiting.draft.(signature := signature.value))))
    {
      if signature == None { return Crashed; }
      var snapshot := waiting.draft.(signature := signature.value);
      phase := Accepted(Grant(waiting.primaryKey, Some(waiting.vaultKey), Some(snapshot)));
    }
  }
}
