# Idiostasis protocol: a verified model

Idiostasis keeps an agent alive across machines. A *primary* runs the agent inside a TEE; *guardians* hold its
vault key and a copy of its protocol database; *backups* stand by. The primary pings everybody. When the pings
stop, each guardian on its own ranks the backups, falls through the ranking until one confirms, hands over key and
database, and the new primary rotates the key. The primary also admits new nodes and keeps enough guardian VMs
running. This project models that protocol and proves what it keeps, step by step and over whole runs.

The code is asynchronous JavaScript over SQLite, so the model is a state machine whose steps are the stretches
of code between two `await`s:

- Each stateful class of the source is a Dafny class whose methods change its fields and are proved against
  functions (or, where the code leaves a choice open, relations) of the old state. The laws are lemmas about
  these functions and about runs of them, in the modules whose names end in `Laws`, in `FleetHistory`,
  `SingleFlight` and `FailureDetector`.
- The database is one value of type `Tables`, with the UNIQUE columns of the schema. `Database` is the handle
  that the program mutates; a SELECT returns its rows in any order.
- In a succession, a rotation and an evaluation of the fleet controller every `await` lets the rest of the program
  write to the database: each turn carries what others write while it waits.
- Clocks, networks, the VM service, the attestation provider, the signing service, the registry and random
  numbers are parameters that may take any value the text of the lemma does not exclude, failures included.
- Cryptography is symbolic. X25519 (section 6.1 of RFC 7748) yields a secret per unordered pair of scalars,
  AES-256-GCM (section 7 of NIST SP 800-38D) opens to what was sealed under the same key or fails, SHA-256 is
  injective, a signature verifies for the key and the text it was made for. What that text is for a snapshot is
  spelled out down to the Base64, and `SignatureLaws` derives what the signature vouches for.

| file | what it holds |
|---|---|
| `Prelude`, `Decimal`, `Crypto` | options and outcomes; `String`/`parseInt`; the symbolic cryptography |
| `ProtocolState`, `ProtocolDatabase`, `NonceCache` | the tables, the mutable handle, the replay cache and its bound |
| `Snapshots` | creating, verifying and applying database snapshots; what a signature vouches for; the counter law |
| `Selector`, `Succession`, `SuccessionLaws` | ranking, the candidate loop and the guardian's handler; convergence and the loop's contract |
| `StandDown`, `SingleFlight`, `LivenessMonitor` | the bounded wait for a new primary, the handler's interleavings, the failure detector |
| `Handover`, `Rotation`, `RotationLaws` | the new primary's side: pairing, receiving, rotating |
| `Admission`, `AdmissionLaws`, `Heartbeat` | admissions and the RTMR3 locks; streak counters |
| `NetworkManager`, `NetworkLaws`, `FleetHistory` | the fleet controller, VM accounting, its timers over runs |
| `JsonText`, `CanonicalJson`, `SignedPayload` | the JSON printer and parser, `stableStringify`, the signed text |

## Where the code differs from what it says

Each of these is kept as the code has it, and the lemma named shows exactly when the stated intention holds.

- Snapshot numbers are meant to increase strictly. They do between applies, but a node that has applied number n
  issues n again, because the image is taken before the counter moves (`SnapshotLaws.FirstNumberAfterApply`;
  `SnapshotLaws.NewerExactly` says for every later snapshot whether it is newer).
- One handover is meant to have one successor. A backup becomes it by being handed the payload, but the loop ends
  only when the confirmation is heard and the completion callback returns. Two backups end up with key and database
  exactly when two are handed the payload for their pending session and no candidate up to the second ends the loop
  (`HandoverLaws.TakeoversExactly`), as when the first one's confirmation is not heard (`HandoverLaws.LostReply`) or the callback
  throws (`SuccessionLaws.TwoSuccessors`; `SuccessionLaws.AcceptancesExactly` counts the confirmations heard).
- Two guardians are each meant to have their handover answered. At one backup the later ready call replaces the
  earlier session, and the earlier guardian's payload does not land (`HandoverLaws.LandsExactly`,
  `HandoverLaws.RacingGuardians`).
- A request is meant to pass within a minute of its timestamp and not twice. A timestamp that converts to no number
  has a drift of NaN, which is not too large: it passes at any time and again once its nonce is evicted
  (`NonceCache.WindowedExactly`), and a ping stamped so postpones the alarm (`FailureDetector.CountsAlwaysExactly`). A
  missing nonce is NULL in the cache, where it conflicts with nothing (`NonceCache.PressedExactly`) and is never
  evicted (`NonceCache.NullsStay`, `NonceCache.NeverOverCapacity`).
- Standing down is meant to wait for a different primary. The registry's address is compared with the guardian's
  TEE id, so the entry of the primary that died counts (`StandDown.StandDownMeansAnotherExactly`).
- The first measurement is meant to lock for good. An empty one is stored but counts as unlocked
  (`AdmissionLaws.GateReplacesLockExactly`, `AdmissionLaws.EmptyMeasurementDoesNotLock`).
- A confirm is meant to report a handover. With no session pending it installs nothing and still answers ok
  (`HandoverLaws.HandoverRoundTrip`); on a node that has a signer it even rotates the node's own vault key and takes
  the primary role (`Handover.BackupAgent.HandleBackupConfirm`).
- After a confirm the node's snapshot manager and admission service are meant to work with its vault key. They hold
  on to arrays, which a rotation zeroes or a replaced key leaves behind; the contract of
  `Handover.BackupAgent.HandleBackupConfirm` says for both exactly when they still do.
- A ping's signature is checked, but the ping counts whatever the check yields
  (`LivenessMonitor.LivenessMonitor.OnPingReceived`).
- A rotation is meant to send consecutive snapshot numbers. There is a gap exactly when, between two shipments, the
  signing service fails or other code makes a snapshot (`RotationLaws.SentNumbersAreConsecutive`).
- `stableStringify` drops members called `__proto__` (`CanonicalJson.EqualTextsExactly`,
  `CanonicalJson.IdentifiesExactly`).
- The text under a snapshot's signature has no separators and can be cut in two ways for some pairs of numbers
  (`SignedPayload.CollidesExactly`, per snapshot `SignedPayload.RecutsExactly`). With the checksum and the length that
  AES-GCM keeps, the signature still vouches for the fields of every snapshot whose ciphertext is Base64 as the
  encoder writes it (`SignatureLaws.OneReadingPerSignature`), and of all snapshots exactly when the decoder never
  ignores digits at the end of a text (`SignatureLaws.VouchesExactly`; for a given snapshot
  `SignatureLaws.RereadableExactly`).
- A VM whose derived TEE id is already registered is created and then recorded nowhere
  (`NetworkLaws.CreationLeaksExactly`). Nothing is pending then, so the next evaluation creates another one
  (`FleetHistory.ClashedCreatesAgain`).
- A deficit of guardians is meant to be made up. When only some of the missing VMs are created, the first one stays
  pending and the rest are never asked for (`FleetHistory.HalfProvisioned`); `FleetHistory.MadeUpExactly` says exactly
  when the target is reached.
- A candidate is meant to be sent the key only if it measures as approved. Whatever the network does this holds
  exactly when the config key `agent_rtmr3` is set to that measurement and is not empty
  (`SuccessionLaws.ApprovalExactly`).

## Model

| member | source | states |
|---|---|---|
| Decimal.ParseReadsBack | packages/core/src/database/snapshot.ts:44-46 | `parseInt` reads back the decimal text that `String` wrote, for every integer |
| Decimal.ParseReadsPrefix | packages/core/src/database/snapshot.ts:44-46 | it does so whatever follows, up to the first character that is no digit |
| Decimal.DigitsAreArabic | packages/core/src/database/snapshot.ts:46 | `String` writes the ten digits most significant first, and a minus sign in front |
| Crypto.AgreementIsSymmetricAndTight | packages/core/src/vault/exchange.ts:69-75 | both ends of a key exchange derive one secret, and a third scalar does not |
| ProtocolState.GuardianUpsertKeepsKeys | packages/core/src/database/schema.ts:9-24 | a guardian upsert that does not throw keeps ids and TEE ids unique |
| ProtocolState.BackupUpsertKeepsKeys | packages/core/src/database/schema.ts:26-37 | the same for the backup table |
| ProtocolState.StreakKeepsKeys | packages/core/src/database/db.ts:162-178 | streak updates touch neither key |
| ProtocolDatabase.Database.UpsertGuardian | packages/core/src/database/db.ts:70-102 | throws exactly when another row holds the TEE id; otherwise replaces the row but for its admission time |
| ProtocolDatabase.Database.UpsertBackup | packages/core/src/database/db.ts:122-148 | the same for backups, keeping the registration time |
| ProtocolDatabase.Database.ListGuardians | packages/core/src/database/db.ts:109-114 | exactly the matching rows, once each, in no promised order |
| ProtocolDatabase.Database.ListBackups | packages/core/src/database/db.ts:155-160 | the same for backups |
| ProtocolDatabase.Database.IncrementStreak | packages/core/src/database/db.ts:162-169 | one more on that row if there is one, nothing else |
| ProtocolDatabase.Database.ResetStreak | packages/core/src/database/db.ts:171-178 | zero on that row if there is one, nothing else |
| ProtocolDatabase.Database.SetConfig | packages/core/src/database/db.ts:182-187 | that key and no other |
| ProtocolDatabase.Database.SetPeerKeys | packages/core/src/database/db.ts:242-256 | that node's stored keys and nothing else |
| ProtocolDatabase.Database.LogEvent | packages/core/src/database/db.ts:271-276 | appends one event |
| ProtocolDatabase.Database.CheckAndStoreNonce | packages/core/src/database/db.ts:220-238 | answers whether the nonce was new; past 10 000 rows, leaves 9000, none dropped that is younger than one kept |
| ProtocolDatabase.Database.Replace | packages/core/src/database/snapshot.ts:123-126 | the handle shows the installed image |
| NonceCache.ReplayBound | packages/core/src/attestation/admission.ts:67-77 | a request that passes twice does so within 120 000 ms if its timestamp converts to a number, and, if it has a nonce, only after at least 9000 other rows were stored with stamps no earlier than its own |
| NonceCache.WindowedExactly | packages/core/src/attestation/admission.ts:72-77 | the tolerance bounds the replays of exactly those requests whose timestamp converts to a number |
| NonceCache.NoReplayBelowCapacity | packages/core/src/database/db.ts:220-238 | until 9000 others were stored, a repeated nonce is refused however it is timed |
| NonceCache.PressedExactly | packages/core/src/database/db.ts:220-238 | only past 9000 other rows are exactly those requests repeated that have a nonce |
| NonceCache.NeverOverCapacity | packages/core/src/database/db.ts:227-235 | after no call does the cache hold more than 10 000 rows, unless more than 1000 of them are NULL |
| NonceCache.NoneGoesBelowCapacity | packages/core/src/database/db.ts:220-235 | a call that finds fewer than 10 000 rows drops none |
| NonceCache.NullsStay | packages/core/src/database/db.ts:229-234 | a row without a nonce is never evicted |
| NonceCache.EvictionPoint | packages/core/src/database/db.ts:229-234 | a nonce that is gone was evicted by a call that left 9000 others, none older |
| Snapshots.SnapshotManager.CreateSnapshot | packages/core/src/database/snapshot.ts:29-65 | the snapshot of the database as it was, under this key, signer, number and clock, and the counter moved even when the signer then throws |
| Snapshots.SnapshotManager.DraftSnapshot | packages/core/src/database/snapshot.ts:29-50 | what is there before the signature is awaited: the image as it was, its number, and the counter moved |
| Snapshots.SnapshotManager.ApplySnapshot | packages/core/src/database/snapshot.ts:104-127 | installs the image exactly when it was sealed under this key and its checksum matches, otherwise changes nothing |
| Snapshots.SnapshotRoundTrip | packages/core/src/database/snapshot.ts:67-98 | a snapshot verifies for its signer and key only, and restores the image it was taken from |
| SignatureLaws.OneReadingPerSignature | packages/core/src/database/snapshot.ts:67-98 | under one key and signer, a signature of snapshots with Base64 ciphertexts vouches for one ciphertext, number and checksum, although the text it covers has no separators |
| SignatureLaws.VouchesExactly | packages/core/src/database/snapshot.ts:83-94 | for every text that the decoder takes, the signature vouches for the fields exactly when the decoder never ignores a number's leading digits at the end of a ciphertext |
| SignatureLaws.RereadableExactly | packages/core/src/database/snapshot.ts:83-94 | a given verified snapshot's signature vouches for other fields as well exactly when the decoder ignores its number's leading digits at the end of its ciphertext, or the end of its ciphertext in front of its number |
| SignatureLaws.WholeBytesDoNotVouch | packages/core/src/database/snapshot.ts:90 | a decoder that keeps whole bytes and drops the rest ignores such a digit |
| SnapshotLaws.ImageLaw | packages/core/src/database/snapshot.ts:29-65 | over all runs on any number of nodes, the image numbered n holds counter n - 1, or none when n is 1 |
| SnapshotLaws.ConsecutiveBetweenApplies | packages/core/src/database/snapshot.ts:43-46 | between applies a node's numbers are consecutive |
| SnapshotLaws.FirstNumberAfterApply | packages/core/src/database/snapshot.ts:29-65 | the first number issued after applying n is n, which the receiver's check refuses as not newer |
| SnapshotLaws.NewerExactly | packages/core/src/database/snapshot.ts:100-102 | a snapshot made after applying number n is newer than it exactly when it is not the first one made since |
| Selector.SuccessorIsLeast | packages/core/src/succession/selector.ts:15-35 | the choice is the standby row with the longest streak, then the earliest registration, then the lowest TEE id; there is none exactly when none stands by |
| Selector.CompareIsAhead | packages/core/src/succession/selector.ts:19-32 | the comparator puts the longer streak first, then the earlier registration, then the lower TEE id |
| Selector.RankedIsInOrder | packages/core/src/succession/selector.ts:19-32 | sorting with the tiebreak puts rows with distinct TEE ids in strict order |
| Selector.RankingIsUnique | packages/core/src/succession/selector.ts:12-13 | two strict orderings of the same rows are the same sequence |
| Selector.RankedIgnoresRowOrder | packages/core/src/succession/selector.ts:12-13 | the ranking does not depend on the order in which the rows were read |
| Succession.SuccessionManager.InitiateSuccession | packages/core/src/succession/manager.ts:74-141 | database, contacts and winner are those of the specified loop over the ranking of the rows read, whatever others write at its awaits; the handler's flag is lowered exactly when there is a winner |
| Succession.SuccessionManager.TryCandidate | packages/core/src/succession/manager.ts:101-138 | one candidate's turn: what it writes, what is sent, and whether it wins, whatever fails |
| SuccessionLaws.ContactsFollowTheRanking | packages/core/src/succession/manager.ts:87-141 | contacts are a strictly ranked run of standby rows from what `selectSuccessor` returns to the winner; the rest rank behind it |
| SuccessionLaws.SuccessionRecord | packages/core/src/succession/manager.ts:84-134 | of those contacted exactly the matching ones are sent a payload, and of its own events a succession logs one initiation and one completion per acceptance, whatever other events others log meanwhile |
| SuccessionLaws.LoopContract | packages/core/src/succession/manager.ts:100-141 | the loop tries its candidates in order, once each, up to the first that passes |
| SuccessionLaws.WinnerIsLeastPassing | packages/core/src/succession/manager.ts:78-141 | the winner is the least passing standby row, and exhaustion means none passes |
| SuccessionLaws.WinnerExactly | packages/core/src/succession/manager.ts:78-141 | a candidate wins exactly when it stands by, answers with the approved measurement and a usable key, can be sent key and signed snapshot, confirms, has no registry read throw in the completion callback, and no other such candidate has a longer streak, an earlier registration or a lower TEE id, in this order |
| SuccessionLaws.RecordExactly | packages/core/src/succession/manager.ts:97-134 | of those contacted exactly the eligible ones are sent a payload, and exactly those that also confirm are recorded and logged as accepted, one that refuses or whose reply is lost never |
| SuccessionLaws.GuardiansConverge | packages/core/src/succession/selector.ts:12-13 | guardians with the same backup rows, in any order, that find the same candidates passing, pick the same winner or are both exhausted |
| SuccessionLaws.AcceptancesExactly | packages/core/src/succession/manager.ts:126-138 | the guardian hears more than one confirmation exactly when two candidates confirm and none up to the second passes; with callbacks that return, the winner's is the only one |
| SuccessionLaws.TwoSuccessors | packages/core/src/succession/manager.ts:131-137 | with an unreadable registry after the first of two confirming candidates the guardian accepts both |
| SuccessionLaws.ApprovalExactly | packages/core/src/succession/manager.ts:86-109 | for every network the key goes only to candidates that answer a measurement exactly when `agent_rtmr3` is set to it and not empty |
| SuccessionLaws.PayloadsOpen | packages/core/src/succession/manager.ts:111-124 | each payload lets its addressee and nobody else unwrap the vault key, which opens the snapshot to the guardian's database at that moment, its data as succession began unless others wrote to it |
| Succession.SuccessionHandler.Begin | packages/guardian/src/succession/handler.ts:56-67 | starts exactly when the flag is down and transport and signer are set, and only then leaves the flag up |
| Succession.SuccessionManager.CheckAndStandDown | packages/core/src/succession/manager.ts:147-154 | true exactly for a live address other than the given text; fails when the read fails |
| Succession.SuccessionHandler.PollForStandDown | packages/guardian/src/succession/handler.ts:86-101 | how the poll ends and why, at most 24 reads, flag down unless a read threw |
| Succession.SuccessionHandler.Initiate | packages/guardian/src/succession/handler.ts:56-80 | every exit of a succession leaves the flag down, and it runs the candidate loop, callbacks and other writers included, as specified |
| StandDown.AtMost24Reads | packages/guardian/src/succession/handler.ts:86-98 | 120 000 ms at 5 000 ms a sleep leave room for no more than 24 registry reads |
| StandDown.EndingExactly | packages/guardian/src/succession/handler.ts:86-101 | every poll ends, and in the one way that its reads and deadline say |
| StandDown.EndingFollowsTheRegistry | packages/guardian/src/succession/handler.ts:86-101 | the poll ends by whichever comes first: a read that throws, a live address other than this TEE id, or 120 s gone by |
| StandDown.StandDownMeansAnotherExactly | packages/guardian/src/succession/handler.ts:90 | standing down excludes the dead primary's address exactly when that is empty or equals this TEE id |
| SingleFlight.OneSuccessionAtATime | packages/guardian/src/succession/handler.ts:56-101 | over all interleavings the flag is up exactly while a succession runs, and never two run at once |
| SingleFlight.SuccessionsEnd | packages/guardian/src/succession/handler.ts:68-101 | with n standby backups a succession is over after at most 52n + 1 resumptions |
| SingleFlight.PollIsTheHandlers | packages/guardian/src/succession/handler.ts:86-101 | resumption by resumption a call goes through the poll as the handler's loop does |
| LivenessMonitor.LivenessMonitor.OnPingReceived | packages/guardian/src/liveness/monitor.ts:71-117 | the last-ping clock moves exactly for a new nonce whose drift is not more than 60 s, not a number included, whatever the signature check yields; it is a step of the failure detector |
| LivenessMonitor.LivenessMonitor.Poll | packages/guardian/src/liveness/monitor.ts:56-68 | a tick calls the handler exactly when the last ping is older than threshold times interval and no succession is in progress, which is the failure detector's alarm at that limit |
| FailureDetector.AlarmExactly | packages/core/src/heartbeat/manager.ts:88-100 | a poll raises the alarm exactly when the last accepted ping is older than threshold times interval |
| FailureDetector.SilenceIsDetected | packages/guardian/src/liveness/monitor.ts:54-117 | with polls every interval, silence is detected by threshold + 1 intervals after the last accepted ping; repeated pings and those stamped too early or too late do not postpone it |
| FailureDetector.PingReplayBound | packages/guardian/src/liveness/monitor.ts:71-81 | one ping counts twice only past 9000 other stored rows and, stamped with a number, within 120 000 ms |
| FailureDetector.CountsAlwaysExactly | packages/guardian/src/liveness/monitor.ts:78-81 | a ping with a new nonce counts whenever it arrives exactly when its timestamp converts to no number |
| Rotation.HandleSuccessionReceive | packages/core/src/succession/manager.ts:198-218 | returns exactly when the key was wrapped under the shared secret, the number is above the last known one, the snapshot was sealed under that key and its checksum matches; then key and image are these, otherwise the database is untouched |
| Rotation.AcceptedNumbersIncrease | packages/core/src/succession/manager.ts:209-214 | over any sequence of receives the accepted numbers strictly increase and the database is the last accepted image |
| Rotation.RotateVaultKey | packages/core/src/succession/manager.ts:235-280 | the specified distribution, whatever others write at its awaits, the old array all zeros, the manager holding the intact new one |
| Rotation.ServeGuardian | packages/core/src/succession/manager.ts:254-266 | one guardian's turn, whatever fails in it |
| RotationLaws.EveryActiveGuardianIsTried | packages/core/src/succession/manager.ts:252-267 | each listed active guardian is tried exactly once, in list order |
| RotationLaws.ActiveOnlyIsExact | packages/core/src/succession/manager.ts:252 | inactive guardians are left out and nothing else is |
| RotationLaws.SentNumbersAreConsecutive | packages/core/src/succession/manager.ts:253-266 | the numbers sent are consecutive exactly when, between two shipments, no number was spent without being sent, by a failed signature or by other code |
| RotationLaws.CountContinues | packages/core/src/succession/manager.ts:253-266 | they continue the database's count exactly when no number was so spent in front of a shipment |
| RotationLaws.ShipmentsOpen | packages/core/src/succession/manager.ts:254-258 | what is sent opens under the new key to the database as it then was, and its guardian and nobody else can unwrap that key |
| RotationLaws.ServedExactly | packages/core/src/succession/manager.ts:254-266 | a shipment goes to exactly the active guardians whose key exchange and signature come about, and exactly those of them that confirm are recorded as acknowledging |
| RotationLaws.AcknowledgedWasShipped | packages/core/src/succession/manager.ts:258-263 | a guardian that acknowledges was sent a shipment |
| Handover.BackupAgent.HandleBackupReady | apps/reference-agent/src/http/handlers.ts:203-221 | the fresh session replaces any pending one and its public half is the answer |
| Handover.BackupAgent.Receive | apps/reference-agent/src/http/handlers.ts:231-259 | key, database and session after unwrapping, sealing and applying, at whichever point it stops |
| Handover.BackupAgent.constructor | apps/reference-agent/src/agent.ts:66-152 | at startup the snapshot manager and the admission service share the key manager's array |
| Handover.BackupAgent.HandleBackupConfirm | apps/reference-agent/src/http/handlers.ts:223-409 | the reply, the handover, database and log of the rotation after it, and for the snapshot manager and the admission service exactly when they still work with the vault key |
| HandoverLaws.ChangeNeedsTheLatestSession | apps/reference-agent/src/http/handlers.ts:233-257 | up to the rotation, key or database change only for a key wrapped against the pending session |
| HandoverLaws.ReceivesExactly | apps/reference-agent/src/http/handlers.ts:231-259 | any body at all: when it is passed over, when it is applied, and which of key and database is left behind when it is neither |
| HandoverLaws.HandoverRoundTrip | apps/reference-agent/src/http/handlers.ts:231-259 | the guardian's own payload installs its key and the image it serialised exactly when its session is still pending and sealing works |
| HandoverLaws.Takeover | packages/core/src/succession/manager.ts:100-134 | whatever a whole succession sent, the backup with that session pending ends up with the guardian's key and database, and any other is left unchanged |
| HandoverLaws.TakeoversExactly | packages/core/src/succession/manager.ts:100-141 | whatever the guardian hears, key and database end up with more than one candidate exactly when two are handed the payload for their pending session and none up to the second passes; likewise for the primary role |
| HandoverLaws.HeardTakersAreSole | packages/core/src/succession/manager.ts:126-138 | if whoever takes over is heard and its callback returns, at most one takes over |
| HandoverLaws.LostReply | packages/guardian/src/main.ts:241 | the first of two candidates installs the payload and its reply is lost or a refusal is heard: both take over, although only the second is heard to confirm and no callback throws |
| HandoverLaws.NewKeyReachesGuardians | apps/reference-agent/src/http/handlers.ts:302-353 | in the rotation after a handover each active guardian of the installed image whose key is stored there is sent a shipment from which it unwraps the new key |
| HandoverLaws.PendingIsTheLastReady | apps/reference-agent/src/http/handlers.ts:209-212 | a pending session belongs to the last ready call, with no handover applied since |
| HandoverLaws.AppliedConfirmsAreOneToOne | apps/reference-agent/src/http/handlers.ts:203-259 | applied confirms map one-to-one into ready calls made before them and after the previous one |
| HandoverLaws.LandsExactly | apps/reference-agent/src/http/handlers.ts:203-259 | a guardian's payload lands exactly when sealing works and, between its ready call and its confirm, no other ready call came and no handover was applied; it is told ok exactly when its own landed, or another's did and no ready call came since |
| HandoverLaws.RacingGuardians | apps/reference-agent/src/http/handlers.ts:203-259 | of two guardians at one backup, both land exactly when one is done before the other asks and nobody disturbs either |
| Admission.AdmissionService.Begin | packages/core/src/attestation/admission.ts:67-99 | nonce, timestamp, signature and domain checks up to the first await |
| Admission.AdmissionService.Verified | packages/core/src/attestation/admission.ts:106-123 | the provider's verdict leads to the gate or to its two rejections |
| Admission.AdmissionService.CheckRtmr3 | packages/core/src/attestation/admission.ts:125-184 | what the gate lets through and what it locks |
| Admission.AdmissionService.SessionReady | packages/core/src/attestation/admission.ts:186-246 | registration, and the answer or the snapshot awaiting its signature, including the points where it throws after having written |
| Admission.AdmissionService.SignatureReady | packages/core/src/attestation/admission.ts:215-226 | the answer to a guardian once the signer has signed: what was drafted and wrapped before that await, or none if it throws |
| AdmissionLaws.ScreeningExactly | packages/core/src/attestation/admission.ts:67-99 | which of the five answers screening gives, and exactly when |
| AdmissionLaws.GateExactly | packages/core/src/attestation/admission.ts:125-184 | exactly listed guardians, carriers of the lock and, where no list decides, whoever finds it open get through, and only the last set it |
| AdmissionLaws.LockDecides | packages/core/src/attestation/admission.ts:125-184 | over every interleaving, once a lock is set a measurement passes exactly when it is that lock's or, for a guardian, listed |
| AdmissionLaws.RegistrationExactly | packages/core/src/attestation/admission.ts:191-236 | registration throws exactly when another row holds the TEE id; otherwise it puts the node on record as it described itself, with its keys and one event, and touches nothing else |
| AdmissionLaws.AdmissionExactly | packages/core/src/attestation/admission.ts:186-246 | when the last stretch throws, and that a backup is then answered with neither key nor snapshot |
| AdmissionLaws.GrantsAreRight | packages/core/src/attestation/admission.ts:213-246 | over every interleaving an accepted backup holds neither vault key nor snapshot; an accepted guardian, and nobody with another scalar, unwraps the vault key, which opens the snapshot to a database with that guardian on record |
| AdmissionLaws.LocksAreFirstComeForever | packages/core/src/attestation/admission.ts:125-246 | over every interleaving a set lock never changes, and every admitted row and every request past the gate carries it or the approved list |
| AdmissionLaws.OneMeasurementPerRole | packages/core/src/attestation/admission.ts:129-183 | without an approved list all nodes of a role share one measurement |
| AdmissionLaws.AdmissionReplayBound | packages/core/src/attestation/admission.ts:67-77 | over every interleaving on one database, two requests with one nonce and timestamp both pass only past 9000 other stored rows, if the nonce is there, and within 120 000 ms, if the timestamp converts to a number |
| AdmissionLaws.OnlyVettedGetOn | packages/core/src/attestation/admission.ts:79-123 | over every interleaving nobody gets as far as registration without a signed key, nor, under attestation, without a verdict on this very measurement |
| AdmissionLaws.AdmissionWrites | packages/core/src/attestation/admission.ts:191-236 | an admission writes its own row with the measurement it was cleared with, and no lock |
| AdmissionLaws.GateReplacesLockExactly | packages/core/src/attestation/admission.ts:129-166 | the gate overwrites a stored lock exactly when that is empty and no list decides |
| AdmissionLaws.EmptyMeasurementDoesNotLock | packages/core/src/attestation/admission.ts:165-167 | an empty measurement is admitted and the next backup locks its own over it |
| Heartbeat.HeartbeatManager.Participants | packages/core/src/heartbeat/manager.ts:108-115 | a round pings every standby backup and active guardian once |
| Heartbeat.HeartbeatManager.ApplyResults | packages/core/src/heartbeat/manager.ts:126-138 | a round's results in order, rejected promises and guardians skipped |
| HeartbeatLaws.CounterIsHistory | packages/core/src/heartbeat/manager.ts:126-138 | a stored streak counts the backup's fulfilled pings with success since the last one without or its last (re)admission, and `registered_at` is the first admission |
| HeartbeatLaws.RoundIsHistory | packages/core/src/heartbeat/manager.ts:108-139 | a round is a stretch of such a history, its settled promises one by one |
| HeartbeatLaws.StreakIsSuccesses | packages/core/src/heartbeat/manager.ts:108-139 | the same over every sequence of rounds and admissions |
| HeartbeatLaws.ResetsAreLogged | packages/core/src/heartbeat/manager.ts:130-136 | the log gains one reset event per failed ping of a backup, in order, and no other |
| HeartbeatLaws.LongestRunIsSelected | packages/core/src/succession/selector.ts:19-32 | over every sequence of rounds and admissions, the selected backup has the longest current run of successful pings; on ties the earliest first admission, then the lowest TEE id |
| NetworkManager.NetworkManager.Evaluate | packages/guardian/src/guardian-manager.ts:45-156 | a whole evaluation against what its SELECTs returned, whatever fails in it and whatever others write at its awaits; it gets past the guards exactly with the lock set and 30 minutes gone by, and both targets are 2 exactly when the TVL has reached the tier |
| NetworkManager.NetworkManager.RunGuardians | packages/guardian/src/guardian-manager.ts:82-117 | the guardian section |
| NetworkManager.NetworkManager.ProvisionMany | packages/guardian/src/guardian-manager.ts:96-100 | the provisioning loop, stopping at the first failure |
| NetworkManager.NetworkManager.DeprovisionMany | packages/guardian/src/guardian-manager.ts:110-116 | the removal loop, stopping at the first failure |
| NetworkManager.NetworkManager.ProvisionOne | packages/guardian/src/guardian-manager.ts:158-188 | VM, row, pending mark and event, at whichever point it stops; the row spelled out field by field |
| NetworkManager.NetworkManager.DeprovisionOne | packages/guardian/src/guardian-manager.ts:215-226 | stop, row, event, at whichever point it stops |
| NetworkManager.NetworkManager.RunBackups | packages/guardian/src/guardian-manager.ts:119-155 | the backup section |
| NetworkManager.NetworkManager.ProvisionBackupVms | packages/guardian/src/guardian-manager.ts:136-140 | the backup provisioning loop, stopping at the first failure |
| NetworkManager.NetworkManager.ProvisionOneBackup | packages/guardian/src/guardian-manager.ts:190-206 | VM, backup VM on record and pending mark, at whichever point it stops |
| NetworkManager.StillKeyed | packages/guardian/src/guardian-manager.ts:84-117 | the guardian section keeps the node tables' keys |
| NetworkLaws.AccountedMeansConserved | packages/guardian/src/guardian-manager.ts:158-188 | balanced books mean: VMs created and not stopped are those of the active agent rows |
| NetworkLaws.GuardianSectionConverges | packages/guardian/src/guardian-manager.ts:73-117 | if nobody else writes the node table meanwhile: whatever fails, books stay balanced, external rows untouched, and the active count moves only towards the target; when completed it ends at the target, or at the external guardians if those are more |
| NetworkLaws.CreationLeaksExactly | packages/guardian/src/guardian-manager.ts:167-185 | creating a VM keeps the books balanced exactly when no other row holds its derived TEE id once the VM is there |
| NetworkLaws.SectionKeepsBooks | packages/guardian/src/guardian-manager.ts:82-117 | with external nodes coming and going at every await and VM ids that are new and do not clash, the guardian section keeps the books balanced and changes the agent's own rows by no more than what was missing or superfluous |
| NetworkLaws.ProvisioningIsEntries | packages/guardian/src/guardian-manager.ts:96-100 | a provisioning loop that stops anywhere has created exactly the VMs it was given up to there and entered a row for each |
| NetworkLaws.RemovalIsRetirements | packages/guardian/src/guardian-manager.ts:111-115 | a removal loop that stops anywhere has retired exactly the rows up to the first whose VM could not be stopped |
| NetworkLaws.ActiveCountIsCardinality | packages/guardian/src/guardian-manager.ts:73-75 | the counted rows are the active rows of the table |
| NetworkLaws.ReachesTargetExactly | packages/guardian/src/guardian-manager.ts:84-101 | a section in deficit reaches its target exactly when nothing is pending, the deficit is ten minutes old, the compose file is there and every VM asked for is created |
| NetworkLaws.BackupSectionConserves | packages/guardian/src/guardian-manager.ts:119-155 | the backup section never disturbs the guardian books, the agent's guardian rows or its guardian VMs |
| NetworkLaws.BackupStopsExactly | packages/guardian/src/guardian-manager.ts:149-154 | a VM is stopped exactly when more backups stand by than wanted, one is on record and the VM service complies; it is that one, and the record is cleared exactly then |
| FleetHistory.VmsAreConserved | packages/guardian/src/guardian-manager.ts:98-116 | over every run of evaluations, with other writers between them and at their awaits, guardian VMs created minus stopped are those of the active agent rows |
| FleetHistory.AtMostTwoVms | packages/guardian/src/guardian-manager.ts:62-117 | over every run, an agent that starts with at most two guardian VMs of its own never has more |
| FleetHistory.TierDecides | packages/guardian/src/guardian-manager.ts:62-117 | both targets are 2 once the TVL has reached the tier and 1 below it; the agent's own guardians go up by what is created and down by no more than the surplus over that number, and all the way when the evaluation completes |
| FleetHistory.CreationIsDebounced | packages/guardian/src/guardian-manager.ts:45-144 | a VM, for a guardian or a backup, is created only ten minutes after a recorded deficit start, every evaluation since having seen a deficit, and never before the startup delay is over and the backups' measurement is locked |
| FleetHistory.BatchesAreSeparated | packages/guardian/src/guardian-manager.ts:85-147 | a batch of creations that was recorded is separated from the next one of its kind by an evaluation that saw no deficit of that kind |
| FleetHistory.TriesExactly | packages/guardian/src/guardian-manager.ts:84-101 | ten minutes after a deficit was seen, and while no evaluation sees enough nodes, a section provisions exactly when nothing was pending then and no VM has been recorded since |
| FleetHistory.MadeUpExactly | packages/guardian/src/guardian-manager.ts:84-101 | the guardians' deficit is then made up, to 2 in the scaled tier and 1 below it, exactly if, besides, the compose file is there and every VM asked for is created |
| FleetHistory.PendingBlocks | packages/guardian/src/guardian-manager.ts:85-88 | once a VM is recorded, nothing more is created until an evaluation sees enough nodes |
| FleetHistory.HalfProvisioned | packages/guardian/src/guardian-manager.ts:96-101 | two guardians are missing and the second creation fails: one is recorded as pending and the count stays one short |
| FleetHistory.ClashedCreatesAgain | packages/guardian/src/guardian-manager.ts:167-186 | a VM whose TEE id is taken is created, neither recorded nor pending, and the next evaluation creates another |
| FleetHistory.TimerRemembers | packages/guardian/src/guardian-manager.ts:89-107 | a running timer names the evaluation that started it |
| FleetHistory.GuardianSectionMoves | packages/guardian/src/guardian-manager.ts:84-107 | what the guardian section does to its two timers and when it may create, and that it leaves the backups' alone |
| FleetHistory.BackupSectionMoves | packages/guardian/src/guardian-manager.ts:124-147 | what the backup section does to its two timers and when it may create, and that it leaves the guardians' alone |
| JsonText.ValueReadsBack | packages/core/src/utils.ts:6-8 | a parser is a left inverse of the printer, whatever follows the value |
| JsonText.CharsReadBack | packages/core/src/utils.ts:6-8 | string escaping, lone surrogates and control characters included, is reversible |
| JsonText.PrintIsInjective | packages/core/src/utils.ts:6-8 | different values print differently |
| CanonicalJson.SortedReplacer | packages/core/src/utils.ts:10-17 | assigning the members in `sort()` order yields an object that enumerates them in the canonical order, whatever order they came in |
| CanonicalJson.BeforeIsTotal | packages/core/src/utils.ts:13 | the enumeration order, array indices first, is a strict total order on keys |
| CanonicalJson.OutsideIn | packages/core/src/utils.ts:10-19 | ordering an object before its members comes to the same as after them |
| CanonicalJson.EqualTextsExactly | packages/core/src/utils.ts:6-19 | equal texts exactly for values equal up to key order at every depth, `__proto__` members aside |
| CanonicalJson.EqualTextsMeanEqualValues | packages/core/src/utils.ts:1-5 | without `__proto__` members, equal texts exactly for values equal up to key order at every depth |
| CanonicalJson.IdentifiesExactly | packages/core/src/utils.ts:12-16 | a text identifies its value exactly when no object in it has a member called `__proto__` |
| CanonicalJson.ObjectText | packages/core/src/utils.ts:6-19 | an object prints as its members but `__proto__` in braces, comma-separated: array indices by value, then the other keys by code units |
| CanonicalJson.ArrayText | packages/core/src/utils.ts:6-19 | an array prints as its items in brackets, comma-separated, in their order |
| CanonicalJson.UnitsBeforeExactly | packages/core/src/utils.ts:13 | the order of `sort()`: the first differing code unit decides, a prefix comes first |
| CanonicalJson.IsIndexExactly | packages/core/src/utils.ts:12-16 | array indices are the decimal texts of the numbers below 2^32 - 1 |
| CanonicalJson.LetterEscapes | packages/core/src/utils.ts:6-8 | the seven units with an escape of their own, and which it is |
| CanonicalJson.HexEscapes | packages/core/src/utils.ts:6-8 | other control characters and lone surrogates print as four lower-case hexadecimal digits |
| CanonicalJson.WordsAreJson | packages/core/src/utils.ts:6-8 | how `null`, booleans, numbers and empty containers print |
| CanonicalJson.PlainBody | packages/core/src/utils.ts:6-8 | a string without quotes, backslashes, control characters and surrogates prints in quotes as it is |
| SignedPayload.FieldsAreDetermined | packages/core/src/database/snapshot.ts:51 | unless one number's text ends in the other's at a multiple of four, the signed text determines ciphertext, number and checksum |
| SignedPayload.RecutsExactly | packages/core/src/database/snapshot.ts:51 | for a given ciphertext, its number can be shortened without changing the signed text exactly when the longer number ends in the shorter one and the Base64 carries no padding |
| SignedPayload.CollidesExactly | packages/core/src/database/snapshot.ts:51-52 | for which pairs of numbers two different snapshots share a signed text, exactly |
| SignedPayload.FirstTenThousandAreSafe | packages/core/src/database/snapshot.ts:70 | numbers below 10 000 never collide |
| SignedPayload.TenThousandAndOneCollides | packages/core/src/database/snapshot.ts:70 | a snapshot numbered 10 001 also reads as one numbered 1 exactly when its Base64 carries no padding |
| SignedPayload.Base64IsInjective | packages/core/src/database/snapshot.ts:41 | the ciphertext is recoverable from its Base64 text |
| SignedPayload.QuadIsBigEndian | packages/core/src/database/snapshot.ts:41 | three bytes, as one number, are written in four digits to base 64, most significant first |
| SignedPayload.EncodesAsInTheRfc | packages/core/src/database/snapshot.ts:41 | the padding examples of section 10 of RFC 4648 |
| SignedPayload.AlphabetOfTheRfc | packages/core/src/database/snapshot.ts:41 | where the stretches of the alphabet of section 4 of RFC 4648 begin |

## Left out

- Cryptography is symbolic: ciphers, hashes, signatures, key formats and key generation are not computed, and a
  public key is a curve point, malformed, or empty.
- Express servers, `fetch`, timers, process startup, configuration, attestation parsing, ERC-8004 and x402
  calls are foreign services: they appear as oracles or not at all.
- SQL text, WAL, pragmas, file writes and their failures: statements are atomic map operations and applying a
  snapshot swaps the whole database. The `agent_state` table, row ids and the times of events, and columns that
  nothing here reads are left out; config keys are constructors, since the program names them by constants.
- The clock is read once per stretch of code, although the code may call `Date.now()` several times in one; it
  does not run backwards in runs of the nonce cache, of the monitor and of the handler.
- Numbers are unbounded integers; nothing here models precision loss beyond 2^53.
- `localeCompare` is any total order that is zero only on equal ids.
- Handover.BackupAgent.HandleBackupConfirm: restoring the wallet and the registry client, updating the
  registry and storing the compose files are left out; up to the rotation a confirm is one step, during it others
  write only to the database, and the key manager is always present.
- RotationLaws.SentNumbersAreConsecutive: other code moves the counter only by making snapshots; that a second
  confirm installs another database in the middle of a rotation is left out.
- SignatureLaws.VouchesExactly: the Base64 decoder is represented by the number of bytes it makes of a text, and
  `WholeBytes` describes Node's only for text without padding.
- NetworkManager.NetworkManager.Evaluate: evaluations do not overlap.
- FleetHistory.VmsAreConserved: VM ids are new, non-empty, and no other row holds the derived TEE id when it is used;
  what such a row does is `NetworkLaws.CreationLeaksExactly`. Other writers leave the agent's own rows alone.
- FleetHistory.BatchesAreSeparated: a batch of which nothing was recorded does not count; what it leads to is
  `FleetHistory.ClashedCreatesAgain`. In all timer laws VM ids are non-empty and nobody else writes the timers.
- Backup VMs are not accounted for: when two are provisioned the second id overwrites the first.
- LivenessMonitor.LivenessMonitor.OnPingReceived: the signature itself is an oracle, since no outcome of the
  check changes anything.
- CanonicalJson.EqualTextsExactly: values are JSON data; `undefined`, functions, `toJSON`, cycles and
  non-finite numbers are left out, and a number is the text it prints as.
- The guardian's recovery push, its HTTP handlers, the health adapter, the peer registry and the duplicate of
  `stableStringify` in the x402 client would add only easy members.
