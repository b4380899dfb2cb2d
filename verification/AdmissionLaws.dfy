/** The RTMR3 locks over every interleaving of concurrent admissions and every other writer of the database. */
module AdmissionLaws {
  import opened Prelude
  import opened Crypto
  import opened ProtocolState
  import opened Admission
  import N = NonceCache
  import Snap = Snapshots

  datatype Pending = Pending(req: Request, phase: Phase)
  datatype World = World(tables: Tables, requests: map<nat, Pending>)

  /** The primary: its admission policy, vault key and TEE id. */
  datatype Node = Node(policy: Policy, vaultKey: seq<byte>, tee: string)

  datatype Step =
    | Arrive(id: nat, req: Request, now: int, nonces: N.Table, unseen: bool)
    | QuoteFetched(id: nat, fetched: bool)
    | QuoteVerified(id: nat, verdict: Verdict)
    | SessionGenerated(id: nat, session: Option<nat>, now: int, draw: Snap.Draw)
    | SignatureArrived(id: nat, signature: Option<Snap.Signature>)
    | OtherWriter(after: Tables)

  function Lock(t: Tables, role: Role): Option<string> {
    GetConfig(t, if role == AsGuardian then GUARDIAN_LOCK else BACKUP_LOCK)
  }

  /**
    What heartbeats, the network manager and the rest of the primary may do in between: anything that sets
    neither lock, adds no backup and no external guardian row, and alters no such row's measurement.
   */
  ghost predicate Harmless(t: Tables, t': Tables) {
    && (forall role :: Lock(t', role) == Lock(t, role))
    && (forall id <- t'.backups :: id in t.backups && t'.backups[id].rtmr3 == t.backups[id].rtmr3)
    && (forall id <- t'.guardians :: t'.guardians[id].provisionedBy == External ==>
          id in t.guardians && t.guardians[id].provisionedBy == External && t'.guardians[id].rtmr3 == t.guardians[id].rtmr3)
  }

  ghost predicate Next(w: World, n: Node, step: Step, w': World) {
    match step
    case Arrive(id, req, now, nonces, unseen) =>
      && id !in w.requests
      && N.Checked(w.tables.nonces, req.nonce, now, nonces, unseen)
      && var (t, phase) := Screened(w.tables.(nonces := nonces), n.policy, req, unseen, now);
      w' == World(t, w.requests[id := Pending(req, phase)])
    case QuoteFetched(id, fetched) =>
      && id in w.requests && w.requests[id].phase == AwaitingQuote
      && w' == w.(requests := w.requests[id := w.requests[id].(phase := if fetched then AwaitingVerdict else Rejected(AttestationFailed))])
    case QuoteVerified(id, verdict) =>
      && id in w.requests && w.requests[id].phase == AwaitingVerdict
      && var req := w.requests[id].req;
      var (t, phase) := match verdict
        case Failed => (w.tables, Rejected(AttestationFailed))
        case Invalid => (w.tables, Rejected(AttestationInvalid))
        case Valid(rtmr3) => AtGate(w.tables, n.policy, req, rtmr3);
      w' == World(t, w.requests[id := Pending(req, phase)])
    case SessionGenerated(id, session, now, draw) =>
      && id in w.requests && w.requests[id].phase.AwaitingSession?
      && var req := w.requests[id].req;
      var (t, phase) := Admitted(w.tables, req, w.requests[id].phase.rtmr3, session, n.vaultKey, n.tee, now, draw);
      w' == World(t, w.requests[id := Pending(req, phase)])
    case SignatureArrived(id, signature) =>
      && id in w.requests && w.requests[id].phase.AwaitingSignature?
      && w' == w.(requests := w.requests[id := w.requests[id].(phase := Answered(w.requests[id].phase, signature))])
    case OtherWriter(after) =>
      Harmless(w.tables, after) && w' == w.(tables := after)
  }

  /** The measurement a step brings to the gate is not empty. */
  predicate Measured(n: Node, step: Step) {
    && (step.Arrive? && (n.policy.devMode || !n.policy.hasProvider) ==> step.req.rtmr3 != Some(""))
    && (step.QuoteVerified? && step.verdict.Valid? ==> step.verdict.rtmr3 != "")
  }

  /** `rtmr3` carries the role's lock; for guardians under an explicit list, it is on the list or carries the lock. */
  predicate Cleared(t: Tables, policy: Policy, role: Role, rtmr3: string) {
    || (Truthy(Lock(t, role)) && Lock(t, role).value == rtmr3)
    || (role == AsGuardian && rtmr3 in policy.approvedGuardians)
  }

  ghost predicate LocksHold(w: World, policy: Policy) {
    && (forall id <- w.tables.backups :: Cleared(w.tables, policy, AsBackup, w.tables.backups[id].rtmr3))
    && (forall id <- w.tables.guardians :: w.tables.guardians[id].provisionedBy == External ==>
          Cleared(w.tables, policy, AsGuardian, w.tables.guardians[id].rtmr3))
    && (forall id <- w.requests :: w.requests[id].phase.AwaitingSession? ==>
          Cleared(w.tables, policy, w.requests[id].req.role, w.requests[id].phase.rtmr3))
  }

  /** The gate clears a non-empty measurement that it lets through, and keeps every earlier clearance and lock. */
  lemma GateClears(t: Tables, policy: Policy, req: Request, rtmr3: string)
    requires rtmr3 != ""
    ensures var (t', phase) := AtGate(t, policy, req, rtmr3);
            && t'.guardians == t.guardians && t'.backups == t.backups
            && (phase.AwaitingSession? ==> phase.rtmr3 == rtmr3 && Cleared(t', policy, req.role, rtmr3))
            && (phase.AwaitingSession? || phase == Rejected(Rtmr3Mismatch))
            && (forall role :: Truthy(Lock(t, role)) ==> Lock(t', role) == Lock(t, role))
            && (forall role, r :: Cleared(t, policy, role, r) ==> Cleared(t', policy, role, r))
  {
  }

  /**
    Exactly when the gate replaces a stored lock: the stored value is the empty string, the measurement is
    not, and no explicit guardian list decides instead.
   */
  lemma GateReplacesLockExactly(t: Tables, policy: Policy, req: Request, rtmr3: string)
    requires Lock(t, req.role).Some?
    ensures var t' := AtGate(t, policy, req, rtmr3).0;
            Lock(t', req.role) != Lock(t, req.role) <==>
              Lock(t, req.role) == Some("") && rtmr3 != "" && !(req.role == AsGuardian && policy.approvedGuardians != [])
  {
  }

  /** An empty measurement is admitted, recorded as the lock, and the next backup locks its own over it. */
  lemma EmptyMeasurementDoesNotLock(req: Request)
    requires req.role == AsBackup
    ensures var policy := Policy(true, false, []);
            var (t1, p1) := AtGate(EMPTY, policy, req, "");
            var (t2, p2) := AtGate(t1, policy, req, "m");
            && p1.AwaitingSession? && p2.AwaitingSession?
            && Lock(t1, AsBackup) == Some("") && Lock(t2, AsBackup) == Some("m")
  {
  }

  /** Every row of `t'` is one of `t` or a row of this role with this measurement; the locks are those of `t`. */
  ghost predicate WritesOnly(t: Tables, t': Tables, role: Role, rtmr3: string) {
    && (forall r :: Lock(t', r) == Lock(t, r))
    && (forall id <- t'.backups ::
          (id in t.backups && t'.backups[id] == t.backups[id]) || (role == AsBackup && t'.backups[id].rtmr3 == rtmr3))
    && (forall id <- t'.guardians ::
          (id in t.guardians && t'.guardians[id] == t.guardians[id]) || (role == AsGuardian && t'.guardians[id].rtmr3 == rtmr3))
  }

  lemma CreateKeepsRows(t: Tables, key: Key)
    ensures var t' := Snap.AfterCreate(t, key);
            && t'.guardians == t.guardians && t'.backups == t.backups
            && (forall role :: Lock(t', role) == Lock(t, role))
  {
  }

  lemma RegisteredWrites(t: Tables, req: Request, rtmr3: string, now: int)
    requires Registered(t, req, rtmr3, now).Some?
    ensures WritesOnly(t, Registered(t, req, rtmr3, now).value, req.role, rtmr3)
  {
  }

  /** Where an admission's last stretch can leave the database, depending on where it throws. */
  lemma AdmittedTables(t: Tables, req: Request, rtmr3: string, session: Option<nat>, key: seq<byte>, tee: string,
                       now: int, draw: Snap.Draw)
    ensures var (t', phase) := Admitted(t, req, rtmr3, session, key, tee, now, draw);
            var row := Registered(t, req, rtmr3, now);
            && !phase.AwaitingSession?
            && (t' == t || (row.Some? && (t' == row.value || t' == Snap.AfterCreate(row.value, Raw(key)))))
  {
  }

  /** What an admission writes: its own row with the measurement it was cleared with, and neither lock. */
  lemma AdmissionWrites(t: Tables, req: Request, rtmr3: string, session: Option<nat>, key: seq<byte>, tee: string,
                        now: int, draw: Snap.Draw)
    ensures var (t', phase) := Admitted(t, req, rtmr3, session, key, tee, now, draw);
            !phase.AwaitingSession? && WritesOnly(t, t', req.role, rtmr3)
  {
    AdmittedTables(t, req, rtmr3, session, key, tee, now, draw);
    if Registered(t, req, rtmr3, now).Some? {
      RegisteredWrites(t, req, rtmr3, now);
      CreateKeepsRows(Registered(t, req, rtmr3, now).value, Raw(key));
    }
  }

  /** From `w` to `w'` no clearance is lost, and every row and waiting request is an old one or newly cleared. */
  ghost predicate Grows(w: World, w': World, policy: Policy) {
    && (forall role, r :: Cleared(w.tables, policy, role, r) ==> Cleared(w'.tables, policy, role, r))
    && (forall id <- w'.tables.backups ::
          || (id in w.tables.backups && w'.tables.backups[id].rtmr3 == w.tables.backups[id].rtmr3)
          || Cleared(w'.tables, policy, AsBackup, w'.tables.backups[id].rtmr3))
    && (forall id <- w'.tables.guardians :: w'.tables.guardians[id].provisionedBy == External ==>
          || (id in w.tables.guardians && w.tables.guardians[id].provisionedBy == External
              && w'.tables.guardians[id].rtmr3 == w.tables.guardians[id].rtmr3)
          || Cleared(w'.tables, policy, AsGuardian, w'.tables.guardians[id].rtmr3))
    && (forall id <- w'.requests :: w'.requests[id].phase.AwaitingSession? ==>
          || (id in w.requests && w'.requests[id] == w.requests[id])
          || Cleared(w'.tables, policy, w'.requests[id].req.role, w'.requests[id].phase.rtmr3))
  }

  lemma GrowingKeepsLocks(w: World, w': World, policy: Policy)
    requires LocksHold(w, policy) && Grows(w, w', policy)
    ensures LocksHold(w', policy)
  {
  }

  lemma ClearanceIsTheLocks(t: Tables, t': Tables, policy: Policy)
    requires forall role :: Lock(t', role) == Lock(t, role)
    ensures forall role, r :: Cleared(t', policy, role, r) == Cleared(t, policy, role, r)
  {
  }

  lemma ArrivalGrows(w: World, n: Node, step: Step, w': World)
    requires step.Arrive? && Next(w, n, step, w') && Measured(n, step)
    ensures Grows(w, w', n.policy)
    ensures forall role :: Truthy(Lock(w.tables, role)) ==> Lock(w'.tables, role) == Lock(w.tables, role)
  {
    var t := w.tables.(nonces := step.nonces);
    var rtmr3 := if step.req.rtmr3.Some? then step.req.rtmr3.value else "dev-measurement";
    if rtmr3 != "" { GateClears(t, n.policy, step.req, rtmr3); }
    ClearanceIsTheLocks(w.tables, t, n.policy);
  }

  lemma WriteGrows(w: World, n: Node, step: Step, w': World)
    requires step.SessionGenerated? && Next(w, n, step, w') && LocksHold(w, n.policy)
    ensures Grows(w, w', n.policy)
    ensures forall role :: Lock(w'.tables, role) == Lock(w.tables, role)
  {
    var p := w.requests[step.id];
    AdmissionWrites(w.tables, p.req, p.phase.rtmr3, step.session, n.vaultKey, n.tee, step.now, step.draw);
    ClearanceIsTheLocks(w.tables, w'.tables, n.policy);
  }

  lemma StepKeepsLocks(w: World, n: Node, step: Step, w': World)
    requires Next(w, n, step, w') && Measured(n, step) && LocksHold(w, n.policy)
    ensures LocksHold(w', n.policy)
    ensures forall role :: Truthy(Lock(w.tables, role)) ==> Lock(w'.tables, role) == Lock(w.tables, role)
  {
    match step {
      case Arrive(_, _, _, _, _) =>
        ArrivalGrows(w, n, step, w');
      case QuoteFetched(_, _) =>
      case QuoteVerified(id, verdict) =>
        if verdict.Valid? { GateClears(w.tables, n.policy, w.requests[id].req, verdict.rtmr3); }
      case SessionGenerated(_, _, _, _) =>
        WriteGrows(w, n, step, w');
      case SignatureArrived(_, _) =>
      case OtherWriter(after) =>
        ClearanceIsTheLocks(w.tables, after, n.policy);
    }
    GrowingKeepsLocks(w, w', n.policy);
  }

  ghost predicate Run(worlds: seq<World>, n: Node, steps: seq<Step>) {
    && |worlds| == |steps| + 1
    && (forall i :: 0 <= i < |steps| ==> Next(worlds[i], n, steps[i], worlds[i + 1]) && Measured(n, steps[i]))
  }

  /**
    Over every interleaving: a lock once set never changes, every backup row carries the backup lock, every
    external guardian row carries the guardian lock (or, under an explicit list, is on the list), and so does
    every request that is past the gate but not yet written.
   */
  lemma {:induction false} LocksAreFirstComeForever(worlds: seq<World>, n: Node, steps: seq<Step>, i: nat, j: nat)
    requires Run(worlds, n, steps) && LocksHold(worlds[0], n.policy) && i <= j <= |steps|
    ensures LocksHold(worlds[i], n.policy) && LocksHold(worlds[j], n.policy)
    ensures forall role :: Truthy(Lock(worlds[i].tables, role)) ==> Lock(worlds[j].tables, role) == Lock(worlds[i].tables, role)
    decreases j, i
  {
    if i < j {
      LocksAreFirstComeForever(worlds, n, steps, i, j - 1);
      StepKeepsLocks(worlds[j - 1], n, steps[j - 1], worlds[j]);
    } else if 0 < i {
      LocksAreFirstComeForever(worlds, n, steps, i - 1, j - 1);
      StepKeepsLocks(worlds[i - 1], n, steps[i - 1], worlds[i]);
    }
  }

  /** With no explicit list, whatever races was run, all nodes admitted in one role share one measurement. */
  lemma OneMeasurementPerRole(worlds: seq<World>, n: Node, steps: seq<Step>, i: nat, a: string, b: string)
    requires Run(worlds, n, steps) && LocksHold(worlds[0], n.policy) && i <= |steps|
    requires n.policy.approvedGuardians == []
    ensures var t := worlds[i].tables;
            && (a in t.backups && b in t.backups ==> t.backups[a].rtmr3 == t.backups[b].rtmr3 != "")
            && (a in t.guardians && b in t.guardians
                && t.guardians[a].provisionedBy == External && t.guardians[b].provisionedBy == External ==>
                  t.guardians[a].rtmr3 == t.guardians[b].rtmr3 != "")
  {
    LocksAreFirstComeForever(worlds, n, steps, i, i);
  }

  // ----- replays -----

  /** What a step is to the nonce cache. */
  function CallOf(step: Step): N.Call {
    if step.Arrive? then N.Call(step.req.nonce, step.req.timestamp, step.now, step.unseen) else N.Idle
  }

  /** No other writer touches the nonce cache, by applying a snapshot say, and the clock does not run backwards. */
  ghost predicate OwnCache(worlds: seq<World>, n: Node, steps: seq<Step>)
    requires Run(worlds, n, steps)
  {
    && (forall i :: 0 <= i < |steps| && steps[i].OtherWriter? ==> steps[i].after.nonces == worlds[i].tables.nonces)
    && (forall i, j :: 0 <= i <= j < |steps| && steps[i].Arrive? && steps[j].Arrive? ==> steps[i].now <= steps[j].now)
  }

  ghost function CachesOf(worlds: seq<World>): seq<N.Table> {
    seq(|worlds|, i requires 0 <= i < |worlds| => worlds[i].tables.nonces)
  }

  ghost function CallsOf(steps: seq<Step>): seq<N.Call> {
    seq(|steps|, i requires 0 <= i < |steps| => CallOf(steps[i]))
  }

  lemma WritesKeepCache(t: Tables, req: Request, rtmr3: string, session: Option<nat>, key: seq<byte>, tee: string,
                        now: int, draw: Snap.Draw)
    ensures Admitted(t, req, rtmr3, session, key, tee, now, draw).0.nonces == t.nonces
  {
    if Registered(t, req, rtmr3, now).Some? {
      assert Registered(t, req, rtmr3, now).value.nonces == t.nonces;
    }
  }

  lemma StepMovesCache(w: World, n: Node, step: Step, w': World)
    requires Next(w, n, step, w') && (step.OtherWriter? ==> step.after.nonces == w.tables.nonces)
    ensures N.Moves(w.tables.nonces, CallOf(step), w'.tables.nonces)
  {
    if step.SessionGenerated? {
      var p := w.requests[step.id];
      WritesKeepCache(w.tables, p.req, p.phase.rtmr3, step.session, n.vaultKey, n.tee, step.now, step.draw);
    }
  }

  lemma AdmissionsRunTheCache(worlds: seq<World>, n: Node, steps: seq<Step>)
    requires Run(worlds, n, steps) && OwnCache(worlds, n, steps)
    ensures N.Run(CachesOf(worlds), CallsOf(steps))
  {
    var tables, calls := CachesOf(worlds), CallsOf(steps);
    forall k | 0 <= k < |calls| ensures N.Moves(tables[k], calls[k], tables[k + 1]) {
      StepMovesCache(worlds[k], n, steps[k], worlds[k + 1]);
    }
  }

  /** The arrival got past the nonce and timestamp checks. */
  predicate GotPast(p: Pending) {
    p.phase != Rejected(Replay) && p.phase != Rejected(StaleTimestamp)
  }

  lemma ArrivalPasses(w: World, n: Node, step: Step, w': World)
    requires Next(w, n, step, w') && step.Arrive?
    ensures step.id in w'.requests && (GotPast(w'.requests[step.id]) <==> N.Passes(CallOf(step)))
  {
  }

  /**
    The replay bound for admissions, whatever runs in between. Of two requests with one nonce and timestamp both
    get past the checks only within 120 000 ms of each other when the timestamp converts to a number, and only
    if at least 9000 other rows were stored meanwhile when the nonce is a string.
   */
  lemma AdmissionReplayBound(worlds: seq<World>, n: Node, steps: seq<Step>, i: nat, j: nat)
    requires Run(worlds, n, steps) && OwnCache(worlds, n, steps) && i < j < |steps|
    requires steps[i].Arrive? && steps[j].Arrive?
    requires steps[i].req.nonce == steps[j].req.nonce && steps[i].req.timestamp == steps[j].req.timestamp
    requires steps[i].id in worlds[i + 1].requests && GotPast(worlds[i + 1].requests[steps[i].id])
    requires steps[j].id in worlds[j + 1].requests && GotPast(worlds[j + 1].requests[steps[j].id])
    ensures steps[i].req.timestamp != N.NotANumber ==> steps[j].now - steps[i].now <= 120_000
    ensures steps[i].req.nonce.Some? ==> |N.OthersStored(CachesOf(worlds), CallsOf(steps), i, j)| >= 9000
  {
    AdmissionsRunTheCache(worlds, n, steps);
    ArrivalPasses(worlds[i], n, steps[i], worlds[i + 1]);
    ArrivalPasses(worlds[j], n, steps[j], worlds[j + 1]);
    assert CallsOf(steps)[i] == CallOf(steps[i]) && CallsOf(steps)[j] == CallOf(steps[j]);
    N.ReplayBound(CachesOf(worlds), CallsOf(steps), i, j);
  }

  // ----- who gets as far as being registered -----

  /** Past screening, whether or not it then came to anything. */
  predicate Underway(p: Phase) {
    p.AwaitingQuote? || p.AwaitingVerdict? || p.AwaitingSession? || p.AwaitingSignature? || p.Accepted? || p.Crashed?
  }

  predicate Attests(policy: Policy) {
    !policy.devMode && policy.hasProvider
  }

  /** A request underway is signed, and under attestation it names a domain. */
  ghost predicate Vetted(w: World, policy: Policy) {
    forall id <- w.requests :: Underway(w.requests[id].phase) ==>
      w.requests[id].req.signed && (Attests(policy) ==> Truthy(w.requests[id].req.domain))
  }

  lemma StepKeepsVetted(w: World, n: Node, step: Step, w': World)
    requires Vetted(w, n.policy) && Next(w, n, step, w')
    ensures Vetted(w', n.policy)
  {
  }

  /** The provider has vouched for the measurement that request `id` carries. */
  ghost predicate Vouched(steps: seq<Step>, id: nat, rtmr3: string, i: nat)
    requires i <= |steps|
  {
    exists k :: 0 <= k < i && steps[k] == QuoteVerified(id, Valid(rtmr3))
  }

  lemma SessionNeedsVerdict(w: World, n: Node, step: Step, w': World, id: nat)
    requires Next(w, n, step, w') && Attests(n.policy) && id in w'.requests && w'.requests[id].phase.AwaitingSession?
    ensures step == QuoteVerified(id, Valid(w'.requests[id].phase.rtmr3)) || (id in w.requests && w.requests[id] == w'.requests[id])
  {
  }

  /**
    Over every interleaving, nobody is registered who did not sign its key, and under attestation nobody whose
    measurement the provider has not vouched for in this very request.
   */
  lemma {:induction false} OnlyVettedGetOn(worlds: seq<World>, n: Node, steps: seq<Step>, i: nat)
    requires Run(worlds, n, steps) && worlds[0].requests == map[] && i <= |steps|
    ensures Vetted(worlds[i], n.policy)
    ensures Attests(n.policy) ==>
              forall id <- worlds[i].requests :: worlds[i].requests[id].phase.AwaitingSession? ==>
                Vouched(steps, id, worlds[i].requests[id].phase.rtmr3, i)
  {
    if i > 0 {
      OnlyVettedGetOn(worlds, n, steps, i - 1);
      StepKeepsVetted(worlds[i - 1], n, steps[i - 1], worlds[i]);
      if Attests(n.policy) {
        forall id <- worlds[i].requests | worlds[i].requests[id].phase.AwaitingSession?
          ensures Vouched(steps, id, worlds[i].requests[id].phase.rtmr3, i)
        {
          SessionNeedsVerdict(worlds[i - 1], n, steps[i - 1], worlds[i], id);
        }
      }
    }
  }

  // ----- screening, in the request's own fields -----

  /** The timestamp is no number, or no more than a minute off. */
  predicate Timely(stamp: N.Stamp, now: int) {
    match stamp
    case NotANumber => true
    case Infinite => false
    case Ms(ms) => ms - 60_000.0 <= now as real <= ms + 60_000.0
  }

  /** What screening answers, and when: each check in its turn, and nothing but the gate writes. */
  lemma ScreeningExactly(t: Tables, policy: Policy, req: Request, unseen: bool, now: int)
    ensures var (t', phase) := Screened(t, policy, req, unseen, now);
            && (phase == Rejected(Replay) <==> !unseen)
            && (phase == Rejected(StaleTimestamp) <==> unseen && !Timely(req.timestamp, now))
            && (phase == Rejected(InvalidSignature) <==> unseen && Timely(req.timestamp, now) && !req.signed)
            && (phase == Rejected(MissingDomain) <==>
                  && unseen && Timely(req.timestamp, now) && req.signed && Attests(policy)
                  && (req.domain == None || req.domain == Some("")))
            && (phase == AwaitingQuote <==>
                  && unseen && Timely(req.timestamp, now) && req.signed && Attests(policy)
                  && req.domain.Some? && req.domain.value != "")
            && (unseen && Timely(req.timestamp, now) && req.signed && !Attests(policy) ==>
                  (t', phase) == AtGate(t, policy, req, if req.rtmr3 == None then "dev-measurement" else req.rtmr3.value))
            && (t' != t ==> phase.AwaitingSession?)
  {
  }

  // ----- whom the gate lets through -----

  predicate Listed(policy: Policy, role: Role, rtmr3: string) {
    role == AsGuardian && rtmr3 in policy.approvedGuardians
  }

  /** Exactly who passes: listed guardians, carriers of the lock, and, where no list decides, whoever finds it open. */
  lemma GateExactly(t: Tables, policy: Policy, req: Request, rtmr3: string)
    ensures var (t', phase) := AtGate(t, policy, req, rtmr3);
            var locked := Lock(t, req.role);
            var open := (locked == None || locked == Some("")) && (req.role == AsGuardian ==> policy.approvedGuardians == []);
            && (phase == AwaitingSession(rtmr3) <==>
                  Listed(policy, req.role, rtmr3) || (locked == Some(rtmr3) && rtmr3 != "") || open)
            && (phase != AwaitingSession(rtmr3) ==> phase == Rejected(Rtmr3Mismatch) && t' == t)
            && (forall role :: Lock(t', role) == if open && role == req.role then Some(rtmr3) else Lock(t, role))
            && t' == t.(config := t'.config)
            && t'.config - {GuardianRtmr3, BackupRtmr3} == t.config - {GuardianRtmr3, BackupRtmr3}
  {
  }

  /**
    Over every interleaving the first lock decides about all who come later: from then on a measurement passes
    exactly when it is that lock's or, for a guardian, is on the list.
   */
  lemma LockDecides(worlds: seq<World>, n: Node, steps: seq<Step>, i: nat, j: nat, req: Request, rtmr3: string)
    requires Run(worlds, n, steps) && LocksHold(worlds[0], n.policy) && i <= j <= |steps|
    requires Truthy(Lock(worlds[i].tables, req.role))
    ensures AtGate(worlds[j].tables, n.policy, req, rtmr3).1 == AwaitingSession(rtmr3) <==>
            Lock(worlds[i].tables, req.role) == Some(rtmr3) || Listed(n.policy, req.role, rtmr3)
  {
    LocksAreFirstComeForever(worlds, n, steps, i, j);
    GateExactly(worlds[j].tables, n.policy, req, rtmr3);
  }

  // ----- what an admission writes, and what it hands out -----

  /** Another row of the role's table holds the request's TEE id. */
  ghost predicate Taken(t: Tables, req: Request) {
    if req.role == AsGuardian then exists id <- t.guardians :: id != req.tee && t.guardians[id].tee == req.tee
    else exists id <- t.backups :: id != req.tee && t.backups[id].tee == req.tee
  }

  /** The node is on record as the request describes it, with its own keys under its own TEE id. */
  predicate OnRecord(t: Tables, req: Request) {
    && req.tee in t.peers && t.peers[req.tee] == PeerKeys(req.ed25519, Some(req.x25519))
    && if req.role == AsGuardian then
         && req.tee in t.guardians
         && var row := t.guardians[req.tee];
         && row.id == row.tee == req.tee && row.address == req.address
         && row.status == Active && row.provisionedBy == External && row.vmId == None
       else
         && req.tee in t.backups
         && var row := t.backups[req.tee];
         && row.id == row.tee == req.tee && row.address == req.address && row.status == Standby && row.streak == 0
  }

  /** What registering a guardian changes: its row, its keys, the event log. */
  ghost predicate PutsGuardian(t: Tables, req: Request, rtmr3: string, now: int, t': Tables) {
    && req.role == AsGuardian && OnRecord(t', req)
    && t'.guardians - {req.tee} == t.guardians - {req.tee} && t'.backups == t.backups
    && var row := t'.guardians[req.tee];
    && row.rtmr3 == rtmr3 && row.lastAttestedAt == row.lastSeenAt == now
    && row.admittedAt == if req.tee in t.guardians then t.guardians[req.tee].admittedAt else now
  }

  ghost predicate PutsBackup(t: Tables, req: Request, rtmr3: string, now: int, t': Tables) {
    && req.role == AsBackup && OnRecord(t', req)
    && t'.backups - {req.tee} == t.backups - {req.tee} && t'.guardians == t.guardians
    && var row := t'.backups[req.tee];
    && row.rtmr3 == rtmr3 && row.lastHeartbeatAt == now
    && row.registeredAt == if req.tee in t.backups then t.backups[req.tee].registeredAt else now
  }

  lemma GuardianRegistration(t: Tables, req: Request, rtmr3: string, now: int)
    requires req.role == AsGuardian && Registered(t, req, rtmr3, now).Some?
    ensures PutsGuardian(t, req, rtmr3, now, Registered(t, req, rtmr3, now).value)
  {
  }

  lemma BackupRegistration(t: Tables, req: Request, rtmr3: string, now: int)
    requires req.role == AsBackup && Registered(t, req, rtmr3, now).Some?
    ensures PutsBackup(t, req, rtmr3, now, Registered(t, req, rtmr3, now).value)
  {
  }

  /** Registration throws exactly when the TEE id is taken; what it changes otherwise, and that it changes nothing else. */
  lemma RegistrationExactly(t: Tables, req: Request, rtmr3: string, now: int)
    ensures Registered(t, req, rtmr3, now) == None <==> Taken(t, req)
    ensures Registered(t, req, rtmr3, now).Some? ==>
              var t' := Registered(t, req, rtmr3, now).value;
              && (if req.role == AsGuardian then PutsGuardian(t, req, rtmr3, now, t') else PutsBackup(t, req, rtmr3, now, t'))
              && t'.peers - {req.tee} == t.peers - {req.tee} && t'.config == t.config && t'.nonces == t.nonces
              && t'.events == t.events + [Event(EventKind.Admission,
                                               Some((if req.role == AsGuardian then "guardian:" else "backup:") + req.tee))]
  {
    if Registered(t, req, rtmr3, now).Some? {
      if req.role == AsGuardian {
        GuardianRegistration(t, req, rtmr3, now);
      } else {
        BackupRegistration(t, req, rtmr3, now);
      }
    }
  }

  /** When an admission's last stretch throws, and what it leaves behind and goes on to if it does not. */
  lemma AdmissionExactly(t: Tables, req: Request, rtmr3: string, session: Option<nat>, key: seq<byte>, tee: string,
                         now: int, draw: Snap.Draw)
    ensures var (t', phase) := Admitted(t, req, rtmr3, session, key, tee, now, draw);
            var throws := session == None || !req.x25519.Point? || Taken(t, req);
            && (throws ==> phase == Crashed && t' == t)
            && (!throws ==> OnRecord(t', req))
            && (!throws && req.role == AsBackup ==> phase == Accepted(Grant(Point(session.value), None, None)))
            && (!throws && req.role == AsGuardian ==> if |key| == 32 then phase.AwaitingSignature? else phase == Crashed)
  {
    RegistrationExactly(t, req, rtmr3, now);
  }

  predicate Unwraps(scalar: nat, primaryKey: PublicKey, wrapped: Sealed<seq<byte>>, key: seq<byte>) {
    Agree(scalar, primaryKey).Some? && Open(Agree(scalar, primaryKey).value, wrapped) == Some(key)
  }

  /**
    What a guardian is handed: the vault key, wrapped for the holder of its own scalar and nobody else, and a
    snapshot that this key opens to a database with the guardian itself on record.
   */
  ghost predicate Entrusted(n: Node, req: Request, primaryKey: PublicKey, wrapped: Sealed<seq<byte>>, s: Snap.Snapshot) {
    && req.x25519.Point?
    && (forall scalar: nat :: Unwraps(scalar, primaryKey, wrapped, n.vaultKey) <==> req.x25519 == Point(scalar))
    && (forall scalar: nat, key :: Unwraps(scalar, primaryKey, wrapped, key) ==> key == n.vaultKey)
    && s.signedBy == n.tee
    && var image := Snap.Image(s, Raw(n.vaultKey));
    image.Some? && OnRecord(image.value, req)
  }

  ghost predicate RightlyGranted(n: Node, p: Pending) {
    match p.phase
    case Accepted(grant) =>
      if p.req.role == AsBackup then grant.primaryKey.Point? && grant.vaultKey == None && grant.snapshot == None
      else
        && grant.vaultKey.Some? && grant.snapshot.Some?
        && Entrusted(n, p.req, grant.primaryKey, grant.vaultKey.value, grant.snapshot.value)
    case AwaitingSignature(primaryKey, wrapped, draft) =>
      p.req.role == AsGuardian && Entrusted(n, p.req, primaryKey, wrapped, draft)
    case _ => true
  }

  lemma AdmittedIsRightlyGranted(t: Tables, n: Node, req: Request, rtmr3: string, session: Option<nat>, now: int, draw: Snap.Draw)
    ensures RightlyGranted(n, Pending(req, Admitted(t, req, rtmr3, session, n.vaultKey, n.tee, now, draw).1))
  {
    AdmissionExactly(t, req, rtmr3, session, n.vaultKey, n.tee, now, draw);
    RegistrationExactly(t, req, rtmr3, now);
    var phase := Admitted(t, req, rtmr3, session, n.vaultKey, n.tee, now, draw).1;
    if phase.AwaitingSignature? {
      forall scalar: nat
        ensures Unwraps(scalar, phase.primaryKey, phase.vaultKey, n.vaultKey) <==> req.x25519 == Point(scalar)
      {
        AgreementIsSymmetricAndTight(session.value, scalar, req.x25519.secret);
      }
    }
  }

  lemma AnsweredIsRightlyGranted(n: Node, p: Pending, signature: Option<Snap.Signature>)
    requires RightlyGranted(n, p) && p.phase.AwaitingSignature?
    ensures RightlyGranted(n, p.(phase := Answered(p.phase, signature)))
  {
    if signature.Some? {
      var s := p.phase.draft.(signature := signature.value);
      assert Snap.Image(s, Raw(n.vaultKey)) == Snap.Image(p.phase.draft, Raw(n.vaultKey));
    }
  }

  lemma StepGrantsRightly(w: World, n: Node, step: Step, w': World, id: nat)
    requires Next(w, n, step, w') && id in w'.requests
    requires id in w.requests ==> RightlyGranted(n, w.requests[id])
    ensures RightlyGranted(n, w'.requests[id])
  {
    match step {
      case Arrive(_, req, now, nonces, unseen) =>
        ScreeningExactly(w.tables.(nonces := nonces), n.policy, req, unseen, now);
        NothingGrantedYet(w.tables.(nonces := nonces), n.policy, req, unseen, now);
      case QuoteFetched(_, _) =>
      case QuoteVerified(_, _) =>
      case SessionGenerated(k, session, now, draw) =>
        var p := w.requests[k];
        AdmittedIsRightlyGranted(w.tables, n, p.req, p.phase.rtmr3, session, now, draw);
      case SignatureArrived(k, signature) =>
        if k == id { AnsweredIsRightlyGranted(n, w.requests[k], signature); }
      case OtherWriter(_) =>
    }
  }

  lemma NothingGrantedYet(t: Tables, policy: Policy, req: Request, unseen: bool, now: int)
    ensures var phase := Screened(t, policy, req, unseen, now).1; !phase.Accepted? && !phase.AwaitingSignature?
  {
  }

  /**
    Over every interleaving: an accepted backup holds neither vault key nor snapshot, and what an accepted
    guardian holds is meant for it alone and shows it on record.
   */
  lemma {:induction false} GrantsAreRight(worlds: seq<World>, n: Node, steps: seq<Step>, i: nat)
    requires Run(worlds, n, steps) && worlds[0].requests == map[] && i <= |steps|
    ensures forall id <- worlds[i].requests :: RightlyGranted(n, worlds[i].requests[id])
  {
    if i > 0 {
      GrantsAreRight(worlds, n, steps, i - 1);
      forall id <- worlds[i].requests ensures RightlyGranted(n, worlds[i].requests[id]) {
        StepGrantsRightly(worlds[i - 1], n, steps[i - 1], worlds[i], id);
      }
    }
  }
}
