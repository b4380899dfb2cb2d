/**
  The guardian's side of succession: rank the backups, fall through the ranking until one confirms, then wait
  for a new primary. The rest of the guardian may write to the database at every await in between.
 */
module Succession {
  import opened Prelude
  import opened Crypto
  import opened ProtocolState
  import opened Selector
  import opened StandDown
  import Snap = Snapshots
  import DB = ProtocolDatabase

  const APPROVED_RTMR3 := AgentRtmr3

  datatype Contact = Unreachable | Answered(rtmr3: string, x25519: PublicKey)
  datatype Delivery = Confirmed | Refused | Lost

  /**
    Everything outside the loop during one candidate's turn: the candidate's answer, the scalar of the fresh
    key-exchange session (or its failure), what making the snapshot draws, the signing service, the candidate's
    reply to the payload, the stand-down poll that the completion callback would run, and what other code
    writes while the turn waits for the contact, for the delivery and for the callback.
   */
  datatype Turn = Turn(
    contact: Contact, session: Option<nat>, draw: Snap.Draw, sign: Option<string -> Snap.Signature>,
    delivery: Delivery, poll: Poll, whileContacting: Others, whileSending: Others, whileCompleting: Others)
  type Network = Backup -> Turn

  datatype Handover = Handover(wrappedKey: Sealed<seq<byte>>, snapshot: Snap.Snapshot, guardianKey: PublicKey)
  datatype Exchange = Contacted(candidate: Backup) | Delivered(candidate: Backup, payload: Handover) | Accepted(candidate: Backup)

  /** Database and wire after some turns; `winner` is set once `initiateSuccession` has returned normally. */
  datatype Progress = Progress(tables: Tables, log: seq<Exchange>, winner: Option<Backup>)

  datatype Guard = Guard(approved: Option<string>, vaultKey: seq<byte>, tee: string)

  /** The signing service of a turn: it is either up or down. */
  function SignerOf(turn: Turn): Snap.Signer {
    (text: string) => if turn.sign.None? then None else Some(turn.sign.value(text))
  }

  predicate Matches(approved: Option<string>, turn: Turn) {
    turn.contact.Answered? && (Truthy(approved) ==> turn.contact.rtmr3 == approved.value)
  }

  function SharedWith(turn: Turn): Option<Key> {
    if turn.contact.Answered? && turn.session.Some? then Agree(turn.session.value, turn.contact.x25519) else None
  }

  /** A snapshot number is spent as soon as the candidate matches, whatever becomes of the snapshot. */
  predicate Spends(g: Guard, turn: Turn) {
    Matches(g.approved, turn) && SharedWith(turn).Some? && UsableKey(Raw(g.vaultKey))
  }

  /** The candidate gets as far as being sent the payload. */
  predicate Sends(g: Guard, turn: Turn) {
    Spends(g, turn) && turn.sign.Some?
  }

  predicate Accepts(g: Guard, turn: Turn) {
    Sends(g, turn) && turn.delivery == Confirmed
  }

  /** The completion callback throws exactly when a registry read of its poll does. */
  predicate CallbackReturns(tee: string, turn: Turn) {
    !EndingOf(turn.poll, tee).Failed?
  }

  /** The candidate is reachable, measures right, confirms, and the completion callback returns. */
  predicate Passes(g: Guard, turn: Turn) {
    Accepts(g, turn) && CallbackReturns(g.tee, turn)
  }

  /** What is sent when the turn finds the database as `t` once it makes the snapshot. */
  function PayloadFor(t: Tables, g: Guard, turn: Turn): Handover
    requires Sends(g, turn)
  {
    Handover(Sealed(SharedWith(turn).value, g.vaultKey),
             Snap.Created(t, Raw(g.vaultKey), g.tee, SignerOf(turn), turn.draw).value,
             Point(turn.session.value))
  }

  function Entries(t: Tables, c: Backup, g: Guard, turn: Turn): seq<Exchange> {
    [Contacted(c)]
    + (if Sends(g, turn) then [Delivered(c, PayloadFor(turn.whileContacting(t), g, turn))] else [])
    + (if Accepts(g, turn) then [Accepted(c)] else [])
  }

  /** What a turn that finds the database as `t` leaves behind; a completion is logged per acceptance. */
  function TablesAfter(t: Tables, c: Backup, g: Guard, turn: Turn): Tables {
    var t1 := turn.whileContacting(t);
    var t2 := if Spends(g, turn) then turn.whileSending(Snap.Bumped(t1)) else t1;
    if Accepts(g, turn) then turn.whileCompleting(LogEvent(t2, SuccessionComplete, Some(c.address))) else t2
  }

  /** One pass through the body of the candidate loop. */
  function Attempt(t: Tables, c: Backup, g: Guard, turn: Turn): Progress {
    Progress(TablesAfter(t, c, g, turn), Entries(t, c, g, turn), if Passes(g, turn) then Some(c) else None)
  }

  function Candidates(t: Tables, cs: seq<Backup>, g: Guard, net: Network): Progress
    decreases |cs|
  {
    if cs == [] then Progress(t, [], None)
    else
      var first := Attempt(t, cs[0], g, net(cs[0]));
      if first.winner.Some? then first
      else
        var rest := Candidates(first.tables, cs[1..], g, net);
        Progress(rest.tables, first.log + rest.log, rest.winner)
  }

  /** `initiateSuccession` on the rows its SELECT returned; no winner means it threw `SuccessionExhaustedError`. */
  function Succeed(t: Tables, rows: seq<Backup>, vaultKey: seq<byte>, tee: string, net: Network, c: Collation): Progress {
    if SelectSuccessor(rows, c) == None then Progress(t, [], None)
    else
      Candidates(LogEvent(t, SuccessionInitiated, None), Ranked(StandbyOnly(rows), c),
                 Guard(GetConfig(t, APPROVED_RTMR3), vaultKey, tee), net)
  }

  class SuccessionManager {
    const db: DB.Database
    const vaultKey: array<byte>
    const tee: string
    var onComplete: SuccessionHandler?  // whose `pollForStandDown` the completion callback runs

    constructor (db: DB.Database, vaultKey: array<byte>, tee: string)
      ensures this.db == db && this.vaultKey == vaultKey && this.tee == tee && onComplete == null
    {
      this.db, this.vaultKey, this.tee, onComplete := db, vaultKey, tee, null;
    }

    /** The callback is in place and waits under this node's TEE id. */
    predicate Wired()
      reads this
    {
      onComplete != null && onComplete.tee == tee
    }

    /** Returns normally with a winner, or throws: the handler's flag is lowered exactly when it returns. */
    method InitiateSuccession(net: Network, c: Collation)
      returns (rows: seq<Backup>, log: seq<Exchange>, winner: Option<Backup>)
      requires Keyed(db.tables) && Wired() && forall b :: Timed(net(b).poll)
      modifies db, onComplete`inProgress
      ensures BackupListing(rows, old(db.tables), Some(Standby))
      ensures Progress(db.tables, log, winner) == Succeed(old(db.tables), rows, vaultKey[..], tee, net, c)
      ensures onComplete.inProgress == (old(onComplete.inProgress) && winner == None)
    {
      rows := db.ListBackups(Some(Standby));
      log, winner := [], None;
      if SelectSuccessor(rows, c) == None { return; }
      var approved := GetConfig(db.tables, APPROVED_RTMR3);
      db.LogEvent(SuccessionInitiated, None);
      log, winner := TryCandidates(Ranked(StandbyOnly(rows), c), approved, net);
    }

    /** The loop over the ranked candidates. */
    method TryCandidates(candidates: seq<Backup>, approved: Option<string>, net: Network)
      returns (log: seq<Exchange>, winner: Option<Backup>)
      requires Wired() && forall b :: Timed(net(b).poll)
      modifies db, onComplete`inProgress
      ensures Progress(db.tables, log, winner) ==
              Candidates(old(db.tables), candidates, Guard(approved, vaultKey[..], tee), net)
      ensures onComplete.inProgress == (old(onComplete.inProgress) && winner == None)
    {
      log, winner := [], None;
      ghost var g := Guard(approved, vaultKey[..], tee);
      ghost var all := Candidates(db.tables, candidates, g, net);
      var i := 0;
      while i < |candidates|
        invariant 0 <= i <= |candidates| && winner == None
        invariant onComplete.inProgress == old(onComplete.inProgress)
        invariant all == After(log, Candidates(db.tables, candidates[i..], g, net))
      {
        ghost var found := db.tables;
        var entries;
        entries, winner := TryCandidate(candidates[i], approved, net(candidates[i]));
        OneTurn(found, candidates, i, g, net, log);
        log := log + entries;
        if winner.Some? { return; }
        i := i + 1;
      }
      assert log + [] == log;
    }

    /** The body of the loop; every failure path falls back to the next candidate. */
    method TryCandidate(candidate: Backup, approved: Option<string>, turn: Turn)
      returns (entries: seq<Exchange>, winner: Option<Backup>)
      requires Wired() && Timed(turn.poll)
      modifies db, onComplete`inProgress
      ensures Progress(db.tables, entries, winner) ==
              Attempt(old(db.tables), candidate, Guard(approved, vaultKey[..], tee), turn)
      ensures onComplete.inProgress == (old(onComplete.inProgress) && winner == None)
    {
      entries, winner := [Contacted(candidate)], None;
      db.Await(turn.whileContacting);
      if !Matches(approved, turn) { return; }
      var shared := SharedWith(turn);
      if shared == None { return; }
      var wrapped := Sealed(shared.value, vaultKey[..]);
      var snapshots := new Snap.SnapshotManager(db, vaultKey, tee);
      var made := snapshots.CreateSnapshot(SignerOf(turn), turn.draw);
      if !UsableKey(Raw(vaultKey[..])) { return; }
      db.Await(turn.whileSending);
      if made == None { return; }
      entries := entries + [Delivered(candidate, Handover(wrapped, made.value, Point(turn.session.value)))];
      if turn.delivery != Confirmed { return; }
      entries := entries + [Accepted(candidate)];
      db.LogEvent(SuccessionComplete, Some(candidate.address));
      var ending, _ := onComplete.PollForStandDown(turn.poll);
      db.Await(turn.whileCompleting);
      if !ending.Failed? { winner := Some(candidate); }
    }

    method CheckAndStandDown(reading: Reading, currentPrimary: string) returns (stood: Option<bool>)
      ensures stood == None <==> reading.ReadFailed?
      ensures stood == Some(true) <==> reading.Live? && reading.address != None && reading.address.value !in {"", currentPrimary}
    {
      match reading
      case NoRegistry => return Some(false);
      case ReadFailed => return None;
      case Live(address) =>
        if Truthy(address) && address.value != currentPrimary { return Some(true); }
        return Some(false);
    }
  }

  /** Whether a call of `initiate` gets past the flag and finds its transport and signer. */
  predicate Starts(inProgress: bool, transport: bool, signer: bool) {
    !inProgress && transport && signer
  }

  class SuccessionHandler {
    const manager: SuccessionManager
    const tee: string
    var inProgress: bool
    var transport: bool  // set by setTransport
    var signer: bool     // set by setSigner

    constructor (db: DB.Database, vaultKey: array<byte>, tee: string)
      ensures this.tee == tee && !inProgress && !transport && !signer
      ensures fresh(manager) && manager.Wired() && manager.onComplete == this
      ensures manager.tee == tee && manager.db == db && manager.vaultKey == vaultKey
    {
      this.tee, inProgress, transport, signer := tee, false, false, false;
      manager := new SuccessionManager(db, vaultKey, tee);
      new;
      manager.onComplete := this;
    }

    method SetTransport()
      modifies this`transport
      ensures transport
    {
      transport := true;
    }

    method SetSigner()
      modifies this`signer
      ensures signer
    {
      signer := true;
    }

    /** The stretch of `initiate` in front of its `try`: whether a succession starts. */
    method Begin() returns (started: bool)
      modifies this`inProgress
      ensures started <==> !old(inProgress) && transport && signer
      ensures inProgress <==> old(inProgress) || started
    {
      if inProgress { return false; }
      inProgress := true;
      if !transport || !signer {
        inProgress := false;
        return false;
      }
      started := true;
    }

    /** The completion callback. A registry read that throws escapes it with the flag still up. */
    method PollForStandDown(p: Poll) returns (ending: Ending, ghost count: nat)
      requires Timed(p)
      modifies this`inProgress
      ensures ending == EndingOf(p, tee)
      ensures EndsAfter(p, tee, count, ending) && count <= 24
      ensures inProgress == (ending.Failed? && old(inProgress))
    {
      var deadline := p.start + MAX_WAIT_MS;
      var k := 0;
      while p.clock(k) < deadline
        invariant forall i :: 0 <= i < k ==> BeforeDeadline(p, i) && Quiet(p.registry(i), tee)
        invariant inProgress == old(inProgress)
        decreases deadline - p.clock(k)
      {
        var stood := manager.CheckAndStandDown(p.registry(k), tee);
        if stood == None || stood.value {
          ending := if stood == None then Failed else StoodDown;
          EndsThus(p, tee, k + 1, ending);
          if stood.Some? { inProgress := false; }
          return ending, k + 1;
        }
        assert SleptAfter(p, k);
        k := k + 1;
      }
      inProgress := false;
      EndsThus(p, tee, k, TimedOut);
      return TimedOut, k;
    }

    /** A whole `initiate`: whichever way the succession ends, the flag is down afterwards. */
    method Initiate(net: Network, c: Collation)
      returns (started: bool, winner: Option<Backup>, rows: seq<Backup>, log: seq<Exchange>)
      requires Keyed(manager.db.tables) && forall b :: Timed(net(b).poll)
      requires manager.onComplete == this && manager.tee == tee
      modifies this`inProgress, manager.db
      ensures started <==> !old(inProgress) && transport && signer
      ensures inProgress == old(inProgress)
      ensures !started ==> manager.db.tables == old(manager.db.tables) && winner == None && log == []
      ensures started ==>
                && BackupListing(rows, old(manager.db.tables), Some(Standby))
                && Progress(manager.db.tables, log, winner)
                   == Succeed(old(manager.db.tables), rows, manager.vaultKey[..], tee, net, c)
    {
      winner, rows, log := None, [], [];
      started := Begin();
      if !started { return; }
      rows, log, winner := manager.InitiateSuccession(net, c);
      if winner == None {
        inProgress := false;  // the catch block
      }
    }
  }

  ghost function After(log: seq<Exchange>, p: Progress): Progress {
    p.(log := log + p.log)
  }

  /** The loop from candidate `i` on: its turn, then, unless it wins, the loop from the next one on. */
  lemma OneTurn(t: Tables, cs: seq<Backup>, i: nat, g: Guard, net: Network, log: seq<Exchange>)
    requires i < |cs|
    ensures var first := Attempt(t, cs[i], g, net(cs[i]));
            After(log, Candidates(t, cs[i..], g, net)) ==
              if first.winner.Some? then Progress(first.tables, log + first.log, first.winner)
              else After(log + first.log, Candidates(first.tables, cs[i + 1..], g, net))
  {
    var first := Attempt(t, cs[i], g, net(cs[i]));
    assert cs[i..][0] == cs[i] && cs[i..][1..] == cs[i + 1..];
    ThenAfter(log, first.log, Candidates(first.tables, cs[i + 1..], g, net));
  }

  lemma ThenAfter(log: seq<Exchange>, entries: seq<Exchange>, p: Progress)
    ensures After(log, After(entries, p)) == After(log + entries, p)
  {
    assert log + (entries + p.log) == (log + entries) + p.log;
  }
}
