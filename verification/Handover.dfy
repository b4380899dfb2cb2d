/** The backup's side of the handover: pairing a ready session with a confirm, installing key and database, rotating. */
module Handover {
  import opened Prelude
  import opened Crypto
  import opened ProtocolState
  import opened Rotation
  import Admission
  import Succession
  import Snap = Snapshots
  import DB = ProtocolDatabase

  /** The fields of the backup that a handover can change, up to the rotation. */
  datatype Node = Node(key: seq<byte>, tables: Tables, pending: Option<nat>)

  datatype ConfirmBody = ConfirmBody(encryptedKey: Option<Sealed<seq<byte>>>, snapshot: Option<Snap.Snapshot>, guardianKey: PublicKey)

  datatype Receipt = Skipped | Applied | Failed
  datatype Reply = Replied(ok: bool) | ServerError

  /** The key that the body unwraps to under the pending session, when it gets that far. */
  function Unwrapped(n: Node, body: ConfirmBody): Option<seq<byte>> {
    if body.encryptedKey == None || body.snapshot == None || n.pending == None then None
    else match Agree(n.pending.value, body.guardianKey)
      case None => None
      case Some(shared) => Open(shared, body.encryptedKey.value)
  }

  /** The first half of `handleBackupConfirm`: unwrap, install the key, seal it, apply the snapshot. */
  function ReceivePayload(n: Node, body: ConfirmBody, sealed: bool): (Node, Receipt) {
    if body.encryptedKey == None || body.snapshot == None || n.pending == None || body.guardianKey == Empty then (n, Skipped)
    else match Unwrapped(n, body)
      case None => (n, Failed)
      case Some(key) =>
        if !sealed then (n.(key := key), Failed)
        else match Snap.Image(body.snapshot.value, Raw(key))
          case None => (n.(key := key), Failed)
          case Some(image) => (Node(key, image, None), Applied)
  }

  /** What the rotation after a handover meets at one guardian. */
  datatype Peer = Peer(
    session: Option<nat>, draw: Snap.Draw, sign: Option<string -> Snap.Signature>, reply: Succession.Delivery,
    whileExchanging: Others, whileSending: Others)

  /** The key exchange needs the guardian's X25519 key, which it looks up when the guardian's turn comes. */
  function TurnOf(t: Tables, g: Guardian, p: Peer): Turn {
    var stored := if g.tee in t.peers then t.peers[g.tee].x25519 else None;
    Turn(if stored.Some? && p.session.Some? then Some((p.session.value, stored.value)) else None, p.draw, p.sign, p.reply,
         p.whileExchanging, p.whileSending)
  }

  function PeersOf(peers: Guardian -> Peer): Peers {
    (g: Guardian, t: Tables) => TurnOf(t, g, peers(g))
  }

  class BackupAgent {
    const db: DB.Database?
    const keyManager: VaultKeyManager
    const hasSigner: bool
    const tee: string
    const admission: Admission.AdmissionService?
    var pending: Option<nat>
    var snapshots: Snap.SnapshotManager?
    var primary: bool

    /** At startup the snapshot manager and the admission service are given the key manager's own array. */
    constructor (db: DB.Database?, keyManager: VaultKeyManager, hasSigner: bool, tee: string, policy: Admission.Policy)
      ensures this.db == db && this.keyManager == keyManager && this.hasSigner == hasSigner && this.tee == tee
      ensures pending == None && !primary
      ensures db != null ==> SnapshotsLive() && AdmissionLive()
    {
      this.db, this.keyManager, this.hasSigner, this.tee := db, keyManager, hasSigner, tee;
      pending, primary := None, false;
      if db == null {
        snapshots, admission := null, null;
      } else {
        var manager := new Snap.SnapshotManager(db, keyManager.key, tee);
        snapshots := manager;
        admission := new Admission.AdmissionService(db, policy, keyManager.key, manager);
      }
    }

    /** The snapshot manager works with the node's vault key, not with an array that once held it. */
    predicate SnapshotsLive()
      reads this, keyManager
    {
      snapshots != null && snapshots.vaultKey == keyManager.key
    }

    predicate AdmissionLive()
      reads keyManager
    {
      admission != null && admission.vaultKey == keyManager.key
    }

    function State(): Node
      requires db != null
      reads this, db, keyManager, keyManager.key
    {
      Node(keyManager.key[..], db.tables, pending)
    }

    /** A fresh session replaces whatever session was pending; its public half is the answer. */
    method HandleBackupReady(session: nat) returns (x25519: PublicKey)
      modifies this`pending
      ensures pending == Some(session) && x25519 == Point(session)
    {
      pending := Some(session);
      x25519 := Point(session);
    }

    method Receive(body: ConfirmBody, sealed: bool) returns (receipt: Receipt)
      requires db != null
      modifies this`pending, this`snapshots, db, keyManager
      ensures (State(), receipt) == ReceivePayload(old(State()), body, sealed)
      ensures receipt.Skipped? || Unwrapped(old(State()), body) == None ==> keyManager.key == old(keyManager.key)
      ensures !receipt.Skipped? && Unwrapped(old(State()), body).Some? ==> fresh(keyManager.key)
      ensures receipt.Applied? ==> SnapshotsLive() && fresh(snapshots) && snapshots.db == db
      ensures !receipt.Applied? ==> snapshots == old(snapshots)
    {
      if body.encryptedKey == None || body.snapshot == None || pending == None || body.guardianKey == Empty {
        return Skipped;
      }
      var shared := Agree(pending.value, body.guardianKey);
      if shared == None { return Failed; }
      var unwrapped := Open(shared.value, body.encryptedKey.value);
      if unwrapped == None { return Failed; }
      var received := new byte[|unwrapped.value|](i requires 0 <= i < |unwrapped.value| => unwrapped.value[i]);
      assert received[..] == unwrapped.value;
      keyManager.ReplaceKey(received);
      if !sealed { return Failed; }
      var manager := new Snap.SnapshotManager(db, received, tee);
      var outcome := manager.ApplySnapshot(body.snapshot.value);
      if outcome.Threw? { return Failed; }
      snapshots := manager;
      pending := None;
      receipt := Applied;
    }

    /**
      The whole confirm. `handed` is the node just before the rotation, `rows` the guardians it goes to. The
      snapshot manager and the admission service hold on to arrays: afterwards each works with the node's
      vault key exactly in the cases stated, and one that missed a rotation is left with zeros.
     */
    method HandleBackupConfirm(body: ConfirmBody, sealed: bool, peers: Guardian -> Peer, random: seq<byte>, resealed: bool,
                               whileSealing: Others)
      returns (reply: Reply, ghost handed: Node, ghost receipt: Receipt, ghost rows: seq<Guardian>, ghost log: seq<Entry>)
      requires |random| == 32
      requires db != null && !ReceivePayload(State(), body, sealed).1.Applied? ==> Keyed(db.tables)
      requires db != null && body.snapshot.Some? && body.snapshot.value.encrypted.Sealed? ==>
                 Keyed(body.snapshot.value.encrypted.plain)
      modifies this, keyManager, keyManager.key, if db == null then {} else {db}
      ensures db == null ==> reply == Replied(false) && primary == old(primary) && pending == old(pending)
      ensures db != null ==>
                && (handed, receipt) == ReceivePayload(old(State()), body, sealed)
                && reply == (if receipt.Failed? then ServerError else Replied(true))
                && (receipt.Failed? ==> State() == handed && primary == old(primary))
                && (!receipt.Failed? ==> primary && pending == handed.pending)
                && (!receipt.Failed? && !hasSigner ==>
                      State() == handed.(tables := LogEvent(handed.tables, SuccessionComplete, None)))
      ensures db != null && !receipt.Failed? && hasSigner ==>
                var t := LogEvent(handed.tables, SuccessionComplete, None);
                && GuardianListing(rows, t, Some(Active))
                && (db.tables, log) == Rotated(t, rows, random, tee, PeersOf(peers), resealed, whileSealing)
                && fresh(keyManager.key) && keyManager.key[..] == random
      ensures db != null ==>
                SnapshotsLive() ==
                  match receipt
                  case Skipped => old(SnapshotsLive()) && !hasSigner
                  case Applied => !hasSigner
                  case Failed => old(SnapshotsLive()) && Unwrapped(old(State()), body) == None
      ensures db != null ==>
                AdmissionLive() ==
                  match receipt
                  case Skipped => old(AdmissionLive()) && !hasSigner
                  case Applied => false
                  case Failed => old(AdmissionLive()) && Unwrapped(old(State()), body) == None
      ensures db != null && hasSigner && receipt.Skipped? ==>
                && snapshots == old(snapshots)
                && old(keyManager.key)[..] == Zeros(old(keyManager.key.Length))
      ensures db != null && hasSigner && receipt.Applied? ==>
                snapshots != null && snapshots.CurrentKey() == Raw(Zeros(|handed.key|))
    {
      handed, receipt, rows, log := Node([], EMPTY, None), Skipped, [], [];
      if db == null { return Replied(false), handed, receipt, rows, log; }
      var got := Receive(body, sealed);
      handed, receipt := State(), got;
      if got.Failed? { return ServerError, handed, receipt, rows, log; }
      db.LogEvent(SuccessionComplete, None);
      if hasSigner {
        var guardians := db.ListGuardians(Some(Active));
        var newKey, entries :=
          RotateVaultKey(db, keyManager.key, keyManager, guardians, PeersOf(peers), random, tee, resealed, whileSealing);
        rows, log := guardians, entries;
      }
      primary := true;
      reply := Replied(true);
    }
  }
}

/** What pairing sessions with confirms guarantees when several guardians hand over at once. */
module HandoverLaws {
  import opened Prelude
  import opened Crypto
  import opened ProtocolState
  import opened Handover
  import opened Rotation
  import RotationLaws
  import Selector
  import Succession
  import SuccessionLaws
  import Snap = Snapshots

  /** The confirm that a guardian sends for its side of the exchange. */
  function BodyOf(p: Succession.Handover): ConfirmBody {
    ConfirmBody(Some(p.wrappedKey), Some(p.snapshot), p.guardianKey)
  }

  /** Key or database change only for a key wrapped against the session of the latest unconsumed ready call. */
  lemma ChangeNeedsTheLatestSession(n: Node, body: ConfirmBody, sealed: bool)
    ensures var (n', receipt) := ReceivePayload(n, body, sealed);
            && (n'.key != n.key || n'.tables != n.tables || receipt.Applied? ==>
                  && n.pending.Some? && Agree(n.pending.value, body.guardianKey).Some?
                  && body.encryptedKey == Some(Sealed(Agree(n.pending.value, body.guardianKey).value, n'.key)))
            && (n'.tables != n.tables ==> receipt.Applied?)
            && (receipt.Applied? <==> n'.pending != n.pending)
  {
  }

  /** The body holds a key wrapped for the pending session. */
  predicate KeyOpens(n: Node, body: ConfirmBody) {
    && n.pending.Some? && body.guardianKey.Point? && body.encryptedKey.Some? && body.snapshot.Some?
    && body.encryptedKey.value.Sealed? && Some(body.encryptedKey.value.key) == Agree(n.pending.value, body.guardianKey)
  }

  /** Any body: when it is passed over, when it is applied, and what is left when it is neither. */
  lemma ReceivesExactly(n: Node, body: ConfirmBody, sealed: bool)
    ensures var (n', receipt) := ReceivePayload(n, body, sealed);
            && (receipt == Skipped <==>
                  body.encryptedKey == None || body.snapshot == None || n.pending == None || body.guardianKey == Empty)
            && (receipt == Applied <==>
                  && KeyOpens(n, body) && sealed
                  && var key, s := body.encryptedKey.value.plain, body.snapshot.value;
                  && |key| == 32 && s.encrypted.Sealed? && s.encrypted.key == Raw(key)
                  && s.checksum.Sha256? && s.checksum.image == s.encrypted.plain)
            && n' == (if receipt == Applied then Node(body.encryptedKey.value.plain, body.snapshot.value.encrypted.plain, None)
                      else if KeyOpens(n, body) then n.(key := body.encryptedKey.value.plain)
                      else n)
  {
  }

  /**
    The handover round trip, for the very payload that the candidate loop builds from a ready answer with
    session `s`. It is installed, key and database image both, exactly when `s` is still pending and the key
    can be sealed. With another session pending it is refused without a trace; with none pending the guardian
    is told ok although nothing was installed.
   */
  lemma HandoverRoundTrip(t: Tables, g: Succession.Guard, turn: Succession.Turn, s: nat, n: Node, sealed: bool)
    requires Succession.Sends(g, turn) && turn.contact.x25519 == Point(s)
    ensures var (n', receipt) := ReceivePayload(n, BodyOf(Succession.PayloadFor(t, g, turn)), sealed);
            && (receipt == Applied <==> n.pending == Some(s) && sealed)
            && (receipt == Applied ==> n' == Node(g.vaultKey, t, None))
            && (receipt == Skipped <==> n.pending == None)
            && (receipt != Applied ==> n' == if n.pending == Some(s) then n.(key := g.vaultKey) else n)
  {
    AgreementIsSymmetricAndTight(turn.session.value, s, if n.pending.Some? then n.pending.value else 0);
    if n.pending.Some? {
      AgreementIsSymmetricAndTight(turn.session.value, n.pending.value, s);
    }
  }

  /** The candidates of a succession, in the order in which it would try them. */
  function CandidatesOf(rows: seq<Backup>, c: Selector.Collation): seq<Backup> {
    Selector.Ranked(Selector.StandbyOnly(rows), c)
  }

  lemma BodyArrives(n: Node, p: Succession.Handover, key: seq<byte>)
    requires n.pending.Some? && Agree(n.pending.value, p.guardianKey).Some? && Snap.Image(p.snapshot, Raw(key)).Some?
    ensures var inside := Open(Agree(n.pending.value, p.guardianKey).value, p.wrappedKey);
            && (inside == Some(key) ==>
                  ReceivePayload(n, BodyOf(p), true) == (Node(key, Snap.Image(p.snapshot, Raw(key)).value, None), Applied))
            && (inside == None ==> ReceivePayload(n, BodyOf(p), true) == (n, Failed))
  {
  }

  /**
    Takeover, from the guardian's loop to the backup's database. Whatever a succession sent to a candidate that
    had answered with session `s`, a backup where `s` is pending ends up with the guardian's vault key and the
    database that the guardian had when it made that candidate's snapshot: the data as succession began, unless
    other code wrote to it meanwhile. Where any other session is pending, nothing changes.
   */
  lemma Takeover(t: Tables, rows: seq<Backup>, vaultKey: seq<byte>, tee: string, net: Succession.Network, c: Selector.Collation,
                 e: Succession.Exchange, s: nat, n: Node) returns (k: nat)
    requires e in Succession.Succeed(t, rows, vaultKey, tee, net, c).log && e.Delivered?
    requires net(e.candidate).contact.Answered? && net(e.candidate).contact.x25519 == Point(s) && n.pending.Some?
    ensures var g, t1 := SuccessionLaws.GuardOf(t, vaultKey, tee), LogEvent(t, SuccessionInitiated, None);
            var (n', receipt) := ReceivePayload(n, BodyOf(e.payload), true);
            k < |CandidatesOf(rows, c)| &&
            if n.pending.value == s then
              && receipt == Applied && n'.key == vaultKey && n'.pending == None
              && n'.tables == net(e.candidate).whileContacting(SuccessionLaws.StateAt(t1, CandidatesOf(rows, c), g, net, k))
              && ((forall b <- CandidatesOf(rows, c) :: SuccessionLaws.Harmless(net(b))) ==> SuccessionLaws.SameData(n'.tables, t))
            else
              receipt == Failed && n' == n
  {
    k := SuccessionLaws.PayloadsOpen(LogEvent(t, SuccessionInitiated, None), CandidatesOf(rows, c),
                                     SuccessionLaws.GuardOf(t, vaultKey, tee), net, e, n.pending.value);
    BodyArrives(n, e.payload, vaultKey);
  }

  // ----- who takes over -----

  /** What becomes of the payload sent to a candidate: whether it arrives, and the node and sealing it meets there. */
  datatype Fate = Fate(arrives: bool, node: Node, sealed: bool)

  /** It is handed the payload for its pending session, and can seal the key: whether or not its reply is heard. */
  predicate TookOver(g: Succession.Guard, turn: Succession.Turn, fate: Fate) {
    && Succession.Sends(g, turn) && fate.arrives && fate.sealed
    && fate.node.pending.Some? && turn.contact.x25519 == Point(fate.node.pending.value)
  }

  /** It takes the primary role: the confirm does not fail, though with no session pending it installs nothing. */
  predicate Leads(g: Succession.Guard, turn: Succession.Turn, fate: Fate) {
    TookOver(g, turn, fate) || (Succession.Sends(g, turn) && fate.arrives && fate.node.pending == None)
  }

  function ReceiptOf(p: Succession.Handover, fate: Fate): Receipt {
    if fate.arrives then ReceivePayload(fate.node, BodyOf(p), fate.sealed).1 else Failed
  }

  /** The candidates of the log at which the payload met with one of these receipts. */
  function ReceivedIn(log: seq<Succession.Exchange>, fates: Backup -> Fate, wanted: set<Receipt>): seq<Backup> {
    if log == [] then []
    else
      (if log[0].Delivered? && ReceiptOf(log[0].payload, fates(log[0].candidate)) in wanted then [log[0].candidate] else [])
      + ReceivedIn(log[1..], fates, wanted)
  }

  const INSTALLED: set<Receipt> := {Applied}
  const NOT_FAILED: set<Receipt> := {Applied, Skipped}

  lemma {:induction false} ReceivedSplits(a: seq<Succession.Exchange>, b: seq<Succession.Exchange>, fates: Backup -> Fate,
                                          wanted: set<Receipt>)
    ensures ReceivedIn(a + b, fates, wanted) == ReceivedIn(a, fates, wanted) + ReceivedIn(b, fates, wanted)
  {
    if a == [] {
      assert a + b == b;
    } else {
      assert (a + b)[1..] == a[1..] + b && (a + b)[0] == a[0];
      ReceivedSplits(a[1..], b, fates, wanted);
    }
  }

  lemma ReceiptIs(t: Tables, g: Succession.Guard, turn: Succession.Turn, fate: Fate)
    requires Succession.Sends(g, turn)
    ensures var receipt := ReceiptOf(Succession.PayloadFor(t, g, turn), fate);
            && (receipt in INSTALLED <==> TookOver(g, turn, fate))
            && (receipt in NOT_FAILED <==> Leads(g, turn, fate))
  {
    HandoverRoundTrip(t, g, turn, turn.contact.x25519.secret, fate.node, fate.sealed);
  }

  /** What a turn has to come to for its receipt to be a wanted one. */
  predicate Meets(g: Succession.Guard, turn: Succession.Turn, fate: Fate, wanted: set<Receipt>) {
    if wanted == INSTALLED then TookOver(g, turn, fate) else Leads(g, turn, fate)
  }

  lemma TurnReceives(t: Tables, c: Backup, g: Succession.Guard, turn: Succession.Turn, fates: Backup -> Fate,
                     wanted: set<Receipt>)
    requires wanted == INSTALLED || wanted == NOT_FAILED
    ensures ReceivedIn(Succession.Entries(t, c, g, turn), fates, wanted) == if Meets(g, turn, fates(c), wanted) then [c] else []
  {
    var contacted := [Succession.Contacted(c)];
    var sent := if Succession.Sends(g, turn) then
                  [Succession.Delivered(c, Succession.PayloadFor(turn.whileContacting(t), g, turn))] else [];
    var accepted := if Succession.Accepts(g, turn) then [Succession.Accepted(c)] else [];
    ReceivedSplits(contacted + sent, accepted, fates, wanted);
    ReceivedSplits(contacted, sent, fates, wanted);
    assert forall e: Succession.Exchange :: [e][1..] == [];
    assert INSTALLED != NOT_FAILED by { assert Skipped in NOT_FAILED; }
    if Succession.Sends(g, turn) { ReceiptIs(turn.whileContacting(t), g, turn, fates(c)); }
  }

  function MeetsIn(g: Succession.Guard, net: Succession.Network, fates: Backup -> Fate, wanted: set<Receipt>)
    : SuccessionLaws.Trait
  {
    (b: Backup) => Meets(g, net(b), fates(b), wanted)
  }

  /** Over a whole loop: those among the tried candidates whose turn meets it, whatever the guardian hears. */
  lemma {:induction false} LoopReceives(t: Tables, cs: seq<Backup>, g: Succession.Guard, net: Succession.Network,
                                        fates: Backup -> Fate, wanted: set<Receipt>)
    requires wanted == INSTALLED || wanted == NOT_FAILED
    ensures ReceivedIn(Succession.Candidates(t, cs, g, net).log, fates, wanted) ==
            SuccessionLaws.Filter(SuccessionLaws.Tried(cs, g, net), MeetsIn(g, net, fates, wanted))
    decreases |cs|
  {
    if cs != [] {
      var first := Succession.Attempt(t, cs[0], g, net(cs[0]));
      TurnReceives(t, cs[0], g, net(cs[0]), fates, wanted);
      SuccessionLaws.WinnerStep(t, cs, g, net);
      SuccessionLaws.TriedSplits(cs, g, net);
      if !Succession.Passes(g, net(cs[0])) {
        LoopReceives(first.tables, cs[1..], g, net, fates, wanted);
        ReceivedSplits(first.log, Succession.Candidates(first.tables, cs[1..], g, net).log, fates, wanted);
        assert ([cs[0]] + SuccessionLaws.Tried(cs[1..], g, net))[1..] == SuccessionLaws.Tried(cs[1..], g, net);
      } else {
        assert [cs[0]][1..] == [];
      }
    }
  }

  function TakersIn(log: seq<Succession.Exchange>, fates: Backup -> Fate): seq<Backup> {
    ReceivedIn(log, fates, INSTALLED)
  }

  function LeadersIn(log: seq<Succession.Exchange>, fates: Backup -> Fate): seq<Backup> {
    ReceivedIn(log, fates, NOT_FAILED)
  }

  /**
    When a succession has more than one successor. Key and database end up with more than one candidate exactly
    when two are handed the payload for their pending session and, up to the second, none passes; likewise for
    taking the primary role. What the guardian hears of it, and what its callback does, count only through passing.
   */
  lemma TakeoversExactly(t: Tables, cs: seq<Backup>, g: Succession.Guard, net: Succession.Network, fates: Backup -> Fate)
    ensures var log := Succession.Candidates(t, cs, g, net).log;
            && (|TakersIn(log, fates)| > 1 <==> SuccessionLaws.TwoInTime(cs, MeetsIn(g, net, fates, INSTALLED), g, net))
            && (|LeadersIn(log, fates)| > 1 <==> SuccessionLaws.TwoInTime(cs, MeetsIn(g, net, fates, NOT_FAILED), g, net))
  {
    LoopReceives(t, cs, g, net, fates, INSTALLED);
    LoopReceives(t, cs, g, net, fates, NOT_FAILED);
    SuccessionLaws.MoreThanOne(cs, MeetsIn(g, net, fates, INSTALLED), g, net);
    SuccessionLaws.MoreThanOne(cs, MeetsIn(g, net, fates, NOT_FAILED), g, net);
  }

  /** There is one successor at most if every candidate that takes over also passes: its reply heard, the callback returned. */
  lemma HeardTakersAreSole(t: Tables, cs: seq<Backup>, g: Succession.Guard, net: Succession.Network, fates: Backup -> Fate)
    requires forall b <- cs :: TookOver(g, net(b), fates(b)) ==> Succession.Passes(g, net(b))
    ensures |TakersIn(Succession.Candidates(t, cs, g, net).log, fates)| <= 1
  {
    TakeoversExactly(t, cs, g, net, fates);
    var q := MeetsIn(g, net, fates, INSTALLED);
    if i, j :| 0 <= i < j < |cs| && q(cs[i]) && q(cs[j]) && forall k :: 0 <= k < j ==> !Succession.Passes(g, net(cs[k])) {
      assert cs[i] in cs;
    }
  }

  /** The first candidate installs the payload but no confirmation is heard: the second, whose turn passes, takes over too. */
  lemma LostReply(t: Tables, a: Backup, b: Backup, g: Succession.Guard, turn: Succession.Turn, fate: Fate,
                  heard: Succession.Delivery)
    requires a != b && Succession.Passes(g, turn) && TookOver(g, turn, fate) && heard != Succession.Confirmed
    ensures var net := (c: Backup) => if c == a then turn.(delivery := heard) else turn;
            var p := Succession.Candidates(t, [a, b], g, net);
            && TakersIn(p.log, (c: Backup) => fate) == [a, b] && p.winner == Some(b)
            && SuccessionLaws.AcceptedIn(p.log) == [b]
            && Succession.CallbackReturns(g.tee, net(a)) && Succession.CallbackReturns(g.tee, net(b))
  {
    var net := (c: Backup) => if c == a then turn.(delivery := heard) else turn;
    var fates := (c: Backup) => fate;
    var q := MeetsIn(g, net, fates, INSTALLED);
    LoopReceives(t, [a, b], g, net, fates, INSTALLED);
    SuccessionLaws.LoopContract(t, [a, b], g, net);
    SuccessionLaws.TriedSplits([a, b], g, net);
    SuccessionLaws.TriedSplits([b], g, net);
    assert [a, b][1..] == [b] && [b][1..] == [];
    assert SuccessionLaws.Tried([a, b], g, net) == [a, b];
    assert q(a) && q(b);
    assert SuccessionLaws.Filter([b], q) == [b];
    SuccessionLaws.FirstTurn(a, [b], g, net);
    SuccessionLaws.FirstTurn(b, [], g, net);
    assert SuccessionLaws.FirstPassing([b], g, net) == 0;
    assert SuccessionLaws.FirstPassing([a, b], g, net) == 1;
  }

  // ----- the rotation after it -----

  ghost predicate KeepsPeers(others: Others) {
    forall t :: others(t).peers == t.peers
  }

  lemma {:induction false} PeersStay(t: Tables, gs: seq<Guardian>, peers: Guardian -> Peer, k: nat)
    requires k < |gs| && forall b :: KeepsPeers(peers(b).whileExchanging) && KeepsPeers(peers(b).whileSending)
    ensures RotationLaws.StateAt(t, gs, PeersOf(peers), k).peers == t.peers
    decreases k
  {
    if k > 0 {
      var turn := TurnOf(t, gs[0], peers(gs[0]));
      var b := gs[0];
      assert KeepsPeers(peers(b).whileExchanging) && KeepsPeers(peers(b).whileSending);
      assert turn.whileExchanging(t).peers == t.peers;
      PeersStay(TurnTables(t, turn), gs[1..], peers, k - 1);
    }
  }

  lemma {:induction false} ActiveIsKept(gs: seq<Guardian>, g: Guardian)
    requires g in gs && g.status == Active
    ensures g in ActiveOnly(gs)
  {
    if gs[0] != g { ActiveIsKept(gs[1..], g); }
  }

  /**
    The new key reaches the guardians of the installed image. Each active one whose X25519 key is stored there
    is sent, in the rotation after the handover, a shipment from which it unwraps the new key, provided that
    the session and the signature work and nobody rewrites the stored keys meanwhile.
   */
  lemma NewKeyReachesGuardians(t: Tables, rows: seq<Guardian>, random: seq<byte>, tee: string, peers: Guardian -> Peer,
                               resealed: bool, whileSealing: Others, g: Guardian, scalar: nat) returns (sh: Shipment)
    requires |random| == 32 && GuardianListing(rows, t, Some(Active))
    requires g.id in t.guardians && t.guardians[g.id] == g && g.status == Active
    requires g.tee in t.peers && t.peers[g.tee].x25519 == Some(Point(scalar))
    requires peers(g).session.Some? && peers(g).sign.Some?
    requires forall b :: KeepsPeers(peers(b).whileExchanging) && KeepsPeers(peers(b).whileSending)
    ensures Shipped(g, sh) in Rotated(t, rows, random, tee, PeersOf(peers), resealed, whileSealing).1
    ensures Agree(scalar, sh.primaryKey).Some? && Open(Agree(scalar, sh.primaryKey).value, sh.wrappedKey) == Some(random)
  {
    var gs := ActiveOnly(rows);
    assert g in rows;
    ActiveIsKept(rows, g);
    var k: nat :| k < |gs| && gs[k] == g;
    PeersStay(t, gs, peers, k);
    RotationLaws.TurnIsLogged(t, gs, random, tee, PeersOf(peers), k);
    sh := RotationLaws.ReachedCanUnwrap(t, gs, random, tee, PeersOf(peers), k, scalar);
  }

  // ----- runs -----

  /** Ready and confirm calls from any callers, and anything else that writes key or database. */
  datatype Step = Ready(session: nat) | Confirm(body: ConfirmBody, sealed: bool) | OtherWriter

  ghost predicate Next(n: Node, step: Step, n': Node) {
    match step
    case Ready(session) => n' == n.(pending := Some(session))
    case Confirm(body, sealed) =>
      var (handed, receipt) := ReceivePayload(n, body, sealed);
      n'.pending == handed.pending && (receipt.Failed? ==> n' == handed)
    case OtherWriter => n'.pending == n.pending
  }

  ghost predicate Run(nodes: seq<Node>, steps: seq<Step>) {
    && |nodes| == |steps| + 1 && nodes[0].pending == None
    && (forall i :: 0 <= i < |steps| ==> Next(nodes[i], steps[i], nodes[i + 1]))
  }

  ghost predicate AppliesAt(nodes: seq<Node>, steps: seq<Step>, j: nat)
    requires Run(nodes, steps)
  {
    j < |steps| && steps[j].Confirm? && ReceivePayload(nodes[j], steps[j].body, steps[j].sealed).1.Applied?
  }

  /** A pending session is the one of the last ready call, and no handover was applied since that call. */
  lemma {:induction false} PendingIsTheLastReady(nodes: seq<Node>, steps: seq<Step>, j: nat) returns (i: nat)
    requires Run(nodes, steps) && j <= |steps| && nodes[j].pending.Some?
    ensures i < j && steps[i] == Ready(nodes[j].pending.value)
    ensures forall k :: i < k < j ==> !steps[k].Ready? && !AppliesAt(nodes, steps, k)
  {
    assert Next(nodes[j - 1], steps[j - 1], nodes[j]);
    if steps[j - 1].Ready? {
      i := j - 1;
    } else {
      i := PendingIsTheLastReady(nodes, steps, j - 1);
      if steps[j - 1].Confirm? {
        ChangeNeedsTheLatestSession(nodes[j - 1], steps[j - 1].body, steps[j - 1].sealed);
      }
    }
  }

  /**
    Applied confirms map one-to-one into ready calls: each one's key was wrapped against the session of a
    ready call before it, and for a later applied confirm that call comes after the earlier confirm.
   */
  lemma AppliedConfirmsAreOneToOne(nodes: seq<Node>, steps: seq<Step>, j1: nat, j2: nat) returns (i1: nat, i2: nat)
    requires Run(nodes, steps) && j1 < j2 && AppliesAt(nodes, steps, j1) && AppliesAt(nodes, steps, j2)
    ensures i1 < j1 < i2 < j2 && steps[i1].Ready? && steps[i2].Ready?
    ensures Agree(steps[i1].session, steps[j1].body.guardianKey).Some?
    ensures Agree(steps[i2].session, steps[j2].body.guardianKey).Some?
    ensures steps[j1].body.encryptedKey.value.key == Agree(steps[i1].session, steps[j1].body.guardianKey).value
    ensures steps[j2].body.encryptedKey.value.key == Agree(steps[i2].session, steps[j2].body.guardianKey).value
  {
    ChangeNeedsTheLatestSession(nodes[j1], steps[j1].body, steps[j1].sealed);
    ChangeNeedsTheLatestSession(nodes[j2], steps[j2].body, steps[j2].sealed);
    i1 := PendingIsTheLastReady(nodes, steps, j1);
    i2 := PendingIsTheLastReady(nodes, steps, j2);
  }

  // ----- several guardians at one backup -----

  /** The confirm `j` carries the payload that a guardian built from the answer to the ready call `i`. */
  ghost predicate Answers(steps: seq<Step>, i: nat, j: nat, t: Tables, g: Succession.Guard, turn: Succession.Turn) {
    && i < j < |steps| && steps[i].Ready? && steps[j].Confirm?
    && Succession.Sends(g, turn) && turn.contact.x25519 == Point(steps[i].session)
    && steps[j].body == BodyOf(Succession.PayloadFor(t, g, turn))
  }

  /** No two ready calls draw the same session. */
  ghost predicate FreshSessions(steps: seq<Step>) {
    forall i, j :: 0 <= i < j < |steps| && steps[i].Ready? && steps[j].Ready? ==> steps[i].session != steps[j].session
  }

  /** Nothing between the two calls replaced or consumed the session. */
  ghost predicate Undisturbed(nodes: seq<Node>, steps: seq<Step>, i: nat, j: nat)
    requires Run(nodes, steps)
  {
    forall k :: i < k < j && k < |steps| ==> !steps[k].Ready? && !AppliesAt(nodes, steps, k)
  }

  /** A handover was applied after `i`, and no ready call came between it and `j`. */
  ghost predicate TakenSince(nodes: seq<Node>, steps: seq<Step>, i: nat, j: nat)
    requires Run(nodes, steps) && j <= |steps|
  {
    exists k: nat :: i < k < j && AppliesAt(nodes, steps, k) && forall m :: k < m < j ==> !steps[m].Ready?
  }

  lemma PendingMoves(nodes: seq<Node>, steps: seq<Step>, j: nat)
    requires Run(nodes, steps) && j < |steps|
    ensures nodes[j + 1].pending ==
            if steps[j].Ready? then Some(steps[j].session)
            else if AppliesAt(nodes, steps, j) then None else nodes[j].pending
  {
    assert Next(nodes[j], steps[j], nodes[j + 1]);
    if steps[j].Confirm? { ChangeNeedsTheLatestSession(nodes[j], steps[j].body, steps[j].sealed); }
  }

  lemma {:induction false} PendingStays(nodes: seq<Node>, steps: seq<Step>, i: nat, j: nat)
    requires Run(nodes, steps) && i < j <= |steps| && steps[i].Ready?
    ensures Undisturbed(nodes, steps, i, j) ==> nodes[j].pending == Some(steps[i].session)
    ensures nodes[j].pending == None <==> TakenSince(nodes, steps, i, j)
  {
    PendingMoves(nodes, steps, j - 1);
    if i + 1 < j {
      PendingStays(nodes, steps, i, j - 1);
      if k: nat :| i < k < j - 1 && AppliesAt(nodes, steps, k) && forall m :: k < m < j - 1 ==> !steps[m].Ready? {
        assert !steps[j - 1].Ready? ==> forall m :: k < m < j ==> !steps[m].Ready?;
      }
    }
  }

  /**
    When a guardian's handover lands: exactly when the key can be sealed and, between its ready call and its
    confirm, no other ready call came and no other handover was applied. And when it is told ok: exactly when
    its own lands, or another's was applied and no ready call came since.
   */
  lemma LandsExactly(nodes: seq<Node>, steps: seq<Step>, i: nat, j: nat, t: Tables, g: Succession.Guard, turn: Succession.Turn)
    requires Run(nodes, steps) && FreshSessions(steps) && Answers(steps, i, j, t, g, turn)
    ensures AppliesAt(nodes, steps, j) <==> steps[j].sealed && Undisturbed(nodes, steps, i, j)
    ensures !ReceivePayload(nodes[j], steps[j].body, steps[j].sealed).1.Failed? <==>
            AppliesAt(nodes, steps, j) || TakenSince(nodes, steps, i, j)
  {
    var s := steps[i].session;
    HandoverRoundTrip(t, g, turn, s, nodes[j], steps[j].sealed);
    PendingStays(nodes, steps, i, j);
    if nodes[j].pending == Some(s) {
      var last := PendingIsTheLastReady(nodes, steps, j);
      assert last == i;
    }
  }

  /**
    Two guardians that race for one backup: when the second one's ready call comes between the first one's two
    calls, the first handover does not land. Both land exactly when both can be sealed and neither is disturbed.
   */
  lemma RacingGuardians(nodes: seq<Node>, steps: seq<Step>, i1: nat, j1: nat, i2: nat, j2: nat,
                        t1: Tables, g1: Succession.Guard, turn1: Succession.Turn,
                        t2: Tables, g2: Succession.Guard, turn2: Succession.Turn)
    requires Run(nodes, steps) && FreshSessions(steps)
    requires Answers(steps, i1, j1, t1, g1, turn1) && Answers(steps, i2, j2, t2, g2, turn2) && i1 < i2
    ensures i2 < j1 ==> !AppliesAt(nodes, steps, j1)
    ensures AppliesAt(nodes, steps, j1) && AppliesAt(nodes, steps, j2) <==>
            && steps[j1].sealed && steps[j2].sealed && j1 < i2
            && Undisturbed(nodes, steps, i1, j1) && Undisturbed(nodes, steps, i2, j2)
  {
    LandsExactly(nodes, steps, i1, j1, t1, g1, turn1);
    LandsExactly(nodes, steps, i2, j2, t2, g2, turn2);
    assert j1 != i2;
  }
}
