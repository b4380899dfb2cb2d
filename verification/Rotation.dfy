/** The new primary's side of succession: receiving the handover, and rotating the vault key afterwards. */
module Rotation {
  import opened Prelude
  import opened Crypto
  import opened ProtocolState
  import opened SequenceNumbers
  import opened Succession
  import Snap = Snapshots
  import DB = ProtocolDatabase

  // ----- receive -----

  /** `handleSuccessionReceive` on values: key and database when it returns, `None` when it throws. */
  function Received(wrapped: Sealed<seq<byte>>, s: Snap.Snapshot, shared: Key, lastKnown: int): Option<(seq<byte>, Tables)> {
    match Open(shared, wrapped)
    case None => None
    case Some(key) =>
      if !Snap.Increasing(s, lastKnown) then None
      else match Snap.Image(s, Raw(key))
        case None => None
        case Some(image) => Some((key, image))
  }

  method HandleSuccessionReceive(wrapped: Sealed<seq<byte>>, s: Snap.Snapshot, shared: Key, db: DB.Database, lastKnown: int)
    returns (key: Option<array<byte>>)
    modifies db
    ensures key.Some? <==> Received(wrapped, s, shared, lastKnown).Some?
    ensures key.Some? ==>
              fresh(key.value) && (key.value[..], db.tables) == Received(wrapped, s, shared, lastKnown).value
    ensures key == None ==> db.tables == old(db.tables)
    ensures key.Some? <==>
              && wrapped.Sealed? && wrapped.key == shared && (shared.Raw? ==> |shared.bytes| == 32)
              && s.sequenceNum.Int? && s.sequenceNum.value > lastKnown
              && s.encrypted.Sealed? && s.encrypted.key == Raw(wrapped.plain) && |wrapped.plain| == 32
              && s.checksum.Sha256? && s.checksum.image == s.encrypted.plain
    ensures key.Some? ==> key.value[..] == wrapped.plain && db.tables == s.encrypted.plain
  {
    var unwrapped := Open(shared, wrapped);
    if unwrapped == None { return None; }
    var vaultKey := new byte[|unwrapped.value|](i requires 0 <= i < |unwrapped.value| => unwrapped.value[i]);
    assert vaultKey[..] == unwrapped.value;
    if !Snap.Increasing(s, lastKnown) { return None; }
    var manager := new Snap.SnapshotManager(db, vaultKey, "");
    var outcome := manager.ApplySnapshot(s);
    if outcome.Threw? { return None; }
    key := Some(vaultKey);
  }

  datatype Call = Call(wrapped: Sealed<seq<byte>>, snapshot: Snap.Snapshot, shared: Key)

  /** A node that keeps the last number it accepted and hands it to the next call. */
  datatype Receiver = Receiver(tables: Tables, last: int, accepted: seq<int>)

  function ReceiveNext(r: Receiver, call: Call): Receiver {
    match Received(call.wrapped, call.snapshot, call.shared, r.last)
    case None => r
    case Some((_, image)) => Receiver(image, call.snapshot.sequenceNum.value, r.accepted + [call.snapshot.sequenceNum.value])
  }

  function ReceiveAll(r: Receiver, calls: seq<Call>): Receiver {
    if calls == [] then r else ReceiveNext(ReceiveAll(r, calls[..|calls| - 1]), calls[|calls| - 1])
  }

  /**
    Over any sequence of calls the accepted numbers strictly increase from the one the node started with,
    and the database is the image of the last accepted call, or untouched when none was accepted.
   */
  lemma {:induction false} AcceptedNumbersIncrease(t: Tables, last: int, calls: seq<Call>)
    ensures var r := ReceiveAll(Receiver(t, last, []), calls);
            && (forall i :: 0 <= i < |r.accepted| ==> last < r.accepted[i])
            && (forall i, j :: 0 <= i < j < |r.accepted| ==> r.accepted[i] < r.accepted[j])
            && r.last == (if r.accepted == [] then last else r.accepted[|r.accepted| - 1])
            && (if r.accepted == [] then r.tables == t
                else exists k, key :: 0 <= k < |calls| && calls[k].snapshot.sequenceNum == Int(r.last)
                       && Open(calls[k].shared, calls[k].wrapped) == Some(key)
                       && Snap.Image(calls[k].snapshot, Raw(key)) == Some(r.tables))
  {
    if calls != [] {
      var front := calls[..|calls| - 1];
      var call := calls[|calls| - 1];
      AcceptedNumbersIncrease(t, last, front);
      var before := ReceiveAll(Receiver(t, last, []), front);
      var now := Received(call.wrapped, call.snapshot, call.shared, before.last);
      if now.Some? {
        assert Open(calls[|calls| - 1].shared, calls[|calls| - 1].wrapped) == Some(now.value.0);
      } else if before.accepted != [] {
        var k, key :| 0 <= k < |front| && front[k].snapshot.sequenceNum == Int(before.last)
                      && Open(front[k].shared, front[k].wrapped) == Some(key)
                      && Snap.Image(front[k].snapshot, Raw(key)) == Some(before.tables);
        assert calls[k] == front[k];
      }
    }
  }

  // ----- rotation -----

  class VaultKeyManager {
    var key: array<byte>

    constructor (key: array<byte>)
      ensures this.key == key
    {
      this.key := key;
    }

    method ReplaceKey(newKey: array<byte>)
      modifies this
      ensures key == newKey
    {
      key := newKey;
    }
  }

  /**
    Everything outside the loop during one guardian's turn: the scalar of the fresh session and the guardian's
    public key (or the exchange's failure), what making the snapshot draws, the signing service, the reply, and
    what other code writes while the turn waits for the exchange and for the delivery.
   */
  datatype Turn = Turn(
    exchange: Option<(nat, PublicKey)>, draw: Snap.Draw, sign: Option<string -> Snap.Signature>, reply: Delivery,
    whileExchanging: Others, whileSending: Others)

  /** The key exchange may look things up in the database. */
  type Peers = (Guardian, Tables) -> Turn

  datatype Shipment = Shipment(wrappedKey: Sealed<seq<byte>>, snapshot: Snap.Snapshot, primaryKey: PublicKey)
  datatype Entry = Tried(guardian: Guardian) | Shipped(guardian: Guardian, shipment: Shipment) | Acknowledged(guardian: Guardian)

  function Shared(turn: Turn): Option<Key> {
    if turn.exchange == None then None else Agree(turn.exchange.value.0, turn.exchange.value.1)
  }

  function SignerFor(turn: Turn): Snap.Signer {
    (text: string) => if turn.sign.None? then None else Some(turn.sign.value(text))
  }

  predicate Ships(turn: Turn) {
    Shared(turn).Some? && turn.sign.Some?
  }

  function ActiveOnly(gs: seq<Guardian>): seq<Guardian> {
    if gs == [] then [] else (if gs[0].status == Active then [gs[0]] else []) + ActiveOnly(gs[1..])
  }

  /** What is sent when the turn finds the database as `t` once it makes the snapshot. */
  function ShipmentFor(t: Tables, key: seq<byte>, tee: string, turn: Turn): Shipment
    requires |key| == 32 && Ships(turn)
  {
    Shipment(Sealed(Shared(turn).value, key), Snap.Created(t, Raw(key), tee, SignerFor(turn), turn.draw).value,
             Point(turn.exchange.value.0))
  }

  function TurnEntries(t: Tables, g: Guardian, key: seq<byte>, tee: string, turn: Turn): seq<Entry>
    requires |key| == 32
  {
    [Tried(g)]
    + (if Ships(turn) then [Shipped(g, ShipmentFor(turn.whileExchanging(t), key, tee, turn))] else [])
    + (if Ships(turn) && turn.reply == Confirmed then [Acknowledged(g)] else [])
  }

  function TurnTables(t: Tables, turn: Turn): Tables {
    var t1 := turn.whileExchanging(t);
    if Shared(turn).Some? then turn.whileSending(Snap.Bumped(t1)) else t1
  }

  /** The distribution loop: database and log after giving every guardian of `gs` its turn. */
  function Distribute(t: Tables, gs: seq<Guardian>, key: seq<byte>, tee: string, net: Peers): (Tables, seq<Entry>)
    requires |key| == 32
    decreases |gs|
  {
    if gs == [] then (t, [])
    else
      var turn := net(gs[0], t);
      var rest := Distribute(TurnTables(t, turn), gs[1..], key, tee, net);
      (rest.0, TurnEntries(t, gs[0], key, tee, turn) + rest.1)
  }

  /** A whole rotation, as far as database and wire go. */
  function Rotated(t: Tables, guardians: seq<Guardian>, key: seq<byte>, tee: string, net: Peers, sealed: bool,
                   whileSealing: Others): (Tables, seq<Entry>)
    requires |key| == 32
  {
    var (t1, log) := Distribute(t, ActiveOnly(guardians), key, tee, net);
    var t2 := whileSealing(t1);
    (if sealed then LogEvent(t2, VaultKeyRotated, None) else t2, log)
  }

  function Zeros(n: nat): seq<byte> {
    seq(n, _ => 0)
  }

  lemma JoinLog(a: seq<Entry>, b: seq<Entry>, c: seq<Entry>)
    ensures a + (b + c) == (a + b) + c
  {
  }

  /**
    `None` when sealing fails, which by then leaves the old key zeroed and the new one installed all the same.
    The new key lives in an array of its own, out of reach of the zeroing.
   */
  method RotateVaultKey(db: DB.Database, oldVaultKey: array<byte>, manager: VaultKeyManager, guardians: seq<Guardian>,
                        net: Peers, random: seq<byte>, tee: string, sealed: bool, whileSealing: Others)
    returns (newKey: Option<array<byte>>, log: seq<Entry>)
    requires |random| == 32
    modifies db, oldVaultKey, manager
    ensures (db.tables, log) == Rotated(old(db.tables), guardians, random, tee, net, sealed, whileSealing)
    ensures oldVaultKey[..] == Zeros(oldVaultKey.Length)
    ensures fresh(manager.key) && manager.key != oldVaultKey && manager.key[..] == random
    ensures newKey == if sealed then Some(manager.key) else None
    ensures if sealed then db.tables.events != [] && db.tables.events[|db.tables.events| - 1] == Event(VaultKeyRotated, None)
            else exists t :: db.tables == whileSealing(t)
  {
    var key := new byte[32](i requires 0 <= i < 32 => random[i]);
    assert key[..] == random;
    var snapshots := new Snap.SnapshotManager(db, key, tee);
    var active := ActiveOnly(guardians);
    ghost var all := Distribute(db.tables, active, random, tee, net);
    log := [];
    assert active[0..] == active && [] + all.1 == all.1;
    var i := 0;
    while i < |active|
      invariant 0 <= i <= |active| && key[..] == random
      invariant oldVaultKey[..] == old(oldVaultKey[..])
      invariant var rest := Distribute(db.tables, active[i..], random, tee, net); all == (rest.0, log + rest.1)
    {
      assert active[i..][1..] == active[i + 1..];
      var entries := ServeGuardian(snapshots, active[i], net(active[i], db.tables));
      JoinLog(log, entries, Distribute(db.tables, active[i + 1..], random, tee, net).1);
      log := log + entries;
      i := i + 1;
    }
    assert log + [] == log;
    Zero(oldVaultKey);
    manager.ReplaceKey(key);
    db.Await(whileSealing);
    if !sealed { return None, log; }
    db.LogEvent(VaultKeyRotated, None);
    newKey := Some(key);
  }

  /** The body of the distribution loop; whatever fails, the loop goes on. */
  method ServeGuardian(snapshots: Snap.SnapshotManager, g: Guardian, turn: Turn) returns (entries: seq<Entry>)
    requires snapshots.vaultKey.Length == 32
    modifies snapshots.db
    ensures entries == TurnEntries(old(snapshots.db.tables), g, snapshots.vaultKey[..], snapshots.tee, turn)
    ensures Acknowledged(g) in entries <==>
              turn.exchange.Some? && turn.exchange.value.1.Point? && turn.sign.Some? && turn.reply == Confirmed
    ensures snapshots.db.tables == TurnTables(old(snapshots.db.tables), turn)
  {
    entries := [Tried(g)];
    snapshots.db.Await(turn.whileExchanging);
    var shared := Shared(turn);
    if shared == None { return; }
    var wrapped := Sealed(shared.value, snapshots.vaultKey[..]);
    var made := snapshots.CreateSnapshot(SignerFor(turn), turn.draw);
    snapshots.db.Await(turn.whileSending);
    if made == None { return; }
    entries := entries + [Shipped(g, Shipment(wrapped, made.value, Point(turn.exchange.value.0)))];
    if turn.reply == Confirmed { entries := entries + [Acknowledged(g)]; }
  }

  /** `fill(0)` */
  method Zero(a: array<byte>)
    modifies a
    ensures a[..] == Zeros(a.Length)
  {
    var i := 0;
    while i < a.Length
      invariant 0 <= i <= a.Length && forall k :: 0 <= k < i ==> a[k] == 0
    {
      a[i] := 0;
      i := i + 1;
    }
  }
}
