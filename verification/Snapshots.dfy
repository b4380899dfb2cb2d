/**
  Encrypted whole-database snapshots. The sequence counter is decimal text kept inside the very database
  that is serialised, and the image is taken before the counter moves.
 */
module Snapshots {
  import opened Prelude
  import opened Crypto
  import opened Decimal
  import opened ProtocolState
  import opened SequenceNumbers
  import opened SignedPayload
  import DB = ProtocolDatabase

  const COUNTER := SnapshotSequenceNum

  /** A checksum is its text; for a digest that was computed, the image it was computed from comes with it. */
  datatype Digest = Sha256(image: Tables, hex: string) | OtherDigest(hex: string)

  /** An Ed25519 signature covers one text. */
  datatype Signature = SignedBy(signer: nat, text: string) | BadSignature

  /** `encrypted` is what the text `encryptedDb`, the IV and the authentication tag together stand for. */
  datatype Snapshot = Snapshot(
    encrypted: Sealed<Tables>, encryptedDb: string, sequenceNum: Number, checksum: Digest,
    signedBy: string, signature: Signature, timestamp: int)

  /** The signing service: it answers or throws. */
  type Signer = string -> Option<Signature>

  /** What the clock, the cipher under its random IV and the hash yield while one snapshot is made. */
  datatype Draw = Draw(now: int, ciphertext: seq<byte>, hex: string)

  /** One more than the stored number; 1 when none is stored. */
  function NextNumber(t: Tables): Number {
    var last := GetConfig(t, COUNTER);
    if !Truthy(last) then Int(1)
    else match ParseInt(last.value) case None => NaN case Some(n) => Int(n + 1)
  }

  function Bumped(t: Tables): Tables {
    SetConfig(t, COUNTER, NumberText(NextNumber(t)))
  }

  /** The database after `createSnapshot`: the number is spent even when the signer then throws. */
  function AfterCreate(t: Tables, key: Key): Tables {
    if UsableKey(key) then Bumped(t) else t
  }

  /** The text that a snapshot's signature has to cover. */
  function SignedText(s: Snapshot): string {
    s.encryptedDb + NumberText(s.sequenceNum) + s.checksum.hex
  }

  /** The snapshot as it waits for its signature. */
  function Drafted(t: Tables, key: Key, tee: string, draw: Draw): Option<Snapshot> {
    if !UsableKey(key) then None
    else Some(Snapshot(Sealed(key, t), Base64(draw.ciphertext), NextNumber(t), Sha256(t, draw.hex), tee, BadSignature, draw.now))
  }

  function Created(t: Tables, key: Key, tee: string, sign: Signer, draw: Draw): Option<Snapshot> {
    match Drafted(t, key, tee, draw)
    case None => None
    case Some(draft) =>
      match sign(SignedText(draft))
      case None => None
      case Some(signature) => Some(draft.(signature := signature))
  }

  /** The image a snapshot installs under `key`, when it opens and its checksum matches. */
  function Image(s: Snapshot, key: Key): Option<Tables> {
    match Open(key, s.encrypted)
    case None => None
    case Some(t) => if s.checksum.Sha256? && s.checksum.image == t then Some(t) else None
  }

  predicate Increasing(s: Snapshot, lastKnown: int) {
    s.sequenceNum.Int? && s.sequenceNum.value > lastKnown
  }

  /** What `verifySnapshot` checks, for a snapshot, a vault key and the signer it is expected from. */
  predicate Verifies(s: Snapshot, key: Key, signer: nat) {
    s.signature == SignedBy(signer, SignedText(s)) && Image(s, key).Some?
  }

  class SnapshotManager {
    const db: DB.Database
    const vaultKey: array<byte>
    const tee: string

    constructor (db: DB.Database, vaultKey: array<byte>, tee: string)
      ensures this.db == db && this.vaultKey == vaultKey && this.tee == tee
    {
      this.db, this.vaultKey, this.tee := db, vaultKey, tee;
    }

    function CurrentKey(): Key
      reads vaultKey
    {
      Raw(vaultKey[..])
    }

    /** Up to the signing service: serialise, encrypt, spend a number. */
    method DraftSnapshot(draw: Draw) returns (draft: Option<Snapshot>)
      modifies db
      ensures draft == Drafted(old(db.tables), old(CurrentKey()), tee, draw)
      ensures db.tables == AfterCreate(old(db.tables), old(CurrentKey()))
      ensures draft.Some? <==> vaultKey.Length == 32
      ensures draft.Some? ==>
                var last, number := GetConfig(old(db.tables), COUNTER), draft.value.sequenceNum;
                && (last in {None, Some("")} ==> number == Int(1))
                && (last !in {None, Some("")} ==>
                      if ParseInt(last.value) == None then number == NaN else number == Int(ParseInt(last.value).value + 1))
    {
      var plaintext := db.tables;
      var encrypted := Seal(Raw(vaultKey[..]), plaintext);
      if encrypted == None { return None; }
      var encryptedDb := Base64(draw.ciphertext);
      var last := GetConfig(db.tables, COUNTER);
      var number := Int(1);
      if Truthy(last) {
        var parsed := ParseInt(last.value);
        number := if parsed == None then NaN else Int(parsed.value + 1);
      }
      db.SetConfig(COUNTER, NumberText(number));
      draft := Some(Snapshot(encrypted.value, encryptedDb, number, Sha256(plaintext, draw.hex), tee, BadSignature, draw.now));
    }

    method CreateSnapshot(sign: Signer, draw: Draw) returns (made: Option<Snapshot>)
      modifies db
      ensures made == Created(old(db.tables), old(CurrentKey()), tee, sign, draw)
      ensures db.tables == AfterCreate(old(db.tables), old(CurrentKey()))
      ensures made.Some? ==>
                var s := made.value;
                && s.encrypted == Sealed(Raw(vaultKey[..]), old(db.tables)) && s.encryptedDb == Base64(draw.ciphertext)
                && s.checksum == Sha256(old(db.tables), draw.hex) && s.signedBy == tee && s.timestamp == draw.now
                && sign(s.encryptedDb + NumberText(s.sequenceNum) + s.checksum.hex) == Some(s.signature)
                && GetConfig(db.tables, COUNTER) == Some(NumberText(s.sequenceNum))
      ensures db.tables == old(db.tables).(config := db.tables.config)
      ensures vaultKey.Length != 32 ==> db.tables == old(db.tables) && made == None
    {
      var draft := DraftSnapshot(draw);
      if draft == None { return None; }
      var signature := sign(SignedText(draft.value));
      if signature == None { return None; }
      made := Some(draft.value.(signature := signature.value));
    }

    predicate VerifySnapshot(s: Snapshot, signer: nat)
      reads vaultKey
    {
      Verifies(s, CurrentKey(), signer)
    }

    method ApplySnapshot(s: Snapshot) returns (outcome: Outcome)
      modifies db
      ensures outcome.Returned? <==> Image(s, old(CurrentKey())).Some?
      ensures db.tables == if outcome.Returned? then Image(s, old(CurrentKey())).value else old(db.tables)
      ensures outcome.Returned? <==>
                && s.encrypted.Sealed? && s.encrypted.key == Raw(vaultKey[..]) && vaultKey.Length == 32
                && s.checksum.Sha256? && s.checksum.image == s.encrypted.plain
      ensures outcome.Returned? ==> db.tables == s.encrypted.plain
    {
      var decrypted := Open(Raw(vaultKey[..]), s.encrypted);
      if decrypted == None { return Threw; }
      if !s.checksum.Sha256? || s.checksum.image != decrypted.value { return Threw; }
      db.Replace(decrypted.value);
      outcome := Returned;
    }
  }

  /**
    A snapshot made with an honest signer verifies for that signer and the sealing key only, and restores the
    very image it was taken from.
   */
  lemma SnapshotRoundTrip(t: Tables, key: Key, tee: string, sign: Signer, draw: Draw, signer: nat, otherKey: Key, otherSigner: nat)
    requires UsableKey(key)
    requires var text := SignPayload(draw.ciphertext, NextNumber(t), draw.hex); sign(text) == Some(SignedBy(signer, text))
    ensures Created(t, key, tee, sign, draw).Some?
    ensures var s := Created(t, key, tee, sign, draw).value;
            && Image(s, key) == Some(t)
            && (Verifies(s, otherKey, otherSigner) <==> otherKey == key && otherSigner == signer)
  {
  }
}

/** What a snapshot's signature vouches for, although the text it covers has no separators. */
module SignatureLaws {
  import opened Prelude
  import opened Crypto
  import opened Decimal
  import opened ProtocolState
  import opened SequenceNumbers
  import opened SignedPayload
  import opened Snapshots

  /** The number of bytes that the Base64 decoder gets out of a text. */
  type DecodedLength = string -> nat

  /**
    The hash and the cipher, as far as two snapshots that open under one key go: a checksum has 64 digits and
    the two images do not collide, and AES-GCM keeps the length, so one image has one length of ciphertext.
   */
  ghost predicate Physical(a: Snapshot, b: Snapshot, key: Key, length: DecodedLength) {
    && |a.checksum.hex| == |b.checksum.hex| == CHECKSUM_LENGTH
    && (a.checksum.hex == b.checksum.hex ==> Image(a, key) == Image(b, key))
    && (Image(a, key) == Image(b, key) ==> length(a.encryptedDb) == length(b.encryptedDb))
  }

  /** Two verified snapshots carry one signature. */
  predicate ShareSignature(a: Snapshot, b: Snapshot, key: Key, signer: nat) {
    Verifies(a, key, signer) && Verifies(b, key, signer) && a.signature == b.signature
  }

  predicate SameFields(a: Snapshot, b: Snapshot) {
    a.encryptedDb == b.encryptedDb && a.sequenceNum == b.sequenceNum && a.checksum.hex == b.checksum.hex
  }

  /** The checksums agree, and with them the images; what is left is where the number begins. */
  lemma ChecksumsAgree(a: Snapshot, b: Snapshot, key: Key, signer: nat, length: DecodedLength)
    requires ShareSignature(a, b, key, signer) && Physical(a, b, key, length)
    ensures a.checksum.hex == b.checksum.hex && length(a.encryptedDb) == length(b.encryptedDb)
    ensures a.encryptedDb + NumberText(a.sequenceNum) == b.encryptedDb + NumberText(b.sequenceNum)
  {
    SameStem(a.encryptedDb + NumberText(a.sequenceNum), b.encryptedDb + NumberText(b.sequenceNum), a.checksum.hex, b.checksum.hex);
  }

  lemma {:induction false} Base64Length(bytes: seq<byte>)
    ensures |Base64(bytes)| == (|bytes| + 2) / 3 * 4
  {
    if |bytes| > 2 { Base64Length(bytes[3..]); }
  }

  lemma CutIsFixed(e: string, m: Number, e': string, n: Number)
    requires e + NumberText(m) == e' + NumberText(n) && |e| == |e'|
    ensures e == e' && m == n
  {
    assert |NumberText(m)| == |NumberText(n)|;
    SameStem(e, e', NumberText(m), NumberText(n));
    NumberTextIsInjective(m, n);
  }

  /**
    Among snapshots whose ciphertext is Base64 as the encoder writes it, a signature vouches for one ciphertext,
    one number and one checksum: the checksum fixes the image, the image the length of the ciphertext, and
    that length where the number begins.
   */
  lemma OneReadingPerSignature(a: Snapshot, x: seq<byte>, b: Snapshot, y: seq<byte>, key: Key, signer: nat, length: DecodedLength)
    requires ShareSignature(a, b, key, signer) && Physical(a, b, key, length)
    requires a.encryptedDb == Base64(x) && b.encryptedDb == Base64(y)
    requires length(Base64(x)) == |x| && length(Base64(y)) == |y|
    ensures SameFields(a, b) && x == y
  {
    ChecksumsAgree(a, b, key, signer, length);
    Base64Length(x);
    Base64Length(y);
    CutIsFixed(Base64(x), a.sequenceNum, Base64(y), b.sequenceNum);
    Base64IsInjective(x, y);
  }

  // ----- every text that the decoder takes -----

  /** A signature vouches for the fields of every snapshot that verifies, whatever stands in for its ciphertext. */
  ghost predicate Vouches(length: DecodedLength) {
    forall a, b, key, signer ::
      ShareSignature(a, b, key, signer) && Physical(a, b, key, length) ==> SameFields(a, b)
  }

  /** `p` can be moved from the front of a number to the end of a ciphertext. */
  predicate Movable(p: string, m: Number, n: Number) {
    p != "" && NumberText(m) == p + NumberText(n)
  }

  /** A number's leading digits, added to a ciphertext, always add to what it decodes to. */
  ghost predicate DigitsCount(length: DecodedLength) {
    forall x, p, m, n :: Movable(p, m, n) ==> length(x + p) != length(x)
  }

  lemma LongerMoves(e: string, m: Number, e': string, n: Number)
    requires e + NumberText(m) == e' + NumberText(n) && |e| < |e'|
    ensures var p := e'[|e|..]; e' == e + p && Movable(p, m, n)
  {
    var p := e'[|e|..];
    assert e == (e + NumberText(m))[..|e|] && e'[..|e|] == (e' + NumberText(n))[..|e|];
    assert NumberText(m) == (e + NumberText(m))[|e|..];
    assert p + NumberText(n) == (e' + NumberText(n))[|e|..];
  }

  lemma DigitsCountVouches(a: Snapshot, b: Snapshot, key: Key, signer: nat, length: DecodedLength)
    requires DigitsCount(length) && ShareSignature(a, b, key, signer) && Physical(a, b, key, length)
    ensures SameFields(a, b)
  {
    ChecksumsAgree(a, b, key, signer, length);
    if |a.encryptedDb| < |b.encryptedDb| {
      LongerMoves(a.encryptedDb, a.sequenceNum, b.encryptedDb, b.sequenceNum);
    } else if |b.encryptedDb| < |a.encryptedDb| {
      LongerMoves(b.encryptedDb, b.sequenceNum, a.encryptedDb, a.sequenceNum);
    } else {
      CutIsFixed(a.encryptedDb, a.sequenceNum, b.encryptedDb, b.sequenceNum);
    }
  }

  lemma MovedDigits(x: string, p: string, m: Number, n: Number, length: DecodedLength)
    requires Movable(p, m, n) && length(x + p) == length(x)
    ensures !Vouches(length)
  {
    var key := Agreed(0, 0);
    var hex := seq(CHECKSUM_LENGTH, _ => '0');
    var text := x + NumberText(m) + hex;
    var a := Snapshot(Sealed(key, EMPTY), x, m, Sha256(EMPTY, hex), "", SignedBy(0, text), 0);
    var b := Snapshot(Sealed(key, EMPTY), x + p, n, Sha256(EMPTY, hex), "", SignedBy(0, text), 0);
    assert x + (p + NumberText(n)) == (x + p) + NumberText(n);
    assert SignedText(a) == text && SignedText(b) == text;
    assert Image(a, key) == Some(EMPTY) && Image(b, key) == Some(EMPTY);
    assert ShareSignature(a, b, key, 0) && Physical(a, b, key, length);
    assert |a.encryptedDb| != |b.encryptedDb|;
  }

  /**
    For all texts, exactly when a signature vouches for the fields: when the decoder never lets a number's
    leading digits pass unnoticed at the end of a ciphertext.
   */
  lemma VouchesExactly(length: DecodedLength)
    ensures Vouches(length) <==> DigitsCount(length)
  {
    if DigitsCount(length) {
      forall a, b, key, signer | ShareSignature(a, b, key, signer) && Physical(a, b, key, length) ensures SameFields(a, b) {
        DigitsCountVouches(a, b, key, signer, length);
      }
    } else {
      var x, p, m, n :| Movable(p, m, n) && length(x + p) == length(x);
      MovedDigits(x, p, m, n, length);
    }
  }

  // ----- a given snapshot -----

  /** Another snapshot, with other fields, verifies under this one's signature. */
  ghost predicate Rereadable(a: Snapshot, key: Key, signer: nat, length: DecodedLength) {
    exists b :: ShareSignature(a, b, key, signer) && Physical(a, b, key, length) && !SameFields(a, b)
  }

  /** The first digits of its number could stand at the end of its ciphertext unnoticed. */
  ghost predicate GivesDigits(a: Snapshot, length: DecodedLength) {
    exists p, n :: Movable(p, a.sequenceNum, n) && length(a.encryptedDb + p) == length(a.encryptedDb)
  }

  /** The end of its ciphertext could unnoticed stand in front of its number. */
  ghost predicate TakesDigits(a: Snapshot, length: DecodedLength) {
    exists e, p, m :: a.encryptedDb == e + p && Movable(p, m, a.sequenceNum) && length(e) == length(a.encryptedDb)
  }

  lemma Reread(a: Snapshot, e: string, n: Number, key: Key, signer: nat, length: DecodedLength)
    requires Verifies(a, key, signer) && |a.checksum.hex| == CHECKSUM_LENGTH
    requires e + NumberText(n) == a.encryptedDb + NumberText(a.sequenceNum) && length(e) == length(a.encryptedDb)
    requires e != a.encryptedDb
    ensures Rereadable(a, key, signer, length)
  {
    var b := a.(encryptedDb := e, sequenceNum := n);
    assert SignedText(b) == SignedText(a);
    assert ShareSignature(a, b, key, signer) && Physical(a, b, key, length) && !SameFields(a, b);
  }

  lemma RereadMoves(a: Snapshot, b: Snapshot, key: Key, signer: nat, length: DecodedLength)
    requires ShareSignature(a, b, key, signer) && Physical(a, b, key, length) && !SameFields(a, b)
    ensures GivesDigits(a, length) || TakesDigits(a, length)
  {
    ChecksumsAgree(a, b, key, signer, length);
    if |a.encryptedDb| < |b.encryptedDb| {
      LongerMoves(a.encryptedDb, a.sequenceNum, b.encryptedDb, b.sequenceNum);
    } else if |b.encryptedDb| < |a.encryptedDb| {
      LongerMoves(b.encryptedDb, b.sequenceNum, a.encryptedDb, a.sequenceNum);
    } else {
      CutIsFixed(a.encryptedDb, a.sequenceNum, b.encryptedDb, b.sequenceNum);
    }
  }

  lemma Shift(e: string, p: string, s: string)
    ensures e + (p + s) == (e + p) + s
    ensures p != "" ==> e + p != e
  {
    assert |e + p| == |e| + |p|;
  }

  lemma GivingRereads(a: Snapshot, p: string, n: Number, key: Key, signer: nat, length: DecodedLength)
    requires Verifies(a, key, signer) && |a.checksum.hex| == CHECKSUM_LENGTH
    requires Movable(p, a.sequenceNum, n) && length(a.encryptedDb + p) == length(a.encryptedDb)
    ensures Rereadable(a, key, signer, length)
  {
    Shift(a.encryptedDb, p, NumberText(n));
    Reread(a, a.encryptedDb + p, n, key, signer, length);
  }

  lemma TakingRereads(a: Snapshot, e: string, p: string, m: Number, key: Key, signer: nat, length: DecodedLength)
    requires Verifies(a, key, signer) && |a.checksum.hex| == CHECKSUM_LENGTH
    requires a.encryptedDb == e + p && Movable(p, m, a.sequenceNum) && length(e) == length(a.encryptedDb)
    ensures Rereadable(a, key, signer, length)
  {
    Shift(e, p, NumberText(a.sequenceNum));
    Reread(a, e, m, key, signer, length);
  }

  /** For a given verified snapshot: its signature vouches for other fields as well exactly when digits can be moved in it. */
  lemma RereadableExactly(a: Snapshot, key: Key, signer: nat, length: DecodedLength)
    requires Verifies(a, key, signer) && |a.checksum.hex| == CHECKSUM_LENGTH
    ensures Rereadable(a, key, signer, length) <==> GivesDigits(a, length) || TakesDigits(a, length)
  {
    if Rereadable(a, key, signer, length) {
      var b :| ShareSignature(a, b, key, signer) && Physical(a, b, key, length) && !SameFields(a, b);
      RereadMoves(a, b, key, signer, length);
    }
    if GivesDigits(a, length) {
      var p, n :| Movable(p, a.sequenceNum, n) && length(a.encryptedDb + p) == length(a.encryptedDb);
      GivingRereads(a, p, n, key, signer, length);
    }
    if TakesDigits(a, length) {
      var e, p, m :| a.encryptedDb == e + p && Movable(p, m, a.sequenceNum) && length(e) == length(a.encryptedDb);
      TakingRereads(a, e, p, m, key, signer, length);
    }
  }

  /** On text without padding: a decoder that keeps whole bytes, six bits to a symbol, and drops what is left over. */
  function WholeBytes(text: string): nat {
    |text| * 6 / 8
  }

  /** With such a decoder "AAAA" under number 12 and "AAAA1" under number 2 share a text and a length. */
  lemma WholeBytesDoNotVouch()
    ensures WholeBytes("AAAA" + "1") == WholeBytes("AAAA") && !Vouches(WholeBytes)
  {
    assert Digits(12) == Digits(1) + Digits(2);
    assert Movable("1", Int(12), Int(2));
    MovedDigits("AAAA", "1", Int(12), Int(2), WholeBytes);
  }
}

/** The counter law over every run of several nodes that exchange snapshots. */
module SnapshotLaws {
  import opened Prelude
  import opened Crypto
  import opened Decimal
  import opened ProtocolState
  import opened SequenceNumbers
  import opened Snapshots

  /** The counter is as `createSnapshot` leaves it: absent, or the text of a positive number. */
  ghost predicate WellCounted(t: Tables) {
    COUNTER in t.config ==> exists n :: n >= 1 && t.config[COUNTER] == ToText(n)
  }

  /** `s` carries number n >= 1, and its image holds counter n - 1 (no counter at all when n is 1). */
  ghost predicate Numbered(s: Snapshot) {
    && s.encrypted.Sealed?
    && s.sequenceNum.Int? && s.sequenceNum.value >= 1
    && GetConfig(s.encrypted.plain, COUNTER) ==
       (if s.sequenceNum.value == 1 then None else Some(ToText(s.sequenceNum.value - 1)))
  }

  lemma NextIsOneMore(t: Tables)
    requires WellCounted(t)
    ensures NextNumber(t).Int? && NextNumber(t).value >= 1
    ensures GetConfig(t, COUNTER) == if NextNumber(t).value == 1 then None else Some(ToText(NextNumber(t).value - 1))
    ensures WellCounted(Bumped(t))
    ensures NextNumber(Bumped(t)) == Int(NextNumber(t).value + 1)
  {
    if COUNTER in t.config {
      var n :| n >= 1 && t.config[COUNTER] == ToText(n);
      ParseReadsBack(n);
      TextIsNeverEmpty(n);
    }
    ParseReadsBack(NextNumber(t).value);
    TextIsNeverEmpty(NextNumber(t).value);
  }

  lemma NumberedImageContinues(s: Snapshot)
    requires Numbered(s)
    ensures WellCounted(s.encrypted.plain) && NextNumber(s.encrypted.plain) == s.sequenceNum
  {
    ParseReadsBack(s.sequenceNum.value - 1);
    TextIsNeverEmpty(s.sequenceNum.value - 1);
  }

  // ----- runs -----

  /** Several databases and the snapshots in circulation between them. */
  datatype World = World(nodes: seq<Tables>, issued: set<Snapshot>)

  datatype Step =
    | Create(node: nat, key: Key, tee: string, sign: Signer, draw: Draw)
    | Apply(node: nat, key: Key, snapshot: Snapshot)
    | Write(node: nat, after: Tables)

  /** A write is any change that leaves the counter key alone. */
  ghost predicate Next(w: World, step: Step, w': World) {
    && step.node < |w.nodes|
    && var t := w.nodes[step.node];
    match step
    case Create(k, key, tee, sign, draw) =>
      && w'.nodes == w.nodes[k := AfterCreate(t, key)]
      && w'.issued == w.issued + (match Created(t, key, tee, sign, draw) case None => {} case Some(s) => {s})
    case Apply(k, key, s) =>
      && s in w.issued
      && w' == w.(nodes := w.nodes[k := if Image(s, key).Some? then Image(s, key).value else t])
    case Write(k, after) =>
      && GetConfig(after, COUNTER) == GetConfig(t, COUNTER)
      && w' == w.(nodes := w.nodes[k := after])
  }

  ghost predicate Lawful(w: World) {
    && (forall k :: 0 <= k < |w.nodes| ==> WellCounted(w.nodes[k]))
    && (forall s <- w.issued :: Numbered(s))
  }

  ghost predicate Run(worlds: seq<World>, steps: seq<Step>) {
    && |worlds| == |steps| + 1 && Lawful(worlds[0])
    && (forall i :: 0 <= i < |steps| ==> Next(worlds[i], steps[i], worlds[i + 1]))
  }

  lemma NextIsLawful(w: World, step: Step, w': World)
    requires Lawful(w) && Next(w, step, w')
    ensures Lawful(w') && |w'.nodes| == |w.nodes|
  {
    var t := w.nodes[step.node];
    NextIsOneMore(t);
    if step.Apply? && Image(step.snapshot, step.key).Some? {
      NumberedImageContinues(step.snapshot);
    }
  }

  /** Every snapshot ever issued obeys the image law, on every node and at every point of every run. */
  lemma {:induction false} ImageLaw(worlds: seq<World>, steps: seq<Step>, i: nat)
    requires Run(worlds, steps) && i <= |steps|
    ensures Lawful(worlds[i]) && |worlds[i].nodes| == |worlds[0].nodes|
  {
    if i > 0 {
      ImageLaw(worlds, steps, i - 1);
      NextIsLawful(worlds[i - 1], steps[i - 1], worlds[i]);
    }
  }

  predicate Spends(step: Step, node: nat) {
    step.Create? && step.node == node && UsableKey(step.key)
  }

  predicate Loads(step: Step, node: nat) {
    step.Apply? && step.node == node && Image(step.snapshot, step.key).Some?
  }

  /** Numbers spent by `node` in steps i..j. */
  function Spent(steps: seq<Step>, node: nat, i: nat, j: nat): nat
    requires i <= j <= |steps|
  {
    if i == j then 0 else Spent(steps, node, i, j - 1) + if Spends(steps[j - 1], node) then 1 else 0
  }

  lemma StepMovesCounter(w: World, step: Step, w': World, node: nat)
    requires Lawful(w) && Next(w, step, w') && node < |w.nodes| && !Loads(step, node)
    ensures |w'.nodes| == |w.nodes| && NextNumber(w.nodes[node]).Int?
    ensures NextNumber(w'.nodes[node]) == Int(NextNumber(w.nodes[node]).value + if Spends(step, node) then 1 else 0)
  {
    NextIsOneMore(w.nodes[node]);
  }

  /** Between two applies on a node, its numbers are consecutive: none repeats and none is skipped. */
  lemma {:induction false} ConsecutiveBetweenApplies(worlds: seq<World>, steps: seq<Step>, node: nat, i: nat, j: nat)
    requires Run(worlds, steps) && i <= j <= |steps| && node < |worlds[0].nodes|
    requires forall m :: i <= m < j ==> !Loads(steps[m], node)
    ensures |worlds[i].nodes| == |worlds[j].nodes| == |worlds[0].nodes|
    ensures NextNumber(worlds[i].nodes[node]).Int?
    ensures NextNumber(worlds[j].nodes[node]) == Int(NextNumber(worlds[i].nodes[node]).value + Spent(steps, node, i, j))
  {
    ImageLaw(worlds, steps, i);
    if i == j {
      NextIsOneMore(worlds[i].nodes[node]);
    } else {
      ConsecutiveBetweenApplies(worlds, steps, node, i, j - 1);
      ImageLaw(worlds, steps, j - 1);
      StepMovesCounter(worlds[j - 1], steps[j - 1], worlds[j], node);
    }
  }

  lemma AppliedNumber(worlds: seq<World>, steps: seq<Step>, node: nat, i: nat)
    requires Run(worlds, steps) && i < |steps| && Loads(steps[i], node)
    ensures steps[i].snapshot.sequenceNum.Int? && node < |worlds[i + 1].nodes|
    ensures NextNumber(worlds[i + 1].nodes[node]) == steps[i].snapshot.sequenceNum
  {
    ImageLaw(worlds, steps, i);
    assert Next(worlds[i], steps[i], worlds[i + 1]);
    NumberedImageContinues(steps[i].snapshot);
  }

  lemma IssuedNumber(worlds: seq<World>, steps: seq<Step>, node: nat, j: nat, s: Snapshot)
    requires Run(worlds, steps) && j < |steps| && Spends(steps[j], node)
    requires s in worlds[j + 1].issued && s !in worlds[j].issued
    ensures node < |worlds[j].nodes| && s.sequenceNum == NextNumber(worlds[j].nodes[node])
  {
    assert Next(worlds[j], steps[j], worlds[j + 1]);
  }

  /**
    A node that has applied snapshot number n issues n again first: the image was taken before the counter
    moved, so the next snapshot is not newer than the one just applied.
   */
  lemma FirstNumberAfterApply(worlds: seq<World>, steps: seq<Step>, node: nat, i: nat, j: nat)
    requires Run(worlds, steps) && i < j < |steps| && node < |worlds[0].nodes|
    requires Loads(steps[i], node) && Spends(steps[j], node)
    requires forall m :: i < m < j ==> !Loads(steps[m], node) && !Spends(steps[m], node)
    ensures |worlds[j].nodes| == |worlds[0].nodes|
    ensures steps[i].snapshot.sequenceNum.Int?
    ensures NextNumber(worlds[j].nodes[node]) == steps[i].snapshot.sequenceNum
    ensures forall s :: s in worlds[j + 1].issued && s !in worlds[j].issued ==>
              s.sequenceNum == steps[i].snapshot.sequenceNum && !Increasing(s, steps[i].snapshot.sequenceNum.value)
  {
    AppliedNumber(worlds, steps, node, i);
    ConsecutiveBetweenApplies(worlds, steps, node, i + 1, j);
    NothingSpent(steps, node, i + 1, j);
    forall s | s in worlds[j + 1].issued && s !in worlds[j].issued ensures s.sequenceNum == NextNumber(worlds[j].nodes[node]) {
      IssuedNumber(worlds, steps, node, j, s);
    }
  }

  lemma LaterNumber(worlds: seq<World>, steps: seq<Step>, node: nat, i: nat, j: nat, s: Snapshot)
    requires Run(worlds, steps) && i < j < |steps| && node < |worlds[0].nodes|
    requires Loads(steps[i], node) && Spends(steps[j], node) && forall m :: i < m < j ==> !Loads(steps[m], node)
    requires s in worlds[j + 1].issued && s !in worlds[j].issued
    ensures steps[i].snapshot.sequenceNum.Int?
    ensures s.sequenceNum == Int(steps[i].snapshot.sequenceNum.value + Spent(steps, node, i + 1, j))
  {
    AppliedNumber(worlds, steps, node, i);
    ConsecutiveBetweenApplies(worlds, steps, node, i + 1, j);
    IssuedNumber(worlds, steps, node, j, s);
  }

  /**
    When what a node issues is newer than what it applied: a snapshot it makes after applying number n carries
    more than n exactly when it is not the first one it makes after that.
   */
  lemma NewerExactly(worlds: seq<World>, steps: seq<Step>, node: nat, i: nat, j: nat, s: Snapshot)
    requires Run(worlds, steps) && i < j < |steps| && node < |worlds[0].nodes|
    requires Loads(steps[i], node) && Spends(steps[j], node) && forall m :: i < m < j ==> !Loads(steps[m], node)
    requires s in worlds[j + 1].issued && s !in worlds[j].issued
    ensures steps[i].snapshot.sequenceNum.Int?
    ensures s.sequenceNum == Int(steps[i].snapshot.sequenceNum.value + Spent(steps, node, i + 1, j))
    ensures Increasing(s, steps[i].snapshot.sequenceNum.value) <==> exists m :: i < m < j && Spends(steps[m], node)
  {
    LaterNumber(worlds, steps, node, i, j, s);
    SpentExactly(steps, node, i + 1, j);
  }

  lemma {:induction false} SpentExactly(steps: seq<Step>, node: nat, i: nat, j: nat)
    requires i <= j <= |steps|
    ensures Spent(steps, node, i, j) > 0 <==> exists m :: i <= m < j && Spends(steps[m], node)
  {
    if i < j { SpentExactly(steps, node, i, j - 1); }
  }

  lemma {:induction false} NothingSpent(steps: seq<Step>, node: nat, i: nat, j: nat)
    requires i <= j <= |steps| && forall m :: i <= m < j ==> !Spends(steps[m], node)
    ensures Spent(steps, node, i, j) == 0
  {
    if i < j { NothingSpent(steps, node, i, j - 1); }
  }
}
