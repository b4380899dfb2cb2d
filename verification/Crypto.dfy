/**
  The cryptography, taken symbolically. X25519 (section 6.1 of RFC 7748) is a secret shared by an
  unordered pair of scalars; AES-256-GCM (section 7 of NIST SP 800-38D) is a box that opens to what was
  sealed under the very same 32-byte key and otherwise fails; SHA-256 is injective; an Ed25519 signature
  verifies for the key and the message it was made for.
 */
module Crypto {
  import opened Prelude

  datatype Key = Raw(bytes: seq<byte>) | Agreed(lo: nat, hi: nat)

  /** A public key as it arrives in a request: none at all, bytes that are no key, or a curve point. */
  datatype PublicKey = Empty | Malformed | Point(secret: nat)

  datatype Sealed<T> = Sealed(key: Key, plain: T) | Garbage

  /** A 256-bit cipher key; any other length makes the cipher constructor throw. */
  predicate UsableKey(k: Key) {
    k.Raw? ==> |k.bytes| == 32
  }

  function Agree(mine: nat, theirs: PublicKey): Option<Key> {
    if !theirs.Point? then None
    else if mine <= theirs.secret then Some(Agreed(mine, theirs.secret))
    else Some(Agreed(theirs.secret, mine))
  }

  function Seal<T>(k: Key, plain: T): (s: Option<Sealed<T>>)
    ensures s.Some? <==> UsableKey(k)
  {
    if UsableKey(k) then Some(Sealed(k, plain)) else None
  }

  function Open<T>(k: Key, s: Sealed<T>): Option<T> {
    if UsableKey(k) && s.Sealed? && s.key == k then Some(s.plain) else None
  }

  /** Both ends derive one secret, and a second party's scalar is recoverable from it given the first. */
  lemma AgreementIsSymmetricAndTight(a: nat, b: nat, c: nat)
    ensures Agree(a, Point(b)) == Agree(b, Point(a))
    ensures Agree(a, Point(b)) == Agree(a, Point(c)) <==> b == c
  {
  }
}
