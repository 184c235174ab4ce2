/**
 The cryptographic primitives, as functions about which only their usual laws are known.
 Every theorem that mentions a `Suite` or a `KeyExchange` holds for all implementations that obey the laws.
 */
module Primitives {
  import opened Wrappers
  import opened ByteStrings

  const TAG_SIZE := 16

  type Key = b: Bytes | |b| == 32 witness Zeros(32)
  type Nonce = b: Bytes | |b| == 12 witness Zeros(12)

  /** AES-256-GCM (seal, open) and HMAC-SHA256 (mac). */
  datatype Primitive = Primitive(
    seal: (Key, Nonce, Bytes, Bytes) -> Bytes,
    open: (Key, Nonce, Bytes, Bytes) -> Option<Bytes>,
    mac: (Bytes, Bytes) -> Key)

  /** Opening with the same key, nonce and associated data undoes sealing; the tag adds 16 bytes. */
  ghost predicate Lawful(c: Primitive) {
    forall k: Key, n: Nonce, p: Bytes, a: Bytes ::
      && c.open(k, n, c.seal(k, n, p, a), a) == Some(p)
      && |c.seal(k, n, p, a)| == |p| + TAG_SIZE
  }

  function IdentitySuite(): (c: Primitive)
    ensures Lawful(c)
  {
    Primitive(
      (k, n, p, a) => p + Zeros(TAG_SIZE),
      (k, n, x, a) => if |x| < TAG_SIZE then None else Some(x[..|x| - TAG_SIZE]),
      (k, m) => Zeros(32))
  }

  /** A suite with any function one likes as its HMAC. */
  function WithMac(mac: (Bytes, Bytes) -> Key): (c: Primitive)
    ensures Lawful(c) && c.mac == mac
  {
    IdentitySuite().(mac := mac)
  }

  type Suite = c: Primitive | Lawful(c) ghost witness IdentitySuite()

  type Share = b: Bytes | |b| == 32 witness Zeros(32)
  type EncapsulationKey = b: Bytes | |b| == 1184 witness Zeros(1184)
  type KemCiphertext = b: Bytes | |b| == 1088 witness Zeros(1088)
  datatype Encapsulated = Encapsulated(secret: Share, ciphertext: KemCiphertext)

  /** X25519, ML-KEM-768 (sizes of section 8 of FIPS 203) and Argon2id. Private keys are opaque byte strings. */
  datatype Exchange = Exchange(
    dhPublic: Bytes -> Share,
    dh: (Bytes, Share) -> Option<Share>,
    kemPublic: Bytes -> EncapsulationKey,
    encap: (EncapsulationKey, Bytes) -> Option<Encapsulated>,
    decap: (Bytes, KemCiphertext) -> Option<Share>,
    argon2: Bytes -> Key)

  /** Diffie-Hellman commutes on honest shares, and decapsulation undoes encapsulation to an honest key. */
  ghost predicate LawfulExchange(x: Exchange) {
    && (forall a: Bytes, b: Bytes ::
          x.dh(a, x.dhPublic(b)).Some? && x.dh(a, x.dhPublic(b)) == x.dh(b, x.dhPublic(a)))
    && (forall d: Bytes, r: Bytes ::
          && x.encap(x.kemPublic(d), r).Some?
          && x.decap(d, x.encap(x.kemPublic(d), r).value.ciphertext) == Some(x.encap(x.kemPublic(d), r).value.secret))
  }

  function ConstantExchange(): (x: Exchange)
    ensures LawfulExchange(x)
  {
    Exchange(
      d => Zeros(32),
      (d, s) => Some(Zeros(32)),
      d => Zeros(1184),
      (e, r) => Some(Encapsulated(Zeros(32), Zeros(1088))),
      (d, t) => Some(Zeros(32)),
      p => Zeros(32))
  }

  type KeyExchange = x: Exchange | LawfulExchange(x) ghost witness ConstantExchange()
}
