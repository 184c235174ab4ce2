/**
 What the handshake's keys are made of, in terms of HMAC, Argon2id, X25519 and ML-KEM, and that each ingredient matters: a
 different passphrase, another share or another ciphertext ends in a confirmation mismatch (pkg/crypto/pake.go).
 */
module HandshakeKeys {
  import opened Wrappers
  import opened ByteStrings
  import opened Primitives
  import opened EnvelopeCodec
  import opened Handshake
  import Hkdf

  /** The shared key of a passphrase and the two secrets. */
  function SharedKey(x: KeyExchange, c: Suite, pass: Bytes, dh: Share, kem: Share): (k: Key) {
    c.mac(c.mac(x.argon2(pass), dh + kem), Hkdf.Ascii("zerofeed-v3-pake-master-secret") + [1])
  }

  lemma {:induction false} MasterSecretIsTwoMacs(x: KeyExchange, c: Suite, pass: Bytes, dh: Share, kem: Share)
    ensures MasterSecret(x, c, pass, dh, kem) == SharedKey(x, c, pass, dh, kem)
    ensures MasterSecret(x, c, pass, dh, kem)
         == c.mac(c.mac(x.argon2(pass), dh + kem), Hkdf.Ascii("zerofeed-v3-pake-master-secret") + [1])
  {
    Hkdf.DeriveIsTwoMacs(c, dh + kem, x.argon2(pass), Hkdf.Ascii("zerofeed-v3-pake-master-secret"));
  }

  /** Whatever message it is given: if Update succeeds, the shared key is the HMAC of Diffie-Hellman secret and encapsulated
      secret, in this order, keyed with the Argon2id key of the peer's own passphrase, and expanded once. */
  lemma {:induction false} UpdateKey(x: KeyExchange, c: Suite, p: Peer, message: Bytes, coins: Bytes, padding: Bytes)
    requires |padding| == WIRE_SIZE - SHARE_SIZE - CIPHERTEXT_SIZE && Update(x, c, p, message, coins, padding).Ok?
    ensures |message| == 1280 && x.dh(p.priv, message[..32]).Some?
    ensures p.role.AsPublisher? ==> x.encap(message[32..1216], coins).Some?
    ensures p.role.AsSubscriber? ==> p.decapKey.Some? && x.decap(p.decapKey.value, message[32..1120]).Some?
    ensures var dh := x.dh(p.priv, message[..32]).value;
      var kem := if p.role.AsPublisher? then x.encap(message[32..1216], coins).value.secret
                 else x.decap(p.decapKey.value, message[32..1120]).value;
      Update(x, c, p, message, coins, padding).value.sharedKey
      == Some(c.mac(c.mac(x.argon2(p.pass), dh + kem), Hkdf.Ascii("zerofeed-v3-pake-master-secret") + [1]))
  {
    var dh := x.dh(p.priv, message[..32]).value;
    var kem := if p.role.AsPublisher? then x.encap(message[32..1216], coins).value.secret
               else x.decap(p.decapKey.value, message[32..1120]).value;
    MasterSecretIsTwoMacs(x, c, p.pass, dh, kem);
  }

  // ----- the bytes that travel -----

  /** All that is drawn at random in one handshake. */
  datatype Draw = Draw(pubPriv: Bytes, subPriv: Bytes, decapKey: Bytes, subPad: Bytes, coins: Bytes, pubPad: Bytes, master: Key, nonce: Nonce)

  predicate Drawn(w: Draw) {
    |w.subPad| == WIRE_SIZE - SHARE_SIZE - ENCAP_KEY_SIZE && |w.pubPad| == WIRE_SIZE - SHARE_SIZE - CIPHERTEXT_SIZE
  }

  function Hello(x: KeyExchange, pass: Bytes, w: Draw): (sub: Peer)
    requires Drawn(w) && pass != []
  {
    NewSubscriber(x, pass, w.subPriv, w.decapKey, w.subPad).value
  }

  /** The subscriber's 1280 bytes: its share, its encapsulation key, padding. */
  lemma {:induction false} HelloLayout(x: KeyExchange, pass: Bytes, w: Draw)
    requires Drawn(w) && pass != []
    ensures var b := Hello(x, pass, w).pubBytes;
      |b| == 1280 && b[..32] == x.dhPublic(w.subPriv) && b[32..1216] == x.kemPublic(w.decapKey) && b[1216..] == w.subPad
  {
    var b := Hello(x, pass, w).pubBytes;
    assert b[..32] == x.dhPublic(w.subPriv) && b[32..1216] == x.kemPublic(w.decapKey) && b[1216..] == w.subPad;
  }

  /** What the publisher answers to an honest hello. */
  function Answer(x: KeyExchange, c: Suite, passPub: Bytes, passSub: Bytes, w: Draw): (r: Result<Bytes, PakeError>)
    requires Drawn(w) && passPub != [] && passSub != []
  {
    match Update(x, c, NewPublisher(passPub, w.pubPriv).value, Hello(x, passSub, w).pubBytes, w.coins, w.pubPad)
    case Err(e) => Err(e)
    case Ok(pub) => Respond(c, pub, w.master, w.nonce)
  }

  function Dh(x: KeyExchange, w: Draw): (s: Share) {
    assert x.dh(w.pubPriv, x.dhPublic(w.subPriv)) == x.dh(w.subPriv, x.dhPublic(w.pubPriv));
    x.dh(w.pubPriv, x.dhPublic(w.subPriv)).value
  }

  function Kem(x: KeyExchange, w: Draw): (e: Encapsulated) {
    x.encap(x.kemPublic(w.decapKey), w.coins).value
  }

  /** The publisher's 1372 bytes: its share, the ciphertext, padding; nonce and master key sealed under the shared key; the
      HMAC under the shared key of the confirmation label and the publisher's role, 1. */
  lemma {:induction false} AnswerLayout(x: KeyExchange, c: Suite, passPub: Bytes, passSub: Bytes, w: Draw)
    requires Drawn(w) && passPub != [] && passSub != []
    ensures var r := Answer(x, c, passPub, passSub, w);
      var key := SharedKey(x, c, passPub, Dh(x, w), Kem(x, w).secret);
      && r.Ok? && |r.value| == 1372
      && r.value[..32] == x.dhPublic(w.pubPriv) && r.value[32..1120] == Kem(x, w).ciphertext && r.value[1120..1280] == w.pubPad
      && r.value[1280..1292] == w.nonce
      && r.value[1292..1340] == c.seal(key, w.nonce, w.master, Hkdf.Ascii("zerofeed-v3-pqc-key-wrap"))
      && r.value[1340..] == c.mac(key, Hkdf.Ascii("zerofeed-v3-pake-key-confirmation-v1") + [1])
  {
    HelloLayout(x, passSub, w);
    var pub := PublisherAt(x, c, passPub, passSub, w);
    var key := pub.sharedKey.value;
    var wrapped := WrapKey(c, key, w.master, w.nonce);
    var tag := Tag(c, key, pub.role);
    var r := pub.pubBytes + wrapped + tag;
    assert r[..1280] == pub.pubBytes && r[1280..1340] == wrapped && r[1340..] == tag;
    assert wrapped[..12] == w.nonce && wrapped[12..] == c.seal(key, w.nonce, w.master, WrapAad());
    assert r[1280..1292] == r[1280..1340][..12] && r[1292..1340] == r[1280..1340][12..];
    assert r[..32] == r[..1280][..32] && r[32..1120] == r[..1280][32..1120] && r[1120..1280] == r[..1280][1120..];
  }

  lemma {:induction false} PublisherAt(x: KeyExchange, c: Suite, passPub: Bytes, passSub: Bytes, w: Draw) returns (pub: Peer)
    requires Drawn(w) && passPub != [] && passSub != []
    ensures Update(x, c, NewPublisher(passPub, w.pubPriv).value, Hello(x, passSub, w).pubBytes, w.coins, w.pubPad) == Ok(pub)
    ensures pub.sharedKey == Some(SharedKey(x, c, passPub, Dh(x, w), Kem(x, w).secret)) && pub.role.AsPublisher?
    ensures pub.pubBytes == x.dhPublic(w.pubPriv) + Kem(x, w).ciphertext + w.pubPad && |pub.pubBytes| == 1280
    ensures pub.pubBytes[..32] == x.dhPublic(w.pubPriv) && pub.pubBytes[32..1120] == Kem(x, w).ciphertext && pub.pubBytes[1120..] == w.pubPad
  {
    HelloLayout(x, passSub, w);
    MasterSecretIsTwoMacs(x, c, passPub, Dh(x, w), Kem(x, w).secret);
    assert x.dh(w.pubPriv, x.dhPublic(w.subPriv)) == x.dh(w.subPriv, x.dhPublic(w.pubPriv));
    pub := Update(x, c, NewPublisher(passPub, w.pubPriv).value, Hello(x, passSub, w).pubBytes, w.coins, w.pubPad).value;
    var b := pub.pubBytes;
    assert b[..32] == x.dhPublic(w.pubPriv) && b[32..1120] == Kem(x, w).ciphertext && b[1120..] == w.pubPad;
  }

  // ----- what decides -----

  /** The subscriber's verdict on any answer of the right length: it computes its own shared key from the first 1280 bytes
      and compares the last 32 with the HMAC under it. */
  lemma {:induction false} VerdictIs(x: KeyExchange, c: Suite, sub: Peer, payload: Bytes, dh: Share, kem: Share)
    requires sub.role.AsSubscriber? && sub.decapKey.Some? && |payload| == 1372
    requires x.dh(sub.priv, payload[..32]) == Some(dh) && x.decap(sub.decapKey.value, payload[32..1120]) == Some(kem)
    ensures var key := SharedKey(x, c, sub.pass, dh, kem);
      var done := Complete(x, c, sub, payload);
      && (done == Err(ConfirmMismatch) <==> payload[1340..] != c.mac(key, Hkdf.Ascii("zerofeed-v3-pake-key-confirmation-v1") + [1]))
      && (done.Ok? ==>
            && done.value.peer.sharedKey == Some(key)
            && done.value.confirm == c.mac(key, Hkdf.Ascii("zerofeed-v3-pake-key-confirmation-v1") + [2])
            && c.open(key, payload[1280..1292], payload[1292..1340], Hkdf.Ascii("zerofeed-v3-pqc-key-wrap")) == Some(done.value.master))
  {
    MasterSecretIsTwoMacs(x, c, sub.pass, dh, kem);
    assert payload[..1280][..32] == payload[..32] && payload[..1280][32..1120] == payload[32..1120];
    assert payload[1340..1372] == payload[1340..];
    var wrapped := payload[1280..1340];
    assert wrapped[..12] == payload[1280..1292] && wrapped[12..60] == payload[1292..1340];
  }

  /** The publisher's verdict: among the frames it looks at there is a key confirmation, and the payload of the first one is the
      HMAC under the shared key of the confirmation label and the subscriber's role, 2. */
  lemma {:induction false} ConfirmIs(c: Suite, p: Peer, frames: seq<Envelope>)
    requires p.role.AsPublisher? && p.sharedKey.Some?
    ensures (FirstConfirm(frames).Some? && VerifiesPeer(c, p, FirstConfirm(frames).value))
      <==> exists i: nat :: ConfirmedAt(c, p.sharedKey.value, frames, i)
  {
    if frames != [] {
      if frames[0].msgType == KEY_CONFIRM {
        assert (exists i: nat :: ConfirmedAt(c, p.sharedKey.value, frames, i)) <==> ConfirmedAt(c, p.sharedKey.value, frames, 0);
      } else {
        ConfirmIs(c, p, frames[1..]);
        ConfirmShift(c, p, frames);
      }
    }
  }

  /** The first confirmation, at this place, is the one expected. */
  predicate ConfirmedAt(c: Suite, key: Key, frames: seq<Envelope>, i: nat) {
    && i < |frames| && frames[i].msgType == KEY_CONFIRM
    && frames[i].payload == c.mac(key, Hkdf.Ascii("zerofeed-v3-pake-key-confirmation-v1") + [2])
    && forall j :: 0 <= j < i ==> frames[j].msgType != KEY_CONFIRM
  }

  lemma {:induction false} ConfirmShift(c: Suite, p: Peer, frames: seq<Envelope>)
    requires p.sharedKey.Some? && frames != [] && frames[0].msgType != KEY_CONFIRM
    ensures (exists i: nat :: ConfirmedAt(c, p.sharedKey.value, frames, i)) <==> (exists i: nat :: ConfirmedAt(c, p.sharedKey.value, frames[1..], i))
  {
    var key, rest := p.sharedKey.value, frames[1..];
    if i: nat :| ConfirmedAt(c, key, frames, i) {
      assert ConfirmedAt(c, key, rest, i - 1);
    }
    if i: nat :| ConfirmedAt(c, key, rest, i) {
      forall j | 0 <= j < i + 1
        ensures frames[j].msgType != KEY_CONFIRM
      {
        assert j > 0 ==> frames[j] == rest[j - 1];
      }
      assert ConfirmedAt(c, key, frames, i + 1);
    }
  }

  /** An honest exchange between any two passphrases ends in a confirmation mismatch if and only if the HMACs of the
      confirmation label under the two keys differ. */
  lemma {:induction false} ConfirmDecides(x: KeyExchange, c: Suite, passPub: Bytes, passSub: Bytes, w: Draw)
    requires Drawn(w) && passPub != [] && passSub != []
    ensures var r := Answer(x, c, passPub, passSub, w);
      var dh, kem := Dh(x, w), Kem(x, w).secret;
      var message := Hkdf.Ascii("zerofeed-v3-pake-key-confirmation-v1") + [1];
      && r.Ok?
      && (Complete(x, c, Hello(x, passSub, w), r.value) == Err(ConfirmMismatch)
          <==> c.mac(SharedKey(x, c, passSub, dh, kem), message) != c.mac(SharedKey(x, c, passPub, dh, kem), message))
  {
    AnswerLayout(x, c, passPub, passSub, w);
    var r := Answer(x, c, passPub, passSub, w).value;
    assert x.dh(w.pubPriv, x.dhPublic(w.subPriv)) == x.dh(w.subPriv, x.dhPublic(w.pubPriv));
    VerdictIs(x, c, Hello(x, passSub, w), r, Dh(x, w), Kem(x, w).secret);
  }

  /** Every handshake between these passphrases ends in a mismatch. */
  ghost predicate NeverMeet(x: KeyExchange, c: Suite, passPub: Bytes, passSub: Bytes)
    requires passPub != [] && passSub != []
  {
    forall w: Draw :: Drawn(w) ==>
      && Answer(x, c, passPub, passSub, w).Ok?
      && Complete(x, c, Hello(x, passSub, w), Answer(x, c, passPub, passSub, w).value) == Err(ConfirmMismatch)
  }

  /** Keys pass through this HMAC; of a 64-byte message the chosen half is kept instead, if one is chosen. */
  function PassingMac(half: Option<bool>): (Bytes, Bytes) -> Key {
    (k, m) =>
      if |m| == 64 && half == Some(false) then m[..32]
      else if |m| == 64 && half == Some(true) then m[32..]
      else if |k| == 32 then k else Zeros(32)
  }

  function Ones(): (k: Key) {
    Hkdf.Repeated(1)
  }

  /** Argon2id tells this passphrase from all others; X25519 and ML-KEM tell an honest message from any other. */
  function TellingExchange(pass: Bytes): (x: Exchange)
    ensures LawfulExchange(x)
  {
    Exchange(
      d => Zeros(32),
      (d, s) => Some(if s == Zeros(32) then Zeros(32) else Ones()),
      d => Zeros(1184),
      (e, r) => Some(Encapsulated(Zeros(32), Zeros(1088))),
      (d, t) => Some(if t == Zeros(1088) then Zeros(32) else Ones()),
      p => if p == pass then Ones() else Zeros(32))
  }

  /** The passphrase matters: some lawful exchange and suite make every handshake fail if and only if the passphrases
      differ. */
  lemma {:induction false} PassphraseMattersIff(passPub: Bytes, passSub: Bytes)
    requires passPub != [] && passSub != []
    ensures (exists x: KeyExchange, c: Suite :: NeverMeet(x, c, passPub, passSub)) <==> passPub != passSub
  {
    if passPub != passSub {
      var x: KeyExchange, c: Suite := TellingExchange(passPub), WithMac(PassingMac(None));
      forall w: Draw | Drawn(w)
        ensures Answer(x, c, passPub, passSub, w).Ok?
        ensures Complete(x, c, Hello(x, passSub, w), Answer(x, c, passPub, passSub, w).value) == Err(ConfirmMismatch)
      {
        ConfirmDecides(x, c, passPub, passSub, w);
      }
      assert NeverMeet(x, c, passPub, passSub);
    } else {
      forall x: KeyExchange, c: Suite
        ensures !NeverMeet(x, c, passPub, passSub)
      {
        var w := Draw([], [], [], Zeros(64), [], Zeros(160), Zeros(32), Zeros(12));
        ConfirmDecides(x, c, passPub, passSub, w);
        assert Drawn(w);
      }
    }
  }

  lemma {:induction false} KeyPasses(c: Suite, k: Key, m: Bytes, half: Option<bool>)
    requires c == WithMac(PassingMac(half)) && |m| != 64
    ensures c.mac(k, m) == k
  {
  }

  lemma {:induction false} HalfPasses(c: Suite, k: Key, dh: Share, kem: Share, second: bool)
    requires c == WithMac(PassingMac(Some(second)))
    ensures c.mac(k, dh + kem) == if second then kem else dh
  {
    assert (dh + kem)[..32] == dh && (dh + kem)[32..] == kem;
  }

  /** With a passing HMAC the shared key is the chosen half of the secrets, and the confirmation is the key. */
  lemma {:induction false} HalfIsKey(x: KeyExchange, c: Suite, pass: Bytes, dh: Share, kem: Share, second: bool)
    requires c == WithMac(PassingMac(Some(second)))
    ensures var half := if second then kem else dh;
      && SharedKey(x, c, pass, dh, kem) == half
      && c.mac(half, Hkdf.Ascii("zerofeed-v3-pake-key-confirmation-v1") + [1]) == half
  {
    var half := if second then kem else dh;
    HalfPasses(c, x.argon2(pass), dh, kem, second);
    KeyPasses(c, half, Hkdf.Ascii("zerofeed-v3-pake-master-secret") + [1], Some(second));
    KeyPasses(c, half, Hkdf.Ascii("zerofeed-v3-pake-key-confirmation-v1") + [1], Some(second));
  }

  /** An answer that ends in the publisher's tag but leads the subscriber to another secret is rejected. */
  lemma {:induction false} OtherSecretRejected(x: KeyExchange, c: Suite, pass: Bytes, w: Draw, r: Bytes, t: Bytes, dh: Share, kem: Share, second: bool)
    requires Drawn(w) && pass != [] && c == WithMac(PassingMac(Some(second)))
    requires Answer(x, c, pass, pass, w) == Ok(r) && |t| == |r| == 1372 && t[1340..] == r[1340..]
    requires x.dh(w.subPriv, t[..32]) == Some(dh) && x.decap(w.decapKey, t[32..1120]) == Some(kem)
    requires if second then kem != Kem(x, w).secret else dh != Dh(x, w)
    ensures Complete(x, c, Hello(x, pass, w), t) == Err(ConfirmMismatch)
  {
    AnswerLayout(x, c, pass, pass, w);
    VerdictIs(x, c, Hello(x, pass, w), t, dh, kem);
    HalfIsKey(x, c, pass, dh, kem, second);
    HalfIsKey(x, c, pass, Dh(x, w), Kem(x, w).secret, second);
  }

  /** The same bytes with another share, or with another ciphertext. */
  function WithShare(r: Bytes, share: Share): (t: Bytes)
    requires |r| == 1372
    ensures |t| == 1372 && t[..32] == share && t[32..1120] == r[32..1120] && t[1340..] == r[1340..]
  {
    share + r[32..]
  }

  function WithCiphertext(r: Bytes, ct: KemCiphertext): (t: Bytes)
    requires |r| == 1372
    ensures |t| == 1372 && t[..32] == r[..32] && t[32..1120] == ct && t[1340..] == r[1340..]
  {
    r[..32] + ct + r[1120..]
  }

  /** The subscriber rejects the publisher's answer once this takes the place of the share, or of the ciphertext. */
  predicate RejectsShare(x: KeyExchange, c: Suite, pass: Bytes, w: Draw, share: Share)
    requires Drawn(w) && pass != []
  {
    var r := Answer(x, c, pass, pass, w);
    r.Ok? && |r.value| == 1372 && Complete(x, c, Hello(x, pass, w), WithShare(r.value, share)) == Err(ConfirmMismatch)
  }

  predicate RejectsCiphertext(x: KeyExchange, c: Suite, pass: Bytes, w: Draw, ct: KemCiphertext)
    requires Drawn(w) && pass != []
  {
    var r := Answer(x, c, pass, pass, w);
    r.Ok? && |r.value| == 1372 && Complete(x, c, Hello(x, pass, w), WithCiphertext(r.value, ct)) == Err(ConfirmMismatch)
  }

  lemma {:induction false} TellingSecrets(x: KeyExchange, pass: Bytes, w: Draw)
    requires x == TellingExchange(pass)
    ensures x.dhPublic(w.pubPriv) == Zeros(32) && Dh(x, w) == Zeros(32) && Kem(x, w) == Encapsulated(Zeros(32), Zeros(1088))
    ensures x.dh(w.subPriv, Zeros(32)) == Some(Zeros(32)) && x.decap(w.decapKey, Zeros(1088)) == Some(Zeros(32))
    ensures forall s: Share :: s != Zeros(32) ==> x.dh(w.subPriv, s) == Some(Ones())
    ensures forall t: KemCiphertext :: t != Zeros(1088) ==> x.decap(w.decapKey, t) == Some(Ones())
    ensures Ones() != Zeros(32)
  {
    assert Ones()[0] == 1 && Zeros(32)[0] == 0;
  }

  lemma {:induction false} ShareNoticed(x: KeyExchange, c: Suite, pass: Bytes, w: Draw, share: Share)
    requires Drawn(w) && pass != [] && x == TellingExchange(pass) && c == WithMac(PassingMac(Some(false))) && share != Zeros(32)
    ensures RejectsShare(x, c, pass, w, share)
  {
    TellingSecrets(x, pass, w);
    AnswerLayout(x, c, pass, pass, w);
    var r := Answer(x, c, pass, pass, w).value;
    OtherSecretRejected(x, c, pass, w, r, WithShare(r, share), Ones(), Zeros(32), false);
  }

  lemma {:induction false} CiphertextNoticed(x: KeyExchange, c: Suite, pass: Bytes, w: Draw, ct: KemCiphertext)
    requires Drawn(w) && pass != [] && x == TellingExchange(pass) && c == WithMac(PassingMac(Some(true))) && ct != Zeros(1088)
    ensures RejectsCiphertext(x, c, pass, w, ct)
  {
    TellingSecrets(x, pass, w);
    AnswerLayout(x, c, pass, pass, w);
    var r := Answer(x, c, pass, pass, w).value;
    OtherSecretRejected(x, c, pass, w, r, WithCiphertext(r, ct), Zeros(32), Ones(), true);
  }

  /** The Diffie-Hellman secret matters: with some lawful exchange and suite, any change of the publisher's share is noticed. */
  lemma {:induction false} ShareMatters(pass: Bytes) returns (x: KeyExchange, c: Suite)
    requires pass != []
    ensures forall w: Draw, share: Share :: Drawn(w) && share != x.dhPublic(w.pubPriv) ==> RejectsShare(x, c, pass, w, share)
  {
    x, c := TellingExchange(pass), WithMac(PassingMac(Some(false)));
    forall w: Draw, share: Share | Drawn(w) && share != x.dhPublic(w.pubPriv)
      ensures RejectsShare(x, c, pass, w, share)
    {
      TellingSecrets(x, pass, w);
      ShareNoticed(x, c, pass, w, share);
    }
  }

  /** So does the encapsulated secret: any change of the ciphertext is noticed. */
  lemma {:induction false} CiphertextMatters(pass: Bytes) returns (x: KeyExchange, c: Suite)
    requires pass != []
    ensures forall w: Draw, ct: KemCiphertext :: Drawn(w) && ct != Kem(x, w).ciphertext ==> RejectsCiphertext(x, c, pass, w, ct)
  {
    x, c := TellingExchange(pass), WithMac(PassingMac(Some(true)));
    forall w: Draw, ct: KemCiphertext | Drawn(w) && ct != Kem(x, w).ciphertext
      ensures RejectsCiphertext(x, c, pass, w, ct)
    {
      TellingSecrets(x, pass, w);
      CiphertextNoticed(x, c, pass, w, ct);
    }
  }
}
