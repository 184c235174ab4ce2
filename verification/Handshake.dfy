/** The hybrid X25519 + ML-KEM-768 handshake (pkg/crypto/pake.go) and the key wrap it protects (pkg/crypto/cipher.go). */
module Handshake {
  import opened Wrappers
  import opened ByteStrings
  import opened Primitives
  import opened EnvelopeCodec
  import Hkdf

  const WIRE_SIZE := 1280
  const WRAPPED_SIZE := 60
  const CONFIRM_SIZE := 32
  const SHARE_SIZE := 32
  const ENCAP_KEY_SIZE := 1184
  const CIPHERTEXT_SIZE := 1088

  datatype PakeError = EmptySecret | InvalidPeerMessage | PakeFailed | ResponseTooShort | ConfirmMismatch | UnwrapFailed

  datatype Role = AsPublisher | AsSubscriber

  function Code(r: Role): byte {
    if r.AsPublisher? then 1 else 2
  }

  function Other(r: Role): Role {
    if r.AsPublisher? then AsSubscriber else AsPublisher
  }

  datatype Peer = Peer(role: Role, priv: Bytes, decapKey: Option<Bytes>, pass: Bytes, pubBytes: Bytes, sharedKey: Option<Key>)

  /** NewPAKEPublisher: nothing to send until the subscriber's message is in. */
  function NewPublisher(pass: Bytes, priv: Bytes): (r: Result<Peer, PakeError>) {
    if pass == [] then Err(EmptySecret) else Ok(Peer(AsPublisher, priv, None, pass, [], None))
  }

  /** NewPAKESubscriber: share, encapsulation key and random padding, 1280 bytes in all. */
  function NewSubscriber(x: KeyExchange, pass: Bytes, priv: Bytes, decapKey: Bytes, padding: Bytes): (r: Result<Peer, PakeError>)
    requires |padding| == WIRE_SIZE - SHARE_SIZE - ENCAP_KEY_SIZE
    ensures r.Ok? ==> |r.value.pubBytes| == WIRE_SIZE
  {
    if pass == [] then Err(EmptySecret)
    else Ok(Peer(AsSubscriber, priv, Some(decapKey), pass, x.dhPublic(priv) + x.kemPublic(decapKey) + padding, None))
  }

  function MasterSecret(x: KeyExchange, c: Suite, pass: Bytes, dh: Share, kem: Share): (k: Key) {
    Hkdf.Derive(c, dh + kem, x.argon2(pass), Hkdf.Ascii("zerofeed-v3-pake-master-secret"), 32).value
  }

  /** PAKEPeer.Update. `coins` is the encapsulation randomness and `padding` the filler of the publisher's reply. */
  function Update(x: KeyExchange, c: Suite, p: Peer, message: Bytes, coins: Bytes, padding: Bytes): (r: Result<Peer, PakeError>)
    requires |padding| == WIRE_SIZE - SHARE_SIZE - CIPHERTEXT_SIZE
  {
    if |message| != WIRE_SIZE then Err(InvalidPeerMessage)
    else match x.dh(p.priv, message[..SHARE_SIZE])
      case None => Err(PakeFailed)
      case Some(dh) =>
        match p.role
        case AsPublisher =>
          (match x.encap(message[SHARE_SIZE..SHARE_SIZE + ENCAP_KEY_SIZE], coins)
           case None => Err(PakeFailed)
           case Some(e) => Ok(p.(pubBytes := x.dhPublic(p.priv) + e.ciphertext + padding,
                                 sharedKey := Some(MasterSecret(x, c, p.pass, dh, e.secret)))))
        case AsSubscriber =>
          if p.decapKey.None? then Err(PakeFailed)
          else match x.decap(p.decapKey.value, message[SHARE_SIZE..SHARE_SIZE + CIPHERTEXT_SIZE])
            case None => Err(PakeFailed)
            case Some(kem) => Ok(p.(sharedKey := Some(MasterSecret(x, c, p.pass, dh, kem))))
  }

  function Tag(c: Suite, key: Key, r: Role): (t: Key) {
    c.mac(key, Hkdf.Ascii("zerofeed-v3-pake-key-confirmation-v1") + [Code(r)])
  }

  /** The tag expected from the other side carries the other side's role. */
  predicate VerifiesPeer(c: Suite, p: Peer, tag: Bytes) {
    p.sharedKey.Some? && tag != [] && tag == Tag(c, p.sharedKey.value, Other(p.role))
  }

  function WrapAad(): Bytes {
    Hkdf.Ascii("zerofeed-v3-pqc-key-wrap")
  }

  function WrapKey(c: Suite, p2p: Key, master: Key, nonce: Nonce): (w: Bytes)
    ensures |w| == WRAPPED_SIZE
  {
    nonce + c.seal(p2p, nonce, master, WrapAad())
  }

  function UnwrapKey(c: Suite, p2p: Key, wrapped: Bytes): (r: Option<Bytes>) {
    if |wrapped| < WRAPPED_SIZE then None
    else c.open(p2p, wrapped[..12], wrapped[12..WRAPPED_SIZE], WrapAad())
  }

  /** The publisher's answer: its 1280-byte message, the wrapped master key, its confirmation tag. */
  function Respond(c: Suite, p: Peer, master: Key, nonce: Nonce): (r: Result<Bytes, PakeError>) {
    if p.sharedKey.None? then Err(PakeFailed)
    else Ok(p.pubBytes + WrapKey(c, p.sharedKey.value, master, nonce) + Tag(c, p.sharedKey.value, p.role))
  }

  datatype Finished = Finished(peer: Peer, confirm: Key, master: Key)

  /** The subscriber's CompleteHandshake, from the payload of the answer. */
  function Complete(x: KeyExchange, c: Suite, p: Peer, payload: Bytes): (r: Result<Finished, PakeError>)
    requires p.role.AsSubscriber?
  {
    if |payload| < WIRE_SIZE + WRAPPED_SIZE + CONFIRM_SIZE then Err(ResponseTooShort)
    else
      var wrapped := payload[WIRE_SIZE..WIRE_SIZE + WRAPPED_SIZE];
      var tag := payload[WIRE_SIZE + WRAPPED_SIZE..WIRE_SIZE + WRAPPED_SIZE + CONFIRM_SIZE];
      match Update(x, c, p, payload[..WIRE_SIZE], [], Zeros(WIRE_SIZE - SHARE_SIZE - CIPHERTEXT_SIZE))
      case Err(e) => Err(e)
      case Ok(q) =>
        if !VerifiesPeer(c, q, tag) then Err(ConfirmMismatch)
        else match UnwrapKey(c, q.sharedKey.value, wrapped)
          case Some(k) => if |k| == 32 then Ok(Finished(q, Tag(c, q.sharedKey.value, q.role), k)) else Err(UnwrapFailed)
          case None => Err(UnwrapFailed)
  }

  lemma {:induction false} UnwrapWrapped(c: Suite, p2p: Key, master: Key, nonce: Nonce)
    ensures UnwrapKey(c, p2p, WrapKey(c, p2p, master, nonce)) == Some(master)
  {
    var w := WrapKey(c, p2p, master, nonce);
    assert w[..12] == nonce && w[12..WRAPPED_SIZE] == c.seal(p2p, nonce, master, WrapAad());
  }

  /** The two ends of the exchange compute the same secret from each other's messages. */
  lemma {:induction false} SameSecret(x: KeyExchange, c: Suite, pass: Bytes, a: Bytes, b: Bytes, d: Bytes,
                                      subPad: Bytes, coins: Bytes, pubPad: Bytes)
    requires pass != [] && |subPad| == WIRE_SIZE - SHARE_SIZE - ENCAP_KEY_SIZE
    requires |pubPad| == WIRE_SIZE - SHARE_SIZE - CIPHERTEXT_SIZE
    ensures
      var sub := NewSubscriber(x, pass, b, d, subPad).value;
      var pub := Update(x, c, NewPublisher(pass, a).value, sub.pubBytes, coins, pubPad);
      && pub.Ok? && |pub.value.pubBytes| == WIRE_SIZE && pub.value.sharedKey.Some?
      && var done := Update(x, c, sub, pub.value.pubBytes, [], Zeros(WIRE_SIZE - SHARE_SIZE - CIPHERTEXT_SIZE));
        done.Ok? && done.value.sharedKey == pub.value.sharedKey && done.value.role == AsSubscriber
  {
    var sub := NewSubscriber(x, pass, b, d, subPad).value;
    assert sub.pubBytes[..SHARE_SIZE] == x.dhPublic(b);
    assert sub.pubBytes[SHARE_SIZE..SHARE_SIZE + ENCAP_KEY_SIZE] == x.kemPublic(d);
    var e := x.encap(x.kemPublic(d), coins).value;
    var reply := x.dhPublic(a) + e.ciphertext + pubPad;
    assert reply[..SHARE_SIZE] == x.dhPublic(a);
    assert reply[SHARE_SIZE..SHARE_SIZE + CIPHERTEXT_SIZE] == e.ciphertext;
    assert x.dh(a, x.dhPublic(b)) == x.dh(b, x.dhPublic(a));
  }

  /** For every choice of keys, randomness and padding: the answer is 1372 bytes, both sides hold one key, each verifies
      the other's role-separated tag, and the subscriber unwraps exactly the publisher's master key. */
  lemma {:induction false} HandshakeAgreement(x: KeyExchange, c: Suite, pass: Bytes, a: Bytes, b: Bytes, d: Bytes,
                                              subPad: Bytes, coins: Bytes, pubPad: Bytes, master: Key, nonce: Nonce)
    requires pass != [] && |subPad| == WIRE_SIZE - SHARE_SIZE - ENCAP_KEY_SIZE
    requires |pubPad| == WIRE_SIZE - SHARE_SIZE - CIPHERTEXT_SIZE
    ensures
      var sub := NewSubscriber(x, pass, b, d, subPad).value;
      var pub := Update(x, c, NewPublisher(pass, a).value, sub.pubBytes, coins, pubPad);
      && pub.Ok?
      && var answer := Respond(c, pub.value, master, nonce);
        && answer.Ok? && |answer.value| == WIRE_SIZE + WRAPPED_SIZE + CONFIRM_SIZE
        && var done := Complete(x, c, sub, answer.value);
          && done.Ok? && done.value.master == master
          && done.value.peer.sharedKey == pub.value.sharedKey
          && VerifiesPeer(c, pub.value, done.value.confirm)
  {
    SameSecret(x, c, pass, a, b, d, subPad, coins, pubPad);
    var sub := NewSubscriber(x, pass, b, d, subPad).value;
    var pub := Update(x, c, NewPublisher(pass, a).value, sub.pubBytes, coins, pubPad).value;
    var key := pub.sharedKey.value;
    var w, t := WrapKey(c, key, master, nonce), Tag(c, key, pub.role);
    var answer := pub.pubBytes + w + t;
    assert answer[..WIRE_SIZE] == pub.pubBytes;
    assert answer[WIRE_SIZE..WIRE_SIZE + WRAPPED_SIZE] == w;
    assert answer[WIRE_SIZE + WRAPPED_SIZE..WIRE_SIZE + WRAPPED_SIZE + CONFIRM_SIZE] == t;
    UnwrapWrapped(c, key, master, nonce);
  }

  // ----- the objects -----

  class PakePeer {
    const x: KeyExchange
    const c: Suite
    const role: Role
    var privKey: Bytes
    var decapKey: Option<Bytes>
    var passphrase: Bytes
    var pubBytes: Bytes
    var sharedKey: Option<Key>

    function View(): Peer
      reads this
    {
      Peer(role, privKey, decapKey, passphrase, pubBytes, sharedKey)
    }

    constructor (exchange: KeyExchange, suite: Suite, p: Peer)
      ensures View() == p && x == exchange && c == suite
    {
      x, c, role := exchange, suite, p.role;
      privKey, decapKey, passphrase, pubBytes, sharedKey := p.priv, p.decapKey, p.pass, p.pubBytes, p.sharedKey;
    }

    /** On failure nothing changes; on success the shared key is set and a publisher has its reply ready. */
    method Process(message: Bytes, coins: Bytes, padding: Bytes) returns (err: Option<PakeError>)
      requires |padding| == WIRE_SIZE - SHARE_SIZE - CIPHERTEXT_SIZE
      modifies this
      ensures match Update(x, c, old(View()), message, coins, padding)
        case Ok(p) => err == None && View() == p
        case Err(e) => err == Some(e) && View() == old(View())
    {
      if |message| != WIRE_SIZE {
        return Some(InvalidPeerMessage);
      }
      var dh := x.dh(privKey, message[..SHARE_SIZE]);
      if dh.None? {
        return Some(PakeFailed);
      }
      var kem: Share;
      if role.AsPublisher? {
        var e := x.encap(message[SHARE_SIZE..SHARE_SIZE + ENCAP_KEY_SIZE], coins);
        if e.None? {
          return Some(PakeFailed);
        }
        kem := e.value.secret;
        pubBytes := x.dhPublic(privKey) + e.value.ciphertext + padding;
      } else {
        if decapKey.None? {
          return Some(PakeFailed);
        }
        var k := x.decap(decapKey.value, message[SHARE_SIZE..SHARE_SIZE + CIPHERTEXT_SIZE]);
        if k.None? {
          return Some(PakeFailed);
        }
        kem := k.value;
      }
      sharedKey := Some(MasterSecret(x, c, passphrase, dh.value, kem));
      err := None;
    }
  }

  // ----- waiting for the confirmation -----

  const CONFIRM_FRAMES := 8

  /** The first key confirmation among the frames, if there is one. */
  function FirstConfirm(frames: seq<Envelope>): (r: Option<Bytes>) {
    if frames == [] then None
    else if frames[0].msgType == KEY_CONFIRM then Some(frames[0].payload)
    else FirstConfirm(frames[1..])
  }

  /** The publisher looks at no more than 8 frames, skips those of other subscribers, and lets the first confirmation decide. */
  method AwaitConfirm(c: Suite, p: Peer, frames: seq<Envelope>) returns (ok: bool)
    ensures var seen := frames[..if |frames| < CONFIRM_FRAMES then |frames| else CONFIRM_FRAMES];
      ok <==> FirstConfirm(seen).Some? && VerifiesPeer(c, p, FirstConfirm(seen).value)
  {
    var n := if |frames| < CONFIRM_FRAMES then |frames| else CONFIRM_FRAMES;
    ghost var seen := frames[..n];
    var i := 0;
    while i < n
      invariant 0 <= i <= n
      invariant FirstConfirm(seen) == FirstConfirm(seen[i..])
    {
      if frames[i].msgType == KEY_CONFIRM {
        return p.sharedKey.Some? && |frames[i].payload| > 0
            && frames[i].payload == Tag(c, p.sharedKey.value, Other(p.role));
      }
      assert seen[i..][1..] == seen[i + 1..];
      i := i + 1;
    }
    ok := false;
  }
}
