/** Sealed stream frames: how the publisher builds them and how a subscriber opens what it decoded. */
module SealedFrames {
  import opened Wrappers
  import opened ByteStrings
  import opened Primitives
  import opened EnvelopeCodec

  const SEQ_SIZE := 8

  /** One use of the AEAD: a key and nonce must never meet two different pairs of plaintext and associated data. */
  datatype Seal = Seal(key: Key, nonce: Nonce, plaintext: Bytes, aad: Bytes)

  /** Section 3.2 of RFC 5116: a fixed 4-byte salt, then the sequence number. */
  function StreamNonce(sid: SessionId, s: nat): (n: Nonce) {
    sid[..4] + PutUint(s, 8)
  }

  lemma {:induction false} StreamNonceInjective(sid: SessionId, s: nat, t: nat)
    requires s < TWO_64 && t < TWO_64 && StreamNonce(sid, s) == StreamNonce(sid, t)
    ensures s == t
  {
    assert StreamNonce(sid, s)[4..] == PutUint(s, 8);
    assert StreamNonce(sid, t)[4..] == PutUint(t, 8);
    PowWidths();
    PutInjective(s, t, 8);
  }

  /** Octet by octet: 4 octets of the session id, then the number, most significant octet first. */
  lemma {:induction false} NonceLayout(sid: SessionId, s: nat, i: nat)
    requires i < 12
    ensures StreamNonce(sid, s)[i] == if i < 4 then sid[i] else s / Pow256(11 - i) % 256
  {
    if i >= 4 {
      PutUintBytes(s, 8, i - 4);
    }
  }

  function StreamSeal(key: Key, sid: SessionId, msgType: byte, s: nat, plaintext: Bytes): (r: Seal) {
    var nonce := StreamNonce(sid, s);
    Seal(key, nonce, plaintext, Header(VERSION, msgType, sid, nonce, SEQ_SIZE + |plaintext| + TAG_SIZE))
  }

  function SealFrame(c: Suite, key: Key, sid: SessionId, msgType: byte, s: nat, plaintext: Bytes): (e: Envelope)
    ensures |e.payload| == SEQ_SIZE + |plaintext| + TAG_SIZE
  {
    var r := StreamSeal(key, sid, msgType, s, plaintext);
    Envelope(VERSION, msgType, sid, r.nonce, PutUint(s, 8) + c.seal(key, r.nonce, plaintext, r.aad))
  }

  function DataFrame(c: Suite, key: Key, sid: SessionId, s: nat, payload: Bytes): (e: Envelope) {
    SealFrame(c, key, sid, DATA_STREAM, s, Pad(payload, PADDING_TARGET))
  }

  function RekeyFrame(c: Suite, key: Key, sid: SessionId, s: nat, salt: Bytes): (e: Envelope) {
    SealFrame(c, key, sid, REKEY, s, salt)
  }

  function SeqOf(e: Envelope): (s: nat)
    requires |e.payload| >= SEQ_SIZE
  {
    GetUint(e.payload[..SEQ_SIZE])
  }

  /** Decryption with the associated data rebuilt from the decoded envelope. */
  function OpenFrame(c: Suite, key: Key, e: Envelope): (r: Option<Bytes>)
    requires |e.payload| >= SEQ_SIZE
  {
    c.open(key, e.nonce, e.payload[SEQ_SIZE..], Header(e.version, e.msgType, e.sessionId, e.nonce, |e.payload|))
  }

  /** Decrypt and strip the padding, keeping the raw plaintext when the padding is not well formed. */
  function OpenData(c: Suite, key: Key, e: Envelope): (r: Option<Bytes>)
    requires |e.payload| >= SEQ_SIZE
  {
    match OpenFrame(c, key, e)
    case None => None
    case Some(p) => Some(match Unpad(p) case Ok(d) => d case Err(_) => p)
  }

  /** The header a receiver rebuilds is byte for byte the one that was sealed, so the frame opens. */
  lemma {:induction false} OpenSealed(c: Suite, key: Key, sid: SessionId, msgType: byte, s: nat, plaintext: Bytes)
    requires s < TWO_64
    ensures var e := SealFrame(c, key, sid, msgType, s, plaintext);
      OpenFrame(c, key, e) == Some(plaintext) && SeqOf(e) == s
  {
    var e := SealFrame(c, key, sid, msgType, s, plaintext);
    var r := StreamSeal(key, sid, msgType, s, plaintext);
    assert e.payload[..SEQ_SIZE] == PutUint(s, 8);
    assert e.payload[SEQ_SIZE..] == c.seal(key, r.nonce, plaintext, r.aad);
    GetPut8(s);
  }

  /** What is on the wire: the number in 8 octets, then the plaintext sealed under this very key, with the nonce of the
      envelope and with the envelope's own header as associated data. */
  lemma {:induction false} FrameLayout(c: Suite, key: Key, sid: SessionId, msgType: byte, s: nat, plaintext: Bytes)
    ensures var e := SealFrame(c, key, sid, msgType, s, plaintext);
      && e.version == VERSION && e.msgType == msgType && e.sessionId == sid && e.nonce == sid[..4] + PutUint(s, 8)
      && |e.payload| == 8 + |plaintext| + 16 && e.payload[..8] == PutUint(s, 8)
      && e.payload[8..] == c.seal(key, e.nonce, plaintext, Header(VERSION, msgType, sid, e.nonce, |e.payload|))
  {
    var e := SealFrame(c, key, sid, msgType, s, plaintext);
    assert e.payload[..8] == PutUint(s, 8);
  }

  lemma {:induction false} OpenDataFrame(c: Suite, key: Key, sid: SessionId, s: nat, payload: Bytes)
    requires s < TWO_64 && |payload| < TWO_32
    ensures var e := DataFrame(c, key, sid, s, payload);
      OpenData(c, key, e) == Some(payload) && SeqOf(e) == s
  {
    OpenSealed(c, key, sid, DATA_STREAM, s, Pad(payload, PADDING_TARGET));
    UnpadPadIff(payload, PADDING_TARGET);
  }

  // ----- the whole pipeline: pad, seal, encode, concatenate; decode, rebuild the header, open, strip -----

  /** The sealed frame of this payload still passes Encode. */
  predicate Sendable(payload: Bytes) {
    |payload| <= MAX_PAYLOAD_SIZE - SEQ_SIZE - LEN_PREFIX_SIZE - TAG_SIZE
  }

  /** The exact condition for one message: its frame is written and read back whole, with the payload inside, if and
      only if the payload leaves room for number, length prefix and tag below 32 MB. */
  lemma {:induction false} MessageSurvivesIff(c: Suite, key: Key, sid: SessionId, s: nat, payload: Bytes, rest: Bytes)
    requires s < TWO_64
    ensures var e := DataFrame(c, key, sid, s, payload);
      (&& Encode(e).Ok?
       && Decode(Encode(e).value + rest, MAX_PAYLOAD_SIZE) == Frame(e, rest)
       && OpenData(c, key, e) == Some(payload)) <==> Sendable(payload)
  {
    SurvivesWireIff(DataFrame(c, key, sid, s, payload), rest);
    if Sendable(payload) {
      OpenDataFrame(c, key, sid, s, payload);
    }
  }

  function SealAll(c: Suite, key: Key, sid: SessionId, s: nat, ps: seq<Bytes>): (es: seq<Envelope>)
    ensures |es| == |ps|
    decreases |ps|
  {
    if ps == [] then [] else [DataFrame(c, key, sid, s, ps[0])] + SealAll(c, key, sid, s + 1, ps[1..])
  }

  function OpenAll(c: Suite, key: Key, es: seq<Envelope>): (r: Option<seq<Bytes>>) {
    if es == [] then Some([])
    else if |es[0].payload| < SEQ_SIZE then None
    else match (OpenData(c, key, es[0]), OpenAll(c, key, es[1..]))
      case (Some(p), Some(ps)) => Some([p] + ps)
      case _ => None
  }

  lemma {:induction false} SealedAreEncodable(c: Suite, key: Key, sid: SessionId, s: nat, ps: seq<Bytes>)
    requires forall i :: 0 <= i < |ps| ==> Sendable(ps[i])
    ensures AllEncodable(SealAll(c, key, sid, s, ps))
    decreases |ps|
  {
    if ps != [] {
      assert Sendable(ps[0]);
      SealedAreEncodable(c, key, sid, s + 1, ps[1..]);
    }
  }

  lemma {:induction false} OpenAllSealed(c: Suite, key: Key, sid: SessionId, s: nat, ps: seq<Bytes>)
    requires forall i :: 0 <= i < |ps| ==> Sendable(ps[i])
    requires s + |ps| <= TWO_64
    ensures OpenAll(c, key, SealAll(c, key, sid, s, ps)) == Some(ps)
    decreases |ps|
  {
    if ps == [] {
    } else {
      assert Sendable(ps[0]);
      OpenDataFrame(c, key, sid, s, ps[0]);
      OpenAllSealed(c, key, sid, s + 1, ps[1..]);
      var es := SealAll(c, key, sid, s, ps);
      assert es[0] == DataFrame(c, key, sid, s, ps[0]) && es[1..] == SealAll(c, key, sid, s + 1, ps[1..]);
      assert [ps[0]] + ps[1..] == ps;
    }
  }

  /** Every list of payloads comes back from the byte stream it was written to. */
  lemma {:induction false} PipelineRoundTrip(c: Suite, key: Key, sid: SessionId, s: nat, ps: seq<Bytes>)
    requires forall i :: 0 <= i < |ps| ==> Sendable(ps[i])
    requires s + |ps| <= TWO_64
    ensures AllEncodable(SealAll(c, key, sid, s, ps))
    ensures OpenAll(c, key, DecodeAll(EncodeAll(SealAll(c, key, sid, s, ps)))) == Some(ps)
  {
    SealedAreEncodable(c, key, sid, s, ps);
    StreamRoundTrip(SealAll(c, key, sid, s, ps));
    OpenAllSealed(c, key, sid, s, ps);
  }
}
