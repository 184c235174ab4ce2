/**
 What one call of the publisher or of the subscriber does, on values (pkg/feed/publisher.go, pkg/feed/subscriber.go).
 The classes in PublisherEngine.dfy and SubscriberEngine.dfy are proved to do exactly this.
 */
module Endpoints {
  import opened Wrappers
  import opened ByteStrings
  import opened Primitives
  import opened EnvelopeCodec
  import opened SealedFrames
  import opened ReplayLog
  import Hkdf

  const REPLAY_CAPACITY := 100

  // ----- publisher -----

  datatype Publisher = Publisher(
    sid: SessionId,
    masterKey: Option<Key>,
    cipherKey: Option<Key>,
    connected: bool,
    seqCounter: nat,
    replay: seq<SeqMsg>,
    bytesSinceRekey: nat,
    lastRekey: int,
    byteLimit: nat,
    timeLimit: int)

  /** The new state, the frames that reached the connection, every use made of the AEAD, and whether the call succeeded. */
  datatype Output = Output(pub: Publisher, frames: seq<Envelope>, seals: seq<Seal>, ok: bool)

  /** sendFrame: fails without a connection, when the frame is too large, or when the write fails (`up` is false). */
  predicate Sends(connected: bool, e: Envelope, up: bool) {
    connected && up && Encode(e).Ok?
  }

  /** The envelope the other side decodes: Encode copies as many bytes as its 32-bit length says. */
  function OnWire(e: Envelope): (r: Envelope) {
    e.(payload := e.payload[..|e.payload| % TWO_32])
  }

  function NextSeq(s: nat): (r: nat) {
    (s + 1) % TWO_64
  }

  /** TriggerRekey. The random salt, the clock and the outcome of the write are parameters. */
  function Rekey(c: Suite, p: Publisher, salt: Nonce, now: int, up: bool): (o: Output) {
    match p.cipherKey
    case None => Output(p, [], [], true)
    case Some(key) =>
      var s := NextSeq(p.seqCounter);
      var e := RekeyFrame(c, key, p.sid, s, salt);
      var seals := [StreamSeal(key, p.sid, REKEY, s, salt)];
      if !Sends(p.connected, e, up) then Output(p.(seqCounter := s), [], seals, false)
      else
        var next := Hkdf.Ratchet(c, key, salt);
        Output(p.(seqCounter := s, cipherKey := Some(next), masterKey := Some(next), bytesSinceRekey := 0, lastRekey := now),
               [e], seals, true)
  }

  /** PublishPayload's accounting: the payload is counted before the thresholds are tested. */
  function Counted(p: Publisher, payload: Bytes): (r: Publisher) {
    p.(bytesSinceRekey := (p.bytesSinceRekey + |payload|) % TWO_64)
  }

  predicate ShouldRekey(p: Publisher, now: int) {
    || (p.byteLimit > 0 && p.bytesSinceRekey >= p.byteLimit)
    || (p.timeLimit > 0 && now - p.lastRekey >= p.timeLimit)
  }

  /** The part of PublishPayload after the optional rekey. */
  function Emit(c: Suite, p: Publisher, payload: Bytes, up: bool): (o: Output) {
    match p.cipherKey
    case None => Output(p, [], [], false)
    case Some(key) =>
      var s := NextSeq(p.seqCounter);
      var e := DataFrame(c, key, p.sid, s, payload);
      var sent := Sends(p.connected, e, up);
      Output(p.(seqCounter := s, replay := PushTo(p.replay, REPLAY_CAPACITY, SeqMsg(s, payload))),
             if sent then [OnWire(e)] else [],
             [StreamSeal(key, p.sid, DATA_STREAM, s, Pad(payload, PADDING_TARGET))],
             sent)
  }

  /** PublishPayload. A failed rekey is ignored and the payload goes out under the old key. */
  function Publish(c: Suite, p: Publisher, payload: Bytes, salt: Nonce, now: int, upRekey: bool, up: bool): (o: Output) {
    var p1 := Counted(p, payload);
    if ShouldRekey(p1, now) then
      var r := Rekey(c, p1, salt, now, upRekey);
      var o := Emit(c, r.pub, payload, up);
      Output(o.pub, r.frames + o.frames, r.seals + o.seals, o.ok)
    else
      Emit(c, p1, payload, up)
  }

  /** replaySyncForSubscriber over the given items; the writes of the numbers in `lost` fail and are ignored. */
  function ReplayFrames(c: Suite, key: Key, sid: SessionId, connected: bool, items: seq<SeqMsg>, lost: set<nat>): (es: seq<Envelope>) {
    if items == [] then []
    else Resent(c, key, sid, connected, items[0], lost) + ReplayFrames(c, key, sid, connected, items[1..], lost)
  }

  /** One item sealed again under the current key: one frame, or none if its write fails. */
  function Resent(c: Suite, key: Key, sid: SessionId, connected: bool, m: SeqMsg, lost: set<nat>): (es: seq<Envelope>) {
    var e := DataFrame(c, key, sid, m.seqNum, m.payload);
    if Sends(connected, e, m.seqNum !in lost) then [OnWire(e)] else []
  }

  lemma {:induction false} ReplayFramesNext(c: Suite, key: Key, sid: SessionId, connected: bool, items: seq<SeqMsg>, lost: set<nat>, i: nat)
    requires i < |items|
    ensures ReplayFrames(c, key, sid, connected, items[..i + 1], lost)
         == ReplayFrames(c, key, sid, connected, items[..i], lost) + Resent(c, key, sid, connected, items[i], lost)
    decreases i
  {
    if i == 0 {
      assert items[..1][1..] == [] && items[..0] == [];
    } else {
      ReplayFramesNext(c, key, sid, connected, items[1..], lost, i - 1);
      assert items[..i + 1][1..] == items[1..][..i] && items[..i][1..] == items[1..][..i - 1];
      FrameAssoc(Resent(c, key, sid, connected, items[0], lost),
                 ReplayFrames(c, key, sid, connected, items[1..][..i - 1], lost),
                 Resent(c, key, sid, connected, items[i], lost));
    }
  }

  lemma {:induction false} FrameAssoc(a: seq<Envelope>, b: seq<Envelope>, d: seq<Envelope>)
    ensures a + (b + d) == a + b + d
  {
  }

  function ReplaySeals(key: Key, sid: SessionId, items: seq<SeqMsg>): (r: seq<Seal>)
    ensures |r| == |items|
  {
    seq(|items|, i requires 0 <= i < |items| =>
      StreamSeal(key, sid, DATA_STREAM, items[i].seqNum, Pad(items[i].payload, PADDING_TARGET)))
  }

  lemma {:induction false} ReplaySealsNext(key: Key, sid: SessionId, items: seq<SeqMsg>, i: nat)
    requires i < |items|
    ensures ReplaySeals(key, sid, items)[..i + 1] == ReplaySeals(key, sid, items)[..i]
      + [StreamSeal(key, sid, DATA_STREAM, items[i].seqNum, Pad(items[i].payload, PADDING_TARGET))]
  {
  }

  function Replay(c: Suite, p: Publisher, last: nat, lost: set<nat>): (o: Output) {
    match p.cipherKey
    case None => Output(p, [], [], false)
    case Some(key) =>
      if !p.connected then Output(p, [], [], false)
      else
        var items := After(p.replay, last);
        Output(p, ReplayFrames(c, key, p.sid, true, items, lost), ReplaySeals(key, p.sid, items), true)
  }

  function CloseFrame(sid: SessionId): (e: Envelope) {
    Envelope(VERSION, CLOSE, sid, Zeros(12), [])
  }

  /** Close: the session ends, and keys and replay buffer are wiped. */
  function Shutdown(p: Publisher, up: bool): (o: Output) {
    Output(p.(masterKey := None, cipherKey := None, connected := false, replay := []),
           if p.connected && up then [CloseFrame(p.sid)] else [], [], true)
  }

  // ----- subscriber -----

  datatype Subscriber = Subscriber(cipherKey: Option<Key>, lastSeq: nat, delivered: seq<SeqMsg>)

  datatype Handled = Continue(sub: Subscriber) | Stopped | AuthFailed

  function Deliver(s: Subscriber, seqNum: nat, payload: Bytes): (r: Subscriber) {
    if seqNum <= s.lastSeq then s
    else s.(lastSeq := seqNum, delivered := s.delivered + [SeqMsg(seqNum, payload)])
  }

  /** One iteration of the loop in SubscribeStream. */
  function HandleFrame(c: Suite, s: Subscriber, e: Envelope): (h: Handled) {
    if e.msgType == CLOSE then Stopped
    else if e.msgType != REKEY && e.msgType != DATA_STREAM then Continue(s)
    else if |e.payload| < SEQ_SIZE || s.cipherKey.None? then Continue(s)
    else if e.msgType == REKEY then
      match OpenFrame(c, s.cipherKey.value, e)
      case None => AuthFailed
      case Some(salt) => Continue(s.(cipherKey := Some(Hkdf.Ratchet(c, s.cipherKey.value, salt))))
    else
      match OpenData(c, s.cipherKey.value, e)
      case None => AuthFailed
      case Some(p) => Continue(Deliver(s, SeqOf(e), p))
  }

  /** The loop over a whole batch of frames. */
  function HandleAll(c: Suite, s: Subscriber, es: seq<Envelope>): (h: Handled)
    decreases |es|
  {
    if es == [] then Continue(s)
    else match HandleFrame(c, s, es[0])
      case Continue(s') => HandleAll(c, s', es[1..])
      case Stopped => Stopped
      case AuthFailed => AuthFailed
  }

  /** The size of the sealed frame's payload: number, padded plaintext, tag. */
  function FrameSize(payload: Bytes): (n: nat) {
    SEQ_SIZE + (if |payload| + LEN_PREFIX_SIZE > PADDING_TARGET then |payload| + LEN_PREFIX_SIZE else PADDING_TARGET) + TAG_SIZE
  }

  /** Encode either refuses the frame or writes all of it. Only a frame of 2^32 bytes or more whose length, cut to
      32 bits, slips below the 32 MB limit fails this. */
  predicate Fits(payload: Bytes) {
    FrameSize(payload) % TWO_32 <= MAX_PAYLOAD_SIZE ==> Sendable(payload)
  }

  lemma {:induction false} RekeyFrameUncut(c: Suite, key: Key, sid: SessionId, s: nat, salt: Nonce)
    ensures OnWire(RekeyFrame(c, key, sid, s, salt)) == RekeyFrame(c, key, sid, s, salt)
  {
    var e := RekeyFrame(c, key, sid, s, salt);
    assert |e.payload| == 36 && e.payload[..36] == e.payload;
  }

  lemma {:induction false} OnWireUncut(c: Suite, key: Key, sid: SessionId, s: nat, payload: Bytes)
    requires Fits(payload)
    ensures Encode(DataFrame(c, key, sid, s, payload)).Ok? <==> Sendable(payload)
    ensures Sendable(payload) ==> OnWire(DataFrame(c, key, sid, s, payload)) == DataFrame(c, key, sid, s, payload)
  {
    var e := DataFrame(c, key, sid, s, payload);
    assert |e.payload| == FrameSize(payload);
    if Sendable(payload) {
      assert |e.payload| < TWO_32;
      assert e.payload[..|e.payload|] == e.payload;
    }
  }

  /** What publishing promises of one frame: if it is reported as sent, its receiver gets the payload out of it. */
  predicate Faithful(c: Suite, key: Key, sid: SessionId, s: nat, payload: Bytes) {
    var e := DataFrame(c, key, sid, s, payload);
    Encode(e).Ok? ==> |OnWire(e).payload| >= SEQ_SIZE && OpenData(c, key, OnWire(e)) == Some(payload)
  }

  lemma {:induction false} FitsIsFaithful(c: Suite, key: Key, sid: SessionId, s: nat, payload: Bytes)
    requires s < TWO_64 && Fits(payload)
    ensures Faithful(c, key, sid, s, payload)
  {
    OnWireUncut(c, key, sid, s, payload);
    if Sendable(payload) {
      OpenDataFrame(c, key, sid, s, payload);
    }
  }

  /** `Fits` excludes nothing it need not: it is exactly the condition under which every lawful suite keeps the promise. */
  lemma {:induction false} FitsIff(key: Key, sid: SessionId, s: nat, payload: Bytes)
    requires s < TWO_64
    ensures Fits(payload) <==> forall c: Suite :: Faithful(c, key, sid, s, payload)
  {
    if Fits(payload) {
      forall c: Suite
        ensures Faithful(c, key, sid, s, payload)
      {
        FitsIsFaithful(c, key, sid, s, payload);
      }
    } else {
      var c: Suite := IdentitySuite();
      CutFrameOpensShort(c, key, sid, s, payload);
    }
  }

  /** A frame cut on the wire, under the suite that does not encrypt: what comes out is shorter than what went in. */
  lemma {:induction false} CutFrameOpensShort(c: Suite, key: Key, sid: SessionId, s: nat, payload: Bytes)
    requires c == IdentitySuite() && !Fits(payload)
    ensures !Faithful(c, key, sid, s, payload)
  {
    var e := DataFrame(c, key, sid, s, payload);
    assert |e.payload| == FrameSize(payload);
    var w := OnWire(e);
    if |w.payload| >= SEQ_SIZE {
      var p := OpenFrame(c, key, w);
      assert p.Some? ==> |p.value| <= |w.payload| <= MAX_PAYLOAD_SIZE < |payload|;
    }
  }
}
