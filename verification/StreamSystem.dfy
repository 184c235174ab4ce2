/**
 One publisher, the relay and any number of subscribers, as a step system.

 Granularity: PublishPayload, TriggerRekey, replaySyncForSubscriber and the answer to a subscriber's handshake are
 one step each. The code does not hold one lock across them, and with finer steps the key agreement below breaks
 (a handshake answer could copy the master key before a rekey and be sent after it).

 Each connection is a reliable FIFO until it is dropped: a frame travels from the publisher's uplink, through the
 relay's bounded queue for the subscriber, to the subscriber's socket. A PAKE answer is kept abstract: it carries the
 master key to the one handshake it answers, which is what Handshake.dfy proves of its bytes; for every other
 connection it is a frame of a type the stream loop skips.
 */
module StreamSystem {
  import opened Wrappers
  import opened ByteStrings
  import opened Primitives
  import opened EnvelopeCodec
  import opened SealedFrames
  import opened Endpoints
  import FanOut

  datatype Frame = Env(e: Envelope) | Answer(conn: nat, key: Key)

  datatype Inbound = Hello(conn: nat) | Sync(last: nat)

  /** A subscriber's connection. `gap`: the relay failed to queue some frame for it (its removal is then pending). */
  datatype Conn = Conn(id: nat, wire: seq<Frame>, queue: seq<Frame>, ready: bool, gap: bool)

  datatype Node = Node(sub: Subscriber, conn: Option<Conn>, halted: bool)

  /** History: entry i describes what sequence number i + 1 was used for. */
  datatype Entry = Msg(payload: Bytes, sent: bool) | Ratcheted(salt: Bytes)

  datatype System = System(
    pub: Publisher,
    key: Key,                // the publisher's latest stream key, remembered after Close wipes it
    uplink: seq<Frame>,
    inbox: seq<Inbound>,
    nodes: map<nat, Node>,
    log: seq<Entry>,
    seals: seq<Seal>,
    nextConn: nat)

  datatype Action =
    | DoPublish(payload: Bytes, salt: Nonce, now: int, upRekey: bool, up: bool)
    | DoRekey(salt: Nonce, now: int, up: bool)
    | DoClose(up: bool)
    | DoServe(lost: set<nat>, up: bool)
    | DoDropInbound
    | DoJoin(i: nat)
    | DoRequestSync(i: nat)
    | DoForward(failed: set<nat>)
    | DoWrite(i: nat)
    | DoReceive(i: nat)
    | DoDisconnect(i: nat)

  function Wrap(es: seq<Envelope>): (fs: seq<Frame>)
    ensures |fs| == |es|
    ensures forall i :: 0 <= i < |es| ==> fs[i] == Env(es[i])
  {
    seq(|es|, i requires 0 <= i < |es| => Env(es[i]))
  }

  function Path(k: Conn, uplink: seq<Frame>): (fs: seq<Frame>) {
    k.wire + k.queue + uplink
  }

  /** The published message that number s names, if it names one. */
  predicate Names(log: seq<Entry>, s: nat, payload: Bytes) {
    1 <= s <= |log| && log[s - 1].Msg? && log[s - 1].payload == payload
  }

  /** No forgery: if the frame opens under this key at all, it opens to the message its number names. */
  predicate Genuine(c: Suite, log: seq<Entry>, key: Option<Key>, f: Frame) {
    (f.Env? && key.Some? && f.e.msgType == DATA_STREAM && |f.e.payload| >= SEQ_SIZE) ==>
      match OpenData(c, key.value, f.e)
      case None => true
      case Some(p) => Names(log, SeqOf(f.e), p)
  }

  predicate Enabled(c: Suite, s: System, a: Action) {
    match a
    case DoPublish(payload, _, _, _, _) => Fits(payload) && s.pub.seqCounter + 2 < TWO_64
    case DoRekey(_, _, _) => s.pub.seqCounter + 1 < TWO_64
    case DoClose(_) => true
    case DoServe(_, _) => s.inbox != []
    case DoDropInbound => s.inbox != []
    case DoJoin(i) => i in s.nodes && !s.nodes[i].halted
    case DoRequestSync(i) => i in s.nodes && s.nodes[i].conn.Some? && s.nodes[i].conn.value.ready
    case DoForward(failed) =>
      && s.uplink != []
      && forall i :: i in s.nodes && s.nodes[i].conn.Some? && i !in failed ==> |s.nodes[i].conn.value.queue| < FanOut.QUEUE_SIZE
    case DoWrite(i) => i in s.nodes && s.nodes[i].conn.Some? && s.nodes[i].conn.value.queue != []
    case DoReceive(i) =>
      && i in s.nodes && s.nodes[i].conn.Some? && s.nodes[i].conn.value.wire != []
      // a subscriber that lost frames may hold an outdated key: it is then protected by the AEAD alone
      && (s.nodes[i].conn.value.gap ==> Genuine(c, s.log, s.nodes[i].sub.cipherKey, s.nodes[i].conn.value.wire[0]))
    case DoDisconnect(i) => i in s.nodes
  }

  /** The publisher ran a call with the given output; `entries` records the sequence numbers it used. */
  function Emitted(s: System, o: Output, entries: seq<Entry>): (r: System) {
    s.(pub := o.pub,
       key := if o.pub.cipherKey.Some? then o.pub.cipherKey.value else s.key,
       uplink := s.uplink + Wrap(o.frames),
       log := s.log + entries,
       seals := s.seals + o.seals)
  }

  function PublishEntries(s: System, payload: Bytes, salt: Nonce, now: int, ok: bool): (es: seq<Entry>) {
    if s.pub.cipherKey.None? then []
    else if ShouldRekey(Counted(s.pub, payload), now) then [Ratcheted(salt), Msg(payload, ok)]
    else [Msg(payload, ok)]
  }

  function Queued(n: Node, f: Frame, failed: bool): (r: Node) {
    match n.conn
    case None => n
    case Some(k) => n.(conn := Some(if failed then k.(gap := true) else k.(queue := k.queue + [f])))
  }

  /** The subscriber reads the next frame: the first one must answer its handshake, the others feed the stream loop. */
  function Received(c: Suite, n: Node): (r: Node)
    requires n.conn.Some? && n.conn.value.wire != []
  {
    var k := n.conn.value;
    var f := k.wire[0];
    var k' := k.(wire := k.wire[1..]);
    if !k.ready then
      if f.Answer? && f.conn == k.id then n.(sub := n.sub.(cipherKey := Some(f.key)), conn := Some(k'.(ready := true)))
      else n.(conn := None)
    else match f
      case Answer(_, _) => n.(conn := Some(k'))
      case Env(e) =>
        match HandleFrame(c, n.sub, e)
        case Continue(sub) => n.(sub := sub, conn := Some(k'))
        case Stopped => n.(conn := None, halted := true)
        case AuthFailed => n.(conn := None, halted := true)
  }

  function Step(c: Suite, s: System, a: Action): (r: System)
    requires Enabled(c, s, a)
  {
    match a
    case DoPublish(payload, salt, now, upRekey, up) =>
      var o := Publish(c, s.pub, payload, salt, now, upRekey, up);
      Emitted(s, o, PublishEntries(s, payload, salt, now, o.ok))
    case DoRekey(salt, now, up) =>
      Emitted(s, Rekey(c, s.pub, salt, now, up), if s.pub.cipherKey.Some? then [Ratcheted(salt)] else [])
    case DoClose(up) => Emitted(s, Shutdown(s.pub, up), [])
    case DoServe(lost, up) =>
      var s' := s.(inbox := s.inbox[1..]);
      match s.inbox[0] {
        case Hello(conn) =>
          if s.pub.masterKey.Some? && s.pub.connected && up
          then s'.(uplink := s.uplink + [Answer(conn, s.pub.masterKey.value)]) else s'
        case Sync(last) => Emitted(s', Replay(c, s.pub, last, lost), [])
      }
    case DoDropInbound => s.(inbox := s.inbox[1..])
    case DoJoin(i) =>
      s.(nodes := s.nodes[i := s.nodes[i].(conn := Some(Conn(s.nextConn, [], [], false, false)))],
         inbox := s.inbox + [Hello(s.nextConn)],
         nextConn := s.nextConn + 1)
    case DoRequestSync(i) => s.(inbox := s.inbox + [Sync(s.nodes[i].sub.lastSeq)])
    case DoForward(failed) =>
      s.(uplink := s.uplink[1..], nodes := map i | i in s.nodes :: Queued(s.nodes[i], s.uplink[0], i in failed))
    case DoWrite(i) =>
      var k := s.nodes[i].conn.value;
      s.(nodes := s.nodes[i := s.nodes[i].(conn := Some(k.(wire := k.wire + [k.queue[0]], queue := k.queue[1..])))])
    case DoReceive(i) => s.(nodes := s.nodes[i := Received(c, s.nodes[i])])
    case DoDisconnect(i) => s.(nodes := s.nodes[i := s.nodes[i].(conn := None)])
  }

  /** A new publisher with a fresh master key, and subscribers that have not connected yet. */
  predicate Initial(s: System) {
    && s.pub.cipherKey == s.pub.masterKey == Some(s.key)
    && s.pub.seqCounter == 0 && s.pub.replay == []
    && s.uplink == [] && s.inbox == [] && s.log == [] && s.seals == []
    && forall i :: i in s.nodes ==> s.nodes[i] == Node(Subscriber(None, 0, []), None, false)
  }

  predicate Runs(c: Suite, s: System, run: seq<Action>)
    decreases |run|
  {
    run == [] || (Enabled(c, s, run[0]) && Runs(c, Step(c, s, run[0]), run[1..]))
  }

  function Reached(c: Suite, s: System, run: seq<Action>): (r: System)
    requires Runs(c, s, run)
    decreases |run|
  {
    if run == [] then s else Reached(c, Step(c, s, run[0]), run[1..])
  }
}
