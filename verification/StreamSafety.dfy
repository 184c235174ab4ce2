/** What every run of the stream system keeps: key agreement through the frames in flight, nonce discipline, delivery safety. */
module StreamSafety {
  import opened Wrappers
  import opened ByteStrings
  import opened Primitives
  import opened EnvelopeCodec
  import opened SealedFrames
  import opened ReplayLog
  import opened Endpoints
  import opened StreamSystem
  import FanOut
  import Hkdf

  // ----- following a key through the frames in flight -----

  /** The key a subscriber holding k has after reading f; None if f does not open to what its number names. */
  function StepKey(c: Suite, log: seq<Entry>, k: Key, f: Frame): (r: Option<Key>) {
    if f.Answer? || |f.e.payload| < SEQ_SIZE then Some(k)
    else if f.e.msgType == REKEY then
      match OpenFrame(c, k, f.e)
      case None => None
      case Some(salt) => Some(Hkdf.Ratchet(c, k, salt))
    else if f.e.msgType == DATA_STREAM then
      match OpenData(c, k, f.e)
      case None => None
      case Some(p) => if Names(log, SeqOf(f.e), p) then Some(k) else None
    else Some(k)
  }

  function Flow(c: Suite, log: seq<Entry>, k: Key, fs: seq<Frame>): (r: Option<Key>)
    decreases |fs|
  {
    if fs == [] then Some(k)
    else match StepKey(c, log, k, fs[0])
      case None => None
      case Some(k') => Flow(c, log, k', fs[1..])
  }

  lemma {:induction false} FlowConcat(c: Suite, log: seq<Entry>, k: Key, a: seq<Frame>, b: seq<Frame>)
    ensures Flow(c, log, k, a + b) ==
      match Flow(c, log, k, a) { case None => None case Some(k') => Flow(c, log, k', b) }
    decreases |a|
  {
    if a == [] {
      assert a + b == b;
    } else {
      assert (a + b)[1..] == a[1..] + b;
      if StepKey(c, log, k, a[0]).Some? {
        FlowConcat(c, log, StepKey(c, log, k, a[0]).value, a[1..], b);
      }
    }
  }

  lemma {:induction false} FlowMonotone(c: Suite, log: seq<Entry>, ext: seq<Entry>, k: Key, fs: seq<Frame>)
    requires Flow(c, log, k, fs).Some?
    ensures Flow(c, log + ext, k, fs) == Flow(c, log, k, fs)
    decreases |fs|
  {
    if fs != [] {
      assert StepKey(c, log + ext, k, fs[0]) == StepKey(c, log, k, fs[0]);
      FlowMonotone(c, log, ext, StepKey(c, log, k, fs[0]).value, fs[1..]);
    }
  }

  // ----- the invariant -----

  predicate AnswersOk(c: Suite, log: seq<Entry>, key: Key, id: nat, path: seq<Frame>) {
    forall j :: 0 <= j < |path| && path[j].Answer? && path[j].conn == id ==>
      Flow(c, log, path[j].key, path[j + 1..]) == Some(key)
  }

  /** The frames on their way to this subscriber turn its key, or the key it is about to be handed, into the publisher's. */
  predicate LinkOk(c: Suite, log: seq<Entry>, key: Key, sub: Subscriber, k: Conn, path: seq<Frame>) {
    if k.ready then sub.cipherKey.Some? && Flow(c, log, sub.cipherKey.value, path) == Some(key)
    else AnswersOk(c, log, key, k.id, path)
  }

  predicate DeliveredOk(log: seq<Entry>, sub: Subscriber) {
    && Increasing(sub.delivered)
    && sub.lastSeq == (if sub.delivered == [] then 0 else sub.delivered[|sub.delivered| - 1].seqNum)
    && forall i :: 0 <= i < |sub.delivered| ==> Names(log, sub.delivered[i].seqNum, sub.delivered[i].payload)
  }

  predicate NodeOk(c: Suite, s: System, n: Node) {
    && DeliveredOk(s.log, n.sub)
    && (n.conn.Some? ==>
      && n.conn.value.id < s.nextConn
      && |n.conn.value.queue| <= FanOut.QUEUE_SIZE
      && (!n.conn.value.gap ==> LinkOk(c, s.log, s.key, n.sub, n.conn.value, Path(n.conn.value, s.uplink))))
  }

  predicate NodesOk(c: Suite, s: System) {
    forall i :: i in s.nodes ==> NodeOk(c, s, s.nodes[i])
  }

  /** Every data message numbered so far, in order. */
  function Messages(log: seq<Entry>): (ms: seq<SeqMsg>) {
    if log == [] then []
    else
      var before := Messages(log[..|log| - 1]);
      match log[|log| - 1]
      case Msg(p, _) => before + [SeqMsg(|log|, p)]
      case Ratcheted(_) => before
  }

  predicate EntryOk(e: Entry) {
    e.Msg? ==> Fits(e.payload) && (e.sent ==> Sendable(e.payload))
  }

  predicate PublisherOk(s: System) {
    && s.pub.cipherKey == s.pub.masterKey
    && (s.pub.cipherKey.Some? ==> s.pub.cipherKey.value == s.key)
    && |s.log| == s.pub.seqCounter < TWO_64
    && s.pub.replay == (if s.pub.cipherKey.Some? then Last(Messages(s.log), REPLAY_CAPACITY) else [])
    && forall i :: 0 <= i < |s.log| ==> EntryOk(s.log[i])
  }

  /** Handshakes are numbered: no frame answers one that has not started. */
  predicate IdsOk(s: System) {
    && (forall j :: 0 <= j < |s.uplink| && s.uplink[j].Answer? ==> s.uplink[j].conn < s.nextConn)
    && (forall j :: 0 <= j < |s.inbox| && s.inbox[j].Hello? ==> s.inbox[j].conn < s.nextConn)
  }

  /** What sequence number s was sealed with. */
  function SealOf(key: Key, sid: SessionId, log: seq<Entry>, s: nat): (r: Seal)
    requires 1 <= s <= |log|
  {
    match log[s - 1]
    case Msg(p, _) => StreamSeal(key, sid, DATA_STREAM, s, Pad(p, PADDING_TARGET))
    case Ratcheted(salt) => StreamSeal(key, sid, REKEY, s, salt)
  }

  predicate SealOk(sid: SessionId, log: seq<Entry>, r: Seal) {
    var s := GetUint(r.nonce[4..]);
    1 <= s <= |log| && r == SealOf(r.key, sid, log, s)
  }

  predicate SealsOk(s: System) {
    forall j :: 0 <= j < |s.seals| ==> SealOk(s.pub.sid, s.log, s.seals[j])
  }

  predicate Inv(c: Suite, s: System) {
    PublisherOk(s) && IdsOk(s) && SealsOk(s) && NodesOk(c, s)
  }

  lemma {:induction false} InitialInv(c: Suite, s: System)
    requires Initial(s)
    ensures Inv(c, s)
  {
  }

  // ----- the log only grows -----

  lemma {:induction false} MessagesNamed(log: seq<Entry>)
    ensures Increasing(Messages(log))
    ensures forall i :: 0 <= i < |Messages(log)| ==> Names(log, Messages(log)[i].seqNum, Messages(log)[i].payload)
  {
    if log != [] {
      var front := log[..|log| - 1];
      var ms, all := Messages(front), Messages(log);
      MessagesNamed(front);
      assert forall i :: 0 <= i < |ms| ==> all[i] == ms[i] && Names(front, ms[i].seqNum, ms[i].payload);
      forall i | 0 <= i < |all|
        ensures Names(log, all[i].seqNum, all[i].payload)
      {
        if i < |ms| {
          NamesGrows(front, log, ms[i].seqNum, ms[i].payload);
        }
      }
    }
  }

  lemma {:induction false} NamesGrows(log: seq<Entry>, more: seq<Entry>, s: nat, payload: Bytes)
    requires log <= more && Names(log, s, payload)
    ensures Names(more, s, payload)
  {
  }

  lemma {:induction false} MessagesComplete(log: seq<Entry>, s: nat)
    requires 1 <= s <= |log| && log[s - 1].Msg?
    ensures SeqMsg(s, log[s - 1].payload) in Messages(log)
  {
    if s < |log| {
      MessagesComplete(log[..|log| - 1], s);
    }
  }

  lemma {:induction false} DeliveredMonotone(log: seq<Entry>, ext: seq<Entry>, sub: Subscriber)
    requires DeliveredOk(log, sub)
    ensures DeliveredOk(log + ext, sub)
  {
    forall i | 0 <= i < |sub.delivered|
      ensures Names(log + ext, sub.delivered[i].seqNum, sub.delivered[i].payload)
    {
      NamesGrows(log, log + ext, sub.delivered[i].seqNum, sub.delivered[i].payload);
    }
  }

  // ----- frames the publisher appends -----

  /** Appending frames that carry `key` to `key'` moves every link along, whatever is still in flight on it. */
  lemma {:induction false} LinkAppend(c: Suite, log: seq<Entry>, ext: seq<Entry>, key: Key, key': Key, sub: Subscriber, k: Conn,
                   path: seq<Frame>, fs: seq<Frame>)
    requires LinkOk(c, log, key, sub, k, path)
    requires Flow(c, log + ext, key, fs) == Some(key')
    requires AnswersOk(c, log + ext, key', k.id, fs)
    ensures LinkOk(c, log + ext, key', sub, k, path + fs)
  {
    if k.ready {
      FlowMonotone(c, log, ext, sub.cipherKey.value, path);
      FlowConcat(c, log + ext, sub.cipherKey.value, path, fs);
    } else {
      var all := path + fs;
      forall j | 0 <= j < |all| && all[j].Answer? && all[j].conn == k.id
        ensures Flow(c, log + ext, all[j].key, all[j + 1..]) == Some(key')
      {
        if j < |path| {
          assert path[j] == all[j];
          FlowMonotone(c, log, ext, path[j].key, path[j + 1..]);
          FlowConcat(c, log + ext, path[j].key, path[j + 1..], fs);
          assert all[j + 1..] == path[j + 1..] + fs;
        } else {
          assert fs[j - |path|] == all[j];
          assert all[j + 1..] == fs[j - |path| + 1..];
        }
      }
    }
  }

  lemma {:induction false} FlowData(c: Suite, log: seq<Entry>, key: Key, sid: SessionId, s: nat, payload: Bytes)
    requires s < TWO_64 && Sendable(payload) && Names(log, s, payload)
    ensures var f := Env(OnWire(DataFrame(c, key, sid, s, payload)));
      StepKey(c, log, key, f) == Some(key) && Flow(c, log, key, [f]) == Some(key)
  {
    OnWireUncut(c, key, sid, s, payload);
    OpenDataFrame(c, key, sid, s, payload);
  }

  lemma {:induction false} FlowRekey(c: Suite, log: seq<Entry>, key: Key, sid: SessionId, s: nat, salt: Nonce)
    requires s < TWO_64
    ensures StepKey(c, log, key, Env(RekeyFrame(c, key, sid, s, salt))) == Some(Hkdf.Ratchet(c, key, salt))
  {
    OpenSealed(c, key, sid, REKEY, s, salt);
  }

  predicate AllNamed(log: seq<Entry>, items: seq<SeqMsg>) {
    forall i :: 0 <= i < |items| ==> Names(log, items[i].seqNum, items[i].payload) && Fits(items[i].payload)
  }

  lemma {:induction false} FlowResent(c: Suite, log: seq<Entry>, key: Key, sid: SessionId, m: SeqMsg, lost: set<nat>)
    requires m.seqNum < TWO_64 && Names(log, m.seqNum, m.payload) && Fits(m.payload)
    ensures Flow(c, log, key, Wrap(Resent(c, key, sid, true, m, lost))) == Some(key)
  {
    var es := Resent(c, key, sid, true, m, lost);
    OnWireUncut(c, key, sid, m.seqNum, m.payload);
    if es != [] {
      FlowData(c, log, key, sid, m.seqNum, m.payload);
      WrapOne(es[0]);
    }
  }

  lemma {:induction false} FlowReplay(c: Suite, log: seq<Entry>, key: Key, sid: SessionId, items: seq<SeqMsg>, lost: set<nat>)
    requires |log| < TWO_64 && AllNamed(log, items)
    ensures Flow(c, log, key, Wrap(ReplayFrames(c, key, sid, true, items, lost))) == Some(key)
    decreases |items|
  {
    if items != [] {
      FlowReplay(c, log, key, sid, items[1..], lost);
      assert Names(log, items[0].seqNum, items[0].payload);
      FlowResent(c, log, key, sid, items[0], lost);
      FlowWrapped(c, log, key, Resent(c, key, sid, true, items[0], lost), ReplayFrames(c, key, sid, true, items[1..], lost));
    }
  }

  lemma {:induction false} FlowWrapped(c: Suite, log: seq<Entry>, key: Key, a: seq<Envelope>, b: seq<Envelope>)
    requires Flow(c, log, key, Wrap(a)) == Some(key) && Flow(c, log, key, Wrap(b)) == Some(key)
    ensures Flow(c, log, key, Wrap(a + b)) == Some(key)
  {
    assert Wrap(a + b) == Wrap(a) + Wrap(b);
    FlowConcat(c, log, key, Wrap(a), Wrap(b));
  }

  lemma {:induction false} ReplayNamed(s: System, last: nat)
    requires PublisherOk(s)
    ensures AllNamed(s.log, ReplayLog.After(s.pub.replay, last))
  {
    MessagesNamed(s.log);
    AfterMembers(s.pub.replay, last);
    var items := ReplayLog.After(s.pub.replay, last);
    forall i | 0 <= i < |items|
      ensures Names(s.log, items[i].seqNum, items[i].payload) && Fits(items[i].payload)
    {
      var m := items[i];
      assert m in s.pub.replay;
      assert m in Messages(s.log);
      assert EntryOk(s.log[m.seqNum - 1]);
    }
  }

  // ----- seals -----

  lemma {:induction false} SealOfOk(key: Key, sid: SessionId, log: seq<Entry>, s: nat)
    requires 1 <= s <= |log| < TWO_64
    ensures SealOk(sid, log, SealOf(key, sid, log, s))
  {
    var r := SealOf(key, sid, log, s);
    assert r.nonce[4..] == PutUint(s, 8);
    GetPut8(s);
  }

  lemma {:induction false} SealsExtend(sid: SessionId, log: seq<Entry>, ext: seq<Entry>, r: Seal)
    requires SealOk(sid, log, r)
    ensures SealOk(sid, log + ext, r)
  {
  }

  lemma {:induction false} ReplaySealsOk(key: Key, sid: SessionId, log: seq<Entry>, items: seq<SeqMsg>)
    requires |log| < TWO_64 && AllNamed(log, items)
    ensures forall j :: 0 <= j < |items| ==> SealOk(sid, log, ReplaySeals(key, sid, items)[j])
  {
    forall j | 0 <= j < |items|
      ensures SealOk(sid, log, ReplaySeals(key, sid, items)[j])
    {
      assert Names(log, items[j].seqNum, items[j].payload);
      SealOfOk(key, sid, log, items[j].seqNum);
    }
  }

  // ----- every step keeps the invariant -----

  lemma {:induction false} EmittedNode(c: Suite, s: System, s': System, n: Node, o: Output, entries: seq<Entry>)
    requires NodeOk(c, s, n) && OutputOk(c, s, o, entries) && s' == Emitted(s, o, entries)
    ensures NodeOk(c, s', n)
  {
    DeliveredMonotone(s.log, entries, n.sub);
    if n.conn.Some? && !n.conn.value.gap {
      var k := n.conn.value;
      LinkAppend(c, s.log, entries, s.key, s'.key, n.sub, k, Path(k, s.uplink), Wrap(o.frames));
      assert Path(k, s'.uplink) == Path(k, s.uplink) + Wrap(o.frames);
    }
  }

  /** The shape shared by publishing, rekeying, replaying and closing. */
  lemma {:induction false} EmittedInv(c: Suite, s: System, o: Output, entries: seq<Entry>)
    requires Inv(c, s) && o.pub.sid == s.pub.sid
    requires OutputOk(c, s, o, entries)
    ensures Inv(c, Emitted(s, o, entries))
  {
    var s' := Emitted(s, o, entries);
    forall i | i in s'.nodes
      ensures NodeOk(c, s', s'.nodes[i])
    {
      EmittedNode(c, s, s', s.nodes[i], o, entries);
    }
    forall j | 0 <= j < |s'.seals|
      ensures SealOk(s'.pub.sid, s'.log, s'.seals[j])
    {
      if j < |s.seals| {
        assert s'.seals[j] == s.seals[j];
        SealsExtend(s.pub.sid, s.log, entries, s.seals[j]);
      } else {
        assert s'.seals[j] == o.seals[j - |s.seals|];
      }
    }
  }

  /** The three facts EmittedInv asks of a publisher call. */
  predicate OutputOk(c: Suite, s: System, o: Output, entries: seq<Entry>) {
    && PublisherOk(Emitted(s, o, entries))
    && Flow(c, s.log + entries, s.key, Wrap(o.frames)) == Some(Emitted(s, o, entries).key)
    && forall j :: 0 <= j < |o.seals| ==> SealOk(s.pub.sid, s.log + entries, o.seals[j])
  }

  lemma {:induction false} MessagesSnoc(log: seq<Entry>, e: Entry)
    ensures Messages(log + [e]) == Messages(log) + (if e.Msg? then [SeqMsg(|log| + 1, e.payload)] else [])
  {
    assert (log + [e])[..|log + [e]| - 1] == log;
  }

  /** One more sequence number used: what the publisher's fields must have become. */
  lemma {:induction false} PublisherGrows(s: System, s': System, e: Entry)
    requires PublisherOk(s) && s.pub.cipherKey.Some? && EntryOk(e)
    requires s'.pub.cipherKey == s'.pub.masterKey == Some(s'.key)
    requires s'.log == s.log + [e] && s'.pub.seqCounter == s.pub.seqCounter + 1 < TWO_64
    requires s'.pub.replay ==
      if e.Msg? then PushTo(s.pub.replay, REPLAY_CAPACITY, SeqMsg(|s.log| + 1, e.payload)) else s.pub.replay
    ensures PublisherOk(s')
  {
    MessagesSnoc(s.log, e);
    if e.Msg? {
      PushKeepsLast(Messages(s.log), REPLAY_CAPACITY, SeqMsg(|s.log| + 1, e.payload));
    }
  }

  /** The seal that goes with a new log entry. */
  lemma {:induction false} OneSeal(key: Key, sid: SessionId, log: seq<Entry>, e: Entry, r: Seal)
    requires |log| + 1 < TWO_64
    requires r == if e.Msg? then StreamSeal(key, sid, DATA_STREAM, |log| + 1, Pad(e.payload, PADDING_TARGET))
                  else StreamSeal(key, sid, REKEY, |log| + 1, e.salt)
    ensures SealOk(sid, log + [e], r)
  {
    assert (log + [e])[|log|] == e;
    SealOfOk(key, sid, log + [e], |log| + 1);
  }

  lemma {:induction false} WrapOne(e: Envelope)
    ensures Wrap([e]) == [Env(e)] && Wrap([]) == []
  {
  }

  /** One sealed frame on an otherwise empty path, whether or not it was written. */
  lemma {:induction false} FlowOptional(c: Suite, log: seq<Entry>, k: Key, k': Key, e: Envelope, frames: seq<Envelope>)
    requires StepKey(c, log, k, Env(e)) == Some(k')
    ensures frames == [e] ==> Flow(c, log, k, Wrap(frames)) == Some(k')
    ensures frames == [] ==> Flow(c, log, k, Wrap(frames)) == Some(k)
  {
    WrapOne(e);
    assert [Env(e)][1..] == [];
  }

  lemma {:induction false} RekeyFlows(c: Suite, log: seq<Entry>, p: Publisher, salt: Nonce, now: int, up: bool)
    requires p.cipherKey.Some? && p.seqCounter + 1 < TWO_64
    ensures var o := Rekey(c, p, salt, now, up);
      o.pub.cipherKey.Some? && Flow(c, log, p.cipherKey.value, Wrap(o.frames)) == o.pub.cipherKey
  {
    var key, n := p.cipherKey.value, p.seqCounter + 1;
    RekeyShape(c, p, salt, now, up);
    FlowRekey(c, log, key, p.sid, n, salt);
    FlowOptional(c, log, key, Hkdf.Ratchet(c, key, salt), RekeyFrame(c, key, p.sid, n, salt), Rekey(c, p, salt, now, up).frames);
  }

  /** One frame and the ratcheted key, or no frame and the old one. */
  lemma {:induction false} RekeyShape(c: Suite, p: Publisher, salt: Nonce, now: int, up: bool)
    requires p.cipherKey.Some? && p.seqCounter + 1 < TWO_64
    ensures var o, key := Rekey(c, p, salt, now, up), p.cipherKey.value;
      if o.ok then o.frames == [RekeyFrame(c, key, p.sid, p.seqCounter + 1, salt)] && o.pub.cipherKey == Some(Hkdf.Ratchet(c, key, salt))
      else o.frames == [] && o.pub.cipherKey == Some(key)
  {
    assert NextSeq(p.seqCounter) == p.seqCounter + 1;
  }

  lemma {:induction false} RekeySeals(c: Suite, log: seq<Entry>, p: Publisher, salt: Nonce, now: int, up: bool)
    requires p.cipherKey.Some? && |log| == p.seqCounter && |log| + 1 < TWO_64
    ensures forall j :: 0 <= j < |Rekey(c, p, salt, now, up).seals| ==>
      SealOk(p.sid, log + [Ratcheted(salt)], Rekey(c, p, salt, now, up).seals[j])
  {
    var o := Rekey(c, p, salt, now, up);
    assert NextSeq(p.seqCounter) == |log| + 1;
    assert o.seals == [StreamSeal(p.cipherKey.value, p.sid, REKEY, |log| + 1, salt)];
    OneSeal(p.cipherKey.value, p.sid, log, Ratcheted(salt), o.seals[0]);
  }

  lemma {:induction false} RekeyOutput(c: Suite, s: System, salt: Nonce, now: int, up: bool)
    requires PublisherOk(s) && s.pub.seqCounter + 1 < TWO_64 && s.pub.cipherKey.Some?
    ensures OutputOk(c, s, Rekey(c, s.pub, salt, now, up), [Ratcheted(salt)])
  {
    var o := Rekey(c, s.pub, salt, now, up);
    RekeyFlows(c, s.log + [Ratcheted(salt)], s.pub, salt, now, up);
    RekeySeals(c, s.log, s.pub, salt, now, up);
    PublisherGrows(s, Emitted(s, o, [Ratcheted(salt)]), Ratcheted(salt));
  }

  /** What a message emission comes to, below the wrap-around of the counter. */
  lemma {:induction false} EmitShape(c: Suite, p: Publisher, payload: Bytes, up: bool)
    requires p.cipherKey.Some? && p.seqCounter + 1 < TWO_64 && Fits(payload)
    ensures var n := p.seqCounter + 1;
      var o := Emit(c, p, payload, up);
      && o.pub == p.(seqCounter := n, replay := PushTo(p.replay, REPLAY_CAPACITY, SeqMsg(n, payload)))
      && o.frames == (if o.ok then [OnWire(DataFrame(c, p.cipherKey.value, p.sid, n, payload))] else [])
      && o.seals == [StreamSeal(p.cipherKey.value, p.sid, DATA_STREAM, n, Pad(payload, PADDING_TARGET))]
      && (o.ok ==> Sendable(payload))
  {
    assert NextSeq(p.seqCounter) == p.seqCounter + 1;
    OnWireUncut(c, p.cipherKey.value, p.sid, p.seqCounter + 1, payload);
  }

  lemma {:induction false} EmitFlows(c: Suite, log: seq<Entry>, key: Key, sid: SessionId, n: nat, payload: Bytes, frames: seq<Envelope>)
    requires n < TWO_64 && Names(log, n, payload)
    requires frames == [] || (Sendable(payload) && frames == [OnWire(DataFrame(c, key, sid, n, payload))])
    ensures Flow(c, log, key, Wrap(frames)) == Some(key)
  {
    if frames != [] {
      FlowData(c, log, key, sid, n, payload);
      FlowOptional(c, log, key, key, OnWire(DataFrame(c, key, sid, n, payload)), frames);
    }
  }

  lemma {:induction false} MessageOutput(c: Suite, s: System, payload: Bytes, o: Output)
    requires PublisherOk(s) && s.pub.seqCounter + 1 < TWO_64 && s.pub.cipherKey.Some? && Fits(payload)
    requires o.pub == s.pub.(seqCounter := |s.log| + 1,
                             replay := PushTo(s.pub.replay, REPLAY_CAPACITY, SeqMsg(|s.log| + 1, payload)))
    requires o.frames == if o.ok then [OnWire(DataFrame(c, s.key, s.pub.sid, |s.log| + 1, payload))] else []
    requires o.seals == [StreamSeal(s.key, s.pub.sid, DATA_STREAM, |s.log| + 1, Pad(payload, PADDING_TARGET))]
    requires o.ok ==> Sendable(payload)
    ensures OutputOk(c, s, o, [Msg(payload, o.ok)])
  {
    var e := Msg(payload, o.ok);
    assert (s.log + [e])[|s.log|] == e;
    EmitFlows(c, s.log + [e], s.key, s.pub.sid, |s.log| + 1, payload, o.frames);
    OneSeal(s.key, s.pub.sid, s.log, e, o.seals[0]);
    PublisherGrows(s, Emitted(s, o, [e]), e);
  }

  lemma {:induction false} EmitOutput(c: Suite, s: System, payload: Bytes, up: bool)
    requires PublisherOk(s) && s.pub.seqCounter + 1 < TWO_64 && s.pub.cipherKey.Some? && Fits(payload)
    ensures var o := Emit(c, s.pub, payload, up); OutputOk(c, s, o, [Msg(payload, o.ok)])
  {
    EmitShape(c, s.pub, payload, up);
    MessageOutput(c, s, payload, Emit(c, s.pub, payload, up));
  }

  lemma {:induction false} RekeyInv(c: Suite, s: System, salt: Nonce, now: int, up: bool)
    requires Inv(c, s) && s.pub.seqCounter + 1 < TWO_64 && s.pub.cipherKey.Some?
    ensures Inv(c, Emitted(s, Rekey(c, s.pub, salt, now, up), [Ratcheted(salt)]))
  {
    RekeyOutput(c, s, salt, now, up);
    EmittedInv(c, s, Rekey(c, s.pub, salt, now, up), [Ratcheted(salt)]);
  }

  lemma {:induction false} EmitInv(c: Suite, s: System, payload: Bytes, up: bool)
    requires Inv(c, s) && s.pub.seqCounter + 1 < TWO_64 && s.pub.cipherKey.Some? && Fits(payload)
    ensures var o := Emit(c, s.pub, payload, up); Inv(c, Emitted(s, o, [Msg(payload, o.ok)]))
  {
    var o := Emit(c, s.pub, payload, up);
    EmitOutput(c, s, payload, up);
    EmittedInv(c, s, o, [Msg(payload, o.ok)]);
  }

  /** PublishPayload is its accounting, possibly a rekey, and an emission. */
  lemma {:induction false} PublishSplits(c: Suite, s: System, payload: Bytes, salt: Nonce, now: int, upRekey: bool, up: bool)
    requires s.pub.cipherKey.Some?
    ensures
      var o := Publish(c, s.pub, payload, salt, now, upRekey, up);
      var s1 := s.(pub := Counted(s.pub, payload));
      var s2 := if ShouldRekey(s1.pub, now) then Emitted(s1, Rekey(c, s1.pub, salt, now, upRekey), [Ratcheted(salt)]) else s1;
      Emitted(s, o, PublishEntries(s, payload, salt, now, o.ok)).(key := s.key)
      == Emitted(s2, Emit(c, s2.pub, payload, up), [Msg(payload, o.ok)]).(key := s.key)
  {
    var o := Publish(c, s.pub, payload, salt, now, upRekey, up);
    var s1 := s.(pub := Counted(s.pub, payload));
    if ShouldRekey(s1.pub, now) {
      var r := Rekey(c, s1.pub, salt, now, upRekey);
      var e := Emit(c, r.pub, payload, up);
      WrapAppend(s.uplink, r.frames, e.frames);
      assert s.log + [Ratcheted(salt), Msg(payload, o.ok)] == s.log + [Ratcheted(salt)] + [Msg(payload, o.ok)];
      assert s.seals + (r.seals + e.seals) == s.seals + r.seals + e.seals;
    }
  }

  lemma {:induction false} WrapAppend(uplink: seq<Frame>, a: seq<Envelope>, b: seq<Envelope>)
    ensures uplink + Wrap(a + b) == uplink + Wrap(a) + Wrap(b)
  {
    assert Wrap(a + b) == Wrap(a) + Wrap(b);
  }

  lemma {:induction false} PublishInv(c: Suite, s: System, a: Action)
    requires Inv(c, s) && a.DoPublish? && Enabled(c, s, a)
    ensures Inv(c, Step(c, s, a))
  {
    var o := Publish(c, s.pub, a.payload, a.salt, a.now, a.upRekey, a.up);
    var s1 := s.(pub := Counted(s.pub, a.payload));
    assert Inv(c, s1) by {
      assert forall i :: i in s1.nodes ==> NodeOk(c, s, s.nodes[i]);
    }
    if s.pub.cipherKey.None? {
      EmittedInv(c, s, o, []);
    } else {
      PublishSplits(c, s, a.payload, a.salt, a.now, a.upRekey, a.up);
      var s2 := s1;
      if ShouldRekey(s1.pub, a.now) {
        RekeyInv(c, s1, a.salt, a.now, a.upRekey);
        s2 := Emitted(s1, Rekey(c, s1.pub, a.salt, a.now, a.upRekey), [Ratcheted(a.salt)]);
      }
      EmitInv(c, s2, a.payload, a.up);
      assert Step(c, s, a) == Emitted(s2, Emit(c, s2.pub, a.payload, a.up), [Msg(a.payload, o.ok)]);
    }
  }

  /** An answer carries the key of the moment, so whoever it is for, what follows it leads to the publisher's key. */
  lemma {:induction false} AnsweredInv(c: Suite, s: System, conn: nat)
    requires Inv(c, s) && conn < s.nextConn
    ensures Inv(c, s.(uplink := s.uplink + [Answer(conn, s.key)]))
  {
    var fs := [Answer(conn, s.key)];
    var s' := s.(uplink := s.uplink + fs);
    assert s.log + [] == s.log && fs[1..] == [];
    forall i | i in s'.nodes
      ensures NodeOk(c, s', s'.nodes[i])
    {
      var n := s.nodes[i];
      assert NodeOk(c, s, n);
      if n.conn.Some? && !n.conn.value.gap {
        LinkAppend(c, s.log, [], s.key, s.key, n.sub, n.conn.value, Path(n.conn.value, s.uplink), fs);
        assert Path(n.conn.value, s'.uplink) == Path(n.conn.value, s.uplink) + fs;
      }
    }
  }

  lemma {:induction false} ReplayedInv(c: Suite, s: System, last: nat, lost: set<nat>)
    requires Inv(c, s)
    ensures Inv(c, Emitted(s, Replay(c, s.pub, last, lost), []))
  {
    var o := Replay(c, s.pub, last, lost);
    assert s.log + [] == s.log;
    if o.ok {
      ReplayNamed(s, last);
      var items := ReplayLog.After(s.pub.replay, last);
      FlowReplay(c, s.log, s.key, s.pub.sid, items, lost);
      ReplaySealsOk(s.key, s.pub.sid, s.log, items);
    }
    EmittedInv(c, s, o, []);
  }

  lemma {:induction false} ServeInv(c: Suite, s: System, a: Action)
    requires Inv(c, s) && a.DoServe? && Enabled(c, s, a)
    ensures Inv(c, Step(c, s, a))
  {
    InboxInv(c, s, s.inbox[1..]);
    var s1 := s.(inbox := s.inbox[1..]);
    match s.inbox[0] {
      case Hello(conn) =>
        if Step(c, s, a) != s1 {
          AnsweredInv(c, s1, conn);
        }
      case Sync(last) => ReplayedInv(c, s1, last, a.lost);
    }
  }

  lemma {:induction false} CloseInv(c: Suite, s: System, up: bool)
    requires Inv(c, s)
    ensures Inv(c, Emitted(s, Shutdown(s.pub, up), []))
  {
    var o := Shutdown(s.pub, up);
    assert s.log + [] == s.log;
    if o.frames != [] {
      var fs := Wrap(o.frames);
      assert fs == [Env(CloseFrame(s.pub.sid))];
      assert Flow(c, s.log, s.key, fs[1..]) == Some(s.key);
    }
    EmittedInv(c, s, o, []);
  }

  /** A step that touches one node only needs that node checked. */
  lemma {:induction false} NodeUpdateInv(c: Suite, s: System, i: nat, n: Node)
    requires Inv(c, s) && i in s.nodes && NodeOk(c, s, n)
    ensures Inv(c, s.(nodes := s.nodes[i := n]))
  {
    var s' := s.(nodes := s.nodes[i := n]);
    forall j | j in s'.nodes
      ensures NodeOk(c, s', s'.nodes[j])
    {
      assert NodeOk(c, s, s'.nodes[j]);
    }
  }

  lemma {:induction false} NodeOkFrame(c: Suite, s: System, s': System, n: Node)
    requires NodeOk(c, s, n) && s'.log == s.log && s'.key == s.key && s'.uplink == s.uplink && s.nextConn <= s'.nextConn
    ensures NodeOk(c, s', n)
  {
  }

  /** A connection that has just started: no frame can answer its handshake yet. */
  lemma {:induction false} JoinedNodeOk(c: Suite, s: System, n: Node, id: nat)
    requires NodeOk(c, s, n) && id < s.nextConn
    requires forall j :: 0 <= j < |s.uplink| && s.uplink[j].Answer? ==> s.uplink[j].conn < id
    ensures NodeOk(c, s, n.(conn := Some(Conn(id, [], [], false, false))))
  {
    assert Path(Conn(id, [], [], false, false), s.uplink) == s.uplink;
  }

  lemma {:induction false} JoinInv(c: Suite, s: System, a: Action)
    requires Inv(c, s) && a.DoJoin? && Enabled(c, s, a)
    ensures Inv(c, Step(c, s, a))
  {
    var s1 := s.(inbox := s.inbox + [Hello(s.nextConn)], nextConn := s.nextConn + 1);
    assert NodesOk(c, s1) by {
      forall i | i in s1.nodes
        ensures NodeOk(c, s1, s1.nodes[i])
      {
        NodeOkFrame(c, s, s1, s.nodes[i]);
      }
    }
    assert IdsOk(s1);
    assert Inv(c, s1);
    JoinedNodeOk(c, s1, s.nodes[a.i], s.nextConn);
    NodeUpdateInv(c, s1, a.i, s.nodes[a.i].(conn := Some(Conn(s.nextConn, [], [], false, false))));
  }

  lemma {:induction false} QueuedNodeOk(c: Suite, s: System, s': System, n: Node, failed: bool)
    requires NodeOk(c, s, n) && s.uplink != [] && s'.log == s.log && s'.key == s.key && s'.nextConn == s.nextConn
    requires s'.uplink == s.uplink[1..]
    requires n.conn.Some? && !failed ==> |n.conn.value.queue| < FanOut.QUEUE_SIZE
    ensures NodeOk(c, s', Queued(n, s.uplink[0], failed))
  {
    var n' := Queued(n, s.uplink[0], failed);
    if n'.conn.Some? && !n'.conn.value.gap {
      var k := n.conn.value;
      assert Path(n'.conn.value, s'.uplink) == k.wire + (k.queue + [s.uplink[0]]) + s.uplink[1..];
      assert k.wire + (k.queue + [s.uplink[0]]) + s.uplink[1..] == Path(k, s.uplink) by {
        assert s.uplink == [s.uplink[0]] + s.uplink[1..];
      }
    }
  }

  lemma {:induction false} ForwardInv(c: Suite, s: System, a: Action)
    requires Inv(c, s) && a.DoForward? && Enabled(c, s, a)
    ensures Inv(c, Step(c, s, a))
  {
    var s' := Step(c, s, a);
    forall i | i in s'.nodes
      ensures NodeOk(c, s', s'.nodes[i])
    {
      QueuedNodeOk(c, s, s', s.nodes[i], i in a.failed);
    }
  }

  lemma {:induction false} DeliverOk(log: seq<Entry>, sub: Subscriber, s: nat, payload: Bytes)
    requires DeliveredOk(log, sub) && Names(log, s, payload)
    ensures DeliveredOk(log, Deliver(sub, s, payload))
  {
  }

  /** Reading the next frame of a gap-free connection: it opens, and the rest of the path still leads to the key. */
  lemma {:induction false} HandleKeepsLink(c: Suite, log: seq<Entry>, key: Key, sub: Subscriber, f: Frame, rest: seq<Frame>)
    requires f.Env? && sub.cipherKey.Some? && Flow(c, log, sub.cipherKey.value, [f] + rest) == Some(key)
    ensures Genuine(c, log, sub.cipherKey, f)
    ensures match HandleFrame(c, sub, f.e)
      case Continue(sub') => sub'.cipherKey.Some? && Flow(c, log, sub'.cipherKey.value, rest) == Some(key)
      case Stopped => true
      case AuthFailed => false
  {
    assert ([f] + rest)[0] == f && ([f] + rest)[1..] == rest;
    assert StepKey(c, log, sub.cipherKey.value, f).Some?;
  }

  lemma {:induction false} HandleKeepsDelivered(c: Suite, log: seq<Entry>, sub: Subscriber, f: Frame)
    requires f.Env? && DeliveredOk(log, sub) && Genuine(c, log, sub.cipherKey, f)
    ensures HandleFrame(c, sub, f.e).Continue? ==> DeliveredOk(log, HandleFrame(c, sub, f.e).sub)
  {
    if sub.cipherKey.Some? && |f.e.payload| >= SEQ_SIZE && f.e.msgType == DATA_STREAM {
      var r := OpenData(c, sub.cipherKey.value, f.e);
      if r.Some? {
        DeliverOk(log, sub, SeqOf(f.e), r.value);
      }
    }
  }

  lemma {:induction false} ReceiveNodeOk(c: Suite, s: System, n: Node)
    requires NodeOk(c, s, n) && n.conn.Some? && n.conn.value.wire != []
    requires n.conn.value.gap ==> Genuine(c, s.log, n.sub.cipherKey, n.conn.value.wire[0])
    ensures NodeOk(c, s, Received(c, n))
  {
    var k := n.conn.value;
    var f := k.wire[0];
    var path := Path(k, s.uplink);
    var rest := Path(k.(wire := k.wire[1..]), s.uplink);
    assert path == [f] + rest && path[0] == f && path[1..] == rest;
    if k.ready && f.Env? {
      if !k.gap {
        HandleKeepsLink(c, s.log, s.key, n.sub, f, rest);
      }
      HandleKeepsDelivered(c, s.log, n.sub, f);
    }
  }

  lemma {:induction false} RekeyStepInv(c: Suite, s: System, a: Action)
    requires Inv(c, s) && a.DoRekey? && Enabled(c, s, a)
    ensures Inv(c, Step(c, s, a))
  {
    if s.pub.cipherKey.Some? {
      RekeyInv(c, s, a.salt, a.now, a.up);
    } else {
      EmittedInv(c, s, Rekey(c, s.pub, a.salt, a.now, a.up), []);
    }
  }

  /** Requests queue up and get lost without touching anything else. */
  lemma {:induction false} InboxInv(c: Suite, s: System, inbox: seq<Inbound>)
    requires Inv(c, s)
    requires forall j :: 0 <= j < |inbox| && inbox[j].Hello? ==> inbox[j].conn < s.nextConn
    ensures Inv(c, s.(inbox := inbox))
  {
    var s' := s.(inbox := inbox);
    forall i | i in s'.nodes
      ensures NodeOk(c, s', s'.nodes[i])
    {
      NodeOkFrame(c, s, s', s.nodes[i]);
    }
  }

  lemma {:induction false} WriteInv(c: Suite, s: System, a: Action)
    requires Inv(c, s) && a.DoWrite? && Enabled(c, s, a)
    ensures Inv(c, Step(c, s, a))
  {
    var n := s.nodes[a.i];
    var k := n.conn.value;
    var k' := k.(wire := k.wire + [k.queue[0]], queue := k.queue[1..]);
    assert NodeOk(c, s, n);
    assert Path(k', s.uplink) == Path(k, s.uplink) by {
      assert k.queue == [k.queue[0]] + k.queue[1..];
    }
    NodeUpdateInv(c, s, a.i, n.(conn := Some(k')));
  }

  lemma {:induction false} ReceiveInv(c: Suite, s: System, a: Action)
    requires Inv(c, s) && a.DoReceive? && Enabled(c, s, a)
    ensures Inv(c, Step(c, s, a))
  {
    assert NodeOk(c, s, s.nodes[a.i]);
    ReceiveNodeOk(c, s, s.nodes[a.i]);
    NodeUpdateInv(c, s, a.i, Received(c, s.nodes[a.i]));
  }

  lemma {:induction false} DisconnectInv(c: Suite, s: System, a: Action)
    requires Inv(c, s) && a.DoDisconnect? && Enabled(c, s, a)
    ensures Inv(c, Step(c, s, a))
  {
    assert NodeOk(c, s, s.nodes[a.i]);
    NodeUpdateInv(c, s, a.i, s.nodes[a.i].(conn := None));
  }

  lemma {:induction false} StepInv(c: Suite, s: System, a: Action)
    requires Inv(c, s) && Enabled(c, s, a)
    ensures Inv(c, Step(c, s, a))
  {
    match a {
      case DoPublish(_, _, _, _, _) => PublishInv(c, s, a);
      case DoRekey(_, _, _) => RekeyStepInv(c, s, a);
      case DoClose(up) => CloseInv(c, s, up);
      case DoServe(_, _) => ServeInv(c, s, a);
      case DoDropInbound => InboxInv(c, s, s.inbox[1..]);
      case DoJoin(_) => JoinInv(c, s, a);
      case DoRequestSync(i) => InboxInv(c, s, s.inbox + [Sync(s.nodes[i].sub.lastSeq)]);
      case DoForward(_) => ForwardInv(c, s, a);
      case DoWrite(_) => WriteInv(c, s, a);
      case DoReceive(_) => ReceiveInv(c, s, a);
      case DoDisconnect(_) => DisconnectInv(c, s, a);
    }
  }

  lemma {:induction false} RunInv(c: Suite, s: System, run: seq<Action>)
    requires Inv(c, s) && Runs(c, s, run)
    ensures Inv(c, Reached(c, s, run))
    decreases |run|
  {
    if run != [] {
      StepInv(c, s, run[0]);
      RunInv(c, Step(c, s, run[0]), run[1..]);
    }
  }
}
