/**
 Which key a stream is sealed under: what a rekey installs at either end, when a publication brings one about, and the key
 after any run, all in terms of HMAC (pkg/feed/publisher.go, pkg/feed/subscriber.go, pkg/crypto/cipher.go).
 */
module KeyChain {
  import opened Wrappers
  import opened ByteStrings
  import opened Primitives
  import opened EnvelopeCodec
  import opened SealedFrames
  import opened Endpoints
  import opened StreamSystem
  import opened StreamSafety
  import Hkdf

  lemma {:induction false} RekeyFrameSendable(c: Suite, key: Key, sid: SessionId, s: nat, salt: Nonce)
    ensures Encode(RekeyFrame(c, key, sid, s, salt)).Ok?
  {
    assert |RekeyFrame(c, key, sid, s, salt).payload| == 36;
  }

  /** A rekey succeeds if and only if its frame is written. Then both keys are two HMACs away from the old one, and a
      subscriber that holds the old key and reads the frame holds the same new key; otherwise no key changes. */
  lemma {:induction false} RekeyAtBothEnds(c: Suite, p: Publisher, salt: Nonce, now: int, up: bool, sub: Subscriber)
    requires p.cipherKey.Some? && p.seqCounter + 1 < TWO_64 && sub.cipherKey == p.cipherKey
    ensures var o := Rekey(c, p, salt, now, up);
      var next := c.mac(c.mac(salt, p.cipherKey.value), Hkdf.Ascii("zerofeed-v2-key-ratchet-pfs") + [1]);
      && (o.ok <==> p.connected && up)
      && (!o.ok ==> o.frames == [] && o.pub.cipherKey == p.cipherKey && o.pub.masterKey == p.masterKey && o.pub.lastRekey == p.lastRekey)
      && (o.ok ==>
            && o.pub.cipherKey == o.pub.masterKey == Some(next) && o.pub.lastRekey == now && o.pub.bytesSinceRekey == 0
            && |o.frames| == 1 && HandleFrame(c, sub, o.frames[0]) == Continue(sub.(cipherKey := Some(next))))
  {
    var key, s := p.cipherKey.value, p.seqCounter + 1;
    assert NextSeq(p.seqCounter) == s;
    RekeyFrameSendable(c, key, p.sid, s, salt);
    Hkdf.RatchetIsTwoMacs(c, key, salt);
    OpenSealed(c, key, p.sid, REKEY, s, salt);
  }

  // ----- when a publication rekeys -----

  /** Enough bytes, this payload included, or enough time since the last rekey; a limit of 0 is no limit. */
  predicate RekeyDue(p: Publisher, len: nat, now: int) {
    || (p.byteLimit > 0 && (p.bytesSinceRekey + len) % TWO_64 >= p.byteLimit)
    || (p.timeLimit > 0 && now >= p.lastRekey + p.timeLimit)
  }

  /** The key a publication goes out under, whatever happens to its own frame. */
  lemma {:induction false} PublishKey(c: Suite, p: Publisher, payload: Bytes, salt: Nonce, now: int, upRekey: bool, up: bool)
    requires p.cipherKey.Some? && p.seqCounter + 2 < TWO_64 && Fits(payload)
    ensures var o := Publish(c, p, payload, salt, now, upRekey, up);
      var rekeyed := RekeyDue(p, |payload|, now) && p.connected && upRekey;
      var key := if rekeyed then c.mac(c.mac(salt, p.cipherKey.value), Hkdf.Ascii("zerofeed-v2-key-ratchet-pfs") + [1]) else p.cipherKey.value;
      && o.pub.cipherKey == Some(key) && o.pub.lastRekey == (if rekeyed then now else p.lastRekey)
      && |o.frames| == (if rekeyed then 1 else 0) + (if o.ok then 1 else 0)
      && (o.ok ==> var f := o.frames[|o.frames| - 1];
            f.msgType == DATA_STREAM && |f.payload| >= SEQ_SIZE && OpenData(c, key, f) == Some(payload))
  {
    var p1 := Counted(p, payload);
    if ShouldRekey(p1, now) {
      RekeyAtBothEnds(c, p1, salt, now, upRekey, Subscriber(p.cipherKey, 0, []));
      EmitUnder(c, Rekey(c, p1, salt, now, upRekey).pub, payload, up);
    } else {
      EmitUnder(c, p1, payload, up);
    }
  }

  lemma {:induction false} EmitUnder(c: Suite, p: Publisher, payload: Bytes, up: bool)
    requires p.cipherKey.Some? && p.seqCounter + 1 < TWO_64 && Fits(payload)
    ensures var o := Emit(c, p, payload, up);
      && o.pub.cipherKey == p.cipherKey && o.pub.lastRekey == p.lastRekey && |o.frames| == (if o.ok then 1 else 0)
      && (o.ok ==> var f := o.frames[0];
            f.msgType == DATA_STREAM && |f.payload| >= SEQ_SIZE && OpenData(c, p.cipherKey.value, f) == Some(payload))
  {
    var key, s := p.cipherKey.value, p.seqCounter + 1;
    assert NextSeq(p.seqCounter) == s;
    OnWireUncut(c, key, p.sid, s, payload);
    if Sendable(payload) {
      OpenDataFrame(c, key, p.sid, s, payload);
    }
  }

  /** With a time limit and a healthy connection no payload goes out under a key older than the limit. */
  lemma {:induction false} KeyNeverStale(c: Suite, p: Publisher, payload: Bytes, salt: Nonce, now: int, up: bool)
    requires p.cipherKey.Some? && p.connected && p.timeLimit > 0 && p.seqCounter + 2 < TWO_64 && Fits(payload)
    ensures var o := Publish(c, p, payload, salt, now, true, up); now - o.pub.lastRekey < p.timeLimit
    ensures now - p.lastRekey >= p.timeLimit ==>
      Publish(c, p, payload, salt, now, true, up).pub.cipherKey
      == Some(c.mac(c.mac(salt, p.cipherKey.value), Hkdf.Ascii("zerofeed-v2-key-ratchet-pfs") + [1]))
  {
    PublishKey(c, p, payload, salt, now, true, up);
  }

  // ----- over whole runs -----

  /** The salt of the rekey frame an action writes, if it writes one. */
  function SaltOf(s: System, a: Action): (salts: seq<Nonce>) {
    if s.pub.cipherKey.None? || !s.pub.connected then []
    else match a
      case DoRekey(salt, _, up) => if up then [salt] else []
      case DoPublish(payload, salt, now, upRekey, _) => if RekeyDue(s.pub, |payload|, now) && upRekey then [salt] else []
      case _ => []
  }

  function SaltsOf(c: Suite, s: System, run: seq<Action>): (salts: seq<Nonce>)
    requires Runs(c, s, run)
    decreases |run|
  {
    if run == [] then [] else SaltOf(s, run[0]) + SaltsOf(c, Step(c, s, run[0]), run[1..])
  }

  function Chain(c: Suite, key: Key, salts: seq<Nonce>): (r: Key)
    decreases |salts|
  {
    if salts == [] then key
    else Chain(c, c.mac(c.mac(salts[0], key), Hkdf.Ascii("zerofeed-v2-key-ratchet-pfs") + [1]), salts[1..])
  }

  lemma {:induction false} ChainConcat(c: Suite, key: Key, a: seq<Nonce>, b: seq<Nonce>)
    ensures Chain(c, key, a + b) == Chain(c, Chain(c, key, a), b)
    decreases |a|
  {
    if a == [] {
      assert a + b == b;
    } else {
      assert (a + b)[0] == a[0] && (a + b)[1..] == a[1..] + b;
      ChainConcat(c, c.mac(c.mac(a[0], key), Hkdf.Ascii("zerofeed-v2-key-ratchet-pfs") + [1]), a[1..], b);
    }
  }

  lemma {:induction false} ChainOne(c: Suite, key: Key, salt: Nonce)
    ensures Chain(c, key, [salt]) == c.mac(c.mac(salt, key), Hkdf.Ascii("zerofeed-v2-key-ratchet-pfs") + [1])
  {
    assert [salt][1..] == [];
  }

  lemma {:induction false} StepKeyIs(c: Suite, s: System, a: Action)
    requires Inv(c, s) && Enabled(c, s, a)
    ensures Step(c, s, a).key == Chain(c, s.key, SaltOf(s, a))
  {
    if s.pub.cipherKey.Some? {
      if a.DoRekey? {
        RekeyAtBothEnds(c, s.pub, a.salt, a.now, a.up, Subscriber(s.pub.cipherKey, 0, []));
        ChainOne(c, s.key, a.salt);
      } else if a.DoPublish? {
        PublishKey(c, s.pub, a.payload, a.salt, a.now, a.upRekey, a.up);
        ChainOne(c, s.key, a.salt);
      }
    }
  }

  /** After any run the publisher's key is the first one, ratcheted by the salts of the rekey frames that were written, in
      order, and by nothing else. */
  lemma {:induction false} KeyOverRun(c: Suite, s0: System, run: seq<Action>)
    requires Initial(s0) && Runs(c, s0, run)
    ensures Reached(c, s0, run).key == Chain(c, s0.key, SaltsOf(c, s0, run))
    ensures Reached(c, s0, run).pub.cipherKey.Some? ==> Reached(c, s0, run).pub.cipherKey == Some(Chain(c, s0.key, SaltsOf(c, s0, run)))
  {
    InitialInv(c, s0);
    RunInv(c, s0, run);
    KeyFrom(c, s0, run);
  }

  lemma {:induction false} KeyFrom(c: Suite, s: System, run: seq<Action>)
    requires Inv(c, s) && Runs(c, s, run)
    ensures Reached(c, s, run).key == Chain(c, s.key, SaltsOf(c, s, run))
    decreases |run|
  {
    if run != [] {
      var s' := Step(c, s, run[0]);
      StepInv(c, s, run[0]);
      StepKeyIs(c, s, run[0]);
      KeyFrom(c, s', run[1..]);
      ChainConcat(c, s.key, SaltOf(s, run[0]), SaltsOf(c, s', run[1..]));
    }
  }

  // ----- the end of the stream -----

  /** Close on a working connection writes one frame, on which every subscriber stops, whatever key it holds and whether or
      not it has one; the publisher keeps no key and no message. */
  lemma {:induction false} CloseStops(c: Suite, p: Publisher, up: bool, sub: Subscriber)
    ensures var o := Shutdown(p, up);
      && o.pub.cipherKey.None? && o.pub.masterKey.None? && o.pub.replay == [] && !o.pub.connected
      && |o.frames| == (if p.connected && up then 1 else 0)
      && (o.frames != [] ==> o.frames[0].sessionId == p.sid && Encode(o.frames[0]).Ok? && HandleFrame(c, sub, o.frames[0]) == Stopped)
  {
  }

  /** Over every run: when a connected publisher closes, that frame is the last one on the path of every connected
      subscriber, and a subscriber whose handshake is done and that reads it stops for good, with everything it has
      delivered. */
  lemma {:induction false} CloseOverRun(c: Suite, s0: System, run: seq<Action>, i: nat, n: Node)
    requires Initial(s0) && Runs(c, s0, run) && Reached(c, s0, run).pub.connected
    requires i in Reached(c, s0, run).nodes && Reached(c, s0, run).nodes[i].conn.Some?
    ensures var s := Reached(c, s0, run);
      var t := Step(c, s, DoClose(true));
      var k := s.nodes[i].conn.value;
      && i in t.nodes && t.nodes[i] == s.nodes[i]
      && |Path(k, t.uplink)| == |Path(k, s.uplink)| + 1
      && var f := Path(k, t.uplink)[|Path(k, s.uplink)|];
        && Path(k, t.uplink) == Path(k, s.uplink) + [f]
        && (n.conn.Some? && n.conn.value.ready && n.conn.value.wire != [] && n.conn.value.wire[0] == f ==>
              Received(c, n) == Node(n.sub, None, true))
  {
    var s := Reached(c, s0, run);
    var k := s.nodes[i].conn.value;
    var o := Shutdown(s.pub, true);
    CloseStops(c, s.pub, true, n.sub);
    var t := Step(c, s, DoClose(true));
    assert Wrap(o.frames) == [Env(o.frames[0])];
    assert Path(k, t.uplink) == Path(k, s.uplink) + [Env(o.frames[0])];
  }
}
