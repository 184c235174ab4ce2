/** The publisher as the object it is (pkg/feed/publisher.go), proved against the functions of Endpoints. */
module PublisherEngines {
  import opened Wrappers
  import opened ByteStrings
  import opened Primitives
  import opened EnvelopeCodec
  import opened SealedFrames
  import opened ReplayLog
  import opened Endpoints
  import opened RingBuffers
  import Hkdf

  class PublisherEngine {
    const c: Suite
    const sid: SessionId
    const replayBuffer: RingBuffer
    var masterKey: Option<Key>
    var cipherKey: Option<Key>
    var connected: bool
    var seqCounter: nat
    var bytesSinceRekey: nat
    var lastRekeyTime: int
    var rekeyByteLimit: nat
    var rekeyTimeLimit: int
    var wire: seq<Envelope>      // what the relay has been sent
    ghost var seals: seq<Seal>   // every use of the AEAD

    ghost predicate Valid()
      reads this, replayBuffer, replayBuffer.data, replayBuffer.pool, replayBuffer.pool.free, replayBuffer.Bufs()
    {
      replayBuffer.Valid() && replayBuffer.capacity == REPLAY_CAPACITY
    }

    ghost function View(): Publisher
      reads this, replayBuffer
    {
      Publisher(sid, masterKey, cipherKey, connected, seqCounter, replayBuffer.contents,
                bytesSinceRekey, lastRekeyTime, rekeyByteLimit, rekeyTimeLimit)
    }

    constructor (suite: Suite, session: SessionId, key: Key, now: int, pool: BufferPool)
      requires pool.Valid()
      ensures Valid() && c == suite && wire == [] && seals == []
      ensures View() == Publisher(session, Some(key), Some(key), true, 0, [], 0, now, 1024 * 1024 * 1024, 3600)
    {
      c, sid := suite, session;
      masterKey, cipherKey, connected := Some(key), Some(key), true;
      seqCounter, bytesSinceRekey, lastRekeyTime := 0, 0, now;
      rekeyByteLimit, rekeyTimeLimit := 1024 * 1024 * 1024, 3600;
      wire, seals := [], [];
      replayBuffer := new RingBuffer(REPLAY_CAPACITY, pool);
    }

    method SendFrame(e: Envelope, up: bool) returns (ok: bool)
      modifies this`wire
      ensures ok == Sends(connected, e, up)
      ensures wire == old(wire) + (if ok then [OnWire(e)] else [])
    {
      ok := connected && up && |e.payload| % TWO_32 <= MAX_PAYLOAD_SIZE;
      if ok {
        wire := wire + [e.(payload := e.payload[..|e.payload| % TWO_32])];
      }
    }

    /** Seal a plaintext under the nonce of its number, with the frame header as associated data, and send it. */
    method SealAndSend(key: Key, msgType: byte, s: nat, plaintext: Bytes, up: bool) returns (ok: bool)
      modifies this`wire, this`seals
      ensures ok == Sends(connected, SealFrame(c, key, sid, msgType, s, plaintext), up)
      ensures wire == old(wire) + (if ok then [OnWire(SealFrame(c, key, sid, msgType, s, plaintext))] else [])
      ensures seals == old(seals) + [StreamSeal(key, sid, msgType, s, plaintext)]
    {
      var nonce := StreamNonce(sid, s);
      var aad := Header(VERSION, msgType, sid, nonce, SEQ_SIZE + |plaintext| + TAG_SIZE);
      var ciphertext := c.seal(key, nonce, plaintext, aad);
      seals := seals + [Seal(key, nonce, plaintext, aad)];
      ok := SendFrame(Envelope(VERSION, msgType, sid, nonce, PutUint(s, 8) + ciphertext), up);
    }

    method TriggerRekey(salt: Nonce, now: int, up: bool) returns (ok: bool)
      requires Valid()
      modifies this`seqCounter, this`wire, this`seals, this`cipherKey, this`masterKey, this`bytesSinceRekey, this`lastRekeyTime
      ensures Valid()
      ensures var o := Rekey(c, old(View()), salt, now, up);
        View() == o.pub && wire == old(wire) + o.frames && seals == old(seals) + o.seals && ok == o.ok
      ensures ok && old(cipherKey).Some? ==> cipherKey == masterKey == Some(Hkdf.NextKey(c, old(cipherKey).value, salt))
    {
      if cipherKey.None? {
        return true;
      }
      var currKey := cipherKey.value;
      seqCounter := (seqCounter + 1) % TWO_64;
      RekeyFrameUncut(c, currKey, sid, seqCounter, salt);
      ok := SealAndSend(currKey, REKEY, seqCounter, salt, up);
      if ok {
        Hkdf.RatchetIsTwoMacs(c, currKey, salt);
        AdoptKey(Hkdf.Ratchet(c, currKey, salt), now);
      }
    }

    /** Both keys change together, and the counting starts again. */
    method AdoptKey(nextKey: Key, now: int)
      requires Valid()
      modifies this`cipherKey, this`masterKey, this`bytesSinceRekey, this`lastRekeyTime
      ensures Valid()
      ensures View() == old(View()).(cipherKey := Some(nextKey), masterKey := Some(nextKey), bytesSinceRekey := 0, lastRekey := now)
    {
      cipherKey := Some(nextKey);
      masterKey := Some(nextKey);
      bytesSinceRekey := 0;
      lastRekeyTime := now;
    }

    /** Number, store, seal and send one payload. */
    method EmitPayload(payload: Bytes, up: bool) returns (ok: bool)
      requires Valid()
      modifies this, replayBuffer, replayBuffer.data, replayBuffer.pool, replayBuffer.pool.free, replayBuffer.Bufs()
      ensures Valid()
      ensures var o := Emit(c, old(View()), payload, up);
        View() == o.pub && wire == old(wire) + o.frames && seals == old(seals) + o.seals && ok == o.ok
    {
      if cipherKey.None? {
        return false;
      }
      var key := cipherKey.value;
      seqCounter := (seqCounter + 1) % TWO_64;
      replayBuffer.Push(seqCounter, payload);
      var padded := PadPayload(payload, PADDING_TARGET);
      ok := SealAndSend(key, DATA_STREAM, seqCounter, padded, up);
    }

    /** Count the payload against the current key and ask whether either limit is reached. */
    method Account(payload: Bytes, now: int) returns (shouldRekey: bool)
      requires Valid()
      modifies this`bytesSinceRekey
      ensures Valid() && View() == Counted(old(View()), payload) && shouldRekey == ShouldRekey(View(), now)
    {
      bytesSinceRekey := (bytesSinceRekey + |payload|) % TWO_64;
      shouldRekey := (rekeyByteLimit > 0 && bytesSinceRekey >= rekeyByteLimit)
                  || (rekeyTimeLimit > 0 && now - lastRekeyTime >= rekeyTimeLimit);
    }

    method PublishPayload(payload: Bytes, salt: Nonce, now: int, upRekey: bool, up: bool) returns (ok: bool)
      requires Valid()
      modifies this, replayBuffer, replayBuffer.data, replayBuffer.pool, replayBuffer.pool.free, replayBuffer.Bufs()
      ensures Valid()
      ensures var o := Publish(c, old(View()), payload, salt, now, upRekey, up);
        View() == o.pub && wire == old(wire) + o.frames && seals == old(seals) + o.seals && ok == o.ok
    {
      var shouldRekey := Account(payload, now);
      ghost var p1 := View();
      if shouldRekey {
        var _ := TriggerRekey(salt, now, upRekey);
        ghost var r := Rekey(c, p1, salt, now, upRekey);
        ok := EmitPayload(payload, up);
        ghost var o := Emit(c, r.pub, payload, up);
        assert wire == old(wire) + (r.frames + o.frames) && seals == old(seals) + (r.seals + o.seals);
      } else {
        ok := EmitPayload(payload, up);
      }
    }

    method ResendItem(key: Key, m: SeqMsg, lost: set<nat>)
      modifies this`wire, this`seals
      ensures wire == old(wire) + Resent(c, key, sid, connected, m, lost)
      ensures seals == old(seals) + [StreamSeal(key, sid, DATA_STREAM, m.seqNum, Pad(m.payload, PADDING_TARGET))]
    {
      var padded := PadPayload(m.payload, PADDING_TARGET);
      var _ := SealAndSend(key, DATA_STREAM, m.seqNum, padded, m.seqNum !in lost);
    }

    /** Seal the copied items again, under the current key and their old numbers. */
    method ResendAll(key: Key, items: seq<Slot>, lost: set<nat>, ghost ms: seq<SeqMsg>)
      requires |items| == |ms| && connected && forall i :: 0 <= i < |items| ==> Holds(items[i], ms[i])
      modifies this`wire, this`seals
      ensures wire == old(wire) + ReplayFrames(c, key, sid, true, ms, lost)
      ensures seals == old(seals) + ReplaySeals(key, sid, ms)
    {
      for i := 0 to |items|
        invariant wire == old(wire) + ReplayFrames(c, key, sid, true, ms[..i], lost)
        invariant seals == old(seals) + ReplaySeals(key, sid, ms)[..i]
      {
        assert Holds(items[i], ms[i]);
        var m := SeqMsg(items[i].seqNum, items[i].buf[..items[i].len]);
        assert m == ms[i];
        ResendItem(key, m, lost);
        ReplayFramesNext(c, key, sid, true, ms, lost, i);
        ReplaySealsNext(key, sid, ms, i);
        FrameAssoc(old(wire), ReplayFrames(c, key, sid, true, ms[..i], lost), Resent(c, key, sid, true, m, lost));
      }
      assert ms[..|items|] == ms;
    }

    /** replaySyncForSubscriber: the copies it takes from the ring are all back in the pool when it returns. */
    method ReplaySync(last: nat, lost: set<nat>)
      requires Valid()
      modifies this`wire, this`seals, replayBuffer.pool, replayBuffer.pool.free
      ensures Valid()
      ensures var o := Replay(c, old(View()), last, lost);
        View() == o.pub && wire == old(wire) + o.frames && seals == old(seals) + o.seals
      ensures replayBuffer.pool.lent == old(replayBuffer.pool.lent)
    {
      ghost var taken, ms := replayBuffer.pool.lent, ReplayLog.After(replayBuffer.contents, last);
      var items := replayBuffer.GetAfter(last);
      ResendIfReady(last, items, lost, ms);
      replayBuffer.Release(items, ms, taken);
    }

    method ResendIfReady(ghost last: nat, items: seq<Slot>, lost: set<nat>, ghost ms: seq<SeqMsg>)
      requires ms == ReplayLog.After(View().replay, last)
      requires |items| == |ms| && forall i :: 0 <= i < |items| ==> Holds(items[i], ms[i])
      modifies this`wire, this`seals
      ensures View() == old(View())
      ensures var o := Replay(c, View(), last, lost); wire == old(wire) + o.frames && seals == old(seals) + o.seals
    {
      if cipherKey.Some? && connected {
        ResendAll(cipherKey.value, items, lost, ms);
      }
    }

    /** Close: say goodbye, then drop keys and stored messages. */
    method Close(up: bool)
      requires Valid()
      modifies this, replayBuffer, replayBuffer.data, replayBuffer.pool, replayBuffer.Bufs()
      ensures Valid()
      ensures var o := Shutdown(old(View()), up); View() == o.pub && wire == old(wire) + o.frames && seals == old(seals)
    {
      if connected {
        var e := Envelope(VERSION, CLOSE, sid, Zeros(12), []);
        var _ := SendFrame(e, up);
        connected := false;
      }
      cipherKey := None;
      masterKey := None;
      replayBuffer.Wipe();
    }
  }
}
