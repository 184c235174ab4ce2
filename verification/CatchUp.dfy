/** Catch-up after a reconnect: when a served SYNC_REQ gives a subscriber everything it missed, and when it cannot. */
module CatchUp {
  import opened Wrappers
  import opened ByteStrings
  import opened Primitives
  import opened EnvelopeCodec
  import opened SealedFrames
  import opened ReplayLog
  import opened Endpoints
  import opened StreamSystem
  import opened StreamSafety
  import opened StreamTheorems

  // ----- sequence numbers as the deduplication rule sees them -----

  /** The numbers of the data frames on a path. */
  function Numbers(fs: seq<Frame>): (ns: seq<nat>) {
    if fs == [] then []
    else if fs[0].Env? && fs[0].e.msgType == DATA_STREAM && |fs[0].e.payload| >= SEQ_SIZE
    then [SeqOf(fs[0].e)] + Numbers(fs[1..])
    else Numbers(fs[1..])
  }

  /** Those of the numbers that get past `seqNum <= lastSeqNum`, arriving in this order. */
  function Accepted(last: nat, ns: seq<nat>): (r: seq<nat>)
    decreases |ns|
  {
    if ns == [] then []
    else if ns[0] > last then [ns[0]] + Accepted(ns[0], ns[1..])
    else Accepted(last, ns[1..])
  }

  /** Where lastSeqNum stands after they have arrived. */
  function Top(last: nat, ns: seq<nat>): (t: nat)
    ensures t >= last
    decreases |ns|
  {
    if ns == [] then last else Top(if ns[0] > last then ns[0] else last, ns[1..])
  }

  lemma {:induction false} NumbersConcat(a: seq<Frame>, b: seq<Frame>)
    ensures Numbers(a + b) == Numbers(a) + Numbers(b)
  {
    if a == [] {
      assert a + b == b;
    } else {
      NumbersConcat(a[1..], b);
      assert (a + b)[0] == a[0] && (a + b)[1..] == a[1..] + b;
    }
  }

  lemma {:induction false} AcceptedConcat(last: nat, a: seq<nat>, b: seq<nat>)
    ensures Accepted(last, a + b) == Accepted(last, a) + Accepted(Top(last, a), b)
    ensures Top(last, a + b) == Top(Top(last, a), b)
    decreases |a|
  {
    if a == [] {
      assert a + b == b;
    } else {
      var next := if a[0] > last then a[0] else last;
      AcceptedConcat(next, a[1..], b);
      assert (a + b)[0] == a[0] && (a + b)[1..] == a[1..] + b;
      AcceptedStep(last, a);
      AcceptedStep(last, a + b);
    }
  }

  lemma {:induction false} AcceptedStep(last: nat, ns: seq<nat>)
    requires ns != []
    ensures var next := if ns[0] > last then ns[0] else last;
      && Accepted(last, ns) == (if ns[0] > last then [ns[0]] else []) + Accepted(next, ns[1..])
      && Top(last, ns) == Top(next, ns[1..])
  {
  }

  lemma {:induction false} TopBound(last: nat, ns: seq<nat>, bound: nat)
    requires last <= bound && forall i :: 0 <= i < |ns| ==> ns[i] <= bound
    ensures Top(last, ns) <= bound
    decreases |ns|
  {
    if ns != [] {
      TopBound(if ns[0] > last then ns[0] else last, ns[1..], bound);
    }
  }

  lemma {:induction false} AcceptedRange(last: nat, ns: seq<nat>)
    ensures forall x :: x in Accepted(last, ns) ==> last < x <= Top(last, ns)
    decreases |ns|
  {
    if ns != [] {
      AcceptedRange(if ns[0] > last then ns[0] else last, ns[1..]);
    }
  }

  // ----- being caught up -----

  /** Number s is a message a subscriber can count on: the publisher reported it as sent or, if it was numbered before a
      request is served at upTo, it is short enough to be sent, whether or not its own write succeeded. */
  predicate Due(log: seq<Entry>, upTo: nat, s: nat) {
    1 <= s <= |log| && log[s - 1].Msg? && (log[s - 1].sent || (s <= upTo && Sendable(log[s - 1].payload)))
  }

  /** Every due message after `from` has been delivered, or will be once the path has drained. */
  ghost predicate CaughtUp(log: seq<Entry>, upTo: nat, from: nat, sub: Subscriber, ns: seq<nat>) {
    forall s :: from < s && Due(log, upTo, s) ==> SeqMsg(s, log[s - 1].payload) in sub.delivered || s in Accepted(sub.lastSeq, ns)
  }

  /** No frame on the path jumps over a due message: checked frame by frame, in arrival order. */
  ghost predicate NoSkip(log: seq<Entry>, upTo: nat, last: nat, ns: seq<nat>)
    decreases |ns|
  {
    if ns == [] then true
    else if ns[0] <= last then NoSkip(log, upTo, last, ns[1..])
    else (forall s :: last < s < ns[0] ==> !Due(log, upTo, s)) && NoSkip(log, upTo, ns[0], ns[1..])
  }

  lemma {:induction false} NoSkipIffAllAccepted(log: seq<Entry>, last: nat, ns: seq<nat>, upTo: nat)
    ensures NoSkip(log, upTo, last, ns) <==> forall s :: last < s <= Top(last, ns) && Due(log, upTo, s) ==> s in Accepted(last, ns)
    decreases |ns|
  {
    if ns == [] {
    } else if ns[0] <= last {
      NoSkipIffAllAccepted(log, last, ns[1..], upTo);
    } else {
      var x := ns[0];
      NoSkipIffAllAccepted(log, x, ns[1..], upTo);
      AcceptedRange(x, ns[1..]);
      var acc := Accepted(last, ns);
      assert acc == [x] + Accepted(x, ns[1..]);
      assert forall s :: s in acc <==> s == x || s in Accepted(x, ns[1..]);
    }
  }

  // ----- what a replay contributes -----

  function SendableOf(items: seq<SeqMsg>): (ns: seq<nat>) {
    if items == [] then []
    else (if Sendable(items[0].payload) then [items[0].seqNum] else []) + SendableOf(items[1..])
  }

  lemma {:induction false} ResentNumbers(c: Suite, key: Key, sid: SessionId, m: SeqMsg)
    requires m.seqNum < TWO_64 && Fits(m.payload)
    ensures Numbers(Wrap(Resent(c, key, sid, true, m, {}))) == if Sendable(m.payload) then [m.seqNum] else []
  {
    var e := DataFrame(c, key, sid, m.seqNum, m.payload);
    OnWireUncut(c, key, sid, m.seqNum, m.payload);
    if Sendable(m.payload) {
      OpenDataFrame(c, key, sid, m.seqNum, m.payload);
      WrapOne(e);
      assert [Env(e)][1..] == [];
    }
  }

  lemma {:induction false} WrapConcat(a: seq<Envelope>, b: seq<Envelope>)
    ensures Numbers(Wrap(a + b)) == Numbers(Wrap(a)) + Numbers(Wrap(b))
  {
    assert Wrap(a + b) == Wrap(a) + Wrap(b);
    NumbersConcat(Wrap(a), Wrap(b));
  }

  lemma {:induction false} SendableNumbers(c: Suite, key: Key, sid: SessionId, items: seq<SeqMsg>)
    requires forall i :: 0 <= i < |items| ==> items[i].seqNum < TWO_64 && Fits(items[i].payload)
    ensures Numbers(Wrap(ReplayFrames(c, key, sid, true, items, {}))) == SendableOf(items)
    decreases |items|
  {
    if items != [] {
      SendableNumbers(c, key, sid, items[1..]);
      ResentNumbers(c, key, sid, items[0]);
      WrapConcat(Resent(c, key, sid, true, items[0], {}), ReplayFrames(c, key, sid, true, items[1..], {}));
    }
  }

  lemma {:induction false} FilterMembers(items: seq<SeqMsg>, x: nat)
    ensures x in SendableOf(items) <==> exists i :: 0 <= i < |items| && items[i].seqNum == x && Sendable(items[i].payload)
  {
    if items != [] {
      FilterMembers(items[1..], x);
      assert items == [items[0]] + items[1..];
      if i :| 0 <= i < |items[1..]| && items[1..][i].seqNum == x && Sendable(items[1..][i].payload) {
        assert items[i + 1] == items[1..][i];
      }
      if i :| 0 <= i < |items| && items[i].seqNum == x && Sendable(items[i].payload) {
        assert i > 0 ==> items[1..][i - 1] == items[i];
      }
    }
  }

  lemma {:induction false} FilterIncreasing(items: seq<SeqMsg>)
    requires Increasing(items)
    ensures forall i, j :: 0 <= i < j < |SendableOf(items)| ==> SendableOf(items)[i] < SendableOf(items)[j]
    ensures forall i :: 0 <= i < |SendableOf(items)| && items != [] ==> SendableOf(items)[i] >= items[0].seqNum
  {
    if items != [] {
      FilterIncreasing(items[1..]);
      if |items| > 1 {
        assert items[1..][0] == items[1];
      }
    }
  }

  lemma {:induction false} IncreasingAccepted(last: nat, ns: seq<nat>, x: nat)
    requires forall i, j :: 0 <= i < j < |ns| ==> ns[i] < ns[j]
    requires x in ns && x > last
    ensures x in Accepted(last, ns)
    decreases |ns|
  {
    if ns[0] != x {
      assert x in ns[1..];
      IncreasingAccepted(if ns[0] > last then ns[0] else last, ns[1..], x);
    }
  }

  // ----- the served request -----

  /** The numbers a served SYNC_REQ for position `last` adds to every path. */
  lemma {:induction false} ServedNumbers(c: Suite, s: System, last: nat)
    requires PublisherOk(s) && s.pub.cipherKey.Some? && s.pub.connected
    ensures Numbers(Wrap(Replay(c, s.pub, last, {}).frames)) == SendableOf(ReplayLog.After(s.pub.replay, last))
  {
    ReplayNamed(s, last);
    var items := ReplayLog.After(s.pub.replay, last);
    assert forall i :: 0 <= i < |items| ==> Names(s.log, items[i].seqNum, items[i].payload);
    SendableNumbers(c, s.key, s.pub.sid, items);
  }

  /** Nothing due after L was evicted, so all of it is replayed, oldest first. */
  lemma {:induction false} ServedHasAllAfter(s: System, last: nat, from: nat, x: nat, upTo: nat)
    requires PublisherOk(s) && s.pub.cipherKey.Some? && last <= from && 0 < from
    requires !Overflow(s.pub.replay, from) && from < x && Due(s.log, upTo, x)
    ensures x in SendableOf(ReplayLog.After(s.pub.replay, last))
  {
    var m := SeqMsg(x, s.log[x - 1].payload);
    MessagesNamed(s.log);
    MessagesComplete(s.log, x);
    NoOverflowNothingLost(Messages(s.log), REPLAY_CAPACITY, from);
    AfterMembers(s.pub.replay, last);
    var items := ReplayLog.After(s.pub.replay, last);
    assert m in items;
    var i :| 0 <= i < |items| && items[i] == m;
    assert EntryOk(s.log[x - 1]);
    FilterMembers(items, x);
  }

  lemma {:induction false} ServedIncreasing(s: System, last: nat)
    requires PublisherOk(s)
    ensures var ns := SendableOf(ReplayLog.After(s.pub.replay, last)); forall i, j :: 0 <= i < j < |ns| ==> ns[i] < ns[j]
  {
    MessagesNamed(s.log);
    AfterIncreasing(s.pub.replay, last);
    FilterIncreasing(ReplayLog.After(s.pub.replay, last));
  }

  /** Everything due after `from`, up to the subscriber's position, has been delivered. */
  ghost predicate Complete(log: seq<Entry>, upTo: nat, from: nat, sub: Subscriber) {
    forall x :: from < x <= sub.lastSeq && Due(log, upTo, x) ==> SeqMsg(x, log[x - 1].payload) in sub.delivered
  }

  /** Not delivered, not going to be accepted from what is on its way, and overtaken by it. */
  predicate Lost(sub: Subscriber, ns: seq<nat>, x: nat) {
    && (forall m :: m in sub.delivered ==> m.seqNum != x)
    && x !in Accepted(sub.lastSeq, ns)
    && x <= Top(sub.lastSeq, ns)
  }

  /** A due number is delivered or will be, or it is lost: nothing in between once the replay is on its way. */
  lemma {:induction false} ServedEach(s: System, last: nat, from: nat, sub: Subscriber, ns: seq<nat>, x: nat, upTo: nat)
    requires PublisherOk(s) && s.pub.cipherKey.Some? && DeliveredOk(s.log, sub)
    requires last <= from <= sub.lastSeq && 0 < from && !Overflow(s.pub.replay, from)
    requires from < x && Due(s.log, upTo, x)
    ensures var all := ns + SendableOf(ReplayLog.After(s.pub.replay, last));
      var m := SeqMsg(x, s.log[x - 1].payload);
      && (x <= sub.lastSeq ==> (Lost(sub, all, x) <==> m !in sub.delivered) && x !in Accepted(sub.lastSeq, all))
      && (x > sub.lastSeq ==> (Lost(sub, all, x) <==> x <= Top(sub.lastSeq, ns) && x !in Accepted(sub.lastSeq, ns)))
      && (x > sub.lastSeq ==> m !in sub.delivered)
      && (Lost(sub, all, x) <==> m !in sub.delivered && x !in Accepted(sub.lastSeq, all))
  {
    var l := sub.lastSeq;
    var rs := SendableOf(ReplayLog.After(s.pub.replay, last));
    var t := Top(l, ns);
    AcceptedConcat(l, ns, rs);
    AcceptedRange(l, ns);
    AcceptedRange(t, rs);
    DeliveredIffNumber(s.log, sub, x);
    if t < x {
      ServedHasAllAfter(s, last, from, x, upTo);
      ServedIncreasing(s, last);
      IncreasingAccepted(t, rs, x);
    }
  }

  lemma {:induction false} DeliveredIffNumber(log: seq<Entry>, sub: Subscriber, x: nat)
    requires DeliveredOk(log, sub) && 1 <= x <= |log| && log[x - 1].Msg?
    ensures SeqMsg(x, log[x - 1].payload) in sub.delivered <==> exists m :: m in sub.delivered && m.seqNum == x
    ensures forall m :: m in sub.delivered ==> m.seqNum <= sub.lastSeq
  {
    forall m | m in sub.delivered
      ensures m.seqNum <= sub.lastSeq && (m.seqNum == x ==> m == SeqMsg(x, log[x - 1].payload))
    {
      var i :| 0 <= i < |sub.delivered| && sub.delivered[i] == m;
      assert Names(log, sub.delivered[i].seqNum, sub.delivered[i].payload);
    }
  }

  /** Serving a request while `ns` is still on its way: everything due after `from` arrives if and only if nothing was
      missed up to the subscriber's position and `ns` skips nothing. What does not arrive is lost. */
  lemma {:induction false} ServedIff(s: System, last: nat, from: nat, sub: Subscriber, ns: seq<nat>, upTo: nat)
    requires PublisherOk(s) && s.pub.cipherKey.Some? && DeliveredOk(s.log, sub)
    requires last <= from <= sub.lastSeq && 0 < from && !Overflow(s.pub.replay, from)
    ensures var all := ns + SendableOf(ReplayLog.After(s.pub.replay, last));
      && (CaughtUp(s.log, upTo, from, sub, all) <==> Complete(s.log, upTo, from, sub) && NoSkip(s.log, upTo, sub.lastSeq, ns))
      && (!CaughtUp(s.log, upTo, from, sub, all) ==> exists x :: from < x && Due(s.log, upTo, x) && Lost(sub, all, x))
  {
    NoSkipIffAllAccepted(s.log, sub.lastSeq, ns, upTo);
    AcceptedConcat(sub.lastSeq, ns, SendableOf(ReplayLog.After(s.pub.replay, last)));
    forall x | from < x && Due(s.log, upTo, x)
      ensures var all := ns + SendableOf(ReplayLog.After(s.pub.replay, last));
        var m := SeqMsg(x, s.log[x - 1].payload);
        && (x <= sub.lastSeq ==> (Lost(sub, all, x) <==> m !in sub.delivered))
        && (x > sub.lastSeq ==> (Lost(sub, all, x) <==> x <= Top(sub.lastSeq, ns) && x !in Accepted(sub.lastSeq, ns)))
        && (Lost(sub, all, x) <==> m !in sub.delivered && x !in Accepted(sub.lastSeq, all))
    {
      ServedEach(s, last, from, sub, ns, x, upTo);
    }
  }

  /** What a served request adds to every path. */
  lemma {:induction false} ServedPath(c: Suite, s: System, up: bool, n: Node)
    requires Inv(c, s) && s.inbox != [] && s.inbox[0].Sync? && s.pub.connected && s.pub.cipherKey.Some? && n.conn.Some?
    ensures var s' := Step(c, s, DoServe({}, up));
      && s'.nodes == s.nodes && s'.log == s.log
      && Numbers(Path(n.conn.value, s'.uplink))
         == Numbers(Path(n.conn.value, s.uplink)) + SendableOf(ReplayLog.After(s.pub.replay, s.inbox[0].last))
  {
    var fs := Wrap(Replay(c, s.pub, s.inbox[0].last, {}).frames);
    var s' := Step(c, s, DoServe({}, up));
    assert s'.uplink == s.uplink + fs && s.log + [] == s.log;
    assert Path(n.conn.value, s'.uplink) == Path(n.conn.value, s.uplink) + fs;
    NumbersConcat(Path(n.conn.value, s.uplink), fs);
    ServedNumbers(c, s, s.inbox[0].last);
  }

  // ----- staying caught up -----

  lemma {:induction false} FlowNumbers(c: Suite, log: seq<Entry>, k: Key, fs: seq<Frame>)
    requires Flow(c, log, k, fs).Some?
    ensures forall i :: 0 <= i < |Numbers(fs)| ==> Numbers(fs)[i] <= |log|
    decreases |fs|
  {
    if fs != [] {
      FlowNumbers(c, log, StepKey(c, log, k, fs[0]).value, fs[1..]);
    }
  }

  /** Appending frames can only add to what will be accepted; a freshly numbered message tops everything in flight. */
  lemma {:induction false} AppendCaughtUp(log: seq<Entry>, ext: seq<Entry>, from: nat, sub: Subscriber, ns: seq<nat>, more: seq<nat>, upTo: nat)
    requires CaughtUp(log, upTo, from, sub, ns)
    requires sub.lastSeq <= |log| && forall i :: 0 <= i < |ns| ==> ns[i] <= |log|
    requires forall s :: |log| < s && Due(log + ext, upTo, s) ==> more == [s]
    ensures CaughtUp(log + ext, upTo, from, sub, ns + more)
  {
    AcceptedConcat(sub.lastSeq, ns, more);
    TopBound(sub.lastSeq, ns, |log|);
    forall s | from < s && Due(log + ext, upTo, s)
      ensures SeqMsg(s, (log + ext)[s - 1].payload) in sub.delivered || s in Accepted(sub.lastSeq, ns + more)
    {
      if s <= |log| {
        assert Due(log, upTo, s);
      } else {
        assert more[0] == s;
      }
    }
  }

  lemma {:induction false} EmittedCaughtUp(c: Suite, s: System, s': System, n: Node, from: nat, fs: seq<Frame>, ext: seq<Entry>, upTo: nat)
    requires NodeOk(c, s, n) && Intact(n) && s'.uplink == s.uplink + fs && s'.log == s.log + ext
    requires CaughtUp(s.log, upTo, from, n.sub, Numbers(Path(n.conn.value, s.uplink)))
    requires forall x :: |s.log| < x && Due(s'.log, upTo, x) ==> Numbers(fs) == [x]
    ensures CaughtUp(s'.log, upTo, from, n.sub, Numbers(Path(n.conn.value, s'.uplink)))
  {
    var path := Path(n.conn.value, s.uplink);
    assert Path(n.conn.value, s'.uplink) == path + fs;
    InFlightBelow(c, s, n);
    PathCaughtUp(s.log, ext, from, n.sub, path, fs, upTo);
  }

  lemma {:induction false} PathCaughtUp(log: seq<Entry>, ext: seq<Entry>, from: nat, sub: Subscriber, path: seq<Frame>, fs: seq<Frame>, upTo: nat)
    requires CaughtUp(log, upTo, from, sub, Numbers(path)) && sub.lastSeq <= |log|
    requires forall i :: 0 <= i < |Numbers(path)| ==> Numbers(path)[i] <= |log|
    requires forall x :: |log| < x && Due(log + ext, upTo, x) ==> Numbers(fs) == [x]
    ensures CaughtUp(log + ext, upTo, from, sub, Numbers(path + fs))
  {
    NumbersConcat(path, fs);
    AppendCaughtUp(log, ext, from, sub, Numbers(path), Numbers(fs), upTo);
  }

  /** Nothing in flight, and nothing delivered, is numbered beyond the log. */
  lemma {:induction false} InFlightBelow(c: Suite, s: System, n: Node)
    requires NodeOk(c, s, n) && Intact(n)
    ensures n.sub.lastSeq <= |s.log|
    ensures forall i :: 0 <= i < |Numbers(Path(n.conn.value, s.uplink))| ==> Numbers(Path(n.conn.value, s.uplink))[i] <= |s.log|
  {
    FlowNumbers(c, s.log, n.sub.cipherKey.value, Path(n.conn.value, s.uplink));
  }

  lemma {:induction false} EmitNumbers(c: Suite, p: Publisher, payload: Bytes, up: bool)
    requires Fits(payload) && Emit(c, p, payload, up).ok
    ensures Numbers(Wrap(Emit(c, p, payload, up).frames)) == [NextSeq(p.seqCounter)]
  {
    var x := NextSeq(p.seqCounter);
    OnWireUncut(c, p.cipherKey.value, p.sid, x, payload);
    OpenDataFrame(c, p.cipherKey.value, p.sid, x, payload);
    var e := DataFrame(c, p.cipherKey.value, p.sid, x, payload);
    assert Wrap(Emit(c, p, payload, up).frames) == [Env(e)] && [Env(e)][1..] == [];
  }

  lemma {:induction false} RekeyNumbers(c: Suite, p: Publisher, salt: Nonce, now: int, up: bool)
    ensures Numbers(Wrap(Rekey(c, p, salt, now, up).frames)) == []
  {
    var fs := Wrap(Rekey(c, p, salt, now, up).frames);
    if fs != [] {
      assert fs[1..] == [];
    }
  }

  /** A successful publication puts exactly its own number on every path. */
  lemma {:induction false} PublishNumbers(c: Suite, p: Publisher, payload: Bytes, salt: Nonce, now: int, upRekey: bool, up: bool)
    requires Fits(payload) && p.seqCounter + 2 < TWO_64
    requires Publish(c, p, payload, salt, now, upRekey, up).ok
    ensures var o := Publish(c, p, payload, salt, now, upRekey, up); Numbers(Wrap(o.frames)) == [o.pub.seqCounter]
  {
    var p1 := Counted(p, payload);
    if ShouldRekey(p1, now) {
      var r := Rekey(c, p1, salt, now, upRekey);
      var o := Emit(c, r.pub, payload, up);
      RekeyNumbers(c, p1, salt, now, upRekey);
      EmitNumbers(c, r.pub, payload, up);
      assert Wrap(r.frames + o.frames) == Wrap(r.frames) + Wrap(o.frames);
      NumbersConcat(Wrap(r.frames), Wrap(o.frames));
    } else {
      EmitNumbers(c, p1, payload, up);
    }
  }

  lemma {:induction false} SentIsLast(s: System, payload: Bytes, salt: Nonce, now: int, ok: bool, x: nat, upTo: nat)
    requires upTo <= |s.log| < x && Due(s.log + PublishEntries(s, payload, salt, now, ok), upTo, x)
    ensures ok && x == |s.log + PublishEntries(s, payload, salt, now, ok)|
  {
  }

  lemma {:induction false} PublishCount(c: Suite, s: System, a: Action)
    requires Inv(c, s) && a.DoPublish? && Enabled(c, s, a)
    ensures |Step(c, s, a).log| == Publish(c, s.pub, a.payload, a.salt, a.now, a.upRekey, a.up).pub.seqCounter
  {
    PublishInv(c, s, a);
  }

  lemma {:induction false} PublishCaughtUp(c: Suite, s: System, a: Action, i: nat, from: nat, upTo: nat)
    requires Inv(c, s) && a.DoPublish? && Enabled(c, s, a) && i in s.nodes && Intact(s.nodes[i]) && upTo <= |s.log|
    requires CaughtUp(s.log, upTo, from, s.nodes[i].sub, Numbers(Path(s.nodes[i].conn.value, s.uplink)))
    ensures var s' := Step(c, s, a);
      CaughtUp(s'.log, upTo, from, s.nodes[i].sub, Numbers(Path(s.nodes[i].conn.value, s'.uplink)))
  {
    var s' := Step(c, s, a);
    var o := Publish(c, s.pub, a.payload, a.salt, a.now, a.upRekey, a.up);
    var entries := PublishEntries(s, a.payload, a.salt, a.now, o.ok);
    forall x | |s.log| < x && Due(s'.log, upTo, x)
      ensures Numbers(Wrap(o.frames)) == [x]
    {
      SentIsLast(s, a.payload, a.salt, a.now, o.ok, x, upTo);
      PublishNumbers(c, s.pub, a.payload, a.salt, a.now, a.upRekey, a.up);
      PublishCount(c, s, a);
    }
    assert NodeOk(c, s, s.nodes[i]);
    EmittedCaughtUp(c, s, s', s.nodes[i], from, Wrap(o.frames), entries, upTo);
  }

  /** A number that arrives is delivered now if it was going to be accepted. */
  lemma {:induction false} DeliverCaughtUp(log: seq<Entry>, from: nat, sub: Subscriber, x: nat, p: Bytes, ns: seq<nat>, upTo: nat)
    requires CaughtUp(log, upTo, from, sub, [x] + ns) && Names(log, x, p)
    ensures CaughtUp(log, upTo, from, Deliver(sub, x, p), ns)
  {
    assert ([x] + ns)[0] == x && ([x] + ns)[1..] == ns;
  }

  lemma {:induction false} HandleCaughtUp(c: Suite, log: seq<Entry>, key: Key, from: nat, sub: Subscriber, e: Envelope, rest: seq<Frame>, upTo: nat)
    requires sub.cipherKey.Some? && Flow(c, log, sub.cipherKey.value, [Env(e)] + rest) == Some(key)
    requires CaughtUp(log, upTo, from, sub, Numbers([Env(e)] + rest))
    ensures HandleFrame(c, sub, e).Continue? ==> CaughtUp(log, upTo, from, HandleFrame(c, sub, e).sub, Numbers(rest))
  {
    HandleKeepsLink(c, log, key, sub, Env(e), rest);
    assert ([Env(e)] + rest)[0] == Env(e) && ([Env(e)] + rest)[1..] == rest;
    if |e.payload| >= SEQ_SIZE && e.msgType == DATA_STREAM {
      DeliverCaughtUp(log, from, sub, SeqOf(e), OpenData(c, sub.cipherKey.value, e).value, Numbers(rest), upTo);
    }
  }

  lemma {:induction false} ReceiveCaughtUp(c: Suite, s: System, i: nat, from: nat, upTo: nat)
    requires Inv(c, s) && i in s.nodes && Intact(s.nodes[i]) && s.nodes[i].conn.value.wire != []
    requires CaughtUp(s.log, upTo, from, s.nodes[i].sub, Numbers(Path(s.nodes[i].conn.value, s.uplink)))
    requires Intact(Received(c, s.nodes[i]))
    ensures CaughtUp(s.log, upTo, from, Received(c, s.nodes[i]).sub, Numbers(Path(Received(c, s.nodes[i]).conn.value, s.uplink)))
  {
    var n := s.nodes[i];
    var f := n.conn.value.wire[0];
    var path := Path(n.conn.value, s.uplink);
    var rest := Path(Received(c, n).conn.value, s.uplink);
    assert path == [f] + rest && path[0] == f && path[1..] == rest;
    assert NodeOk(c, s, n);
    if f.Env? {
      HandleCaughtUp(c, s.log, s.key, from, n.sub, f.e, rest, upTo);
    }
  }

  /** Rekeying, closing, answering and replaying number no new message. */
  lemma {:induction false} SilentStep(c: Suite, s: System, a: Action) returns (fs: seq<Frame>, ext: seq<Entry>)
    requires Enabled(c, s, a) && (a.DoRekey? || a.DoClose? || a.DoServe?)
    ensures var s' := Step(c, s, a);
      && s'.uplink == s.uplink + fs && s'.log == s.log + ext && s'.nodes == s.nodes
      && forall j :: 0 <= j < |ext| ==> !ext[j].Msg?
  {
    var s' := Step(c, s, a);
    fs, ext := s'.uplink[|s.uplink|..], s'.log[|s.log|..];
  }

  lemma {:induction false} SilentCaughtUp(c: Suite, s: System, a: Action, i: nat, from: nat, upTo: nat)
    requires Inv(c, s) && Enabled(c, s, a) && (a.DoRekey? || a.DoClose? || a.DoServe?)
    requires i in s.nodes && Intact(s.nodes[i])
    requires CaughtUp(s.log, upTo, from, s.nodes[i].sub, Numbers(Path(s.nodes[i].conn.value, s.uplink)))
    ensures var s' := Step(c, s, a);
      CaughtUp(s'.log, upTo, from, s.nodes[i].sub, Numbers(Path(s.nodes[i].conn.value, s'.uplink)))
  {
    var fs, ext := SilentStep(c, s, a);
    assert NodeOk(c, s, s.nodes[i]);
    NothingDue(s.log, ext, upTo);
    EmittedCaughtUp(c, s, Step(c, s, a), s.nodes[i], from, fs, ext, upTo);
  }

  lemma {:induction false} NothingDue(log: seq<Entry>, ext: seq<Entry>, upTo: nat)
    requires forall j :: 0 <= j < |ext| ==> !ext[j].Msg?
    ensures forall x :: |log| < x ==> !Due(log + ext, upTo, x)
  {
  }

  /** Moving a frame along does not change the path. */
  lemma {:induction false} RelayKeepsPath(c: Suite, s: System, a: Action, i: nat)
    requires Enabled(c, s, a) && (a.DoForward? || a.DoWrite?) && i in s.nodes && Intact(s.nodes[i])
    requires i in Step(c, s, a).nodes && Intact(Step(c, s, a).nodes[i])
    ensures var s' := Step(c, s, a);
      s'.nodes[i].sub == s.nodes[i].sub && Path(s'.nodes[i].conn.value, s'.uplink) == Path(s.nodes[i].conn.value, s.uplink)
  {
    if a.DoForward? {
      assert s.uplink == [s.uplink[0]] + s.uplink[1..];
    } else {
      var k := s.nodes[a.i].conn.value;
      assert k.queue == [k.queue[0]] + k.queue[1..];
    }
  }

  /** While the subscriber stays connected without losing frames, no step undoes catch-up. */
  lemma {:induction false} StepCaughtUp(c: Suite, s: System, a: Action, i: nat, from: nat, upTo: nat)
    requires Inv(c, s) && Enabled(c, s, a) && i in s.nodes && Intact(s.nodes[i]) && upTo <= |s.log|
    requires i in Step(c, s, a).nodes && Intact(Step(c, s, a).nodes[i])
    requires CaughtUp(s.log, upTo, from, s.nodes[i].sub, Numbers(Path(s.nodes[i].conn.value, s.uplink)))
    ensures var s' := Step(c, s, a);
      CaughtUp(s'.log, upTo, from, s'.nodes[i].sub, Numbers(Path(s'.nodes[i].conn.value, s'.uplink)))
  {
    if a.DoPublish? {
      PublishCaughtUp(c, s, a, i, from, upTo);
    } else if a.DoRekey? || a.DoClose? || a.DoServe? {
      SilentCaughtUp(c, s, a, i, from, upTo);
    } else if a.DoForward? || a.DoWrite? {
      RelayKeepsPath(c, s, a, i);
    } else if a.DoReceive? && a.i == i {
      ReceiveCaughtUp(c, s, i, from, upTo);
    }
  }

  lemma {:induction false} LogGrowsStep(c: Suite, s: System, a: Action)
    requires Enabled(c, s, a)
    ensures s.log <= Step(c, s, a).log
  {
  }

  predicate StaysIntact(c: Suite, s: System, run: seq<Action>, i: nat)
    requires Runs(c, s, run)
    decreases |run|
  {
    && i in s.nodes && Intact(s.nodes[i])
    && (run != [] ==> StaysIntact(c, Step(c, s, run[0]), run[1..], i))
  }

  lemma {:induction false} RunCaughtUp(c: Suite, s: System, run: seq<Action>, i: nat, from: nat, upTo: nat)
    requires Inv(c, s) && Runs(c, s, run) && StaysIntact(c, s, run, i) && upTo <= |s.log|
    requires CaughtUp(s.log, upTo, from, s.nodes[i].sub, Numbers(Path(s.nodes[i].conn.value, s.uplink)))
    ensures var t := Reached(c, s, run);
      i in t.nodes && Intact(t.nodes[i])
      && CaughtUp(t.log, upTo, from, t.nodes[i].sub, Numbers(Path(t.nodes[i].conn.value, t.uplink)))
    decreases |run|
  {
    if run != [] {
      StepInv(c, s, run[0]);
      StepCaughtUp(c, s, run[0], i, from, upTo);
      LogGrowsStep(c, s, run[0]);
      RunCaughtUp(c, Step(c, s, run[0]), run[1..], i, from, upTo);
    }
  }

  /** A request is next in line, the subscriber stands above 0 and is not overflowed, and nothing newer is on its path. */
  predicate ReadyToServe(s: System, i: nat) {
    && i in s.nodes && Intact(s.nodes[i])
    && s.inbox != [] && s.inbox[0].Sync? && s.inbox[0].last <= s.nodes[i].sub.lastSeq
    && s.pub.connected && s.pub.cipherKey.Some?
    && 0 < s.nodes[i].sub.lastSeq && !Overflow(s.pub.replay, s.nodes[i].sub.lastSeq)
    && forall n :: n in Numbers(Path(s.nodes[i].conn.value, s.uplink)) ==> n <= s.nodes[i].sub.lastSeq
  }

  predicate Drained(s: System, i: nat) {
    i in s.nodes && s.nodes[i].conn.Some? && Path(s.nodes[i].conn.value, s.uplink) == []
  }

  /** From s, the request is served, then `after` runs without a loss on the subscriber's connection, down to an empty path. */
  predicate ServedAndDrained(c: Suite, s: System, up: bool, after: seq<Action>, i: nat)
    requires s.inbox != []
  {
    var s1 := Step(c, s, DoServe({}, up));
    Runs(c, s1, after) && StaysIntact(c, s1, after, i) && Drained(Reached(c, s1, after), i)
  }

  /** Catch-up completeness, over whole runs. In any reachable state, serve the request of a subscriber at position
      L > 0 that is not overflowed and whose path holds no newer data frame; then, after any further run on which its
      connection loses nothing, as soon as its path is empty it has delivered every message numbered after L: those
      numbered before the service if they can be sent at all, even if their own write had failed and however often the key
      was ratcheted meanwhile, and those published since if they were sent. */
  lemma {:induction false} CatchUpCompleteness(c: Suite, s0: System, before: seq<Action>, up: bool, after: seq<Action>, i: nat, x: nat)
    requires Initial(s0) && Runs(c, s0, before)
    requires ReadyToServe(Reached(c, s0, before), i) && ServedAndDrained(c, Reached(c, s0, before), up, after, i)
    ensures var s := Reached(c, s0, before);
      var t := Reached(c, Step(c, s, DoServe({}, up)), after);
      s.nodes[i].sub.lastSeq < x && Due(t.log, |s.log|, x) ==> SeqMsg(x, t.log[x - 1].payload) in t.nodes[i].sub.delivered
  {
    InitialInv(c, s0);
    RunInv(c, s0, before);
    var s := Reached(c, s0, before);
    var n := s.nodes[i];
    var l, upTo := n.sub.lastSeq, |s.log|;
    OlderNeverSkip(s.log, l, Numbers(Path(n.conn.value, s.uplink)), upTo);
    ServedPath(c, s, up, n);
    assert NodeOk(c, s, n);
    ServedIff(s, s.inbox[0].last, l, n.sub, Numbers(Path(n.conn.value, s.uplink)), upTo);
    StepInv(c, s, DoServe({}, up));
    var s1 := Step(c, s, DoServe({}, up));
    RunCaughtUp(c, s1, after, i, l, upTo);
    var t := Reached(c, s1, after);
    assert Numbers(Path(t.nodes[i].conn.value, t.uplink)) == [];
  }

  lemma {:induction false} OlderNeverSkip(log: seq<Entry>, last: nat, ns: seq<nat>, upTo: nat)
    requires forall n :: n in ns ==> n <= last
    ensures NoSkip(log, upTo, last, ns)
    decreases |ns|
  {
    if ns != [] {
      assert ns[0] in ns && forall n :: n in ns[1..] ==> n in ns;
      OlderNeverSkip(log, last, ns[1..], upTo);
    }
  }

  /** What was skipped stays lost: a number at or below the subscriber's position that it did not deliver, it never will. */
  lemma {:induction false} SkippedStaysLost(c: Suite, s: System, run: seq<Action>, i: nat, x: nat)
    requires Inv(c, s) && Runs(c, s, run) && i in s.nodes
    requires x <= s.nodes[i].sub.lastSeq && forall m :: m in s.nodes[i].sub.delivered ==> m.seqNum != x
    ensures i in Reached(c, s, run).nodes && forall m :: m in Reached(c, s, run).nodes[i].sub.delivered ==> m.seqNum != x
  {
    RunInv(c, s, run);
    DeliveredOnlyGrows(c, s, run, i);
    var t := Reached(c, s, run);
    assert NodeOk(c, s, s.nodes[i]);
    assert NodeOk(c, t, t.nodes[i]);
    var d, d' := s.nodes[i].sub.delivered, t.nodes[i].sub.delivered;
    forall m | m in d'
      ensures m.seqNum != x
    {
      var j :| 0 <= j < |d'| && d'[j] == m;
      if j < |d| {
        assert d[j] == m;
      } else if d != [] {
        assert d'[|d| - 1] == d[|d| - 1] && d'[|d| - 1].seqNum < m.seqNum;
      } else {
        assert Names(t.log, m.seqNum, m.payload);
      }
    }
  }
}
