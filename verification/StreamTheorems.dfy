/** The safety theorems, over every run from an initial state. */
module StreamTheorems {
  import opened Wrappers
  import opened ByteStrings
  import opened Primitives
  import opened EnvelopeCodec
  import opened SealedFrames
  import opened ReplayLog
  import opened Endpoints
  import opened StreamSystem
  import opened StreamSafety
  import opened Sequences
  import Hkdf

  // ----- key agreement -----

  /** Does the frame open under this key? Frames the stream loop does not decrypt count as opening. */
  predicate Opens(c: Suite, k: Key, f: Frame) {
    (f.Env? && |f.e.payload| >= SEQ_SIZE && f.e.msgType in {REKEY, DATA_STREAM}) ==> OpenFrame(c, k, f.e).Some?
  }

  /** Folding the two HMACs of the ratchet over the rekey frames of a path. */
  function Folded(c: Suite, k: Key, fs: seq<Frame>): (r: Key)
    decreases |fs|
  {
    if fs == [] then k
    else
      var f := fs[0];
      var k' := if f.Env? && |f.e.payload| >= SEQ_SIZE && f.e.msgType == REKEY && OpenFrame(c, k, f.e).Some?
                then Hkdf.NextKey(c, k, OpenFrame(c, k, f.e).value) else k;
      Folded(c, k', fs[1..])
  }

  /** Every frame opens under the key held when it is reached. */
  predicate AllOpen(c: Suite, k: Key, fs: seq<Frame>) {
    forall j :: 0 <= j < |fs| ==> Opens(c, Folded(c, k, fs[..j]), fs[j])
  }

  lemma {:induction false} FlowFolds(c: Suite, log: seq<Entry>, k: Key, fs: seq<Frame>)
    requires Flow(c, log, k, fs).Some?
    ensures Folded(c, k, fs) == Flow(c, log, k, fs).value
    decreases |fs|
  {
    if fs != [] {
      if fs[0].Env? && |fs[0].e.payload| >= SEQ_SIZE && fs[0].e.msgType == REKEY {
        Hkdf.RatchetIsTwoMacs(c, k, OpenFrame(c, k, fs[0].e).value);
      }
      FlowFolds(c, log, StepKey(c, log, k, fs[0]).value, fs[1..]);
    }
  }

  lemma {:induction false} FlowOpens(c: Suite, log: seq<Entry>, k: Key, fs: seq<Frame>, j: nat)
    requires Flow(c, log, k, fs).Some? && j < |fs|
    ensures Opens(c, Folded(c, k, fs[..j]), fs[j])
  {
    assert fs == fs[..j] + fs[j..];
    FlowConcat(c, log, k, fs[..j], fs[j..]);
    FlowFolds(c, log, k, fs[..j]);
  }

  /** The handshake is complete and no frame was lost on this connection. */
  predicate Intact(n: Node) {
    n.conn.Some? && n.conn.value.ready && !n.conn.value.gap
  }

  predicate InStep(c: Suite, key: Key, n: Node, uplink: seq<Frame>)
    requires Intact(n)
  {
    var k := n.conn.value;
    && n.sub.cipherKey.Some?
    && Folded(c, n.sub.cipherKey.value, Path(k, uplink)) == key
    && AllOpen(c, n.sub.cipherKey.value, Path(k, uplink))
    && (k.wire != [] && k.wire[0].Env? ==> !HandleFrame(c, n.sub, k.wire[0].e).AuthFailed?)
  }

  lemma {:induction false} LinkInStep(c: Suite, log: seq<Entry>, key: Key, n: Node, uplink: seq<Frame>)
    requires Intact(n) && LinkOk(c, log, key, n.sub, n.conn.value, Path(n.conn.value, uplink))
    ensures InStep(c, key, n, uplink)
  {
    var k := n.conn.value;
    var mine := n.sub.cipherKey.value;
    var path := Path(k, uplink);
    FlowFolds(c, log, mine, path);
    forall j | 0 <= j < |path|
      ensures Opens(c, Folded(c, mine, path[..j]), path[j])
    {
      FlowOpens(c, log, mine, path, j);
    }
    if k.wire != [] {
      assert path[0] == k.wire[0];
    }
  }

  /** In every reachable state, for every subscriber that completed its handshake and lost no frame on its current
      connection: the rekey frames in flight turn its key into the publisher's, every frame in flight will open when
      it is reached, and the next frame it reads does not take an authentication-failure exit. */
  lemma {:induction false} KeyAgreement(c: Suite, s0: System, run: seq<Action>, i: nat)
    requires Initial(s0) && Runs(c, s0, run)
    ensures var s := Reached(c, s0, run);
      && s.pub.cipherKey == s.pub.masterKey
      && (s.pub.cipherKey.Some? ==> s.pub.cipherKey.value == s.key)
      && (i in s.nodes && Intact(s.nodes[i]) ==> InStep(c, s.key, s.nodes[i], s.uplink))
  {
    InitialInv(c, s0);
    RunInv(c, s0, run);
    var s := Reached(c, s0, run);
    if i in s.nodes && Intact(s.nodes[i]) {
      assert NodeOk(c, s, s.nodes[i]);
      LinkInStep(c, s.log, s.key, s.nodes[i], s.uplink);
    }
  }

  // ----- nonce discipline -----

  /** Over a whole run, a stream nonce determines plaintext and associated data, under whatever keys it is reused for replays. */
  lemma {:induction false} NonceDiscipline(c: Suite, s0: System, run: seq<Action>, i: nat, j: nat)
    requires Initial(s0) && Runs(c, s0, run)
    requires i < |Reached(c, s0, run).seals| && j < |Reached(c, s0, run).seals|
    requires Reached(c, s0, run).seals[i].nonce == Reached(c, s0, run).seals[j].nonce
    ensures Reached(c, s0, run).seals[i].plaintext == Reached(c, s0, run).seals[j].plaintext
    ensures Reached(c, s0, run).seals[i].aad == Reached(c, s0, run).seals[j].aad
  {
    InitialInv(c, s0);
    RunInv(c, s0, run);
    var s := Reached(c, s0, run);
    assert SealOk(s.pub.sid, s.log, s.seals[i]);
    assert SealOk(s.pub.sid, s.log, s.seals[j]);
  }

  // ----- delivery safety -----

  lemma {:induction false} IncreasingNamesSubsequence(log: seq<Entry>, d: seq<SeqMsg>)
    requires Increasing(d)
    requires forall i :: 0 <= i < |d| ==> Names(log, d[i].seqNum, d[i].payload)
    ensures Subsequence(d, Messages(log))
    decreases |log|
  {
    if d != [] {
      var last := d[|d| - 1];
      assert Names(log, last.seqNum, last.payload);
      var front := log[..|log| - 1];
      if last.seqNum == |log| {
        var d' := d[..|d| - 1];
        forall i | 0 <= i < |d'|
          ensures Names(front, d'[i].seqNum, d'[i].payload)
        {
          assert Names(log, d[i].seqNum, d[i].payload) && d[i].seqNum < last.seqNum;
        }
        IncreasingNamesSubsequence(front, d');
      } else {
        forall i | 0 <= i < |d|
          ensures Names(front, d[i].seqNum, d[i].payload)
        {
          assert Names(log, d[i].seqNum, d[i].payload) && d[i].seqNum <= last.seqNum;
        }
        IncreasingNamesSubsequence(front, d);
        SkipLast(log, d);
      }
    }
  }

  lemma {:induction false} SkipLast(log: seq<Entry>, d: seq<SeqMsg>)
    requires log != [] && d != [] && d[|d| - 1].seqNum < |log| && Subsequence(d, Messages(log[..|log| - 1]))
    ensures Subsequence(d, Messages(log))
  {
    if log[|log| - 1].Msg? {
      var ms := Messages(log);
      assert ms[..|ms| - 1] == Messages(log[..|log| - 1]);
      assert ms[|ms| - 1].seqNum == |log|;
    }
  }

  /** Under any drops, reconnects, lost frames, duplicates and replays meant for others: numbers strictly increase,
      and what was delivered is a subsequence of what was published, payloads included. */
  lemma {:induction false} DeliverySafety(c: Suite, s0: System, run: seq<Action>, i: nat)
    requires Initial(s0) && Runs(c, s0, run)
    ensures var s := Reached(c, s0, run);
      i in s.nodes ==>
        && Increasing(s.nodes[i].sub.delivered)
        && Subsequence(s.nodes[i].sub.delivered, Messages(s.log))
  {
    InitialInv(c, s0);
    RunInv(c, s0, run);
    var s := Reached(c, s0, run);
    if i in s.nodes {
      assert NodeOk(c, s, s.nodes[i]);
      IncreasingNamesSubsequence(s.log, s.nodes[i].sub.delivered);
    }
  }

  /** Once delivered, always delivered, in the same order: a run only extends a subscriber's log. */
  lemma {:induction false} DeliveredOnlyGrows(c: Suite, s: System, run: seq<Action>, i: nat)
    requires Runs(c, s, run) && i in s.nodes
    ensures i in Reached(c, s, run).nodes
    ensures s.nodes[i].sub.delivered <= Reached(c, s, run).nodes[i].sub.delivered
    decreases |run|
  {
    if run != [] {
      var s' := Step(c, s, run[0]);
      assert i in s'.nodes && s.nodes[i].sub.delivered <= s'.nodes[i].sub.delivered;
      DeliveredOnlyGrows(c, s', run[1..], i);
    }
  }

  // ----- replays and up-to-date subscribers -----

  lemma {:induction false} StaleFrameIgnored(c: Suite, key: Key, sid: SessionId, m: SeqMsg, s: Subscriber)
    requires s.cipherKey == Some(key) && m.seqNum <= s.lastSeq < TWO_64 && Sendable(m.payload)
    ensures HandleFrame(c, s, OnWire(DataFrame(c, key, sid, m.seqNum, m.payload))) == Continue(s)
  {
    OnWireUncut(c, key, sid, m.seqNum, m.payload);
    OpenDataFrame(c, key, sid, m.seqNum, m.payload);
  }

  /** Replays, rekeys and reconnects, for whomever, leave an up-to-date subscriber's log alone: over any run from any
      reachable state on which nothing is published beyond its position, its log and its position do not change. */
  lemma {:induction false} UpToDateUnchanged(c: Suite, s0: System, before: seq<Action>, run: seq<Action>, i: nat)
    requires Initial(s0) && Runs(c, s0, before) && i in Reached(c, s0, before).nodes
    requires Runs(c, Reached(c, s0, before), run)
    requires var s := Reached(c, s0, before);
      var t := Reached(c, s, run);
      forall x :: s.nodes[i].sub.lastSeq <= x < |t.log| ==> t.log[x].Ratcheted?
    ensures var s := Reached(c, s0, before);
      var t := Reached(c, s, run);
      && i in t.nodes
      && t.nodes[i].sub.delivered == s.nodes[i].sub.delivered && t.nodes[i].sub.lastSeq == s.nodes[i].sub.lastSeq
  {
    InitialInv(c, s0);
    RunInv(c, s0, before);
    var s := Reached(c, s0, before);
    RunInv(c, s, run);
    DeliveredOnlyGrows(c, s, run, i);
    var t := Reached(c, s, run);
    assert NodeOk(c, s, s.nodes[i]);
    assert NodeOk(c, t, t.nodes[i]);
    NothingNewer(t.log, s.nodes[i].sub, t.nodes[i].sub);
  }

  lemma {:induction false} NothingNewer(log: seq<Entry>, sub: Subscriber, sub': Subscriber)
    requires DeliveredOk(log, sub') && sub.delivered <= sub'.delivered
    requires sub.lastSeq == if sub.delivered == [] then 0 else sub.delivered[|sub.delivered| - 1].seqNum
    requires forall x :: sub.lastSeq <= x < |log| ==> log[x].Ratcheted?
    ensures sub'.delivered == sub.delivered && sub'.lastSeq == sub.lastSeq
  {
    if |sub.delivered| < |sub'.delivered| {
      NewerIsNamed(log, sub, sub');
    }
  }

  lemma {:induction false} NewerIsNamed(log: seq<Entry>, sub: Subscriber, sub': Subscriber)
    requires DeliveredOk(log, sub') && sub.delivered < sub'.delivered
    requires sub.lastSeq == if sub.delivered == [] then 0 else sub.delivered[|sub.delivered| - 1].seqNum
    ensures exists x :: sub.lastSeq <= x < |log| && log[x].Msg?
  {
    var n := |sub.delivered|;
    var m := sub'.delivered[n];
    assert Names(log, m.seqNum, m.payload);
    assert n > 0 ==> sub'.delivered[n - 1] == sub.delivered[n - 1] && sub'.delivered[n - 1].seqNum < m.seqNum;
    assert log[m.seqNum - 1].Msg?;
  }
}
