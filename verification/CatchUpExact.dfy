/**
 The exact condition for catch-up, over whole runs and counted from the position in the request: what the subscriber
 reads while its request is on the way decides as much as what is still in flight when the request is served.
 */
module CatchUpExact {
  import opened Wrappers
  import opened ByteStrings
  import opened Primitives
  import opened EnvelopeCodec
  import opened SealedFrames
  import opened ReplayLog
  import opened Endpoints
  import opened StreamSystem
  import opened StreamSafety
  import opened StreamTheorems
  import opened CatchUp

  // ----- what a subscriber reads on a run -----

  function NumbersOf(d: seq<SeqMsg>): (ns: seq<nat>)
    ensures |ns| == |d|
  {
    seq(|d|, i requires 0 <= i < |d| => d[i].seqNum)
  }

  /** The number of the data frame subscriber i reads in this step, if it reads one. */
  function Heard(s: System, a: Action, i: nat): (ns: seq<nat>) {
    if a == DoReceive(i) && i in s.nodes && s.nodes[i].conn.Some? && s.nodes[i].conn.value.wire != []
    then Numbers([s.nodes[i].conn.value.wire[0]]) else []
  }

  /** The numbers of all data frames subscriber i reads on a run, in order. */
  function Arrived(c: Suite, s: System, run: seq<Action>, i: nat): (ns: seq<nat>)
    requires Runs(c, s, run)
    decreases |run|
  {
    if run == [] then [] else Heard(s, run[0], i) + Arrived(c, Step(c, s, run[0]), run[1..], i)
  }

  /** Reading these numbers, in this order, took the subscriber from sub to sub'. */
  predicate Took(sub: Subscriber, ns: seq<nat>, sub': Subscriber) {
    && sub'.lastSeq == Top(sub.lastSeq, ns)
    && NumbersOf(sub'.delivered) == NumbersOf(sub.delivered) + Accepted(sub.lastSeq, ns)
  }

  lemma {:induction false} TookNothing(sub: Subscriber, sub': Subscriber)
    requires sub'.lastSeq == sub.lastSeq && sub'.delivered == sub.delivered
    ensures Took(sub, [], sub')
  {
  }

  lemma {:induction false} TookConcat(a: Subscriber, ns: seq<nat>, b: Subscriber, ms: seq<nat>, d: Subscriber)
    requires Took(a, ns, b) && Took(b, ms, d)
    ensures Took(a, ns + ms, d)
  {
    AcceptedConcat(a.lastSeq, ns, ms);
  }

  lemma {:induction false} DeliverTook(sub: Subscriber, x: nat, p: Bytes)
    ensures Took(sub, [x], Deliver(sub, x, p))
  {
    assert [x][1..] == [];
    AcceptedStep(sub.lastSeq, [x]);
  }

  /** One frame through the stream loop. */
  lemma {:induction false} HandleTook(c: Suite, log: seq<Entry>, key: Key, sub: Subscriber, e: Envelope, rest: seq<Frame>)
    requires sub.cipherKey.Some? && Flow(c, log, sub.cipherKey.value, [Env(e)] + rest) == Some(key)
    ensures HandleFrame(c, sub, e).Continue? ==> Took(sub, Numbers([Env(e)]), HandleFrame(c, sub, e).sub)
  {
    HandleKeepsLink(c, log, key, sub, Env(e), rest);
    assert [Env(e)][1..] == [];
    if |e.payload| >= SEQ_SIZE && e.msgType == DATA_STREAM {
      DeliverTook(sub, SeqOf(e), OpenData(c, sub.cipherKey.value, e).value);
      assert Numbers([Env(e)]) == [SeqOf(e)];
    } else if HandleFrame(c, sub, e).Continue? {
      TookNothing(sub, HandleFrame(c, sub, e).sub);
    }
  }

  /** Reading moves the first number of the path to the subscriber. */
  lemma {:induction false} ReceiveTook(c: Suite, s: System, n: Node)
    requires NodeOk(c, s, n) && Intact(n) && n.conn.value.wire != [] && Intact(Received(c, n))
    ensures var ns := Numbers([n.conn.value.wire[0]]);
      && Took(n.sub, ns, Received(c, n).sub)
      && Numbers(Path(n.conn.value, s.uplink)) == ns + Numbers(Path(Received(c, n).conn.value, s.uplink))
  {
    var f := n.conn.value.wire[0];
    var path := Path(n.conn.value, s.uplink);
    var rest := Path(Received(c, n).conn.value, s.uplink);
    assert path == [f] + rest;
    NumbersConcat([f], rest);
    if f.Env? {
      HandleTook(c, s.log, s.key, n.sub, f.e, rest);
    } else {
      assert [f][1..] == [];
      TookNothing(n.sub, Received(c, n).sub);
    }
  }

  lemma {:induction false} ReceiveStepTook(c: Suite, s: System, i: nat)
    requires Inv(c, s) && i in s.nodes && Intact(s.nodes[i]) && Enabled(c, s, DoReceive(i))
    requires Intact(Received(c, s.nodes[i]))
    ensures var s' := Step(c, s, DoReceive(i));
      && i in s'.nodes && Took(s.nodes[i].sub, Heard(s, DoReceive(i), i), s'.nodes[i].sub) && s'.nodes[i].conn.Some?
      && Heard(s, DoReceive(i), i) + Numbers(Path(s'.nodes[i].conn.value, s'.uplink)) == Numbers(Path(s.nodes[i].conn.value, s.uplink)) + []
  {
    assert NodeOk(c, s, s.nodes[i]);
    ReceiveTook(c, s, s.nodes[i]);
  }

  lemma {:induction false} SilentTook(s: System, a: Action, i: nat, sub: Subscriber, before: seq<nat>, after: seq<nat>, more: seq<nat>)
    requires a != DoReceive(i) && after == before + more
    ensures Took(sub, Heard(s, a, i), sub) && Heard(s, a, i) + after == before + more
  {
    TookNothing(sub, sub);
  }

  /** Any step of an intact connection: the subscriber takes what it hears, and the path loses just that at the front. */
  lemma {:induction false} StepTook(c: Suite, s: System, a: Action, i: nat) returns (more: seq<nat>)
    requires Inv(c, s) && Enabled(c, s, a) && i in s.nodes && Intact(s.nodes[i])
    requires i in Step(c, s, a).nodes && Intact(Step(c, s, a).nodes[i])
    ensures var s' := Step(c, s, a);
      && Took(s.nodes[i].sub, Heard(s, a, i), s'.nodes[i].sub)
      && Heard(s, a, i) + Numbers(Path(s'.nodes[i].conn.value, s'.uplink))
         == Numbers(Path(s.nodes[i].conn.value, s.uplink)) + more
  {
    more := [];
    if a == DoReceive(i) {
      ReceiveStepTook(c, s, i);
    } else {
      var s' := Step(c, s, a);
      var before := Numbers(Path(s.nodes[i].conn.value, s.uplink));
      if a.DoForward? || a.DoWrite? {
        RelayKeepsPath(c, s, a, i);
        assert before + [] == before;
      } else {
        more := PathGrows(c, s, a, i);
      }
      SilentTook(s, a, i, s.nodes[i].sub, before, Numbers(Path(s'.nodes[i].conn.value, s'.uplink)), more);
    }
  }

  lemma {:induction false} UplinkGrows(c: Suite, s: System, a: Action)
    requires Enabled(c, s, a) && !a.DoForward?
    ensures s.uplink <= Step(c, s, a).uplink
  {
  }

  lemma {:induction false} SameNode(c: Suite, s: System, a: Action, i: nat)
    requires Enabled(c, s, a) && i in s.nodes && Intact(s.nodes[i]) && a != DoReceive(i) && !a.DoForward? && !a.DoWrite?
    requires i in Step(c, s, a).nodes && Intact(Step(c, s, a).nodes[i])
    ensures Step(c, s, a).nodes[i] == s.nodes[i]
  {
  }

  /** The publisher's steps only append; the steps of others leave the path alone. */
  lemma {:induction false} PathGrows(c: Suite, s: System, a: Action, i: nat) returns (more: seq<nat>)
    requires Enabled(c, s, a) && i in s.nodes && Intact(s.nodes[i]) && a != DoReceive(i) && !a.DoForward? && !a.DoWrite?
    requires i in Step(c, s, a).nodes && Intact(Step(c, s, a).nodes[i])
    ensures var s' := Step(c, s, a);
      && s'.nodes[i].sub == s.nodes[i].sub
      && Numbers(Path(s'.nodes[i].conn.value, s'.uplink)) == Numbers(Path(s.nodes[i].conn.value, s.uplink)) + more
  {
    var s' := Step(c, s, a);
    var k := s.nodes[i].conn.value;
    UplinkGrows(c, s, a);
    SameNode(c, s, a, i);
    var fs := s'.uplink[|s.uplink|..];
    assert s'.uplink == s.uplink + fs;
    assert Path(k, s'.uplink) == Path(k, s.uplink) + fs;
    NumbersConcat(Path(k, s.uplink), fs);
    more := Numbers(fs);
  }

  lemma {:induction false} RunTook(c: Suite, s: System, run: seq<Action>, i: nat)
    requires Inv(c, s) && Runs(c, s, run) && StaysIntact(c, s, run, i)
    ensures i in Reached(c, s, run).nodes && Took(s.nodes[i].sub, Arrived(c, s, run, i), Reached(c, s, run).nodes[i].sub)
    decreases |run|
  {
    if run == [] {
      TookNothing(s.nodes[i].sub, s.nodes[i].sub);
    } else {
      var s1 := Step(c, s, run[0]);
      var _ := StepTook(c, s, run[0], i);
      StepInv(c, s, run[0]);
      RunTook(c, s1, run[1..], i);
      TookConcat(s.nodes[i].sub, Heard(s, run[0], i), s1.nodes[i].sub,
                 Arrived(c, s1, run[1..], i), Reached(c, s1, run[1..]).nodes[i].sub);
    }
  }

  // ----- lost once, lost for good -----

  lemma {:induction false} TookMembers(sub: Subscriber, ns: seq<nat>, sub': Subscriber, x: nat)
    requires Took(sub, ns, sub')
    ensures (exists m :: m in sub'.delivered && m.seqNum == x) <==>
            (exists m :: m in sub.delivered && m.seqNum == x) || x in Accepted(sub.lastSeq, ns)
  {
    NumbersOfMembers(sub.delivered, x);
    NumbersOfMembers(sub'.delivered, x);
  }

  lemma {:induction false} NumbersOfMembers(d: seq<SeqMsg>, x: nat)
    ensures x in NumbersOf(d) <==> exists m :: m in d && m.seqNum == x
  {
    if x in NumbersOf(d) {
      var i :| 0 <= i < |d| && NumbersOf(d)[i] == x;
      assert d[i] in d;
    }
    if m :| m in d && m.seqNum == x {
      var i :| 0 <= i < |d| && d[i] == m;
      assert NumbersOf(d)[i] == x;
    }
  }

  lemma {:induction false} TookLost(sub: Subscriber, heard: seq<nat>, sub': Subscriber, before: seq<nat>, more: seq<nat>, after: seq<nat>, x: nat)
    requires Took(sub, heard, sub') && heard + after == before + more && Lost(sub, before, x)
    ensures Lost(sub', after, x)
  {
    AcceptedConcat(sub.lastSeq, before, more);
    AcceptedConcat(sub.lastSeq, heard, after);
    AcceptedRange(Top(sub.lastSeq, before), more);
    TookMembers(sub, heard, sub', x);
    var all := Accepted(sub.lastSeq, heard + after);
    assert all == Accepted(sub.lastSeq, before) + Accepted(Top(sub.lastSeq, before), more);
    assert x !in all;
    assert all == Accepted(sub.lastSeq, heard) + Accepted(sub'.lastSeq, after);
    assert forall y :: y in Accepted(sub.lastSeq, heard) || y in Accepted(sub'.lastSeq, after) ==> y in all;
  }

  lemma {:induction false} RunLost(c: Suite, s: System, run: seq<Action>, i: nat, x: nat)
    requires Inv(c, s) && Runs(c, s, run) && StaysIntact(c, s, run, i)
    requires Lost(s.nodes[i].sub, Numbers(Path(s.nodes[i].conn.value, s.uplink)), x)
    ensures var t := Reached(c, s, run);
      i in t.nodes && Intact(t.nodes[i]) && Lost(t.nodes[i].sub, Numbers(Path(t.nodes[i].conn.value, t.uplink)), x)
    decreases |run|
  {
    if run != [] {
      var s1 := Step(c, s, run[0]);
      var more := StepTook(c, s, run[0], i);
      TookLost(s.nodes[i].sub, Heard(s, run[0], i), s1.nodes[i].sub, Numbers(Path(s.nodes[i].conn.value, s.uplink)),
               more, Numbers(Path(s1.nodes[i].conn.value, s1.uplink)), x);
      StepInv(c, s, run[0]);
      RunLost(c, s1, run[1..], i, x);
    }
  }

  // ----- the theorem -----

  lemma {:induction false} NoSkipConcat(log: seq<Entry>, last: nat, a: seq<nat>, b: seq<nat>, upTo: nat)
    ensures NoSkip(log, upTo, last, a + b) <==> NoSkip(log, upTo, last, a) && NoSkip(log, upTo, Top(last, a), b)
    decreases |a|
  {
    if a == [] {
      assert a + b == b;
    } else {
      NoSkipConcat(log, if a[0] <= last then last else a[0], a[1..], b, upTo);
      assert (a + b)[0] == a[0] && (a + b)[1..] == a[1..] + b;
    }
  }

  /** The subscriber is complete from its old position on if and only if what it read since skipped nothing. */
  lemma {:induction false} CompleteIffNoSkip(log: seq<Entry>, log': seq<Entry>, sub: Subscriber, ns: seq<nat>, sub': Subscriber, upTo: nat)
    requires DeliveredOk(log, sub) && DeliveredOk(log', sub') && Took(sub, ns, sub')
    ensures Complete(log', upTo, sub.lastSeq, sub') <==> NoSkip(log', upTo, sub.lastSeq, ns)
  {
    NoSkipIffAllAccepted(log', sub.lastSeq, ns, upTo);
    forall x | sub.lastSeq < x && Due(log', upTo, x)
      ensures SeqMsg(x, log'[x - 1].payload) in sub'.delivered <==> x in Accepted(sub.lastSeq, ns)
    {
      DeliveredIffNumber(log', sub', x);
      TookMembers(sub, ns, sub', x);
      DeliveredBelow(log, sub);
    }
  }

  lemma {:induction false} DeliveredBelow(log: seq<Entry>, sub: Subscriber)
    requires DeliveredOk(log, sub)
    ensures forall m :: m in sub.delivered ==> m.seqNum <= sub.lastSeq
  {
  }

  /** From s, subscriber i asks for what it missed, `wait` runs without a loss on its connection, and then its request is
      next in line at a connected publisher that reports no overflow for the requested position. */
  predicate Waited(c: Suite, s: System, wait: seq<Action>, i: nat) {
    && i in s.nodes && Intact(s.nodes[i]) && 0 < s.nodes[i].sub.lastSeq
    && var s1 := Step(c, s, DoRequestSync(i));
      && Runs(c, s1, wait) && StaysIntact(c, s1, wait, i)
      && var t := Reached(c, s1, wait);
        && t.inbox != [] && t.inbox[0] == Sync(s.nodes[i].sub.lastSeq)
        && t.pub.connected && t.pub.cipherKey.Some? && !Overflow(t.pub.replay, s.nodes[i].sub.lastSeq)
  }

  /** When the request is served. */
  function AtService(c: Suite, s: System, wait: seq<Action>, i: nat): (t: System)
    requires Waited(c, s, wait, i)
  {
    Reached(c, Step(c, s, DoRequestSync(i)), wait)
  }

  /** What the subscriber reads between asking and being served, and what is then still ahead of the replay, jumps over
      no due message. */
  ghost predicate NothingOvertakes(c: Suite, s: System, wait: seq<Action>, i: nat, upTo: nat)
    requires Waited(c, s, wait, i) && i in AtService(c, s, wait, i).nodes && AtService(c, s, wait, i).nodes[i].conn.Some?
  {
    var t := AtService(c, s, wait, i);
    NoSkip(t.log, upTo, s.nodes[i].sub.lastSeq,
           Arrived(c, Step(c, s, DoRequestSync(i)), wait, i) + Numbers(Path(t.nodes[i].conn.value, t.uplink)))
  }

  ghost predicate HasAllAfter(log: seq<Entry>, upTo: nat, from: nat, sub: Subscriber) {
    forall x :: from < x && Due(log, upTo, x) ==> SeqMsg(x, log[x - 1].payload) in sub.delivered
  }

  lemma {:induction false} ReachedIntact(c: Suite, s: System, run: seq<Action>, i: nat)
    requires Runs(c, s, run) && StaysIntact(c, s, run, i)
    ensures i in Reached(c, s, run).nodes && Intact(Reached(c, s, run).nodes[i])
    decreases |run|
  {
    if run != [] {
      ReachedIntact(c, Step(c, s, run[0]), run[1..], i);
    }
  }

  /** At the moment of service: everything due after the requested position is delivered or will be, if and only if
      nothing overtakes; and if not, some due message is lost. */
  lemma {:induction false} ServiceIff(c: Suite, s: System, wait: seq<Action>, up: bool, i: nat, upTo: nat)
    requires Inv(c, s) && Waited(c, s, wait, i)
    ensures var t := AtService(c, s, wait, i);
      && Inv(c, t) && i in t.nodes && Intact(t.nodes[i])
      && var s' := Step(c, t, DoServe({}, up));
        var from, sub, ns := s.nodes[i].sub.lastSeq, t.nodes[i].sub, Numbers(Path(t.nodes[i].conn.value, s'.uplink));
        && s'.nodes == t.nodes && s'.log == t.log
        && (CaughtUp(s'.log, upTo, from, sub, ns) <==> NothingOvertakes(c, s, wait, i, upTo))
        && (!CaughtUp(s'.log, upTo, from, sub, ns) ==> exists x :: from < x && Due(s'.log, upTo, x) && Lost(sub, ns, x))
  {
    var s1 := Step(c, s, DoRequestSync(i));
    var t := AtService(c, s, wait, i);
    StepInv(c, s, DoRequestSync(i));
    RunInv(c, s1, wait);
    ReachedIntact(c, s1, wait, i);
    RunTook(c, s1, wait, i);
    assert NodeOk(c, s, s.nodes[i]);
    assert NodeOk(c, t, t.nodes[i]);
    ServedPath(c, t, up, t.nodes[i]);
    WaitedIff(t, s.log, s.nodes[i].sub, Arrived(c, s1, wait, i), t.nodes[i].sub, Numbers(Path(t.nodes[i].conn.value, t.uplink)), upTo);
  }

  lemma {:induction false} WaitedIff(t: System, log: seq<Entry>, sub: Subscriber, read: seq<nat>, sub': Subscriber, ns: seq<nat>, upTo: nat)
    requires PublisherOk(t) && t.pub.cipherKey.Some? && DeliveredOk(log, sub) && DeliveredOk(t.log, sub') && Took(sub, read, sub')
    requires 0 < sub.lastSeq && !Overflow(t.pub.replay, sub.lastSeq)
    ensures var all := ns + SendableOf(ReplayLog.After(t.pub.replay, sub.lastSeq));
      && (CaughtUp(t.log, upTo, sub.lastSeq, sub', all) <==> NoSkip(t.log, upTo, sub.lastSeq, read + ns))
      && (!CaughtUp(t.log, upTo, sub.lastSeq, sub', all) ==> exists x :: sub.lastSeq < x && Due(t.log, upTo, x) && Lost(sub', all, x))
  {
    CompleteIffNoSkip(log, t.log, sub, read, sub', upTo);
    NoSkipConcat(t.log, sub.lastSeq, read, ns, upTo);
    ServedIff(t, sub.lastSeq, sub.lastSeq, sub', ns, upTo);
  }

  lemma {:induction false} DueGrows(log: seq<Entry>, log': seq<Entry>, x: nat, upTo: nat)
    requires log <= log' && Due(log, upTo, x)
    ensures Due(log', upTo, x)
  {
  }

  lemma {:induction false} LogGrows(c: Suite, s: System, run: seq<Action>)
    requires Runs(c, s, run)
    ensures s.log <= Reached(c, s, run).log
    decreases |run|
  {
    if run != [] {
      LogGrowsStep(c, s, run[0]);
      LogGrows(c, Step(c, s, run[0]), run[1..]);
    }
  }

  /** Catch-up, exactly, over whole runs: a subscriber asks from a position L > 0; its connection loses nothing; when its
      request is served no overflow is reported for L; any further run drains its path. Then it has delivered everything
      due after L, before and after its request, if and only if no data frame it read while waiting, or that was ahead
      of the replay, jumped over a message due by then. With upTo 0 this is about the messages reported as sent; with the
      length of the log at service, about all that can be sent. */
  lemma {:induction false} CatchUpIff(c: Suite, s0: System, before: seq<Action>, wait: seq<Action>, up: bool, after: seq<Action>, i: nat, upTo: nat)
    requires Initial(s0) && Runs(c, s0, before)
    requires Waited(c, Reached(c, s0, before), wait, i)
    requires ServedAndDrained(c, AtService(c, Reached(c, s0, before), wait, i), up, after, i)
    requires upTo <= |AtService(c, Reached(c, s0, before), wait, i).log|
    ensures var s := Reached(c, s0, before);
      var t := AtService(c, s, wait, i);
      var u := Reached(c, Step(c, t, DoServe({}, up)), after);
      && i in t.nodes && t.nodes[i].conn.Some?
      && (HasAllAfter(u.log, upTo, s.nodes[i].sub.lastSeq, u.nodes[i].sub) <==> NothingOvertakes(c, s, wait, i, upTo))
  {
    InitialInv(c, s0);
    RunInv(c, s0, before);
    CatchUpFrom(c, Reached(c, s0, before), wait, up, after, i, upTo);
  }

  /** So a due message that is still missing after the path has drained was overtaken. */
  lemma {:induction false} MissingWasOvertaken(c: Suite, s0: System, before: seq<Action>, wait: seq<Action>, up: bool, after: seq<Action>, i: nat, x: nat, upTo: nat)
    requires Initial(s0) && Runs(c, s0, before)
    requires Waited(c, Reached(c, s0, before), wait, i)
    requires ServedAndDrained(c, AtService(c, Reached(c, s0, before), wait, i), up, after, i)
    requires upTo <= |AtService(c, Reached(c, s0, before), wait, i).log|
    requires var s := Reached(c, s0, before);
      var u := Reached(c, Step(c, AtService(c, s, wait, i), DoServe({}, up)), after);
      s.nodes[i].sub.lastSeq < x && Due(u.log, upTo, x) && SeqMsg(x, u.log[x - 1].payload) !in u.nodes[i].sub.delivered
    ensures var s := Reached(c, s0, before);
      var t := AtService(c, s, wait, i);
      i in t.nodes && t.nodes[i].conn.Some? && !NothingOvertakes(c, s, wait, i, upTo)
  {
    CatchUpIff(c, s0, before, wait, up, after, i, upTo);
  }

  lemma {:induction false} CatchUpFrom(c: Suite, s: System, wait: seq<Action>, up: bool, after: seq<Action>, i: nat, upTo: nat)
    requires Inv(c, s) && Waited(c, s, wait, i)
    requires ServedAndDrained(c, AtService(c, s, wait, i), up, after, i) && upTo <= |AtService(c, s, wait, i).log|
    ensures var t := AtService(c, s, wait, i);
      var u := Reached(c, Step(c, t, DoServe({}, up)), after);
      && i in t.nodes && t.nodes[i].conn.Some?
      && (HasAllAfter(u.log, upTo, s.nodes[i].sub.lastSeq, u.nodes[i].sub) <==> NothingOvertakes(c, s, wait, i, upTo))
  {
    ServiceIff(c, s, wait, up, i, upTo);
    var t := AtService(c, s, wait, i);
    var s' := Step(c, t, DoServe({}, up));
    StepInv(c, t, DoServe({}, up));
    Outcome(c, s', after, i, s.nodes[i].sub.lastSeq, upTo);
  }

  /** After the path has drained, being caught up and being complete are the same, and a lost message stays lost. */
  lemma {:induction false} Outcome(c: Suite, s: System, after: seq<Action>, i: nat, from: nat, upTo: nat)
    requires Inv(c, s) && Runs(c, s, after) && StaysIntact(c, s, after, i) && Drained(Reached(c, s, after), i)
    requires upTo <= |s.log|
    requires var sub, ns := s.nodes[i].sub, Numbers(Path(s.nodes[i].conn.value, s.uplink));
      !CaughtUp(s.log, upTo, from, sub, ns) ==> exists x :: from < x && Due(s.log, upTo, x) && Lost(sub, ns, x)
    ensures var u := Reached(c, s, after);
      HasAllAfter(u.log, upTo, from, u.nodes[i].sub)
      <==> CaughtUp(s.log, upTo, from, s.nodes[i].sub, Numbers(Path(s.nodes[i].conn.value, s.uplink)))
  {
    var u := Reached(c, s, after);
    var sub, ns := s.nodes[i].sub, Numbers(Path(s.nodes[i].conn.value, s.uplink));
    assert Numbers(Path(u.nodes[i].conn.value, u.uplink)) == [];
    if CaughtUp(s.log, upTo, from, sub, ns) {
      RunCaughtUp(c, s, after, i, from, upTo);
    } else {
      var x :| from < x && Due(s.log, upTo, x) && Lost(sub, ns, x);
      RunLost(c, s, after, i, x);
      LogGrows(c, s, after);
      DueGrows(s.log, u.log, x, upTo);
      assert SeqMsg(x, u.log[x - 1].payload) !in u.nodes[i].sub.delivered;
    }
  }
}
