/**
 Two complete runs with one subscriber, for every suite and all payloads: one on which catch-up works, and one on which a
 live frame overtakes the replay and a message is lost although no overflow is reported.
 */
module CatchUpRuns {
  import opened Wrappers
  import opened Chains
  import opened ByteStrings
  import opened Primitives
  import opened EnvelopeCodec
  import opened SealedFrames
  import opened ReplayLog
  import opened Endpoints
  import opened StreamSystem
  import opened StreamSafety
  import opened StreamTheorems
  import opened CatchUp
  import opened CatchUpExact

  function Next(c: Suite): (System, Action) -> Option<System> {
    (s, a) => if Enabled(c, s, a) then Some(Step(c, s, a)) else None
  }

  lemma {:induction false} LeadsIffReached(c: Suite, s: System, run: seq<Action>, t: System)
    ensures Leads(Next(c), s, run, t) <==> Runs(c, s, run) && Reached(c, s, run) == t
    decreases |run|
  {
    if run != [] && Enabled(c, s, run[0]) {
      LeadsIffReached(c, Step(c, s, run[0]), run[1..], t);
    }
  }

  /** Runs compose. */
  lemma {:induction false} RunsConcat(c: Suite, s: System, a: seq<Action>, b: seq<Action>)
    requires Runs(c, s, a) && Runs(c, Reached(c, s, a), b)
    ensures Runs(c, s, a + b) && Reached(c, s, a + b) == Reached(c, Reached(c, s, a), b)
  {
    var t := Reached(c, s, a);
    var u := Reached(c, t, b);
    LeadsIffReached(c, s, a, t);
    LeadsIffReached(c, t, b, u);
    LeadsConcat(Next(c), s, a, t, b, u);
    LeadsIffReached(c, s, a + b, u);
  }

  function Whole(i: nat): System -> bool {
    (s: System) => i in s.nodes && Intact(s.nodes[i])
  }

  lemma {:induction false} AlongIff(c: Suite, s: System, run: seq<Action>, i: nat)
    requires Runs(c, s, run)
    ensures Along(Next(c), Whole(i), s, run) <==> StaysIntact(c, s, run, i)
    decreases |run|
  {
    if run != [] {
      AlongIff(c, Step(c, s, run[0]), run[1..], i);
    }
  }

  lemma {:induction false} IntactConcat(c: Suite, s: System, a: seq<Action>, b: seq<Action>, i: nat)
    requires Runs(c, s, a) && StaysIntact(c, s, a, i)
    requires Runs(c, Reached(c, s, a), b) && StaysIntact(c, Reached(c, s, a), b, i)
    ensures Runs(c, s, a + b) && StaysIntact(c, s, a + b, i)
  {
    var t := Reached(c, s, a);
    RunsConcat(c, s, a, b);
    AlongIff(c, s, a, i);
    AlongIff(c, t, b, i);
    LeadsIffReached(c, s, a, t);
    AlongConcat(Next(c), Whole(i), s, a, t, b);
    AlongIff(c, s, a + b, i);
  }

  lemma {:induction false} RunsOne(c: Suite, s: System, a: Action)
    requires Enabled(c, s, a)
    ensures Runs(c, s, [a]) && Reached(c, s, [a]) == Step(c, s, a)
  {
    assert [a][1..] == [];
  }

  /** Where such a run stands: one connected publisher without rekey limits, one subscriber. */
  predicate At(s: System, key: Key, log: seq<Entry>, replay: seq<SeqMsg>, n: Node, uplink: seq<Frame>, inbox: seq<Inbound>) {
    && s.pub.cipherKey == s.pub.masterKey == Some(key) && s.pub.connected && s.key == key
    && s.pub.byteLimit == 0 && s.pub.timeLimit == 0
    && s.pub.seqCounter == |log| < 10 && s.log == log && s.pub.replay == replay && |replay| <= |log|
    && s.nodes == map[0 := n] && s.uplink == uplink && s.inbox == inbox
  }

  predicate Idle(n: Node) {
    n.conn.Some? && n.conn.value.wire == [] && n.conn.value.queue == [] && n.conn.value.ready && !n.conn.value.gap
  }

  // ----- one frame on its way to the subscriber -----

  const CARRY: seq<Action> := [DoForward({}), DoWrite(0), DoReceive(0)]

  function Loaded(n: Node, wire: seq<Frame>, queue: seq<Frame>): Node
    requires n.conn.Some?
  {
    n.(conn := Some(n.conn.value.(wire := wire, queue := queue)))
  }

  lemma {:induction false} ForwardAt(c: Suite, s: System, key: Key, log: seq<Entry>, replay: seq<SeqMsg>, n: Node, f: Frame, rest: seq<Frame>, inbox: seq<Inbound>)
    requires At(s, key, log, replay, n, [f] + rest, inbox)
    requires n.conn.Some? ==> n.conn.value.queue == []
    ensures Enabled(c, s, DoForward({}))
    ensures At(Step(c, s, DoForward({})), key, log, replay, if n.conn.Some? then Loaded(n, n.conn.value.wire, [f]) else n, rest, inbox)
  {
    var s' := Step(c, s, DoForward({}));
    assert ([f] + rest)[1..] == rest;
    assert s'.nodes == map[0 := Queued(n, f, false)];
    if n.conn.Some? {
      assert n.conn.value.queue + [f] == [f];
    }
  }

  lemma {:induction false} WriteAt(c: Suite, s: System, key: Key, log: seq<Entry>, replay: seq<SeqMsg>, n: Node, f: Frame, uplink: seq<Frame>, inbox: seq<Inbound>)
    requires n.conn.Some? && At(s, key, log, replay, Loaded(n, [], [f]), uplink, inbox)
    ensures Enabled(c, s, DoWrite(0))
    ensures At(Step(c, s, DoWrite(0)), key, log, replay, Loaded(n, [f], []), uplink, inbox)
  {
    assert [] + [f] == [f] && [f][1..] == [];
    assert Step(c, s, DoWrite(0)).nodes == map[0 := Loaded(n, [f], [])];
  }

  lemma {:induction false} ReceiveAt(c: Suite, s: System, key: Key, log: seq<Entry>, replay: seq<SeqMsg>, n: Node, uplink: seq<Frame>, inbox: seq<Inbound>)
    requires At(s, key, log, replay, n, uplink, inbox)
    requires n.conn.Some? && !n.conn.value.gap && n.conn.value.wire != []
    ensures Enabled(c, s, DoReceive(0))
    ensures At(Step(c, s, DoReceive(0)), key, log, replay, Received(c, n), uplink, inbox)
  {
    assert Step(c, s, DoReceive(0)).nodes == map[0 := Received(c, n)];
  }

  lemma {:induction false} CarryAt(c: Suite, s: System, key: Key, log: seq<Entry>, replay: seq<SeqMsg>, n: Node, f: Frame, rest: seq<Frame>, inbox: seq<Inbound>)
    requires At(s, key, log, replay, n, [f] + rest, inbox)
    requires n.conn.Some? && n.conn.value.wire == [] && n.conn.value.queue == [] && !n.conn.value.gap
    ensures Runs(c, s, CARRY)
    ensures At(Reached(c, s, CARRY), key, log, replay, Received(c, Loaded(n, [f], [])), rest, inbox)
  {
    ForwardAt(c, s, key, log, replay, n, f, rest, inbox);
    var s1 := Step(c, s, DoForward({}));
    WriteAt(c, s1, key, log, replay, n, f, rest, inbox);
    var s2 := Step(c, s1, DoWrite(0));
    ReceiveAt(c, s2, key, log, replay, Loaded(n, [f], []), rest, inbox);
    RunsThree(c, s, DoForward({}), DoWrite(0), DoReceive(0));
  }

  lemma {:induction false} RunsThree(c: Suite, s: System, x: Action, y: Action, z: Action)
    requires Enabled(c, s, x) && Enabled(c, Step(c, s, x), y) && Enabled(c, Step(c, Step(c, s, x), y), z)
    ensures Runs(c, s, [x, y, z]) && Reached(c, s, [x, y, z]) == Step(c, Step(c, Step(c, s, x), y), z)
  {
    RunsOne(c, s, x);
    RunsOne(c, Step(c, s, x), y);
    RunsOne(c, Step(c, Step(c, s, x), y), z);
    RunsConcat(c, s, [x], [y]);
    RunsConcat(c, s, [x] + [y], [z]);
    assert [x] + [y] + [z] == [x, y, z];
  }

  function Message(c: Suite, key: Key, sid: SessionId, m: SeqMsg): Frame {
    Env(DataFrame(c, key, sid, m.seqNum, m.payload))
  }

  /** A message that reaches an idle subscriber is delivered if it is newer, and the subscriber is idle again. */
  lemma {:induction false} MessageArrives(c: Suite, key: Key, sid: SessionId, n: Node, m: SeqMsg)
    requires Idle(n) && n.sub.cipherKey == Some(key) && m.seqNum < TWO_64 && Sendable(m.payload)
    ensures Received(c, Loaded(n, [Message(c, key, sid, m)], [])) == n.(sub := Deliver(n.sub, m.seqNum, m.payload))
  {
    OpenDataFrame(c, key, sid, m.seqNum, m.payload);
    var f := Message(c, key, sid, m);
    assert [f][1..] == [];
  }

  // ----- connecting -----

  const CONNECT: seq<Action> := [DoJoin(0), DoServe({}, true)] + CARRY

  lemma {:induction false} HelloAt(c: Suite, s: System, key: Key, log: seq<Entry>, replay: seq<SeqMsg>, n: Node)
    requires At(s, key, log, replay, n, [], []) && !n.halted
    ensures var k := Conn(s.nextConn, [], [], false, false);
      && Enabled(c, s, DoJoin(0))
      && var s1 := Step(c, s, DoJoin(0));
        && Enabled(c, s1, DoServe({}, true))
        && At(Step(c, s1, DoServe({}, true)), key, log, replay, n.(conn := Some(k)), [Answer(s.nextConn, key)], [])
  {
    var s1 := Step(c, s, DoJoin(0));
    assert s1.nodes == map[0 := n.(conn := Some(Conn(s.nextConn, [], [], false, false)))];
    assert s1.inbox == [Hello(s.nextConn)] && s1.inbox[1..] == [];
    assert Step(c, s1, DoServe({}, true)).uplink == [Answer(s.nextConn, key)];
  }

  lemma {:induction false} ConnectAt(c: Suite, s: System, key: Key, log: seq<Entry>, replay: seq<SeqMsg>, n: Node)
    requires At(s, key, log, replay, n, [], []) && !n.halted
    ensures Runs(c, s, CONNECT)
    ensures At(Reached(c, s, CONNECT), key, log, replay,
               Node(n.sub.(cipherKey := Some(key)), Some(Conn(s.nextConn, [], [], true, false)), false), [], [])
  {
    HelloAt(c, s, key, log, replay, n);
    var s1 := Step(c, s, DoJoin(0));
    var s2 := Step(c, s1, DoServe({}, true));
    var f := Answer(s.nextConn, key);
    var n2 := n.(conn := Some(Conn(s.nextConn, [], [], false, false)));
    assert [f] + [] == [f] && [f][1..] == [];
    CarryAt(c, s2, key, log, replay, n2, f, [], []);
    RunsOne(c, s, DoJoin(0));
    RunsOne(c, s1, DoServe({}, true));
    RunsConcat(c, s, [DoJoin(0)], [DoServe({}, true)]);
    assert [DoJoin(0)] + [DoServe({}, true)] == [DoJoin(0), DoServe({}, true)];
    RunsConcat(c, s, [DoJoin(0), DoServe({}, true)], CARRY);
  }

  // ----- publishing -----

  function Publishing(p: Bytes): Action {
    DoPublish(p, Zeros(12), 0, true, true)
  }

  lemma {:induction false} PublishAt(c: Suite, s: System, key: Key, log: seq<Entry>, replay: seq<SeqMsg>, n: Node, inbox: seq<Inbound>, p: Bytes)
    requires At(s, key, log, replay, n, [], inbox) && Sendable(p) && |log| < 9
    ensures var m := SeqMsg(|log| + 1, p);
      && Enabled(c, s, Publishing(p))
      && At(Step(c, s, Publishing(p)), key, log + [Msg(p, true)], replay + [m], n, [Message(c, key, s.pub.sid, m)], inbox)
      && Step(c, s, Publishing(p)).pub.sid == s.pub.sid
  {
    var m := SeqMsg(|log| + 1, p);
    var p1 := Counted(s.pub, p);
    var o := Emit(c, p1, p, true);
    EmitShape(c, p1, p, true);
    OnWireUncut(c, key, s.pub.sid, |log| + 1, p);
    assert o.ok && o.frames == [DataFrame(c, key, s.pub.sid, |log| + 1, p)];
    WrapOne(o.frames[0]);
    assert [] + [Message(c, key, s.pub.sid, m)] == [Message(c, key, s.pub.sid, m)];
  }

  /** Publish and have it delivered. */
  function SendRun(p: Bytes): seq<Action> {
    [Publishing(p)] + CARRY
  }

  lemma {:induction false} SendAt(c: Suite, s: System, key: Key, log: seq<Entry>, replay: seq<SeqMsg>, n: Node, inbox: seq<Inbound>, p: Bytes)
    requires At(s, key, log, replay, n, [], inbox) && Sendable(p) && |log| < 9
    requires Idle(n) && n.sub.cipherKey == Some(key)
    ensures var m := SeqMsg(|log| + 1, p);
      && Runs(c, s, SendRun(p))
      && At(Reached(c, s, SendRun(p)), key, log + [Msg(p, true)], replay + [m], n.(sub := Deliver(n.sub, |log| + 1, p)), [], inbox)
  {
    var m := SeqMsg(|log| + 1, p);
    PublishAt(c, s, key, log, replay, n, inbox, p);
    var s1 := Step(c, s, Publishing(p));
    var f := Message(c, key, s.pub.sid, m);
    assert [f] + [] == [f];
    CarryAt(c, s1, key, log + [Msg(p, true)], replay + [m], n, f, [], inbox);
    MessageArrives(c, key, s.pub.sid, n, m);
    RunsOne(c, s, Publishing(p));
    RunsConcat(c, s, [Publishing(p)], CARRY);
  }

  // ----- missing a message -----

  /** The subscriber drops off, a message goes by, the subscriber comes back. */
  function MissRun(p: Bytes): seq<Action> {
    [DoDisconnect(0), Publishing(p), DoForward({})] + CONNECT
  }

  lemma {:induction false} AwayAt(c: Suite, s: System, key: Key, log: seq<Entry>, replay: seq<SeqMsg>, n: Node, p: Bytes)
    requires At(s, key, log, replay, n, [], []) && Sendable(p) && |log| < 9
    ensures var run := [DoDisconnect(0), Publishing(p), DoForward({})];
      && Runs(c, s, run)
      && At(Reached(c, s, run), key, log + [Msg(p, true)], replay + [SeqMsg(|log| + 1, p)], n.(conn := None), [], [])
  {
    var m := SeqMsg(|log| + 1, p);
    var s1 := Step(c, s, DoDisconnect(0));
    assert s1.nodes == map[0 := n.(conn := None)];
    assert At(s1, key, log, replay, n.(conn := None), [], []);
    PublishAt(c, s1, key, log, replay, n.(conn := None), [], p);
    var s2 := Step(c, s1, Publishing(p));
    var f := Message(c, key, s1.pub.sid, m);
    assert [f] + [] == [f];
    ForwardAt(c, s2, key, log + [Msg(p, true)], replay + [m], n.(conn := None), f, [], []);
    RunsThree(c, s, DoDisconnect(0), Publishing(p), DoForward({}));
  }

  lemma {:induction false} AskAt(c: Suite, s: System, key: Key, log: seq<Entry>, replay: seq<SeqMsg>, n: Node)
    requires At(s, key, log, replay, n, [], []) && Idle(n)
    ensures Enabled(c, s, DoRequestSync(0))
    ensures At(Step(c, s, DoRequestSync(0)), key, log, replay, n, [], [Sync(n.sub.lastSeq)])
  {
    assert [] + [Sync(n.sub.lastSeq)] == [Sync(n.sub.lastSeq)];
  }

  lemma {:induction false} MissAt(c: Suite, s: System, key: Key, log: seq<Entry>, replay: seq<SeqMsg>, n: Node, p: Bytes) returns (n': Node)
    requires At(s, key, log, replay, n, [], []) && Sendable(p) && |log| < 9 && Idle(n) && !n.halted && n.sub.cipherKey == Some(key)
    ensures Runs(c, s, MissRun(p)) && Idle(n') && n'.sub == n.sub && !n'.halted
    ensures At(Reached(c, s, MissRun(p)), key, log + [Msg(p, true)], replay + [SeqMsg(|log| + 1, p)], n', [], [])
  {
    var m := SeqMsg(|log| + 1, p);
    var away := [DoDisconnect(0), Publishing(p), DoForward({})];
    AwayAt(c, s, key, log, replay, n, p);
    var s1 := Reached(c, s, away);
    ConnectAt(c, s1, key, log + [Msg(p, true)], replay + [m], n.(conn := None));
    n' := Node(n.sub, Some(Conn(s1.nextConn, [], [], true, false)), false);
    RunsConcat(c, s, away, CONNECT);
  }

  // ----- serving the request -----

  lemma {:induction false} ReplayOne(c: Suite, key: Key, sid: SessionId, m: SeqMsg)
    requires Sendable(m.payload)
    ensures Wrap(Resent(c, key, sid, true, m, {})) == [Message(c, key, sid, m)]
  {
    OnWireUncut(c, key, sid, m.seqNum, m.payload);
    WrapOne(DataFrame(c, key, sid, m.seqNum, m.payload));
  }

  /** What a request for position 1 puts on the uplink when 2, or 2 and 3, are newer. */
  lemma {:induction false} ServeAt(c: Suite, s: System, key: Key, log: seq<Entry>, first: SeqMsg, items: seq<SeqMsg>, n: Node)
    requires At(s, key, log, [first] + items, n, [], [Sync(1)]) && first.seqNum == 1
    requires forall i :: 0 <= i < |items| ==> items[i].seqNum > 1
    ensures Enabled(c, s, DoServe({}, true))
    ensures At(Step(c, s, DoServe({}, true)), key, log, [first] + items, n,
               Wrap(ReplayFrames(c, key, s.pub.sid, true, items, {})), [])
    ensures Step(c, s, DoServe({}, true)).pub.sid == s.pub.sid
  {
    AfterAll(items, 1);
    assert ([first] + items)[1..] == items;
    assert ReplayLog.After([first] + items, 1) == items;
    assert [Sync(1)][1..] == [];
    var fs := Wrap(ReplayFrames(c, key, s.pub.sid, true, items, {}));
    assert [] + fs == fs;
  }

  // ----- the two runs -----

  /** A connected publisher with a fresh key and no rekey limits, and one subscriber that has not connected yet. */
  predicate Start(s: System) {
    && Initial(s) && s.pub.connected && s.pub.byteLimit == 0 && s.pub.timeLimit == 0
    && s.nodes == map[0 := Node(Subscriber(None, 0, []), None, false)]
  }

  /** The subscriber gets the first message, misses the second, and is back. */
  function MissedOne(a: Bytes, b: Bytes): seq<Action> {
    CONNECT + SendRun(a) + MissRun(b)
  }

  lemma {:induction false} SendAfter(c: Suite, s0: System, run: seq<Action>, key: Key, log: seq<Entry>, replay: seq<SeqMsg>, n: Node, inbox: seq<Inbound>, p: Bytes)
    requires Runs(c, s0, run) && At(Reached(c, s0, run), key, log, replay, n, [], inbox)
    requires Sendable(p) && |log| < 9 && Idle(n) && n.sub.cipherKey == Some(key)
    ensures Runs(c, s0, run + SendRun(p))
    ensures At(Reached(c, s0, run + SendRun(p)), key, log + [Msg(p, true)], replay + [SeqMsg(|log| + 1, p)],
               n.(sub := Deliver(n.sub, |log| + 1, p)), [], inbox)
  {
    SendAt(c, Reached(c, s0, run), key, log, replay, n, inbox, p);
    RunsConcat(c, s0, run, SendRun(p));
  }

  lemma {:induction false} MissAfter(c: Suite, s0: System, run: seq<Action>, key: Key, log: seq<Entry>, replay: seq<SeqMsg>, n: Node, p: Bytes) returns (n': Node)
    requires Runs(c, s0, run) && At(Reached(c, s0, run), key, log, replay, n, [], [])
    requires Sendable(p) && |log| < 9 && Idle(n) && !n.halted && n.sub.cipherKey == Some(key)
    ensures Runs(c, s0, run + MissRun(p)) && Idle(n') && n'.sub == n.sub && !n'.halted
    ensures At(Reached(c, s0, run + MissRun(p)), key, log + [Msg(p, true)], replay + [SeqMsg(|log| + 1, p)], n', [], [])
  {
    n' := MissAt(c, Reached(c, s0, run), key, log, replay, n, p);
    RunsConcat(c, s0, run, MissRun(p));
  }

  lemma {:induction false} FirstAt(c: Suite, s0: System, a: Bytes) returns (n: Node)
    requires Start(s0) && Sendable(a)
    ensures Runs(c, s0, CONNECT + SendRun(a)) && Idle(n) && !n.halted
    ensures n.sub == Subscriber(Some(s0.key), 1, [SeqMsg(1, a)])
    ensures At(Reached(c, s0, CONNECT + SendRun(a)), s0.key, [Msg(a, true)], [SeqMsg(1, a)], n, [], [])
  {
    ConnectAt(c, s0, s0.key, [], [], Node(Subscriber(None, 0, []), None, false));
    var n1 := Node(Subscriber(Some(s0.key), 0, []), Some(Conn(s0.nextConn, [], [], true, false)), false);
    SendAfter(c, s0, CONNECT, s0.key, [], [], n1, [], a);
    n := n1.(sub := Deliver(n1.sub, 1, a));
    assert [] + [Msg(a, true)] == [Msg(a, true)] && [] + [SeqMsg(1, a)] == [SeqMsg(1, a)];
  }

  lemma {:induction false} MissedOneAt(c: Suite, s0: System, a: Bytes, b: Bytes) returns (n: Node)
    requires Start(s0) && Sendable(a) && Sendable(b)
    ensures Runs(c, s0, MissedOne(a, b)) && Idle(n) && !n.halted
    ensures n.sub == Subscriber(Some(s0.key), 1, [SeqMsg(1, a)])
    ensures At(Reached(c, s0, MissedOne(a, b)), s0.key, [Msg(a, true), Msg(b, true)], [SeqMsg(1, a), SeqMsg(2, b)], n, [], [])
  {
    var n1 := FirstAt(c, s0, a);
    n := MissAfter(c, s0, CONNECT + SendRun(a), s0.key, [Msg(a, true)], [SeqMsg(1, a)], n1, b);
    assert [Msg(a, true)] + [Msg(b, true)] == [Msg(a, true), Msg(b, true)];
    assert [SeqMsg(1, a)] + [SeqMsg(2, b)] == [SeqMsg(1, a), SeqMsg(2, b)];
  }

  // ----- staying connected meanwhile -----

  lemma {:induction false} CarryIntact(c: Suite, s: System, key: Key, log: seq<Entry>, replay: seq<SeqMsg>, n: Node, f: Frame, rest: seq<Frame>, inbox: seq<Inbound>)
    requires At(s, key, log, replay, n, [f] + rest, inbox) && Idle(n) && Idle(Received(c, Loaded(n, [f], [])))
    ensures Runs(c, s, CARRY) && StaysIntact(c, s, CARRY, 0)
  {
    CarryAt(c, s, key, log, replay, n, f, rest, inbox);
    ForwardAt(c, s, key, log, replay, n, f, rest, inbox);
    var s1 := Step(c, s, DoForward({}));
    WriteAt(c, s1, key, log, replay, n, f, rest, inbox);
    var s2 := Step(c, s1, DoWrite(0));
    ReceiveAt(c, s2, key, log, replay, Loaded(n, [f], []), rest, inbox);
    IntactThree(c, s, DoForward({}), DoWrite(0), DoReceive(0));
  }

  lemma {:induction false} SendIntact(c: Suite, s: System, key: Key, log: seq<Entry>, replay: seq<SeqMsg>, n: Node, inbox: seq<Inbound>, p: Bytes)
    requires At(s, key, log, replay, n, [], inbox) && Sendable(p) && |log| < 9
    requires Idle(n) && n.sub.cipherKey == Some(key)
    ensures Runs(c, s, SendRun(p)) && StaysIntact(c, s, SendRun(p), 0)
  {
    var m := SeqMsg(|log| + 1, p);
    PublishAt(c, s, key, log, replay, n, inbox, p);
    var s1 := Step(c, s, Publishing(p));
    var f := Message(c, key, s.pub.sid, m);
    assert [f] + [] == [f];
    MessageArrives(c, key, s.pub.sid, n, m);
    CarryIntact(c, s1, key, log + [Msg(p, true)], replay + [m], n, f, [], inbox);
    RunsOne(c, s, Publishing(p));
    IntactCons(c, s, [Publishing(p)], [], s1);
    IntactConcat(c, s, [Publishing(p)], CARRY, 0);
  }

  lemma {:induction false} IntactThree(c: Suite, s: System, x: Action, y: Action, z: Action)
    requires Enabled(c, s, x) && Enabled(c, Step(c, s, x), y) && Enabled(c, Step(c, Step(c, s, x), y), z)
    requires 0 in s.nodes && Intact(s.nodes[0])
    requires 0 in Step(c, s, x).nodes && Intact(Step(c, s, x).nodes[0])
    requires 0 in Step(c, Step(c, s, x), y).nodes && Intact(Step(c, Step(c, s, x), y).nodes[0])
    requires 0 in Step(c, Step(c, Step(c, s, x), y), z).nodes && Intact(Step(c, Step(c, Step(c, s, x), y), z).nodes[0])
    ensures Runs(c, s, [x, y, z]) && StaysIntact(c, s, [x, y, z], 0)
  {
    RunsThree(c, s, x, y, z);
    var s1 := Step(c, s, x);
    var s2 := Step(c, s1, y);
    RunsOne(c, s2, z);
    IntactCons(c, s2, [z], [], Step(c, s2, z));
    IntactCons(c, s1, [y, z], [z], s2);
    IntactCons(c, s, [x, y, z], [y, z], s1);
  }

  lemma {:induction false} IntactCons(c: Suite, s: System, run: seq<Action>, rest: seq<Action>, s1: System)
    requires run != [] && rest == run[1..] && 0 in s.nodes && Intact(s.nodes[0])
    requires Enabled(c, s, run[0]) && s1 == Step(c, s, run[0]) && Runs(c, s1, rest)
    requires if rest == [] then 0 in s1.nodes && Intact(s1.nodes[0]) else StaysIntact(c, s1, rest, 0)
    ensures Runs(c, s, run) && StaysIntact(c, s, run, 0)
  {
  }

  lemma {:induction false} ReplayFramesOf(c: Suite, key: Key, sid: SessionId, m: SeqMsg, items: seq<SeqMsg>)
    requires Sendable(m.payload)
    ensures Wrap(ReplayFrames(c, key, sid, true, [m] + items, {}))
         == [Message(c, key, sid, m)] + Wrap(ReplayFrames(c, key, sid, true, items, {}))
  {
    ReplayOne(c, key, sid, m);
    assert ([m] + items)[1..] == items;
    var x, y := Resent(c, key, sid, true, m, {}), ReplayFrames(c, key, sid, true, items, {});
    assert Wrap(x + y) == Wrap(x) + Wrap(y);
  }

  // ----- the replay comes first: catch-up -----

  /** Served at once, the request brings the missed message: the premises of both catch-up theorems are met, nothing
      overtakes, and the subscriber ends up with both messages. */
  lemma {:induction false} CatchUpHappens(c: Suite, s0: System, a: Bytes, b: Bytes)
    requires Start(s0) && Sendable(a) && Sendable(b)
    ensures Runs(c, s0, MissedOne(a, b))
    ensures var s := Reached(c, s0, MissedOne(a, b));
      && Waited(c, s, [], 0)
      && var t := AtService(c, s, [], 0);
        && ReadyToServe(t, 0) && ServedAndDrained(c, t, true, CARRY, 0)
        && NothingOvertakes(c, s, [], 0, 0)
        && t.nodes[0].sub.delivered == [SeqMsg(1, a)]
        && Reached(c, Step(c, t, DoServe({}, true)), CARRY).nodes[0].sub.delivered == [SeqMsg(1, a), SeqMsg(2, b)]
  {
    var n := MissedOneAt(c, s0, a, b);
    var s := Reached(c, s0, MissedOne(a, b));
    AskAt(c, s, s0.key, [Msg(a, true), Msg(b, true)], [SeqMsg(1, a), SeqMsg(2, b)], n);
    var t := Step(c, s, DoRequestSync(0));
    ServedRun(c, t, s0.key, a, b, n);
    var read := Arrived(c, t, [], 0) + Numbers(Path(t.nodes[0].conn.value, t.uplink));
    assert read == [];
  }

  lemma {:induction false} ServedRun(c: Suite, s: System, key: Key, a: Bytes, b: Bytes, n: Node)
    requires Sendable(a) && Sendable(b) && Idle(n) && n.sub == Subscriber(Some(key), 1, [SeqMsg(1, a)])
    requires At(s, key, [Msg(a, true), Msg(b, true)], [SeqMsg(1, a), SeqMsg(2, b)], n, [], [Sync(1)])
    ensures ReadyToServe(s, 0) && ServedAndDrained(c, s, true, CARRY, 0)
    ensures Reached(c, Step(c, s, DoServe({}, true)), CARRY).nodes[0].sub.delivered == [SeqMsg(1, a), SeqMsg(2, b)]
  {
    var log, m1, m2 := [Msg(a, true), Msg(b, true)], SeqMsg(1, a), SeqMsg(2, b);
    assert ReadyToServe(s, 0);
    assert [m1, m2] == [m1] + [m2];
    ServeAt(c, s, key, log, m1, [m2], n);
    var s1 := Step(c, s, DoServe({}, true));
    var f := Message(c, key, s.pub.sid, m2);
    assert [m2] == [m2] + [];
    ReplayFramesOf(c, key, s.pub.sid, m2, []);
    WrapOne(f.e);
    assert s1.uplink == [f] + [];
    MessageArrives(c, key, s.pub.sid, n, m2);
    CarryAt(c, s1, key, log, [m1] + [m2], n, f, [], []);
    CarryIntact(c, s1, key, log, [m1] + [m2], n, f, [], []);
    assert [m1] + [m2] == [m1, m2];
  }

  // ----- a live frame comes first: a message is lost -----

  lemma {:induction false} ServeBoth(c: Suite, s: System, key: Key, a: Bytes, b: Bytes, d: Bytes, n: Node)
    requires Sendable(b) && Sendable(d)
    requires At(s, key, [Msg(a, true), Msg(b, true), Msg(d, true)], [SeqMsg(1, a), SeqMsg(2, b), SeqMsg(3, d)], n, [], [Sync(1)])
    ensures Enabled(c, s, DoServe({}, true))
    ensures At(Step(c, s, DoServe({}, true)), key, [Msg(a, true), Msg(b, true), Msg(d, true)],
               [SeqMsg(1, a), SeqMsg(2, b), SeqMsg(3, d)], n,
               [Message(c, key, s.pub.sid, SeqMsg(2, b))] + ([Message(c, key, s.pub.sid, SeqMsg(3, d))] + []), [])
  {
    var m1, m2, m3 := SeqMsg(1, a), SeqMsg(2, b), SeqMsg(3, d);
    assert [m1, m2, m3] == [m1] + [m2, m3] && [m2, m3] == [m2] + [m3] && [m3] == [m3] + [];
    ServeAt(c, s, key, [Msg(a, true), Msg(b, true), Msg(d, true)], m1, [m2, m3], n);
    ReplayFramesOf(c, key, s.pub.sid, m2, [m3]);
    ReplayFramesOf(c, key, s.pub.sid, m3, []);
  }

  /** The subscriber has asked from its position, and `wait` has led to a state in which that is the next request. */
  lemma {:induction false} AskedAndWaited(c: Suite, s: System, wait: seq<Action>, key: Key, log: seq<Entry>, replay: seq<SeqMsg>, n: Node, l: nat)
    requires Enabled(c, s, DoRequestSync(0)) && Intact(s.nodes[0]) && 0 < l == s.nodes[0].sub.lastSeq && !Overflow(replay, l)
    requires Runs(c, Step(c, s, DoRequestSync(0)), wait) && StaysIntact(c, Step(c, s, DoRequestSync(0)), wait, 0)
    requires At(Reached(c, Step(c, s, DoRequestSync(0)), wait), key, log, replay, n, [], [Sync(l)])
    ensures Waited(c, s, wait, 0) && At(AtService(c, s, wait, 0), key, log, replay, n, [], [Sync(l)])
  {
  }

  /** A message is published and read, with what is known afterwards given in full. */
  lemma {:induction false} SendAs(c: Suite, s: System, key: Key, log: seq<Entry>, replay: seq<SeqMsg>, n: Node, inbox: seq<Inbound>, p: Bytes,
                                  log': seq<Entry>, replay': seq<SeqMsg>, n': Node)
    requires At(s, key, log, replay, n, [], inbox) && Sendable(p) && |log| < 9 && Idle(n) && n.sub.cipherKey == Some(key)
    requires log' == log + [Msg(p, true)] && replay' == replay + [SeqMsg(|log| + 1, p)]
    requires n' == n.(sub := Deliver(n.sub, |log| + 1, p))
    ensures Runs(c, s, SendRun(p)) && StaysIntact(c, s, SendRun(p), 0)
    ensures At(Reached(c, s, SendRun(p)), key, log', replay', n', [], inbox)
  {
    SendAt(c, s, key, log, replay, n, inbox, p);
    SendIntact(c, s, key, log, replay, n, inbox, p);
  }

  lemma {:induction false} OneAndOne<T>(a: T, b: T)
    ensures [a] + [b] == [a, b]
  {
  }

  lemma {:induction false} TwoAndOne<T>(a: T, b: T, d: T)
    ensures [a, b] + [d] == [a, b, d]
  {
  }

  /** The third message is published and read while the request for the second is on its way. */
  lemma {:induction false} OvertakenSend(c: Suite, s: System, key: Key, a: Bytes, b: Bytes, d: Bytes, n: Node) returns (n': Node)
    requires Sendable(d) && Idle(n) && n.sub == Subscriber(Some(key), 1, [SeqMsg(1, a)])
    requires At(s, key, [Msg(a, true), Msg(b, true)], [SeqMsg(1, a), SeqMsg(2, b)], n, [], [Sync(1)])
    ensures Runs(c, s, SendRun(d)) && StaysIntact(c, s, SendRun(d), 0) && Idle(n')
    ensures n'.sub == Subscriber(Some(key), 3, [SeqMsg(1, a), SeqMsg(3, d)])
    ensures At(Reached(c, s, SendRun(d)), key, [Msg(a, true), Msg(b, true), Msg(d, true)],
               [SeqMsg(1, a), SeqMsg(2, b), SeqMsg(3, d)], n', [], [Sync(1)])
  {
    n' := n.(sub := Deliver(n.sub, 3, d));
    OneAndOne(SeqMsg(1, a), SeqMsg(3, d));
    TwoAndOne(Msg(a, true), Msg(b, true), Msg(d, true));
    TwoAndOne(SeqMsg(1, a), SeqMsg(2, b), SeqMsg(3, d));
    SendAs(c, s, key, [Msg(a, true), Msg(b, true)], [SeqMsg(1, a), SeqMsg(2, b)], n, [Sync(1)], d,
           [Msg(a, true), Msg(b, true), Msg(d, true)], [SeqMsg(1, a), SeqMsg(2, b), SeqMsg(3, d)], n');
  }

  lemma {:induction false} OvertakenAt(c: Suite, s: System, key: Key, a: Bytes, b: Bytes, d: Bytes, n: Node) returns (n': Node)
    requires Sendable(d) && Idle(n) && n.sub == Subscriber(Some(key), 1, [SeqMsg(1, a)])
    requires At(s, key, [Msg(a, true), Msg(b, true)], [SeqMsg(1, a), SeqMsg(2, b)], n, [], [])
    ensures Waited(c, s, SendRun(d), 0) && Idle(n')
    ensures n'.sub == Subscriber(Some(key), 3, [SeqMsg(1, a), SeqMsg(3, d)])
    ensures At(AtService(c, s, SendRun(d), 0), key, [Msg(a, true), Msg(b, true), Msg(d, true)],
               [SeqMsg(1, a), SeqMsg(2, b), SeqMsg(3, d)], n', [], [Sync(1)])
  {
    AskAt(c, s, key, [Msg(a, true), Msg(b, true)], [SeqMsg(1, a), SeqMsg(2, b)], n);
    n' := OvertakenSend(c, Step(c, s, DoRequestSync(0)), key, a, b, d, n);
    AskedAndWaited(c, s, SendRun(d), key, [Msg(a, true), Msg(b, true), Msg(d, true)],
                   [SeqMsg(1, a), SeqMsg(2, b), SeqMsg(3, d)], n', 1);
  }

  /** The replay of 2 and 3 arrives and changes nothing. */
  lemma {:induction false} Aftermath(c: Suite, s: System, key: Key, a: Bytes, b: Bytes, d: Bytes, n: Node)
    requires Sendable(b) && Sendable(d) && Idle(n) && n.sub == Subscriber(Some(key), 3, [SeqMsg(1, a), SeqMsg(3, d)])
    requires At(s, key, [Msg(a, true), Msg(b, true), Msg(d, true)], [SeqMsg(1, a), SeqMsg(2, b), SeqMsg(3, d)], n, [], [Sync(1)])
    ensures ServedAndDrained(c, s, true, CARRY + CARRY, 0)
    ensures At(Reached(c, Step(c, s, DoServe({}, true)), CARRY + CARRY), key, [Msg(a, true), Msg(b, true), Msg(d, true)],
               [SeqMsg(1, a), SeqMsg(2, b), SeqMsg(3, d)], n, [], [])
  {
    var log, replay := [Msg(a, true), Msg(b, true), Msg(d, true)], [SeqMsg(1, a), SeqMsg(2, b), SeqMsg(3, d)];
    var m2, m3 := SeqMsg(2, b), SeqMsg(3, d);
    var sid := s.pub.sid;
    ServeBoth(c, s, key, a, b, d, n);
    var s1 := Step(c, s, DoServe({}, true));
    var f2, f3 := Message(c, key, sid, m2), Message(c, key, sid, m3);
    MessageArrives(c, key, sid, n, m2);
    MessageArrives(c, key, sid, n, m3);
    CarryAt(c, s1, key, log, replay, n, f2, [f3] + [], []);
    CarryIntact(c, s1, key, log, replay, n, f2, [f3] + [], []);
    var s2 := Reached(c, s1, CARRY);
    CarryAt(c, s2, key, log, replay, n, f3, [], []);
    CarryIntact(c, s2, key, log, replay, n, f3, [], []);
    RunsConcat(c, s1, CARRY, CARRY);
    IntactConcat(c, s1, CARRY, CARRY, 0);
  }

  lemma {:induction false} OvertakenEnd(c: Suite, s0: System, before: seq<Action>, wait: seq<Action>, after: seq<Action>, a: Bytes, b: Bytes, d: Bytes, n: Node)
    requires Initial(s0) && Runs(c, s0, before)
    requires Waited(c, Reached(c, s0, before), wait, 0) && Reached(c, s0, before).nodes[0].sub.lastSeq == 1
    requires ServedAndDrained(c, AtService(c, Reached(c, s0, before), wait, 0), true, after, 0)
    requires At(Reached(c, Step(c, AtService(c, Reached(c, s0, before), wait, 0), DoServe({}, true)), after), s0.key,
                [Msg(a, true), Msg(b, true), Msg(d, true)], [SeqMsg(1, a), SeqMsg(2, b), SeqMsg(3, d)], n, [], [])
    requires n.sub.delivered == [SeqMsg(1, a), SeqMsg(3, d)]
    ensures var s := Reached(c, s0, before);
      var t := AtService(c, s, wait, 0);
      var u := Reached(c, Step(c, t, DoServe({}, true)), after);
      && 0 in t.nodes && t.nodes[0].conn.Some? && !NothingOvertakes(c, s, wait, 0, 0)
      && Due(u.log, 0, 2) && u.log[1].payload == b
      && u.nodes[0].sub.delivered == [SeqMsg(1, a), SeqMsg(3, d)]
  {
    MissingWasOvertaken(c, s0, before, wait, true, after, 0, 2, 0);
  }

  /** Without the side condition catch-up fails, for every suite and all payloads. The subscriber asked from position 1, no
      overflow is reported, the request is served and everything in flight has arrived, and yet message 2, which the
      publisher reported as sent, is not delivered: message 3, read while the request was on its way, overtook it. */
  lemma {:induction false} OvertakenRun(c: Suite, s0: System, a: Bytes, b: Bytes, d: Bytes)
    requires Start(s0) && Sendable(a) && Sendable(b) && Sendable(d)
    ensures Runs(c, s0, MissedOne(a, b))
    ensures var s := Reached(c, s0, MissedOne(a, b));
      && Waited(c, s, SendRun(d), 0) && s.nodes[0].sub.lastSeq == 1
      && var t := AtService(c, s, SendRun(d), 0);
        && ServedAndDrained(c, t, true, CARRY + CARRY, 0)
        && !NothingOvertakes(c, s, SendRun(d), 0, 0)
        && var u := Reached(c, Step(c, t, DoServe({}, true)), CARRY + CARRY);
          && Due(u.log, 0, 2) && u.log[1].payload == b
          && u.nodes[0].sub.delivered == [SeqMsg(1, a), SeqMsg(3, d)]
  {
    var n := MissedOneAt(c, s0, a, b);
    var s := Reached(c, s0, MissedOne(a, b));
    var n' := OvertakenAt(c, s, s0.key, a, b, d, n);
    var t := AtService(c, s, SendRun(d), 0);
    Aftermath(c, t, s0.key, a, b, d, n');
    OvertakenEnd(c, s0, MissedOne(a, b), SendRun(d), CARRY + CARRY, a, b, d, n');
  }
}
