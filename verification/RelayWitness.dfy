/**
 Two complete runs of the relay that show what it does not promise: the reaper can disconnect a subscriber that has just
 registered, and two publishers can forward to the same subscriber at the same time.
 */
module RelayWitness {
  import opened Wrappers
  import opened Chains
  import opened EnvelopeCodec
  import opened SubscriberKeys
  import opened Sessions
  import opened RelayRuns
  import opened RelaySafety
  import opened Reaper

  const Start := Relay([], map[], [], {}, {}, 0, 0, 0, None)

  function Next(): (Relay, Action) -> Option<Relay> {
    (s, a) => if Enabled(s, a) then Some(Step(s, a)) else None
  }

  /** The run leads from s to t. */
  predicate Goes(s: Relay, run: seq<Action>, t: Relay) {
    Runs(s, run) && Reached(s, run) == t
  }

  lemma {:induction false} LeadsIffGoes(s: Relay, run: seq<Action>, t: Relay)
    ensures Leads(Next(), s, run, t) <==> Goes(s, run, t)
    decreases |run|
  {
    if run != [] && Enabled(s, run[0]) {
      LeadsIffGoes(Step(s, run[0]), run[1..], t);
    }
  }

  lemma {:induction false} Then(s: Relay, run: seq<Action>, t: Relay, a: Action, u: Relay)
    requires Goes(s, run, t) && Enabled(t, a) && Step(t, a) == u
    ensures Goes(s, run + [a], u)
  {
    assert [a][1..] == [];
    LeadsIffGoes(s, run, t);
    LeadsIffGoes(t, [a], u);
    LeadsConcat(Next(), s, run, t, [a], u);
    LeadsIffGoes(s, run + [a], u);
  }

  lemma {:induction false} Nothing(s: Relay)
    ensures Goes(s, [], s)
  {
  }

  // ----- the reaper and a newcomer -----

  /** A session that was created at time 0 and the handlers at work on it. */
  function OneSession(e: Envelope, subscribers: map<string, nat>, hs: seq<Handler>, letting: set<nat>, serial: nat): (s: Relay) {
    Relay([Session(e.sessionId, 0, false, None, subscribers)], map[e.sessionId := 0], hs, {}, letting, 1, 0, serial, None)
  }

  const Key := SubscriberKey("", 1)

  function Registered(e: Envelope, phase: Phase, done: bool): (h: Handler) {
    Handler(AsSubscriber, e, phase, done, [], Some(0), Some(("", 1)))
  }

  function Arriving(e: Envelope): (h: Handler) {
    Handler(AsSubscriber, e, Opening(0), false, [], None, None)
  }

  /** Subscriber 0 joins at time 0 and leaves; 40 seconds later subscriber 1 is given the same session. */
  function StaleRun(e: Envelope): (run: seq<Action>) {
    [First(e, 0)] + [Register(0, "")] + [LookUp(0, e)] + [SendUp(0, false)] + [HangUp(0)] + [RemoveOwn(0)]
    + [CloseRemoved(0)] + [First(e, 40)]
  }

  function Stale(e: Envelope): (s: Relay) {
    OneSession(e, map[], [Registered(e, Left(0), true), Arriving(e)], {}, 1)
  }

  lemma {:induction false} Joins(e: Envelope)
    requires e.msgType == PAKE_INIT_SUB
    ensures Goes(Start, [First(e, 0)] + [Register(0, "")], OneSession(e, map[Key := 0], [Registered(e, Joined(0, Key), false)], {}, 1))
  {
    Nothing(Start);
    var s1 := OneSession(e, map[], [Arriving(e)], {}, 0);
    Then(Start, [], Start, First(e, 0), s1);
    assert [] + [First(e, 0)] == [First(e, 0)];
    Then(Start, [First(e, 0)], s1, Register(0, ""), OneSession(e, map[Key := 0], [Registered(e, Joined(0, Key), false)], {}, 1));
  }

  lemma {:induction false} Talks(e: Envelope)
    requires e.msgType == PAKE_INIT_SUB
    ensures Goes(Start, [First(e, 0)] + [Register(0, "")] + [LookUp(0, e)] + [SendUp(0, false)],
                 OneSession(e, map[Key := 0], [Registered(e, Listening(0, Key), false)], {}, 1))
  {
    Joins(e);
    var run := [First(e, 0)] + [Register(0, "")];
    var s2 := OneSession(e, map[Key := 0], [Registered(e, Joined(0, Key), false)], {}, 1);
    var s3 := OneSession(e, map[Key := 0], [Registered(e, Asking(0, Key, e, None), false)], {}, 1);
    Then(Start, run, s2, LookUp(0, e), s3);
    Then(Start, run + [LookUp(0, e)], s3, SendUp(0, false), OneSession(e, map[Key := 0], [Registered(e, Listening(0, Key), false)], {}, 1));
  }

  lemma {:induction false} Leaves(e: Envelope)
    requires e.msgType == PAKE_INIT_SUB
    ensures Goes(Start, StaleRun(e), Stale(e))
  {
    Talks(e);
    var run := [First(e, 0)] + [Register(0, "")] + [LookUp(0, e)] + [SendUp(0, false)];
    var s4 := OneSession(e, map[Key := 0], [Registered(e, Listening(0, Key), false)], {}, 1);
    var s5 := OneSession(e, map[Key := 0], [Registered(e, Leaving(0, Key), false)], {}, 1);
    var s6 := OneSession(e, map[], [Registered(e, Left(0), false)], {0}, 1);
    var s7 := OneSession(e, map[], [Registered(e, Left(0), true)], {}, 1);
    Then(Start, run, s4, HangUp(0), s5);
    Removes(e, s5, s6, s7);
    Then(Start, run + [HangUp(0)], s5, RemoveOwn(0), s6);
    Then(Start, run + [HangUp(0)] + [RemoveOwn(0)], s6, CloseRemoved(0), s7);
    Then(Start, run + [HangUp(0)] + [RemoveOwn(0)] + [CloseRemoved(0)], s7, First(e, 40), Stale(e));
  }

  lemma {:induction false} Removes(e: Envelope, s: Relay, t: Relay, u: Relay)
    requires s == OneSession(e, map[Key := 0], [Registered(e, Leaving(0, Key), false)], {}, 1)
    requires t == OneSession(e, map[], [Registered(e, Left(0), false)], {0}, 1)
    requires u == OneSession(e, map[], [Registered(e, Left(0), true)], {}, 1)
    ensures Enabled(s, RemoveOwn(0)) && Step(s, RemoveOwn(0)) == t
    ensures Enabled(t, CloseRemoved(0)) && Step(t, CloseRemoved(0)) == u
  {
    assert map[Key := 0] - {Key} == map[];
    assert CloseConns(t.hs, {0}) == [t.hs[0].(done := true)];
  }

  /** The reaper finds the session empty and 40 seconds old; subscriber 1, which has held it since before, registers; the
      close disconnects it. */
  lemma {:induction false} ReaperDisconnects(e: Envelope)
    requires e.msgType == PAKE_INIT_SUB
    ensures Runs(Start, StaleRun(e)) && Reached(Start, StaleRun(e)) == Stale(e)
    ensures Reaps(Stale(e), e.sessionId, 40, [Register(1, "")])
    ensures var u := AtClose(Stale(e), e.sessionId, 40, [Register(1, "")]);
      Enabled(u, ReapClose) && Disconnects(u, Step(u, ReapClose), 1) && u.hs[1].phase.Joined?
  {
    Leaves(e);
    InitialInv(Start);
    RunInv(Start, StaleRun(e));
    HolderIsDisconnected(Stale(e), e.sessionId, 40, 1);
    OneStep(Step(Stale(e), ReapTest(e.sessionId, 40)), Register(1, ""));
  }

  // ----- two publishers at once -----

  function Pub(p: Envelope, phase: Phase, done: bool, home: Option<nat>): (h: Handler) {
    Handler(AsPublisher, p, phase, done, [], home, None)
  }

  /** The session while it is in the table. */
  function Filed(id: SessionId, publisher: Option<nat>, hs: seq<Handler>): (s: Relay) {
    Relay([Session(id, 0, false, publisher, map[])], map[id := 0], hs, {}, {}, 1, 0, 0, None)
  }

  /** The session after CloseAll has closed it. */
  function Shutdown(id: SessionId, publisher: Option<nat>, subscribers: map<string, nat>, hs: seq<Handler>, serial: nat): (s: Relay) {
    Relay([Session(id, 0, true, publisher, subscribers)], map[], hs, {}, {}, 1, 1, serial, None)
  }

  /** Two publishers and a subscriber are given the same session. */
  function ThreeArrive(p: Envelope, e: Envelope): (run: seq<Action>) {
    [First(p, 0)] + [First(p, 0)] + [First(e, 0)]
  }

  lemma {:induction false} Arrive(p: Envelope, e: Envelope)
    requires p.msgType == PAKE_INIT_PUB && e.msgType == PAKE_INIT_SUB && e.sessionId == p.sessionId
    ensures var o := Pub(p, Opening(0), false, None);
      Goes(Start, ThreeArrive(p, e), Filed(p.sessionId, None, [o, o, Arriving(e)]))
  {
    var o := Pub(p, Opening(0), false, None);
    var id := p.sessionId;
    Nothing(Start);
    Then(Start, [], Start, First(p, 0), Filed(id, None, [o]));
    assert [] + [First(p, 0)] == [First(p, 0)];
    Then(Start, [First(p, 0)], Filed(id, None, [o]), First(p, 0), Filed(id, None, [o, o]));
    Then(Start, [First(p, 0)] + [First(p, 0)], Filed(id, None, [o, o]), First(e, 0), Filed(id, None, [o, o, Arriving(e)]));
  }

  lemma {:induction false} Reads(p: Envelope, e: Envelope)
    requires p.msgType == PAKE_INIT_PUB && e.msgType == PAKE_INIT_SUB && e.sessionId == p.sessionId
    ensures var o := Pub(p, Opening(0), false, None);
      Goes(Start, ThreeArrive(p, e) + [Register(0, "")] + [Greeted(0)],
           Filed(p.sessionId, Some(0), [Pub(p, Reading(0), false, Some(0)), o, Arriving(e)]))
  {
    Arrive(p, e);
    var o := Pub(p, Opening(0), false, None);
    var id := p.sessionId;
    var run := ThreeArrive(p, e);
    var s4 := Filed(id, Some(0), [Pub(p, Greeting(0), false, Some(0)), o, Arriving(e)]);
    var s5 := Filed(id, Some(0), [Pub(p, Reading(0), false, Some(0)), o, Arriving(e)]);
    Then(Start, run, Filed(id, None, [o, o, Arriving(e)]), Register(0, ""), s4);
    Then(Start, run + [Register(0, "")], s4, Greeted(0), s5);
  }

  lemma {:induction false} Discards(p: Envelope, e: Envelope)
    requires p.msgType == PAKE_INIT_PUB && e.msgType == PAKE_INIT_SUB && e.sessionId == p.sessionId
    ensures var s := Filed(p.sessionId, Some(0), [Pub(p, Reading(0), false, Some(0)), Pub(p, Opening(0), false, None), Arriving(e)]);
      && Enabled(s, Discard(p.sessionId))
      && Step(s, Discard(p.sessionId)) == Shutdown(p.sessionId, None, map[],
           [Pub(p, Reading(0), true, Some(0)), Pub(p, Opening(0), false, None), Arriving(e)], 0)
  {
    var s := Filed(p.sessionId, Some(0), [Pub(p, Reading(0), false, Some(0)), Pub(p, Opening(0), false, None), Arriving(e)]);
    assert Members(s.heap[0]) == {0};
    assert CloseConns(s.hs, {0}) == [Pub(p, Reading(0), true, Some(0)), Pub(p, Opening(0), false, None), Arriving(e)];
    assert s.table - {p.sessionId} == map[];
  }

  /** The second publisher and the subscriber register in the closed session, which they already held. */
  function OverlapRun(p: Envelope, e: Envelope, f: Envelope, g: Envelope): (run: seq<Action>) {
    ThreeArrive(p, e) + [Register(0, "")] + [Greeted(0)] + [Discard(p.sessionId)]
    + [Register(1, "")] + [Register(2, "")] + [Greeted(1)] + [Forward(0, f)] + [Forward(1, g)]
  }

  lemma {:induction false} Rejoin(p: Envelope, e: Envelope, run: seq<Action>)
    requires Goes(Start, run, Shutdown(p.sessionId, None, map[],
           [Pub(p, Reading(0), true, Some(0)), Pub(p, Opening(0), false, None), Arriving(e)], 0))
    ensures Goes(Start, run + [Register(1, "")] + [Register(2, "")] + [Greeted(1)], Shutdown(p.sessionId, Some(1), map[Key := 2],
           [Pub(p, Reading(0), true, Some(0)), Pub(p, Reading(0), false, Some(0)), Registered(e, Joined(0, Key), false)], 1))
  {
    var id := p.sessionId;
    var h0 := Pub(p, Reading(0), true, Some(0));
    var s6 := Shutdown(id, None, map[], [h0, Pub(p, Opening(0), false, None), Arriving(e)], 0);
    var s7 := Shutdown(id, Some(1), map[], [h0, Pub(p, Greeting(0), false, Some(0)), Arriving(e)], 0);
    var s8 := Shutdown(id, Some(1), map[Key := 2], [h0, Pub(p, Greeting(0), false, Some(0)), Registered(e, Joined(0, Key), false)], 1);
    var s9 := Shutdown(id, Some(1), map[Key := 2], [h0, Pub(p, Reading(0), false, Some(0)), Registered(e, Joined(0, Key), false)], 1);
    Then(Start, run, s6, Register(1, ""), s7);
    Then(Start, run + [Register(1, "")], s7, Register(2, ""), s8);
    Then(Start, run + [Register(1, "")] + [Register(2, "")], s8, Greeted(1), s9);
  }

  lemma {:induction false} BothForward(p: Envelope, e: Envelope, f: Envelope, g: Envelope, run: seq<Action>)
    requires Goes(Start, run, Shutdown(p.sessionId, Some(1), map[Key := 2],
           [Pub(p, Reading(0), true, Some(0)), Pub(p, Reading(0), false, Some(0)), Registered(e, Joined(0, Key), false)], 1))
    ensures Goes(Start, run + [Forward(0, f)] + [Forward(1, g)], Shutdown(p.sessionId, Some(1), map[Key := 2],
           [Pub(p, Sending(0, f, map[Key := 2]), true, Some(0)), Pub(p, Sending(0, g, map[Key := 2]), false, Some(0)),
            Registered(e, Joined(0, Key), false)], 1))
  {
    var id := p.sessionId;
    var h2 := Registered(e, Joined(0, Key), false);
    var m := map[Key := 2];
    var s9 := Shutdown(id, Some(1), m, [Pub(p, Reading(0), true, Some(0)), Pub(p, Reading(0), false, Some(0)), h2], 1);
    var t := Shutdown(id, Some(1), m, [Pub(p, Sending(0, f, m), true, Some(0)), Pub(p, Reading(0), false, Some(0)), h2], 1);
    var u := Shutdown(id, Some(1), m, [Pub(p, Sending(0, f, m), true, Some(0)), Pub(p, Sending(0, g, m), false, Some(0)), h2], 1);
    Then(Start, run, s9, Forward(0, f), t);
    Then(Start, run + [Forward(0, f)], t, Forward(1, g), u);
  }

  /** Once a session has been closed, two publishers can be forwarding to the same subscriber of it: a handler that had read
      its frame before the close, and one that registered after it. Either may offer its frame first. */
  lemma {:induction false} OverlapHappens(p: Envelope, e: Envelope, f: Envelope, g: Envelope)
    requires p.msgType == PAKE_INIT_PUB && e.msgType == PAKE_INIT_SUB && e.sessionId == p.sessionId
    ensures Runs(Start, OverlapRun(p, e, f, g))
    ensures var s := Reached(Start, OverlapRun(p, e, f, g));
      && |s.hs| == 3 && s.hs[0].phase == Sending(0, f, map[Key := 2]) && s.hs[1].phase == Sending(0, g, map[Key := 2])
      && Enabled(s, Offer(0, Key, true)) && Enabled(s, Offer(1, Key, true))
  {
    Reads(p, e);
    Discards(p, e);
    var run := ThreeArrive(p, e) + [Register(0, "")] + [Greeted(0)];
    var o := Pub(p, Opening(0), false, None);
    Then(Start, run, Filed(p.sessionId, Some(0), [Pub(p, Reading(0), false, Some(0)), o, Arriving(e)]), Discard(p.sessionId),
         Shutdown(p.sessionId, None, map[], [Pub(p, Reading(0), true, Some(0)), o, Arriving(e)], 0));
    Rejoin(p, e, run + [Discard(p.sessionId)]);
    BothForward(p, e, f, g, run + [Discard(p.sessionId)] + [Register(1, "")] + [Register(2, "")] + [Greeted(1)]);
  }
}
