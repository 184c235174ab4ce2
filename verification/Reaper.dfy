/**
 Whom a removal disconnects (pkg/relay/server.go). The reaper holds the table's lock from the test of a session to its
 close, so nobody new can look the session up; but it does not hold the session's lock, so a handler that already has the
 session can register in between, and is then closed with it. The end of a handler removes by id.
 */
module Reaper {
  import opened Wrappers
  import opened EnvelopeCodec
  import opened Sessions
  import opened RelayRuns
  import opened RelaySafety

  /** The reaper, having tested a session, has not closed it yet. */
  predicate NotYet(run: seq<Action>) {
    forall i :: 0 <= i < |run| ==> !run[i].ReapClose?
  }

  // ----- what a step does to one handler -----

  /** Connection h before and after a step: it stays closed, stays registered, and registers only in the session it holds. */
  predicate Follows(x: Handler, y: Handler) {
    && (x.done ==> y.done)
    && (y.phase.Opening? ==> y.phase == x.phase)
    && (x.home.Some? ==> y.home == x.home)
    && (y.home.Some? ==> y.home == x.home || x.phase == Opening(y.home.value))
  }

  predicate AllFollow(s: Relay, t: Relay) {
    && |s.hs| <= |t.hs| && (forall h :: 0 <= h < |s.hs| ==> Follows(s.hs[h], t.hs[h]))
    && (forall h :: h in s.letting && h < |s.hs| ==> h in t.letting || t.hs[h].done)
  }

  /** The table is as it was, and who has come since then has no session. */
  predicate Since(s: Relay, t: Relay) {
    && AllFollow(s, t) && t.table == s.table && t.doomed == s.doomed
    && forall h :: |s.hs| <= h < |t.hs| ==> !t.hs[h].phase.Opening? && t.hs[h].home.None?
  }

  lemma {:induction false} RemoveFollows(s: Relay, r: nat, key: string)
    ensures AllFollow(s, RemoveSubscriber(s, r, key)) && |RemoveSubscriber(s, r, key).hs| == |s.hs|
  {
  }

  lemma {:induction false} MoveFollows(s: Relay, t: Relay, h: nat, p: Phase)
    requires AllFollow(s, t) && !p.Opening?
    ensures AllFollow(s, Move(t, h, p))
  {
  }

  lemma {:induction false} HandFollows(s: Relay, to: nat, item: Item<Envelope>)
    ensures AllFollow(s, Hand(s, to, item))
  {
  }

  lemma {:induction false} RegisterSince(s: Relay, a: Action)
    requires Inv(s) && Enabled(s, a) && a.Register?
    ensures Since(s, Step(s, a))
  {
    assert HandlerOk(s, s.hs[a.h]);
  }

  lemma {:induction false} SendUpSince(s: Relay, a: Action)
    requires Enabled(s, a) && a.SendUp?
    ensures Since(s, Step(s, a))
  {
    var p := s.hs[a.h].phase;
    var t := s;
    if a.ok && p.to.Some? {
      var item := Item(if p.Asking? then p.e else s.hs[a.h].first, a.h);
      HandFollows(s, p.to.value, item);
      t := Hand(s, p.to.value, item);
    }
    MoveFollows(s, t, a.h, if p.Asking? then Listening(p.r, p.key) else Over);
  }

  lemma {:induction false} OfferSince(s: Relay, a: Action)
    requires Enabled(s, a) && a.Offer?
    ensures Since(s, Step(s, a))
  {
    var p := s.hs[a.h].phase;
    var t := if a.ok then Hand(s, p.todo[a.key], Item(p.e, a.h)) else s.(orphans := s.orphans + {(p.r, a.key, p.todo[a.key])});
    if a.ok {
      HandFollows(s, p.todo[a.key], Item(p.e, a.h));
    }
    MoveFollows(s, t, a.h, p.(todo := p.todo - {a.key}));
  }

  lemma {:induction false} RemoveOwnSince(s: Relay, a: Action)
    requires Enabled(s, a) && a.RemoveOwn?
    ensures Since(s, Step(s, a))
  {
    var p := s.hs[a.h].phase;
    RemoveFollows(s, p.r, p.key);
    MoveFollows(s, RemoveSubscriber(s, p.r, p.key), a.h, Left(p.r));
  }

  lemma {:induction false} OrphanSince(s: Relay, a: Action)
    requires Enabled(s, a) && a.RemoveOrphan?
    ensures Since(s, Step(s, a))
  {
    RemoveFollows(s, a.o.0, a.o.1);
  }

  lemma {:induction false} OwnStepSince(s: Relay, a: Action)
    requires Enabled(s, a) && (a.Greeted? || a.LookUp? || a.Forward? || a.Forwarded? || a.HangUp? || a.TestEmpty?)
    ensures Since(s, Step(s, a))
  {
  }

  lemma {:induction false} GreetSince(s: Relay, a: Action)
    requires Enabled(s, a) && (a.GreetOne? || a.WriteFails? || a.CloseRemoved?)
    ensures Since(s, Step(s, a))
  {
  }

  /** With the table locked, a new connection gets no session. */
  lemma {:induction false} FirstSince(s: Relay, a: Action)
    requires Enabled(s, a) && a.First? && s.doomed.Some?
    ensures Since(s, Step(s, a))
  {
  }

  lemma {:induction false} StepSince(s: Relay, a: Action)
    requires Inv(s) && Enabled(s, a) && s.doomed.Some? && !a.ReapClose?
    ensures Since(s, Step(s, a))
  {
    if a.First? {
      FirstSince(s, a);
    } else if a.Register? {
      RegisterSince(s, a);
    } else if a.GreetOne? || a.WriteFails? || a.CloseRemoved? {
      GreetSince(s, a);
    } else if a.SendUp? {
      SendUpSince(s, a);
    } else if a.Offer? {
      OfferSince(s, a);
    } else if a.RemoveOwn? {
      RemoveOwnSince(s, a);
    } else if a.RemoveOrphan? {
      OrphanSince(s, a);
    } else {
      OwnStepSince(s, a);
    }
  }

  // ----- from the test to the close -----

  lemma {:induction false} SinceTrans(s: Relay, t: Relay, u: Relay)
    requires Since(s, t) && Since(t, u)
    ensures Since(s, u)
  {
    forall h | 0 <= h < |s.hs|
      ensures Follows(s.hs[h], u.hs[h]) && (h in s.letting ==> h in u.letting || u.hs[h].done)
    {
      assert Follows(s.hs[h], t.hs[h]) && Follows(t.hs[h], u.hs[h]);
    }
    forall h | |s.hs| <= h < |u.hs|
      ensures !u.hs[h].phase.Opening? && u.hs[h].home.None?
    {
      if h < |t.hs| {
        assert Follows(t.hs[h], u.hs[h]);
      }
    }
  }

  lemma {:induction false} RunSince(s: Relay, run: seq<Action>)
    requires Inv(s) && Runs(s, run) && s.doomed.Some? && NotYet(run)
    ensures Since(s, Reached(s, run)) && Inv(Reached(s, run))
    decreases |run|
  {
    if run != [] {
      assert !run[0].ReapClose?;
      var t := Step(s, run[0]);
      StepSince(s, run[0]);
      StepInv(s, run[0]);
      RunSince(t, run[1..]);
      SinceTrans(s, t, Reached(s, run));
    }
  }

  // ----- whom the close disconnects -----

  /** Connection h had not registered at the test s, and is registered in session r at u. */
  predicate Newcomer(s: Relay, u: Relay, r: nat, h: nat) {
    h < |s.hs| && h < |u.hs| && s.hs[h].home.None? && u.hs[h].home == Some(r)
  }

  /** The step from u to t closes connection h. */
  predicate Disconnects(u: Relay, t: Relay, h: nat) {
    h < |u.hs| && h < |t.hs| && !u.hs[h].done && t.hs[h].done
  }

  /** Whoever is open in a session, and not about to be closed, is one of its members; conversely a member is registered there. */
  lemma {:induction false} OpenMembers(s: Relay, r: nat, h: nat)
    requires Inv(s) && r < |s.heap| && h < |s.hs| && !s.hs[h].done
    ensures h in Members(s.heap[r]) <==> s.hs[h].home == Some(r) && h !in s.letting
  {
    var x := s.heap[r];
    assert SessionOk(s, r, x);
    assert forall k :: k in x.subscribers ==> Serves(s, x.subscribers[k], r) && KeyOf(s.hs[x.subscribers[k]], k);
    if s.hs[h].home == Some(r) && h !in s.letting {
      assert Present(s, h, s.hs[h]);
    } else if h in s.letting {
      assert !Present(s, h, s.hs[h]);
    }
  }

  /** An empty session has nobody open: who was registered there has been closed, or is about to be. */
  lemma {:induction false} NobodyOpen(s: Relay, r: nat, h: nat)
    requires Inv(s) && r < |s.heap| && IsEmpty(s.heap[r]) && !s.heap[r].closed && h < |s.hs| && s.hs[h].home == Some(r)
    ensures s.hs[h].done || h in s.letting
  {
    if !s.hs[h].done {
      OpenMembers(s, r, h);
    }
  }

  /** What the close does, in the state u it finds. */
  lemma {:induction false} CloseDisconnects(u: Relay, h: nat)
    requires Inv(u) && u.doomed.Some? && h < |u.hs|
    ensures var t := Step(u, ReapClose);
      var r := u.table[u.doomed.value];
      && |t.hs| == |u.hs| && t.hs[h] == u.hs[h].(done := t.hs[h].done)
      && (Disconnects(u, t, h) <==> !u.hs[h].done && h !in u.letting && u.hs[h].home == Some(r))
  {
    var r := u.table[u.doomed.value];
    if !u.hs[h].done {
      OpenMembers(u, r, h);
    }
  }

  /** The state in which the reaper closes what it tested. */
  function AtClose(s: Relay, id: SessionId, now: int, between: seq<Action>): (u: Relay)
    requires Enabled(s, ReapTest(id, now)) && Runs(Step(s, ReapTest(id, now)), between)
  {
    Reached(Step(s, ReapTest(id, now)), between)
  }

  /** From test s, over `between`, to the close. */
  predicate Reaps(s: Relay, id: SessionId, now: int, between: seq<Action>) {
    Enabled(s, ReapTest(id, now)) && Runs(Step(s, ReapTest(id, now)), between) && NotYet(between)
  }

  lemma {:induction false} ReapSince(s: Relay, id: SessionId, now: int, between: seq<Action>)
    requires Inv(s) && Reaps(s, id, now, between)
    ensures var u := AtClose(s, id, now, between);
      Inv(u) && AllFollow(s, u) && u.table == s.table && u.doomed == Some(id)
      && forall h :: |s.hs| <= h < |u.hs| ==> u.hs[h].home.None?
  {
    StepInv(s, ReapTest(id, now));
    RunSince(Step(s, ReapTest(id, now)), between);
  }

  /** A connection registered in the session at the close, and open, has registered since the test. */
  lemma {:induction false} OpenIsNew(s: Relay, u: Relay, r: nat, h: nat)
    requires Inv(s) && r < |s.heap| && IsEmpty(s.heap[r]) && !s.heap[r].closed
    requires AllFollow(s, u) && (forall g :: |s.hs| <= g < |u.hs| ==> u.hs[g].home.None?) && h < |u.hs|
    ensures !u.hs[h].done && h !in u.letting && u.hs[h].home == Some(r) ==> Newcomer(s, u, r, h)
    ensures Newcomer(s, u, r, h) ==> s.hs[h].phase == Opening(r)
  {
    if h < |s.hs| {
      assert Follows(s.hs[h], u.hs[h]);
      if s.hs[h].home == Some(r) {
        NobodyOpen(s, r, h);
      }
    }
  }

  /** One connection, from the test s to the close at u. */
  lemma {:induction false} ReapsOne(s: Relay, u: Relay, id: SessionId, h: nat)
    requires Inv(s) && id in s.table && IsEmpty(s.heap[s.table[id]]) && Inv(u) && u.table == s.table && u.doomed == Some(id)
    requires AllFollow(s, u) && (forall g :: |s.hs| <= g < |u.hs| ==> u.hs[g].home.None?) && h < |u.hs|
    ensures var t := Step(u, ReapClose);
      var r := s.table[id];
      && |t.hs| == |u.hs| && t.hs[h] == u.hs[h].(done := t.hs[h].done)
      && (Disconnects(u, t, h) <==> !u.hs[h].done && h !in u.letting && Newcomer(s, u, r, h))
      && (Newcomer(s, u, r, h) ==> s.hs[h].phase == Opening(r))
  {
    CloseDisconnects(u, h);
    OpenIsNew(s, u, s.table[id], h);
  }

  /** From u to t session r has been taken out of the table, and beyond closing connections nothing else has happened. */
  predicate Takes(u: Relay, t: Relay, id: SessionId, r: nat) {
    && t.table == u.table - {id} && t.gauge == u.gauge - 1
    && |t.heap| == |u.heap| && (forall q :: 0 <= q < |u.heap| && q != r ==> t.heap[q] == u.heap[q])
    && |t.hs| == |u.hs| && (forall h :: 0 <= h < |u.hs| ==> t.hs[h] == u.hs[h].(done := t.hs[h].done))
  }

  /** Exactly the newcomers that are open and not about to be closed are disconnected, and they held session r at the test s. */
  predicate OnlyNewcomers(s: Relay, u: Relay, t: Relay, r: nat) {
    forall h :: 0 <= h < |u.hs| ==>
      && (Disconnects(u, t, h) <==> !u.hs[h].done && h !in u.letting && Newcomer(s, u, r, h))
      && (Newcomer(s, u, r, h) ==> s.hs[h].phase == Opening(r))
  }

  lemma {:induction false} ReapsAll(s: Relay, u: Relay, id: SessionId)
    requires Inv(s) && id in s.table && IsEmpty(s.heap[s.table[id]]) && Inv(u) && u.table == s.table && u.doomed == Some(id)
    requires AllFollow(s, u) && forall g :: |s.hs| <= g < |u.hs| ==> u.hs[g].home.None?
    ensures OnlyNewcomers(s, u, Step(u, ReapClose), s.table[id])
  {
    forall h | 0 <= h < |u.hs|
      ensures Disconnects(u, Step(u, ReapClose), h) <==> !u.hs[h].done && h !in u.letting && Newcomer(s, u, s.table[id], h)
      ensures Newcomer(s, u, s.table[id], h) ==> s.hs[h].phase == Opening(s.table[id])
    {
      ReapsOne(s, u, id, h);
    }
  }

  lemma {:induction false} CloseTakes(u: Relay, id: SessionId)
    requires Inv(u) && u.doomed == Some(id)
    ensures Takes(u, Step(u, ReapClose), id, u.table[id])
  {
  }

  /** The close disconnects nobody. */
  predicate Harmless(u: Relay)
    requires Enabled(u, ReapClose)
  {
    forall h :: 0 <= h < |u.hs| ==> !Disconnects(u, Step(u, ReapClose), h)
  }

  /** The reaper, over every run. The session it takes was empty and at least 30 seconds old when it was tested. Whatever
      happens until it is closed, the close disconnects exactly those connections that registered in that session since
      the test and are still in it, and each of them held the session, not yet registered, when it was tested. The session
      leaves the table and no other session changes. */
  lemma {:induction false} ReaperClosesNewcomers(s0: Relay, before: seq<Action>, id: SessionId, now: int, between: seq<Action>)
    requires Initial(s0) && Runs(s0, before) && Reaps(Reached(s0, before), id, now, between)
    ensures var s := Reached(s0, before);
      var u := AtClose(s, id, now, between);
      && s.heap[s.table[id]].publisher.None? && s.heap[s.table[id]].subscribers == map[]
      && now - s.heap[s.table[id]].createdAt >= GRACE_PERIOD
      && Enabled(u, ReapClose) && Takes(u, Step(u, ReapClose), id, s.table[id])
      && OnlyNewcomers(s, u, Step(u, ReapClose), s.table[id])
  {
    InitialInv(s0);
    RunInv(s0, before);
    var s := Reached(s0, before);
    var u := AtClose(s, id, now, between);
    ReapSince(s, id, now, between);
    ReapsAll(s, u, id);
    CloseTakes(u, id);
  }

  // ----- when the reaper can be trusted -----

  /** A handler that holds a session without a publisher can register there, and is then open. */
  lemma {:induction false} HolderRegisters(s: Relay, h: nat, r: nat)
    requires Inv(s) && h < |s.hs| && s.hs[h].phase == Opening(r) && r < |s.heap| && s.heap[r].publisher.None?
    ensures Enabled(s, Register(h, ""))
    ensures var u := Step(s, Register(h, "")); h < |u.hs| && !u.hs[h].done && h !in u.letting && u.hs[h].home == Some(r)
    ensures var u := Step(s, Register(h, "")); u.table == s.table && u.doomed == s.doomed
  {
    assert HandlerOk(s, s.hs[h]);
  }

  lemma {:induction false} OneStep(s: Relay, a: Action)
    requires Enabled(s, a)
    ensures Runs(s, [a]) && Reached(s, [a]) == Step(s, a)
  {
    assert [a][1..] == [];
  }

  lemma {:induction false} OpenIsDisconnected(u: Relay, h: nat)
    requires Inv(u) && u.doomed.Some? && h < |u.hs| && !u.hs[h].done && h !in u.letting && u.hs[h].home == Some(u.table[u.doomed.value])
    ensures !Harmless(u)
  {
    CloseDisconnects(u, h);
  }

  /** With the table locked, a handler that holds the doomed session registers in it, and the close disconnects it. */
  lemma {:induction false} HolderIsDoomed(s: Relay, h: nat)
    requires Inv(s) && s.doomed.Some? && h < |s.hs| && s.hs[h].phase == Opening(s.table[s.doomed.value])
    requires s.heap[s.table[s.doomed.value]].publisher.None?
    ensures Enabled(s, Register(h, "")) && Step(s, Register(h, "")).doomed.Some? && !Harmless(Step(s, Register(h, "")))
  {
    HolderRegisters(s, h, s.table[s.doomed.value]);
    StepInv(s, Register(h, ""));
    OpenIsDisconnected(Step(s, Register(h, "")), h);
  }

  lemma {:induction false} HolderIsDisconnected(s: Relay, id: SessionId, now: int, h: nat)
    requires Inv(s) && Enabled(s, ReapTest(id, now)) && h < |s.hs| && s.hs[h].phase == Opening(s.table[id])
    ensures Reaps(s, id, now, [Register(h, "")]) && Enabled(AtClose(s, id, now, [Register(h, "")]), ReapClose)
    ensures !Harmless(AtClose(s, id, now, [Register(h, "")]))
  {
    var s1 := Step(s, ReapTest(id, now));
    StepInv(s, ReapTest(id, now));
    HolderIsDoomed(s1, h);
    OneStep(s1, Register(h, ""));
  }

  /** Exactly when the reaper is safe: at the moment of its test, no run up to the close lets it disconnect anybody if and
      only if no handler holds that session without having registered. */
  lemma {:induction false} ReaperHarmlessIff(s0: Relay, before: seq<Action>, id: SessionId, now: int)
    requires Initial(s0) && Runs(s0, before) && Enabled(Reached(s0, before), ReapTest(id, now))
    ensures var s := Reached(s0, before);
      (forall between :: Reaps(s, id, now, between) ==>
         Enabled(AtClose(s, id, now, between), ReapClose) && Harmless(AtClose(s, id, now, between)))
      <==> (forall h :: 0 <= h < |s.hs| ==> s.hs[h].phase != Opening(s.table[id]))
  {
    InitialInv(s0);
    RunInv(s0, before);
    var s := Reached(s0, before);
    if h :| 0 <= h < |s.hs| && s.hs[h].phase == Opening(s.table[id]) {
      HolderIsDisconnected(s, id, now, h);
    } else {
      forall between | Reaps(s, id, now, between)
        ensures Enabled(AtClose(s, id, now, between), ReapClose) && Harmless(AtClose(s, id, now, between))
      {
        ReaperClosesNewcomers(s0, before, id, now, between);
      }
    }
  }

  // ----- removal by id -----

  lemma {:induction false} UnfileDisconnects(s: Relay, id: SessionId, g: nat)
    requires Inv(s) && g < |s.hs|
    ensures |RemoveSession(s, id).hs| == |s.hs|
    ensures Disconnects(s, RemoveSession(s, id), g) <==> !s.hs[g].done && g !in s.letting && id in s.table && s.hs[g].home == Some(s.table[id])
  {
    if id in s.table && !s.hs[g].done {
      OpenMembers(s, s.table[id], g);
    }
  }

  /** The end of a handler removes by id, over every run: it disconnects exactly the open connections in the session that is
      filed under its id by then, which is its own or a newer one. */
  lemma {:induction false} RemovalDisconnects(s0: Relay, run: seq<Action>, h: nat, g: nat)
    requires Initial(s0) && Runs(s0, run) && Enabled(Reached(s0, run), RemoveById(h)) && g < |Reached(s0, run).hs|
    ensures var s := Reached(s0, run);
      var id := s.hs[h].first.sessionId;
      Disconnects(s, Step(s, RemoveById(h)), g) <==> !s.hs[g].done && g !in s.letting && id in s.table && s.hs[g].home == Some(s.table[id])
  {
    InitialInv(s0);
    RunInv(s0, run);
    var s := Reached(s0, run);
    assert HandlerOk(s, s.hs[h]);
    UnfileDisconnects(s, s.hs[h].first.sessionId, g);
  }
}
