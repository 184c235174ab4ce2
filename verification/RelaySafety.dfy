/** What every run of the relay keeps: who is connected to whom, and what the session table says. */
module RelaySafety {
  import opened Wrappers
  import opened EnvelopeCodec
  import opened SubscriberKeys
  import opened Sessions
  import opened RelayRuns

  // ----- the invariant -----

  /** The key this connection was registered under. */
  predicate KeyOf(x: Handler, key: string) {
    x.mark.Some? && key == SubscriberKey(x.mark.value.0, x.mark.value.1)
  }

  /** Connection g is a subscriber, or a publisher, registered in session r. */
  predicate Serves(s: Relay, g: nat, r: nat) {
    g < |s.hs| && s.hs[g].role.AsSubscriber? && s.hs[g].home == Some(r)
  }

  predicate Feeds(s: Relay, p: nat, r: nat) {
    p < |s.hs| && s.hs[p].role.AsPublisher? && s.hs[p].home == Some(r)
  }

  /** A subscriber's frames come from a publisher registered in the same session; a publisher's from the other roles, on
      connections opened for the same session id. */
  predicate GotOk(s: Relay, x: Handler, item: Item<Envelope>) {
    && item.from < |s.hs| && s.hs[item.from].first.sessionId == x.first.sessionId
    && match x.role
       case AsSubscriber => x.home.Some? && Feeds(s, item.from, x.home.value)
       case AsPublisher => !s.hs[item.from].role.AsPublisher?
       case AsGuest => false
  }

  predicate TodoOk(s: Relay, r: nat, todo: map<string, nat>) {
    forall k :: k in todo ==> Serves(s, todo[k], r) && KeyOf(s.hs[todo[k]], k)
  }

  predicate ToOk(s: Relay, x: Handler, to: Option<nat>) {
    to.Some? ==> to.value < |s.hs| && s.hs[to.value].role.AsPublisher? && s.hs[to.value].first.sessionId == x.first.sessionId
  }

  predicate PhaseOk(s: Relay, x: Handler) {
    && (!x.phase.Over? ==> x.phase.r < |s.heap| && s.heap[x.phase.r].id == x.first.sessionId)
    && match x.phase
       case Opening(_) => x.home.None? && x.mark.None? && !x.role.AsGuest? && !x.done
       case Greeting(r) => x.role.AsPublisher? && x.home == Some(r)
       case Reading(r) => x.role.AsPublisher? && x.home == Some(r)
       case Sending(r, _, todo) => x.role.AsPublisher? && x.home == Some(r) && TodoOk(s, r, todo)
       case Closing(r) => x.role.AsPublisher? && x.home == Some(r)
       case Joined(r, key) => x.role.AsSubscriber? && x.home == Some(r) && KeyOf(x, key)
       case Asking(r, key, _, to) => x.role.AsSubscriber? && x.home == Some(r) && KeyOf(x, key) && ToOk(s, x, to)
       case Listening(r, key) => x.role.AsSubscriber? && x.home == Some(r) && KeyOf(x, key)
       case Leaving(r, key) => x.role.AsSubscriber? && x.home == Some(r) && KeyOf(x, key)
       case Left(_) => x.role.AsSubscriber?
       case Emptied(_) => x.role.AsSubscriber?
       case Visiting(_) => x.role.AsGuest?
       case Calling(_, to) => x.role.AsGuest? && ToOk(s, x, to)
       case Over => true
  }

  predicate HandlerOk(s: Relay, x: Handler) {
    && PhaseOk(s, x)
    && (x.role.AsPublisher? <==> x.first.msgType == PAKE_INIT_PUB)
    && (x.role.AsSubscriber? <==> x.first.msgType == PAKE_INIT_SUB)
    && (x.home.Some? ==> x.home.value < |s.heap| && s.heap[x.home.value].id == x.first.sessionId)
    && (x.mark.Some? ==> x.mark.value.1 <= s.serial)
    && forall i :: 0 <= i < |x.got| ==> GotOk(s, x, x.got[i])
  }

  predicate HandlersOk(s: Relay) {
    forall h :: 0 <= h < |s.hs| ==> HandlerOk(s, s.hs[h])
  }

  /** Whom a session points to is registered there, under this key; its publisher is open. */
  predicate SessionOk(s: Relay, r: nat, x: Session<SessionId, nat>) {
    && (x.publisher.Some? ==> Feeds(s, x.publisher.value, r) && !s.hs[x.publisher.value].done)
    && TodoOk(s, r, x.subscribers)
  }

  predicate SessionsOk(s: Relay) {
    forall r :: 0 <= r < |s.heap| ==> SessionOk(s, r, s.heap[r])
  }

  /** No two connections were given the same serial. */
  predicate MarksOk(s: Relay) {
    forall g, h :: 0 <= g < h < |s.hs| && s.hs[g].mark.Some? && s.hs[h].mark.Some? ==> s.hs[g].mark.value.1 != s.hs[h].mark.value.1
  }

  /** Its session still points to connection h. */
  predicate Present(s: Relay, h: nat, x: Handler) {
    && x.home.Some? && x.home.value < |s.heap|
    && match x.role
       case AsPublisher => s.heap[x.home.value].publisher == Some(h)
       case AsSubscriber =>
         && x.mark.Some?
         && var key := SubscriberKey(x.mark.value.0, x.mark.value.1);
            key in s.heap[x.home.value].subscribers && s.heap[x.home.value].subscribers[key] == h
       case AsGuest => false
  }

  /** A registered connection that is open is one its session points to, or is about to be closed. */
  predicate OpenOk(s: Relay) {
    forall h :: 0 <= h < |s.hs| && s.hs[h].home.Some? && !s.hs[h].done ==> Present(s, h, s.hs[h]) || h in s.letting
  }

  /** What is about to be closed is a subscriber that its session no longer points to. */
  predicate LettingOk(s: Relay) {
    forall g :: g in s.letting ==>
      g < |s.hs| && s.hs[g].role.AsSubscriber? && s.hs[g].home.Some? && s.hs[g].mark.Some? && !Present(s, g, s.hs[g])
  }

  /** A registered publisher is closed with its session and not before. */
  predicate ShutOk(s: Relay) {
    forall h :: 0 <= h < |s.hs| && s.hs[h].role.AsPublisher? && s.hs[h].home.Some? && s.hs[h].done ==>
      s.hs[h].home.value < |s.heap| && s.heap[s.hs[h].home.value].closed
  }

  predicate OrphansOk(s: Relay) {
    forall o :: o in s.orphans ==> Serves(s, o.2, o.0) && KeyOf(s.hs[o.2], o.1)
  }

  /** Every session in the table is open and filed under its own id. */
  predicate TableOk(s: Relay) {
    forall id :: id in s.table ==> s.table[id] < |s.heap| && s.heap[s.table[id]].id == id && !s.heap[s.table[id]].closed
  }

  predicate Core(s: Relay) {
    HandlersOk(s) && SessionsOk(s) && MarksOk(s) && OpenOk(s) && LettingOk(s) && ShutOk(s) && OrphansOk(s)
  }

  predicate Inv(s: Relay) {
    Core(s) && TableOk(s) && s.gauge == |s.table| + s.dropped && (s.doomed.Some? ==> s.doomed.value in s.table)
  }

  // ----- facts that never change once established -----

  /** Later: connections keep role, first frame, session and key; sessions keep their id. */
  predicate Later(s: Relay, t: Relay) {
    && |s.hs| <= |t.hs| && |s.heap| <= |t.heap| && s.serial <= t.serial
    && (forall h :: 0 <= h < |s.hs| ==>
          && t.hs[h].role == s.hs[h].role && t.hs[h].first == s.hs[h].first
          && (s.hs[h].home.Some? ==> t.hs[h].home == s.hs[h].home)
          && (s.hs[h].mark.Some? ==> t.hs[h].mark == s.hs[h].mark))
    && (forall r :: 0 <= r < |s.heap| ==> t.heap[r].id == s.heap[r].id)
  }

  lemma {:induction false} TodoLater(s: Relay, t: Relay, r: nat, todo: map<string, nat>)
    requires Later(s, t) && TodoOk(s, r, todo)
    ensures TodoOk(t, r, todo)
  {
    forall k | k in todo
      ensures Serves(t, todo[k], r) && KeyOf(t.hs[todo[k]], k)
    {
      assert Serves(s, todo[k], r) && KeyOf(s.hs[todo[k]], k);
    }
  }

  lemma {:induction false} GotLater(s: Relay, t: Relay, x: Handler, y: Handler, item: Item<Envelope>)
    requires Later(s, t) && GotOk(s, x, item) && y.role == x.role && y.first == x.first && (x.home.Some? ==> y.home == x.home)
    ensures GotOk(t, y, item)
  {
  }

  /** A handler that did not move is as it was. */
  lemma {:induction false} HandlerLater(s: Relay, t: Relay, x: Handler, y: Handler)
    requires Later(s, t) && HandlerOk(s, x) && y == x.(done := y.done)
    requires x.phase.Opening? ==> y.done == x.done
    ensures HandlerOk(t, y)
  {
    match x.phase {
      case Sending(r, _, todo) => TodoLater(s, t, r, todo);
      case _ =>
    }
    forall i | 0 <= i < |y.got|
      ensures GotOk(t, y, y.got[i])
    {
      GotLater(s, t, x, y, x.got[i]);
    }
  }

  lemma {:induction false} SessionLater(s: Relay, t: Relay, r: nat, x: Session<SessionId, nat>)
    requires Later(s, t) && SessionOk(s, r, x) && (x.publisher.Some? ==> !t.hs[x.publisher.value].done)
    ensures SessionOk(t, r, x)
  {
    TodoLater(s, t, r, x.subscribers);
  }

  lemma {:induction false} OrphansLater(s: Relay, t: Relay)
    requires Later(s, t) && OrphansOk(s) && t.orphans <= s.orphans
    ensures OrphansOk(t)
  {
    forall o | o in t.orphans
      ensures Serves(t, o.2, o.0) && KeyOf(t.hs[o.2], o.1)
    {
      assert Serves(s, o.2, o.0) && KeyOf(s.hs[o.2], o.1);
    }
  }

  // ----- a step of one handler -----

  /** One handler moves, or is handed a frame; nothing else changes. */
  lemma {:induction false} PutCore(s: Relay, h: nat, x: Handler)
    requires Core(s) && h < |s.hs| && HandlerOk(s, x)
    requires x == s.hs[h].(phase := x.phase, got := x.got)
    ensures Core(Put(s, h, x)) && Later(s, Put(s, h, x))
  {
    var t := Put(s, h, x);
    assert Later(s, t);
    forall g | 0 <= g < |t.hs|
      ensures HandlerOk(t, t.hs[g])
    {
      HandlerLater(s, t, if g == h then x else s.hs[g], t.hs[g]);
    }
    forall r | 0 <= r < |t.heap|
      ensures SessionOk(t, r, t.heap[r])
    {
      SessionLater(s, t, r, s.heap[r]);
    }
    OrphansLater(s, t);
  }

  lemma {:induction false} MoveCore(s: Relay, h: nat, p: Phase)
    requires Core(s) && h < |s.hs| && PhaseOk(s, s.hs[h].(phase := p))
    ensures Core(Move(s, h, p)) && Later(s, Move(s, h, p))
  {
    var x := s.hs[h].(phase := p);
    forall i | 0 <= i < |x.got|
      ensures GotOk(s, x, x.got[i])
    {
      assert GotOk(s, s.hs[h], s.hs[h].got[i]);
    }
    PutCore(s, h, x);
  }

  lemma {:induction false} HandCore(s: Relay, to: nat, item: Item<Envelope>)
    requires Core(s) && to < |s.hs| && GotOk(s, s.hs[to], item)
    ensures Core(Hand(s, to, item)) && Later(s, Hand(s, to, item))
    ensures forall h :: 0 <= h < |s.hs| ==> Hand(s, to, item).hs[h].phase == s.hs[h].phase
  {
    var x := s.hs[to].(got := s.hs[to].got + [item]);
    assert HandlerOk(s, s.hs[to]);
    forall i | 0 <= i < |x.got|
      ensures GotOk(s, x, x.got[i])
    {
      if i < |s.hs[to].got| {
        assert GotOk(s, s.hs[to], s.hs[to].got[i]);
      }
    }
    PutCore(s, to, x);
  }

  // ----- connections that close -----

  /** Session x, having let go of some of the connections that are gone. */
  predicate Thinned(x: Session<SessionId, nat>, y: Session<SessionId, nat>, gone: set<nat>) {
    && y.id == x.id && (x.closed ==> y.closed)
    && (y.publisher == x.publisher || y.publisher.None?)
    && (x.publisher.Some? ==> (x.publisher.value in gone <==> y.publisher.None?))
    && (forall k :: k in y.subscribers ==> k in x.subscribers && y.subscribers[k] == x.subscribers[k])
    && (forall k :: k in x.subscribers ==> k in y.subscribers || x.subscribers[k] in gone)
  }

  /** Some connections close; sessions may let go of some of them. */
  predicate Closes(s: Relay, t: Relay, gone: set<nat>) {
    && t.hs == CloseConns(s.hs, gone) && |t.heap| == |s.heap| && t.serial == s.serial && t.orphans <= s.orphans
    && t.letting <= s.letting && s.letting - t.letting <= gone
    && forall r :: 0 <= r < |s.heap| ==> Thinned(s.heap[r], t.heap[r], gone)
  }

  lemma {:induction false} ClosedLater(s: Relay, t: Relay, gone: set<nat>)
    requires Closes(s, t, gone)
    ensures Later(s, t)
  {
    forall r | 0 <= r < |s.heap|
      ensures t.heap[r].id == s.heap[r].id
    {
      assert Thinned(s.heap[r], t.heap[r], gone);
    }
  }

  lemma {:induction false} ClosedSessions(s: Relay, t: Relay, gone: set<nat>)
    requires SessionsOk(s) && Closes(s, t, gone) && Later(s, t)
    ensures SessionsOk(t)
  {
    forall r | 0 <= r < |t.heap|
      ensures SessionOk(t, r, t.heap[r])
    {
      assert SessionOk(s, r, s.heap[r]) && Thinned(s.heap[r], t.heap[r], gone);
      TodoLater(s, t, r, s.heap[r].subscribers);
    }
  }

  lemma {:induction false} ClosedOpen(s: Relay, t: Relay, gone: set<nat>)
    requires OpenOk(s) && Closes(s, t, gone)
    ensures OpenOk(t)
  {
    forall h | 0 <= h < |t.hs| && t.hs[h].home.Some? && !t.hs[h].done
      ensures Present(t, h, t.hs[h]) || h in t.letting
    {
      if h !in s.letting {
        assert Present(s, h, s.hs[h]);
        assert Thinned(s.heap[s.hs[h].home.value], t.heap[s.hs[h].home.value], gone);
      }
    }
  }

  lemma {:induction false} ClosedLetting(s: Relay, t: Relay, gone: set<nat>)
    requires LettingOk(s) && Closes(s, t, gone)
    ensures LettingOk(t)
  {
    forall g | g in t.letting
      ensures g < |t.hs| && t.hs[g].role.AsSubscriber? && t.hs[g].home.Some? && t.hs[g].mark.Some? && !Present(t, g, t.hs[g])
    {
      assert g in s.letting;
      if s.hs[g].home.value < |s.heap| {
        assert Thinned(s.heap[s.hs[g].home.value], t.heap[s.hs[g].home.value], gone);
      }
    }
  }

  lemma {:induction false} ClosedShut(s: Relay, t: Relay, gone: set<nat>)
    requires ShutOk(s) && Closes(s, t, gone)
    requires forall g :: g in gone && g < |s.hs| && s.hs[g].role.AsPublisher? && s.hs[g].home.Some? ==>
      s.hs[g].home.value < |s.heap| && t.heap[s.hs[g].home.value].closed
    ensures ShutOk(t)
  {
    forall h | 0 <= h < |t.hs| && t.hs[h].role.AsPublisher? && t.hs[h].home.Some? && t.hs[h].done
      ensures t.hs[h].home.value < |t.heap| && t.heap[t.hs[h].home.value].closed
    {
      if h !in gone {
        assert Thinned(s.heap[s.hs[h].home.value], t.heap[s.hs[h].home.value], gone);
      }
    }
  }

  lemma {:induction false} ClosedCore(s: Relay, t: Relay, gone: set<nat>)
    requires Core(s) && Closes(s, t, gone)
    requires forall g :: g in gone && g < |s.hs| ==> !s.hs[g].phase.Opening?
    requires forall g :: g in gone && g < |s.hs| && s.hs[g].role.AsPublisher? && s.hs[g].home.Some? ==>
      s.hs[g].home.value < |s.heap| && t.heap[s.hs[g].home.value].closed
    ensures Core(t) && Later(s, t)
  {
    ClosedLater(s, t, gone);
    forall h | 0 <= h < |t.hs|
      ensures HandlerOk(t, t.hs[h])
    {
      HandlerLater(s, t, s.hs[h], t.hs[h]);
    }
    ClosedSessions(s, t, gone);
    ClosedOpen(s, t, gone);
    ClosedLetting(s, t, gone);
    ClosedShut(s, t, gone);
    OrphansLater(s, t);
  }

  /** Nobody but its publisher and its subscribers belongs to a session: closing it closes no other session's publisher. */
  lemma {:induction false} CloseSessionCore(s: Relay, r: nat)
    requires Core(s)
    ensures Core(CloseSession(s, r)) && Later(s, CloseSession(s, r))
  {
    if r < |s.heap| && !s.heap[r].closed {
      var gone := Members(s.heap[r]);
      var t := CloseSession(s, r);
      forall q | 0 <= q < |s.heap|
        ensures Thinned(s.heap[q], t.heap[q], gone)
      {
        if s.heap[q].publisher.Some? {
          MembersAreHome(s, r, q);
        }
      }
      MembersRegistered(s, r);
      ClosedCore(s, t, gone);
    }
  }

  lemma {:induction false} MembersRegistered(s: Relay, r: nat)
    requires Core(s) && r < |s.heap|
    ensures forall g :: g in Members(s.heap[r]) ==> g < |s.hs| && !s.hs[g].phase.Opening? && s.hs[g].home == Some(r)
  {
    assert SessionOk(s, r, s.heap[r]);
    forall g | g in Members(s.heap[r])
      ensures g < |s.hs| && !s.hs[g].phase.Opening? && s.hs[g].home == Some(r)
    {
      assert Serves(s, g, r) || Feeds(s, g, r);
      assert HandlerOk(s, s.hs[g]);
    }
  }

  lemma {:induction false} MembersAreHome(s: Relay, r: nat, q: nat)
    requires Core(s) && r < |s.heap| && q < |s.heap| && s.heap[q].publisher.Some?
    ensures s.heap[q].publisher.value in Members(s.heap[r]) <==> q == r
  {
    assert SessionOk(s, r, s.heap[r]) && SessionOk(s, q, s.heap[q]);
    var p := s.heap[q].publisher.value;
    assert forall k :: k in s.heap[r].subscribers ==> Serves(s, s.heap[r].subscribers[k], r);
  }

  /** A subscriber's connection is no session's publisher. */
  lemma {:induction false} NobodysPublisher(s: Relay, g: nat)
    requires Core(s) && g < |s.hs| && !(s.hs[g].role.AsPublisher? && s.hs[g].home.Some?)
    ensures forall q :: 0 <= q < |s.heap| && s.heap[q].publisher.Some? ==> s.heap[q].publisher.value != g
  {
    forall q | 0 <= q < |s.heap| && s.heap[q].publisher.Some?
      ensures s.heap[q].publisher.value != g
    {
      assert SessionOk(s, q, s.heap[q]);
    }
  }

  /** From s to t session r lets go of the key of connection g, which is about to be closed. */
  predicate Unlists(s: Relay, t: Relay, r: nat, key: string, g: nat) {
    && r < |s.heap| && key in s.heap[r].subscribers && s.heap[r].subscribers[key] == g
    && t == s.(heap := s.heap[r := WithoutSubscriber(s.heap[r], key)], letting := s.letting + {g})
  }

  lemma {:induction false} UnlistedOpen(s: Relay, t: Relay, r: nat, key: string, g: nat)
    requires Core(s) && Unlists(s, t, r, key, g)
    ensures OpenOk(t)
  {
    forall h | 0 <= h < |t.hs| && t.hs[h].home.Some? && !t.hs[h].done
      ensures Present(t, h, t.hs[h]) || h in t.letting
    {
      if h !in t.letting {
        assert Present(s, h, s.hs[h]);
      }
    }
  }

  lemma {:induction false} UnlistedLetting(s: Relay, t: Relay, r: nat, key: string, g: nat)
    requires Core(s) && Unlists(s, t, r, key, g)
    ensures LettingOk(t)
  {
    assert SessionOk(s, r, s.heap[r]);
    assert Serves(s, g, r) && KeyOf(s.hs[g], key);
    forall f | f in t.letting
      ensures f < |t.hs| && t.hs[f].role.AsSubscriber? && t.hs[f].home.Some? && t.hs[f].mark.Some? && !Present(t, f, t.hs[f])
    {
      if f != g {
        assert f in s.letting;
      }
    }
  }

  lemma {:induction false} RemoveSubscriberCore(s: Relay, r: nat, key: string)
    requires Core(s)
    ensures Core(RemoveSubscriber(s, r, key)) && Later(s, RemoveSubscriber(s, r, key))
  {
    var t := RemoveSubscriber(s, r, key);
    assert Later(s, t);
    if r < |s.heap| && key in s.heap[r].subscribers {
      UnlistedCore(s, t, r, key, s.heap[r].subscribers[key]);
    }
  }

  lemma {:induction false} UnlistedCore(s: Relay, t: Relay, r: nat, key: string, g: nat)
    requires Core(s) && Unlists(s, t, r, key, g) && Later(s, t)
    ensures Core(t)
  {
    forall h | 0 <= h < |t.hs|
      ensures HandlerOk(t, t.hs[h])
    {
      HandlerLater(s, t, s.hs[h], t.hs[h]);
    }
    forall q | 0 <= q < |t.heap|
      ensures SessionOk(t, q, t.heap[q])
    {
      SessionLater(s, t, q, s.heap[q]);
    }
    UnlistedOpen(s, t, r, key, g);
    UnlistedLetting(s, t, r, key, g);
    OrphansLater(s, t);
  }

  // ----- connections that arrive and register -----

  lemma {:induction false} EnterCore(s: Relay, x: Handler)
    requires Core(s) && HandlerOk(s, x) && x.home.None? && x.mark.None?
    ensures Core(Enter(s, x)) && Later(s, Enter(s, x))
  {
    var t := Enter(s, x);
    assert Later(s, t);
    forall h | 0 <= h < |t.hs|
      ensures HandlerOk(t, t.hs[h])
    {
      HandlerLater(s, t, if h < |s.hs| then s.hs[h] else x, t.hs[h]);
    }
    forall r | 0 <= r < |t.heap|
      ensures SessionOk(t, r, t.heap[r])
    {
      SessionLater(s, t, r, s.heap[r]);
    }
    OrphansLater(s, t);
  }

  lemma {:induction false} CreateCore(s: Relay, t: Relay, id: SessionId, now: int)
    requires Core(s) && t.heap == s.heap + [NewSession(id, now)] && t.hs == s.hs && t.serial == s.serial && t.orphans == s.orphans
    requires t.letting == s.letting
    ensures Core(t) && Later(s, t)
  {
    assert Later(s, t);
    forall h | 0 <= h < |t.hs|
      ensures HandlerOk(t, t.hs[h])
    {
      HandlerLater(s, t, s.hs[h], t.hs[h]);
    }
    forall r | 0 <= r < |t.heap|
      ensures SessionOk(t, r, t.heap[r])
    {
      if r < |s.heap| {
        SessionLater(s, t, r, s.heap[r]);
      }
    }
    OrphansLater(s, t);
  }

  lemma {:induction false} EnterInv(s: Relay, x: Handler)
    requires Inv(s) && HandlerOk(s, x) && x.home.None? && x.mark.None?
    ensures Inv(Enter(s, x))
  {
    EnterCore(s, x);
  }

  lemma {:induction false} GetOrCreateInv(s: Relay, t: Relay, id: SessionId, now: int)
    requires Inv(s) && t == GetOrCreate(s, id, now)
    ensures Inv(t)
  {
    if id !in s.table {
      CreateCore(s, t, id, now);
      forall i | i in t.table
        ensures t.table[i] < |t.heap| && t.heap[t.table[i]].id == i && !t.heap[t.table[i]].closed
      {
        if i != id {
          assert i in s.table;
        }
      }
    }
  }

  lemma {:induction false} OpeningInv(s: Relay, role: Role, e: Envelope, r: nat)
    requires Inv(s) && r < |s.heap| && s.heap[r].id == e.sessionId
    requires (role.AsPublisher? && e.msgType == PAKE_INIT_PUB) || (role.AsSubscriber? && e.msgType == PAKE_INIT_SUB)
    ensures Inv(Enter(s, Handler(role, e, Opening(r), false, [], None, None)))
  {
    EnterInv(s, Handler(role, e, Opening(r), false, [], None, None));
  }

  lemma {:induction false} GuestInv(s: Relay, e: Envelope, p: Phase, done: bool)
    requires Inv(s) && e.msgType != PAKE_INIT_PUB && e.msgType != PAKE_INIT_SUB
    requires p.Over? || (p.Visiting? && p.r < |s.heap| && s.heap[p.r].id == e.sessionId)
    ensures Inv(Enter(s, Handler(AsGuest, e, p, done, [], None, None)))
  {
    EnterInv(s, Handler(AsGuest, e, p, done, [], None, None));
  }

  lemma {:induction false} HandshakeInv(s: Relay, e: Envelope, now: int)
    requires Inv(s) && (e.msgType == PAKE_INIT_PUB || e.msgType == PAKE_INIT_SUB)
    ensures Inv(Accept(s, e, now))
  {
    var t := GetOrCreate(s, e.sessionId, now);
    GetOrCreateInv(s, t, e.sessionId, now);
    OpeningInv(t, if e.msgType == PAKE_INIT_PUB then AsPublisher else AsSubscriber, e, t.table[e.sessionId]);
  }

  lemma {:induction false} AcceptInv(s: Relay, e: Envelope, now: int)
    requires Inv(s)
    ensures Inv(Accept(s, e, now))
  {
    if e.msgType == PAKE_INIT_PUB || e.msgType == PAKE_INIT_SUB {
      HandshakeInv(s, e, now);
    } else if e.msgType == SYNC_REQ && e.sessionId in s.table {
      GuestInv(s, e, Visiting(s.table[e.sessionId]), false);
    } else {
      GuestInv(s, e, Over, true);
    }
  }

  /** A handler that is turned away closes its connection. */
  lemma {:induction false} RejectedCore(s: Relay, h: nat, x: Handler)
    requires Core(s) && h < |s.hs| && s.hs[h].home.None? && x == s.hs[h].(done := true, phase := Over)
    ensures Core(Put(s, h, x)) && Later(s, Put(s, h, x))
  {
    MoveCore(s, h, Over);
    var s1 := Move(s, h, Over);
    NobodysPublisher(s1, h);
    ClosedCore(s1, Put(s, h, x), {h});
  }

  lemma {:induction false} PublisherCore(s: Relay, h: nat, r: nat)
    requires Core(s) && h < |s.hs| && s.hs[h].phase == Opening(r) && s.hs[h].role.AsPublisher?
    ensures Core(RegisterPublisher(s, h, r)) && Later(s, RegisterPublisher(s, h, r))
  {
    assert HandlerOk(s, s.hs[h]);
    assert SessionOk(s, r, s.heap[r]);
    if s.heap[r].publisher.Some? {
      RejectedCore(s, h, s.hs[h].(done := true, phase := Over));
    } else {
      FirstPublisherCore(s, h, r);
    }
  }

  lemma {:induction false} FirstPublisherCore(s: Relay, h: nat, r: nat)
    requires Core(s) && h < |s.hs| && s.hs[h].phase == Opening(r) && s.hs[h].role.AsPublisher? && !s.hs[h].done
    requires HandlerOk(s, s.hs[h]) && s.heap[r].publisher.None?
    ensures Core(RegisterPublisher(s, h, r)) && Later(s, RegisterPublisher(s, h, r))
  {
    var t := RegisterPublisher(s, h, r);
    assert Later(s, t);
    forall g | 0 <= g < |t.hs|
      ensures HandlerOk(t, t.hs[g])
    {
      if g == h {
        NewHomeOk(s, t, s.hs[h], t.hs[h]);
      } else {
        HandlerLater(s, t, s.hs[g], t.hs[g]);
      }
    }
    forall q | 0 <= q < |t.heap|
      ensures SessionOk(t, q, t.heap[q])
    {
      assert SessionOk(s, q, s.heap[q]);
      SessionLater(s, t, q, s.heap[q]);
    }
    OrphansLater(s, t);
  }

  /** A handler that has just registered. */
  lemma {:induction false} NewHomeOk(s: Relay, t: Relay, x: Handler, y: Handler)
    requires Later(s, t) && HandlerOk(s, x) && x.home.None? && y.role == x.role && y.first == x.first && y.got == x.got
    requires PhaseOk(t, y) && y.home.Some? && y.home.value < |t.heap| && t.heap[y.home.value].id == y.first.sessionId
    requires y.mark.Some? ==> y.mark.value.1 <= t.serial
    ensures HandlerOk(t, y)
  {
    forall i | 0 <= i < |y.got|
      ensures GotOk(t, y, y.got[i])
    {
      GotLater(s, t, x, y, x.got[i]);
    }
  }

  /** The serial just taken is above all others. */
  lemma {:induction false} NewMarkOk(s: Relay, h: nat, r: nat, addr: string)
    requires Core(s) && h < |s.hs| && r < |s.heap|
    ensures MarksOk(RegisterSubscriber(s, h, r, addr))
    ensures forall g :: 0 <= g < |s.hs| && s.hs[g].mark.Some? ==>
      SubscriberKey(s.hs[g].mark.value.0, s.hs[g].mark.value.1) != SubscriberKey(addr, s.serial + 1)
  {
    var t := RegisterSubscriber(s, h, r, addr);
    forall g | 0 <= g < |t.hs| && g != h
      ensures t.hs[g].mark.Some? ==> t.hs[g].mark.value.1 < t.serial
    {
      assert HandlerOk(s, s.hs[g]);
    }
    forall g | 0 <= g < |s.hs| && s.hs[g].mark.Some?
      ensures SubscriberKey(s.hs[g].mark.value.0, s.hs[g].mark.value.1) != SubscriberKey(addr, s.serial + 1)
    {
      assert HandlerOk(s, s.hs[g]);
      if SubscriberKey(s.hs[g].mark.value.0, s.hs[g].mark.value.1) == SubscriberKey(addr, s.serial + 1) {
        KeyInjective(s.hs[g].mark.value.0, s.hs[g].mark.value.1, addr, s.serial + 1);
      }
    }
  }

  /** Whoever was open in a session still is, next to the newcomer. */
  lemma {:induction false} SubscriberOpen(s: Relay, h: nat, r: nat, addr: string)
    requires Core(s) && h < |s.hs| && s.hs[h].phase == Opening(r) && s.hs[h].role.AsSubscriber? && r < |s.heap|
    ensures OpenOk(RegisterSubscriber(s, h, r, addr))
  {
    NewMarkOk(s, h, r, addr);
    var t := RegisterSubscriber(s, h, r, addr);
    forall g | 0 <= g < |t.hs| && t.hs[g].home.Some? && !t.hs[g].done
      ensures Present(t, g, t.hs[g]) || g in t.letting
    {
      if g != h && g !in s.letting {
        assert Present(s, g, s.hs[g]);
      }
    }
  }

  lemma {:induction false} SubscriberLetting(s: Relay, h: nat, r: nat, addr: string)
    requires Core(s) && h < |s.hs| && s.hs[h].phase == Opening(r) && s.hs[h].role.AsSubscriber? && r < |s.heap|
    ensures LettingOk(RegisterSubscriber(s, h, r, addr))
  {
    NewMarkOk(s, h, r, addr);
    var t := RegisterSubscriber(s, h, r, addr);
    assert HandlerOk(s, s.hs[h]);
    forall g | g in t.letting
      ensures g < |t.hs| && t.hs[g].role.AsSubscriber? && t.hs[g].home.Some? && t.hs[g].mark.Some? && !Present(t, g, t.hs[g])
    {
      assert g in s.letting && g != h;
    }
  }

  lemma {:induction false} SubscriberSessions(s: Relay, t: Relay, h: nat, r: nat, key: string)
    requires Core(s) && Later(s, t) && r < |s.heap| && t.heap == s.heap[r := WithSubscriber(s.heap[r], key, h)]
    requires Serves(t, h, r) && KeyOf(t.hs[h], key) && |t.hs| == |s.hs| && (forall g :: 0 <= g < |s.hs| ==> t.hs[g].done == s.hs[g].done)
    ensures SessionsOk(t)
  {
    forall q | 0 <= q < |t.heap|
      ensures SessionOk(t, q, t.heap[q])
    {
      assert SessionOk(s, q, s.heap[q]);
      SessionLater(s, t, q, s.heap[q]);
    }
  }

  lemma {:induction false} SubscriberCore(s: Relay, h: nat, r: nat, addr: string)
    requires Core(s) && h < |s.hs| && s.hs[h].phase == Opening(r) && s.hs[h].role.AsSubscriber?
    ensures Core(RegisterSubscriber(s, h, r, addr)) && Later(s, RegisterSubscriber(s, h, r, addr))
  {
    assert HandlerOk(s, s.hs[h]);
    NewMarkOk(s, h, r, addr);
    var t := RegisterSubscriber(s, h, r, addr);
    assert Later(s, t);
    forall g | 0 <= g < |t.hs|
      ensures HandlerOk(t, t.hs[g])
    {
      if g == h {
        NewHomeOk(s, t, s.hs[h], t.hs[h]);
      } else {
        assert HandlerOk(s, s.hs[g]);
        HandlerLater(s, t, s.hs[g], t.hs[g]);
      }
    }
    SubscriberSessions(s, t, h, r, SubscriberKey(addr, s.serial + 1));
    SubscriberOpen(s, h, r, addr);
    SubscriberLetting(s, h, r, addr);
    OrphansLater(s, t);
  }

  // ----- every step -----

  /** Steps that leave the table alone. */
  lemma {:induction false} TableLater(s: Relay, t: Relay)
    requires Inv(s) && Core(t) && Later(s, t) && t.table == s.table && t.gauge == s.gauge && t.dropped == s.dropped
    requires t.doomed.Some? ==> t.doomed.value in t.table
    requires forall r :: 0 <= r < |s.heap| ==> t.heap[r].closed == s.heap[r].closed
    ensures Inv(t)
  {
  }

  lemma {:induction false} UnfileInv(s: Relay, id: SessionId, t: Relay)
    requires Inv(s) && id in s.table && t == Unfile(s, id)
    ensures Core(t) && TableOk(t) && |t.table| == |s.table| - 1 && Later(s, t)
    ensures t.gauge == s.gauge && t.dropped == s.dropped
  {
    CloseSessionCore(s, s.table[id]);
    CoreOfTable(CloseSession(s, s.table[id]), t);
    assert t.table.Keys == s.table.Keys - {id};
    forall i | i in t.table
      ensures t.table[i] < |t.heap| && t.heap[t.table[i]].id == i && !t.heap[t.table[i]].closed
    {
      assert i in s.table && s.table[i] != s.table[id];
    }
  }

  lemma {:induction false} CountedInv(t: Relay, u: Relay)
    requires Core(t) && TableOk(t) && u == t.(gauge := u.gauge, dropped := u.dropped, doomed := None) && u.gauge == |t.table| + u.dropped
    ensures Inv(u)
  {
    CoreOfTable(t, u);
    assert TableOk(u) by {
      assert u.table == t.table && u.heap == t.heap;
    }
  }

  lemma {:induction false} CoreOfTable(s: Relay, t: Relay)
    requires Core(s) && t.heap == s.heap && t.hs == s.hs && t.orphans == s.orphans && t.letting == s.letting && t.serial == s.serial
    ensures Core(t) && Later(s, t)
  {
    assert Later(s, t);
    forall h | 0 <= h < |t.hs|
      ensures HandlerOk(t, t.hs[h])
    {
      HandlerLater(s, t, s.hs[h], t.hs[h]);
    }
    forall r | 0 <= r < |t.heap|
      ensures SessionOk(t, r, t.heap[r])
    {
      SessionLater(s, t, r, s.heap[r]);
    }
    OrphansLater(s, t);
  }

  lemma {:induction false} UnfiledShape(s: Relay, id: SessionId)
    requires id in s.table
    ensures RemoveSession(s, id) == Unfile(s, id).(gauge := s.gauge - 1, dropped := s.dropped)
    ensures DiscardSession(s, id) == Unfile(s, id).(gauge := s.gauge, dropped := s.dropped + 1)
  {
  }

  lemma {:induction false} UnfiledInv(s: Relay, id: SessionId, t: Relay, gauge: int, dropped: nat)
    requires Inv(s) && s.doomed.None? && id in s.table && t == Unfile(s, id) && gauge == |s.table| - 1 + dropped
    ensures Inv(t.(gauge := gauge, dropped := dropped))
  {
    UnfileInv(s, id, t);
    CountedInv(t, t.(gauge := gauge, dropped := dropped));
  }

  lemma {:induction false} RemoveSessionInv(s: Relay, id: SessionId)
    requires Inv(s) && s.doomed.None?
    ensures Inv(RemoveSession(s, id))
  {
    if id in s.table {
      UnfiledShape(s, id);
      UnfiledInv(s, id, Unfile(s, id), s.gauge - 1, s.dropped);
    }
  }

  lemma {:induction false} DiscardInv(s: Relay, id: SessionId)
    requires Inv(s) && s.doomed.None? && id in s.table
    ensures Inv(DiscardSession(s, id))
  {
    UnfiledShape(s, id);
    UnfiledInv(s, id, Unfile(s, id), s.gauge, s.dropped + 1);
  }

  lemma {:induction false} RemoveSessionLength(s: Relay, id: SessionId)
    ensures |RemoveSession(s, id).hs| == |s.hs|
  {
  }

  lemma {:induction false} MoveInv(s: Relay, h: nat, p: Phase)
    requires Inv(s) && h < |s.hs| && PhaseOk(s, s.hs[h].(phase := p))
    ensures Inv(Move(s, h, p))
  {
    MoveCore(s, h, p);
    TableLater(s, Move(s, h, p));
  }

  lemma {:induction false} HandInv(s: Relay, to: nat, item: Item<Envelope>)
    requires Inv(s) && to < |s.hs| && GotOk(s, s.hs[to], item)
    ensures Inv(Hand(s, to, item)) && Later(s, Hand(s, to, item))
    ensures forall h :: 0 <= h < |s.hs| ==> Hand(s, to, item).hs[h].phase == s.hs[h].phase
  {
    HandCore(s, to, item);
    TableLater(s, Hand(s, to, item));
  }

  lemma {:induction false} RegisterPublisherInv(s: Relay, h: nat, r: nat)
    requires Inv(s) && h < |s.hs| && s.hs[h].phase == Opening(r) && s.hs[h].role.AsPublisher? && r < |s.heap|
    ensures Inv(RegisterPublisher(s, h, r))
  {
    PublisherCore(s, h, r);
    TableLater(s, RegisterPublisher(s, h, r));
  }

  lemma {:induction false} RegisterSubscriberInv(s: Relay, h: nat, r: nat, addr: string)
    requires Inv(s) && h < |s.hs| && s.hs[h].phase == Opening(r) && s.hs[h].role.AsSubscriber? && r < |s.heap|
    ensures Inv(RegisterSubscriber(s, h, r, addr))
  {
    SubscriberCore(s, h, r, addr);
    TableLater(s, RegisterSubscriber(s, h, r, addr));
  }

  lemma {:induction false} RegisterInv(s: Relay, a: Action)
    requires Inv(s) && a.Register? && Enabled(s, a)
    ensures Inv(Step(s, a))
  {
    var x := s.hs[a.h];
    assert HandlerOk(s, x);
    if x.role.AsPublisher? {
      RegisterPublisherInv(s, a.h, x.phase.r);
    } else {
      RegisterSubscriberInv(s, a.h, x.phase.r, a.addr);
    }
  }

  lemma {:induction false} GreetInv(s: Relay, a: Action)
    requires Inv(s) && a.GreetOne? && Enabled(s, a)
    ensures Inv(Step(s, a))
  {
    var x := s.hs[a.h];
    assert HandlerOk(s, x);
    var r := x.phase.r;
    assert SessionOk(s, r, s.heap[r]);
    var sub := s.heap[r].subscribers[a.key];
    assert Serves(s, sub, r);
    assert HandlerOk(s, s.hs[sub]);
    HandInv(s, a.h, Item(s.hs[sub].first, sub));
  }

  lemma {:induction false} LookUpInv(s: Relay, a: Action)
    requires Inv(s) && a.LookUp? && Enabled(s, a)
    ensures Inv(Step(s, a))
  {
    var x := s.hs[a.h];
    assert HandlerOk(s, x);
    var r := x.phase.r;
    assert SessionOk(s, r, s.heap[r]);
    var to := s.heap[r].publisher;
    if to.Some? {
      assert Feeds(s, to.value, r);
      assert HandlerOk(s, s.hs[to.value]);
    }
    var p := if x.phase.Joined? then Asking(r, x.phase.key, x.first, to)
             else if x.phase.Listening? then Asking(r, x.phase.key, a.e, to)
             else Calling(r, to);
    assert ToOk(s, x.(phase := p), to);
    MoveInv(s, a.h, p);
  }

  lemma {:induction false} SendUpInv(s: Relay, a: Action)
    requires Inv(s) && a.SendUp? && Enabled(s, a)
    ensures Inv(Step(s, a))
  {
    var x := s.hs[a.h];
    assert HandlerOk(s, x);
    var p := x.phase;
    var q := if p.Asking? then Listening(p.r, p.key) else Over;
    var t := s;
    if a.ok && p.to.Some? {
      var item := Item(if p.Asking? then p.e else x.first, a.h);
      HandInv(s, p.to.value, item);
      t := Hand(s, p.to.value, item);
    }
    assert PhaseOk(t, t.hs[a.h].(phase := q));
    MoveInv(t, a.h, q);
  }

  lemma {:induction false} ForwardInv(s: Relay, a: Action)
    requires Inv(s) && a.Forward? && Enabled(s, a)
    ensures Inv(Step(s, a))
  {
    var x := s.hs[a.h];
    assert HandlerOk(s, x);
    assert SessionOk(s, x.phase.r, s.heap[x.phase.r]);
    MoveInv(s, a.h, Sending(x.phase.r, a.e, s.heap[x.phase.r].subscribers));
  }

  lemma {:induction false} OfferInv(s: Relay, a: Action)
    requires Inv(s) && a.Offer? && Enabled(s, a)
    ensures Inv(Step(s, a))
  {
    var x := s.hs[a.h];
    assert HandlerOk(s, x);
    var p := x.phase;
    var sub := p.todo[a.key];
    assert Serves(s, sub, p.r) && KeyOf(s.hs[sub], a.key);
    assert HandlerOk(s, s.hs[sub]);
    var t;
    if a.ok {
      t := Hand(s, sub, Item(p.e, a.h));
      HandInv(s, sub, Item(p.e, a.h));
    } else {
      t := s.(orphans := s.orphans + {(p.r, a.key, sub)});
      OrphanInv(s, (p.r, a.key, sub));
    }
    assert TodoOk(t, p.r, p.todo - {a.key}) by {
      TodoLater(s, t, p.r, p.todo);
    }
    assert PhaseOk(t, t.hs[a.h].(phase := p.(todo := p.todo - {a.key})));
    MoveInv(t, a.h, p.(todo := p.todo - {a.key}));
  }

  lemma {:induction false} OrphanInv(s: Relay, o: (nat, string, nat))
    requires Inv(s) && Serves(s, o.2, o.0) && KeyOf(s.hs[o.2], o.1)
    ensures Inv(s.(orphans := s.orphans + {o})) && Later(s, s.(orphans := s.orphans + {o}))
  {
    var t := s.(orphans := s.orphans + {o});
    assert Later(s, t);
    forall h | 0 <= h < |t.hs|
      ensures HandlerOk(t, t.hs[h])
    {
      HandlerLater(s, t, s.hs[h], t.hs[h]);
    }
    forall r | 0 <= r < |t.heap|
      ensures SessionOk(t, r, t.heap[r])
    {
      SessionLater(s, t, r, s.heap[r]);
    }
    forall u | u in t.orphans
      ensures Serves(t, u.2, u.0) && KeyOf(t.hs[u.2], u.1)
    {
      assert u in s.orphans ==> Serves(s, u.2, u.0) && KeyOf(s.hs[u.2], u.1);
    }
  }

  lemma {:induction false} RemoveSubscriberKeeps(s: Relay, r: nat, key: string)
    ensures var t := RemoveSubscriber(s, r, key);
      && |t.hs| == |s.hs| && (forall h :: 0 <= h < |s.hs| ==> t.hs[h].phase == s.hs[h].phase)
      && |t.heap| == |s.heap| && (forall q :: 0 <= q < |s.heap| ==> t.heap[q].closed == s.heap[q].closed)
      && t.table == s.table && t.gauge == s.gauge && t.dropped == s.dropped && t.orphans == s.orphans && t.doomed == s.doomed
  {
  }

  lemma {:induction false} RemoveSubscriberInv(s: Relay, r: nat, key: string)
    requires Inv(s)
    ensures Inv(RemoveSubscriber(s, r, key)) && Later(s, RemoveSubscriber(s, r, key))
  {
    RemoveSubscriberKeeps(s, r, key);
    RemoveSubscriberCore(s, r, key);
    var t := RemoveSubscriber(s, r, key);
    assert TableOk(t) by {
      TableLater(s, t);
    }
  }

  lemma {:induction false} RemoveOwnInv(s: Relay, a: Action)
    requires Inv(s) && a.RemoveOwn? && Enabled(s, a)
    ensures Inv(Step(s, a))
  {
    var p := s.hs[a.h].phase;
    assert HandlerOk(s, s.hs[a.h]);
    RemoveSubscriberInv(s, p.r, p.key);
    RemoveSubscriberKeeps(s, p.r, p.key);
    MoveInv(RemoveSubscriber(s, p.r, p.key), a.h, Left(p.r));
  }

  lemma {:induction false} RemoveOrphanInv(s: Relay, o: (nat, string, nat))
    requires Inv(s) && o in s.orphans
    ensures Inv(RemoveSubscriber(s, o.0, o.1).(orphans := s.orphans - {o}))
  {
    RemoveSubscriberInv(s, o.0, o.1);
    RemoveSubscriberKeeps(s, o.0, o.1);
    var t := RemoveSubscriber(s, o.0, o.1);
    var u := t.(orphans := t.orphans - {o});
    assert Later(t, u);
    forall h | 0 <= h < |u.hs|
      ensures HandlerOk(u, u.hs[h])
    {
      HandlerLater(t, u, t.hs[h], u.hs[h]);
    }
    forall r | 0 <= r < |u.heap|
      ensures SessionOk(u, r, u.heap[r])
    {
      SessionLater(t, u, r, t.heap[r]);
    }
    OrphansLater(t, u);
  }

  /** A subscriber's connection closes on its own; its session still points to it. */
  lemma {:induction false} LoseCore(s: Relay, t: Relay, h: nat)
    requires Core(s) && h < |s.hs| && s.hs[h].role.AsSubscriber? && s.hs[h].home.Some?
    requires t == s.(hs := CloseConns(s.hs, {h}))
    ensures Core(t) && Later(s, t)
  {
    assert HandlerOk(s, s.hs[h]);
    NobodysPublisher(s, h);
    ClosedCore(s, t, {h});
  }

  lemma {:induction false} WriteFailsInv(s: Relay, h: nat)
    requires Inv(s) && h < |s.hs| && s.hs[h].role.AsSubscriber? && s.hs[h].home.Some?
    ensures Inv(s.(hs := CloseConns(s.hs, {h})))
  {
    var t := s.(hs := CloseConns(s.hs, {h}));
    LoseCore(s, t, h);
    TableLater(s, t);
  }

  lemma {:induction false} RemoveByIdInv(s: Relay, a: Action)
    requires Inv(s) && a.RemoveById? && Enabled(s, a)
    ensures Inv(Step(s, a))
  {
    var id := s.heap[s.hs[a.h].phase.r].id;
    RemoveSessionInv(s, id);
    RemoveSessionLength(s, id);
    MoveInv(RemoveSession(s, id), a.h, Over);
  }

  /** A handler takes its next step without touching anything shared. */
  lemma {:induction false} NextFrameInv(s: Relay, a: Action)
    requires Inv(s) && Enabled(s, a) && (a.Greeted? || a.Forwarded?)
    ensures Inv(Step(s, a))
  {
    var q := s.hs[a.h].phase;
    assert HandlerOk(s, s.hs[a.h]);
    MoveInv(s, a.h, if a.Forwarded? && q.e.msgType == CLOSE then Closing(q.r) else Reading(q.r));
  }

  lemma {:induction false} HangUpInv(s: Relay, a: Action)
    requires Inv(s) && Enabled(s, a) && a.HangUp?
    ensures Inv(Step(s, a))
  {
    var q := s.hs[a.h].phase;
    assert HandlerOk(s, s.hs[a.h]);
    MoveInv(s, a.h, if q.Reading? then Closing(q.r) else Leaving(q.r, q.key));
  }

  lemma {:induction false} TestEmptyInv(s: Relay, a: Action)
    requires Inv(s) && Enabled(s, a) && a.TestEmpty?
    ensures Inv(Step(s, a))
  {
    var q := s.hs[a.h].phase;
    assert HandlerOk(s, s.hs[a.h]);
    MoveInv(s, a.h, if s.heap[q.r].publisher.None? && |s.heap[q.r].subscribers| == 0 then Emptied(q.r) else Over);
  }

  lemma {:induction false} OwnStepInv(s: Relay, a: Action)
    requires Inv(s) && Enabled(s, a) && (a.Greeted? || a.Forwarded? || a.HangUp? || a.TestEmpty?)
    ensures Inv(Step(s, a))
  {
    if a.HangUp? {
      HangUpInv(s, a);
    } else if a.TestEmpty? {
      TestEmptyInv(s, a);
    } else {
      NextFrameInv(s, a);
    }
  }

  lemma {:induction false} CloseRemovedCore(s: Relay, t: Relay, g: nat)
    requires Core(s) && g in s.letting && t == s.(hs := CloseConns(s.hs, {g}), letting := s.letting - {g})
    ensures Core(t) && Later(s, t)
  {
    assert HandlerOk(s, s.hs[g]);
    NobodysPublisher(s, g);
    forall r | 0 <= r < |s.heap|
      ensures Thinned(s.heap[r], t.heap[r], {g})
    {
    }
    ClosedCore(s, t, {g});
  }

  lemma {:induction false} CloseRemovedInv(s: Relay, a: Action)
    requires Inv(s) && Enabled(s, a) && a.CloseRemoved?
    ensures Inv(Step(s, a))
  {
    CloseRemovedCore(s, Step(s, a), a.g);
    TableLater(s, Step(s, a));
  }

  lemma {:induction false} OrphanStepInv(s: Relay, a: Action)
    requires Inv(s) && Enabled(s, a) && a.RemoveOrphan?
    ensures Inv(Step(s, a))
  {
    RemoveOrphanInv(s, a.o);
  }

  lemma {:induction false} FailStepInv(s: Relay, a: Action)
    requires Inv(s) && Enabled(s, a) && a.WriteFails?
    ensures Inv(Step(s, a))
  {
    WriteFailsInv(s, a.h);
  }

  /** The reaper takes the table's lock, or gives it back. */
  lemma {:induction false} LockInv(s: Relay, t: Relay)
    requires Inv(s) && t == s.(doomed := t.doomed) && (t.doomed.Some? ==> t.doomed.value in s.table)
    ensures Inv(t)
  {
    CoreOfTable(s, t);
    TableLater(s, t);
  }

  lemma {:induction false} ReapTestInv(s: Relay, a: Action)
    requires Inv(s) && Enabled(s, a) && a.ReapTest?
    ensures Inv(Step(s, a))
  {
    LockInv(s, s.(doomed := Some(a.id)));
  }

  lemma {:induction false} ReapCloseInv(s: Relay, a: Action)
    requires Inv(s) && Enabled(s, a) && a.ReapClose?
    ensures Inv(Step(s, a))
  {
    var id := s.doomed.value;
    UnfiledShape(s, id);
    UnfileInv(s, id, Unfile(s, id));
    CountedInv(Unfile(s, id), Step(s, a));
  }

  lemma {:induction false} DiscardStepInv(s: Relay, a: Action)
    requires Inv(s) && Enabled(s, a) && a.Discard?
    ensures Inv(Step(s, a))
  {
    DiscardInv(s, a.id);
  }

  lemma {:induction false} SharedStepInv(s: Relay, a: Action)
    requires Inv(s) && Enabled(s, a) && (a.RemoveOrphan? || a.CloseRemoved? || a.WriteFails? || a.ReapTest? || a.ReapClose? || a.Discard?)
    ensures Inv(Step(s, a))
  {
    if a.RemoveOrphan? {
      OrphanStepInv(s, a);
    } else if a.CloseRemoved? {
      CloseRemovedInv(s, a);
    } else if a.WriteFails? {
      FailStepInv(s, a);
    } else if a.ReapTest? {
      ReapTestInv(s, a);
    } else if a.ReapClose? {
      ReapCloseInv(s, a);
    } else {
      DiscardStepInv(s, a);
    }
  }

  lemma {:induction false} FirstInv(s: Relay, a: Action)
    requires Inv(s) && a.First? && Enabled(s, a)
    ensures Inv(Step(s, a))
  {
    AcceptInv(s, a.e, a.now);
  }

  lemma {:induction false} UpstreamInv(s: Relay, a: Action)
    requires Inv(s) && Enabled(s, a) && (a.LookUp? || a.SendUp? || a.RemoveOwn? || a.RemoveById?)
    ensures Inv(Step(s, a))
  {
    if a.LookUp? {
      LookUpInv(s, a);
    } else if a.SendUp? {
      SendUpInv(s, a);
    } else if a.RemoveOwn? {
      RemoveOwnInv(s, a);
    } else {
      RemoveByIdInv(s, a);
    }
  }

  lemma {:induction false} StepInv(s: Relay, a: Action)
    requires Inv(s) && Enabled(s, a)
    ensures Inv(Step(s, a))
  {
    if a.First? {
      FirstInv(s, a);
    } else if a.Register? {
      RegisterInv(s, a);
    } else if a.GreetOne? {
      GreetInv(s, a);
    } else if a.Forward? {
      ForwardInv(s, a);
    } else if a.Offer? {
      OfferInv(s, a);
    } else if a.LookUp? || a.SendUp? || a.RemoveOwn? || a.RemoveById? {
      UpstreamInv(s, a);
    } else if a.Greeted? || a.Forwarded? || a.HangUp? || a.TestEmpty? {
      OwnStepInv(s, a);
    } else {
      SharedStepInv(s, a);
    }
  }

  lemma {:induction false} RunInv(s: Relay, run: seq<Action>)
    requires Inv(s) && Runs(s, run)
    ensures Inv(Reached(s, run))
    decreases |run|
  {
    if run != [] {
      StepInv(s, run[0]);
      RunInv(Step(s, run[0]), run[1..]);
    }
  }

  // ----- what this means, over every run -----

  lemma {:induction false} InitialInv(s: Relay)
    requires Initial(s)
    ensures Inv(s)
  {
  }

  /** Frames stay within their session: whatever reached a subscriber was sent by the handler of a connection that opened as
      publisher for the same session id and was registered in the very same session; whatever reached a publisher came from
      a connection that opened for the same session id, and not as a publisher. */
  lemma {:induction false} FramesStayInSession(s0: Relay, run: seq<Action>, h: nat, i: nat)
    requires Initial(s0) && Runs(s0, run) && h < |Reached(s0, run).hs| && i < |Reached(s0, run).hs[h].got|
    ensures var s := Reached(s0, run);
      var from := s.hs[h].got[i].from;
      && from < |s.hs| && s.hs[from].first.sessionId == s.hs[h].first.sessionId
      && (s.hs[h].first.msgType == PAKE_INIT_SUB ==>
            && s.hs[from].first.msgType == PAKE_INIT_PUB
            && s.hs[h].home.Some? && s.hs[from].home == s.hs[h].home)
      && (s.hs[h].first.msgType == PAKE_INIT_PUB ==> s.hs[from].first.msgType != PAKE_INIT_PUB)
      && s.hs[h].first.msgType in {PAKE_INIT_PUB, PAKE_INIT_SUB}
  {
    InitialInv(s0);
    RunInv(s0, run);
    var s := Reached(s0, run);
    assert HandlerOk(s, s.hs[h]);
    var item := s.hs[h].got[i];
    assert GotOk(s, s.hs[h], item);
    assert HandlerOk(s, s.hs[item.from]);
  }

  /** A session has at most one open publisher: of all the connections ever registered as publisher in it, at most one has
      not been closed, and it is the one the session points to. */
  lemma {:induction false} OneOpenPublisher(s0: Relay, run: seq<Action>, r: nat, g: nat, h: nat)
    requires Initial(s0) && Runs(s0, run) && r < |Reached(s0, run).heap|
    requires var s := Reached(s0, run);
      && g < |s.hs| && s.hs[g].role.AsPublisher? && s.hs[g].home == Some(r) && !s.hs[g].done
      && h < |s.hs| && s.hs[h].role.AsPublisher? && s.hs[h].home == Some(r) && !s.hs[h].done
    ensures g == h && Reached(s0, run).heap[r].publisher == Some(h)
  {
    InitialInv(s0);
    RunInv(s0, run);
  }

  /** While a session has not been closed, all its frames come from one connection: only one publisher has ever registered
      there, so at most one handler is forwarding. */
  lemma {:induction false} OneForwarder(s0: Relay, run: seq<Action>, r: nat, g: nat, h: nat)
    requires Initial(s0) && Runs(s0, run) && r < |Reached(s0, run).heap| && !Reached(s0, run).heap[r].closed
    requires var s := Reached(s0, run);
      && g < |s.hs| && s.hs[g].role.AsPublisher? && s.hs[g].home == Some(r)
      && h < |s.hs| && s.hs[h].role.AsPublisher? && s.hs[h].home == Some(r)
    ensures g == h && Reached(s0, run).heap[r].publisher == Some(h)
  {
    InitialInv(s0);
    RunInv(s0, run);
    var s := Reached(s0, run);
    assert g !in s.letting && h !in s.letting;
    assert Present(s, g, s.hs[g]) && Present(s, h, s.hs[h]);
  }

  /** So all that a subscriber of such a session has been handed came from one connection. */
  lemma {:induction false} OneSource(s0: Relay, run: seq<Action>, h: nat, i: nat, j: nat)
    requires Initial(s0) && Runs(s0, run)
    requires var s := Reached(s0, run);
      && h < |s.hs| && s.hs[h].role.AsSubscriber? && i < |s.hs[h].got| && j < |s.hs[h].got|
      && (s.hs[h].home.Some? && s.hs[h].home.value < |s.heap| ==> !s.heap[s.hs[h].home.value].closed)
    ensures Reached(s0, run).hs[h].got[i].from == Reached(s0, run).hs[h].got[j].from
  {
    InitialInv(s0);
    RunInv(s0, run);
    var s := Reached(s0, run);
    assert HandlerOk(s, s.hs[h]);
    assert GotOk(s, s.hs[h], s.hs[h].got[i]) && GotOk(s, s.hs[h], s.hs[h].got[j]);
    OneForwarder(s0, run, s.hs[h].home.value, s.hs[h].got[i].from, s.hs[h].got[j].from);
  }

  /** Conversely the publisher a session points to is registered there and open, so a newcomer is accepted if and only if
      there is none: the branch that replaces a closed publisher is never taken. */
  lemma {:induction false} NewcomerAcceptedIff(s0: Relay, run: seq<Action>, h: nat, addr: string)
    requires Initial(s0) && Runs(s0, run) && Enabled(Reached(s0, run), Register(h, addr))
    requires Reached(s0, run).hs[h].role.AsPublisher?
    ensures var s := Reached(s0, run);
      var r := s.hs[h].phase.r;
      var t := Step(s, Register(h, addr));
      && (s.heap[r].publisher.None? ==> t.heap[r].publisher == Some(h) && !t.hs[h].done)
      && (s.heap[r].publisher.Some? ==>
            && t.heap == s.heap && t.hs[h].done && t.hs[h].phase.Over?
            && s.heap[r].publisher.value < |s.hs| && !s.hs[s.heap[r].publisher.value].done)
  {
    InitialInv(s0);
    RunInv(s0, run);
    var s := Reached(s0, run);
    assert HandlerOk(s, s.hs[h]);
    assert SessionOk(s, s.hs[h].phase.r, s.heap[s.hs[h].phase.r]);
  }

  /** The connection a removal is about. */
  function Owner(a: Action): (g: nat)
    requires a.RemoveOwn? || a.RemoveOrphan? || a.CloseRemoved?
  {
    match a
    case RemoveOwn(h) => h
    case RemoveOrphan(o) => o.2
    case CloseRemoved(g) => g
  }

  lemma {:induction false} SameKeySameConnection(s: Relay, g: nat, h: nat, key: string)
    requires MarksOk(s) && g < |s.hs| && h < |s.hs| && KeyOf(s.hs[g], key) && KeyOf(s.hs[h], key)
    ensures g == h
  {
    var m, n := s.hs[g].mark.value, s.hs[h].mark.value;
    KeyInjective(m.0, m.1, n.0, n.1);
  }

  /** y is x without connection g. */
  predicate Without(x: Session<SessionId, nat>, y: Session<SessionId, nat>, g: nat) {
    && y.publisher == x.publisher && y.closed == x.closed
    && (forall k :: k in y.subscribers ==> k in x.subscribers && y.subscribers[k] == x.subscribers[k])
    && (forall k :: k in x.subscribers && x.subscribers[k] != g ==> k in y.subscribers)
  }

  /** From s to t nobody but connection g was let go. */
  predicate LetsGoOf(s: Relay, t: Relay, g: nat) {
    && |t.hs| == |s.hs| && (forall h :: 0 <= h < |s.hs| && h != g ==> t.hs[h] == s.hs[h])
    && |t.heap| == |s.heap| && (forall r :: 0 <= r < |s.heap| ==> Without(s.heap[r], t.heap[r], g))
    && t.table == s.table && t.letting <= s.letting + {g}
  }

  lemma {:induction false} RemoveSubscriberLetsGo(s: Relay, r: nat, key: string, g: nat)
    requires r < |s.heap| && key in s.heap[r].subscribers ==> s.heap[r].subscribers[key] == g
    ensures LetsGoOf(s, RemoveSubscriber(s, r, key), g)
  {
  }

  lemma {:induction false} KeyIsOwners(s: Relay, r: nat, key: string, g: nat)
    requires Core(s) && r < |s.heap| && key in s.heap[r].subscribers && g < |s.hs| && KeyOf(s.hs[g], key)
    ensures s.heap[r].subscribers[key] == g
  {
    assert SessionOk(s, r, s.heap[r]);
    SameKeySameConnection(s, s.heap[r].subscribers[key], g, key);
  }

  /** A subscriber's removal, by its own handler or after a refused send, lets go of its own connection and of no other, in
      whatever session, and then closes that one: keys never collide. */
  lemma {:induction false} RemovalIsOwn(s0: Relay, run: seq<Action>, a: Action)
    requires Initial(s0) && Runs(s0, run) && Enabled(Reached(s0, run), a)
    requires a.RemoveOwn? || a.RemoveOrphan? || a.CloseRemoved?
    ensures LetsGoOf(Reached(s0, run), Step(Reached(s0, run), a), Owner(a))
  {
    InitialInv(s0);
    RunInv(s0, run);
    var s := Reached(s0, run);
    if a.RemoveOwn? {
      OwnRemoval(s, a);
    } else if a.RemoveOrphan? {
      OrphanRemoval(s, a);
    } else {
      CloseOfRemoved(s, a);
    }
  }

  lemma {:induction false} CloseOfRemoved(s: Relay, a: Action)
    requires Enabled(s, a) && a.CloseRemoved?
    ensures LetsGoOf(s, Step(s, a), a.g)
  {
  }

  lemma {:induction false} OwnRemoval(s: Relay, a: Action)
    requires Inv(s) && Enabled(s, a) && a.RemoveOwn?
    ensures LetsGoOf(s, Step(s, a), a.h)
  {
    assert HandlerOk(s, s.hs[a.h]);
    var r, key := s.hs[a.h].phase.r, s.hs[a.h].phase.key;
    if key in s.heap[r].subscribers {
      KeyIsOwners(s, r, key, a.h);
    }
    RemoveSubscriberLetsGo(s, r, key, a.h);
  }

  lemma {:induction false} OrphanRemoval(s: Relay, a: Action)
    requires Inv(s) && Enabled(s, a) && a.RemoveOrphan?
    ensures LetsGoOf(s, Step(s, a), a.o.2)
  {
    assert Serves(s, a.o.2, a.o.0) && KeyOf(s.hs[a.o.2], a.o.1);
    if a.o.0 < |s.heap| && a.o.1 in s.heap[a.o.0].subscribers {
      KeyIsOwners(s, a.o.0, a.o.1, a.o.2);
    }
    RemoveSubscriberLetsGo(s, a.o.0, a.o.1, a.o.2);
  }

  /** Every session in the table is open and filed under its own id, and the gauge counts the table plus what CloseAll
      discarded; in a run without CloseAll it is the size of the table. */
  lemma {:induction false} TableOverRuns(s0: Relay, run: seq<Action>)
    requires Initial(s0) && Runs(s0, run)
    ensures var s := Reached(s0, run);
      && (forall id :: id in s.table ==> s.table[id] < |s.heap| && s.heap[s.table[id]].id == id && !s.heap[s.table[id]].closed)
      && s.gauge == |s.table| + s.dropped
      && ((forall i :: 0 <= i < |run| ==> !run[i].Discard?) ==> s.gauge == |s.table|)
  {
    InitialInv(s0);
    RunInv(s0, run);
    if forall i :: 0 <= i < |run| ==> !run[i].Discard? {
      NothingDropped(s0, run);
    }
  }

  lemma {:induction false} NothingDropped(s: Relay, run: seq<Action>)
    requires Runs(s, run) && forall i :: 0 <= i < |run| ==> !run[i].Discard?
    ensures Reached(s, run).dropped == s.dropped
    decreases |run|
  {
    if run != [] {
      assert !run[0].Discard?;
      DroppedStep(s, run[0]);
      NothingDropped(Step(s, run[0]), run[1..]);
    }
  }

  lemma {:induction false} DroppedStep(s: Relay, a: Action)
    requires Enabled(s, a) && !a.Discard?
    ensures Step(s, a).dropped == s.dropped
  {
  }

  /** Only a handshake frame makes the table grow, and only by its own session id. */
  lemma {:induction false} OnlyHandshakesGrow(s: Relay, a: Action, id: SessionId)
    requires Enabled(s, a) && id in Step(s, a).table && id !in s.table
    ensures a.First? && a.e.sessionId == id && (a.e.msgType == PAKE_INIT_PUB || a.e.msgType == PAKE_INIT_SUB)
  {
  }
}
