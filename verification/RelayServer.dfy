/**
 The relay's session table (pkg/relay/server.go) and its sessions (pkg/relay/session.go) as the objects they are. A method of
 RelaySession other than the two Admit methods, and GetOrCreateSession, LookupSession, RemoveSession and CloseAll of
 Server, is one critical section of the source. ReapStaleSessions lets other handlers register between the test of a
 session and its close. HandleFirstFrame and LeaveSubscriber are several critical sections in a row, here without
 interruption; RelayRuns interleaves them. `ever` remembers sessions that have left the table.
 */
module RelayServer {
  import opened Wrappers
  import opened ByteStrings
  import opened EnvelopeCodec
  import opened SubscriberKeys
  import opened Sessions
  import opened FanOut

  /** SendFrame refuses: the queue is full, or the connection is closed and chance does not favour it. */
  predicate Refuses(k: Client<Envelope>, lucky: bool) {
    |k.queue| >= QUEUE_SIZE || (k.done && !lucky)
  }

  /** As before if its turn has not come; otherwise it has been offered the frame. */
  ghost predicate OfferedOne(c: ClientConn, before: Client<Envelope>, waits: bool, lucky: bool, e: Envelope)
    reads c
  {
    && c.isSubscriber && QueueOk(c.View())
    && c.View() == if waits then before else Offered(before, e, !Refuses(before, lucky))
  }

  ghost predicate OfferedTo(before: map<ClientConn, Client<Envelope>>, todo: set<ClientConn>, lucky: set<ClientConn>, e: Envelope)
    reads before.Keys
  {
    forall c :: c in before.Keys ==> OfferedOne(c, before[c], c in todo, c in lucky, e)
  }

  method OfferNext(c: ClientConn, e: Envelope, lucky: bool, ghost before: Client<Envelope>) returns (ok: bool)
    requires OfferedOne(c, before, true, lucky, e)
    modifies c
    ensures OfferedOne(c, before, false, lucky, e) && ok == !Refuses(before, lucky)
  {
    ok := c.SendFrame(e, lucky);
  }

  method OfferStep(c: ClientConn, e: Envelope, lucky: set<ClientConn>, ghost before: map<ClientConn, Client<Envelope>>, ghost todo: set<ClientConn>)
    returns (ok: bool)
    requires c in todo && c in before.Keys && OfferedTo(before, todo, lucky, e)
    modifies c
    ensures OfferedTo(before, todo - {c}, lucky, e) && ok == !Refuses(before[c], c in lucky)
  {
    assert OfferedOne(c, before[c], true, c in lucky, e);
    ok := OfferNext(c, e, c in lucky, before[c]);
    forall d | d in before.Keys
      ensures OfferedOne(d, before[d], d in todo - {c}, d in lucky, e)
    {
      if d != c {
        assert old(OfferedOne(d, before[d], d in todo, d in lucky, e));
      }
    }
  }

  /** Those whose turn has come and that refuse. */
  predicate Reported(before: map<ClientConn, Client<Envelope>>, todo: set<ClientConn>, lucky: set<ClientConn>, refused: set<ClientConn>) {
    refused <= before.Keys && forall c :: c in before.Keys ==> (c in refused <==> c !in todo && Refuses(before[c], c in lucky))
  }

  lemma {:induction false} ReportedNext(before: map<ClientConn, Client<Envelope>>, todo: set<ClientConn>, lucky: set<ClientConn>, refused: set<ClientConn>, c: ClientConn)
    requires Reported(before, todo, lucky, refused) && c in todo && c in before.Keys
    ensures Reported(before, todo - {c}, lucky, if Refuses(before[c], c in lucky) then refused + {c} else refused)
  {
  }

  method OfferEach(cs: set<ClientConn>, e: Envelope, lucky: set<ClientConn>, ghost before: map<ClientConn, Client<Envelope>>)
    returns (refused: set<ClientConn>)
    requires before.Keys == cs && OfferedTo(before, cs, lucky, e)
    modifies cs
    ensures OfferedTo(before, {}, lucky, e) && Reported(before, {}, lucky, refused)
  {
    refused := {};
    var todo := cs;
    while todo != {}
      invariant todo <= cs && OfferedTo(before, todo, lucky, e) && Reported(before, todo, lucky, refused)
      decreases todo
    {
      var c :| c in todo;
      ReportedNext(before, todo, lucky, refused, c);
      var ok := OfferStep(c, e, lucky, before, todo);
      todo := todo - {c};
      if !ok {
        refused := refused + {c};
      }
    }
  }

  /** Offer the frame to each of these connections; the result are those that refused it. */
  method OfferAll(cs: set<ClientConn>, e: Envelope, lucky: set<ClientConn>) returns (refused: set<ClientConn>)
    requires forall c :: c in cs ==> c.isSubscriber && QueueOk(c.View())
    modifies cs
    ensures refused <= cs && forall c :: c in cs ==> (c in refused <==> old(Refuses(c.View(), c in lucky)))
    ensures forall c :: c in cs ==> c.View() == Offered(old(c.View()), e, c !in refused) && QueueOk(c.View())
  {
    ghost var before := map c | c in cs :: c.View();
    refused := OfferEach(cs, e, lucky, before);
    assert forall c :: c in cs ==> OfferedOne(c, before[c], false, c in lucky, e);
  }

  method CloseEach(cs: set<ClientConn>)
    modifies cs
    ensures forall c :: c in cs ==> c.View() == Closed(old(c.View()))
  {
    var todo := cs;
    while todo != {}
      invariant todo <= cs
      invariant forall c :: c in todo ==> c.View() == old(c.View())
      invariant forall c :: c in cs - todo ==> c.View() == Closed(old(c.View()))
      decreases todo
    {
      var c :| c in todo;
      c.Close();
      todo := todo - {c};
    }
  }

  ghost predicate AllClosed(cs: set<ClientConn>)
    reads cs
  {
    forall c :: c in cs ==> c.done
  }

  /** Session ids are compared for equality and nothing else. */
  class RelaySession<Id(==, !new)> {
    const sessionId: Id
    const createdAt: int
    var publisher: Option<ClientConn>
    var subscribers: map<string, ClientConn>
    var closed: bool
    ghost var accepted: set<ClientConn>            // publishers ever registered here
    ghost var marks: map<string, (string, nat)>    // address and serial of each key ever handed out
    ghost var keyOf: map<ClientConn, string>       // the one key a connection was registered under
    ghost var maxSerial: nat

    ghost function View(): Session<Id, ClientConn>
      reads this
    {
      Session(sessionId, createdAt, closed, publisher, subscribers)
    }

    /** Keys come from distinct serials and name distinct connections. */
    ghost predicate Valid()
      reads this
    {
      && (publisher.Some? ==> publisher.value in accepted && !publisher.value.isSubscriber)
      && (forall k :: k in subscribers ==>
            && subscribers[k].isSubscriber && subscribers[k] in keyOf && keyOf[subscribers[k]] == k
            && k in marks && k == SubscriberKey(marks[k].0, marks[k].1) && marks[k].1 <= maxSerial)
    }

    /** Of all the publishers ever registered here, only the current one is open. */
    ghost predicate OnePublisher()
      reads this, accepted
    {
      forall p :: p in accepted ==> p.done || publisher == Some(p)
    }

    /** Everybody the session would let go. */
    ghost function Clients(): set<ClientConn>
      reads this
    {
      subscribers.Values + (if publisher.Some? then {publisher.value} else {})
    }

    ghost predicate QueuesOk()
      reads this, subscribers.Values
    {
      forall k :: k in subscribers ==> QueueOk(subscribers[k].View())
    }

    constructor (sid: Id, now: int)
      ensures Valid() && OnePublisher() && View() == NewSession(sid, now) && accepted == {} && maxSerial == 0
    {
      sessionId, createdAt, publisher, subscribers, closed := sid, now, None, map[], false;
      accepted, marks, keyOf, maxSerial := {}, map[], map[], 0;
    }

    predicate Reapable(now: int): (r: bool)
      reads this
      ensures r == IsReapable(View(), now)
    {
      (closed || (publisher.None? && |subscribers| == 0)) && now - createdAt >= GRACE_PERIOD
    }

    /** A publisher that is still open is never displaced: the newcomer is turned away. */
    method RegisterPublisher(env: Envelope) returns (pub: ClientConn?)
      requires Valid()
      modifies this`publisher, this`accepted, if publisher.Some? then {publisher.value} else {}
      ensures Valid() && (old(OnePublisher()) ==> OnePublisher())
      ensures pub == null <==> old(publisher.Some? && !publisher.value.done)
      ensures pub == null ==> View() == old(View()) && accepted == old(accepted) && publisher.value.View() == old(publisher.value.View())
      ensures pub != null ==>
        && fresh(pub) && !pub.isSubscriber && pub.initialEnv == env && !pub.done && pub.wire == []
        && View() == WithPublisher(old(View()), pub) && accepted == old(accepted) + {pub}
    {
      if publisher.Some? {
        if !publisher.value.done {
          return null;
        }
        publisher.value.Close();
        publisher := None;
      }
      pub := new ClientConn(false, env, 0);
      publisher := Some(pub);
      accepted := accepted + {pub};
    }

    /** The new key collides with no other, so no subscriber is overwritten. */
    method RegisterSubscriber(addr: string, serial: nat, env: Envelope, ghost position: nat) returns (sub: ClientConn, key: string)
      requires Valid() && maxSerial < serial
      modifies this`subscribers, this`marks, this`keyOf, this`maxSerial
      ensures Valid() && key == SubscriberKey(addr, serial) && key !in old(subscribers) && maxSerial == serial
      ensures fresh(sub) && sub.isSubscriber && sub.initialEnv == env
      ensures sub.View() == NewClient(position)
      ensures View() == WithSubscriber(old(View()), key, sub)
    {
      key := SubscriberKey(addr, serial);
      if key in subscribers {
        KeyInjective(addr, serial, marks[key].0, marks[key].1);
        assert false;
      }
      sub := new ClientConn(true, env, position);
      subscribers := subscribers[key := sub];
      marks, keyOf := marks[key := (addr, serial)], keyOf[sub := key];
      maxSerial := serial;
    }

    /** The named connection is closed and forgotten, and no other. */
    method RemoveSubscriber(key: string)
      requires Valid()
      modifies this`subscribers, if key in subscribers then {subscribers[key]} else {}
      ensures Valid() && View() == WithoutSubscriber(old(View()), key)
      ensures key in old(subscribers) ==> old(subscribers[key]).View() == Closed(old(subscribers[key].View()))
    {
      if key in subscribers {
        var sub := subscribers[key];
        subscribers := subscribers - {key};
        sub.Close();
      } else {
        assert subscribers - {key} == subscribers;
      }
    }

    /** ForwardFromPublisher: every subscriber of the snapshot is offered the frame; reported are those whose queue is full, and
        those that are closed, except for the lucky ones that take it nevertheless. */
    method ForwardFromPublisher(e: Envelope, lucky: set<ClientConn>) returns (refused: set<string>)
      requires Valid() && QueuesOk()
      modifies subscribers.Values
      ensures Valid() && QueuesOk() && refused <= subscribers.Keys
      ensures forall k :: k in subscribers ==>
        (k in refused <==> |old(subscribers[k].sendCh)| >= QUEUE_SIZE || (old(subscribers[k].done) && subscribers[k] !in lucky))
      ensures forall k :: k in subscribers ==> subscribers[k].View() == Offered(old(subscribers[k].View()), e, k !in refused)
    {
      var failed := OfferAll(subscribers.Values, e, lucky);
      refused := set k | k in subscribers && subscribers[k] in failed;
    }

    /** ForwardToPublisher: an error without a publisher, otherwise a write on its connection, whose outcome is `up`. */
    method ForwardToPublisher(e: Envelope, up: bool) returns (ok: bool)
      requires Valid()
      modifies if publisher.Some? then {publisher.value} else {}
      ensures Valid() && ok == (publisher.Some? && up)
      ensures publisher.Some? ==>
        publisher.value.View() == old(publisher.value.View()).(written := old(publisher.value.wire) + (if ok then [e] else []))
    {
      if publisher.None? {
        return false;
      }
      ok := publisher.value.SendFrame(e, up);
    }

    /** A new publisher is sent the handshakes of the subscribers that wait for it, each once, in any order; missing are exactly
        those whose write fails. */
    method Greet(pub: ClientConn, down: set<string>) returns (ghost order: seq<string>, ghost sent: seq<Envelope>)
      requires Valid() && !pub.isSubscriber
      modifies pub
      ensures Valid() && pub.done == old(pub.done) && pub.wire == old(pub.wire) + sent && Greeted(sent, down, order)
    {
      order, sent := [], [];
      var todo := subscribers.Keys;
      while todo != {}
        invariant todo <= subscribers.Keys && pub.done == old(pub.done) && pub.wire == old(pub.wire) + sent
        invariant GreetedExcept(todo, sent, down, order)
        decreases todo
      {
        var k :| k in todo;
        var ok := pub.SendFrame(subscribers[k].initialEnv, k !in down);
        GreetedNext(todo, sent, down, order, k);
        todo := todo - {k};
        if ok {
          order, sent := order + [k], sent + [subscribers[k].initialEnv];
        }
      }
    }

    /** These are the handshakes of the current subscribers, each once, all but those whose write failed. */
    ghost predicate Greeted(sent: seq<Envelope>, down: set<string>, order: seq<string>)
      reads this
    {
      GreetedExcept({}, sent, down, order)
    }

    /** ...and all but those whose turn has not come. */
    ghost predicate GreetedExcept(todo: set<string>, sent: seq<Envelope>, down: set<string>, order: seq<string>)
      reads this
    {
      && |sent| == |order|
      && (forall i :: 0 <= i < |order| ==> order[i] in subscribers && order[i] !in todo && sent[i] == subscribers[order[i]].initialEnv)
      && (forall i, j :: 0 <= i < j < |order| ==> order[i] != order[j])
      && (forall k :: k in subscribers && k !in todo ==> (k in down <==> k !in order))
    }

    lemma {:induction false} GreetedNext(todo: set<string>, sent: seq<Envelope>, down: set<string>, order: seq<string>, k: string)
      requires GreetedExcept(todo, sent, down, order) && k in todo && k in subscribers
      ensures k !in down ==> GreetedExcept(todo - {k}, sent + [subscribers[k].initialEnv], down, order + [k])
      ensures k in down ==> GreetedExcept(todo - {k}, sent, down, order)
    {
    }

    /** Registration of a subscriber, whose handshake is then passed on to the publisher, if there is one. */
    method AdmitSubscriber(addr: string, serial: nat, env: Envelope, up: bool, ghost position: nat)
      returns (sub: ClientConn, key: string, passed: bool)
      requires Valid() && maxSerial < serial
      modifies this`subscribers, this`marks, this`keyOf, this`maxSerial, if publisher.Some? then {publisher.value} else {}
      ensures Valid() && key == SubscriberKey(addr, serial) && key !in old(subscribers) && maxSerial == serial
      ensures fresh(sub) && sub.initialEnv == env && View() == WithSubscriber(old(View()), key, sub)
      ensures passed == (publisher.Some? && up)
      ensures publisher.Some? ==> publisher.value.wire == old(publisher.value.wire) + (if passed then [env] else [])
    {
      sub, key := RegisterSubscriber(addr, serial, env, position);
      passed := ForwardToPublisher(env, up);
    }

    /** Registration of a publisher, followed by the handshakes that wait for it. */
    method AdmitPublisher(env: Envelope, down: set<string>) returns (pub: ClientConn?, ghost order: seq<string>)
      requires Valid()
      modifies this`publisher, this`accepted, if publisher.Some? then {publisher.value} else {}
      ensures Valid() && subscribers == old(subscribers)
      ensures pub == null <==> old(publisher.Some? && !publisher.value.done)
      ensures pub == null ==> View() == old(View())
      ensures pub != null ==> View() == WithPublisher(old(View()), pub) && fresh(pub) && !pub.done && Greeted(pub.wire, down, order)
    {
      order := [];
      pub := RegisterPublisher(env);
      if pub != null {
        ghost var sent;
        order, sent := Greet(pub, down);
        assert [] + sent == sent;
      }
    }

    /** The first close lets everybody go; a second one changes nothing. */
    method Close()
      requires Valid()
      modifies this`publisher, this`subscribers, this`closed, Clients()
      ensures Valid() && View() == Shut(old(View())) && (old(OnePublisher()) ==> OnePublisher())
      ensures closed && (!old(closed) ==> publisher.None? && subscribers == map[])
      ensures forall c :: c in old(Clients()) ==> c.View() == if old(closed) then old(c.View()) else Closed(old(c.View()))
    {
      if closed {
        return;
      }
      closed := true;
      if publisher.Some? {
        publisher.value.Close();
      }
      CloseEach(subscribers.Values);
      publisher := None;
      subscribers := map[];
    }
  }

  /** `after` is `before` without the ids in `gone`. */
  ghost predicate Without<K(!new), V>(after: map<K, V>, before: map<K, V>, gone: set<K>) {
    && (forall k :: k in after <==> k in before && k !in gone)
    && (forall k :: k in after ==> after[k] == before[k])
  }

  class Server<Id(==, !new)> {
    var sessions: map<Id, RelaySession<Id>>
    var activeSessions: int        // the gauge
    var sessionsCreated: nat
    var subKeyCounter: nat
    ghost var ever: set<RelaySession<Id>>
    ghost var dropped: nat         // sessions discarded by CloseAll

    /** Every session in the table is open and filed under its own id. */
    ghost predicate TableOk()
      reads this`sessions, this`ever, this`subKeyCounter, ever
    {
      && (forall id :: id in sessions ==> sessions[id] in ever && sessions[id].sessionId == id && !sessions[id].closed)
      && (forall s :: s in ever ==> s.Valid() && s.maxSerial <= subKeyCounter)
    }

    /** The gauge is the size of the table, off by what CloseAll discarded. */
    ghost predicate Valid()
      reads this, ever
    {
      TableOk() && activeSessions == |sessions| + dropped
    }

    constructor ()
      ensures Valid() && sessions == map[] && ever == {} && dropped == 0
    {
      sessions, activeSessions, sessionsCreated, subKeyCounter := map[], 0, 0, 0;
      ever, dropped := {}, 0;
    }

    /** No session but the one filed under this id came or went; it is there now. */
    twostate predicate OnlyAdds(id: Id)
      reads this
    {
      && id in sessions
      && (forall i :: i in old(sessions) ==> i in sessions && sessions[i] == old(sessions)[i])
      && (forall i :: i in sessions ==> i in old(sessions) || i == id)
    }

    method GetOrCreateSession(id: Id, now: int) returns (s: RelaySession<Id>)
      requires Valid()
      modifies this`sessions, this`activeSessions, this`sessionsCreated, this`ever
      ensures Valid() && OnlyAdds(id) && sessions[id] == s && ever == old(ever) + {s}
      ensures id in old(sessions) ==> sessions == old(sessions) && s in old(ever)
      ensures id !in old(sessions) ==>
        fresh(s) && sessions == old(sessions)[id := s] && s.View() == NewSession(id, now) && s.accepted == {}
    {
      if id in sessions {
        s := sessions[id];
        assert ever + {s} == ever;
      } else {
        s := CreateSession(id, now);
      }
    }

    method CreateSession(id: Id, now: int) returns (s: RelaySession<Id>)
      requires Valid() && id !in sessions
      modifies this`sessions, this`activeSessions, this`sessionsCreated, this`ever
      ensures Valid() && sessions == old(sessions)[id := s] && ever == old(ever) + {s}
      ensures fresh(s) && s.View() == NewSession(id, now) && s.accepted == {}
    {
      s := new RelaySession(id, now);
      File(id, s);
    }

    /** Put a new session into the table. */
    method File(id: Id, s: RelaySession<Id>)
      requires Valid() && id !in sessions && s.Valid() && !s.closed && s.sessionId == id && s.maxSerial <= subKeyCounter
      modifies this`sessions, this`ever, this`activeSessions, this`sessionsCreated
      ensures Valid() && sessions == old(sessions)[id := s] && ever == old(ever) + {s}
    {
      sessions, ever := sessions[id := s], ever + {s};
      activeSessions, sessionsCreated := activeSessions + 1, sessionsCreated + 1;
    }

    /** A caller gets an open session that carries the id it asked for, or none because none is filed. */
    method LookupSession(id: Id) returns (s: RelaySession?<Id>)
      requires Valid()
      ensures s == null <==> id !in sessions
      ensures s != null ==> s == sessions[id] && s in ever && s.Valid() && s.sessionId == id && !s.closed
    {
      if id in sessions {
        s := sessions[id];
      } else {
        s := null;
      }
    }

    /** The table is in order but for the session under this id, which may be closed. */
    ghost predicate TableButFor(id: Id)
      reads this`sessions, this`ever, this`subKeyCounter, ever
    {
      && (forall i :: i in sessions ==> sessions[i] in ever && sessions[i].sessionId == i && (i != id ==> !sessions[i].closed))
      && (forall s :: s in ever ==> s.Valid() && s.maxSerial <= subKeyCounter)
    }

    /** Close one session of the table; the others stay as they are. */
    method CloseFiled(id: Id)
      requires TableOk() && id in sessions
      modifies sessions[id], sessions[id].Clients()
      ensures TableButFor(id)
      ensures forall i :: i in sessions && i != id ==> sessions[i].View() == old(sessions[i].View())
      ensures sessions[id].View() == Shut(old(sessions[id].View()))
      ensures forall c :: c in old(sessions[id].Clients()) ==> c.done
    {
      sessions[id].Close();
    }

    /** Out of the table, and the gauge is told. */
    method TakeOut(id: Id)
      requires TableButFor(id) && id in sessions && activeSessions == |sessions| + dropped
      modifies this`sessions, this`activeSessions
      ensures Valid() && Without(sessions, old(sessions), {id})
    {
      ghost var before := sessions;
      sessions := sessions - {id};
      activeSessions := activeSessions - 1;
      assert before.Keys == sessions.Keys + {id};
    }

    /** Out of the table, and the gauge is not told. */
    method LoseTrack(id: Id)
      requires TableButFor(id) && id in sessions && activeSessions == |sessions| + dropped
      modifies this`sessions, this`dropped
      ensures Valid() && Without(sessions, old(sessions), {id}) && dropped == old(dropped) + 1
    {
      ghost var before := sessions;
      sessions := sessions - {id};
      dropped := dropped + 1;
      assert before.Keys == sessions.Keys + {id};
    }

    /** That id leaves the table, and everybody connected through its session is let go. */
    method RemoveSession(id: Id)
      requires Valid()
      modifies this`sessions, this`activeSessions, if id in sessions then {sessions[id]} else {},
               if id in sessions then sessions[id].Clients() else {}
      ensures Valid() && Without(sessions, old(sessions), {id})
      ensures forall i :: i in sessions ==> sessions[i].View() == old(sessions[i].View())
      ensures id in old(sessions) ==> old(sessions[id]).View() == Shut(old(sessions[id].View()))
      ensures id in old(sessions) ==> forall c :: c in old(sessions[id].Clients()) ==> c.done
    {
      if id in sessions {
        CloseFiled(id);
        TakeOut(id);
      }
    }

    /** A handler that already holds this session may register in it. */
    method OneArrives(s: RelaySession<Id>)
      requires Valid() && s in ever
      modifies this`subKeyCounter, s`publisher, s`accepted, s`subscribers, s`marks, s`keyOf, s`maxSerial,
               if s.publisher.Some? then {s.publisher.value} else {}
      ensures Valid() && fresh(s.Clients() - old(s.Clients()))
    {
      var env: Envelope := *;
      var addr: string := *;
      if * {
        var down: set<string> := *;
        var _, _ := JoinPublisher(s, env, down);
      } else if subKeyCounter + 1 < TWO_64 {
        var up: bool := *;
        var _, _, _ := JoinSubscriber(s, addr, env, up, 0);
      }
    }

    /** So may n handlers, one after the other. */
    method SomeArrive(s: RelaySession<Id>, n: nat)
      requires Valid() && s in ever
      modifies this`subKeyCounter, s`publisher, s`accepted, s`subscribers, s`marks, s`keyOf, s`maxSerial, s.Clients()
      ensures Valid() && fresh(s.Clients() - old(s.Clients()))
    {
      if n > 0 {
        OneArrives(s);
        SomeArrive(s, n - 1);
      }
    }

    /** What follows a test that found a session empty: any number of registrations, and the close. */
    method CloseTested(id: Id) returns (ghost late: set<ClientConn>)
      requires Valid() && id in sessions && sessions[id].Clients() == {}
      modifies this`sessions, this`activeSessions, this`subKeyCounter, sessions[id]
      ensures Valid() && fresh(late) && AllClosed(late) && Without(sessions, old(sessions), {id})
      ensures forall i :: i in sessions ==> sessions[i].View() == old(sessions[i].View())
    {
      ghost var others := sessions;
      var n: nat := *;
      SomeArrive(sessions[id], n);
      late := sessions[id].Clients();
      assert sessions == others && fresh(late);
      RemoveSession(id);
    }

    /** The test of a session and its close, with any number of registrations in between: whoever registered is closed. */
    method ReapIfStale(id: Id, now: int) returns (ghost late: set<ClientConn>)
      requires Valid() && id in sessions
      modifies this`sessions, this`activeSessions, this`subKeyCounter, sessions[id]
      ensures Valid() && fresh(late) && AllClosed(late)
      ensures old(sessions[id].Reapable(now)) ==> Without(sessions, old(sessions), {id})
      ensures !old(sessions[id].Reapable(now)) ==> sessions == old(sessions) && late == {}
      ensures forall i :: i in sessions && i != id ==> sessions[i].Reapable(now) == old(sessions[i].Reapable(now))
    {
      late := {};
      if sessions[id].Reapable(now) {
        assert sessions[id].Clients() == {};
        late := CloseTested(id);
      }
    }

    /** Of the sessions there were before, those still to do are as they were, and of the others the doomed are gone. */
    ghost predicate Sweeping(before: map<Id, RelaySession<Id>>, doomed: set<Id>, todo: set<Id>, now: int)
      reads this`sessions, sessions.Values
    {
      && todo <= sessions.Keys
      && (forall id :: id in sessions <==> id in before && (id in todo || id !in doomed))
      && (forall id :: id in sessions ==> sessions[id] == before[id])
      && (forall id :: id in todo ==> (sessions[id].Reapable(now) <==> id in doomed))
    }

    method ReapNext(id: Id, now: int, ghost before: map<Id, RelaySession<Id>>, ghost doomed: set<Id>, ghost todo: set<Id>)
      returns (ghost late: set<ClientConn>)
      requires Valid() && id in todo && Sweeping(before, doomed, todo, now)
      modifies this`sessions, this`activeSessions, this`subKeyCounter, sessions[id]
      ensures Valid() && Sweeping(before, doomed, todo - {id}, now)
      ensures fresh(late) && AllClosed(late)
    {
      late := ReapIfStale(id, now);
    }

    method Sweep(now: int, todo: set<Id>, ghost before: map<Id, RelaySession<Id>>, ghost doomed: set<Id>, ghost filed: set<RelaySession<Id>>)
      returns (ghost late: set<ClientConn>)
      requires Valid() && Sweeping(before, doomed, todo, now) && forall id :: id in before ==> before[id] in filed
      modifies this`sessions, this`activeSessions, this`subKeyCounter, filed
      ensures Valid() && Sweeping(before, doomed, {}, now) && fresh(late) && AllClosed(late)
    {
      late := {};
      var rest := todo;
      while rest != {}
        invariant Valid() && Sweeping(before, doomed, rest, now)
        invariant fresh(late) && AllClosed(late)
        decreases rest
      {
        var id :| id in rest;
        assert sessions[id] == before[id];
        ghost var more := ReapNext(id, now, before, doomed, rest);
        rest := rest - {id};
        late := late + more;
      }
    }

    /** The reaper removes exactly the sessions that it finds empty and at least 30 seconds old. The connections it closes
        are those that register in such a session after it was tested; none that existed before is touched. */
    method ReapStaleSessions(now: int) returns (ghost late: set<ClientConn>)
      requires Valid()
      modifies this`sessions, this`activeSessions, this`subKeyCounter, sessions.Values
      ensures Valid() && fresh(late) && AllClosed(late)
      ensures forall id :: id in sessions ==> id in old(sessions) && sessions[id] == old(sessions)[id]
      ensures forall id :: id in old(sessions) ==> (id in sessions <==> !old(sessions[id].Reapable(now)))
    {
      ghost var doomed := set id | id in sessions && sessions[id].Reapable(now);
      late := Sweep(now, sessions.Keys, sessions, doomed, sessions.Values);
    }

    /** One turn of CloseAll: the gauge is not told. */
    method Discard(id: Id)
      requires Valid() && id in sessions
      modifies this`sessions, this`dropped, sessions[id], sessions[id].Clients()
      ensures Valid() && Without(sessions, old(sessions), {id}) && dropped == old(dropped) + 1
      ensures forall i :: i in sessions ==> sessions[i].View() == old(sessions[i].View())
      ensures forall c :: c in old(sessions[id].Clients()) ==> c.done
    {
      CloseFiled(id);
      LoseTrack(id);
    }

    /** The connections of a session that has left the table are closed; the others are still connected. */
    ghost predicate LetGo(members: map<Id, set<ClientConn>>, everybody: set<ClientConn>)
      reads this`sessions, sessions.Values, everybody
    {
      && sessions.Keys <= members.Keys
      && forall id :: id in members ==>
        && members[id] <= everybody
        && (id in sessions ==> sessions[id].Clients() == members[id])
        && (id !in sessions ==> forall c :: c in members[id] ==> c.done)
    }

    method DiscardNext(id: Id, ghost members: map<Id, set<ClientConn>>, ghost everybody: set<ClientConn>)
      requires Valid() && id in sessions && LetGo(members, everybody)
      modifies this`sessions, this`dropped, sessions[id], sessions[id].Clients()
      ensures Valid() && Without(sessions, old(sessions), {id}) && dropped == old(dropped) + 1 && LetGo(members, everybody)
    {
      Discard(id);
      assert forall i :: i in sessions ==> sessions[i].Clients() == old(sessions[i].Clients());
      forall i, c | i in members && i !in sessions && c in members[i]
        ensures c.done
      {
        if i != id {
          assert i !in old(sessions) && old(c.done);
        }
      }
    }

    method DiscardAll(ghost filed: set<RelaySession<Id>>, ghost members: map<Id, set<ClientConn>>, ghost everybody: set<ClientConn>)
      requires Valid() && LetGo(members, everybody) && forall id :: id in sessions ==> sessions[id] in filed
      modifies this`sessions, this`dropped, filed, everybody
      ensures Valid() && sessions == map[] && LetGo(members, everybody)
    {
      while sessions.Keys != {}
        invariant Valid() && LetGo(members, everybody) && forall id :: id in sessions ==> sessions[id] in filed
        decreases sessions.Keys
      {
        var id :| id in sessions.Keys;
        assert members[id] <= everybody;
        DiscardNext(id, members, everybody);
      }
    }

    /** CloseAll empties the table and closes every connection of its sessions, but leaves the gauge where it was. */
    method CloseAll(ghost everybody: set<ClientConn>)
      requires Valid() && forall id :: id in sessions ==> sessions[id].Clients() <= everybody
      modifies this`sessions, this`dropped, sessions.Values, everybody
      ensures Valid() && sessions == map[] && activeSessions == old(activeSessions)
      ensures dropped == old(dropped) + |old(sessions)|
      ensures forall id, c :: id in old(sessions) && c in old(sessions[id].Clients()) ==> c.done
    {
      ghost var members: map<Id, set<ClientConn>> := map id | id in sessions :: sessions[id].Clients();
      DiscardAll(sessions.Values, members, everybody);
    }

    /** A handler that got this session earlier registers a subscriber and passes its handshake on to the publisher. */
    method JoinSubscriber(s: RelaySession<Id>, addr: string, env: Envelope, up: bool, ghost position: nat)
      returns (sub: ClientConn, key: string, passed: bool)
      requires Valid() && s in ever && subKeyCounter + 1 < TWO_64
      modifies this`subKeyCounter, s`subscribers, s`marks, s`keyOf, s`maxSerial, if s.publisher.Some? then {s.publisher.value} else {}
      ensures Valid() && key !in old(s.subscribers) && fresh(sub) && sub.initialEnv == env
      ensures subKeyCounter == old(subKeyCounter) + 1 && key == SubscriberKey(addr, subKeyCounter)
      ensures s.View() == WithSubscriber(old(s.View()), key, sub)
      ensures passed == (s.publisher.Some? && up)
      ensures s.publisher.Some? ==> s.publisher.value.wire == old(s.publisher.value.wire) + (if passed then [env] else [])
    {
      var serial := NextSerial();
      sub, key, passed := s.AdmitSubscriber(addr, serial, env, up, position);
    }

    /** subKeyCounter.Add(1) */
    method NextSerial() returns (serial: nat)
      requires Valid()
      modifies this`subKeyCounter
      ensures Valid() && serial == subKeyCounter == old(subKeyCounter) + 1 && forall s :: s in ever ==> s.maxSerial < serial
    {
      subKeyCounter := subKeyCounter + 1;
      serial := subKeyCounter;
    }

    method JoinPublisher(s: RelaySession<Id>, env: Envelope, down: set<string>) returns (pub: ClientConn?, ghost order: seq<string>)
      requires Valid() && s in ever
      modifies s`publisher, s`accepted, if s.publisher.Some? then {s.publisher.value} else {}
      ensures Valid() && (pub == null <==> old(s.publisher.Some? && !s.publisher.value.done))
      ensures pub == null ==> s.View() == old(s.View())
      ensures pub != null ==> s.View() == WithPublisher(old(s.View()), pub) && fresh(pub) && !pub.done && s.Greeted(pub.wire, down, order)
    {
      pub, order := s.AdmitPublisher(env, down);
    }

    method DropSubscriber(s: RelaySession<Id>, key: string)
      requires Valid() && s in ever
      modifies s`subscribers, if key in s.subscribers then {s.subscribers[key]} else {}
      ensures Valid() && s.View() == WithoutSubscriber(old(s.View()), key)
      ensures key in old(s.subscribers) ==> old(s.subscribers[key]).done
      ensures forall id :: id in sessions ==> sessions[id].Clients() <= old(sessions[id].Clients())
    {
      s.RemoveSubscriber(key);
      assert s.Clients() <= old(s.Clients());
    }

    /** The session filed under the id of an empty session goes, which may be another one; the empty one stays empty. */
    method RemoveDeserted(s: RelaySession<Id>, ghost affected: set<ClientConn>)
      requires Valid() && s in ever && s.subscribers == map[]
      requires s.sessionId in sessions ==> sessions[s.sessionId].Clients() <= affected
      modifies this`sessions, this`activeSessions, if s.sessionId in sessions then {sessions[s.sessionId]} else {}, affected
      ensures Valid() && s.subscribers == map[] && Without(sessions, old(sessions), {s.sessionId})
    {
      ghost var here := s.sessionId in sessions && sessions[s.sessionId] == s;
      RemoveSession(s.sessionId);
      assert here ==> s.View().subscribers == map[];
    }

    /** Remove by id if the session has become empty. */
    method RemoveIfDeserted(s: RelaySession<Id>, ghost affected: set<ClientConn>)
      requires Valid() && s in ever && (s.sessionId in sessions ==> sessions[s.sessionId].Clients() <= affected)
      modifies this`sessions, this`activeSessions, if s.sessionId in sessions then {sessions[s.sessionId]} else {}, affected
      ensures Valid() && s.subscribers == old(s.subscribers)
      ensures if old(s.publisher.None? && s.subscribers == map[]) then Without(sessions, old(sessions), {s.sessionId})
              else sessions == old(sessions)
    {
      if s.publisher.None? && s.subscribers == map[] {
        RemoveDeserted(s, affected);
      }
    }

    /** The end of loopSubscriber, uninterrupted. The session is removed by id, which may name a newer session than s; the
        connections affected are those of s and of that one. */
    method LeaveSubscriber(s: RelaySession<Id>, key: string, ghost affected: set<ClientConn>)
      requires Valid() && s in ever && (key in s.subscribers ==> s.subscribers[key] in affected)
      requires s.sessionId in sessions ==> sessions[s.sessionId].Clients() <= affected
      modifies this`sessions, this`activeSessions, s`subscribers, if s.sessionId in sessions then {sessions[s.sessionId]} else {},
               affected
      ensures Valid() && s.subscribers == old(s.subscribers) - {key}
      ensures if old(s.publisher.None? && s.subscribers - {key} == map[]) then Without(sessions, old(sessions), {s.sessionId})
              else sessions == old(sessions)
    {
      DropSubscriber(s, key);
      RemoveIfDeserted(s, affected);
    }

    /** A PAKE_INIT_PUB frame: turned away if the session has an open publisher, otherwise registered and sent the handshakes
        that wait for it. */
    method AcceptPublisher(id: Id, e: Envelope, now: int, down: set<string>) returns (pub: ClientConn?, ghost order: seq<string>)
      requires Valid()
      modifies this`sessions, this`activeSessions, this`sessionsCreated, this`ever,
               if id in sessions then {sessions[id]} else {},
               if id in sessions && sessions[id].publisher.Some? then {sessions[id].publisher.value} else {}
      ensures Valid() && OnlyAdds(id)
      ensures pub == null <==> id in old(sessions) && old(sessions[id].publisher.Some? && !sessions[id].publisher.value.done)
      ensures pub != null ==> sessions[id].publisher == Some(pub) && !pub.done && sessions[id].Greeted(pub.wire, down, order)
      ensures id in old(sessions) ==> sessions[id].subscribers == old(sessions[id].subscribers)
    {
      var s := GetOrCreateSession(id, now);
      assert if id in old(sessions) then s == old(sessions)[id] else s.publisher.None?;
      pub, order := JoinPublisher(s, e, down);
    }

    /** A PAKE_INIT_SUB frame: always registered, under a key of its own, and passed on to the publisher if there is one. */
    method AcceptSubscriber(id: Id, e: Envelope, addr: string, now: int, up: bool, ghost position: nat)
      returns (sub: ClientConn, key: string, passed: bool)
      requires Valid() && subKeyCounter + 1 < TWO_64
      modifies this`sessions, this`activeSessions, this`sessionsCreated, this`ever, this`subKeyCounter,
               if id in sessions then {sessions[id]} else {},
               if id in sessions && sessions[id].publisher.Some? then {sessions[id].publisher.value} else {}
      ensures Valid() && OnlyAdds(id) && key == SubscriberKey(addr, subKeyCounter) && sub.initialEnv == e
      ensures id in old(sessions) ==>
        && key !in old(sessions[id].subscribers)
        && sessions[id].View() == WithSubscriber(old(sessions[id].View()), key, sub)
      ensures passed == (id in old(sessions) && old(sessions[id].publisher.Some?) && up)
      ensures id in old(sessions) && old(sessions[id].publisher.Some?) ==>
        old(sessions[id].publisher.value).wire == old(sessions[id].publisher.value.wire) + (if passed then [e] else [])
      ensures id !in old(sessions) ==> sessions[id].View() == WithSubscriber(NewSession(id, now), key, sub)
    {
      var s := GetOrCreateSession(id, now);
      assert s.View() == if id in old(sessions) then old(sessions[id].View()) else NewSession(id, now);
      sub, key, passed := JoinSubscriber(s, addr, e, up, position);
    }

    method PassOn(s: RelaySession<Id>, e: Envelope, up: bool) returns (ok: bool)
      requires Valid() && s in ever
      modifies if s.publisher.Some? then {s.publisher.value} else {}
      ensures Valid() && ok == (s.publisher.Some? && up)
      ensures s.publisher.Some? ==> s.publisher.value.wire == old(s.publisher.value.wire) + (if ok then [e] else [])
    {
      ok := s.ForwardToPublisher(e, up);
    }

    /** A lone SYNC_REQ: passed on if its session exists and has a publisher; it never creates a session. */
    method AcceptSync(id: Id, e: Envelope, up: bool) returns (known: bool, passed: bool)
      requires Valid()
      modifies if id in sessions && sessions[id].publisher.Some? then {sessions[id].publisher.value} else {}
      ensures Valid() && (known <==> id in sessions) && passed == (known && sessions[id].publisher.Some? && up)
      ensures known && sessions[id].publisher.Some? ==>
        sessions[id].publisher.value.wire == old(sessions[id].publisher.value.wire) + (if passed then [e] else [])
    {
      var s := LookupSession(id);
      known, passed := s != null, false;
      if s != null {
        passed := PassOn(s, e, up);
      }
    }

    /** handleConnection on the first frame, uninterrupted: only the two handshake frames can grow the table, any frame that
        is neither of them nor a SYNC_REQ for a known session is counted against its sender. */
    method HandleFirstFrame(id: Id, e: Envelope, addr: string, now: int, up: bool, down: set<string>, ghost position: nat)
      returns (accepted: bool)
      requires Valid() && subKeyCounter + 1 < TWO_64
      modifies this, if id in sessions then {sessions[id]} else {},
               if id in sessions && sessions[id].publisher.Some? then {sessions[id].publisher.value} else {}
      ensures Valid()
      ensures e.msgType == PAKE_INIT_PUB || e.msgType == PAKE_INIT_SUB ==> OnlyAdds(id)
      ensures e.msgType != PAKE_INIT_PUB && e.msgType != PAKE_INIT_SUB ==> sessions == old(sessions)
      ensures e.msgType == PAKE_INIT_PUB ==>
        (accepted <==> id !in old(sessions) || old(sessions[id].publisher.None? || sessions[id].publisher.value.done))
      ensures e.msgType == PAKE_INIT_SUB ==> accepted && SubscriberKey(addr, subKeyCounter) in sessions[id].subscribers
      ensures e.msgType == SYNC_REQ ==> (accepted <==> id in old(sessions))
      ensures e.msgType != PAKE_INIT_PUB && e.msgType != PAKE_INIT_SUB && e.msgType != SYNC_REQ ==> !accepted
    {
      if e.msgType == PAKE_INIT_PUB {
        var pub, _ := AcceptPublisher(id, e, now, down);
        accepted := pub != null;
      } else if e.msgType == PAKE_INIT_SUB {
        var _, _, _ := AcceptSubscriber(id, e, addr, now, up, position);
        accepted := true;
      } else if e.msgType == SYNC_REQ {
        var known, _ := AcceptSync(id, e, up);
        accepted := known;
      } else {
        accepted := false;
      }
    }

    /** The end of loopPublisher: the session goes, by id. */
    method LeavePublisher(s: RelaySession<Id>)
      requires Valid() && s in ever
      modifies this`sessions, this`activeSessions, if s.sessionId in sessions then {sessions[s.sessionId]} else {},
               if s.sessionId in sessions then sessions[s.sessionId].Clients() else {}
      ensures Valid() && Without(sessions, old(sessions), {s.sessionId})
      ensures s.sessionId in old(sessions) ==> forall c :: c in old(sessions[s.sessionId].Clients()) ==> c.done
    {
      RemoveSession(s.sessionId);
    }
  }
}
