/**
 The relay as a step system: any number of connection handlers over one session table (pkg/relay/server.go,
 pkg/relay/session.go). A step is one critical section, one send or one goroutine of the source, so a handler may hold a
 session that has meanwhile left the table, or that has been replaced under the same id. The reaper tests a session in
 one step and closes it in another: in between it holds the table's lock but not the session's. The table's lock is free
 again between two sessions, here also within one sweep of the reaper or of CloseAll, which admits more runs than the code.
 RemoveSubscriber takes a connection out of its session in one step and closes it in another, after giving the session's
 lock back. Closing a session and taking it out of the table is one step, since the table's lock is held across both.

 `got` records every frame accepted for a connection, with the connection whose handler sent it; whether a send is
 accepted is left open here, the queue behind it is FanOut's. A connection is named by the number of its handler.
 */
module RelayRuns {
  import opened Wrappers
  import opened EnvelopeCodec
  import opened SubscriberKeys
  import opened Sessions

  datatype Role = AsPublisher | AsSubscriber | AsGuest

  /** Where a handler stands; r is the session it holds. */
  datatype Phase =
    | Opening(r: nat)                                          // has the session, not registered yet
    | Greeting(r: nat)                                         // publisher: passing on the handshakes that wait
    | Reading(r: nat)                                          // loopPublisher
    | Sending(r: nat, e: Envelope, todo: map<string, nat>)     // ForwardFromPublisher, after its snapshot
    | Closing(r: nat)                                          // loopPublisher is over
    | Joined(r: nat, key: string)                              // subscriber: handshake not passed on yet
    | Asking(r: nat, key: string, e: Envelope, to: Option<nat>) // has read the publisher pointer, about to send
    | Listening(r: nat, key: string)                           // loopSubscriber
    | Leaving(r: nat, key: string)                             // loopSubscriber is over
    | Left(r: nat)                                             // own key removed, emptiness not tested yet
    | Emptied(r: nat)                                          // saw the session empty
    | Visiting(r: nat)                                         // a lone SYNC_REQ that found the session
    | Calling(r: nat, to: Option<nat>)                         // ...and has read the publisher pointer
    | Over

  /** A connection and its handler. `home` and `mark` are set when it registers: the session, and address and serial. */
  datatype Handler = Handler(
    role: Role,
    first: Envelope,
    phase: Phase,
    done: bool,
    got: seq<Item<Envelope>>,
    home: Option<nat>,
    mark: Option<(string, nat)>)

  datatype Relay = Relay(
    heap: seq<Session<SessionId, nat>>,   // all sessions ever created
    table: map<SessionId, nat>,
    hs: seq<Handler>,
    orphans: set<(nat, string, nat)>,     // removals started after a refused send: session, key, connection
    letting: set<nat>,                    // connections taken out of their session and not closed yet
    gauge: int,
    dropped: nat,                         // sessions discarded by CloseAll
    serial: nat,
    doomed: Option<SessionId>)            // the reaper holds the table's lock and has found this session empty and stale

  datatype Action =
    | First(e: Envelope, now: int)        // handleConnection: the first frame, and the table lookup it leads to
    | Register(h: nat, addr: string)
    | GreetOne(h: nat, key: string)
    | Greeted(h: nat)
    | LookUp(h: nat, e: Envelope)         // read the publisher pointer
    | SendUp(h: nat, ok: bool)
    | Forward(h: nat, e: Envelope)
    | Offer(h: nat, key: string, ok: bool)
    | Forwarded(h: nat)
    | HangUp(h: nat)
    | RemoveOwn(h: nat)
    | TestEmpty(h: nat)
    | RemoveById(h: nat)
    | RemoveOrphan(o: (nat, string, nat))
    | CloseRemoved(g: nat)                // the end of RemoveSubscriber
    | WriteFails(h: nat)                  // a subscriber's write loop gives up and closes its connection
    | ReapTest(id: SessionId, now: int)   // IsReapable
    | ReapClose                           // Close, and out of the table
    | Discard(id: SessionId)              // CloseAll, one session

  /** The handler is at work on a session. */
  predicate Holds(s: Relay, h: nat) {
    h < |s.hs| && !s.hs[h].phase.Over? && s.hs[h].phase.r < |s.heap|
  }

  /** The frames whose handler looks a session up. */
  predicate NeedsTable(e: Envelope) {
    e.msgType in {PAKE_INIT_PUB, PAKE_INIT_SUB, SYNC_REQ}
  }

  predicate Enabled(s: Relay, a: Action) {
    match a
    case First(e, _) => NeedsTable(e) ==> s.doomed.None?
    case Register(h, _) => Holds(s, h) && s.hs[h].phase.Opening?
    case GreetOne(h, key) => Holds(s, h) && s.hs[h].phase.Greeting? && key in s.heap[s.hs[h].phase.r].subscribers
    case Greeted(h) => Holds(s, h) && s.hs[h].phase.Greeting?
    case LookUp(h, e) =>
      && Holds(s, h)
      && (|| s.hs[h].phase.Joined? || s.hs[h].phase.Visiting?
          || (s.hs[h].phase.Listening? && e.msgType in {SYNC_REQ, KEY_CONFIRM, CHUNK_ACK}))
    case SendUp(h, _) => Holds(s, h) && (s.hs[h].phase.Asking? || s.hs[h].phase.Calling?)
    case Forward(h, _) => Holds(s, h) && s.hs[h].phase.Reading?
    case Offer(h, key, _) => Holds(s, h) && s.hs[h].phase.Sending? && key in s.hs[h].phase.todo
    case Forwarded(h) => Holds(s, h) && s.hs[h].phase.Sending? && |s.hs[h].phase.todo| == 0
    case HangUp(h) => Holds(s, h) && (s.hs[h].phase.Reading? || s.hs[h].phase.Listening?)
    case RemoveOwn(h) => Holds(s, h) && s.hs[h].phase.Leaving?
    case TestEmpty(h) => Holds(s, h) && s.hs[h].phase.Left?
    case RemoveById(h) => Holds(s, h) && (s.hs[h].phase.Closing? || s.hs[h].phase.Emptied?) && s.doomed.None?
    case RemoveOrphan(o) => o in s.orphans
    case CloseRemoved(g) => g in s.letting
    case WriteFails(h) => h < |s.hs| && s.hs[h].role.AsSubscriber? && s.hs[h].home.Some?
    case ReapTest(id, now) =>
      s.doomed.None? && id in s.table && s.table[id] < |s.heap| && IsReapable(s.heap[s.table[id]], now)
    case ReapClose => s.doomed.Some?
    case Discard(id) => s.doomed.None? && id in s.table
  }

  // ----- what the critical sections do -----

  function Put(s: Relay, h: nat, x: Handler): (r: Relay) {
    if h < |s.hs| then s.(hs := s.hs[h := x]) else s
  }

  function Move(s: Relay, h: nat, p: Phase): (r: Relay) {
    if h < |s.hs| then Put(s, h, s.hs[h].(phase := p)) else s
  }

  /** A frame accepted for a connection. */
  function Hand(s: Relay, to: nat, item: Item<Envelope>): (r: Relay) {
    if to < |s.hs| then Put(s, to, s.hs[to].(got := s.hs[to].got + [item])) else s
  }

  /** ClientConn.Close on these connections. */
  function CloseConns(hs: seq<Handler>, gone: set<nat>): (r: seq<Handler>)
    ensures |r| == |hs|
  {
    seq(|hs|, i requires 0 <= i < |hs| => if i in gone then hs[i].(done := true) else hs[i])
  }

  /** Everybody a session would let go. */
  function Members(x: Session<SessionId, nat>): (m: set<nat>) {
    (set k | k in x.subscribers :: x.subscribers[k]) + (if x.publisher.Some? then {x.publisher.value} else {})
  }

  function CloseSession(s: Relay, r: nat): (t: Relay) {
    if r < |s.heap| && !s.heap[r].closed then
      s.(heap := s.heap[r := Shut(s.heap[r])], hs := CloseConns(s.hs, Members(s.heap[r])))
    else s
  }

  /** Close the session filed under this id and take it out of the table. */
  function Unfile(s: Relay, id: SessionId): (t: Relay)
    requires id in s.table
  {
    CloseSession(s, s.table[id]).(table := s.table - {id})
  }

  function RemoveSession(s: Relay, id: SessionId): (t: Relay) {
    if id in s.table then Unfile(s, id).(gauge := s.gauge - 1) else s
  }

  /** CloseAll forgets the gauge. */
  function DiscardSession(s: Relay, id: SessionId): (t: Relay)
    requires id in s.table
  {
    Unfile(s, id).(dropped := s.dropped + 1)
  }

  /** The critical section of RemoveSubscriber. */
  function RemoveSubscriber(s: Relay, r: nat, key: string): (t: Relay) {
    if r < |s.heap| && key in s.heap[r].subscribers then
      s.(heap := s.heap[r := WithoutSubscriber(s.heap[r], key)], letting := s.letting + {s.heap[r].subscribers[key]})
    else s
  }

  /** getOrCreateSession. */
  function GetOrCreate(s: Relay, id: SessionId, now: int): (t: Relay)
    ensures id in t.table
  {
    if id in s.table then s
    else s.(heap := s.heap + [NewSession(id, now)], table := s.table[id := |s.heap|], gauge := s.gauge + 1)
  }

  /** A new connection: only the two handshake frames can create a session. */
  function Accept(s: Relay, e: Envelope, now: int): (t: Relay) {
    var id := e.sessionId;
    if e.msgType == PAKE_INIT_PUB || e.msgType == PAKE_INIT_SUB then
      var t := GetOrCreate(s, id, now);
      var role := if e.msgType == PAKE_INIT_PUB then AsPublisher else AsSubscriber;
      Enter(t, Handler(role, e, Opening(t.table[id]), false, [], None, None))
    else if e.msgType == SYNC_REQ && id in s.table then
      Enter(s, Handler(AsGuest, e, Visiting(s.table[id]), false, [], None, None))
    else
      Enter(s, Handler(AsGuest, e, Over, true, [], None, None))
  }

  function Enter(s: Relay, x: Handler): (t: Relay) {
    s.(hs := s.hs + [x])
  }

  /** A publisher that is still open is never displaced. */
  function RegisterPublisher(s: Relay, h: nat, r: nat): (t: Relay)
    requires h < |s.hs| && r < |s.heap|
  {
    var p := s.heap[r].publisher;
    if p.Some? && !(p.value < |s.hs| && s.hs[p.value].done) then Put(s, h, s.hs[h].(done := true, phase := Over))
    else
      Put(s.(heap := s.heap[r := WithPublisher(s.heap[r], h)]), h, s.hs[h].(phase := Greeting(r), home := Some(r)))
  }

  function RegisterSubscriber(s: Relay, h: nat, r: nat, addr: string): (t: Relay)
    requires h < |s.hs| && r < |s.heap|
  {
    var n := s.serial + 1;
    var key := SubscriberKey(addr, n);
    Put(s.(serial := n, heap := s.heap[r := WithSubscriber(s.heap[r], key, h)]), h,
        s.hs[h].(phase := Joined(r, key), home := Some(r), mark := Some((addr, n))))
  }

  function Step(s: Relay, a: Action): (t: Relay)
    requires Enabled(s, a)
  {
    match a
    case First(e, now) => Accept(s, e, now)
    case Register(h, addr) =>
      if s.hs[h].role.AsPublisher? then RegisterPublisher(s, h, s.hs[h].phase.r)
      else RegisterSubscriber(s, h, s.hs[h].phase.r, addr)
    case GreetOne(h, key) =>
      var sub := s.heap[s.hs[h].phase.r].subscribers[key];
      if sub < |s.hs| then Hand(s, h, Item(s.hs[sub].first, sub)) else s
    case Greeted(h) => Move(s, h, Reading(s.hs[h].phase.r))
    case LookUp(h, e) =>
      var p := s.hs[h].phase;
      var to := s.heap[p.r].publisher;
      Move(s, h, if p.Joined? then Asking(p.r, p.key, s.hs[h].first, to)
                 else if p.Listening? then Asking(p.r, p.key, e, to)
                 else Calling(p.r, to))
    case SendUp(h, ok) =>
      var p := s.hs[h].phase;
      var item := Item(if p.Asking? then p.e else s.hs[h].first, h);
      Move(if ok && p.to.Some? then Hand(s, p.to.value, item) else s, h, if p.Asking? then Listening(p.r, p.key) else Over)
    case Forward(h, e) => Move(s, h, Sending(s.hs[h].phase.r, e, s.heap[s.hs[h].phase.r].subscribers))
    case Offer(h, key, ok) =>
      var p := s.hs[h].phase;
      var t := if ok then Hand(s, p.todo[key], Item(p.e, h)) else s.(orphans := s.orphans + {(p.r, key, p.todo[key])});
      Move(t, h, p.(todo := p.todo - {key}))
    case Forwarded(h) =>
      var p := s.hs[h].phase;
      Move(s, h, if p.e.msgType == CLOSE then Closing(p.r) else Reading(p.r))
    case HangUp(h) =>
      var p := s.hs[h].phase;
      Move(s, h, if p.Reading? then Closing(p.r) else Leaving(p.r, p.key))
    case RemoveOwn(h) =>
      var p := s.hs[h].phase;
      Move(RemoveSubscriber(s, p.r, p.key), h, Left(p.r))
    case TestEmpty(h) =>
      var x := s.heap[s.hs[h].phase.r];
      Move(s, h, if x.publisher.None? && |x.subscribers| == 0 then Emptied(s.hs[h].phase.r) else Over)
    case RemoveById(h) => Move(RemoveSession(s, s.heap[s.hs[h].phase.r].id), h, Over)
    case RemoveOrphan(o) => RemoveSubscriber(s, o.0, o.1).(orphans := s.orphans - {o})
    case CloseRemoved(g) => s.(hs := CloseConns(s.hs, {g}), letting := s.letting - {g})
    case WriteFails(h) => s.(hs := CloseConns(s.hs, {h}))
    case ReapTest(id, _) => s.(doomed := Some(id))
    case ReapClose => RemoveSession(s, s.doomed.value).(doomed := None)
    case Discard(id) => DiscardSession(s, id)
  }

  predicate Initial(s: Relay) {
    s == Relay([], map[], [], {}, {}, 0, 0, 0, None)
  }

  predicate Runs(s: Relay, run: seq<Action>)
    decreases |run|
  {
    run == [] || (Enabled(s, run[0]) && Runs(Step(s, run[0]), run[1..]))
  }

  function Reached(s: Relay, run: seq<Action>): (r: Relay)
    requires Runs(s, run)
    decreases |run|
  {
    if run == [] then s else Reached(Step(s, run[0]), run[1..])
  }
}
