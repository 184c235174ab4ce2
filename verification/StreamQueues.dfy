/**
 The connection of the stream system is the relay's client connection: what DoForward and DoWrite do to it is what the
 steps Offer and WriteNext of FanOut do to a client, seen from the subscriber's end, where frames that have been read are
 gone from the wire.
 */
module StreamQueues {
  import opened Primitives
  import opened Sequences
  import opened StreamSystem
  import opened FanOut

  type StreamClient = Client<Frame>

  /** A step of FanOut as one client sees it. */
  datatype Turn = Offers(f: Frame, ok: bool) | Writes | Shuts

  predicate CanTurn(k: StreamClient, t: Turn) {
    match t
    case Offers(_, ok) => if ok then |k.queue| < QUEUE_SIZE else MayRefuse(k)
    case Writes => k.queue != [] && !k.loopOver
    case Shuts => true
  }

  function Turned(k: StreamClient, t: Turn): (r: StreamClient)
    requires CanTurn(k, t)
  {
    match t
    case Offers(f, ok) => Offered(k, f, ok)
    case Writes => Wrote(k, true, false)
    case Shuts => Closed(k)
  }

  predicate Turns(k: StreamClient, ts: seq<Turn>)
    decreases |ts|
  {
    ts == [] || (CanTurn(k, ts[0]) && Turns(Turned(k, ts[0]), ts[1..]))
  }

  function TurnedAll(k: StreamClient, ts: seq<Turn>): (r: StreamClient)
    requires Turns(k, ts)
    decreases |ts|
  {
    if ts == [] then k else TurnedAll(Turned(k, ts[0]), ts[1..])
  }

  lemma {:induction false} ShutOk(k: StreamClient)
    requires QueueOk(k) && WrittenOk(k)
    ensures QueueOk(Closed(k)) && WrittenOk(Closed(k))
  {
    assert k.popped[..|k.popped|] == k.popped;
  }

  lemma {:induction false} TurnOk(k: StreamClient, t: Turn)
    requires CanTurn(k, t) && QueueOk(k) && WrittenOk(k)
    ensures QueueOk(Turned(k, t)) && WrittenOk(Turned(k, t))
  {
    match t {
      case Offers(f, ok) =>
        if ok {
          AcceptedOk(k, f);
        } else {
          RefusedOk(k, f);
        }
      case Writes => WriteOk(k, true, false);
      case Shuts => ShutOk(k);
    }
  }

  lemma {:induction false} TurnsOk(k: StreamClient, ts: seq<Turn>)
    requires Turns(k, ts) && QueueOk(k) && WrittenOk(k)
    ensures QueueOk(TurnedAll(k, ts)) && WrittenOk(TurnedAll(k, ts))
    decreases |ts|
  {
    if ts != [] {
      TurnOk(k, ts[0]);
      TurnsOk(Turned(k, ts[0]), ts[1..]);
    }
  }

  lemma {:induction false} OneTurn(k: StreamClient, t: Turn)
    requires CanTurn(k, t)
    ensures Turns(k, [t]) && TurnedAll(k, [t]) == Turned(k, t)
  {
    assert [t][1..] == [];
  }

  /** The client, of whose frames the subscriber has read so many, is this connection. */
  predicate Shows(k: StreamClient, read: nat, conn: Conn) {
    && !k.loopOver && read <= |k.written| && conn.wire == k.written[read..]
    && conn.queue == k.queue && (conn.gap <==> k.failed.Some?)
  }

  /** How a frame is offered: one that is refused though there is room finds the connection closed at the relay. */
  function Offering(conn: Conn, f: Frame, ok: bool): (ts: seq<Turn>) {
    if !ok && |conn.queue| < QUEUE_SIZE then [Shuts, Offers(f, ok)] else [Offers(f, ok)]
  }

  /** What an action of the stream system is for subscriber i's client, and how many frames it reads there. */
  function TurnOf(s: System, a: StreamSystem.Action, i: nat): (ts: seq<Turn>) {
    if a.DoForward? && s.uplink != [] && i in s.nodes && s.nodes[i].conn.Some?
    then Offering(s.nodes[i].conn.value, s.uplink[0], i !in a.failed)
    else if a == DoWrite(i) then [Writes]
    else []
  }

  function ReadOf(a: StreamSystem.Action, i: nat): (n: nat) {
    if a == DoReceive(i) then 1 else 0
  }

  function TurnsOf(c: Suite, s: System, run: seq<StreamSystem.Action>, i: nat): (ts: seq<Turn>)
    requires StreamSystem.Runs(c, s, run)
    decreases |run|
  {
    if run == [] then [] else TurnOf(s, run[0], i) + TurnsOf(c, StreamSystem.Step(c, s, run[0]), run[1..], i)
  }

  function ReadsOf(run: seq<StreamSystem.Action>, i: nat): (n: nat) {
    if run == [] then 0 else ReadOf(run[0], i) + ReadsOf(run[1..], i)
  }

  /** Subscriber i keeps its connection all along. */
  predicate Connected(c: Suite, s: System, run: seq<StreamSystem.Action>, i: nat)
    requires StreamSystem.Runs(c, s, run)
    decreases |run|
  {
    && i in s.nodes && s.nodes[i].conn.Some?
    && (run != [] ==> run[0] != DoJoin(i) && Connected(c, StreamSystem.Step(c, s, run[0]), run[1..], i))
  }

  lemma {:induction false} OfferingTurns(k: StreamClient, conn: Conn, read: nat, f: Frame, ok: bool)
    requires Shows(k, read, conn) && (ok ==> |conn.queue| < QUEUE_SIZE)
    ensures Turns(k, Offering(conn, f, ok))
    ensures var t := TurnedAll(k, Offering(conn, f, ok)); Shows(t, read, if ok then conn.(queue := conn.queue + [f]) else conn.(gap := true))
  {
    if !ok && |conn.queue| < QUEUE_SIZE {
      OneTurn(Closed(k), Offers(f, ok));
      assert Offering(conn, f, ok)[1..] == [Offers(f, ok)];
    } else {
      OneTurn(k, Offers(f, ok));
    }
  }

  lemma {:induction false} ForwardShows(c: Suite, s: System, a: StreamSystem.Action, i: nat, k: StreamClient, read: nat)
    requires StreamSystem.Enabled(c, s, a) && a.DoForward? && i in s.nodes && s.nodes[i].conn.Some?
    requires Shows(k, read, s.nodes[i].conn.value)
    ensures Turns(k, TurnOf(s, a, i))
    ensures var s' := StreamSystem.Step(c, s, a);
      && i in s'.nodes && s'.nodes[i].conn.Some?
      && Shows(TurnedAll(k, TurnOf(s, a, i)), read, s'.nodes[i].conn.value)
  {
    OfferingTurns(k, s.nodes[i].conn.value, read, s.uplink[0], i !in a.failed);
  }

  lemma {:induction false} WriteShows(c: Suite, s: System, a: StreamSystem.Action, i: nat, k: StreamClient, read: nat)
    requires StreamSystem.Enabled(c, s, a) && a == DoWrite(i) && i in s.nodes && s.nodes[i].conn.Some?
    requires Shows(k, read, s.nodes[i].conn.value)
    ensures CanTurn(k, Writes)
    ensures var s' := StreamSystem.Step(c, s, a);
      i in s'.nodes && s'.nodes[i].conn.Some? && Shows(Turned(k, Writes), read, s'.nodes[i].conn.value)
  {
    assert (k.written + [k.queue[0]])[read..] == k.written[read..] + [k.queue[0]];
  }

  /** Reading takes the next frame off the wire; nothing else touches this connection. */
  lemma {:induction false} OtherShows(c: Suite, s: System, a: StreamSystem.Action, i: nat, k: StreamClient, read: nat)
    requires StreamSystem.Enabled(c, s, a) && !a.DoForward? && a != DoWrite(i) && a != DoJoin(i)
    requires i in s.nodes && s.nodes[i].conn.Some? && Shows(k, read, s.nodes[i].conn.value)
    ensures var s' := StreamSystem.Step(c, s, a);
      i in s'.nodes && (s'.nodes[i].conn.Some? ==> Shows(k, read + ReadOf(a, i), s'.nodes[i].conn.value))
  {
    if a == DoReceive(i) {
      assert k.written[read..][1..] == k.written[read + 1..];
    }
  }

  lemma {:induction false} TurnsConcat(k: StreamClient, a: seq<Turn>, b: seq<Turn>)
    requires Turns(k, a) && Turns(TurnedAll(k, a), b)
    ensures Turns(k, a + b) && TurnedAll(k, a + b) == TurnedAll(TurnedAll(k, a), b)
    decreases |a|
  {
    if a == [] {
      assert a + b == b;
    } else {
      assert (a + b)[0] == a[0] && (a + b)[1..] == a[1..] + b;
      TurnsConcat(Turned(k, a[0]), a[1..], b);
    }
  }

  lemma {:induction false} StepShows(c: Suite, s: System, a: StreamSystem.Action, i: nat, k: StreamClient, read: nat)
    requires StreamSystem.Enabled(c, s, a) && a != DoJoin(i) && i in s.nodes && s.nodes[i].conn.Some?
    requires Shows(k, read, s.nodes[i].conn.value)
    ensures Turns(k, TurnOf(s, a, i))
    ensures var s' := StreamSystem.Step(c, s, a);
      && i in s'.nodes
      && (s'.nodes[i].conn.Some? ==> Shows(TurnedAll(k, TurnOf(s, a, i)), read + ReadOf(a, i), s'.nodes[i].conn.value))
  {
    if a.DoForward? {
      ForwardShows(c, s, a, i, k, read);
    } else if a == DoWrite(i) {
      WriteShows(c, s, a, i, k, read);
      assert TurnOf(s, a, i)[1..] == [];
    } else {
      OtherShows(c, s, a, i, k, read);
    }
  }

  /** Over any run the connection and the client go through the same turns. */
  lemma {:induction false} RunShows(c: Suite, s: System, run: seq<StreamSystem.Action>, i: nat, k: StreamClient, read: nat)
    requires StreamSystem.Runs(c, s, run) && Connected(c, s, run, i) && Shows(k, read, s.nodes[i].conn.value)
    ensures Turns(k, TurnsOf(c, s, run, i))
    ensures var t := StreamSystem.Reached(c, s, run);
      && i in t.nodes && t.nodes[i].conn.Some?
      && Shows(TurnedAll(k, TurnsOf(c, s, run, i)), read + ReadsOf(run, i), t.nodes[i].conn.value)
    decreases |run|
  {
    if run != [] {
      var a := run[0];
      var s' := StreamSystem.Step(c, s, a);
      StepShows(c, s, a, i, k, read);
      var k' := TurnedAll(k, TurnOf(s, a, i));
      RunShows(c, s', run[1..], i, k', read + ReadOf(a, i));
      TurnsConcat(k, TurnOf(s, a, i), TurnsOf(c, s', run[1..], i));
    }
  }

  lemma {:induction false} ReadAndLeft(k: StreamClient, read: nat, conn: Conn)
    requires QueueOk(k) && k.written == k.popped && Shows(k, read, conn)
    ensures Subsequence(k.written[..read] + conn.wire + conn.queue, k.offered)
    ensures !conn.gap ==> k.written[..read] + conn.wire + conn.queue == k.offered
  {
    assert k.written == k.written[..read] + k.written[read..];
  }

  /** The queue of the stream system is the relay's. From the moment subscriber i joins, over any run on which it keeps its
      connection, that connection is a client of FanOut that registered then and went through the same offers and writes:
      what the subscriber has read, what is on the wire and what is queued are a subsequence of what was forwarded since,
      and all of it unless the gap flag is set, which is the case if and only if a send was refused. */
  lemma {:induction false} QueueIsTheRelays(c: Suite, s: System, i: nat, run: seq<StreamSystem.Action>)
    requires StreamSystem.Enabled(c, s, DoJoin(i))
    requires StreamSystem.Runs(c, StreamSystem.Step(c, s, DoJoin(i)), run) && Connected(c, StreamSystem.Step(c, s, DoJoin(i)), run, i)
    ensures var s1 := StreamSystem.Step(c, s, DoJoin(i));
      var t := StreamSystem.Reached(c, s1, run);
      var ts := TurnsOf(c, s1, run, i);
      && Turns(NewClient(0), ts) && i in t.nodes && t.nodes[i].conn.Some?
      && var k, conn := TurnedAll(NewClient(0), ts), t.nodes[i].conn.value;
        && Shows(k, ReadsOf(run, i), conn) && k.offered == OffersIn(ts)
        && Subsequence(k.written[..ReadsOf(run, i)] + conn.wire + conn.queue, k.offered)
        && (conn.gap <==> k.failed.Some?)
        && (!conn.gap ==> k.written[..ReadsOf(run, i)] + conn.wire + conn.queue == k.offered)
  {
    var s1 := StreamSystem.Step(c, s, DoJoin(i));
    RunShows(c, s1, run, i, NewClient(0), 0);
    TurnsOk(NewClient(0), TurnsOf(c, s1, run, i));
    AllOffered(NewClient(0), TurnsOf(c, s1, run, i));
    assert [] + OffersIn(TurnsOf(c, s1, run, i)) == OffersIn(TurnsOf(c, s1, run, i));
    AllWritten(NewClient(0), TurnsOf(c, s1, run, i));
    ReadAndLeft(TurnedAll(NewClient(0), TurnsOf(c, s1, run, i)), ReadsOf(run, i), StreamSystem.Reached(c, s1, run).nodes[i].conn.value);
  }

  /** The frames offered in these turns. */
  function OffersIn(ts: seq<Turn>): (fs: seq<Frame>) {
    if ts == [] then [] else (if ts[0].Offers? then [ts[0].f] else []) + OffersIn(ts[1..])
  }

  lemma {:induction false} AllOffered(k: StreamClient, ts: seq<Turn>)
    requires Turns(k, ts)
    ensures TurnedAll(k, ts).offered == k.offered + OffersIn(ts)
    decreases |ts|
  {
    if ts != [] {
      AllOffered(Turned(k, ts[0]), ts[1..]);
    }
  }

  lemma {:induction false} AllWritten(k: StreamClient, ts: seq<Turn>)
    requires Turns(k, ts) && k.written == k.popped
    ensures TurnedAll(k, ts).written == TurnedAll(k, ts).popped
    decreases |ts|
  {
    if ts != [] {
      AllWritten(Turned(k, ts[0]), ts[1..]);
    }
  }
}
