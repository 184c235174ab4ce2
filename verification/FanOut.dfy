/**
 The relay's broadcast (pkg/relay/session.go), with every interleaving of ForwardFromPublisher, each subscriber's
 writeLoop, removals and closes. A step is one channel operation or one write. A send is refused when the connection is
 closed, or when the queue is full and stays full until the timeout; with room in an open connection it succeeds at once.

 A handler forwards its frames one after the other, but several handlers may be forwarding on the same session: once a
 session has been closed, a publisher that had already read a frame can overlap with one that registered later.
 */
module FanOut {
  import opened Wrappers
  import opened EnvelopeCodec
  import opened Sequences
  import opened Sessions

  const QUEUE_SIZE := 200

  /** A subscriber connection. `popped` are the frames its writeLoop took from the queue, `written` those whose write
      succeeded, `offered` those SendFrame was called with, `failed` the position of the first refusal, and `closedAt` how
      many frames had been popped when the connection was closed. */
  datatype Client<T> = Client(
    queue: seq<T>,
    popped: seq<T>,
    written: seq<T>,
    offered: seq<T>,
    failed: Option<nat>,
    done: bool,
    loopOver: bool,
    registered: bool,
    removalPending: bool,
    since: nat,
    closedAt: Option<nat>)

  /** The frame a publisher's handler is forwarding, and whom it still has to reach. */
  datatype Round = Round(e: Envelope, todo: set<nat>)

  /** The session: all connections ever registered, the frames broadcast so far in the order of their snapshots, and the
      round each publisher's handler is in. */
  datatype Relay = Relay(clients: map<nat, Client<Item<Envelope>>>, broadcast: seq<Item<Envelope>>, rounds: map<nat, Round>, nextKey: nat)

  datatype Action =
    | Register
    | BeginForward(p: nat, e: Envelope)   // publisher p: snapshot of the subscriber map
    | Offer(p: nat, i: nat, ok: bool)     // SendFrame to one of the snapshot
    | WriteNext(i: nat, ok: bool, exit: bool)  // one iteration of writeLoop
    | DrainOver(i: nat)
    | Remove(i: nat)                      // out of the subscriber map: RemoveSubscriber, or the session's Close
    | CloseConn(i: nat)                   // ...which also close the connection

  /** Publisher p's current frame has not been offered to subscriber i yet. */
  predicate Owes(s: Relay, p: nat, i: nat) {
    p in s.rounds && i in s.rounds[p].todo
  }

  /** SendFrame can fail: the connection is closed, or its queue is full. */
  predicate MayRefuse<T>(k: Client<T>) {
    k.done || |k.queue| >= QUEUE_SIZE
  }

  predicate Enabled(s: Relay, a: Action) {
    match a
    case Register => true
    case BeginForward(p, _) => p in s.rounds ==> s.rounds[p].todo == {}
    case Offer(p, i, ok) =>
      && Owes(s, p, i) && i in s.clients
      && if ok then |s.clients[i].queue| < QUEUE_SIZE else MayRefuse(s.clients[i])
    case WriteNext(i, ok, exit) =>
      && i in s.clients && !s.clients[i].loopOver && s.clients[i].queue != []
      // a failed write ends the loop unless the connection is draining; a successful one never does
      && (ok ==> !exit) && (!ok && !s.clients[i].done ==> exit)
    case DrainOver(i) => i in s.clients && !s.clients[i].loopOver && s.clients[i].done && s.clients[i].queue == []
    case Remove(i) => i in s.clients
    case CloseConn(i) => i in s.clients
  }

  function Offered<T>(k: Client<T>, e: T, ok: bool): (r: Client<T>) {
    if ok then k.(queue := k.queue + [e], offered := k.offered + [e])
    else k.(offered := k.offered + [e], failed := if k.failed.None? then Some(|k.offered|) else k.failed, removalPending := true)
  }

  function Wrote<T>(k: Client<T>, ok: bool, exit: bool): (r: Client<T>)
    requires k.queue != []
  {
    k.(queue := k.queue[1..],
       popped := k.popped + [k.queue[0]],
       written := if ok then k.written + [k.queue[0]] else k.written,
       done := k.done || exit,
       loopOver := k.loopOver || exit,
       closedAt := if exit && k.closedAt.None? then Some(|k.popped|) else k.closedAt)
  }

  /** Close: only the first one counts. */
  function Closed<T>(k: Client<T>): (r: Client<T>) {
    k.(done := true, closedAt := if k.closedAt.None? then Some(|k.popped|) else k.closedAt)
  }

  /** A connection that has just registered, when this many frames had been broadcast. */
  function NewClient<T>(since: nat): (k: Client<T>) {
    Client([], [], [], [], None, false, false, true, false, since, None)
  }

  function Step(s: Relay, a: Action): (r: Relay)
    requires Enabled(s, a)
  {
    match a
    case Register => s.(clients := s.clients[s.nextKey := NewClient(|s.broadcast|)], nextKey := s.nextKey + 1)
    case BeginForward(p, e) =>
      s.(broadcast := s.broadcast + [Item(e, p)],
         rounds := s.rounds[p := Round(e, set i | i in s.clients && s.clients[i].registered)])
    case Offer(p, i, ok) =>
      s.(clients := s.clients[i := Offered(s.clients[i], Item(s.rounds[p].e, p), ok)],
         rounds := s.rounds[p := s.rounds[p].(todo := s.rounds[p].todo - {i})])
    case WriteNext(i, ok, exit) => s.(clients := s.clients[i := Wrote(s.clients[i], ok, exit)])
    case DrainOver(i) => s.(clients := s.clients[i := s.clients[i].(loopOver := true)])
    case Remove(i) => s.(clients := s.clients[i := s.clients[i].(registered := false, removalPending := false)])
    case CloseConn(i) => s.(clients := s.clients[i := Closed(s.clients[i])])
  }

  predicate Initial(s: Relay) {
    s.clients == map[] && s.broadcast == [] && s.rounds == map[]
  }

  predicate Runs(s: Relay, run: seq<Action>)
    decreases |run|
  {
    run == [] || (Enabled(s, run[0]) && Runs(Step(s, run[0]), run[1..]))
  }

  function Reached(s: Relay, run: seq<Action>): (r: Relay)
    requires Runs(s, run)
    decreases |run|
  {
    if run == [] then s else Reached(Step(s, run[0]), run[1..])
  }

  // ----- the frames of some publishers -----

  /** Those of the frames that come from such a publisher. */
  function From(fs: seq<Item<Envelope>>, who: nat -> bool): (r: seq<Item<Envelope>>) {
    if fs == [] then []
    else From(fs[..|fs| - 1], who) + (if who(fs[|fs| - 1].from) then [fs[|fs| - 1]] else [])
  }

  function Only(p: nat): nat -> bool {
    (q: nat) => q == p
  }

  function Either(p: nat, q: nat): nat -> bool {
    (r: nat) => r == p || r == q
  }

  function Anyone(): nat -> bool {
    (q: nat) => true
  }

  lemma {:induction false} FromSnoc(fs: seq<Item<Envelope>>, f: Item<Envelope>, who: nat -> bool)
    ensures From(fs + [f], who) == From(fs, who) + (if who(f.from) then [f] else [])
  {
    assert (fs + [f])[..|fs|] == fs;
  }

  lemma {:induction false} FromConcat(a: seq<Item<Envelope>>, b: seq<Item<Envelope>>, who: nat -> bool)
    ensures From(a + b, who) == From(a, who) + From(b, who)
  {
    if b == [] {
      assert a + b == a;
    } else {
      var b', f := b[..|b| - 1], b[|b| - 1];
      FromConcat(a, b', who);
      assert a + b == (a + b') + [f] && b == b' + [f];
      FromSnoc(a + b', f, who);
      FromSnoc(b', f, who);
    }
  }

  lemma {:induction false} FromPrefix(a: seq<Item<Envelope>>, b: seq<Item<Envelope>>, who: nat -> bool)
    requires a <= b
    ensures From(a, who) <= From(b, who)
  {
    assert b == a + b[|a|..];
    FromConcat(a, b[|a|..], who);
  }

  lemma {:induction false} FromSubsequence(a: seq<Item<Envelope>>, b: seq<Item<Envelope>>, who: nat -> bool)
    requires Subsequence(a, b)
    ensures Subsequence(From(a, who), From(b, who))
    decreases |b|
  {
    if a != [] {
      var b', y := b[..|b| - 1], b[|b| - 1];
      if a[|a| - 1] == y {
        FromSubsequence(a[..|a| - 1], b', who);
        Reflexive(if who(y.from) then [y] else []);
        Concat(From(a[..|a| - 1], who), From(b', who), if who(y.from) then [y] else [], if who(y.from) then [y] else []);
      } else {
        FromSubsequence(a, b', who);
        if who(y.from) {
          Widen(From(a, who), From(b', who), y);
        } else {
          assert From(b, who) == From(b', who);
        }
      }
    }
  }

  lemma {:induction false} FromAnyone(fs: seq<Item<Envelope>>)
    ensures From(fs, Anyone()) == fs
  {
    if fs != [] {
      FromAnyone(fs[..|fs| - 1]);
    }
  }

  // ----- the invariant -----

  /** What was accepted is what was offered, without gaps before the first refusal. */
  predicate QueueOk<T(==)>(k: Client<T>) {
    && |k.queue| <= QUEUE_SIZE
    && Subsequence(k.popped + k.queue, k.offered)
    && (k.failed.None? ==> k.popped + k.queue == k.offered)
    && (k.failed.Some? ==> k.failed.value < |k.offered| && k.offered[..k.failed.value] <= k.popped + k.queue)
    && (k.failed.Some? ==> k.removalPending || !k.registered)
  }

  /** Everything popped before the connection was closed was written. */
  predicate WrittenOk<T(==)>(k: Client<T>) {
    && Subsequence(k.written, k.popped)
    && (k.done <==> k.closedAt.Some?)
    && (k.closedAt.None? ==> k.written == k.popped)
    && (k.closedAt.Some? ==> k.closedAt.value <= |k.popped| && k.popped[..k.closedAt.value] <= k.written)
  }

  /** What was offered is what was broadcast since registration, up to the frame whose turn has not come. */
  predicate OfferedOk(offered: seq<Item<Envelope>>, sent: seq<Item<Envelope>>, registered: bool, owed: seq<Item<Envelope>>) {
    offered + owed <= sent && (registered ==> offered + owed == sent)
  }

  function OwedBy(s: Relay, p: nat, i: nat): (fs: seq<Item<Envelope>>) {
    if Owes(s, p, i) then [Item(s.rounds[p].e, p)] else []
  }

  /** So it is with the frames of every single publisher. */
  predicate EachOk(k: Client<Item<Envelope>>, broadcast: seq<Item<Envelope>>, p: nat, owed: seq<Item<Envelope>>) {
    && k.since <= |broadcast|
    && OfferedOk(From(k.offered, Only(p)), From(broadcast[k.since..], Only(p)), k.registered, owed)
  }

  ghost predicate ClientOk(s: Relay, i: nat)
    requires i in s.clients
  {
    && QueueOk(s.clients[i]) && WrittenOk(s.clients[i]) && s.clients[i].since <= |s.broadcast|
    && forall p: nat :: EachOk(s.clients[i], s.broadcast, p, OwedBy(s, p, i))
  }

  ghost predicate Inv(s: Relay) {
    && (forall i :: i in s.clients ==> i < s.nextKey && ClientOk(s, i))
    && (forall p, i :: Owes(s, p, i) ==> i in s.clients)
  }

  lemma {:induction false} AcceptedOk<T>(k: Client<T>, e: T)
    requires QueueOk(k) && |k.queue| < QUEUE_SIZE
    ensures QueueOk(Offered(k, e, true))
  {
    var accepted := k.popped + k.queue;
    Reflexive([e]);
    Concat(accepted, k.offered, [e], [e]);
    assert k.popped + (k.queue + [e]) == accepted + [e];
    if k.failed.Some? {
      assert (k.offered + [e])[..k.failed.value] == k.offered[..k.failed.value];
      PrefixGrows(k.offered[..k.failed.value], accepted, e);
    }
  }

  lemma {:induction false} RefusedOk<T>(k: Client<T>, e: T)
    requires QueueOk(k)
    ensures QueueOk(Offered(k, e, false))
  {
    Widen(k.popped + k.queue, k.offered, e);
    if k.failed.Some? {
      assert (k.offered + [e])[..k.failed.value] == k.offered[..k.failed.value];
    } else {
      assert (k.offered + [e])[..|k.offered|] == k.offered;
    }
  }

  lemma {:induction false} PrefixGrows<T>(a: seq<T>, b: seq<T>, e: T)
    requires a <= b
    ensures a <= b + [e]
  {
  }

  lemma {:induction false} TakeNext<T>(popped: seq<T>, queue: seq<T>)
    requires queue != []
    ensures popped + [queue[0]] + queue[1..] == popped + queue
  {
  }

  lemma {:induction false} WriteQueueOk<T>(k: Client<T>, ok: bool, exit: bool)
    requires QueueOk(k) && k.queue != []
    ensures QueueOk(Wrote(k, ok, exit))
  {
    TakeNext(k.popped, k.queue);
  }

  lemma {:induction false} OneMoreWritten<T>(written: seq<T>, popped: seq<T>, e: T, ok: bool)
    requires Subsequence(written, popped)
    ensures Subsequence(if ok then written + [e] else written, popped + [e])
  {
    if ok {
      Reflexive([e]);
      Concat(written, popped, [e], [e]);
    } else {
      Widen(written, popped, e);
    }
  }

  /** What was written before the close still is. */
  lemma {:induction false} PrefixKept<T>(written: seq<T>, popped: seq<T>, e: T, n: nat, ok: bool)
    requires n <= |popped| && popped[..n] <= written
    ensures (popped + [e])[..n] <= (if ok then written + [e] else written)
  {
    assert (popped + [e])[..n] == popped[..n];
  }

  lemma {:induction false} WriteWrittenOk<T>(k: Client<T>, ok: bool, exit: bool)
    requires WrittenOk(k) && k.queue != [] && (ok ==> !exit) && (!ok && !k.done ==> exit)
    ensures WrittenOk(Wrote(k, ok, exit))
  {
    OneMoreWritten(k.written, k.popped, k.queue[0], ok);
    if k.closedAt.Some? {
      PrefixKept(k.written, k.popped, k.queue[0], k.closedAt.value, ok);
    } else {
      assert k.popped[..|k.popped|] == k.popped;
      PrefixKept(k.written, k.popped, k.queue[0], |k.popped|, ok);
    }
  }

  lemma {:induction false} WriteOk<T>(k: Client<T>, ok: bool, exit: bool)
    requires QueueOk(k) && WrittenOk(k) && k.queue != [] && (ok ==> !exit) && (!ok && !k.done ==> exit)
    ensures QueueOk(Wrote(k, ok, exit)) && WrittenOk(Wrote(k, ok, exit))
  {
    WriteQueueOk(k, ok, exit);
    WriteWrittenOk(k, ok, exit);
  }

  // ----- every step -----

  /** Publisher p begins a round; whoever is registered is now owed its frame. */
  lemma {:induction false} BeginEach(k: Client<Item<Envelope>>, broadcast: seq<Item<Envelope>>, f: Item<Envelope>, q: nat, owed: seq<Item<Envelope>>)
    requires EachOk(k, broadcast, q, owed) && (q == f.from ==> owed == [])
    ensures EachOk(k, broadcast + [f], q, if q == f.from && k.registered then [f] else owed)
  {
    assert (broadcast + [f])[k.since..] == broadcast[k.since..] + [f];
    FromSnoc(broadcast[k.since..], f, Only(q));
  }

  lemma {:induction false} BeginForwardInv(s: Relay, a: Action)
    requires Inv(s) && a.BeginForward? && Enabled(s, a)
    ensures Inv(Step(s, a))
  {
    var s' := Step(s, a);
    forall i | i in s'.clients
      ensures ClientOk(s', i)
    {
      assert ClientOk(s, i);
      forall q: nat
        ensures EachOk(s'.clients[i], s'.broadcast, q, OwedBy(s', q, i))
      {
        assert EachOk(s.clients[i], s.broadcast, q, OwedBy(s, q, i));
        BeginEach(s.clients[i], s.broadcast, Item(a.e, a.p), q, OwedBy(s, q, i));
      }
    }
    forall p, i | Owes(s', p, i)
      ensures i in s'.clients
    {
      assert p != a.p ==> Owes(s, p, i);
    }
  }

  /** A step on one connection that neither offers it anything nor broadcasts leaves the others as they were. */
  lemma {:induction false} ClientUpdateInv(s: Relay, i: nat, k: Client<Item<Envelope>>)
    requires Inv(s) && i in s.clients && QueueOk(k) && WrittenOk(k)
    requires k.offered == s.clients[i].offered && k.since == s.clients[i].since && (k.registered ==> s.clients[i].registered)
    ensures Inv(s.(clients := s.clients[i := k]))
  {
    var s' := s.(clients := s.clients[i := k]);
    forall j | j in s'.clients
      ensures j < s'.nextKey && ClientOk(s', j)
    {
      assert ClientOk(s, j);
      forall q: nat
        ensures EachOk(s'.clients[j], s'.broadcast, q, OwedBy(s', q, j))
      {
        assert EachOk(s.clients[j], s.broadcast, q, OwedBy(s, q, j));
        assert OwedBy(s', q, j) == OwedBy(s, q, j);
      }
    }
    forall p, j | Owes(s', p, j)
      ensures j in s'.clients
    {
      assert Owes(s, p, j);
    }
  }

  lemma {:induction false} OfferEach(k: Client<Item<Envelope>>, broadcast: seq<Item<Envelope>>, f: Item<Envelope>, ok: bool, q: nat, owed: seq<Item<Envelope>>)
    requires EachOk(k, broadcast, q, owed) && (q == f.from ==> owed == [f])
    ensures EachOk(Offered(k, f, ok), broadcast, q, if q == f.from then [] else owed)
  {
    FromSnoc(k.offered, f, Only(q));
  }

  lemma {:induction false} OfferedClient(s: Relay, a: Action)
    requires Inv(s) && a.Offer? && Enabled(s, a)
    ensures ClientOk(Step(s, a), a.i)
  {
    var s' := Step(s, a);
    var k := s.clients[a.i];
    var f := Item(s.rounds[a.p].e, a.p);
    assert ClientOk(s, a.i);
    if a.ok {
      AcceptedOk(k, f);
    } else {
      RefusedOk(k, f);
    }
    forall q: nat
      ensures EachOk(s'.clients[a.i], s'.broadcast, q, OwedBy(s', q, a.i))
    {
      assert EachOk(k, s.broadcast, q, OwedBy(s, q, a.i));
      OfferEach(k, s.broadcast, f, a.ok, q, OwedBy(s, q, a.i));
    }
  }

  /** A client that has not changed, and is owed what it was owed, is as it was. */
  lemma {:induction false} SameClientOk(s: Relay, s': Relay, j: nat)
    requires j in s.clients && ClientOk(s, j) && j in s'.clients && s'.clients[j] == s.clients[j] && s'.broadcast == s.broadcast
    requires forall q: nat :: OwedBy(s', q, j) == OwedBy(s, q, j)
    ensures ClientOk(s', j)
  {
    forall q: nat
      ensures EachOk(s'.clients[j], s'.broadcast, q, OwedBy(s', q, j))
    {
      assert EachOk(s.clients[j], s.broadcast, q, OwedBy(s, q, j));
      assert OwedBy(s', q, j) == OwedBy(s, q, j);
    }
  }

  /** An offer changes what nobody else is owed. */
  lemma {:induction false} OfferOwes(s: Relay, a: Action, j: nat)
    requires a.Offer? && Enabled(s, a) && j != a.i
    ensures forall q: nat :: OwedBy(Step(s, a), q, j) == OwedBy(s, q, j)
  {
  }

  lemma {:induction false} OfferInv(s: Relay, a: Action)
    requires Inv(s) && a.Offer? && Enabled(s, a)
    ensures Inv(Step(s, a))
  {
    var s' := Step(s, a);
    OfferedClient(s, a);
    forall j | j in s'.clients && j != a.i
      ensures j < s'.nextKey && ClientOk(s', j)
    {
      OfferOwes(s, a, j);
      SameClientOk(s, s', j);
    }
    forall p, j | Owes(s', p, j)
      ensures j in s'.clients
    {
      assert Owes(s, p, j);
    }
  }

  lemma {:induction false} RegisterInv(s: Relay, a: Action)
    requires Inv(s) && a.Register?
    ensures Inv(Step(s, a))
  {
    var s' := Step(s, a);
    forall j | j in s'.clients
      ensures j < s'.nextKey && ClientOk(s', j)
    {
      if j != s.nextKey {
        assert ClientOk(s, j);
        forall q: nat
          ensures EachOk(s'.clients[j], s'.broadcast, q, OwedBy(s', q, j))
        {
          assert EachOk(s.clients[j], s.broadcast, q, OwedBy(s, q, j));
        }
      } else {
        assert s'.broadcast[|s.broadcast|..] == [];
        forall q: nat
          ensures EachOk(s'.clients[j], s'.broadcast, q, OwedBy(s', q, j))
        {
          assert Owes(s, q, j) ==> j in s.clients;
        }
      }
    }
    forall p, j | Owes(s', p, j)
      ensures j in s'.clients
    {
      assert Owes(s, p, j);
    }
  }

  lemma {:induction false} StepInv(s: Relay, a: Action)
    requires Inv(s) && Enabled(s, a)
    ensures Inv(Step(s, a))
  {
    match a {
      case Register => RegisterInv(s, a);
      case BeginForward(_, _) => BeginForwardInv(s, a);
      case Offer(_, _, _) => OfferInv(s, a);
      case WriteNext(i, ok, exit) =>
        assert ClientOk(s, i);
        WriteOk(s.clients[i], ok, exit);
        ClientUpdateInv(s, i, Wrote(s.clients[i], ok, exit));
      case DrainOver(i) =>
        assert ClientOk(s, i);
        ClientUpdateInv(s, i, s.clients[i].(loopOver := true));
      case Remove(i) =>
        assert ClientOk(s, i);
        ClientUpdateInv(s, i, s.clients[i].(registered := false, removalPending := false));
      case CloseConn(i) =>
        assert ClientOk(s, i);
        assert s.clients[i].popped[..|s.clients[i].popped|] == s.clients[i].popped;
        ClientUpdateInv(s, i, Closed(s.clients[i]));
    }
  }

  lemma {:induction false} RunInv(s: Relay, run: seq<Action>)
    requires Inv(s) && Runs(s, run)
    ensures Inv(Reached(s, run))
    decreases |run|
  {
    if run != [] {
      StepInv(s, run[0]);
      RunInv(Step(s, run[0]), run[1..]);
    }
  }

  // ----- what is promised of one subscriber -----

  /** About the frames of such publishers, of which `owed` is still to be offered. */
  predicate InOrder(k: Client<Item<Envelope>>, broadcast: seq<Item<Envelope>>, who: nat -> bool, owed: seq<Item<Envelope>>) {
    && k.since <= |broadcast| && |k.queue| <= QUEUE_SIZE
    && var sent := From(broadcast[k.since..], who);
    && Subsequence(From(k.written + k.queue, who), sent)
    // without a refused send: an unbroken stretch from the registration on, whether or not it was closed or removed since
    && (k.failed.None? ==> From(k.popped + k.queue, who) <= sent)
    // every frame taken from the queue before the close was written
    && (k.closedAt.None? ==> !k.done && k.written == k.popped)
    && (k.closedAt.Some? ==> k.closedAt.value <= |k.popped| && k.popped[..k.closedAt.value] <= k.written)
    // and while it is open and registered it has everything but the frame whose turn has not come
    && (k.failed.None? && !k.done && k.registered ==> From(k.written + k.queue, who) + owed == sent)
    // nothing is missing before the first refused send
    && (k.failed.Some? ==>
          && (k.removalPending || !k.registered)
          && k.failed.value < |k.offered| && k.offered[..k.failed.value] <= k.popped + k.queue
          && From(k.offered[..k.failed.value], who) <= sent)
  }

  lemma {:induction false} OkIsInOrder(k: Client<Item<Envelope>>, broadcast: seq<Item<Envelope>>, who: nat -> bool, owed: seq<Item<Envelope>>)
    requires QueueOk(k) && WrittenOk(k) && k.since <= |broadcast|
    requires OfferedOk(From(k.offered, who), From(broadcast[k.since..], who), k.registered, owed)
    ensures InOrder(k, broadcast, who, owed)
  {
    var sent := From(broadcast[k.since..], who);
    Reflexive(k.queue);
    Concat(k.written, k.popped, k.queue, k.queue);
    SubsequenceTrans(k.written + k.queue, k.popped + k.queue, k.offered);
    FromSubsequence(k.written + k.queue, k.offered, who);
    assert From(k.offered, who) <= sent;
    PrefixSubsequence(From(k.written + k.queue, who), From(k.offered, who), sent);
    if k.failed.Some? {
      FromPrefix(k.offered[..k.failed.value], k.offered, who);
    }
  }

  /** Whatever the interleaving, and for every publisher p: of p's frames, what a subscriber has been written plus what is
      queued for it is an in-order subsequence of those broadcast since it registered; it misses nothing before its first
      refused send, and nothing at all without one, even if it was closed or removed; every frame taken from the queue
      before a close was written; its queue never exceeds 200; and after a refusal its removal is pending or done. */
  lemma {:induction false} FanOutOrder(s0: Relay, run: seq<Action>, i: nat, p: nat)
    requires Initial(s0) && Runs(s0, run) && i in Reached(s0, run).clients
    ensures var s := Reached(s0, run); InOrder(s.clients[i], s.broadcast, Only(p), OwedBy(s, p, i))
  {
    RunInv(s0, run);
    var s := Reached(s0, run);
    assert ClientOk(s, i);
    assert EachOk(s.clients[i], s.broadcast, p, OwedBy(s, p, i));
    OkIsInOrder(s.clients[i], s.broadcast, Only(p), OwedBy(s, p, i));
  }

  // ----- nobody is refused without a reason -----

  /** Subscriber i has room in its queue all along. */
  predicate NeverFull(s: Relay, run: seq<Action>, i: nat)
    requires Runs(s, run)
    decreases |run|
  {
    && (i in s.clients ==> |s.clients[i].queue| < QUEUE_SIZE)
    && (run != [] ==> NeverFull(Step(s, run[0]), run[1..], i))
  }

  /** Still open, so never refused. */
  predicate Welcome(s: Relay, i: nat) {
    i in s.clients && !s.clients[i].done ==> s.clients[i].failed.None?
  }

  lemma {:induction false} StepWelcome(s: Relay, a: Action, i: nat)
    requires Enabled(s, a) && Welcome(s, i) && (i in s.clients ==> |s.clients[i].queue| < QUEUE_SIZE)
    ensures Welcome(Step(s, a), i)
  {
  }

  lemma {:induction false} RunWelcome(s: Relay, run: seq<Action>, i: nat)
    requires Runs(s, run) && NeverFull(s, run, i) && Welcome(s, i)
    ensures Welcome(Reached(s, run), i)
    decreases |run|
  {
    if run != [] {
      StepWelcome(s, run[0], i);
      RunWelcome(Step(s, run[0]), run[1..], i);
    }
  }

  /** A subscriber that is open and registered and whose queue has never been full has, of every publisher's frames, exactly
      those broadcast since it registered and no longer owed to it: nothing was refused. */
  lemma {:induction false} NothingRefused(s0: Relay, run: seq<Action>, i: nat, p: nat)
    requires Initial(s0) && Runs(s0, run) && NeverFull(s0, run, i)
    requires i in Reached(s0, run).clients && !Reached(s0, run).clients[i].done && Reached(s0, run).clients[i].registered
    ensures var s := Reached(s0, run);
      var k := s.clients[i];
      && k.failed.None? && k.popped == k.written && k.since <= |s.broadcast|
      && From(k.popped + k.queue, Only(p)) + OwedBy(s, p, i) == From(s.broadcast[k.since..], Only(p))
  {
    RunWelcome(s0, run, i);
    RunInv(s0, run);
    var s := Reached(s0, run);
    assert ClientOk(s, i);
    FanOutOrder(s0, run, i, p);
    assert s.clients[i].popped + s.clients[i].queue == s.clients[i].written + s.clients[i].queue;
  }

  // ----- the order across publishers -----

  /** No subscriber is owed a frame by two publishers at once. */
  ghost predicate Single(s: Relay) {
    forall p, q, i :: Owes(s, p, i) && Owes(s, q, i) ==> p == q
  }

  ghost predicate NeverTwice(s: Relay, run: seq<Action>)
    requires Runs(s, run)
    decreases |run|
  {
    Single(s) && (run != [] ==> NeverTwice(Step(s, run[0]), run[1..]))
  }

  ghost predicate Idle(s: Relay, i: nat) {
    forall p :: !Owes(s, p, i)
  }

  predicate AllOk(k: Client<Item<Envelope>>, broadcast: seq<Item<Envelope>>, owed: seq<Item<Envelope>>) {
    k.since <= |broadcast| && OfferedOk(k.offered, broadcast[k.since..], k.registered, owed)
  }

  /** What was offered, from whomever, is what was broadcast since registration, up to the frame whose turn has not come. */
  ghost predicate WholeOk(s: Relay, i: nat)
    requires i in s.clients
  {
    && (forall p :: Owes(s, p, i) ==> AllOk(s.clients[i], s.broadcast, OwedBy(s, p, i)))
    && (Idle(s, i) ==> AllOk(s.clients[i], s.broadcast, []))
  }

  ghost predicate WholeInv(s: Relay) {
    forall i :: i in s.clients ==> WholeOk(s, i)
  }

  lemma {:induction false} BeginAll(k: Client<Item<Envelope>>, broadcast: seq<Item<Envelope>>, f: Item<Envelope>, owed: seq<Item<Envelope>>)
    requires AllOk(k, broadcast, owed)
    ensures !k.registered ==> AllOk(k, broadcast + [f], owed)
    ensures owed == [] && k.registered ==> AllOk(k, broadcast + [f], [f])
  {
    assert (broadcast + [f])[k.since..] == broadcast[k.since..] + [f];
  }

  /** Nobody else was forwarding to a subscriber that is now owed this frame. */
  lemma {:induction false} BeginIdle(s: Relay, a: Action, i: nat)
    requires a.BeginForward? && Enabled(s, a) && Single(Step(s, a)) && i in s.clients && s.clients[i].registered
    ensures Idle(s, i) && Owes(Step(s, a), a.p, i)
  {
    var s' := Step(s, a);
    forall q
      ensures !Owes(s, q, i)
    {
      if Owes(s, q, i) {
        assert Owes(s', q, i) && Owes(s', a.p, i);
      }
    }
  }

  lemma {:induction false} BeginWhole(s: Relay, a: Action, i: nat)
    requires a.BeginForward? && Enabled(s, a) && Single(Step(s, a)) && i in s.clients && WholeOk(s, i)
    ensures WholeOk(Step(s, a), i)
  {
    var s' := Step(s, a);
    var k, f := s.clients[i], Item(a.e, a.p);
    if k.registered {
      BeginIdle(s, a, i);
      BeginAll(k, s.broadcast, f, []);
    } else {
      forall q | Owes(s', q, i)
        ensures AllOk(k, s'.broadcast, OwedBy(s', q, i))
      {
        assert Owes(s, q, i);
        BeginAll(k, s.broadcast, f, OwedBy(s, q, i));
      }
      if Idle(s', i) {
        assert forall q :: Owes(s, q, i) ==> Owes(s', q, i);
        BeginAll(k, s.broadcast, f, []);
      }
    }
  }

  lemma {:induction false} OfferWhole(s: Relay, a: Action)
    requires a.Offer? && Enabled(s, a) && Single(s) && WholeOk(s, a.i)
    ensures WholeOk(Step(s, a), a.i)
  {
    var s' := Step(s, a);
    assert AllOk(s.clients[a.i], s.broadcast, OwedBy(s, a.p, a.i));
    forall q
      ensures !Owes(s', q, a.i)
    {
      assert Owes(s', q, a.i) ==> Owes(s, q, a.i);
    }
  }

  /** From s to s' subscriber i is owed and has been offered the same. */
  ghost predicate Untouched(s: Relay, s': Relay, i: nat) {
    && i in s.clients && i in s'.clients && s'.broadcast == s.broadcast
    && s'.clients[i].offered == s.clients[i].offered && s'.clients[i].since == s.clients[i].since
    && (s'.clients[i].registered ==> s.clients[i].registered)
    && forall q :: OwedBy(s', q, i) == OwedBy(s, q, i)
  }

  lemma {:induction false} SameWhole(s: Relay, s': Relay, i: nat)
    requires Untouched(s, s', i) && WholeOk(s, i)
    ensures WholeOk(s', i)
  {
    forall q | Owes(s', q, i)
      ensures AllOk(s'.clients[i], s'.broadcast, OwedBy(s', q, i))
    {
      assert OwedBy(s', q, i) == OwedBy(s, q, i);
      assert Owes(s, q, i);
    }
    if Idle(s', i) {
      forall q
        ensures !Owes(s, q, i)
      {
        assert OwedBy(s', q, i) == OwedBy(s, q, i);
      }
    }
  }

  lemma {:induction false} OfferUntouched(s: Relay, a: Action, i: nat)
    requires Enabled(s, a) && a.Offer? && i in s.clients && i != a.i
    ensures Untouched(s, Step(s, a), i)
  {
  }

  lemma {:induction false} OtherUntouched(s: Relay, a: Action, i: nat)
    requires Enabled(s, a) && !a.BeginForward? && !a.Offer? && i in s.clients && i < s.nextKey
    ensures Untouched(s, Step(s, a), i)
  {
  }

  lemma {:induction false} StepWhole(s: Relay, a: Action, i: nat)
    requires i < s.nextKey && Enabled(s, a) && Single(s) && Single(Step(s, a)) && i in s.clients && WholeOk(s, i)
    ensures i in Step(s, a).clients && WholeOk(Step(s, a), i)
  {
    if a.BeginForward? {
      BeginWhole(s, a, i);
    } else if a.Offer? && a.i == i {
      OfferWhole(s, a);
    } else {
      if a.Offer? {
        OfferUntouched(s, a, i);
      } else {
        OtherUntouched(s, a, i);
      }
      SameWhole(s, Step(s, a), i);
    }
  }

  lemma {:induction false} NewWhole(s: Relay, a: Action)
    requires Inv(s) && a.Register?
    ensures WholeOk(Step(s, a), s.nextKey)
  {
    var s' := Step(s, a);
    assert s'.broadcast[|s.broadcast|..] == [];
    forall q
      ensures !Owes(s', q, s.nextKey)
    {
      assert Owes(s, q, s.nextKey) ==> s.nextKey in s.clients;
    }
  }

  lemma {:induction false} RunWhole(s: Relay, run: seq<Action>)
    requires Inv(s) && WholeInv(s) && Runs(s, run) && NeverTwice(s, run)
    ensures WholeInv(Reached(s, run)) && Inv(Reached(s, run))
    decreases |run|
  {
    if run != [] {
      var a := run[0];
      var s' := Step(s, a);
      StepInv(s, a);
      forall i | i in s'.clients
        ensures WholeOk(s', i)
      {
        if i in s.clients {
          StepWhole(s, a, i);
        } else {
          NewWhole(s, a);
        }
      }
      RunWhole(s', run[1..]);
    }
  }

  /** If no two publishers ever owe the same subscriber a frame at once, everything said of one publisher's frames holds of
      all frames together, in the order of their broadcasts. */
  lemma {:induction false} WholeOrder(s0: Relay, run: seq<Action>, i: nat)
    requires Initial(s0) && Runs(s0, run) && NeverTwice(s0, run) && i in Reached(s0, run).clients
    ensures var s := Reached(s0, run);
      && (forall p :: Owes(s, p, i) ==> InOrder(s.clients[i], s.broadcast, Anyone(), OwedBy(s, p, i)))
      && (Idle(s, i) ==> InOrder(s.clients[i], s.broadcast, Anyone(), []))
  {
    RunWhole(s0, run);
    var s := Reached(s0, run);
    assert ClientOk(s, i) && WholeOk(s, i);
    forall p | Owes(s, p, i)
      ensures InOrder(s.clients[i], s.broadcast, Anyone(), OwedBy(s, p, i))
    {
      AllIsInOrder(s.clients[i], s.broadcast, OwedBy(s, p, i));
    }
    if Idle(s, i) {
      AllIsInOrder(s.clients[i], s.broadcast, []);
    }
  }

  lemma {:induction false} AllIsInOrder(k: Client<Item<Envelope>>, broadcast: seq<Item<Envelope>>, owed: seq<Item<Envelope>>)
    requires QueueOk(k) && WrittenOk(k) && AllOk(k, broadcast, owed)
    ensures InOrder(k, broadcast, Anyone(), owed)
  {
    FromAnyone(k.offered);
    FromAnyone(broadcast[k.since..]);
    OkIsInOrder(k, broadcast, Anyone(), owed);
  }

  /** With one publisher, as in a session that has never been closed, that is always so. */
  lemma {:induction false} OnePublisherNeverTwice(s: Relay, run: seq<Action>, p: nat)
    requires Runs(s, run) && s.rounds.Keys <= {p} && forall j :: 0 <= j < |run| && run[j].BeginForward? ==> run[j].p == p
    ensures NeverTwice(s, run)
    decreases |run|
  {
    if run != [] {
      assert run[0].BeginForward? ==> run[0].p == p;
      OnePublisherNeverTwice(Step(s, run[0]), run[1..], p);
    }
  }

  lemma {:induction false} FromEither(fs: seq<Item<Envelope>>, p: nat, q: nat)
    requires p != q
    ensures |From(fs, Either(p, q))| == |From(fs, Only(p))| + |From(fs, Only(q))|
  {
    if fs != [] {
      FromEither(fs[..|fs| - 1], p, q);
    }
  }

  lemma {:induction false} SubsequenceShorter<T>(a: seq<T>, b: seq<T>)
    requires Subsequence(a, b)
    ensures |a| <= |b| && (|a| == |b| ==> a == b)
    decreases |b|
  {
    if a != [] {
      if a[|a| - 1] == b[|b| - 1] {
        SubsequenceShorter(a[..|a| - 1], b[..|b| - 1]);
      } else {
        SubsequenceShorter(a, b[..|b| - 1]);
      }
    }
  }

  /** Both frames complete what these two publishers have sent, so they can be in order one way round only. */
  lemma {:induction false} OneWayOnly(offered: seq<Item<Envelope>>, sent: seq<Item<Envelope>>, f: Item<Envelope>, g: Item<Envelope>)
    requires f.from != g.from
    requires OfferedOk(From(offered, Only(f.from)), From(sent, Only(f.from)), true, [f])
    requires OfferedOk(From(offered, Only(g.from)), From(sent, Only(g.from)), true, [g])
    requires Subsequence(offered + [f] + [g], sent)
    ensures From(sent, Either(f.from, g.from)) == From(offered, Either(f.from, g.from)) + [f] + [g]
  {
    var who := Either(f.from, g.from);
    FromSubsequence(offered + [f] + [g], sent, who);
    FromSnoc(offered + [f], g, who);
    FromSnoc(offered, f, who);
    FromEither(offered, f.from, g.from);
    FromEither(sent, f.from, g.from);
    SubsequenceShorter(From(offered + [f] + [g], who), From(sent, who));
  }

  lemma {:induction false} EitherSame(fs: seq<Item<Envelope>>, p: nat, q: nat)
    ensures From(fs, Either(p, q)) == From(fs, Either(q, p))
  {
    if fs != [] {
      EitherSame(fs[..|fs| - 1], p, q);
    }
  }

  lemma {:induction false} SwappedEnds<T>(xs: seq<T>, f: T, g: T)
    requires xs + [f] + [g] == xs + [g] + [f]
    ensures f == g
  {
    assert (xs + [f] + [g])[|xs|] == f && (xs + [g] + [f])[|xs|] == g;
  }

  lemma {:induction false} NotBothWays(offered: seq<Item<Envelope>>, sent: seq<Item<Envelope>>, f: Item<Envelope>, g: Item<Envelope>)
    requires f.from != g.from
    requires OfferedOk(From(offered, Only(f.from)), From(sent, Only(f.from)), true, [f])
    requires OfferedOk(From(offered, Only(g.from)), From(sent, Only(g.from)), true, [g])
    ensures !Subsequence(offered + [f] + [g], sent) || !Subsequence(offered + [g] + [f], sent)
  {
    if Subsequence(offered + [f] + [g], sent) && Subsequence(offered + [g] + [f], sent) {
      OneWayOnly(offered, sent, f, g);
      OneWayOnly(offered, sent, g, f);
      EitherSame(offered, f.from, g.from);
      EitherSame(sent, f.from, g.from);
      SwappedEnds(From(offered, Either(f.from, g.from)), f, g);
    }
  }

  /** Publisher p's frame is accepted for subscriber i, then publisher q's. */
  function Both(p: nat, q: nat, i: nat): (run: seq<Action>) {
    [Offer(p, i, true), Offer(q, i, true)]
  }

  lemma {:induction false} OneStep(s: Relay, a: Action)
    requires Enabled(s, a)
    ensures Runs(s, [a]) && Reached(s, [a]) == Step(s, a)
  {
    assert [a][1..] == [];
  }

  lemma {:induction false} BothOffered(s: Relay, p: nat, q: nat, i: nat)
    requires p != q && Owes(s, p, i) && Owes(s, q, i) && i in s.clients && |s.clients[i].queue| + 2 <= QUEUE_SIZE
    ensures Runs(s, Both(p, q, i))
    ensures var t := Reached(s, Both(p, q, i));
      && i in t.clients && t.broadcast == s.broadcast
      && t.clients[i].since == s.clients[i].since && t.clients[i].written == s.clients[i].written
      && t.clients[i].queue == s.clients[i].queue + [Item(s.rounds[p].e, p)] + [Item(s.rounds[q].e, q)]
  {
    var s1 := Step(s, Offer(p, i, true));
    assert Enabled(s1, Offer(q, i, true));
    OneStep(s1, Offer(q, i, true));
    assert Both(p, q, i)[1..] == [Offer(q, i, true)];
  }

  /** What subscriber i has, from whomever, is in the order of the broadcasts. */
  predicate KeepsOrder(s: Relay, i: nat) {
    && i in s.clients && s.clients[i].since <= |s.broadcast|
    && Subsequence(s.clients[i].written + s.clients[i].queue, s.broadcast[s.clients[i].since..])
  }

  lemma {:induction false} Regroup<T>(a: seq<T>, b: seq<T>, f: T, g: T)
    ensures a + (b + [f] + [g]) == (a + b) + [f] + [g]
  {
  }

  lemma {:induction false} OneOrderBreaks(s: Relay, p: nat, q: nat, i: nat)
    requires Inv(s) && p != q && Owes(s, p, i) && Owes(s, q, i) && |s.clients[i].queue| + 2 <= QUEUE_SIZE
    requires s.clients[i].registered && !s.clients[i].done && s.clients[i].failed.None?
    ensures Runs(s, Both(p, q, i)) && Runs(s, Both(q, p, i))
    ensures !KeepsOrder(Reached(s, Both(p, q, i)), i) || !KeepsOrder(Reached(s, Both(q, p, i)), i)
  {
    BothOffered(s, p, q, i);
    BothOffered(s, q, p, i);
    var k := s.clients[i];
    var f, g := Item(s.rounds[p].e, p), Item(s.rounds[q].e, q);
    assert ClientOk(s, i);
    assert EachOk(k, s.broadcast, p, OwedBy(s, p, i)) && EachOk(k, s.broadcast, q, OwedBy(s, q, i));
    NotBothWays(k.offered, s.broadcast[k.since..], f, g);
    Regroup(k.written, k.queue, f, g);
    Regroup(k.written, k.queue, g, f);
  }

  /** The condition is needed: whenever, on any run, two publishers owe a frame to a registered, open subscriber that has
      room for both and has had no refused send, one of the two orders in which they may offer it is not the order of the
      broadcasts. */
  lemma {:induction false} OverlapBreaksOrder(s0: Relay, run: seq<Action>, p: nat, q: nat, i: nat)
    requires Initial(s0) && Runs(s0, run) && p != q && Owes(Reached(s0, run), p, i) && Owes(Reached(s0, run), q, i)
    requires i in Reached(s0, run).clients
    requires var k := Reached(s0, run).clients[i]; |k.queue| + 2 <= QUEUE_SIZE && k.registered && !k.done && k.failed.None?
    ensures var s := Reached(s0, run);
      && Runs(s, Both(p, q, i)) && Runs(s, Both(q, p, i))
      && (!KeepsOrder(Reached(s, Both(p, q, i)), i) || !KeepsOrder(Reached(s, Both(q, p, i)), i))
  {
    RunInv(s0, run);
    OneOrderBreaks(Reached(s0, run), p, q, i);
  }

  // ----- the connection object -----

  /** ClientConn. A subscriber's has a queue and a write loop; a publisher's is written to directly. What the channels and
      the goroutine decide is nondeterministic; for a subscriber each method is one of the steps above. */
  class ClientConn {
    const isSubscriber: bool
    const initialEnv: Envelope
    var sendCh: seq<Envelope>
    var done: bool
    var loopOver: bool
    var wire: seq<Envelope>
    ghost var taken: seq<Envelope>
    ghost var offered: seq<Envelope>
    ghost var failed: Option<nat>
    ghost var since: nat
    ghost var closedAt: Option<nat>

    ghost function View(): Client<Envelope>
      reads this
    {
      Client(sendCh, taken, wire, offered, failed, done, loopOver, true, failed.Some?, since, closedAt)
    }

    constructor (subscriber: bool, env: Envelope, ghost position: nat)
      ensures isSubscriber == subscriber && initialEnv == env
      ensures View() == NewClient(position)
    {
      isSubscriber, initialEnv := subscriber, env;
      sendCh, done, loopOver, wire := [], false, false, [];
      taken, offered, failed, since, closedAt := [], [], None, position, None;
    }

    /** A subscriber's frame is queued at once if the connection is open and has room, and refused if the queue stays full;
        for a closed one with room, `up` decides. A publisher's is written at once, and `up` says whether that succeeds. */
    method SendFrame(e: Envelope, up: bool) returns (ok: bool)
      requires isSubscriber ==> QueueOk(View())
      modifies this`sendCh, this`offered, this`failed, this`wire
      ensures ok == if isSubscriber then |old(sendCh)| < QUEUE_SIZE && (!old(done) || up) else up
      ensures isSubscriber ==> View() == Offered(old(View()), e, ok) && QueueOk(View())
      ensures !isSubscriber ==> View() == old(View()).(written := old(wire) + (if ok then [e] else []))
    {
      if !isSubscriber {
        ok := up;
        if ok {
          wire := wire + [e];
        } else {
          assert wire + [] == wire;
        }
        return;
      }
      ok := |sendCh| < QUEUE_SIZE && (!done || up);
      if ok {
        AcceptedOk(View(), e);
        sendCh := sendCh + [e];
      } else {
        RefusedOk(View(), e);
        failed := if failed.None? then Some(|offered|) else failed;
      }
      offered := offered + [e];
    }

    method Close()
      modifies this`done, this`closedAt
      ensures View() == Closed(old(View())) && done
    {
      if !done {
        done := true;
      }
      closedAt := if closedAt.None? then Some(|taken|) else closedAt;
    }

    /** One iteration of writeLoop; `up` is the outcome of the write. A failed write ends the loop, except in the drain; when
        the connection closes while a frame waits, either may come first, which `late` decides. */
    method WriteOne(up: bool, late: bool) returns (exit: bool)
      requires QueueOk(View()) && WrittenOk(View()) && sendCh != [] && !loopOver
      modifies this`sendCh, this`done, this`loopOver, this`wire, this`taken, this`closedAt
      ensures exit == (!up && (!old(done) || late))
      ensures View() == Wrote(old(View()), up, exit) && QueueOk(View()) && WrittenOk(View())
      ensures taken + sendCh == old(taken + sendCh)
    {
      exit := !up && (!done || late);
      WriteOk(View(), up, exit);
      TakeNext(taken, sendCh);
      if up {
        wire := wire + [sendCh[0]];
      }
      if exit {
        Close();
        loopOver := true;
      }
      taken := taken + [sendCh[0]];
      sendCh := sendCh[1..];
    }

    /** The drain, before write n: these frames will have been taken in the end, and these written. */
    ghost predicate Draining(up: nat -> bool, n: nat, all: seq<Envelope>, out: seq<Envelope>)
      reads this
    {
      && QueueOk(View()) && WrittenOk(View()) && done && !loopOver
      && taken + sendCh == all && wire + Passed(sendCh, up, n) == out
    }

    /** One turn of the drain: the frame goes, whether or not its write succeeds. */
    method DrainOne(up: nat -> bool, n: nat, ghost all: seq<Envelope>, ghost out: seq<Envelope>)
      requires Draining(up, n, all, out) && sendCh != []
      modifies this`sendCh, this`done, this`loopOver, this`wire, this`taken, this`closedAt
      ensures Draining(up, n + 1, all, out) && |sendCh| == |old(sendCh)| - 1
    {
      PassedNext(wire, sendCh, up, n);
      var _ := WriteOne(up(n), false);
    }

    /** The loop of the drain, in which no failure matters. */
    method DrainAll(up: nat -> bool, ghost all: seq<Envelope>, ghost out: seq<Envelope>)
      requires Draining(up, 0, all, out)
      modifies this`sendCh, this`done, this`loopOver, this`wire, this`taken, this`closedAt
      ensures QueueOk(View()) && WrittenOk(View()) && done && sendCh == [] && taken == all && wire == out
    {
      var i := 0;
      while sendCh != []
        invariant Draining(up, i, all, out)
        decreases |sendCh|
      {
        DrainOne(up, i, all, out);
        i := i + 1;
      }
      assert taken + [] == taken && wire + [] == wire;
    }

    /** The drain after close: everything still queued is attempted, in order, and what succeeds is written. */
    method Drain(up: nat -> bool)
      requires QueueOk(View()) && WrittenOk(View()) && done && !loopOver
      modifies this`sendCh, this`done, this`loopOver, this`wire, this`taken, this`closedAt
      ensures QueueOk(View()) && WrittenOk(View()) && loopOver && sendCh == []
      ensures taken == old(taken + sendCh) && wire == old(wire) + Passed(old(sendCh), up, 0)
    {
      DrainAll(up, taken + sendCh, wire + Passed(sendCh, up, 0));
      loopOver := true;
    }
  }

  /** The elements whose turn succeeds, counting turns from n. */
  function Passed<T>(fs: seq<T>, up: nat -> bool, n: nat): (r: seq<T>)
    decreases |fs|
  {
    if fs == [] then [] else (if up(n) then [fs[0]] else []) + Passed(fs[1..], up, n + 1)
  }

  lemma {:induction false} PassedNext<T>(before: seq<T>, fs: seq<T>, up: nat -> bool, n: nat)
    requires fs != []
    ensures before + Passed(fs, up, n) == (if up(n) then before + [fs[0]] else before) + Passed(fs[1..], up, n + 1)
  {
  }
}
