/** A run that carries a file: the premises of the end-to-end theorem are met. */
module FileRuns {
  import opened Wrappers
  import opened ByteStrings
  import opened Primitives
  import opened SealedFrames
  import opened ReplayLog
  import opened Endpoints
  import opened StreamSystem
  import opened StreamSafety
  import opened CatchUpRuns
  import opened FileTransfer
  import opened FileDelivery
  import opened SubscriberEngines

  /** The subscriber connects, and the start tag, one chunk and the end tag are published and delivered. */
  function FileRun(j: Json, h: FileHeader, chunk: Bytes): seq<Action> {
    CONNECT + SendRun(StartPayload(j, h)) + SendRun(ChunkPayload(h.transferId, chunk)) + SendRun(EndPayload(h.transferId))
  }

  function ThreeMessages(a: Bytes, b: Bytes, d: Bytes): seq<SeqMsg> {
    [SeqMsg(1, a), SeqMsg(2, b), SeqMsg(3, d)]
  }

  lemma {:induction false} ThreeSent(c: Suite, s0: System, a: Bytes, b: Bytes, d: Bytes)
    requires Start(s0) && Sendable(a) && Sendable(b) && Sendable(d)
    ensures var run := CONNECT + SendRun(a) + SendRun(b) + SendRun(d);
      && Runs(c, s0, run)
      && Reached(c, s0, run).log == [Msg(a, true), Msg(b, true), Msg(d, true)]
      && 0 in Reached(c, s0, run).nodes && Reached(c, s0, run).nodes[0].sub.delivered == ThreeMessages(a, b, d)
  {
    var n := FirstAt(c, s0, a);
    var run1 := CONNECT + SendRun(a);
    var n2 := SecondSent(c, s0, run1, a, b, n);
    ThirdSent(c, s0, run1 + SendRun(b), a, b, d, n2);
  }

  lemma {:induction false} SecondSent(c: Suite, s0: System, run: seq<Action>, a: Bytes, b: Bytes, n: Node) returns (n': Node)
    requires Sendable(b) && Idle(n) && n.sub == Subscriber(Some(s0.key), 1, [SeqMsg(1, a)])
    requires Runs(c, s0, run) && At(Reached(c, s0, run), s0.key, [Msg(a, true)], [SeqMsg(1, a)], n, [], [])
    ensures Runs(c, s0, run + SendRun(b)) && Idle(n') && n'.sub == Subscriber(Some(s0.key), 2, [SeqMsg(1, a), SeqMsg(2, b)])
    ensures At(Reached(c, s0, run + SendRun(b)), s0.key, [Msg(a, true), Msg(b, true)], [SeqMsg(1, a), SeqMsg(2, b)], n', [], [])
  {
    SendAfter(c, s0, run, s0.key, [Msg(a, true)], [SeqMsg(1, a)], n, [], b);
    n' := n.(sub := Deliver(n.sub, 2, b));
    OneAndOne(Msg(a, true), Msg(b, true));
    OneAndOne(SeqMsg(1, a), SeqMsg(2, b));
  }

  lemma {:induction false} ThirdSent(c: Suite, s0: System, run: seq<Action>, a: Bytes, b: Bytes, d: Bytes, n: Node)
    requires Sendable(d) && Idle(n) && n.sub == Subscriber(Some(s0.key), 2, [SeqMsg(1, a), SeqMsg(2, b)])
    requires Runs(c, s0, run)
    requires At(Reached(c, s0, run), s0.key, [Msg(a, true), Msg(b, true)], [SeqMsg(1, a), SeqMsg(2, b)], n, [], [])
    ensures Runs(c, s0, run + SendRun(d))
    ensures var t := Reached(c, s0, run + SendRun(d));
      && t.log == [Msg(a, true), Msg(b, true), Msg(d, true)]
      && 0 in t.nodes && t.nodes[0].sub.delivered == ThreeMessages(a, b, d)
  {
    SendAfter(c, s0, run, s0.key, [Msg(a, true), Msg(b, true)], [SeqMsg(1, a), SeqMsg(2, b)], n, [], d);
    TwoAndOne(Msg(a, true), Msg(b, true), Msg(d, true));
    TwoAndOne(SeqMsg(1, a), SeqMsg(2, b), SeqMsg(3, d));
  }

  lemma {:induction false} MessagesOfThree(a: Bytes, b: Bytes, d: Bytes)
    ensures Messages([Msg(a, true), Msg(b, true), Msg(d, true)]) == ThreeMessages(a, b, d)
  {
    MessagesSnoc([], Msg(a, true));
    assert [] + [Msg(a, true)] == [Msg(a, true)] && [] + [SeqMsg(1, a)] == [SeqMsg(1, a)];
    MessagesSnoc([Msg(a, true)], Msg(b, true));
    assert [Msg(a, true)] + [Msg(b, true)] == [Msg(a, true), Msg(b, true)];
    assert [SeqMsg(1, a)] + [SeqMsg(2, b)] == [SeqMsg(1, a), SeqMsg(2, b)];
    MessagesSnoc([Msg(a, true), Msg(b, true)], Msg(d, true));
    assert [Msg(a, true), Msg(b, true)] + [Msg(d, true)] == [Msg(a, true), Msg(b, true), Msg(d, true)];
    assert [SeqMsg(1, a), SeqMsg(2, b)] + [SeqMsg(3, d)] == ThreeMessages(a, b, d);
  }

  lemma {:induction false} AllAbout(j: Json, id: Bytes, ps: seq<Bytes>)
    requires forall i :: 0 <= i < |ps| ==> Concerns(j, id, ps[i])
    ensures About(j, id, ps) == ps
  {
    if ps != [] {
      AllAbout(j, id, ps[..|ps| - 1]);
    }
  }

  lemma {:induction false} TransferConcerns(j: Json, h: FileHeader, chunk: Bytes)
    requires |h.transferId| == ID_SIZE && j.unmarshal(j.marshal(h)) == Some(h) && chunk != []
    ensures Concerns(j, h.transferId, StartPayload(j, h))
    ensures Concerns(j, h.transferId, ChunkPayload(h.transferId, chunk))
    ensures Concerns(j, h.transferId, EndPayload(h.transferId))
  {
    assert StartPayload(j, h)[1..] == j.marshal(h);
    assert ChunkPayload(h.transferId, chunk)[1..] == h.transferId + chunk;
    assert ChunkPayload(h.transferId, chunk)[1..][..ID_SIZE] == h.transferId;
    assert EndPayload(h.transferId)[1..] == h.transferId && h.transferId[..ID_SIZE] == h.transferId;
  }

  lemma {:induction false} OneChunk(j: Json, h: FileHeader, chunk: Bytes)
    ensures Flatten([chunk]) == chunk
    ensures TransferPayloads(j, h, [chunk]) == [StartPayload(j, h), ChunkPayload(h.transferId, chunk), EndPayload(h.transferId)]
  {
    assert [chunk][..0] == [];
  }

  lemma {:induction false} PayloadsOfThree(a: Bytes, b: Bytes, d: Bytes)
    ensures PayloadsOf(ThreeMessages(a, b, d)) == [a, b, d]
  {
  }

  /** For every suite and every chunk that fits a frame: after this run the subscriber has saved the file. */
  lemma {:induction false} FileDelivered(c: Suite, j: Json, s0: System, h: FileHeader, chunk: Bytes)
    requires Start(s0) && |h.transferId| == ID_SIZE && j.unmarshal(j.marshal(h)) == Some(h) && chunk != []
    requires Sendable(StartPayload(j, h)) && Sendable(ChunkPayload(h.transferId, chunk))
    ensures Runs(c, s0, FileRun(j, h, chunk)) && 0 in Reached(c, s0, FileRun(j, h, chunk)).nodes
    ensures var desk := DispatchAll(j, EMPTY_DESK, PayloadsOf(Reached(c, s0, FileRun(j, h, chunk)).nodes[0].sub.delivered));
      h.transferId !in desk.open && SavedFor(desk.saved, h.transferId) == [chunk]
  {
    var a, b, d := StartPayload(j, h), ChunkPayload(h.transferId, chunk), EndPayload(h.transferId);
    ThreeSent(c, s0, a, b, d);
    MessagesOfThree(a, b, d);
    TransferConcerns(j, h, chunk);
    AllAbout(j, h.transferId, [a, b, d]);
    PayloadsOfThree(a, b, d);
    OneChunk(j, h, chunk);
    FileArrivesOverRun(c, j, s0, FileRun(j, h, chunk), 0, h, [chunk], chunk);
  }
}
