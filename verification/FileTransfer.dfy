/**
 Files over the stream: the chunking loop of SendFile and the tag dispatch of SubscribeStream.
 encoding/json is a pair of functions; a transfer asks only that its own header survives them.
 */
module FileTransfer {
  import opened Wrappers
  import opened ByteStrings
  import opened Sanitizer

  const TAG_TEXT: byte := 0x01
  const TAG_FILE_START: byte := 0x02
  const TAG_FILE_CHUNK: byte := 0x03
  const TAG_FILE_END: byte := 0x04
  const ID_SIZE := 16
  const WINDOW := 16

  /** `meta` stands for the file name, size and checksum. */
  datatype FileHeader = FileHeader(transferId: Bytes, meta: Bytes)

  datatype Json = Json(marshal: FileHeader -> Bytes, unmarshal: Bytes -> Option<FileHeader>)

  // ----- the receiving side -----

  datatype OpenFile = OpenFile(header: FileHeader, written: Bytes, chunkCount: nat)

  datatype Saved = Saved(id: Bytes, contents: Bytes)

  datatype Desk = Desk(open: map<Bytes, OpenFile>, saved: seq<Saved>, text: seq<Bytes>, acks: seq<Bytes>)

  /** What one delivered plaintext does: the switch on its tag. */
  function Dispatch(j: Json, d: Desk, p: Bytes): (r: Desk) {
    if p == [] then d
    else
      var data := p[1..];
      if p[0] == TAG_TEXT then d.(text := d.text + [Sanitize(data)])
      else if p[0] == TAG_FILE_START then
        match j.unmarshal(data)
        case Some(h) => if h.transferId != [] then d.(open := d.open[h.transferId := OpenFile(h, [], 0)]) else d
        case None => d
      else if p[0] == TAG_FILE_CHUNK then
        if |data| > ID_SIZE && data[..ID_SIZE] in d.open then
          var id := data[..ID_SIZE];
          var f := d.open[id];
          var n := f.chunkCount + 1;
          d.(open := d.open[id := f.(written := f.written + data[ID_SIZE..], chunkCount := n)],
             acks := if n % WINDOW == 0 then d.acks + [id] else d.acks)
        else d
      else if p[0] == TAG_FILE_END then
        if |data| >= ID_SIZE && data[..ID_SIZE] in d.open then
          var id := data[..ID_SIZE];
          d.(open := d.open - {id}, saved := d.saved + [Saved(id, d.open[id].written)], acks := d.acks + [id])
        else d
      else d.(text := d.text + [p])
  }

  function DispatchAll(j: Json, d: Desk, ps: seq<Bytes>): (r: Desk) {
    if ps == [] then d else Dispatch(j, DispatchAll(j, d, ps[..|ps| - 1]), ps[|ps| - 1])
  }

  // ----- the sending side -----

  function StartPayload(j: Json, h: FileHeader): (p: Bytes) {
    [TAG_FILE_START] + j.marshal(h)
  }

  function ChunkPayload(id: Bytes, chunk: Bytes): (p: Bytes) {
    [TAG_FILE_CHUNK] + id + chunk
  }

  function EndPayload(id: Bytes): (p: Bytes) {
    [TAG_FILE_END] + id
  }

  function ChunkPayloads(id: Bytes, chunks: seq<Bytes>): (ps: seq<Bytes>)
    ensures |ps| == |chunks|
  {
    seq(|chunks|, i requires 0 <= i < |chunks| => ChunkPayload(id, chunks[i]))
  }

  function TransferPayloads(j: Json, h: FileHeader, chunks: seq<Bytes>): (ps: seq<Bytes>) {
    [StartPayload(j, h)] + ChunkPayloads(h.transferId, chunks) + [EndPayload(h.transferId)]
  }

  function Flatten(chunks: seq<Bytes>): (b: Bytes) {
    if chunks == [] then [] else Flatten(chunks[..|chunks| - 1]) + chunks[|chunks| - 1]
  }

  function ChunkSize(fileSize: nat): (n: nat)
    ensures n > 0
  {
    if fileSize >= 100 * 1024 * 1024 then 524288
    else if fileSize >= 10 * 1024 * 1024 then 131072
    else 32768
  }

  /** The sliding window: the unacknowledged count at the head of each loop turn. A full window waits for one
      acknowledgement, or for a timeout that forgets all of it. */
  predicate WindowOk(heads: seq<nat>) {
    && heads != [] && heads[0] == 0
    && (forall i :: 0 <= i < |heads| ==> heads[i] < WINDOW)
    && forall i :: 0 < i < |heads| ==>
         heads[i] == heads[i - 1] + 1 || (heads[i - 1] + 1 == WINDOW && heads[i] in {0, WINDOW - 1})
  }

  /** What ends the wait for a full window. */
  datatype Wait = Acked | TimedOut | Cancelled

  /** What the world decides in one call of SendFile, for the k-th chunk where it takes an argument. */
  datatype World = World(
    startOk: bool,            // the header is published
    size: nat -> nat,         // how much the read returns
    readOk: nat -> bool,
    publishOk: nat -> bool,
    wait: nat -> Wait,
    endOk: bool)

  /** A read returns at least one byte and no more than fit the buffer or are left. */
  function ReadSize(w: World, k: nat, chunkSize: nat, left: nat): (n: nat)
    requires chunkSize > 0 && left > 0
    ensures 0 < n <= chunkSize && n <= left
  {
    1 + w.size(k) % (if chunkSize < left then chunkSize else left)
  }

  /** Flow control after a chunk: a full window blocks until an acknowledgement, a timeout or a cancelled context. */
  method Throttle(ghost heads: seq<nat>, before: nat, wait: Wait) returns (cancelled: bool, unacked: nat)
    requires WindowOk(heads) && before == heads[|heads| - 1]
    ensures cancelled == (before + 1 >= WINDOW && wait.Cancelled?)
    ensures !cancelled ==> WindowOk(heads + [unacked])
    ensures !cancelled ==> unacked == if before + 1 < WINDOW then before + 1 else if wait.Acked? then before else 0
  {
    cancelled, unacked := false, before + 1;
    if unacked >= WINDOW {
      match wait
      case Cancelled => cancelled := true;
      case Acked => unacked := unacked - 1;
      case TimedOut => unacked := 0;
    }
  }

  /** Something went wrong before or at chunk n. */
  predicate Trouble(w: World, n: nat) {
    !w.startOk || !w.endOk || exists k: nat :: k <= n && (!w.readOk(k) || !w.publishOk(k) || w.wait(k).Cancelled?)
  }

  /** SendFile: reads of any size up to the chunk size, under the sliding window. A failed read, a failed publication or
      a cancelled context ends the call where it stands, and nothing else does; only a call that gets through sends the end
      tag and succeeds. */
  method SendFile(j: Json, h: FileHeader, file: Bytes, w: World)
    returns (ok: bool, payloads: seq<Bytes>, chunks: seq<Bytes>, heads: seq<nat>)
    ensures forall i :: 0 <= i < |chunks| ==> 0 < |chunks[i]| <= ChunkSize(|file|)
    ensures ok ==> Flatten(chunks) == file && payloads == TransferPayloads(j, h, chunks)
    ensures ok ==> w.startOk && w.endOk && forall k :: 0 <= k < |chunks| ==> w.readOk(k) && w.publishOk(k)
    ensures !ok ==> Trouble(w, |chunks|)
    ensures !ok ==> Flatten(chunks) <= file && (payloads == [StartPayload(j, h)] + ChunkPayloads(h.transferId, chunks)
                                                || (payloads == TransferPayloads(j, h, chunks) && Flatten(chunks) == file))
    ensures WindowOk(heads) && |chunks| <= |heads| <= |chunks| + 1
  {
    payloads, chunks, heads := [StartPayload(j, h)], [], [0];
    if !w.startOk {
      return false, payloads, chunks, heads;
    }
    var chunkSize := ChunkSize(|file|);
    var pos, unacked := 0, 0;
    while pos < |file|
      invariant pos <= |file| && Flatten(chunks) == file[..pos]
      invariant forall i :: 0 <= i < |chunks| ==> 0 < |chunks[i]| <= chunkSize
      invariant forall k :: 0 <= k < |chunks| ==> w.readOk(k) && w.publishOk(k)
      invariant payloads == [StartPayload(j, h)] + ChunkPayloads(h.transferId, chunks)
      invariant WindowOk(heads) && unacked == heads[|heads| - 1] && |heads| == |chunks| + 1
    {
      var k := |chunks|;
      if !w.readOk(k) {
        return false, payloads, chunks, heads;
      }
      var n := ReadSize(w, k, chunkSize, |file| - pos);
      var chunk := file[pos..pos + n];
      ChunkSent(StartPayload(j, h), h.transferId, chunks, chunk);
      assert file[..pos + n] == file[..pos] + chunk;
      payloads := payloads + [ChunkPayload(h.transferId, chunk)];
      chunks := chunks + [chunk];
      if !w.publishOk(k) {
        return false, payloads, chunks, heads;
      }
      pos := pos + n;
      var cancelled;
      cancelled, unacked := Throttle(heads, unacked, w.wait(k));
      if cancelled {
        return false, payloads, chunks, heads;
      }
      heads := heads + [unacked];
    }
    assert file[..pos] == file;
    payloads := payloads + [EndPayload(h.transferId)];
    ok := w.endOk;
  }

  lemma {:induction false} ChunkSent(start: Bytes, id: Bytes, chunks: seq<Bytes>, chunk: Bytes)
    ensures Flatten(chunks + [chunk]) == Flatten(chunks) + chunk
    ensures [start] + ChunkPayloads(id, chunks + [chunk]) == [start] + ChunkPayloads(id, chunks) + [ChunkPayload(id, chunk)]
  {
    assert (chunks + [chunk])[..|chunks|] == chunks;
  }

  /** Does the payload speak about this transfer? */
  predicate Concerns(j: Json, id: Bytes, p: Bytes) {
    p != [] &&
    var data := p[1..];
    || (p[0] == TAG_FILE_START && j.unmarshal(data).Some? && j.unmarshal(data).value.transferId == id)
    || (p[0] == TAG_FILE_CHUNK && |data| > ID_SIZE && data[..ID_SIZE] == id)
    || (p[0] == TAG_FILE_END && |data| >= ID_SIZE && data[..ID_SIZE] == id)
  }

  function About(j: Json, id: Bytes, ps: seq<Bytes>): (r: seq<Bytes>) {
    if ps == [] then []
    else About(j, id, ps[..|ps| - 1]) + (if Concerns(j, id, ps[|ps| - 1]) then [ps[|ps| - 1]] else [])
  }

  function SavedFor(saved: seq<Saved>, id: Bytes): (r: seq<Bytes>) {
    if saved == [] then []
    else SavedFor(saved[..|saved| - 1], id) + (if saved[|saved| - 1].id == id then [saved[|saved| - 1].contents] else [])
  }

  /** How many acknowledgements went out for a transfer. */
  function AcksFor(acks: seq<Bytes>, id: Bytes): (n: nat) {
    if acks == [] then 0 else AcksFor(acks[..|acks| - 1], id) + (if acks[|acks| - 1] == id then 1 else 0)
  }

  /** One transfer's part of the desk. */
  datatype Part = Part(open: Option<OpenFile>, saved: seq<Bytes>, acks: nat)

  function PartOf(d: Desk, id: Bytes): (v: Part) {
    Part(if id in d.open then Some(d.open[id]) else None, SavedFor(d.saved, id), AcksFor(d.acks, id))
  }

  lemma {:induction false} AcksForSnoc(acks: seq<Bytes>, x: Bytes, id: Bytes)
    ensures AcksFor(acks + [x], id) == AcksFor(acks, id) + (if x == id then 1 else 0)
  {
    assert (acks + [x])[..|acks + [x]| - 1] == acks;
  }

  lemma {:induction false} SavedForSnoc(saved: seq<Saved>, x: Saved, id: Bytes)
    ensures SavedFor(saved + [x], id) == SavedFor(saved, id) + (if x.id == id then [x.contents] else [])
  {
    assert (saved + [x])[..|saved + [x]| - 1] == saved;
  }

  /** Payloads about other transfers, and text, leave this transfer's part alone... */
  lemma {:induction false} UnconcernedKeepsPart(j: Json, d: Desk, p: Bytes, id: Bytes)
    requires id != [] && !Concerns(j, id, p)
    ensures PartOf(Dispatch(j, d, p), id) == PartOf(d, id)
  {
    if p != [] && p[0] in {TAG_FILE_CHUNK, TAG_FILE_END} && |p[1..]| >= ID_SIZE && p[1..][..ID_SIZE] in d.open {
      var other := p[1..][..ID_SIZE];
      SavedForSnoc(d.saved, Saved(other, d.open[other].written), id);
      AcksForSnoc(d.acks, other, id);
    }
  }

  /** ...and payloads about it do the same to equal parts. */
  lemma {:induction false} StartByPart(j: Json, d: Desk, e: Desk, p: Bytes, id: Bytes)
    requires id != [] && Concerns(j, id, p) && p[0] == TAG_FILE_START && PartOf(d, id) == PartOf(e, id)
    ensures PartOf(Dispatch(j, d, p), id) == PartOf(Dispatch(j, e, p), id)
  {
    var h := j.unmarshal(p[1..]).value;
    assert Dispatch(j, d, p) == d.(open := d.open[id := OpenFile(h, [], 0)]);
    assert Dispatch(j, e, p) == e.(open := e.open[id := OpenFile(h, [], 0)]);
  }

  /** What a chunk does to the part it is about. */
  function Chunked(v: Part, data: Bytes): (r: Part) {
    match v.open
    case None => v
    case Some(f) =>
      Part(Some(More(f, data)), v.saved, v.acks + (if More(f, data).chunkCount % WINDOW == 0 then 1 else 0))
  }

  /** The file after one more chunk. */
  function More(f: OpenFile, data: Bytes): (r: OpenFile) {
    f.(written := f.written + data, chunkCount := f.chunkCount + 1)
  }

  lemma {:induction false} ChunkStored(j: Json, d: Desk, p: Bytes, id: Bytes)
    requires id != [] && Concerns(j, id, p) && p[0] == TAG_FILE_CHUNK && id in d.open
    ensures var f := More(d.open[id], p[1..][ID_SIZE..]);
      Dispatch(j, d, p) == d.(open := d.open[id := f], acks := if f.chunkCount % WINDOW == 0 then d.acks + [id] else d.acks)
  {
  }

  lemma {:induction false} StoredPart(d: Desk, id: Bytes, f: OpenFile, acked: bool)
    ensures PartOf(d.(open := d.open[id := f], acks := if acked then d.acks + [id] else d.acks), id)
         == Part(Some(f), SavedFor(d.saved, id), AcksFor(d.acks, id) + (if acked then 1 else 0))
  {
    AcksForSnoc(d.acks, id, id);
  }

  lemma {:induction false} ChunkOnPart(j: Json, d: Desk, p: Bytes, id: Bytes)
    requires id != [] && Concerns(j, id, p) && p[0] == TAG_FILE_CHUNK
    ensures PartOf(Dispatch(j, d, p), id) == Chunked(PartOf(d, id), p[1..][ID_SIZE..])
  {
    if id in d.open {
      ChunkStored(j, d, p, id);
      var f := More(d.open[id], p[1..][ID_SIZE..]);
      StoredPart(d, id, f, f.chunkCount % WINDOW == 0);
    }
  }

  lemma {:induction false} ChunkByPart(j: Json, d: Desk, e: Desk, p: Bytes, id: Bytes)
    requires id != [] && Concerns(j, id, p) && p[0] == TAG_FILE_CHUNK && PartOf(d, id) == PartOf(e, id)
    ensures PartOf(Dispatch(j, d, p), id) == PartOf(Dispatch(j, e, p), id)
  {
    ChunkOnPart(j, d, p, id);
    ChunkOnPart(j, e, p, id);
  }

  /** What the end of a transfer does to it. */
  function Ended(v: Part): (r: Part) {
    match v.open
    case None => v
    case Some(f) => Part(None, v.saved + [f.written], v.acks + 1)
  }

  lemma {:induction false} EndOnPart(j: Json, d: Desk, p: Bytes, id: Bytes)
    requires id != [] && Concerns(j, id, p) && p[0] == TAG_FILE_END
    ensures PartOf(Dispatch(j, d, p), id) == Ended(PartOf(d, id))
  {
    if id in d.open {
      SavedForSnoc(d.saved, Saved(id, d.open[id].written), id);
      AcksForSnoc(d.acks, id, id);
    }
  }

  lemma {:induction false} EndByPart(j: Json, d: Desk, e: Desk, p: Bytes, id: Bytes)
    requires id != [] && Concerns(j, id, p) && p[0] == TAG_FILE_END && PartOf(d, id) == PartOf(e, id)
    ensures PartOf(Dispatch(j, d, p), id) == PartOf(Dispatch(j, e, p), id)
  {
    EndOnPart(j, d, p, id);
    EndOnPart(j, e, p, id);
  }

  lemma {:induction false} ConcernedByPart(j: Json, d: Desk, e: Desk, p: Bytes, id: Bytes)
    requires id != [] && Concerns(j, id, p) && PartOf(d, id) == PartOf(e, id)
    ensures PartOf(Dispatch(j, d, p), id) == PartOf(Dispatch(j, e, p), id)
  {
    if p[0] == TAG_FILE_START {
      StartByPart(j, d, e, p, id);
    } else if p[0] == TAG_FILE_CHUNK {
      ChunkByPart(j, d, e, p, id);
    } else {
      EndByPart(j, d, e, p, id);
    }
  }

  lemma {:induction false} OnlyOwnPayloadsMatter(j: Json, d: Desk, ps: seq<Bytes>, id: Bytes)
    requires id != []
    ensures PartOf(DispatchAll(j, d, ps), id) == PartOf(DispatchAll(j, d, About(j, id, ps)), id)
  {
    if ps != [] {
      var front, p := ps[..|ps| - 1], ps[|ps| - 1];
      OnlyOwnPayloadsMatter(j, d, front, id);
      var own := About(j, id, front);
      if Concerns(j, id, p) {
        assert (own + [p])[..|own + [p]| - 1] == own;
        ConcernedByPart(j, DispatchAll(j, d, front), DispatchAll(j, d, own), p, id);
      } else {
        assert About(j, id, ps) == own;
        UnconcernedKeepsPart(j, DispatchAll(j, d, front), p, id);
      }
    }
  }

  lemma {:induction false} SixteenthStep(n: nat)
    ensures (n + 1) / WINDOW == n / WINDOW + (if (n + 1) % WINDOW == 0 then 1 else 0)
  {
  }

  lemma {:induction false} ChunkConcerns(j: Json, id: Bytes, chunk: Bytes)
    requires |id| == ID_SIZE && chunk != []
    ensures Concerns(j, id, ChunkPayload(id, chunk)) && ChunkPayload(id, chunk)[1..][ID_SIZE..] == chunk
    ensures Concerns(j, id, EndPayload(id))
  {
    var p := ChunkPayload(id, chunk);
    assert p[1..] == id + chunk && p[1..][..ID_SIZE] == id && p[1..][ID_SIZE..] == chunk;
    assert EndPayload(id)[1..] == id && id[..ID_SIZE] == id;
  }

  /** The part of a transfer after its first chunks. */
  function Halfway(d: Desk, h: FileHeader, chunks: seq<Bytes>): (v: Part) {
    Part(Some(OpenFile(h, Flatten(chunks), |chunks|)), SavedFor(d.saved, h.transferId), AcksFor(d.acks, h.transferId) + |chunks| / WINDOW)
  }

  lemma {:induction false} HalfwayNext(d: Desk, h: FileHeader, chunks: seq<Bytes>)
    requires chunks != []
    ensures Halfway(d, h, chunks) == Chunked(Halfway(d, h, chunks[..|chunks| - 1]), chunks[|chunks| - 1])
  {
    SixteenthStep(|chunks| - 1);
  }

  /** A transfer alone on the stream. */
  lemma {:induction false} ChunksAccumulate(j: Json, d: Desk, h: FileHeader, chunks: seq<Bytes>)
    requires |h.transferId| == ID_SIZE && j.unmarshal(j.marshal(h)) == Some(h)
    requires forall i :: 0 <= i < |chunks| ==> chunks[i] != []
    ensures PartOf(DispatchAll(j, d, [StartPayload(j, h)] + ChunkPayloads(h.transferId, chunks)), h.transferId) == Halfway(d, h, chunks)
  {
    var id := h.transferId;
    var start := [StartPayload(j, h)];
    if chunks == [] {
      assert start[..|start| - 1] == [] && StartPayload(j, h)[1..] == j.marshal(h);
      assert start + ChunkPayloads(id, chunks) == start;
    } else {
      var front, x := chunks[..|chunks| - 1], chunks[|chunks| - 1];
      ChunksAccumulate(j, d, h, front);
      var ps := start + ChunkPayloads(id, chunks);
      assert ps[..|ps| - 1] == start + ChunkPayloads(id, front) && ps[|ps| - 1] == ChunkPayload(id, x);
      ChunkConcerns(j, id, x);
      ChunkOnPart(j, DispatchAll(j, d, ps[..|ps| - 1]), ChunkPayload(id, x), id);
      HalfwayNext(d, h, chunks);
    }
  }

  lemma {:induction false} TransferAlone(j: Json, d: Desk, h: FileHeader, chunks: seq<Bytes>)
    requires |h.transferId| == ID_SIZE && j.unmarshal(j.marshal(h)) == Some(h)
    requires forall i :: 0 <= i < |chunks| ==> chunks[i] != []
    ensures var r := DispatchAll(j, d, TransferPayloads(j, h, chunks));
      PartOf(r, h.transferId)
      == Part(None, SavedFor(d.saved, h.transferId) + [Flatten(chunks)], AcksFor(d.acks, h.transferId) + |chunks| / WINDOW + 1)
  {
    ChunksAccumulate(j, d, h, chunks);
    var id := h.transferId;
    var ps := TransferPayloads(j, h, chunks);
    assert ps[..|ps| - 1] == [StartPayload(j, h)] + ChunkPayloads(id, chunks) && ps[|ps| - 1] == EndPayload(id);
    ChunkConcerns(j, id, [0]);
    EndOnPart(j, DispatchAll(j, d, ps[..|ps| - 1]), EndPayload(id), id);
  }

  /** For any file and any way it was read, and any interleaving with other transfers and with text: the bytes written
      for the transfer are the file, exactly once and in order, its entry is gone, and one acknowledgement went out for
      every 16 chunks and one for the end. */
  lemma {:induction false} FileArrives(j: Json, d: Desk, h: FileHeader, chunks: seq<Bytes>, file: Bytes, ps: seq<Bytes>)
    requires |h.transferId| == ID_SIZE && j.unmarshal(j.marshal(h)) == Some(h)
    requires (forall i :: 0 <= i < |chunks| ==> chunks[i] != []) && Flatten(chunks) == file
    requires About(j, h.transferId, ps) == TransferPayloads(j, h, chunks)
    ensures var r := DispatchAll(j, d, ps);
      && h.transferId !in r.open && SavedFor(r.saved, h.transferId) == SavedFor(d.saved, h.transferId) + [file]
      && AcksFor(r.acks, h.transferId) == AcksFor(d.acks, h.transferId) + |chunks| / 16 + 1
  {
    OnlyOwnPayloadsMatter(j, d, ps, h.transferId);
    TransferAlone(j, d, h, chunks);
  }
}
