/** The subscriber as the object it is (pkg/feed/subscriber.go), proved against the functions of Endpoints and FileTransfer. */
module SubscriberEngines {
  import opened Wrappers
  import opened ByteStrings
  import opened Primitives
  import opened EnvelopeCodec
  import opened SealedFrames
  import opened ReplayLog
  import opened Endpoints
  import opened RingBuffers
  import opened FileTransfer
  import Sanitizer
  import Hkdf

  const EMPTY_DESK := Desk(map[], [], [], [])

  function PayloadsOf(ms: seq<SeqMsg>): (ps: seq<Bytes>)
    ensures |ps| == |ms|
  {
    seq(|ms|, i requires 0 <= i < |ms| => ms[i].payload)
  }

  lemma {:induction false} DispatchDelivered(j: Json, ms: seq<SeqMsg>, m: SeqMsg)
    ensures DispatchAll(j, EMPTY_DESK, PayloadsOf(ms + [m])) == Dispatch(j, DispatchAll(j, EMPTY_DESK, PayloadsOf(ms)), m.payload)
  {
    var ps := PayloadsOf(ms + [m]);
    assert ps[..|ps| - 1] == PayloadsOf(ms);
  }

  datatype Outcome = Running | Stopped | AuthFailed

  class SubscriberEngine {
    const c: Suite
    const j: Json
    const ringBuffer: RingBuffer
    var cipherKey: Option<Key>
    var lastSeqNum: nat
    var activeFiles: map<Bytes, OpenFile>
    var saved: seq<Saved>
    var text: seq<Bytes>
    var acks: seq<Bytes>
    ghost var delivered: seq<SeqMsg>

    ghost function View(): Subscriber
      reads this
    {
      Subscriber(cipherKey, lastSeqNum, delivered)
    }

    function CurrentDesk(): Desk
      reads this
    {
      Desk(activeFiles, saved, text, acks)
    }

    /** The ring holds the last 100 deliveries, and the outputs are what the deliveries amount to. */
    ghost predicate Valid()
      reads this, ringBuffer, ringBuffer.data, ringBuffer.pool, ringBuffer.pool.free, ringBuffer.Bufs()
    {
      && ringBuffer.Valid() && ringBuffer.capacity == REPLAY_CAPACITY
      && ringBuffer.contents == Last(delivered, REPLAY_CAPACITY)
      && CurrentDesk() == DispatchAll(j, EMPTY_DESK, PayloadsOf(delivered))
    }

    constructor (suite: Suite, json: Json, pool: BufferPool)
      requires pool.Valid()
      ensures Valid() && c == suite && j == json && View() == Subscriber(None, 0, [])
      ensures fresh(ringBuffer) && fresh(ringBuffer.data) && ringBuffer.pool == pool && ringBuffer.Bufs() == {}
    {
      c, j := suite, json;
      cipherKey, lastSeqNum := None, 0;
      activeFiles, saved, text, acks := map[], [], [], [];
      delivered := [];
      ringBuffer := new RingBuffer(REPLAY_CAPACITY, pool);
    }

    /** The switch on the payload tag. */
    method DispatchPlaintext(p: Bytes)
      modifies this`activeFiles, this`saved, this`text, this`acks
      ensures CurrentDesk() == Dispatch(j, old(CurrentDesk()), p)
    {
      if |p| > 0 {
        var tag, data := p[0], p[1..];
        if tag == TAG_TEXT {
          text := text + [Sanitizer.Sanitize(data)];
        } else if tag == TAG_FILE_START {
          var h := j.unmarshal(data);
          if h.Some? && |h.value.transferId| > 0 {
            activeFiles := activeFiles[h.value.transferId := OpenFile(h.value, [], 0)];
          }
        } else if tag == TAG_FILE_CHUNK {
          if |data| > ID_SIZE && data[..ID_SIZE] in activeFiles {
            var id := data[..ID_SIZE];
            var f := activeFiles[id];
            f := f.(written := f.written + data[ID_SIZE..], chunkCount := f.chunkCount + 1);
            activeFiles := activeFiles[id := f];
            if f.chunkCount % WINDOW == 0 {
              acks := acks + [id];
            }
          }
        } else if tag == TAG_FILE_END {
          if |data| >= ID_SIZE && data[..ID_SIZE] in activeFiles {
            var id := data[..ID_SIZE];
            acks := acks + [id];
            saved := saved + [Saved(id, activeFiles[id].written)];
            activeFiles := activeFiles - {id};
          }
        } else {
          text := text + [p];
        }
      }
    }

    /** The outputs and the position after one more delivery. */
    method Record(seqNum: nat, plaintext: Bytes)
      requires CurrentDesk() == DispatchAll(j, EMPTY_DESK, PayloadsOf(delivered))
      modifies this
      ensures CurrentDesk() == DispatchAll(j, EMPTY_DESK, PayloadsOf(delivered)) && cipherKey == old(cipherKey)
      ensures lastSeqNum == seqNum && delivered == old(delivered) + [SeqMsg(seqNum, plaintext)]
    {
      DispatchDelivered(j, delivered, SeqMsg(seqNum, plaintext));
      lastSeqNum := seqNum;
      delivered := delivered + [SeqMsg(seqNum, plaintext)];
      DispatchPlaintext(plaintext);
    }

    /** Deduplication, the ring, and the dispatch of what is new. */
    method Accept(seqNum: nat, plaintext: Bytes)
      requires Valid()
      modifies this, ringBuffer, ringBuffer.data, ringBuffer.pool, ringBuffer.pool.free, ringBuffer.Bufs()
      ensures Valid() && View() == Deliver(old(View()), seqNum, plaintext)
      ensures fresh(Owned() - old(Owned()))
    {
      if seqNum <= lastSeqNum {
        return;
      }
      PushKeepsLast(delivered, REPLAY_CAPACITY, SeqMsg(seqNum, plaintext));
      ringBuffer.Push(seqNum, plaintext);
      Record(seqNum, plaintext);
    }

    /** The buffers that handling a frame may write to. */
    ghost function Owned(): set<array<byte>>
      reads this, ringBuffer, ringBuffer.data, ringBuffer.pool
    {
      ringBuffer.pool.free + ringBuffer.Bufs()
    }

    method HandleEnvelope(e: Envelope) returns (o: Outcome)
      requires Valid()
      modifies this, ringBuffer, ringBuffer.data, ringBuffer.pool, ringBuffer.pool.free, ringBuffer.Bufs()
      ensures Valid() && fresh(Owned() - old(Owned()))
      ensures match HandleFrame(c, old(View()), e)
        case Continue(s) => o == Running && View() == s
        case Stopped => o == Outcome.Stopped && View() == old(View())
        case AuthFailed => o == Outcome.AuthFailed && View() == old(View())
    {
      if e.msgType == CLOSE {
        return Outcome.Stopped;
      }
      if e.msgType == HEARTBEAT || (e.msgType != REKEY && e.msgType != DATA_STREAM) {
        return Running;
      }
      if |e.payload| < SEQ_SIZE || cipherKey.None? {
        return Running;
      }
      var key := cipherKey.value;
      var headerBytes := Header(e.version, e.msgType, e.sessionId, e.nonce, |e.payload|);
      var clear := c.open(key, e.nonce, e.payload[SEQ_SIZE..], headerBytes);
      if clear.None? {
        return Outcome.AuthFailed;
      }
      if e.msgType == REKEY {
        cipherKey := Some(Hkdf.Ratchet(c, key, clear.value));
        return Running;
      }
      var plaintext := clear.value;
      var unpadded := Unpad(plaintext);
      if unpadded.Ok? {
        plaintext := unpadded.value;
      }
      Accept(GetUint(e.payload[..SEQ_SIZE]), plaintext);
      o := Running;
    }

    /** SubscribeStream between two reconnects: the frames of one connection, until it ends or the loop stops. */
    method SubscribeStream(input: seq<Envelope>) returns (o: Outcome)
      requires Valid()
      modifies this, ringBuffer, ringBuffer.data, ringBuffer.pool, ringBuffer.pool.free, ringBuffer.Bufs()
      ensures Valid()
      ensures match HandleAll(c, old(View()), input)
        case Continue(s) => o == Running && View() == s
        case Stopped => o == Outcome.Stopped
        case AuthFailed => o == Outcome.AuthFailed
    {
      var rest := input;
      while rest != []
        invariant Valid() && fresh(Owned() - old(Owned()))
        invariant HandleAll(c, old(View()), input) == HandleAll(c, View(), rest)
        decreases |rest|
      {
        o := HandleEnvelope(rest[0]);
        if o != Running {
          return;
        }
        rest := rest[1..];
      }
      o := Running;
    }

    /** CompleteHandshake installs the unwrapped master key and keeps the stream position. */
    method InstallKey(masterKey: Key)
      requires Valid()
      modifies this`cipherKey
      ensures Valid() && View() == old(View()).(cipherKey := Some(masterKey))
    {
      cipherKey := Some(masterKey);
    }
  }
}
