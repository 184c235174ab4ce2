/** The 38-byte frame envelope and the length-prefixed padding (pkg/protocol). */
module EnvelopeCodec {
  import opened Wrappers
  import opened ByteStrings
  import opened Primitives

  const VERSION: byte := 0x03
  const MIN_SUPPORTED_VERSION: byte := 0x03

  const PAKE_INIT_PUB: byte := 0x01
  const PAKE_INIT_SUB: byte := 0x02
  const DATA_STREAM: byte := 0x04
  const HEARTBEAT: byte := 0x05
  const CLOSE: byte := 0x06
  const SYNC_REQ: byte := 0x07
  const CHUNK_ACK: byte := 0x08
  const REKEY: byte := 0x09
  const KEY_CONFIRM: byte := 0x0A

  const HEADER_SIZE := 38
  const MAX_PAYLOAD_SIZE := 32 * 1024 * 1024
  const POOL_BUFFER_SIZE := 64 * 1024
  const PADDING_TARGET := 1280
  const LEN_PREFIX_SIZE := 4

  const MAGIC: Bytes := [0x5A, 0x46, 0x45, 0x44]

  type SessionId = b: Bytes | |b| == 16 witness Zeros(16)

  datatype Envelope = Envelope(version: byte, msgType: byte, sessionId: SessionId, nonce: Nonce, payload: Bytes)

  datatype CodecError = Eof | UnexpectedEof | InvalidMagic | UnsupportedVersion | PayloadTooLarge | InvalidPadding

  /** The header bytes; they double as the associated data of sealed frames. */
  function Header(version: byte, msgType: byte, sid: SessionId, nonce: Nonce, payloadLen: nat): (h: Bytes)
    ensures |h| == HEADER_SIZE
  {
    MAGIC + [version, msgType] + sid + nonce + PutUint(payloadLen, 4)
  }

  /** What Encode writes: the length is truncated to 32 bits before it is checked, and bounds what is copied. */
  function Encode(e: Envelope): (r: Result<Bytes, CodecError>)
    ensures r.Ok? <==> |e.payload| % TWO_32 <= MAX_PAYLOAD_SIZE
    ensures r.Ok? ==> |r.value| == HEADER_SIZE + |e.payload| % TWO_32
    ensures |e.payload| <= MAX_PAYLOAD_SIZE ==> r.Ok?
  {
    var n := |e.payload| % TWO_32;
    if n > MAX_PAYLOAD_SIZE then Err(PayloadTooLarge)
    else Ok(Header(e.version, e.msgType, e.sessionId, e.nonce, n) + e.payload[..n])
  }

  datatype Decoded = Frame(env: Envelope, rest: Bytes) | Failed(error: CodecError)

  /** io.ReadFull: the error when fewer than `need` bytes remain. */
  function ShortRead(have: nat): CodecError {
    if have == 0 then Eof else UnexpectedEof
  }

  /** What DecodeWithMax makes of the bytes that remain on a connection. */
  function Decode(input: Bytes, max: nat): (d: Decoded)
    ensures d.Frame? ==> |d.rest| + HEADER_SIZE <= |input|
  {
    if |input| < HEADER_SIZE then Failed(ShortRead(|input|))
    else if input[..4] != MAGIC then Failed(InvalidMagic)
    else if input[4] < MIN_SUPPORTED_VERSION then Failed(UnsupportedVersion)
    else
      var n := GetUint(input[34..38]);
      if n > max then Failed(PayloadTooLarge)
      else if |input| < HEADER_SIZE + n then Failed(ShortRead(|input| - HEADER_SIZE))
      else Frame(Envelope(input[4], input[5], input[6..22], input[22..34], input[38..38 + n]), input[38 + n..])
  }

  predicate Encodable(e: Envelope, max: nat) {
    |e.payload| <= max && e.version >= MIN_SUPPORTED_VERSION
  }

  /** Field by field, a printed header reads back. */
  lemma {:induction false} HeaderFields(version: byte, msgType: byte, sid: SessionId, nonce: Nonce, n: nat, tail: Bytes)
    requires n < TWO_32
    ensures var b := Header(version, msgType, sid, nonce, n) + tail;
      && b[..4] == MAGIC && b[4] == version && b[5] == msgType
      && b[6..22] == sid && b[22..34] == nonce && GetUint(b[34..38]) == n && b[38..] == tail
  {
    var b := Header(version, msgType, sid, nonce, n) + tail;
    assert b[34..38] == PutUint(n, 4);
    GetPut4(n);
  }

  lemma {:induction false} DecodeParts(e: Envelope, rest: Bytes, max: nat, input: Bytes)
    requires Encodable(e, max) && max <= MAX_PAYLOAD_SIZE
    requires input == Header(e.version, e.msgType, e.sessionId, e.nonce, |e.payload|) + (e.payload + rest)
    ensures Decode(input, max) == Frame(e, rest)
  {
    var n := |e.payload|;
    HeaderFields(e.version, e.msgType, e.sessionId, e.nonce, n, e.payload + rest);
    assert input[38..38 + n] == input[38..][..n] == e.payload;
    assert input[38 + n..] == input[38..][n..] == rest;
  }

  /** Decoding undoes encoding, and leaves the rest of the stream untouched. */
  lemma {:induction false} DecodeEncode(e: Envelope, rest: Bytes, max: nat)
    requires Encodable(e, max) && max <= MAX_PAYLOAD_SIZE
    ensures Encode(e).Ok? && Decode(Encode(e).value + rest, max) == Frame(e, rest)
  {
    var h := Header(e.version, e.msgType, e.sessionId, e.nonce, |e.payload|);
    EncodeWhole(e);
    ConcatAssoc(h, e.payload, rest);
    DecodeParts(e, rest, max, h + (e.payload + rest));
  }

  lemma {:induction false} EncodeWhole(e: Envelope)
    requires |e.payload| <= MAX_PAYLOAD_SIZE
    ensures Encode(e) == Ok(Header(e.version, e.msgType, e.sessionId, e.nonce, |e.payload|) + e.payload)
  {
    assert e.payload[..|e.payload|] == e.payload;
  }

  lemma {:induction false} ConcatAssoc(a: Bytes, b: Bytes, c: Bytes)
    ensures a + b + c == a + (b + c)
  {
  }

  /** The exact condition: a frame survives the wire if and only if its payload is at most 32 MB.
      A payload of 2^32 bytes or more may be accepted by Encode, but then arrives cut short. */
  lemma {:induction false} SurvivesWireIff(e: Envelope, rest: Bytes)
    requires e.version >= MIN_SUPPORTED_VERSION
    ensures (Encode(e).Ok? && Decode(Encode(e).value + rest, MAX_PAYLOAD_SIZE) == Frame(e, rest))
       <==> |e.payload| <= MAX_PAYLOAD_SIZE
  {
    if |e.payload| <= MAX_PAYLOAD_SIZE {
      DecodeEncode(e, rest, MAX_PAYLOAD_SIZE);
    } else if Encode(e).Ok? {
      var n := |e.payload| % TWO_32;
      HeaderFields(e.version, e.msgType, e.sessionId, e.nonce, n, e.payload[..n] + rest);
      var input := Encode(e).value + rest;
      assert input == Header(e.version, e.msgType, e.sessionId, e.nonce, n) + (e.payload[..n] + rest);
      assert n != |e.payload|;
    }
  }

  /** Encoding is the only way to obtain what decodes: the parsed bytes are the printed envelope. */
  lemma {:induction false} EncodeDecode(input: Bytes, max: nat)
    requires max <= MAX_PAYLOAD_SIZE && Decode(input, max).Frame?
    ensures var d := Decode(input, max);
      Encodable(d.env, max) && Encode(d.env).Ok? && input == Encode(d.env).value + d.rest
  {
    var d := Decode(input, max);
    var n := GetUint(input[34..38]);
    HeaderOfInput(input);
    assert |d.env.payload| == n && d.env.payload[..n] == d.env.payload;
    assert input == input[..38] + input[38..38 + n] + input[38 + n..];
  }

  /** The header a decoded envelope is printed with is the one that was read. */
  lemma {:induction false} HeaderOfInput(input: Bytes)
    requires |input| >= HEADER_SIZE && input[..4] == MAGIC
    ensures Header(input[4], input[5], input[6..22], input[22..34], GetUint(input[34..38])) == input[..38]
  {
    PutGet(input[34..38]);
    assert input[..38] == input[..4] + [input[4], input[5]] + input[6..22] + input[22..34] + input[34..38];
  }

  lemma {:induction false} CutFrame(e: Envelope, h: Bytes, k: nat)
    requires |e.payload| <= MAX_PAYLOAD_SIZE && h == Header(e.version, e.msgType, e.sessionId, e.nonce, |e.payload|)
    requires HEADER_SIZE <= k < |Encode(e).value|
    ensures Encode(e).value[..k] == h + e.payload[..k - HEADER_SIZE]
  {
    assert Encode(e).value == h + e.payload;
  }

  /** A strict prefix of a frame never yields an envelope. */
  lemma {:induction false} StrictPrefixFails(e: Envelope, k: nat, max: nat)
    requires Encodable(e, max) && max <= MAX_PAYLOAD_SIZE && k < |Encode(e).value|
    ensures Decode(Encode(e).value[..k], max).Failed?
    ensures Decode(Encode(e).value[..k], max).error in {Eof, UnexpectedEof}
  {
    if k >= HEADER_SIZE {
      var h := Header(e.version, e.msgType, e.sessionId, e.nonce, |e.payload|);
      var part := e.payload[..k - HEADER_SIZE];
      CutFrame(e, h, k);
      HeaderFields(e.version, e.msgType, e.sessionId, e.nonce, |e.payload|, part);
      assert Decode(h + part, max) == Failed(ShortRead(|part|));
    }
  }

  // ----- whole streams -----

  predicate AllEncodable(es: seq<Envelope>) {
    forall i :: 0 <= i < |es| ==> Encodable(es[i], MAX_PAYLOAD_SIZE)
  }

  function EncodeAll(es: seq<Envelope>): (b: Bytes)
    requires AllEncodable(es)
  {
    if es == [] then [] else
      assert Encodable(es[0], MAX_PAYLOAD_SIZE);
      Encode(es[0]).value + EncodeAll(es[1..])
  }

  /** Reading frames off a connection until the first failure. */
  function DecodeAll(input: Bytes): (es: seq<Envelope>)
    decreases |input|
  {
    match Decode(input, MAX_PAYLOAD_SIZE)
    case Failed(_) => []
    case Frame(e, rest) => [e] + DecodeAll(rest)
  }

  lemma {:induction false} StreamRoundTrip(es: seq<Envelope>)
    requires AllEncodable(es)
    ensures DecodeAll(EncodeAll(es)) == es
  {
    if es == [] {
    } else {
      StreamRoundTrip(es[1..]);
      DecodeEncode(es[0], EncodeAll(es[1..]), MAX_PAYLOAD_SIZE);
    }
  }

  /** However the stream is cut, what decodes is a prefix of what was sent: no torn or invented frame. */
  lemma {:induction false} CutStreamDecodesPrefix(es: seq<Envelope>, k: nat)
    requires AllEncodable(es) && k <= |EncodeAll(es)|
    ensures DecodeAll(EncodeAll(es)[..k]) <= es
  {
    if es != [] {
      var f := Encode(es[0]).value;
      var rest := EncodeAll(es[1..]);
      if k < |f| {
        StrictPrefixFails(es[0], k, MAX_PAYLOAD_SIZE);
        assert (f + rest)[..k] == f[..k];
      } else {
        CutStreamDecodesPrefix(es[1..], k - |f|);
        assert (f + rest)[..k] == f + rest[..k - |f|];
        DecodeEncode(es[0], rest[..k - |f|], MAX_PAYLOAD_SIZE);
      }
    }
  }

  // ----- padding -----

  function Pad(data: Bytes, target: nat): (p: Bytes)
    ensures |p| == if |data| + LEN_PREFIX_SIZE > target then |data| + LEN_PREFIX_SIZE else target
  {
    var size := if |data| + LEN_PREFIX_SIZE > target then |data| + LEN_PREFIX_SIZE else target;
    PutUint(|data|, 4) + data + Zeros(size - LEN_PREFIX_SIZE - |data|)
  }

  function Unpad(data: Bytes): (r: Result<Bytes, CodecError>)
    ensures r.Ok? ==> |r.value| + LEN_PREFIX_SIZE <= |data|
  {
    if |data| < LEN_PREFIX_SIZE then Err(InvalidPadding)
    else
      var n := GetUint(data[..LEN_PREFIX_SIZE]);
      if n + LEN_PREFIX_SIZE > |data| then Err(InvalidPadding) else Ok(data[LEN_PREFIX_SIZE..LEN_PREFIX_SIZE + n])
  }

  /** Octet by octet: the length cut to 32 bits, most significant octet first, the data, and zeros up to the target. */
  lemma {:induction false} PadLayout(data: Bytes, target: nat, i: nat)
    requires i < |Pad(data, target)|
    ensures |Pad(data, target)| == if |data| + 4 > target then |data| + 4 else target
    ensures Pad(data, target)[i] ==
      if i < 4 then |data| / Pow256(3 - i) % 256 else if i < 4 + |data| then data[i - 4] else 0
  {
    if i < 4 {
      PutUintBytes(|data|, 4, i);
    }
  }

  /** Bytes above the width are cut off. */
  lemma {:induction false} PutUintCuts(n: nat, q: nat, w: nat)
    ensures PutUint(n + q * Pow256(w), w) == PutUint(n, w)
  {
    if w > 0 {
      var t := q * Pow256(w - 1);
      assert q * Pow256(w) == 256 * t;
      assert (n + 256 * t) / 256 == n / 256 + t;
      PutUintCuts(n / 256, q, w - 1);
    }
  }

  /** Padding is removed exactly when the 32-bit length prefix can hold the real length. */
  lemma {:induction false} UnpadPadIff(data: Bytes, target: nat)
    ensures Unpad(Pad(data, target)) == Ok(data) <==> |data| < TWO_32
    ensures Unpad(Pad(data, target)) == Ok(data[..|data| % TWO_32])
  {
    var p := Pad(data, target);
    var n := |data| % TWO_32;
    PowWidths();
    PutUintCuts(n, |data| / TWO_32, 4);
    GetPut4(n);
    assert p[..4] == PutUint(n, 4);
    assert p[4..4 + |data|] == data;
    assert p[4..4 + n] == p[4..4 + |data|][..n];
    if |data| < TWO_32 {
      assert data[..n] == data;
    }
  }

  // ----- the imperative forms -----

  method CopyInto(buf: array<byte>, at: nat, src: Bytes)
    requires at + |src| <= buf.Length
    modifies buf
    ensures buf[at..at + |src|] == src
    ensures forall j :: 0 <= j < buf.Length && !(at <= j < at + |src|) ==> buf[j] == old(buf[j])
  {
    for i := 0 to |src|
      invariant forall j :: 0 <= j < i ==> buf[at + j] == src[j]
      invariant forall j :: 0 <= j < buf.Length && !(at <= j < at + i) ==> buf[j] == old(buf[j])
    {
      buf[at + i] := src[i];
    }
  }

  lemma {:induction false} SplitHeader(b: Bytes)
    requires |b| >= HEADER_SIZE
    ensures b == b[..4] + [b[4], b[5]] + b[6..22] + b[22..34] + b[34..38] + b[38..]
  {
  }

  method SerializeHeader(buf: array<byte>, version: byte, msgType: byte, sid: SessionId, nonce: Nonce, payloadLen: nat)
    requires buf.Length >= HEADER_SIZE
    modifies buf
    ensures buf[..] == Header(version, msgType, sid, nonce, payloadLen) + old(buf[HEADER_SIZE..])
  {
    CopyInto(buf, 0, MAGIC);
    buf[4] := version;
    buf[5] := msgType;
    CopyInto(buf, 6, sid);
    CopyInto(buf, 22, nonce);
    CopyInto(buf, 34, PutUint(payloadLen, 4));
    ghost var b := buf[..];
    assert b[..4] == MAGIC && b[4] == version && b[5] == msgType;
    assert b[6..22] == sid && b[22..34] == nonce && b[34..38] == PutUint(payloadLen, 4) && b[38..] == old(buf[38..]);
    SplitHeader(b);
  }

  /** Encode through the frame pool: whatever a pooled buffer held before, the bytes written are those of `Encode`. */
  method EncodeFrame(pooled: array<byte>, e: Envelope) returns (r: Result<Bytes, CodecError>)
    requires pooled.Length == POOL_BUFFER_SIZE
    modifies pooled
    ensures r == Encode(e)
  {
    var n := |e.payload| % TWO_32;
    if n > MAX_PAYLOAD_SIZE {
      return Err(PayloadTooLarge);
    }
    var fullSize := HEADER_SIZE + n;
    var buf := pooled;
    if fullSize > POOL_BUFFER_SIZE {
      buf := new byte[fullSize];
    }
    SerializeHeader(buf, e.version, e.msgType, e.sessionId, e.nonce, n);
    if n > 0 {
      CopyInto(buf, HEADER_SIZE, e.payload[..n]);
    }
    assert buf[..HEADER_SIZE] == Header(e.version, e.msgType, e.sessionId, e.nonce, n);
    assert buf[HEADER_SIZE..fullSize] == e.payload[..n];
    r := Ok(buf[..fullSize]);
    assert r.value == buf[..HEADER_SIZE] + buf[HEADER_SIZE..fullSize];
  }

  method PadPayload(data: Bytes, target: nat) returns (r: Bytes)
    ensures r == Pad(data, target)
  {
    var size := target;
    if |data| + LEN_PREFIX_SIZE > target {
      size := |data| + LEN_PREFIX_SIZE;
    }
    var out := new byte[size](_ => 0);
    CopyInto(out, 0, PutUint(|data|, 4));
    if |data| > 0 {
      CopyInto(out, LEN_PREFIX_SIZE, data);
    }
    r := out[..];
    assert r[..4] == PutUint(|data|, 4);
    assert r[4..4 + |data|] == data;
    assert r[4 + |data|..] == Zeros(size - 4 - |data|);
  }
}
