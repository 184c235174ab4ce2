/** RFC 6455 framing under the relay's byte streams (pkg/relay/websocket.go). */
module WebSocket {
  import opened Wrappers
  import opened ByteStrings

  const MAX_FRAME := 64 * 1024 * 1024
  const OP_CLOSE := 0x08
  const OP_PING := 0x09

  datatype WsError = Eof | UnexpectedEof | FrameTooLarge

  predicate DataOpcode(op: nat) {
    op == 0x00 || op == 0x01 || op == 0x02
  }

  // ----- masking (section 5.3) -----

  function Pow2(w: nat): (p: nat)
    ensures p > 0
  {
    if w == 0 then 1 else 2 * Pow2(w - 1)
  }

  /** Exclusive or of the low w bits, bit by bit. */
  function XorBits(a: nat, b: nat, w: nat): (r: nat)
    ensures r < Pow2(w)
  {
    if w == 0 then 0 else 2 * XorBits(a / 2, b / 2, w - 1) + (if a % 2 == b % 2 then 0 else 1)
  }

  function Xor(a: byte, b: byte): (r: byte) {
    assert Pow2(1) == 2 && Pow2(2) == 4 && Pow2(3) == 8 && Pow2(4) == 16;
    assert Pow2(5) == 32 && Pow2(6) == 64 && Pow2(7) == 128 && Pow2(8) == 256;
    XorBits(a, b, 8)
  }

  lemma {:induction false} XorBitsTwice(a: nat, b: nat, w: nat)
    requires a < Pow2(w)
    ensures XorBits(XorBits(a, b, w), b, w) == a
  {
    if w > 0 {
      XorBitsTwice(a / 2, b / 2, w - 1);
      var r := XorBits(a, b, w);
      assert r / 2 == XorBits(a / 2, b / 2, w - 1);
    }
  }

  lemma {:induction false} XorTwice(a: byte, b: byte)
    ensures Xor(Xor(a, b), b) == a
  {
    assert Pow2(1) == 2 && Pow2(2) == 4 && Pow2(3) == 8 && Pow2(4) == 16;
    assert Pow2(5) == 32 && Pow2(6) == 64 && Pow2(7) == 128 && Pow2(8) == 256;
    XorBitsTwice(a, b, 8);
  }

  function Masked(p: Bytes, key: Bytes): (r: Bytes)
    requires |key| == 4
    ensures |r| == |p|
  {
    seq(|p|, i requires 0 <= i < |p| => Xor(p[i], key[i % 4]))
  }

  /** Bit b of a number, counted from the least significant one. */
  predicate Bit(v: nat, b: nat) {
    v / Pow2(b) % 2 == 1
  }

  lemma {:induction false} BitOfHalf(v: nat, b: nat)
    requires b > 0
    ensures Bit(v, b) == Bit(v / 2, b - 1)
  {
    HalfThenDiv(v, Pow2(b - 1));
  }

  lemma {:induction false} HalfThenDiv(v: nat, q: nat)
    requires q > 0
    ensures v / (2 * q) == v / 2 / q
  {
    var a := v / 2;
    var b := a / q;
    assert v == 2 * a + v % 2 && a == q * b + a % q;
    var r := 2 * (a % q) + v % 2;
    assert v == (2 * q) * b + r && 0 <= r < 2 * q by {
      assert 2 * (q * b) == (2 * q) * b;
    }
    QuotientUnique(v, 2 * q, b, r);
  }

  lemma {:induction false} XorBitsBit(a: nat, b: nat, w: nat, i: nat)
    requires i < w
    ensures Bit(XorBits(a, b, w), i) <==> Bit(a, i) != Bit(b, i)
  {
    var r := XorBits(a, b, w);
    if i == 0 {
      assert a / 1 == a && b / 1 == b && r / 1 == r;
    } else {
      XorBitsBit(a / 2, b / 2, w - 1, i - 1);
      BitOfHalf(a, i);
      BitOfHalf(b, i);
      BitOfHalf(r, i);
      assert r / 2 == XorBits(a / 2, b / 2, w - 1);
    }
  }

  /** r is the exclusive or of a and b: each of its bits is set if and only if exactly one of theirs is. */
  ghost predicate IsXor(r: byte, a: byte, b: byte) {
    forall i :: 0 <= i < 8 ==> (Bit(r, i) <==> Bit(a, i) != Bit(b, i))
  }

  lemma {:induction false} XorIsXor(a: byte, b: byte)
    ensures IsXor(Xor(a, b), a, b)
  {
    forall i | 0 <= i < 8
      ensures Bit(Xor(a, b), i) <==> Bit(a, i) != Bit(b, i)
    {
      XorBitsBit(a, b, 8, i);
    }
  }

  /** Octet i of the payload is masked with octet i mod 4 of the key, bit by bit (section 5.3). */
  lemma {:induction false} MaskedOctets(p: Bytes, key: Bytes, i: nat)
    requires |key| == 4 && i < |p|
    ensures IsXor(Masked(p, key)[i], p[i], key[i % 4])
  {
    XorIsXor(p[i], key[i % 4]);
  }

  lemma {:induction false} MaskedTwice(p: Bytes, key: Bytes)
    requires |key| == 4
    ensures Masked(Masked(p, key), key) == p
  {
    var m := Masked(p, key);
    forall i | 0 <= i < |p|
      ensures Masked(m, key)[i] == p[i]
    {
      XorTwice(p[i], key[i % 4]);
    }
  }

  // ----- one frame (section 5.2) -----

  datatype Parsed = Frame(opcode: nat, payload: Bytes, rest: Bytes) | Closed | Bad(error: WsError)

  function ShortRead(have: nat): WsError {
    if have == 0 then Eof else UnexpectedEof
  }

  /** Width of the extended length that the 7-bit length announces. */
  function Extended(len7: nat): (n: nat)
    ensures n == 0 || n == 2 || n == 8
  {
    if len7 == 126 then 2 else if len7 == 127 then 8 else 0
  }

  /** Read's parser: a close opcode ends the stream at once; lengths above 64 MB are refused in the 64-bit form. */
  function ParseFrame(s: Bytes): (r: Parsed)
    ensures r.Frame? ==> |r.rest| < |s|
  {
    if |s| == 0 then Bad(Eof)
    else if s[0] % 16 == OP_CLOSE then Closed
    else if |s| == 1 then Bad(Eof)
    else ParseBody(s[0] % 16, s[1] >= 128, s[1] % 128, s[2..])
  }

  function ParseBody(op: nat, masked: bool, len7: nat, s: Bytes): (r: Parsed)
    ensures r.Frame? ==> |r.rest| <= |s|
  {
    var ext := Extended(len7);
    if |s| < ext then Bad(ShortRead(|s|))
    else
      var len := if ext == 0 then len7 else GetUint(s[..ext]);
      if ext == 8 && len > MAX_FRAME then Bad(FrameTooLarge)
      else ParsePayload(op, masked, len, s[ext..])
  }

  function ParsePayload(op: nat, masked: bool, len: nat, s: Bytes): (r: Parsed)
    ensures r.Frame? ==> |r.rest| <= |s|
  {
    var k := if masked then 4 else 0;
    if |s| < k then Bad(ShortRead(|s|))
    else if |s| < k + len then Bad(ShortRead(|s| - k))
    else Frame(op, if masked then Masked(s[4..4 + len], s[..4]) else s[..len], s[k + len..])
  }

  // ----- what is read from the wire, octet by octet -----

  /** The length announced by the second octet of a frame, and by the 2 or 8 octets after it. */
  function Announced(s: Bytes): (n: nat)
    requires |s| >= 2 && (s[1] % 128 == 126 ==> |s| >= 4) && (s[1] % 128 == 127 ==> |s| >= 10)
  {
    if s[1] % 128 == 126 then (s[2] as int) * 256 + s[3]
    else if s[1] % 128 == 127 then GetUint(s[2..10])
    else s[1] % 128
  }

  function LengthEnd(s: Bytes): (n: nat)
    requires |s| >= 2
  {
    if s[1] % 128 == 126 then 4 else if s[1] % 128 == 127 then 10 else 2
  }

  lemma {:induction false} TwoOctets(s: Bytes)
    requires |s| == 2
    ensures GetUint(s) == (s[0] as int) * 256 + s[1]
  {
    assert s[..1][..0] == [];
    assert GetUint(s[..0]) == 0 && GetUint(s[..1]) == s[0];
  }

  lemma {:induction false} ParseSplits(s: Bytes)
    requires ParseFrame(s).Frame?
    ensures |s| >= 2 && |s| >= LengthEnd(s) && s[0] % 16 != OP_CLOSE
    ensures ParseFrame(s) == ParsePayload(s[0] % 16, s[1] >= 128, Announced(s), s[LengthEnd(s)..])
  {
    var ext := Extended(s[1] % 128);
    var t := s[2..];
    if ext == 2 {
      assert t[..2] == [s[2], s[3]];
      TwoOctets(t[..2]);
    } else if ext == 8 {
      assert t[..8] == s[2..10];
    }
    assert t[ext..] == s[LengthEnd(s)..];
  }

  /** The payload is what lies at this place of the wire: as it is or, masked, after four octets of key, each octet the
      exclusive or of one on the wire and of its octet of the key. */
  ghost predicate LiesAt(payload: Bytes, s: Bytes, at: nat, masked: bool) {
    && at + (if masked then 4 else 0) + |payload| <= |s|
    && forall i :: 0 <= i < |payload| ==>
         if masked then IsXor(payload[i], s[at + 4 + i], s[at + i % 4]) else payload[i] == s[at + i]
  }

  lemma {:induction false} PayloadOctets(op: nat, masked: bool, len: nat, s: Bytes)
    requires ParsePayload(op, masked, len, s).Frame?
    ensures var f := ParsePayload(op, masked, len, s);
      && f.opcode == op && |f.payload| == len && |s| == (if masked then 4 else 0) + len + |f.rest|
      && f.rest == s[(if masked then 4 else 0) + len..] && LiesAt(f.payload, s, 0, masked)
  {
    if masked {
      forall i | 0 <= i < len
        ensures IsXor(ParsePayload(op, masked, len, s).payload[i], s[4 + i], s[i % 4])
      {
        MaskedOctets(s[4..4 + len], s[..4], i);
      }
    }
  }

  lemma {:induction false} LiesFurther(payload: Bytes, s: Bytes, at: nat, masked: bool)
    requires at <= |s| && LiesAt(payload, s[at..], 0, masked)
    ensures LiesAt(payload, s, at, masked)
  {
    var u := s[at..];
    forall i | 0 <= i < |payload|
      ensures if masked then IsXor(payload[i], s[at + 4 + i], s[at + i % 4]) else payload[i] == s[at + i]
    {
      if masked {
        assert IsXor(payload[i], u[0 + 4 + i], u[0 + i % 4]);
        assert u[4 + i] == s[at + 4 + i] && u[i % 4] == s[at + i % 4];
      } else {
        assert payload[i] == u[0 + i];
      }
    }
  }

  /** Every frame that parses, in terms of the octets on the wire: the opcode is in the low half of the first one; the
      length is in the second one or in the 2 or 8 octets after it; the payload lies behind it, masked if the mask bit is
      set; the rest is left. */
  lemma {:induction false} FrameOctets(s: Bytes)
    requires ParseFrame(s).Frame?
    ensures |s| >= 2 && |s| >= LengthEnd(s)
    ensures var f := ParseFrame(s);
      && f.opcode == s[0] % 16 && f.opcode != OP_CLOSE && |f.payload| == Announced(s)
      && |s| == LengthEnd(s) + (if s[1] >= 128 then 4 else 0) + |f.payload| + |f.rest| && f.rest == s[|s| - |f.rest|..]
      && LiesAt(f.payload, s, LengthEnd(s), s[1] >= 128)
  {
    ParseSplits(s);
    PayloadOctets(s[0] % 16, s[1] >= 128, Announced(s), s[LengthEnd(s)..]);
    LiesFurther(ParseFrame(s).payload, s, LengthEnd(s), s[1] >= 128);
  }

  /** A frame as a peer may send it: any fragmentation, masked or not, any length form that fits. */
  datatype WsFrame = WsFrame(first: byte, mask: Option<Bytes>, ext: nat, payload: Bytes)

  function Opcode(f: WsFrame): nat {
    f.first % 16
  }

  predicate WellFormed(f: WsFrame) {
    && Opcode(f) != OP_CLOSE
    && (f.mask.Some? ==> |f.mask.value| == 4)
    && (|| (f.ext == 0 && |f.payload| <= 125)
        || (f.ext == 2 && |f.payload| <= 65535)
        || (f.ext == 8 && |f.payload| <= MAX_FRAME))
  }

  /** The 7-bit length: the length itself, or the marker of an extended one. */
  function Len7(f: WsFrame): (n: nat)
    requires WellFormed(f)
    ensures n < 128 && Extended(n) == f.ext && (f.ext == 0 ==> n == |f.payload|)
  {
    if f.ext == 0 then |f.payload| else if f.ext == 2 then 126 else 127
  }

  function Body(mask: Option<Bytes>, p: Bytes): (s: Bytes)
    requires mask.Some? ==> |mask.value| == 4
  {
    if mask.Some? then mask.value + Masked(p, mask.value) else p
  }

  function Print(f: WsFrame): (s: Bytes)
    requires WellFormed(f)
    ensures |s| >= 2
  {
    [f.first, (if f.mask.Some? then 128 else 0) + Len7(f)] + PutUint(|f.payload|, f.ext) + Body(f.mask, f.payload)
  }

  lemma {:induction false} PayloadRoundTrip(op: nat, mask: Option<Bytes>, p: Bytes, rest: Bytes)
    requires mask.Some? ==> |mask.value| == 4
    ensures ParsePayload(op, mask.Some?, |p|, Body(mask, p) + rest) == Frame(op, p, rest)
  {
    if mask.Some? {
      var m := Masked(p, mask.value);
      var s := mask.value + m + rest;
      assert s[..4] == mask.value && s[4..4 + |p|] == m && s[4 + |p|..] == rest;
      MaskedTwice(p, mask.value);
    } else {
      assert (p + rest)[..|p|] == p && (p + rest)[|p|..] == rest;
    }
  }

  lemma {:induction false} BodyRoundTrip(f: WsFrame, op: nat, rest: Bytes)
    requires WellFormed(f)
    ensures ParseBody(op, f.mask.Some?, Len7(f), PutUint(|f.payload|, f.ext) + (Body(f.mask, f.payload) + rest)) == Frame(op, f.payload, rest)
  {
    var n := |f.payload|;
    var tail := Body(f.mask, f.payload) + rest;
    var s := PutUint(n, f.ext) + tail;
    assert s[..f.ext] == PutUint(n, f.ext) && s[f.ext..] == tail;
    if f.ext == 2 {
      GetPut2(n);
    } else if f.ext == 8 {
      GetPut8(n);
    }
    PayloadRoundTrip(op, f.mask, f.payload, rest);
  }

  lemma {:induction false} Assoc3<T>(a: seq<T>, b: seq<T>, c: seq<T>)
    ensures a + (b + c) == a + b + c
  {
  }

  lemma {:induction false} Assoc(a: Bytes, b: Bytes, c: Bytes, d: Bytes)
    ensures a + b + c + d == a + (b + (c + d))
  {
  }

  lemma {:induction false} HeaderRoundTrip(first: byte, masked: bool, len7: nat, tail: Bytes)
    requires first % 16 != OP_CLOSE && len7 < 128
    ensures ParseFrame([first, (if masked then 128 else 0) + len7] + tail) == ParseBody(first % 16, masked, len7, tail)
  {
    var s := [first, (if masked then 128 else 0) + len7] + tail;
    assert s[0] == first && s[2..] == tail;
    assert (s[1] >= 128) == masked && s[1] % 128 == len7;
  }

  /** Parsing undoes printing, masked or not, in all three length forms. */
  lemma {:induction false} FrameRoundTrip(f: WsFrame, rest: Bytes)
    requires WellFormed(f)
    ensures ParseFrame(Print(f) + rest) == Frame(Opcode(f), f.payload, rest)
  {
    var header := [f.first, (if f.mask.Some? then 128 else 0) + Len7(f)];
    var tail := PutUint(|f.payload|, f.ext) + (Body(f.mask, f.payload) + rest);
    Assoc(header, PutUint(|f.payload|, f.ext), Body(f.mask, f.payload), rest);
    HeaderRoundTrip(f.first, f.mask.Some?, Len7(f), tail);
    BodyRoundTrip(f, Opcode(f), rest);
  }

  // ----- streams of frames -----

  predicate AllWellFormed(fs: seq<WsFrame>) {
    forall i :: 0 <= i < |fs| ==> WellFormed(fs[i])
  }

  function PrintAll(fs: seq<WsFrame>): (s: Bytes)
    requires AllWellFormed(fs)
  {
    if fs == [] then [] else Print(fs[0]) + PrintAll(fs[1..])
  }

  function DataOf(fs: seq<WsFrame>): (s: Bytes) {
    if fs == [] then [] else (if DataOpcode(Opcode(fs[0])) then fs[0].payload else []) + DataOf(fs[1..])
  }

  /** The pong Read sends back for a ping (section 5.5.2). */
  function Pong(p: Bytes): (s: Bytes) {
    [0x8A] + (if |p| <= 125 then [|p|] else [126, |p| / 256 % 256, |p| % 256]) + p
  }

  /** What is written back for one frame. */
  function Reply(f: WsFrame): (ws: seq<Bytes>) {
    if Opcode(f) == OP_PING then [Pong(f.payload)] else []
  }

  /** One pong per ping, in order. */
  function PongsFor(fs: seq<WsFrame>): (ws: seq<Bytes>) {
    if fs == [] then [] else Reply(fs[0]) + PongsFor(fs[1..])
  }

  lemma {:induction false} PongIsFrame(p: Bytes)
    requires |p| <= 65535
    ensures var f := WsFrame(0x8A, None, if |p| <= 125 then 0 else 2, p); WellFormed(f) && Print(f) == Pong(p)
  {
    assert PutUint(|p|, 0) == [] && PutUint(|p| / 256, 1) == [|p| / 256 % 256];
  }

  /** Beyond 16 bits the announced length cannot be the real one. */
  lemma {:induction false} LongPongDiffers(p: Bytes, rest: Bytes)
    requires |p| > 65535
    ensures ParseFrame(Pong(p) + rest) != Frame(0x0A, p, rest)
  {
    var s := Pong(p) + rest;
    assert s[0] == 0x8A && s[1] == 126;
    PowWidths();
    assert GetUint(s[2..][..2]) < 0x1_0000;
  }

  /** A pong is a well-formed frame that carries the ping's payload back exactly up to 65535 bytes; the RFC allows 125. */
  lemma {:induction false} PongEchoesIff(p: Bytes, rest: Bytes)
    ensures ParseFrame(Pong(p) + rest) == Frame(0x0A, p, rest) <==> |p| <= 65535
  {
    if |p| <= 65535 {
      PongIsFrame(p);
      FrameRoundTrip(WsFrame(0x8A, None, if |p| <= 125 then 0 else 2, p), rest);
    } else {
      LongPongDiffers(p, rest);
    }
  }

  // ----- Read -----

  /** A connection: bytes still to come, the buffered rest of a payload, and the writes made on the socket. */
  datatype Ws = Ws(input: Bytes, readBuf: Bytes, output: seq<Bytes>)

  /** A failed Read also leaves a connection behind: the pings it got past have been answered. Its input starts at the
      frame that could not be read. */
  datatype ReadResult = Got(data: Bytes, ws: Ws) | Failed(error: WsError, ws: Ws)

  function Take(ws: Ws, capacity: nat): (r: ReadResult) {
    var n := if capacity < |ws.readBuf| then capacity else |ws.readBuf|;
    Got(ws.readBuf[..n], ws.(readBuf := ws.readBuf[n..]))
  }

  /** wsConn.Read with a caller buffer of `capacity` bytes. */
  function Read(ws: Ws, capacity: nat): (r: ReadResult)
    decreases |ws.input|
  {
    if ws.readBuf != [] then Take(ws, capacity)
    else match ParseFrame(ws.input)
      case Bad(e) => Failed(e, ws)
      case Closed => Failed(Eof, ws)
      case Frame(op, payload, rest) =>
        if op == OP_PING then Read(ws.(input := rest, output := ws.output + [Pong(payload)]), capacity)
        else if DataOpcode(op) then Take(ws.(input := rest, readBuf := payload), capacity)
        else Read(ws.(input := rest), capacity)
  }

  /** The bytes a caller has not been given yet. */
  function Pending(ws: Ws, fs: seq<WsFrame>): (s: Bytes) {
    ws.readBuf + DataOf(fs)
  }

  /** What a single Read does to a connection that still has the frames fs to come: it consumes the first k of them. */
  predicate ReadsFrames(ws: Ws, fs: seq<WsFrame>, capacity: nat, k: nat, r: ReadResult)
    requires AllWellFormed(fs)
  {
    && k <= |fs|
    && r.ws.input == PrintAll(fs[k..])
    && r.ws.output == ws.output + PongsFor(fs[..k])
    && match r
       case Got(data, ws') => |data| <= capacity && data + Pending(ws', fs[k..]) == Pending(ws, fs)
       case Failed(e, ws') => e == Eof && k == |fs| && ws'.readBuf == [] && Pending(ws, fs) == []
  }

  lemma {:induction false} ReadPastControl(ws: Ws, fs: seq<WsFrame>, capacity: nat)
    requires AllWellFormed(fs) && fs != [] && ws.input == PrintAll(fs) && ws.readBuf == []
    requires !DataOpcode(Opcode(fs[0]))
    ensures Read(ws, capacity) == Read(Skipped(ws, fs), capacity)
  {
    FrameRoundTrip(fs[0], PrintAll(fs[1..]));
    if Opcode(fs[0]) != OP_PING {
      assert ws.output + [] == ws.output;
    }
  }

  /** Reading past a frame that carries no data: a ping is answered, anything else is skipped. */
  lemma {:induction false} ReadSkips(ws: Ws, fs: seq<WsFrame>, capacity: nat, k: nat, r: ReadResult)
    requires AllWellFormed(fs) && fs != [] && ws.input == PrintAll(fs) && ws.readBuf == []
    requires !DataOpcode(Opcode(fs[0]))
    requires ReadsFrames(Skipped(ws, fs), fs[1..], capacity, k, r)
    ensures ReadsFrames(ws, fs, capacity, k + 1, r)
  {
    assert fs[k + 1..] == fs[1..][k..];
    assert DataOf(fs) == [] + DataOf(fs[1..]) == DataOf(fs[1..]);
    assert fs[..k + 1][0] == fs[0] && fs[..k + 1][1..] == fs[1..][..k];
    assert PongsFor(fs[..k + 1]) == Reply(fs[0]) + PongsFor(fs[1..][..k]);
    Glue(ws.output, Reply(fs[0]), PongsFor(fs[1..][..k]), PongsFor(fs[..k + 1]), ws.output + PongsFor(fs[..k + 1]));
  }

  function Skipped(ws: Ws, fs: seq<WsFrame>): (r: Ws)
    requires AllWellFormed(fs) && fs != []
    ensures r.input == PrintAll(fs[1..])
  {
    ws.(input := PrintAll(fs[1..]), output := ws.output + Reply(fs[0]))
  }

  lemma {:induction false} TakePending(ws: Ws, fs: seq<WsFrame>, capacity: nat)
    ensures var r := Take(ws, capacity); |r.data| <= capacity && r.data + Pending(r.ws, fs) == Pending(ws, fs)
  {
    var r := Take(ws, capacity);
    Assoc3(r.data, r.ws.readBuf, DataOf(fs));
    assert r.data + r.ws.readBuf == ws.readBuf;
  }

  /** An empty buffer is refilled with the next data payload: nothing pending is lost. */
  lemma {:induction false} RefillPending(ws: Ws, ws1: Ws, fs: seq<WsFrame>)
    requires fs != [] && DataOpcode(Opcode(fs[0])) && ws.readBuf == [] && ws1.readBuf == fs[0].payload
    ensures Pending(ws1, fs[1..]) == Pending(ws, fs)
  {
    assert [] + DataOf(fs) == DataOf(fs);
  }

  lemma {:induction false} ReadTakesData(ws: Ws, fs: seq<WsFrame>, capacity: nat)
    requires AllWellFormed(fs) && fs != [] && ws.input == PrintAll(fs) && ws.readBuf == []
    requires DataOpcode(Opcode(fs[0]))
    ensures ReadsFrames(ws, fs, capacity, 1, Read(ws, capacity))
  {
    FrameRoundTrip(fs[0], PrintAll(fs[1..]));
    var ws1 := ws.(input := PrintAll(fs[1..]), readBuf := fs[0].payload);
    assert Read(ws, capacity) == Take(ws1, capacity);
    RefillPending(ws, ws1, fs);
    TakePending(ws1, fs[1..], capacity);
    assert PongsFor(fs[..1]) == [] by {
      assert fs[..1][1..] == [];
    }
  }

  lemma {:induction false} ReadStep(ws: Ws, fs: seq<WsFrame>, capacity: nat) returns (k: nat)
    requires AllWellFormed(fs) && ws.input == PrintAll(fs)
    ensures ReadsFrames(ws, fs, capacity, k, Read(ws, capacity))
    decreases |fs|
  {
    k := 0;
    if ws.readBuf != [] {
      assert fs[0..] == fs;
      TakePending(ws, fs, capacity);
    } else if fs != [] {
      if DataOpcode(Opcode(fs[0])) {
        ReadTakesData(ws, fs, capacity);
        k := 1;
      } else {
        k := ReadStep(Skipped(ws, fs), fs[1..], capacity);
        ReadPastControl(ws, fs, capacity);
        ReadSkips(ws, fs, capacity, k, Read(ws, capacity));
        k := k + 1;
      }
    }
  }

  /** Any number of Reads with any buffer sizes, stopping at the first error. */
  datatype Session = Session(got: Bytes, ws: Ws, error: Option<WsError>)

  function ReadMany(ws: Ws, capacities: seq<nat>): (r: Session)
    decreases |capacities|
  {
    if capacities == [] then Session([], ws, None)
    else match Read(ws, capacities[0])
      case Failed(e, ws') => Session([], ws', Some(e))
      case Got(data, ws') =>
        var r := ReadMany(ws', capacities[1..]);
        r.(got := data + r.got)
  }

  /** For any stream of well-formed frames and any sequence of buffer sizes: the bytes returned so far are a prefix of the
      data payloads in order, the rest is still to come, each ping consumed got exactly one pong, and the stream only
      reports its end when everything has been returned and every ping answered. */
  lemma {:induction false} ReadsArePrefix(ws: Ws, fs: seq<WsFrame>, capacities: seq<nat>) returns (k: nat)
    requires AllWellFormed(fs) && ws.input == PrintAll(fs)
    ensures ReadsConsume(ws, fs, ReadMany(ws, capacities), k)
    decreases |capacities|, 1
  {
    k := 0;
    if capacities == [] {
      ConsumeNone(ws, fs);
    } else {
      var k1, first := ReadManyStep(ws, fs, capacities);
      k := k1;
      if first.Got? {
        k := ReadMore(ws, fs, capacities, k1, first);
      } else {
        ConsumeEnd(ws, fs, capacities[0], k, first);
      }
    }
  }

  lemma {:induction false} ReadMore(ws: Ws, fs: seq<WsFrame>, capacities: seq<nat>, k1: nat, first: ReadResult) returns (k: nat)
    requires AllWellFormed(fs) && capacities != [] && ReadsFrames(ws, fs, capacities[0], k1, first) && first.Got?
    ensures var rest := ReadMany(first.ws, capacities[1..]); ReadsConsume(ws, fs, rest.(got := first.data + rest.got), k)
    decreases |capacities|, 0
  {
    var k2 := ReadsArePrefix(first.ws, fs[k1..], capacities[1..]);
    k := k1 + k2;
    ConsumeRead(ws, fs, capacities[0], k1, first, ReadMany(first.ws, capacities[1..]), k2);
  }

  lemma {:induction false} ReadManyStep(ws: Ws, fs: seq<WsFrame>, capacities: seq<nat>) returns (k: nat, first: ReadResult)
    requires AllWellFormed(fs) && ws.input == PrintAll(fs) && capacities != []
    ensures ReadsFrames(ws, fs, capacities[0], k, first)
    ensures ReadMany(ws, capacities) == match first
      case Failed(e, ws') => Session([], ws', Some(e))
      case Got(data, ws') => var r := ReadMany(ws', capacities[1..]); r.(got := data + r.got)
  {
    first := Read(ws, capacities[0]);
    k := ReadStep(ws, fs, capacities[0]);
  }

  lemma {:induction false} ConsumeRead(ws: Ws, fs: seq<WsFrame>, capacity: nat, k1: nat, first: ReadResult, rest: Session, k2: nat)
    requires AllWellFormed(fs) && ReadsFrames(ws, fs, capacity, k1, first) && first.Got?
    requires ReadsConsume(first.ws, fs[k1..], rest, k2)
    ensures ReadsConsume(ws, fs, rest.(got := first.data + rest.got), k1 + k2)
  {
    ConsumeMore(ws, first.ws, fs, first.data, rest, k1, k2);
  }

  /** The state of a session that has consumed k frames. */
  predicate ReadsConsume(ws: Ws, fs: seq<WsFrame>, r: Session, k: nat)
    requires AllWellFormed(fs)
  {
    && k <= |fs|
    && r.ws.input == PrintAll(fs[k..])
    && r.got + Pending(r.ws, fs[k..]) == Pending(ws, fs)
    && r.ws.output == ws.output + PongsFor(fs[..k])
    && (r.error.Some? ==> r.error == Some(Eof) && r.got == Pending(ws, fs) && k == |fs|)
  }

  lemma {:induction false} ConsumeNone(ws: Ws, fs: seq<WsFrame>)
    requires AllWellFormed(fs) && ws.input == PrintAll(fs)
    ensures ReadsConsume(ws, fs, Session([], ws, None), 0)
  {
    assert fs[0..] == fs && fs[..0] == [];
  }

  lemma {:induction false} ConsumeEnd(ws: Ws, fs: seq<WsFrame>, capacity: nat, k: nat, r: ReadResult)
    requires AllWellFormed(fs) && ReadsFrames(ws, fs, capacity, k, r) && r.Failed?
    ensures ReadsConsume(ws, fs, Session([], r.ws, Some(r.error)), k)
  {
    assert fs[k..] == [];
  }

  lemma {:induction false} ConsumeMore(ws: Ws, ws': Ws, fs: seq<WsFrame>, data: Bytes, r: Session, k1: nat, k2: nat)
    requires AllWellFormed(fs) && k1 <= |fs|
    requires data + Pending(ws', fs[k1..]) == Pending(ws, fs)
    requires ws'.output == ws.output + PongsFor(fs[..k1])
    requires ReadsConsume(ws', fs[k1..], r, k2)
    ensures ReadsConsume(ws, fs, r.(got := data + r.got), k1 + k2)
  {
    var k := k1 + k2;
    assert fs[k..] == fs[k1..][k2..];
    Glue(data, r.got, Pending(r.ws, fs[k..]), Pending(ws', fs[k1..]), Pending(ws, fs));
    PongsSplit(fs, k1, k2);
    Glue(ws.output, PongsFor(fs[..k1]), PongsFor(fs[k1..][..k2]), PongsFor(fs[..k]), ws.output + PongsFor(fs[..k]));
  }

  lemma {:induction false} Glue<T>(first: seq<T>, more: seq<T>, left: seq<T>, before: seq<T>, all: seq<T>)
    requires more + left == before && first + before == all
    ensures first + more + left == all
    ensures more == before ==> first + more == all
  {
  }

  lemma {:induction false} PongsSplit(fs: seq<WsFrame>, k1: nat, k2: nat)
    requires k1 + k2 <= |fs|
    ensures PongsFor(fs[..k1]) + PongsFor(fs[k1..][..k2]) == PongsFor(fs[..k1 + k2])
  {
    PongsConcat(fs[..k1], fs[k1..][..k2]);
    assert fs[..k1 + k2] == fs[..k1] + fs[k1..][..k2];
  }

  lemma {:induction false} PongsConcat(a: seq<WsFrame>, b: seq<WsFrame>)
    ensures PongsFor(a + b) == PongsFor(a) + PongsFor(b)
  {
    if a == [] {
      assert a + b == b;
    } else {
      PongsConcat(a[1..], b);
      assert (a + b)[0] == a[0] && (a + b)[1..] == a[1..] + b;
      Assoc3(Reply(a[0]), PongsFor(a[1..]), PongsFor(b));
    }
  }

  // ----- Write -----

  function Written(p: Bytes): (s: Bytes) {
    [0x82] + (if |p| <= 125 then [|p|] else if |p| <= 65535 then [126] + PutUint(|p|, 2) else [127] + PutUint(|p|, 8)) + p
  }

  function Binary(p: Bytes): (f: WsFrame) {
    WsFrame(0x82, None, if |p| <= 125 then 0 else if |p| <= 65535 then 2 else 8, p)
  }

  lemma {:induction false} WrittenIsFrame(p: Bytes)
    requires |p| <= MAX_FRAME
    ensures WellFormed(Binary(p)) && Written(p) == Print(Binary(p))
  {
    assert PutUint(|p|, 0) == [];
  }

  /** What goes out: a final binary frame, unmasked, its length in the shortest of the three forms, the data last. A pong
      is a final frame with opcode 10. */
  lemma {:induction false} WrittenOctets(p: Bytes)
    ensures var s := Written(p);
      && s[0] == 0x82 && s[1] == (if |p| <= 125 then |p| else if |p| <= 65535 then 126 else 127)
      && |s| == |p| + (if |p| <= 125 then 2 else if |p| <= 65535 then 4 else 10) && s[|s| - |p|..] == p
      && (|p| > 125 ==> s[2..|s| - |p|] == PutUint(|p|, |s| - |p| - 2))
    ensures Pong(p)[0] == 0x8A && Pong(p)[|Pong(p)| - |p|..] == p
  {
    var s := Written(p);
    assert s[|s| - |p|..] == p;
    assert |p| > 125 ==> s[2..|s| - |p|] == PutUint(|p|, |s| - |p| - 2);
    assert Pong(p)[|Pong(p)| - |p|..] == p;
  }

  /** Reading undoes writing across the 125/126 and 65535/65536 boundaries, up to exactly 64 MB. */
  lemma {:induction false} ReadUndoesWriteIff(p: Bytes, rest: Bytes)
    ensures ParseFrame(Written(p) + rest) == Frame(0x02, p, rest) <==> |p| <= MAX_FRAME
  {
    if |p| <= MAX_FRAME {
      WrittenIsFrame(p);
      FrameRoundTrip(Binary(p), rest);
    } else {
      var s := Written(p) + rest;
      assert s[0] == 0x82 && s[1] == 127;
      assert s[2..] == PutUint(|p|, 8) + (p + rest);
      assert (PutUint(|p|, 8) + (p + rest))[..8] == PutUint(|p|, 8);
      var len := GetUint(PutUint(|p|, 8));
      if len <= MAX_FRAME {
        assert len != |p|;
      }
    }
  }

  function WrittenAll(ps: seq<Bytes>): (s: Bytes) {
    if ps == [] then [] else Written(ps[0]) + WrittenAll(ps[1..])
  }

  function Concat(ps: seq<Bytes>): (s: Bytes) {
    if ps == [] then [] else ps[0] + Concat(ps[1..])
  }

  lemma {:induction false} WritesAreFrames(ps: seq<Bytes>) returns (fs: seq<WsFrame>)
    requires forall i :: 0 <= i < |ps| ==> |ps[i]| <= MAX_FRAME
    ensures AllWellFormed(fs) && PrintAll(fs) == WrittenAll(ps) && DataOf(fs) == Concat(ps) && PongsFor(fs) == []
  {
    if ps == [] {
      fs := [];
    } else {
      var tail := WritesAreFrames(ps[1..]);
      WrittenIsFrame(ps[0]);
      fs := [Binary(ps[0])] + tail;
      DataFrameFirst(Binary(ps[0]), tail);
    }
  }

  lemma {:induction false} DataFrameFirst(f: WsFrame, tail: seq<WsFrame>)
    requires WellFormed(f) && AllWellFormed(tail) && DataOpcode(Opcode(f))
    ensures AllWellFormed([f] + tail) && PrintAll([f] + tail) == Print(f) + PrintAll(tail)
    ensures DataOf([f] + tail) == f.payload + DataOf(tail) && PongsFor([f] + tail) == PongsFor(tail)
  {
    var fs := [f] + tail;
    assert fs[0] == f && fs[1..] == tail;
    assert [] + PongsFor(tail) == PongsFor(tail);
  }

  lemma {:induction false} PrefixOf(got: Bytes, left: Bytes, none: Bytes, all: Bytes)
    requires none == [] && got + left == none + all
    ensures got <= all && none + all == all
  {
    assert none + all == all;
  }

  lemma {:induction false} NoPongs(fs: seq<WsFrame>, k: nat)
    requires k <= |fs| && PongsFor(fs) == []
    ensures PongsFor(fs[..k]) == []
  {
    PongsConcat(fs[..k], fs[k..]);
    assert fs[..k] + fs[k..] == fs;
  }

  /** Whatever was written in whatever pieces, reads of whatever sizes return its bytes in order and answer nothing. */
  lemma {:induction false} ReadsUndoWrites(ps: seq<Bytes>, capacities: seq<nat>)
    requires forall i :: 0 <= i < |ps| ==> |ps[i]| <= MAX_FRAME
    ensures var r := ReadMany(Ws(WrittenAll(ps), [], []), capacities);
      && r.got <= Concat(ps)
      && (r.error.Some? ==> r.got == Concat(ps))
      && r.ws.output == []
  {
    var fs := WritesAreFrames(ps);
    var ws := Ws(WrittenAll(ps), [], []);
    var k := ReadsArePrefix(ws, fs, capacities);
    var r := ReadMany(ws, capacities);
    PrefixOf(r.got, Pending(r.ws, fs[k..]), [], Concat(ps));
    NoPongs(fs, k);
  }

  // ----- the object -----

  /** The unmasking loop of Read. */
  method Unmask(a: array<byte>, key: Bytes)
    requires |key| == 4
    modifies a
    ensures a[..] == Masked(old(a[..]), key)
    ensures forall i :: 0 <= i < a.Length ==> IsXor(a[i], old(a[i]), key[i % 4])
  {
    for i := 0 to a.Length
      invariant forall j :: 0 <= j < i ==> a[j] == Xor(old(a[j]), key[j % 4])
      invariant forall j :: i <= j < a.Length ==> a[j] == old(a[j])
    {
      a[i] := Xor(a[i], key[i % 4]);
    }
    forall i | 0 <= i < a.Length
      ensures IsXor(a[i], old(a[i]), key[i % 4])
    {
      XorIsXor(old(a[i]), key[i % 4]);
    }
  }

  class WsConn {
    var input: Bytes
    var readBuf: Bytes
    var output: seq<Bytes>

    function View(): Ws
      reads this
    {
      Ws(input, readBuf, output)
    }

    constructor (incoming: Bytes)
      ensures View() == Ws(incoming, [], [])
    {
      input, readBuf, output := incoming, [], [];
    }

    /** io.ReadFull on the buffered reader. */
    method ReadFull(n: nat) returns (b: Bytes, err: Option<WsError>)
      modifies this`input
      ensures err == if |old(input)| < n then Some(ShortRead(|old(input)|)) else None
      ensures err.None? ==> b == old(input)[..n] && input == old(input)[n..]
    {
      if |input| < n {
        return [], Some(ShortRead(|input|));
      }
      b, err := input[..n], None;
      input := input[n..];
    }

    method ReadPayload(opcode: nat, masked: bool, len: nat) returns (r: Parsed)
      modifies this`input
      ensures r == ParsePayload(opcode, masked, len, old(input))
      ensures r.Frame? ==> input == r.rest
    {
      var maskKey: Bytes, err: Option<WsError> := [], None;
      if masked {
        maskKey, err := ReadFull(4);
        if err.Some? {
          return Bad(err.value);
        }
      }
      var raw;
      raw, err := ReadFull(len);
      if err.Some? {
        return Bad(err.value);
      }
      if masked {
        var payload := new byte[|raw|](i requires 0 <= i < |raw| => raw[i]);
        assert payload[..] == raw;
        Unmask(payload, maskKey);
        raw := payload[..];
      }
      r := Frame(opcode, raw, input);
    }

    method NextFrame() returns (r: Parsed)
      modifies this`input
      ensures r == ParseFrame(old(input))
      ensures r.Frame? ==> input == r.rest
    {
      var header, err := ReadFull(1);
      if err.Some? {
        return Bad(Eof);
      }
      var opcode := header[0] % 16;
      if opcode == OP_CLOSE {
        return Closed;
      }
      var lenByte;
      lenByte, err := ReadFull(1);
      if err.Some? {
        return Bad(Eof);
      }
      assert input == old(input)[2..];
      var masked, payloadLen := lenByte[0] >= 128, lenByte[0] % 128;
      if payloadLen == 126 || payloadLen == 127 {
        var width := if payloadLen == 126 then 2 else 8;
        var l;
        l, err := ReadFull(width);
        if err.Some? {
          return Bad(err.value);
        }
        payloadLen := GetUint(l);
        if width == 8 && payloadLen > MAX_FRAME {
          return Bad(FrameTooLarge);
        }
      } else {
        assert input[0..] == input;
      }
      r := ReadPayload(opcode, masked, payloadLen);
    }

    method SendPong(payload: Bytes)
      modifies this`output
      ensures output == old(output) + [Pong(payload)]
    {
      var pong: Bytes := [0x8A];
      if |payload| <= 125 {
        pong := pong + [|payload|];
      } else {
        pong := pong + [126, |payload| / 256 % 256, |payload| % 256];
      }
      pong := pong + payload;
      output := output + [pong];
    }

    /** The loop of Read: frames are consumed until a data frame fills the buffer. */
    method FillBuffer(ghost capacity: nat) returns (err: Option<WsError>)
      modifies this
      ensures match Read(old(View()), capacity)
        case Got(_, _) => err == None && Take(View(), capacity) == Read(old(View()), capacity)
        case Failed(e, ws) => err == Some(e) && readBuf == ws.readBuf && output == ws.output
    {
      err := None;
      while |readBuf| == 0
        invariant Read(View(), capacity) == Read(old(View()), capacity)
        decreases |input|
      {
        var f := NextFrame();
        match f {
          case Bad(e) => return Some(e);
          case Closed => return Some(Eof);
          case Frame(opcode, payload, _) =>
            if opcode == OP_PING {
              SendPong(payload);
            } else if DataOpcode(opcode) {
              readBuf := payload;
              return None;
            }
        }
      }
    }

    /** Read into a caller's buffer. Only the first n bytes of the buffer are written. On an error the pings that came
        before it have been answered; what is left of the broken frame in the input is not described. */
    method ReadInto(p: array<byte>) returns (n: nat, err: Option<WsError>)
      modifies this, p
      ensures match Read(old(View()), p.Length)
        case Got(data, ws) =>
          err == None && n == |data| <= p.Length && p[..n] == data && p[n..] == old(p[..])[n..] && View() == ws
        case Failed(e, ws) =>
          err == Some(e) && n == 0 && p[..] == old(p[..]) && readBuf == ws.readBuf && output == ws.output
    {
      err := FillBuffer(p.Length);
      if err.Some? {
        return 0, err;
      }
      n := TakeInto(p);
    }

    /** The copy at the end of Read. */
    method TakeInto(p: array<byte>) returns (n: nat)
      modifies this`readBuf, p
      ensures n <= p.Length && n <= |old(readBuf)| && (n == p.Length || n == |old(readBuf)|)
      ensures p[..n] == old(readBuf)[..n] && p[n..] == old(p[..])[n..] && readBuf == old(readBuf)[n..]
    {
      n := if p.Length < |readBuf| then p.Length else |readBuf|;
      for i := 0 to n
        modifies p
        invariant forall j :: 0 <= j < i ==> p[j] == readBuf[j]
        invariant forall j :: i <= j < p.Length ==> p[j] == old(p[j])
      {
        p[i] := readBuf[i];
      }
      readBuf := readBuf[n..];
    }

    /** Write as one binary frame. `up` is the outcome of the write on the socket. */
    method Write(p: Bytes, up: bool) returns (n: nat, ok: bool)
      modifies this`output
      ensures ok == up && n == (if ok then |p| else 0)
      ensures output == old(output) + (if ok then [Written(p)] else [])
    {
      var frame: Bytes := [0x82];
      if |p| <= 125 {
        frame := frame + [|p|];
      } else if |p| <= 65535 {
        frame := frame + [126];
        frame := frame + PutUint(|p|, 2);
      } else {
        frame := frame + [127];
        frame := frame + PutUint(|p|, 8);
      }
      frame := frame + p;
      assert frame == Written(p);
      if !up {
        return 0, false;
      }
      output := output + [frame];
      return |p|, true;
    }
  }
}
