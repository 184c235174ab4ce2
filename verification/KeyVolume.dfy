/** How much a publisher seals under one key (pkg/feed/publisher.go, the byte threshold of PublishPayload). */
module KeyVolume {
  import opened ByteStrings
  import opened Primitives
  import opened SealedFrames
  import opened Endpoints

  datatype Call = PublishCall(payload: Bytes, salt: Nonce, now: int) | RekeyCall(salt: Nonce, now: int)

  /** The publisher, and what has been published live under its current key: the lengths of the payloads, in order. */
  datatype Epoch = Epoch(pub: Publisher, lengths: seq<nat>)

  function Sum(ns: seq<nat>): (r: nat) {
    if ns == [] then 0 else Sum(ns[..|ns| - 1]) + ns[|ns| - 1]
  }

  function Published(e: Epoch, pub: Publisher, rekeyed: bool, len: nat): (r: Epoch) {
    Epoch(pub, (if rekeyed then [] else e.lengths) + [len])
  }

  /** Calls on a healthy connection: every rekey frame is written. */
  function Next(c: Suite, e: Epoch, a: Call): (r: Epoch) {
    match a
    case PublishCall(payload, salt, now) =>
      Published(e, Publish(c, e.pub, payload, salt, now, true, true).pub, ShouldRekey(Counted(e.pub, payload), now), |payload|)
    case RekeyCall(salt, now) => Epoch(Rekey(c, e.pub, salt, now, true).pub, [])
  }

  /** The 64-bit byte counter does not wrap between two rekeys. Lengths are below 2^63 in Go, limits are free. */
  predicate NoWrap(limit: nat, a: Call) {
    a.PublishCall? ==> limit + |a.payload| <= TWO_64
  }

  function RunCalls(c: Suite, e: Epoch, calls: seq<Call>): (r: Epoch)
    decreases |calls|
  {
    if calls == [] then e else RunCalls(c, Next(c, e, calls[0]), calls[1..])
  }

  /** The counter misses at most the first payload of the epoch: the one whose publication caused the rekey. */
  predicate CounterOk(e: Epoch) {
    && e.pub.connected && e.pub.cipherKey.Some? && e.pub.bytesSinceRekey < e.pub.byteLimit
    && (|| Sum(e.lengths) == e.pub.bytesSinceRekey
        || (e.lengths != [] && Sum(e.lengths) == e.pub.bytesSinceRekey + e.lengths[0]))
  }

  lemma {:induction false} SumSnoc(ns: seq<nat>, n: nat)
    ensures Sum(ns + [n]) == Sum(ns) + n
  {
    assert (ns + [n])[..|ns + [n]| - 1] == ns;
  }

  lemma {:induction false} RekeySucceeds(c: Suite, p: Publisher, salt: Nonce, now: int)
    requires p.connected && p.cipherKey.Some?
    ensures var o := Rekey(c, p, salt, now, true);
      && o.ok && o.pub.bytesSinceRekey == 0 && o.pub.connected && o.pub.cipherKey.Some?
      && o.pub.byteLimit == p.byteLimit && o.pub.timeLimit == p.timeLimit
  {
    assert |RekeyFrame(c, p.cipherKey.value, p.sid, NextSeq(p.seqCounter), salt).payload| == 36;
  }

  lemma {:induction false} EmitKeepsCounter(c: Suite, p: Publisher, payload: Bytes, up: bool)
    ensures var q := Emit(c, p, payload, up).pub;
      && q.bytesSinceRekey == p.bytesSinceRekey && q.byteLimit == p.byteLimit
      && q.connected == p.connected && q.cipherKey == p.cipherKey && q.timeLimit == p.timeLimit
  {
  }

  /** What a publication does to the counter. */
  lemma {:induction false} PublishCounter(c: Suite, p: Publisher, payload: Bytes, salt: Nonce, now: int)
    requires p.connected && p.cipherKey.Some?
    ensures var q := Publish(c, p, payload, salt, now, true, true).pub;
      var p1 := Counted(p, payload);
      && q.connected && q.cipherKey.Some? && q.byteLimit == p.byteLimit && q.timeLimit == p.timeLimit
      && q.bytesSinceRekey == (if ShouldRekey(p1, now) then 0 else p1.bytesSinceRekey)
  {
    var p1 := Counted(p, payload);
    if ShouldRekey(p1, now) {
      RekeySucceeds(c, p1, salt, now);
      EmitKeepsCounter(c, Rekey(c, p1, salt, now, true).pub, payload, true);
    } else {
      EmitKeepsCounter(c, p1, payload, true);
    }
  }

  lemma {:induction false} PublishedOk(e: Epoch, pub: Publisher, rekeyed: bool, len: nat)
    requires CounterOk(e) && pub.connected && pub.cipherKey.Some? && pub.byteLimit == e.pub.byteLimit
    requires pub.bytesSinceRekey == if rekeyed then 0 else e.pub.bytesSinceRekey + len
    requires pub.bytesSinceRekey < pub.byteLimit
    ensures CounterOk(Published(e, pub, rekeyed, len))
  {
    SumSnoc([], len);
    assert [] + [len] == [len];
    SumSnoc(e.lengths, len);
  }

  lemma {:induction false} NextCounterOk(c: Suite, e: Epoch, a: Call)
    requires CounterOk(e) && NoWrap(e.pub.byteLimit, a)
    ensures CounterOk(Next(c, e, a)) && Next(c, e, a).pub.byteLimit == e.pub.byteLimit
  {
    match a {
      case PublishCall(payload, salt, now) =>
        PublishCounter(c, e.pub, payload, salt, now);
        PublishedOk(e, Publish(c, e.pub, payload, salt, now, true, true).pub, ShouldRekey(Counted(e.pub, payload), now), |payload|);
      case RekeyCall(salt, now) =>
        RekeySucceeds(c, e.pub, salt, now);
    }
  }

  /** Over any run of calls with a positive limit, the bytes published under the current key stay below the limit plus
      the length of that key's first payload. */
  lemma {:induction false} VolumeBound(c: Suite, e: Epoch, calls: seq<Call>)
    requires e.pub.connected && e.pub.cipherKey.Some? && e.pub.bytesSinceRekey == 0 && e.lengths == []
    requires e.pub.byteLimit > 0 && forall i :: 0 <= i < |calls| ==> NoWrap(e.pub.byteLimit, calls[i])
    ensures var r := RunCalls(c, e, calls);
      Sum(r.lengths) < e.pub.byteLimit + (if r.lengths == [] then 0 else r.lengths[0])
  {
    RunCounterOk(c, e, calls);
  }

  lemma {:induction false} RunCounterOk(c: Suite, e: Epoch, calls: seq<Call>)
    requires CounterOk(e) && forall i :: 0 <= i < |calls| ==> NoWrap(e.pub.byteLimit, calls[i])
    ensures CounterOk(RunCalls(c, e, calls)) && RunCalls(c, e, calls).pub.byteLimit == e.pub.byteLimit
    decreases |calls|
  {
    if calls != [] {
      NextCounterOk(c, e, calls[0]);
      RunCounterOk(c, Next(c, e, calls[0]), calls[1..]);
    }
  }

  /** The bound is attained: a payload that triggers a rekey is sealed under the new key without being counted there. */
  lemma {:induction false} BoundIsTight(c: Suite, p: Publisher, first: Bytes, second: Bytes, salt: Nonce)
    requires p.connected && p.cipherKey.Some? && p.bytesSinceRekey == 0 && p.timeLimit == 0
    requires 1 < p.byteLimit <= |first| && |first| < TWO_64 && |second| == p.byteLimit - 1
    ensures var r := RunCalls(c, Epoch(p, []), [PublishCall(first, salt, 0), PublishCall(second, salt, 0)]);
      r.lengths == [|first|, |second|] && Sum(r.lengths) == p.byteLimit - 1 + r.lengths[0]
  {
    var e0 := Epoch(p, []);
    var a, b := PublishCall(first, salt, 0), PublishCall(second, salt, 0);
    TwoCalls(c, e0, a, b);
    PublishLengths(c, e0, first, salt);
    PublishLengths(c, Next(c, e0, a), second, salt);
    SumOfTwo(|first|, |second|);
  }

  lemma {:induction false} PublishLengths(c: Suite, e: Epoch, payload: Bytes, salt: Nonce)
    requires e.pub.connected && e.pub.cipherKey.Some? && e.pub.bytesSinceRekey == 0 && e.pub.timeLimit == 0
    requires 1 < e.pub.byteLimit && |payload| < TWO_64
    ensures var r := Next(c, e, PublishCall(payload, salt, 0));
      && r.pub.connected && r.pub.cipherKey.Some? && r.pub.timeLimit == 0 && r.pub.byteLimit == e.pub.byteLimit
      && (|payload| >= e.pub.byteLimit ==> r.pub.bytesSinceRekey == 0 && r.lengths == [|payload|])
      && (|payload| < e.pub.byteLimit ==> r.lengths == e.lengths + [|payload|])
  {
    PublishCounter(c, e.pub, payload, salt, 0);
    assert Counted(e.pub, payload).bytesSinceRekey == |payload|;
    assert [] + [|payload|] == [|payload|];
  }

  lemma {:induction false} TwoCalls(c: Suite, e: Epoch, a: Call, b: Call)
    ensures RunCalls(c, e, [a, b]) == Next(c, Next(c, e, a), b)
  {
    assert [a, b][1..] == [b] && [b][1..] == [];
    assert RunCalls(c, Next(c, e, a), [b]) == RunCalls(c, Next(c, Next(c, e, a), b), []);
  }

  lemma {:induction false} SumOfTwo(m: nat, n: nat)
    ensures [m] + [n] == [m, n] && Sum([m, n]) == m + n
  {
    SumSnoc([], m);
    assert [] + [m] == [m];
    SumSnoc([m], n);
    assert [m] + [n] == [m, n];
  }

  // ----- where the bound ends -----

  /** The bytes published under the current key are fewer than the limit plus the key's first payload. */
  predicate Bounded(e: Epoch, limit: nat) {
    Sum(e.lengths) < limit + (if e.lengths == [] then 0 else e.lengths[0])
  }

  /** No payload is longer than this. */
  predicate Within(calls: seq<Call>, longest: nat) {
    forall i :: 0 <= i < |calls| ==> (calls[i].PublishCall? ==> |calls[i].payload| <= longest)
  }

  function Ones(k: nat): (ns: seq<nat>)
    ensures |ns| == k
  {
    seq(k, _ => 1)
  }

  /** k payloads of one byte, published before any time limit can strike. */
  function Drips(k: nat, now: int): (calls: seq<Call>)
    ensures |calls| == k && Within(calls, 1)
  {
    seq(k, _ => PublishCall([0], Zeros(12), now))
  }

  predicate Fresh(e: Epoch) {
    e.pub.connected && e.pub.cipherKey.Some? && e.pub.bytesSinceRekey == 0 && e.lengths == [] && 0 < e.pub.byteLimit < TWO_64
  }

  /** A publication that does not reach a limit only counts. */
  lemma {:induction false} Counts(c: Suite, e: Epoch, payload: Bytes, salt: Nonce)
    requires e.pub.connected && e.pub.cipherKey.Some? && (e.pub.bytesSinceRekey + |payload|) % TWO_64 < e.pub.byteLimit
    ensures var r := Next(c, e, PublishCall(payload, salt, e.pub.lastRekey));
      && r.pub.connected && r.pub.cipherKey.Some? && r.pub.byteLimit == e.pub.byteLimit && r.pub.lastRekey == e.pub.lastRekey
      && r.pub.bytesSinceRekey == (e.pub.bytesSinceRekey + |payload|) % TWO_64
      && r.lengths == e.lengths + [|payload|]
  {
    PublishCounter(c, e.pub, payload, salt, e.pub.lastRekey);
    assert !ShouldRekey(Counted(e.pub, payload), e.pub.lastRekey);
  }

  /** From e to r exactly n bytes were counted, in payloads of these lengths, and nothing else of interest changed. */
  predicate Drifted(e: Epoch, r: Epoch, n: nat, lengths: seq<nat>) {
    && r.pub.connected && r.pub.cipherKey.Some? && r.pub.byteLimit == e.pub.byteLimit && r.pub.lastRekey == e.pub.lastRekey
    && r.pub.bytesSinceRekey == e.pub.bytesSinceRekey + n && r.lengths == e.lengths + lengths
  }

  lemma {:induction false} DripOne(c: Suite, e: Epoch, rest: seq<Call>) returns (e1: Epoch)
    requires e.pub.connected && e.pub.cipherKey.Some? && e.pub.bytesSinceRekey + 1 < e.pub.byteLimit < TWO_64
    ensures Drifted(e, e1, 1, [1])
    ensures RunCalls(c, e, [PublishCall([0], Zeros(12), e.pub.lastRekey)] + rest) == RunCalls(c, e1, rest)
  {
    var a := PublishCall([0], Zeros(12), e.pub.lastRekey);
    Counts(c, e, [0], Zeros(12));
    e1 := Next(c, e, a);
    assert ([a] + rest)[0] == a && ([a] + rest)[1..] == rest;
  }

  lemma {:induction false} DripsCount(c: Suite, e: Epoch, k: nat)
    requires e.pub.connected && e.pub.cipherKey.Some? && e.pub.bytesSinceRekey + k < e.pub.byteLimit < TWO_64
    ensures Drifted(e, RunCalls(c, e, Drips(k, e.pub.lastRekey)), k, Ones(k))
    decreases k
  {
    if k == 0 {
      assert e.lengths + Ones(0) == e.lengths;
    } else {
      var now := e.pub.lastRekey;
      var e1 := DripOne(c, e, Drips(k - 1, now));
      DripsCount(c, e1, k - 1);
      assert Drips(k, now) == [PublishCall([0], Zeros(12), now)] + Drips(k - 1, now);
      assert e.lengths + [1] + Ones(k - 1) == e.lengths + Ones(k);
    }
  }

  lemma {:induction false} RunCallsSnoc(c: Suite, e: Epoch, calls: seq<Call>, a: Call)
    ensures RunCalls(c, e, calls + [a]) == Next(c, RunCalls(c, e, calls), a)
    decreases |calls|
  {
    if calls == [] {
      assert [] + [a] == [a] && [a][1..] == [];
    } else {
      RunCallsSnoc(c, Next(c, e, calls[0]), calls[1..], a);
      assert (calls + [a])[0] == calls[0] && (calls + [a])[1..] == calls[1..] + [a];
    }
  }

  lemma {:induction false} SumOfOnes(k: nat)
    ensures Sum(Ones(k)) == k
  {
    if k > 0 {
      SumOfOnes(k - 1);
      assert Ones(k)[..k - 1] == Ones(k - 1);
    }
  }

  /** A payload that carries the counter around is not noticed. */
  lemma {:induction false} WrapUnnoticed(c: Suite, e: Epoch, calls: seq<Call>, payload: Bytes, r: Epoch)
    requires r == RunCalls(c, e, calls) && r.pub.connected && r.pub.cipherKey.Some?
    requires r.pub.bytesSinceRekey == r.pub.byteLimit - 1 && 0 < r.pub.byteLimit < TWO_64
    requires |payload| < TWO_64 < r.pub.byteLimit + |payload|
    ensures RunCalls(c, e, calls + [PublishCall(payload, Zeros(12), r.pub.lastRekey)]).lengths == r.lengths + [|payload|]
  {
    Counts(c, r, payload, Zeros(12));
    RunCallsSnoc(c, e, calls, PublishCall(payload, Zeros(12), r.pub.lastRekey));
  }

  lemma {:induction false} WithinSnoc(calls: seq<Call>, a: Call, longest: nat)
    requires Within(calls, 1) && 1 <= longest && (a.PublishCall? ==> |a.payload| <= longest)
    ensures Within(calls + [a], longest)
  {
  }

  /** Past the condition: limit - 1 single bytes, then one payload that carries the 64-bit counter around. */
  lemma {:induction false} WrapBreaksBound(c: Suite, e: Epoch, payload: Bytes, k: nat)
    requires Fresh(e) && |payload| < TWO_64 < e.pub.byteLimit + |payload| && k == e.pub.byteLimit - 1
    ensures var calls := Drips(k, e.pub.lastRekey) + [PublishCall(payload, Zeros(12), e.pub.lastRekey)];
      Within(calls, |payload|) && !Bounded(RunCalls(c, e, calls), e.pub.byteLimit)
  {
    var drips := Drips(k, e.pub.lastRekey);
    WithinSnoc(drips, PublishCall(payload, Zeros(12), e.pub.lastRekey), |payload|);
    DripsCount(c, e, k);
    var r := RunCalls(c, e, drips);
    WrapUnnoticed(c, e, drips, payload, r);
    assert r.lengths == Ones(k);
    OnesAndMore(k, |payload|);
  }

  lemma {:induction false} OnesAndMore(k: nat, n: nat)
    requires k > 0
    ensures Sum(Ones(k) + [n]) == k + n && (Ones(k) + [n])[0] == 1
  {
    SumOfOnes(k);
    SumSnoc(Ones(k), n);
  }

  /** The exact condition: with payloads up to a given length, the bound holds over every run of calls if and only if limit
      and length together do not exceed the 64-bit counter. */
  lemma {:induction false} VolumeBoundIff(c: Suite, e: Epoch, longest: nat)
    requires Fresh(e) && longest < TWO_64
    ensures (forall calls: seq<Call> :: Within(calls, longest) ==> Bounded(RunCalls(c, e, calls), e.pub.byteLimit))
       <==> e.pub.byteLimit + longest <= TWO_64
  {
    if e.pub.byteLimit + longest <= TWO_64 {
      forall calls: seq<Call> | Within(calls, longest)
        ensures Bounded(RunCalls(c, e, calls), e.pub.byteLimit)
      {
        assert forall i :: 0 <= i < |calls| ==> NoWrap(e.pub.byteLimit, calls[i]);
        VolumeBound(c, e, calls);
      }
    } else {
      WrapBreaksBound(c, e, Zeros(longest), e.pub.byteLimit - 1);
    }
  }
}
