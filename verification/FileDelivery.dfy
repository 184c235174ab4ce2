/** Files end to end: what a subscriber's deliveries amount to after any run of the stream, duplicates and replays included. */
module FileDelivery {
  import opened Wrappers
  import opened ByteStrings
  import opened Primitives
  import opened ReplayLog
  import opened StreamSystem
  import opened StreamSafety
  import opened StreamTheorems
  import opened Sequences
  import opened FileTransfer
  import opened SubscriberEngines

  lemma {:induction false} SubsequenceMembers<T>(a: seq<T>, b: seq<T>)
    requires Subsequence(a, b)
    ensures forall x :: x in a ==> x in b
    decreases |b|
  {
    if a != [] {
      var a', b' := a[..|a| - 1], b[..|b| - 1];
      assert a == a' + [a[|a| - 1]] && b == b' + [b[|b| - 1]];
      SubsequenceMembers(if a[|a| - 1] == b[|b| - 1] then a' else a, b');
    }
  }

  function Filter<T>(f: T -> bool, xs: seq<T>): (r: seq<T>) {
    if xs == [] then [] else Filter(f, xs[..|xs| - 1]) + (if f(xs[|xs| - 1]) then [xs[|xs| - 1]] else [])
  }

  predicate Distinct<T(==)>(xs: seq<T>) {
    forall i, j :: 0 <= i < j < |xs| ==> xs[i] != xs[j]
  }

  /** Leaving out elements that the filter drops anyway changes nothing. */
  lemma {:induction false} FilterOfSubsequence<T>(f: T -> bool, d: seq<T>, xs: seq<T>)
    requires Subsequence(d, xs) && Distinct(xs) && forall x :: x in xs && f(x) ==> x in d
    ensures Filter(f, d) == Filter(f, xs)
    decreases |xs|
  {
    if xs != [] {
      var front, last := xs[..|xs| - 1], xs[|xs| - 1];
      assert forall x :: x in front ==> x in xs && x != last;
      if d != [] && d[|d| - 1] == last {
        var d' := d[..|d| - 1];
        assert d == d' + [last];
        FilterOfSubsequence(f, d', front);
      } else {
        SubsequenceMembers(d, front);
        FilterOfSubsequence(f, d, front);
      }
    }
  }

  lemma {:induction false} AboutIsFilter(j: Json, id: Bytes, ms: seq<SeqMsg>)
    ensures About(j, id, PayloadsOf(ms)) == PayloadsOf(Filter((m: SeqMsg) => Concerns(j, id, m.payload), ms))
  {
    if ms != [] {
      var front := ms[..|ms| - 1];
      AboutIsFilter(j, id, front);
      var ps := PayloadsOf(ms);
      assert ps[..|ps| - 1] == PayloadsOf(front) && ps[|ps| - 1] == ms[|ms| - 1].payload;
    }
  }

  /** Every message that concerns the transfer has been delivered. */
  ghost predicate HasAllOf(j: Json, id: Bytes, ms: seq<SeqMsg>, d: seq<SeqMsg>) {
    forall m :: m in ms && Concerns(j, id, m.payload) ==> m in d
  }

  /** Leaving out messages that do not concern a transfer leaves the same payloads about it, in the same order. */
  lemma {:induction false} AboutOfSubsequence(j: Json, id: Bytes, d: seq<SeqMsg>, ms: seq<SeqMsg>)
    requires Subsequence(d, ms) && Increasing(ms) && HasAllOf(j, id, ms, d)
    ensures About(j, id, PayloadsOf(d)) == About(j, id, PayloadsOf(ms))
  {
    AboutIsFilter(j, id, d);
    AboutIsFilter(j, id, ms);
    FilterOfSubsequence((m: SeqMsg) => Concerns(j, id, m.payload), d, ms);
  }

  /** For every run of publisher, relay and subscribers, with any drops, reconnects, rekeys, replays and duplicates, and any
      other traffic: if the messages published about a transfer are those of SendFile for this file, and the subscriber has
      delivered them all, then it has saved the file exactly once, byte for byte, the transfer's entry is gone, and it has
      acknowledged every 16 chunks and the end. */
  lemma {:induction false} FileArrivesOverRun(c: Suite, j: Json, s0: System, run: seq<Action>, i: nat,
                                              h: FileHeader, chunks: seq<Bytes>, file: Bytes)
    requires Initial(s0) && Runs(c, s0, run) && i in Reached(c, s0, run).nodes
    requires |h.transferId| == ID_SIZE && j.unmarshal(j.marshal(h)) == Some(h)
    requires (forall k :: 0 <= k < |chunks| ==> chunks[k] != []) && Flatten(chunks) == file
    requires About(j, h.transferId, PayloadsOf(Messages(Reached(c, s0, run).log))) == TransferPayloads(j, h, chunks)
    requires HasAllOf(j, h.transferId, Messages(Reached(c, s0, run).log), Reached(c, s0, run).nodes[i].sub.delivered)
    ensures var desk := DispatchAll(j, EMPTY_DESK, PayloadsOf(Reached(c, s0, run).nodes[i].sub.delivered));
      && h.transferId !in desk.open && SavedFor(desk.saved, h.transferId) == [file]
      && AcksFor(desk.acks, h.transferId) == |chunks| / 16 + 1
  {
    var s := Reached(c, s0, run);
    var d := s.nodes[i].sub.delivered;
    DeliverySafety(c, s0, run, i);
    MessagesNamed(s.log);
    AboutOfSubsequence(j, h.transferId, d, Messages(s.log));
    FileArrives(j, EMPTY_DESK, h, chunks, file, PayloadsOf(d));
  }
}
