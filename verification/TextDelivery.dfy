/** Text end to end: what a subscriber prints for its deliveries, in any mixture with files, and after any run of the stream. */
module TextDelivery {
  import opened ByteStrings
  import opened Primitives
  import opened ReplayLog
  import opened StreamSystem
  import opened StreamSafety
  import opened StreamTheorems
  import opened Sequences
  import opened FileTransfer
  import opened FileDelivery
  import opened SubscriberEngines
  import Sanitizer

  /** Everything but the three file tags is text: tagged with 1, or an untagged legacy payload. */
  predicate IsText(p: Bytes) {
    p != [] && p[0] != 0x02 && p[0] != 0x03 && p[0] != 0x04
  }

  function TextPayloads(ps: seq<Bytes>): (r: seq<Bytes>) {
    if ps == [] then [] else TextPayloads(ps[..|ps| - 1]) + (if IsText(ps[|ps| - 1]) then [ps[|ps| - 1]] else [])
  }

  ghost predicate Tokens(data: Bytes, ts: seq<Sanitizer.Token>) {
    Sanitizer.PrintAll(ts) == data && forall i :: 0 <= i < |ts| ==> Sanitizer.WellFormed(ts[i])
  }

  /** What is printed for a text payload. With the tag: its data with every control byte gone, nothing added or moved, and
      if the data is a sequence of text and escape sequences, exactly the text. Without it: the payload as it is. */
  ghost predicate Prints(p: Bytes, out: Bytes)
    requires IsText(p)
  {
    if p[0] == 0x01 then
      && Sanitizer.Clean(out) && Subsequence(out, p[1..])
      && forall ts: seq<Sanitizer.Token> :: Tokens(p[1..], ts) ==> out == Sanitizer.TextOf(ts)
    else out == p
  }

  lemma {:induction false} SanitizedPrints(p: Bytes)
    requires IsText(p) && p[0] == 0x01
    ensures Prints(p, Sanitizer.Sanitize(p[1..]))
  {
    Sanitizer.SanitizeClean(p[1..]);
    Sanitizer.SanitizeSubsequence(p[1..]);
    forall ts: seq<Sanitizer.Token> | Tokens(p[1..], ts)
      ensures Sanitizer.Sanitize(p[1..]) == Sanitizer.TextOf(ts)
    {
      Sanitizer.StripsExactlyTheSequences(ts);
    }
  }

  /** One payload prints once if it is text, and not at all otherwise. */
  lemma {:induction false} OnePrints(j: Json, d: Desk, p: Bytes)
    ensures !IsText(p) ==> Dispatch(j, d, p).text == d.text
    ensures IsText(p) ==> var t := Dispatch(j, d, p).text; |t| == |d.text| + 1 && t[..|d.text|] == d.text && Prints(p, t[|d.text|])
  {
    if IsText(p) && p[0] == 0x01 {
      SanitizedPrints(p);
    }
  }

  /** One output for each of these text payloads, in order. */
  ghost predicate PrintsAll(texts: seq<Bytes>, out: seq<Bytes>) {
    |out| == |texts| && forall k :: 0 <= k < |texts| ==> IsText(texts[k]) && Prints(texts[k], out[k])
  }

  /** Over any deliveries, on any desk: each text payload adds one output, in order, and nothing else adds any. */
  lemma {:induction false} TextPrinted(j: Json, d: Desk, ps: seq<Bytes>)
    ensures var t := DispatchAll(j, d, ps).text;
      |t| >= |d.text| && t[..|d.text|] == d.text && PrintsAll(TextPayloads(ps), t[|d.text|..])
  {
    if ps != [] {
      var front, p := ps[..|ps| - 1], ps[|ps| - 1];
      TextPrinted(j, d, front);
      var e := DispatchAll(j, d, front);
      OnePrints(j, e, p);
      var t := Dispatch(j, e, p).text;
      if IsText(p) {
        assert t == e.text + [t[|e.text|]];
        assert t[|d.text|..] == e.text[|d.text|..] + [t[|e.text|]];
      }
      assert t[..|d.text|] == e.text[..|d.text|];
    }
  }

  // ----- over whole runs -----

  lemma {:induction false} TextIsFilter(ms: seq<SeqMsg>)
    ensures TextPayloads(PayloadsOf(ms)) == PayloadsOf(Filter((m: SeqMsg) => IsText(m.payload), ms))
  {
    if ms != [] {
      var front := ms[..|ms| - 1];
      TextIsFilter(front);
      var ps := PayloadsOf(ms);
      assert ps[..|ps| - 1] == PayloadsOf(front) && ps[|ps| - 1] == ms[|ms| - 1].payload;
    }
  }

  /** Every text message published has been delivered. */
  ghost predicate HasAllText(ms: seq<SeqMsg>, d: seq<SeqMsg>) {
    forall m :: m in ms && IsText(m.payload) ==> m in d
  }

  lemma {:induction false} TextOfSubsequence(d: seq<SeqMsg>, ms: seq<SeqMsg>)
    requires Subsequence(d, ms)
    ensures Subsequence(TextPayloads(PayloadsOf(d)), TextPayloads(PayloadsOf(ms)))
    decreases |ms|
  {
    if d != [] {
      var ms', y := ms[..|ms| - 1], ms[|ms| - 1];
      TextsSnoc(ms', y);
      assert ms == ms' + [y];
      if d[|d| - 1] == y {
        var d' := d[..|d| - 1];
        TextOfSubsequence(d', ms');
        TextsSnoc(d', y);
        assert d == d' + [y];
        var last := if IsText(y.payload) then [y.payload] else [];
        Reflexive(last);
        Concat(TextPayloads(PayloadsOf(d')), TextPayloads(PayloadsOf(ms')), last, last);
      } else {
        TextOfSubsequence(d, ms');
        if IsText(y.payload) {
          Widen(TextPayloads(PayloadsOf(d)), TextPayloads(PayloadsOf(ms')), y.payload);
        } else {
          assert TextPayloads(PayloadsOf(ms')) + [] == TextPayloads(PayloadsOf(ms'));
        }
      }
    }
  }

  lemma {:induction false} TextsSnoc(ms: seq<SeqMsg>, m: SeqMsg)
    ensures TextPayloads(PayloadsOf(ms + [m])) == TextPayloads(PayloadsOf(ms)) + (if IsText(m.payload) then [m.payload] else [])
  {
    var ps := PayloadsOf(ms + [m]);
    assert ps[..|ps| - 1] == PayloadsOf(ms) && ps[|ps| - 1] == m.payload;
  }

  lemma {:induction false} AllTextDelivered(d: seq<SeqMsg>, ms: seq<SeqMsg>)
    requires Subsequence(d, ms) && Increasing(ms) && HasAllText(ms, d)
    ensures TextPayloads(PayloadsOf(d)) == TextPayloads(PayloadsOf(ms))
  {
    TextIsFilter(d);
    TextIsFilter(ms);
    FilterOfSubsequence((m: SeqMsg) => IsText(m.payload), d, ms);
  }

  /** For every run, with any drops, reconnects, rekeys, replays and duplicates, and any files in between: a subscriber has
      printed one output for each text message it has delivered, in the order of publication and none twice; what came
      with the text tag is free of control bytes. If it has delivered all text published, it has printed all of it. */
  lemma {:induction false} TextOverRun(c: Suite, j: Json, s0: System, run: seq<Action>, i: nat)
    requires Initial(s0) && Runs(c, s0, run) && i in Reached(c, s0, run).nodes
    ensures var s := Reached(c, s0, run);
      var d, ms := s.nodes[i].sub.delivered, Messages(s.log);
      var out, texts := DispatchAll(j, EMPTY_DESK, PayloadsOf(d)).text, TextPayloads(PayloadsOf(d));
      && Subsequence(texts, TextPayloads(PayloadsOf(ms))) && (HasAllText(ms, d) ==> texts == TextPayloads(PayloadsOf(ms)))
      && PrintsAll(texts, out)
  {
    var s := Reached(c, s0, run);
    var d, ms := s.nodes[i].sub.delivered, Messages(s.log);
    DeliverySafety(c, s0, run, i);
    MessagesNamed(s.log);
    TextOfSubsequence(d, ms);
    if HasAllText(ms, d) {
      AllTextDelivered(d, ms);
    }
    TextPrinted(j, EMPTY_DESK, PayloadsOf(d));
    var out := DispatchAll(j, EMPTY_DESK, PayloadsOf(d)).text;
    assert out[0..] == out;
  }
}
