/** What a replay ring means, on values: the last `capacity` messages pushed since the last wipe. */
module ReplayLog {
  import opened ByteStrings

  datatype SeqMsg = SeqMsg(seqNum: nat, payload: Bytes)

  function Last<T>(s: seq<T>, n: nat): (r: seq<T>)
    ensures |r| == if |s| <= n then |s| else n
  {
    if |s| <= n then s else s[|s| - n..]
  }

  function PushTo(items: seq<SeqMsg>, capacity: nat, m: SeqMsg): (r: seq<SeqMsg>) {
    Last(items + [m], capacity)
  }

  /** The messages newer than `last`, oldest first. */
  function After(items: seq<SeqMsg>, last: nat): (r: seq<SeqMsg>) {
    if items == [] then []
    else if items[0].seqNum > last then [items[0]] + After(items[1..], last)
    else After(items[1..], last)
  }

  lemma {:induction false} AfterMembers(items: seq<SeqMsg>, last: nat)
    ensures forall m :: m in After(items, last) <==> m in items && m.seqNum > last
  {
    if items != [] {
      AfterMembers(items[1..], last);
      assert items == [items[0]] + items[1..];
    }
  }

  lemma {:induction false} AfterSnoc(items: seq<SeqMsg>, m: SeqMsg, last: nat)
    ensures After(items + [m], last) == After(items, last) + (if m.seqNum > last then [m] else [])
  {
    if items != [] {
      AfterSnoc(items[1..], m, last);
      assert (items + [m])[1..] == items[1..] + [m];
    } else {
      assert [m][1..] == [];
    }
  }

  lemma {:induction false} AfterNext(items: seq<SeqMsg>, i: nat, last: nat)
    requires i < |items|
    ensures After(items[..i + 1], last) == After(items[..i], last) + (if items[i].seqNum > last then [items[i]] else [])
  {
    assert items[..i + 1] == items[..i] + [items[i]];
    AfterSnoc(items[..i], items[i], last);
  }

  predicate Overflow(items: seq<SeqMsg>, last: nat) {
    && items != [] && last != 0
    && items[0].seqNum > 0 && last < items[0].seqNum - 1
  }

  predicate Increasing(items: seq<SeqMsg>) {
    forall i, j :: 0 <= i < j < |items| ==> items[i].seqNum < items[j].seqNum
  }

  // ----- runs of the ring -----

  datatype RingOp = Push(m: SeqMsg) | Wipe

  function RunRing(capacity: nat, ops: seq<RingOp>): (items: seq<SeqMsg>) {
    if ops == [] then []
    else
      var before := RunRing(capacity, ops[..|ops| - 1]);
      match ops[|ops| - 1]
      case Push(m) => PushTo(before, capacity, m)
      case Wipe => []
  }

  /** Every message pushed since the last wipe, with nothing evicted. */
  function SinceWipe(ops: seq<RingOp>): (items: seq<SeqMsg>) {
    if ops == [] then []
    else match ops[|ops| - 1]
      case Push(m) => SinceWipe(ops[..|ops| - 1]) + [m]
      case Wipe => []
  }

  /** After any run the ring holds exactly the last min(n, capacity) pushes since the last wipe. */
  lemma {:induction false} RingHoldsLast(capacity: nat, ops: seq<RingOp>)
    requires capacity > 0
    ensures RunRing(capacity, ops) == Last(SinceWipe(ops), capacity)
  {
    if ops != [] {
      RingHoldsLast(capacity, ops[..|ops| - 1]);
      if ops[|ops| - 1].Push? {
        PushKeepsLast(SinceWipe(ops[..|ops| - 1]), capacity, ops[|ops| - 1].m);
      }
    }
  }

  lemma {:induction false} PushKeepsLast(all: seq<SeqMsg>, capacity: nat, m: SeqMsg)
    requires capacity > 0
    ensures PushTo(Last(all, capacity), capacity, m) == Last(all + [m], capacity)
  {
  }

  /** On increasing numbers `After` is a suffix of the ring, so replays go out oldest first. */
  lemma {:induction false} AfterIsSuffix(items: seq<SeqMsg>, last: nat) returns (k: nat)
    requires Increasing(items)
    ensures k <= |items| && After(items, last) == items[k..]
    ensures forall i :: 0 <= i < k ==> items[i].seqNum <= last
  {
    if items == [] {
      k := 0;
    } else if items[0].seqNum > last {
      AfterAll(items, last);
      k := 0;
    } else {
      k := AfterIsSuffix(items[1..], last);
      assert items[1..][k..] == items[k + 1..];
      assert forall i :: 0 < i < k + 1 ==> items[i] == items[1..][i - 1];
      k := k + 1;
    }
  }

  lemma {:induction false} AfterIncreasing(items: seq<SeqMsg>, last: nat)
    requires Increasing(items)
    ensures Increasing(After(items, last))
  {
    var k := AfterIsSuffix(items, last);
  }

  lemma {:induction false} AfterAll(items: seq<SeqMsg>, last: nat)
    requires forall i :: 0 <= i < |items| ==> items[i].seqNum > last
    ensures After(items, last) == items
  {
    if items != [] {
      AfterAll(items[1..], last);
    }
  }

  /** No overflow reported for a known position means that nothing newer was evicted... */
  lemma {:induction false} NoOverflowNothingLost(all: seq<SeqMsg>, capacity: nat, last: nat)
    requires capacity > 0 && Increasing(all) && last > 0
    requires !Overflow(Last(all, capacity), last)
    ensures forall m :: m in all && m.seqNum > last ==> m in Last(all, capacity)
  {
    var kept := Last(all, capacity);
    forall m | m in all && m.seqNum > last
      ensures m in kept
    {
      var i :| 0 <= i < |all| && all[i] == m;
      var cut := |all| - |kept|;
      assert cut < |all| && kept[0] == all[cut];
      assert i >= cut;
      assert kept[i - cut] == m;
    }
  }

  /** ...and when the numbers are consecutive the report is exact. */
  lemma {:induction false} OverflowExact(all: seq<SeqMsg>, capacity: nat, last: nat)
    requires capacity > 0 && last > 0
    requires forall i :: 0 <= i < |all| ==> all[i].seqNum == i + 1
    ensures Overflow(Last(all, capacity), last) <==> exists m :: m in all && m.seqNum > last && m !in Last(all, capacity)
  {
    var kept := Last(all, capacity);
    if Overflow(kept, last) {
      var cut := |all| - |kept|;
      assert kept[0] == all[cut] && kept[0].seqNum == cut + 1;
      var m := all[cut - 1];
      assert m.seqNum == cut;
      assert forall j :: 0 <= j < |kept| ==> kept[j] == all[cut + j] && kept[j].seqNum > cut;
      assert m in all && m.seqNum > last && m !in kept;
    } else {
      NoOverflowNothingLost(all, capacity, last);
    }
  }

  /** Something newer than `last` is no longer in the ring. */
  predicate Evicted(all: seq<SeqMsg>, capacity: nat, last: nat) {
    exists i :: 0 <= i < |all| - |Last(all, capacity)| && all[i].seqNum > last
  }

  /** Exactly when the report is right for every position a subscriber may hold: the oldest message kept directly follows
      the newest one evicted, or is one of the first two numbers. */
  lemma {:induction false} OverflowExactIff(all: seq<SeqMsg>, capacity: nat)
    requires capacity > 0 && Increasing(all) && all != []
    ensures var cut := |all| - |Last(all, capacity)|;
      (forall last: nat :: last > 0 ==> (Overflow(Last(all, capacity), last) <==> Evicted(all, capacity, last)))
      <==> (all[cut].seqNum <= 2 || (cut > 0 && all[cut - 1].seqNum + 1 == all[cut].seqNum))
  {
    var kept := Last(all, capacity);
    var cut := |all| - |kept|;
    assert kept[0] == all[cut];
    forall last: nat | last > 0
      ensures Evicted(all, capacity, last) <==> cut > 0 && all[cut - 1].seqNum > last
    {
      EvictedIffNewest(all, capacity, last);
    }
    if all[cut].seqNum > 2 && !(cut > 0 && all[cut - 1].seqNum + 1 == all[cut].seqNum) {
      var last := if cut > 0 && all[cut - 1].seqNum > 0 then all[cut - 1].seqNum else 1;
      assert Overflow(kept, last) && !Evicted(all, capacity, last);
    }
  }

  lemma {:induction false} EvictedIffNewest(all: seq<SeqMsg>, capacity: nat, last: nat)
    requires capacity > 0 && Increasing(all) && all != []
    ensures var cut := |all| - |Last(all, capacity)|;
      Evicted(all, capacity, last) <==> cut > 0 && all[cut - 1].seqNum > last
  {
    var cut := |all| - |Last(all, capacity)|;
    if i :| 0 <= i < cut && all[i].seqNum > last {
      assert i < cut - 1 ==> all[i].seqNum < all[cut - 1].seqNum;
    }
  }
}
