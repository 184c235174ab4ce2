/** The replay ring and its pool of reusable buffers (pkg/feed/ringbuffer.go), with the heap spelled out. */
module RingBuffers {
  import opened ByteStrings
  import opened ReplayLog
  import EnvelopeCodec

  const POOL_BUFFER_CAPACITY := 4096

  ghost predicate ZeroFrom(b: array<byte>, n: nat)
    reads b
  {
    forall j :: n <= j < b.Length ==> b[j] == 0
  }

  /** sync.Pool of byte slices. `lent` are the buffers handed out and not returned: ring slots and results of reads. */
  class BufferPool {
    var free: set<array<byte>>
    ghost var lent: set<array<byte>>

    ghost predicate Valid()
      reads this, free
    {
      && free !! lent
      && forall b :: b in free ==> ZeroFrom(b, 0)
    }

    constructor ()
      ensures Valid() && free == {} && lent == {}
    {
      free, lent := {}, {};
    }

    /** getBuffer: any pooled buffer or a new one, replaced if it is too small. It is all zero. */
    method Get(size: nat) returns (b: array<byte>)
      requires Valid()
      modifies this
      ensures Valid()
      ensures b.Length >= size && ZeroFrom(b, 0)
      ensures b !in old(lent) && b !in free && lent == old(lent) + {b}
      ensures b in old(free) || fresh(b)
      ensures free <= old(free)
    {
      if * {
        b := new byte[POOL_BUFFER_CAPACITY](_ => 0);
      } else {
        if free == {} {
          b := new byte[POOL_BUFFER_CAPACITY](_ => 0);
        } else {
          b :| b in free;
          free := free - {b};
        }
      }
      if b.Length < size {
        b := new byte[size](_ => 0);
      }
      lent := lent + {b};
    }

    /** putBuffer: wipe to capacity (a no-op on an empty slice), then make the buffer available again. */
    method Put(b: array<byte>, len: nat)
      requires Valid() && b in lent && len <= b.Length && ZeroFrom(b, len)
      modifies this, b
      ensures Valid() && ZeroFrom(b, 0)
      ensures lent == old(lent) - {b} && free == old(free) + {b}
    {
      if len > 0 {
        for i := 0 to b.Length
          modifies b
          invariant forall j :: 0 <= j < i ==> b[j] == 0
        {
          b[i] := 0;
        }
      }
      free := free + {b};
      lent := lent - {b};
    }
  }

  datatype Slot = Nil | Full(seqNum: nat, buf: array<byte>, len: nat)

  ghost predicate Holds(s: Slot, m: SeqMsg)
    reads if s.Full? then {s.buf} else {}
  {
    s.Full? && s.seqNum == m.seqNum && s.len <= s.buf.Length && s.buf[..s.len] == m.payload && ZeroFrom(s.buf, s.len)
  }

  lemma {:induction false} ModOnce(x: nat, n: nat)
    requires 0 < n && x < 2 * n
    ensures x % n == if x < n then x else x - n
  {
  }

  ghost function BufsOf(slots: seq<Slot>): set<array<byte>> {
    set i | 0 <= i < |slots| && slots[i].Full? :: slots[i].buf
  }

  lemma {:induction false} BufsSnoc(slots: seq<Slot>, s: Slot)
    requires s.Full?
    ensures BufsOf(slots + [s]) == BufsOf(slots) + {s.buf}
  {
    var all := slots + [s];
    assert all[|slots|] == s;
    forall b | b in BufsOf(slots)
      ensures b in BufsOf(all)
    {
      var i :| 0 <= i < |slots| && slots[i].Full? && slots[i].buf == b;
      assert all[i] == slots[i];
    }
  }

  lemma {:induction false} BufsUncons(slots: seq<Slot>)
    requires slots != [] && slots[0].Full?
    ensures BufsOf(slots) == BufsOf(slots[1..]) + {slots[0].buf}
  {
    forall b | b in BufsOf(slots) && b != slots[0].buf
      ensures b in BufsOf(slots[1..])
    {
      var i :| 0 <= i < |slots| && slots[i].Full? && slots[i].buf == b;
      assert slots[1..][i - 1] == slots[i];
    }
    forall b | b in BufsOf(slots[1..])
      ensures b in BufsOf(slots)
    {
      var i :| 0 <= i < |slots[1..]| && slots[1..][i].Full? && slots[1..][i].buf == b;
      assert slots[i + 1] == slots[1..][i];
    }
  }

  /** Replacing one slot changes the stored buffers by its own only, as long as no buffer is stored twice. */
  lemma {:induction false} BufsChange(before: seq<Slot>, after: seq<Slot>, k: nat)
    requires k < |before| == |after| && after == before[k := after[k]]
    requires forall i, j :: 0 <= i < j < |before| && before[i].Full? && before[j].Full? ==> before[i].buf != before[j].buf
    ensures BufsOf(after) == BufsOf(before) - (if before[k].Full? then {before[k].buf} else {})
                           + (if after[k].Full? then {after[k].buf} else {})
  {
    var gone := if before[k].Full? then {before[k].buf} else {};
    forall b | b in BufsOf(before) - gone
      ensures b in BufsOf(after)
    {
      var i :| 0 <= i < |before| && before[i].Full? && before[i].buf == b;
      assert after[i] == before[i];
    }
    forall b | b in BufsOf(after) && !(after[k].Full? && b == after[k].buf)
      ensures b in BufsOf(before) - gone
    {
      var i :| 0 <= i < |after| && after[i].Full? && after[i].buf == b;
      assert after[i] == before[i];
    }
  }

  class RingBuffer {
    const capacity: nat
    const pool: BufferPool
    const data: array<Slot>
    var head: nat
    var tail: nat
    var size: nat
    ghost var contents: seq<SeqMsg>

    ghost function Bufs(): set<array<byte>>
      reads this, data
    {
      BufsOf(data[..])
    }

    /** How far slot i lies behind the head. */
    ghost function Offset(i: nat): int
      reads this
    {
      if i >= head then i - head else i - head + capacity
    }

    ghost predicate Shape()
      reads this, data
    {
      && 0 < capacity == data.Length && head < capacity && size <= capacity
      && tail == (if head + size < capacity then head + size else head + size - capacity)
      && |contents| == size
      && (forall i :: 0 <= i < capacity ==> (data[i].Full? <==> Offset(i) < size))
      && (forall i, j :: 0 <= i < j < capacity && data[i].Full? && data[j].Full? ==> data[i].buf != data[j].buf)
    }

    /** Pooled, stored and handed-out buffers never overlap, and every slot in the live window holds its message. */
    ghost predicate Valid()
      reads this, data, pool, pool.free, Bufs()
    {
      && Shape() && pool.Valid()
      && Bufs() <= pool.lent
      && forall i :: 0 <= i < capacity && data[i].Full? ==> Holds(data[i], contents[Offset(i)])
    }

    constructor (requested: int, p: BufferPool)
      requires p.Valid()
      ensures Valid() && fresh(data) && pool == p && contents == [] && Bufs() == {}
      ensures capacity == if requested <= 0 then 100 else requested
    {
      capacity := if requested <= 0 then 100 else requested;
      pool := p;
      data := new Slot[if requested <= 0 then 100 else requested](_ => Nil);
      head, tail, size := 0, 0, 0;
      contents := [];
    }

    method NextIndex(i: nat) returns (j: nat)
      requires i < capacity
      ensures j == if i + 1 < capacity then i + 1 else 0
    {
      ModOnce(i + 1, capacity);
      j := (i + 1) % capacity;
    }

    method Push(seqNum: nat, msg: Bytes)
      requires Valid()
      modifies this, data, pool, pool.free, Bufs()
      ensures Valid() && contents == PushTo(old(contents), capacity, SeqMsg(seqNum, msg))
      // what others were lent stays lent and unchanged
      ensures forall b :: b in old(pool.lent) && b !in old(Bufs()) ==> b in pool.lent && b !in Bufs() && b[..] == old(b[..])
      ensures forall b :: b in Bufs() ==> b in old(Bufs()) || b in old(pool.free) || fresh(b)
      ensures pool.free <= old(pool.free) + old(Bufs())
    {
      var copied := pool.Get(|msg|);
      EnvelopeCodec.CopyInto(copied, 0, msg);
      assert Valid();
      if size == capacity {
        Evict();
      }
      Store(seqNum, copied, |msg|, msg);
    }

    ghost predicate Slots()
      reads this, data, pool, pool.free, Bufs()
    {
      && data.Length == capacity && pool.Valid() && Bufs() <= pool.lent
      && (forall i, j :: 0 <= i < j < capacity && data[i].Full? && data[j].Full? ==> data[i].buf != data[j].buf)
      && (forall i :: 0 <= i < capacity && data[i].Full? ==> data[..][i].buf in Bufs() && data[i].len <= data[i].buf.Length && ZeroFrom(data[i].buf, data[i].len))
    }

    /** Scrub one slot. */
    method WipeSlot(i: nat)
      requires Slots() && i < capacity && data[i].Full?
      modifies data, pool, data[i].buf
      ensures Slots() && data[..] == old(data[..])[i := Nil]
      ensures Bufs() == old(Bufs()) - {old(data[i].buf)}
      ensures pool.lent == old(pool.lent) - {old(data[i].buf)} && pool.free == old(pool.free) + {old(data[i].buf)}
    {
      ghost var before := data[..];
      pool.Put(data[i].buf, data[i].len);
      data[i] := Nil;
      BufsChange(before, data[..], i);
    }

    /** Scrub the oldest message and return its buffer to the pool. */
    method Evict()
      requires Valid() && size > 0
      modifies this, data, pool, data[head].buf
      ensures Valid() && contents == old(contents)[1..]
      ensures Bufs() == old(Bufs()) - {old(data[head].buf)}
      ensures pool.lent == old(pool.lent) - {old(data[head].buf)} && pool.free == old(pool.free) + {old(data[head].buf)}
    {
      assert Slots();
      WipeSlot(head);
      assert forall i :: 0 <= i < capacity && i != head ==> data[i] == old(data[..])[i];
      Advance();
    }

    /** Move the head past a scrubbed slot. */
    method Advance()
      requires Slots() && head < capacity && 0 < size <= capacity && |contents| == size
      requires tail == if head + size < capacity then head + size else head + size - capacity
      requires forall i :: 0 <= i < capacity ==> (data[i].Full? <==> 0 < Offset(i) < size)
      requires forall i :: 0 <= i < capacity && data[i].Full? ==> Holds(data[i], contents[Offset(i)])
      modifies this`head, this`size, this`contents
      ensures Valid() && contents == old(contents)[1..]
    {
      head := NextIndex(head);
      size := size - 1;
      contents := contents[1..];
      forall i | 0 <= i < capacity
        ensures data[i].Full? <==> Offset(i) < size
        ensures data[i].Full? ==> Holds(data[i], contents[Offset(i)])
      {
        assert old(Offset(i)) == if Offset(i) == capacity - 1 then 0 else Offset(i) + 1;
        assert data[i].Full? ==> Holds(data[i], old(contents)[old(Offset(i))]);
      }
    }

    method Store(seqNum: nat, b: array<byte>, len: nat, ghost msg: Bytes)
      requires Valid() && size < capacity && b in pool.lent && b !in Bufs()
      requires len <= b.Length && b[..len] == msg && ZeroFrom(b, len)
      modifies this, data
      ensures Valid() && contents == old(contents) + [SeqMsg(seqNum, msg)]
      ensures Bufs() == old(Bufs()) + {b}
    {
      ghost var before, t := data[..], tail;
      data[tail] := Full(seqNum, b, len);
      BufsChange(before, data[..], t);
      tail := NextIndex(tail);
      size := size + 1;
      contents := contents + [SeqMsg(seqNum, msg)];
    }

    /** The slot that holds the k-th oldest message. */
    method SlotAt(k: nat) returns (s: Slot)
      requires Valid() && k < size
      ensures Holds(s, contents[k]) && s.buf in Bufs()
    {
      ModOnce(head + k, capacity);
      var idx := (head + k) % capacity;
      assert Offset(idx) == k;
      s := data[idx];
      assert s == data[..][idx];
    }

    /** A private copy of a stored message in a pooled buffer. */
    method CopyOut(k: nat) returns (s: Slot)
      requires Valid() && k < size
      modifies pool, pool.free
      ensures Valid() && Holds(s, contents[k])
      ensures s.buf !in old(pool.lent) && pool.lent == old(pool.lent) + {s.buf}
      ensures s.buf in old(pool.free) || fresh(s.buf)
      ensures pool.free <= old(pool.free) - {s.buf}
      ensures forall b :: b in old(pool.lent) ==> b[..] == old(b[..])
    {
      var item := SlotAt(k);
      var copied := pool.Get(item.len);
      EnvelopeCodec.CopyInto(copied, 0, item.buf[..item.len]);
      s := Full(item.seqNum, copied, item.len);
    }

    /** The results of a read: copies of these messages in buffers that were with nobody before. */
    ghost predicate Copies(rs: seq<Slot>, ms: seq<SeqMsg>, taken: set<array<byte>>)
      reads this, pool, BufsOf(rs)
    {
      && |rs| == |ms|
      && (forall i, j :: 0 <= i < j < |rs| && rs[i].Full? && rs[j].Full? ==> rs[i].buf != rs[j].buf)
      && (forall i :: 0 <= i < |rs| ==> rs[i].Full? && rs[i].buf in pool.lent && rs[i].buf !in taken)
      && (forall i :: 0 <= i < |rs| ==> rs[i].Full? && rs[i].buf in BufsOf(rs) && Holds(rs[i], ms[i]))
    }

    /** Append a private copy of the k-th oldest message to the results of a read. */
    method AppendCopy(k: nat, rs: seq<Slot>, ghost ms: seq<SeqMsg>, ghost taken: set<array<byte>>) returns (r: seq<Slot>)
      requires Valid() && k < size && Copies(rs, ms, taken) && taken <= pool.lent
      modifies pool, pool.free
      ensures Valid() && Copies(r, ms + [contents[k]], taken)
      ensures pool.lent == old(pool.lent) + BufsOf(r) && BufsOf(rs) <= BufsOf(r)
      ensures forall b :: b in BufsOf(r) ==> b in BufsOf(rs) || b in old(pool.free) || fresh(b)
      ensures pool.free <= old(pool.free)
      ensures forall b :: b in old(pool.lent) ==> b[..] == old(b[..])
    {
      var s := CopyOut(k);
      BufsSnoc(rs, s);
      r := rs + [s];
    }

    method GetAfter(lastSeqNum: nat) returns (result: seq<Slot>)
      requires Valid()
      modifies pool, pool.free
      ensures Valid() && Copies(result, After(contents, lastSeqNum), old(pool.lent))
      ensures pool.lent == old(pool.lent) + BufsOf(result) && pool.free <= old(pool.free)
      ensures forall b :: b in BufsOf(result) ==> b in old(pool.free) || fresh(b)
      ensures forall b :: b in old(pool.lent) ==> b[..] == old(b[..])
    {
      result := [];
      ghost var taken, ms := pool.lent, [];
      for i := 0 to size
        invariant Valid() && Copies(result, ms, taken) && ms == After(contents[..i], lastSeqNum)
        invariant pool.lent == taken + BufsOf(result) && pool.free <= old(pool.free)
        invariant forall b :: b in BufsOf(result) ==> b in old(pool.free) || fresh(b)
        invariant forall b :: b in taken ==> b[..] == old(b[..])
      {
        var item := SlotAt(i);
        AfterNext(contents, i, lastSeqNum);
        if item.seqNum > lastSeqNum {
          result := AppendCopy(i, result, ms, taken);
          ms := ms + [contents[i]];
        }
      }
      assert contents[..size] == contents;
    }

    method GetAll() returns (result: seq<Slot>)
      requires Valid()
      modifies pool, pool.free
      ensures Valid() && Copies(result, contents, old(pool.lent))
      ensures pool.lent == old(pool.lent) + BufsOf(result) && pool.free <= old(pool.free)
      ensures forall b :: b in BufsOf(result) ==> b in old(pool.free) || fresh(b)
      ensures forall b :: b in old(pool.lent) ==> b[..] == old(b[..])
    {
      result := [];
      for i := 0 to size
        invariant Valid() && Copies(result, contents[..i], old(pool.lent))
        invariant pool.lent == old(pool.lent) + BufsOf(result) && pool.free <= old(pool.free)
        invariant forall b :: b in BufsOf(result) ==> b in old(pool.free) || fresh(b)
        invariant forall b :: b in old(pool.lent) ==> b[..] == old(b[..])
      {
        assert contents[..i + 1] == contents[..i] + [contents[i]];
        result := AppendCopy(i, result, contents[..i], old(pool.lent));
      }
      assert contents[..size] == contents;
    }

    method ReleaseFirst(rs: seq<Slot>, ghost ms: seq<SeqMsg>, ghost taken: set<array<byte>>)
      requires rs != [] && Valid() && Copies(rs, ms, taken) && Bufs() <= taken && pool.lent == taken + BufsOf(rs)
      modifies pool, rs[0].buf
      ensures Valid() && Copies(rs[1..], ms[1..], taken) && pool.lent == taken + BufsOf(rs[1..])
      ensures pool.free == old(pool.free) + {rs[0].buf} && BufsOf(rs) == BufsOf(rs[1..]) + {rs[0].buf}
    {
      BufsUncons(rs);
      assert rs[0].buf !in BufsOf(rs[1..]);
      pool.Put(rs[0].buf, rs[0].len);
    }

    /** Give the buffers of a read back to the pool. */
    method Release(rs: seq<Slot>, ghost ms: seq<SeqMsg>, ghost taken: set<array<byte>>)
      requires Valid() && Copies(rs, ms, taken) && Bufs() <= taken && pool.lent == taken + BufsOf(rs)
      modifies pool, BufsOf(rs)
      ensures Valid() && pool.lent == taken && pool.free == old(pool.free) + BufsOf(rs)
    {
      var rest := rs;
      ghost var left := ms;
      while rest != []
        invariant Valid() && Copies(rest, left, taken) && BufsOf(rest) <= BufsOf(rs)
        invariant pool.lent == taken + BufsOf(rest)
        invariant pool.free == old(pool.free) + (BufsOf(rs) - BufsOf(rest))
        decreases |rest|
      {
        ReleaseFirst(rest, left, taken);
        rest, left := rest[1..], left[1..];
      }
    }

    method Len() returns (n: nat)
      requires Valid()
      ensures n == |contents| <= capacity
    {
      n := size;
    }

    method OldestSeqNum() returns (n: nat)
      requires Valid()
      ensures n == if contents == [] then 0 else contents[0].seqNum
    {
      if size == 0 {
        return 0;
      }
      n := data[head].seqNum;
    }

    method IsOverflow(lastSeqNum: nat) returns (r: bool)
      requires Valid()
      ensures r == Overflow(contents, lastSeqNum)
    {
      if size == 0 || lastSeqNum == 0 {
        return false;
      }
      var oldest := data[head].seqNum;
      r := oldest > 0 && lastSeqNum < oldest - 1;
    }

    /** Wipe: every stored buffer goes back to the pool zeroed; nobody else's buffer is touched. */
    method Wipe()
      requires Valid()
      modifies this, data, pool, Bufs()
      ensures Valid() && contents == [] && Bufs() == {}
      ensures pool.lent == old(pool.lent) - old(Bufs()) && pool.free == old(pool.free) + old(Bufs())
    {
      assert Slots();
      var i := 0;
      while i < capacity
        invariant i <= capacity && Slots() && Bufs() <= old(Bufs())
        invariant forall j :: 0 <= j < i ==> data[j].Nil?
        invariant pool.lent == old(pool.lent) - (old(Bufs()) - Bufs())
        invariant pool.free == old(pool.free) + (old(Bufs()) - Bufs())
        modifies data, pool, Bufs()
      {
        if data[i].Full? {
          WipeSlot(i);
        }
        i := i + 1;
      }
      head, tail, size := 0, 0, 0;
      contents := [];
      assert Bufs() == {};
    }
  }
}
