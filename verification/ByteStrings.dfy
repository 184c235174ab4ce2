/** Byte strings and the big-endian integers of encoding/binary. */
module ByteStrings {

  type byte = x: int | 0 <= x < 256

  type Bytes = seq<byte>

  const TWO_32: nat := 0x1_0000_0000
  const TWO_64: nat := 0x1_0000_0000_0000_0000

  function Zeros(n: nat): (z: Bytes)
    ensures |z| == n
    ensures forall i :: 0 <= i < n ==> z[i] == 0
  {
    seq(n, _ => 0)
  }

  function Pow256(w: nat): (p: nat)
    ensures p > 0
  {
    if w == 0 then 1 else 256 * Pow256(w - 1)
  }

  /** The low `w` bytes of n, most significant first; higher bytes are cut off as Go's conversions do. */
  function PutUint(n: nat, w: nat): (b: Bytes)
    ensures |b| == w
  {
    if w == 0 then [] else PutUint(n / 256, w - 1) + [n % 256]
  }

  function GetUint(b: Bytes): (n: nat)
    ensures n < Pow256(|b|)
    decreases |b|
  {
    if |b| == 0 then 0 else GetUint(b[..|b| - 1]) * 256 + b[|b| - 1]
  }

  lemma {:induction false} PowWidths()
    ensures Pow256(2) == 0x1_0000
    ensures Pow256(4) == TWO_32
    ensures Pow256(8) == TWO_64
  {
    assert Pow256(1) == 256;
    assert Pow256(2) == 0x1_0000;
    assert Pow256(3) == 0x100_0000;
    assert Pow256(4) == TWO_32;
    assert Pow256(5) == 0x100_0000_0000;
    assert Pow256(6) == 0x1_0000_0000_0000;
    assert Pow256(7) == 0x100_0000_0000_0000;
  }

  lemma {:induction false} GetPut(n: nat, w: nat)
    requires n < Pow256(w)
    ensures GetUint(PutUint(n, w)) == n
  {
    if w > 0 {
      GetPut(n / 256, w - 1);
      var b := PutUint(n, w);
      assert b[..|b| - 1] == PutUint(n / 256, w - 1);
    }
  }

  /** The most significant byte comes first: byte i counts multiples of 256^(w - 1 - i). */
  lemma {:induction false} PutUintBytes(n: nat, w: nat, i: nat)
    requires i < w
    ensures PutUint(n, w)[i] == n / Pow256(w - 1 - i) % 256
  {
    if i < w - 1 {
      PutUintBytes(n / 256, w - 1, i);
      DivTwice(n, Pow256(w - 2 - i));
    } else {
      assert n / 1 == n;
    }
  }

  lemma {:induction false} DivTwice(n: nat, q: nat)
    requires q > 0
    ensures n / (256 * q) == n / 256 / q
  {
    var a := n / 256;
    var b := a / q;
    assert n == 256 * a + n % 256 && a == q * b + a % q;
    var r := 256 * (a % q) + n % 256;
    assert n == (256 * q) * b + r && 0 <= r < 256 * q by {
      assert 256 * (q * b) == (256 * q) * b;
    }
    QuotientUnique(n, 256 * q, b, r);
  }

  lemma {:induction false} QuotientUnique(n: nat, d: nat, b: nat, r: nat)
    requires d > 0 && n == d * b + r && r < d
    ensures n / d == b
  {
    var c := n / d;
    assert n == d * c + n % d;
    if c < b {
      MulMonotone(d, c, b);
    } else if b < c {
      MulMonotone(d, b, c);
    }
  }

  lemma {:induction false} MulMonotone(d: nat, x: nat, y: nat)
    requires x < y
    ensures d * x + d <= d * y
  {
    if x + 1 < y {
      MulMonotone(d, x, y - 1);
    }
    assert d * y == d * (y - 1) + d;
  }

  lemma {:induction false} DivMod(high: nat, low: byte)
    ensures (high * 256 + low) / 256 == high && (high * 256 + low) % 256 == low
  {
  }

  lemma {:induction false} PutGet(b: Bytes)
    ensures PutUint(GetUint(b), |b|) == b
    decreases |b|
  {
    if |b| > 0 {
      PutGet(b[..|b| - 1]);
      DivMod(GetUint(b[..|b| - 1]), b[|b| - 1]);
      assert b == b[..|b| - 1] + [b[|b| - 1]];
    }
  }

  /** Big-endian encoding names a number uniquely while it fits. */
  lemma {:induction false} PutInjective(m: nat, n: nat, w: nat)
    requires m < Pow256(w) && n < Pow256(w)
    requires PutUint(m, w) == PutUint(n, w)
    ensures m == n
  {
    GetPut(m, w);
    GetPut(n, w);
  }

  /** The fixed widths of the wire formats: 16, 32 and 64 bits. */
  lemma {:induction false} GetPut2(n: nat)
    requires n < 0x1_0000
    ensures GetUint(PutUint(n, 2)) == n
  {
    PowWidths();
    GetPut(n, 2);
  }

  lemma {:induction false} GetPut4(n: nat)
    requires n < TWO_32
    ensures GetUint(PutUint(n, 4)) == n
  {
    PowWidths();
    GetPut(n, 4);
  }

  lemma {:induction false} GetPut8(n: nat)
    requires n < TWO_64
    ensures GetUint(PutUint(n, 8)) == n
  {
    PowWidths();
    GetPut(n, 8);
  }
}
