/** HKDF-SHA256 (pkg/crypto/cipher.go): the expand loop with in-place wiping, against section 2.3 of RFC 5869. */
module Hkdf {
  import opened Wrappers
  import opened ByteStrings
  import opened Primitives

  const HASH_SIZE := 32

  datatype HkdfError = EmptySecret

  function Ascii(s: string): (b: Bytes)
    ensures |b| == |s|
  {
    seq(|s|, i requires 0 <= i < |s| => (s[i] as int) % 256)
  }

  /** T(i) of RFC 5869, with the one-byte counter the code keeps. */
  function Block(c: Suite, prk: Bytes, info: Bytes, i: nat): (t: Bytes)
    ensures |t| == if i == 0 then 0 else HASH_SIZE
  {
    if i == 0 then [] else c.mac(prk, Block(c, prk, info, i - 1) + info + [i % 256])
  }

  /** T(1) | T(2) | ... | T(n). */
  function Stream(c: Suite, prk: Bytes, info: Bytes, n: nat): (s: Bytes)
    ensures |s| == HASH_SIZE * n
  {
    if n == 0 then [] else Stream(c, prk, info, n - 1) + Block(c, prk, info, n)
  }

  function BlockCount(length: nat): (n: nat)
    ensures HASH_SIZE * n >= length
    ensures n == 0 || HASH_SIZE * (n - 1) < length
  {
    (length + HASH_SIZE - 1) / HASH_SIZE
  }

  lemma {:induction false} BlockCountUnique(n: nat, length: nat)
    requires HASH_SIZE * n >= length && (n == 0 || HASH_SIZE * (n - 1) < length)
    ensures n == BlockCount(length)
  {
  }

  /** HKDF-Expand of RFC 5869. */
  function Expand(c: Suite, prk: Bytes, info: Bytes, length: nat): (okm: Bytes)
    ensures |okm| == length
  {
    Stream(c, prk, info, BlockCount(length))[..length]
  }

  function Extract(c: Suite, secret: Bytes, salt: Bytes): (prk: Key) {
    c.mac(if salt == [] then Ascii("zerofeed-v2-default-salt") else salt, secret)
  }

  function Derive(c: Suite, secret: Bytes, salt: Bytes, info: Bytes, length: nat): (r: Result<Bytes, HkdfError>)
    ensures r.Ok? <==> secret != []
    ensures r.Ok? ==> |r.value| == length
  {
    if secret == [] then Err(EmptySecret) else Ok(Expand(c, Extract(c, secret, salt), info, length))
  }

  /** Read as characters again, the bytes are the string. */
  lemma {:induction false} AsciiReadsBack(s: string, i: nat)
    requires i < |s| && s[i] <= '~'
    ensures Ascii(s)[i] as char == s[i]
  {
  }

  /** One block is two HMACs: the salt keys the first one, over the secret; its result keys the second one, over the label
      and the counter 1. An empty salt is replaced by a fixed one. */
  lemma {:induction false} DeriveIsTwoMacs(c: Suite, secret: Bytes, salt: Bytes, info: Bytes)
    requires secret != []
    ensures Derive(c, secret, salt, info, 32)
         == Ok(c.mac(c.mac(if salt == [] then Ascii("zerofeed-v2-default-salt") else salt, secret), info + [1]))
  {
    var prk := Extract(c, secret, salt);
    assert BlockCount(32) == 1;
    assert Block(c, prk, info, 0) + info + [1] == info + [1];
    assert Stream(c, prk, info, 0) + Block(c, prk, info, 1) == Block(c, prk, info, 1);
    assert Block(c, prk, info, 1)[..32] == Block(c, prk, info, 1);
  }

  lemma {:induction false} StreamPrefix(c: Suite, prk: Bytes, info: Bytes, m: nat, n: nat)
    requires m <= n
    ensures Stream(c, prk, info, m) <= Stream(c, prk, info, n)
    decreases n
  {
    if m < n {
      StreamPrefix(c, prk, info, m, n - 1);
    }
  }

  /** A shorter output is a prefix of a longer one. */
  lemma {:induction false} ShorterIsPrefix(c: Suite, secret: Bytes, salt: Bytes, info: Bytes, short: nat, long: nat)
    requires short <= long && secret != []
    ensures Derive(c, secret, salt, info, short).value <= Derive(c, secret, salt, info, long).value
  {
    StreamPrefix(c, Extract(c, secret, salt), info, BlockCount(short), BlockCount(long));
  }

  /** T(1) | ... | T(n) exactly as section 2.3 of RFC 5869 writes it: defined for at most 255 blocks. */
  function RfcBlock(c: Suite, prk: Bytes, info: Bytes, i: nat): (t: Bytes)
    requires i <= 255
  {
    if i == 0 then [] else c.mac(prk, RfcBlock(c, prk, info, i - 1) + info + [i])
  }

  function RfcStream(c: Suite, prk: Bytes, info: Bytes, n: nat): (s: Bytes)
    requires n <= 255
    decreases n
  {
    if n == 0 then [] else RfcStream(c, prk, info, n - 1) + RfcBlock(c, prk, info, n)
  }

  lemma {:induction false} BlockIsRfc(c: Suite, prk: Bytes, info: Bytes, i: nat)
    requires i <= 255
    ensures Block(c, prk, info, i) == RfcBlock(c, prk, info, i)
  {
    if i > 0 {
      BlockIsRfc(c, prk, info, i - 1);
    }
  }

  lemma {:induction false} StreamIsRfc(c: Suite, prk: Bytes, info: Bytes, n: nat)
    requires n <= 255
    ensures Stream(c, prk, info, n) == RfcStream(c, prk, info, n)
  {
    if n > 0 {
      StreamIsRfc(c, prk, info, n - 1);
      BlockIsRfc(c, prk, info, n);
    }
  }

  /** Up to the RFC's limit the output is a prefix of the RFC's stream, however far that stream is taken. */
  lemma {:induction false} MatchesRfc(c: Suite, secret: Bytes, salt: Bytes, info: Bytes, length: nat, n: nat)
    requires secret != [] && length <= HASH_SIZE * n && n <= 255
    ensures Derive(c, secret, salt, info, length).value
         <= RfcStream(c, c.mac(if salt == [] then Ascii("zerofeed-v2-default-salt") else salt, secret), info, n)
  {
    var prk := Extract(c, secret, salt);
    StreamIsRfc(c, prk, info, n);
    StreamPrefix(c, prk, info, BlockCount(length), n);
  }

  method ZeroBytes(b: array<byte>)
    modifies b
    ensures b[..] == Zeros(b.Length)
  {
    for i := 0 to b.Length
      invariant forall j :: 0 <= j < i ==> b[j] == 0
    {
      b[i] := 0;
    }
  }

  method Append(a: array<byte>, b: array<byte>) returns (r: array<byte>)
    ensures fresh(r)
    ensures r[..] == a[..] + b[..]
  {
    r := new byte[a.Length + b.Length](
      i requires 0 <= i < a.Length + b.Length reads a, b => if i < a.Length then a[i] else b[i - a.Length]);
  }

  method FromBytes(s: Bytes) returns (r: array<byte>)
    ensures fresh(r)
    ensures r[..] == s
  {
    r := new byte[|s|](i requires 0 <= i < |s| => s[i]);
  }

  /** The next block, after which the previous one is wiped. */
  method NextBlock(c: Suite, prk: array<byte>, prev: array<byte>, info: Bytes, counter: byte) returns (next: array<byte>)
    requires prk != prev
    modifies prev
    ensures fresh(next) && next[..] == c.mac(prk[..], old(prev[..]) + info + [counter])
  {
    next := FromBytes(c.mac(prk[..], prev[..] + info + [counter]));
    if prev.Length > 0 {
      ZeroBytes(prev);
    }
  }

  /** After n turns: the last block, and all blocks so far. */
  predicate AfterTurns(c: Suite, prk: Bytes, info: Bytes, n: nat, prev: Bytes, okm: Bytes) {
    prev == Block(c, prk, info, n) && okm == Stream(c, prk, info, n)
  }

  lemma {:induction false} NextTurnIs(c: Suite, prk: Bytes, info: Bytes, n: nat, prev: Bytes, okm: Bytes)
    requires AfterTurns(c, prk, info, n, prev, okm)
    ensures var block := c.mac(prk, prev + info + [(n + 1) % 256]); AfterTurns(c, prk, info, n + 1, block, okm + block)
  {
  }

  /** One turn of the loop: the next block is computed, the previous one wiped, the output extended. */
  method NextTurn(c: Suite, prk: array<byte>, prev: array<byte>, okm: array<byte>, info: Bytes, counter: byte, ghost n: nat)
    returns (block: array<byte>, output: array<byte>)
    requires prk != prev && prev != okm && counter == (n + 1) % 256 && AfterTurns(c, prk[..], info, n, prev[..], okm[..])
    modifies prev
    ensures fresh(block) && fresh(output) && block != output
    ensures AfterTurns(c, old(prk[..]), info, n + 1, block[..], output[..])
  {
    ghost var done := okm[..];
    NextTurnIs(c, prk[..], info, n, prev[..], okm[..]);
    block := NextBlock(c, prk, prev, info, counter);
    assert okm[..] == done;
    output := Append(okm, block);
  }

  /** The result is copied out before all three buffers are wiped. */
  method TakeAndWipe(prk: array<byte>, prev: array<byte>, okm: array<byte>, length: nat) returns (result: Bytes)
    requires length <= okm.Length && prk != prev && prk != okm && prev != okm
    modifies prk, prev, okm
    ensures result == old(okm[..length])
    ensures prk[..] == Zeros(prk.Length) && prev[..] == Zeros(prev.Length) && okm[..] == Zeros(okm.Length)
  {
    if prev.Length > 0 {
      ZeroBytes(prev);
    }
    result := okm[..length];
    ZeroBytes(okm);
    ZeroBytes(prk);
  }

  /** The loop of HKDFSHA256: it wipes the previous block in place, after its last use. */
  method Blocks(c: Suite, prk: array<byte>, info: Bytes, length: nat) returns (prev: array<byte>, okm: array<byte>)
    ensures fresh(prev) && fresh(okm) && prev != okm && okm[..] == Stream(c, prk[..], info, BlockCount(length))
    ensures prk[..] == old(prk[..])
  {
    ghost var p := prk[..];
    okm := new byte[0];
    prev := new byte[0];
    assert okm[..] == [] && prev[..] == [];
    var counter: byte := 1;
    ghost var n := 0;
    while okm.Length < length
      invariant fresh(prev) && fresh(okm) && prev != okm && prk[..] == p
      invariant counter == (n + 1) % 256 && AfterTurns(c, p, info, n, prev[..], okm[..]) && okm.Length == HASH_SIZE * n
      invariant n == 0 || HASH_SIZE * (n - 1) < length
      decreases length - okm.Length
    {
      prev, okm := NextTurn(c, prk, prev, okm, info, counter, n);
      counter := (counter + 1) % 256;
      n := n + 1;
    }
    BlockCountUnique(n, length);
  }

  /** HKDFSHA256: the result is copied out, and every buffer is wiped. */
  method HkdfSha256(c: Suite, secret: Bytes, salt: Bytes, info: Bytes, length: nat)
    returns (r: Result<Bytes, HkdfError>)
    ensures r == Derive(c, secret, salt, info, length)
  {
    if |secret| == 0 {
      return Err(EmptySecret);
    }
    var prk := FromBytes(Extract(c, secret, salt));
    var prev, okm := Blocks(c, prk, info, length);
    var result := TakeAndWipe(prk, prev, okm, length);
    return Ok(result);
  }

  /** RatchetKey: the next stream key. */
  function Ratchet(c: Suite, key: Key, salt: Bytes): (next: Key) {
    Derive(c, key, salt, Ascii("zerofeed-v2-key-ratchet-pfs"), 32).value
  }

  /** The next key in terms of HMAC alone. */
  function NextKey(c: Suite, key: Key, salt: Bytes): (next: Key) {
    c.mac(c.mac(if salt == [] then Ascii("zerofeed-v2-default-salt") else salt, key), Ascii("zerofeed-v2-key-ratchet-pfs") + [1])
  }

  lemma {:induction false} RatchetIsTwoMacs(c: Suite, key: Key, salt: Bytes)
    ensures Ratchet(c, key, salt) == NextKey(c, key, salt)
    ensures Ratchet(c, key, salt)
         == c.mac(c.mac(if salt == [] then Ascii("zerofeed-v2-default-salt") else salt, key), Ascii("zerofeed-v2-key-ratchet-pfs") + [1])
  {
    DeriveIsTwoMacs(c, key, salt, Ascii("zerofeed-v2-key-ratchet-pfs"));
  }

  /** 32 times the same byte. */
  function Repeated(b: byte): (k: Key)
    ensures k[0] == b
  {
    seq(32, _ => b)
  }

  /** An HMAC that tells one salt from all others when it is applied to a key, and keeps the results apart. */
  function TellingMac(salt: Bytes, a: Key, b: Key): (Bytes, Bytes) -> Key {
    (k, m) => if |m| == 32 then (if k == salt then Repeated(1) else Repeated(2)) else if k == Repeated(1) then a else b
  }

  /** The salt matters and so does the ratchet: for any key and two salts, some lawful suite gives two different next keys,
      neither of them the old one, if and only if the salts are not the empty one and the fixed one that replaces it. */
  lemma {:induction false} RatchetSeparatesIff(key: Key, s: Bytes, t: Bytes)
    ensures (exists c: Suite :: Ratchet(c, key, s) != Ratchet(c, key, t) && Ratchet(c, key, s) != key && Ratchet(c, key, t) != key)
      <==> (if s == [] then Ascii("zerofeed-v2-default-salt") else s) != (if t == [] then Ascii("zerofeed-v2-default-salt") else t)
  {
    var s', t' := if s == [] then Ascii("zerofeed-v2-default-salt") else s, if t == [] then Ascii("zerofeed-v2-default-salt") else t;
    if s' != t' {
      var n: int := key[0];
      var a, b := Repeated((n + 1) % 256), Repeated((n + 2) % 256);
      var c: Suite := WithMac(TellingMac(s', a, b));
      RatchetIsTwoMacs(c, key, s);
      RatchetIsTwoMacs(c, key, t);
      assert Ratchet(c, key, s) == a && Ratchet(c, key, t) == b;
    } else {
      forall c: Suite
        ensures Ratchet(c, key, s) == Ratchet(c, key, t)
      {
        RatchetIsTwoMacs(c, key, s);
        RatchetIsTwoMacs(c, key, t);
      }
    }
  }
}
