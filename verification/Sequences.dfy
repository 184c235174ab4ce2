/** Subsequences: the same elements in the same order, some left out. */
module Sequences {

  predicate Subsequence<T(==)>(a: seq<T>, b: seq<T>) {
    if a == [] then true
    else if b == [] then false
    else if a[|a| - 1] == b[|b| - 1] then Subsequence(a[..|a| - 1], b[..|b| - 1])
    else Subsequence(a, b[..|b| - 1])
  }

  /** Adding an element at the end of the larger sequence. */
  lemma {:induction false} Widen<T>(a: seq<T>, b: seq<T>, x: T)
    requires Subsequence(a, b)
    ensures Subsequence(a, b + [x])
    decreases |b|, 1
  {
    var c := b + [x];
    assert c[..|c| - 1] == b && c[|c| - 1] == x;
    if a != [] && a[|a| - 1] == x {
      DropLast(a, b);
    }
  }

  lemma {:induction false} DropLast<T>(a: seq<T>, b: seq<T>)
    requires a != [] && Subsequence(a, b)
    ensures Subsequence(a[..|a| - 1], b)
    decreases |b|, 0
  {
    var a', b', y := a[..|a| - 1], b[..|b| - 1], b[|b| - 1];
    assert b' + [y] == b;
    if a[|a| - 1] == y {
      Widen(a', b', y);
    } else {
      DropLast(a, b');
      Widen(a', b', y);
    }
  }

  lemma {:induction false} Concat<T>(a: seq<T>, b: seq<T>, c: seq<T>, d: seq<T>)
    requires Subsequence(a, b) && Subsequence(c, d)
    ensures Subsequence(a + c, b + d)
    decreases |d|
  {
    if d == [] {
      assert a + c == a && b + d == b;
    } else {
      var d', y := d[..|d| - 1], d[|d| - 1];
      assert (b + d)[..|b + d| - 1] == b + d' && (b + d)[|b + d| - 1] == y;
      if c != [] && c[|c| - 1] == y {
        Concat(a, b, c[..|c| - 1], d');
        assert (a + c)[..|a + c| - 1] == a + c[..|c| - 1];
      } else {
        assert Subsequence(c, d');
        Concat(a, b, c, d');
        Widen(a + c, b + d', y);
        assert b + d == b + d' + [y];
      }
    }
  }

  lemma {:induction false} Reflexive<T>(a: seq<T>)
    ensures Subsequence(a, a)
  {
    if a != [] {
      Reflexive(a[..|a| - 1]);
    }
  }

  lemma {:induction false} SubsequenceTrans<T>(a: seq<T>, b: seq<T>, c: seq<T>)
    requires Subsequence(a, b) && Subsequence(b, c)
    ensures Subsequence(a, c)
    decreases |c|
  {
    if a != [] {
      var b', c' := b[..|b| - 1], c[..|c| - 1];
      if b[|b| - 1] != c[|c| - 1] {
        SubsequenceTrans(a, b, c');
        Widen(a, c', c[|c| - 1]);
        assert c' + [c[|c| - 1]] == c;
      } else if a[|a| - 1] == b[|b| - 1] {
        SubsequenceTrans(a[..|a| - 1], b', c');
      } else {
        SubsequenceTrans(a, b', c');
      }
    }
  }

  lemma {:induction false} PrefixSubsequence<T>(a: seq<T>, b: seq<T>, c: seq<T>)
    requires Subsequence(a, b) && b <= c
    ensures Subsequence(a, c)
    decreases |c|
  {
    if |b| < |c| {
      var c' := c[..|c| - 1];
      PrefixSubsequence(a, b, c');
      Widen(a, c', c[|c| - 1]);
      assert c' + [c[|c| - 1]] == c;
    } else {
      assert b == c;
    }
  }
}
