/**
 sanitizeTextOutput (pkg/feed/subscriber.go): one left-to-right pass that deletes terminal escape sequences and
 control bytes, taking the first alternative of the regular expression that matches.
 */
module Sanitizer {
  import opened ByteStrings
  import opened Sequences

  const ESC: byte := 0x1B
  const BEL: byte := 0x07
  const BRACKET: byte := 0x5B      // [
  const CLOSE_BRACKET: byte := 0x5D  // ]
  const BACKSLASH: byte := 0x5C

  /** C0 controls and DEL, but not tab, line feed and carriage return. */
  predicate Control(b: byte) {
    b <= 0x08 || b == 0x0B || b == 0x0C || 0x0E <= b <= 0x1F || b == 0x7F
  }

  predicate Clean(s: Bytes) {
    forall i :: 0 <= i < |s| ==> !Control(s[i])
  }

  predicate CsiParameter(b: byte) {
    0x30 <= b <= 0x39 || b == 0x3B
  }

  predicate Letter(b: byte) {
    0x41 <= b <= 0x5A || 0x61 <= b <= 0x7A
  }

  predicate OscBody(b: byte) {
    b != BEL && b != ESC
  }

  /** The longest run of bytes satisfying a class: greedy repetition, and no later part of the pattern gives any back. */
  function CsiRun(s: Bytes): (n: nat)
    ensures n <= |s|
  {
    if s != [] && CsiParameter(s[0]) then 1 + CsiRun(s[1..]) else 0
  }

  function OscRun(s: Bytes): (n: nat)
    ensures n <= |s|
  {
    if s != [] && OscBody(s[0]) then 1 + OscRun(s[1..]) else 0
  }

  predicate Continuation(s: Bytes, i: nat, lo: byte, hi: byte) {
    i < |s| && lo <= s[i] <= hi
  }

  /** Bytes of the UTF-8 character at the front, 1 when it is not well formed (utf8.DecodeRune). */
  function RuneLength(s: Bytes): (n: nat)
    requires s != []
    ensures 1 <= n <= |s|
  {
    var b := s[0];
    if 0xC2 <= b <= 0xDF && Continuation(s, 1, 0x80, 0xBF) then 2
    else if 0xE0 <= b <= 0xEF
      && Continuation(s, 1, if b == 0xE0 then 0xA0 else 0x80, if b == 0xED then 0x9F else 0xBF)
      && Continuation(s, 2, 0x80, 0xBF) then 3
    else if 0xF0 <= b <= 0xF4
      && Continuation(s, 1, if b == 0xF0 then 0x90 else 0x80, if b == 0xF4 then 0x8F else 0xBF)
      && Continuation(s, 2, 0x80, 0xBF) && Continuation(s, 3, 0x80, 0xBF) then 4
    else 1
  }

  /** ESC [ parameters letter */
  function CsiLength(s: Bytes): (n: nat)
    ensures n <= |s|
  {
    if |s| >= 2 && s[0] == ESC && s[1] == BRACKET then
      var k := 2 + CsiRun(s[2..]);
      if k < |s| && Letter(s[k]) then k + 1 else 0
    else 0
  }

  /** ESC ] body, ended by BEL or by ESC \ */
  function OscLength(s: Bytes): (n: nat)
    ensures n <= |s|
  {
    if |s| >= 2 && s[0] == ESC && s[1] == CLOSE_BRACKET then
      var k := 2 + OscRun(s[2..]);
      if k < |s| && s[k] == BEL then k + 1
      else if k + 1 < |s| && s[k] == ESC && s[k + 1] == BACKSLASH then k + 2
      else 0
    else 0
  }

  /** How many bytes the expression matches at the front, 0 if it does not match. */
  function MatchLength(s: Bytes): (n: nat)
    requires s != []
    ensures n <= |s|
    ensures n == 0 <==> !Control(s[0])
  {
    if CsiLength(s) > 0 then CsiLength(s)
    else if OscLength(s) > 0 then OscLength(s)
    else if s[0] == ESC && |s| > 1 && s[1] != ESC then 1 + RuneLength(s[1..])
    else if Control(s[0]) then 1
    else 0
  }

  function Sanitize(s: Bytes): (r: Bytes)
    decreases |s|
  {
    if s == [] then []
    else if MatchLength(s) > 0 then Sanitize(s[MatchLength(s)..])
    else [s[0]] + Sanitize(s[1..])
  }

  /** Nothing is invented or reordered. */
  lemma {:induction false} SanitizeSubsequence(s: Bytes)
    ensures Subsequence(Sanitize(s), s)
    decreases |s|
  {
    if s != [] {
      var n := MatchLength(s);
      if n > 0 {
        SanitizeSubsequence(s[n..]);
        Concat([], s[..n], Sanitize(s[n..]), s[n..]);
        assert s == s[..n] + s[n..] && [] + Sanitize(s[n..]) == Sanitize(s[n..]);
      } else {
        SanitizeSubsequence(s[1..]);
        Reflexive([s[0]]);
        Concat([s[0]], [s[0]], Sanitize(s[1..]), s[1..]);
        assert s == [s[0]] + s[1..];
      }
    }
  }

  /** No control byte other than tab, line feed and carriage return survives. */
  lemma {:induction false} SanitizeClean(s: Bytes)
    ensures Clean(Sanitize(s))
    decreases |s|
  {
    if s != [] {
      if MatchLength(s) > 0 {
        SanitizeClean(s[MatchLength(s)..]);
      } else {
        SanitizeClean(s[1..]);
      }
    }
  }

  /** Clean text in front is kept as it is, whatever follows. */
  lemma {:induction false} SanitizeKeepsText(a: Bytes, b: Bytes)
    requires Clean(a)
    ensures Sanitize(a + b) == a + Sanitize(b)
    decreases |a|
  {
    if a == [] {
      assert a + b == b;
    } else {
      assert (a + b)[0] == a[0] && (a + b)[1..] == a[1..] + b;
      SanitizeKeepsText(a[1..], b);
      assert a == [a[0]] + a[1..];
    }
  }

  lemma {:induction false} SanitizeIdentity(s: Bytes)
    requires Clean(s)
    ensures Sanitize(s) == s
  {
    SanitizeKeepsText(s, []);
    assert s + [] == s;
  }

  lemma {:induction false} SanitizeIdempotent(s: Bytes)
    ensures Sanitize(Sanitize(s)) == Sanitize(s)
  {
    SanitizeClean(s);
    SanitizeIdentity(Sanitize(s));
  }

  // ----- exactly what is stripped -----

  /** Text as the terminal would tokenize it. */
  datatype Token =
    | Text(bytes: Bytes)
    | Csi(parameters: Bytes, final: byte)
    | Osc(body: Bytes, bel: bool)
    | EscChar(rune: Bytes)
    | Ctl(b: byte)

  predicate WellFormed(t: Token) {
    match t
    case Text(bytes) => Clean(bytes)
    case Csi(ps, f) => (forall i :: 0 <= i < |ps| ==> CsiParameter(ps[i])) && Letter(f)
    case Osc(body, _) => forall i :: 0 <= i < |body| ==> OscBody(body[i])
    case EscChar(r) => r != [] && r[0] !in {ESC, BRACKET, CLOSE_BRACKET} && RuneLength(r) == |r| && (|r| > 1 || r[0] < 0x80)
    case Ctl(b) => Control(b) && b != ESC
  }

  function Print(t: Token): (s: Bytes) {
    match t
    case Text(bytes) => bytes
    case Csi(ps, f) => [ESC, BRACKET] + ps + [f]
    case Osc(body, bel) => [ESC, CLOSE_BRACKET] + body + (if bel then [BEL] else [ESC, BACKSLASH])
    case EscChar(r) => [ESC] + r
    case Ctl(b) => [b]
  }

  function PrintAll(ts: seq<Token>): (s: Bytes) {
    if ts == [] then [] else Print(ts[0]) + PrintAll(ts[1..])
  }

  function TextOf(ts: seq<Token>): (s: Bytes) {
    if ts == [] then [] else (if ts[0].Text? then ts[0].bytes else []) + TextOf(ts[1..])
  }

  lemma {:induction false} CsiRunStops(ps: Bytes, rest: Bytes)
    requires forall i :: 0 <= i < |ps| ==> CsiParameter(ps[i])
    requires rest != [] && !CsiParameter(rest[0])
    ensures CsiRun(ps + rest) == |ps|
    decreases |ps|
  {
    if ps == [] {
      assert ps + rest == rest;
    } else {
      assert (ps + rest)[1..] == ps[1..] + rest;
      CsiRunStops(ps[1..], rest);
    }
  }

  lemma {:induction false} OscRunStops(body: Bytes, rest: Bytes)
    requires forall i :: 0 <= i < |body| ==> OscBody(body[i])
    requires rest != [] && !OscBody(rest[0])
    ensures OscRun(body + rest) == |body|
    decreases |body|
  {
    if body == [] {
      assert body + rest == rest;
    } else {
      assert (body + rest)[1..] == body[1..] + rest;
      OscRunStops(body[1..], rest);
    }
  }

  lemma {:induction false} CsiMatches(ps: Bytes, f: byte, rest: Bytes)
    requires WellFormed(Csi(ps, f))
    ensures MatchLength(Print(Csi(ps, f)) + rest) == |ps| + 3
  {
    var s := Print(Csi(ps, f)) + rest;
    assert s[2..] == ps + ([f] + rest);
    CsiRunStops(ps, [f] + rest);
    assert s[2 + |ps|] == f;
  }

  lemma {:induction false} OscMatches(body: Bytes, bel: bool, rest: Bytes)
    requires WellFormed(Osc(body, bel))
    ensures MatchLength(Print(Osc(body, bel)) + rest) == |Print(Osc(body, bel))|
  {
    var s := Print(Osc(body, bel)) + rest;
    var tail := (if bel then [BEL] else [ESC, BACKSLASH]) + rest;
    assert s[2..] == body + tail;
    OscRunStops(body, tail);
    assert s[2 + |body|] == tail[0] && (!bel ==> s[2 + |body| + 1] == tail[1]);
  }

  lemma {:induction false} EscCharMatches(r: Bytes, rest: Bytes)
    requires WellFormed(EscChar(r))
    ensures MatchLength(Print(EscChar(r)) + rest) == |r| + 1
  {
    var s := Print(EscChar(r)) + rest;
    assert s[1] == r[0];
    assert s[1..] == r + rest;
  }

  /** A complete escape sequence or a control byte in front is deleted, and nothing more. */
  lemma {:induction false} SequenceStripped(t: Token, rest: Bytes)
    requires WellFormed(t) && !t.Text?
    ensures Sanitize(Print(t) + rest) == Sanitize(rest)
  {
    var s := Print(t) + rest;
    assert MatchLength(s) == |Print(t)| by {
      match t {
        case Csi(ps, f) => CsiMatches(ps, f, rest);
        case Osc(body, bel) => OscMatches(body, bel, rest);
        case EscChar(r) => EscCharMatches(r, rest);
        case Ctl(b) =>
      }
    }
    assert s[|Print(t)|..] == rest;
  }

  /** For every sequence of tokens, exactly the text remains. */
  lemma {:induction false} StripsExactlyTheSequences(ts: seq<Token>)
    requires forall i :: 0 <= i < |ts| ==> WellFormed(ts[i])
    ensures Sanitize(PrintAll(ts)) == TextOf(ts)
  {
    if ts != [] {
      StripsExactlyTheSequences(ts[1..]);
      assert WellFormed(ts[0]);
      if ts[0].Text? {
        SanitizeKeepsText(ts[0].bytes, PrintAll(ts[1..]));
      } else {
        SequenceStripped(ts[0], PrintAll(ts[1..]));
      }
    }
  }
}
