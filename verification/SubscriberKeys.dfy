/** The keys under which a session files its subscribers (pkg/relay/session.go): "address#serial". */
module SubscriberKeys {

  function Digit(d: nat): (c: char)
    requires d < 10
    ensures c != '#'
  {
    "0123456789"[d]
  }

  function Decimal(n: nat): (s: string)
    ensures s != []
    ensures forall i :: 0 <= i < |s| ==> s[i] != '#'
  {
    if n < 10 then [Digit(n)] else Decimal(n / 10) + [Digit(n % 10)]
  }

  function SubscriberKey(addr: string, serial: nat): (k: string) {
    addr + "#" + Decimal(serial)
  }

  lemma {:induction false} DigitInjective(a: nat, b: nat)
    requires a < 10 && b < 10 && Digit(a) == Digit(b)
    ensures a == b
  {
    var t := "0123456789";
    assert t[0] == '0' && t[1] == '1' && t[2] == '2' && t[3] == '3' && t[4] == '4';
    assert t[5] == '5' && t[6] == '6' && t[7] == '7' && t[8] == '8' && t[9] == '9';
  }

  lemma {:induction false} DecimalInjective(m: nat, n: nat)
    requires Decimal(m) == Decimal(n)
    ensures m == n
    decreases m + n
  {
    var s, t := Decimal(m), Decimal(n);
    assert s[|s| - 1] == Digit(m % 10) && t[|t| - 1] == Digit(n % 10);
    DigitInjective(m % 10, n % 10);
    if m >= 10 && n >= 10 {
      assert s[..|s| - 1] == Decimal(m / 10) && t[..|t| - 1] == Decimal(n / 10);
      DecimalInjective(m / 10, n / 10);
    }
  }

  /** Two subscribers never share a key, even when they share an address or an address contains '#'. */
  lemma {:induction false} KeyInjective(a: string, m: nat, b: string, n: nat)
    requires SubscriberKey(a, m) == SubscriberKey(b, n)
    ensures a == b && m == n
  {
    var k := SubscriberKey(a, m);
    assert k[|a|] == '#' && k[|b|] == '#';
    assert forall i :: |a| < i < |k| ==> k[i] == Decimal(m)[i - |a| - 1];
    assert forall i :: |b| < i < |k| ==> k[i] == Decimal(n)[i - |b| - 1];
    assert |a| == |b|;
    assert k[..|a|] == a && k[..|b|] == b;
    assert k[|a| + 1..] == Decimal(m) && k[|b| + 1..] == Decimal(n);
    DecimalInjective(m, n);
  }
}
