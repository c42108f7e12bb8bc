/** The string under which the physical place of a logical port is remembered: device id, colon, decimal port number. */
module PortKeys {

  function Digit(d: nat): (c: char)
    requires d < 10
    ensures c != ':'
  {
    '0' + d as char
  }

  function Decimal(n: nat): (s: string)
    ensures s != []
    ensures forall i | 0 <= i < |s| :: s[i] != ':'
  {
    if n < 10 then [Digit(n)] else Decimal(n / 10) + [Digit(n % 10)]
  }

  function Concat(deviceId: string, portNo: nat): string {
    deviceId + ":" + Decimal(portNo)
  }

  lemma {:induction false} DecimalInjective(a: nat, b: nat)
    requires Decimal(a) == Decimal(b)
    ensures a == b
  {
    var s, t := Decimal(a), Decimal(b);
    assert s[|s| - 1] == Digit(a % 10) && t[|t| - 1] == Digit(b % 10);
    if a >= 10 && b >= 10 {
      assert Decimal(a / 10) == s[..|s| - 1] && Decimal(b / 10) == t[..|t| - 1];
      DecimalInjective(a / 10, b / 10);
    }
  }

  /** Two places never share a key, whatever the device ids contain. */
  lemma ConcatInjective(d: string, p: nat, e: string, q: nat)
    requires Concat(d, p) == Concat(e, q)
    ensures d == e && p == q
  {
    var key := Concat(d, p);
    assert key[|d|] == ':' && key[|e|] == ':';
    assert forall i | |d| < i < |key| :: key[i] == Decimal(p)[i - |d| - 1];
    assert forall i | |e| < i < |key| :: key[i] == Decimal(q)[i - |e| - 1];
    assert |d| == |e|;
    assert Decimal(p) == key[|d| + 1..] == Decimal(q);
    assert d == key[..|d|] == e;
    DecimalInjective(p, q);
  }
}
