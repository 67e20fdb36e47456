// The "LIID-CIN" strings that name one communication session of one intercept, written by
// snprintf("%s-%u") in the tracker, the forwarder and the collector threads.
module Keys {
  function Digit(d: nat): char
    requires d < 10
  {
    ['0', '1', '2', '3', '4', '5', '6', '7', '8', '9'][d]
  }

  // %u
  function Decimal(n: nat): (s: string)
    ensures |s| > 0 && forall i :: 0 <= i < |s| ==> s[i] != '-'
  {
    if n < 10 then [Digit(n)] else Decimal(n / 10) + [Digit(n % 10)]
  }

  function DigitValue(c: char): nat {
    if '0' <= c <= '9' then (c - '0') as nat else 0
  }

  function Value(s: string): nat {
    if s == "" then 0 else 10 * Value(s[..|s| - 1]) + DigitValue(s[|s| - 1])
  }

  lemma {:induction false} ValueDecimal(n: nat)
    ensures Value(Decimal(n)) == n
  {
    if n < 10 {
      assert Decimal(n)[..0] == "";
    } else {
      ValueDecimal(n / 10);
      assert Decimal(n)[..|Decimal(n)| - 1] == Decimal(n / 10);
    }
  }

  // "%s-%u"
  function SessionKey(liid: string, cin: nat): string {
    liid + "-" + Decimal(cin)
  }

  // Distinct (LIID, CIN) pairs get distinct keys, even when the LIID itself contains '-'.
  lemma SessionKeyInjective(liid: string, cin: nat, liid': string, cin': nat)
    requires SessionKey(liid, cin) == SessionKey(liid', cin')
    ensures liid == liid' && cin == cin'
  {
    var k, k' := SessionKey(liid, cin), SessionKey(liid', cin');
    assert k[|liid|] == '-' && k'[|liid'|] == '-';
    assert forall i :: |liid| < i < |k| ==> k[i] == Decimal(cin)[i - |liid| - 1];
    assert forall i :: |liid'| < i < |k'| ==> k'[i] == Decimal(cin')[i - |liid'| - 1];
    assert |liid| == |liid'|;
    assert liid == k[..|liid|] && liid' == k'[..|liid'|];
    assert Decimal(cin) == k[|liid| + 1..] && Decimal(cin') == k'[|liid'| + 1..];
    ValueDecimal(cin);
    ValueDecimal(cin');
  }
}
