/** Which tool ids get renamed, and the ids they get instead (routing/sanitize.py). */
module ProxyIds {
  import opened Bytes
  import opened Renamings

  // ---------- decimal numbers ----------

  function Digit(n: nat): char
    requires n < 10
  {
    ('0' as int + n) as char
  }

  function Decimal(n: nat): (r: string)
    ensures r != ""
  {
    if n < 10 then [Digit(n)] else Decimal(n / 10) + [Digit(n % 10)]
  }

  /** At least four digits, as the format `04d` writes them. */
  function FourDigits(n: nat): string {
    if |Decimal(n)| < 4 then Zeros(4 - |Decimal(n)|) + Decimal(n) else Decimal(n)
  }

  function ValueOf(s: string): int {
    if s == "" then 0 else 10 * ValueOf(s[..|s| - 1]) + (s[|s| - 1] as int - '0' as int)
  }

  lemma ValueSnoc(s: string, d: nat)
    requires d < 10
    ensures ValueOf(s + [Digit(d)]) == 10 * ValueOf(s) + d
  {
  }

  lemma {:induction false} DecimalValue(zeros: nat, n: nat)
    ensures ValueOf(Zeros(zeros) + Decimal(n)) == n
  {
    AllZeros(Zeros(zeros));
    if n < 10 {
      ValueSnoc(Zeros(zeros), n);
    } else {
      DecimalValue(zeros, n / 10);
      ValueSnoc(Zeros(zeros) + Decimal(n / 10), n % 10);
      assert Zeros(zeros) + Decimal(n) == Zeros(zeros) + Decimal(n / 10) + [Digit(n % 10)];
    }
  }

  lemma {:induction false} AllZeros(s: string)
    requires forall i :: 0 <= i < |s| ==> s[i] == '0'
    ensures ValueOf(s) == 0
  {
    if s != "" {
      AllZeros(s[..|s| - 1]);
    }
  }

  const PREFIX: string := "toolu_"
  const PROXY_PREFIX: string := "toolu_proxy_"

  function ProxyId(n: nat): (r: string)
    ensures r != "" && PREFIX <= r && PROXY_PREFIX <= r
  {
    PROXY_PREFIX + FourDigits(n)
  }

  lemma ProxyIdsDiffer(m: nat, n: nat)
    ensures ProxyId(m) == ProxyId(n) <==> m == n
  {
    if ProxyId(m) == ProxyId(n) {
      assert FourDigits(m) == ProxyId(m)[|PROXY_PREFIX|..] && FourDigits(n) == ProxyId(n)[|PROXY_PREFIX|..];
      FourDigitsValue(m);
      FourDigitsValue(n);
    }
  }

  lemma FourDigitsValue(n: nat)
    ensures ValueOf(FourDigits(n)) == n
  {
    var zeros := if |Decimal(n)| < 4 then 4 - |Decimal(n)| else 0;
    assert Zeros(zeros) + Decimal(n) == FourDigits(n);
    DecimalValue(zeros, n);
  }

  predicate AreDigits(s: string) { forall i :: 0 <= i < |s| ==> '0' <= s[i] <= '9' }

  lemma {:induction false} DecimalShape(n: nat)
    ensures AreDigits(Decimal(n)) && (|Decimal(n)| > 1 ==> Decimal(n)[0] != '0')
  {
    if n >= 10 {
      DecimalShape(n / 10);
    }
  }

  /** A new id is the prefix and the number in at least four digits, padded with zeros and no longer than it must be. */
  lemma ProxyIdShape(n: nat)
    ensures "toolu_proxy_" <= ProxyId(n)
    ensures var digits := ProxyId(n)[12..];
            && AreDigits(digits) && ValueOf(digits) == n && |digits| >= 4 && (|digits| > 4 ==> digits[0] != '0')
  {
    DecimalShape(n);
    FourDigitsValue(n);
    assert ProxyId(n)[12..] == FourDigits(n);
  }

  /** An id that gets renamed. */
  predicate Foreign(id: string) { id != "" && !(PREFIX <= id) }

  lemma ForeignIds(id: string)
    ensures ToolIds().foreign(id) <==> id != "" && !("toolu_" <= id)
  {
  }

  function ToolIds(): Scheme { Scheme(Foreign, ProxyId) }

  predicate IsProxy(id: string) { PROXY_PREFIX <= id }

  lemma ToolIdsAreFresh()
    ensures Fresh(ToolIds())
  {
    forall m: nat, n: nat | ProxyId(m) == ProxyId(n) ensures m == n {
      ProxyIdsDiffer(m, n);
    }
  }

  /** References outside the proxy name space bear none of the new ids. */
  lemma OutsideProxyNamespace(ids: seq<string>, refs: seq<string>)
    requires forall ref :: ref in refs ==> !IsProxy(ref)
    ensures Untaken(ToolIds(), ids, refs)
  {
    forall n: nat | 1 <= n <= Count(ToolIds(), ids) ensures ToolIds().newId(n) !in refs {
      assert IsProxy(ProxyId(n));
    }
  }
}
