/**
 * Decimal text of integers, as Rust's `Display` for integers writes it.
 * The widgets print lengths and indices with it (`format!("[{idx}]")`) and the
 * numeric range editors print their bounds with it.
 */
module Labels {

  predicate IsDigit(c: char) {
    '0' <= c <= '9'
  }

  function Digit(d: nat): (c: char)
    requires d < 10
    ensures IsDigit(c) && c as int - '0' as int == d
  {
    ('0' as int + d) as char
  }

  /** Decimal digits of `n` without leading zeros. */
  function NatToString(n: nat): (s: string)
    decreases n
  {
    if n < 10 then [Digit(n)] else NatToString(n / 10) + [Digit(n % 10)]
  }

  /** `Display` of a signed integer: a leading '-' for negative values. */
  function IntToString(i: int): string {
    if i < 0 then "-" + NatToString(-i) else NatToString(i)
  }

  /**
   * The label a sequence element gets, `format!("[{idx}]")`, and the `[n]`
   * length summary: bracketed digits that read back as the number.
   */
  function IndexLabel(k: nat): (r: string)
    ensures |r| >= 3 && r[0] == '[' && r[|r| - 1] == ']'
    ensures AllDigits(r[1..|r| - 1]) && ParseNat(r[1..|r| - 1]) == k
  {
    var r := "[" + NatToString(k) + "]";
    NatToStringRoundTrip(k);
    assert r[1..|r| - 1] == NatToString(k);
    r
  }

  /** The labels of elements 0..n-1, in index order. */
  function IndexLabels(n: nat): (r: seq<string>)
    ensures |r| == n
    ensures forall k :: 0 <= k < n ==> r[k] == IndexLabel(k)
  {
    seq(n, k requires 0 <= k => IndexLabel(k))
  }

  /** Value of a string of decimal digits: the reference the printers are proved against. */
  function ParseNat(s: string): nat
    decreases |s|
  {
    if |s| == 0 then 0
    else
      var c := s[|s| - 1];
      ParseNat(s[..|s| - 1]) * 10 + (if IsDigit(c) then c as int - '0' as int else 0)
  }

  function ParseInt(s: string): int {
    if |s| > 0 && s[0] == '-' then 0 - ParseNat(s[1..]) as int else ParseNat(s)
  }

  predicate AllDigits(s: string) {
    forall i :: 0 <= i < |s| ==> IsDigit(s[i])
  }

  lemma {:induction false} NatToStringRoundTrip(n: nat)
    ensures |NatToString(n)| > 0 && AllDigits(NatToString(n))
    ensures ParseNat(NatToString(n)) == n
    decreases n
  {
    var s := NatToString(n);
    if n >= 10 {
      NatToStringRoundTrip(n / 10);
      var p := NatToString(n / 10);
      assert s == p + [Digit(n % 10)];
      assert s[..|s| - 1] == p;
    } else {
      assert s[..|s| - 1] == [];
    }
  }

  lemma NatToStringInjective(a: nat, b: nat)
    requires NatToString(a) == NatToString(b)
    ensures a == b
  {
    NatToStringRoundTrip(a);
    NatToStringRoundTrip(b);
  }

  lemma IntToStringRoundTrip(i: int)
    ensures ParseInt(IntToString(i)) == i
    ensures |IntToString(i)| > 0
    ensures forall k :: 0 <= k < |IntToString(i)| ==> IntToString(i)[k] == '-' || IsDigit(IntToString(i)[k])
  {
    if i < 0 {
      NatToStringRoundTrip(-i);
      assert IntToString(i)[1..] == NatToString(-i);
    } else {
      NatToStringRoundTrip(i);
      assert IsDigit(IntToString(i)[0]);
    }
  }

  /** Distinct indices give distinct labels, so the children of a sequence never share a label. */
  lemma IndexLabelsDistinct(n: nat, j: nat, k: nat)
    requires j < n && k < n && j != k
    ensures IndexLabels(n)[j] != IndexLabels(n)[k]
  {
  }
}
