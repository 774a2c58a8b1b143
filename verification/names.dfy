/**
 * Decimal rendering of indices, used to build the names `<prefix><index>` that
 * prenex normalisation gives to bound variables.
 */
module Names {

  /** The decimal digit character for `d`. */
  function DigitChar(d: nat): (c: char)
    requires d < 10
    ensures '0' <= c <= '9'
    ensures c as int - '0' as int == d
  {
    ('0' as int + d) as char
  }

  /** Python's `str(n)` for a non-negative integer: no sign, no leading zeros. */
  function NatToString(n: nat): (s: string)
    ensures 1 <= |s|
    ensures forall i :: 0 <= i < |s| ==> '0' <= s[i] <= '9'
    ensures n < 10 <==> |s| == 1
  {
    if n < 10 then [DigitChar(n)] else NatToString(n / 10) + [DigitChar(n % 10)]
  }

  /** Different indices render as different strings. */
  lemma {:induction false} NatToStringInjective(m: nat, n: nat)
    requires NatToString(m) == NatToString(n)
    ensures m == n
  {
    var s := NatToString(m);
    if m < 10 && n < 10 {
      assert s[0] == DigitChar(m) && s[0] == DigitChar(n);
    } else if 10 <= m && 10 <= n {
      var k := |s| - 1;
      assert NatToString(m)[..k] == NatToString(m / 10);
      assert NatToString(n)[..k] == NatToString(n / 10);
      NatToStringInjective(m / 10, n / 10);
      assert DigitChar(m % 10) == s[k] == DigitChar(n % 10);
    }
  }

  /** The name `<prefix><index>` given to a renamed bound variable. */
  function IndexedName(prefix: string, index: nat): (r: string)
    ensures |r| > |prefix|
    ensures r[..|prefix|] == prefix
  {
    prefix + NatToString(index)
  }

  /** Names built from one prefix coincide only for equal indices. */
  lemma IndexedNameInjective(prefix: string, i: nat, j: nat)
    requires IndexedName(prefix, i) == IndexedName(prefix, j)
    ensures i == j
  {
    var a, b := IndexedName(prefix, i), IndexedName(prefix, j);
    assert a[|prefix|..] == NatToString(i);
    assert b[|prefix|..] == NatToString(j);
    NatToStringInjective(i, j);
  }
}
