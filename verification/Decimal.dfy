/** Decimal numerals: the digits a spoken number is rewritten to, and back. */
module Decimal {

  datatype Option<+T> = None | Some(value: T)

  predicate IsDigit(c: char) {
    '0' <= c <= '9'
  }

  /** Python's `str.isdigit` on ASCII tokens. */
  predicate IsNumeral(s: string) {
    s != "" && forall i :: 0 <= i < |s| ==> IsDigit(s[i])
  }

  function DigitChar(d: nat): (c: char)
    requires d < 10
    ensures IsDigit(c) && c as int - '0' as int == d
  {
    '0' + d as char
  }

  /** Python's `str(n)`. */
  function Str(n: nat): (s: string)
    ensures IsNumeral(s)
  {
    if n < 10 then [DigitChar(n)] else Str(n / 10) + [DigitChar(n % 10)]
  }

  /** Python's `int(s)` on a numeral. */
  function Int(s: string): nat
    requires IsNumeral(s)
  {
    var last := s[|s| - 1] as int - '0' as int;
    if |s| == 1 then last else Int(s[..|s| - 1]) * 10 + last
  }

  /** No numeral has a zero in front, but that of zero. */
  lemma {:induction false} NoLeadingZero(n: nat)
    ensures n > 0 ==> Str(n)[0] != '0'
  {
    if n >= 10 {
      NoLeadingZero(n / 10);
    }
  }

  lemma {:induction false} IntOfStr(n: nat)
    ensures Int(Str(n)) == n
  {
    if n >= 10 {
      IntOfStr(n / 10);
      var s := Str(n);
      assert s[..|s| - 1] == Str(n / 10);
    }
  }

  lemma RemainderIs100(x: nat, k: nat, s: nat)
    requires x == 100 * k + s && s < 100
    ensures x % 100 == s
  {
  }

  lemma RemainderIs10(x: nat, k: nat, s: nat)
    requires x == 10 * k + s && s < 10
    ensures x % 10 == s
  {
  }

  /** Adding less than a hundred to full hundreds leaves exactly that as the last two digits. */
  lemma RemainderOfSum(c: nat, t: nat)
    requires c % 100 == 0 && t < 100
    ensures (c + t) % 100 == t && (c + t) % 10 == t % 10 && c % 10 == 0
  {
    var k := c / 100;
    assert c == 100 * k;
    RemainderIs100(c + t, k, t);
    RemainderIs10(c + t, 10 * k + t / 10, t % 10);
    RemainderIs10(c, 10 * k, 0);
  }
}
