/** Decimal rendering of natural numbers, as `std::to_string` produces it for
    the unsigned values this model prints (versions, depths, numeric tile keys). */
module Strings {

  predicate IsDigit(c: char) {
    '0' <= c <= '9'
  }

  function DigitChar(d: nat): (c: char)
    requires d < 10
    ensures IsDigit(c)
  {
    ('0' as int + d) as char
  }

  /** Shortest decimal form of `n`, most significant digit first. */
  function NatToString(n: nat): (s: string)
    ensures |s| >= 1
    ensures forall i :: 0 <= i < |s| ==> IsDigit(s[i])
    ensures n < 10 <==> |s| == 1
  {
    if n < 10 then [DigitChar(n)] else NatToString(n / 10) + [DigitChar(n % 10)]
  }

  /** Different numbers never print alike, so a number can be recovered from
      its decimal form. */
  lemma {:induction false} NatToStringInjective(a: nat, b: nat)
    requires NatToString(a) == NatToString(b)
    ensures a == b
  {
    if a < 10 || b < 10 {
      assert |NatToString(a)| == 1 && |NatToString(b)| == 1;
      assert NatToString(a)[0] == DigitChar(a) && NatToString(b)[0] == DigitChar(b);
    } else {
      var sa, sb := NatToString(a), NatToString(b);
      assert sa[|sa| - 1] == DigitChar(a % 10);
      assert sb[|sb| - 1] == DigitChar(b % 10);
      assert NatToString(a / 10) == sa[..|sa| - 1];
      assert NatToString(b / 10) == sb[..|sb| - 1];
      NatToStringInjective(a / 10, b / 10);
    }
  }

  predicate AllDigits(s: string) {
    forall i :: 0 <= i < |s| ==> IsDigit(s[i])
  }

  /** A run of digits ends at the first non-digit, so a digit string followed
      by a separator can be split off unambiguously. */
  lemma DigitsThenSeparator(x: string, y: string, x2: string, y2: string, sep: char)
    requires AllDigits(x) && AllDigits(x2) && !IsDigit(sep)
    requires x + [sep] + y == x2 + [sep] + y2
    ensures x == x2 && y == y2
  {
    var a, b := x + [sep] + y, x2 + [sep] + y2;
    var m := if |x| < |x2| then |x| else |x2|;
    assert a[m] == b[m];
    if |x| == |x2| {
      assert x == a[..|x|] && x2 == b[..|x2|];
      assert y == a[|x| + 1..] && y2 == b[|x2| + 1..];
    }
  }
}
