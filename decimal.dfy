/** Decimal rendering of numbers, as a JavaScript template literal
    `${n}` renders an integral number; the stores build ids from it. */
module Decimal {

  function DigitChar(d: nat): (c: char)
    requires d < 10
    ensures '0' <= c <= '9'
  {
    (('0' as int) + d) as char
  }

  /** The decimal digits of `n`, most significant first, without leading zeros. */
  function NatToString(n: nat): (s: string)
    ensures 1 <= |s|
    ensures n < 10 <==> |s| == 1
    ensures forall i :: 0 <= i < |s| ==> '0' <= s[i] <= '9'
  {
    if n < 10 then [DigitChar(n)] else NatToString(n / 10) + [DigitChar(n % 10)]
  }

  /** Different numbers are rendered differently, so ids built from
      different counters never collide. */
  lemma {:induction false} NatToStringInjective(a: nat, b: nat)
    requires NatToString(a) == NatToString(b)
    ensures a == b
  {
    if a >= 10 && b >= 10 {
      var sa, sb := NatToString(a), NatToString(b);
      assert sa[|sa| - 1] == DigitChar(a % 10) && sb[|sb| - 1] == DigitChar(b % 10);
      assert sa[..|sa| - 1] == NatToString(a / 10);
      assert sb[..|sb| - 1] == NatToString(b / 10);
      NatToStringInjective(a / 10, b / 10);
    }
  }

  /** A prefix character followed by a number: equal ids have equal parts. */
  lemma TaggedInjective(c: char, d: char, a: nat, b: nat)
    requires [c] + NatToString(a) == [d] + NatToString(b)
    ensures c == d && a == b
  {
    assert ([c] + NatToString(a))[1..] == NatToString(a);
    assert ([d] + NatToString(b))[1..] == NatToString(b);
    NatToStringInjective(a, b);
  }

  /** `${n}` for an integer: a minus sign before the magnitude when negative. */
  function IntToString(n: int): (s: string)
    ensures 1 <= |s|
    ensures n < 0 <==> s[0] == '-'
  {
    if n < 0 then "-" + NatToString(-n) else NatToString(n)
  }
}
