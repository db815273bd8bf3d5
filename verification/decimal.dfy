/** Decimal text of integers, as Java's `String.valueOf(int)` and
    `String.valueOf(long)` produce it, and the value a digit string denotes. */
module Decimal {
  import opened Wrappers

  predicate IsDigit(c: char) {
    '0' <= c <= '9'
  }

  predicate IsDigits(s: string) {
    forall i :: 0 <= i < |s| ==> IsDigit(s[i])
  }

  function DigitChar(d: nat): (c: char)
    requires d < 10
    ensures IsDigit(c) && DigitValue(c) == d
  {
    ('0' as int + d) as char
  }

  function DigitValue(c: char): nat
    requires IsDigit(c)
  {
    c as int - '0' as int
  }

  /** The number a string of decimal digits denotes (leading zeros allowed);
      the empty string denotes 0. */
  function DigitsValue(s: string): nat
    requires IsDigits(s)
  {
    if |s| == 0 then 0 else 10 * DigitsValue(s[..|s| - 1]) + DigitValue(s[|s| - 1])
  }

  function Pow10(k: nat): (p: nat)
    ensures p >= 1
  {
    if k == 0 then 1 else 10 * Pow10(k - 1)
  }

  /** `String.valueOf(n)` for a non-negative `n`: the canonical decimal
      text, with no leading zero. */
  function NatToString(n: nat): (s: string)
    ensures |s| >= 1 && IsDigits(s) && DigitsValue(s) == n
    ensures |s| > 1 ==> s[0] != '0'
  {
    if n < 10 then [DigitChar(n)]
    else
      var p := NatToString(n / 10);
      var s := p + [DigitChar(n % 10)];
      assert s[..|s| - 1] == p;
      s
  }

  /** `String.valueOf(i)` for any integer: a minus sign before the digits of
      a negative value. */
  function IntToString(i: int): (s: string)
    ensures i >= 0 ==> IsDigits(s) && DigitsValue(s) == i
    ensures i < 0 <==> (|s| > 0 && s[0] == '-')
  {
    if i < 0 then "-" + NatToString(-i) else NatToString(i)
  }

  /** The integer a decimal text denotes: optional minus sign, then at least
      one digit; anything else denotes nothing. */
  function ValueOf(s: string): Option<int> {
    if |s| > 1 && s[0] == '-' && IsDigits(s[1..]) then Some(0 - DigitsValue(s[1..]))
    else if |s| > 0 && IsDigits(s) then Some(DigitsValue(s))
    else None
  }

  /** Reading back the text of any integer gives that integer. */
  lemma IntToStringRoundTrip(i: int)
    ensures ValueOf(IntToString(i)) == Some(i)
  {
    var s := IntToString(i);
    if i < 0 {
      assert s[1..] == NatToString(-i);
    }
  }

  /** Distinct integers have distinct texts. */
  lemma IntToStringInjective(i: int, j: int)
    requires IntToString(i) == IntToString(j)
    ensures i == j
  {
    IntToStringRoundTrip(i);
    IntToStringRoundTrip(j);
  }

  /** A leading "0" does not change the value of a digit string. */
  lemma {:induction false} LeadingZero(s: string)
    requires IsDigits(s)
    ensures IsDigits("0" + s) && DigitsValue("0" + s) == DigitsValue(s)
  {
    var t := "0" + s;
    assert IsDigits(t) by {
      forall i | 0 <= i < |t| ensures IsDigit(t[i]) {
        if i > 0 { assert t[i] == s[i - 1]; }
      }
    }
    if |s| > 0 {
      var init := s[..|s| - 1];
      LeadingZero(init);
      assert t[..|t| - 1] == "0" + init;
    }
  }

  /** The text of `n` has at most `k` characters exactly when `n < 10^k`. */
  lemma {:induction false} NatToStringWidth(n: nat, k: nat)
    requires k >= 1
    ensures |NatToString(n)| <= k <==> n < Pow10(k)
  {
    if n < 10 {
      Pow10AtLeastTen(k);
    } else {
      var q := n / 10;
      assert |NatToString(n)| == |NatToString(q)| + 1;
      if k == 1 {
        assert Pow10(1) == 10;
      } else {
        NatToStringWidth(q, k - 1);
        assert q < Pow10(k - 1) <==> n < 10 * Pow10(k - 1);
      }
    }
  }

  lemma Pow10AtLeastTen(k: nat)
    requires k >= 1
    ensures Pow10(k) >= 10
  {
    if k > 1 { Pow10AtLeastTen(k - 1); }
  }

  /** Text widths of the small values the readouts pad. */
  lemma NatToStringSmallWidths(n: nat)
    ensures n < 10 ==> |NatToString(n)| == 1
    ensures 10 <= n < 100 ==> |NatToString(n)| == 2
    ensures 100 <= n < 1000 ==> |NatToString(n)| == 3
    ensures 1000 <= n < 10000 ==> |NatToString(n)| == 4
  {
    assert Pow10(1) == 10 && Pow10(2) == 100 && Pow10(3) == 1000 && Pow10(4) == 10000;
    NatToStringWidth(n, 1);
    NatToStringWidth(n, 2);
    NatToStringWidth(n, 3);
    NatToStringWidth(n, 4);
  }

  /** The same widths for `IntToString`, which agrees with `NatToString` on
      non-negative values. */
  lemma IntToStringSmallWidths(i: int)
    ensures 0 <= i < 10 ==> |IntToString(i)| == 1
    ensures 10 <= i < 100 ==> |IntToString(i)| == 2
    ensures 100 <= i < 1000 ==> |IntToString(i)| == 3
    ensures 1000 <= i < 10000 ==> |IntToString(i)| == 4
  {
    if i >= 0 { NatToStringSmallWidths(i); }
  }

  /** A digit string without a leading zero is the text of its own value:
      `NatToString` is the only canonical decimal spelling. */
  lemma {:induction false} CanonicalIsNatToString(s: string)
    requires IsDigits(s) && |s| >= 1 && (|s| > 1 ==> s[0] != '0')
    ensures s == NatToString(DigitsValue(s))
  {
    var n := DigitsValue(s);
    if |s| == 1 {
      assert s[..0] == [];
      assert DigitsValue(s[..0]) == 0;
      assert n == DigitValue(s[0]);
      assert [DigitChar(n)] == s;
    } else {
      var init := s[..|s| - 1];
      assert init[0] == s[0];
      assert IsDigits(init);
      CanonicalIsNatToString(init);
      PositiveWhenNoLeadingZero(init);
      assert n == 10 * DigitsValue(init) + DigitValue(s[|s| - 1]);
      assert n / 10 == DigitsValue(init) && n % 10 == DigitValue(s[|s| - 1]);
      assert s == init + [DigitChar(n % 10)];
    }
  }

  lemma {:induction false} PositiveWhenNoLeadingZero(s: string)
    requires IsDigits(s) && |s| >= 1 && s[0] != '0'
    ensures DigitsValue(s) >= Pow10(|s| - 1)
  {
    if |s| > 1 {
      var init := s[..|s| - 1];
      assert init[0] == s[0];
      PositiveWhenNoLeadingZero(init);
    }
  }
}
