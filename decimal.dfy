/** Decimal text of numbers as the tag allocator writes and reads it:
    `Number.prototype.toString`, `padStart(6, "0")`, `slice(-6)` and
    `parseInt` on a string of digits. */
module Decimal {

  predicate IsDigit(c: char) {
    '0' <= c <= '9'
  }

  predicate AllDigits(s: string) {
    forall i :: 0 <= i < |s| ==> IsDigit(s[i])
  }

  function DigitChar(d: nat): (c: char)
    requires d < 10
    ensures IsDigit(c)
  {
    ('0' as int + d) as char
  }

  function DigitValue(c: char): (d: nat)
    requires IsDigit(c)
    ensures d < 10
  {
    c as int - '0' as int
  }

  function Pow10(k: nat): (p: nat)
    ensures p >= 1
  {
    if k == 0 then 1 else 10 * Pow10(k - 1)
  }

  /** `n.toString()` for a non-negative integer: its digits, most significant
      first, without leading zeros. */
  function ToDecimal(n: nat): (s: string)
    ensures |s| >= 1 && AllDigits(s)
  {
    if n < 10 then [DigitChar(n)] else ToDecimal(n / 10) + [DigitChar(n % 10)]
  }

  function Zeros(k: nat): (s: string)
    ensures |s| == k && AllDigits(s)
  {
    seq(k, _ => '0')
  }

  /** `s.padStart(width, "0")`: zeros in front up to `width`; a string that is
      already as long is returned whole, never cut. */
  function PadStart(s: string, width: nat): string {
    if |s| >= width then s else Zeros(width - |s|) + s
  }

  /** `s.slice(-k)`: the last `k` characters, or all of a shorter string. */
  function LastChars(s: string, k: nat): (r: string)
    ensures |r| == if |s| >= k then k else |s|
    ensures r == s[|s| - |r|..]
  {
    if |s| >= k then s[|s| - k..] else s
  }

  /** `parseInt` of a string of digits: its value, read most significant digit
      first (leading zeros add nothing). */
  function ParseDigits(s: string): (n: nat)
    requires AllDigits(s)
    ensures n < Pow10(|s|)
  {
    if s == [] then 0
    else
      var d := DigitValue(s[0]);
      var rest := ParseDigits(s[1..]);
      MulLeft(d, 9, Pow10(|s| - 1));
      d * Pow10(|s| - 1) + rest
  }

  lemma MulLeft(a: nat, b: nat, p: nat)
    requires a <= b
    ensures a * p <= b * p
  {
  }

  /** Appending a digit shifts the value one place: the step that matches
      ParseDigits, read from the front, with ToDecimal, built from the back. */
  lemma {:induction false} ParseAppend(s: string, c: char)
    requires AllDigits(s) && IsDigit(c)
    ensures AllDigits(s + [c])
    ensures ParseDigits(s + [c]) == 10 * ParseDigits(s) + DigitValue(c)
  {
    assert AllDigits(s + [c]) by {
      forall i | 0 <= i < |s + [c]| ensures IsDigit((s + [c])[i]) {
        if i < |s| { assert (s + [c])[i] == s[i]; }
      }
    }
    if s != [] {
      var t := s + [c];
      assert t[0] == s[0] && t[1..] == s[1..] + [c];
      ParseAppend(s[1..], c);
      var d, p, r := DigitValue(s[0]), Pow10(|s| - 1), ParseDigits(s[1..]);
      assert ParseDigits(t[1..]) == 10 * r + DigitValue(c);
      assert Pow10(|t| - 1) == 10 * p;
      assert ParseDigits(t) == d * Pow10(|t| - 1) + ParseDigits(t[1..]);
      assert ParseDigits(s) == d * p + r;
      ShiftStep(d, p, r, DigitValue(c));
    }
  }

  lemma ShiftStep(d: int, p: int, r: int, v: int)
    ensures d * (10 * p) + (10 * r + v) == 10 * (d * p + r) + v
  {
  }

  /** parseInt undoes toString. */
  lemma {:induction false} ParseToDecimal(n: nat)
    ensures ParseDigits(ToDecimal(n)) == n
  {
    if n >= 10 {
      ParseToDecimal(n / 10);
      ParseAppend(ToDecimal(n / 10), DigitChar(n % 10));
    }
  }

  /** Leading zeros do not change the value. */
  lemma {:induction false} ParseZeros(k: nat, s: string)
    requires AllDigits(s)
    ensures AllDigits(Zeros(k) + s)
    ensures ParseDigits(Zeros(k) + s) == ParseDigits(s)
  {
    var t := Zeros(k) + s;
    assert AllDigits(t) by {
      forall i | 0 <= i < |t| ensures IsDigit(t[i]) {
        if i >= k { assert t[i] == s[i - k]; }
      }
    }
    if k > 0 {
      assert t[0] == '0' && DigitValue(t[0]) == 0;
      assert t[1..] == Zeros(k - 1) + s;
      ParseZeros(k - 1, s);
      assert ParseDigits(t) == DigitValue(t[0]) * Pow10(|t| - 1) + ParseDigits(t[1..]);
    } else {
      assert t == s;
    }
  }

  /** toString has at most `k` digits exactly when the number is below 10^k. */
  lemma {:induction false} ToDecimalLength(n: nat, k: nat)
    requires k >= 1
    ensures |ToDecimal(n)| <= k <==> n < Pow10(k)
  {
    assert Pow10(k) == 10 * Pow10(k - 1);
    if n >= 10 {
      if k == 1 {
        assert |ToDecimal(n)| == |ToDecimal(n / 10)| + 1;
      } else {
        ToDecimalLength(n / 10, k - 1);
        assert n / 10 < Pow10(k - 1) <==> n < 10 * Pow10(k - 1);
      }
    }
  }

  /** The six-character suffix the allocator writes: `n.toString().padStart(6, "0")`. */
  function Pad6(n: nat): string {
    PadStart(ToDecimal(n), 6)
  }

  /** The suffix is all digits, exactly six of them up to 999999 and the whole
      longer number beyond (padStart never truncates), and it reads back as `n`. */
  lemma Pad6Facts(n: nat)
    ensures AllDigits(Pad6(n))
    ensures n <= 999999 ==> |Pad6(n)| == 6
    ensures n > 999999 ==> |Pad6(n)| > 6 && Pad6(n) == ToDecimal(n)
    ensures ParseDigits(Pad6(n)) == n
  {
    var s := ToDecimal(n);
    assert Pow10(6) == 1000000;
    ToDecimalLength(n, 6);
    ParseToDecimal(n);
    if |s| < 6 {
      ParseZeros(6 - |s|, s);
    }
  }

  /** Distinct numbers get distinct suffixes. */
  lemma Pad6Injective(a: nat, b: nat)
    requires Pad6(a) == Pad6(b)
    ensures a == b
  {
    Pad6Facts(a);
    Pad6Facts(b);
  }
}
