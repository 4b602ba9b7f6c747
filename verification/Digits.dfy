/** Decimal rendering as `f"{n}"` and `str.zfill` write it, and why an id built from a number names it. */
module Digits {
  function Digit(d: nat): char
    requires d < 10
  {
    ('0' as int + d) as char
  }

  predicate IsDigit(c: char) {
    '0' <= c <= '9'
  }

  function Decimal(n: nat): (s: string)
    ensures s != [] && forall i :: 0 <= i < |s| ==> IsDigit(s[i])
  {
    if n < 10 then [Digit(n)] else Decimal(n / 10) + [Digit(n % 10)]
  }

  /** The number a digit string reads back as; other characters count as zero. */
  function Value(s: string): nat {
    if s == [] then 0
    else
      var c := s[|s| - 1];
      10 * Value(s[..|s| - 1]) + if IsDigit(c) then c as int - '0' as int else 0
  }

  /** Python's `zfill` on an unsigned digit string: zeros on the left up to a width. */
  function ZFill(s: string, width: nat): (z: string)
    ensures |z| == if |s| < width then width else |s|
    ensures z[|z| - |s|..] == s
    decreases width - |s|
  {
    if |s| >= width then s
    else
      var z := ZFill(['0'] + s, width);
      SuffixAfter(z, '0', s);
      z
  }

  lemma SuffixAfter(z: string, c: char, s: string)
    requires |z| > |s| && z[|z| - |s| - 1..] == [c] + s
    ensures z[|z| - |s|..] == s
  {
    assert z[|z| - |s|..] == z[|z| - |s| - 1..][1..];
  }

  lemma {:induction false} DecimalReadsBack(n: nat)
    ensures Value(Decimal(n)) == n
  {
    if n >= 10 {
      DecimalReadsBack(n / 10);
      var s := Decimal(n);
      assert s[..|s| - 1] == Decimal(n / 10);
    }
  }

  function PowerOfTen(k: nat): nat { if k == 0 then 1 else 10 * PowerOfTen(k - 1) }

  lemma FourMoreDigits(k: nat)
    ensures PowerOfTen(k + 4) == 10_000 * PowerOfTen(k)
  {
    assert PowerOfTen(k + 4) == 10 * PowerOfTen(k + 3);
    assert PowerOfTen(k + 3) == 10 * PowerOfTen(k + 2);
    assert PowerOfTen(k + 2) == 10 * PowerOfTen(k + 1);
    assert PowerOfTen(k + 1) == 10 * PowerOfTen(k);
  }

  /** A number below 10^k has at most k digits. */
  lemma {:induction false} DecimalFits(n: nat, k: nat)
    requires k >= 1 && n < PowerOfTen(k)
    ensures |Decimal(n)| <= k
  {
    if n >= 10 {
      assert k > 1 by {
        assert PowerOfTen(1) == 10 * PowerOfTen(0) == 10;
      }
      DecimalFits(n / 10, k - 1);
    }
  }

  lemma {:induction false} LeadingZero(s: string)
    ensures Value(['0'] + s) == Value(s)
  {
    if s == [] {
      assert Value(['0']) == 10 * Value([]);
    } else {
      var z := ['0'] + s;
      assert z[..|z| - 1] == ['0'] + s[..|s| - 1];
      LeadingZero(s[..|s| - 1]);
    }
  }

  lemma {:induction false} ZFillReadsBack(s: string, width: nat)
    ensures Value(ZFill(s, width)) == Value(s)
    decreases width - |s|
  {
    if |s| < width {
      ZFillReadsBack(['0'] + s, width);
      LeadingZero(s);
    }
  }

  lemma DecimalInjective(m: nat, n: nat)
    ensures Decimal(m) == Decimal(n) ==> m == n
  {
    DecimalReadsBack(m);
    DecimalReadsBack(n);
  }

  lemma ZFilledInjective(m: nat, n: nat, width: nat)
    ensures ZFill(Decimal(m), width) == ZFill(Decimal(n), width) ==> m == n
  {
    ZFillReadsBack(Decimal(m), width);
    ZFillReadsBack(Decimal(n), width);
    DecimalReadsBack(m);
    DecimalReadsBack(n);
  }

  predicate AllDigits(s: string) {
    forall i :: 0 <= i < |s| ==> IsDigit(s[i])
  }

  lemma {:induction false} ZFillDigits(s: string, width: nat)
    requires AllDigits(s)
    ensures AllDigits(ZFill(s, width))
    decreases width - |s|
  {
    if |s| < width {
      ZFillDigits(['0'] + s, width);
    }
  }

  /** `stem + "-" + digits` splits back at its last hyphen, since the digits hold none. */
  lemma SplitAtLastHyphen(a: string, x: string, b: string, y: string)
    requires a + "-" + x == b + "-" + y && AllDigits(x) && AllDigits(y)
    ensures a == b && x == y
  {
    var s, t := a + "-" + x, b + "-" + y;
    assert s[|a|] == '-' && t[|b|] == '-';
    assert forall k :: |a| < k < |s| ==> s[k] == x[k - |a| - 1] != '-';
    assert forall k :: |b| < k < |t| ==> t[k] == y[k - |b| - 1] != '-';
    assert |a| == |b|;
    assert a == s[..|a|] == t[..|b|] == b;
    assert x == s[|a| + 1..] == t[|b| + 1..] == y;
  }

  lemma NumberedInjective(a: string, m: nat, b: string, n: nat)
    ensures a + "-" + Decimal(m) == b + "-" + Decimal(n) ==> a == b && m == n
  {
    if a + "-" + Decimal(m) == b + "-" + Decimal(n) {
      SplitAtLastHyphen(a, Decimal(m), b, Decimal(n));
      DecimalInjective(m, n);
    }
  }

  lemma PaddedInjective(a: string, m: nat, b: string, n: nat, width: nat)
    ensures a + "-" + ZFill(Decimal(m), width) == b + "-" + ZFill(Decimal(n), width) ==> a == b && m == n
  {
    var x, y := ZFill(Decimal(m), width), ZFill(Decimal(n), width);
    if a + "-" + x == b + "-" + y {
      ZFillDigits(Decimal(m), width);
      ZFillDigits(Decimal(n), width);
      SplitAtLastHyphen(a, x, b, y);
      ZFilledInjective(m, n, width);
    }
  }
}
