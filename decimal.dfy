/** Decimal text of natural numbers, as JavaScript's `Number.prototype.toString`
    and `String.prototype.padStart` produce it, and reading such text back. */
module Decimal {

  predicate IsDigit(c: char) {
    '0' <= c <= '9'
  }

  predicate AllDigits(s: string) {
    forall i :: 0 <= i < |s| ==> IsDigit(s[i])
  }

  function DigitChar(d: nat): (c: char)
    requires d < 10
    ensures IsDigit(c) && c as int - '0' as int == d
  {
    (('0' as int) + d) as char
  }

  function Pow10(k: nat): (p: nat)
    ensures p >= 1
  {
    if k == 0 then 1 else 10 * Pow10(k - 1)
  }

  lemma Pow10Values()
    ensures Pow10(3) == 1000 && Pow10(4) == 10000
    ensures Pow10(5) == 100000 && Pow10(6) == 1000000
  {
    assert Pow10(1) == 10;
    assert Pow10(2) == 100;
    assert Pow10(3) == 1000;
    assert Pow10(4) == 10000;
    assert Pow10(5) == 100000;
  }

  /** `n.toString()`: the shortest decimal text of `n`; only zero itself
      starts with the digit zero. */
  function NatToString(n: nat): (s: string)
    ensures |s| >= 1 && AllDigits(s)
    ensures n > 0 ==> s[0] != '0'
    decreases n
  {
    if n < 10 then [DigitChar(n)] else NatToString(n / 10) + [DigitChar(n % 10)]
  }

  /** The value of a text of decimal digits (leading zeros allowed). */
  function ParseDigits(s: string): (n: nat)
    requires AllDigits(s)
    ensures n < Pow10(|s|)
  {
    if s == [] then 0
    else ParseDigits(s[..|s| - 1]) * 10 + (s[|s| - 1] as int - '0' as int)
  }

  /** `s.padStart(width, fill)`: `s` itself when already that wide, otherwise
      `s` behind enough copies of `fill` to reach `width`. */
  function PadStart(s: string, width: nat, fill: char): (r: string)
    ensures |r| == if |s| >= width then |s| else width
    ensures r[|r| - |s|..] == s
    ensures forall i :: 0 <= i < |r| - |s| ==> r[i] == fill
  {
    if |s| >= width then s else seq(width - |s|, _ => fill) + s
  }

  /** Reading the decimal text of `n` gives `n` back. */
  lemma {:induction false} ParseNatToString(n: nat)
    ensures ParseDigits(NatToString(n)) == n
    decreases n
  {
    if n >= 10 {
      var s := NatToString(n);
      assert s[..|s| - 1] == NatToString(n / 10);
      ParseNatToString(n / 10);
    }
  }

  /** The text of `n` has exactly `k` digits when `n` lies in [10^(k-1), 10^k). */
  lemma {:induction false} NatToStringLength(n: nat, k: nat)
    requires k >= 1 && Pow10(k - 1) <= n < Pow10(k)
    ensures |NatToString(n)| == k
    decreases k
  {
    if k > 1 {
      assert n >= 10 by { Pow10Monotone(1, k - 1); }
      NatToStringLength(n / 10, k - 1);
    } else {
      assert n < 10;
    }
  }

  lemma {:induction false} Pow10Monotone(i: nat, j: nat)
    requires i <= j
    ensures Pow10(i) <= Pow10(j)
    decreases j
  {
    if i < j {
      Pow10Monotone(i, j - 1);
    }
  }

  /** Reading a concatenation: the left part is shifted by the width of the right. */
  lemma {:induction false} ParseAppend(a: string, b: string)
    requires AllDigits(a) && AllDigits(b)
    ensures AllDigits(a + b)
    ensures ParseDigits(a + b) == ParseDigits(a) * Pow10(|b|) + ParseDigits(b)
    decreases |b|
  {
    var ab := a + b;
    assert AllDigits(ab);
    if b != [] {
      var b' := b[..|b| - 1];
      var d := b[|b| - 1] as int - '0' as int;
      assert ab[..|ab| - 1] == a + b';
      ParseAppend(a, b');
      var pa, pb', w := ParseDigits(a), ParseDigits(b'), Pow10(|b'|);
      assert Pow10(|b|) == 10 * w;
      calc {
        ParseDigits(ab);
        ParseDigits(a + b') * 10 + d;
        (pa * w + pb') * 10 + d;
        { ShiftByTen(pa, w, pb'); }
        pa * (10 * w) + (pb' * 10 + d);
        ParseDigits(a) * Pow10(|b|) + ParseDigits(b);
      }
    } else {
      assert ab == a;
    }
  }

  lemma ShiftByTen(x: int, w: int, y: int)
    ensures (x * w + y) * 10 == x * (10 * w) + y * 10
  {
  }

  /** A run of zeros reads as zero. */
  lemma {:induction false} ParseZeros(k: nat)
    ensures AllDigits(seq(k, _ => '0'))
    ensures ParseDigits(seq(k, _ => '0')) == 0
    decreases k
  {
    if k > 0 {
      var z := seq(k, _ => '0');
      assert z[..k - 1] == seq(k - 1, _ => '0');
      ParseZeros(k - 1);
    }
  }

  /** Left-padding with zeros does not change the value a text reads as. */
  lemma PadStartZerosKeepsValue(s: string, width: nat)
    requires AllDigits(s)
    ensures AllDigits(PadStart(s, width, '0'))
    ensures ParseDigits(PadStart(s, width, '0')) == ParseDigits(s)
  {
    if |s| < width {
      var z := seq(width - |s|, _ => '0');
      ParseZeros(width - |s|);
      ParseAppend(z, s);
      assert PadStart(s, width, '0') == z + s;
    }
  }

  /** Zero-padding a number's text to `width` digits and reading it back gives
      the number; the padded text is `width` long whenever the number fits in
      `width` digits. */
  lemma PaddedRoundTrip(n: nat, width: nat)
    ensures AllDigits(PadStart(NatToString(n), width, '0'))
    ensures ParseDigits(PadStart(NatToString(n), width, '0')) == n
    ensures 0 < width && n < Pow10(width) ==> |PadStart(NatToString(n), width, '0')| == width
  {
    ParseNatToString(n);
    PadStartZerosKeepsValue(NatToString(n), width);
    if 0 < width && n < Pow10(width) {
      NatToStringFits(n, width);
    }
  }

  /** A number below 10^width has at most `width` digits. */
  lemma NatToStringFits(n: nat, width: nat)
    requires 0 < width && n < Pow10(width)
    ensures |NatToString(n)| <= width
  {
    var k := |NatToString(n)|;
    if k > width {
      NatToStringAtLeast(n);
      assert Pow10(k - 1) <= n;
      Pow10Monotone(width, k - 1);
    }
  }

  /** A text with no leading zero reads as at least 10^(length-1). */
  lemma NatToStringAtLeast(n: nat)
    ensures |NatToString(n)| > 1 ==> Pow10(|NatToString(n)| - 1) <= n
  {
    var s := NatToString(n);
    if |s| > 1 {
      ParseNatToString(n);
      ParseLeadingDigit(s);
    }
  }

  /** A digit text whose first digit is not zero reads as at least 10^(length-1). */
  lemma {:induction false} ParseLeadingDigit(s: string)
    requires |s| >= 1 && AllDigits(s) && s[0] != '0'
    ensures Pow10(|s| - 1) <= ParseDigits(s)
    decreases |s|
  {
    if |s| > 1 {
      ParseLeadingDigit(s[..|s| - 1]);
    }
  }
}
