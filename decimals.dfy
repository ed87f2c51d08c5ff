/** Amounts and their fixed-point mantissas. The source turns the `amount` text
    into a JavaScript number (`+text`) and rounds `amount * 10^places` with
    `toFixed(0)`; here the number is the exact decimal the text denotes. */
module Decimals {
  import opened Text

  /** The exact number `mant / 10^scale`. */
  datatype Decimal = Decimal(mant: int, scale: nat)

  function Pow10(n: nat): (r: nat)
    ensures r >= 1
  {
    if n == 0 then 1 else 10 * Pow10(n - 1)
  }

  lemma {:induction false} Pow10Add(a: nat, b: nat)
    ensures Pow10(a + b) == Pow10(a) * Pow10(b)
    decreases a
  {
    if a > 0 {
      Pow10Add(a - 1, b);
      assert Pow10(a + b) == 10 * Pow10(a - 1 + b);
      MulAssoc(10, Pow10(a - 1), Pow10(b));
    }
  }

  /** `-1 * x` */
  function Negate(x: Decimal): (r: Decimal)
    ensures r.scale == x.scale && r.mant + x.mant == 0
  {
    Decimal(-x.mant, x.scale)
  }

  predicate AllDigits(t: string) {
    forall i :: 0 <= i < |t| ==> IsDigit(t[i])
  }

  /** The dot at `d` splits `t` into two non-empty runs of digits. */
  predicate DotSplitAt(t: string, d: int) {
    0 < d < |t| - 1 && t[d] == '.' && AllDigits(t[..d]) && AllDigits(t[d + 1..])
  }

  /** The language of the regex group `amount`, `\d{1,}\.{0,1}\d{1,}`: at least two
      digits, with at most one dot, which has digits on both sides. */
  ghost predicate IsAmountText(t: string) {
    (|t| >= 2 && AllDigits(t)) || exists d :: DotSplitAt(t, d)
  }

  function DigitValue(c: char): nat
    requires IsDigit(c)
  {
    (c - '0') as nat
  }

  /** The integer a string of decimal digits denotes, most significant first. */
  function DigitsValue(ds: string): (n: nat)
    requires AllDigits(ds)
    ensures n < Pow10(|ds|)
    decreases |ds|
  {
    if |ds| == 0 then 0
    else DigitsValue(ds[..|ds| - 1]) * 10 + DigitValue(ds[|ds| - 1])
  }

  /** Appending digits shifts the value of the prefix left by their count. */
  lemma {:induction false} DigitsValueAppend(a: string, b: string)
    requires AllDigits(a) && AllDigits(b)
    ensures AllDigits(a + b)
    ensures DigitsValue(a + b) == DigitsValue(a) * Pow10(|b|) + DigitsValue(b)
    decreases |b|
  {
    AllDigitsAppend(a, b);
    var ab := a + b;
    if |b| > 0 {
      var b' := b[..|b| - 1];
      assert ab[..|ab| - 1] == a + b';
      assert ab[|ab| - 1] == b[|b| - 1];
      DigitsValueAppend(a, b');
      var x, p, y, d := DigitsValue(a), Pow10(|b'|), DigitsValue(b'), DigitValue(b[|b| - 1]);
      assert DigitsValue(ab) == DigitsValue(a + b') * 10 + d;
      assert DigitsValue(b) == y * 10 + d;
      assert Pow10(|b|) == 10 * p;
      ShiftDigit(x, p, y, d);
    } else {
      assert ab == a;
    }
  }

  lemma AllDigitsAppend(a: string, b: string)
    requires AllDigits(a) && AllDigits(b)
    ensures AllDigits(a + b)
  {
  }

  /** One more digit multiplies what stands before it by ten. */
  lemma ShiftDigit(high: int, p: int, low: int, digit: int)
    ensures (high * p + low) * 10 + digit == high * (10 * p) + (low * 10 + digit)
  {
    MulAssoc(high, p, 10);
  }

  /** The position of the first `.`, or the length when there is none. */
  function DotIndex(t: string): (d: nat)
    ensures d <= |t|
    ensures forall k :: 0 <= k < d ==> t[k] != '.'
    ensures d < |t| ==> t[d] == '.'
    decreases |t|
  {
    if |t| == 0 || t[0] == '.' then 0 else DotIndex(t[1..]) + 1
  }

  /** An amount text has at most one dot, so the split point is the first dot. */
  lemma DotSplitIsFirstDot(t: string, d: int)
    requires DotSplitAt(t, d)
    ensures DotIndex(t) == d
  {
    forall k | 0 <= k < d
      ensures t[k] != '.'
    {
      assert t[..d][k] == t[k];
    }
  }

  /** `+text` for the text of an amount: the digits without the dot, scaled by the
      number of fractional digits. */
  function ToDecimal(t: string): (x: Decimal)
    requires IsAmountText(t)
    ensures x.mant >= 0
    ensures AllDigits(t) ==> x == Decimal(DigitsValue(t), 0)
    ensures forall d :: DotSplitAt(t, d) ==>
      x == Decimal(DigitsValue(t[..d]) * Pow10(|t| - d - 1) + DigitsValue(t[d + 1..]), |t| - d - 1)
  {
    var d := DotIndex(t);
    if d == |t| then
      Decimal(DigitsValue(t), 0)
    else
      assert DotSplitAt(t, d) by {
        var d' :| DotSplitAt(t, d');
        DotSplitIsFirstDot(t, d');
      }
      DigitsValueAppend(t[..d], t[d + 1..]);
      forall d' | DotSplitAt(t, d') ensures d' == d {
        DotSplitIsFirstDot(t, d');
      }
      Decimal(DigitsValue(t[..d] + t[d + 1..]), |t| - d - 1)
  }

  /** `+(amount * Math.pow(10, places)).toFixed(0)` on the exact amount. When the
      amount has no more fractional digits than `places`, the mantissa is exact:
      `mantissa / 10^places == amount`. Otherwise it is an integer nearest to
      `amount * 10^places` (`mant * 10^places / 10^scale`), a tie going away from
      zero, as `toFixed` rounds the magnitude and keeps the sign. */
  function Mantissa(x: Decimal, places: nat): (m: int)
    ensures x.scale <= places ==> m * Pow10(x.scale) == x.mant * Pow10(places)
    ensures x.scale > places ==>
      var q: int := Pow10(x.scale - places); var err := 2 * (m * q - x.mant);
      && -q <= err <= q
      && (err == q ==> x.mant > 0)
      && (err == -q ==> x.mant < 0)
  {
    if x.scale <= places then
      var m := x.mant * Pow10(places - x.scale);
      Pow10Split(places, x.scale);
      ScaleBack(x.mant, Pow10(places - x.scale), Pow10(x.scale), Pow10(places), m);
      m
    else
      var q := Pow10(x.scale - places);
      RoundNearest(x.mant, q);
      RoundAway(x.mant, q)
  }

  /** `n / q` rounded to the nearest integer, a tie going away from zero. */
  function RoundAway(n: int, q: int): int
    requires q >= 1
  {
    if n >= 0 then (2 * n + q) / (2 * q) else -((2 * -n + q) / (2 * q))
  }

  lemma RoundNearest(n: int, q: int)
    requires q >= 1
    ensures var err := 2 * (RoundAway(n, q) * q - n);
      && -q <= err <= q
      && (err == q ==> n > 0)
      && (err == -q ==> n < 0)
  {
    if n >= 0 {
      RoundHalfUp(n, q);
    } else {
      RoundHalfUp(-n, q);
    }
  }

  lemma Pow10Split(n: nat, k: nat)
    requires k <= n
    ensures Pow10(n) == Pow10(n - k) * Pow10(k)
  {
    Pow10Add(n - k, k);
    assert n - k + k == n;
  }

  lemma ScaleBack(m: int, p: int, s: int, ps: int, r: int)
    requires ps == p * s && r == m * p
    ensures r * s == m * ps
  {
    MulAssoc(m, p, s);
  }

  lemma MulAssoc(a: int, b: int, c: int)
    ensures (a * b) * c == a * (b * c)
  {
  }

  lemma RoundHalfUp(n: nat, q: int)
    requires q >= 1
    ensures -q < 2 * (((2 * n + q) / (2 * q)) * q - n) <= q
  {
    var r := (2 * n + q) / (2 * q);
    var rem := (2 * n + q) % (2 * q);
    assert 2 * n + q == r * (2 * q) + rem;
    assert 0 <= rem < 2 * q;
  }

  lemma MulSign(a: int, b: nat)
    ensures a >= 0 ==> a * b >= 0
    ensures a <= 0 ==> a * b <= 0
  {
  }

  lemma DivNonNegative(n: nat, d: int)
    requires d > 0
    ensures n / d >= 0
  {
  }

  /** The mantissa has the sign of the amount. */
  lemma MantissaSign(x: Decimal, places: nat)
    ensures x.mant >= 0 ==> Mantissa(x, places) >= 0
    ensures x.mant <= 0 ==> Mantissa(x, places) <= 0
  {
    var m := Mantissa(x, places);
    if x.scale <= places {
      assert m == x.mant * Pow10(places - x.scale);
      MulSign(x.mant, Pow10(places - x.scale));
    } else {
      var q := Pow10(x.scale - places);
      if x.mant > 0 {
        assert m == (2 * x.mant + q) / (2 * q);
        DivNonNegative(2 * x.mant + q, 2 * q);
      } else if x.mant == 0 {
        MantissaZero(x, places);
      } else {
        assert m == -((2 * -x.mant + q) / (2 * q));
        DivNonNegative(2 * -x.mant + q, 2 * q);
      }
    }
  }

  /** Negating the amount negates the mantissa. */
  lemma MantissaNegate(x: Decimal, places: nat)
    ensures Mantissa(Negate(x), places) == -Mantissa(x, places)
  {
    if x.scale <= places {
      MulNegate(x.mant, Pow10(places - x.scale));
    } else if x.mant == 0 {
      HalfRoundsDown(Pow10(x.scale - places));
    }
  }

  /** A trailing zero does not change the mantissa: `1.5` and `1.50` are one
      number, and they round alike at every number of places. */
  lemma MantissaTrailingZero(m: int, scale: nat, places: nat)
    ensures Mantissa(Decimal(10 * m, scale + 1), places) == Mantissa(Decimal(m, scale), places)
  {
    if scale + 1 <= places {
      assert Pow10(places - scale) == 10 * Pow10(places - scale - 1);
      MulAssoc(m, 10, Pow10(places - scale - 1));
    } else if scale == places {
      assert Pow10(scale + 1 - places) == 10;
      if m >= 0 {
        DivUnique(2 * (10 * m) + 10, 20, m, 10);
      } else {
        DivUnique(2 * -(10 * m) + 10, 20, -m, 10);
      }
    } else {
      var q := Pow10(scale - places);
      assert Pow10(scale + 1 - places) == 10 * q;
      var n := if m >= 0 then m else -m;
      DivCancel(2 * n + q, 2 * q, 10);
      assert 10 * (2 * n + q) == 2 * (10 * n) + 10 * q;
      assert 10 * (2 * q) == 2 * (10 * q);
    }
  }

  /** Integer division is fixed by quotient and remainder. */
  lemma DivUnique(a: int, b: int, d: int, r: int)
    requires b > 0 && 0 <= r < b && a == d * b + r
    ensures a / b == d
  {
    var d', r' := a / b, a % b;
    assert a == d' * b + r';
    if d' < d {
      QuotientGap(d, d', b);
    } else if d' > d {
      QuotientGap(d', d, b);
    }
  }

  /** Quotients one apart or more give products at least the divisor apart. */
  lemma QuotientGap(hi: int, lo: int, b: int)
    requires hi > lo && b > 0
    ensures hi * b >= lo * b + b
  {
    var k := hi - lo - 1;
    assert hi * b == lo * b + b + k * b;
    MulSign(k, b);
  }

  /** A common factor cancels in a division. */
  lemma DivCancel(a: int, b: int, k: int)
    requires b > 0 && k > 0
    ensures (k * a) / (k * b) == a / b
  {
    var d, r := a / b, a % b;
    assert a == d * b + r;
    assert k * a == d * (k * b) + k * r;
    DivUnique(k * a, k * b, d, k * r);
  }

  /** Zero has mantissa zero at every precision. */
  lemma MantissaZero(x: Decimal, places: nat)
    requires x.mant == 0
    ensures Mantissa(x, places) == 0
  {
    if x.scale > places {
      HalfRoundsDown(Pow10(x.scale - places));
    }
  }

  lemma HalfRoundsDown(q: int)
    requires q >= 1
    ensures (2 * 0 + q) / (2 * q) == 0
  {
  }

  lemma MulNegate(a: int, b: int)
    ensures (-a) * b == -(a * b)
  {
  }
}
