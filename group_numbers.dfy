/** Group numbers as the monitors read them: a regular-expression capture of
    the form `\d+\.?\d*` handed to float(). The float is kept as an exact
    decimal instead, so two captures denote the same number exactly when
    their decimals are equal ("3.10" and "3.1", "3", "3." and "3.0"). */
module GroupNumbers {
  import opened Base

  /** The integer part and the fractional digits without trailing zeros. */
  datatype Decimal = Decimal(whole: nat, frac: string)

  /** `not group_number`: only 0.0 is falsy. */
  predicate IsZero(d: Decimal) {
    d.whole == 0 && d.frac == []
  }

  /** The longest prefix of t made of digits. */
  function LeadingDigits(t: string): (r: string)
    ensures r <= t && AllDigits(r)
    ensures |r| == |t| || !IsDigit(t[|r|])
  {
    if t == [] || !IsDigit(t[0]) then [] else [t[0]] + LeadingDigits(t[1..])
  }

  /** The three parts of a `\d+\.?\d*` match. */
  datatype Capture = Capture(whole: string, hasDot: bool, frac: string) {
    function Text(): string {
      whole + (if hasDot then "." else "") + frac
    }
  }

  /** The greedy match of `\d+\.?\d*` at the start of t: as many digits as
      there are, then the dot if one follows, then the digits after it. */
  function CaptureAt(t: string): (c: Capture)
    requires t != [] && IsDigit(t[0])
    ensures c.Text() <= t
    ensures c.whole != [] && AllDigits(c.whole) && AllDigits(c.frac)
    ensures !c.hasDot ==> c.frac == []
    ensures |c.Text()| == |t| || !IsDigit(t[|c.Text()|])
    ensures !c.hasDot ==> |c.whole| == |t| || t[|c.whole|] != '.'
  {
    var w := LeadingDigits(t);
    var rest := t[|w|..];
    if rest != [] && rest[0] == '.' then
      var f := LeadingDigits(rest[1..]);
      assert w + "." + f == t[..|w| + 1 + |f|];
      Capture(w, true, f)
    else
      assert w + "" + [] == w;
      Capture(w, false, [])
  }

  /** f with its trailing '0's removed. */
  function DropTrailingZeros(f: string): (r: string)
    ensures r <= f && (r == [] || r[|r| - 1] != '0')
    ensures forall i :: |r| <= i < |f| ==> f[i] == '0'
  {
    if f != [] && f[|f| - 1] == '0' then DropTrailingZeros(f[..|f| - 1]) else f
  }

  /** The decimals float() produces: digits after the point, none trailing '0'. */
  predicate Canonical(d: Decimal) {
    AllDigits(d.frac) && (d.frac == [] || d.frac[|d.frac| - 1] != '0')
  }

  /** float(capture) */
  function ToDecimal(c: Capture): (d: Decimal)
    requires AllDigits(c.whole)
    ensures AllDigits(c.frac) ==> Canonical(d)
  {
    Decimal(DigitsValue(c.whole), DropTrailingZeros(c.frac))
  }

  // ---------------------------------------------------------------------
  // The decimal is the exact value of the capture
  // ---------------------------------------------------------------------

  function Pow10(n: nat): (r: nat)
    ensures r > 0
  {
    if n == 0 then 1 else 10 * Pow10(n - 1)
  }

  /** The number a capture denotes: its integer part plus its fraction
      digits over ten to their count. */
  function ExactValue(c: Capture): real
    requires AllDigits(c.whole) && AllDigits(c.frac)
  {
    DigitsValue(c.whole) as real + DigitsValue(c.frac) as real / Pow10(|c.frac|) as real
  }

  /** Two captures give the same decimal exactly when they denote the same
      number: float() of `\d+\.?\d*` loses nothing for the comparison. */
  lemma ToDecimalExact(c1: Capture, c2: Capture)
    requires AllDigits(c1.whole) && AllDigits(c1.frac) && AllDigits(c2.whole) && AllDigits(c2.frac)
    ensures ToDecimal(c1) == ToDecimal(c2) <==> ExactValue(c1) == ExactValue(c2)
  {
    var w1, w2 := DigitsValue(c1.whole), DigitsValue(c2.whole);
    ValueAsFraction(w1, c1.frac);
    ValueAsFraction(w2, c2.frac);
    FractionsEqual(Scaled(w1, c1.frac), Scaled(w2, c2.frac), Pow10(|c1.frac|), Pow10(|c2.frac|));
    ToDecimalCross(c1, c2);
  }

  /** The same statement with the values compared by cross-multiplication. */
  lemma ToDecimalCross(c1: Capture, c2: Capture)
    requires AllDigits(c1.whole) && AllDigits(c1.frac) && AllDigits(c2.whole) && AllDigits(c2.frac)
    ensures var w1, w2 := DigitsValue(c1.whole), DigitsValue(c2.whole);
      ToDecimal(c1) == ToDecimal(c2)
      <==> Scaled(w1, c1.frac) * Pow10(|c2.frac|) == Scaled(w2, c2.frac) * Pow10(|c1.frac|)
  {
    var w1, w2 := DigitsValue(c1.whole), DigitsValue(c2.whole);
    var g1, g2 := DropTrailingZeros(c1.frac), DropTrailingZeros(c2.frac);
    var u, v := Pow10(|c1.frac| - |g1|), Pow10(|c2.frac| - |g2|);
    DropZerosRescales(w1, c1.frac);
    DropZerosRescales(w2, c2.frac);
    Rescaled(Scaled(w1, g1), Scaled(w2, g2), Pow10(|g1|), Pow10(|g2|), u, v);
    assert ToDecimal(c1) == ToDecimal(c2) <==> w1 == w2 && g1 == g2;
    if Scaled(w1, g1) * Pow10(|g2|) == Scaled(w2, g2) * Pow10(|g1|) {
      CanonicalUnique(w1, g1, w2, g2);
    }
  }

  /** The fraction digits scaled to a whole number: the capture's value
      times ten to the count of fraction digits. */
  function Scaled(whole: nat, frac: string): nat
    requires AllDigits(frac)
  {
    whole * Pow10(|frac|) + DigitsValue(frac)
  }

  lemma ValueAsFraction(whole: nat, frac: string)
    requires AllDigits(frac)
    ensures whole as real + DigitsValue(frac) as real / Pow10(|frac|) as real
      == Scaled(whole, frac) as real / Pow10(|frac|) as real
  {
    var w, d, p := whole as real, DigitsValue(frac) as real, Pow10(|frac|) as real;
    ScaledAsReal(whole, frac);
    SumOverScale(w, d, p);
    DivideEqual(Scaled(whole, frac) as real, w * p + d, p);
  }

  lemma DivideEqual(x: real, y: real, p: real)
    requires x == y && p > 0.0
    ensures x / p == y / p
  {
  }

  lemma ScaledAsReal(whole: nat, frac: string)
    requires AllDigits(frac)
    ensures Scaled(whole, frac) as real == whole as real * Pow10(|frac|) as real + DigitsValue(frac) as real
  {
    CastMulAdd(whole, Pow10(|frac|), DigitsValue(frac));
  }

  lemma CastMulAdd(a: nat, b: nat, c: nat)
    ensures (a * b + c) as real == a as real * b as real + c as real
  {
  }

  lemma SumOverScale(w: real, d: real, p: real)
    requires p > 0.0
    ensures w + d / p == (w * p + d) / p
  {
    var x := w + d / p;
    assert d / p * p == d;
    assert x * p == w * p + d;
    RealCancel(x, (w * p + d) / p, p);
  }

  lemma RealCancel(a: real, b: real, p: real)
    requires p > 0.0 && a * p == b * p
    ensures a == b
  {
    assert (a - b) * p == 0.0;
  }

  lemma FractionsEqual(a: nat, b: nat, p: nat, q: nat)
    requires p > 0 && q > 0
    ensures a as real / p as real == b as real / q as real <==> a * q == b * p
  {
    var x, y := a as real / p as real, b as real / q as real;
    assert x * p as real == a as real;
    assert y * q as real == b as real;
    assert (a * q) as real == a as real * q as real;
    assert (b * p) as real == b as real * p as real;
    if x == y {
      assert a as real * q as real == x * (p as real * q as real);
      assert b as real * p as real == y * (q as real * p as real);
    }
  }

  /** Dropping k trailing zeros divides the scaled value and the scale by 10^k. */
  lemma {:induction false} DropZerosRescales(whole: nat, frac: string)
    requires AllDigits(frac)
    ensures var g := DropTrailingZeros(frac);
      && AllDigits(g)
      && Scaled(whole, frac) == Scaled(whole, g) * Pow10(|frac| - |g|)
      && Pow10(|frac|) == Pow10(|g|) * Pow10(|frac| - |g|)
  {
    var g := DropTrailingZeros(frac);
    if frac != [] && frac[|frac| - 1] == '0' {
      var f := frac[..|frac| - 1];
      assert frac == f + "0";
      DropZerosRescales(whole, f);
      assert g == DropTrailingZeros(f);
      ScaledSnocZero(whole, f);
      var k := |f| - |g|;
      assert |frac| - |g| == k + 1;
      TenTimes(Scaled(whole, g), Pow10(k));
      TenTimes(Pow10(|g|), Pow10(k));
    }
  }

  lemma ScaledSnocZero(whole: nat, f: string)
    requires AllDigits(f)
    ensures AllDigits(f + "0")
    ensures Scaled(whole, f + "0") == 10 * Scaled(whole, f)
    ensures Pow10(|f + "0"|) == 10 * Pow10(|f|)
  {
    var t := f + "0";
    assert t[..|t| - 1] == f;
    assert DigitsValue(t) == DigitsValue(f) * 10;
    TenTimes(whole, Pow10(|f|));
  }

  lemma TenTimes(a: nat, b: nat)
    ensures 10 * (a * b) == a * (10 * b)
  {
  }

  lemma Rescaled(a: nat, b: nat, p: nat, q: nat, u: nat, v: nat)
    requires u > 0 && v > 0
    ensures (a * u) * (q * v) == (b * v) * (p * u) <==> a * q == b * p
  {
    assert (a * u) * (q * v) == (a * q) * (u * v);
    assert (b * v) * (p * u) == (b * p) * (u * v);
    if (a * q) * (u * v) == (b * p) * (u * v) {
      Cancel(a * q, b * p, u * v);
    }
  }

  lemma Cancel(x: nat, y: nat, k: nat)
    requires k > 0 && x * k == y * k
    ensures x == y
  {
  }

  /** A whole part with fraction digits without a trailing zero is fixed by
      its value. */
  lemma CanonicalUnique(w1: nat, g1: string, w2: nat, g2: string)
    requires AllDigits(g1) && (g1 == [] || g1[|g1| - 1] != '0')
    requires AllDigits(g2) && (g2 == [] || g2[|g2| - 1] != '0')
    requires Scaled(w1, g1) * Pow10(|g2|) == Scaled(w2, g2) * Pow10(|g1|)
    ensures w1 == w2 && g1 == g2
  {
    if |g1| <= |g2| {
      CanonicalUniqueOrdered(w1, g1, w2, g2);
    } else {
      CanonicalUniqueOrdered(w2, g2, w1, g1);
    }
  }

  lemma CanonicalUniqueOrdered(w1: nat, g1: string, w2: nat, g2: string)
    requires AllDigits(g1) && (g1 == [] || g1[|g1| - 1] != '0')
    requires AllDigits(g2) && (g2 == [] || g2[|g2| - 1] != '0')
    requires |g1| <= |g2|
    requires Scaled(w1, g1) * Pow10(|g2|) == Scaled(w2, g2) * Pow10(|g1|)
    ensures w1 == w2 && g1 == g2
  {
    var m := |g2| - |g1|;
    var s1, s2 := Scaled(w1, g1), Scaled(w2, g2);
    Pow10Add(|g1|, m);
    CancelScale(s1, s2, Pow10(|g1|), Pow10(m));
    if m > 0 {
      assert Pow10(m) == 10 * Pow10(m - 1);
      assert Pow10(|g2|) == 10 * Pow10(|g2| - 1);
      TenDivides(s1, Pow10(m - 1), w2, Pow10(|g2| - 1), DigitsValue(g2));
      LastDigit(g2);
      assert false;
    }
    DigitsBelow(g1);
    DigitsBelow(g2);
    SplitUnique(w1, DigitsValue(g1), w2, DigitsValue(g2), Pow10(|g1|));
    SameLengthSameValue(g1, g2);
  }

  lemma CancelScale(s1: nat, s2: nat, p: nat, pm: nat)
    requires p > 0 && s1 * (p * pm) == s2 * p
    ensures s1 * pm == s2
  {
    assert s1 * (p * pm) == (s1 * pm) * p;
    Cancel(s1 * pm, s2, p);
  }

  lemma TenDivides(s: nat, a: nat, w: nat, b: nat, d: nat)
    requires s * (10 * a) == w * (10 * b) + d
    ensures d % 10 == 0
  {
    TenTimes(s, a);
    TenTimes(w, b);
    assert d == 10 * (s * a - w * b);
  }

  lemma {:induction false} Pow10Add(a: nat, b: nat)
    ensures Pow10(a + b) == Pow10(a) * Pow10(b)
  {
    if b > 0 {
      Pow10Add(a, b - 1);
      assert Pow10(a + b) == 10 * Pow10(a + b - 1);
      TenTimes(Pow10(a), Pow10(b - 1));
    }
  }

  lemma LastDigit(g: string)
    requires AllDigits(g) && g != []
    ensures DigitsValue(g) % 10 == g[|g| - 1] as int - '0' as int
  {
  }

  lemma {:induction false} DigitsBelow(g: string)
    requires AllDigits(g)
    ensures DigitsValue(g) < Pow10(|g|)
  {
    if g != [] {
      var h := g[..|g| - 1];
      DigitsBelow(h);
      assert DigitsValue(g) == DigitsValue(h) * 10 + (g[|g| - 1] as int - '0' as int);
      assert Pow10(|g|) == 10 * Pow10(|h|);
    }
  }

  /** The value of the last digit, and the value as the value before it
      times ten plus that digit. */
  lemma DigitsSnoc(g: string) returns (d: nat)
    requires AllDigits(g) && g != []
    ensures d < 10 && d == g[|g| - 1] as int - '0' as int
    ensures AllDigits(g[..|g| - 1]) && DigitsValue(g) == DigitsValue(g[..|g| - 1]) * 10 + d
  {
    d := g[|g| - 1] as int - '0' as int;
  }

  lemma SplitUnique(w1: nat, d1: nat, w2: nat, d2: nat, p: nat)
    requires d1 < p && d2 < p && w1 * p + d1 == w2 * p + d2
    ensures w1 == w2 && d1 == d2
  {
    if w1 < w2 {
      MulStep(w1, w2, p);
    } else if w2 < w1 {
      MulStep(w2, w1, p);
    }
  }

  lemma MulStep(a: nat, b: nat, p: nat)
    requires a < b
    ensures a * p + p <= b * p
  {
    var k := b - a;
    Distrib(a, k, p);
    Distrib(1, k - 1, p);
  }

  lemma Distrib(a: nat, k: nat, p: nat)
    ensures (a + k) * p == a * p + k * p
  {
  }

  lemma {:induction false} SameLengthSameValue(g1: string, g2: string)
    requires AllDigits(g1) && AllDigits(g2) && |g1| == |g2| && DigitsValue(g1) == DigitsValue(g2)
    ensures g1 == g2
  {
    if g1 != [] {
      var n := |g1| - 1;
      var h1, h2 := g1[..n], g2[..n];
      var d1 := DigitsSnoc(g1);
      var d2 := DigitsSnoc(g2);
      SplitUnique(DigitsValue(h1), d1, DigitsValue(h2), d2, 10);
      SameLengthSameValue(h1, h2);
      assert g1 == h1 + [g1[n]] && g2 == h2 + [g2[n]];
    }
  }

  /** str(float) for a group number: the fraction is never empty ("3.0"). */
  function PyStr(d: Decimal): (s: string)
  {
    NatToString(d.whole) + "." + (if d.frac == [] then "0" else d.frac)
  }

  /** A capture written the way str(float) writes numbers (no leading zero in
      the integer part, a non-empty fraction without trailing zero) reads back
      as the same text. */
  lemma CanonicalCaptureRoundTrip(c: Capture)
    requires c.whole != [] && AllDigits(c.whole) && (c.whole[0] == '0' ==> c.whole == "0")
    requires c.hasDot && c.frac != [] && c.frac[|c.frac| - 1] != '0'
    ensures PyStr(ToDecimal(c)) == c.Text()
  {
    NatToStringOfDigits(c.whole);
  }
  lemma {:induction false} LeadingDigitsOf(a: string, b: string)
    requires AllDigits(a) && (b == [] || !IsDigit(b[0]))
    ensures LeadingDigits(a + b) == a
  {
    if a != [] {
      assert (a + b)[0] == a[0] && (a + b)[1..] == a[1..] + b;
      LeadingDigitsOf(a[1..], b);
    } else {
      assert a + b == b;
    }
  }

  /** A capture followed by text that cannot continue it is read back as
      itself: after a dot no digit may follow, and without a dot neither a
      digit nor a dot. */
  lemma CaptureBefore(c: Capture, b: string)
    requires c.whole != [] && AllDigits(c.whole) && AllDigits(c.frac)
    requires c.hasDot ==> b == [] || !IsDigit(b[0])
    requires !c.hasDot ==> c.frac == [] && (b == [] || (!IsDigit(b[0]) && b[0] != '.'))
    ensures CaptureAt(c.Text() + b) == c
  {
    if c.hasDot {
      CaptureBeforeDot(c, b);
    } else {
      CaptureBeforePlain(c, b);
    }
  }

  lemma CaptureBeforeDot(c: Capture, b: string)
    requires c.whole != [] && AllDigits(c.whole) && AllDigits(c.frac) && c.hasDot
    requires b == [] || !IsDigit(b[0])
    ensures CaptureAt(c.Text() + b) == c
  {
    var t := c.Text() + b;
    var after := "." + c.frac + b;
    assert t == c.whole + after;
    LeadingDigitsOf(c.whole, after);
    assert t[|c.whole|..] == after;
    assert after[1..] == c.frac + b;
    LeadingDigitsOf(c.frac, b);
  }

  lemma CaptureBeforePlain(c: Capture, b: string)
    requires c.whole != [] && AllDigits(c.whole) && !c.hasDot && c.frac == []
    requires b == [] || (!IsDigit(b[0]) && b[0] != '.')
    ensures CaptureAt(c.Text() + b) == c
  {
    var t := c.Text() + b;
    assert t == c.whole + b;
    LeadingDigitsOf(c.whole, b);
    assert t[|c.whole|..] == b;
  }
}
