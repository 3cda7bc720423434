/** Widening of half- and single-precision bit patterns to the 64 bits of a double. */
module Floats {
  import opened Octets

  const BIT23: nat := 0x80_0000
  const BIT29: nat := 0x2000_0000
  const BIT31: nat := 0x8000_0000
  const BIT51: nat := 0x8_0000_0000_0000
  const BIT52: nat := 0x10_0000_0000_0000
  const BIT63: nat := 0x8000_0000_0000_0000

  function Pow2(n: nat): (p: nat)
    ensures p >= 1
  {
    if n == 0 then 1 else 2 * Pow2(n - 1)
  }

  lemma {:induction false} Pow2Add(a: nat, b: nat)
    ensures Pow2(a + b) == Pow2(a) * Pow2(b)
  {
    if b > 0 { Pow2Add(a, b - 1); }
  }

  lemma PowersUsed()
    ensures Pow2(10) == 1024 && Pow2(23) == BIT23 && Pow2(29) == BIT29
  {
    assert Pow2(10) == 1024;
    Pow2Add(10, 10);
    Pow2Add(20, 3);
    Pow2Add(20, 9);
  }

  /** A significand, and the biased exponent that goes with its leading bit. */
  datatype Normal = Normal(mant: nat, exp: int)

  /** Double the significand until its leading bit reaches bound, lowering the exponent at each of at most k
      doublings. */
  function Normalise(mant: nat, exp: int, bound: nat, k: nat): (r: Normal)
    requires mant < 2 * bound && bound <= mant * Pow2(k)
    ensures bound <= r.mant < 2 * bound && exp - k <= r.exp <= exp
    ensures r.mant == mant * Pow2(exp - r.exp)
    decreases k
  {
    if mant >= bound then Normal(mant, exp)
    else
      Doubling(mant, k);
      var r := Normalise(2 * mant, exp - 1, bound, k - 1);
      Doubling(mant, exp - r.exp);
      r
  }

  lemma Doubling(mant: nat, k: nat)
    ensures k > 0 ==> 2 * mant * Pow2(k - 1) == mant * Pow2(k)
  {
    if k > 0 { Shuffle(mant, Pow2(k - 1)); }
  }

  lemma Shuffle(a: nat, b: nat)
    ensures 2 * a * b == a * (2 * b)
  {
  }

  lemma EnoughDoublings(mant: nat, k: nat)
    requires mant > 0
    ensures Pow2(k) <= mant * Pow2(k)
  {
  }

  /** The single-precision pattern of a half: zero, subnormal, infinity or NaN, normal. */
  function HalfToSingle(h: nat): (s: nat)
    requires h < 0x1_0000
    ensures s < 0x1_0000_0000
  {
    var sign := if h >= 0x8000 then BIT31 else 0;
    var exp := h / 1024 % 32;
    var mant := h % 1024;
    if exp == 0 && mant == 0 then sign
    else if exp == 0 then
      PowersUsed();
      EnoughDoublings(mant, 10);
      var n := Normalise(mant, 127 - 15 + 1, 1024, 10);
      sign + n.exp * BIT23 + (n.mant - 1024) * 8192
    else if exp == 31 then sign + 255 * BIT23 + mant * 8192
    else sign + (exp + (127 - 15)) * BIT23 + mant * 8192
  }

  /** The double a single converts to; a NaN keeps its sign and payload and is made quiet. */
  function SingleToDouble(s: nat): (d: nat)
    requires s < 0x1_0000_0000
    ensures d <= UINT64_MAX
  {
    var sign := if s >= BIT31 then BIT63 else 0;
    var exp := s / BIT23 % 256;
    var mant := s % BIT23;
    if exp == 0 && mant == 0 then sign
    else if exp == 0 then
      PowersUsed();
      EnoughDoublings(mant, 23);
      var n := Normalise(mant, 1023 - 127 + 1, BIT23, 23);
      sign + n.exp * BIT52 + (n.mant - BIT23) * BIT29
    else if exp == 255 then
      sign + 2047 * BIT52 + (if mant == 0 then 0 else BIT51 + mant % 0x40_0000 * BIT29)
    else sign + (exp + (1023 - 127)) * BIT52 + mant * BIT29
  }

  function HalfToDouble(h: nat): (d: nat)
    requires h < 0x1_0000
    ensures d <= UINT64_MAX
  {
    SingleToDouble(HalfToSingle(h))
  }

  /** The half-precision pattern of 1.0 widens to the double-precision pattern of 1.0. */
  lemma HalfOne()
    ensures HalfToDouble(0x3C00) == 0x3FF0_0000_0000_0000
  {
    assert HalfToSingle(0x3C00) == 0x3F80_0000;
  }

  // ----- the number a finite pattern stands for: Significand * 2^(Scale - bias) -----

  /** Split a pattern without its sign bit at its exponent field. */
  function Significand(bits: nat, unit: nat): nat
    requires unit > 0
  {
    if bits / unit == 0 then bits % unit else unit + bits % unit
  }

  function Scale(bits: nat, unit: nat): nat
    requires unit > 0
  {
    if bits / unit == 0 then 0 else bits / unit - 1
  }

  /** The significand times this power of two is the magnitude of a finite single, scaled by 2^149. */
  function SingleMagnitude(s: nat): nat
    requires s < 0x1_0000_0000
  {
    var m := s % 0x8000_0000;
    Significand(m, 0x80_0000) * Pow2(Scale(m, 0x80_0000))
  }

  /** The same for a double, scaled by 2^1074. */
  function DoubleMagnitude(d: nat): nat
  {
    var m := d % 0x8000_0000_0000_0000;
    Significand(m, 0x10_0000_0000_0000) * Pow2(Scale(m, 0x10_0000_0000_0000))
  }

  lemma Fields(sign: nat, exp: nat, mant: nat)
    requires (sign == 0 || sign == BIT63) && exp < 2048 && mant < BIT52
    ensures var d := sign + exp * BIT52 + mant;
            (d >= BIT63 <==> sign == BIT63) && d % BIT63 / BIT52 == exp && d % BIT63 % BIT52 == mant
  {
    var m := exp * BIT52 + mant;
    assert m < BIT63;
    assert (sign + m) % BIT63 == m;
  }

  lemma Regroup(a: nat, x: nat, y: nat, z: nat, p: nat)
    requires x * y * z == p
    ensures a * x * y * z == a * p
  {
    assert a * x * y * z == a * (x * y * z);
  }

  lemma SubnormalProduct(mant: nat, exp: nat, sig: nat)
    requires 1 <= exp <= 897 && sig == mant * Pow2(897 - exp)
    ensures sig * BIT29 * Pow2(exp - 1) == mant * Pow2(925)
  {
    PowersUsed();
    Pow2Add(897 - exp, 29);
    Pow2Add(897 - exp + 29, exp - 1);
    hide Pow2;
    Regroup(mant, Pow2(897 - exp), BIT29, Pow2(exp - 1), Pow2(925));
  }

  lemma NormalProduct(sig: nat, exp: nat)
    requires 1 <= exp
    ensures sig * BIT29 * Pow2(exp + 895) == sig * Pow2(exp - 1) * Pow2(925)
  {
    PowersUsed();
    Pow2Add(29, exp + 895);
    Pow2Add(exp - 1, 925);
    hide Pow2;
    assert BIT29 * Pow2(exp + 895) == Pow2(exp + 924) == Pow2(exp - 1) * Pow2(925);
    Group(sig, BIT29, Pow2(exp + 895));
    Group(sig, Pow2(exp - 1), Pow2(925));
  }

  lemma Group(a: nat, x: nat, y: nat)
    ensures a * x * y == a * (x * y)
  {
  }

  lemma DoubleFields(sign: nat, exp: nat, sig: nat)
    requires (sign == 0 || sign == BIT63) && 1 <= exp < 2047 && BIT23 <= sig < 2 * BIT23
    ensures var d := sign + exp * BIT52 + (sig - BIT23) * BIT29;
            && (d >= BIT63 <==> sign == BIT63)
            && Significand(d % BIT63, BIT52) == sig * BIT29
            && Scale(d % BIT63, BIT52) == exp - 1
  {
    Fields(sign, exp, (sig - BIT23) * BIT29);
  }

  /** The double d has the sign of the single s and stands for the same number. */
  predicate SameNumber(s: nat, d: nat)
    requires s < 0x1_0000_0000
  {
    && (s >= 0x8000_0000 <==> d >= 0x8000_0000_0000_0000)
    && DoubleMagnitude(d) == SingleMagnitude(s) * Pow2(925)
  }

  lemma SingleFields(s: nat)
    requires s < 0x1_0000_0000
    ensures s % BIT31 / BIT23 == s / BIT23 % 256 && s % BIT31 % BIT23 == s % BIT23
  {
  }

  lemma ZeroKept(s: nat)
    requires s == 0 || s == BIT31
    ensures SameNumber(s, SingleToDouble(s))
  {
    hide Pow2;
  }

  lemma SubnormalBits(s: nat)
    requires s < 0x1_0000_0000 && s / BIT23 % 256 == 0 && s % BIT23 != 0
    ensures SingleMagnitude(s) == s % BIT23
    ensures BIT23 <= s % BIT23 * Pow2(23)
    ensures var n := Normalise(s % BIT23, 897, BIT23, 23);
            SingleToDouble(s) == (if s >= BIT31 then BIT63 else 0) + n.exp * BIT52 + (n.mant - BIT23) * BIT29
  {
    assert Pow2(0) == 1;
    hide Pow2, Normalise;
    SingleFields(s);
    PowersUsed();
    EnoughDoublings(s % BIT23, 23);
  }

  lemma SubnormalKept(s: nat)
    requires s < 0x1_0000_0000 && s / BIT23 % 256 == 0 && s % BIT23 != 0
    ensures SameNumber(s, SingleToDouble(s))
  {
    hide Pow2, Normalise, SingleToDouble, SingleMagnitude, Significand, Scale;
    SubnormalBits(s);
    var n := Normalise(s % BIT23, 897, BIT23, 23);
    DoubleFields(if s >= BIT31 then BIT63 else 0, n.exp, n.mant);
    SubnormalProduct(s % BIT23, n.exp, n.mant);
  }

  lemma NormalKept(s: nat)
    requires s < 0x1_0000_0000 && 0 < s / BIT23 % 256 < 255
    ensures SameNumber(s, SingleToDouble(s))
  {
    hide Pow2, Normalise;
    var exp, mant := s / BIT23 % 256, s % BIT23;
    SingleFields(s);
    var sign := if s >= BIT31 then BIT63 else 0;
    assert SingleToDouble(s) == sign + (exp + 896) * BIT52 + mant * BIT29;
    assert SingleMagnitude(s) == (BIT23 + mant) * Pow2(exp - 1);
    hide SingleToDouble, SingleMagnitude, Significand, Scale;
    DoubleFields(sign, exp + 896, BIT23 + mant);
    NormalProduct(BIT23 + mant, exp);
  }

  /**
   * Widening a finite single keeps its sign and its number: the double's magnitude, which is scaled by
   * 2^1074, is 2^925 times the single's, which is scaled by 2^149.
   */
  lemma SingleValueKept(s: nat)
    requires s < 0x1_0000_0000 && s / BIT23 % 256 != 255
    ensures SameNumber(s, SingleToDouble(s))
  {
    if s / BIT23 % 256 != 0 {
      NormalKept(s);
    } else if s % BIT23 != 0 {
      SubnormalKept(s);
    } else {
      ZeroKept(s);
    }
  }

  // ----- halves -----

  /** The significand times this power of two is the magnitude of a finite half, scaled by 2^24. */
  function HalfMagnitude(h: nat): nat
    requires h < 0x1_0000
  {
    var m := h % 0x8000;
    Significand(m, 1024) * Pow2(Scale(m, 1024))
  }

  /** The single s has the sign of the half h and stands for the same number: 2^125 is the quotient of the scales. */
  predicate SameAsHalf(h: nat, s: nat)
    requires h < 0x1_0000 && s < 0x1_0000_0000
  {
    && (h >= 0x8000 <==> s >= 0x8000_0000)
    && SingleMagnitude(s) == HalfMagnitude(h) * Pow2(125)
  }

  predicate SameHalfNumber(h: nat, d: nat)
    requires h < 0x1_0000
  {
    && (h >= 0x8000 <==> d >= 0x8000_0000_0000_0000)
    && DoubleMagnitude(d) == HalfMagnitude(h) * Pow2(1050)
  }

  lemma HalfFields(h: nat)
    requires h < 0x1_0000
    ensures h % 0x8000 / 1024 == h / 1024 % 32 && h % 0x8000 % 1024 == h % 1024
  {
  }

  lemma SingleParts(sign: nat, exp: nat, sig: nat)
    requires (sign == 0 || sign == BIT31) && 1 <= exp < 255 && 1024 <= sig < 2048
    ensures var s := sign + exp * BIT23 + (sig - 1024) * 8192;
            && s < 0x1_0000_0000 && (s >= BIT31 <==> sign == BIT31) && s / BIT23 % 256 == exp
            && SingleMagnitude(s) == sig * 8192 * Pow2(exp - 1)
  {
    hide Pow2;
    var low := (sig - 1024) * 8192;
    var m := exp * BIT23 + low;
    assert m < BIT31 && (sign + m) % BIT31 == m && m / BIT23 == exp && m % BIT23 == low;
    assert BIT23 + low == sig * 8192;
    SingleFields(sign + m);
  }

  /** Thirteen binary places more in the significand, and a bias higher by 112. */
  lemma HalfProduct(sig: nat, low: nat, exp: nat, mant: nat)
    requires 1 <= exp && sig == mant * Pow2(low) && low + exp == 113
    ensures sig * 8192 * Pow2(exp - 1) == mant * Pow2(125)
  {
    assert Pow2(13) == 8192 by { PowersUsed(); Pow2Add(10, 3); }
    Pow2Add(low, 13);
    Pow2Add(low + 13, exp - 1);
    hide Pow2;
    Regroup(mant, Pow2(low), 8192, Pow2(exp - 1), Pow2(125));
  }

  lemma HalfNormalProduct(sig: nat, exp: nat)
    requires 1 <= exp
    ensures sig * 8192 * Pow2(exp + 111) == sig * Pow2(exp - 1) * Pow2(125)
  {
    assert Pow2(13) == 8192 by { PowersUsed(); Pow2Add(10, 3); }
    Pow2Add(13, exp + 111);
    Pow2Add(exp - 1, 125);
    hide Pow2;
    assert 8192 * Pow2(exp + 111) == Pow2(exp + 124) == Pow2(exp - 1) * Pow2(125);
    Group(sig, 8192, Pow2(exp + 111));
    Group(sig, Pow2(exp - 1), Pow2(125));
  }

  lemma HalfSubnormalBits(h: nat)
    requires h < 0x1_0000 && h / 1024 % 32 == 0 && h % 1024 != 0
    ensures HalfMagnitude(h) == h % 1024
    ensures 1024 <= h % 1024 * Pow2(10)
    ensures var n := Normalise(h % 1024, 113, 1024, 10);
            HalfToSingle(h) == (if h >= 0x8000 then BIT31 else 0) + n.exp * BIT23 + (n.mant - 1024) * 8192
  {
    assert Pow2(0) == 1;
    hide Pow2, Normalise;
    HalfFields(h);
    PowersUsed();
    EnoughDoublings(h % 1024, 10);
  }

  lemma HalfSubnormalKept(h: nat)
    requires h < 0x1_0000 && h / 1024 % 32 == 0 && h % 1024 != 0
    ensures SameAsHalf(h, HalfToSingle(h)) && HalfToSingle(h) / BIT23 % 256 != 255
  {
    hide Pow2, Normalise, HalfToSingle, SingleMagnitude, HalfMagnitude;
    HalfSubnormalBits(h);
    var n := Normalise(h % 1024, 113, 1024, 10);
    SingleParts(if h >= 0x8000 then BIT31 else 0, n.exp, n.mant);
    HalfProduct(n.mant, 113 - n.exp, n.exp, h % 1024);
  }

  lemma HalfNormalKept(h: nat)
    requires h < 0x1_0000 && 0 < h / 1024 % 32 < 31
    ensures SameAsHalf(h, HalfToSingle(h)) && HalfToSingle(h) / BIT23 % 256 != 255
  {
    hide Pow2, Normalise, SingleMagnitude;
    var exp, mant := h / 1024 % 32, h % 1024;
    HalfFields(h);
    SingleParts(if h >= 0x8000 then BIT31 else 0, exp + 112, 1024 + mant);
    HalfNormalProduct(1024 + mant, exp);
  }

  lemma HalfZeroKept(h: nat)
    requires h == 0 || h == 0x8000
    ensures SameAsHalf(h, HalfToSingle(h)) && HalfToSingle(h) / BIT23 % 256 != 255
  {
    hide Pow2;
  }

  /**
   * Widening a finite half keeps its sign and its number, subnormals included: the double's magnitude, which is scaled
   * by 2^1074, is 2^1050 times the half's, which is scaled by 2^24.
   */
  lemma HalfValueKept(h: nat)
    requires h < 0x1_0000 && h / 1024 % 32 != 31
    ensures SameHalfNumber(h, HalfToDouble(h))
  {
    hide Pow2, Normalise, HalfToSingle, SingleToDouble, SingleMagnitude, HalfMagnitude, DoubleMagnitude;
    if h / 1024 % 32 != 0 {
      HalfNormalKept(h);
    } else if h % 1024 != 0 {
      HalfSubnormalKept(h);
    } else {
      HalfZeroKept(h);
    }
    SingleValueKept(HalfToSingle(h));
    Pow2Add(125, 925);
    Group(HalfMagnitude(h), Pow2(125), Pow2(925));
  }

  // ----- infinities and NaN -----

  /** A double whose exponent field is full: infinite when nothing else is set, otherwise a NaN, quiet when the top
      bit of the significand is set. */
  predicate IsInfinite(d: nat)
  {
    d % 0x8000_0000_0000_0000 == 0x7FF0_0000_0000_0000
  }

  predicate IsQuietNaN(d: nat)
  {
    0x7FF8_0000_0000_0000 <= d % 0x8000_0000_0000_0000
  }

  predicate SameSpecial(s: nat, d: nat)
    requires s < 0x1_0000_0000
  {
    && (s >= 0x8000_0000 <==> d >= 0x8000_0000_0000_0000)
    && (s % 0x80_0000 == 0 ==> IsInfinite(d))
    && (s % 0x80_0000 != 0 ==> IsQuietNaN(d) && d % 0x8_0000_0000_0000 == s % 0x40_0000 * 0x2000_0000)
  }

  predicate SameHalfSpecial(h: nat, d: nat)
    requires h < 0x1_0000
  {
    && (h >= 0x8000 <==> d >= 0x8000_0000_0000_0000)
    && (h % 1024 == 0 ==> IsInfinite(d))
    && (h % 1024 != 0 ==> IsQuietNaN(d) && d % 0x8_0000_0000_0000 == h % 512 * 0x400_0000_0000)
  }

  /** Singles with a full exponent field: an infinity keeps its sign, and a NaN stays one, made quiet. */
  lemma SingleSpecialKept(s: nat)
    requires s < 0x1_0000_0000 && s / BIT23 % 256 == 255
    ensures SameSpecial(s, SingleToDouble(s))
  {
    var mant := s % BIT23;
    var low := if mant == 0 then 0 else BIT51 + mant % 0x40_0000 * BIT29;
    assert mant % 0x40_0000 == s % 0x40_0000;
    Fields(if s >= BIT31 then BIT63 else 0, 2047, low);
    if mant != 0 { assert low % BIT51 == s % 0x40_0000 * BIT29; }
  }

  lemma SpecialFields(sign: nat, mant: nat)
    requires (sign == 0 || sign == BIT31) && mant < 1024
    ensures var s := sign + 255 * BIT23 + mant * 8192;
            && s < 0x1_0000_0000 && (s >= BIT31 <==> sign == BIT31)
            && s / BIT23 % 256 == 255 && s % BIT23 == mant * 8192 && s % 0x40_0000 == mant % 512 * 8192
  {
  }

  lemma HalfSpecialKept(h: nat)
    requires h < 0x1_0000 && h / 1024 % 32 == 31
    ensures SameHalfSpecial(h, HalfToDouble(h))
  {
    hide SingleToDouble, IsInfinite, IsQuietNaN;
    var sign, mant := if h >= 0x8000 then BIT31 else 0, h % 1024;
    SpecialFields(sign, mant);
    assert mant % 512 == h % 512;
    var s := HalfToSingle(h);
    assert s == sign + 255 * BIT23 + mant * 8192;
    hide HalfToSingle;
    SingleSpecialKept(s);
  }

  // ----- which double a narrow pattern stands for, without computing it -----

  /** The double d is what the single s widens to. */
  predicate IsWidened(s: nat, d: nat)
  {
    && s < 0x1_0000_0000
    && if s / 0x80_0000 % 256 == 255 then SameSpecial(s, d) else SameNumber(s, d)
  }

  /** The double d is what the half h widens to. */
  predicate IsWidenedHalf(h: nat, d: nat)
  {
    && h < 0x1_0000
    && if h / 1024 % 32 == 31 then SameHalfSpecial(h, d) else SameHalfNumber(h, d)
  }

  lemma Pow2Grows(a: nat, b: nat)
    requires a < b
    ensures 2 * Pow2(a) <= Pow2(b)
  {
    Pow2Add(a, b - a);
    assert Pow2(b - a) == 2 * Pow2(b - a - 1) >= 2;
    hide Pow2;
    ProductAtLeast(Pow2(a), Pow2(b - a), 2);
  }

  lemma ProductAtLeast(x: nat, y: nat, z: nat)
    requires y >= z
    ensures x * y >= x * z
  {
    var more := y - z;
    assert x * y == x * z + x * more;
  }

  /** Larger scales go with larger magnitudes, as their significands have a leading bit. */
  lemma ScaleOrders(x: nat, y: nat, unit: nat)
    requires unit > 0
    ensures Scale(x, unit) < Scale(y, unit) ==>
              Significand(x, unit) * Pow2(Scale(x, unit)) < Significand(y, unit) * Pow2(Scale(y, unit))
  {
    if Scale(x, unit) >= Scale(y, unit) {
      return;
    }
    var p, q := Pow2(Scale(x, unit)), Pow2(Scale(y, unit));
    var a, b := Significand(x, unit), Significand(y, unit);
    Pow2Grows(Scale(x, unit), Scale(y, unit));
    assert a < 2 * unit && unit <= b;
    hide Pow2, Significand, Scale;
    ScaledLess(a, b, unit, p, q);
  }

  lemma ScaledLess(a: nat, b: nat, unit: nat, p: nat, q: nat)
    requires a < 2 * unit && unit <= b && 2 * p <= q && p > 0
    ensures a * p < b * q
  {
    ProductAtLeast(p, 2 * unit, a + 1);
    ProductAtLeast(unit, q, 2 * p);
    ProductAtLeast(q, b, unit);
  }

  /** A pattern is known by its magnitude. */
  lemma MagnitudeKnows(x: nat, y: nat, unit: nat)
    requires unit > 0
    requires Significand(x, unit) * Pow2(Scale(x, unit)) == Significand(y, unit) * Pow2(Scale(y, unit))
    ensures x == y
  {
    ScaleOrders(x, y, unit);
    ScaleOrders(y, x, unit);
    hide Significand, Scale, Pow2;
    assert Scale(x, unit) == Scale(y, unit);
    Cancel(Significand(x, unit), Significand(y, unit), Pow2(Scale(x, unit)));
    SplitsAlike(x, y, unit);
  }

  lemma Cancel(a: nat, b: nat, p: nat)
    requires p > 0
    ensures a * p == b * p ==> a == b
  {
    if a < b { ProductAtLeast(p, b, a + 1); }
    if b < a { ProductAtLeast(p, a, b + 1); }
  }

  lemma SplitsAlike(x: nat, y: nat, unit: nat)
    requires unit > 0 && Significand(x, unit) == Significand(y, unit) && Scale(x, unit) == Scale(y, unit)
    ensures x == y
  {
    assert x == unit * (x / unit) + x % unit && y == unit * (y / unit) + y % unit;
    if x / unit == 0 || y / unit == 0 {
      assert x / unit == y / unit;
    }
  }

  /** A double is known by its sign and its magnitude. */
  lemma DoubleKnown(d: nat, e: nat)
    requires d <= UINT64_MAX && e <= UINT64_MAX && DoubleMagnitude(d) == DoubleMagnitude(e)
    requires d >= 0x8000_0000_0000_0000 <==> e >= 0x8000_0000_0000_0000
    ensures d == e
  {
    hide Pow2, Significand, Scale;
    MagnitudeKnows(d % 0x8000_0000_0000_0000, e % 0x8000_0000_0000_0000, 0x10_0000_0000_0000);
  }

  lemma QuietKnown(d: nat, e: nat)
    requires d <= UINT64_MAX && e <= UINT64_MAX && IsQuietNaN(d) && IsQuietNaN(e)
    requires d % 0x8_0000_0000_0000 == e % 0x8_0000_0000_0000
    requires d >= 0x8000_0000_0000_0000 <==> e >= 0x8000_0000_0000_0000
    ensures d == e
  {
  }

  /** The widening of the decoder is the one that keeps number and sign, and no other double will do. */
  lemma SingleWidened(s: nat, d: nat)
    requires d <= UINT64_MAX
    ensures IsWidened(s, d) <==> s < 0x1_0000_0000 && SingleToDouble(s) == d
  {
    if s >= 0x1_0000_0000 {
      return;
    }
    hide Pow2, SingleToDouble, SingleMagnitude, DoubleMagnitude, IsQuietNaN;
    var e := SingleToDouble(s);
    if s / 0x80_0000 % 256 == 255 {
      SingleSpecialKept(s);
      if SameSpecial(s, d) && s % 0x80_0000 != 0 { QuietKnown(d, e); }
    } else {
      SingleValueKept(s);
      if SameNumber(s, d) { DoubleKnown(d, e); }
    }
  }

  lemma HalfWidened(h: nat, d: nat)
    requires d <= UINT64_MAX
    ensures IsWidenedHalf(h, d) <==> h < 0x1_0000 && HalfToDouble(h) == d
  {
    if h >= 0x1_0000 {
      return;
    }
    hide Pow2, HalfToDouble, HalfMagnitude, DoubleMagnitude, IsQuietNaN;
    var e := HalfToDouble(h);
    if h / 1024 % 32 == 31 {
      HalfSpecialKept(h);
      if SameHalfSpecial(h, d) && h % 1024 != 0 { QuietKnown(d, e); }
    } else {
      HalfValueKept(h);
      if SameHalfNumber(h, d) { DoubleKnown(d, e); }
    }
  }
}
