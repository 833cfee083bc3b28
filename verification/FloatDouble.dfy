/** Conversion between binary32 and binary64 on their bit patterns: widening is exact, narrowing
    rounds to the nearest float with ties away from zero, and a float survives the way there and back.

    Magnitudes are integers: floats in units of 2^-149, doubles in units of 2^-1074. */
module FloatDouble {
  import opened Basics
  import opened Powers

  lemma Pow2Values()
    ensures Pow2(23) == TWO_23 && Pow2(29) == TWO_29
  {
    assert Pow2(1) == 2 && Pow2(2) == 4 && Pow2(3) == 8 && Pow2(4) == 16 && Pow2(5) == 32;
    assert Pow2(6) == 64 && Pow2(7) == 128;
    Pow2Add(7, 7);
    Pow2Add(14, 7);
    Pow2Add(21, 2);
    Pow2Add(23, 6);
  }

  const TWO_23: int := 0x80_0000
  const TWO_28: int := 0x1000_0000
  const TWO_29: int := 0x2000_0000
  const TWO_52: int := 0x10_0000_0000_0000

  /** The bit pattern of infinity. The patterns below it are the finite magnitudes in rising order. */
  const INFINITY: int := 0x7F80_0000

  // ----- IEEE 754 section 3.4: what patterns mean -----

  /** The magnitude of a float without its sign. Infinity counts as the power of two that it replaces. */
  function FloatMagnitude(bits: nat): nat {
    var e, m := bits / TWO_23, bits % TWO_23;
    if e == 0 then m else (TWO_23 + m) * Pow2(e - 1)
  }

  function DoubleMagnitude(exponent: nat, mantissa: nat): nat {
    if exponent == 0 then mantissa else (TWO_52 + mantissa) * Pow2(exponent - 1)
  }

  /** The same in units of the double. */
  function Scaled(bits: nat): nat { FloatMagnitude(bits) * Pow2(925) }

  function Distance(a: int, b: int): int { if a < b then b - a else a - b }

  /** No other pattern is nearer, and one that is as near has the smaller magnitude. */
  predicate Nearest(r: nat, x: nat) {
    && r <= INFINITY
    && forall b: nat {:trigger Scaled(b)} :: b <= INFINITY && b != r ==>
         Distance(x, Scaled(r)) < Distance(x, Scaled(b)) || (Distance(x, Scaled(r)) == Distance(x, Scaled(b)) && b < r)
  }

  // ----- the conversions, as functions -----

  datatype Double = Double(sign: bool, exponent: nat, mantissa: nat) {
    predicate Valid() { exponent < 2048 && mantissa < TWO_52 }
    predicate Finite() { exponent < 2047 }
    function Magnitude(): nat { DoubleMagnitude(exponent, mantissa) }
  }

  function SignBit(sign: bool): nat { if sign then TWO_TO_THE_31 else 0 }

  /** Shift a subnormal mantissa up until its leading bit is in place. */
  function ShiftUp(mantissa: nat, exponent: int): (r: (nat, int))
    requires 0 < mantissa < 2 * TWO_23
    ensures TWO_23 <= r.0 < 2 * TWO_23
    decreases 2 * TWO_23 - mantissa
  {
    if mantissa >= TWO_23 then (mantissa, exponent) else ShiftUp(2 * mantissa, exponent - 1)
  }

  lemma {:induction false} ShiftUpExponent(mantissa: nat, exponent: int, k: nat)
    requires 0 < mantissa < 2 * TWO_23 && mantissa * Pow2(k) >= TWO_23
    ensures exponent - k <= ShiftUp(mantissa, exponent).1 <= exponent
    decreases k
  {
    if mantissa >= TWO_23 {
    } else {
      ShiftUpExponent(2 * mantissa, exponent - 1, k - 1);
    }
  }

  /** The float pattern `bits`, sign excluded, as a double. */
  function Widen(sign: bool, bits: nat): (d: Double)
    requires bits < TWO_TO_THE_31
    ensures d.Valid()
  {
    var e, m := bits / TWO_23, bits % TWO_23;
    if e == 255 then Double(sign, 2047, m * TWO_29)
    else if e != 0 then Double(sign, e + 896, m * TWO_29)
    else if m == 0 then Double(sign, 0, 0)
    else
      var r := ShiftUp(2 * m, -127);
      assert -150 <= r.1 <= -127 by { Pow2Values(); ShiftUpExponent(2 * m, -127, 23); }
      Double(sign, r.1 + 1023, (r.0 - TWO_23) * TWO_29)
  }

  /** The rounded mantissa with one extra digit dropped, put behind the exponent. A carry out of the
      mantissa goes into the exponent by itself. */
  function Narrow(d: Double): (bits: nat)
    requires d.Valid()
    ensures bits < TWO_TO_THE_31
  {
    var m := d.mantissa / TWO_28;
    if d.exponent == 2047 then INFINITY + m / 2
    else if d.exponent > 1150 then INFINITY
    else if d.exponent < 873 then 0
    else if d.exponent < 897 then ((TWO_23 * 2 + m) / Pow2(897 - d.exponent) + 1) / 2
    else (d.exponent - 896) * TWO_23 + (m + 1) / 2
  }

  // ----- floats rise with their patterns -----

  /** A magnitude with its exponent field and its full mantissa; the carry into the next exponent is included. */
  lemma MagnitudeAt(e: nat, j: nat)
    requires 1 <= e <= 254 && j <= 2 * TWO_23 && (e == 1 || j >= TWO_23)
    ensures FloatMagnitude((e - 1) * TWO_23 + j) == j * Pow2(e - 1)
  {
    var bits := (e - 1) * TWO_23 + j;
    if j < TWO_23 {
      assert bits == j;
    } else if j < 2 * TWO_23 {
      assert bits / TWO_23 == e && bits % TWO_23 == j - TWO_23;
    } else {
      assert bits / TWO_23 == e + 1 && bits % TWO_23 == 0;
      assert Pow2(e) == 2 * Pow2(e - 1);
    }
  }

  /** A pattern below infinity as exponent and full mantissa. */
  lemma SplitPattern(bits: nat) returns (e: nat, j: nat)
    requires bits < INFINITY
    ensures 1 <= e <= 254 && j < 2 * TWO_23 && (e == 1 || j >= TWO_23) && bits == (e - 1) * TWO_23 + j
  {
    var f := bits / TWO_23;
    e := if f == 0 then 1 else f;
    j := bits - (e - 1) * TWO_23;
  }

  lemma NextIsLarger(bits: nat)
    requires bits < INFINITY
    ensures FloatMagnitude(bits) < FloatMagnitude(bits + 1)
  {
    var e, j := SplitPattern(bits);
    MagnitudeAt(e, j);
    MagnitudeAt(e, j + 1);
    assert (j + 1) * Pow2(e - 1) == j * Pow2(e - 1) + Pow2(e - 1);
  }

  lemma {:induction false} ScaledRises(a: nat, b: nat)
    requires a < b <= INFINITY
    ensures Scaled(a) < Scaled(b)
    decreases b
  {
    if a == b - 1 {
    } else {
      ScaledRises(a, b - 1);
    }
    NextIsLarger(b - 1);
    ScaleUp(FloatMagnitude(b - 1), FloatMagnitude(b), Pow2(925));
  }

  lemma ScaleUp(a: nat, b: nat, unit: nat)
    requires a < b && unit > 0
    ensures a * unit < b * unit
  {
    assert b * unit == a * unit + (b - a) * unit;
  }

  /** Rounding between two neighbours is rounding among all floats. */
  lemma NeighboursSuffice(b: nat, x: nat, r: nat)
    requires b < INFINITY && Scaled(b) <= x < Scaled(b + 1)
    requires r == if 2 * x >= Scaled(b) + Scaled(b + 1) then b + 1 else b
    ensures Nearest(r, x)
  {
    forall c: nat | c <= INFINITY && c != r
      ensures Distance(x, Scaled(r)) < Distance(x, Scaled(c))
          || (Distance(x, Scaled(r)) == Distance(x, Scaled(c)) && c < r)
    {
      if c < b { ScaledRises(c, b); }
      if c > b + 1 { ScaledRises(b + 1, c); }
    }
  }

  lemma OverflowIsInfinity(x: nat)
    requires x >= Scaled(INFINITY)
    ensures Nearest(INFINITY, x)
  {
    forall c: nat | c < INFINITY
      ensures Distance(x, Scaled(INFINITY)) < Distance(x, Scaled(c))
    {
      ScaledRises(c, INFINITY);
    }
  }

  // ----- narrowing rounds -----

  /** Dropping 28 bits, then s bits, then rounding off one more is rounding to multiples of 2 * unit. */
  lemma RoundHalf(n: nat, t: nat, q: nat, unit: nat)
    requires t > 0 && q == n / TWO_28 / t && unit == TWO_28 * t
    ensures q * unit <= n < (q + 1) * unit
    ensures (q + 1) / 2 == if q % 2 == 1 then q / 2 + 1 else q / 2
  {
    var h := n / TWO_28;
    assert q * t <= h < (q + 1) * t by { Quotient(h, t, q); }
    assert TWO_28 * h <= n < TWO_28 * (h + 1);
    assert q * unit == TWO_28 * (q * t) && (q + 1) * unit == TWO_28 * ((q + 1) * t);
  }

  lemma Quotient(h: nat, t: nat, q: nat)
    requires t > 0 && q == h / t
    ensures q * t <= h < (q + 1) * t
  {
    assert h == t * (h / t) + h % t;
    assert (q + 1) * t == q * t + t;
  }

  /** A significand n of 53 bits in units of p, rounded to the floats with exponent field e, which lie
      2 * half * p apart. */
  lemma RoundAt(e: nat, n: nat, p: nat, t: nat, q: nat)
    requires 1 <= e <= 254 && t > 0 && p > 0 && q == n / TWO_28 / t
    requires Pow2(e - 1) * Pow2(925) == p * (TWO_29 * t)
    requires q / 2 < 2 * TWO_23 && (e == 1 || q / 2 >= TWO_23)
    ensures Nearest((e - 1) * TWO_23 + (q + 1) / 2, n * p)
  {
    var half := TWO_28 * t;
    RoundHalf(n, t, q, half);
    RoundUnits(e, n, p, half, q);
  }

  /** Two neighbouring patterns and their magnitudes. */
  lemma ScaledPair(e: nat, b: nat, p: nat, half: nat) returns (base: nat)
    requires 1 <= e <= 254 && b < 2 * TWO_23 && (e == 1 || b >= TWO_23)
    requires Pow2(e - 1) * Pow2(925) == p * (2 * half)
    ensures base == (e - 1) * TWO_23 + b && base < INFINITY
    ensures Scaled(base) == 2 * b * half * p && Scaled(base + 1) == 2 * (b + 1) * half * p
  {
    base := (e - 1) * TWO_23 + b;
    ScaledIs(e, b, p, half);
    ScaledIs(e, b + 1, p, half);
    assert base + 1 == (e - 1) * TWO_23 + (b + 1);
  }

  lemma RoundUnits(e: nat, n: nat, p: nat, half: nat, q: nat)
    requires 1 <= e <= 254 && p > 0 && q * half <= n < (q + 1) * half
    requires Pow2(e - 1) * Pow2(925) == p * (2 * half)
    requires q / 2 < 2 * TWO_23 && (e == 1 || q / 2 >= TWO_23)
    ensures Nearest((e - 1) * TWO_23 + (q + 1) / 2, n * p)
  {
    var base := ScaledPair(e, q / 2, p, half);
    RoundBetween(base, q / 2, q, n, half, p);
    HalfUp(q);
  }

  lemma HalfUp(q: nat)
    ensures (q + 1) / 2 == if q % 2 == 1 then q / 2 + 1 else q / 2
  {
  }

  lemma RoundBetween(base: nat, b: nat, q: nat, n: nat, half: nat, p: nat)
    requires base < INFINITY && b == q / 2 && q * half <= n < (q + 1) * half && p > 0
    requires Scaled(base) == 2 * b * half * p && Scaled(base + 1) == 2 * (b + 1) * half * p
    ensures Nearest(if q % 2 == 1 then base + 1 else base, n * p)
  {
    Compare(n, q, half, p);
    NeighboursSuffice(base, n * p, if q % 2 == 1 then base + 1 else base);
  }

  lemma ScaledIs(e: nat, j: nat, p: nat, half: nat)
    requires 1 <= e <= 254 && j <= 2 * TWO_23 && (e == 1 || j >= TWO_23)
    requires Pow2(e - 1) * Pow2(925) == p * (2 * half)
    ensures Scaled((e - 1) * TWO_23 + j) == 2 * j * half * p
  {
    MagnitudeAt(e, j);
    Regroup(j, Pow2(e - 1), Pow2(925), p, half);
  }

  lemma Regroup(j: nat, a: nat, b: nat, p: nat, half: nat)
    requires a * b == p * (2 * half)
    ensures j * a * b == 2 * j * half * p
  {
    assert j * a * b == j * (a * b);
    assert j * (p * (2 * half)) == 2 * j * half * p;
  }

  lemma Compare(n: nat, q: nat, half: nat, p: nat)
    requires q * half <= n < (q + 1) * half && p > 0
    ensures var b := q / 2;
      && 2 * b * half * p <= n * p < 2 * (b + 1) * half * p
      && (2 * (n * p) >= 2 * b * half * p + 2 * (b + 1) * half * p <==> q % 2 == 1)
  {
    var b := q / 2;
    assert 2 * b * half <= n < 2 * (b + 1) * half;
    assert 2 * b * half + 2 * (b + 1) * half == 2 * ((2 * b + 1) * half);
    assert n >= (2 * b + 1) * half <==> q % 2 == 1;
  }

  lemma MagnitudeBelow(d: Double, k: nat)
    requires d.Valid() && d.exponent <= k && 1 <= k
    ensures d.Magnitude() < Pow2(k + 52)
  {
    var p := if d.exponent == 0 then 0 else d.exponent - 1;
    if d.exponent == 0 { assert Pow2(p) == 1; }
    ScaleUp(TWO_52 + d.mantissa, 2 * TWO_52, Pow2(p));
    assert Pow2(p + 53) == 2 * TWO_52 * Pow2(p) by { PowersOf52(); Pow2Add(p, 53); }
    PowRises(p + 53, k + 52);
  }

  lemma MagnitudeAbove(d: Double, k: nat)
    requires 1 <= k <= d.exponent
    ensures Pow2(k + 51) <= d.Magnitude()
  {
    var p := Pow2(d.exponent - 1);
    assert TWO_52 * p <= (TWO_52 + d.mantissa) * p by {
      assert (TWO_52 + d.mantissa) * p == TWO_52 * p + d.mantissa * p;
    }
    assert Pow2(d.exponent + 51) == TWO_52 * p by { PowersOf52(); Pow2Add(d.exponent - 1, 52); }
    PowRises(k + 51, d.exponent + 51);
  }

  lemma PowersOf52()
    ensures Pow2(52) == TWO_52 && Pow2(53) == 2 * TWO_52
  {
    Pow2Values();
    Pow2Add(23, 29);
  }

  lemma TinyIsZero(d: Double)
    requires d.Valid() && d.exponent < 873
    ensures Nearest(0, d.Magnitude())
  {
    MagnitudeBelow(d, 872);
    SmallestFloats();
    Pow2Add(1, 924);
    NeighboursSuffice(0, d.Magnitude(), 0);
  }

  lemma SmallestFloats()
    ensures Scaled(0) == 0 && Scaled(1) == Pow2(925)
  {
    ScaledAt(1, 0);
    ScaledAt(1, 1);
  }

  lemma ScaledAt(e: nat, j: nat)
    requires 1 <= e <= 254 && j <= 2 * TWO_23 && (e == 1 || j >= TWO_23)
    ensures Scaled((e - 1) * TWO_23 + j) == j * Pow2(e - 1) * Pow2(925)
  {
    MagnitudeAt(e, j);
  }

  lemma ScaledInfinity()
    ensures Scaled(INFINITY) == Pow2(1202)
  {
    ScaledAt(254, 2 * TWO_23);
    Pow2Values();
    Pow2Add(1, 23);
    Pow2Add(24, 253);
    Pow2Add(277, 925);
  }

  lemma HugeIsInfinity(d: Double)
    requires d.Valid() && 1150 < d.exponent < 2047
    ensures Nearest(INFINITY, d.Magnitude())
  {
    MagnitudeAbove(d, 1151);
    ScaledInfinity();
    OverflowIsInfinity(d.Magnitude());
  }

  /** Every finite double narrows to the nearest float, ties away from zero, overflow to infinity. */
  lemma NarrowIsNearest(d: Double)
    requires d.Valid() && d.Finite()
    ensures Nearest(Narrow(d), d.Magnitude())
  {
    if d.exponent > 1150 {
      HugeIsInfinity(d);
    } else if d.exponent < 873 {
      TinyIsZero(d);
    } else {
      if d.exponent < 897 { NarrowSubnormal(d); } else { NarrowNormal(d); }
    }
  }

  lemma NarrowNormal(d: Double)
    requires d.Valid() && 897 <= d.exponent <= 1150
    ensures Nearest(Narrow(d), d.Magnitude())
  {
    var n, e := TWO_52 + d.mantissa, d.exponent - 896;
    assert n / TWO_28 == 2 * TWO_23 + d.mantissa / TWO_28;
    NormalUnit(e);
    RoundAt(e, n, Pow2(d.exponent - 1), 1, n / TWO_28);
  }

  lemma NarrowSubnormal(d: Double)
    requires d.Valid() && 873 <= d.exponent < 897
    ensures Nearest(Narrow(d), d.Magnitude())
  {
    var n, t := TWO_52 + d.mantissa, Pow2(897 - d.exponent);
    assert n / TWO_28 == 2 * TWO_23 + d.mantissa / TWO_28;
    SubnormalUnit(d.exponent);
    HalvesAtLeast(n / TWO_28, t);
    RoundAt(1, n, Pow2(d.exponent - 1), t, n / TWO_28 / t);
  }

  lemma HalvesAtLeast(h: nat, t: nat)
    requires t > 0
    ensures h / t <= h && (t >= 2 ==> 2 * (h / t) <= h)
  {
    var q := h / t;
    Quotient(h, t, q);
    TimesAtLeast(q, t, 1);
    if t >= 2 { TimesAtLeast(q, t, 2); }
  }

  lemma TimesAtLeast(q: nat, t: nat, k: nat)
    requires t >= k
    ensures q * t >= k * q
  {
    assert q * t == k * q + q * (t - k);
  }

  lemma SubnormalUnit(e: nat)
    requires 873 <= e < 897
    ensures Pow2(0) * Pow2(925) == Pow2(e - 1) * (TWO_29 * Pow2(897 - e))
  {
    Pow2Values();
    Pow2Add(29, 897 - e);
    Pow2Add(e - 1, 29 + 897 - e);
  }

  lemma NormalUnit(e: nat)
    requires 1 <= e
    ensures Pow2(e - 1) * Pow2(925) == Pow2(e + 895) * (TWO_29 * 1)
  {
    Pow2Values();
    Pow2Add(e - 1, 925);
    Pow2Add(e + 895, 29);
  }

  // ----- widening is exact -----

  /** Shifting up keeps mantissa times two to the exponent. */
  lemma {:induction false} ShiftUpKeeps(mantissa: nat, exponent: int, bias: nat)
    requires 0 < mantissa < 2 * TWO_23 && ShiftUp(mantissa, exponent).1 + bias >= 0 && exponent + bias >= 0
    ensures var r := ShiftUp(mantissa, exponent); r.0 * Pow2(r.1 + bias) == mantissa * Pow2(exponent + bias)
    decreases 2 * TWO_23 - mantissa
  {
    if mantissa >= TWO_23 {
    } else {
      ShiftUpDescends(2 * mantissa, exponent - 1);
      ShiftUpKeeps(2 * mantissa, exponent - 1, bias);
      HalfTwice(mantissa, exponent + bias);
    }
  }

  lemma HalfTwice(m: nat, n: nat)
    requires n > 0
    ensures 2 * m * Pow2(n - 1) == m * Pow2(n)
  {
    assert m * Pow2(n) == m * (2 * Pow2(n - 1));
  }

  lemma ShiftUpDescends(mantissa: nat, exponent: int)
    requires 0 < mantissa < 2 * TWO_23
    ensures ShiftUp(mantissa, exponent).1 <= exponent
    decreases 2 * TWO_23 - mantissa
  {
    if mantissa >= TWO_23 {
    } else {
      ShiftUpDescends(2 * mantissa, exponent - 1);
    }
  }

  lemma WidenNormal(sign: bool, e: nat, m: nat)
    requires 1 <= e <= 254 && m < TWO_23
    ensures DoubleMagnitude(e + 896, m * TWO_29) == (TWO_23 + m) * Pow2(e - 1) * Pow2(925)
  {
    NormalUnit(e);
    Normal(TWO_23 + m, Pow2(e - 1), Pow2(e + 895));
  }

  lemma ShiftUpRange(m: nat)
    requires 0 < m < TWO_23
    ensures -150 <= ShiftUp(2 * m, -127).1 <= -127
  {
    Pow2Values();
    ShiftUpExponent(2 * m, -127, 23);
  }

  lemma WidenSubnormalAt(m: nat, j: nat, e: nat, k: nat)
    requires j >= TWO_23 && e >= 1 && j * Pow2(e - 1) == 2 * m * Pow2(k)
    ensures DoubleMagnitude(e, (j - TWO_23) * TWO_29) == m * Pow2(k + 30)
  {
    SubnormalSteps(k);
    Subnormal(m, j, Pow2(e - 1), Pow2(k), Pow2(k + 30));
  }

  lemma WidenSubnormal(m: nat)
    requires 0 < m < TWO_23
    ensures var r := ShiftUp(2 * m, -127);
      -150 <= r.1 <= -127 && DoubleMagnitude((r.1 + 1023) as nat, (r.0 - TWO_23) * TWO_29) == m * Pow2(925)
  {
    var r := ShiftUp(2 * m, -127);
    ShiftUpRange(m);
    ShiftUpKeeps(2 * m, -127, 1022);
    WidenSubnormalAt(m, r.0, (r.1 + 1023) as nat, 895);
  }

  lemma SubnormalSteps(k: nat)
    ensures Pow2(k + 30) == 2 * Pow2(k) * TWO_29
  {
    Pow2Values();
    Pow2Add(k, 30);
  }

  /** Every finite float widens to the double with the same sign and magnitude. */
  lemma WidenIsExact(sign: bool, bits: nat)
    requires bits < INFINITY
    ensures Widen(sign, bits).sign == sign && Widen(sign, bits).Finite()
    ensures Widen(sign, bits).Magnitude() == Scaled(bits)
  {
    var e, m := bits / TWO_23, bits % TWO_23;
    if e != 0 { WidenNormal(sign, e, m); } else if m != 0 { WidenSubnormal(m); }
  }

  lemma Normal(j: nat, unit: nat, p: nat)
    requires j >= TWO_23 && unit * Pow2(925) == p * TWO_29
    ensures (TWO_52 + (j - TWO_23) * TWO_29) * p == j * unit * Pow2(925)
  {
    assert TWO_52 + (j - TWO_23) * TWO_29 == j * TWO_29;
    assert j * unit * Pow2(925) == j * (unit * Pow2(925));
    assert j * TWO_29 * p == j * (p * TWO_29);
  }

  lemma Subnormal(m: nat, j: nat, p: nat, half: nat, unit: nat)
    requires j >= TWO_23 && j * p == 2 * m * half && unit == 2 * half * TWO_29
    ensures (TWO_52 + (j - TWO_23) * TWO_29) * p == m * unit
  {
    assert TWO_52 + (j - TWO_23) * TWO_29 == j * TWO_29;
    assert j * TWO_29 * p == TWO_29 * (j * p);
    assert TWO_29 * (2 * m * half) == m * (2 * half * TWO_29);
  }

  // ----- there and back -----

  lemma NearestToItself(r: nat, b: nat)
    requires b <= INFINITY && Nearest(r, Scaled(b))
    ensures r == b
  {
    if r < b { ScaledRises(r, b); }
    if b < r { ScaledRises(b, r); }
    assert b != r ==> Distance(Scaled(b), Scaled(r)) <= Distance(Scaled(b), Scaled(b));
  }

  /** Widening and narrowing gives back every pattern: zeros, subnormals, infinities and NaN payloads too. */
  lemma NarrowUndoesWiden(sign: bool, bits: nat)
    requires bits < TWO_TO_THE_31
    ensures Narrow(Widen(sign, bits)) == bits && Widen(sign, bits).sign == sign
  {
    if bits < INFINITY {
      WidenIsExact(sign, bits);
      NarrowIsNearest(Widen(sign, bits));
      NearestToItself(Narrow(Widen(sign, bits)), bits);
    } else {
      var m := bits - INFINITY;
      assert bits / TWO_23 == 255 && bits % TWO_23 == m;
      assert m * TWO_29 / TWO_28 / 2 == m;
    }
  }

  /** Infinity stays infinity. A NaN stays a NaN exactly when some bit of its upper 23 is set; the
      others turn into infinity. */
  lemma NarrowSpecials(d: Double)
    requires d.Valid() && !d.Finite()
    ensures Narrow(d) >= INFINITY
    ensures d.mantissa == 0 ==> Narrow(d) == INFINITY
    ensures Narrow(d) > INFINITY <==> d.mantissa >= TWO_29
  {
  }

  // ----- the conversions, as the C code computes them -----

  /** The fields of a 64-bit pattern. */
  function FromBits(value: nat): (d: Double)
    requires value < TWO_TO_THE_64
    ensures d.Valid()
  {
    Double(value / TWO_TO_THE_63 == 1, value / TWO_52 % 2048, value % TWO_52)
  }

  /** `pb_encode_float_as_double` up to the eight bytes it writes. Fields that do not overlap are
      combined by adding. */
  method EncodeFloatAsDouble(bits: nat) returns (value: nat)
    requires bits < TWO_TO_THE_32
    ensures value < TWO_TO_THE_64
    ensures FromBits(value) == Widen(bits >= TWO_TO_THE_31, bits % TWO_TO_THE_31)
    ensures bits % TWO_TO_THE_31 < INFINITY ==> FromBits(value).Magnitude() == Scaled(bits % TWO_TO_THE_31)
  {
    var sign := bits / TWO_TO_THE_31 % 2;
    var exponent := bits / TWO_23 % 256 - 127;
    var mantissa := bits % TWO_23;
    SplitFloat(bits);
    exponent, mantissa := WidenParts(sign == 1, bits % TWO_TO_THE_31, exponent, mantissa);
    mantissa := mantissa * TWO_29;
    Combine(sign, exponent + 1023, mantissa);
    value := mantissa + (exponent + 1023) * TWO_52 + sign * TWO_TO_THE_63;
    EncodedIsExact(FromBits(value), bits);
  }

  lemma SplitFloat(bits: nat)
    requires bits < TWO_TO_THE_32
    ensures var rest := bits % TWO_TO_THE_31;
      && bits / TWO_23 % 256 == rest / TWO_23 && bits % TWO_23 == rest % TWO_23
      && (bits / TWO_TO_THE_31 % 2 == 1 <==> bits >= TWO_TO_THE_31)
  {
  }

  /** The case distinction on the exponent. */
  method WidenParts(sign: bool, bits: nat, e: int, m: nat) returns (exponent: int, mantissa: nat)
    requires bits < TWO_TO_THE_31 && e == bits / TWO_23 - 127 && m == bits % TWO_23
    ensures -1023 <= exponent <= 1024 && mantissa < TWO_23
    ensures Widen(sign, bits) == Double(sign, exponent + 1023, mantissa * TWO_29)
  {
    exponent, mantissa := e, m;
    if exponent == 128 {
      exponent := 1024;
    } else if exponent == -127 {
      if mantissa == 0 {
        exponent := -1023;
      } else {
        mantissa, exponent := Denormalized(mantissa, exponent);
      }
    }
  }

  /** The branch for subnormal floats. */
  method Denormalized(m: nat, e: int) returns (mantissa: nat, exponent: int)
    requires 0 < m < TWO_23
    ensures (mantissa + TWO_23, exponent) == ShiftUp(2 * m, e) && e - 23 <= exponent <= e && mantissa < TWO_23
  {
    mantissa, exponent := 2 * m, e;
    Pow2Values();
    ShiftUpExponent(mantissa, exponent, 23);
    while mantissa / TWO_23 % 2 == 0
      invariant 0 < mantissa < 2 * TWO_23
      invariant ShiftUp(mantissa, exponent) == ShiftUp(2 * m, e)
      decreases 2 * TWO_23 - mantissa
    {
      mantissa := 2 * mantissa;
      exponent := exponent - 1;
    }
    mantissa := mantissa % TWO_23;
  }

  lemma Combine(sign: int, exponent: int, mantissa: int)
    requires 0 <= sign <= 1 && 0 <= exponent < 2048 && 0 <= mantissa < TWO_52
    ensures var v := mantissa + exponent * TWO_52 + sign * TWO_TO_THE_63;
      0 <= v < TWO_TO_THE_64 && FromBits(v) == Double(sign == 1, exponent, mantissa)
  {
    var v := mantissa + exponent * TWO_52 + sign * TWO_TO_THE_63;
    assert v / TWO_52 == sign * 2048 + exponent;
  }

  /** Round off the last digit; the mantissa may go over 2.0, which is a carry into the exponent. */
  method RoundOff(m: nat, e: int) returns (mantissa: nat, exponent: int)
    requires m < 2 * TWO_23
    ensures mantissa < TWO_23 && e <= exponent <= e + 1
    ensures mantissa + exponent * TWO_23 == (m + 1) / 2 + e * TWO_23
  {
    mantissa, exponent := (m + 1) / 2, e;
    if mantissa / TWO_23 % 2 == 1 {
      exponent := exponent + 1;
      mantissa := mantissa % TWO_23;
      mantissa := mantissa / 2;
    }
  }

  /** The branch for doubles that become subnormal floats. */
  method Denormalize(m: nat, s: nat) returns (mantissa: nat)
    requires m < 2 * TWO_23 && s >= 1
    ensures mantissa < 2 * TWO_23 && mantissa == (2 * TWO_23 + m) / Pow2(s)
  {
    HalvesAtLeast(2 * TWO_23 + m, Pow2(s));
    mantissa := 2 * TWO_23 + m;
    mantissa := mantissa / Pow2(s);
  }

  /** `pb_decode_double_as_float` from the eight bytes it has read. */
  method DecodeDoubleAsFloat(value: nat) returns (bits: nat)
    requires value < TWO_TO_THE_64
    ensures bits == SignBit(FromBits(value).sign) + Narrow(FromBits(value))
    ensures FromBits(value).Finite() ==> Nearest(bits % TWO_TO_THE_31, FromBits(value).Magnitude())
  {
    var sign := value / TWO_TO_THE_63 % 2;
    var exponent := value / TWO_52 % 2048 - 1023;
    var mantissa := value / TWO_28 % (2 * TWO_23);
    SplitMantissa(value);
    if exponent == 1024 {
      exponent := 128;
      mantissa := mantissa / 2;
    } else {
      if exponent > 127 {
        exponent := 128;
        mantissa := 0;
      } else if exponent < -150 {
        exponent := -127;
        mantissa := 0;
      } else if exponent < -126 {
        mantissa := Denormalize(mantissa, -126 - exponent);
        exponent := -127;
      }
      mantissa, exponent := RoundOff(mantissa, exponent);
    }
    bits := mantissa + (exponent + 127) * TWO_23 + sign * TWO_TO_THE_31;
    DecodedIsNearest(FromBits(value), bits);
  }

  lemma DecodedIsNearest(d: Double, bits: nat)
    requires d.Valid() && bits == SignBit(d.sign) + Narrow(d)
    ensures d.Finite() ==> Nearest(bits % TWO_TO_THE_31, d.Magnitude())
  {
    if d.Finite() { NarrowIsNearest(d); }
    assert bits % TWO_TO_THE_31 == Narrow(d);
  }

  lemma EncodedIsExact(d: Double, bits: nat)
    requires bits < TWO_TO_THE_32 && d == Widen(bits >= TWO_TO_THE_31, bits % TWO_TO_THE_31)
    ensures bits % TWO_TO_THE_31 < INFINITY ==> d.Magnitude() == Scaled(bits % TWO_TO_THE_31)
  {
    if bits % TWO_TO_THE_31 < INFINITY { WidenIsExact(bits >= TWO_TO_THE_31, bits % TWO_TO_THE_31); }
  }

  lemma SplitMantissa(value: nat)
    requires value < TWO_TO_THE_64
    ensures value / TWO_28 % (2 * TWO_23) == value % TWO_52 / TWO_28
    ensures value / TWO_TO_THE_63 % 2 == value / TWO_TO_THE_63 && value / TWO_TO_THE_63 <= 1
  {
  }

  /** One and a half, minus two and the smallest float, as patterns of both formats (IEEE 754, section 3.4). */
  lemma KnownPatterns()
    ensures FromBits(0x3FF8_0000_0000_0000) == Widen(false, 0x3FC0_0000)
    ensures FromBits(0xC000_0000_0000_0000) == Widen(true, 0x4000_0000)
    ensures FromBits(0x36A0_0000_0000_0000) == Widen(false, 1)
  {
    ShiftedOne();
  }

  lemma KnownNarrowings()
    ensures Narrow(FromBits(0x3FF8_0000_0000_0000)) == 0x3FC0_0000
    ensures Narrow(FromBits(0xC000_0000_0000_0000)) == 0x4000_0000
    ensures FromBits(0xC000_0000_0000_0000).sign && !FromBits(0x3FF8_0000_0000_0000).sign
  {
  }

  /** The unit of float magnitudes is the smallest float, 2^-149: one and a half is three times 2^148 units. */
  lemma KnownMagnitude()
    ensures FloatMagnitude(1) == 1 && FloatMagnitude(0x3FC0_0000) == 3 * Pow2(148)
  {
    Pow2Values();
    Pow2Add(1, 22);
    Pow2Add(22, 126);
    ThreeQuarters(Pow2(126), Pow2(148));
  }

  lemma ThreeQuarters(p: nat, q: nat)
    requires q == 0x40_0000 * p
    ensures 0xC0_0000 * p == 3 * q
  {
  }

  lemma ShiftedOne()
    ensures ShiftUp(2, -127) == (TWO_23, -149)
  {
    assert ShiftUp(0x10_0000, -146) == (TWO_23, -149);
    assert ShiftUp(0x800, -137) == ShiftUp(0x10_0000, -146);
  }
}
