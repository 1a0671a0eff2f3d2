/**
 The bit trick that narrows binary32 patterns to BF16, against rounding to nearest with
 ties to even (section 4.3.1 of IEEE 754-2019).
 */
module Bf16 {

  const TWO16 := 0x1_0000
  const TWO23 := 0x80_0000
  const TWO31 := 0x8000_0000
  const TWO32 := 0x1_0000_0000
  const INF32 := 0x7F80_0000
  const INF16 := 0x7F80

  function Pow2(e: nat): (p: nat)
    ensures p >= 1
  {
    if e == 0 then 1 else 2 * Pow2(e - 1)
  }

  // Magnitude (pattern without the sign bit) of a binary32 and of a BF16 pattern.
  function Magnitude(u: nat): nat { u % TWO31 }

  function Magnitude16(r: nat): nat { r % 0x8000 }

  predicate IsNaN(u: nat) { Magnitude(u) > INF32 }

  predicate IsNaN16(r: nat) { Magnitude16(r) > INF16 }

  // Value of a magnitude in units of 2^-149; infinity stands for 2^128.
  function ValueOf(m: nat): nat {
    var e, f := m / TWO23, m % TWO23;
    if e == 0 then f else (TWO23 + f) * Pow2(e - 1)
  }

  function BfValue(b: nat): nat { ValueOf(b * TWO16) }

  function Distance(a: nat, b: nat): nat { if a < b then b - a else a - b }

  // `r` keeps the sign of `u`, is nearest to it among the BF16 values, and is even on a tie.
  ghost predicate RoundsTiesToEven(u: nat, r: nat) {
    && r < TWO16 && r / 0x8000 == u / TWO31 && !IsNaN16(r)
    && forall b: nat | b <= INF16 && b != Magnitude16(r) ::
         && Distance(ValueOf(Magnitude(u)), BfValue(Magnitude16(r))) <= Distance(ValueOf(Magnitude(u)), BfValue(b))
         && (Distance(ValueOf(Magnitude(u)), BfValue(Magnitude16(r))) == Distance(ValueOf(Magnitude(u)), BfValue(b))
             ==> Magnitude16(r) % 2 == 0)
  }

  // uint32 arithmetic: add the bias, wrap, keep the upper half.
  function Narrow(u: nat): nat {
    var bias := 0x7FFF + (u / TWO16) % 2;
    ((u + bias) % TWO32) / TWO16
  }

  // Spacing of binary32 values inside the BF16 step starting at `b`.
  function Ulp(b: nat): nat {
    if b / 128 == 0 then 1 else Pow2(b / 128 - 1)
  }

  lemma ValueIsLinear(b: nat, d: nat)
    requires d <= TWO16
    ensures ValueOf(b * TWO16 + d) == BfValue(b) + d * Ulp(b)
  {
    var e, f := b / 128, (b % 128) * TWO16;
    assert b * TWO16 == e * TWO23 + f;
    if f + d < TWO23 {
      assert (e * TWO23 + f + d) / TWO23 == e && (e * TWO23 + f + d) % TWO23 == f + d;
      assert (e * TWO23 + f) / TWO23 == e && (e * TWO23 + f) % TWO23 == f;
      if e > 0 {
        var p := Pow2(e - 1);
        assert (TWO23 + f + d) * p == (TWO23 + f) * p + d * p;
      }
    } else {
      assert d == TWO16 && f == 127 * TWO16;
      assert b * TWO16 + d == (e + 1) * TWO23;
      assert (e * TWO23 + f) / TWO23 == e && (e * TWO23 + f) % TWO23 == f;
      if e > 0 {
        var p := Pow2(e - 1);
        assert Pow2(e) == 2 * p;
        assert (TWO23 + f) * p + d * p == 2 * TWO23 * p;
      }
    }
  }

  lemma UlpIsPositive(b: nat, d: nat)
    ensures d * Ulp(b) >= d
  {
    var k := Ulp(b);
    assert d * k == d + d * (k - 1);
    assert d * (k - 1) >= 0;
  }

  lemma {:induction false} BfValueIncreases(a: nat, b: nat)
    requires a < b
    ensures BfValue(a) < BfValue(b)
    decreases b - a
  {
    ValueIsLinear(a, TWO16);
    UlpIsPositive(a, TWO16);
    assert (a + 1) * TWO16 == a * TWO16 + TWO16;
    if a + 1 < b {
      BfValueIncreases(a + 1, b);
    }
  }

  // The upper half of a pattern is its sign and the upper half of its magnitude.
  lemma Parts(u: nat)
    requires u < TWO32
    ensures u / TWO31 <= 1 && Magnitude(u) / TWO16 < 0x8000
    ensures u / TWO16 == u / TWO31 * 0x8000 + Magnitude(u) / TWO16
    ensures u % TWO16 == Magnitude(u) % TWO16 && u / TWO16 % 2 == Magnitude(u) / TWO16 % 2
  {
    var s, lo, d := u / TWO31, Magnitude(u) / TWO16, Magnitude(u) % TWO16;
    assert u == (s * 0x8000 + lo) * TWO16 + d;
  }

  // The bias carries into the upper half or not.
  lemma NarrowIs(u: nat)
    requires u < TWO32
    ensures var q, d := u / TWO16, u % TWO16;
            Narrow(u) == if d + 0x7FFF + q % 2 < TWO16 then q else (q + 1) % TWO16
    ensures u + 0x7FFF + u / TWO16 % 2 < TWO32 <==> !(u / TWO16 == TWO16 - 1 && u % TWO16 + 0x7FFF + 1 >= TWO16)
  {
    var q, d := u / TWO16, u % TWO16;
    var low := d + 0x7FFF + q % 2;
    assert u + 0x7FFF + q % 2 == q * TWO16 + low && low < 2 * TWO16;
  }

  lemma MagnitudeOfNarrow(u: nat)
    requires u < TWO32
    ensures var lo, d := Magnitude(u) / TWO16, Magnitude(u) % TWO16;
            Magnitude16(Narrow(u)) == if d + 0x7FFF + lo % 2 < TWO16 then lo else (lo + 1) % 0x8000
  {
    Parts(u);
    NarrowIs(u);
    hide Narrow;
  }

  // The magnitude of `Narrow(u)`, and that the addition never wraps.
  lemma NarrowMagnitude(u: nat)
    requires u < TWO32 && !IsNaN(u)
    ensures u + 0x7FFF + (u / TWO16) % 2 < TWO32
    ensures var lo, d := Magnitude(u) / TWO16, Magnitude(u) % TWO16;
            && Narrow(u) / 0x8000 == u / TWO31
            && Magnitude16(Narrow(u)) == (if d < 0x8000 || (d == 0x8000 && lo % 2 == 0) then lo else lo + 1)
            && Magnitude16(Narrow(u)) <= INF16
  {
    Parts(u);
    NarrowIs(u);
    hide Narrow;
  }

  /** Within a sign narrowing keeps the order, moves the pattern by at most half a BF16 step, and keeps infinities. */
  lemma NarrowIsMonotone(u: nat, v: nat)
    requires u < TWO32 && v < TWO32 && !IsNaN(u) && !IsNaN(v) && u / TWO31 == v / TWO31
    ensures Magnitude(u) <= Magnitude(v) ==> Magnitude16(Narrow(u)) <= Magnitude16(Narrow(v))
    ensures Distance(Narrow(u) * TWO16, u) <= 0x8000
    ensures Magnitude(u) == INF32 ==> Narrow(u) * TWO16 == u
  {
    NarrowMagnitude(u);
    NarrowMagnitude(v);
    PatternParts(u);
    hide Narrow;
    var m, n := Magnitude(u), Magnitude(v);
    assert m == m / TWO16 * TWO16 + m % TWO16 && n == n / TWO16 * TWO16 + n % TWO16;
  }

  lemma PatternParts(u: nat)
    requires u < TWO32
    ensures u == u / TWO31 * TWO31 + Magnitude(u)
    ensures Narrow(u) == Narrow(u) / 0x8000 * 0x8000 + Magnitude16(Narrow(u))
  {
  }

  lemma {:induction false} ScalingIsStrict(x: nat, y: nat, k: nat)
    requires k >= 1 && x < y
    ensures x * k < y * k
  {
    if k > 1 {
      ScalingIsStrict(x, y, k - 1);
      assert x * k == x * (k - 1) + x && y * k == y * (k - 1) + y;
    }
  }

  lemma ScalingKeepsOrder(x: nat, y: nat, k: nat)
    requires k >= 1
    ensures x * k <= y * k <==> x <= y
    ensures x * k == y * k <==> x == y
  {
    if x < y {
      ScalingIsStrict(x, y, k);
    } else if y < x {
      ScalingIsStrict(y, x, k);
    }
  }

  // How far the value at `lo`, offset `d`, is from any BF16 value, in steps of `Ulp(lo)`.
  lemma DistanceToSteps(lo: nat, d: nat, b: nat)
    requires d < TWO16
    ensures var v := ValueOf(lo * TWO16 + d);
            && (b == lo ==> Distance(v, BfValue(b)) == d * Ulp(lo))
            && (b == lo + 1 ==> Distance(v, BfValue(b)) == (TWO16 - d) * Ulp(lo))
            && (b < lo ==> Distance(v, BfValue(b)) > d * Ulp(lo))
            && (b > lo + 1 ==> Distance(v, BfValue(b)) > (TWO16 - d) * Ulp(lo))
  {
    var k := Ulp(lo);
    ValueIsLinear(lo, d);
    ValueIsLinear(lo, TWO16);
    assert (lo + 1) * TWO16 == lo * TWO16 + TWO16;
    assert (TWO16 - d) * k == TWO16 * k - d * k;
    if b < lo {
      BfValueIncreases(b, lo);
    } else if b > lo + 1 {
      BfValueIncreases(lo + 1, b);
    }
    hide ValueOf, Ulp, BfValue;
    UlpIsPositive(lo, d);
    UlpIsPositive(lo, TWO16 - d);
    assert ValueOf(lo * TWO16 + d) == BfValue(lo) + d * k;
    assert BfValue(lo + 1) == BfValue(lo) + TWO16 * k;
  }

  // Offset `d` above `lo`: `r` is the chosen neighbour, `b` any other BF16 magnitude.
  lemma ChosenNeighbour(lo: nat, d: nat, r: nat, b: nat)
    requires d < TWO16 && b != r
    requires r == if d < 0x8000 || (d == 0x8000 && lo % 2 == 0) then lo else lo + 1
    ensures var v := ValueOf(lo * TWO16 + d);
            && Distance(v, BfValue(r)) <= Distance(v, BfValue(b))
            && (Distance(v, BfValue(r)) == Distance(v, BfValue(b)) ==> r % 2 == 0 && b % 2 == 1)
  {
    hide ValueOf, Ulp, BfValue, Distance;
    DistanceToSteps(lo, d, b);
    DistanceToSteps(lo, d, r);
    UlpIsPositive(lo, 1);
    ScalingKeepsOrder(d, TWO16 - d, Ulp(lo));
    ScalingKeepsOrder(TWO16 - d, d, Ulp(lo));
  }

  /** The trick rounds every number and infinity to nearest, ties to even. */
  lemma NarrowRoundsTiesToEven(u: nat)
    requires u < TWO32 && !IsNaN(u)
    ensures RoundsTiesToEven(u, Narrow(u))
  {
    NarrowMagnitude(u);
    var m, r := Magnitude(u), Magnitude16(Narrow(u));
    assert m == (m / TWO16) * TWO16 + m % TWO16;
    forall b: nat | b <= INF16 && b != r
      ensures Distance(ValueOf(m), BfValue(r)) <= Distance(ValueOf(m), BfValue(b))
      ensures Distance(ValueOf(m), BfValue(r)) == Distance(ValueOf(m), BfValue(b)) ==> r % 2 == 0
    {
      hide Narrow, ValueOf, BfValue, Distance;
      ChosenNeighbour(m / TWO16, m % TWO16, r, b);
    }
  }

  /** Rounding to nearest, ties to even, determines the result: only the trick's answer qualifies. */
  lemma RoundingIsUnique(u: nat, r: nat)
    requires u < TWO32 && !IsNaN(u) && RoundsTiesToEven(u, r)
    ensures r == Narrow(u)
  {
    NarrowMagnitude(u);
    hide Narrow, ValueOf, BfValue, Distance;
    var m, a, b := Magnitude(u), Magnitude16(r), Magnitude16(Narrow(u));
    assert m == (m / TWO16) * TWO16 + m % TWO16;
    if a != b {
      ChosenNeighbour(m / TWO16, m % TWO16, b, a);
      assert false;
    }
  }

  /** On a NaN the trick yields a NaN exactly when the payload is away from both ends of its range. */
  lemma NarrowKeepsNaNIff(u: nat)
    requires u < TWO32 && IsNaN(u)
    ensures IsNaN16(Narrow(u)) <==> 0x7F80_8000 < Magnitude(u) < 0x7FFF_8000
  {
    MagnitudeOfNarrow(u);
    hide Narrow;
    var lo, d := Magnitude(u) / TWO16, Magnitude(u) % TWO16;
    assert Magnitude(u) == lo * TWO16 + d;
  }

  // A NaN with a small payload becomes infinity; the all-ones NaN wraps to zero.
  lemma NarrowLosesNaN()
    ensures IsNaN(0x7F80_0001) && Narrow(0x7F80_0001) == INF16
    ensures IsNaN(0xFFFF_FFFF) && Narrow(0xFFFF_FFFF) == 0
  {
  }
}
