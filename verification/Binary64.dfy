/**
 Doubles as exact reals: rounding to binary64 (sections 3.4 and 4.3.1 of IEEE 754-2019, ties to even)
 and printing as the shortest decimal that reads back (Number::toString of ECMA-262). The exponent is
 not bounded: amounts of money come nowhere near overflow or the subnormal numbers.
 */
module Binary64 {

  function Abs(x: real): real {
    if x < 0.0 then -x else x
  }

  // 2^k * x
  function Times2(x: real, k: nat): real
    decreases k
  {
    if k == 0 then x else 2.0 * Times2(x, k - 1)
  }

  // 10^j * x
  function Times10(x: real, j: nat): real
    decreases j
  {
    if j == 0 then x else 10.0 * Times10(x, j - 1)
  }

  predicate Whole(x: real) {
    x.Floor as real == x
  }

  lemma FloorBelow(x: real, k: int)
    requires x < k as real
    ensures x.Floor < k
  {}

  lemma FloorAbove(k: int, x: real)
    requires k as real <= x
    ensures k <= x.Floor
  {}

  lemma WholeIs(x: real, n: int)
    requires x == n as real
    ensures Whole(x)
  {
    FloorAbove(n, x);
  }

  /** Rounding */

  // The nearest integer, of two the even one.
  function NearestInt(t: real): (n: int)
    ensures Abs(n as real - t) <= 0.5
    ensures Abs(n as real - t) == 0.5 ==> n % 2 == 0
  {
    var low := t.Floor;
    var rest := t - low as real;
    if rest < 0.5 || (rest == 0.5 && low % 2 == 0) then low else low + 1
  }

  // From 1 to 2 the doubles are the multiples of 2^-52; elsewhere they are these times a power of two.
  function RndPositive(x: real): real
    requires x > 0.0
    decreases if x < 1.0 then 1 + (1.0 / x).Floor else x.Floor
  {
    if x >= 2.0 then
      HalvingEnds(x);
      2.0 * RndPositive(0.5 * x)
    else if x < 1.0 then
      DoublingEnds(x);
      0.5 * RndPositive(2.0 * x)
    else
      NearestInt(x * 4503599627370496.0) as real / 4503599627370496.0
  }

  // The double nearest to x.
  function Rnd(x: real): real {
    if x > 0.0 then RndPositive(x) else if x < 0.0 then -RndPositive(-x) else 0.0
  }

  lemma HalvingEnds(x: real)
    requires x >= 2.0
    ensures 1 <= (0.5 * x).Floor < x.Floor
  {}

  lemma DoublingEnds(x: real)
    requires 0.0 < x < 1.0
    ensures (1.0 / x).Floor >= 1
    ensures 2.0 * x >= 1.0 ==> (2.0 * x).Floor == 1
    ensures 0 <= (1.0 / (2.0 * x)).Floor < (1.0 / x).Floor
  {
    var y := 1.0 / x;
    assert y * x == 1.0;
    assert y > 1.0;
    assert 1.0 / (2.0 * x) == 0.5 * y;
  }

  lemma NearestIs(t: real, n: int)
    requires Abs(n as real - t) < 0.5 || (Abs(n as real - t) == 0.5 && n % 2 == 0)
    ensures NearestInt(t) == n
  {}

  lemma RndOdd(x: real)
    ensures Rnd(-x) == -Rnd(x)
  {}

  lemma RndDouble(x: real)
    requires x > 0.0
    ensures RndPositive(2.0 * x) == 2.0 * RndPositive(x)
  {
    if x >= 1.0 {
      assert 0.5 * (2.0 * x) == x;
    }
  }

  lemma RndUnit(x: real)
    requires 1.0 <= x < 2.0
    ensures 1.0 <= RndPositive(x) <= 2.0
    ensures Abs(RndPositive(x) - x) <= 1.0 / 9007199254740992.0
    ensures RndPositive(RndPositive(x)) == RndPositive(x)
  {
    var n := NearestInt(x * 4503599627370496.0);
    assert 4503599627370496 <= n <= 9007199254740992;
    if n < 9007199254740992 {
      NearestIs(RndPositive(x) * 4503599627370496.0, n);
    } else {
      NearestIs(4503599627370496.0, 4503599627370496);
      assert RndPositive(1.0) == 1.0;
      RndDouble(1.0);
    }
  }

  lemma {:induction false} RndPositiveNear(x: real)
    requires x > 0.0
    ensures RndPositive(x) > 0.0 && Abs(RndPositive(x) - x) <= x / 9007199254740992.0
    ensures RndPositive(RndPositive(x)) == RndPositive(x)
    decreases if x < 1.0 then 1 + (1.0 / x).Floor else x.Floor
  {
    if x >= 2.0 {
      HalvingEnds(x);
      RndPositiveNear(0.5 * x);
      RndDouble(RndPositive(0.5 * x));
    } else if x < 1.0 {
      DoublingEnds(x);
      RndPositiveNear(2.0 * x);
      RndDouble(RndPositive(x));
    } else {
      RndUnit(x);
    }
  }

  /** One rounding is off by at most the unit roundoff, 2^-53, of the number; a double is its own rounding. */
  lemma RndNear(x: real)
    ensures Abs(Rnd(x) - x) <= Abs(x) / 9007199254740992.0
    ensures Rnd(Rnd(x)) == Rnd(x)
  {
    if x > 0.0 {
      RndPositiveNear(x);
    } else if x < 0.0 {
      RndPositiveNear(-x);
    }
  }

  lemma {:induction false} RndPositiveNearest(x: real, d: real)
    requires x > 0.0 && d > 0.0 && RndPositive(d) == d
    ensures Abs(RndPositive(x) - x) <= Abs(d - x)
    decreases if x < 1.0 then 1 + (1.0 / x).Floor else x.Floor
  {
    if x >= 2.0 {
      HalvingEnds(x);
      RndDouble(0.5 * d);
      assert 2.0 * (0.5 * d) == d;
      RndPositiveNearest(0.5 * x, 0.5 * d);
    } else if x < 1.0 {
      DoublingEnds(x);
      RndDouble(d);
      RndPositiveNearest(2.0 * x, 2.0 * d);
    } else {
      UnitNearest(x, d);
    }
  }

  lemma UnitNearest(x: real, d: real)
    requires 1.0 <= x < 2.0 && d > 0.0 && RndPositive(d) == d
    ensures Abs(RndPositive(x) - x) <= Abs(d - x)
  {
    NoNearerInt(x * 4503599627370496.0, 4503599627370496);
    NoNearerInt(x * 4503599627370496.0, 9007199254740992);
    if 1.0 <= d < 2.0 {
      NoNearerInt(x * 4503599627370496.0, NearestInt(d * 4503599627370496.0));
    }
  }

  lemma NoNearerInt(t: real, n: int)
    ensures Abs(NearestInt(t) as real - t) <= Abs(n as real - t)
  {
    var m := NearestInt(t);
    assert n == m || n <= m - 1 || n >= m + 1;
  }

  /** No double is nearer to a number than its rounding. */
  lemma RndNearest(x: real, d: real)
    requires Rnd(d) == d
    ensures Abs(Rnd(x) - x) <= Abs(d - x)
  {
    RndNear(x);
    if x > 0.0 && d > 0.0 {
      RndPositiveNearest(x, d);
    } else if x < 0.0 && d < 0.0 {
      RndPositiveNearest(-x, -d);
    }
  }

  // Below 2^(k+1) rounding moves a number by at most half the step of that binade.
  lemma {:induction false} RndBelow(x: real, k: nat)
    requires Abs(x) < Times2(2.0, k)
    ensures Abs(Rnd(x) - x) <= Times2(1.0 / 9007199254740992.0, k)
    decreases k
  {
    if Abs(x) < 2.0 {
      RndNear(x);
      Times2Grows(1.0 / 9007199254740992.0, k);
      if 1.0 <= Abs(x) {
        RndUnit(Abs(x));
      }
    } else {
      RndBelow(0.5 * x, k - 1);
    }
  }

  lemma {:induction false} Times2Grows(x: real, k: nat)
    requires x > 0.0
    ensures Times2(x, k) >= x
    decreases k
  {
    if k > 0 {
      Times2Grows(x, k - 1);
    }
  }

  /**
   From 2^k to 2^(k+1) the doubles are the multiples of 2^(k-52), and rounding takes the nearest of them, of two
   the even multiple.
   */
  lemma {:induction false} RndBinade(x: real, k: nat, j: nat)
    requires k + j == 52 && Times2(1.0, k) <= x < Times2(2.0, k)
    ensures Times2(Rnd(x), j) == NearestInt(Times2(x, j)) as real
    decreases k
  {
    if k == 0 {
      RndBinadeUnit(x);
    } else {
      Times2Grows(1.0, k - 1);
      RndBinade(0.5 * x, k - 1, j + 1);
      Times2Double(0.5 * x, j);
      Times2Double(Rnd(0.5 * x), j);
    }
  }

  lemma RndUnitIs(x: real, n: int)
    requires 1.0 <= x < 2.0 && n == NearestInt(x * 4503599627370496.0)
    ensures Rnd(x) == n as real / 4503599627370496.0
  {}

  lemma RndBinadeUnit(x: real)
    requires 1.0 <= x < 2.0
    ensures Times2(Rnd(x), 52) == NearestInt(Times2(x, 52)) as real
  {
    Times2By52(x);
    var n := NearestInt(Times2(x, 52));
    RndUnitIs(x, n);
    Times2By52(n as real / 4503599627370496.0);
  }

  /** Printing */

  // A decimal with at most j places.
  predicate Decimal(p: real, j: nat) {
    Whole(Times10(p, j))
  }

  // Of the decimals with j places that read back as x, p is one nearest to x.
  ghost predicate Nearest(x: real, p: real, j: nat) {
    && Decimal(p, j) && Rnd(p) == x
    && forall r: real :: Decimal(r, j) && Rnd(r) == x ==> Abs(p - x) <= Abs(r - x)
  }

  // Some decimal with j places reads back as x.
  ghost predicate Reads(x: real, j: nat) {
    exists r: real :: Decimal(r, j) && Rnd(r) == x
  }

  // p is nearest to x with the fewest places. (Up to 2^54 fewest places means fewest digits: there a whole
  // number never reads back from a rounder one.)
  ghost predicate ShortestAt(x: real, p: real, j: nat) {
    Nearest(x, p, j) && forall i: nat :: i < j ==> !Reads(x, i)
  }

  // The double x is printed as p.
  ghost predicate PrintedAs(x: real, p: real) {
    exists j: nat :: ShortestAt(x, p, j)
  }

  lemma {:induction false} Times10Linear(x: real, j: nat)
    ensures Times10(2.0 * x, j) == 2.0 * Times10(x, j)
    ensures Times10(-x, j) == -Times10(x, j)
    decreases j
  {
    if j > 0 {
      Times10Linear(x, j - 1);
    }
  }

  lemma WholeTimes(x: real)
    requires Whole(x)
    ensures Whole(2.0 * x) && Whole(5.0 * x) && Whole(-x)
  {
    var n := x.Floor;
    WholeIs(2.0 * x, 2 * n);
    WholeIs(5.0 * x, 5 * n);
    WholeIs(-x, -n);
  }

  lemma DecimalHalf(x: real, j: nat)
    requires Decimal(2.0 * x, j)
    ensures Decimal(x, j + 1)
  {
    Times10Linear(x, j);
    WholeTimes(Times10(2.0 * x, j));
    assert Times10(x, j + 1) == 5.0 * Times10(2.0 * x, j);
  }

  lemma {:induction false} DyadicIsDecimal(x: real, k: nat)
    requires Whole(Times2(x, k))
    ensures Decimal(x, k)
    decreases k
  {
    if k > 0 {
      Times2Double(x, k - 1);
      DyadicIsDecimal(2.0 * x, k - 1);
      DecimalHalf(x, k - 1);
    }
  }

  lemma {:induction false} Times2Double(x: real, k: nat)
    ensures Times2(2.0 * x, k) == 2.0 * Times2(x, k)
    decreases k
  {
    if k > 0 {
      Times2Double(x, k - 1);
    }
  }

  lemma {:induction false} Times2Twice(x: real, a: nat, b: nat)
    ensures Times2(Times2(x, a), b) == Times2(x, a + b)
    decreases b
  {
    if b > 0 {
      Times2Twice(x, a, b - 1);
    }
  }

  lemma Times2By13(x: real)
    ensures Times2(x, 13) == 8192.0 * x
  {
    assert Times2(x, 4) == 16.0 * x;
    assert Times2(x, 8) == 256.0 * x;
    assert Times2(x, 12) == 4096.0 * x;
  }

  lemma Times2By52(x: real)
    ensures Times2(x, 26) == 67108864.0 * x
    ensures Times2(x, 39) == 549755813888.0 * x
    ensures Times2(x, 52) == 4503599627370496.0 * x
  {
    Times2By13(x);
    Times2By13(8192.0 * x);
    Times2By13(67108864.0 * x);
    Times2By13(549755813888.0 * x);
    Times2Twice(x, 13, 13);
    Times2Twice(x, 26, 13);
    Times2Twice(x, 39, 13);
  }

  // Every double is a decimal: its steps divide a power of ten.
  lemma {:induction false} DoubleIsDecimal(x: real) returns (j: nat)
    requires x > 0.0 && RndPositive(x) == x
    ensures Decimal(x, j)
    decreases if x < 1.0 then 1 + (1.0 / x).Floor else x.Floor
  {
    if x >= 2.0 {
      HalvingEnds(x);
      j := DoubleIsDecimal(0.5 * x);
      Times10Linear(0.5 * x, j);
      WholeTimes(Times10(0.5 * x, j));
    } else if x < 1.0 {
      DoublingEnds(x);
      j := DoubleIsDecimal(2.0 * x);
      DecimalHalf(x, j);
      j := j + 1;
    } else {
      j := 52;
      Times2By52(x);
      assert Times2(x, 52) == NearestInt(x * 4503599627370496.0) as real;
      DyadicIsDecimal(x, 52);
    }
  }

  lemma FewestPlaces(x: real, j: nat) returns (i: nat)
    requires Reads(x, j)
    ensures Reads(x, i) && forall k: nat :: k < i ==> !Reads(x, k)
    decreases j
  {
    i := j;
    if k: nat :| k < j && Reads(x, k) {
      i := FewestPlaces(x, k);
    }
  }

  lemma {:induction false} Times10Order(a: real, b: real, j: nat)
    requires a < b
    ensures Times10(a, j) < Times10(b, j)
    decreases j
  {
    if j > 0 {
      Times10Order(a, b, j - 1);
    }
  }

  lemma {:induction false} Times10Distance(x: real, r: real, j: nat)
    ensures Abs(Times10(r, j) - Times10(x, j)) == Times10(Abs(r - x), j)
    decreases j
  {
    if j > 0 {
      Times10Distance(x, r, j - 1);
    }
  }

  lemma {:induction false} NearestReading(x: real, j: nat, r: real) returns (p: real)
    requires Decimal(r, j) && Rnd(r) == x
    ensures Nearest(x, p, j)
    decreases (2.0 * Abs(Times10(r, j) - Times10(x, j))).Floor
  {
    p := r;
    if nearer: real :| Decimal(nearer, j) && Rnd(nearer) == x && Abs(nearer - x) < Abs(r - x) {
      Times10Distance(x, nearer, j);
      Times10Distance(x, r, j);
      Times10Order(Abs(nearer - x), Abs(r - x), j);
      Closer(Times10(nearer, j), Times10(r, j), Times10(x, j));
      p := NearestReading(x, j, nearer);
    }
  }

  lemma Closer(n: real, m: real, x: real)
    requires Whole(n) && Whole(m) && Abs(n - x) < Abs(m - x)
    ensures 0 <= (2.0 * Abs(n - x)).Floor < (2.0 * Abs(m - x)).Floor
  {
    var d, e := Abs(n - x), Abs(m - x);
    var k := if n < m then m.Floor - n.Floor else n.Floor - m.Floor;
    FloorAbove(0, 2.0 * d);
    if (n >= x) == (m >= x) {
      assert e - d == k as real;
      FloorAbove((2.0 * d).Floor + 1, 2.0 * e);
    } else {
      assert e + d == k as real;
      FloorBelow(2.0 * d, k);
      FloorAbove(k, 2.0 * e);
    }
  }

  /** Every double is printed as some decimal. */
  lemma EveryDoublePrints(x: real) returns (p: real)
    requires Rnd(x) == x
    ensures PrintedAs(x, p)
  {
    var most := 0;
    if x != 0.0 {
      most := DoubleIsDecimal(Abs(x));
      Times10Linear(Abs(x), most);
      WholeTimes(Times10(Abs(x), most));
    }
    assert Decimal(x, most);
    assert Reads(x, most);
    var j := FewestPlaces(x, most);
    var r: real :| Decimal(r, j) && Rnd(r) == x;
    p := NearestReading(x, j, r);
    assert ShortestAt(x, p, j);
  }

  /** A whole number is printed as itself. */
  lemma WholePrints(x: real, p: real)
    requires Whole(x) && Rnd(x) == x && PrintedAs(x, p)
    ensures p == x
  {
    assert Decimal(x, 0) && Reads(x, 0);
    var j: nat :| ShortestAt(x, p, j);
  }
}
