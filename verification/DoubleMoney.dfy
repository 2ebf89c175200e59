/**
 Balances live in a decimal(20,4) column but are added and compared as doubles. The exact magnitudes up
 to which that path computes what integer units would, inputs just above them where it does not, and its
 rule above 2^53.
 */
module DoubleMoney {
  import opened Binary64
  import Ledger

  // 2^38 whole units of currency and 0.0004: up to here every update is exact, and no further.
  const EXACT := 2_748_779_069_440_004

  // 2^39 whole units of currency and 0.0002: up to here every comparison is exact, and no further.
  const COMPARABLE := 5_497_558_138_880_002

  function AbsInt(n: int): nat {
    if n < 0 then -n else n
  }

  // The value of `units` steps of 1/10000.
  function Value(units: int): real {
    units as real / 10000.0
  }

  // The column keeps four places and rounds half away from zero.
  function ToUnits(d: real): int {
    if d >= 0.0 then (d * 10000.0 + 0.5).Floor else -((-d * 10000.0 + 0.5).Floor)
  }

  // Adding the doubles x and y, printing the sum and letting the column round it stores `units`.
  ghost predicate Stores(x: real, y: real, units: int) {
    exists p: real :: PrintedAs(Rnd(x + y), p) && units == ToUnits(p)
  }

  // The receiver's side: parse the column, add the parsed amount.
  ghost predicate Credited(balance: int, amount: int, units: int) {
    Stores(Rnd(Value(balance)), Rnd(Value(amount)), units)
  }

  // The sender's side adds the negated amount.
  ghost predicate Debited(balance: int, amount: int, units: int) {
    Stores(Rnd(Value(balance)), -Rnd(Value(amount)), units)
  }

  // Every update of a balance by an amount with |balance| + |amount| <= n units is exact.
  ghost predicate ExactUpTo(n: nat) {
    forall balance, amount, units :: AbsInt(balance) + AbsInt(amount) <= n ==>
      (Credited(balance, amount, units) ==> units == balance + amount) &&
      (Debited(balance, amount, units) ==> units == balance - amount)
  }

  // The same for the amounts that the request validation admits.
  ghost predicate ExactForAdmissibleUpTo(n: nat) {
    forall balance, amount, units :: AbsInt(balance) + AbsInt(amount) <= n && amount >= Ledger.MIN_AMOUNT ==>
      (Credited(balance, amount, units) ==> units == balance + amount) &&
      (Debited(balance, amount, units) ==> units == balance - amount)
  }

  /** One rounding, by magnitude */

  lemma Times2By15(x: real)
    ensures Times2(x, 15) == 32768.0 * x
  {
    Times2By13(x);
    assert Times2(x, 14) == 16384.0 * x;
  }

  lemma Times2By36(x: real)
    ensures Times2(x, 36) == 68719476736.0 * x
  {
    Times2By37(x);
    assert Times2(x, 37) == 2.0 * Times2(x, 36);
  }

  lemma Times2By37(x: real)
    ensures Times2(x, 37) == 137438953472.0 * x
  {
    Times2By38(x);
    assert Times2(x, 38) == 2.0 * Times2(x, 37);
  }

  lemma Times2By38(x: real)
    ensures Times2(x, 38) == 274877906944.0 * x
  {
    Times2By52(x);
    assert Times2(x, 39) == 2.0 * Times2(x, 38);
  }

  lemma Times2By39(x: real)
    ensures Times2(x, 39) == 549755813888.0 * x
  {
    Times2By52(x);
  }

  lemma ErrorBelow37(x: real)
    requires Abs(x) < 137438953472.0
    ensures Abs(Rnd(x) - x) <= 1.0 / 131072.0
  {
    Times2By36(2.0);
    Times2By36(1.0 / 9007199254740992.0);
    RndBelow(x, 36);
  }

  lemma ErrorBelow38(x: real)
    requires Abs(x) < 274877906944.0
    ensures Abs(Rnd(x) - x) <= 1.0 / 65536.0
  {
    Times2By37(2.0);
    Times2By37(1.0 / 9007199254740992.0);
    RndBelow(x, 37);
  }

  lemma ErrorBelow39(x: real)
    requires Abs(x) < 549755813888.0
    ensures Abs(Rnd(x) - x) <= 1.0 / 32768.0
  {
    Times2By38(2.0);
    Times2By38(1.0 / 9007199254740992.0);
    RndBelow(x, 38);
  }

  // The binades that matter below.
  predicate Known(k: nat) {
    k == 15 || k == 36 || k == 37 || k == 38 || k == 39
  }

  // 2^k, where binade k starts.
  function Low(k: nat): real
    requires Known(k)
  {
    match k
    case 15 => 32768.0
    case 36 => 68719476736.0
    case 37 => 137438953472.0
    case 38 => 274877906944.0
    case _ => 549755813888.0
  }

  // x in steps of binade k, which are 2^(k-52) wide.
  function InSteps(x: real, k: nat): real
    requires Known(k)
  {
    match k
    case 15 => x * 137438953472.0
    case 36 => x * 65536.0
    case 37 => x * 32768.0
    case 38 => x * 16384.0
    case _ => x * 8192.0
  }

  lemma LowIs(k: nat)
    requires Known(k)
    ensures Times2(1.0, k) == Low(k) && Times2(2.0, k) == 2.0 * Low(k)
  {
    Times2By15(1.0);
    Times2By36(1.0);
    Times2By39(1.0);
    Times2Double(1.0, k);
  }

  lemma StepsAre(x: real, k: nat)
    requires Known(k)
    ensures Times2(x, 52 - k) == InSteps(x, k)
  {
    Times2By13(x);
    Times2By37(x);
    assert Times2(x, 14) == 16384.0 * x && Times2(x, 16) == 65536.0 * x;
  }

  /** From 2^k to 2^(k+1) rounding takes the nearest whole number of steps. */
  lemma GridAt(x: real, k: nat)
    requires Known(k) && Low(k) <= x < 2.0 * Low(k)
    ensures InSteps(Rnd(x), k) == NearestInt(InSteps(x, k)) as real
  {
    LowIs(k);
    StepsAre(x, k);
    StepsAre(Rnd(x), k);
    RndBinade(x, k, 52 - k);
  }

  lemma GridAt53(x: real)
    requires 9007199254740992.0 <= x < 18014398509481984.0
    ensures Rnd(x) == 2.0 * NearestInt(0.5 * x) as real
  {
    Times2By52(1.0);
    Times2By52(2.0);
    RndBinade(0.5 * x, 52, 0);
  }

  /** The errors of parsing */

  // The first amounts from 2^37 on.
  lemma ParsedAt37(i: nat)
    requires i <= 4
    ensures var v := Value(1_374_389_534_720_000 + i); Abs(Rnd(v) - v) <= 0.00001363
    ensures var v := Value(1_374_389_534_720_000 + i); i != 2 ==> Abs(Rnd(v) - v) <= 0.0000085
  {
    var v := Value(1_374_389_534_720_000 + i);
    GridAt(v, 37);
    NearestIs(v * 32768.0, 4503599627370496 + [0, 3, 7, 10, 13][i]);
  }

  // The first amounts from 2^38 on.
  lemma ParsedAt38(i: nat)
    requires i <= 4
    ensures var v := Value(2_748_779_069_440_000 + i); Abs(Rnd(v) - v) <= 0.00002725
    ensures var v := Value(2_748_779_069_440_000 + i); i != 4 ==> Abs(Rnd(v) - v) <= 0.00002208
  {
    var v := Value(2_748_779_069_440_000 + i);
    GridAt(v, 38);
    NearestIs(v * 16384.0, 4503599627370496 + [0, 2, 3, 5, 7][i]);
  }

  lemma ParsedError(n: int)
    ensures var v := Value(n); AbsInt(n) < 1_374_389_534_720_000 ==> Abs(Rnd(v) - v) <= 0.00000763
    ensures var v := Value(n); AbsInt(n) < 2_748_779_069_440_000 ==> Abs(Rnd(v) - v) <= 0.00001526
    ensures var v := Value(n); AbsInt(n) <= 4 ==> Abs(Rnd(v) - v) <= 0.00000001
  {
    var v := Value(n);
    if AbsInt(n) <= 4 {
      RndNear(v);
    }
    if AbsInt(n) < 1_374_389_534_720_000 {
      ErrorBelow37(v);
    }
    if AbsInt(n) < 2_748_779_069_440_000 {
      ErrorBelow38(v);
    }
  }

  lemma ParsedOdd(n: int)
    ensures Value(-n) == -Value(n) && Rnd(Value(-n)) == -Rnd(Value(n))
  {
    RndOdd(Value(n));
  }

  // What parsing a and c may contribute to the error of their sum.
  predicate ParsedClose(a: int, c: int) {
    var e := Abs(Rnd(Value(a)) + Rnd(Value(c)) - Value(a + c));
    e <= 0.000028 && (AbsInt(a + c) == EXACT - 1 ==> e <= 0.0000229)
  }

  lemma ParsedCloseNegated(a: int, c: int)
    requires ParsedClose(-a, -c)
    ensures ParsedClose(a, c)
  {
    ParsedOdd(a);
    ParsedOdd(c);
    ParsedOdd(a + c);
  }

  // The larger amount is at least 2^38.
  lemma ParsedLarge(a: int, c: int)
    requires a >= 2_748_779_069_440_000 && a + AbsInt(c) <= EXACT
    ensures ParsedClose(a, c)
  {
    ParsedAt38(a - 2_748_779_069_440_000);
    ParsedError(c);
  }

  // Both amounts are at least 2^37 in magnitude.
  lemma ParsedHalves(a: int, c: int)
    requires a >= 1_374_389_534_720_000 && AbsInt(c) >= 1_374_389_534_720_000 && a + AbsInt(c) <= EXACT
    ensures ParsedClose(a, c)
  {
    ParsedAt37(a - 1_374_389_534_720_000);
    ParsedAt37(AbsInt(c) - 1_374_389_534_720_000);
    ParsedOdd(c);
  }

  lemma ParsedSum(a: int, c: int)
    requires AbsInt(a) + AbsInt(c) <= EXACT
    ensures ParsedClose(a, c)
  {
    if AbsInt(a) < AbsInt(c) {
      ParsedOrdered(c, a);
    } else {
      ParsedOrdered(a, c);
    }
  }

  lemma ParsedOrdered(a: int, c: int)
    requires AbsInt(c) <= AbsInt(a) && AbsInt(a) + AbsInt(c) <= EXACT
    ensures ParsedClose(a, c)
  {
    if a < 0 {
      ParsedPositive(-a, -c);
      ParsedCloseNegated(a, c);
    } else {
      ParsedPositive(a, c);
    }
  }

  lemma ParsedPositive(a: nat, c: int)
    requires AbsInt(c) <= a && a + AbsInt(c) <= EXACT
    ensures ParsedClose(a, c)
  {
    if a >= 2_748_779_069_440_000 {
      ParsedLarge(a, c);
    } else if AbsInt(c) >= 1_374_389_534_720_000 {
      ParsedHalves(a, c);
    } else {
      ParsedError(a);
      ParsedError(c);
    }
  }

  /** The error of the sum */

  // The double s is within reach of printing as n units.
  predicate SumClose(s: real, n: int) {
    && Abs(s) <= 274877906944.5
    && Abs(s - Value(n)) < 0.000045
    && (Abs(s) < 137438953472.0 ==> Abs(s - Value(n)) <= 0.000036)
  }

  predicate NearUnits(t: real, n: int) {
    && AbsInt(n) <= EXACT
    && Abs(t - Value(n)) <= 0.000028
    && (AbsInt(n) == EXACT - 1 ==> Abs(t - Value(n)) <= 0.0000229)
  }

  lemma SumIsClose(t: real, n: int)
    requires NearUnits(t, n)
    ensures SumClose(Rnd(t), n)
  {
    if t < 0.0 {
      SumPositive(-t, -n);
      RndOdd(t);
    } else {
      SumPositive(t, n);
    }
  }

  lemma SumPositive(t: real, n: int)
    requires t >= 0.0 && NearUnits(t, n)
    ensures SumClose(Rnd(t), n)
  {
    if t < 137438953472.0 {
      ErrorBelow37(t);
    } else if t < 274877906944.0 {
      ErrorBelow38(t);
      GridAt(t, 37);
    } else {
      SumAt38(t, n - 2_748_779_069_440_000);
    }
  }

  // From 2^38 on the doubles are 2^-14 apart, and only five results are in range.
  lemma SumAt38(t: real, i: int)
    requires t >= 274877906944.0 && NearUnits(t, 2_748_779_069_440_000 + i)
    ensures SumClose(Rnd(t), 2_748_779_069_440_000 + i)
  {
    GridAt(t, 38);
    var k := NearestInt(t * 16384.0) - 4503599627370496;
    assert Rnd(t) == 274877906944.0 + k as real / 16384.0;
    assert 0 <= i <= 4;
    assert [0, 1, 3, 5, 6][i] <= k <= [0, 2, 4, 5, 7][i];
  }

  /** Printing and storing */

  lemma ToUnitsNear(d: real, n: int)
    requires Abs(d - Value(n)) < 0.00005
    ensures ToUnits(d) == n
  {
    if d >= 0.0 {
      FloorAbove(n, d * 10000.0 + 0.5);
      FloorBelow(d * 10000.0 + 0.5, n + 1);
    } else {
      FloorAbove(-n, -d * 10000.0 + 0.5);
      FloorBelow(-d * 10000.0 + 0.5, -n + 1);
    }
  }

  // Within half a step of a double from 2^37 to 2^38 + 1, a number reads back as it.
  lemma ReadsBack(s: real, r: real)
    requires 137438953472.0 <= s <= 274877906945.0 && Rnd(s) == s && Abs(r - s) <= 0.000005
    ensures Rnd(r) == s
  {
    if s < 274877906944.0 {
      ReadsBackAt37(s, r);
    } else {
      ReadsBackAt38(s, r);
    }
  }

  lemma ReadsBackAt37(s: real, r: real)
    requires 137438953472.0 <= s < 274877906944.0 && Rnd(s) == s && Abs(r - s) <= 0.000005
    ensures Rnd(r) == s
  {
    GridAt(s, 37);
    var n := NearestInt(s * 32768.0);
    assert s * 32768.0 == n as real && n <= 9007199254740991;
    if r < 137438953472.0 {
      GridAt(r, 36);
      NearestIs(r * 65536.0, 2 * n);
    } else {
      GridAt(r, 37);
      NearestIs(r * 32768.0, n);
    }
  }

  lemma ReadsBackAt38(s: real, r: real)
    requires 274877906944.0 <= s <= 274877906945.0 && Rnd(s) == s && Abs(r - s) <= 0.000005
    ensures Rnd(r) == s
  {
    GridAt(s, 38);
    var n := NearestInt(s * 16384.0);
    if r < 274877906944.0 {
      GridAt(r, 37);
      NearestIs(r * 32768.0, 2 * n);
    } else {
      GridAt(r, 38);
      NearestIs(r * 16384.0, n);
    }
  }

  lemma Times10By5(x: real)
    ensures Times10(x, 1) == 10.0 * x && Times10(x, 2) == 100.0 * x && Times10(x, 3) == 1000.0 * x
    ensures Times10(x, 4) == 10000.0 * x && Times10(x, 5) == 100000.0 * x
  {}

  lemma FourPlaces(p: real, j: nat) returns (m: int)
    requires Decimal(p, j) && j <= 4
    ensures p == Value(m)
  {
    Times10By5(p);
    var n := Times10(p, j).Floor;
    m := [10000, 1000, 100, 10, 1][j] * n;
  }

  // The decimal with five places nearest to x.
  function FivePlaces(x: real): real {
    (x * 100000.0 + 0.5).Floor as real / 100000.0
  }

  lemma FivePlacesNear(x: real)
    ensures Decimal(FivePlaces(x), 5) && Abs(FivePlaces(x) - x) <= 0.000005
  {
    Times10By5(FivePlaces(x));
    WholeIs(Times10(FivePlaces(x), 5), (x * 100000.0 + 0.5).Floor);
  }

  lemma FivePlacesRead(s: real)
    requires 137438953472.0 <= Abs(s) <= 274877906945.0 && Rnd(s) == s
    ensures Reads(s, 5) && Rnd(FivePlaces(s)) == s
  {
    var r := FivePlaces(s);
    FivePlacesNear(s);
    if s > 0.0 {
      ReadsBack(s, r);
    } else {
      RndOdd(s);
      ReadsBack(-s, -r);
      RndOdd(-r);
    }
  }

  // A printed double is not far from the double.
  lemma PrintedClose(s: real, p: real)
    requires Rnd(p) == s && Abs(s) <= 500000000000.0
    ensures Abs(p - s) <= 1.0 / 32768.0
    ensures Abs(s) < 137438953472.0 ==> Abs(p - s) <= 1.0 / 131072.0
  {
    RndNear(p);
    ErrorBelow39(p);
    if Abs(p) < 137438953472.0 {
      ErrorBelow37(p);
    } else if Abs(s) < 137438953472.0 {
      RndOdd(p);
      GridAt(Abs(p), 37);
      assert false;
    }
  }

  /** A double that close to a number of units is printed so that the column stores this number. */
  lemma PrintedUnits(s: real, n: int, p: real)
    requires Rnd(s) == s && SumClose(s, n) && PrintedAs(s, p)
    ensures ToUnits(p) == n
  {
    PrintedClose(s, p);
    var j: nat :| ShortestAt(s, p, j);
    if Abs(s) < 137438953472.0 {
      ToUnitsNear(p, n);
    } else if j <= 4 {
      var m := FourPlaces(p, j);
      assert m == n;
      ToUnitsNear(p, n);
    } else {
      FivePlacesRead(s);
      FivePlacesNear(s);
      assert j == 5;
      ToUnitsNear(p, n);
    }
  }

  /** Exactness */

  lemma StoredIsExact(a: int, c: int, units: int)
    requires AbsInt(a) + AbsInt(c) <= EXACT
    requires Stores(Rnd(Value(a)), Rnd(Value(c)), units)
    ensures units == a + c
  {
    var t := Rnd(Value(a)) + Rnd(Value(c));
    var p: real :| PrintedAs(Rnd(t), p) && units == ToUnits(p);
    ParsedSum(a, c);
    SumIsClose(t, a + c);
    RndNear(t);
    PrintedUnits(Rnd(t), a + c, p);
  }

  /** Up to 2^38 and 0.0004 one update of either side stores exactly the integer result. */
  lemma UpdateIsExact(balance: int, amount: int, units: int)
    requires AbsInt(balance) + AbsInt(amount) <= EXACT
    ensures Credited(balance, amount, units) <==> units == balance + amount
    ensures Debited(balance, amount, units) <==> units == balance - amount
  {
    ParsedOdd(amount);
    StoredIff(balance, amount, units);
    StoredIff(balance, -amount, units);
  }

  lemma StoredIff(a: int, c: int, units: int)
    requires AbsInt(a) + AbsInt(c) <= EXACT
    ensures Stores(Rnd(Value(a)), Rnd(Value(c)), units) <==> units == a + c
  {
    var stored := SomethingIsStored(Rnd(Value(a)), Rnd(Value(c)));
    StoredIsExact(a, c, stored);
    if Stores(Rnd(Value(a)), Rnd(Value(c)), units) {
      StoredIsExact(a, c, units);
    }
  }

  lemma SomethingIsStored(x: real, y: real) returns (units: int)
    ensures Stores(x, y, units)
  {
    RndNear(x + y);
    var p := EveryDoublePrints(Rnd(x + y));
    units := ToUnits(p);
  }

  /** Above that magnitude */

  // A double from 2^38 on that is half a step away from every number of units prints with five places.
  lemma FivePlacesPrinted(s: real, p: real, m: int)
    requires 274877906944.0 <= s <= 500000000000.0 && Decimal(p, 5) && Rnd(p) == s && Abs(p - s) <= 0.000005
    requires Value(m) + 0.000031 < s < Value(m + 1) - 0.000031
    ensures PrintedAs(s, p)
  {
    forall i: nat | i < 5
      ensures !Reads(s, i)
    {
      BetweenUnits(s, m, i);
    }
    forall r: real | Decimal(r, 5) && Rnd(r) == s
      ensures Abs(p - s) <= Abs(r - s)
    {
      Times10By5(r);
      Times10By5(p);
      var k, l := Times10(r, 5).Floor, Times10(p, 5).Floor;
      assert k == l || k <= l - 1 || k >= l + 1;
    }
    assert ShortestAt(s, p, 5);
  }

  lemma BetweenUnits(s: real, m: int, i: nat)
    requires i <= 4 && 274877906944.0 <= s <= 500000000000.0
    requires Value(m) + 0.000031 < s < Value(m + 1) - 0.000031
    ensures !Reads(s, i)
  {
    forall r: real | Decimal(r, i)
      ensures Rnd(r) != s
    {
      var k := FourPlaces(r, i);
      assert k <= m || k >= m + 1;
      if Rnd(r) == s {
        PrintedClose(s, r);
      }
    }
  }

  lemma RoundsAt38(t: real, k: int)
    requires 274877906944.0 <= t <= 500000000000.0 && Abs(k as real - t * 16384.0) < 0.5
    ensures Rnd(t) == k as real / 16384.0
  {
    GridAt(t, 38);
    NearestIs(t * 16384.0, k);
  }

  // Half a unit above m is stored as the next unit.
  lemma HalfUnit(p: real, m: nat)
    requires p * 100000.0 == (10 * m + 5) as real
    ensures Decimal(p, 5) && ToUnits(p) == m + 1
  {
    Times10By5(p);
    WholeIs(Times10(p, 5), 10 * m + 5);
    FloorAbove(m + 1, p * 10000.0 + 0.5);
    FloorBelow(p * 10000.0 + 0.5, m + 2);
  }

  // Such a double prints as nothing else when the five places are nearer than half a step of theirs.
  lemma FivePlacesOnly(s: real, p: real, m: int, q: real)
    requires 274877906944.0 <= s <= 500000000000.0 && Decimal(p, 5) && Rnd(p) == s && Abs(p - s) < 0.000005
    requires Value(m) + 0.000031 < s < Value(m + 1) - 0.000031
    requires PrintedAs(s, q)
    ensures q == p
  {
    var j: nat :| ShortestAt(s, q, j);
    if j < 5 {
      BetweenUnits(s, m, j);
    }
    assert Reads(s, 5);
    assert j == 5;
    Times10By5(p);
    Times10By5(q);
    var k, l := Times10(q, 5).Floor, Times10(p, 5).Floor;
    assert k == l || k <= l - 1 || k >= l + 1;
  }

  // The sum of x and y rounds to k / 2^14, which prints as p and is stored as the next unit after m.
  lemma StoresNext(x: real, y: real, k: int, p: real, m: nat, units: int)
    requires 274877906944.0 <= x + y <= 499999999999.0 && Abs(k as real - (x + y) * 16384.0) < 0.5
    requires 274877906944.0 <= p && Abs(p - k as real / 16384.0) < 0.000005
    requires Value(m) + 0.000031 < k as real / 16384.0 < Value(m + 1) - 0.000031
    requires p * 100000.0 == (10 * m + 5) as real
    ensures Stores(x, y, units) <==> units == m + 1
  {
    var s := k as real / 16384.0;
    RoundsAt38(x + y, k);
    RoundsAt38(p, k);
    HalfUnit(p, m);
    FivePlacesPrinted(s, p, m);
    if Stores(x, y, units) {
      var q: real :| PrintedAs(Rnd(x + y), q) && units == ToUnits(q);
      FivePlacesOnly(s, p, m, q);
    }
  }

  /** The first failure, with an admissible amount: added to one unit it is stored as two more. */
  lemma FirstFailure(units: int)
    ensures EXACT >= Ledger.MIN_AMOUNT
    ensures Credited(1, EXACT, units) <==> units == EXACT + 2
  {
    var v := Value(EXACT);
    GridAt(v, 38);
    NearestIs(v * 16384.0, 4503599627370503);
    RndNear(Value(1));
    StoresNext(Rnd(Value(1)), Rnd(v), 4503599627370505, 274877906944.00055, EXACT + 1, units);
  }

  /** An everyday failure: 295908020270.5499 and 39258.7963 make 295908059529.3463, and nothing else. */
  lemma AdmissibleFailure(units: int)
    ensures Credited(2_959_080_202_705_499, 392_587_963, units) <==> units == 2_959_080_595_293_463
    ensures 2_959_080_202_705_499 + 392_587_963 == 2_959_080_595_293_462
  {
    var v, w := Value(2_959_080_202_705_499), Value(392_587_963);
    GridAt(v, 38);
    NearestIs(v * 16384.0, 4848157004112690);
    GridAt(w, 15);
    NearestIs(w * 137438953472.0, 5395687878042426);
    StoresNext(Rnd(v), Rnd(w), 4848157647328809, 295908059529.34625, 2_959_080_595_293_462, units);
  }

  /**
   Every update up to n units is exact if and only if n is at most 2^38 and 0.0004. It makes no difference
   that amounts below 1000 are turned down: the largest sum has a small balance and a large amount as well.
   */
  lemma ExactUpToIff(n: nat)
    ensures ExactUpTo(n) <==> n <= EXACT
    ensures ExactForAdmissibleUpTo(n) <==> n <= EXACT
  {
    if n <= EXACT {
      forall balance, amount, units | AbsInt(balance) + AbsInt(amount) <= n
        ensures Credited(balance, amount, units) ==> units == balance + amount
        ensures Debited(balance, amount, units) ==> units == balance - amount
      {
        UpdateIsExact(balance, amount, units);
      }
    } else {
      FirstFailure(EXACT + 2);
    }
  }

  /** Comparing */

  // The test `balance < amount` on doubles.
  predicate Below(balance: int, amount: int) {
    Rnd(Value(balance)) < Rnd(Value(amount))
  }

  // Every comparison of amounts up to n units decides as on the integers.
  ghost predicate ComparesUpTo(n: nat) {
    forall balance, amount :: AbsInt(balance) <= n && AbsInt(amount) <= n ==>
      (Below(balance, amount) <==> balance < amount)
  }

  // The first amounts from 2^39 on.
  lemma ParsedAt39(i: nat)
    requires i <= 3
    ensures Rnd(Value(5_497_558_138_880_000 + i)) == 549755813888.0 + [0, 1, 2, 2][i] as real / 8192.0
  {
    var v := Value(5_497_558_138_880_000 + i);
    GridAt(v, 39);
    NearestIs(v * 8192.0, 4503599627370496 + [0, 1, 2, 2][i]);
  }

  lemma ParsedComparable(n: int)
    requires AbsInt(n) <= COMPARABLE
    ensures Abs(Rnd(Value(n)) - Value(n)) <= 0.000045
  {
    if AbsInt(n) < 5_497_558_138_880_000 {
      ErrorBelow39(Value(n));
    } else {
      ParsedAt39(AbsInt(n) - 5_497_558_138_880_000);
      ParsedOdd(n);
    }
  }

  lemma UnitsApart(x: real, y: real, m: int, n: int)
    requires Abs(x - Value(m)) <= 0.000045 && Abs(y - Value(n)) <= 0.000045 && m != n
    ensures x < y <==> m < n
  {
    assert m < n ==> Value(n) - Value(m) >= 0.0001;
    assert n < m ==> Value(m) - Value(n) >= 0.0001;
  }

  lemma ComparisonIsExact(balance: int, amount: int)
    requires AbsInt(balance) <= COMPARABLE && AbsInt(amount) <= COMPARABLE
    ensures Below(balance, amount) <==> balance < amount
  {
    ParsedComparable(balance);
    ParsedComparable(amount);
    if balance != amount {
      UnitsApart(Rnd(Value(balance)), Rnd(Value(amount)), balance, amount);
    }
  }

  /** Balances and amounts up to n units are compared exactly if and only if n is at most 2^39 and 0.0002. */
  lemma ComparesUpToIff(n: nat)
    ensures ComparesUpTo(n) <==> n <= COMPARABLE
  {
    if n <= COMPARABLE {
      forall balance, amount | AbsInt(balance) <= n && AbsInt(amount) <= n
        ensures Below(balance, amount) <==> balance < amount
      {
        ComparisonIsExact(balance, amount);
      }
    } else {
      ParsedAt39(2);
      ParsedAt39(3);
      assert !Below(COMPARABLE, COMPARABLE + 1);
    }
  }

  /** A series of updates */

  // One leg of a transfer changes an account by `change`.
  ghost predicate Changed(balance: int, change: int, units: int) {
    if change < 0 then Debited(balance, -change, units) else Credited(balance, change, units)
  }

  // The balances the double path may store by a series of updates.
  ghost predicate StoredAfter(balance: int, changes: seq<int>, units: int)
    decreases changes
  {
    if changes == [] then units == balance
    else
      var last := |changes| - 1;
      exists before :: StoredAfter(balance, changes[..last], before) && Changed(before, changes[last], units)
  }

  // The integer account of the same updates.
  function UnitsAfter(balance: int, changes: seq<int>): int
    decreases changes
  {
    if changes == [] then balance else UnitsAfter(balance, changes[..|changes| - 1]) + changes[|changes| - 1]
  }

  lemma ChangeIsExact(balance: int, change: int, units: int)
    requires AbsInt(balance) + AbsInt(change) <= EXACT
    ensures Changed(balance, change, units) <==> units == balance + change
  {
    UpdateIsExact(balance, AbsInt(change), units);
  }

  /** No error accumulates: a whole series of updates stores the integer result while every step is in range. */
  lemma {:induction false} SeriesIsExact(balance: int, changes: seq<int>, units: int)
    requires forall i :: 0 <= i < |changes| ==>
               AbsInt(UnitsAfter(balance, changes[..i])) + AbsInt(changes[i]) <= EXACT
    ensures StoredAfter(balance, changes, units) <==> units == UnitsAfter(balance, changes)
    decreases changes
  {
    if changes != [] {
      var last := |changes| - 1;
      forall i | 0 <= i < last
        ensures AbsInt(UnitsAfter(balance, changes[..last][..i])) + AbsInt(changes[..last][i]) <= EXACT
      {
        assert changes[..last][..i] == changes[..i];
      }
      var now := UnitsAfter(balance, changes[..last]);
      forall before
        ensures StoredAfter(balance, changes[..last], before) <==> before == now
      {
        SeriesIsExact(balance, changes[..last], before);
      }
      ChangeIsExact(now, changes[last], units);
    }
  }

  /** Above 2^53 */

  // Whole numbers below 2^53 are doubles.
  lemma {:induction false} WholeIsDouble(x: real, k: nat)
    requires 1.0 <= x < Times2(2.0, k) && k <= 52 && Whole(Times2(x, 52 - k))
    ensures RndPositive(x) == x
    decreases k
  {
    if k == 0 {
      Times2By52(x);
      NearestIs(x * 4503599627370496.0, Times2(x, 52).Floor);
    } else if x < 2.0 {
      Times2Grows(2.0, k - 1);
      WholeTimes(Times2(x, 52 - k));
      WholeIsDouble(x, k - 1);
    } else {
      Times2Double(0.5 * x, 52 - k);
      WholeIsDouble(0.5 * x, k - 1);
    }
  }

  lemma IntIsDouble(n: int)
    requires AbsInt(n) < 9007199254740992
    ensures Rnd(n as real) == n as real
  {
    if n != 0 {
      Times2By52(2.0);
      WholeIs(AbsInt(n) as real, AbsInt(n));
      WholeIsDouble(AbsInt(n) as real, 52);
      RndOdd(n as real);
    }
  }

  lemma EvenIsDouble(n: int)
    requires 9007199254740992 <= n < 18014398509481984
    ensures Whole(Rnd(n as real)) && (Rnd(n as real) == n as real <==> n % 2 == 0)
  {
    GridAt53(n as real);
    var k := NearestInt(0.5 * n as real);
    assert Rnd(n as real) == (2 * k) as real;
    WholeIs(Rnd(n as real), 2 * k);
    Halves(n, k);
  }

  lemma Halves(n: int, k: int)
    requires k == NearestInt(0.5 * n as real)
    ensures 2 * k == n <==> n % 2 == 0
  {
    if n % 2 == 0 {
      NearestIs(0.5 * n as real, n / 2);
    }
  }

  lemma WholeValue(n: int)
    ensures Value(n * 10000) == n as real
  {}

  lemma ParsedAbove53(whole: int, amount: int)
    requires 9007199254740992 <= whole < 10_000_000_000_000_000 && whole % 2 == 0
    requires 9007199254740992 <= whole + amount < 10_000_000_000_000_000
    ensures Rnd(Value(whole * 10000)) + Rnd(Value(amount * 10000)) == (whole + amount) as real
  {
    WholeValue(whole);
    WholeValue(amount);
    EvenIsDouble(whole);
    IntIsDouble(amount);
  }

  lemma PrintedAbove53(n: int, p: real)
    requires 9007199254740992 <= n < 10_000_000_000_000_000 && PrintedAs(Rnd(n as real), p)
    ensures ToUnits(p) == n * 10000 <==> n % 2 == 0
  {
    EvenIsDouble(n);
    RndNear(n as real);
    WholePrints(Rnd(n as real), p);
    WholeValue(p.Floor);
    ToUnitsNear(p, p.Floor * 10000);
  }

  lemma StoredWhole(x: real, y: real, n: int, units: int)
    requires x + y == n as real && 9007199254740992 <= n < 10_000_000_000_000_000
    requires Stores(x, y, units)
    ensures units == n * 10000 <==> n % 2 == 0
  {
    var p: real :| PrintedAs(Rnd(x + y), p) && units == ToUnits(p);
    PrintedAbove53(n, p);
  }

  lemma WholeSumIff(x: real, y: real, n: int)
    requires x + y == n as real && 9007199254740992 <= n < 10_000_000_000_000_000
    ensures Stores(x, y, n * 10000) <==> n % 2 == 0
  {
    var units := SomethingIsStored(x, y);
    StoredWhole(x, y, n, units);
    if Stores(x, y, n * 10000) {
      StoredWhole(x, y, n, n * 10000);
    }
  }

  /**
   Above 2^53 the doubles are even, and so is every whole balance stored there. A whole amount is added or
   taken away exactly if and only if it is even.
   */
  lemma ExactAbove53Iff(whole: int, amount: int)
    requires 9007199254740992 <= whole < 10_000_000_000_000_000 && whole % 2 == 0
    requires 9007199254740992 <= whole + amount < 10_000_000_000_000_000
    ensures Credited(whole * 10000, amount * 10000, (whole + amount) * 10000) <==> amount % 2 == 0
  {
    ParsedAbove53(whole, amount);
    WholeSumIff(Rnd(Value(whole * 10000)), Rnd(Value(amount * 10000)), whole + amount);
  }
}
