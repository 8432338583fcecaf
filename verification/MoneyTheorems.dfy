/**
  Which amounts survive the way through floating point: the chain of internal/model/money.go:20-36, and the
  parse, times one hundred, round chain of the parsers.
 */
module MoneyTheorems {
  import opened Binary64
  import opened Common
  import opened Money

  // ----- two roundings to nearest -----

  /** 100 * 2^45 and 100 * 2^46: amounts of 2^45 and 2^46 rupees. */
  const P45 := 0xC_8000_0000_0000
  const P46 := 0x19_0000_0000_0000

  /** The amounts that survive, by size: all below 2^45 rupees; then four of 25 are lost up to 2^52 paise, none up to
      2^46 rupees, and nine of 25 up to 2^53 paise; above, the odd ones are lost and an even one is like its half. */
  predicate Survives(m: nat) {
    if m < P45 then true
    else if m < LOW then m % 25 !in {2, 9, 13, 20}
    else if m < P46 then true
    else if m < HIGH then m % 25 !in {1, 4, 7, 10, 15, 18, 21, 24} && m % 50 !in {13, 37}
    else m % 2 == 0 && Survives(m / 2)
  }

  /** `q` rupees read as a float and times 100: the product before math.Round. */
  function Product(q: real): real { Fl(Fl(q) * 100.0) }

  lemma ProductDouble(q: real)
    ensures Product(2.0 * q) == 2.0 * Product(q)
  {
    FlDouble(q);
    FlDouble(Fl(q) * 100.0);
    assert 2.0 * Fl(q) * 100.0 == 2.0 * (Fl(q) * 100.0);
  }

  /** Below 2^45 rupees the two errors stay below half a paisa. */
  lemma SmallSurvive(m: nat)
    requires m < P45
    ensures Round(Product(m as real / 100.0)) == m
  {
    if m > 0 {
      var q := m as real / 100.0;
      FirstError(q);
      SecondError(Fl(q) * 100.0);
      RoundIsNearest(Product(q), m);
    }
  }

  lemma FirstError(q: real)
    requires 0.0 < q < P45 as real / 100.0
    ensures AbsReal(Fl(q) - q) <= 1.0 / 512.0
  {
    HalfUnit(256.0 * q);
    Fl128(q);
    FlDouble(128.0 * q);
    assert 2.0 * (128.0 * q) == 256.0 * q;
  }

  lemma SecondError(x: real)
    requires -0.5 < x < LOW as real
    ensures AbsReal(Fl(x) - x) <= 0.25
  {
    if x > 0.0 {
      HalfUnit(2.0 * x);
      FlDouble(x);
    } else if x < 0.0 {
      HalfUnit(-2.0 * x);
      FlDouble(-x);
      FlOdd(x);
    }
  }

  /** The float nearest to 32 m / 25 steps is j steps; d / 32 paise is the error so far. */
  lemma Residue32(m: nat, j: int)
    requires -12 <= 25 * j - 32 * m <= 12
    ensures 25 * j - 32 * m > 8 <==> m % 25 in {2, 9, 13, 20}
  {
    var k, t := m / 25, m % 25;
    assert m == 25 * k + t;
    Residue32Small(t, j - 32 * k);
  }

  lemma Residue32Small(t: nat, j: int)
    requires t < 25 && -12 <= 25 * j - 32 * t <= 12
    ensures 25 * j - 32 * t > 8 <==> t in {2, 9, 13, 20}
  {
  }

  lemma Residue16(m: nat, j: int)
    requires -12 <= 25 * j - 16 * m <= 12
    ensures var d := 25 * j - 16 * m;
            && (d > 8 || d < -8 <==> m % 25 in {1, 4, 7, 10, 15, 18, 21, 24})
            && (d == 8 || d == -8 <==> m % 25 in {12, 13})
  {
    var k, t := m / 25, m % 25;
    assert m == 25 * k + t;
    Residue16Small(t, j - 16 * k);
  }

  lemma Residue16Small(t: nat, j: int)
    requires t < 25 && -12 <= 25 * j - 16 * t <= 12
    ensures var d := 25 * j - 16 * t;
            && (d > 8 || d < -8 <==> t in {1, 4, 7, 10, 15, 18, 21, 24})
            && (d == 8 || d == -8 <==> t in {12, 13})
  {
  }

  /** From 2^45 to 2^46 rupees the float of the amount is `j` steps of 1/128 rupee, and `d` 32nds of a paisa off. */
  lemma FirstStep45(m: nat) returns (j: int, d: int)
    requires P45 <= m < P46
    ensures d == 25 * j - 32 * m && -12 <= d <= 12
    ensures Fl(m as real / 100.0) * 100.0 == m as real + d as real / 32.0
  {
    var q := m as real / 100.0;
    Fl128(q);
    FlInteger(128.0 * q);
    j := RoundEven(128.0 * q);
    d := 25 * j - 32 * m;
    assert AbsReal(32.0 * m as real / 25.0 - j as real) <= 0.5;
  }

  lemma FirstStep46(m: nat) returns (j: int, d: int)
    requires P46 <= m < 2 * P46
    ensures d == 25 * j - 16 * m && -12 <= d <= 12
    ensures Fl(m as real / 100.0) * 100.0 == m as real + d as real / 16.0
  {
    var q := m as real / 100.0;
    Fl64(q);
    FlInteger(64.0 * q);
    j := RoundEven(64.0 * q);
    d := 25 * j - 16 * m;
    assert AbsReal(16.0 * m as real / 25.0 - j as real) <= 0.5;
  }

  lemma Middle45(m: nat)
    requires P45 <= m < LOW
    ensures Round(Product(m as real / 100.0)) == m <==> Survives(m)
  {
    var j, d := FirstStep45(m);
    Residue32(m, j);
    var x := m as real + d as real / 32.0;
    FlDouble(x);
    FlInteger(2.0 * x);
    RoundEvenUnique(2.0 * x, 2 * m);
    if d > 8 {
      RoundEvenUnique(2.0 * x, 2 * m + 1);
    } else if d < -8 {
      RoundEvenUnique(2.0 * x, 2 * m - 1);
    }
  }

  lemma Upper45(m: nat)
    requires LOW <= m < P46
    ensures Product(m as real / 100.0) == m as real
  {
    var j, d := FirstStep45(m);
    if m == LOW {
      assert d == 3;
    }
    var x := m as real + d as real / 32.0;
    FlInteger(x);
    RoundEvenUnique(x, m);
  }

  lemma Upper46(m: nat)
    requires P46 <= m < HIGH
    ensures Round(Product(m as real / 100.0)) == m <==> Survives(m)
  {
    var j, d := FirstStep46(m);
    Residue16(m, j);
    var x := m as real + d as real / 16.0;
    FlInteger(x);
    RoundEvenUnique(x, m);
    ParityOfResidue(m);
  }

  lemma Mod25(q: int, r: int)
    requires 0 <= r < 25
    ensures (25 * q + r) % 25 == r
  {
  }

  lemma Mod2(q: int, r: int)
    requires 0 <= r < 2
    ensures (2 * q + r) % 2 == r
  {
  }

  lemma ParityOfResidue(m: nat)
    ensures m % 25 in {12, 13} && m % 2 == 1 <==> m % 50 in {13, 37}
  {
    var k, t := m / 50, m % 50;
    assert m == 25 * (2 * k + t / 25) + t % 25 && m == 2 * (25 * k + t / 2) + t % 2;
    Mod25(2 * k + t / 25, t % 25);
    Mod2(25 * k + t / 2, t % 2);
    ParitySmall(t);
  }

  lemma ParitySmall(t: nat)
    requires t < 50
    ensures t % 25 in {12, 13} && t % 2 == 1 <==> t in {13, 37}
  {
  }

  /** An amount read from text, which rounds once, comes back as itself exactly when it survives. */
  lemma ParsedIff(paise: int)
    requires -HIGH <= paise <= HIGH
    ensures FromRupees(Fl(paise as real / 100.0)) == paise <==> Survives(Abs(paise))
  {
    if paise < 0 {
      ParsedUpIff(-paise);
      FlOdd((-paise) as real / 100.0);
      assert -((-paise) as real / 100.0) == paise as real / 100.0;
      FromRupeesOdd(Fl((-paise) as real / 100.0));
    } else {
      ParsedUpIff(paise);
    }
  }

  lemma ParsedUpIff(m: nat)
    requires m <= HIGH
    ensures FromRupees(Fl(m as real / 100.0)) == m <==> Survives(m)
  {
    if m < P45 {
      SmallSurvive(m);
    } else if m < LOW {
      Middle45(m);
    } else if m < P46 {
      Upper45(m);
    } else if m < HIGH {
      Upper46(m);
    } else {
      Upper45(LOW);
      ProductDouble(LOW as real / 100.0);
      assert 2.0 * (LOW as real / 100.0) == HIGH as real / 100.0;
    }
  }

  // ----- amounts that are not floats themselves -----

  /** The product of the whole chain is large enough to be whole. */
  lemma LargeProduct(m: nat) returns (k: int)
    requires m >= LOW
    ensures Product(Fl(m as real) / 100.0) == k as real && k >= LOW
    ensures k > HIGH ==> k % 2 == 0
  {
    if m < P46 {
      WholeIsFloat(m);
      Upper45(m);
      k := m;
    } else {
      ChainStaysLarge(m as real);
      k := LargeFloats(Fl(Fl(m as real) / 100.0) * 100.0);
    }
  }

  lemma ChainStaysLarge(x: real)
    requires x >= P46 as real
    ensures Fl(Fl(x) / 100.0) * 100.0 >= LOW as real
  {
    var y := Fl(x);
    FlNear(x);
    NearLower(x, y);
    var z := Fl(y / 100.0);
    FlNear(y / 100.0);
    NearLower(y / 100.0, z);
  }

  lemma NearLower(x: real, y: real)
    requires x >= 0.0 && Near(x, y)
    ensures y >= x * 0.9
  {
    assert x * UNIT_ROUNDOFF <= x * 0.1;
  }

  lemma ChainDouble(n: nat)
    ensures Product(Fl((2 * n) as real) / 100.0) == 2.0 * Product(Fl(n as real) / 100.0)
  {
    FlDouble(n as real);
    assert (2 * n) as real == 2.0 * n as real;
    ProductDouble(Fl(n as real) / 100.0);
    assert 2.0 * Fl(n as real) / 100.0 == 2.0 * (Fl(n as real) / 100.0);
  }

  lemma RoundWhole(k: int)
    ensures Round(k as real) == k
  {
  }

  lemma LargeDouble(n: nat)
    requires n >= LOW
    ensures RoundTrip(2 * n) == 2 * n <==> RoundTrip(n) == n
  {
    var k := LargeProduct(n);
    ChainDouble(n);
    RoundWhole(k);
    RoundWhole(2 * k);
    assert (2 * k) as real == 2.0 * k as real;
    assert RoundTrip(n) == k;
    assert RoundTrip(2 * n) == 2 * k;
  }

  /** An odd amount from 2^53 on is no float, and neither is what comes back. */
  lemma OddIsLost(m: nat)
    requires m >= HIGH && m % 2 == 1
    ensures RoundTrip(m) != m
  {
    var k := LargeProduct(m);
    RoundIsNearest(k as real, k);
  }

  lemma {:induction false} RoundTripUpIff(m: nat)
    ensures RoundTrip(m) == m <==> Survives(m)
  {
    if m < HIGH {
      WholeIsFloat(m);
      ParsedUpIff(m);
    } else if m % 2 == 0 {
      RoundTripUpIff(m / 2);
      LargeDouble(m / 2);
    } else {
      OddIsLost(m);
    }
  }

  /** The round trip returns an amount unchanged exactly when it survives; for every integer. */
  lemma RoundTripIff(paise: int)
    ensures RoundTrip(paise) == paise <==> Survives(Abs(paise))
  {
    RoundTripUpIff(Abs(paise));
    if paise < 0 {
      RoundTripOdd(-paise);
    }
  }

  lemma RoundTripOdd(paise: int)
    ensures RoundTrip(-paise) == -RoundTrip(paise)
  {
    FlOdd(paise as real);
    assert (-paise) as real == -(paise as real);
    assert -Fl(paise as real) / 100.0 == -(Fl(paise as real) / 100.0);
    FlOdd(Fl(paise as real) / 100.0);
    FromRupeesOdd(Rupees(paise));
  }

  /** All amounts up to a bound survive exactly when the bound is below 3518437208883202 paise. */
  lemma AllSurviveIff(bound: nat)
    ensures (forall m: int | Abs(m) <= bound :: RoundTrip(m) == m) <==> bound < P45 + 2
  {
    FirstMiss();
    if bound >= P45 + 2 {
      assert RoundTrip(P45 + 2) != P45 + 2;
    }
  }

  /** The first amount that is lost: 3518437208883202 paise come back as one more; every smaller one survives. */
  lemma FirstMiss()
    ensures RoundTrip(P45 + 2) == P45 + 3
    ensures forall m: int | Abs(m) < P45 + 2 :: RoundTrip(m) == m
  {
    forall m: int | Abs(m) < P45 + 2 ensures RoundTrip(m) == m {
      RoundTripIff(m);
    }
    var m := P45 + 2;
    WholeIsFloat(m);
    var j, d := FirstStep45(m);
    assert d == 11;
    var x := m as real + d as real / 32.0;
    FlDouble(x);
    FlInteger(2.0 * x);
    RoundEvenUnique(2.0 * x, 2 * m + 1);
  }

  // ----- amounts near zero -----

  lemma Fl18(x: real)
    ensures Fl(262144.0 * x) == 262144.0 * Fl(x)
  {
    Fl64(x);
    Fl64(64.0 * x);
    Fl64(4096.0 * x);
    assert 64.0 * (64.0 * x) == 4096.0 * x && 64.0 * (4096.0 * x) == 262144.0 * x;
  }

  /** 2^54. */
  const SCALE: real := 18014398509481984.0

  lemma Fl54(x: real)
    ensures Fl(SCALE * x) == SCALE * Fl(x)
  {
    Fl18(x);
    Fl18(262144.0 * x);
    Fl18(68719476736.0 * x);
    assert 262144.0 * (262144.0 * x) == 68719476736.0 * x;
    assert 262144.0 * (68719476736.0 * x) == SCALE * x;
  }

  /** Half a paisa, less a quarter of the float spacing there: what rounds up to half a paisa. */
  const HALF: real := 0.5 - 0.5 / SCALE

  lemma QuarterUp(x: real)
    requires 0.25 <= x < 0.5
    ensures Fl(x) >= 0.5 <==> x >= HALF
    ensures Fl(x) >= 0.25
  {
    Fl54(x);
    var y := SCALE * x;
    FlInteger(y);
    RoundEvenUnique(y, HIGH);
    assert SCALE * 0.5 == HIGH as real && SCALE * HALF == HIGH as real - 0.5;
  }

  lemma HalfUp(x: real)
    requires 0.5 <= x < 1.0
    ensures Fl(x) >= 0.5
  {
    Fl54(x);
    var y := SCALE / 2.0 * x;
    FlDouble(y);
    assert 2.0 * y == SCALE * x;
    FlInteger(y);
  }

  lemma RoundPositive(y: real)
    requires y >= 0.0
    ensures Round(y) >= 0
    ensures Round(y) > 0 <==> y >= 0.5
  {
  }

  /** A product is stored as a positive amount exactly when it is at least that. */
  lemma PositiveIff(x: real)
    requires x > 0.0
    ensures Round(Fl(x)) >= 0
    ensures Round(Fl(x)) > 0 <==> x >= HALF
  {
    RoundPositive(Fl(x));
    if x < 0.25 {
      FlNear(x);
      NearUpper(x, Fl(x));
    } else if x < 0.5 {
      QuarterUp(x);
    } else if x < 1.0 {
      HalfUp(x);
    } else {
      FlNear(x);
      NearLower(x, Fl(x));
    }
  }

  lemma NearUpper(x: real, y: real)
    requires x >= 0.0 && Near(x, y)
    ensures y <= x * 1.1
  {
    assert x * UNIT_ROUNDOFF <= x * 0.1;
  }

  // ----- whichever way the operations round -----

  /** 2^51. */
  const LIMIT := 0x8_0000_0000_0000

  /** `rupees` is a possible float for the exact amount of `paise`, and `product` for that float times 100. */
  predicate Chain(paise: int, rupees: real, product: real) {
    Near(paise as real / 100.0, rupees) && Near(rupees * 100.0, product)
  }

  lemma MulMono(x: real, y: real, k: real)
    requires x <= y && k >= 0.0
    ensures x * k <= y * k
  {
  }

  /** The error of two operations, relative to the exact amount. */
  function TwoUnits(u: real): real { 2.0 * u + u * u }

  lemma TwoUnitsExpand(a: real, u: real)
    ensures (a + a * u) * u + a * u == a * TwoUnits(u)
  {
    assert a * TwoUnits(u) == a * (2.0 * u) + a * (u * u);
    assert a * u * u == a * (u * u);
  }

  lemma Triangle(m: real, r: real, p: real, d: real, e: real)
    requires AbsReal(r - m) <= d && AbsReal(p - r) <= e
    ensures AbsReal(p - m) <= d + e && AbsReal(r) <= AbsReal(m) + d
  {
  }

  /** Two operations of relative error `u` have relative error at most 2u + u*u. */
  lemma TwoErrors(m: real, r: real, p: real, u: real)
    requires u >= 0.0 && Within(m, r, u) && Within(r, p, u)
    ensures Within(m, p, TwoUnits(u))
  {
    var a, b := AbsReal(m), AbsReal(r);
    Triangle(m, r, p, a * u, b * u);
    MulMono(b, a + a * u, u);
    TwoUnitsExpand(a, u);
  }

  lemma Scale(x: real, y: real, u: real)
    requires Within(x / 100.0, y, u)
    ensures Within(x, y * 100.0, u)
  {
    assert AbsReal(x / 100.0) == AbsReal(x) / 100.0;
    assert AbsReal(x) / 100.0 * u == AbsReal(x) * u / 100.0;
  }

  lemma ChainWithin(m: real, rupees: real, product: real, u: real)
    requires u >= 0.0 && Within(m / 100.0, rupees, u) && Within(rupees * 100.0, product, u)
    ensures Within(m, product, TwoUnits(u))
  {
    Scale(m, rupees, u);
    TwoErrors(m, rupees * 100.0, product, u);
  }

  /** The error of a whole chain, relative to its amount. */
  const CHAIN := TwoUnits(UNIT_ROUNDOFF)

  lemma LimitSuffices()
    ensures (LIMIT - 1) as real * CHAIN < 0.5
    ensures UNIT_ROUNDOFF > 0.0 && CHAIN > 0.0
  {
  }

  lemma BelowHalf(e: real, a: real, top: real, k: real)
    requires k >= 0.0 && a <= top && top * k < 0.5 && e <= a * k
    ensures e < 0.5
  {
    assert (top - a) * k >= 0.0;
    assert (top - a) * k == top * k - a * k;
  }

  lemma AbsBelow(paise: int)
    requires -LIMIT < paise < LIMIT
    ensures AbsReal(paise as real) <= (LIMIT - 1) as real
  {
  }

  /** Below 2^51 paise every float chain returns exactly the amount it started from. */
  lemma ChainExact(paise: int, rupees: real, product: real)
    requires Chain(paise, rupees, product)
    requires -LIMIT < paise < LIMIT
    ensures Round(product) == paise
  {
    LimitSuffices();
    ChainWithin(paise as real, rupees, product, UNIT_ROUNDOFF);
    AbsBelow(paise);
    BelowHalf(AbsReal(product - paise as real), AbsReal(paise as real), (LIMIT - 1) as real, CHAIN);
    RoundIsNearest(product, paise);
  }
}
