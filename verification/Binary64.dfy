/**
  Float arithmetic: the rounding of IEEE 754-2019 binary64 to nearest, ties to even (section 4.3.1), over an
  unbounded exponent range.  Between 2^52 and 2^53 the floats are the integers; everywhere else they are these,
  scaled by a power of two.
 */
module Binary64 {

  /** 2^52 and 2^53. */
  const LOW := 0x10_0000_0000_0000
  const HIGH := 0x20_0000_0000_0000

  function AbsReal(x: real): real { if x < 0.0 then -x else x }

  /** The nearest integer, the even one of two equally near. */
  function RoundEven(x: real): (n: int)
    ensures AbsReal(x - n as real) <= 0.5
    ensures AbsReal(x - n as real) == 0.5 ==> n % 2 == 0
  {
    var f := x.Floor;
    var d := x - f as real;
    if d < 0.5 || (d == 0.5 && f % 2 == 0) then f else f + 1
  }

  /** Only one integer is within half of `x`, or at half and even. */
  lemma RoundEvenUnique(x: real, n: int)
    ensures RoundEven(x) == n
            <==> AbsReal(x - n as real) < 0.5 || (AbsReal(x - n as real) == 0.5 && n % 2 == 0)
  {
  }

  /** The float nearest to a positive number. */
  function FlPos(x: real): (y: real)
    requires x > 0.0
    ensures y > 0.0
    decreases Distance(x)
  {
    if x >= HIGH as real then Closer(x); 2.0 * FlPos(x / 2.0)
    else if x < LOW as real then Closer(x); FlPos(2.0 * x) / 2.0
    else RoundEven(x) as real
  }

  /** How far `x` is from the binade of the integers. */
  function Distance(x: real): nat
    requires x > 0.0
  {
    if x < LOW as real then HIGH + (LOW as real / x).Floor else x.Floor
  }

  lemma Closer(x: real)
    requires x > 0.0
    ensures x >= HIGH as real ==> Distance(x / 2.0) < Distance(x)
    ensures x < LOW as real ==> Distance(2.0 * x) < Distance(x)
  {
    if x < LOW as real {
      var q := LOW as real / x;
      assert q > 1.0;
      assert LOW as real / (2.0 * x) == q / 2.0;
    }
  }

  /** The float nearest to any number: what one float operation returns for its exact result. */
  function Fl(x: real): real {
    if x == 0.0 then 0.0 else if x < 0.0 then -FlPos(-x) else FlPos(x)
  }

  /** The float product. */
  function FlTimes(x: real, y: real): real { Fl(x * y) }

  lemma FlOdd(x: real)
    ensures Fl(-x) == -Fl(x)
  {
  }

  /** Scaling by two commutes with rounding. */
  lemma FlDouble(x: real)
    ensures Fl(2.0 * x) == 2.0 * Fl(x)
  {
    if x > 0.0 {
      FlPosDouble(x);
    } else if x < 0.0 {
      FlPosDouble(-x);
      assert -(2.0 * x) == 2.0 * -x;
    }
  }

  lemma FlPosDouble(x: real)
    requires x > 0.0
    ensures FlPos(2.0 * x) == 2.0 * FlPos(x)
  {
    if x >= LOW as real {
      assert 2.0 * x / 2.0 == x;
    }
  }

  /** In the binade of the integers. */
  lemma FlInteger(x: real)
    requires LOW as real <= x < HIGH as real
    ensures Fl(x) == RoundEven(x) as real
  {
  }

  lemma FlFourfold(x: real)
    ensures Fl(4.0 * x) == 4.0 * Fl(x)
  {
    FlDouble(x);
    FlDouble(2.0 * x);
    assert 2.0 * (2.0 * x) == 4.0 * x;
  }

  /** Between 2^45 and 2^46 the floats are the multiples of 1/128. */
  lemma Fl128(x: real)
    ensures Fl(128.0 * x) == 128.0 * Fl(x)
  {
    Fl64(x);
    FlDouble(64.0 * x);
    assert 2.0 * (64.0 * x) == 128.0 * x;
  }

  lemma Fl64(x: real)
    ensures Fl(64.0 * x) == 64.0 * Fl(x)
  {
    FlFourfold(x);
    FlFourfold(4.0 * x);
    FlFourfold(16.0 * x);
    assert 4.0 * (4.0 * x) == 16.0 * x && 4.0 * (16.0 * x) == 64.0 * x;
  }

  // ----- the error of one rounding -----

  lemma {:induction false} HalfUnit(x: real)
    requires 0.0 < x < HIGH as real
    ensures AbsReal(Fl(x) - x) <= 0.5
    decreases Distance(x)
  {
    if x < LOW as real {
      Closer(x);
      HalfUnit(2.0 * x);
      FlDouble(x);
    }
  }

  /** 2^-53. */
  const UNIT_ROUNDOFF: real := 1.0 / (HIGH as real)

  /** `y` is within relative error `u` of `x`. */
  predicate Within(x: real, y: real, u: real) {
    AbsReal(y - x) <= AbsReal(x) * u
  }

  /** `y` may be the float result of an operation whose exact result is `x`, whichever way it rounds. */
  predicate Near(x: real, y: real) { Within(x, y, UNIT_ROUNDOFF) }

  lemma {:induction false} FlPosNear(x: real)
    requires x > 0.0
    ensures Near(x, FlPos(x))
    decreases Distance(x)
  {
    if x >= HIGH as real {
      Closer(x);
      FlPosNear(x / 2.0);
      NearDouble(x / 2.0, FlPos(x / 2.0));
    } else if x < LOW as real {
      Closer(x);
      FlPosNear(2.0 * x);
      NearHalf(2.0 * x, FlPos(2.0 * x));
    } else {
      HalfIsSmall(x);
      assert FlPos(x) == RoundEven(x) as real;
    }
  }

  lemma HalfIsSmall(x: real)
    requires x >= LOW as real
    ensures 0.5 <= x * UNIT_ROUNDOFF
  {
    assert (x - LOW as real) * UNIT_ROUNDOFF >= 0.0;
    assert LOW as real * UNIT_ROUNDOFF == 0.5;
    assert (x - LOW as real) * UNIT_ROUNDOFF == x * UNIT_ROUNDOFF - LOW as real * UNIT_ROUNDOFF;
  }

  lemma NearDouble(x: real, y: real)
    requires x > 0.0 && Near(x, y)
    ensures Near(2.0 * x, 2.0 * y)
  {
    assert 2.0 * x * UNIT_ROUNDOFF == 2.0 * (x * UNIT_ROUNDOFF);
  }

  lemma NearHalf(x: real, y: real)
    requires x > 0.0 && Near(x, y)
    ensures Near(x / 2.0, y / 2.0)
  {
    assert x / 2.0 * UNIT_ROUNDOFF == x * UNIT_ROUNDOFF / 2.0;
  }

  /** Every rounding is within relative error 2^-53. */
  lemma FlNear(x: real)
    ensures Near(x, Fl(x))
  {
    if x > 0.0 {
      FlPosNear(x);
    } else if x < 0.0 {
      FlPosNear(-x);
      NearOdd(-x, FlPos(-x));
    }
  }

  lemma NearOdd(x: real, y: real)
    requires Near(x, y)
    ensures Near(-x, -y)
  {
    assert AbsReal(-x) == AbsReal(x) && AbsReal(-y - -x) == AbsReal(y - x);
  }

  // ----- integers -----

  /** Whole numbers up to 2^53 are floats. */
  lemma {:induction false} WholeIsFloat(n: int)
    requires -HIGH <= n <= HIGH
    ensures Fl(n as real) == n as real
    decreases if n < 0 then 1 else 0, HIGH - n
  {
    if n < 0 {
      WholeIsFloat(-n);
      FlOdd((-n) as real);
    } else if n == HIGH {
      FlDouble(LOW as real);
    } else if 0 < n < LOW {
      WholeIsFloat(2 * n);
      FlDouble(n as real);
    }
  }

  lemma {:induction false} LargeIsWhole(x: real) returns (k: int)
    requires x >= LOW as real
    ensures FlPos(x) == k as real && k >= LOW
    decreases Distance(x)
  {
    if x >= HIGH as real {
      Closer(x);
      var h := LargeIsWhole(x / 2.0);
      k := 2 * h;
      assert k as real == 2.0 * h as real;
    } else {
      k := RoundEven(x);
    }
  }

  /** From 2^52 on every float is a whole number, and one above 2^53 is even. */
  lemma LargeFloats(x: real) returns (k: int)
    requires x >= LOW as real
    ensures Fl(x) == k as real && k >= LOW
    ensures k > HIGH ==> k % 2 == 0
  {
    if x >= HIGH as real {
      var h := LargeIsWhole(x / 2.0);
      k := 2 * h;
    } else {
      k := RoundEven(x);
    }
  }
}
