/**
  Rupees and paise through floating point (internal/model/money.go, and the same parse, times one
  hundred, round chain in internal/importer/parser/sbi.go and internal/store/zerodha_store.go).
 */
module Money {
  import opened Binary64

  /** math.Round: to the nearest integer, halves away from zero. */
  function Round(x: real): int {
    if x < 0.0 then -((0.5 - x).Floor) else (x + 0.5).Floor
  }

  /** It is the nearest integer, and the larger one in magnitude when two are equally near. */
  lemma RoundIsNearest(x: real, n: int)
    ensures AbsReal(x - Round(x) as real) <= 0.5
    ensures Round(x) == n ==> AbsReal(x - n as real) <= 0.5
    ensures AbsReal(x - n as real) < 0.5 ==> Round(x) == n
    ensures AbsReal(x - n as real) == 0.5 ==> (Round(x) == n <==> AbsReal(n as real) > AbsReal(x))
  {
  }

  // ----- the conversions -----

  /** float64(m) / 100: the conversion rounds, and so does the division. */
  function Rupees(paise: int): real { Fl(Fl(paise as real) / 100.0) }

  /** math.Round(r * 100), which FromRupees, rupeesToPaise, the parsers and the interest rate share. */
  function FromRupees(rupees: real): int { Round(Fl(rupees * 100.0)) }

  /** An amount there and back. */
  function RoundTrip(paise: int): int { FromRupees(Rupees(paise)) }

  lemma RoundOdd(x: real)
    ensures Round(-x) == -Round(x)
  {
  }

  lemma FromRupeesOdd(rupees: real)
    ensures FromRupees(-rupees) == -FromRupees(rupees)
  {
    assert -rupees * 100.0 == -(rupees * 100.0);
    FlOdd(rupees * 100.0);
    RoundOdd(Fl(rupees * 100.0));
  }

  lemma RoundNear(x: real, y: real, e: real)
    requires AbsReal(y - x) <= e
    ensures AbsReal(x - Round(y) as real) <= 0.5 + e
  {
    RoundIsNearest(y, 0);
  }

  /** `n` is `x` to the nearest whole number, up to the rounding of one float operation. */
  predicate Nearest(x: real, n: int) { AbsReal(x - n as real) <= 0.5 + AbsReal(x) * UNIT_ROUNDOFF }

  lemma RoundIsNear(x: real, y: real)
    requires Near(x, y)
    ensures Nearest(x, Round(y))
  {
    RoundNear(x, y, AbsReal(x) * UNIT_ROUNDOFF);
  }

  /** The result is the amount to the nearest paisa, up to the rounding of the product. */
  lemma FromRupeesNearest(rupees: real)
    ensures Nearest(rupees * 100.0, FromRupees(rupees))
  {
    FlNear(rupees * 100.0);
    RoundIsNear(rupees * 100.0, Fl(rupees * 100.0));
  }
}
