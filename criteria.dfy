/** The three rotation criteria. Each supplies the numerator x and the
    denominator y whose atan2, divided by four, is the angle of one pair
    rotation; they differ only in how the column sums a and b are weighted. */
module Criteria {

  datatype Criterion = Varimax | Equimax | Quartimax

  /** The criterion's x(a, b, c, d) for n variables and m factors. Only
      Varimax and Equimax divide by n. */
  function X(criterion: Criterion, a: real, b: real, c: real, d: real, n: nat, m: nat): real
    requires n > 0 || criterion == Quartimax
  {
    match criterion
    case Varimax => d - (2.0 * a * b / n as real)
    case Equimax => d - (m as real * a * b / n as real)
    case Quartimax => d
  }

  /** The criterion's y(a, b, c, d) for n variables and m factors. */
  function Y(criterion: Criterion, a: real, b: real, c: real, d: real, n: nat, m: nat): real
    requires n > 0 || criterion == Quartimax
  {
    match criterion
    case Varimax => c - ((a * a - b * b) / n as real)
    case Equimax => c - m as real * ((a * a - b * b) / (2.0 * n as real))
    case Quartimax => c
  }

  /** The orthomax family: numerator and denominator with weight gamma on
      the column sums. */
  function OrthomaxX(gamma: real, a: real, b: real, d: real, n: nat): real
    requires n > 0
  {
    d - 2.0 * gamma * (a * b) / n as real
  }

  function OrthomaxY(gamma: real, a: real, b: real, c: real, n: nat): real
    requires n > 0
  {
    c - gamma * (a * a - b * b) / n as real
  }

  /** The orthomax weight of each criterion: 1 for Varimax, m / 2 for
      Equimax, 0 for Quartimax. */
  function Weight(criterion: Criterion, m: nat): real
  {
    match criterion
    case Varimax => 1.0
    case Equimax => m as real / 2.0
    case Quartimax => 0.0
  }

  /** Every criterion is the orthomax criterion with its weight. */
  lemma {:induction false} CriteriaAreOrthomax(criterion: Criterion, a: real, b: real, c: real, d: real, n: nat, m: nat)
    requires n > 0
    ensures X(criterion, a, b, c, d, n, m) == OrthomaxX(Weight(criterion, m), a, b, d, n)
    ensures Y(criterion, a, b, c, d, n, m) == OrthomaxY(Weight(criterion, m), a, b, c, n)
  {
  }

  /** With two factors the Equimax weight m / 2 is 1, so Equimax is Varimax. */
  lemma {:induction false} EquimaxIsVarimaxForTwoFactors(a: real, b: real, c: real, d: real, n: nat)
    requires n > 0
    ensures X(Equimax, a, b, c, d, n, 2) == X(Varimax, a, b, c, d, n, 2)
    ensures Y(Equimax, a, b, c, d, n, 2) == Y(Varimax, a, b, c, d, n, 2)
  {
    CriteriaAreOrthomax(Equimax, a, b, c, d, n, 2);
    CriteriaAreOrthomax(Varimax, a, b, c, d, n, 2);
  }
}
