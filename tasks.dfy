/**
 * The task records the engine works on, the planning mode, and the
 * small real-valued helpers (min, max, clipping) its column formulas use.
 */
module Tasks {

  /** One row of the user's task table. */
  datatype Task = Task(
    name: string,
    daysLeft: int,
    estHours: real,
    strategicImportance: int,
    businessImpact: int,
    dependencyRisk: bool
  )

  /**
   * The planning mode. The engine compares the mode string against
   * "Academic" and "Operational"; every other string selects the
   * balanced fallback.
   */
  datatype Mode = Academic | Operational | Balanced

  function ModeOf(name: string): (m: Mode)
    ensures m == Academic <==> name == "Academic"
    ensures m == Operational <==> name == "Operational"
    ensures m == Balanced <==> name != "Academic" && name != "Operational"
  {
    if name == "Academic" then Academic
    else if name == "Operational" then Operational
    else Balanced
  }

  function MinReal(a: real, b: real): real {
    if a <= b then a else b
  }

  function MaxReal(a: real, b: real): real {
    if a >= b then a else b
  }

  function MinInt(a: int, b: int): int {
    if a <= b then a else b
  }

  function MaxInt(a: int, b: int): int {
    if a >= b then a else b
  }

  lemma ScaleMonotone(u: real, x: real, y: real)
    requires u >= 0.0 && x <= y
    ensures u * x <= u * y
  {
    assert u * (y - x) >= 0.0;
    assert u * (y - x) == u * y - u * x;
  }

  lemma ProductCancel(a: real, b: real, x: real)
    requires x > 0.0 && a * x <= b * x
    ensures a <= b
  {
    assert (b - a) * x == b * x - a * x;
  }

  /** A count out of a positive total, as a fraction, lies in [0, 1]. */
  lemma FractionInUnit(h: real, n: real)
    requires 0.0 <= h <= n && n > 0.0
    ensures 0.0 <= h / n <= 1.0
  {
    var q := h / n;
    assert q * n == h;
    assert 1.0 * n == n && 0.0 * n == 0.0;
    ProductCancel(q, 1.0, n);
    ProductCancel(0.0, q, n);
  }

  /** A 1..5 rating, the range the input form offers. */
  predicate RatingInRange(v: int) {
    1 <= v <= 5
  }
}
