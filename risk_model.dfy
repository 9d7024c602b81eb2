/**
 * The per-task failure-risk model and the impact-weighted stress index.
 *
 * The logistic function is a parameter `sigma`: every range fact below
 * holds for any `sigma`, because the model clips its output to [0, 1] as
 * the engine does; the monotonicity facts assume only that `sigma` is
 * monotone, which the logistic function is.
 */
module RiskModel {
  import opened Wrappers
  import opened Tasks

  /** The guard the engine adds to every denominator. */
  const EPS: real := 0.000000001

  const BIAS: real := -1.2
  const W_OVERLOAD: real := 1.8
  const W_COMPETITION: real := 1.2
  const W_URGENCY: real := 1.1
  const W_DEPENDENCY: real := 0.7

  /** The columns the model reads, in the order it checks them. */
  const REQUIRED_COLUMNS: seq<string> :=
    ["name", "days_left", "est_hours", "strategic_importance", "business_impact", "dependency_risk"]

  predicate HasRequiredColumns(table: Table) {
    forall c :: c in REQUIRED_COLUMNS ==> c in table.columns
  }

  /** The one structural error: a required column is absent. */
  datatype Error = KeyError(column: string)

  /** A task table: the columns it carries and its rows. */
  datatype Table = Table(columns: set<string>, rows: seq<Task>)

  /** The task (with clamped days and hours) plus every column the model adds. */
  datatype RiskRow = RiskRow(
    task: Task,
    deadlineWindowDays: int,
    capacityBeforeDeadline: real,
    slackHours: real,
    overloadSeverity: real,
    overloadNorm: real,
    urgency: real,
    competitionPressure: real,
    dep: int,
    impactWeight: real,
    riskScore: real,
    failureProbability: real,
    expectedImpact: real,
    expectedLossHours: real
  )

  ghost predicate Monotone(sigma: real -> real) {
    forall x, y :: x <= y ==> sigma(x) <= sigma(y)
  }

  ghost predicate IntoOpenUnit(sigma: real -> real) {
    forall x :: 0.0 < sigma(x) < 1.0
  }

  // ---------------------------------------------------------------
  // Column check and clamping
  // ---------------------------------------------------------------

  /** The first name of `required` that `columns` lacks, if any. */
  function FirstMissing(required: seq<string>, columns: set<string>): (m: Option<string>)
    ensures m.None? <==> forall k :: 0 <= k < |required| ==> required[k] in columns
    ensures m.Some? ==> exists k :: 0 <= k < |required| && required[k] == m.value && m.value !in columns &&
                                     forall j :: 0 <= j < k ==> required[j] in columns
  {
    if required == [] then None
    else if required[0] !in columns then Some(required[0])
    else
      var rest := FirstMissing(required[1..], columns);
      if rest.Some? then
        var k :| 0 <= k < |required| - 1 && required[1..][k] == rest.value && rest.value !in columns &&
                 forall j :: 0 <= j < k ==> required[1..][j] in columns;
        assert required[k + 1] == rest.value;
        assert forall j :: 0 <= j < k + 1 ==> required[j] in columns by {
          forall j | 0 <= j < k + 1 ensures required[j] in columns {
            if j > 0 { assert required[j] == required[1..][j - 1]; }
          }
        }
        rest
      else
        assert forall k :: 0 <= k < |required| ==> required[k] in columns by {
          forall k | 0 <= k < |required| ensures required[k] in columns {
            if k > 0 { assert required[k] == required[1..][k - 1]; }
          }
        }
        rest
  }

  /** Days left floored at 1, estimated hours floored at 0; nothing else changes. */
  function ClampTask(t: Task): (c: Task)
    ensures c.daysLeft >= 1 && c.estHours >= 0.0
    ensures t.daysLeft >= 1 ==> c.daysLeft == t.daysLeft
    ensures t.daysLeft < 1 ==> c.daysLeft == 1
    ensures t.estHours >= 0.0 ==> c.estHours == t.estHours
    ensures t.estHours < 0.0 ==> c.estHours == 0.0
    ensures c == t.(daysLeft := c.daysLeft, estHours := c.estHours)
  {
    t.(daysLeft := MaxInt(t.daysLeft, 1), estHours := MaxReal(t.estHours, 0.0))
  }

  function ClampAll(rows: seq<Task>): (out: seq<Task>)
    ensures |out| == |rows|
    ensures forall k :: 0 <= k < |out| ==> out[k] == ClampTask(rows[k])
  {
    seq(|rows|, k requires 0 <= k < |rows| => ClampTask(rows[k]))
  }

  predicate Clamped(rows: seq<Task>) {
    forall k :: 0 <= k < |rows| ==> rows[k].daysLeft >= 1 && rows[k].estHours >= 0.0
  }

  // ---------------------------------------------------------------
  // Column formulas
  // ---------------------------------------------------------------

  /** The part of the horizon before the task's deadline. */
  function DeadlineWindow(daysLeft: int, horizon: int): (w: int)
    requires daysLeft >= 1 && horizon >= 1
    ensures 1 <= w <= horizon && w <= daysLeft
    ensures w == daysLeft || w == horizon
  {
    MinInt(daysLeft, horizon)
  }

  /** Hours by which the required work exceeds the window's capacity, or 0. */
  function OverloadSeverity(estHours: real, windowCapacity: real): (s: real)
    ensures s >= 0.0 && s >= estHours - windowCapacity
    ensures s == 0.0 || s == estHours - windowCapacity
    ensures s == 0.0 <==> estHours <= windowCapacity
  {
    MaxReal(-(windowCapacity - estHours), 0.0)
  }

  /** Sum of the hours of every task due no later than day `d`. */
  function CompetingHours(rows: seq<Task>, d: int): (h: real)
    ensures Clamped(rows) ==> h >= 0.0
  {
    if rows == [] then 0.0
    else (if rows[0].daysLeft <= d then rows[0].estHours else 0.0) + CompetingHours(rows[1..], d)
  }

  /** How far the competing hours oversubscribe the window, as a fraction; 0 when they fit. */
  function CompetitionPressure(competing: real, windowCapacity: real): (p: real)
    requires windowCapacity > 0.0
    ensures p >= 0.0
    ensures p > 0.0 <==> competing > windowCapacity + EPS
    ensures competing <= windowCapacity ==> p == 0.0
  {
    var ratio := competing / (windowCapacity + EPS);
    RatioAboveOne(competing, windowCapacity + EPS);
    MaxReal(0.0, ratio - 1.0)
  }

  lemma RatioAboveOne(a: real, d: real)
    requires d > 0.0
    ensures a / d > 1.0 <==> a > d
  {
    var q := a / d;
    assert q * d == a;
    if q > 1.0 {
      assert (q - 1.0) * d > 0.0;
    } else {
      assert (1.0 - q) * d >= 0.0;
    }
  }

  /** The strategic/business composite, floored at 0.1. */
  function ImpactWeight(strategic: int, business: int): (w: real)
    ensures w >= 0.1
    ensures RatingInRange(strategic) && RatingInRange(business) ==> w <= 1.0
    ensures w == 0.1 || w * 5.0 == 0.5 * (strategic as real) + 0.5 * (business as real)
  {
    MaxReal(0.1, (0.5 * (strategic as real) + 0.5 * (business as real)) / 5.0)
  }

  /** 1.0 for a clipped value above 1, 0.0 below 0, the value itself in between. */
  function Clip01(x: real): (c: real)
    ensures 0.0 <= c <= 1.0
    ensures 0.0 <= x <= 1.0 ==> c == x
  {
    if x < 0.0 then 0.0 else if x > 1.0 then 1.0 else x
  }

  function RiskScore(overloadNorm: real, competition: real, urgency: real, dep: int): real {
    BIAS + W_OVERLOAD * overloadNorm + W_COMPETITION * competition + W_URGENCY * urgency
    + W_DEPENDENCY * (dep as real)
  }

  /** Days of capacity before the deadline times hours per day. */
  function WindowCapacity(window: int, capacity: real): (c: real)
    requires window >= 1 && capacity > 0.0
    ensures c >= capacity
    ensures c == (window as real) * capacity
  {
    assert ((window as real) - 1.0) * capacity >= 0.0;
    (window as real) * capacity
  }

  /** Overload in units of days of capacity. */
  function OverloadNorm(severity: real, capacity: real): (n: real)
    requires severity >= 0.0 && capacity > 0.0
    ensures n >= 0.0
    ensures n == 0.0 <==> severity == 0.0
  {
    NonNegQuotient(severity, capacity + EPS);
    severity / (capacity + EPS)
  }

  function Urgency(daysLeft: int): (u: real)
    requires daysLeft >= 1
    ensures 0.0 < u <= 1.0
    ensures u * (daysLeft as real) == 1.0
  {
    UnitQuotient(daysLeft as real);
    1.0 / (daysLeft as real)
  }

  /** The probability times a non-negative magnitude, which it never exceeds. */
  function Expected(fp: real, magnitude: real): (e: real)
    requires 0.0 <= fp <= 1.0 && magnitude >= 0.0
    ensures 0.0 <= e <= magnitude
    ensures e == fp * magnitude
  {
    ScaleBound(fp, magnitude);
    fp * magnitude
  }

  /** Normalised overload of a clamped task at the given hours per day. */
  function OverloadNormAt(t: Task, capacity: real, horizon: int): real
    requires t.daysLeft >= 1 && capacity > 0.0 && horizon >= 1
  {
    var windowCap := WindowCapacity(DeadlineWindow(t.daysLeft, horizon), capacity);
    OverloadNorm(OverloadSeverity(t.estHours, windowCap), capacity)
  }

  /** Competition pressure of a clamped task at the given hours per day. */
  function CompetitionAt(t: Task, competing: real, capacity: real, horizon: int): real
    requires t.daysLeft >= 1 && capacity > 0.0 && horizon >= 1
  {
    CompetitionPressure(competing, WindowCapacity(DeadlineWindow(t.daysLeft, horizon), capacity))
  }

  function DepFlag(dependencyRisk: bool): (dep: int)
    ensures dep == 1 <==> dependencyRisk
    ensures dep == 0 <==> !dependencyRisk
  {
    if dependencyRisk then 1 else 0
  }

  /** The linear risk score of a clamped task at the given hours per day. */
  function RiskAt(t: Task, competing: real, capacity: real, horizon: int): real
    requires t.daysLeft >= 1 && capacity > 0.0 && horizon >= 1
  {
    RiskScore(OverloadNormAt(t, capacity, horizon), CompetitionAt(t, competing, capacity, horizon),
              Urgency(t.daysLeft), DepFlag(t.dependencyRisk))
  }

  /** The risk row of one clamped task, given the hours competing for its window. */
  function AssessRow(t: Task, competing: real, capacity: real, horizon: int, sigma: real -> real): (r: RiskRow)
    requires t.daysLeft >= 1 && t.estHours >= 0.0
    requires capacity > 0.0 && horizon >= 1
    ensures r.task == t
    ensures r.overloadNorm == OverloadNormAt(t, capacity, horizon)
    ensures r.competitionPressure == CompetitionAt(t, competing, capacity, horizon)
    ensures r.riskScore == RiskAt(t, competing, capacity, horizon)
    ensures r.failureProbability == Clip01(sigma(r.riskScore))
    ensures r.impactWeight == ImpactWeight(t.strategicImportance, t.businessImpact)
    ensures r.competitionPressure > 0.0 <==> competing > r.capacityBeforeDeadline + EPS
  {
    var window := DeadlineWindow(t.daysLeft, horizon);
    var windowCap := WindowCapacity(window, capacity);
    var severity := OverloadSeverity(t.estHours, windowCap);
    var impact := ImpactWeight(t.strategicImportance, t.businessImpact);
    var risk := RiskAt(t, competing, capacity, horizon);
    var fp := Clip01(sigma(risk));
    RiskRow(t, window, windowCap, windowCap - t.estHours, severity, OverloadNormAt(t, capacity, horizon),
            Urgency(t.daysLeft), CompetitionAt(t, competing, capacity, horizon), DepFlag(t.dependencyRisk),
            impact, risk, fp, Expected(fp, impact), Expected(fp, t.estHours))
  }

  /** Every risk row the model produces satisfies the range facts. */
  lemma AssessRowFacts(t: Task, competing: real, capacity: real, horizon: int, sigma: real -> real)
    requires t.daysLeft >= 1 && t.estHours >= 0.0
    requires capacity > 0.0 && horizon >= 1
    ensures RowFacts(AssessRow(t, competing, capacity, horizon, sigma), capacity, horizon)
  {
    var r := AssessRow(t, competing, capacity, horizon, sigma);
    WindowFactsHold(t, competing, capacity, horizon, sigma);
    OutcomeFactsHold(t, competing, capacity, horizon, sigma);
  }

  lemma WindowFactsHold(t: Task, competing: real, capacity: real, horizon: int, sigma: real -> real)
    requires t.daysLeft >= 1 && t.estHours >= 0.0
    requires capacity > 0.0 && horizon >= 1
    ensures WindowFacts(AssessRow(t, competing, capacity, horizon, sigma), capacity, horizon)
  {
    var r := AssessRow(t, competing, capacity, horizon, sigma);
    var window := DeadlineWindow(t.daysLeft, horizon);
    var windowCap := WindowCapacity(window, capacity);
    var severity := OverloadSeverity(t.estHours, windowCap);
    assert r.deadlineWindowDays == window && r.capacityBeforeDeadline == windowCap;
    assert r.slackHours == windowCap - t.estHours && r.overloadSeverity == severity;
    assert r.overloadNorm == OverloadNorm(severity, capacity);
    assert r.urgency == Urgency(t.daysLeft);
  }

  lemma OutcomeFactsHold(t: Task, competing: real, capacity: real, horizon: int, sigma: real -> real)
    requires t.daysLeft >= 1 && t.estHours >= 0.0
    requires capacity > 0.0 && horizon >= 1
    ensures OutcomeFacts(AssessRow(t, competing, capacity, horizon, sigma))
  {
    var r := AssessRow(t, competing, capacity, horizon, sigma);
    var fp := r.failureProbability;
    assert r.dep == DepFlag(t.dependencyRisk);
    assert r.expectedImpact == Expected(fp, r.impactWeight);
    assert r.expectedLossHours == Expected(fp, t.estHours);
  }

  /** The range facts every risk row satisfies. */
  ghost predicate RowFacts(r: RiskRow, capacity: real, horizon: int) {
    WindowFacts(r, capacity, horizon) && OutcomeFacts(r)
  }

  /** Facts about the deadline window, overload, urgency and competition columns. */
  ghost predicate WindowFacts(r: RiskRow, capacity: real, horizon: int) {
    && r.task.daysLeft >= 1 && r.task.estHours >= 0.0
    && 1 <= r.deadlineWindowDays <= horizon && r.deadlineWindowDays <= r.task.daysLeft
    && (r.deadlineWindowDays == r.task.daysLeft || r.deadlineWindowDays == horizon)
    && r.capacityBeforeDeadline == (r.deadlineWindowDays as real) * capacity
    && r.capacityBeforeDeadline >= capacity
    && r.slackHours == r.capacityBeforeDeadline - r.task.estHours
    && r.overloadSeverity >= 0.0 && r.overloadSeverity >= -r.slackHours
    && (r.overloadSeverity == 0.0 <==> r.slackHours >= 0.0)
    && r.overloadNorm >= 0.0 && (r.overloadNorm == 0.0 <==> r.overloadSeverity == 0.0)
    && 0.0 < r.urgency <= 1.0 && r.urgency * (r.task.daysLeft as real) == 1.0
    && r.competitionPressure >= 0.0
  }

  /** Facts about the dependency, impact, probability and expected-loss columns. */
  ghost predicate OutcomeFacts(r: RiskRow) {
    && r.task.estHours >= 0.0
    && (r.dep == 1 <==> r.task.dependencyRisk) && (r.dep == 0 <==> !r.task.dependencyRisk)
    && r.impactWeight >= 0.1
    && (RatingInRange(r.task.strategicImportance) && RatingInRange(r.task.businessImpact) ==> r.impactWeight <= 1.0)
    && 0.0 <= r.failureProbability <= 1.0
    && r.expectedImpact == r.failureProbability * r.impactWeight
    && 0.0 <= r.expectedImpact <= r.impactWeight
    && r.expectedLossHours == r.failureProbability * r.task.estHours
    && 0.0 <= r.expectedLossHours <= r.task.estHours
  }

  lemma ScaleBound(a: real, w: real)
    requires 0.0 <= a <= 1.0 && w >= 0.0
    ensures 0.0 <= a * w
    ensures a * w <= w
  {
    assert (1.0 - a) * w >= 0.0;
    assert (1.0 - a) * w == w - a * w;
  }

  lemma NonNegQuotient(a: real, d: real)
    requires a >= 0.0 && d > 0.0
    ensures a / d >= 0.0
    ensures a / d == 0.0 <==> a == 0.0
  {
    var q := a / d;
    assert q * d == a;
  }

  lemma UnitQuotient(x: real)
    requires x >= 1.0
    ensures 0.0 < 1.0 / x <= 1.0
    ensures (1.0 / x) * x == 1.0
  {
    var q := 1.0 / x;
    assert q * x == 1.0;
  }

  // ---------------------------------------------------------------
  // The table-level entry point
  // ---------------------------------------------------------------

  /**
   * The risk table: KeyError naming the first absent required column, or
   * one risk row per input row, in order.
   */
  function TaskRisk(table: Table, capacity: real, horizon: int, sigma: real -> real): (res: Result<seq<RiskRow>, Error>)
    requires capacity > 0.0 && horizon >= 1
    ensures res.Failure? <==> exists c :: c in REQUIRED_COLUMNS && c !in table.columns
    ensures res.Failure? ==> FirstMissing(REQUIRED_COLUMNS, table.columns) == Some(res.error.column)
    ensures res.Success? ==> |res.value| == |table.rows|
    ensures res.Success? ==> forall k :: 0 <= k < |res.value| ==>
      && res.value[k].task == ClampTask(table.rows[k])
      && res.value[k].impactWeight == ImpactWeight(table.rows[k].strategicImportance, table.rows[k].businessImpact)
      && 0.0 <= res.value[k].failureProbability <= 1.0
  {
    match FirstMissing(REQUIRED_COLUMNS, table.columns)
    case Some(c) => Failure(KeyError(c))
    case None =>
      var rows := ClampAll(table.rows);
      var out := seq(|rows|, k requires 0 <= k < |rows| =>
        AssessRow(rows[k], CompetingHours(rows, rows[k].daysLeft), capacity, horizon, sigma));
      Success(out)
  }

  /** Every row of a risk table satisfies the range facts. */
  lemma TaskRiskRowFacts(table: Table, capacity: real, horizon: int, sigma: real -> real, k: int)
    requires capacity > 0.0 && horizon >= 1
    requires TaskRisk(table, capacity, horizon, sigma).Success?
    requires 0 <= k < |table.rows|
    ensures RowFacts(TaskRisk(table, capacity, horizon, sigma).value[k], capacity, horizon)
  {
    var rows := ClampAll(table.rows);
    AssessRowFacts(rows[k], CompetingHours(rows, rows[k].daysLeft), capacity, horizon, sigma);
  }

  /**
   * With a sigmoid strictly inside (0, 1) the clip changes nothing, and
   * every failure probability of a risk table lies strictly inside (0, 1).
   */
  lemma TaskRiskOpenUnit(table: Table, capacity: real, horizon: int, sigma: real -> real, k: int)
    requires capacity > 0.0 && horizon >= 1 && IntoOpenUnit(sigma)
    requires TaskRisk(table, capacity, horizon, sigma).Success?
    requires 0 <= k < |table.rows|
    ensures var r := TaskRisk(table, capacity, horizon, sigma).value[k];
      r.failureProbability == sigma(r.riskScore) && 0.0 < r.failureProbability < 1.0
  {
    var r := TaskRisk(table, capacity, horizon, sigma).value[k];
    var rows := ClampAll(table.rows);
    assert r == AssessRow(rows[k], CompetingHours(rows, rows[k].daysLeft), capacity, horizon, sigma);
    assert 0.0 < sigma(r.riskScore) < 1.0;
  }

  // ---------------------------------------------------------------
  // The documented single-task scenarios
  // ---------------------------------------------------------------

  /** One task due tomorrow needing 4 hours, mid ratings, no dependency. */
  const SCENARIO_TASK: Task := Task("t", 1, 4.0, 3, 3, false)

  /** A table with exactly the required columns and the one scenario task. */
  function ScenarioTable(): (table: Table)
    ensures HasRequiredColumns(table) && table.rows == [SCENARIO_TASK]
  {
    Table(set c | c in REQUIRED_COLUMNS, [SCENARIO_TASK])
  }

  lemma ScenarioRowIs(capacity: real, sigma: real -> real)
    requires capacity > 0.0
    ensures var res := TaskRisk(ScenarioTable(), capacity, 7, sigma);
      res.Success? && |res.value| == 1 && res.value[0] == AssessRow(SCENARIO_TASK, 4.0, capacity, 7, sigma)
  {
    var rows := ClampAll([SCENARIO_TASK]);
    assert rows == [SCENARIO_TASK];
    assert CompetingHours(rows, 1) == 4.0;
  }

  /**
   * At 6 hours a day over a 7-day horizon: a one-day window of 6 hours,
   * 2 hours of slack, no overload, urgency 1, no competition pressure and a
   * risk score of exactly -0.1 (the bias plus the urgency weight).
   */
  lemma ScenarioComfortable(sigma: real -> real)
    ensures var res := TaskRisk(ScenarioTable(), 6.0, 7, sigma);
      && res.Success? && |res.value| == 1
      && var r := res.value[0];
      && r.deadlineWindowDays == 1 && r.capacityBeforeDeadline == 6.0 && r.slackHours == 2.0
      && r.overloadSeverity == 0.0 && r.overloadNorm == 0.0 && r.urgency == 1.0
      && r.competitionPressure == 0.0 && r.riskScore == -0.1
      && r.failureProbability == Clip01(sigma(-0.1))
  {
    ScenarioRowIs(6.0, sigma);
  }

  /**
   * The same task at 3 hours a day: 3 hours of window capacity, 1 hour short,
   * overload and competition pressure each just under 1/3, and a risk score
   * just under 0.9, above the comfortable scenario's.
   */
  lemma ScenarioTight(sigma: real -> real)
    ensures var res := TaskRisk(ScenarioTable(), 3.0, 7, sigma);
      && res.Success? && |res.value| == 1
      && var r := res.value[0];
      && r.capacityBeforeDeadline == 3.0 && r.slackHours == -1.0 && r.overloadSeverity == 1.0
      && 0.33333 < r.overloadNorm < 1.0 / 3.0
      && 0.33333 < r.competitionPressure < 1.0 / 3.0
      && 0.8999 < r.riskScore < 0.9
  {
    ScenarioRowIs(3.0, sigma);
    var r := AssessRow(SCENARIO_TASK, 4.0, 3.0, 7, sigma);
    var q := 1.0 / (3.0 + EPS);
    TightQuotient();
    assert r.overloadNorm == q;
    assert r.competitionPressure == 4.0 * q - 1.0;
    assert r.riskScore == BIAS + W_OVERLOAD * q + W_COMPETITION * (4.0 * q - 1.0) + W_URGENCY;
  }

  /** One hour over 3 hours a day (plus the guard) is just under a third. */
  lemma TightQuotient()
    ensures var q := 1.0 / (3.0 + EPS);
      && 0.33333 < q < 1.0 / 3.0
      && 0.33333 < 4.0 * q - 1.0 < 1.0 / 3.0
      && 0.8999 < BIAS + W_OVERLOAD * q + W_COMPETITION * (4.0 * q - 1.0) + W_URGENCY < 0.9
  {
    var q := 1.0 / (3.0 + EPS);
    assert q * (3.0 + EPS) == 1.0;
    assert q * 3.0 < 1.0;
    assert 0.33333 * (3.0 + EPS) < 1.0;
    ProductCancel(0.33333, q, 3.0 + EPS);
  }

  // ---------------------------------------------------------------
  // More capacity never means more risk
  // ---------------------------------------------------------------

  /** A smaller numerator over a larger positive denominator gives a smaller quotient. */
  lemma QuotientMonotone(a1: real, a2: real, d1: real, d2: real)
    requires 0.0 <= a2 <= a1 && 0.0 < d1 <= d2
    ensures a2 / d2 <= a1 / d1
  {
    var q1, q2 := a1 / d1, a2 / d2;
    assert q1 * d1 == a1;
    assert q2 * d2 == a2;
    NonNegQuotient(a2, d2);
    ScaleMonotone(q2, d1, d2);
    assert q2 * d1 <= q2 * d2;
    ProductCancel(q2, q1, d1);
  }

  /**
   * For one task, raising the hours available per day never raises its
   * normalised overload, its competition pressure or its risk score, and,
   * with a monotone sigmoid, never raises its failure probability.
   */
  lemma AssessRowMonotone(t: Task, competing: real, c1: real, c2: real, horizon: int, sigma: real -> real)
    requires t.daysLeft >= 1 && t.estHours >= 0.0 && competing >= 0.0
    requires 0.0 < c1 <= c2 && horizon >= 1
    ensures var r1, r2 := AssessRow(t, competing, c1, horizon, sigma), AssessRow(t, competing, c2, horizon, sigma);
      && r2.overloadNorm <= r1.overloadNorm
      && r2.competitionPressure <= r1.competitionPressure
      && r2.riskScore <= r1.riskScore
      && (Monotone(sigma) ==> r2.failureProbability <= r1.failureProbability)
  {
    OverloadNormMonotone(t, c1, c2, horizon);
    CompetitionMonotone(t, competing, c1, c2, horizon);
    var r1, r2 := AssessRow(t, competing, c1, horizon, sigma), AssessRow(t, competing, c2, horizon, sigma);
    assert r2.riskScore <= r1.riskScore;
    if Monotone(sigma) {
      assert sigma(r2.riskScore) <= sigma(r1.riskScore);
    }
  }

  lemma WindowCapacityMonotone(w: int, c1: real, c2: real)
    requires w >= 1 && 0.0 < c1 <= c2
    ensures WindowCapacity(w, c1) <= WindowCapacity(w, c2)
  {
    var x := w as real;
    ScaleMonotone(x, c1, c2);
    var p1, p2 := x * c1, x * c2;
    assert p1 <= p2;
    var a, b := WindowCapacity(w, c1), WindowCapacity(w, c2);
    assert a == p1 && b == p2;
    assert a <= b;
  }

  lemma OverloadNormMonotone(t: Task, c1: real, c2: real, horizon: int)
    requires t.daysLeft >= 1 && 0.0 < c1 <= c2 && horizon >= 1
    ensures OverloadNormAt(t, c2, horizon) <= OverloadNormAt(t, c1, horizon)
  {
    var w := DeadlineWindow(t.daysLeft, horizon);
    WindowCapacityMonotone(w, c1, c2);
    var s1, s2 := OverloadSeverity(t.estHours, WindowCapacity(w, c1)), OverloadSeverity(t.estHours, WindowCapacity(w, c2));
    assert s2 <= s1;
    QuotientMonotone(s1, s2, c1 + EPS, c2 + EPS);
  }

  lemma CompetitionMonotone(t: Task, competing: real, c1: real, c2: real, horizon: int)
    requires t.daysLeft >= 1 && competing >= 0.0 && 0.0 < c1 <= c2 && horizon >= 1
    ensures CompetitionAt(t, competing, c2, horizon) <= CompetitionAt(t, competing, c1, horizon)
  {
    var w := DeadlineWindow(t.daysLeft, horizon);
    WindowCapacityMonotone(w, c1, c2);
    QuotientMonotone(competing, competing, WindowCapacity(w, c1) + EPS, WindowCapacity(w, c2) + EPS);
  }

  /**
   * The whole table: the same error or none at both capacities, and row by
   * row no rise in overload, competition, risk score or (with a monotone
   * sigmoid) failure probability.
   */
  lemma TaskRiskMonotone(table: Table, c1: real, c2: real, horizon: int, sigma: real -> real)
    requires 0.0 < c1 <= c2 && horizon >= 1
    ensures var res1, res2 := TaskRisk(table, c1, horizon, sigma), TaskRisk(table, c2, horizon, sigma);
      && res1.Success? == res2.Success?
      && (res1.Failure? ==> res1 == res2)
      && (res1.Success? ==> |res1.value| == |res2.value| && forall k :: 0 <= k < |res1.value| ==>
            && res2.value[k].overloadNorm <= res1.value[k].overloadNorm
            && res2.value[k].competitionPressure <= res1.value[k].competitionPressure
            && res2.value[k].riskScore <= res1.value[k].riskScore
            && (Monotone(sigma) ==> res2.value[k].failureProbability <= res1.value[k].failureProbability))
  {
    var res1, res2 := TaskRisk(table, c1, horizon, sigma), TaskRisk(table, c2, horizon, sigma);
    if res1.Success? {
      var rows := ClampAll(table.rows);
      forall k | 0 <= k < |res1.value|
        ensures && res2.value[k].overloadNorm <= res1.value[k].overloadNorm
                && res2.value[k].competitionPressure <= res1.value[k].competitionPressure
                && res2.value[k].riskScore <= res1.value[k].riskScore
                && (Monotone(sigma) ==> res2.value[k].failureProbability <= res1.value[k].failureProbability)
      {
        assert Clamped(rows);
        AssessRowMonotone(rows[k], CompetingHours(rows, rows[k].daysLeft), c1, c2, horizon, sigma);
      }
    }
  }

  /** A task's own hours are among the hours competing for its window. */
  lemma {:induction false} CompetingIncludesOwn(rows: seq<Task>, k: int, d: int)
    requires Clamped(rows) && 0 <= k < |rows| && rows[k].daysLeft <= d
    ensures CompetingHours(rows, d) >= rows[k].estHours
  {
    if k > 0 {
      assert Clamped(rows[1..]);
      CompetingIncludesOwn(rows[1..], k - 1, d);
    } else {
      assert Clamped(rows[1..]);
    }
  }

  /**
   * In every risk row the hours competing for the window include the task's
   * own, so a task that alone overloads its window has positive competition
   * pressure.
   */
  lemma CompetitionCountsOwnHours(table: Table, capacity: real, horizon: int, sigma: real -> real, k: int)
    requires capacity > 0.0 && horizon >= 1
    requires TaskRisk(table, capacity, horizon, sigma).Success?
    requires 0 <= k < |table.rows|
    ensures var rows := ClampAll(table.rows);
      CompetingHours(rows, rows[k].daysLeft) >= rows[k].estHours
    ensures var r := TaskRisk(table, capacity, horizon, sigma).value[k];
      r.task.estHours > r.capacityBeforeDeadline + EPS ==> r.competitionPressure > 0.0
  {
    var rows := ClampAll(table.rows);
    CompetingIncludesOwn(rows, k, rows[k].daysLeft);
  }

  // ---------------------------------------------------------------
  // Weighted stress index
  // ---------------------------------------------------------------

  function SumWeightedProbability(rows: seq<RiskRow>): real {
    if rows == [] then 0.0
    else rows[0].failureProbability * rows[0].impactWeight + SumWeightedProbability(rows[1..])
  }

  function SumWeights(rows: seq<RiskRow>): real {
    if rows == [] then 0.0 else rows[0].impactWeight + SumWeights(rows[1..])
  }

  /** 100 times the impact-weighted mean failure probability. */
  function WeightedStress(rows: seq<RiskRow>): (s: real)
    requires forall k :: 0 <= k < |rows| ==> rows[k].impactWeight >= 0.0
    ensures rows == [] ==> s == 0.0
  {
    SumWeightsNonNeg(rows);
    100.0 * (SumWeightedProbability(rows) / (SumWeights(rows) + EPS))
  }

  lemma {:induction false} SumWeightsNonNeg(rows: seq<RiskRow>)
    requires forall k :: 0 <= k < |rows| ==> rows[k].impactWeight >= 0.0
    ensures SumWeights(rows) >= 0.0
  {
    if rows != [] {
      SumWeightsNonNeg(rows[1..]);
    }
  }

  lemma {:induction false} WeightedBelowWeights(rows: seq<RiskRow>)
    requires forall k :: 0 <= k < |rows| ==> 0.0 <= rows[k].failureProbability <= 1.0 && rows[k].impactWeight >= 0.0
    ensures 0.0 <= SumWeightedProbability(rows) <= SumWeights(rows)
  {
    if rows != [] {
      WeightedBelowWeights(rows[1..]);
      ScaleBound(rows[0].failureProbability, rows[0].impactWeight);
      var head := rows[0].failureProbability * rows[0].impactWeight;
      assert 0.0 <= head <= rows[0].impactWeight;
    }
  }

  /** With probabilities in [0, 1] and non-negative weights the index lies in [0, 100]. */
  lemma WeightedStressInRange(rows: seq<RiskRow>)
    requires forall k :: 0 <= k < |rows| ==> 0.0 <= rows[k].failureProbability <= 1.0 && rows[k].impactWeight >= 0.0
    ensures 0.0 <= WeightedStress(rows) <= 100.0
  {
    WeightedBelowWeights(rows);
    SumWeightsNonNeg(rows);
    var num, den := SumWeightedProbability(rows), SumWeights(rows) + EPS;
    var q := num / den;
    assert q * den == num;
    NonNegQuotient(num, den);
    assert q * den <= 1.0 * den;
    ProductCancel(q, 1.0, den);
  }

  /**
   * Two tables with the same weights where the second's probabilities are
   * nowhere larger: the second's stress index is no larger.
   */
  lemma {:induction false} WeightedMonotone(rows1: seq<RiskRow>, rows2: seq<RiskRow>)
    requires NoRiskier(rows1, rows2)
    ensures SumWeights(rows1) == SumWeights(rows2)
    ensures SumWeightedProbability(rows2) <= SumWeightedProbability(rows1)
  {
    if rows1 != [] {
      assert NoRiskier(rows1[1..], rows2[1..]) by {
        forall k | 0 <= k < |rows1| - 1 ensures RowNoRiskier(rows1[1..][k], rows2[1..][k]) {
          assert RowNoRiskier(rows1[k + 1], rows2[k + 1]);
        }
      }
      WeightedMonotone(rows1[1..], rows2[1..]);
      assert RowNoRiskier(rows1[0], rows2[0]);
      var w := rows1[0].impactWeight;
      assert w * rows2[0].failureProbability <= w * rows1[0].failureProbability by {
        ScaleMonotone(w, rows2[0].failureProbability, rows1[0].failureProbability);
      }
      assert rows2[0].failureProbability * rows2[0].impactWeight <= rows1[0].failureProbability * rows1[0].impactWeight;
    }
  }

  lemma StressMonotone(rows1: seq<RiskRow>, rows2: seq<RiskRow>)
    requires NoRiskier(rows1, rows2)
    ensures WeightedStress(rows2) <= WeightedStress(rows1)
  {
    WeightedMonotone(rows1, rows2);
    assert forall k :: 0 <= k < |rows1| ==> rows1[k].impactWeight >= 0.0 by {
      forall k | 0 <= k < |rows1| ensures rows1[k].impactWeight >= 0.0 {
        assert RowNoRiskier(rows1[k], rows2[k]);
      }
    }
    SumWeightsNonNeg(rows1);
    var den := SumWeights(rows1) + EPS;
    var a1, a2 := SumWeightedProbability(rows1), SumWeightedProbability(rows2);
    var q1, q2 := a1 / den, a2 / den;
    assert q1 * den == a1 && q2 * den == a2;
    ProductCancel(q2, q1, den);
  }

  /**
   * The second risk table is the first recomputed with more capacity: the
   * same tasks and weights, and no larger probabilities.
   */
  ghost predicate NoRiskier(rows1: seq<RiskRow>, rows2: seq<RiskRow>) {
    |rows1| == |rows2| && forall k :: 0 <= k < |rows1| ==> RowNoRiskier(rows1[k], rows2[k])
  }

  ghost predicate RowNoRiskier(a: RiskRow, b: RiskRow) {
    && a.impactWeight == b.impactWeight && a.impactWeight >= 0.0
    && b.failureProbability <= a.failureProbability
    && a.task.estHours == b.task.estHours && a.task.estHours >= 0.0
    && a.expectedLossHours == a.failureProbability * a.task.estHours
    && b.expectedLossHours == b.failureProbability * b.task.estHours
  }

  /** With a monotone sigmoid, the risk table at a larger capacity is no riskier. */
  lemma TaskRiskNoRiskier(table: Table, c1: real, c2: real, horizon: int, sigma: real -> real)
    requires HasRequiredColumns(table) && horizon >= 1 && Monotone(sigma)
    requires 0.0 < c1 <= c2
    ensures TaskRisk(table, c1, horizon, sigma).Success? && TaskRisk(table, c2, horizon, sigma).Success?
    ensures NoRiskier(TaskRisk(table, c1, horizon, sigma).value, TaskRisk(table, c2, horizon, sigma).value)
  {
    var r1, r2 := TaskRisk(table, c1, horizon, sigma).value, TaskRisk(table, c2, horizon, sigma).value;
    forall k | 0 <= k < |r1| ensures RowNoRiskier(r1[k], r2[k]) {
      RowNoRiskierAt(table, c1, c2, horizon, sigma, k);
    }
  }

  lemma RowNoRiskierAt(table: Table, c1: real, c2: real, horizon: int, sigma: real -> real, k: int)
    requires HasRequiredColumns(table) && horizon >= 1 && Monotone(sigma)
    requires 0.0 < c1 <= c2 && 0 <= k < |table.rows|
    ensures TaskRisk(table, c1, horizon, sigma).Success? && TaskRisk(table, c2, horizon, sigma).Success?
    ensures RowNoRiskier(TaskRisk(table, c1, horizon, sigma).value[k], TaskRisk(table, c2, horizon, sigma).value[k])
  {
    var rows := ClampAll(table.rows);
    var competing := CompetingHours(rows, rows[k].daysLeft);
    assert Clamped(rows);
    AssessRowMonotone(rows[k], competing, c1, c2, horizon, sigma);
    AssessRowFacts(rows[k], competing, c1, horizon, sigma);
    AssessRowFacts(rows[k], competing, c2, horizon, sigma);
  }
}
