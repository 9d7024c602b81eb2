/**
 * The capacity forecaster: reruns the risk model for a sweep of
 * hours-per-day deltas and reports, per scenario, the stress index, the
 * expected lost hours and the share of high-risk tasks, ordered by
 * capacity.
 */
module Forecast {
  import opened Wrappers
  import opened Tasks
  import opened RiskModel
  import opened Sorting

  /** The sweep used when the caller gives none. */
  const DEFAULT_DELTAS: seq<real> := [-2.0, -1.0, 0.0, 1.0, 2.0]

  /** A task at or above this failure probability counts as high-risk. */
  const HIGH_RISK_THRESHOLD: real := 0.7

  /** The column the scenario table is sorted by. */
  const CAPACITY_COLUMN: string := "capacity_hours_per_day"

  /**
   * One scenario. `highRiskTasksPct` is None where the engine's mean over
   * an empty task table is undefined (not a number).
   */
  datatype ForecastRow = ForecastRow(
    capacityHoursPerDay: real,
    capacityDelta: real,
    stressIndex: real,
    expectedLossHours: real,
    highRiskTasksPct: Option<real>
  )

  /** The scenario's hours per day: the shifted base, but never below 1. */
  function ScenarioCapacity(base: real, delta: real): (c: real)
    ensures c >= 1.0
    ensures base + delta >= 1.0 ==> c == base + delta
    ensures base + delta < 1.0 ==> c == 1.0
  {
    MaxReal(1.0, base + delta)
  }

  function SumExpectedLoss(rows: seq<RiskRow>): real {
    if rows == [] then 0.0 else rows[0].expectedLossHours + SumExpectedLoss(rows[1..])
  }

  function CountHighRisk(rows: seq<RiskRow>): (n: nat)
    ensures n <= |rows|
  {
    if rows == [] then 0
    else (if rows[0].failureProbability >= HIGH_RISK_THRESHOLD then 1 else 0) + CountHighRisk(rows[1..])
  }

  /** The percentage of high-risk rows; undefined for an empty table. */
  function HighRiskPct(rows: seq<RiskRow>): (p: Option<real>)
    ensures p.None? <==> rows == []
    ensures p.Some? ==> 0.0 <= p.value <= 100.0
  {
    if rows == [] then None
    else
      var n, h := |rows| as real, CountHighRisk(rows) as real;
      FractionInUnit(h, n);
      Some(100.0 * (h / n))
  }

  /** The forecast row of one delta. */
  function ScenarioRow(table: Table, base: real, horizon: int, sigma: real -> real, delta: real): (row: ForecastRow)
    requires HasRequiredColumns(table) && horizon >= 1
    ensures row.capacityHoursPerDay == ScenarioCapacity(base, delta) && row.capacityDelta == delta
    ensures 0.0 <= row.stressIndex <= 100.0
    ensures row.highRiskTasksPct.None? <==> table.rows == []
    ensures row.highRiskTasksPct.Some? ==> 0.0 <= row.highRiskTasksPct.value <= 100.0
  {
    var cap := ScenarioCapacity(base, delta);
    var risk := TaskRisk(table, cap, horizon, sigma).value;
    assert forall k :: 0 <= k < |risk| ==> 0.0 <= risk[k].failureProbability <= 1.0 && risk[k].impactWeight >= 0.0;
    WeightedStressInRange(risk);
    ForecastRow(cap, delta, WeightedStress(risk), SumExpectedLoss(risk), HighRiskPct(risk))
  }

  function ScenarioRows(table: Table, base: real, horizon: int, sigma: real -> real, deltas: seq<real>): (rows: seq<ForecastRow>)
    requires HasRequiredColumns(table) && horizon >= 1
    ensures |rows| == |deltas|
    ensures forall k :: 0 <= k < |rows| ==> rows[k] == ScenarioRow(table, base, horizon, sigma, deltas[k])
  {
    seq(|deltas|, k requires 0 <= k < |deltas| => ScenarioRow(table, base, horizon, sigma, deltas[k]))
  }

  function CapacityLe(a: ForecastRow, b: ForecastRow): bool {
    a.capacityHoursPerDay <= b.capacityHoursPerDay
  }

  lemma CapacityLeTotalPreorder()
    ensures TotalPreorder(CapacityLe)
  {
  }

  /**
   * The scenario table. A missing required column fails with its KeyError
   * on the first scenario; an empty sweep yields an empty table, which has
   * no capacity column to sort by, so it fails with a KeyError naming that
   * column.
   */
  function ForecastSystemRisk(table: Table, base: real, horizon: int, scenarios: Option<seq<real>>,
                              sigma: real -> real): (res: Result<seq<ForecastRow>, Error>)
    requires horizon >= 1
  {
    var deltas := scenarios.GetOr(DEFAULT_DELTAS);
    if |deltas| > 0 && !HasRequiredColumns(table) then
      Failure(KeyError(FirstMissing(REQUIRED_COLUMNS, table.columns).value))
    else if |deltas| == 0 then
      Failure(KeyError(CAPACITY_COLUMN))
    else
      Success(SortBy(ScenarioRows(table, base, horizon, sigma, deltas), CapacityLe))
  }

  /**
   * One pass of the engine's loop: rerun the risk model at the shifted
   * hours per day and summarise it. The risk model fails exactly when a
   * required column is missing, naming the first one; otherwise the row is
   * `ScenarioRow`.
   */
  method AssessScenario(table: Table, base: real, horizon: int, sigma: real -> real, delta: real)
    returns (res: Result<ForecastRow, Error>)
    requires horizon >= 1
    ensures res.Failure? <==> !HasRequiredColumns(table)
    ensures res.Failure? ==> FirstMissing(REQUIRED_COLUMNS, table.columns) == Some(res.error.column)
    ensures res.Success? ==> res.value == ScenarioRow(table, base, horizon, sigma, delta)
  {
    var cap := ScenarioCapacity(base, delta);
    var risk := TaskRisk(table, cap, horizon, sigma);
    if risk.Failure? {
      return Failure(risk.error);
    }
    res := Success(ForecastRow(cap, delta, WeightedStress(risk.value), SumExpectedLoss(risk.value),
                               HighRiskPct(risk.value)));
  }

  /** The engine's loop over the sweep, appending one row per delta, then the sort. */
  method RunForecast(table: Table, base: real, horizon: int, scenarios: Option<seq<real>>, sigma: real -> real)
    returns (res: Result<seq<ForecastRow>, Error>)
    requires horizon >= 1
    ensures res == ForecastSystemRisk(table, base, horizon, scenarios, sigma)
  {
    var deltas := if scenarios.None? then DEFAULT_DELTAS else scenarios.value;
    var rows: seq<ForecastRow> := [];
    for i := 0 to |deltas|
      invariant i > 0 ==> HasRequiredColumns(table)
      invariant |rows| == i
      invariant forall k :: 0 <= k < i ==> HasRequiredColumns(table) && rows[k] == ScenarioRow(table, base, horizon, sigma, deltas[k])
    {
      var row := AssessScenario(table, base, horizon, sigma, deltas[i]);
      if row.Failure? {
        return Failure(row.error);
      }
      rows := rows + [row.value];
    }
    if |rows| == 0 {
      return Failure(KeyError(CAPACITY_COLUMN));
    }
    assert rows == ScenarioRows(table, base, horizon, sigma, deltas);
    res := Success(SortBy(rows, CapacityLe));
  }

  /**
   * The shape of the scenario table: it exists exactly when the sweep is
   * non-empty and the columns are present; it then has one row per delta,
   * is ordered by capacity and is a rearrangement of the per-delta rows;
   * every capacity is at least 1 and every stress index and percentage
   * lies in [0, 100]. Without a sweep the default five deltas are used.
   */
  lemma ForecastShape(table: Table, base: real, horizon: int, scenarios: Option<seq<real>>, sigma: real -> real)
    requires horizon >= 1
    ensures var deltas, res := scenarios.GetOr(DEFAULT_DELTAS), ForecastSystemRisk(table, base, horizon, scenarios, sigma);
      && (res.Success? <==> |deltas| > 0 && HasRequiredColumns(table))
      && (|deltas| == 0 ==> res == Failure(KeyError(CAPACITY_COLUMN)))
      && (|deltas| > 0 && !HasRequiredColumns(table) ==>
            res.Failure? && res.error.column in REQUIRED_COLUMNS && res.error.column !in table.columns)
      && (res.Success? ==>
            && |res.value| == |deltas|
            && (scenarios.None? ==> |res.value| == 5)
            && SortedBy(res.value, CapacityLe)
            && multiset(res.value) == multiset(ScenarioRows(table, base, horizon, sigma, deltas))
            && forall i :: 0 <= i < |res.value| ==>
                 && (exists k :: 0 <= k < |deltas| && res.value[i] == ScenarioRow(table, base, horizon, sigma, deltas[k]))
                 && res.value[i].capacityHoursPerDay >= 1.0
                 && 0.0 <= res.value[i].stressIndex <= 100.0
                 && (res.value[i].highRiskTasksPct.Some? ==> 0.0 <= res.value[i].highRiskTasksPct.value <= 100.0))
  {
    var deltas, res := scenarios.GetOr(DEFAULT_DELTAS), ForecastSystemRisk(table, base, horizon, scenarios, sigma);
    if |deltas| > 0 && !HasRequiredColumns(table) {
      var m := FirstMissing(REQUIRED_COLUMNS, table.columns);
      assert m.Some?;
    }
    if res.Success? {
      var unsorted := ScenarioRows(table, base, horizon, sigma, deltas);
      CapacityLeTotalPreorder();
      SortBySorted(unsorted, CapacityLe);
      forall i | 0 <= i < |res.value|
        ensures exists k :: 0 <= k < |deltas| && res.value[i] == ScenarioRow(table, base, horizon, sigma, deltas[k])
      {
        RowOfScenario(table, base, horizon, sigma, deltas, res.value, i);
      }
    }
  }

  lemma RowOfScenario(table: Table, base: real, horizon: int, sigma: real -> real, deltas: seq<real>,
                      sorted: seq<ForecastRow>, i: int)
    requires HasRequiredColumns(table) && horizon >= 1
    requires multiset(sorted) == multiset(ScenarioRows(table, base, horizon, sigma, deltas))
    requires 0 <= i < |sorted|
    ensures exists k :: 0 <= k < |deltas| && sorted[i] == ScenarioRow(table, base, horizon, sigma, deltas[k])
  {
    var unsorted := ScenarioRows(table, base, horizon, sigma, deltas);
    assert sorted[i] in multiset(sorted);
    assert sorted[i] in unsorted;
    var k :| 0 <= k < |unsorted| && unsorted[k] == sorted[i];
  }

  /**
   * Two scenarios: the one with at least as much capacity has no larger
   * stress index and no larger expected loss, given a monotone sigmoid.
   */
  lemma ScenarioMonotone(table: Table, base: real, horizon: int, sigma: real -> real, d1: real, d2: real)
    requires HasRequiredColumns(table) && horizon >= 1 && Monotone(sigma)
    requires ScenarioCapacity(base, d1) <= ScenarioCapacity(base, d2)
    ensures ScenarioRow(table, base, horizon, sigma, d2).stressIndex <= ScenarioRow(table, base, horizon, sigma, d1).stressIndex
    ensures ScenarioRow(table, base, horizon, sigma, d2).expectedLossHours <= ScenarioRow(table, base, horizon, sigma, d1).expectedLossHours
  {
    var c1, c2 := ScenarioCapacity(base, d1), ScenarioCapacity(base, d2);
    TaskRiskNoRiskier(table, c1, c2, horizon, sigma);
    var r1, r2 := TaskRisk(table, c1, horizon, sigma).value, TaskRisk(table, c2, horizon, sigma).value;
    StressMonotone(r1, r2);
    LossMonotone(r1, r2);
  }

  lemma {:induction false} LossMonotone(rows1: seq<RiskRow>, rows2: seq<RiskRow>)
    requires NoRiskier(rows1, rows2)
    ensures SumExpectedLoss(rows2) <= SumExpectedLoss(rows1)
  {
    if rows1 != [] {
      assert NoRiskier(rows1[1..], rows2[1..]) by {
        forall k | 0 <= k < |rows1| - 1 ensures RowNoRiskier(rows1[1..][k], rows2[1..][k]) {
          assert RowNoRiskier(rows1[k + 1], rows2[k + 1]);
        }
      }
      LossMonotone(rows1[1..], rows2[1..]);
      assert RowNoRiskier(rows1[0], rows2[0]);
      var e := rows1[0].task.estHours;
      var p1, p2 := rows1[0].failureProbability, rows2[0].failureProbability;
      ScaleMonotone(e, p2, p1);
      assert e * p2 <= e * p1;
      assert rows2[0].expectedLossHours == p2 * e;
      assert rows1[0].expectedLossHours == p1 * e;
    }
  }

  /**
   * Down the scenario table, as capacity rises, the stress index and the
   * expected lost hours never rise, given a monotone sigmoid.
   */
  lemma ForecastNonIncreasing(table: Table, base: real, horizon: int, scenarios: Option<seq<real>>,
                              sigma: real -> real, i: int, j: int)
    requires horizon >= 1 && Monotone(sigma)
    requires ForecastSystemRisk(table, base, horizon, scenarios, sigma).Success?
    requires 0 <= i < j < |ForecastSystemRisk(table, base, horizon, scenarios, sigma).value|
    ensures var rows := ForecastSystemRisk(table, base, horizon, scenarios, sigma).value;
      && rows[i].capacityHoursPerDay <= rows[j].capacityHoursPerDay
      && rows[j].stressIndex <= rows[i].stressIndex
      && rows[j].expectedLossHours <= rows[i].expectedLossHours
  {
    var deltas := scenarios.GetOr(DEFAULT_DELTAS);
    var rows := ForecastSystemRisk(table, base, horizon, scenarios, sigma).value;
    ForecastShape(table, base, horizon, scenarios, sigma);
    var ki :| 0 <= ki < |deltas| && rows[i] == ScenarioRow(table, base, horizon, sigma, deltas[ki]);
    var kj :| 0 <= kj < |deltas| && rows[j] == ScenarioRow(table, base, horizon, sigma, deltas[kj]);
    assert CapacityLe(rows[i], rows[j]);
    ScenarioMonotone(table, base, horizon, sigma, deltas[ki], deltas[kj]);
  }
}
