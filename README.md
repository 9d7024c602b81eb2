# Cadence workload engine: a verified Dafny model

Cadence is a workload-planning calculator. Given a table of tasks (name,
days until the deadline, estimated hours, 1–5 strategic-importance and
business-impact ratings, a dependency flag), its engine

- scores each task for priority, with mode-dependent weights (`scoring.py`);
- estimates each task's failure probability from its local overload, its
  urgency, its dependency flag and the competition for capacity from tasks
  due no later than it (`risk_model.py`);
- reduces those probabilities to an impact-weighted stress index in [0, 100];
- forecasts stress, expected lost hours and the share of high-risk tasks
  under a sweep of daily-capacity deltas;
- greedily schedules hours day by day, deadline first or value density
  first, reporting a day ledger, an allocation log and the tasks that will
  miss their deadlines (`scheduler.py`).

The model is split across these files:

- `wrappers.dfy`: `Option` and `Result`.
- `tasks.dfy`: the task record, the mode, and small min/max helpers.
- `sorting.dfy`: a stable insertion sort over any total preorder. It stands
  for the table library's sort, and its sortedness and permutation are proved.
- `scoring.dfy`: the priority scorer. It is pure, so it is modelled as functions.
- `risk_model.dfy`: per-task risk and the stress index. These are pure column
  expressions, and the competition sum is a recursive function.
- `forecast.dfy`: the capacity sweep. It is the functional specification
  `ForecastSystemRisk` plus the engine's loop `RunForecast`, which is proved
  to compute it.
- `scheduler.dfy`: the scheduler.
  - The day-by-day specification is `DayScan`, `RunDays` and `ScheduleOf`.
  - The engine's nested loops are `ScanDay`, `BuildSchedule` and
    `ListRisks`, each proved to compute that specification.
  - The remaining-hours counters are a map keyed by task name, as in the
    engine.

The sigmoid is a parameter `sigma: real -> real` of the risk functions.
The engine clips its value to [0, 1], so every range fact holds for any
`sigma`. The monotonicity results assume `Monotone(sigma)`, which the real
sigmoid satisfies. Under `IntoOpenUnit(sigma)`, which the real sigmoid also
satisfies, the clip changes nothing and every probability lies strictly in
(0, 1).

The design documentation gives two single-task scenarios: a task due in
one day, needing 4 hours, at 6 and at 3 hours a day. The model reproduces
the first exactly, with a risk score of −0.1. For the second it quotes a risk
score of about 0.80, but the terms it lists (overload and competition
pressure of about 1/3 each, urgency 1) add up to 0.9 under the formula at
`risk_model.py:126-132`. The model follows the code and proves a risk score
just under 0.9.

## Model

| member | source | states |
|---|---|---|
| Tasks.ModeOf | scoring.py:50-72 | a mode name selects Academic or Operational exactly when it is that name; every other name falls back to the balanced mode, with no error |
| Sorting.SortBy | scheduler.py:29-35 | sorting keeps the length and the multiset of rows |
| Sorting.SortBySorted | scheduler.py:29-35 | for a total preorder, the sorted sequence is ordered by it |
| Scoring.UrgencyScore | scoring.py:7-16 | urgency is in (0, 1]; it is 1 when days left ≤ 1, and otherwise urgency × days left = 1 |
| Scoring.UrgencyNonIncreasing | scoring.py:15-16 | more days left never gives a higher urgency |
| Scoring.UrgencyExamples | scoring.py:8-12 | the documented values: 1 day gives 1.0, 10 days give 0.1, 30 days give about 0.033 |
| Scoring.DependencyScore | scoring.py:42 | the dependency score is 0.0 or 1.0, and it is 1.0 exactly when the flag is set |
| Scoring.Normalise | scoring.py:44-46 | a rating in 1..5 normalises into [0, 1] |
| Scoring.ModeWeights | scoring.py:50-72 | each mode's weights are non-negative and sum to 1.0; in Academic mode urgency outweighs the other three together, in Operational mode strategy and impact outweigh urgency and dependency |
| Scoring.PriorityScore | scoring.py:74-80 | with both ratings in 1..5, the priority score lies in [0, 1] |
| Scoring.ScoreTask | scoring.py:41-80 | one scored row keeps its task, has urgency in (0, 1], a dependency score of 1.0 exactly when the flag is set and 0.0 exactly when it is not, and a priority in [0, 1] for ratings in 1..5 |
| Scoring.ComputePriorityScores | scoring.py:22-85 | one scored row per input row, in order, each carrying its unchanged task, an urgency in (0, 1], a dependency score that is 1.0 or 0.0 exactly as the flag is set or not, and (ratings in range) a priority in [0, 1] |
| RiskModel.FirstMissing | risk_model.py:49-55 | reports no column exactly when every required column is present, and otherwise the first missing one in list order |
| RiskModel.ClampTask | risk_model.py:57-58 | after clamping, days left ≥ 1 and estimated hours ≥ 0; a value already in range is kept and one out of range becomes the bound; nothing else changes |
| RiskModel.ClampAll | risk_model.py:57-58 | clamps every row, keeping the order |
| RiskModel.DeadlineWindow | risk_model.py:63 | the window is the smaller of days left and horizon, so it lies in [1, horizon] |
| RiskModel.WindowCapacity | risk_model.py:64 | window capacity is window × daily capacity, and at least one day's capacity |
| RiskModel.OverloadSeverity | risk_model.py:67-68 | overload is the positive part of hours minus capacity: non-negative, and zero exactly when the hours fit |
| RiskModel.OverloadNorm | risk_model.py:71 | normalised overload is non-negative, and zero exactly when the overload is zero |
| RiskModel.Urgency | risk_model.py:76 | for clamped days left, urgency is in (0, 1] and urgency × days left = 1 |
| RiskModel.CompetingHours | risk_model.py:88-90 | the competing hours over clamped rows are non-negative |
| RiskModel.CompetitionPressure | risk_model.py:86-92 | pressure is non-negative; it is positive exactly when the competing hours exceed window capacity + 1e-9; it is zero when they do not exceed the window capacity |
| RiskModel.ImpactWeight | risk_model.py:104-108 | impact weight is at least 0.1, and at most 1.0 when both ratings are in 1..5; it is either 0.1 or the unclipped mean rating / 5 |
| RiskModel.Clip01 | risk_model.py:134 | the clipped value lies in [0, 1] and equals its argument when that is already in [0, 1] |
| RiskModel.Expected | risk_model.py:139-140 | an expected loss p × m, for p in [0, 1] and m ≥ 0, lies in [0, m] |
| RiskModel.AssessRow | risk_model.py:57-140 | a clamped row's columns are the window, overload, competition and risk terms of the engine, and the probability is the clipped sigmoid of the risk score |
| RiskModel.AssessRowFacts | risk_model.py:63-140 | every derived column of a row satisfies its range facts: window in [1, horizon], capacity ≥ daily capacity, overload ≥ 0, urgency in (0, 1], pressure ≥ 0, impact ≥ 0.1, probability in [0, 1], expected impact = p × impact, and expected loss = p × hours ≤ hours |
| RiskModel.WindowFactsHold | risk_model.py:63-94 | the window, capacity, slack, overload, urgency and pressure facts of a row |
| RiskModel.OutcomeFactsHold | risk_model.py:99-140 | the dependency, impact, probability and expected-loss facts of a row |
| RiskModel.TaskRisk | risk_model.py:9-142 | fails exactly when a required column is missing, naming the first one; otherwise one row per task holding the clamped task, its impact weight and a probability in [0, 1] |
| RiskModel.TaskRiskRowFacts | risk_model.py:57-140 | every row of a successful assessment satisfies all the range facts above |
| RiskModel.TaskRiskOpenUnit | risk_model.py:134 | when the sigmoid maps into (0, 1), the clip leaves it unchanged and every row's failure probability is strictly between 0 and 1 |
| RiskModel.RiskScore | risk_model.py:117-132 | the linear risk score: bias −1.2 plus 1.8 × overload, 1.2 × competition, 1.1 × urgency and 0.7 × dependency; its properties are stated by AssessRowMonotone, ScenarioComfortable and ScenarioTight |
| RiskModel.DepFlag | risk_model.py:99 | the dependency flag is 1 exactly when the task has a dependency risk and 0 exactly when it has none |
| RiskModel.OverloadNormMonotone | risk_model.py:63-71 | more daily capacity never raises the normalised overload |
| RiskModel.CompetitionMonotone | risk_model.py:86-92 | more daily capacity never raises the competition pressure |
| RiskModel.WindowCapacityMonotone | risk_model.py:63-64 | more daily capacity never lowers the window capacity |
| RiskModel.AssessRowMonotone | risk_model.py:63-134 | more daily capacity never raises overload, competition or risk score; with a monotone sigmoid it never raises the failure probability |
| RiskModel.TaskRiskMonotone | risk_model.py:49-134 | both capacities give the same error or both succeed, and row by row more capacity never raises overload, competition, risk score or (monotone sigmoid) probability |
| RiskModel.CompetingIncludesOwn | risk_model.py:88-90 | a task's competing-hours sum includes its own hours |
| RiskModel.CompetitionCountsOwnHours | risk_model.py:86-94 | a task's own hours are among its competing hours, so a task that alone exceeds its window capacity has positive pressure |
| RiskModel.WeightedStress | risk_model.py:156-158 | the stress of an empty table is 0 |
| RiskModel.WeightedStressInRange | risk_model.py:145-158 | with probabilities in [0, 1] and non-negative weights, the stress index lies in [0, 100] |
| RiskModel.WeightedMonotone | risk_model.py:156-158 | with the same weights and no higher probabilities, the weighted sum of probabilities does not rise |
| RiskModel.StressMonotone | risk_model.py:156-158 | with the same weights and no higher probabilities, the stress index does not rise |
| RiskModel.TaskRiskNoRiskier | risk_model.py:57-140 | with a monotone sigmoid, an assessment at more capacity is no riskier row by row: same impact weights and hours, no higher probabilities, and losses equal to probability × hours |
| RiskModel.ScenarioTable | risk_model.py:49-55 | the one-task table of the documented scenarios carries every required column |
| RiskModel.ScenarioRowIs | risk_model.py:57-140 | for that table the risk model succeeds with one row, the task's own assessment with its own 4 hours as the competing hours |
| RiskModel.ScenarioComfortable | risk_model.py:63-134 | at 6 hours a day over 7 days: window 1 day, capacity 6, slack 2, no overload, urgency 1, no competition pressure, risk score exactly −0.1 and probability the clipped sigmoid of −0.1 |
| RiskModel.ScenarioTight | risk_model.py:63-132 | at 3 hours a day: capacity 3, slack −1, overload 1, normalised overload and competition pressure each in (0.33333, 1/3), and a risk score in (0.8999, 0.9) |
| Forecast.ScenarioCapacity | risk_model.py:183 | a scenario's capacity is base + delta, floored at 1.0 |
| Forecast.CountHighRisk | risk_model.py:188 | the number of high-risk rows is at most the number of rows |
| Forecast.HighRiskPct | risk_model.py:188 | the high-risk share is undefined exactly for an empty table, and otherwise lies in [0, 100] |
| Forecast.ScenarioRow | risk_model.py:182-196 | a scenario row carries its capacity and delta, a stress index in [0, 100], and a high-risk share that is undefined exactly for an empty table and otherwise in [0, 100] |
| Forecast.ScenarioRows | risk_model.py:181-196 | one row per delta, in delta order |
| Forecast.SumExpectedLoss | risk_model.py:187 | the total expected lost hours over the rows; its monotonicity is LossMonotone and ScenarioMonotone |
| Forecast.ForecastSystemRisk | risk_model.py:162-198 | the scenario table specification; its shape is ForecastShape and RowOfScenario, and its ordering of stress and loss is ForecastNonIncreasing |
| Forecast.CapacityLeTotalPreorder | risk_model.py:198 | ordering rows by capacity is a total preorder |
| Forecast.AssessScenario | risk_model.py:182-196 | one pass of the loop fails exactly when a required column is missing, naming the first missing one, and otherwise builds that delta's scenario row |
| Forecast.RunForecast | risk_model.py:162-198 | the engine's loop over the deltas computes the forecast specification, including both error paths |
| Forecast.ForecastShape | risk_model.py:178-198 | success exactly when some delta is given and no column is missing; an empty sweep fails on the capacity column, a missing column names a missing required column; on success the table has one row per delta (five by default), is sorted by capacity, is a rearrangement of the scenario rows, and has every capacity ≥ 1, every stress in [0, 100] and every share in [0, 100] or undefined |
| Forecast.RowOfScenario | risk_model.py:181-198 | every row of the sorted forecast is the row of one of the deltas |
| Forecast.ScenarioMonotone | risk_model.py:183-187 | with a monotone sigmoid, a scenario with at least as much capacity has no higher stress index and no higher expected lost hours |
| Forecast.LossMonotone | risk_model.py:187 | no higher probabilities on the same hours give no higher total expected loss |
| Forecast.ForecastNonIncreasing | risk_model.py:181-198 | with a monotone sigmoid, down the forecast table capacity does not fall and the stress index and expected lost hours do not rise |
| Scheduler.ValueDensity | scheduler.py:28 | the value density times the hours floored at 0.1 is the priority score, and it is non-negative for a non-negative score |
| Scheduler.EarliestDeadlineFirst | scheduler.py:33-35 | earlier deadline first; on equal deadlines, fewer estimated hours first |
| Scheduler.DispatchOrder | scheduler.py:27-35 | the dispatch order has the input's length and its multiset of rows |
| Scheduler.DispatchOrderFacts | scheduler.py:27-35 | the dispatch order is a rearrangement of the tasks, by non-increasing value density in Operational mode and otherwise by non-decreasing (days left, estimated hours) |
| Scheduler.InitRemaining | scheduler.py:40-42 | every task name has a counter, and each counter holds the estimate of a row of that name |
| Scheduler.FailureLookup | scheduler.py:44-49 | every row carrying a probability has its name in the lookup, and each entry is the probability of a row of that name |
| Scheduler.FpOf | scheduler.py:80 | a name's looked-up probability, 0.0 when absent; what it gives each log entry is stated by DayScanEntries and ScheduleLog |
| Scheduler.PairsOf | scheduler.py:59-72 | the display list pairs each grant's task with its hours, in order |
| Scheduler.DayScan | scheduler.py:61-85 | a day's scan keeps the same set of counters |
| Scheduler.DayScanCapacity | scheduler.py:58-87 | with non-negative capacity the capacity left stays in [0, capacity]; it never grows; the hours used equal the day's granted hours |
| Scheduler.DayScanDays | scheduler.py:76-82 | a day's grants are all dated that day |
| Scheduler.DayScanEntries | scheduler.py:65-82 | every grant has positive hours, is not after its task's deadline, names a task with that deadline and carries the task's looked-up probability |
| Scheduler.DayScanDecreased | scheduler.py:65-74 | each counter drops by exactly the hours granted to that name; one already ≤ 0 is untouched, and a positive one never goes negative |
| Scheduler.DayScanWorkConserving | scheduler.py:61-85 | if the day ends with capacity left, every task not yet past its deadline has nothing left |
| Scheduler.RunDays | scheduler.py:57-95 | the run keeps the same set of counters |
| Scheduler.Summarise | scheduler.py:87-95 | a ledger row carries its day and the capacity left; allocated hours plus capacity left is the day's capacity; its pairs are the day's grants; the overload is never negative and is 0 whenever the capacity left is non-negative |
| Scheduler.RunLogDays | scheduler.py:57-82 | every log entry is dated within the days run |
| Scheduler.RunLedger | scheduler.py:57-95 | one ledger row per day in order; each row's allocated hours are the capacity less what is left and equal that day's logged hours; with non-negative capacity, 0 ≤ left ≤ capacity and the overload is 0 |
| Scheduler.RunEntries | scheduler.py:65-82 | every log entry of the run is valid as above |
| Scheduler.RunDecreased | scheduler.py:65-74 | over the run, each counter drops by exactly the hours logged for its name |
| Scheduler.RunWorkConserving | scheduler.py:57-85 | if a day ends with capacity left, every task due that day or later ends the run with nothing left |
| Scheduler.DeadlineRisks | scheduler.py:100-108 | the risk list has at most one entry per row, and every entry has positive unfinished hours |
| Scheduler.DeadlineRisksMembers | scheduler.py:100-108 | the risk list holds exactly the tasks whose counter is still positive, each with its counter and deadline |
| Scheduler.DeadlineRisksDueBefore | scheduler.py:100-108 | if no task due on day d or later has hours left, every risk is due before d |
| Scheduler.RiskPositions | scheduler.py:100-108 | each risk comes from a row of the order, at strictly increasing positions, with that row's name, counter and deadline: the risk list follows the dispatch order |
| Scheduler.DeadlineRisksOnce | scheduler.py:100-108 | with distinct names, no task appears twice in the risk list |
| Scheduler.ScheduleFrom | scheduler.py:37-108 | the schedule of an already ordered task list; its properties are stated by LogFrom, RisksFrom, WorkConservingFrom and TaskHoursFrom |
| Scheduler.ScheduleOf | scheduler.py:4-108 | the schedule specification (sort, then ScheduleFrom) that BuildSchedule computes; its properties are ScheduleLedger, ScheduleLog, ScheduleRisks, ScheduleWorkConserving, ScheduleTaskHours and ScheduleRisksOrdered |
| Scheduler.ScheduleLedger | scheduler.py:57-95 | the ledger has max(horizon, 0) rows for days 1..horizon in order; each day's allocated hours equal capacity − capacity left and that day's logged hours; with non-negative capacity no day exceeds its capacity and the overload is always 0 |
| Scheduler.ScheduleLog | scheduler.py:65-82 | every log entry grants positive hours, on a day in 1..horizon that is not after its deadline, to an input task with that deadline; its probability is 0.0 or one the input gives that name |
| Scheduler.ScheduleRisks | scheduler.py:100-108 | every deadline risk is an input task with positive unfinished hours, and carries that task's deadline |
| Scheduler.ScheduleWorkConserving | scheduler.py:57-108 | if day k + 1 ends with capacity left, every deadline risk was due before that day |
| Scheduler.OrderRowsOfName | scheduler.py:27-42 | with distinct names, the task is in the dispatch order, and it is the only row of its name there |
| Scheduler.TaskHoursRun | scheduler.py:40-74 | for a task that is the only row of its name, its counter ends at its estimate minus the hours logged for it, which lie between 0 and the estimate (0 if the estimate is ≤ 0) |
| Scheduler.TaskRiskRun | scheduler.py:100-108 | such a task is a deadline risk exactly when its counter is positive, and then with that counter and its own deadline |
| Scheduler.TaskEntriesRun | scheduler.py:44-82 | every log entry for such a task carries its deadline and its probability, or 0.0 |
| Scheduler.TaskHoursFrom | scheduler.py:40-108 | the per-task hours, risk and log facts for a task already in dispatch order |
| Scheduler.ScheduleTaskHours | scheduler.py:40-108 | with distinct names, a task is granted between 0 and its estimate in total (nothing if the estimate is ≤ 0); it is a deadline risk exactly when it got less than its estimate, and then it appears exactly once; its unfinished hours are the estimate minus the hours granted; its log entries carry its deadline and its probability, or 0.0 |
| Scheduler.DistinctNamesPermutation | scheduler.py:27-35 | sorting rows with distinct names keeps the names distinct |
| Scheduler.ScheduleRisksOrdered | scheduler.py:27-108 | with distinct names, the schedule's deadline risks appear in dispatch order, each with its row's name, unfinished hours and deadline, and no task twice |
| Scheduler.ScheduleRisksOnce | scheduler.py:100-108 | with distinct names, no task appears twice among the schedule's deadline risks |
| Scheduler.ScanInvGrant | scheduler.py:69-84 | a grant keeps the inner loop's invariant, or, when it uses up the capacity, completes the day's scan |
| Scheduler.ScanInvStop | scheduler.py:69-84 | a task that cannot be granted anything means the capacity is used up and the scan is complete |
| Scheduler.ScanDay | scheduler.py:58-85 | the engine's inner task loop, with its continue and break, computes the day's scan and its display list |
| Scheduler.ListRisks | scheduler.py:100-108 | the engine's final loop computes the deadline-risk list |
| Scheduler.BuildSchedule | scheduler.py:4-114 | the engine's scheduler returns exactly the specified ledger, allocation log and deadline risks |
| Scheduler.TwoTaskExample | scheduler.py:57-108 | the worked example (A: 2 days, 5 h; B: 3 days, 5 h; 4 h a day for 3 days; deadline first): A gets 4 h on day 1; A gets 1 h and B 3 h on day 2; B gets 2 h on day 3, leaving 2 h spare; nothing is at risk |

## Left out

- Presentation is not part of this model: the Streamlit pages, the charts and
  calendar, the advice templating, and the session task list. Neither are the
  pandas specifics: copying, the `attrs` bag, `apply` and column dtypes.
- The scheduler returns its three results as an explicit triple rather than
  through table attributes.
- Floating point and `np.exp` are not modelled. Values are exact reals, and
  the sigmoid is the parameter `sigma`. Results that need its shape assume
  `Monotone(sigma)`, and `IntoOpenUnit` names its range.
- Display rounding (`round(…, 1)`, `round(…, 2)`) is not modelled. All
  properties are stated on unrounded values.
- The allocations display string is modelled as its list of (task, hours)
  pairs, not as joined text.
- RiskModel.TaskRisk: requires capacity > 0 and horizon ≥ 1. The engine's
  callers always pass at least 1.0 hour and a horizon of at least one day.
  The 1e-9 guards are kept as the constant `EPS`.
- Sorting.SortBy: ties keep their input order. The table library's default
  sort promises no tie order. Every proved property holds for any tie order,
  but the concrete schedule can differ among tasks that tie.
- Scheduler.ScheduleTaskHours: requires distinct task names. The counters
  are keyed by name, so duplicate names make rows share one counter.
  `InitRemaining` and `FailureLookup` model that sharing exactly: a later row
  overwrites an earlier one.
- The scheduler's task record (`Job`) holds only the columns it reads: name, days left, estimated hours,
  priority score and failure probability. A missing failure-probability
  column is modelled as `None` on every row, and it gives 0.0 in the log.
- Forecast.HighRiskPct: the share of high-risk tasks in an empty table is
  NaN in the engine. It is modelled as `None`.
- Forecast.ForecastSystemRisk: an empty delta list makes the final sort fail
  on the missing capacity column. It is modelled as that KeyError.
- Forecast.ScenarioMonotone: stated for a monotone sigmoid. With an
  arbitrary `sigma` only the range facts hold.
- RiskModel.WeightedStress: the 1e-9 guard in the denominator means a single
  task's stress is only close to 100 × p, not equal to it, so no exact-value
  lemma is stated.
- Idempotence and "the input is not mutated" are immediate for pure
  functions on values, so they are not separate lemmas.
