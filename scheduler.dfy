/**
 * The greedy day-by-day scheduler. Tasks are ordered once (earliest
 * deadline first, or highest value density first in Operational mode);
 * then each day hands its capacity to the tasks in that order, never past a
 * task's deadline, and what is left unfinished after the horizon is
 * reported as a deadline risk.
 *
 * `ScheduleOf` is the specification, built from `DayScan` (one day) and
 * `RunDays` (the days from one day to the horizon); `BuildSchedule` is the
 * engine's loop, proved to compute it. The per-task counters are a map
 * keyed by task name, as in the engine, so rows with the same name share
 * one counter.
 */
module Scheduler {
  import opened Wrappers
  import opened Tasks
  import opened Sorting

  /**
   * The columns of a scored row the scheduler reads. `failureProbability`
   * is None when the table carries no failure-probability column.
   */
  datatype Job = Job(name: string, daysLeft: int, estHours: real, priorityScore: real,
                     failureProbability: Option<real>)

  /** One grant of hours to a task on a day. */
  datatype Allocation = Allocation(task: string, day: int, hours: real, failureProbability: real, deadlineDay: int)

  /** One row of the day ledger. */
  datatype DaySummary = DaySummary(day: int, allocatedHours: real, remainingCapacity: real,
                                   allocations: seq<(string, real)>, overloadHours: real)

  /** A task still unfinished after the horizon. */
  datatype DeadlineRisk = DeadlineRisk(task: string, unfinishedHours: real, deadlineDay: int)

  /** The scheduler's three results. */
  datatype Schedule = Schedule(ledger: seq<DaySummary>, log: seq<Allocation>, deadlineRisks: seq<DeadlineRisk>)

  /** The least hours the value density divides by. */
  const MIN_DENSITY_HOURS: real := 0.1

  // ---------------------------------------------------------------
  // Dispatch order
  // ---------------------------------------------------------------

  function ValueDensity(j: Job): (v: real)
    ensures v * MaxReal(j.estHours, MIN_DENSITY_HOURS) == j.priorityScore
    ensures j.priorityScore >= 0.0 ==> v >= 0.0
  {
    j.priorityScore / MaxReal(j.estHours, MIN_DENSITY_HOURS)
  }

  function DensityFirst(a: Job, b: Job): bool {
    ValueDensity(a) >= ValueDensity(b)
  }

  function EarliestDeadlineFirst(a: Job, b: Job): (first: bool)
    ensures first ==> a.daysLeft <= b.daysLeft
    ensures a.daysLeft < b.daysLeft ==> first
    ensures a.daysLeft == b.daysLeft ==> (first <==> a.estHours <= b.estHours)
  {
    a.daysLeft < b.daysLeft || (a.daysLeft == b.daysLeft && a.estHours <= b.estHours)
  }

  function DispatchOrder(jobs: seq<Job>, mode: Mode): (order: seq<Job>)
    ensures |order| == |jobs| && multiset(order) == multiset(jobs)
  {
    if mode == Operational then SortBy(jobs, DensityFirst) else SortBy(jobs, EarliestDeadlineFirst)
  }

  /**
   * The dispatch order is a rearrangement of the tasks: by non-increasing
   * value density in Operational mode, otherwise by non-decreasing
   * (days left, estimated hours).
   */
  lemma DispatchOrderFacts(jobs: seq<Job>, mode: Mode)
    ensures var order := DispatchOrder(jobs, mode);
      && |order| == |jobs| && multiset(order) == multiset(jobs)
      && (mode == Operational ==>
            forall i, j :: 0 <= i < j < |order| ==> ValueDensity(order[i]) >= ValueDensity(order[j]))
      && (mode != Operational ==>
            forall i, j :: 0 <= i < j < |order| ==>
              || order[i].daysLeft < order[j].daysLeft
              || (order[i].daysLeft == order[j].daysLeft && order[i].estHours <= order[j].estHours))
  {
    if mode == Operational {
      assert TotalPreorder(DensityFirst);
      SortBySorted(jobs, DensityFirst);
    } else {
      assert TotalPreorder(EarliestDeadlineFirst);
      SortBySorted(jobs, EarliestDeadlineFirst);
    }
  }

  // ---------------------------------------------------------------
  // Per-task state
  // ---------------------------------------------------------------

  /** Every task's name has a counter. */
  ghost predicate Tracks(jobs: seq<Job>, rem: map<string, real>) {
    forall k :: 0 <= k < |jobs| ==> jobs[k].name in rem
  }

  /** The initial counters: name to estimated hours; a later row overwrites an earlier one of the same name. */
  function InitRemaining(jobs: seq<Job>): (m: map<string, real>)
    ensures Tracks(jobs, m)
    ensures forall n :: n in m ==> exists k :: 0 <= k < |jobs| && jobs[k].name == n && m[n] == jobs[k].estHours
  {
    if jobs == [] then map[]
    else
      var init, last := InitRemaining(jobs[..|jobs| - 1]), jobs[|jobs| - 1];
      var m := init[last.name := last.estHours];
      assert forall k :: 0 <= k < |jobs| - 1 ==> jobs[k] == jobs[..|jobs| - 1][k];
      m
  }

  /** Name to failure probability, for the rows that carry one; a later row overwrites an earlier one. */
  function FailureLookup(jobs: seq<Job>): (m: map<string, real>)
    ensures forall k :: 0 <= k < |jobs| && jobs[k].failureProbability.Some? ==> jobs[k].name in m
    ensures forall n :: n in m ==>
      exists k :: 0 <= k < |jobs| && jobs[k].name == n && jobs[k].failureProbability == Some(m[n])
  {
    if jobs == [] then map[]
    else
      var lookup, last := FailureLookup(jobs[..|jobs| - 1]), jobs[|jobs| - 1];
      assert forall k :: 0 <= k < |jobs| - 1 ==> jobs[k] == jobs[..|jobs| - 1][k];
      if last.failureProbability.Some? then lookup[last.name := last.failureProbability.value] else lookup
  }

  /** A name's failure probability, 0.0 if it has none. */
  function FpOf(lookup: map<string, real>, name: string): real {
    if name in lookup then lookup[name] else 0.0
  }

  // ---------------------------------------------------------------
  // Sums over the allocation log
  // ---------------------------------------------------------------

  /** Hours granted to the task of name `n`. */
  function HoursFor(log: seq<Allocation>, n: string): real {
    if log == [] then 0.0 else (if log[0].task == n then log[0].hours else 0.0) + HoursFor(log[1..], n)
  }

  /** Hours granted on day `d`. */
  function HoursOnDay(log: seq<Allocation>, d: int): real {
    if log == [] then 0.0 else (if log[0].day == d then log[0].hours else 0.0) + HoursOnDay(log[1..], d)
  }

  lemma {:induction false} HoursForConcat(a: seq<Allocation>, b: seq<Allocation>, n: string)
    ensures HoursFor(a + b, n) == HoursFor(a, n) + HoursFor(b, n)
  {
    if a == [] {
      assert a + b == b;
    } else {
      assert (a + b)[1..] == a[1..] + b;
      HoursForConcat(a[1..], b, n);
    }
  }

  lemma {:induction false} HoursOnDayConcat(a: seq<Allocation>, b: seq<Allocation>, d: int)
    ensures HoursOnDay(a + b, d) == HoursOnDay(a, d) + HoursOnDay(b, d)
  {
    if a == [] {
      assert a + b == b;
    } else {
      assert (a + b)[1..] == a[1..] + b;
      HoursOnDayConcat(a[1..], b, d);
    }
  }

  lemma {:induction false} HoursOnOtherDays(log: seq<Allocation>, d: int)
    requires forall e :: e in log ==> e.day != d
    ensures HoursOnDay(log, d) == 0.0
  {
    if log != [] {
      assert forall e :: e in log[1..] ==> e in log;
      HoursOnOtherDays(log[1..], d);
    }
  }

  /** The display pairs of a day's grants. */
  function PairsOf(grants: seq<Allocation>): (pairs: seq<(string, real)>)
    ensures |pairs| == |grants|
    ensures forall g :: 0 <= g < |grants| ==> pairs[g] == (grants[g].task, grants[g].hours)
  {
    seq(|grants|, g requires 0 <= g < |grants| => (grants[g].task, grants[g].hours))
  }

  // ---------------------------------------------------------------
  // One day
  // ---------------------------------------------------------------

  /** The counters, the capacity left and the grants after one day's scan. */
  datatype DayOutcome = DayOutcome(remaining: map<string, real>, capLeft: real, grants: seq<Allocation>)

  /**
   * The scan of day `day` from position `i` of the dispatch order: a task
   * with nothing left or whose deadline has passed is skipped; otherwise it
   * takes the smaller of the capacity left and its remaining hours, and the
   * scan stops once the capacity is used up. (When the take is not
   * positive the capacity is already used up, since the task has hours
   * left, and the scan stops.)
   */
  function DayScan(jobs: seq<Job>, lookup: map<string, real>, day: int, rem: map<string, real>,
                   capLeft: real, i: nat): (out: DayOutcome)
    requires i <= |jobs| && Tracks(jobs, rem)
    ensures out.remaining.Keys == rem.Keys
    decreases |jobs| - i
  {
    if i == |jobs| then DayOutcome(rem, capLeft, [])
    else
      var job := jobs[i];
      if rem[job.name] <= 0.0 || day > job.daysLeft then DayScan(jobs, lookup, day, rem, capLeft, i + 1)
      else
        var take := MinReal(capLeft, rem[job.name]);
        if take > 0.0 then
          var grant := Allocation(job.name, day, take, FpOf(lookup, job.name), job.daysLeft);
          var rem' := rem[job.name := rem[job.name] - take];
          if capLeft - take <= 0.0 then DayOutcome(rem', capLeft - take, [grant])
          else
            var rest := DayScan(jobs, lookup, day, rem', capLeft - take, i + 1);
            DayOutcome(rest.remaining, rest.capLeft, [grant] + rest.grants)
        else DayOutcome(rem, capLeft, [])
  }

  /** A log entry: positive hours, not after its deadline, for a real task, with that task's probability. */
  ghost predicate EntryOk(jobs: seq<Job>, lookup: map<string, real>, e: Allocation) {
    && e.hours > 0.0
    && e.day <= e.deadlineDay
    && e.failureProbability == FpOf(lookup, e.task)
    && exists k :: 0 <= k < |jobs| && jobs[k].name == e.task && jobs[k].daysLeft == e.deadlineDay
  }

  /**
   * `after` is `before` less the hours in `grants`, name by name; a counter
   * already at or below zero is left alone, and a positive one never goes
   * negative.
   */
  ghost predicate Decreased(before: map<string, real>, after: map<string, real>, grants: seq<Allocation>) {
    && after.Keys == before.Keys
    && forall n :: n in before ==>
         && before[n] - after[n] == HoursFor(grants, n)
         && after[n] <= before[n]
         && (before[n] <= 0.0 ==> after[n] == before[n])
         && (before[n] > 0.0 ==> after[n] >= 0.0)
  }

  lemma DecreasedNothing(rem: map<string, real>)
    ensures Decreased(rem, rem, [])
  {
  }

  lemma DecreasedTrans(a: map<string, real>, b: map<string, real>, c: map<string, real>,
                       g1: seq<Allocation>, g2: seq<Allocation>)
    requires Decreased(a, b, g1) && Decreased(b, c, g2)
    ensures Decreased(a, c, g1 + g2)
  {
    forall n | n in a ensures HoursFor(g1 + g2, n) == HoursFor(g1, n) + HoursFor(g2, n) {
      HoursForConcat(g1, g2, n);
    }
  }

  lemma DecreasedStep(rem: map<string, real>, e: Allocation)
    requires e.task in rem && 0.0 < e.hours <= rem[e.task]
    ensures Decreased(rem, rem[e.task := rem[e.task] - e.hours], [e])
  {
    var after := rem[e.task := rem[e.task] - e.hours];
    forall n | n in rem ensures rem[n] - after[n] == HoursFor([e], n) {
      assert HoursFor([e], n) == (if e.task == n then e.hours else 0.0) + HoursFor([], n);
    }
  }

  /**
   * One day's capacity: with non-negative capacity the capacity left stays
   * in [0, capacity], it never grows, and the hours used equal the day's
   * granted hours.
   */
  lemma {:induction false} DayScanCapacity(jobs: seq<Job>, lookup: map<string, real>, day: int,
                                           rem: map<string, real>, capLeft: real, i: nat)
    requires i <= |jobs| && Tracks(jobs, rem)
    ensures var out := DayScan(jobs, lookup, day, rem, capLeft, i);
      && (capLeft >= 0.0 ==> 0.0 <= out.capLeft)
      && out.capLeft <= capLeft
      && capLeft - out.capLeft == HoursOnDay(out.grants, day)
    decreases |jobs| - i
  {
    if i < |jobs| {
      var job := jobs[i];
      if rem[job.name] <= 0.0 || day > job.daysLeft {
        DayScanCapacity(jobs, lookup, day, rem, capLeft, i + 1);
      } else {
        var take := MinReal(capLeft, rem[job.name]);
        if take > 0.0 {
          var grant := Allocation(job.name, day, take, FpOf(lookup, job.name), job.daysLeft);
          var rem' := rem[job.name := rem[job.name] - take];
          if capLeft - take > 0.0 {
            var rest := DayScan(jobs, lookup, day, rem', capLeft - take, i + 1);
            DayScanCapacity(jobs, lookup, day, rem', capLeft - take, i + 1);
            assert ([grant] + rest.grants)[1..] == rest.grants;
            assert HoursOnDay([grant] + rest.grants, day) == take + HoursOnDay(rest.grants, day);
          } else {
            assert HoursOnDay([grant], day) == take + HoursOnDay([], day);
          }
        }
      }
    }
  }

  /** One day's grants are all dated that day. */
  lemma {:induction false} DayScanDays(jobs: seq<Job>, lookup: map<string, real>, day: int,
                                       rem: map<string, real>, capLeft: real, i: nat)
    requires i <= |jobs| && Tracks(jobs, rem)
    ensures forall e :: e in DayScan(jobs, lookup, day, rem, capLeft, i).grants ==> e.day == day
    decreases |jobs| - i
  {
    var out := DayScan(jobs, lookup, day, rem, capLeft, i);
    if i < |jobs| {
      var job := jobs[i];
      if rem[job.name] <= 0.0 || day > job.daysLeft {
        DayScanDays(jobs, lookup, day, rem, capLeft, i + 1);
        assert out == DayScan(jobs, lookup, day, rem, capLeft, i + 1);
      } else {
        var take := MinReal(capLeft, rem[job.name]);
        if take > 0.0 && capLeft - take > 0.0 {
          DayScanDays(jobs, lookup, day, rem[job.name := rem[job.name] - take], capLeft - take, i + 1);
        }
      }
    }
  }

  /** One day's grants are all valid log entries. */
  lemma {:induction false} DayScanEntries(jobs: seq<Job>, lookup: map<string, real>, day: int,
                                          rem: map<string, real>, capLeft: real, i: nat)
    requires i <= |jobs| && Tracks(jobs, rem)
    ensures forall e :: e in DayScan(jobs, lookup, day, rem, capLeft, i).grants ==> EntryOk(jobs, lookup, e)
    decreases |jobs| - i
  {
    var out := DayScan(jobs, lookup, day, rem, capLeft, i);
    if i < |jobs| {
      var job := jobs[i];
      if rem[job.name] <= 0.0 || day > job.daysLeft {
        DayScanEntries(jobs, lookup, day, rem, capLeft, i + 1);
        assert out == DayScan(jobs, lookup, day, rem, capLeft, i + 1);
      } else {
        var take := MinReal(capLeft, rem[job.name]);
        if take > 0.0 {
          var grant := Allocation(job.name, day, take, FpOf(lookup, job.name), job.daysLeft);
          assert jobs[i].name == grant.task && jobs[i].daysLeft == grant.deadlineDay;
          assert EntryOk(jobs, lookup, grant);
          if capLeft - take > 0.0 {
            DayScanEntries(jobs, lookup, day, rem[job.name := rem[job.name] - take], capLeft - take, i + 1);
          }
        }
      }
    }
  }

  /** One day's counters: they drop by exactly the granted hours. */
  lemma {:induction false} DayScanDecreased(jobs: seq<Job>, lookup: map<string, real>, day: int,
                                            rem: map<string, real>, capLeft: real, i: nat)
    requires i <= |jobs| && Tracks(jobs, rem)
    ensures var out := DayScan(jobs, lookup, day, rem, capLeft, i);
      Decreased(rem, out.remaining, out.grants)
    decreases |jobs| - i
  {
    if i == |jobs| {
      DecreasedNothing(rem);
    } else if rem[jobs[i].name] <= 0.0 || day > jobs[i].daysLeft {
      DayScanSkipStep(jobs, lookup, day, rem, capLeft, i);
      DayScanDecreased(jobs, lookup, day, rem, capLeft, i + 1);
    } else if MinReal(capLeft, rem[jobs[i].name]) <= 0.0 {
      DayScanStopStep(jobs, lookup, day, rem, capLeft, i);
      DecreasedNothing(rem);
    } else {
      var job := jobs[i];
      var take := MinReal(capLeft, rem[job.name]);
      var grant := Allocation(job.name, day, take, FpOf(lookup, job.name), job.daysLeft);
      var rem' := rem[job.name := rem[job.name] - take];
      DayScanGrantStep(jobs, lookup, day, rem, capLeft, i);
      DecreasedStep(rem, grant);
      if capLeft - take > 0.0 {
        var rest := DayScan(jobs, lookup, day, rem', capLeft - take, i + 1);
        DayScanDecreased(jobs, lookup, day, rem', capLeft - take, i + 1);
        DecreasedTrans(rem, rem', rest.remaining, [grant], rest.grants);
      }
    }
  }

  /**
   * Work conservation within a day: if the day ends with capacity left,
   * every task from position `i` on whose deadline is not yet past has
   * nothing left.
   */
  lemma {:induction false} DayScanWorkConserving(jobs: seq<Job>, lookup: map<string, real>, day: int,
                                                 rem: map<string, real>, capLeft: real, i: nat)
    requires i <= |jobs| && Tracks(jobs, rem)
    ensures var out := DayScan(jobs, lookup, day, rem, capLeft, i);
      out.capLeft > 0.0 ==>
        forall k :: i <= k < |jobs| && day <= jobs[k].daysLeft ==> out.remaining[jobs[k].name] <= 0.0
    decreases |jobs| - i
  {
    if i == |jobs| {
    } else if rem[jobs[i].name] <= 0.0 || day > jobs[i].daysLeft {
      DayScanSkipStep(jobs, lookup, day, rem, capLeft, i);
      DayScanWorkConserving(jobs, lookup, day, rem, capLeft, i + 1);
      DayScanDecreased(jobs, lookup, day, rem, capLeft, i + 1);
    } else if MinReal(capLeft, rem[jobs[i].name]) <= 0.0 {
      DayScanStopStep(jobs, lookup, day, rem, capLeft, i);
    } else {
      var job := jobs[i];
      var take := MinReal(capLeft, rem[job.name]);
      var rem' := rem[job.name := rem[job.name] - take];
      DayScanGrantStep(jobs, lookup, day, rem, capLeft, i);
      if capLeft - take > 0.0 {
        assert rem'[job.name] == 0.0;
        DayScanWorkConserving(jobs, lookup, day, rem', capLeft - take, i + 1);
        DayScanDecreased(jobs, lookup, day, rem', capLeft - take, i + 1);
      }
    }
  }

  // ---------------------------------------------------------------
  // The day loop
  // ---------------------------------------------------------------

  /** The ledger row of a day given that day's scan. */
  function Summarise(day: int, capacity: real, out: DayOutcome): (s: DaySummary)
    ensures s.day == day && s.remainingCapacity == out.capLeft
    ensures s.allocatedHours + s.remainingCapacity == capacity
    ensures s.allocations == PairsOf(out.grants)
    ensures s.overloadHours >= 0.0 && (out.capLeft >= 0.0 ==> s.overloadHours == 0.0)
  {
    var used := capacity - out.capLeft;
    DaySummary(day, used, out.capLeft, PairsOf(out.grants), MaxReal(0.0, used - capacity))
  }

  datatype Run = Run(ledger: seq<DaySummary>, log: seq<Allocation>, remaining: map<string, real>)

  /** The days from `day` to `horizon`, each scanned with a fresh day's capacity. */
  function RunDays(jobs: seq<Job>, lookup: map<string, real>, capacity: real, horizon: int, day: int,
                   rem: map<string, real>): (run: Run)
    requires Tracks(jobs, rem)
    ensures run.remaining.Keys == rem.Keys
    decreases horizon - day
  {
    if day > horizon then Run([], [], rem)
    else
      var out := DayScan(jobs, lookup, day, rem, capacity, 0);
      var rest := RunDays(jobs, lookup, capacity, horizon, day + 1, out.remaining);
      Run([Summarise(day, capacity, out)] + rest.ledger, out.grants + rest.log, rest.remaining)
  }

  /** `RunDays` from a day within the horizon is that day's row and grants followed by the later days. */
  lemma RunDaysStep(jobs: seq<Job>, lookup: map<string, real>, capacity: real, horizon: int, day: int,
                    rem: map<string, real>, out: DayOutcome, ledger: seq<DaySummary>, log: seq<Allocation>)
    requires Tracks(jobs, rem) && day <= horizon
    requires out == DayScan(jobs, lookup, day, rem, capacity, 0)
    ensures var rest := RunDays(jobs, lookup, capacity, horizon, day + 1, out.remaining);
      var whole := RunDays(jobs, lookup, capacity, horizon, day, rem);
      Run(ledger + whole.ledger, log + whole.log, whole.remaining)
        == Run((ledger + [Summarise(day, capacity, out)]) + rest.ledger, (log + out.grants) + rest.log, rest.remaining)
  {
    var rest := RunDays(jobs, lookup, capacity, horizon, day + 1, out.remaining);
    assert (ledger + [Summarise(day, capacity, out)]) + rest.ledger == ledger + ([Summarise(day, capacity, out)] + rest.ledger);
    assert (log + out.grants) + rest.log == log + (out.grants + rest.log);
  }

  /** One ledger row: its hours add up, and with non-negative capacity nothing is overbooked. */
  ghost predicate SummaryOk(s: DaySummary, capacity: real, log: seq<Allocation>) {
    && s.allocatedHours == capacity - s.remainingCapacity
    && s.allocatedHours == HoursOnDay(log, s.day)
    && (capacity >= 0.0 ==>
          && 0.0 <= s.remainingCapacity <= capacity
          && 0.0 <= s.allocatedHours <= capacity
          && s.overloadHours == 0.0)
  }

  /** The days from `day` on: the log's entries are dated within the days run. */
  lemma {:induction false} RunLogDays(jobs: seq<Job>, lookup: map<string, real>, capacity: real, horizon: int,
                                    day: int, rem: map<string, real>)
    requires Tracks(jobs, rem)
    ensures forall e :: e in RunDays(jobs, lookup, capacity, horizon, day, rem).log ==> day <= e.day <= horizon
    decreases horizon - day
  {
    if day <= horizon {
      var out := DayScan(jobs, lookup, day, rem, capacity, 0);
      DayScanDays(jobs, lookup, day, rem, capacity, 0);
      RunLogDays(jobs, lookup, capacity, horizon, day + 1, out.remaining);
    }
  }

  /** The days from `day` on: one ledger row per day in order, each consistent with the log. */
  lemma {:induction false} RunLedger(jobs: seq<Job>, lookup: map<string, real>, capacity: real, horizon: int,
                                     day: int, rem: map<string, real>)
    requires Tracks(jobs, rem)
    ensures var run := RunDays(jobs, lookup, capacity, horizon, day, rem);
      && |run.ledger| == (if day > horizon then 0 else horizon - day + 1)
      && (forall k :: 0 <= k < |run.ledger| ==>
            run.ledger[k].day == day + k && SummaryOk(run.ledger[k], capacity, run.log))
    decreases horizon - day
  {
    var run := RunDays(jobs, lookup, capacity, horizon, day, rem);
    if day <= horizon {
      var out := DayScan(jobs, lookup, day, rem, capacity, 0);
      var rest := RunDays(jobs, lookup, capacity, horizon, day + 1, out.remaining);
      assert run.log == out.grants + rest.log;
      assert run.ledger == [Summarise(day, capacity, out)] + rest.ledger;
      RunLedger(jobs, lookup, capacity, horizon, day + 1, out.remaining);
      forall k | 0 <= k < |run.ledger|
        ensures run.ledger[k].day == day + k && SummaryOk(run.ledger[k], capacity, run.log)
      {
        RunLedgerRow(jobs, lookup, capacity, horizon, day, rem, k);
      }
    }
  }

  /** The step of `RunLedger` for one row. */
  lemma RunLedgerRow(jobs: seq<Job>, lookup: map<string, real>, capacity: real, horizon: int,
                     day: int, rem: map<string, real>, k: int)
    requires Tracks(jobs, rem) && day <= horizon && 0 <= k <= horizon - day
    requires var out := DayScan(jobs, lookup, day, rem, capacity, 0);
      var rest := RunDays(jobs, lookup, capacity, horizon, day + 1, out.remaining);
      && |rest.ledger| == horizon - day
      && (0 < k ==> rest.ledger[k - 1].day == day + k && SummaryOk(rest.ledger[k - 1], capacity, rest.log))
    ensures var run := RunDays(jobs, lookup, capacity, horizon, day, rem);
      k < |run.ledger| && run.ledger[k].day == day + k && SummaryOk(run.ledger[k], capacity, run.log)
  {
    var run := RunDays(jobs, lookup, capacity, horizon, day, rem);
    var out := DayScan(jobs, lookup, day, rem, capacity, 0);
    var rest := RunDays(jobs, lookup, capacity, horizon, day + 1, out.remaining);
    var d := day + k;
    HoursOnDayConcat(out.grants, rest.log, d);
    if k == 0 {
      DayScanCapacity(jobs, lookup, day, rem, capacity, 0);
      RunLogDays(jobs, lookup, capacity, horizon, day + 1, out.remaining);
      HoursOnOtherDays(rest.log, d);
    } else {
      assert run.ledger[k] == rest.ledger[k - 1];
      DayScanDays(jobs, lookup, day, rem, capacity, 0);
      HoursOnOtherDays(out.grants, d);
    }
  }

  /** The days from `day` on: every log entry is valid. */
  lemma {:induction false} RunEntries(jobs: seq<Job>, lookup: map<string, real>, capacity: real, horizon: int,
                                      day: int, rem: map<string, real>)
    requires Tracks(jobs, rem)
    ensures forall e :: e in RunDays(jobs, lookup, capacity, horizon, day, rem).log ==> EntryOk(jobs, lookup, e)
    decreases horizon - day
  {
    if day <= horizon {
      var out := DayScan(jobs, lookup, day, rem, capacity, 0);
      DayScanEntries(jobs, lookup, day, rem, capacity, 0);
      RunEntries(jobs, lookup, capacity, horizon, day + 1, out.remaining);
    }
  }

  /** The days from `day` on: the counters drop by exactly the logged hours. */
  lemma {:induction false} RunDecreased(jobs: seq<Job>, lookup: map<string, real>, capacity: real, horizon: int,
                                        day: int, rem: map<string, real>)
    requires Tracks(jobs, rem)
    ensures var run := RunDays(jobs, lookup, capacity, horizon, day, rem);
      Decreased(rem, run.remaining, run.log)
    decreases horizon - day
  {
    if day > horizon {
      DecreasedNothing(rem);
    } else {
      var out := DayScan(jobs, lookup, day, rem, capacity, 0);
      var rest := RunDays(jobs, lookup, capacity, horizon, day + 1, out.remaining);
      DayScanDecreased(jobs, lookup, day, rem, capacity, 0);
      RunDecreased(jobs, lookup, capacity, horizon, day + 1, out.remaining);
      DecreasedTrans(rem, out.remaining, rest.remaining, out.grants, rest.log);
    }
  }

  /**
   * Work conservation over the run: if day `day + k` ends with capacity
   * left, every task whose deadline is that day or later ends the run with
   * nothing left.
   */
  lemma {:induction false} RunWorkConserving(jobs: seq<Job>, lookup: map<string, real>, capacity: real,
                                             horizon: int, day: int, rem: map<string, real>, k: nat)
    requires Tracks(jobs, rem)
    requires var run := RunDays(jobs, lookup, capacity, horizon, day, rem);
      k < |run.ledger| && run.ledger[k].remainingCapacity > 0.0
    ensures var run := RunDays(jobs, lookup, capacity, horizon, day, rem);
      forall j :: 0 <= j < |jobs| && day + k <= jobs[j].daysLeft ==> run.remaining[jobs[j].name] <= 0.0
    decreases k
  {
    var out := DayScan(jobs, lookup, day, rem, capacity, 0);
    var rest := RunDays(jobs, lookup, capacity, horizon, day + 1, out.remaining);
    RunDecreased(jobs, lookup, capacity, horizon, day + 1, out.remaining);
    if k == 0 {
      DayScanWorkConserving(jobs, lookup, day, rem, capacity, 0);
    } else {
      RunWorkConserving(jobs, lookup, capacity, horizon, day + 1, out.remaining, k - 1);
    }
  }

  // ---------------------------------------------------------------
  // Deadline risks and the whole schedule
  // ---------------------------------------------------------------

  /** In dispatch order, every task whose counter is still positive, with what is left. */
  function DeadlineRisks(jobs: seq<Job>, rem: map<string, real>): (rs: seq<DeadlineRisk>)
    requires Tracks(jobs, rem)
    ensures |rs| <= |jobs|
    ensures forall r :: r in rs ==> r.unfinishedHours > 0.0
  {
    if jobs == [] then []
    else
      var last := jobs[|jobs| - 1];
      assert Tracks(jobs[..|jobs| - 1], rem);
      DeadlineRisks(jobs[..|jobs| - 1], rem)
      + (if rem[last.name] > 0.0 then [DeadlineRisk(last.name, rem[last.name], last.daysLeft)] else [])
  }

  lemma {:induction false} DeadlineRisksMembers(jobs: seq<Job>, rem: map<string, real>)
    requires Tracks(jobs, rem)
    ensures forall r :: r in DeadlineRisks(jobs, rem) <==>
      exists k :: 0 <= k < |jobs| && rem[jobs[k].name] > 0.0 &&
        r == DeadlineRisk(jobs[k].name, rem[jobs[k].name], jobs[k].daysLeft)
  {
    if jobs != [] {
      var init := jobs[..|jobs| - 1];
      assert Tracks(init, rem);
      DeadlineRisksMembers(init, rem);
      assert forall k :: 0 <= k < |init| ==> init[k] == jobs[k];
    }
  }

  /** If no task due on day `d` or later has hours left, every deadline risk is due before `d`. */
  lemma {:induction false} DeadlineRisksDueBefore(jobs: seq<Job>, rem: map<string, real>, d: int)
    requires Tracks(jobs, rem)
    requires forall j :: 0 <= j < |jobs| && d <= jobs[j].daysLeft ==> rem[jobs[j].name] <= 0.0
    ensures forall r :: r in DeadlineRisks(jobs, rem) ==> r.deadlineDay < d
  {
    if jobs != [] {
      var init := jobs[..|jobs| - 1];
      assert forall j :: 0 <= j < |init| ==> init[j] == jobs[j];
      DeadlineRisksDueBefore(init, rem, d);
    }
  }

  /**
   * Where each deadline risk comes from: strictly increasing positions in
   * the dispatch order, so the risk list keeps the order's sequence, and
   * each risk carries that row's name, counter and deadline.
   */
  ghost function RiskPositions(jobs: seq<Job>, rem: map<string, real>): (idx: seq<int>)
    requires Tracks(jobs, rem)
    ensures var rs := DeadlineRisks(jobs, rem);
      && |idx| == |rs|
      && (forall i :: 0 <= i < |idx| ==> 0 <= idx[i] < |jobs|)
      && (forall i :: 0 <= i < |idx| ==>
            rs[i] == DeadlineRisk(jobs[idx[i]].name, rem[jobs[idx[i]].name], jobs[idx[i]].daysLeft))
      && (forall i, j :: 0 <= i < j < |idx| ==> idx[i] < idx[j])
  {
    if jobs == [] then []
    else
      var init := jobs[..|jobs| - 1];
      var last := jobs[|jobs| - 1];
      assert Tracks(init, rem);
      var p := RiskPositions(init, rem);
      var rs0 := DeadlineRisks(init, rem);
      assert forall i :: 0 <= i < |p| ==> init[p[i]] == jobs[p[i]];
      if rem[last.name] > 0.0 then
        var here := DeadlineRisk(last.name, rem[last.name], last.daysLeft);
        assert DeadlineRisks(jobs, rem) == rs0 + [here];
        var idx := p + [|jobs| - 1];
        assert forall i :: 0 <= i < |p| ==> idx[i] == p[i] && (rs0 + [here])[i] == rs0[i];
        idx
      else
        assert DeadlineRisks(jobs, rem) == rs0;
        p
  }

  /** With distinct names, the risk list names each task at most once. */
  lemma DeadlineRisksOnce(jobs: seq<Job>, rem: map<string, real>)
    requires DistinctNames(jobs) && Tracks(jobs, rem)
    ensures var rs := DeadlineRisks(jobs, rem);
      forall i, j :: 0 <= i < j < |rs| ==> rs[i].task != rs[j].task
  {
    var rs := DeadlineRisks(jobs, rem);
    var idx := RiskPositions(jobs, rem);
    forall i, j | 0 <= i < j < |rs| ensures rs[i].task != rs[j].task {
      assert idx[i] < idx[j];
      assert rs[i].task == jobs[idx[i]].name && rs[j].task == jobs[idx[j]].name;
    }
  }

  /** The schedule of tasks already in dispatch order. */
  function ScheduleFrom(order: seq<Job>, capacity: real, horizon: int): Schedule {
    var run := RunDays(order, FailureLookup(order), capacity, horizon, 1, InitRemaining(order));
    Schedule(run.ledger, run.log, DeadlineRisks(order, run.remaining))
  }

  /** The scheduler's specification: the ledger, the allocation log and the deadline risks. */
  function ScheduleOf(jobs: seq<Job>, capacity: real, horizon: int, mode: Mode): Schedule {
    ScheduleFrom(DispatchOrder(jobs, mode), capacity, horizon)
  }

  /**
   * The ledger has one row per day 1..horizon in order; on each day the
   * hours allocated are the day's capacity less what is left and equal the
   * hours logged that day; with non-negative capacity a day never
   * allocates more than its capacity and never reports overload.
   */
  lemma ScheduleLedger(jobs: seq<Job>, capacity: real, horizon: int, mode: Mode)
    ensures var s := ScheduleOf(jobs, capacity, horizon, mode);
      && |s.ledger| == (if horizon < 1 then 0 else horizon)
      && forall k :: 0 <= k < |s.ledger| ==> s.ledger[k].day == k + 1 && SummaryOk(s.ledger[k], capacity, s.log)
  {
    var order := DispatchOrder(jobs, mode);
    RunLedger(order, FailureLookup(order), capacity, horizon, 1, InitRemaining(order));
  }

  /** `ScheduleLog` for tasks already in dispatch order. */
  lemma LogFrom(order: seq<Job>, capacity: real, horizon: int)
    ensures forall e :: e in ScheduleFrom(order, capacity, horizon).log ==>
      && 0.0 < e.hours
      && 1 <= e.day <= horizon
      && e.day <= e.deadlineDay
      && (exists j :: j in order && j.name == e.task && j.daysLeft == e.deadlineDay)
      && (e.failureProbability == 0.0 ||
          exists j :: j in order && j.name == e.task && j.failureProbability == Some(e.failureProbability))
  {
    var lookup := FailureLookup(order);
    var rem := InitRemaining(order);
    RunLogDays(order, lookup, capacity, horizon, 1, rem);
    RunEntries(order, lookup, capacity, horizon, 1, rem);
    forall e | e in ScheduleFrom(order, capacity, horizon).log
      ensures exists j :: j in order && j.name == e.task && j.daysLeft == e.deadlineDay
      ensures e.failureProbability == 0.0 ||
              exists j :: j in order && j.name == e.task && j.failureProbability == Some(e.failureProbability)
    {
      assert EntryOk(order, lookup, e);
      var k :| 0 <= k < |order| && order[k].name == e.task && order[k].daysLeft == e.deadlineDay;
      assert order[k] in order;
      if e.task in lookup {
        var m :| 0 <= m < |order| && order[m].name == e.task && order[m].failureProbability == Some(lookup[e.task]);
        assert order[m] in order;
      }
    }
  }

  /**
   * Every log entry grants positive hours on a day within the horizon and
   * not after its task's deadline, to a task of the input with that
   * deadline, annotated with a failure probability that is 0.0 or one the
   * input carries for that name.
   */
  lemma ScheduleLog(jobs: seq<Job>, capacity: real, horizon: int, mode: Mode)
    ensures forall e :: e in ScheduleOf(jobs, capacity, horizon, mode).log ==>
      && 0.0 < e.hours
      && 1 <= e.day <= horizon
      && e.day <= e.deadlineDay
      && (exists j :: j in jobs && j.name == e.task && j.daysLeft == e.deadlineDay)
      && (e.failureProbability == 0.0 ||
          exists j :: j in jobs && j.name == e.task && j.failureProbability == Some(e.failureProbability))
  {
    var order := DispatchOrder(jobs, mode);
    DispatchOrderFacts(jobs, mode);
    LogFrom(order, capacity, horizon);
    assert forall j :: j in order <==> j in jobs by {
      forall j ensures j in order <==> j in jobs {
        assert j in order <==> j in multiset(order);
      }
    }
  }

  /** `ScheduleRisks` for tasks already in dispatch order. */
  lemma RisksFrom(order: seq<Job>, capacity: real, horizon: int)
    ensures forall r :: r in ScheduleFrom(order, capacity, horizon).deadlineRisks ==>
      r.unfinishedHours > 0.0 && exists j :: j in order && j.name == r.task && j.daysLeft == r.deadlineDay
  {
    var run := RunDays(order, FailureLookup(order), capacity, horizon, 1, InitRemaining(order));
    DeadlineRisksMembers(order, run.remaining);
    forall r | r in ScheduleFrom(order, capacity, horizon).deadlineRisks
      ensures r.unfinishedHours > 0.0 && exists j :: j in order && j.name == r.task && j.daysLeft == r.deadlineDay
    {
      var k :| 0 <= k < |order| && run.remaining[order[k].name] > 0.0 &&
        r == DeadlineRisk(order[k].name, run.remaining[order[k].name], order[k].daysLeft);
      assert order[k] in order;
    }
  }

  /**
   * Every deadline risk is an input task with hours still unfinished, and
   * its deadline day is that task's.
   */
  lemma ScheduleRisks(jobs: seq<Job>, capacity: real, horizon: int, mode: Mode)
    ensures forall r :: r in ScheduleOf(jobs, capacity, horizon, mode).deadlineRisks ==>
      r.unfinishedHours > 0.0 && exists j :: j in jobs && j.name == r.task && j.daysLeft == r.deadlineDay
  {
    var order := DispatchOrder(jobs, mode);
    DispatchOrderFacts(jobs, mode);
    RisksFrom(order, capacity, horizon);
    assert forall j :: j in order <==> j in jobs by {
      forall j ensures j in order <==> j in jobs {
        assert j in order <==> j in multiset(order);
      }
    }
  }

  /** `ScheduleWorkConserving` for tasks already in dispatch order. */
  lemma WorkConservingFrom(order: seq<Job>, capacity: real, horizon: int, k: int)
    requires 0 <= k < |ScheduleFrom(order, capacity, horizon).ledger|
    requires ScheduleFrom(order, capacity, horizon).ledger[k].remainingCapacity > 0.0
    ensures forall r :: r in ScheduleFrom(order, capacity, horizon).deadlineRisks ==> r.deadlineDay < k + 1
  {
    var lookup, rem := FailureLookup(order), InitRemaining(order);
    var run := RunDays(order, lookup, capacity, horizon, 1, rem);
    RunWorkConserving(order, lookup, capacity, horizon, 1, rem, k);
    DeadlineRisksDueBefore(order, run.remaining, k + 1);
  }

  /**
   * Work conservation: if day `k + 1` ends with capacity left, every task
   * still at risk at the end was due before that day.
   */
  lemma ScheduleWorkConserving(jobs: seq<Job>, capacity: real, horizon: int, mode: Mode, k: int)
    requires 0 <= k < |ScheduleOf(jobs, capacity, horizon, mode).ledger|
    requires ScheduleOf(jobs, capacity, horizon, mode).ledger[k].remainingCapacity > 0.0
    ensures forall r :: r in ScheduleOf(jobs, capacity, horizon, mode).deadlineRisks ==> r.deadlineDay < k + 1
  {
    WorkConservingFrom(DispatchOrder(jobs, mode), capacity, horizon, k);
  }

  /** No two rows share a name. */
  predicate DistinctNames(jobs: seq<Job>) {
    forall i, j :: 0 <= i < j < |jobs| ==> jobs[i].name != jobs[j].name
  }

  /** With distinct names, every row of the dispatch order named `n` is the input row named `n`. */
  lemma OrderRowsOfName(jobs: seq<Job>, mode: Mode, k: int)
    requires DistinctNames(jobs) && 0 <= k < |jobs|
    ensures var order := DispatchOrder(jobs, mode);
      && jobs[k] in order
      && forall m :: 0 <= m < |order| && order[m].name == jobs[k].name ==> order[m] == jobs[k]
  {
    var order := DispatchOrder(jobs, mode);
    DispatchOrderFacts(jobs, mode);
    assert jobs[k] in multiset(order);
    forall m | 0 <= m < |order| && order[m].name == jobs[k].name ensures order[m] == jobs[k] {
      assert order[m] in multiset(jobs);
      var k' :| 0 <= k' < |jobs| && jobs[k'] == order[m];
    }
  }

  /** The run over an order, from day 1 with every counter at its estimate. */
  function RunFrom(order: seq<Job>, capacity: real, horizon: int): Run {
    RunDays(order, FailureLookup(order), capacity, horizon, 1, InitRemaining(order))
  }

  /** A row standing for its name: the only row with that name, up to equality. */
  ghost predicate Represents(order: seq<Job>, t: Job) {
    && t in order
    && forall m :: 0 <= m < |order| && order[m].name == t.name ==> order[m] == t
  }

  /** The counter of `t` ends at its estimate less the hours granted to it, within the estimate. */
  lemma TaskHoursRun(order: seq<Job>, capacity: real, horizon: int, t: Job)
    requires Represents(order, t)
    ensures var run, n, est := RunFrom(order, capacity, horizon), t.name, t.estHours;
      var granted := HoursFor(run.log, n);
      && Tracks(order, run.remaining)
      && run.remaining[n] == est - granted
      && (est >= 0.0 ==> 0.0 <= granted <= est)
      && (est <= 0.0 ==> granted == 0.0)
  {
    var rem := InitRemaining(order);
    var m0 :| 0 <= m0 < |order| && order[m0] == t;
    assert rem[t.name] == t.estHours;
    RunDecreased(order, FailureLookup(order), capacity, horizon, 1, rem);
  }

  /** `t` is listed as a risk exactly when its final counter is positive, and then with that counter. */
  lemma TaskRiskRun(order: seq<Job>, rem: map<string, real>, t: Job)
    requires Represents(order, t) && Tracks(order, rem)
    ensures var n := t.name;
      && ((exists r :: r in DeadlineRisks(order, rem) && r.task == n) <==> rem[n] > 0.0)
      && (forall r :: r in DeadlineRisks(order, rem) && r.task == n ==> r == DeadlineRisk(n, rem[n], t.daysLeft))
  {
    var m0 :| 0 <= m0 < |order| && order[m0] == t;
    DeadlineRisksMembers(order, rem);
    if rem[t.name] > 0.0 {
      assert DeadlineRisk(t.name, rem[t.name], order[m0].daysLeft) in DeadlineRisks(order, rem);
    }
  }

  /** Every log entry for `t` carries its deadline and its failure probability. */
  lemma TaskEntriesRun(order: seq<Job>, capacity: real, horizon: int, t: Job)
    requires Represents(order, t)
    ensures forall e :: e in RunFrom(order, capacity, horizon).log && e.task == t.name ==>
      e.deadlineDay == t.daysLeft && e.failureProbability == t.failureProbability.GetOr(0.0)
  {
    var lookup := FailureLookup(order);
    var n := t.name;
    RunEntries(order, lookup, capacity, horizon, 1, InitRemaining(order));
    forall e | e in RunFrom(order, capacity, horizon).log && e.task == n
      ensures e.deadlineDay == t.daysLeft && e.failureProbability == t.failureProbability.GetOr(0.0)
    {
      assert EntryOk(order, lookup, e);
      if n in lookup {
        var m :| 0 <= m < |order| && order[m].name == n && order[m].failureProbability == Some(lookup[n]);
      }
    }
  }

  /** `ScheduleTaskHours` for tasks already in dispatch order, given one row `t` standing for its name. */
  lemma TaskHoursFrom(order: seq<Job>, capacity: real, horizon: int, t: Job)
    requires Represents(order, t)
    ensures var s, n, est := ScheduleFrom(order, capacity, horizon), t.name, t.estHours;
      var granted := HoursFor(s.log, n);
      && (est >= 0.0 ==> 0.0 <= granted <= est)
      && (est <= 0.0 ==> granted == 0.0)
      && ((exists r :: r in s.deadlineRisks && r.task == n) <==> granted < est)
      && (forall r :: r in s.deadlineRisks && r.task == n ==> r == DeadlineRisk(n, est - granted, t.daysLeft))
      && (forall e :: e in s.log && e.task == n ==>
            e.deadlineDay == t.daysLeft && e.failureProbability == t.failureProbability.GetOr(0.0))
  {
    var run := RunFrom(order, capacity, horizon);
    TaskHoursRun(order, capacity, horizon, t);
    TaskRiskRun(order, run.remaining, t);
    TaskEntriesRun(order, capacity, horizon, t);
    assert ScheduleFrom(order, capacity, horizon) == Schedule(run.ledger, run.log, DeadlineRisks(order, run.remaining));
  }

  /**
   * Per task, when names are distinct: a task with non-negative estimate
   * is granted between 0 and its estimate in total, one with a
   * non-positive estimate nothing; it is a deadline risk exactly when it
   * was granted less than its estimate, and its risk entry then reports
   * the estimate less the hours granted and its own deadline; its log
   * entries carry its own deadline and failure probability (0.0 without
   * one).
   */
  lemma ScheduleTaskHours(jobs: seq<Job>, capacity: real, horizon: int, mode: Mode, k: int)
    requires DistinctNames(jobs) && 0 <= k < |jobs|
    ensures var s, n, est := ScheduleOf(jobs, capacity, horizon, mode), jobs[k].name, jobs[k].estHours;
      var granted := HoursFor(s.log, n);
      && (est >= 0.0 ==> 0.0 <= granted <= est)
      && (est <= 0.0 ==> granted == 0.0)
      && ((exists r :: r in s.deadlineRisks && r.task == n) <==> granted < est)
      && (forall i, j :: 0 <= i < j < |s.deadlineRisks| && s.deadlineRisks[i].task == n ==>
            s.deadlineRisks[j].task != n)
      && (forall r :: r in s.deadlineRisks && r.task == n ==>
            r == DeadlineRisk(n, est - granted, jobs[k].daysLeft))
      && (forall e :: e in s.log && e.task == n ==>
            e.deadlineDay == jobs[k].daysLeft && e.failureProbability == jobs[k].failureProbability.GetOr(0.0))
  {
    OrderRowsOfName(jobs, mode, k);
    TaskHoursFrom(DispatchOrder(jobs, mode), capacity, horizon, jobs[k]);
    ScheduleRisksOnce(jobs, capacity, horizon, mode);
  }

  /** With distinct names, no row occurs twice. */
  lemma {:induction false} DistinctNamesAtMostOnce(jobs: seq<Job>, x: Job)
    requires DistinctNames(jobs)
    ensures multiset(jobs)[x] <= 1
  {
    if jobs != [] {
      var init, last := jobs[..|jobs| - 1], jobs[|jobs| - 1];
      assert jobs == init + [last];
      assert forall k :: 0 <= k < |init| ==> init[k] == jobs[k];
      DistinctNamesAtMostOnce(init, x);
      if x == last {
        assert x !in init;
      }
    }
  }

  /** Two positions holding the same value show it twice. */
  lemma SingleDiffers<T>(s: seq<T>, i: int, j: int)
    requires 0 <= i < j < |s| && multiset(s)[s[i]] <= 1
    ensures s[i] != s[j]
  {
    assert s == s[..j] + s[j..];
    assert s[i] in s[..j] && s[j] in s[j..];
    assert multiset(s) == multiset(s[..j]) + multiset(s[j..]);
  }

  /** A rearrangement of rows with distinct names has distinct names. */
  lemma DistinctNamesPermutation(a: seq<Job>, b: seq<Job>)
    requires DistinctNames(a) && multiset(a) == multiset(b)
    ensures DistinctNames(b)
  {
    forall i, j | 0 <= i < j < |b| ensures b[i].name != b[j].name {
      DistinctNamesAtMostOnce(a, b[i]);
      SingleDiffers(b, i, j);
      assert b[i] in multiset(a) && b[j] in multiset(a);
      var p :| 0 <= p < |a| && a[p] == b[i];
      var q :| 0 <= q < |a| && a[q] == b[j];
    }
  }

  /**
   * With distinct names, the deadline risks of the schedule follow the
   * dispatch order (strictly increasing positions in it, each risk that
   * row's name, unfinished hours and deadline) and name each task at most
   * once.
   */
  lemma ScheduleRisksOrdered(jobs: seq<Job>, capacity: real, horizon: int, mode: Mode)
    requires DistinctNames(jobs)
    ensures var order, rs := DispatchOrder(jobs, mode), ScheduleOf(jobs, capacity, horizon, mode).deadlineRisks;
      var rem := RunFrom(order, capacity, horizon).remaining;
      var idx := RiskPositions(order, rem);
      && |idx| == |rs|
      && (forall i :: 0 <= i < |idx| ==> 0 <= idx[i] < |order|)
      && (forall i :: 0 <= i < |idx| ==>
            rs[i] == DeadlineRisk(order[idx[i]].name, rem[order[idx[i]].name], order[idx[i]].daysLeft))
      && (forall i, j :: 0 <= i < j < |idx| ==> idx[i] < idx[j])
      && (forall i, j :: 0 <= i < j < |rs| ==> rs[i].task != rs[j].task)
  {
    var order := DispatchOrder(jobs, mode);
    var run := RunFrom(order, capacity, horizon);
    DispatchOrderFacts(jobs, mode);
    DistinctNamesPermutation(jobs, order);
    assert ScheduleFrom(order, capacity, horizon).deadlineRisks == DeadlineRisks(order, run.remaining);
    DeadlineRisksOnce(order, run.remaining);
  }

  /** With distinct names, the schedule's deadline risks name each task at most once. */
  lemma ScheduleRisksOnce(jobs: seq<Job>, capacity: real, horizon: int, mode: Mode)
    requires DistinctNames(jobs)
    ensures var rs := ScheduleOf(jobs, capacity, horizon, mode).deadlineRisks;
      forall i, j :: 0 <= i < j < |rs| ==> rs[i].task != rs[j].task
  {
    ScheduleRisksOrdered(jobs, capacity, horizon, mode);
  }

  /** The step of `DayScan` that grants hours at position `i`. */
  lemma DayScanGrantStep(jobs: seq<Job>, lookup: map<string, real>, day: int, rem: map<string, real>,
                         capLeft: real, i: nat)
    requires i < |jobs| && Tracks(jobs, rem)
    requires rem[jobs[i].name] > 0.0 && day <= jobs[i].daysLeft
    requires MinReal(capLeft, rem[jobs[i].name]) > 0.0
    ensures var job := jobs[i];
      var take := MinReal(capLeft, rem[job.name]);
      var grant := Allocation(job.name, day, take, FpOf(lookup, job.name), job.daysLeft);
      var rem' := rem[job.name := rem[job.name] - take];
      var here := DayScan(jobs, lookup, day, rem, capLeft, i);
      var rest := DayScan(jobs, lookup, day, rem', capLeft - take, i + 1);
      && Tracks(jobs, rem')
      && (capLeft - take <= 0.0 ==> here == DayOutcome(rem', capLeft - take, [grant]))
      && (capLeft - take > 0.0 ==> here == DayOutcome(rest.remaining, rest.capLeft, [grant] + rest.grants))
  {
  }

  /** A task with nothing left or past its deadline is skipped. */
  lemma DayScanSkipStep(jobs: seq<Job>, lookup: map<string, real>, day: int, rem: map<string, real>,
                        capLeft: real, i: nat)
    requires i < |jobs| && Tracks(jobs, rem)
    requires rem[jobs[i].name] <= 0.0 || day > jobs[i].daysLeft
    ensures DayScan(jobs, lookup, day, rem, capLeft, i) == DayScan(jobs, lookup, day, rem, capLeft, i + 1)
  {
  }

  /** A task with hours left and no positive take means the capacity is used up: the scan stops. */
  lemma DayScanStopStep(jobs: seq<Job>, lookup: map<string, real>, day: int, rem: map<string, real>,
                        capLeft: real, i: nat)
    requires i < |jobs| && Tracks(jobs, rem)
    requires rem[jobs[i].name] > 0.0 && day <= jobs[i].daysLeft
    requires MinReal(capLeft, rem[jobs[i].name]) <= 0.0
    ensures capLeft <= 0.0
    ensures DayScan(jobs, lookup, day, rem, capLeft, i) == DayOutcome(rem, capLeft, [])
  {
  }

  /**
   * The loop invariant of `ScanDay`: the day's outcome `today` is the
   * grants made so far followed by what the scan from position `i` adds.
   */
  ghost predicate ScanInv(jobs: seq<Job>, lookup: map<string, real>, day: int, today: DayOutcome,
                          rem: map<string, real>, capLeft: real, i: nat, acc: seq<Allocation>)
  {
    && i <= |jobs| && Tracks(jobs, rem)
    && var rest := DayScan(jobs, lookup, day, rem, capLeft, i);
      today == DayOutcome(rest.remaining, rest.capLeft, acc + rest.grants)
  }

  lemma ScanInvStart(jobs: seq<Job>, lookup: map<string, real>, day: int, rem: map<string, real>, capacity: real)
    requires Tracks(jobs, rem)
    ensures ScanInv(jobs, lookup, day, DayScan(jobs, lookup, day, rem, capacity, 0), rem, capacity, 0, [])
  {
    assert [] + DayScan(jobs, lookup, day, rem, capacity, 0).grants == DayScan(jobs, lookup, day, rem, capacity, 0).grants;
  }

  lemma ScanInvEnd(jobs: seq<Job>, lookup: map<string, real>, day: int, today: DayOutcome,
                   rem: map<string, real>, capLeft: real, acc: seq<Allocation>)
    requires ScanInv(jobs, lookup, day, today, rem, capLeft, |jobs|, acc)
    ensures today == DayOutcome(rem, capLeft, acc)
  {
    assert acc + [] == acc;
  }

  lemma ScanInvSkip(jobs: seq<Job>, lookup: map<string, real>, day: int, today: DayOutcome,
                    rem: map<string, real>, capLeft: real, i: nat, acc: seq<Allocation>)
    requires ScanInv(jobs, lookup, day, today, rem, capLeft, i, acc) && i < |jobs|
    requires rem[jobs[i].name] <= 0.0 || day > jobs[i].daysLeft
    ensures ScanInv(jobs, lookup, day, today, rem, capLeft, i + 1, acc)
  {
    DayScanSkipStep(jobs, lookup, day, rem, capLeft, i);
  }

  lemma ScanInvStop(jobs: seq<Job>, lookup: map<string, real>, day: int, today: DayOutcome,
                    rem: map<string, real>, capLeft: real, i: nat, acc: seq<Allocation>)
    requires ScanInv(jobs, lookup, day, today, rem, capLeft, i, acc) && i < |jobs|
    requires rem[jobs[i].name] > 0.0 && day <= jobs[i].daysLeft
    requires MinReal(capLeft, rem[jobs[i].name]) <= 0.0
    ensures capLeft <= 0.0 && today == DayOutcome(rem, capLeft, acc)
  {
    DayScanStopStep(jobs, lookup, day, rem, capLeft, i);
    assert acc + [] == acc;
  }

  lemma ScanInvGrant(jobs: seq<Job>, lookup: map<string, real>, day: int, today: DayOutcome,
                     rem: map<string, real>, capLeft: real, i: nat, acc: seq<Allocation>)
    requires ScanInv(jobs, lookup, day, today, rem, capLeft, i, acc) && i < |jobs|
    requires rem[jobs[i].name] > 0.0 && day <= jobs[i].daysLeft
    requires MinReal(capLeft, rem[jobs[i].name]) > 0.0
    ensures var job := jobs[i];
      var take := MinReal(capLeft, rem[job.name]);
      var acc' := acc + [Allocation(job.name, day, take, FpOf(lookup, job.name), job.daysLeft)];
      var rem' := rem[job.name := rem[job.name] - take];
      && (capLeft - take <= 0.0 ==> today == DayOutcome(rem', capLeft - take, acc'))
      && (capLeft - take > 0.0 ==> ScanInv(jobs, lookup, day, today, rem', capLeft - take, i + 1, acc'))
  {
    var job := jobs[i];
    var take := MinReal(capLeft, rem[job.name]);
    var grant := Allocation(job.name, day, take, FpOf(lookup, job.name), job.daysLeft);
    var rem' := rem[job.name := rem[job.name] - take];
    DayScanGrantStep(jobs, lookup, day, rem, capLeft, i);
    var rest := DayScan(jobs, lookup, day, rem', capLeft - take, i + 1);
    assert acc + ([grant] + rest.grants) == (acc + [grant]) + rest.grants;
  }

  /**
   * One day of the engine's loop: scan the tasks in order, granting each
   * the smaller of its remaining hours and the capacity left, until the
   * capacity is used up. It computes `DayScan` from the start of the order.
   */
  method ScanDay(tasks: seq<Job>, lookup: map<string, real>, day: int, remaining0: map<string, real>,
                 dailyCapacity: real)
    returns (remaining: map<string, real>, capLeft: real, allocations: seq<(string, real)>, grants: seq<Allocation>)
    requires Tracks(tasks, remaining0)
    ensures DayOutcome(remaining, capLeft, grants) == DayScan(tasks, lookup, day, remaining0, dailyCapacity, 0)
    ensures allocations == PairsOf(grants)
  {
    ghost var today := DayScan(tasks, lookup, day, remaining0, dailyCapacity, 0);
    ScanInvStart(tasks, lookup, day, remaining0, dailyCapacity);
    remaining, capLeft, allocations, grants := remaining0, dailyCapacity, [], [];
    var i := 0;
    while i < |tasks|
      invariant ScanInv(tasks, lookup, day, today, remaining, capLeft, i, grants)
      invariant allocations == PairsOf(grants)
      decreases |tasks| - i
    {
      var job := tasks[i];
      if remaining[job.name] <= 0.0 {
        ScanInvSkip(tasks, lookup, day, today, remaining, capLeft, i, grants);
        i := i + 1;
        continue;
      }
      if day > job.daysLeft {
        ScanInvSkip(tasks, lookup, day, today, remaining, capLeft, i, grants);
        i := i + 1;
        continue;
      }
      var take := MinReal(capLeft, remaining[job.name]);
      if take <= 0.0 {
        ScanInvStop(tasks, lookup, day, today, remaining, capLeft, i, grants);
        break;
      }
      ScanInvGrant(tasks, lookup, day, today, remaining, capLeft, i, grants);
      allocations := allocations + [(job.name, take)];
      remaining := remaining[job.name := remaining[job.name] - take];
      capLeft := capLeft - take;
      grants := grants + [Allocation(job.name, day, take, FpOf(lookup, job.name), job.daysLeft)];
      if capLeft <= 0.0 {
        break;
      }
      i := i + 1;
    }
    if i == |tasks| {
      ScanInvEnd(tasks, lookup, day, today, remaining, capLeft, grants);
    }
  }

  /** The tasks still unfinished, in dispatch order. It computes `DeadlineRisks`. */
  method ListRisks(tasks: seq<Job>, remaining: map<string, real>) returns (risks: seq<DeadlineRisk>)
    requires Tracks(tasks, remaining)
    ensures risks == DeadlineRisks(tasks, remaining)
  {
    risks := [];
    for i := 0 to |tasks|
      invariant Tracks(tasks[..i], remaining)
      invariant risks == DeadlineRisks(tasks[..i], remaining)
    {
      var job := tasks[i];
      assert tasks[..i + 1][..i] == tasks[..i];
      if remaining[job.name] > 0.0 {
        risks := risks + [DeadlineRisk(job.name, remaining[job.name], job.daysLeft)];
      }
    }
    assert tasks[..|tasks|] == tasks;
  }

  /**
   * The engine's scheduler: sort once, run the days, then list the tasks
   * left unfinished. It computes `ScheduleOf`.
   */
  method BuildSchedule(jobs: seq<Job>, dailyCapacity: real, horizonDays: int, mode: Mode)
    returns (ledger: seq<DaySummary>, log: seq<Allocation>, risks: seq<DeadlineRisk>)
    ensures Schedule(ledger, log, risks) == ScheduleOf(jobs, dailyCapacity, horizonDays, mode)
  {
    var tasks := DispatchOrder(jobs, mode);
    var remaining := InitRemaining(tasks);
    var lookup := FailureLookup(tasks);
    ghost var whole := RunDays(tasks, lookup, dailyCapacity, horizonDays, 1, remaining);
    ledger, log := [], [];
    var day := 1;
    while day <= horizonDays
      invariant 1 <= day
      invariant Tracks(tasks, remaining)
      invariant var rest := RunDays(tasks, lookup, dailyCapacity, horizonDays, day, remaining);
        whole == Run(ledger + rest.ledger, log + rest.log, rest.remaining)
      decreases horizonDays - day
    {
      ghost var today := DayScan(tasks, lookup, day, remaining, dailyCapacity, 0);
      RunDaysStep(tasks, lookup, dailyCapacity, horizonDays, day, remaining, today, ledger, log);
      var capLeft, allocations, grants;
      remaining, capLeft, allocations, grants := ScanDay(tasks, lookup, day, remaining, dailyCapacity);
      var used := dailyCapacity - capLeft;
      var summary := DaySummary(day, used, capLeft, allocations, MaxReal(0.0, used - dailyCapacity));
      assert summary == Summarise(day, dailyCapacity, today);
      ledger := ledger + [summary];
      log := log + grants;
      day := day + 1;
    }
    assert ledger + [] == ledger && log + [] == log;
    risks := ListRisks(tasks, remaining);
  }

  /** The worked example's two tasks: A (2 days, 5 h) and B (3 days, 5 h). */
  const EXAMPLE_A := Job("A", 2, 5.0, 0.0, None)
  const EXAMPLE_B := Job("B", 3, 5.0, 0.0, None)

  /** Deadline first puts A before B; the counters start at the estimates; no probabilities. */
  lemma ExampleStart()
    ensures DispatchOrder([EXAMPLE_A, EXAMPLE_B], Academic) == [EXAMPLE_A, EXAMPLE_B]
    ensures InitRemaining([EXAMPLE_A, EXAMPLE_B]) == map["A" := 5.0, "B" := 5.0]
    ensures FailureLookup([EXAMPLE_A, EXAMPLE_B]) == map[]
  {
    var jobs := [EXAMPLE_A, EXAMPLE_B];
    assert [EXAMPLE_B][1..] == [];
    assert jobs[1..] == [EXAMPLE_B];
    assert jobs[..1] == [EXAMPLE_A];
  }

  /** Day 1 gives A all 4 hours. */
  lemma ExampleDay1()
    ensures DayScan([EXAMPLE_A, EXAMPLE_B], map[], 1, map["A" := 5.0, "B" := 5.0], 4.0, 0)
         == DayOutcome(map["A" := 1.0, "B" := 5.0], 0.0, [Allocation("A", 1, 4.0, 0.0, 2)])
  {
    assert "A" != "B" by { assert "A"[0] != "B"[0]; }
    assert map["A" := 5.0, "B" := 5.0]["A" := 5.0 - 4.0] == map["A" := 1.0, "B" := 5.0];
  }

  /** Day 2 gives A its last hour, then B 3 hours. */
  lemma ExampleDay2()
    ensures DayScan([EXAMPLE_A, EXAMPLE_B], map[], 2, map["A" := 1.0, "B" := 5.0], 4.0, 0)
         == DayOutcome(map["A" := 0.0, "B" := 2.0],
                       0.0, [Allocation("A", 2, 1.0, 0.0, 2), Allocation("B", 2, 3.0, 0.0, 3)])
  {
    var jobs := [EXAMPLE_A, EXAMPLE_B];
    assert "A" != "B" by { assert "A"[0] != "B"[0]; }
    var mid := map["A" := 0.0, "B" := 5.0];
    assert map["A" := 1.0, "B" := 5.0]["A" := 1.0 - 1.0] == mid;
    assert mid["B" := 5.0 - 3.0] == map["A" := 0.0, "B" := 2.0];
    assert DayScan(jobs, map[], 2, mid, 3.0, 1)
        == DayOutcome(map["A" := 0.0, "B" := 2.0], 0.0, [Allocation("B", 2, 3.0, 0.0, 3)]);
  }

  /** Day 3 gives B its last 2 hours and leaves 2 hours spare. */
  lemma ExampleDay3()
    ensures DayScan([EXAMPLE_A, EXAMPLE_B], map[], 3, map["A" := 0.0, "B" := 2.0], 4.0, 0)
         == DayOutcome(map["A" := 0.0, "B" := 0.0], 2.0, [Allocation("B", 3, 2.0, 0.0, 3)])
  {
    var jobs := [EXAMPLE_A, EXAMPLE_B];
    assert "A" != "B" by { assert "A"[0] != "B"[0]; }
    var after := map["A" := 0.0, "B" := 0.0];
    assert map["A" := 0.0, "B" := 2.0]["B" := 2.0 - 2.0] == after;
    assert DayScan(jobs, map[], 3, after, 2.0, 2) == DayOutcome(after, 2.0, []);
    assert DayScan(jobs, map[], 3, map["A" := 0.0, "B" := 2.0], 4.0, 1)
        == DayOutcome(after, 2.0, [Allocation("B", 3, 2.0, 0.0, 3)]);
  }

  /** The worked example's days, one after another. */
  lemma ExampleRun()
    ensures var jobs, g1, g2, g3, g4 := [EXAMPLE_A, EXAMPLE_B], Allocation("A", 1, 4.0, 0.0, 2),
                                        Allocation("A", 2, 1.0, 0.0, 2), Allocation("B", 2, 3.0, 0.0, 3),
                                        Allocation("B", 3, 2.0, 0.0, 3);
      var run := RunDays(jobs, map[], 4.0, 3, 1, map["A" := 5.0, "B" := 5.0]);
      && run.log == [g1, g2, g3, g4]
      && run.ledger == [Summarise(1, 4.0, DayOutcome(map["A" := 1.0, "B" := 5.0], 0.0, [g1])),
                        Summarise(2, 4.0, DayOutcome(map["A" := 0.0, "B" := 2.0], 0.0, [g2, g3])),
                        Summarise(3, 4.0, DayOutcome(map["A" := 0.0, "B" := 0.0], 2.0, [g4]))]
      && run.remaining == map["A" := 0.0, "B" := 0.0]
  {
    var jobs := [EXAMPLE_A, EXAMPLE_B];
    ExampleDay1();
    ExampleDay2();
    ExampleDay3();
    var rem2 := map["A" := 0.0, "B" := 2.0];
    var run3 := RunDays(jobs, map[], 4.0, 3, 3, rem2);
    assert RunDays(jobs, map[], 4.0, 3, 4, map["A" := 0.0, "B" := 0.0]).ledger == [];
  }

  /** Nothing is left at the end of the worked example. */
  lemma ExampleNoRisks()
    ensures DeadlineRisks([EXAMPLE_A, EXAMPLE_B], map["A" := 0.0, "B" := 0.0]) == []
  {
    var rem := map["A" := 0.0, "B" := 0.0];
    assert "A" != "B" by { assert "A"[0] != "B"[0]; }
    assert rem["A"] == 0.0 && rem["B"] == 0.0;
    assert [EXAMPLE_A][..0] == [];
    assert DeadlineRisks([EXAMPLE_A], rem) == [];
    assert [EXAMPLE_A, EXAMPLE_B][..1] == [EXAMPLE_A];
  }

  /**
   * The worked example at 4 h a day for 3 days, deadline first: day 1
   * gives A 4 h; day 2 gives A its last hour and B 3 h; day 3 gives B its
   * last 2 h and leaves 2 h spare; nothing is at risk.
   */
  lemma TwoTaskExample()
    ensures var s := ScheduleOf([EXAMPLE_A, EXAMPLE_B], 4.0, 3, Academic);
      && s.log == [Allocation("A", 1, 4.0, 0.0, 2), Allocation("A", 2, 1.0, 0.0, 2),
                   Allocation("B", 2, 3.0, 0.0, 3), Allocation("B", 3, 2.0, 0.0, 3)]
      && |s.ledger| == 3
      && s.ledger[0].allocatedHours == 4.0 && s.ledger[1].allocatedHours == 4.0 && s.ledger[2].allocatedHours == 2.0
      && s.ledger[2].remainingCapacity == 2.0
      && s.deadlineRisks == []
  {
    ExampleStart();
    ExampleRun();
    ExampleNoRisks();
  }
}
