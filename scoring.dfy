/**
 * The priority scorer: urgency from days left, a dependency indicator, and
 * a mode-weighted composite of the normalised ratings, urgency and
 * dependency.
 */
module Scoring {
  import opened Tasks

  /** A task with the three columns the scorer adds; the task itself is untouched. */
  datatype ScoredTask = ScoredTask(
    task: Task,
    urgencyScore: real,
    dependencyScore: real,
    priorityScore: real
  )

  /** Weights for strategic importance, business impact, urgency and dependency. */
  datatype Weights = Weights(strategic: real, impact: real, urgency: real, dependency: real)

  /** Inverse days left, with days left floored at 1 and the result capped at 1. */
  function UrgencyScore(daysLeft: int): (u: real)
    ensures 0.0 < u <= 1.0
    ensures daysLeft <= 1 ==> u == 1.0
    ensures daysLeft > 1 ==> u * (daysLeft as real) == 1.0
  {
    var raw := 1.0 / (MaxInt(daysLeft, 1) as real);
    MinReal(raw, 1.0)
  }

  /** Urgency never rises as the deadline moves further away. */
  lemma UrgencyNonIncreasing(d1: int, d2: int)
    requires d1 <= d2
    ensures UrgencyScore(d2) <= UrgencyScore(d1)
  {
    if d1 > 1 {
      var u1, u2 := UrgencyScore(d1), UrgencyScore(d2);
      var x1, x2 := d1 as real, d2 as real;
      assert u1 * x1 == 1.0;
      assert u2 * x2 == 1.0;
      ScaleMonotone(u2, x1, x2);
      var lhs, rhs := u2 * x1, u1 * x1;
      assert lhs <= 1.0;
      assert lhs <= rhs;
      ProductCancel(u2, u1, x1);
    }
  }

  /** The three values the documentation of the urgency function lists. */
  lemma UrgencyExamples()
    ensures UrgencyScore(1) == 1.0
    ensures UrgencyScore(10) == 0.1
    ensures 0.033 < UrgencyScore(30) < 0.034
  {
  }

  function DependencyScore(dependencyRisk: bool): (s: real)
    ensures s == 0.0 || s == 1.0
    ensures s == 1.0 <==> dependencyRisk
  {
    if dependencyRisk then 1.0 else 0.0
  }

  /** Rescales a 1..5 rating onto [0, 1]. */
  function Normalise(v: int): (n: real)
    ensures RatingInRange(v) ==> 0.0 <= n <= 1.0
    ensures v == 1 ==> n == 0.0
    ensures v == 5 ==> n == 1.0
  {
    ((v as real) - 1.0) / 4.0
  }

  /** The fixed weight table; the mode names nothing else fall back to the balanced row. */
  function ModeWeights(mode: Mode): (w: Weights)
    ensures w.strategic >= 0.0 && w.impact >= 0.0 && w.urgency >= 0.0 && w.dependency >= 0.0
    ensures w.strategic + w.impact + w.urgency + w.dependency == 1.0
    ensures mode == Academic ==> w.urgency > w.strategic + w.impact + w.dependency
    ensures mode == Operational ==> w.strategic + w.impact > w.urgency + w.dependency
  {
    match mode
    case Academic => Weights(0.10, 0.05, 0.70, 0.15)
    case Operational => Weights(0.35, 0.35, 0.20, 0.10)
    case Balanced => Weights(0.25, 0.25, 0.35, 0.15)
  }

  function PriorityScore(t: Task, mode: Mode): (p: real)
    ensures RatingInRange(t.strategicImportance) && RatingInRange(t.businessImpact) ==> 0.0 <= p <= 1.0
  {
    var w := ModeWeights(mode);
    var s, i, u, d := Normalise(t.strategicImportance), Normalise(t.businessImpact),
                      UrgencyScore(t.daysLeft), DependencyScore(t.dependencyRisk);
    s * w.strategic + i * w.impact + u * w.urgency + d * w.dependency
  }

  /** One scored row: the task unchanged, with its urgency, dependency and priority scores. */
  function ScoreTask(t: Task, mode: Mode): (r: ScoredTask)
    ensures r.task == t
    ensures 0.0 < r.urgencyScore <= 1.0
    ensures r.dependencyScore == 1.0 <==> t.dependencyRisk
    ensures r.dependencyScore == 0.0 <==> !t.dependencyRisk
    ensures RatingInRange(t.strategicImportance) && RatingInRange(t.businessImpact) ==> 0.0 <= r.priorityScore <= 1.0
  {
    ScoredTask(t, UrgencyScore(t.daysLeft), DependencyScore(t.dependencyRisk), PriorityScore(t, mode))
  }

  /**
   * Scores every row. The rows come back in the same order, each with its
   * original task unchanged and exactly the three new columns.
   */
  function ComputePriorityScores(tasks: seq<Task>, mode: Mode): (out: seq<ScoredTask>)
    ensures |out| == |tasks|
    ensures forall k :: 0 <= k < |out| ==> out[k].task == tasks[k]
    ensures forall k :: 0 <= k < |out| ==>
      && 0.0 < out[k].urgencyScore <= 1.0
      && (out[k].dependencyScore == 1.0 <==> tasks[k].dependencyRisk)
      && (out[k].dependencyScore == 0.0 <==> !tasks[k].dependencyRisk)
    ensures forall k :: 0 <= k < |out| ==>
      RatingInRange(tasks[k].strategicImportance) && RatingInRange(tasks[k].businessImpact) ==>
        0.0 <= out[k].priorityScore <= 1.0
  {
    seq(|tasks|, k requires 0 <= k < |tasks| => ScoreTask(tasks[k], mode))
  }
}
