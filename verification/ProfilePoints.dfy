/** Measured profile points and the objective they must meet (profiling.py, profile_worker.py). */
module ProfilePoints {
  import opened Common

  datatype Status = Completed | Failed | Skipped

  datatype Point = Point(
    concurrency: nat,
    repetition: nat,
    status: Status,
    errorRate: real,
    ttft: Option<real>,
    tpot: Option<real>,
    sessionRate: Option<real>,
    outputRate: Option<real>,
    tasksPerHour: Option<real>)

  datatype Kind = MaximumThroughput | MaximumGoodput | Interactive | MaximumStableConcurrency

  datatype Objective = Objective(
    kind: Kind, maximumErrorRate: real, maximumTtft: Option<real>, maximumTpot: Option<real>, minimumSessionRate: Option<real>)

  predicate AtMost(limit: Option<real>, value: Option<real>) {
    limit.Some? ==> value.Some? && value.value <= limit.value
  }

  /** `_point_passes_objective` and `_eligible`, which are the same condition. */
  predicate Passes(objective: Objective, p: Point) {
    && p.status == Completed
    && p.errorRate <= objective.maximumErrorRate
    && AtMost(objective.maximumTtft, p.ttft)
    && AtMost(objective.maximumTpot, p.tpot)
    && (objective.minimumSessionRate.Some? ==>
          p.sessionRate.Some? && p.sessionRate.value >= objective.minimumSessionRate.value)
  }

  /** A completed point within every limit that the objective sets; a limit needs a value. */
  predicate Meets(o: Objective, p: Point) {
    && p.status == Completed
    && !(p.errorRate > o.maximumErrorRate)
    && (o.maximumTtft == None || (p.ttft != None && !(p.ttft.value > o.maximumTtft.value)))
    && (o.maximumTpot == None || (p.tpot != None && !(p.tpot.value > o.maximumTpot.value)))
    && (o.minimumSessionRate == None || (p.sessionRate != None && !(p.sessionRate.value < o.minimumSessionRate.value)))
  }

  lemma PassesExactly(o: Objective, p: Point)
    ensures Passes(o, p) <==> Meets(o, p)
  {
  }

  /** What an objective compares: output tokens a second for throughput, otherwise tasks an
      hour; a missing rate counts as none. */
  function Measure(kind: Kind, p: Point): real {
    match kind
    case MaximumThroughput => (match p.outputRate case Some(rate) => rate case None => 0.0)
    case _ => (match p.tasksPerHour case Some(rate) => rate case None => 0.0)
  }

  function OrZero(x: Option<real>): real {
    if x.Some? then x.value else 0.0
  }

  type Key = (nat, nat)

  function KeyOf(p: Point): Key {
    (p.concurrency, p.repetition)
  }

  /** Candidate ladders are sorted and free of repeats. */
  predicate Increasing(s: seq<nat>) {
    forall i, j | 0 <= i < j < |s| :: s[i] < s[j]
  }

  function At(points: seq<Point>, c: nat): seq<Point> {
    if points == [] then []
    else if points[|points| - 1].concurrency == c then At(points[..|points| - 1], c) + [points[|points| - 1]]
    else At(points[..|points| - 1], c)
  }

  /** How many points of a rung meet the objective. */
  function PassCount(o: Objective, points: seq<Point>, c: nat): nat {
    if points == [] then 0
    else
      PassCount(o, points[..|points| - 1], c) +
      (if points[|points| - 1].concurrency == c && Passes(o, points[|points| - 1]) then 1 else 0)
  }
}
