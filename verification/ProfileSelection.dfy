/** Choosing a concurrency from measured points (profiling.py), and what the ladder gives it
    to choose from. */
module ProfileSelection {
  import opened Common
  import opened ProfilePoints

  // ---- select_profile ----

  function Eligible(o: Objective, points: seq<Point>): seq<Point> {
    if points == [] then []
    else Eligible(o, points[..|points| - 1]) + if Passes(o, points[|points| - 1]) then [points[|points| - 1]] else []
  }

  predicate DistinctRepetitions(points: seq<Point>) {
    forall i, j | 0 <= i < j < |points| :: points[i].repetition != points[j].repetition
  }

  /** `_eligible_repetition_group` on the points of one concurrency. */
  function Group(o: Objective, repetitions: nat, points: seq<Point>): Option<seq<Point>> {
    var eligible := Eligible(o, points);
    if !DistinctRepetitions(points) || !(exists p | p in points :: p.repetition == 1) then None
    else if eligible == [] then None
    else if (o.kind == MaximumStableConcurrency || |points| > 1) && |eligible| != repetitions then None
    else Some(eligible)
  }

  function Value(kind: Kind, p: Point): real {
    if kind == MaximumThroughput then OrZero(p.outputRate) else OrZero(p.tasksPerHour)
  }

  function Total(kind: Kind, points: seq<Point>): real {
    if points == [] then 0.0 else Total(kind, points[..|points| - 1]) + Value(kind, points[|points| - 1])
  }

  /** `_score`: the mean. */
  function Score(kind: Kind, points: seq<Point>): real
    requires points != []
  {
    Total(kind, points) / |points| as real
  }

  /** `a` at concurrency `c` beats `b` at concurrency `d`. */
  predicate Beats(kind: Kind, a: seq<Point>, c: nat, b: seq<Point>, d: nat)
    requires a != [] && b != []
  {
    if kind == MaximumStableConcurrency then c > d
    else Score(kind, a) > Score(kind, b) || (Score(kind, a) == Score(kind, b) && c < d)
  }

  predicate IsWinner(o: Objective, repetitions: nat, points: seq<Point>, w: nat) {
    && Group(o, repetitions, At(points, w)).Some?
    && forall p | p in points && p.concurrency != w && Group(o, repetitions, At(points, p.concurrency)).Some? ::
         Beats(o.kind, Group(o, repetitions, At(points, w)).value, w,
               Group(o, repetitions, At(points, p.concurrency)).value, p.concurrency)
  }

  datatype Selection = Selection(concurrency: nat, support: seq<Point>)

  datatype Error = AlreadySelected | DigestMismatch | NothingEligible

  // ---- the order of the support ----

  predicate ByRepetition(points: seq<Point>) {
    forall i, j | 0 <= i < j < |points| :: points[i].repetition < points[j].repetition
  }

  function Insert(p: Point, points: seq<Point>): seq<Point> {
    if points == [] || points[|points| - 1].repetition <= p.repetition then points + [p]
    else Insert(p, points[..|points| - 1]) + [points[|points| - 1]]
  }

  /** sorted(points, key=repetition) */
  function Sorted(points: seq<Point>): seq<Point> {
    if points == [] then [] else Insert(points[|points| - 1], Sorted(points[..|points| - 1]))
  }

  lemma {:induction false} InsertedPoints(p: Point, points: seq<Point>)
    ensures multiset(Insert(p, points)) == multiset(points) + multiset{p}
    ensures forall q :: q in Insert(p, points) <==> q in points || q == p
  {
    if points != [] && points[|points| - 1].repetition > p.repetition {
      var front, last := points[..|points| - 1], points[|points| - 1];
      assert points == front + [last];
      InsertedPoints(p, front);
    }
  }

  lemma OrderedOneMore(points: seq<Point>, p: Point)
    requires ByRepetition(points) && (points != [] ==> points[|points| - 1].repetition < p.repetition)
    ensures ByRepetition(points + [p])
  {
  }

  lemma {:induction false} InsertOne(p: Point, points: seq<Point>)
    requires ByRepetition(points) && forall q | q in points :: q.repetition != p.repetition
    ensures ByRepetition(Insert(p, points)) && Insert(p, points) != []
    ensures Insert(p, points)[|Insert(p, points)| - 1].repetition ==
            if points != [] && points[|points| - 1].repetition > p.repetition then points[|points| - 1].repetition else p.repetition
  {
    if points != [] && points[|points| - 1].repetition > p.repetition {
      InsertOne(p, points[..|points| - 1]);
      OrderedOneMore(Insert(p, points[..|points| - 1]), points[|points| - 1]);
    } else {
      OrderedOneMore(points, p);
    }
  }

  /** The support has its points in the order of their repetitions, and there is only one. */
  lemma {:induction false} SupportIsOrdered(points: seq<Point>)
    requires DistinctRepetitions(points)
    ensures ByRepetition(Sorted(points)) && multiset(Sorted(points)) == multiset(points)
    ensures forall q :: q in Sorted(points) <==> q in points
  {
    if points != [] {
      var front, last := points[..|points| - 1], points[|points| - 1];
      assert points == front + [last];
      SupportIsOrdered(front);
      InsertedPoints(last, Sorted(front));
      LastIsNew(front, last);
      InsertOne(last, Sorted(front));
    }
  }

  lemma {:induction false} EligibleAreDistinct(o: Objective, points: seq<Point>)
    requires DistinctRepetitions(points)
    ensures DistinctRepetitions(Eligible(o, points)) && forall p | p in Eligible(o, points) :: p in points
  {
    if points != [] {
      var front, last := points[..|points| - 1], points[|points| - 1];
      assert points == front + [last];
      EligibleAreDistinct(o, front);
      LastIsNew(front, last);
    }
  }

  lemma LastIsNew(front: seq<Point>, last: Point)
    requires DistinctRepetitions(front + [last])
    ensures DistinctRepetitions(front) && forall p | p in front :: p.repetition != last.repetition
  {
    var points := front + [last];
    forall i | 0 <= i < |front| ensures points[i] == front[i] {}
    forall p | p in front ensures p.repetition != last.repetition {
      var i :| 0 <= i < |front| && front[i] == p;
      assert points[i] == p && points[|front|] == last;
    }
    forall i, j | 0 <= i < j < |front| ensures front[i].repetition != front[j].repetition {
      assert points[i].repetition != points[j].repetition;
    }
  }

  // ---- what can be selected, said of the points alone ----

  predicate OncePerRepetition(points: seq<Point>, c: nat) {
    forall i, j | 0 <= i < j < |points| && points[i].concurrency == c && points[j].concurrency == c ::
      points[i].repetition != points[j].repetition
  }

  /** The rung supports a selection: its passing points, in the order of their repetitions,
      there being a first one; and where the objective or a second point asks for it, as many
      as there have to be. */
  ghost predicate Supports(o: Objective, repetitions: nat, points: seq<Point>, c: nat, support: seq<Point>) {
    && (forall p :: p in support <==> p in points && p.concurrency == c && Meets(o, p))
    && (forall i, j | 0 <= i < j < |support| :: support[i].repetition < support[j].repetition)
    && support != [] && OncePerRepetition(points, c)
    && (exists p :: p in points && p.concurrency == c && p.repetition == 1)
    && (o.kind == MaximumStableConcurrency || HasTwo(points, c) ==> |support| == repetitions)
  }

  ghost predicate HasTwo(points: seq<Point>, c: nat) {
    exists p, q :: p in points && q in points && p.concurrency == c && q.concurrency == c && p.repetition != q.repetition
  }

  function Sum(kind: Kind, points: seq<Point>): real {
    if points == [] then 0.0 else Measure(kind, points[0]) + Sum(kind, points[1..])
  }

  function Mean(kind: Kind, points: seq<Point>): real
    requires points != []
  {
    Sum(kind, points) / |points| as real
  }

  /** The highest concurrency, or the best mean and then the lower concurrency. */
  predicate IsBetter(kind: Kind, a: seq<Point>, c: nat, b: seq<Point>, d: nat)
    requires a != [] && b != []
  {
    match kind
    case MaximumStableConcurrency => c > d
    case _ => Mean(kind, a) > Mean(kind, b) || (Mean(kind, a) == Mean(kind, b) && c < d)
  }

  /** A supported rung that is better than every other one. */
  ghost predicate Wins(o: Objective, repetitions: nat, points: seq<Point>, c: nat, support: seq<Point>) {
    && Supports(o, repetitions, points, c, support)
    && forall d: nat, other {:trigger Supports(o, repetitions, points, d, other)} | d != c && Supports(o, repetitions, points, d, other) ::
         IsBetter(o.kind, support, c, other, d)
  }

  lemma {:induction false} SumJoin(kind: Kind, a: seq<Point>, b: seq<Point>)
    ensures Sum(kind, a + b) == Sum(kind, a) + Sum(kind, b)
  {
    if a == [] {
      assert a + b == b;
    } else {
      assert (a + b)[1..] == a[1..] + b;
      SumJoin(kind, a[1..], b);
    }
  }

  lemma SumOfOne(kind: Kind, points: seq<Point>, p: Point)
    ensures Sum(kind, points + [p]) == Sum(kind, points) + Measure(kind, p)
  {
    SumJoin(kind, points, [p]);
    assert [p][1..] == [];
  }

  lemma {:induction false} InsertSum(kind: Kind, p: Point, points: seq<Point>)
    ensures Sum(kind, Insert(p, points)) == Sum(kind, points) + Measure(kind, p)
    ensures |Insert(p, points)| == |points| + 1
  {
    if points == [] || points[|points| - 1].repetition <= p.repetition {
      SumOfOne(kind, points, p);
    } else {
      var front, last := points[..|points| - 1], points[|points| - 1];
      assert points == front + [last];
      InsertSum(kind, p, front);
      SumOfOne(kind, front, last);
      SumOfOne(kind, Insert(p, front), last);
    }
  }

  /** The score is the mean, in whatever order. */
  lemma {:induction false} SortedTotal(kind: Kind, points: seq<Point>)
    ensures Sum(kind, Sorted(points)) == Total(kind, points) && |Sorted(points)| == |points|
  {
    if points != [] {
      SortedTotal(kind, points[..|points| - 1]);
      InsertSum(kind, points[|points| - 1], Sorted(points[..|points| - 1]));
    }
  }

  lemma BeatsExactly(kind: Kind, a: seq<Point>, c: nat, b: seq<Point>, d: nat)
    requires a != [] && b != []
    ensures Sorted(a) != [] && Sorted(b) != [] && (Beats(kind, a, c, b, d) <==> IsBetter(kind, Sorted(a), c, Sorted(b), d))
  {
    SortedTotal(kind, a);
    SortedTotal(kind, b);
  }

  lemma {:induction false} AtHolds(points: seq<Point>, c: nat)
    ensures forall p :: p in At(points, c) <==> p in points && p.concurrency == c
  {
    if points != [] {
      var front, last := points[..|points| - 1], points[|points| - 1];
      assert points == front + [last];
      AtHolds(front, c);
    }
  }

  lemma {:induction false} EligibleHolds(o: Objective, points: seq<Point>)
    ensures forall p :: p in Eligible(o, points) <==> p in points && Meets(o, p)
  {
    if points != [] {
      var front, last := points[..|points| - 1], points[|points| - 1];
      assert points == front + [last];
      EligibleHolds(o, front);
      PassesExactly(o, last);
    }
  }

  lemma DistinctOneMore(points: seq<Point>, p: Point)
    ensures DistinctRepetitions(points + [p]) <==> DistinctRepetitions(points) && forall q | q in points :: q.repetition != p.repetition
  {
    var more := points + [p];
    if DistinctRepetitions(more) { LastIsNew(points, p); }
  }

  lemma OnceOneMore(points: seq<Point>, c: nat, p: Point)
    ensures OncePerRepetition(points + [p], c) <==>
              && OncePerRepetition(points, c)
              && (p.concurrency == c ==> forall q | q in points && q.concurrency == c :: q.repetition != p.repetition)
  {
    var more := points + [p];
    assert more[|points|] == p && forall i | 0 <= i < |points| :: more[i] == points[i];
    if OncePerRepetition(more, c) {
      forall i, j | 0 <= i < j < |points| && points[i].concurrency == c && points[j].concurrency == c
        ensures points[i].repetition != points[j].repetition
      {
        assert more[i].repetition != more[j].repetition;
      }
      forall q | q in points && q.concurrency == c && p.concurrency == c ensures q.repetition != p.repetition {
        var i :| 0 <= i < |points| && points[i] == q;
        assert more[i].repetition != more[|points|].repetition;
      }
    }
  }

  lemma {:induction false} DistinctAt(points: seq<Point>, c: nat)
    ensures DistinctRepetitions(At(points, c)) <==> OncePerRepetition(points, c)
  {
    if points != [] {
      var front, last := points[..|points| - 1], points[|points| - 1];
      assert points == front + [last];
      DistinctAt(front, c);
      AtHolds(front, c);
      OnceOneMore(front, c, last);
      DistinctOneMore(At(front, c), last);
    }
  }

  lemma TwoAt(points: seq<Point>, c: nat)
    requires OncePerRepetition(points, c)
    ensures |At(points, c)| > 1 <==> HasTwo(points, c)
  {
    var here := At(points, c);
    AtHolds(points, c);
    DistinctAt(points, c);
    if |here| > 1 {
      assert here[0] in here && here[1] in here && here[0].repetition != here[1].repetition;
    }
    if HasTwo(points, c) {
      var p, q :| p in points && q in points && p.concurrency == c && q.concurrency == c && p.repetition != q.repetition;
      assert p in here && q in here;
      var i :| 0 <= i < |here| && here[i] == p;
      var j :| 0 <= j < |here| && here[j] == q;
    }
  }

  /** A rung's group, sorted, is its support. */
  lemma GroupSupports(o: Objective, repetitions: nat, points: seq<Point>, c: nat)
    requires Group(o, repetitions, At(points, c)).Some?
    ensures Supports(o, repetitions, points, c, Sorted(Group(o, repetitions, At(points, c)).value))
  {
    var here := At(points, c);
    var eligible := Eligible(o, here);
    AtHolds(points, c);
    DistinctAt(points, c);
    TwoAt(points, c);
    EligibleHolds(o, here);
    EligibleAreDistinct(o, here);
    SupportIsOrdered(eligible);
    SortedTotal(o.kind, eligible);
  }

  lemma {:induction false} OneSupport(a: seq<Point>, b: seq<Point>)
    requires ByRepetition(a) && ByRepetition(b) && forall p :: p in a <==> p in b
    ensures a == b
  {
    BothEmpty(a, b);
    if a != [] {
      var x, y, front, rest := a[|a| - 1], b[|b| - 1], a[..|a| - 1], b[..|b| - 1];
      assert x in a && y in b && a == front + [x] && b == rest + [y];
      LastIsGreatest(a, y);
      LastIsGreatest(b, x);
      FrontMembers(a, front, x);
      FrontMembers(b, rest, y);
      OneSupport(front, rest);
    }
  }

  lemma BothEmpty(a: seq<Point>, b: seq<Point>)
    requires forall p :: p in a <==> p in b
    ensures a == [] <==> b == []
  {
    if a != [] { assert a[0] in b; }
    if b != [] { assert b[0] in a; }
  }

  lemma LastIsGreatest(s: seq<Point>, p: Point)
    requires ByRepetition(s) && p in s
    ensures p == s[|s| - 1] || p.repetition < s[|s| - 1].repetition
  {
    var i :| 0 <= i < |s| && s[i] == p;
  }

  lemma FrontMembers(s: seq<Point>, front: seq<Point>, last: Point)
    requires ByRepetition(s) && s == front + [last]
    ensures ByRepetition(front) && forall p :: p in front <==> p in s && p != last
  {
    forall i, j | 0 <= i < j < |front| ensures front[i].repetition < front[j].repetition {
      assert s[i] == front[i] && s[j] == front[j];
    }
    forall p ensures p in front <==> p in s && p != last {
      if p in front {
        var i :| 0 <= i < |front| && front[i] == p;
        assert s[i] == p && s[|front|] == last;
      }
    }
  }

  lemma SupportIsGroup(o: Objective, repetitions: nat, points: seq<Point>, c: nat, support: seq<Point>)
    requires Supports(o, repetitions, points, c, support)
    ensures var group := Group(o, repetitions, At(points, c)); group.Some? && Sorted(group.value) == support
  {
    var here := At(points, c);
    var eligible := Eligible(o, here);
    AtHolds(points, c);
    DistinctAt(points, c);
    TwoAt(points, c);
    EligibleHolds(o, here);
    EligibleAreDistinct(o, here);
    SupportIsOrdered(eligible);
    SortedTotal(o.kind, eligible);
    OneSupport(Sorted(eligible), support);
    assert support[0] in eligible;
  }

  lemma WinnerWins(o: Objective, repetitions: nat, points: seq<Point>, w: nat)
    requires IsWinner(o, repetitions, points, w)
    ensures Wins(o, repetitions, points, w, Sorted(Group(o, repetitions, At(points, w)).value))
  {
    var group := Group(o, repetitions, At(points, w)).value;
    GroupSupports(o, repetitions, points, w);
    forall d: nat, other | d != w && Supports(o, repetitions, points, d, other)
      ensures IsBetter(o.kind, Sorted(group), w, other, d)
    {
      SupportIsGroup(o, repetitions, points, d, other);
      var p :| p in points && p.concurrency == d && p.repetition == 1;
      BeatsExactly(o.kind, group, w, Group(o, repetitions, At(points, d)).value, d);
    }
  }

  lemma SelectableExactly(o: Objective, repetitions: nat, points: seq<Point>)
    ensures (exists p :: p in points && Group(o, repetitions, At(points, p.concurrency)).Some?) <==>
            (exists c: nat, support :: Supports(o, repetitions, points, c, support))
  {
    if exists p :: p in points && Group(o, repetitions, At(points, p.concurrency)).Some? {
      var p :| p in points && Group(o, repetitions, At(points, p.concurrency)).Some?;
      GroupSupports(o, repetitions, points, p.concurrency);
    }
    if exists c: nat, support :: Supports(o, repetitions, points, c, support) {
      var c: nat, support :| Supports(o, repetitions, points, c, support);
      SupportIsGroup(o, repetitions, points, c, support);
      var p :| p in points && p.concurrency == c && p.repetition == 1;
    }
  }

  // ---- the loop ----

  /** The best of the groups that were looked at. */
  ghost predicate BestOf(o: Objective, repetitions: nat, groups: map<nat, seq<Point>>, seen: set<nat>, best: Option<(nat, seq<Point>)>) {
    && (best.None? ==> forall c | c in seen && c in groups :: Group(o, repetitions, groups[c]).None?)
    && (best.Some? ==>
          && best.value.0 in seen && best.value.0 in groups && Group(o, repetitions, groups[best.value.0]) == Some(best.value.1)
          && forall c | c in seen && c in groups && c != best.value.0 && Group(o, repetitions, groups[c]).Some? ::
               Beats(o.kind, best.value.1, best.value.0, Group(o, repetitions, groups[c]).value, c))
  }

  predicate Groups(points: seq<Point>, groups: map<nat, seq<Point>>) {
    (forall c | c in groups :: groups[c] == At(points, c)) && groups.Keys == set p | p in points :: p.concurrency
  }

  lemma BestWins(o: Objective, repetitions: nat, points: seq<Point>, groups: map<nat, seq<Point>>, winner: nat, support: seq<Point>)
    requires Groups(points, groups) && BestOf(o, repetitions, groups, groups.Keys, Some((winner, support)))
    ensures IsWinner(o, repetitions, points, winner) && exists p :: p in points && p.concurrency == winner
    ensures winner in groups && Group(o, repetitions, groups[winner]) == Some(support) && groups[winner] == At(points, winner)
  {
    forall p | p in points && p.concurrency != winner && Group(o, repetitions, At(points, p.concurrency)).Some?
      ensures Beats(o.kind, support, winner, Group(o, repetitions, At(points, p.concurrency)).value, p.concurrency)
    {
      assert p.concurrency in groups && groups[p.concurrency] == At(points, p.concurrency);
    }
  }

  lemma NoneIsEligible(o: Objective, repetitions: nat, points: seq<Point>, groups: map<nat, seq<Point>>)
    requires Groups(points, groups) && BestOf(o, repetitions, groups, groups.Keys, None)
    ensures forall p | p in points :: Group(o, repetitions, At(points, p.concurrency)).None?
  {
    forall p | p in points ensures Group(o, repetitions, At(points, p.concurrency)).None? {
      assert p.concurrency in groups;
    }
  }

  /** `select_profile`: the one winner, if any rung is eligible, supported by its passing
      points in the order of their repetitions. */
  method SelectProfile(o: Objective, repetitions: nat, points: seq<Point>, selected: bool, intact: Point -> bool)
    returns (r: Result<Selection, Error>)
    ensures r.Ok? <==>
              && !selected && (forall p | p in points :: intact(p))
              && exists p :: p in points && Group(o, repetitions, At(points, p.concurrency)).Some?
    ensures r.Ok? ==> IsWinner(o, repetitions, points, r.value.concurrency)
    ensures r.Ok? ==>
              && ByRepetition(r.value.support)
              && multiset(r.value.support) == multiset(Group(o, repetitions, At(points, r.value.concurrency)).value)
    ensures r.Ok? <==>
              && !selected && (forall p | p in points :: intact(p))
              && exists c: nat, support :: Supports(o, repetitions, points, c, support)
    ensures r.Ok? ==> Wins(o, repetitions, points, r.value.concurrency, r.value.support)
  {
    SelectableExactly(o, repetitions, points);
    if selected { return Err(AlreadySelected); }
    if exists p :: p in points && !intact(p) { return Err(DigestMismatch); }
    var groups := GroupPoints(points);
    var best := BestGroup(o, repetitions, groups);
    if best.None? {
      NoneIsEligible(o, repetitions, points, groups);
      return Err(NothingEligible);
    }
    var (winner, support) := best.value;
    BestWins(o, repetitions, points, groups, winner, support);
    EligibleAreDistinct(o, groups[winner]);
    SupportIsOrdered(support);
    WinnerWins(o, repetitions, points, winner);
    r := Ok(Selection(winner, Sorted(support)));
  }

  method BestGroup(o: Objective, repetitions: nat, groups: map<nat, seq<Point>>) returns (best: Option<(nat, seq<Point>)>)
    ensures BestOf(o, repetitions, groups, groups.Keys, best)
  {
    var todo := groups.Keys;
    best := None;
    while todo != {}
      invariant todo <= groups.Keys && BestOf(o, repetitions, groups, groups.Keys - todo, best)
    {
      var c :| c in todo;
      todo := todo - {c};
      var eligible := Group(o, repetitions, groups[c]);
      if eligible.Some? && (best.None? || Beats(o.kind, eligible.value, c, best.value.1, best.value.0)) {
        best := Some((c, eligible.value));
      }
    }
    assert groups.Keys - todo == groups.Keys;
  }

  /** `all_points`. */
  method GroupPoints(points: seq<Point>) returns (groups: map<nat, seq<Point>>)
    ensures Groups(points, groups)
  {
    groups := map[];
    for i := 0 to |points|
      invariant groups.Keys == set p | p in points[..i] :: p.concurrency
      invariant forall c :: At(points[..i], c) == if c in groups then groups[c] else []
    {
      var p := points[i];
      assert points[..i + 1] == points[..i] + [p];
      groups := groups[p.concurrency := (if p.concurrency in groups then groups[p.concurrency] else []) + [p]];
    }
    assert points[..|points|] == points;
  }
}
