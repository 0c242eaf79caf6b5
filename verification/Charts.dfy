/** The dashboard's fleet-wide series. */
module Charts {
  import opened Timestamps
  import opened EventLog
  import opened Usage
  import opened UsageReports

  datatype Measure = Cost | Turns | Completed | KilledRuns | FailedRuns | CrashedRuns | TimedOut

  function Of(m: Measure, t: Tally): real {
    match m
    case Cost => t.cost
    case Turns => t.turns as real
    case Completed => t.done as real
    case KilledRuns => t.killed as real
    case FailedRuns => t.failed as real
    case CrashedRuns => t.crashed as real
    case TimedOut => t.timedOut as real
  }

  lemma OfPlus(m: Measure, a: Tally, b: Tally)
    ensures Of(m, a.Plus(b)) == Of(m, a) + Of(m, b) && Of(m, ZERO) == 0.0
  {
  }

  datatype Point = Point(day: string, value: real)

  function Total(points: seq<Point>): real {
    if points == [] then 0.0 else points[0].value + Total(points[1..])
  }

  ghost predicate PointsAscend(points: seq<Point>) {
    forall i, j :: 0 <= i < j < |points| ==> Before(points[i].day, points[j].day)
  }

  /** What the points hold for one day. */
  function ValueAt(points: seq<Point>, day: string): real {
    if points == [] then 0.0 else (if points[0].day == day then points[0].value else 0.0) + ValueAt(points[1..], day)
  }

  /** Open the day's point in order if it is missing, and add `x` to it. */
  function PostPoint(points: seq<Point>, day: string, x: real): seq<Point> {
    if points == [] then [Point(day, 0.0 + x)]
    else if points[0].day == day then [Point(day, points[0].value + x)] + points[1..]
    else if Before(day, points[0].day) then [Point(day, 0.0 + x)] + points
    else [points[0]] + PostPoint(points[1..], day, x)
  }

  lemma PointsCons(p: Point, points: seq<Point>, at: string)
    ensures Total([p] + points) == p.value + Total(points)
    ensures ValueAt([p] + points, at) == (if p.day == at then p.value else 0.0) + ValueAt(points, at)
    ensures PointsAscend(points) && (forall q :: q in points ==> Before(p.day, q.day)) ==> PointsAscend([p] + points)
  {
    assert ([p] + points)[1..] == points;
  }

  lemma {:induction false} PostPointAdds(points: seq<Point>, day: string, x: real, at: string)
    ensures Total(PostPoint(points, day, x)) == Total(points) + x
    ensures ValueAt(PostPoint(points, day, x), at) == ValueAt(points, at) + if day == at then x else 0.0
  {
    if points == [] {
      PointsCons(Point(day, x), [], at);
      assert [Point(day, x)] + [] == [Point(day, x)];
    } else if points[0].day == day {
      PointsCons(Point(day, points[0].value + x), points[1..], at);
    } else if Before(day, points[0].day) {
      PointsCons(Point(day, x), points, at);
    } else {
      PostPointAdds(points[1..], day, x, at);
      PointsCons(points[0], PostPoint(points[1..], day, x), at);
    }
  }

  lemma {:induction false} PostPointDays(points: seq<Point>, day: string, x: real, q: Point)
    requires q in PostPoint(points, day, x)
    ensures q.day == day || q in points
  {
    if points != [] && q in PostPoint(points[1..], day, x) {
      PostPointDays(points[1..], day, x, q);
    }
  }

  lemma {:induction false} PostPointAscends(points: seq<Point>, day: string, x: real)
    requires PointsAscend(points)
    ensures PointsAscend(PostPoint(points, day, x))
  {
    if points != [] {
      var head, tail := points[0], points[1..];
      BeforeTotal(day, head.day);
      if head.day == day {
        PointsCons(Point(day, head.value + x), tail, day);
      } else if Before(day, head.day) {
        forall q | q in points
          ensures Before(day, q.day)
        {
          if q != head {
            BeforeTransitive(day, head.day, q.day);
          }
        }
        PointsCons(Point(day, x), points, day);
      } else {
        PostPointAscends(tail, day, x);
        forall q | q in PostPoint(tail, day, x)
          ensures Before(head.day, q.day)
        {
          PostPointDays(tail, day, x, q);
        }
        PointsCons(head, PostPoint(tail, day, x), day);
      }
    }
  }

  // ---------------------------------------------------- the buckets behind it

  /** Every bucket of every group, group by group. */
  function Buckets(groups: seq<Group>): seq<Bucket> {
    if groups == [] then [] else Buckets(groups[..|groups| - 1]) + groups[|groups| - 1].series
  }

  /** The measure over the buckets of one day, or of all days. */
  function MeasureAt(m: Measure, buckets: seq<Bucket>, at: string): real {
    if buckets == [] then 0.0
    else
      var last := buckets[|buckets| - 1];
      MeasureAt(m, buckets[..|buckets| - 1], at) + if last.day == at then Of(m, last.tally) else 0.0
  }

  function MeasureAll(m: Measure, buckets: seq<Bucket>): real {
    if buckets == [] then 0.0 else MeasureAll(m, buckets[..|buckets| - 1]) + Of(m, buckets[|buckets| - 1].tally)
  }

  function HasPoint(points: seq<Point>, day: string): bool {
    points != [] && (points[0].day == day || HasPoint(points[1..], day))
  }

  function HasBucket(buckets: seq<Bucket>, day: string): bool {
    buckets != [] && (buckets[|buckets| - 1].day == day || HasBucket(buckets[..|buckets| - 1], day))
  }

  lemma {:induction false} PostPointOpens(points: seq<Point>, day: string, x: real, at: string)
    ensures HasPoint(PostPoint(points, day, x), at) <==> HasPoint(points, at) || day == at
  {
    if points != [] {
      PostPointOpens(points[1..], day, x, at);
    }
  }

  /** The points are the measure of the buckets: in all, day by day, in order, and only for
      days with a bucket, whatever it holds. */
  ghost predicate Plots(points: seq<Point>, m: Measure, buckets: seq<Bucket>) {
    && (forall day :: HasPoint(points, day) <==> HasBucket(buckets, day))
    && PointsAscend(points) && Total(points) == MeasureAll(m, buckets)
    && forall at :: ValueAt(points, at) == MeasureAt(m, buckets, at)
  }

  lemma PlotOne(points: seq<Point>, m: Measure, buckets: seq<Bucket>, b: Bucket)
    requires Plots(points, m, buckets)
    ensures Plots(PostPoint(points, b.day, Of(m, b.tally)), m, buckets + [b])
  {
    assert (buckets + [b])[..|buckets|] == buckets;
    PostPointAscends(points, b.day, Of(m, b.tally));
    forall at
      ensures ValueAt(PostPoint(points, b.day, Of(m, b.tally)), at) == MeasureAt(m, buckets + [b], at)
      ensures Total(PostPoint(points, b.day, Of(m, b.tally))) == MeasureAll(m, buckets + [b])
      ensures HasPoint(PostPoint(points, b.day, Of(m, b.tally)), at) <==> HasBucket(buckets + [b], at)
    {
      PostPointOpens(points, b.day, Of(m, b.tally), at);
      PostPointAdds(points, b.day, Of(m, b.tally), at);
    }
    PostPointAdds(points, b.day, Of(m, b.tally), b.day);
  }

  lemma OneMoreBucket(before: seq<Bucket>, series: seq<Bucket>, j: nat)
    requires j < |series|
    ensures before + series[..j] + [series[j]] == before + series[..j + 1]
  {
  }

  /** The inner loop: one group's series is added to the points. */
  method PlotSeries(series: seq<Bucket>, m: Measure, from: seq<Point>, ghost before: seq<Bucket>) returns (points: seq<Point>)
    requires Plots(from, m, before)
    ensures Plots(points, m, before + series)
  {
    points := from;
    assert before + series[..0] == before;
    for j := 0 to |series|
      invariant Plots(points, m, before + series[..j])
    {
      PlotOne(points, m, before + series[..j], series[j]);
      OneMoreBucket(before, series, j);
      points := PostPoint(points, series[j].day, Of(m, series[j].tally));
    }
    assert series[..|series|] == series;
  }

  lemma OneMoreGroup(groups: seq<Group>, i: nat)
    requires i < |groups|
    ensures Buckets(groups[..i + 1]) == Buckets(groups[..i]) + groups[i].series
  {
    assert groups[..i + 1][..i] == groups[..i];
  }

  /** The fleet-wide series of a measure. */
  method FleetSeries(groups: seq<Group>, m: Measure) returns (points: seq<Point>)
    ensures Plots(points, m, Buckets(groups))
  {
    points := [];
    for i := 0 to |groups|
      invariant Plots(points, m, Buckets(groups[..i]))
    {
      OneMoreGroup(groups, i);
      points := PlotSeries(groups[i].series, m, points, Buckets(groups[..i]));
    }
    assert groups[..|groups|] == groups;
  }

  // ----------------------------------------------------------- conservation

  lemma {:induction false} MeasureAllAppend(m: Measure, a: seq<Bucket>, b: seq<Bucket>)
    ensures MeasureAll(m, a + b) == MeasureAll(m, a) + MeasureAll(m, b)
    decreases |b|
  {
    if b == [] {
      assert a + b == a;
    } else {
      assert (a + b)[..|a + b| - 1] == a + b[..|b| - 1];
      MeasureAllAppend(m, a, b[..|b| - 1]);
    }
  }

  lemma MeasureCons(m: Measure, b: Bucket, tail: seq<Bucket>)
    ensures MeasureAll(m, [b] + tail) == Of(m, b.tally) + MeasureAll(m, tail)
  {
    MeasureAllAppend(m, [b], tail);
    assert [b][..0] == [];
  }

  lemma {:induction false} MeasureOfSeries(m: Measure, series: seq<Bucket>)
    ensures MeasureAll(m, series) == Of(m, SumSeries(series))
  {
    if series == [] {
      OfPlus(m, ZERO, ZERO);
    } else {
      var b, tail := series[0], series[1..];
      assert series == [b] + tail;
      MeasureCons(m, b, tail);
      MeasureOfSeries(m, tail);
      OfPlus(m, b.tally, SumSeries(tail));
    }
  }

  lemma {:induction false} SumGroupsLast(groups: seq<Group>, g: Group)
    ensures SumGroups(groups + [g]) == SumGroups(groups).Plus(g.tally)
  {
    PlusZero(g.tally);
    if groups == [] {
      assert groups + [g] == [g] + [];
      SumGroupsCons(g, []);
    } else {
      assert groups + [g] == [groups[0]] + (groups[1..] + [g]);
      SumGroupsCons(groups[0], groups[1..] + [g]);
      SumGroupsLast(groups[1..], g);
      PlusSwaps(groups[0].tally, SumGroups(groups[1..]), g.tally);
    }
  }

  lemma GroupConserves(m: Measure, buckets: seq<Bucket>, sum: Tally, g: Group)
    requires MeasureAll(m, buckets) == Of(m, sum) && g.tally == SumSeries(g.series)
    ensures MeasureAll(m, buckets + g.series) == Of(m, sum.Plus(g.tally))
  {
    MeasureAllAppend(m, buckets, g.series);
    MeasureOfSeries(m, g.series);
    OfPlus(m, sum, g.tally);
  }

  lemma {:induction false} BucketsConserve(groups: seq<Group>, rows: seq<UsageRow>, m: Measure)
    requires Sound(groups, rows)
    ensures MeasureAll(m, Buckets(groups)) == Of(m, SumGroups(groups))
  {
    if groups == [] {
      OfPlus(m, ZERO, ZERO);
    } else {
      var init, g := groups[..|groups| - 1], groups[|groups| - 1];
      assert groups == init + [g];
      assert SoundGroup(g, rows);
      SumGroupsLast(init, g);
      BucketsConserve(init, rows, m);
      GroupConserves(m, Buckets(init), SumGroups(init), g);
    }
  }

  /** Usage is conserved end to end.  Over the events of any window, the rows, the
      report, the CLI's total and every fleet series add up to the direct sum. */
  lemma UsageConserved(events: seq<Event>, since: string, until: string, m: Measure, points: seq<Point>)
    requires Plots(points, m, Buckets(Reported(Aggregated(Window(events, since, until)))))
    ensures var sum := DirectSum(Window(events, since, until));
      var rows := Aggregated(Window(events, since, until));
      SumRows(rows) == sum && SumGroups(Reported(rows)) == sum && Total(points) == Of(m, sum)
  {
    var rows := Aggregated(Window(events, since, until));
    AggregationConserves(Window(events, since, until));
    AggregationAscends(Window(events, since, until));
    AscendingRowsAreDistinct(rows);
    ReportConserves(rows);
    ReportSound(rows);
    BucketsConserve(Reported(rows), rows, m);
  }
}
