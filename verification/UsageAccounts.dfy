/** Usage read off the events themselves: which rows, groups and points there are, and
    what each of them says. */
module UsageAccounts {
  import opened Timestamps
  import opened UsageWindow
  import opened EventLog
  import opened Usage
  import opened UsageReports
  import opened Charts

  /** The event is stamped with this day: its first ten characters. */
  predicate OnDay(e: Event, day: string) {
    |e.ts| >= 10 && e.ts[..10] == day
  }

  /** For an event stamped as events are, that is the date in UTC. */
  lemma DayIsTheDate(e: Event, c: Civil, day: string)
    requires Valid(c) && e.ts == Render(c)
    ensures OnDay(e, day) <==>
            |day| == 10 && NumberAt(day, 0, 4, c.year) && day[4] == '-' && NumberAt(day, 5, 2, c.month) && day[7] == '-' && NumberAt(day, 8, 2, c.day)
  {
    DateOnly(c);
    DateSpelled(c, "");
    var date := DateText(c, "");
    if |day| == 10 && NumberAt(day, 0, 4, c.year) && day[4] == '-' && NumberAt(day, 5, 2, c.month) && day[7] == '-' && NumberAt(day, 8, 2, c.day) {
      SameNumber(day, date, 0, 4, c.year);
      SameNumber(day, date, 5, 2, c.month);
      SameNumber(day, date, 8, 2, c.day);
      SameDate(day, date);
    }
  }

  lemma SameDate(s: string, t: string)
    requires |s| == |t| == 10 && s[4] == t[4] && s[7] == t[7]
    requires s[0..4] == t[0..4] && s[5..7] == t[5..7] && s[8..10] == t[8..10]
    ensures s == t
  {
    assert s == s[0..4] + [s[4]] + s[5..7] + [s[7]] + s[8..10];
    assert t == t[0..4] + [t[4]] + t[5..7] + [t[7]] + t[8..10];
  }

  lemma SameNumber(s: string, t: string, from: nat, w: nat, n: nat)
    requires NumberAt(s, from, w, n) && NumberAt(t, from, w, n)
    ensures s[from..from + w] == t[from..from + w]
  {
    DigitsAreUnique(s[from..from + w], t[from..from + w]);
  }

  // ---------------------------------------------------------------- the rows

  /** The event says that a run finished, passed its deadline, or came to an end. */
  predicate Counts(e: Event) {
    || e.kind.AgentFinished? || e.kind.AgentTimedOut?
    || (e.kind.StatusChanged? && (e.kind.to == Done || e.kind.to == Failed || e.kind.to == Killed || e.kind.to == Crashed))
  }

  /** One workspace's events of one day. */
  function EventsAt(events: seq<Event>, w: string, day: string): seq<Event> {
    if events == [] then []
    else
      var e := events[|events| - 1];
      EventsAt(events[..|events| - 1], w, day) + if e.repo == w && OnDay(e, day) then [e] else []
  }

  lemma PostingHere(e: Event, w: string, day: string)
    ensures PostingAt(Posting(e), w, day) == if e.repo == w && OnDay(e, day) then Worth(Posting(e)) else ZERO
  {
  }

  lemma EventsAtMore(events: seq<Event>, w: string, day: string)
    requires events != []
    ensures
      var before, e := EventsAt(events[..|events| - 1], w, day), events[|events| - 1];
      EventsAt(events, w, day) == if e.repo == w && OnDay(e, day) then before + [e] else before
  {
  }

  lemma {:induction false} ShareIsDirect(events: seq<Event>, w: string, day: string)
    ensures DirectSumAt(events, w, day) == DirectSum(EventsAt(events, w, day))
  {
    if events != [] {
      var init, e := events[..|events| - 1], events[|events| - 1];
      ShareIsDirect(init, w, day);
      EventsAtMore(events, w, day);
      PostingHere(e, w, day);
      DirectSumMore(EventsAt(init, w, day), e);
      PlusZero(DirectSum(EventsAt(init, w, day)));
    }
  }

  lemma DirectSumMore(events: seq<Event>, e: Event)
    ensures DirectSum(events + [e]) == DirectSum(events).Plus(Worth(Posting(e)))
  {
    assert (events + [e])[..|events|] == events;
  }

  function HasRow(rows: seq<UsageRow>, w: string, day: string): bool {
    rows != [] && ((rows[0].workspace == w && rows[0].day == day) || HasRow(rows[1..], w, day))
  }

  lemma {:induction false} RowFound(rows: seq<UsageRow>, w: string, day: string) returns (r: UsageRow)
    requires HasRow(rows, w, day)
    ensures r in rows && r.workspace == w && r.day == day
  {
    if rows[0].workspace == w && rows[0].day == day {
      r := rows[0];
    } else {
      r := RowFound(rows[1..], w, day);
    }
  }

  lemma {:induction false} RowIsThere(rows: seq<UsageRow>, r: UsageRow)
    requires r in rows
    ensures HasRow(rows, r.workspace, r.day)
  {
    if rows[0] != r {
      RowIsThere(rows[1..], r);
    }
  }

  lemma {:induction false} NoRowNoShare(rows: seq<UsageRow>, w: string, day: string)
    requires !HasRow(rows, w, day)
    ensures RowsAt(rows, w, day) == ZERO
  {
    if rows != [] {
      NoRowNoShare(rows[1..], w, day);
      assert At(rows[0], w, day) == ZERO;
      PlusZero(ZERO);
    }
  }

  /** In ascending rows a key's share is its row. */
  lemma {:induction false} RowIsItsShare(rows: seq<UsageRow>, r: UsageRow)
    requires RowsAscend(rows) && r in rows
    ensures RowsAt(rows, r.workspace, r.day) == r.tally
  {
    var head, tail := rows[0], rows[1..];
    PlusZero(r.tally);
    if head == r {
      if HasRow(tail, r.workspace, r.day) {
        var s := RowFound(tail, r.workspace, r.day);
        KeyOrder(r.workspace, r.day, r.workspace, r.day);
        assert false;
      }
      NoRowNoShare(tail, r.workspace, r.day);
    } else {
      KeyOrder(head.workspace, head.day, r.workspace, r.day);
      RowIsItsShare(tail, r);
    }
  }

  lemma {:induction false} PostOpens(rows: seq<UsageRow>, w: string, d: string, t: Tally, w': string, d': string)
    ensures HasRow(Post(rows, w, d, t), w', d') <==> HasRow(rows, w', d') || (w == w' && d == d')
  {
    if rows != [] {
      PostOpens(rows[1..], w, d, t, w', d');
    }
  }

  ghost predicate SomeCounts(events: seq<Event>, w: string, day: string) {
    exists e :: e in EventsAt(events, w, day) && Counts(e)
  }

  /** A row is opened by an event that counts, and by nothing else. */
  lemma {:induction false} RowsOpened(events: seq<Event>, w: string, day: string)
    ensures HasRow(Aggregated(events), w, day) <==> SomeCounts(events, w, day)
  {
    if events != [] {
      var init, e := events[..|events| - 1], events[|events| - 1];
      RowsOpened(init, w, day);
      assert e.repo == w && OnDay(e, day) ==> e in EventsAt(events, w, day);
      assert forall f :: f in EventsAt(events, w, day) <==> f in EventsAt(init, w, day) || (f == e && e.repo == w && OnDay(e, day));
      assert Posting(e).Some? <==> Dated(e) && Counts(e);
      if Posting(e).Some? {
        var p := Posting(e).value;
        PostOpens(Aggregated(init), p.workspace, p.day, p.tally, w, day);
      }
    }
  }

  /** The rows, exactly: one for each workspace and day with an event that counts, and it
      says what the events of that workspace and day come to. */
  lemma RowIff(events: seq<Event>, r: UsageRow)
    ensures r in Aggregated(events) <==>
            SomeCounts(events, r.workspace, r.day) && r.tally == Breakdowns(EventsAt(events, r.workspace, r.day))
  {
    var rows := Aggregated(events);
    AggregationAscends(events);
    AggregationExact(events, r.workspace, r.day);
    ShareIsDirect(events, r.workspace, r.day);
    SumsCount(EventsAt(events, r.workspace, r.day));
    RowsOpened(events, r.workspace, r.day);
    if r in rows {
      RowIsThere(rows, r);
      RowIsItsShare(rows, r);
    } else if HasRow(rows, r.workspace, r.day) {
      var s := RowFound(rows, r.workspace, r.day);
      RowIsItsShare(rows, s);
    }
  }

  // -------------------------------------------------------------- the groups

  ghost predicate GroupsAscend(groups: seq<Group>) {
    forall i, j :: 0 <= i < j < |groups| ==> Before(groups[i].workspace, groups[j].workspace)
  }

  /** The workspace has a group with that bucket in its series. */
  function Holds(groups: seq<Group>, w: string, b: Bucket): bool {
    groups != [] && ((groups[0].workspace == w && b in groups[0].series) || Holds(groups[1..], w, b))
  }

  lemma HoldsCons(g: Group, groups: seq<Group>, w: string, b: Bucket)
    ensures Holds([g] + groups, w, b) <==> (g.workspace == w && b in g.series) || Holds(groups, w, b)
  {
    assert ([g] + groups)[1..] == groups;
  }

  lemma {:induction false} FileHolds(groups: seq<Group>, r: UsageRow, w: string, b: Bucket)
    ensures Holds(FileRow(groups, r), w, b) <==> Holds(groups, w, b) || (w == r.workspace && b == BucketOf(r))
  {
    HoldsCons(Opened(r), groups, w, b);
    if groups == [] {
      assert [Opened(r)] + groups == [Opened(r)];
    } else {
      var head, tail := groups[0], groups[1..];
      InsertAdds(head.series, BucketOf(r));
      HoldsCons(Joined(head, r), tail, w, b);
      HoldsCons(head, FileRow(tail, r), w, b);
      FileHolds(tail, r, w, b);
    }
  }

  ghost predicate NoneEmpty(groups: seq<Group>) {
    forall g :: g in groups ==> g.series != []
  }

  lemma {:induction false} FileGroups(groups: seq<Group>, r: UsageRow, g: Group)
    requires g in FileRow(groups, r)
    ensures g in groups || (g.workspace == r.workspace && g.series != [])
  {
    if groups != [] && g in FileRow(groups[1..], r) {
      FileGroups(groups[1..], r, g);
    }
    if groups != [] {
      InsertAdds(groups[0].series, BucketOf(r));
      assert BucketOf(r) in InsertDay(groups[0].series, BucketOf(r));
    }
  }

  lemma AscendOnto(g: Group, groups: seq<Group>)
    requires GroupsAscend(groups) && forall h :: h in groups ==> Before(g.workspace, h.workspace)
    ensures GroupsAscend([g] + groups)
  {
  }

  lemma {:induction false} FileAscends(groups: seq<Group>, r: UsageRow)
    requires GroupsAscend(groups)
    ensures GroupsAscend(FileRow(groups, r))
  {
    if groups != [] {
      var head, tail := groups[0], groups[1..];
      BeforeTotal(r.workspace, head.workspace);
      if head.workspace == r.workspace {
        AscendOnto(Joined(head, r), tail);
      } else if Before(r.workspace, head.workspace) {
        forall h | h in groups
          ensures Before(r.workspace, h.workspace)
        {
          if h != head {
            BeforeTransitive(r.workspace, head.workspace, h.workspace);
          }
        }
        AscendOnto(Opened(r), groups);
      } else {
        FileAscends(tail, r);
        forall h | h in FileRow(tail, r)
          ensures Before(head.workspace, h.workspace)
        {
          FileGroups(tail, r, h);
        }
        AscendOnto(head, FileRow(tail, r));
      }
    }
  }

  /** The report, exactly: the workspaces with a row, in order of their names, and in each
      one's series its rows and no others. */
  lemma {:induction false} ReportIs(rows: seq<UsageRow>, w: string, b: Bucket)
    ensures GroupsAscend(Reported(rows)) && NoneEmpty(Reported(rows))
    ensures Holds(Reported(rows), w, b) <==> UsageRow(w, b.day, b.tally) in rows
  {
    ReportedIsFiled(rows);
    if rows != [] {
      var init, r := rows[..|rows| - 1], rows[|rows| - 1];
      ReportIs(init, w, b);
      ReportedIsFiled(init);
      FileAscends(Filed(init), r);
      FileHolds(Filed(init), r, w, b);
      forall g | g in Filed(rows)
        ensures g.series != []
      {
        FileGroups(Filed(init), r, g);
      }
      assert rows == init + [r];
    }
  }

  // -------------------------------------------------------------- the points

  /** What a measure counts, over events. */
  function Counted(m: Measure, events: seq<Event>): real {
    match m
    case Cost => CostOf(events)
    case Turns => TurnsOf(events) as real
    case Completed => HowManyEnded(events, Done) as real
    case KilledRuns => HowManyEnded(events, Killed) as real
    case FailedRuns => HowManyEnded(events, Failed) as real
    case CrashedRuns => HowManyEnded(events, Crashed) as real
    case TimedOut => HowManyTimedOut(events) as real
  }

  lemma MeasureCounts(m: Measure, events: seq<Event>)
    ensures Of(m, DirectSum(events)) == Counted(m, events)
  {
    SumsCount(events);
  }

  /** All workspaces' events of one day. */
  function EventsOn(events: seq<Event>, day: string): seq<Event> {
    if events == [] then []
    else EventsOn(events[..|events| - 1], day) + if OnDay(events[|events| - 1], day) then [events[|events| - 1]] else []
  }

  /** A measure over the rows of one day. */
  function RowsOn(m: Measure, rows: seq<UsageRow>, day: string): real {
    if rows == [] then 0.0 else (if rows[0].day == day then Of(m, rows[0].tally) else 0.0) + RowsOn(m, rows[1..], day)
  }

  lemma RowsOnCons(m: Measure, r: UsageRow, rows: seq<UsageRow>, day: string)
    ensures RowsOn(m, [r] + rows, day) == (if r.day == day then Of(m, r.tally) else 0.0) + RowsOn(m, rows, day)
  {
    assert ([r] + rows)[1..] == rows;
  }

  lemma {:induction false} PostAddsOn(m: Measure, rows: seq<UsageRow>, w: string, d: string, t: Tally, day: string)
    ensures RowsOn(m, Post(rows, w, d, t), day) == RowsOn(m, rows, day) + if d == day then Of(m, t) else 0.0
  {
    PlusZero(t);
    RowsOnCons(m, UsageRow(w, d, t), rows, day);
    if rows == [] {
      assert [UsageRow(w, d, t)] + rows == [UsageRow(w, d, t)];
    } else {
      var head, tail := rows[0], rows[1..];
      OfPlus(m, head.tally, t);
      RowsOnCons(m, head.(tally := head.tally.Plus(t)), tail, day);
      RowsOnCons(m, head, Post(tail, w, d, t), day);
      PostAddsOn(m, tail, w, d, t, day);
    }
  }

  lemma {:induction false} RowsOnCount(m: Measure, events: seq<Event>, day: string)
    ensures RowsOn(m, Aggregated(events), day) == Of(m, DirectSum(EventsOn(events, day)))
  {
    if events == [] {
      OfPlus(m, ZERO, ZERO);
    } else {
      var init, e := events[..|events| - 1], events[|events| - 1];
      RowsOnCount(m, init, day);
      DirectSumMore(EventsOn(init, day), e);
      OfPlus(m, DirectSum(EventsOn(init, day)), Worth(Posting(e)));
      assert !OnDay(e, day) ==> EventsOn(events, day) == EventsOn(init, day);
      if Posting(e).Some? {
        var p := Posting(e).value;
        PostAddsOn(m, Aggregated(init), p.workspace, p.day, p.tally, day);
        assert OnDay(e, day) <==> p.day == day;
      }
    }
  }

  lemma {:induction false} MeasureAtAppend(m: Measure, a: seq<Bucket>, b: seq<Bucket>, day: string)
    ensures MeasureAt(m, a + b, day) == MeasureAt(m, a, day) + MeasureAt(m, b, day)
    decreases |b|
  {
    if b == [] {
      assert a + b == a;
    } else {
      assert (a + b)[..|a + b| - 1] == a + b[..|b| - 1];
      MeasureAtAppend(m, a, b[..|b| - 1], day);
    }
  }

  function OneAt(m: Measure, b: Bucket, day: string): real {
    if b.day == day then Of(m, b.tally) else 0.0
  }

  lemma MeasureAtCons(m: Measure, b: Bucket, series: seq<Bucket>, day: string)
    ensures MeasureAt(m, [b] + series, day) == OneAt(m, b, day) + MeasureAt(m, series, day)
  {
    MeasureAtAppend(m, [b], series, day);
    assert [b][..0] == [];
  }

  lemma {:induction false} InsertMeasures(m: Measure, series: seq<Bucket>, b: Bucket, day: string)
    ensures MeasureAt(m, InsertDay(series, b), day) == MeasureAt(m, series, day) + OneAt(m, b, day)
  {
    MeasureAtCons(m, b, series, day);
    if series == [] {
      assert [b] + series == [b];
    } else {
      var head, tail := series[0], series[1..];
      assert series == [head] + tail;
      MeasureAtCons(m, head, tail, day);
      MeasureAtCons(m, head, InsertDay(tail, b), day);
      InsertMeasures(m, tail, b, day);
    }
  }

  lemma {:induction false} BucketsCons(g: Group, groups: seq<Group>)
    ensures Buckets([g] + groups) == g.series + Buckets(groups)
  {
    var all := [g] + groups;
    if groups == [] {
      assert all[..0] == [];
    } else {
      var n := |groups| - 1;
      BucketsCons(g, groups[..n]);
      assert all[..|groups|] == [g] + groups[..n];
    }
  }

  lemma ConsMeasures(m: Measure, g: Group, groups: seq<Group>, day: string)
    ensures MeasureAt(m, Buckets([g] + groups), day) == MeasureAt(m, g.series, day) + MeasureAt(m, Buckets(groups), day)
  {
    BucketsCons(g, groups);
    MeasureAtAppend(m, g.series, Buckets(groups), day);
  }

  lemma OpenedMeasures(m: Measure, r: UsageRow, groups: seq<Group>, day: string)
    ensures MeasureAt(m, Buckets([Opened(r)] + groups), day) == MeasureAt(m, Buckets(groups), day) + OneAt(m, BucketOf(r), day)
  {
    ConsMeasures(m, Opened(r), groups, day);
    MeasureAtCons(m, BucketOf(r), [], day);
    assert [BucketOf(r)] + [] == [BucketOf(r)];
  }

  lemma JoinedMeasures(m: Measure, g: Group, r: UsageRow, groups: seq<Group>, day: string)
    ensures MeasureAt(m, Buckets([Joined(g, r)] + groups), day) == MeasureAt(m, Buckets([g] + groups), day) + OneAt(m, BucketOf(r), day)
  {
    ConsMeasures(m, g, groups, day);
    InsertMeasures(m, g.series, BucketOf(r), day);
    ConsMeasures(m, Joined(g, r), groups, day);
  }

  lemma AfterMeasures(m: Measure, head: Group, tail: seq<Group>, tail': seq<Group>, r: UsageRow, day: string)
    requires MeasureAt(m, Buckets(tail'), day) == MeasureAt(m, Buckets(tail), day) + OneAt(m, BucketOf(r), day)
    ensures MeasureAt(m, Buckets([head] + tail'), day) == MeasureAt(m, Buckets([head] + tail), day) + OneAt(m, BucketOf(r), day)
  {
    ConsMeasures(m, head, tail, day);
    ConsMeasures(m, head, tail', day);
  }

  lemma {:induction false} FileMeasures(m: Measure, groups: seq<Group>, r: UsageRow, day: string)
    ensures MeasureAt(m, Buckets(FileRow(groups, r)), day) == MeasureAt(m, Buckets(groups), day) + OneAt(m, BucketOf(r), day)
  {
    if groups == [] || (groups[0].workspace != r.workspace && Before(r.workspace, groups[0].workspace)) {
      assert FileRow(groups, r) == [Opened(r)] + groups;
      OpenedMeasures(m, r, groups, day);
    } else {
      var head, tail := groups[0], groups[1..];
      assert groups == [head] + tail;
      if head.workspace == r.workspace {
        assert FileRow(groups, r) == [Joined(head, r)] + tail;
        JoinedMeasures(m, head, r, tail, day);
      } else {
        assert FileRow(groups, r) == [head] + FileRow(tail, r);
        FileMeasures(m, tail, r, day);
        AfterMeasures(m, head, tail, FileRow(tail, r), r, day);
      }
    }
  }

  lemma {:induction false} RowsOnLast(m: Measure, rows: seq<UsageRow>, r: UsageRow, day: string)
    ensures RowsOn(m, rows + [r], day) == RowsOn(m, rows, day) + OneAt(m, BucketOf(r), day)
  {
    if rows == [] {
      assert rows + [r] == [r] + [];
      RowsOnCons(m, r, [], day);
    } else {
      assert rows + [r] == [rows[0]] + (rows[1..] + [r]);
      RowsOnCons(m, rows[0], rows[1..] + [r], day);
      RowsOnLast(m, rows[1..], r, day);
    }
  }

  lemma FiledStep(m: Measure, rows: seq<UsageRow>, r: UsageRow, day: string)
    requires MeasureAt(m, Buckets(Filed(rows)), day) == RowsOn(m, rows, day)
    ensures MeasureAt(m, Buckets(Filed(rows + [r])), day) == RowsOn(m, rows + [r], day)
  {
    FiledOneMore(rows, r);
    FileMeasures(m, Filed(rows), r, day);
    RowsOnLast(m, rows, r, day);
  }

  lemma {:induction false} FiledMeasures(m: Measure, rows: seq<UsageRow>, day: string)
    ensures MeasureAt(m, Buckets(Filed(rows)), day) == RowsOn(m, rows, day)
  {
    if rows != [] {
      var init, r := rows[..|rows| - 1], rows[|rows| - 1];
      FiledMeasures(m, init, day);
      FiledStep(m, init, r, day);
      assert rows == init + [r];
    }
  }

  /** Each point of a fleet series, read off the events: what the measure counts among all
      workspaces' events of that day. */
  lemma SeriesCounts(events: seq<Event>, m: Measure, points: seq<Point>, day: string)
    requires Plots(points, m, Buckets(Reported(Aggregated(events))))
    ensures ValueAt(points, day) == Counted(m, EventsOn(events, day))
    ensures Charts.Total(points) == Counted(m, events)
  {
    ReportedIsFiled(Aggregated(events));
    FiledMeasures(m, Aggregated(events), day);
    RowsOnCount(m, events, day);
    MeasureCounts(m, EventsOn(events, day));
    AggregationConserves(events);
    AggregationAscends(events);
    AscendingRowsAreDistinct(Aggregated(events));
    ReportConserves(Aggregated(events));
    ReportSound(Aggregated(events));
    BucketsConserve(Reported(Aggregated(events)), Aggregated(events), m);
    MeasureCounts(m, events);
  }
}
