/** From usage rows to the per-workspace report, the CLI's total and the dashboard's
    fleet-wide series: each only reshapes, so each adds up to the same sums. */
module UsageReports {
  import opened Timestamps
  import opened Usage

  datatype Bucket = Bucket(day: string, tally: Tally)

  datatype Group = Group(workspace: string, tally: Tally, series: seq<Bucket>)

  // ------------------------------------------------------------ the groups

  function SumSeries(series: seq<Bucket>): Tally {
    if series == [] then ZERO else series[0].tally.Plus(SumSeries(series[1..]))
  }

  function SumGroups(groups: seq<Group>): Tally {
    if groups == [] then ZERO else groups[0].tally.Plus(SumGroups(groups[1..]))
  }

  function BucketOf(r: UsageRow): Bucket {
    Bucket(r.day, r.tally)
  }

  /** A row joins its workspace's group, opened in name order if it is missing. */
  function AddRow(groups: seq<Group>, r: UsageRow): seq<Group> {
    if groups == [] then [Group(r.workspace, ZERO.Plus(r.tally), [BucketOf(r)])]
    else if groups[0].workspace == r.workspace
    then [Group(r.workspace, groups[0].tally.Plus(r.tally), groups[0].series + [BucketOf(r)])] + groups[1..]
    else if Before(r.workspace, groups[0].workspace)
    then [Group(r.workspace, ZERO.Plus(r.tally), [BucketOf(r)])] + groups
    else [groups[0]] + AddRow(groups[1..], r)
  }

  function Collected(rows: seq<UsageRow>): seq<Group> {
    if rows == [] then [] else AddRow(Collected(rows[..|rows| - 1]), rows[|rows| - 1])
  }

  /** Stable insertion by day. */
  function InsertDay(series: seq<Bucket>, b: Bucket): seq<Bucket> {
    if series == [] then [b]
    else if Before(b.day, series[0].day) then [b] + series
    else [series[0]] + InsertDay(series[1..], b)
  }

  function SortByDay(series: seq<Bucket>): seq<Bucket> {
    if series == [] then [] else InsertDay(SortByDay(series[..|series| - 1]), series[|series| - 1])
  }

  function SortGroup(g: Group): Group {
    g.(series := SortByDay(g.series))
  }

  function SortGroups(groups: seq<Group>): seq<Group> {
    if groups == [] then [] else [SortGroup(groups[0])] + SortGroups(groups[1..])
  }

  function Reported(rows: seq<UsageRow>): seq<Group> {
    SortGroups(Collected(rows))
  }

  method UsageReport(rows: seq<UsageRow>) returns (groups: seq<Group>)
    ensures groups == Reported(rows)
  {
    var collected := [];
    for i := 0 to |rows|
      invariant collected == Collected(rows[..i])
    {
      assert rows[..i + 1][..i] == rows[..i];
      collected := AddRow(collected, rows[i]);
    }
    assert rows[..|rows|] == rows;
    groups := [];
    for i := 0 to |collected|
      invariant groups + SortGroups(collected[i..]) == SortGroups(collected)
    {
      assert collected[i..][1..] == collected[i + 1..];
      groups := groups + [SortGroup(collected[i])];
    }
  }

  // ------------------------------------------------- filing in sorted order

  /** `AddRow` into groups whose series are kept in order. */
  function FileRow(groups: seq<Group>, r: UsageRow): seq<Group> {
    if groups == [] then [Group(r.workspace, ZERO.Plus(r.tally), [BucketOf(r)])]
    else if groups[0].workspace == r.workspace
    then [Group(r.workspace, groups[0].tally.Plus(r.tally), InsertDay(groups[0].series, BucketOf(r)))] + groups[1..]
    else if Before(r.workspace, groups[0].workspace)
    then [Group(r.workspace, ZERO.Plus(r.tally), [BucketOf(r)])] + groups
    else [groups[0]] + FileRow(groups[1..], r)
  }

  function Filed(rows: seq<UsageRow>): seq<Group> {
    if rows == [] then [] else FileRow(Filed(rows[..|rows| - 1]), rows[|rows| - 1])
  }

  lemma SortOneMore(series: seq<Bucket>, b: Bucket)
    ensures SortByDay(series + [b]) == InsertDay(SortByDay(series), b)
  {
    assert (series + [b])[..|series|] == series;
  }

  lemma SortCons(g: Group, groups: seq<Group>)
    ensures SortGroups([g] + groups) == [SortGroup(g)] + SortGroups(groups)
  {
    assert ([g] + groups)[1..] == groups;
  }

  lemma OneBucket(b: Bucket)
    ensures SortByDay([b]) == [b]
  {
    SortOneMore([], b);
    assert [] + [b] == [b];
  }

  lemma {:induction false} SortThenFile(groups: seq<Group>, r: UsageRow)
    ensures SortGroups(AddRow(groups, r)) == FileRow(SortGroups(groups), r)
  {
    OneBucket(BucketOf(r));
    if groups == [] {
      var begun := Group(r.workspace, ZERO.Plus(r.tally), [BucketOf(r)]);
      SortCons(begun, []);
      assert [begun] + [] == [begun];
    } else {
      var head, tail := groups[0], groups[1..];
      assert SortGroups(groups)[1..] == SortGroups(tail);
      if head.workspace == r.workspace {
        SortOneMore(head.series, BucketOf(r));
        SortCons(Group(r.workspace, head.tally.Plus(r.tally), head.series + [BucketOf(r)]), tail);
      } else if Before(r.workspace, head.workspace) {
        SortCons(Group(r.workspace, ZERO.Plus(r.tally), [BucketOf(r)]), groups);
      } else {
        SortThenFile(tail, r);
        SortCons(head, AddRow(tail, r));
      }
    }
  }

  /** Pushing everything and sorting at the end is filing in order all along. */
  lemma {:induction false} ReportedIsFiled(rows: seq<UsageRow>)
    ensures Reported(rows) == Filed(rows)
  {
    if rows != [] {
      ReportedIsFiled(rows[..|rows| - 1]);
      SortThenFile(Collected(rows[..|rows| - 1]), rows[|rows| - 1]);
    }
  }

  // ------------------------------------------------------------ conservation

  lemma SumGroupsCons(g: Group, groups: seq<Group>)
    ensures SumGroups([g] + groups) == g.tally.Plus(SumGroups(groups))
  {
    assert ([g] + groups)[1..] == groups;
  }

  lemma {:induction false} FileAdds(groups: seq<Group>, r: UsageRow)
    ensures SumGroups(FileRow(groups, r)) == SumGroups(groups).Plus(r.tally)
  {
    PlusZero(r.tally);
    var begun := Group(r.workspace, r.tally, [BucketOf(r)]);
    if groups == [] {
      SumGroupsCons(begun, []);
      assert [begun] + [] == [begun];
    } else {
      var head, tail := groups[0], groups[1..];
      PlusSwaps(head.tally, SumGroups(tail), r.tally);
      if head.workspace == r.workspace {
        SumGroupsCons(Group(r.workspace, head.tally.Plus(r.tally), InsertDay(head.series, BucketOf(r))), tail);
      } else if Before(r.workspace, head.workspace) {
        SumGroupsCons(begun, groups);
        PlusSwaps(r.tally, SumGroups(groups), ZERO);
      } else {
        SumGroupsCons(head, FileRow(tail, r));
        FileAdds(tail, r);
      }
    }
  }

  lemma {:induction false} SumRowsLast(rows: seq<UsageRow>, r: UsageRow)
    ensures SumRows(rows + [r]) == SumRows(rows).Plus(r.tally)
  {
    PlusZero(r.tally);
    if rows == [] {
      assert rows + [r] == [r] + [];
      SumCons(r, []);
    } else {
      assert rows + [r] == [rows[0]] + (rows[1..] + [r]);
      SumCons(rows[0], rows[1..] + [r]);
      SumRowsLast(rows[1..], r);
      PlusSwaps(rows[0].tally, SumRows(rows[1..]), r.tally);
    }
  }

  /** The report's groups add up to the rows. */
  lemma {:induction false} ReportConserves(rows: seq<UsageRow>)
    ensures SumGroups(Reported(rows)) == SumRows(rows)
  {
    ReportedIsFiled(rows);
    if rows != [] {
      var init, r := rows[..|rows| - 1], rows[|rows| - 1];
      ReportConserves(init);
      ReportedIsFiled(init);
      FileAdds(Filed(init), r);
      SumRowsLast(init, r);
      assert init + [r] == rows;
    }
  }

  /** The CLI's total row. */
  method Total(groups: seq<Group>) returns (total: Tally)
    ensures total == SumGroups(groups)
  {
    total := ZERO;
    PlusZero(SumGroups(groups));
    for i := 0 to |groups|
      invariant total.Plus(SumGroups(groups[i..])) == SumGroups(groups)
    {
      assert groups[i..][1..] == groups[i + 1..];
      PlusSwaps(total, groups[i].tally, SumGroups(groups[i + 1..]));
      total := total.Plus(groups[i].tally);
    }
    PlusZero(total);
  }

  // ----------------------------------------------------- the order of rows

  lemma {:induction false} InsertsCommute(series: seq<Bucket>, a: Bucket, b: Bucket)
    requires Before(a.day, b.day)
    ensures InsertDay(InsertDay(series, a), b) == InsertDay(InsertDay(series, b), a)
  {
    BeforeAsymmetric(a.day, b.day);
    if series == [] {
      assert [a] + [] == [a];
      assert InsertDay([a], b) == [a] + InsertDay([], b);
    } else {
      var head, tail := series[0], series[1..];
      if Before(b.day, head.day) {
        BeforeTransitive(a.day, b.day, head.day);
        assert ([a] + series)[1..] == series;
      } else if Before(a.day, head.day) {
        assert ([a] + series)[1..] == series;
      } else {
        InsertsCommute(tail, a, b);
        assert ([head] + InsertDay(tail, a))[1..] == InsertDay(tail, a);
        assert ([head] + InsertDay(tail, b))[1..] == InsertDay(tail, b);
      }
    }
  }

  lemma InsertEitherWay(series: seq<Bucket>, a: Bucket, b: Bucket)
    requires a.day != b.day
    ensures InsertDay(InsertDay(series, a), b) == InsertDay(InsertDay(series, b), a)
  {
    BeforeTotal(a.day, b.day);
    if Before(a.day, b.day) {
      InsertsCommute(series, a, b);
    } else {
      InsertsCommute(series, b, a);
    }
  }

  function Opened(r: UsageRow): Group {
    Group(r.workspace, ZERO.Plus(r.tally), [BucketOf(r)])
  }

  function Joined(g: Group, r: UsageRow): Group {
    Group(r.workspace, g.tally.Plus(r.tally), InsertDay(g.series, BucketOf(r)))
  }

  lemma JoinedEitherWay(g: Group, a: UsageRow, b: UsageRow)
    requires a.workspace == b.workspace && a.day != b.day
    ensures Joined(Joined(g, a), b) == Joined(Joined(g, b), a)
  {
    InsertEitherWay(g.series, BucketOf(a), BucketOf(b));
    PlusSwaps(g.tally, a.tally, b.tally);
  }

  lemma FileHere(g: Group, groups: seq<Group>, r: UsageRow)
    requires g.workspace == r.workspace
    ensures FileRow([g] + groups, r) == [Joined(g, r)] + groups
  {
    assert ([g] + groups)[1..] == groups;
  }

  lemma FileBefore(groups: seq<Group>, r: UsageRow)
    requires groups == [] || Before(r.workspace, groups[0].workspace)
    ensures FileRow(groups, r) == [Opened(r)] + groups
  {
    BeforeIrreflexive(r.workspace);
  }

  lemma FileAfter(g: Group, groups: seq<Group>, r: UsageRow)
    requires Before(g.workspace, r.workspace)
    ensures FileRow([g] + groups, r) == [g] + FileRow(groups, r)
  {
    assert ([g] + groups)[1..] == groups;
    BeforeAsymmetric(g.workspace, r.workspace);
    BeforeIrreflexive(r.workspace);
  }

  /** Rows of two workspaces, `a` of the earlier one, neither reached yet. */
  lemma FilesApartBefore(groups: seq<Group>, a: UsageRow, b: UsageRow)
    requires Before(a.workspace, b.workspace) && (groups == [] || Before(b.workspace, groups[0].workspace))
    ensures FileRow(FileRow(groups, a), b) == FileRow(FileRow(groups, b), a)
  {
    if groups != [] {
      BeforeTransitive(a.workspace, b.workspace, groups[0].workspace);
    }
    FileBefore(groups, a);
    FileBefore(groups, b);
    FileAfter(Opened(a), groups, b);
    FileBefore([Opened(b)] + groups, a);
  }

  /** Both rows come after the first group. */
  lemma FilesAfter(head: Group, tail: seq<Group>, a: UsageRow, b: UsageRow)
    requires Before(head.workspace, a.workspace) && Before(head.workspace, b.workspace)
    requires FileRow(FileRow(tail, a), b) == FileRow(FileRow(tail, b), a)
    ensures FileRow(FileRow([head] + tail, a), b) == FileRow(FileRow([head] + tail, b), a)
  {
    FileAfter(head, tail, a);
    FileAfter(head, tail, b);
    FileAfter(head, FileRow(tail, a), b);
    FileAfter(head, FileRow(tail, b), a);
  }

  /** `a` belongs at or before the first group, `b` not before it. */
  lemma FilesAround(head: Group, tail: seq<Group>, a: UsageRow, b: UsageRow)
    requires Before(a.workspace, b.workspace) && !Before(b.workspace, head.workspace)
    requires a.workspace == head.workspace || Before(a.workspace, head.workspace)
    ensures FileRow(FileRow([head] + tail, a), b) == FileRow(FileRow([head] + tail, b), a)
  {
    var groups := [head] + tail;
    if Before(a.workspace, head.workspace) {
      FileBefore(groups, a);
      FileAfter(Opened(a), groups, b);
      FileBefore(FileRow(groups, b), a);
    } else {
      FileHere(head, tail, a);
      FileAfter(Joined(head, a), tail, b);
      FileAfter(head, tail, b);
      FileHere(head, FileRow(tail, b), a);
    }
  }

  lemma {:induction false} FilesApart(groups: seq<Group>, a: UsageRow, b: UsageRow)
    requires Before(a.workspace, b.workspace)
    ensures FileRow(FileRow(groups, a), b) == FileRow(FileRow(groups, b), a)
  {
    if groups == [] || Before(b.workspace, groups[0].workspace) {
      FilesApartBefore(groups, a, b);
    } else {
      var head, tail := groups[0], groups[1..];
      assert groups == [head] + tail;
      BeforeTotal(a.workspace, head.workspace);
      if Before(head.workspace, a.workspace) {
        BeforeTransitive(head.workspace, a.workspace, b.workspace);
        FilesApart(tail, a, b);
        FilesAfter(head, tail, a, b);
      } else {
        FilesAround(head, tail, a, b);
      }
    }
  }

  /** Two days of one workspace. */
  lemma {:induction false} FilesTogether(groups: seq<Group>, a: UsageRow, b: UsageRow)
    requires a.workspace == b.workspace && a.day != b.day
    ensures FileRow(FileRow(groups, a), b) == FileRow(FileRow(groups, b), a)
  {
    if groups == [] || Before(a.workspace, groups[0].workspace) {
      FileBefore(groups, a);
      FileBefore(groups, b);
      FileHere(Opened(a), groups, b);
      FileHere(Opened(b), groups, a);
      OpenedEitherWay(a, b);
    } else {
      var head, tail := groups[0], groups[1..];
      assert groups == [head] + tail;
      BeforeTotal(a.workspace, head.workspace);
      if head.workspace == a.workspace {
        FileHere(head, tail, a);
        FileHere(head, tail, b);
        FileHere(Joined(head, a), tail, b);
        FileHere(Joined(head, b), tail, a);
        JoinedEitherWay(head, a, b);
      } else {
        FilesTogether(tail, a, b);
        FilesAfter(head, tail, a, b);
      }
    }
  }

  lemma OpenedEitherWay(a: UsageRow, b: UsageRow)
    requires a.workspace == b.workspace && a.day != b.day
    ensures Joined(Opened(a), b) == Joined(Opened(b), a)
  {
    var none := Group(a.workspace, ZERO, []);
    assert Joined(none, a) == Opened(a) && Joined(none, b) == Opened(b);
    JoinedEitherWay(none, a, b);
  }

  lemma FilesCommute(groups: seq<Group>, a: UsageRow, b: UsageRow)
    requires a.workspace != b.workspace || a.day != b.day
    ensures FileRow(FileRow(groups, a), b) == FileRow(FileRow(groups, b), a)
  {
    BeforeTotal(a.workspace, b.workspace);
    if a.workspace == b.workspace {
      FilesTogether(groups, a, b);
    } else if Before(a.workspace, b.workspace) {
      FilesApart(groups, a, b);
    } else {
      FilesApart(groups, b, a);
    }
  }

  /** One row per workspace and day. */
  ghost predicate DistinctRows(rows: seq<UsageRow>) {
    forall i, j :: 0 <= i < j < |rows| ==> rows[i].workspace != rows[j].workspace || rows[i].day != rows[j].day
  }

  lemma FiledOneMore(rows: seq<UsageRow>, r: UsageRow)
    ensures Filed(rows + [r]) == FileRow(Filed(rows), r)
  {
    assert (rows + [r])[..|rows|] == rows;
  }

  lemma {:induction false} RowLast(a: seq<UsageRow>, r: UsageRow, b: seq<UsageRow>)
    requires forall s :: s in b ==> s.workspace != r.workspace || s.day != r.day
    ensures Filed(a + [r] + b) == FileRow(Filed(a + b), r)
    decreases |b|
  {
    if b == [] {
      assert a + [r] + b == a + [r] && a + b == a;
      FiledOneMore(a, r);
    } else {
      var init, s := b[..|b| - 1], b[|b| - 1];
      RowLast(a, r, init);
      assert a + [r] + b == (a + [r] + init) + [s] && a + b == (a + init) + [s];
      FiledOneMore(a + [r] + init, s);
      FiledOneMore(a + init, s);
      FilesCommute(Filed(a + init), r, s);
    }
  }

  lemma DistinctParts(a: seq<UsageRow>, r: UsageRow, b: seq<UsageRow>)
    requires DistinctRows(a + [r] + b)
    ensures DistinctRows(a + b)
    ensures forall s :: s in b ==> s.workspace != r.workspace || s.day != r.day
  {
    var rows := a + [r] + b;
    forall i, j | 0 <= i < j < |a + b|
      ensures (a + b)[i].workspace != (a + b)[j].workspace || (a + b)[i].day != (a + b)[j].day
    {
      var i', j' := if i < |a| then i else i + 1, if j < |a| then j else j + 1;
      assert rows[i'] == (a + b)[i] && rows[j'] == (a + b)[j];
    }
    forall s | s in b
      ensures s.workspace != r.workspace || s.day != r.day
    {
      var j :| 0 <= j < |b| && b[j] == s;
      assert rows[|a|] == r && rows[|a| + 1 + j] == s;
    }
  }

  /** The report does not depend on the order of the rows. */
  lemma {:induction false} ReportIgnoresOrder(rows: seq<UsageRow>, other: seq<UsageRow>)
    requires multiset(rows) == multiset(other) && DistinctRows(other)
    ensures Reported(rows) == Reported(other)
    decreases |rows|
  {
    ReportedIsFiled(rows);
    ReportedIsFiled(other);
    if rows == [] {
      assert |multiset(other)| == 0;
    } else {
      var init, r := rows[..|rows| - 1], rows[|rows| - 1];
      assert rows == init + [r];
      assert r in multiset(other);
      var a, b := Locate(other, r);
      TakeOut(init, r, a, b);
      DistinctParts(a, r, b);
      ReportIgnoresOrder(init, a + b);
      ReportedIsFiled(init);
      ReportedIsFiled(a + b);
      RowLast(a, r, b);
    }
  }

  // ------------------------------------------------- what a group contains

  ghost predicate SeriesAscends(series: seq<Bucket>) {
    forall i, j :: 0 <= i < j < |series| ==> Before(series[i].day, series[j].day)
  }

  lemma SeriesCons(b: Bucket, series: seq<Bucket>)
    ensures SumSeries([b] + series) == b.tally.Plus(SumSeries(series))
    ensures SeriesAscends(series) && (forall c :: c in series ==> Before(b.day, c.day)) ==> SeriesAscends([b] + series)
  {
    assert ([b] + series)[1..] == series;
  }

  lemma {:induction false} InsertAdds(series: seq<Bucket>, b: Bucket)
    ensures SumSeries(InsertDay(series, b)) == SumSeries(series).Plus(b.tally)
    ensures forall c :: c in InsertDay(series, b) <==> c in series || c == b
  {
    PlusZero(b.tally);
    if series == [] {
      SeriesCons(b, []);
      assert [b] + [] == [b];
    } else if Before(b.day, series[0].day) {
      SeriesCons(b, series);
      PlusSwaps(b.tally, SumSeries(series), ZERO);
    } else {
      InsertAdds(series[1..], b);
      SeriesCons(series[0], InsertDay(series[1..], b));
      PlusSwaps(series[0].tally, SumSeries(series[1..]), b.tally);
      assert series == [series[0]] + series[1..];
    }
  }

  lemma {:induction false} InsertAscends(series: seq<Bucket>, b: Bucket)
    requires SeriesAscends(series) && forall c :: c in series ==> c.day != b.day
    ensures SeriesAscends(InsertDay(series, b))
  {
    if series == [] {
    } else if Before(b.day, series[0].day) {
      forall c | c in series
        ensures Before(b.day, c.day)
      {
        if c != series[0] {
          BeforeTransitive(b.day, series[0].day, c.day);
        }
      }
      SeriesCons(b, series);
    } else {
      BeforeTotal(b.day, series[0].day);
      assert series[0] in series;
      InsertAscends(series[1..], b);
      InsertAdds(series[1..], b);
      SeriesCons(series[0], InsertDay(series[1..], b));
    }
  }

  /** A group's total is its series', the series goes up by day, and it holds the
      group's rows. */
  ghost predicate SoundGroup(g: Group, rows: seq<UsageRow>) {
    && g.tally == SumSeries(g.series) && SeriesAscends(g.series)
    && forall b :: b in g.series ==> UsageRow(g.workspace, b.day, b.tally) in rows
  }

  ghost predicate Sound(groups: seq<Group>, rows: seq<UsageRow>) {
    forall g :: g in groups ==> SoundGroup(g, rows)
  }

  ghost predicate NewKey(rows: seq<UsageRow>, r: UsageRow) {
    forall s :: s in rows ==> s.workspace != r.workspace || s.day != r.day
  }

  lemma JoinedSound(g: Group, rows: seq<UsageRow>, r: UsageRow)
    requires SoundGroup(g, rows) && g.workspace == r.workspace && NewKey(rows, r)
    ensures SoundGroup(Joined(g, r), rows + [r])
  {
    InsertAdds(g.series, BucketOf(r));
    forall b | b in g.series
      ensures b.day != r.day
    {
      assert UsageRow(g.workspace, b.day, b.tally) in rows;
    }
    InsertAscends(g.series, BucketOf(r));
  }

  lemma OpenedSound(rows: seq<UsageRow>, r: UsageRow)
    requires NewKey(rows, r)
    ensures SoundGroup(Opened(r), rows + [r])
  {
    var none := Group(r.workspace, ZERO, []);
    JoinedSound(none, rows, r);
    assert Joined(none, r) == Opened(r);
  }

  lemma {:induction false} FileSound(groups: seq<Group>, rows: seq<UsageRow>, r: UsageRow)
    requires Sound(groups, rows) && NewKey(rows, r)
    ensures Sound(FileRow(groups, r), rows + [r])
  {
    OpenedSound(rows, r);
    forall g | g in groups
      ensures SoundGroup(g, rows + [r])
      ensures g.workspace == r.workspace ==> SoundGroup(Joined(g, r), rows + [r])
    {
      if g.workspace == r.workspace {
        JoinedSound(g, rows, r);
      }
    }
    if groups != [] {
      FileSound(groups[1..], rows, r);
    }
  }

  /** In a report over one row per workspace and day, each group's total is the sum of
      its series, and each series goes strictly up by day. */
  lemma {:induction false} ReportSound(rows: seq<UsageRow>)
    requires DistinctRows(rows)
    ensures Sound(Reported(rows), rows)
  {
    ReportedIsFiled(rows);
    if rows != [] {
      var init, r := rows[..|rows| - 1], rows[|rows| - 1];
      ReportSound(init);
      ReportedIsFiled(init);
      assert NewKey(init, r);
      FileSound(Filed(init), init, r);
      assert rows == init + [r];
    }
  }

  lemma AscendingRowsAreDistinct(rows: seq<UsageRow>)
    requires RowsAscend(rows)
    ensures DistinctRows(rows)
  {
    forall i, j | 0 <= i < j < |rows|
      ensures rows[i].workspace != rows[j].workspace || rows[i].day != rows[j].day
    {
      KeyOrder(rows[i].workspace, rows[i].day, rows[j].workspace, rows[j].day);
    }
  }
}
