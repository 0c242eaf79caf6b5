/** Run history keeps the newest runs of each automation: a streaming top-k. */
module RunHistory {
  import opened Timestamps

  const RUN_HISTORY_LIMIT: nat := 200

  /** `kept` is a choice of the `k` newest of `all`; ties may go either way. */
  ghost predicate IsTop(k: nat, all: multiset<string>, kept: multiset<string>) {
    && kept <= all
    && |kept| == (if k < |all| then k else |all|)
    && forall x, y :: x in kept && y in all - kept ==> !Before(x, y)
  }

  lemma NotBeforeTransitive(a: string, b: string, c: string)
    requires !Before(a, b) && !Before(b, c)
    ensures !Before(a, c)
  {
    BeforeTotal(a, b);
    if Before(a, c) && a != b {
      BeforeTransitive(b, a, c);
    }
  }

  lemma SameSize(a: multiset<string>, b: multiset<string>)
    requires a <= b && |a| == |b|
    ensures a == b
  {
    assert |b - a| == 0;
    assert b == a + (b - a);
  }

  /** Something occurs more often in `a` than in `b`. */
  lemma Excess(a: multiset<string>, b: multiset<string>) returns (x: string)
    requires |a| == |b| && a != b
    ensures a[x] > b[x]
  {
    if a <= b {
      SameSize(a, b);
    }
    x :| a[x] > b[x];
  }

  /** However ties are broken, the kept fire times are the same. */
  lemma TopIsUnique(k: nat, all: multiset<string>, kept: multiset<string>, other: multiset<string>)
    requires IsTop(k, all, kept) && IsTop(k, all, other)
    ensures kept == other
  {
    if kept != other {
      var x := Excess(kept, other);
      var y := Excess(other, kept);
      assert x in kept && x in all - other && y in other && y in all - kept;
      BeforeTotal(x, y);
      assert false;
    }
  }

  /** Recording one more: the newest of the kept ones and the new one are the newest
      of everything ever recorded. */
  lemma TopStreams(k: nat, all: multiset<string>, kept: multiset<string>, x: string, kept': multiset<string>)
    requires IsTop(k, all, kept) && IsTop(k, kept + multiset{x}, kept')
    ensures IsTop(k, all + multiset{x}, kept')
  {
    forall a, b | a in kept' && b in all + multiset{x} - kept'
      ensures !Before(a, b)
    {
      var seen := kept + multiset{x};
      if b !in seen - kept' {
        assert b in all - kept;
        if a !in kept {
          var d := Dropped(k, kept, x, kept', all, b);
          NotBeforeTransitive(a, d, b);
        }
      }
    }
  }

  /** When `x` was kept although something older than the kept ones exists, one of the
      kept ones was dropped for it. */
  lemma Dropped(k: nat, kept: multiset<string>, x: string, kept': multiset<string>, all: multiset<string>, b: string) returns (d: string)
    requires IsTop(k, all, kept) && IsTop(k, kept + multiset{x}, kept')
    requires b in all - kept && x !in kept && x in kept'
    ensures d in kept && d in kept + multiset{x} - kept'
  {
    var seen := kept + multiset{x};
    assert |all - kept| > 0;
    assert |seen - kept'| == 1;
    d :| d in seen - kept';
    assert d != x;
  }

  /** Dropping an oldest element of a top choice leaves a smaller one. */
  lemma DropOldest(all: multiset<string>, kept: multiset<string>, x: string)
    requires IsTop(|kept|, all, kept) && x in kept
    requires Earliest(kept, x)
    ensures IsTop(|kept| - 1, all, kept - multiset{x})
  {
    forall a, b | a in kept - multiset{x} && b in all - (kept - multiset{x})
      ensures !Before(a, b)
    {
      assert a in kept;
      if b !in all - kept {
        assert b == x;
      }
    }
  }

  // ------------------------------------------------------------ the table

  datatype Run = Run(automation: string, firedAt: string, agent: string)

  function Time(run: Run, id: string): multiset<string> {
    if run.automation == id then multiset{run.firedAt} else multiset{}
  }

  function Other(run: Run, id: string): seq<Run> {
    if run.automation == id then [] else [run]
  }

  /** The fire times recorded for one automation. */
  function Times(rows: seq<Run>, id: string): multiset<string> {
    if rows == [] then multiset{} else Times(rows[..|rows| - 1], id) + Time(rows[|rows| - 1], id)
  }

  /** The rows of every other automation, in order. */
  function Others(rows: seq<Run>, id: string): seq<Run> {
    if rows == [] then [] else Others(rows[..|rows| - 1], id) + Other(rows[|rows| - 1], id)
  }

  /** The rows of one automation, in order. */
  function RunsOf(rows: seq<Run>, id: string): seq<Run> {
    if rows == [] then []
    else RunsOf(rows[..|rows| - 1], id) + if rows[|rows| - 1].automation == id then [rows[|rows| - 1]] else []
  }

  lemma OneRow(run: Run, id: string)
    ensures Times([run], id) == Time(run, id) && Others([run], id) == Other(run, id)
  {
    assert [run][..0] == [];
  }

  lemma OneMoreIn(rows: seq<Run>, row: Run, id: string)
    ensures Times(rows + [row], id) == Times(rows, id) + Time(row, id)
    ensures Others(rows + [row], id) == Others(rows, id) + Other(row, id)
  {
    assert (rows + [row])[..|rows|] == rows;
  }

  lemma Associative(a: seq<Run>, b: seq<Run>, c: seq<Run>)
    ensures a + b + c == a + (b + c)
  {
  }

  lemma AppendOneMore(a: seq<Run>, b: seq<Run>, row: Run, id: string)
    requires Times(a + b, id) == Times(a, id) + Times(b, id)
    requires Others(a + b, id) == Others(a, id) + Others(b, id)
    ensures Times(a + (b + [row]), id) == Times(a, id) + Times(b + [row], id)
    ensures Others(a + (b + [row]), id) == Others(a, id) + Others(b + [row], id)
  {
    Associative(a, b, [row]);
    OneMoreIn(b, row, id);
    OneMoreIn(a + b, row, id);
    Associative(Others(a, id), Others(b, id), Other(row, id));
  }

  lemma {:induction false} TimesAppend(a: seq<Run>, b: seq<Run>, id: string)
    ensures Times(a + b, id) == Times(a, id) + Times(b, id)
    ensures Others(a + b, id) == Others(a, id) + Others(b, id)
    decreases |b|
  {
    if b == [] {
      assert a + b == a;
    } else {
      var init, last := b[..|b| - 1], b[|b| - 1];
      assert b == init + [last];
      TimesAppend(a, init, id);
      AppendOneMore(a, init, last, id);
    }
  }

  lemma InThree(head: seq<Run>, row: Run, tail: seq<Run>, id: string)
    ensures Times(head + [row] + tail, id) == Times(head, id) + Time(row, id) + Times(tail, id)
    ensures Others(head + [row] + tail, id) == Others(head, id) + Other(row, id) + Others(tail, id)
  {
    TimesAppend(head + [row], tail, id);
    TimesAppend(head, [row], id);
    OneRow(row, id);
  }

  lemma TakeBack(a: multiset<string>, x: string, b: multiset<string>)
    ensures a + multiset{x} + b - multiset{x} == a + b
    ensures x in a + multiset{x} + b
  {
  }

  lemma RemoveTime(head: seq<Run>, row: Run, tail: seq<Run>, id: string)
    requires row.automation == id
    ensures Times(head + tail, id) == Times(head + [row] + tail, id) - multiset{row.firedAt}
    ensures row.firedAt in Times(head + [row] + tail, id)
  {
    InThree(head, row, tail, id);
    TimesAppend(head, tail, id);
    TakeBack(Times(head, id), row.firedAt, Times(tail, id));
  }

  lemma RemoveKeepsOthers(head: seq<Run>, row: Run, tail: seq<Run>, id: string)
    requires row.automation == id
    ensures Others(head + tail, id) == Others(head + [row] + tail, id)
  {
    InThree(head, row, tail, id);
    TimesAppend(head, tail, id);
  }

  lemma OneMoreRow(rows: seq<Run>, j: nat, id: string)
    requires j < |rows|
    ensures Times(rows[..j + 1], id) == Times(rows[..j], id) + Time(rows[j], id)
  {
    assert rows[..j + 1][..j] == rows[..j];
  }

  /** `x` is no later than any of `times`. */
  ghost predicate Earliest(times: multiset<string>, x: string) {
    forall y :: y in times ==> !Before(y, x)
  }

  lemma EarlierIsEarliest(times: multiset<string>, x: string, y: string)
    requires Earliest(times, x) && Before(y, x)
    ensures Earliest(times, y)
  {
    BeforeAsymmetric(y, x);
    forall z | z in times
      ensures !Before(z, y)
    {
      NotBeforeTransitive(z, x, y);
    }
  }

  /** The row of `id` that fired first, if it has any. */
  method Oldest(rows: seq<Run>, id: string) returns (i: nat)
    requires |Times(rows, id)| > 0
    ensures i < |rows| && rows[i].automation == id && Earliest(Times(rows, id), rows[i].firedAt)
  {
    i := |rows|;
    for j := 0 to |rows|
      invariant i <= |rows|
      invariant i == |rows| ==> Times(rows[..j], id) == multiset{}
      invariant i < |rows| ==> rows[i].automation == id && Earliest(Times(rows[..j], id), rows[i].firedAt)
    {
      OneMoreRow(rows, j, id);
      if rows[j].automation == id && (i == |rows| || Before(rows[j].firedAt, rows[i].firedAt)) {
        BeforeIrreflexive(rows[j].firedAt);
        if i < |rows| {
          EarlierIsEarliest(Times(rows[..j], id), rows[i].firedAt, rows[j].firedAt);
        }
        i := j;
      }
    }
    assert rows[..|rows|] == rows;
  }

  /** A run was recorded: what is left of its automation's fire times is the newest
      200 of those it had and the new one, every row left is one of them as it was, and no
      other automation's row is touched. */
  ghost predicate Recorded(rows: seq<Run>, run: Run, rows': seq<Run>) {
    && multiset(rows') <= multiset(rows) + multiset{run}
    && IsTop(RUN_HISTORY_LIMIT, Times(rows, run.automation) + multiset{run.firedAt}, Times(rows', run.automation))
    && Others(rows', run.automation) == Others(rows, run.automation)
  }

  lemma FewerRows(head: seq<Run>, row: Run, tail: seq<Run>)
    ensures multiset(head + tail) <= multiset(head + [row] + tail)
  {
    assert multiset(head + [row] + tail) == multiset(head) + multiset{row} + multiset(tail);
    assert multiset(head + tail) == multiset(head) + multiset(tail);
  }

  /** Deleting an oldest row of `id` leaves a smaller top choice, and the other rows. */
  lemma TrimOne(all: multiset<string>, head: seq<Run>, row: Run, tail: seq<Run>, id: string)
    requires row.automation == id
    requires var times := Times(head + [row] + tail, id); IsTop(|times|, all, times) && Earliest(times, row.firedAt)
    ensures var n := |Times(head + [row] + tail, id)|;
      |Times(head + tail, id)| == n - 1 && IsTop(n - 1, all, Times(head + tail, id))
    ensures Others(head + tail, id) == Others(head + [row] + tail, id)
  {
    RemoveTime(head, row, tail, id);
    RemoveKeepsOthers(head, row, tail, id);
    DropOldest(all, Times(head + [row] + tail, id), row.firedAt);
  }

  /** A run was inserted, and maybe too many rows of its automation are left. */
  ghost predicate Trimming(rows: seq<Run>, run: Run, rows': seq<Run>) {
    var all, kept := Times(rows, run.automation) + multiset{run.firedAt}, Times(rows', run.automation);
    && IsTop(|kept|, all, kept) && |kept| >= (if RUN_HISTORY_LIMIT < |all| then RUN_HISTORY_LIMIT else |all|)
    && Others(rows', run.automation) == Others(rows, run.automation)
    && multiset(rows') <= multiset(rows) + multiset{run}
  }

  lemma Inserted(rows: seq<Run>, run: Run)
    ensures Trimming(rows, run, rows + [run])
  {
    OneMoreIn(rows, run, run.automation);
    assert Others(rows, run.automation) + [] == Others(rows, run.automation);
  }

  function Without(rows: seq<Run>, i: nat): seq<Run>
    requires i < |rows|
  {
    rows[..i] + rows[i + 1..]
  }

  lemma Around(rows: seq<Run>, i: nat)
    requires i < |rows|
    ensures rows == rows[..i] + [rows[i]] + rows[i + 1..]
  {
  }

  lemma TrimmedBetween(rows: seq<Run>, run: Run, head: seq<Run>, row: Run, tail: seq<Run>)
    requires Trimming(rows, run, head + [row] + tail) && row.automation == run.automation
    requires var times := Times(head + [row] + tail, run.automation); |times| > RUN_HISTORY_LIMIT && Earliest(times, row.firedAt)
    ensures Trimming(rows, run, head + tail)
  {
    TrimOne(Times(rows, run.automation) + multiset{run.firedAt}, head, row, tail, run.automation);
    FewerRows(head, row, tail);
  }

  lemma Trimmed(rows: seq<Run>, run: Run, rows': seq<Run>, i: nat)
    requires Trimming(rows, run, rows') && i < |rows'| && rows'[i].automation == run.automation
    requires |Times(rows', run.automation)| > RUN_HISTORY_LIMIT && Earliest(Times(rows', run.automation), rows'[i].firedAt)
    ensures Trimming(rows, run, Without(rows', i))
  {
    Around(rows', i);
    TrimmedBetween(rows, run, rows'[..i], rows'[i], rows'[i + 1..]);
  }

  lemma TrimmedEnough(rows: seq<Run>, run: Run, rows': seq<Run>)
    requires Trimming(rows, run, rows') && |Times(rows', run.automation)| <= RUN_HISTORY_LIMIT
    ensures Recorded(rows, run, rows')
  {
  }

  /** Insert a run, then trim. */
  method RecordRun(rows: seq<Run>, run: Run) returns (rows': seq<Run>)
    ensures Recorded(rows, run, rows')
  {
    rows' := rows + [run];
    Inserted(rows, run);
    while |Times(rows', run.automation)| > RUN_HISTORY_LIMIT
      invariant Trimming(rows, run, rows')
      decreases |rows'|
    {
      var i := Oldest(rows', run.automation);
      Trimmed(rows, run, rows', i);
      rows' := Without(rows', i);
    }
    TrimmedEnough(rows, run, rows');
  }

  lemma {:induction false} OthersHaveTheirTimes(rows: seq<Run>, id: string, other: string)
    requires id != other
    ensures Times(Others(rows, id), other) == Times(rows, other)
  {
    if rows != [] {
      var init, last := rows[..|rows| - 1], rows[|rows| - 1];
      OthersHaveTheirTimes(init, id, other);
      TimesAppend(Others(init, id), Other(last, id), other);
      OneRow(last, other);
    }
  }

  /** Recording a run of one automation leaves every other one's rows as they were. */
  lemma {:induction false} OthersInclude(rows: seq<Run>, id: string, other: string)
    requires id != other
    ensures RunsOf(Others(rows, id), other) == RunsOf(rows, other)
  {
    if rows != [] {
      var init, last := rows[..|rows| - 1], rows[|rows| - 1];
      OthersInclude(init, id, other);
      var rest := Others(init, id);
      if last.automation == id {
        assert rest + [] == rest;
      } else {
        assert (rest + [last])[..|rest|] == rest;
      }
    }
  }

  lemma {:induction false} NoneOfIt(rows: seq<Run>, id: string)
    ensures RunsOf(Others(rows, id), id) == []
  {
    if rows != [] {
      var init, last := rows[..|rows| - 1], rows[|rows| - 1];
      NoneOfIt(init, id);
      var rest := Others(init, id);
      if last.automation == id {
        assert rest + [] == rest;
      } else {
        assert (rest + [last])[..|rest|] == rest;
      }
    }
  }

  lemma RecordKeepsTop(id: string, past: seq<Run>, rows: seq<Run>, run: Run, rows': seq<Run>)
    requires IsTop(RUN_HISTORY_LIMIT, Times(past, id), Times(rows, id)) && Recorded(rows, run, rows')
    ensures IsTop(RUN_HISTORY_LIMIT, Times(past + [run], id), Times(rows', id))
  {
    assert (past + [run])[..|past|] == past;
    if run.automation == id {
      TopStreams(RUN_HISTORY_LIMIT, Times(past, id), Times(rows, id), run.firedAt, Times(rows', id));
    } else {
      OthersHaveTheirTimes(rows, run.automation, id);
      OthersHaveTheirTimes(rows', run.automation, id);
    }
  }

  /** The table after each of some recorded runs, from an empty one. */
  ghost predicate History(runs: seq<Run>, tables: seq<seq<Run>>) {
    && |tables| == |runs| + 1 && tables[0] == []
    && forall i :: 0 <= i < |runs| ==> Recorded(tables[i], runs[i], tables[i + 1])
  }

  lemma {:induction false} TopSoFar(runs: seq<Run>, tables: seq<seq<Run>>, id: string, n: nat)
    requires History(runs, tables) && n <= |runs|
    ensures IsTop(RUN_HISTORY_LIMIT, Times(runs[..n], id), Times(tables[n], id))
  {
    if n > 0 {
      var past, run := runs[..n - 1], runs[n - 1];
      assert runs[..n] == past + [run];
      TopSoFar(runs, tables, id, n - 1);
      RecordKeepsTop(id, past, tables[n - 1], run, tables[n]);
    }
  }

  /** Run history is a streaming top-k.  Record any runs of any automations, with fire
      times in any order and with ties: what the table keeps of each automation is the
      200 newest fire times ever recorded for it. */
  lemma HistoryIsTop(runs: seq<Run>, tables: seq<seq<Run>>, id: string)
    requires History(runs, tables)
    ensures IsTop(200, Times(runs, id), Times(tables[|runs|], id))
  {
    TopSoFar(runs, tables, id, |runs|);
    assert runs[..|runs|] == runs;
  }
}
